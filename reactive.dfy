/**
 * The first autotracking engine, src/reactive.ts: a revision clock, tags, the ambient
 * tracking scope and `memoizeFunction`, with a single global `onTagDirtied` callback in
 * place of per-tag subscriptions.
 *
 * As in the Tags module, the module-level variables are the fields of one `Engine` object
 * and tags are ids into its revision table. The callback is user code: `DirtyTag` returns
 * which callback it calls, and the caller runs it.
 */
module Reactive {
  import opened Wrappers
  import opened Revisions
  import opened Sequences
  import opened Scopes
  import opened Computations

  /** A callback installed with `setOnTagDirtied`; `NoOp` is the initial callback, which does nothing. */
  type CallbackId = nat

  const NoOp: CallbackId := 0

  class Engine {
    /** `CURRENT_REVISION` */
    var clock: Revision
    /** `tag[REVISION]` of every tag */
    var revs: seq<Revision>
    /** `currentComputation` */
    var current: Option<seq<TagId>>
    /** `onTagDirtied` */
    var onTagDirtied: CallbackId

    ghost predicate Valid()
      reads this`clock, this`revs, this`current
    {
      && Below(revs, clock)
      && (current.Some? ==> Distinct(current.value) && ValidTags(revs, current.value))
    }

    /** The state the module starts in. */
    constructor ()
      ensures Valid()
      ensures clock == 0 && revs == [] && current == None && onTagDirtied == NoOp
    {
      clock, revs, current, onTagDirtied := 0, [], None, NoOp;
    }

    /** `createTag()`: a new tag stamped with the current clock. */
    method CreateTag() returns (t: TagId)
      requires Valid()
      modifies this`revs
      ensures Valid()
      ensures t == old(|revs|) && revs == old(revs) + [clock]
      ensures forall u | 0 <= u < |revs| && u != t :: revs[u] <= revs[t]
    {
      t := |revs|;
      revs := revs + [clock];
    }

    /** `setOnTagDirtied(callback)`: the callback replaces the previous one. */
    method SetOnTagDirtied(callback: CallbackId)
      modifies this`onTagDirtied
      ensures onTagDirtied == callback
    {
      onTagDirtied := callback;
    }

    /**
     * `dirtyTag(tag)`: refused for a tag the current computation has read; otherwise the
     * clock advances by one, the tag takes the new revision and the installed callback is
     * called once (`notified`).
     */
    method DirtyTag(t: TagId) returns (status: Status, notified: Option<CallbackId>)
      requires Valid() && t < |revs|
      modifies this`clock, this`revs
      ensures Valid()
      ensures status.Failed? <==> current.Some? && t in current.value
      ensures status.Failed? ==> status.error == CyclicDirty
      ensures status.Failed? ==> clock == old(clock) && revs == old(revs) && notified == None
      ensures status.Ok? ==> clock == old(clock) + 1 && revs == StampAll(old(revs), old(clock), [t])
      ensures status.Ok? ==> forall u | 0 <= u < |revs| && u != t :: revs[u] < revs[t]
      ensures status.Ok? ==> notified == Some(onTagDirtied)
    {
      if current.Some? && t in current.value {
        return Failed(CyclicDirty), None;
      }
      clock := clock + 1;
      revs := revs[t := clock];
      status, notified := Ok, Some(onTagDirtied);
    }

    /** `consumeTag(tag)`: record the tag in the current computation, if there is one. */
    method ConsumeTag(t: TagId)
      requires Valid() && t < |revs|
      modifies this`current
      ensures Valid()
      ensures current == if old(current).Some? then Some(Add(old(current).value, t)) else None
    {
      if current.Some? {
        current := Some(Add(current.value, t));
      }
    }

    /**
     * `consumeTag` on each of `tags` in turn; this is also what bubbling does: the tags are
     * added one by one to the current computation, if there is one.
     */
    method ConsumeEach(tags: seq<TagId>)
      requires Valid() && ValidTags(revs, tags)
      modifies this`current
      ensures Valid() && current == Bubbled(old(current), tags)
    {
      if current.Some? && |tags| > 0 {
        var i := 0;
        while i < |tags|
          invariant 0 <= i <= |tags| && Valid()
          invariant current == Some(AddAll(old(current).value, tags[..i]))
        {
          assert tags[..i + 1][..i] == tags[..i];
          ConsumeTag(tags[i]);
          i := i + 1;
        }
        assert tags[..|tags|] == tags;
      }
    }
  }

  /** The closure state of one `memoizeFunction(fn)` wrapper. */
  class Memo<V> {
    var lastValue: Option<V>
    var lastRevision: Option<int>
    var lastTags: Option<seq<TagId>>

    constructor ()
      ensures lastValue == None && lastRevision == None && lastTags == None
    {
      lastValue, lastRevision, lastTags := None, None, None;
    }

    ghost predicate ValidIn(engine: Engine)
      reads this, engine`revs
    {
      && (lastTags.Some? <==> lastRevision.Some?)
      && (lastTags.Some? ==> Distinct(lastTags.value) && ValidTags(engine.revs, lastTags.value))
      && (lastTags == Some([]) ==> lastRevision == Some(NoRevision))
    }

    /** The cached result is current: the newest revision among the tags read last time is the one recorded then. */
    ghost predicate Hit(engine: Engine)
      requires ValidIn(engine)
      reads this, engine`revs
    {
      lastTags.Some? && GetMax(engine.revs, lastTags.value) == lastRevision.value
    }

    /**
     * What a recomputation leaves behind: the tags `fn` consumed (each once, in first-read
     * order) and their newest revision are the new cache key; the value is replaced only
     * when `fn` returned, and a thrown error is passed on.
     */
    ghost predicate Recomputed(engine: Engine, run: Run<V>, oldValue: Option<V>, reply: Reply<V>)
      reads this, engine`revs
    {
      && lastTags == Some(AddAll([], run.consumed))
      && ValidTags(engine.revs, lastTags.value)
      && lastRevision == Some(GetMax(engine.revs, lastTags.value))
      && (run.outcome.Returns? ==> lastValue == Some(run.outcome.value) && reply == Value(lastValue))
      && (run.outcome.Throws? ==> lastValue == oldValue && reply == Raised(run.outcome.error))
    }

    /**
     * One call of the wrapper. On a hit `fn` is not invoked, the cached value comes back and
     * the cached tags bubble into the enclosing computation; otherwise see Recompute.
     */
    method Call(engine: Engine, run: Run<V>) returns (reply: Reply<V>, invoked: bool)
      requires engine.Valid() && ValidIn(engine) && ValidTags(engine.revs, run.consumed)
      modifies this, engine`current
      ensures engine.Valid() && ValidIn(engine)
      ensures invoked <==> !old(Hit(engine))
      ensures old(lastTags) == Some([]) ==> !invoked
      ensures Hit(engine)
      ensures engine.current == Bubbled(old(engine.current), lastTags.value)
      ensures !invoked ==> reply == Value(lastValue)
      ensures !invoked ==> lastValue == old(lastValue) && lastTags == old(lastTags) && lastRevision == old(lastRevision)
      ensures invoked ==> Recomputed(engine, run, old(lastValue), reply)
    {
      if lastTags.Some? && GetMax(engine.revs, lastTags.value) == lastRevision.value {
        engine.ConsumeEach(lastTags.value);
        return Value(lastValue), false;
      }
      reply := Recompute(engine, run);
      invoked := true;
    }

    /**
     * `fn` runs in a fresh scope; whether it returns or throws (the `finally` block), the
     * tags it consumed become the new cache key and bubble into the enclosing computation,
     * and the enclosing computation is current again.
     */
    method Recompute(engine: Engine, run: Run<V>) returns (reply: Reply<V>)
      requires engine.Valid() && ValidIn(engine) && ValidTags(engine.revs, run.consumed)
      modifies this, engine`current
      ensures engine.Valid() && ValidIn(engine)
      ensures Recomputed(engine, run, old(lastValue), reply)
      ensures engine.current == Bubbled(old(engine.current), lastTags.value)
    {
      var previous := engine.current;
      engine.current := Some([]);
      engine.ConsumeEach(run.consumed);  // fn(): the user function consumes its tags
      if run.outcome.Returns? {
        lastValue := Some(run.outcome.value);
      }
      Finish(engine, previous);
      reply := if run.outcome.Returns? then Value(lastValue) else Raised(run.outcome.error);
    }

    /**
     * The `finally` block: `Array.from(currentComputation)` and its maximum become the cache
     * key, the recorded tags bubble into the previous computation, which is current again.
     */
    method Finish(engine: Engine, previous: Option<seq<TagId>>)
      requires engine.Valid() && ValidIn(engine) && engine.current.Some?
      requires previous.Some? ==> Distinct(previous.value) && ValidTags(engine.revs, previous.value)
      modifies this`lastTags, this`lastRevision, engine`current
      ensures engine.Valid() && ValidIn(engine)
      ensures lastTags == old(engine.current) && ValidTags(engine.revs, lastTags.value)
      ensures lastRevision == Some(GetMax(engine.revs, lastTags.value))
      ensures engine.current == Bubbled(previous, lastTags.value)
    {
      var recorded := engine.current.value;
      lastTags := Some(recorded);
      lastRevision := Some(GetMax(engine.revs, recorded));
      engine.current := previous;
      engine.ConsumeEach(recorded);
    }
  }
}
