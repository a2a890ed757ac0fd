/**
 * The autotracking engine of src/tag.ts: the revision clock, tags with their subscriber
 * sets, the ambient tracking scope, the microtask scheduler, subscription controllers,
 * `memoize`, `collectSubscriptions` and `watchEffect`.
 *
 * The module-level variables of src/tag.ts are the fields of one `Engine` object. Tags are
 * ids into its tables; effects (JavaScript closures) are ids handed out by `NewEffect`.
 * Effects are user code, so the engine does not run them: an operation that would call an
 * effect or a teardown returns which one it calls, and the caller runs it.
 */
module Tags {
  import opened Wrappers
  import opened Revisions
  import opened Sequences
  import opened Scopes
  import opened Computations

  /** An effect closure: a controller's `effect`. */
  type EffectId = nat

  /** A teardown registered through `onInvalidate`. */
  type TeardownId = nat

  /** The effects subscribed to any of `tags`: what a flush of `tags` owes. */
  ghost function Due(subs: seq<set<EffectId>>, tags: set<TagId>): set<EffectId> {
    set t, e | t in tags && 0 <= t < |subs| && e in subs[t] :: e
  }

  class Engine {
    /** `CURRENT_REVISION` */
    var clock: Revision
    /** `tag[REVISION]` of every tag */
    var revs: seq<Revision>
    /** `tag.subscriptions` of every tag */
    var subs: seq<set<EffectId>>
    /** `currentComputation` */
    var current: Option<seq<TagId>>
    /** `scheduledTags` */
    var scheduled: set<TagId>
    /** Whether a flush is waiting for the next microtask (`nextTick` is set). */
    var tickPending: bool
    /** `subscriptions`, the list `collectSubscriptions` is filling, if any */
    var collecting: Option<seq<SubscriptionController>>
    /** the next fresh effect identity */
    var nextEffect: EffectId

    ghost predicate Valid()
      reads this`clock, this`revs, this`subs, this`current, this`scheduled, this`tickPending, this`nextEffect
    {
      && |subs| == |revs|
      && Below(revs, clock)
      && (current.Some? ==> Distinct(current.value) && ValidTags(revs, current.value))
      && (forall t | t in scheduled :: t < |revs|)
      && (tickPending <==> scheduled != {})
      && (forall t, e | 0 <= t < |subs| && e in subs[t] :: e < nextEffect)
    }

    /** The state the module starts in. */
    constructor ()
      ensures Valid()
      ensures clock == 0 && revs == [] && subs == [] && current == None
      ensures scheduled == {} && !tickPending && collecting == None && nextEffect == 0
    {
      clock, revs, subs, current := 0, [], [], None;
      scheduled, tickPending, collecting, nextEffect := {}, false, None, 0;
    }

    /** A fresh effect closure, subscribed to nothing. */
    method NewEffect() returns (e: EffectId)
      requires Valid()
      modifies this`nextEffect
      ensures Valid() && e == old(nextEffect) && nextEffect == e + 1
      ensures forall t | 0 <= t < |subs| :: e !in subs[t]
    {
      e := nextEffect;
      nextEffect := nextEffect + 1;
    }

    /** `createTag()`: a new tag stamped with the current clock, with no subscribers. */
    method CreateTag() returns (t: TagId)
      requires Valid()
      modifies this`revs, this`subs
      ensures Valid()
      ensures t == old(|revs|) && revs == old(revs) + [clock] && subs == old(subs) + [{}]
      ensures forall u | 0 <= u < |revs| && u != t :: revs[u] <= revs[t]
    {
      t := |revs|;
      revs := revs + [clock];
      subs := subs + [{}];
    }

    /** `tag.subscribe(effect)` */
    method TagSubscribe(t: TagId, e: EffectId)
      requires Valid() && t < |subs| && e < nextEffect
      modifies this`subs
      ensures Valid() && subs == old(subs)[t := old(subs)[t] + {e}]
    {
      subs := subs[t := subs[t] + {e}];
    }

    /** `tag.unsubscribe(effect)` */
    method TagUnsubscribe(t: TagId, e: EffectId)
      requires Valid() && t < |subs|
      modifies this`subs
      ensures Valid() && subs == old(subs)[t := old(subs)[t] - {e}]
    {
      subs := subs[t := subs[t] - {e}];
    }

    /** `schedule(tag)`: queue the tag and ask for a flush unless one is already pending. */
    method Schedule(t: TagId)
      requires Valid() && t < |revs|
      modifies this`scheduled, this`tickPending
      ensures Valid() && scheduled == old(scheduled) + {t} && tickPending
    {
      scheduled := scheduled + {t};
      if !tickPending {
        tickPending := true;
      }
    }

    /**
     * `dirtyTag(tag)`: refused for a tag the current computation has read; otherwise the
     * clock advances by one, the tag takes the new revision, and a tag with subscribers is
     * scheduled.
     */
    method DirtyTag(t: TagId) returns (status: Status)
      requires Valid() && t < |revs|
      modifies this`clock, this`revs, this`scheduled, this`tickPending
      ensures Valid()
      ensures status.Failed? <==> current.Some? && t in current.value
      ensures status.Failed? ==> status.error == CyclicDirty
      ensures status.Failed? ==>
        clock == old(clock) && revs == old(revs) && scheduled == old(scheduled) && tickPending == old(tickPending)
      ensures status.Ok? ==> clock == old(clock) + 1 && revs == StampAll(old(revs), old(clock), [t])
      ensures status.Ok? ==> forall u | 0 <= u < |revs| && u != t :: revs[u] < revs[t]
      ensures status.Ok? ==> scheduled == if subs[t] != {} then old(scheduled) + {t} else old(scheduled)
      ensures status.Ok? ==> tickPending == (old(tickPending) || subs[t] != {})
    {
      if current.Some? && t in current.value {
        return Failed(CyclicDirty);
      }
      clock := clock + 1;
      revs := revs[t := clock];
      if |subs[t]| > 0 {
        Schedule(t);
      }
      status := Ok;
    }

    /** `consumeTag(tag)`: record the tag in the current computation, if there is one. */
    method ConsumeTag(t: TagId)
      requires Valid() && t < |revs|
      modifies this`current
      ensures Valid()
      ensures current == if old(current).Some? then Some(Add(old(current).value, t)) else None
    {
      if current.Some? {
        current := Some(Add(current.value, t));
      }
    }

    /**
     * `consumeTag` on each of `tags` in turn. This is also what bubbling does: the tags are
     * added one by one to the current computation, if there is one.
     */
    method ConsumeEach(tags: seq<TagId>)
      requires Valid() && ValidTags(revs, tags)
      modifies this`current
      ensures Valid() && current == Bubbled(old(current), tags)
    {
      if current.Some? && |tags| > 0 {
        var i := 0;
        while i < |tags|
          invariant 0 <= i <= |tags| && Valid()
          invariant current == Some(AddAll(old(current).value, tags[..i]))
        {
          assert tags[..i + 1][..i] == tags[..i];
          ConsumeTag(tags[i]);
          i := i + 1;
        }
        assert tags[..|tags|] == tags;
      }
    }

    /**
     * `drainQueue()`: cancel the pending tick, gather every effect subscribed to a scheduled
     * tag, each once, and empty the queue. The returned effects are the ones the flush then
     * calls, in this order; a tag they dirty is scheduled for a new flush.
     */
    method Flush() returns (fired: seq<EffectId>)
      requires Valid()
      modifies this`scheduled, this`tickPending
      ensures Valid() && scheduled == {} && !tickPending
      ensures forall i, j | 0 <= i < j < |fired| :: fired[i] != fired[j]
      ensures forall e :: e in fired <==> e in Due(subs, old(scheduled))
    {
      tickPending := false;
      var effects: seq<EffectId> := [];
      var todo := scheduled;
      ghost var done: set<TagId> := {};
      while todo != {}
        invariant todo + done == scheduled && todo !! done
        invariant scheduled == old(scheduled) && !tickPending
        invariant forall i, j | 0 <= i < j < |effects| :: effects[i] != effects[j]
        invariant forall e :: e in effects <==> e in Due(subs, done)
        decreases todo
      {
        var t :| t in todo;
        var pending := subs[t];
        while pending != {}
          invariant pending <= subs[t]
          invariant forall i, j | 0 <= i < j < |effects| :: effects[i] != effects[j]
          invariant forall e :: e in effects <==> e in Due(subs, done) || e in subs[t] - pending
          decreases pending
        {
          var e :| e in pending;
          if e !in effects {
            effects := effects + [e];
          }
          pending := pending - {e};
        }
        DueStep(subs, done, t);
        todo, done := todo - {t}, done + {t};
      }
      scheduled := {};
      fired := effects;
    }
  }

  /** Adding one tag to a flush adds exactly that tag's subscribers to what it owes. */
  lemma DueStep(subs: seq<set<EffectId>>, done: set<TagId>, t: TagId)
    requires t < |subs|
    ensures forall e :: e in Due(subs, done + {t}) <==> e in Due(subs, done) || e in subs[t]
  {
    forall e | e in subs[t] ensures e in Due(subs, done + {t}) {
      assert t in done + {t} && e in subs[t];
    }
  }

  /** Subscribing `e` to each of `tags` in turn: `e` joins exactly the listed tags. */
  function SubscribeEach(subs: seq<set<EffectId>>, tags: seq<TagId>, e: EffectId): (r: seq<set<EffectId>>)
    requires forall i | 0 <= i < |tags| :: tags[i] < |subs|
    ensures |r| == |subs|
    ensures forall t | 0 <= t < |subs| :: r[t] == if t in tags then subs[t] + {e} else subs[t]
    decreases |tags|
  {
    if tags == [] then subs
    else
      var p := SubscribeEach(subs, tags[..|tags| - 1], e);
      var t := tags[|tags| - 1];
      assert forall u :: u in tags <==> u in tags[..|tags| - 1] || u == t;
      p[t := p[t] + {e}]
  }

  /** Unsubscribing `e` from each of `tags` in turn: `e` leaves exactly the listed tags. */
  function UnsubscribeEach(subs: seq<set<EffectId>>, tags: seq<TagId>, e: EffectId): (r: seq<set<EffectId>>)
    requires forall i | 0 <= i < |tags| :: tags[i] < |subs|
    ensures |r| == |subs|
    ensures forall t | 0 <= t < |subs| :: r[t] == if t in tags then subs[t] - {e} else subs[t]
    decreases |tags|
  {
    if tags == [] then subs
    else
      var p := UnsubscribeEach(subs, tags[..|tags| - 1], e);
      var t := tags[|tags| - 1];
      assert forall u :: u in tags <==> u in tags[..|tags| - 1] || u == t;
      p[t := p[t] - {e}]
  }

  /**
   * The subscription invariant of a controller: while it is subscribed its effect is
   * registered on exactly the tags of its list, and while it is not, on none.
   */
  ghost predicate Bound(subs: seq<set<EffectId>>, e: EffectId, tags: seq<TagId>, subscribed: bool) {
    forall t | 0 <= t < |subs| :: e in subs[t] <==> subscribed && t in tags
  }

  /** `SubscriptionController`: binds one effect to the tag list of the last recomputation. */
  class SubscriptionController {
    var tags: seq<TagId>
    var isSubscribed: bool
    var lastRevision: int
    const effect: EffectId
    /**
     * `cleanup`. The only code that sets it is `onInvalidate` in `watchEffect`, which stores
     * a wrapper that runs the teardown and then unsets `cleanup`; Some(d) is that wrapper
     * around teardown d.
     */
    var cleanup: Option<TeardownId>

    ghost predicate ValidIn(engine: Engine)
      reads this`tags, this`isSubscribed, this`lastRevision, engine`revs, engine`subs, engine`nextEffect
    {
      && ValidTags(engine.revs, tags)
      && lastRevision >= NoRevision
      && effect < engine.nextEffect
      && Bound(engine.subs, effect, tags, isSubscribed)
    }

    constructor (effect: EffectId)
      ensures this.effect == effect && tags == [] && !isSubscribed && lastRevision == 0 && cleanup == None
    {
      this.effect := effect;
      tags, isSubscribed, lastRevision, cleanup := [], false, 0, None;
    }

    /** `subscribeToTags()` */
    method SubscribeToTags(engine: Engine)
      requires engine.Valid() && ValidTags(engine.revs, tags) && effect < engine.nextEffect
      modifies engine`subs
      ensures engine.Valid() && engine.subs == SubscribeEach(old(engine.subs), tags, effect)
    {
      var i := 0;
      while i < |tags|
        invariant 0 <= i <= |tags| && engine.Valid()
        invariant engine.subs == SubscribeEach(old(engine.subs), tags[..i], effect)
      {
        assert tags[..i + 1][..i] == tags[..i];
        engine.TagSubscribe(tags[i], effect);
        i := i + 1;
      }
      assert tags[..|tags|] == tags;
    }

    /** `unsubscribeFromTags()` */
    method UnsubscribeFromTags(engine: Engine)
      requires engine.Valid() && ValidTags(engine.revs, tags)
      modifies engine`subs
      ensures engine.Valid() && engine.subs == UnsubscribeEach(old(engine.subs), tags, effect)
    {
      var i := 0;
      while i < |tags|
        invariant 0 <= i <= |tags| && engine.Valid()
        invariant engine.subs == UnsubscribeEach(old(engine.subs), tags[..i], effect)
      {
        assert tags[..i + 1][..i] == tags[..i];
        engine.TagUnsubscribe(tags[i], effect);
        i := i + 1;
      }
      assert tags[..|tags|] == tags;
    }

    /**
     * `setObservedTags(tags, lastRevision)`: a subscribed controller moves its effect from
     * the old tags to the new ones; either way the list and the revision are replaced.
     */
    method SetObservedTags(engine: Engine, newTags: seq<TagId>, revision: int)
      requires engine.Valid() && ValidIn(engine)
      requires ValidTags(engine.revs, newTags) && revision >= NoRevision
      modifies this`tags, this`lastRevision, engine`subs
      ensures engine.Valid() && ValidIn(engine)
      ensures tags == newTags && lastRevision == revision
      ensures engine.subs == if isSubscribed
        then SubscribeEach(UnsubscribeEach(old(engine.subs), old(tags), effect), newTags, effect)
        else old(engine.subs)
    {
      if isSubscribed {
        UnsubscribeFromTags(engine);
        tags := newTags;
        SubscribeToTags(engine);
      } else {
        tags := newTags;
      }
      lastRevision := revision;
    }

    /**
     * `subscribe()`: idempotent. The first call registers the effect on every tag and, when
     * a tag has moved past the revision last observed, reports that the effect is to be
     * called once, synchronously (the `fired` result).
     */
    method Subscribe(engine: Engine) returns (fired: bool)
      requires engine.Valid() && ValidIn(engine)
      modifies this`isSubscribed, engine`subs
      ensures engine.Valid() && ValidIn(engine) && isSubscribed
      ensures old(isSubscribed) ==> engine.subs == old(engine.subs) && !fired
      ensures !old(isSubscribed) ==> engine.subs == SubscribeEach(old(engine.subs), tags, effect)
      ensures !old(isSubscribed) ==> (fired <==> GetMax(engine.revs, tags) > lastRevision)
      ensures tags == [] ==> !fired
    {
      if isSubscribed {
        return false;
      }
      SubscribeToTags(engine);
      isSubscribed := true;
      fired := GetMax(engine.revs, tags) > lastRevision;
    }

    /**
     * `unsubscribe()`: idempotent. The first call removes the effect from every tag and runs
     * the cleanup, if one is set; `tornDown` is the teardown that ran.
     */
    method Unsubscribe(engine: Engine) returns (tornDown: Option<TeardownId>)
      requires engine.Valid() && ValidIn(engine)
      modifies this`isSubscribed, this`cleanup, engine`subs
      ensures engine.Valid() && ValidIn(engine) && !isSubscribed
      ensures old(isSubscribed) ==> engine.subs == UnsubscribeEach(old(engine.subs), tags, effect)
      ensures old(isSubscribed) ==> tornDown == old(cleanup) && cleanup == None
      ensures !old(isSubscribed) ==> engine.subs == old(engine.subs) && tornDown == None && cleanup == old(cleanup)
    {
      if !isSubscribed {
        return None;
      }
      UnsubscribeFromTags(engine);
      tornDown := cleanup;
      if cleanup.Some? {
        cleanup := None;
      }
      isSubscribed := false;
    }
  }

  /** The closure state of one `memoize(fn, controller)` wrapper. */
  class Memo<V> {
    var lastValue: Option<V>
    var lastRevision: Option<int>
    var lastTags: Option<seq<TagId>>
    const controller: SubscriptionController?

    constructor (controller: SubscriptionController?)
      ensures this.controller == controller
      ensures lastValue == None && lastRevision == None && lastTags == None
    {
      this.controller := controller;
      lastValue, lastRevision, lastTags := None, None, None;
    }

    ghost predicate ValidIn(engine: Engine)
      reads this, engine`revs
    {
      && (lastTags.Some? <==> lastRevision.Some?)
      && (lastTags.Some? ==> Distinct(lastTags.value) && ValidTags(engine.revs, lastTags.value))
      && (lastTags == Some([]) ==> lastRevision == Some(NoRevision))
    }

    /** The cached result is current: the newest revision among the tags read last time is the one recorded then. */
    ghost predicate Hit(engine: Engine)
      requires ValidIn(engine)
      reads this, engine`revs
    {
      lastTags.Some? && GetMax(engine.revs, lastTags.value) == lastRevision.value
    }

    /**
     * One call of the wrapper. On a hit `fn` is not invoked, the cached value comes back and
     * the cached tags bubble into the enclosing computation; otherwise see Recompute.
     */
    method Call(engine: Engine, run: Run<V>) returns (reply: Reply<V>, invoked: bool)
      requires engine.Valid() && ValidIn(engine) && ValidTags(engine.revs, run.consumed)
      requires controller != null ==> controller.ValidIn(engine)
      modifies this, engine`current, engine`subs, controller
      ensures engine.Valid() && ValidIn(engine) && (controller != null ==> controller.ValidIn(engine))
      ensures invoked <==> !old(Hit(engine))
      ensures old(lastTags) == Some([]) ==> !invoked
      ensures Hit(engine)
      ensures engine.current == Bubbled(old(engine.current), lastTags.value)
      ensures controller != null ==> controller.isSubscribed == old(controller.isSubscribed) && controller.cleanup == old(controller.cleanup)
      ensures !invoked ==> reply == Value(lastValue) && lastValue == old(lastValue)
      ensures !invoked ==> lastTags == old(lastTags) && lastRevision == old(lastRevision) && engine.subs == old(engine.subs)
      ensures !invoked && controller != null ==>
        controller.tags == old(controller.tags) && controller.lastRevision == old(controller.lastRevision)
      ensures invoked ==> Recomputed(engine, run, old(lastValue), old(engine.subs), old(ObservedTags()), reply)
    {
      if lastTags.Some? && GetMax(engine.revs, lastTags.value) == lastRevision.value {
        engine.ConsumeEach(lastTags.value);
        return Value(lastValue), false;
      }
      reply := Recompute(engine, run);
      invoked := true;
    }

    /** The controller's tag list, or none without a controller. */
    ghost function ObservedTags(): seq<TagId>
      reads this, controller
    {
      if controller != null then controller.tags else []
    }

    /**
     * What a recomputation leaves behind: the tags `fn` consumed (each once, in first-read
     * order) and their newest revision are the new cache key and the controller's list; the
     * value is replaced only when `fn` returned; a thrown error is passed on; a subscribed
     * controller has moved its effect from its old tags to the new ones.
     */
    ghost predicate Recomputed(engine: Engine, run: Run<V>, oldValue: Option<V>,
                               oldSubs: seq<set<EffectId>>, oldControllerTags: seq<TagId>, reply: Reply<V>)
      reads this, engine`revs, engine`subs, controller
      requires |oldSubs| == |engine.revs| && ValidTags(engine.revs, oldControllerTags)
    {
      && lastTags == Some(AddAll([], run.consumed))
      && ValidTags(engine.revs, lastTags.value)
      && lastRevision == Some(GetMax(engine.revs, lastTags.value))
      && (run.outcome.Returns? ==> lastValue == Some(run.outcome.value) && reply == Value(lastValue))
      && (run.outcome.Throws? ==> lastValue == oldValue && reply == Raised(run.outcome.error))
      && (controller != null ==> controller.tags == lastTags.value && controller.lastRevision == lastRevision.value)
      && engine.subs == if controller != null && controller.isSubscribed
           then SubscribeEach(UnsubscribeEach(oldSubs, oldControllerTags, controller.effect),
                              lastTags.value, controller.effect)
           else oldSubs
    }

    /**
     * `fn` runs in a fresh scope; whether it returns or throws (the `finally` block), the
     * tags it consumed become the new cache key, bubble into the enclosing computation and
     * go to the controller, and the enclosing computation is current again.
     */
    method Recompute(engine: Engine, run: Run<V>) returns (reply: Reply<V>)
      requires engine.Valid() && ValidIn(engine) && ValidTags(engine.revs, run.consumed)
      requires controller != null ==> controller.ValidIn(engine)
      modifies this, engine`current, engine`subs, controller
      ensures engine.Valid() && ValidIn(engine) && (controller != null ==> controller.ValidIn(engine))
      ensures Recomputed(engine, run, old(lastValue), old(engine.subs), old(ObservedTags()), reply)
      ensures engine.current == Bubbled(old(engine.current), lastTags.value)
      ensures controller != null ==> controller.isSubscribed == old(controller.isSubscribed) && controller.cleanup == old(controller.cleanup)
    {
      var previous := engine.current;
      engine.current := Some([]);
      engine.ConsumeEach(run.consumed);  // fn(): the user function consumes its tags
      if run.outcome.Returns? {
        lastValue := Some(run.outcome.value);
      }
      Finish(engine, previous);
      reply := if run.outcome.Returns? then Value(lastValue) else Raised(run.outcome.error);
    }

    /**
     * The `finally` block. `previousComputation` is the very set that becomes current again,
     * so it is restored first and the recorded tags are then added to it.
     */
    method Finish(engine: Engine, previous: Option<seq<TagId>>)
      requires engine.Valid() && ValidIn(engine) && engine.current.Some?
      requires previous.Some? ==> Distinct(previous.value) && ValidTags(engine.revs, previous.value)
      requires controller != null ==> controller.ValidIn(engine)
      modifies this`lastTags, this`lastRevision, engine`current, engine`subs, controller
      ensures engine.Valid() && ValidIn(engine) && (controller != null ==> controller.ValidIn(engine))
      ensures lastTags == old(engine.current) && ValidTags(engine.revs, lastTags.value)
      ensures lastRevision == Some(GetMax(engine.revs, lastTags.value))
      ensures engine.current == Bubbled(previous, lastTags.value)
      ensures controller != null ==> controller.isSubscribed == old(controller.isSubscribed) && controller.cleanup == old(controller.cleanup)
      ensures controller != null ==> controller.tags == lastTags.value && controller.lastRevision == lastRevision.value
      ensures engine.subs == if controller != null && controller.isSubscribed
        then SubscribeEach(UnsubscribeEach(old(engine.subs), old(controller.tags), controller.effect),
                           lastTags.value, controller.effect)
        else old(engine.subs)
    {
      var recorded := engine.current.value;
      lastTags := Some(recorded);
      lastRevision := Some(GetMax(engine.revs, recorded));
      engine.current := previous;
      engine.ConsumeEach(recorded);
      if controller != null {
        controller.SetObservedTags(engine, recorded, lastRevision.value);
      }
    }
  }

  /**
   * One run of a `watchEffect` body: what `fn(onInvalidate)` does to the engine, plus the
   * teardown it last handed to `onInvalidate` during the run, if any.
   */
  datatype WatchRun = WatchRun(body: Run<()>, registers: Option<TeardownId>)

  /** The closures of one `watchEffect` call: its controller and its memoized body `run`. */
  class Watcher {
    const controller: SubscriptionController
    const run: Memo<()>

    /**
     * The closures `watchEffect` sets up before its first run: a fresh `effect`, a controller
     * for it and the memoized body.
     */
    constructor (engine: Engine)
      requires engine.Valid()
      modifies engine`nextEffect
      ensures engine.Valid() && fresh(controller) && fresh(run) && ValidIn(engine)
      ensures controller.effect == old(engine.nextEffect) && engine.nextEffect == old(engine.nextEffect) + 1
      ensures controller.tags == [] && !controller.isSubscribed && controller.cleanup == None
      ensures run.lastTags == None
    {
      var e := engine.NewEffect();
      var c := new SubscriptionController(e);
      controller := c;
      run := new Memo<()>(c);
    }

    ghost predicate ValidIn(engine: Engine)
      reads this, controller`tags, controller`isSubscribed, controller`lastRevision, run
      reads engine`revs, engine`subs, engine`nextEffect
    {
      && run.controller == controller
      && controller.ValidIn(engine) && run.ValidIn(engine)
      && (run.lastTags.Some? ==>
            controller.tags == run.lastTags.value && controller.lastRevision == run.lastRevision.value)
    }

    /** The `cleanup` wrapper, if one is set: it runs its teardown and unsets itself. */
    method TearDown() returns (tornDown: Option<TeardownId>)
      modifies controller`cleanup
      ensures tornDown == old(controller.cleanup) && controller.cleanup == None
    {
      tornDown := controller.cleanup;
      if controller.cleanup.Some? {
        controller.cleanup := None;
      }
    }

    /** `onInvalidate(d)`, called from a body that runs: `d` becomes the teardown on record. */
    method OnInvalidate(registers: Option<TeardownId>)
      modifies controller`cleanup
      ensures controller.cleanup == if registers.Some? then registers else old(controller.cleanup)
    {
      if registers.Some? {
        controller.cleanup := registers;
      }
    }

    /**
     * `effect()`: run the registered teardown, if any (which unregisters it), then the
     * memoized body. A body that actually runs may register a new teardown; one served from
     * the cache registers nothing, so a teardown never runs twice for one registration.
     */
    method Effect(engine: Engine, next: WatchRun) returns (status: Status, tornDown: Option<TeardownId>)
      requires engine.Valid() && ValidIn(engine) && ValidTags(engine.revs, next.body.consumed)
      modifies controller, run, engine`current, engine`subs
      ensures engine.Valid() && ValidIn(engine) && run.Hit(engine)
      ensures controller.isSubscribed == old(controller.isSubscribed)
      ensures tornDown == old(controller.cleanup)
      ensures controller.cleanup == if old(run.Hit(engine)) then None else next.registers
      ensures engine.current == Bubbled(old(engine.current), controller.tags)
      ensures old(run.Hit(engine)) ==>
        status == Ok && engine.subs == old(engine.subs) && controller.tags == old(controller.tags)
      ensures !old(run.Hit(engine)) ==>
        controller.tags == AddAll([], next.body.consumed) && controller.lastRevision == GetMax(engine.revs, controller.tags)
      ensures !old(run.Hit(engine)) ==>
        status == if next.body.outcome.Throws? then Failed(next.body.outcome.error) else Ok
      ensures !old(run.Hit(engine)) ==> engine.subs == if controller.isSubscribed
        then SubscribeEach(UnsubscribeEach(old(engine.subs), old(controller.tags), controller.effect),
                           controller.tags, controller.effect)
        else old(engine.subs)
    {
      tornDown := TearDown();
      var reply, invoked := run.Call(engine, next.body);
      // `onInvalidate` is called while the body runs; it touches only `cleanup`, which the
      // rest of the call leaves alone, so it is applied once the call is over
      if invoked {
        OnInvalidate(next.registers);
      }
      status := if reply.Raised? then Failed(reply.error) else Ok;
    }

    /**
     * The immediate first run `watchEffect` makes: nothing is cached yet, so the body runs,
     * its tags become the observed ones and nothing is subscribed to them.
     */
    method Start(engine: Engine, first: WatchRun) returns (status: Status)
      requires engine.Valid() && ValidIn(engine) && ValidTags(engine.revs, first.body.consumed)
      requires controller.tags == [] && !controller.isSubscribed && controller.cleanup == None
      requires run.lastTags == None
      modifies controller, run, engine`current, engine`subs
      ensures engine.Valid() && ValidIn(engine) && run.Hit(engine) && engine.subs == old(engine.subs)
      ensures !controller.isSubscribed && controller.cleanup == first.registers
      ensures controller.tags == AddAll([], first.body.consumed)
      ensures controller.lastRevision == GetMax(engine.revs, controller.tags)
      ensures engine.current == Bubbled(old(engine.current), controller.tags)
      ensures status == if first.body.outcome.Throws? then Failed(first.body.outcome.error) else Ok
    {
      var tornDown;
      status, tornDown := Effect(engine, first);
    }

    /**
     * What `watchEffect` does once the closures exist: the first run, then (unless it threw)
     * a place on the list `collectSubscriptions` is filling, or a subscription if there is none.
     */
    method Launch(engine: Engine, first: WatchRun) returns (status: Status)
      requires engine.Valid() && ValidIn(engine) && ValidTags(engine.revs, first.body.consumed)
      requires controller.tags == [] && !controller.isSubscribed && controller.cleanup == None
      requires run.lastTags == None
      modifies controller, run, engine`current, engine`subs, engine`collecting
      ensures engine.Valid() && ValidIn(engine) && run.Hit(engine)
      ensures controller.tags == AddAll([], first.body.consumed) && controller.cleanup == first.registers
      ensures controller.lastRevision == GetMax(engine.revs, controller.tags)
      ensures engine.current == Bubbled(old(engine.current), controller.tags)
      ensures status == if first.body.outcome.Throws? then Failed(first.body.outcome.error) else Ok
      ensures status.Failed? || old(engine.collecting).Some? ==>
        !controller.isSubscribed && engine.subs == old(engine.subs)
      ensures engine.collecting == if status.Ok? && old(engine.collecting).Some?
        then Some(old(engine.collecting).value + [controller])
        else old(engine.collecting)
      ensures status.Ok? && old(engine.collecting).None? ==>
        controller.isSubscribed && engine.subs == SubscribeEach(old(engine.subs), controller.tags, controller.effect)
    {
      status := Start(engine, first);
      Enlist(engine, status);
    }

    /**
     * The step of `watchEffect` after the first run: when it threw, the error propagates and
     * nothing happens; otherwise the controller joins the list `collectSubscriptions` is
     * filling, if one is, and subscribes at once if not.
     */
    method Enlist(engine: Engine, status: Status)
      requires engine.Valid() && ValidIn(engine) && !controller.isSubscribed
      requires controller.lastRevision == GetMax(engine.revs, controller.tags)
      modifies engine`collecting, engine`subs, controller`isSubscribed
      ensures engine.Valid() && ValidIn(engine)
      ensures status.Failed? || old(engine.collecting).Some? ==>
        !controller.isSubscribed && engine.subs == old(engine.subs)
      ensures engine.collecting == if status.Ok? && old(engine.collecting).Some?
        then Some(old(engine.collecting).value + [controller])
        else old(engine.collecting)
      ensures status.Ok? && old(engine.collecting).None? ==>
        controller.isSubscribed && engine.subs == SubscribeEach(old(engine.subs), controller.tags, controller.effect)
    {
      if status.Failed? {
        return;
      }
      if engine.collecting.Some? {
        engine.collecting := Some(engine.collecting.value + [controller]);
      } else {
        var fired := controller.Subscribe(engine);
        // the catch-up firing cannot happen here: nothing ran since the tags were observed
        assert !fired;
      }
    }

    /** The disposer `watchEffect` returns: `controller.unsubscribe()`. */
    method Dispose(engine: Engine) returns (tornDown: Option<TeardownId>)
      requires engine.Valid() && ValidIn(engine)
      modifies controller`isSubscribed, controller`cleanup, engine`subs
      ensures engine.Valid() && ValidIn(engine) && !controller.isSubscribed
      ensures forall t | 0 <= t < |engine.subs| :: controller.effect !in engine.subs[t]
      ensures forall t, e | 0 <= t < |engine.subs| && e != controller.effect :: e in engine.subs[t] <==> e in old(engine.subs)[t]
      ensures tornDown == if old(controller.isSubscribed) then old(controller.cleanup) else None
      ensures controller.cleanup == if old(controller.isSubscribed) then None else old(controller.cleanup)
    {
      tornDown := controller.Unsubscribe(engine);
    }
  }

  /**
   * `watchEffect(fn)`: a fresh effect and controller, one immediate run of the body, and then
   * either a place on the list `collectSubscriptions` is filling or an immediate subscription.
   * A body that throws on this first run leaves the watcher neither listed nor subscribed.
   */
  method WatchEffect(engine: Engine, first: WatchRun) returns (w: Watcher, status: Status)
    requires engine.Valid() && ValidTags(engine.revs, first.body.consumed)
    modifies engine`nextEffect, engine`current, engine`subs, engine`collecting
    ensures engine.Valid() && fresh(w) && fresh(w.controller) && fresh(w.run) && w.ValidIn(engine)
    ensures w.run.Hit(engine)
    ensures w.controller.effect == old(engine.nextEffect) && engine.nextEffect == old(engine.nextEffect) + 1
    ensures w.controller.tags == AddAll([], first.body.consumed) && w.controller.cleanup == first.registers
    ensures w.controller.lastRevision == GetMax(engine.revs, w.controller.tags)
    ensures engine.current == Bubbled(old(engine.current), w.controller.tags)
    ensures status == if first.body.outcome.Throws? then Failed(first.body.outcome.error) else Ok
    ensures status.Failed? || old(engine.collecting).Some? ==>
      !w.controller.isSubscribed && engine.subs == old(engine.subs)
    ensures engine.collecting == if status.Ok? && old(engine.collecting).Some?
      then Some(old(engine.collecting).value + [w.controller])
      else old(engine.collecting)
    ensures status.Ok? && old(engine.collecting).None? ==>
      w.controller.isSubscribed && engine.subs == SubscribeEach(old(engine.subs), w.controller.tags, w.controller.effect)
  {
    w := new Watcher(engine);
    status := w.Launch(engine, first);
  }

  /** How many watcher bodies return before the first one that throws: all of them when none throws. */
  function Returned(watches: seq<WatchRun>): (n: nat)
    ensures n <= |watches|
    ensures forall i | 0 <= i < n :: watches[i].body.outcome.Returns?
    ensures n < |watches| ==> watches[n].body.outcome.Throws?
  {
    if watches == [] || watches[0].body.outcome.Throws? then 0
    else
      var n := Returned(watches[1..]);
      assert forall i | 1 <= i < n + 1 :: watches[i] == watches[1..][i - 1];
      n + 1
  }

  /** The error `collectSubscriptions` ends with: the first watcher body that throws, else the rest of `fn`. */
  function FirstFailure(watches: seq<WatchRun>, rest: Status): Status {
    if watches == [] then rest
    else if watches[0].body.outcome.Throws? then Failed(watches[0].body.outcome.error)
    else FirstFailure(watches[1..], rest)
  }

  /**
   * The error `collectSubscriptions` ends with, by position: when the first `n` watchers
   * return and the next one (if any) throws, that throw decides, and otherwise `rest` does.
   */
  lemma {:induction false} FirstFailureAt(watches: seq<WatchRun>, rest: Status, n: nat)
    requires n <= |watches|
    requires forall k | 0 <= k < n :: watches[k].body.outcome.Returns?
    requires n < |watches| ==> watches[n].body.outcome.Throws?
    ensures FirstFailure(watches, rest) == if n < |watches| then Failed(watches[n].body.outcome.error) else rest
  {
    if n > 0 {
      FirstFailureAt(watches[1..], rest, n - 1);
    }
  }

  /**
   * The enclosing computation after the first runs of `watches` in turn: each run bubbles the
   * tags its body read, whether it returned or threw, and a throw ends `fn` there.
   */
  function AfterFirstRuns(outer: Option<seq<TagId>>, watches: seq<WatchRun>): (r: Option<seq<TagId>>)
    ensures r.Some? <==> outer.Some?
    decreases |watches|
  {
    if watches == [] then outer
    else
      var next := Bubbled(outer, AddAll([], watches[0].body.consumed));
      if watches[0].body.outcome.Throws? then next else AfterFirstRuns(next, watches[1..])
  }

  /** A body that reads no tag leaves the enclosing computation as it was, wherever it stands. */
  lemma {:induction false} AfterFirstRunsSkipsEmpty(outer: Option<seq<TagId>>, watches: seq<WatchRun>)
    requires forall k | 0 <= k < |watches| :: watches[k].body.consumed == []
    ensures AfterFirstRuns(outer, watches) == outer
  {
    if watches != [] {
      AfterFirstRunsSkipsEmpty(outer, watches[1..]);
    }
  }

  /** The controllers of a list of watchers: what the `subscriptions` array holds. */
  function Controllers(ws: seq<Watcher>): (r: seq<SubscriptionController>)
    ensures |r| == |ws| && forall i | 0 <= i < |ws| :: r[i] == ws[i].controller
  {
    if ws == [] then [] else [ws[0].controller] + Controllers(ws[1..])
  }

  /** Listing one more controller in front of the rest. */
  lemma ControllersCons(listed: seq<SubscriptionController>, w: Watcher, more: seq<Watcher>)
    ensures listed + [w.controller] + Controllers(more) == listed + Controllers([w] + more)
  {
    assert ([w] + more)[1..] == more;
  }

  /** What can be observed of a watcher: its controller's fields and its memo's cache key. */
  datatype WatcherState = WatcherState(
    tags: seq<TagId>, lastRevision: int, subscribed: bool, cleanup: Option<TeardownId>,
    cacheTags: Option<seq<TagId>>, cacheRevision: Option<int>)

  ghost function StateOf(w: Watcher): WatcherState
    reads w.controller`tags, w.controller`isSubscribed, w.controller`lastRevision, w.controller`cleanup, w.run
  {
    WatcherState(w.controller.tags, w.controller.lastRevision, w.controller.isSubscribed, w.controller.cleanup,
                 w.run.lastTags, w.run.lastRevision)
  }

  /**
   * What the first run of `watch` leaves in a watcher that is not subscribed: the tags read,
   * each once in first-read order, and their newest revision in `revs`, both in the controller
   * and as the memo's cache key; and the teardown the body registered.
   */
  function FirstRunState(watch: WatchRun, revs: seq<Revision>): (s: WatcherState)
    requires ValidTags(revs, watch.body.consumed)
    ensures ValidTags(revs, s.tags) && Distinct(s.tags) && s.lastRevision == GetMax(revs, s.tags)
  {
    AddAllValid(revs, [], watch.body.consumed);
    AddAllKeepsDistinct([], watch.body.consumed);
    var tags := AddAll([], watch.body.consumed);
    var last := GetMax(revs, tags);
    WatcherState(tags, last, false, watch.registers, Some(tags), Some(last))
  }

  /** A collected watcher: its memo drives its own controller, and its first run of `watch` is all that happened to it. */
  ghost predicate Collected(w: Watcher, watch: WatchRun, revs: seq<Revision>)
    reads w.controller`tags, w.controller`isSubscribed, w.controller`lastRevision, w.controller`cleanup, w.run
  {
    && w.run.controller == w.controller
    && ValidTags(revs, watch.body.consumed)
    && StateOf(w) == FirstRunState(watch, revs)
  }

  /**
   * Each watcher of the list has a newer effect than the ones before it, so the watchers,
   * their controllers and their effects are pairwise distinct.
   */
  ghost predicate Increasing(ws: seq<Watcher>) {
    forall i, j | 0 <= i < j < |ws| :: ws[i].controller.effect < ws[j].controller.effect
  }

  /** One collected watcher in front of the ones collected after it, whose effects come next. */
  lemma CollectedCons(w: Watcher, more: seq<Watcher>, watches: seq<WatchRun>, revs: seq<Revision>, lo: EffectId)
    requires |more| < |watches| && Collected(w, watches[0], revs) && w.controller.effect == lo
    requires forall i | 0 <= i < |more| :: Collected(more[i], watches[1..][i], revs)
    requires forall i | 0 <= i < |more| :: more[i].controller.effect == lo + 1 + i
    ensures forall i | 0 <= i < |more| + 1 ::
      Collected(([w] + more)[i], watches[i], revs) && ([w] + more)[i].controller.effect == lo + i
  {
    forall i | 0 < i < |more| + 1
      ensures Collected(([w] + more)[i], watches[i], revs) && ([w] + more)[i].controller.effect == lo + i
    {
      assert ([w] + more)[i] == more[i - 1] && watches[i] == watches[1..][i - 1];
    }
  }

  /** Effects numbered consecutively from `start` are increasing and lie below the counter. */
  lemma NumberedAreIncreasing(ws: seq<Watcher>, start: EffectId, next: EffectId)
    requires forall i | 0 <= i < |ws| :: ws[i].controller.effect == start + i
    requires start + |ws| <= next
    ensures Increasing(ws)
    ensures forall i | 0 <= i < |ws| :: start <= ws[i].controller.effect < next
  {
  }

  /** Collected watchers whose effects are newer than every registered one are consistent with the engine. */
  lemma CollectedAreValid(ws: seq<Watcher>, watches: seq<WatchRun>, engine: Engine, start: EffectId)
    requires engine.Valid() && |ws| <= |watches|
    requires forall i | 0 <= i < |ws| :: Collected(ws[i], watches[i], engine.revs)
    requires forall i | 0 <= i < |ws| :: start <= ws[i].controller.effect < engine.nextEffect
    requires forall t, e | 0 <= t < |engine.subs| && e in engine.subs[t] :: e < start
    ensures forall i | 0 <= i < |ws| :: ws[i].ValidIn(engine)
  {
    forall i | 0 <= i < |ws| ensures ws[i].ValidIn(engine) {
      assert Distinct(FirstRunState(watches[i], engine.revs).tags);
    }
  }

  /** `watchEffect(fn)` while a list is being collected: the controller is listed, not subscribed. */
  method CollectingWatchEffect(engine: Engine, watch: WatchRun) returns (w: Watcher, status: Status)
    requires engine.Valid() && engine.collecting.Some? && ValidTags(engine.revs, watch.body.consumed)
    modifies engine`nextEffect, engine`current, engine`subs, engine`collecting
    ensures engine.Valid() && engine.subs == old(engine.subs)
    ensures fresh(w) && fresh(w.controller) && fresh(w.run) && Collected(w, watch, engine.revs)
    ensures w.controller.effect == old(engine.nextEffect) && engine.nextEffect == old(engine.nextEffect) + 1
    ensures engine.current == Bubbled(old(engine.current), w.controller.tags)
    ensures status == if watch.body.outcome.Throws? then Failed(watch.body.outcome.error) else Ok
    ensures engine.collecting == if status.Ok? then Some(old(engine.collecting).value + [w.controller]) else old(engine.collecting)
  {
    w, status := WatchEffect(engine, watch);
  }

  /**
   * `fn()` inside `collectSubscriptions`: the watchers start in turn, each one appended to the
   * list, until one throws; a throw ends `fn` with that error, and otherwise `fn` ends as
   * `rest` says. `made` are the watchers that returned, in order.
   */
  method CollectEach(engine: Engine, watches: seq<WatchRun>, rest: Status)
    returns (made: seq<Watcher>, status: Status)
    requires engine.Valid() && engine.collecting.Some?
    requires forall i | 0 <= i < |watches| :: ValidTags(engine.revs, watches[i].body.consumed)
    modifies engine`nextEffect, engine`current, engine`subs, engine`collecting
    ensures engine.Valid() && engine.subs == old(engine.subs)
    ensures engine.collecting == Some(old(engine.collecting).value + Controllers(made))
    ensures status == FirstFailure(watches, rest)
    ensures engine.current == AfterFirstRuns(old(engine.current), watches)
    ensures |made| <= |watches| && (status.Ok? ==> |made| == |watches|)
    ensures |made| == Returned(watches)
    ensures forall i | 0 <= i < |made| :: fresh(made[i]) && fresh(made[i].controller) && fresh(made[i].run)
    ensures old(engine.nextEffect) + |made| <= engine.nextEffect
    ensures forall i | 0 <= i < |made| :: Collected(made[i], watches[i], engine.revs)
    ensures forall i | 0 <= i < |made| :: made[i].controller.effect == old(engine.nextEffect) + i
    decreases |watches|, 1
  {
    ghost var listed := old(engine.collecting).value;
    assert listed + Controllers([]) == listed;
    made, status := [], rest;
    if watches != [] {
      var w, st := CollectingWatchEffect(engine, watches[0]);
      status := st;
      if st.Ok? {
        made, status := CollectAfter(engine, w, watches, rest);
        ControllersCons(listed, w, made[1..]);
        assert [w] + made[1..] == made;
      }
    }
  }

  /**
   * The rest of `fn()` once the first watcher `w`, started from `watches[0]`, has returned
   * and been listed: the other watchers start in turn behind it.
   */
  method CollectAfter(engine: Engine, w: Watcher, watches: seq<WatchRun>, rest: Status)
    returns (made: seq<Watcher>, status: Status)
    requires engine.Valid() && engine.collecting.Some?
    requires watches != [] && watches[0].body.outcome.Returns?
    requires forall i | 0 < i < |watches| :: ValidTags(engine.revs, watches[i].body.consumed)
    requires Collected(w, watches[0], engine.revs) && w.controller.effect + 1 == engine.nextEffect
    modifies engine`nextEffect, engine`current, engine`subs, engine`collecting
    ensures engine.Valid() && engine.subs == old(engine.subs)
    ensures made != [] && made[0] == w
    ensures engine.collecting == Some(old(engine.collecting).value + Controllers(made[1..]))
    ensures status == FirstFailure(watches, rest)
    ensures engine.current == AfterFirstRuns(old(engine.current), watches[1..])
    ensures |made| <= |watches| && (status.Ok? ==> |made| == |watches|)
    ensures |made| == Returned(watches)
    ensures forall i | 0 < i < |made| :: fresh(made[i]) && fresh(made[i].controller) && fresh(made[i].run)
    ensures old(engine.nextEffect) + |made| - 1 <= engine.nextEffect
    ensures forall i | 0 <= i < |made| :: Collected(made[i], watches[i], engine.revs)
    ensures forall i | 0 <= i < |made| :: made[i].controller.effect == w.controller.effect + i
    decreases |watches|, 0
  {
    assert forall i | 0 <= i < |watches[1..]| :: watches[1..][i] == watches[i + 1];
    var more;
    more, status := CollectEach(engine, watches[1..], rest);
    made := [w] + more;
    assert made[1..] == more;
    CollectedCons(w, more, watches, engine.revs, w.controller.effect);
  }

  /**
   * `collectSubscriptions(fn)` where `fn` starts the watchers `watches` in turn and then ends
   * as `rest` says. The controllers are collected, not subscribed; the list in force before
   * is restored whether `fn` returns or throws, and a throw hands back no list. `watchers` are
   * the watcher closures behind the collected controllers, each ready to run its effect.
   */
  method CollectSubscriptions(engine: Engine, watches: seq<WatchRun>, rest: Status)
    returns (collected: seq<SubscriptionController>, watchers: seq<Watcher>, status: Status)
    requires engine.Valid()
    requires forall i | 0 <= i < |watches| :: ValidTags(engine.revs, watches[i].body.consumed)
    modifies engine`nextEffect, engine`current, engine`subs, engine`collecting
    ensures engine.Valid() && engine.collecting == old(engine.collecting) && engine.subs == old(engine.subs)
    ensures status == FirstFailure(watches, rest)
    ensures engine.current == AfterFirstRuns(old(engine.current), watches)
    ensures collected == Controllers(watchers)
    ensures status.Failed? ==> watchers == []
    ensures status.Ok? ==> |watchers| == |watches|
    ensures forall i | 0 <= i < |watchers| ::
      fresh(watchers[i]) && fresh(watchers[i].controller) && fresh(watchers[i].run)
    ensures forall i | 0 <= i < |watchers| :: Collected(watchers[i], watches[i], engine.revs)
    ensures forall i | 0 <= i < |watchers| :: watchers[i].ValidIn(engine)
    ensures old(engine.nextEffect) <= engine.nextEffect
    ensures forall i | 0 <= i < |watchers| :: watchers[i].controller.effect == old(engine.nextEffect) + i
    ensures forall i | 0 <= i < |watchers| :: old(engine.nextEffect) <= watchers[i].controller.effect < engine.nextEffect
    ensures Increasing(watchers)
  {
    var saved := engine.collecting;
    engine.collecting := Some([]);
    var made;
    made, status := CollectEach(engine, watches, rest);
    engine.collecting := saved;  // finally
    if status.Ok? {
      NumberedAreIncreasing(made, old(engine.nextEffect), engine.nextEffect);
      CollectedAreValid(made, watches, engine, old(engine.nextEffect));
      watchers := made;
    } else {
      watchers := [];
    }
    collected := Controllers(watchers);
  }
}
