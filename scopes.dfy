/**
 * Tracking scopes. `currentComputation` is a JavaScript `Set<Tag>`, which iterates in
 * insertion order; it is held here as that order, a sequence without repetitions, so that
 * `Array.from(currentComputation)` is the sequence itself.
 */
module Scopes {
  import opened Wrappers
  import opened Revisions
  import opened Sequences

  /** Adding one tag to the set: a tag already present keeps its place, a new one goes last. */
  function Add(s: seq<TagId>, t: TagId): (r: seq<TagId>)
    ensures forall u :: u in r <==> u in s || u == t
    ensures |s| <= |r| <= |s| + 1
  {
    if t in s then s else s + [t]
  }

  /** Adding each tag of `ts` to the set in turn. */
  function AddAll(s: seq<TagId>, ts: seq<TagId>): (r: seq<TagId>)
    ensures forall u :: u in r <==> u in s || u in ts
    ensures |s| <= |r| <= |s| + |ts|
    decreases |ts|
  {
    if ts == [] then s
    else
      var front := ts[..|ts| - 1];
      var r := Add(AddAll(s, front), ts[|ts| - 1]);
      assert forall u :: u in ts <==> u in front || u == ts[|ts| - 1];
      r
  }

  /** A set stays a set: adding a tag never repeats one. */
  lemma AddKeepsDistinct(s: seq<TagId>, t: TagId)
    requires Distinct(s)
    ensures Distinct(Add(s, t))
  {
  }

  lemma {:induction false} AddAllKeepsDistinct(s: seq<TagId>, ts: seq<TagId>)
    requires Distinct(s)
    ensures Distinct(AddAll(s, ts))
    decreases |ts|
  {
    if ts != [] {
      AddAllKeepsDistinct(s, ts[..|ts| - 1]);
      AddKeepsDistinct(AddAll(s, ts[..|ts| - 1]), ts[|ts| - 1]);
    }
  }

  /** Adding never reorders: the tags already in the scope stay in front, in their order. */
  lemma {:induction false} AddAllKeepsOrder(s: seq<TagId>, ts: seq<TagId>)
    ensures |s| <= |AddAll(s, ts)| && AddAll(s, ts)[..|s|] == s
    decreases |ts|
  {
    if ts != [] {
      var front := ts[..|ts| - 1];
      AddAllKeepsOrder(s, front);
      var p := AddAll(s, front);
      assert AddAll(s, ts) == Add(p, ts[|ts| - 1]);
      assert Add(p, ts[|ts| - 1])[..|p|] == p;
      assert p[..|s|] == s;
    }
  }

  /** A scope holding only existing tags keeps doing so when existing tags are added. */
  lemma AddAllValid(revs: seq<Revision>, s: seq<TagId>, ts: seq<TagId>)
    requires ValidTags(revs, s) && ValidTags(revs, ts)
    ensures ValidTags(revs, AddAll(s, ts))
  {
    var r := AddAll(s, ts);
    forall i | 0 <= i < |r| ensures r[i] < |revs| {
      assert r[i] in r;
    }
  }

  /**
   * Bubbling: the tags recorded by a nested computation are also added, one by one, to the
   * enclosing computation; with no enclosing computation, or no tags, nothing happens.
   */
  function Bubbled(outer: Option<seq<TagId>>, tags: seq<TagId>): (r: Option<seq<TagId>>)
    ensures r.Some? <==> outer.Some?
    ensures outer.Some? ==> forall u :: u in r.value <==> u in outer.value || u in tags
  {
    if outer.Some? && |tags| > 0 then Some(AddAll(outer.value, tags)) else outer
  }

  lemma BubbledKeepsDistinct(outer: Option<seq<TagId>>, tags: seq<TagId>)
    requires outer.Some? ==> Distinct(outer.value)
    ensures Bubbled(outer, tags).Some? ==> Distinct(Bubbled(outer, tags).value)
  {
    if outer.Some? {
      AddAllKeepsDistinct(outer.value, tags);
    }
  }

  /** Bubbling only appends to the enclosing scope. */
  lemma BubbledKeepsOrder(outer: Option<seq<TagId>>, tags: seq<TagId>)
    requires outer.Some?
    ensures |outer.value| <= |Bubbled(outer, tags).value|
    ensures Bubbled(outer, tags).value[..|outer.value|] == outer.value
  {
    AddAllKeepsOrder(outer.value, tags);
  }
}
