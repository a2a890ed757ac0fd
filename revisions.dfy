/**
 * The revision clock and the revision stamps of tags (src/tag.ts and src/reactive.ts
 * share this part verbatim). A tag is identified by its index into a table of revisions;
 * `getMax` and the effect of a run of `dirtyTag` calls on that table live here, with the
 * lemma that makes memoization sound: the maximum revision of a tag list is unchanged
 * exactly when none of its tags was dirtied.
 */
module Revisions {

  /** A value of the global clock `CURRENT_REVISION`. */
  type Revision = nat

  /** A tag, named by its position in the engine's tables. */
  type TagId = nat

  /**
   * `Math.max()` of no arguments is `-Infinity`, which lies below every revision;
   * since revisions are never negative, -1 plays that part here.
   */
  const NoRevision: int := -1

  /** Every tag of `tags` exists in the revision table. */
  predicate ValidTags(revs: seq<Revision>, tags: seq<TagId>) {
    forall i | 0 <= i < |tags| :: tags[i] < |revs|
  }

  /** No tag carries a revision newer than the clock. */
  predicate Below(revs: seq<Revision>, clock: Revision) {
    forall t | 0 <= t < |revs| :: revs[t] <= clock
  }

  /** `getMax(tags)`: the newest revision among `tags`, or NoRevision for an empty list. */
  function GetMax(revs: seq<Revision>, tags: seq<TagId>): (m: int)
    requires ValidTags(revs, tags)
    ensures tags == [] <==> m == NoRevision
    ensures forall i | 0 <= i < |tags| :: revs[tags[i]] <= m
    ensures tags != [] ==> exists i | 0 <= i < |tags| :: revs[tags[i]] == m
  {
    if tags == [] then NoRevision
    else
      var rest := GetMax(revs, tags[1..]);
      assert forall i | 1 <= i < |tags| :: tags[i] == tags[1..][i - 1];
      if revs[tags[0]] >= rest then revs[tags[0]] else rest
  }

  /**
   * The revision table after `dirtyTag` has been called on each of `ds` in turn, starting
   * with the clock at `clock`: the k-th call stamps its tag with `clock + k + 1`.
   */
  function StampAll(revs: seq<Revision>, clock: Revision, ds: seq<TagId>): (r: seq<Revision>)
    requires ValidTags(revs, ds)
    ensures |r| == |revs|
    decreases |ds|
  {
    if ds == [] then revs
    else
      assert ValidTags(revs[ds[0] := clock + 1], ds[1..]);
      StampAll(revs[ds[0] := clock + 1], clock + 1, ds[1..])
  }

  /** Re-stamping a tag that is not in the list leaves the list's maximum alone. */
  lemma {:induction false} MaxIgnoresOtherTag(revs: seq<Revision>, tags: seq<TagId>, t: TagId, v: Revision)
    requires ValidTags(revs, tags) && t < |revs| && t !in tags
    ensures GetMax(revs[t := v], tags) == GetMax(revs, tags)
  {
    if tags != [] {
      assert ValidTags(revs, tags[1..]);
      MaxIgnoresOtherTag(revs, tags[1..], t, v);
    }
  }

  /** Stamping never lowers a revision and never overtakes the clock it ends at. */
  lemma {:induction false} StampAllBounds(revs: seq<Revision>, clock: Revision, ds: seq<TagId>)
    requires ValidTags(revs, ds) && Below(revs, clock)
    ensures forall t | 0 <= t < |revs| :: revs[t] <= StampAll(revs, clock, ds)[t]
    ensures Below(StampAll(revs, clock, ds), clock + |ds|)
    decreases |ds|
  {
    if ds != [] {
      var next := revs[ds[0] := clock + 1];
      assert ValidTags(next, ds[1..]);
      StampAllBounds(next, clock + 1, ds[1..]);
    }
  }

  /**
   * Dirtying `a` and then `b`, with the clock where `a` left it, is dirtying `a + b`: the
   * effect of a run of `dirtyTag` calls is the composition of the effects of its parts.
   */
  lemma {:induction false} StampAllAppend(revs: seq<Revision>, clock: Revision, a: seq<TagId>, b: seq<TagId>)
    requires ValidTags(revs, a) && ValidTags(revs, b)
    ensures ValidTags(revs, a + b) && ValidTags(StampAll(revs, clock, a), b)
    ensures StampAll(StampAll(revs, clock, a), clock + |a|, b) == StampAll(revs, clock, a + b)
    decreases |a|
  {
    if a != [] {
      var next := revs[a[0] := clock + 1];
      assert ValidTags(next, a[1..]) && ValidTags(next, b);
      StampAllAppend(next, clock + 1, a[1..], b);
      assert (a + b)[0] == a[0] && (a + b)[1..] == a[1..] + b;
    } else {
      assert a + b == b;
    }
  }

  /** A tag that is dirtied at some point ends up newer than the starting clock. */
  lemma {:induction false} StampedTagIsNew(revs: seq<Revision>, clock: Revision, ds: seq<TagId>, k: nat)
    requires ValidTags(revs, ds) && Below(revs, clock) && k < |ds|
    ensures StampAll(revs, clock, ds)[ds[k]] > clock
    decreases |ds|
  {
    var next := revs[ds[0] := clock + 1];
    assert ValidTags(next, ds[1..]);
    if k == 0 {
      StampAllBounds(next, clock + 1, ds[1..]);
    } else {
      assert Below(next, clock + 1);
      assert ds[k] == ds[1..][k - 1];
      StampedTagIsNew(next, clock + 1, ds[1..], k - 1);
    }
  }

  /** Dirtying only tags outside the list keeps the list's maximum. */
  lemma {:induction false} UntouchedKeepsMax(revs: seq<Revision>, clock: Revision, tags: seq<TagId>, ds: seq<TagId>)
    requires ValidTags(revs, tags) && ValidTags(revs, ds)
    requires forall i | 0 <= i < |ds| :: ds[i] !in tags
    ensures GetMax(StampAll(revs, clock, ds), tags) == GetMax(revs, tags)
    decreases |ds|
  {
    if ds != [] {
      var next := revs[ds[0] := clock + 1];
      assert ValidTags(next, ds[1..]);
      MaxIgnoresOtherTag(revs, tags, ds[0], clock + 1);
      UntouchedKeepsMax(next, clock + 1, tags, ds[1..]);
    }
  }

  /**
   * The memoization invariant: after any run of `dirtyTag` calls, the maximum revision of a
   * tag list still equals the one recorded before them exactly when none of the dirtied
   * tags is in the list. Both directions matter: an unread tag never invalidates a cache,
   * and a read one always does.
   */
  lemma {:induction false} CacheValidIffUntouched(revs: seq<Revision>, clock: Revision, tags: seq<TagId>, ds: seq<TagId>)
    requires ValidTags(revs, tags) && ValidTags(revs, ds) && Below(revs, clock)
    ensures GetMax(StampAll(revs, clock, ds), tags) == GetMax(revs, tags)
        <==> forall i | 0 <= i < |ds| :: ds[i] !in tags
  {
    if forall i | 0 <= i < |ds| :: ds[i] !in tags {
      UntouchedKeepsMax(revs, clock, tags, ds);
    } else {
      var k :| 0 <= k < |ds| && ds[k] in tags;
      var j :| 0 <= j < |tags| && tags[j] == ds[k];
      StampedTagIsNew(revs, clock, ds, k);
      var after := StampAll(revs, clock, ds);
      assert ValidTags(after, tags);
      assert GetMax(after, tags) >= after[tags[j]] > clock;
      assert GetMax(revs, tags) <= clock;
    }
  }
}
