/**
 * `mergePropsIntoReactive(props, newProps)` of src/utils.ts: the reactive props object of a
 * component is brought in line with the props of a new render in place, so that the object
 * keeps its identity. A JavaScript object is held as its own keys, in the order
 * `Object.keys` lists them, and a map from those keys to values.
 */
module Props {
  import opened Sequences

  type Key = string

  /** A plain object: its keys in enumeration order, and what each holds. */
  datatype Record<V> = Record(keys: seq<Key>, values: map<Key, V>)

  /** Every key occurs once and holds a value; nothing else holds one. */
  ghost predicate WellFormed<V>(o: Record<V>) {
    Distinct(o.keys) && forall k :: k in o.values <==> k in o.keys
  }

  /** The elements of `s` that are not in `ks`, in their order in `s`. */
  function Drop(s: seq<Key>, ks: seq<Key>): (r: seq<Key>)
    ensures forall u :: u in r <==> u in s && u !in ks
    ensures |r| <= |s|
    decreases |s|
  {
    if s == [] then []
    else
      var front := Drop(s[..|s| - 1], ks);
      var last := s[|s| - 1];
      assert forall u :: u in s <==> u in s[..|s| - 1] || u == last;
      if last in ks then front else front + [last]
  }

  /** The elements of `s` that are also in `ks`, in their order in `s`. */
  function Only(s: seq<Key>, ks: seq<Key>): (r: seq<Key>)
    ensures forall u :: u in r <==> u in s && u in ks
    ensures |r| <= |s|
    decreases |s|
  {
    if s == [] then []
    else
      var front := Only(s[..|s| - 1], ks);
      var last := s[|s| - 1];
      assert forall u :: u in s <==> u in s[..|s| - 1] || u == last;
      if last in ks then front + [last] else front
  }

  /** `m` after `delete m[k]` for each `k` of `names` in turn. */
  function Without<V>(m: map<Key, V>, names: seq<Key>): (r: map<Key, V>)
    ensures forall k :: k in r <==> k in m && k !in names
    ensures forall k | k in r :: r[k] == m[k]
    decreases |names|
  {
    if names == [] then m
    else
      var last := names[|names| - 1];
      assert forall u :: u in names <==> u in names[..|names| - 1] || u == last;
      Without(m, names[..|names| - 1]) - {last}
  }

  /** `m` after the value of `src` under each key of `ks` has been written into it, in turn. */
  function Assigned<V>(m: map<Key, V>, ks: seq<Key>, src: map<Key, V>): (r: map<Key, V>)
    requires forall i | 0 <= i < |ks| :: ks[i] in src
    ensures forall k :: k in r <==> k in m || k in ks
    ensures forall k | k in r :: r[k] == if k in ks then src[k] else m[k]
    decreases |ks|
  {
    if ks == [] then m
    else
      var last := ks[|ks| - 1];
      assert forall u :: u in ks <==> u in ks[..|ks| - 1] || u == last;
      Assigned(m, ks[..|ks| - 1], src)[last := src[last]]
  }

  /**
   * The object `mergePropsIntoReactive` leaves behind: the old keys that are still present
   * keep their places, the new keys follow in the order of `newProps`, and every value is
   * the one in `newProps`.
   */
  function Merged<V>(props: Record<V>, newProps: Record<V>): Record<V> {
    Record(Only(props.keys, newProps.keys) + Drop(newProps.keys, props.keys), newProps.values)
  }

  /** Filtering keeps a sequence free of repetitions. */
  lemma {:induction false} DropKeepsDistinct(s: seq<Key>, ks: seq<Key>)
    requires Distinct(s)
    ensures Distinct(Drop(s, ks))
    decreases |s|
  {
    if s != [] {
      var front := s[..|s| - 1];
      assert Distinct(front);
      DropKeepsDistinct(front, ks);
      assert s[|s| - 1] !in front;
    }
  }

  lemma {:induction false} OnlyKeepsDistinct(s: seq<Key>, ks: seq<Key>)
    requires Distinct(s)
    ensures Distinct(Only(s, ks))
    decreases |s|
  {
    if s != [] {
      var front := s[..|s| - 1];
      assert Distinct(front);
      OnlyKeepsDistinct(front, ks);
      assert s[|s| - 1] !in front;
    }
  }

  /** Deleting `a` and then `b` is deleting `a + b`. */
  lemma {:induction false} DropTwice(s: seq<Key>, a: seq<Key>, b: seq<Key>)
    ensures Drop(Drop(s, a), b) == Drop(s, a + b)
    decreases |s|
  {
    if s != [] {
      var front := s[..|s| - 1];
      var last := s[|s| - 1];
      DropTwice(front, a, b);
      if last !in a {
        assert Drop(s, a) == Drop(front, a) + [last];
        assert Drop(s, a)[..|Drop(s, a)| - 1] == Drop(front, a);
      }
    }
  }

  /** Deleting one more name of a list, in list order. */
  lemma DropStep(s: seq<Key>, names: seq<Key>, j: nat)
    requires j < |names|
    ensures Drop(Drop(s, names[..j]), [names[j]]) == Drop(s, names[..j + 1])
    ensures names[..j + 1][..j] == names[..j]
  {
    assert names[..j + 1] == names[..j] + [names[j]];
    DropTwice(s, names[..j], [names[j]]);
  }

  /** Filtering one more element of `s`, in order. */
  lemma DropExtend(s: seq<Key>, ks: seq<Key>, n: nat)
    requires n < |s|
    ensures Drop(s[..n + 1], ks) == if s[n] in ks then Drop(s[..n], ks) else Drop(s[..n], ks) + [s[n]]
    ensures s[..n + 1][..n] == s[..n]
  {
    assert s[..n + 1][..n] == s[..n];
  }

  /**
   * One more key of `newProps` written by `Object.assign`: it is already among the keys
   * exactly when the object had it before the assignment began.
   */
  lemma AssignStep<V>(start: seq<Key>, before: map<Key, V>, newProps: Record<V>, n: nat)
    requires WellFormed(newProps) && n < |newProps.keys|
    ensures var k, ks := newProps.keys[n], start + Drop(newProps.keys[..n], start);
      && (k in ks <==> k in start)
      && start + Drop(newProps.keys[..n + 1], start) == (if k in start then ks else ks + [k])
      && Assigned(before, newProps.keys[..n + 1], newProps.values)
         == Assigned(before, newProps.keys[..n], newProps.values)[k := newProps.values[k]]
  {
    var k := newProps.keys[n];
    assert k !in newProps.keys[..n];
    DropExtend(newProps.keys, start, n);
  }

  /** Deleting what a test rejects keeps what it accepts. */
  lemma {:induction false} DropIsOnly(s: seq<Key>, d: seq<Key>, ks: seq<Key>)
    requires forall u | u in s :: u in d <==> u !in ks
    ensures Drop(s, d) == Only(s, ks)
    decreases |s|
  {
    if s != [] {
      var front := s[..|s| - 1];
      assert forall u | u in front :: u in s;
      DropIsOnly(front, d, ks);
    }
  }

  /** Deleting by two lists that agree on the elements of `s` deletes the same elements. */
  lemma {:induction false} DropAgrees(s: seq<Key>, a: seq<Key>, b: seq<Key>)
    requires forall u | u in s :: u in a <==> u in b
    ensures Drop(s, a) == Drop(s, b)
    decreases |s|
  {
    if s != [] {
      var front := s[..|s| - 1];
      assert forall u | u in front :: u in s;
      DropAgrees(front, a, b);
    }
  }

  /** The result is again a plain object. */
  lemma MergedWellFormed<V>(props: Record<V>, newProps: Record<V>)
    requires WellFormed(props) && WellFormed(newProps)
    ensures WellFormed(Merged(props, newProps))
  {
    var kept, added := Only(props.keys, newProps.keys), Drop(newProps.keys, props.keys);
    OnlyKeepsDistinct(props.keys, newProps.keys);
    DropKeepsDistinct(newProps.keys, props.keys);
    assert forall i, j | 0 <= i < |kept| && 0 <= j < |added| :: kept[i] != added[j] by {
      forall i, j | 0 <= i < |kept| && 0 <= j < |added| ensures kept[i] != added[j] {
        assert kept[i] in kept && added[j] in added;
      }
    }
    var r := kept + added;
    forall i, j | 0 <= i < j < |r| ensures r[i] != r[j] {
      if j < |kept| {
      } else if i >= |kept| {
        assert r[i] == added[i - |kept|] && r[j] == added[j - |kept|];
      }
    }
  }

  /**
   * The merge makes the object hold exactly what `newProps` holds: its keys are the keys of
   * `newProps`, every one with the new value, so a key missing from `newProps` is gone.
   */
  lemma MergedHoldsNewProps<V>(props: Record<V>, newProps: Record<V>)
    requires WellFormed(props) && WellFormed(newProps)
    ensures forall k :: k in Merged(props, newProps).keys <==> k in newProps.keys
    ensures forall k | k in newProps.values :: Merged(props, newProps).values[k] == newProps.values[k]
    ensures forall k | k in props.keys && k !in newProps.keys :: k !in Merged(props, newProps).values
  {
  }

  /**
   * Old keys that survive keep their relative order and come before the inserted ones
   * (`JSON.stringify` and `Object.keys` see them in that order).
   */
  lemma MergedKeepsOrder<V>(props: Record<V>, newProps: Record<V>)
    requires WellFormed(props) && WellFormed(newProps)
    ensures Merged(props, newProps).keys[..|Only(props.keys, newProps.keys)|] == Only(props.keys, newProps.keys)
    ensures forall i | |Only(props.keys, newProps.keys)| <= i < |Merged(props, newProps).keys| ::
      Merged(props, newProps).keys[i] !in props.keys
  {
    var kept := Only(props.keys, newProps.keys);
    var r := Merged(props, newProps).keys;
    forall i | |kept| <= i < |r| ensures r[i] !in props.keys {
      assert r[i] in Drop(newProps.keys, props.keys);
    }
  }

  /** When only values change, the key order is the old one. */
  lemma {:induction false} SameKeysKeepOrder<V>(props: Record<V>, newProps: Record<V>)
    requires WellFormed(props) && WellFormed(newProps)
    requires forall k :: k in props.keys <==> k in newProps.keys
    ensures Merged(props, newProps).keys == props.keys
  {
    DropIsOnly(props.keys, [], newProps.keys);
    DropAll(newProps.keys, props.keys);
    DropNothing(props.keys);
  }

  /** Deleting every key leaves none. */
  lemma {:induction false} DropAll(s: seq<Key>, ks: seq<Key>)
    requires forall u | u in s :: u in ks
    ensures Drop(s, ks) == []
    decreases |s|
  {
    if s != [] {
      var front := s[..|s| - 1];
      assert forall u | u in front :: u in s;
      DropAll(front, ks);
    }
  }

  /** Deleting no keys changes nothing. */
  lemma {:induction false} DropNothing(s: seq<Key>)
    ensures Drop(s, []) == s
    decreases |s|
  {
    if s != [] {
      DropNothing(s[..|s| - 1]);
    }
  }

  /** Merging the same props twice is merging them once. */
  lemma Idempotent<V>(props: Record<V>, newProps: Record<V>)
    requires WellFormed(props) && WellFormed(newProps)
    ensures Merged(Merged(props, newProps), newProps) == Merged(props, newProps)
  {
    MergedWellFormed(props, newProps);
    SameKeysKeepOrder(Merged(props, newProps), newProps);
  }

  /** The reactive props object, updated in place. */
  class Props<V> {
    var keys: seq<Key>
    var values: map<Key, V>

    ghost function Contents(): Record<V>
      reads this
    {
      Record(keys, values)
    }

    ghost predicate Valid()
      reads this
    {
      WellFormed(Contents())
    }

    constructor (init: Record<V>)
      requires WellFormed(init)
      ensures Valid() && Contents() == init
    {
      keys, values := init.keys, init.values;
    }

    /** Deleting one key from the object: its place and its value go. */
    method Delete(prop: Key)
      requires Valid()
      modifies this
      ensures Valid() && keys == Drop(old(keys), [prop]) && values == old(values) - {prop}
    {
      DropKeepsDistinct(keys, [prop]);
      keys := Drop(keys, [prop]);
      values := values - {prop};
    }

    /** Writing one property: an existing key keeps its place, a new one goes last. */
    method Assign(prop: Key, value: V)
      requires Valid()
      modifies this
      ensures Valid() && values == old(values)[prop := value]
      ensures keys == if prop in old(keys) then old(keys) else old(keys) + [prop]
    {
      if prop !in keys {
        keys := keys + [prop];
      }
      values := values[prop := value];
    }

    /** Deleting each of the stale key names from the object, in turn. */
    method DeleteAll(names: seq<Key>)
      requires Valid()
      modifies this
      ensures Valid() && keys == Drop(old(keys), names)
      ensures values == Without(old(values), names)
    {
      ghost var start, before := keys, values;
      DropNothing(start);
      var j := 0;
      while j < |names|
        invariant 0 <= j <= |names| && Valid()
        invariant keys == Drop(start, names[..j])
        invariant values == Without(before, names[..j])
      {
        DropStep(start, names, j);
        Delete(names[j]);
        j := j + 1;
      }
      assert names[..j] == names;
    }

    /**
     * `Object.assign(props, newProps)`: every key of `newProps`, in its order, is written;
     * the keys `props` already has stay where they are and the others are appended, and
     * the values of `newProps` win.
     */
    method AssignAll(newProps: Record<V>)
      requires Valid() && WellFormed(newProps)
      modifies this
      ensures Valid() && keys == old(keys) + Drop(newProps.keys, old(keys))
      ensures values == Assigned(old(values), newProps.keys, newProps.values)
    {
      ghost var start, before := keys, values;
      var n := 0;
      while n < |newProps.keys|
        invariant 0 <= n <= |newProps.keys| && Valid()
        invariant keys == start + Drop(newProps.keys[..n], start)
        invariant values == Assigned(before, newProps.keys[..n], newProps.values)
      {
        AssignStep(start, before, newProps, n);
        var prop := newProps.keys[n];
        Assign(prop, newProps.values[prop]);
        n := n + 1;
      }
      assert newProps.keys[..n] == newProps.keys;
    }

    /**
     * `mergePropsIntoReactive(props, newProps)`: collect the old key names, strike out those
     * `newProps` has, delete the rest from `props`, then `Object.assign(props, newProps)`.
     * The object itself is returned.
     */
    method MergePropsIntoReactive(newProps: Record<V>) returns (r: Props<V>)
      requires Valid() && WellFormed(newProps)
      modifies this
      ensures r == this && Valid() && Contents() == Merged(old(Contents()), newProps)
    {
      ghost var start := keys;
      var oldPropNames := StaleNames(keys, newProps.keys);
      DeleteAll(oldPropNames);
      DropIsOnly(start, oldPropNames, newProps.keys);
      ghost var kept := keys;
      AssignAll(newProps);
      DropAgrees(newProps.keys, kept, start);
      r := this;
    }
  }

  /**
   * The key names of `props`, as a set in their order, with every key name of `newProps`
   * struck out: the old keys that `newProps` lacks, in their order.
   */
  method StaleNames(oldKeys: seq<Key>, newKeys: seq<Key>) returns (oldPropNames: seq<Key>)
    ensures oldPropNames == Drop(oldKeys, newKeys)
  {
    oldPropNames := oldKeys;
    DropNothing(oldKeys);
    var i := 0;
    while i < |newKeys|
      invariant 0 <= i <= |newKeys|
      invariant oldPropNames == Drop(oldKeys, newKeys[..i])
    {
      DropStep(oldKeys, newKeys, i);
      oldPropNames := Drop(oldPropNames, [newKeys[i]]);
      i := i + 1;
    }
    assert newKeys[..i] == newKeys;
  }
}
