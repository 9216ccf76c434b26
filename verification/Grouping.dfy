/** Sums of a real-valued function over a sequence, and over the groups of a sequence. */
module Grouping {
  import opened Collections
  import opened Domain

  function SumBy<T>(xs: seq<T>, f: T -> real): real {
    if |xs| == 0 then 0.0 else SumBy(xs[..|xs| - 1], f) + f(xs[|xs| - 1])
  }

  lemma SumByStep<T>(xs: seq<T>, f: T -> real, i: nat)
    requires i < |xs|
    ensures SumBy(xs[..i + 1], f) == SumBy(xs[..i], f) + f(xs[i])
  {
    assert xs[..i + 1][..i] == xs[..i];
  }

  lemma SumBySingle<T>(x: T, f: T -> real)
    ensures SumBy([x], f) == f(x)
  {
    assert [x][..0] == [];
  }

  lemma {:induction false} SumByConcat<T>(xs: seq<T>, ys: seq<T>, f: T -> real)
    ensures SumBy(xs + ys, f) == SumBy(xs, f) + SumBy(ys, f)
  {
    if |ys| == 0 {
      assert xs + ys == xs;
    } else {
      assert (xs + ys)[..|xs + ys| - 1] == xs + ys[..|ys| - 1];
      SumByConcat(xs, ys[..|ys| - 1], f);
    }
  }

  lemma {:induction false} SumByPermute<T>(xs: seq<T>, ys: seq<T>, f: T -> real)
    requires multiset(xs) == multiset(ys)
    ensures SumBy(xs, f) == SumBy(ys, f)
  {
    if |xs| == 0 {
      assert xs == ys;
    } else {
      var n := |xs| - 1;
      assert xs == xs[..n] + [xs[n]];
      assert xs[n] in multiset(ys);
      var k :| 0 <= k < |ys| && ys[k] == xs[n];
      SumByRemove(ys, k, f);
      assert ys == ys[..k] + [ys[k]] + ys[k + 1..];
      assert multiset(ys[..k] + ys[k + 1..]) == multiset(ys) - multiset{ys[k]};
      assert multiset(xs[..n]) == multiset(xs) - multiset{xs[n]};
      SumByPermute(xs[..n], ys[..k] + ys[k + 1..], f);
    }
  }

  lemma SumByRemove<T>(ys: seq<T>, k: nat, f: T -> real)
    requires k < |ys|
    ensures SumBy(ys, f) == SumBy(ys[..k] + ys[k + 1..], f) + f(ys[k])
  {
    hide SumBy;
    var before, after := ys[..k], ys[k + 1..];
    assert ys == before + [ys[k]] + after;
    SumByConcat(before + [ys[k]], after, f);
    SumByConcat(before, [ys[k]], f);
    SumByConcat(before, after, f);
    SumBySingle(ys[k], f);
  }

  lemma {:induction false} SumByAgrees<T>(xs: seq<T>, f: T -> real, g: T -> real)
    requires forall i :: 0 <= i < |xs| ==> f(xs[i]) == g(xs[i])
    ensures SumBy(xs, f) == SumBy(xs, g)
  {
    if |xs| > 0 {
      SumByAgrees(xs[..|xs| - 1], f, g);
    }
  }

  lemma {:induction false} SumByMonotone<T>(xs: seq<T>, f: T -> real, g: T -> real)
    requires forall i :: 0 <= i < |xs| ==> f(xs[i]) <= g(xs[i])
    ensures SumBy(xs, f) <= SumBy(xs, g)
  {
    if |xs| > 0 {
      SumByMonotone(xs[..|xs| - 1], f, g);
    }
  }

  lemma {:induction false} SumByAdd<T>(xs: seq<T>, f: T -> real, g: T -> real, h: T -> real)
    requires forall i :: 0 <= i < |xs| ==> h(xs[i]) == f(xs[i]) + g(xs[i])
    ensures SumBy(xs, h) == SumBy(xs, f) + SumBy(xs, g)
  {
    if |xs| > 0 {
      SumByAdd(xs[..|xs| - 1], f, g, h);
    }
  }

  // ----- Groups

  /** The contribution of the elements of one group. */
  function Only<T, K(==)>(keyOf: T -> K, f: T -> real, key: K): T -> real {
    (x: T) => if keyOf(x) == key then f(x) else 0.0
  }

  function GroupTotal<T, K(==)>(xs: seq<T>, keyOf: T -> K, f: T -> real): K -> real {
    (key: K) => SumBy(xs, Only(keyOf, f, key))
  }

  function KeysOf<T, K>(xs: seq<T>, keyOf: T -> K): seq<K> {
    seq(|xs|, i requires 0 <= i < |xs| => keyOf(xs[i]))
  }

  /** The groups of a sequence in order of first occurrence. */
  function GroupsOf<T, K(==,!new)>(xs: seq<T>, keyOf: T -> K): seq<K> {
    Dedupe(KeysOf(xs, keyOf))
  }

  /** A value at one key and zero at every other. */
  function At<K(==)>(key: K, value: real): K -> real {
    (k: K) => if k == key then value else 0.0
  }

  lemma {:induction false} SumAtOne<K(!new)>(keys: seq<K>, key: K, value: real)
    requires Distinct(keys)
    ensures SumBy(keys, At(key, value)) == if key in keys then value else 0.0
  {
    if |keys| > 0 {
      var n := |keys| - 1;
      assert keys == keys[..n] + [keys[n]];
      SumAtOne(keys[..n], key, value);
    }
  }

  lemma {:induction false} SumByZero<T>(xs: seq<T>, f: T -> real)
    requires forall i :: 0 <= i < |xs| ==> f(xs[i]) == 0.0
    ensures SumBy(xs, f) == 0.0
  {
    if |xs| > 0 {
      SumByZero(xs[..|xs| - 1], f);
    }
  }

  /** The totals of all groups add up to the total. */
  lemma {:induction false} GroupsPartition<T, K(!new)>(xs: seq<T>, keyOf: T -> K, f: T -> real, groups: seq<K>)
    requires Distinct(groups) && forall i :: 0 <= i < |xs| ==> keyOf(xs[i]) in groups
    ensures SumBy(groups, GroupTotal(xs, keyOf, f)) == SumBy(xs, f)
  {
    if |xs| == 0 {
      SumByZero(groups, GroupTotal(xs, keyOf, f));
    } else {
      var n := |xs| - 1;
      GroupsPartition(xs[..n], keyOf, f, groups);
      SumAtOne(groups, keyOf(xs[n]), f(xs[n]));
      SumByAdd(groups, GroupTotal(xs[..n], keyOf, f), At(keyOf(xs[n]), f(xs[n])), GroupTotal(xs, keyOf, f));
    }
  }

  /** Groups listed in either order give the same sum. */
  lemma DistinctPermute<K(!new)>(xs: seq<K>, ys: seq<K>)
    requires Distinct(xs) && Distinct(ys) && forall k :: k in xs <==> k in ys
    ensures multiset(xs) == multiset(ys)
  {
    forall k
      ensures multiset(xs)[k] == multiset(ys)[k]
    {
      CountDistinct(xs, k);
      CountDistinct(ys, k);
    }
  }

  lemma {:induction false} CountDistinct<K>(xs: seq<K>, k: K)
    requires Distinct(xs)
    ensures multiset(xs)[k] == if k in xs then 1 else 0
  {
    if |xs| > 0 {
      var n := |xs| - 1;
      assert xs == xs[..n] + [xs[n]];
      CountDistinct(xs[..n], k);
    }
  }

  lemma GroupMembers<T(!new), K(!new)>(xs: seq<T>, keyOf: T -> K)
    ensures forall k :: k in GroupsOf(xs, keyOf) <==> exists i :: 0 <= i < |xs| && keyOf(xs[i]) == k
    ensures forall i :: 0 <= i < |xs| ==> keyOf(xs[i]) in GroupsOf(xs, keyOf)
    ensures Distinct(GroupsOf(xs, keyOf))
  {
    var keys := KeysOf(xs, keyOf);
    forall i | 0 <= i < |xs|
      ensures keyOf(xs[i]) in keys
    {
      assert keys[i] == keyOf(xs[i]);
    }
  }
}
