/** Filtering and de-duplicating sequences, and summing maps. */
module Collections {
  import opened Ordering

  function Filter<T>(xs: seq<T>, keep: T -> bool): (r: seq<T>) {
    if |xs| == 0 then []
    else
      var init := Filter(xs[..|xs| - 1], keep);
      if keep(xs[|xs| - 1]) then init + [xs[|xs| - 1]] else init
  }

  lemma {:induction false} FilterMembers<T(!new)>(xs: seq<T>, keep: T -> bool)
    ensures forall x :: x in Filter(xs, keep) <==> x in xs && keep(x)
  {
    if |xs| > 0 {
      FilterMembers(xs[..|xs| - 1], keep);
      assert xs == xs[..|xs| - 1] + [xs[|xs| - 1]];
    }
  }

  lemma {:induction false} FilterCounts<T(!new)>(xs: seq<T>, keep: T -> bool)
    ensures forall x :: multiset(Filter(xs, keep))[x] == if keep(x) then multiset(xs)[x] else 0
  {
    if |xs| > 0 {
      var n := |xs| - 1;
      FilterCounts(xs[..n], keep);
      assert xs == xs[..n] + [xs[n]];
    }
  }

  lemma FilterSingle<T>(x: T, keep: T -> bool)
    ensures Filter([x], keep) == if keep(x) then [x] else []
  {
    assert [x][..0] == [];
  }

  lemma {:induction false} FilterConcat<T(!new)>(xs: seq<T>, ys: seq<T>, keep: T -> bool)
    ensures Filter(xs + ys, keep) == Filter(xs, keep) + Filter(ys, keep)
  {
    if |ys| == 0 {
      assert xs + ys == xs;
    } else {
      var n := |ys| - 1;
      assert (xs + ys)[..|xs + ys| - 1] == xs + ys[..n];
      FilterConcat(xs, ys[..n], keep);
    }
  }

  /** Filtering by `inner` after `outer` is filtering by `both`. */
  lemma {:induction false} FilterTwice<T(!new)>(xs: seq<T>, outer: T -> bool, inner: T -> bool, both: T -> bool)
    requires forall x :: both(x) <==> outer(x) && inner(x)
    ensures Filter(Filter(xs, outer), inner) == Filter(xs, both)
  {
    if |xs| > 0 {
      FilterTwice(xs[..|xs| - 1], outer, inner, both);
    }
  }

  predicate Pairwise<T(!new)>(xs: seq<T>, related: (T, T) -> bool) {
    forall i, j :: 0 <= i < j < |xs| ==> related(xs[i], xs[j])
  }

  /** A relation between earlier and later elements survives filtering. */
  lemma {:induction false} FilterPairwise<T(!new)>(xs: seq<T>, keep: T -> bool, related: (T, T) -> bool)
    requires Pairwise(xs, related)
    ensures Pairwise(Filter(xs, keep), related)
  {
    if |xs| > 0 {
      var n := |xs| - 1;
      FilterPairwise(xs[..n], keep, related);
      FilterMembers(xs[..n], keep);
      var init := Filter(xs[..n], keep);
      forall i | 0 <= i < |init|
        ensures related(init[i], xs[n])
      {
        assert init[i] in init && init[i] in xs[..n];
        var j :| 0 <= j < n && xs[j] == init[i];
      }
    }
  }

  lemma FilterStrict<T(!new)>(xs: seq<T>, key: T -> Key, keep: T -> bool)
    requires StrictlySortedBy(xs, key)
    ensures StrictlySortedBy(Filter(xs, keep), key)
  {
    FilterPairwise(xs, keep, (x, y) => KeyLess(key(x), key(y)));
  }

  lemma {:induction false} FilterInsert<T(!new)>(xs: seq<T>, x: T, key: T -> Key, keep: T -> bool)
    requires SortedBy(xs, key)
    ensures Filter(Insert(xs, x, key), keep)
            == if keep(x) then Insert(Filter(xs, keep), x, key) else Filter(xs, keep)
  {
    if |xs| > 0 {
      var n := |xs| - 1;
      if KeyLess(key(x), key(xs[n])) {
        FilterInsert(xs[..n], x, key, keep);
        FilterConcat(Insert(xs[..n], x, key), [xs[n]], keep);
      } else {
        FilterConcat(xs, [x], keep);
        InsertLast(xs, x, key, keep);
      }
    }
  }

  lemma InsertLast<T(!new)>(xs: seq<T>, x: T, key: T -> Key, keep: T -> bool)
    requires SortedBy(xs, key)
    requires |xs| > 0 && !KeyLess(key(x), key(xs[|xs| - 1]))
    ensures Insert(Filter(xs, keep), x, key) == Filter(xs, keep) + [x]
  {
    var kept := Filter(xs, keep);
    FilterMembers(xs, keep);
    if |kept| > 0 {
      var last := kept[|kept| - 1];
      assert last in kept;
      assert last in xs;
      var i :| 0 <= i < |xs| && xs[i] == last;
      KeyTrichotomy(key(last), key(last));
      KeyTransitive(key(last), key(xs[|xs| - 1]), key(x));
    }
  }

  /** Sorting commutes with filtering. */
  lemma {:induction false} FilterSortBy<T(!new)>(xs: seq<T>, key: T -> Key, keep: T -> bool)
    ensures Filter(SortBy(xs, key), keep) == SortBy(Filter(xs, keep), key)
  {
    if |xs| > 0 {
      var n := |xs| - 1;
      FilterSortBy(xs[..n], key, keep);
      SortBySorts(xs[..n], key);
      FilterInsert(SortBy(xs[..n], key), xs[n], key, keep);
    }
  }

  /** Keys that order the members of a class alike sort its sequences alike. */
  ghost predicate OrderAlike<T(!new)>(member: T -> bool, key: T -> Key, other: T -> Key) {
    forall x, y :: member(x) && member(y) ==> (KeyLess(key(x), key(y)) <==> KeyLess(other(x), other(y)))
  }

  lemma {:induction false} SortByAgrees<T(!new)>(xs: seq<T>, member: T -> bool, key: T -> Key, other: T -> Key)
    requires OrderAlike(member, key, other)
    requires forall i :: 0 <= i < |xs| ==> member(xs[i])
    ensures SortBy(xs, key) == SortBy(xs, other)
  {
    if |xs| > 0 {
      var n := |xs| - 1;
      SortByAgrees(xs[..n], member, key, other);
      var sorted := SortBy(xs[..n], key);
      SortByMembers(xs[..n], key);
      forall i | 0 <= i < |sorted|
        ensures member(sorted[i])
      {
        assert sorted[i] in sorted;
      }
      InsertAgrees(sorted, xs[n], member, key, other);
    }
  }

  lemma {:induction false} InsertAgrees<T(!new)>(xs: seq<T>, x: T, member: T -> bool, key: T -> Key, other: T -> Key)
    requires OrderAlike(member, key, other)
    requires member(x) && forall i :: 0 <= i < |xs| ==> member(xs[i])
    ensures Insert(xs, x, key) == Insert(xs, x, other)
  {
    if |xs| > 0 {
      InsertAgrees(xs[..|xs| - 1], x, member, key, other);
    }
  }

  /** The distinct values of a sequence in order of first occurrence. */
  function Dedupe<T(==,!new)>(xs: seq<T>): (r: seq<T>)
    ensures forall x :: x in r <==> x in xs
    ensures forall i, j :: 0 <= i < j < |r| ==> r[i] != r[j]
  {
    if |xs| == 0 then []
    else
      var init := Dedupe(xs[..|xs| - 1]);
      assert xs == xs[..|xs| - 1] + [xs[|xs| - 1]];
      if xs[|xs| - 1] in init then init else init + [xs[|xs| - 1]]
  }

  // ----- Sums over maps

  ghost function MapSum<K(!new)>(m: map<K, int>): int {
    if m == map[] then 0 else
      var k :| k in m;
      m[k] + MapSum(m - {k})
  }

  /** The sum does not depend on the order in which entries are taken. */
  lemma {:induction false} MapSumTake<K(!new)>(m: map<K, int>, k: K)
    requires k in m
    ensures MapSum(m) == m[k] + MapSum(m - {k})
    decreases |m|
  {
    var first :| first in m && MapSum(m) == m[first] + MapSum(m - {first});
    if first != k {
      MapSumTake(m - {first}, k);
      MapSumTake(m - {k}, first);
      assert m - {first} - {k} == m - {k} - {first};
    }
  }

  lemma MapSumPut<K(!new)>(m: map<K, int>, k: K, v: int)
    ensures MapSum(m[k := v]) == MapSum(m) + v - (if k in m then m[k] else 0)
  {
    MapSumTake(m[k := v], k);
    assert m[k := v] - {k} == m - {k};
    if k in m {
      MapSumTake(m, k);
    } else {
      assert m - {k} == m;
    }
  }

  lemma {:induction false} MapSumAdd<K(!new)>(a: map<K, int>, b: map<K, int>, c: map<K, int>)
    requires a.Keys == b.Keys == c.Keys
    requires forall k :: k in a ==> c[k] == a[k] + b[k]
    ensures MapSum(c) == MapSum(a) + MapSum(b)
    decreases |a|
  {
    if c == map[] {
      assert a == map[] && b == map[];
    } else {
      var k :| k in c;
      MapSumTake(a, k);
      MapSumTake(b, k);
      MapSumTake(c, k);
      MapSumAdd(a - {k}, b - {k}, c - {k});
    }
  }

  /** Entries that are zero may be left out. */
  lemma {:induction false} MapSumWithoutZeros<K(!new)>(part: map<K, int>, whole: map<K, int>)
    requires part.Keys <= whole.Keys
    requires forall k :: k in whole ==> whole[k] == if k in part then part[k] else 0
    ensures MapSum(part) == MapSum(whole)
    decreases |whole|
  {
    if whole == map[] {
      assert part == map[];
    } else {
      var k :| k in whole;
      MapSumTake(whole, k);
      MapSumWithoutZeros(part - {k}, whole - {k});
      if k in part {
        MapSumTake(part, k);
      } else {
        assert part - {k} == part;
      }
    }
  }
}
