/**
  Sorting by a tuple-valued key. A key is a sequence of integers, compared
  lexicographically; `SortBy` is the stable sort of the standard library.
 */
module Ordering {

  type Key = seq<int>

  predicate KeyLess(a: Key, b: Key) {
    if |b| == 0 then false
    else if |a| == 0 then true
    else a[0] < b[0] || (a[0] == b[0] && KeyLess(a[1..], b[1..]))
  }

  lemma {:induction false} KeyTrichotomy(a: Key, b: Key)
    ensures KeyLess(a, b) || KeyLess(b, a) || a == b
    ensures !(KeyLess(a, b) && KeyLess(b, a))
    ensures !KeyLess(a, a)
  {
    if |a| > 0 && |b| > 0 {
      KeyTrichotomy(a[1..], b[1..]);
      assert a == [a[0]] + a[1..] && b == [b[0]] + b[1..];
    }
    if |a| > 0 {
      KeyTrichotomy(a[1..], a[1..]);
    }
  }

  lemma {:induction false} KeyTransitive(a: Key, b: Key, c: Key)
    requires !KeyLess(b, a) && !KeyLess(c, b)
    ensures !KeyLess(c, a)
    ensures KeyLess(a, b) || KeyLess(b, c) ==> KeyLess(a, c)
  {
    if |a| > 0 && |b| > 0 && |c| > 0 && a[0] == b[0] == c[0] {
      KeyTransitive(a[1..], b[1..], c[1..]);
    } else if |a| == 0 {
      KeyTrichotomy(a, b);
    }
  }

  lemma KeyLessOfOne(x: int, y: int)
    ensures KeyLess([x], [y]) <==> x < y
  {
    assert !KeyLess([x][1..], [y][1..]);
  }

  /** Orders numbers, identifiers among them, by themselves. */
  function ByValue(value: int): Key { [value] }

  ghost predicate SortedBy<T>(xs: seq<T>, key: T -> Key) {
    forall i, j :: 0 <= i < j < |xs| ==> !KeyLess(key(xs[j]), key(xs[i]))
  }

  ghost predicate StrictlySortedBy<T>(xs: seq<T>, key: T -> Key) {
    forall i, j :: 0 <= i < j < |xs| ==> KeyLess(key(xs[i]), key(xs[j]))
  }

  /** Places `x` after every element whose key is not greater. */
  function Insert<T>(xs: seq<T>, x: T, key: T -> Key): (r: seq<T>)
    ensures multiset(r) == multiset(xs) + multiset{x}
  {
    if |xs| == 0 || !KeyLess(key(x), key(xs[|xs| - 1])) then xs + [x]
    else
      var init := xs[..|xs| - 1];
      assert xs == init + [xs[|xs| - 1]];
      Insert(init, x, key) + [xs[|xs| - 1]]
  }

  function SortBy<T>(xs: seq<T>, key: T -> Key): (r: seq<T>)
    ensures multiset(r) == multiset(xs)
    ensures |r| == |xs|
  {
    if |xs| == 0 then []
    else
      var init := xs[..|xs| - 1];
      assert xs == init + [xs[|xs| - 1]];
      var r := Insert(SortBy(init, key), xs[|xs| - 1], key);
      assert |multiset(r)| == |multiset(xs)|;
      r
  }

  lemma InsertMembers<T>(xs: seq<T>, x: T, key: T -> Key, y: T)
    requires y in Insert(xs, x, key)
    ensures y == x || y in xs
  {
    assert y in multiset(Insert(xs, x, key));
    assert y == x || y in multiset(xs);
  }

  lemma SortedAppend<T>(xs: seq<T>, x: T, key: T -> Key)
    requires SortedBy(xs, key) && forall i :: 0 <= i < |xs| ==> !KeyLess(key(x), key(xs[i]))
    ensures SortedBy(xs + [x], key)
  {
    hide KeyLess;
  }

  lemma {:induction false} InsertSorted<T>(xs: seq<T>, x: T, key: T -> Key)
    requires SortedBy(xs, key)
    ensures SortedBy(Insert(xs, x, key), key)
  {
    hide KeyLess;
    if |xs| == 0 {
    } else {
      var n := |xs| - 1;
      var last := xs[n];
      KeyTrichotomy(key(x), key(last));
      if !KeyLess(key(x), key(last)) {
        forall i | 0 <= i < |xs|
          ensures !KeyLess(key(x), key(xs[i]))
        {
          KeyTrichotomy(key(xs[i]), key(last));
          KeyTransitive(key(xs[i]), key(last), key(x));
        }
        SortedAppend(xs, x, key);
      } else {
        var init := xs[..n];
        assert forall i :: 0 <= i < n ==> init[i] == xs[i];
        InsertSorted(init, x, key);
        var r := Insert(init, x, key);
        forall i | 0 <= i < |r|
          ensures !KeyLess(key(last), key(r[i]))
        {
          InsertMembers(init, x, key, r[i]);
        }
        SortedAppend(r, last, key);
      }
    }
  }

  lemma {:induction false} SortBySorts<T>(xs: seq<T>, key: T -> Key)
    ensures SortedBy(SortBy(xs, key), key)
  {
    if |xs| > 0 {
      SortBySorts(xs[..|xs| - 1], key);
      InsertSorted(SortBy(xs[..|xs| - 1], key), xs[|xs| - 1], key);
    }
  }

  /** Sorting a sorted sequence changes nothing. */
  lemma {:induction false} SortBySorted<T>(xs: seq<T>, key: T -> Key)
    requires SortedBy(xs, key)
    ensures SortBy(xs, key) == xs
  {
    hide KeyLess, SortBy, Insert;
    SortByStep(xs, key);
    if |xs| > 0 {
      var n := |xs| - 1;
      assert forall i :: 0 <= i < n ==> xs[..n][i] == xs[i];
      SortBySorted(xs[..n], key);
      assert n > 0 ==> !KeyLess(key(xs[n]), key(xs[n - 1]));
      InsertAtEnd(xs[..n], xs[n], key);
      assert xs == xs[..n] + [xs[n]];
    }
  }

  lemma SortByStep<T>(xs: seq<T>, key: T -> Key)
    ensures |xs| == 0 ==> SortBy(xs, key) == xs
    ensures |xs| > 0 ==> SortBy(xs, key) == Insert(SortBy(xs[..|xs| - 1], key), xs[|xs| - 1], key)
  {
  }

  lemma InsertAtEnd<T>(xs: seq<T>, x: T, key: T -> Key)
    requires |xs| > 0 ==> !KeyLess(key(x), key(xs[|xs| - 1]))
    ensures Insert(xs, x, key) == xs + [x]
  {
  }

  lemma {:induction false} SortByMembers<T>(xs: seq<T>, key: T -> Key)
    ensures forall x :: x in SortBy(xs, key) <==> x in xs
  {
    var r := SortBy(xs, key);
    forall x
      ensures x in r <==> x in xs
    {
      assert x in multiset(r) <==> x in multiset(xs);
    }
  }

  /** Distinct positions of `xs` carry distinct keys. */
  ghost predicate DistinctKeys<T>(xs: seq<T>, key: T -> Key) {
    forall i, j :: 0 <= i < j < |xs| ==> key(xs[i]) != key(xs[j])
  }

  lemma SortByStrict<T>(xs: seq<T>, key: T -> Key)
    requires DistinctKeys(xs, key)
    ensures StrictlySortedBy(SortBy(xs, key), key)
  {
    SortBySorts(xs, key);
    var r := SortBy(xs, key);
    PermutationKeepsDistinctKeys(xs, r, key);
    forall i, j | 0 <= i < j < |r|
      ensures KeyLess(key(r[i]), key(r[j]))
    {
      KeyTrichotomy(key(r[i]), key(r[j]));
    }
  }

  lemma PermutationKeepsDistinctKeys<T>(xs: seq<T>, ys: seq<T>, key: T -> Key)
    requires multiset(xs) == multiset(ys)
    requires DistinctKeys(xs, key)
    ensures DistinctKeys(ys, key)
  {
    forall i, j | 0 <= i < j < |ys|
      ensures key(ys[i]) != key(ys[j])
    {
      assert ys == ys[..i] + [ys[i]] + ys[i + 1..j] + [ys[j]] + ys[j + 1..];
      assert ys[i] == ys[j] ==> multiset(ys)[ys[i]] >= 2;
      AtMostOnce(xs, ys[i], key);
      assert ys[i] in multiset(ys) && ys[j] in multiset(ys);
      assert ys[i] in xs && ys[j] in xs;
      var a :| 0 <= a < |xs| && xs[a] == ys[i];
      var b :| 0 <= b < |xs| && xs[b] == ys[j];
      assert a != b;
    }
  }

  lemma {:induction false} AtMostOnce<T>(xs: seq<T>, x: T, key: T -> Key)
    requires DistinctKeys(xs, key)
    ensures multiset(xs)[x] <= 1
  {
    if |xs| > 0 {
      var n := |xs| - 1;
      assert xs == xs[..n] + [xs[n]];
      AtMostOnce(xs[..n], x, key);
      assert x in multiset(xs[..n]) ==> exists a :: 0 <= a < n && xs[a] == x;
    }
  }

  /** A strictly sorted sequence is determined by its members. */
  lemma {:induction false} StrictlySortedUnique<T>(xs: seq<T>, ys: seq<T>, key: T -> Key)
    requires StrictlySortedBy(xs, key) && StrictlySortedBy(ys, key)
    requires forall x :: x in xs <==> x in ys
    ensures xs == ys
  {
    assert |xs| > 0 ==> xs[0] in ys;
    assert |ys| > 0 ==> ys[0] in xs;
    if |xs| > 0 {
      var a :| 0 <= a < |xs| && xs[a] == ys[0];
      var b :| 0 <= b < |ys| && ys[b] == xs[0];
      var firstX, firstY := key(xs[0]), key(ys[0]);
      KeyTrichotomy(firstX, firstY);
      assert a == 0 || KeyLess(firstX, firstY);
      assert b == 0 || KeyLess(firstY, firstX);
      assert xs[0] == ys[0];
      forall x
        ensures x in xs[1..] <==> x in ys[1..]
      {
        TailMembers(xs, key, x);
        TailMembers(ys, key, x);
      }
      StrictlySortedUnique(xs[1..], ys[1..], key);
      assert xs == [xs[0]] + xs[1..] && ys == [ys[0]] + ys[1..];
    }
  }

  /** With distinct keys, the sorted sequences are equal exactly when their members are. */
  lemma SortedAlikeIff<T(!new)>(xs: seq<T>, ys: seq<T>, key: T -> Key)
    requires DistinctKeys(xs, key) && DistinctKeys(ys, key)
    ensures SortBy(xs, key) == SortBy(ys, key) <==> forall x :: x in xs <==> x in ys
  {
    SortByMembers(xs, key);
    SortByMembers(ys, key);
    SortByStrict(xs, key);
    SortByStrict(ys, key);
    if forall x :: x in xs <==> x in ys {
      StrictlySortedUnique(SortBy(xs, key), SortBy(ys, key), key);
    }
  }

  lemma TailMembers<T>(xs: seq<T>, key: T -> Key, x: T)
    requires StrictlySortedBy(xs, key) && |xs| > 0
    ensures x in xs[1..] <==> x in xs && x != xs[0]
  {
    if x in xs[1..] {
      var i :| 0 <= i < |xs[1..]| && xs[1..][i] == x;
      assert KeyLess(key(xs[0]), key(xs[i + 1]));
      KeyTrichotomy(key(xs[0]), key(xs[0]));
    }
  }
}
