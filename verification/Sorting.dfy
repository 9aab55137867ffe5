/**
  Sorting with a comparator, as `slices.SortFunc` and `sort.Strings` do it. Callers may rely
  on nothing beyond "sorted and a permutation", because Go's sort is not stable: where two
  elements compare as equal, either may come first. With a comparator that tells all elements
  apart there is only one sorted permutation, and what a caller returns does not depend on
  the order in which it collected the elements, for instance from a map.
 */
module Sorting {
  import opened Text

  ghost predicate TotalPreorder<T(!new)>(le: (T, T) -> bool) {
    && (forall a: T, b: T :: le(a, b) || le(b, a))
    && (forall a: T, b: T, c: T :: le(a, b) && le(b, c) ==> le(a, c))
  }

  ghost predicate Sorted<T>(xs: seq<T>, le: (T, T) -> bool) {
    forall i, j :: 0 <= i < j < |xs| ==> le(xs[i], xs[j])
  }

  lemma InsertSorted<T>(ys: seq<T>, at: nat, x: T, le: (T, T) -> bool)
    requires Sorted(ys, le) && at <= |ys|
    requires forall k :: 0 <= k < at ==> le(ys[k], x)
    requires forall k :: at <= k < |ys| ==> le(x, ys[k])
    ensures Sorted(ys[..at] + [x] + ys[at..], le)
  {
    var zs := ys[..at] + [x] + ys[at..];
    forall i, j | 0 <= i < j < |zs| ensures le(zs[i], zs[j]) {
      assert zs[i] == (if i < at then ys[i] else if i == at then x else ys[i - 1]);
      assert zs[j] == (if j < at then ys[j] else if j == at then x else ys[j - 1]);
    }
  }

  lemma AllBelow<T(!new)>(ys: seq<T>, at: nat, x: T, le: (T, T) -> bool)
    requires TotalPreorder(le) && Sorted(ys, le) && 0 < at <= |ys| && le(ys[at - 1], x)
    ensures forall k :: 0 <= k < at ==> le(ys[k], x)
  {
    forall k | 0 <= k < at ensures le(ys[k], x) {
      if k < at - 1 {
        assert le(ys[k], ys[at - 1]);
      }
    }
  }

  method Insert<T(!new, ==)>(ys: seq<T>, x: T, le: (T, T) -> bool) returns (zs: seq<T>)
    requires TotalPreorder(le) && Sorted(ys, le)
    ensures Sorted(zs, le) && multiset(zs) == multiset(ys) + multiset{x}
  {
    var at := |ys|;
    while at > 0 && !le(ys[at - 1], x)
      invariant 0 <= at <= |ys|
      invariant forall k :: at <= k < |ys| ==> le(x, ys[k])
    {
      at := at - 1;
    }
    if at > 0 {
      AllBelow(ys, at, x, le);
    }
    InsertSorted(ys, at, x, le);
    zs := ys[..at] + [x] + ys[at..];
    assert ys == ys[..at] + ys[at..];
  }

  method Sort<T(!new, ==)>(xs: seq<T>, le: (T, T) -> bool) returns (ys: seq<T>)
    requires TotalPreorder(le)
    ensures Sorted(ys, le) && multiset(ys) == multiset(xs)
  {
    ys := [];
    for n := 0 to |xs|
      invariant Sorted(ys, le) && multiset(ys) == multiset(xs[..n])
    {
      assert xs[..n + 1] == xs[..n] + [xs[n]];
      ys := Insert(ys, xs[n], le);
    }
    assert xs[..|xs|] == xs;
  }

  lemma SortedHead<T(!new)>(xs: seq<T>, ys: seq<T>, le: (T, T) -> bool)
    requires multiset(xs) == multiset(ys) && Sorted(xs, le) && Sorted(ys, le) && xs != [] && ys != []
    requires forall a, b :: a in multiset(xs) && b in multiset(xs) && le(a, b) && le(b, a) ==> a == b
    ensures xs[0] == ys[0]
  {
    assert xs[0] in multiset(xs) && ys[0] in multiset(ys);
    assert xs[0] in ys && ys[0] in xs;
    var i :| 0 <= i < |xs| && xs[i] == ys[0];
    var j :| 0 <= j < |ys| && ys[j] == xs[0];
    if i != 0 && j != 0 {
      assert le(xs[0], xs[i]) && le(ys[0], ys[j]);
    }
  }

  /** When the comparator tells all elements apart, there is only one sorted arrangement of them. */
  lemma {:induction false} SortedIsUnique<T(!new)>(xs: seq<T>, ys: seq<T>, le: (T, T) -> bool)
    requires multiset(xs) == multiset(ys) && Sorted(xs, le) && Sorted(ys, le)
    requires forall a, b :: a in multiset(xs) && b in multiset(xs) && le(a, b) && le(b, a) ==> a == b
    ensures xs == ys
  {
    assert |xs| == |multiset(xs)| && |ys| == |multiset(ys)|;
    if xs != [] {
      SortedHead(xs, ys, le);
      assert xs == [xs[0]] + xs[1..] && ys == [ys[0]] + ys[1..];
      assert multiset(xs[1..]) == multiset(xs) - multiset{xs[0]};
      assert multiset(ys[1..]) == multiset(ys) - multiset{ys[0]};
      SortedIsUnique(xs[1..], ys[1..], le);
    }
  }

  /** `cmp.Compare(a, b) <= 0` on strings. */
  predicate AtMost(a: string, b: string) {
    Less(a, b) || a == b
  }

  /** Two-level comparison: an integer first, then a string. */
  predicate StampedAtMost(at1: int, id1: string, at2: int, id2: string) {
    at1 < at2 || (at1 == at2 && AtMost(id1, id2))
  }

  lemma AtMostIsOrder(a: string, b: string, c: string)
    ensures AtMost(a, b) || AtMost(b, a)
    ensures AtMost(a, b) && AtMost(b, c) ==> AtMost(a, c)
    ensures AtMost(a, b) && AtMost(b, a) ==> a == b
  {
    LessTotal(a, b);
    if Less(a, b) {
      LessAsymmetric(a, b);
      if Less(b, c) {
        LessTransitive(a, b, c);
      }
    }
  }

  lemma StringsAreOrdered()
    ensures TotalPreorder(AtMost)
  {
    forall a: string, b: string ensures AtMost(a, b) || AtMost(b, a) {
      AtMostIsOrder(a, b, b);
    }
    forall a: string, b: string, c: string | AtMost(a, b) && AtMost(b, c) ensures AtMost(a, c) {
      AtMostIsOrder(a, b, c);
    }
  }
}
