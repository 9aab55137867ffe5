/**
  Dropping what is older than a cutoff. Views, task claims and the contention window all keep
  what was stamped at or after a cutoff that lies one time to live before the reading of a
  clock. For lists of stamped records that means: the recent ones stay, each as often as it
  was there, and in their order. `Cutoff` is a function of its own so that every contract
  that speaks of one reading speaks of one cutoff.
 */
module Recency {

  /** Stamps before this reading are too old. */
  function Cutoff(now: int, ttl: int): int {
    now - ttl
  }

  function Recent<T>(xs: seq<T>, stamp: T -> int, cutoff: int): seq<T> {
    if xs == [] then []
    else
      var front, last := Recent(xs[..|xs| - 1], stamp, cutoff), xs[|xs| - 1];
      if stamp(last) >= cutoff then front + [last] else front
  }

  lemma {:induction false} RecentMembers<T(!new)>(xs: seq<T>, stamp: T -> int, cutoff: int)
    ensures forall x :: x in Recent(xs, stamp, cutoff) <==> x in xs && stamp(x) >= cutoff
  {
    if xs != [] {
      var front, last := xs[..|xs| - 1], xs[|xs| - 1];
      RecentMembers(front, stamp, cutoff);
      assert forall x :: x in xs <==> x in front || x == last;
    }
  }

  lemma {:induction false} RecentCounts<T>(xs: seq<T>, stamp: T -> int, cutoff: int, x: T)
    ensures multiset(Recent(xs, stamp, cutoff))[x] == if stamp(x) >= cutoff then multiset(xs)[x] else 0
  {
    if xs != [] {
      RecentCounts(xs[..|xs| - 1], stamp, cutoff, x);
      assert xs == xs[..|xs| - 1] + [xs[|xs| - 1]];
    }
  }

  /** What is kept of a list is what is kept of its two parts, one behind the other. */
  lemma {:induction false} RecentSplits<T>(xs: seq<T>, ys: seq<T>, stamp: T -> int, cutoff: int)
    ensures Recent(xs + ys, stamp, cutoff) == Recent(xs, stamp, cutoff) + Recent(ys, stamp, cutoff)
  {
    if ys == [] {
      assert xs + ys == xs;
    } else {
      RecentSplits(xs, ys[..|ys| - 1], stamp, cutoff);
      assert (xs + ys)[..|xs + ys| - 1] == xs + ys[..|ys| - 1];
    }
  }
}
