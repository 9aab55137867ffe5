/**
  A value behind one atomic pointer, replaced by copy-on-write retry loops. Every published
  value gets a pointer of its own, so a compare-and-swap compares identities, not contents.
 */
module Snapshots {

  ghost function Fold<T>(origin: T, changes: seq<T -> T>): T {
    if changes == [] then origin else changes[|changes| - 1](Fold(origin, changes[..|changes| - 1]))
  }

  /** The first `n` batches, one after the other. */
  ghost function Joined<T>(batches: seq<seq<T>>, n: nat): seq<T>
    requires n <= |batches|
  {
    if n == 0 then [] else Joined(batches, n - 1) + batches[n - 1]
  }

  lemma {:induction false} BatchesCount<T>(batches: seq<seq<T>>, n: nat)
    requires n <= |batches| && forall i :: 0 <= i < n ==> batches[i] != []
    ensures n <= |Joined(batches, n)|
  {
    if n > 0 {
      BatchesCount(batches, n - 1);
    }
  }

  class Snapshot<T(!new)> {
    var pointer: nat
    var value: T
    ghost const origin: T
    ghost var log: seq<T -> T>

    /** The published value is the fold of all committed changes, in the order of their swaps. */
    ghost predicate Valid()
      reads this
    {
      pointer == |log| && value == Fold(origin, log)
    }

    constructor (initial: T)
      ensures Valid() && log == [] && value == initial
    {
      pointer, value, origin, log := 0, initial, initial, [];
    }

    method Load() returns (current: nat, loaded: T)
      ensures current == pointer && loaded == value
    {
      current, loaded := pointer, value;
    }

    method CompareAndSwap(current: nat, next: T, ghost change: T -> T) returns (swapped: bool)
      requires Valid() && current <= pointer
      requires current == pointer ==> next == change(value)
      modifies this
      ensures Valid() && swapped == (current == old(pointer))
      ensures swapped ==> log == old(log) + [change] && value == next
      ensures !swapped ==> log == old(log) && value == old(value) && pointer == old(pointer)
    {
      swapped := current == pointer;
      if swapped {
        pointer, value, log := pointer + 1, next, log + [change];
      }
    }

    /** Other threads win this many swaps while the caller is between its load and its swap. */
    method Interfere(changes: seq<T -> T>)
      requires Valid()
      modifies this
      ensures Valid() && log == old(log) + changes
      ensures pointer == old(pointer) + |changes|
      ensures changes == [] ==> log == old(log) && value == old(value)
    {
      for i := 0 to |changes|
        invariant Valid() && log == old(log) + changes[..i]
        invariant pointer == old(pointer) + i
        invariant i == 0 ==> log == old(log) && value == old(value)
      {
        var current, loaded := Load();
        var _ := CompareAndSwap(current, changes[i](loaded), changes[i]);
        assert changes[..i + 1] == changes[..i] + [changes[i]];
      }
    }

    /** One turn of the retry loop, with `rivals` committed between its load and its swap. */
    method Attempt(change: T -> T, rivals: seq<T -> T>) returns (swapped: bool)
      requires Valid()
      modifies this
      ensures Valid() && swapped == (rivals == [])
      ensures log == old(log) + if swapped then [change] else rivals
      ensures swapped ==> value == change(old(value))
    {
      var current, loaded := Load();
      var updated := change(loaded);
      Interfere(rivals);
      swapped := CompareAndSwap(current, updated, change);
    }

    /**
      `change` is published exactly once, on top of every change committed before it, whatever
      the other threads commit (`rivals[i]` during attempt `i`, nothing after that list ends).
      Each lost attempt is charged to other threads' commits of its own, so the loop ends.
     */
    method Update(change: T -> T, rivals: seq<seq<T -> T>>) returns (lost: nat)
      requires Valid()
      modifies this
      ensures Valid() && lost <= |rivals|
      ensures log == old(log) + Joined(rivals, lost) + [change]
      ensures value == change(Fold(origin, old(log) + Joined(rivals, lost)))
      ensures forall i :: 0 <= i < lost ==> rivals[i] != []
      ensures lost <= |Joined(rivals, lost)|
      ensures lost < |rivals| ==> rivals[lost] == []
    {
      lost := 0;
      ghost var before, others := log, [];
      var swapped := false;
      while !swapped
        invariant Valid() && lost <= |rivals|
        invariant forall i :: 0 <= i < lost ==> rivals[i] != []
        invariant others == Joined(rivals, lost)
        invariant !swapped ==> log == before + others
        invariant swapped ==> log == before + others + [change] && value == change(Fold(origin, before + others))
        invariant swapped ==> lost == |rivals| || rivals[lost] == []
        decreases |rivals| - lost, !swapped
      {
        var batch := if lost < |rivals| then rivals[lost] else [];
        swapped := Attempt(change, batch);
        if !swapped {
          assert before + others + batch == before + (others + batch);
          others, lost := others + batch, lost + 1;
        }
      }
      BatchesCount(rivals, lost);
    }
  }
}
