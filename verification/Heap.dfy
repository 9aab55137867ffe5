/**
  Go's maps and slices on the heap: a map is shared by everybody who holds the reference, and
  a slice is the beginning of a backing array that others may see too.
 */
module Heap {
  import opened Recency

  class GoMap<V> {
    var entries: map<string, V>

    constructor (entries: map<string, V>)
      ensures this.entries == entries
    {
      this.entries := entries;
    }
  }

  /** The first `len` cells of a backing array. */
  datatype Slice<T> = Slice(cells: array<T>, len: nat)
  {
    ghost predicate Fits() {
      len <= cells.Length
    }

    function Elements(): (xs: seq<T>)
      requires Fits()
      reads cells
      ensures |xs| == len
    {
      cells[..len]
    }
  }

  /** Writes behind the last element when the backing array has room there, and moves to a bigger one otherwise. */
  method Append<T>(s: Slice<T>, x: T) returns (t: Slice<T>)
    requires s.Fits()
    modifies s.cells
    ensures t.Fits() && t.Elements() == old(s.Elements()) + [x]
    ensures t.cells == s.cells || fresh(t.cells)
  {
    if s.len < s.cells.Length {
      s.cells[s.len] := x;
      t := Slice(s.cells, s.len + 1);
    } else {
      var xs := s.Elements();
      var bigger := new T[2 * s.len + 1](i => if 0 <= i < |xs| then xs[i] else x);
      t := Slice(bigger, s.len + 1);
    }
  }

  /** Filters into the same backing array: the kept elements are written over the dropped ones. */
  method KeepRecent<T>(s: Slice<T>, stamp: T -> int, cutoff: int) returns (t: Slice<T>)
    requires s.Fits()
    modifies s.cells
    ensures t.Fits() && t.cells == s.cells
    ensures t.Elements() == Recent(old(s.Elements()), stamp, cutoff)
  {
    ghost var xs := s.Elements();
    var kept := 0;
    for i := 0 to s.len
      invariant kept <= i && s.cells[..kept] == Recent(xs[..i], stamp, cutoff)
      invariant forall k :: i <= k < s.len ==> s.cells[k] == xs[k]
    {
      assert xs[..i + 1][..i] == xs[..i];
      var record := s.cells[i];
      if stamp(record) >= cutoff {
        s.cells[kept] := record;
        kept := kept + 1;
      }
    }
    assert xs[..s.len] == xs;
    t := Slice(s.cells, kept);
  }

  method CloneSlice<T>(s: Slice<T>) returns (copy: Slice<T>)
    requires s.Fits()
    ensures fresh(copy.cells) && copy.Fits() && copy.Elements() == old(s.Elements())
  {
    var xs := s.Elements();
    var cells := new T[s.len](i requires 0 <= i < |xs| => xs[i]);
    copy := Slice(cells, s.len);
  }

  method CloneMap<V>(m: GoMap<V>) returns (copy: GoMap<V>)
    ensures fresh(copy) && copy.entries == m.entries
  {
    copy := new GoMap(m.entries);
  }

  /** Deletes from the map while ranging over it. */
  method DropOld<V>(m: GoMap<V>, stamp: V -> int, cutoff: int)
    modifies m
    ensures m.entries == map k | k in old(m.entries) && stamp(old(m.entries)[k]) >= cutoff :: old(m.entries)[k]
  {
    ghost var before := m.entries;
    var todo := m.entries.Keys;
    while todo != {}
      invariant todo <= before.Keys
      invariant forall k :: k in m.entries <==> k in before && (k in todo || stamp(before[k]) >= cutoff)
      invariant forall k <- m.entries :: m.entries[k] == before[k]
      decreases todo
    {
      var k :| k in todo;
      todo := todo - {k};
      if stamp(m.entries[k]) < cutoff {
        m.entries := m.entries - {k};
      }
    }
  }
}
