/**
  Union-find over named elements: parents and ranks in two maps that `FindSet` and `UnionSets`
  rewrite in place, with path compression and union by rank.
 */
module DisjointSets {

  function Pow2(n: nat): nat {
    if n == 0 then 1 else 2 * Pow2(n - 1)
  }

  lemma {:induction false} Pow2Grows(m: nat, n: nat)
    requires m <= n
    ensures 0 < Pow2(m) <= Pow2(n)
    decreases n
  {
    if m < n {
      Pow2Grows(m, n - 1);
    } else if n > 0 {
      Pow2Grows(m - 1, n - 1);
    }
  }

  /** The elements whose root is `r`. */
  function Class(root: map<string, string>, r: string): set<string> {
    set x | x in root && root[x] == r
  }

  /** `root` is where following `parent` from an element ends, and ranks grow on the way there. */
  ghost predicate NodeOk(parent: map<string, string>, rank: map<string, nat>, root: map<string, string>, x: string)
    requires parent.Keys == rank.Keys == root.Keys
  {
    x in parent ==>
    && parent[x] in parent && root[x] in parent
    && parent[root[x]] == root[x] && root[parent[x]] == root[x] && (parent[x] == x ==> root[x] == x)
    && (parent[x] != x ==> rank[x] < rank[parent[x]]) && rank[x] <= rank[root[x]]
  }

  /** A tree whose root has rank `n` has at least 2^n members. */
  ghost predicate Bushy(rank: map<string, nat>, root: map<string, string>, x: string) {
    x in root && root[x] in rank ==> Pow2(rank[root[x]]) <= |Class(root, root[x])|
  }

  ghost predicate Shaped(parent: map<string, string>, rank: map<string, nat>, root: map<string, string>) {
    && parent.Keys == rank.Keys == root.Keys
    && (forall x :: NodeOk(parent, rank, root, x))
    && (forall x :: Bushy(rank, root, x))
  }

  /** How far the rank of an element lies below its root's. */
  function Climb(rank: map<string, nat>, root: map<string, string>, x: string): nat {
    if x in root && x in rank && root[x] in rank && rank[x] <= rank[root[x]] then rank[root[x]] - rank[x] else 0
  }

  /** How many parents lie between an element and its root. */
  ghost function Depth(parent: map<string, string>, rank: map<string, nat>, root: map<string, string>, x: string): nat
    requires Shaped(parent, rank, root) && x in parent
    decreases Climb(rank, root, x)
  {
    assert NodeOk(parent, rank, root, x);
    assert NodeOk(parent, rank, root, parent[x]);
    if parent[x] == x then 0 else 1 + Depth(parent, rank, root, parent[x])
  }

  lemma {:induction false} DepthIsWithinRanks(parent: map<string, string>, rank: map<string, nat>, root: map<string, string>, x: string)
    requires Shaped(parent, rank, root) && x in parent
    ensures root[x] in rank && Depth(parent, rank, root, x) + rank[x] <= rank[root[x]]
    decreases Climb(rank, root, x)
  {
    assert NodeOk(parent, rank, root, x) && NodeOk(parent, rank, root, parent[x]);
    if parent[x] != x {
      DepthIsWithinRanks(parent, rank, root, parent[x]);
    }
  }

  /** No element lies deeper than the logarithm of the number of elements. */
  lemma DepthIsLogarithmic(parent: map<string, string>, rank: map<string, nat>, root: map<string, string>, x: string)
    requires Shaped(parent, rank, root) && x in parent
    ensures Pow2(Depth(parent, rank, root, x)) <= |parent|
  {
    DepthIsWithinRanks(parent, rank, root, x);
    assert NodeOk(parent, rank, root, x) && Bushy(rank, root, x);
    Pow2Grows(Depth(parent, rank, root, x), rank[root[x]]);
    SubsetSize(Class(root, root[x]), parent.Keys);
  }

  lemma {:induction false} SubsetSize(a: set<string>, b: set<string>)
    requires a <= b
    ensures |a| <= |b|
  {
    if a != {} {
      var x :| x in a;
      SubsetSize(a - {x}, b - {x});
    }
  }

  /** Only one map can be the roots of a forest: the roots are determined by the parents. */
  lemma {:induction false} RootsAreUnique(parent: map<string, string>, rank: map<string, nat>, root: map<string, string>, other: map<string, string>, x: string)
    requires Shaped(parent, rank, root) && Shaped(parent, rank, other) && x in parent
    ensures root[x] == other[x]
    decreases Climb(rank, root, x)
  {
    assert NodeOk(parent, rank, root, x) && NodeOk(parent, rank, other, x);
    assert NodeOk(parent, rank, root, parent[x]) && NodeOk(parent, rank, other, parent[x]);
    if parent[x] != x {
      RootsAreUnique(parent, rank, root, other, parent[x]);
    }
  }

  /** Pointing an element straight at its root changes no root. */
  lemma CompressionKeepsShape(parent: map<string, string>, rank: map<string, nat>, root: map<string, string>, x: string)
    requires Shaped(parent, rank, root) && x in parent && parent[x] != x
    ensures Shaped(parent[x := root[x]], rank, root)
  {
    var shorter := parent[x := root[x]];
    assert NodeOk(parent, rank, root, x) && NodeOk(parent, rank, root, parent[x]) && NodeOk(parent, rank, root, root[x]);
    forall y ensures NodeOk(shorter, rank, root, y) {
      assert NodeOk(parent, rank, root, y);
    }
  }

  /** The members of `loser`'s class join `winner`'s. */
  function Redirect(root: map<string, string>, loser: string, winner: string): map<string, string> {
    map x | x in root :: if root[x] == loser then winner else root[x]
  }

  lemma ClassesJoin(root: map<string, string>, loser: string, winner: string)
    requires loser != winner
    ensures |Class(Redirect(root, loser, winner), winner)| == |Class(root, winner)| + |Class(root, loser)|
    ensures forall r :: r != winner && r != loser ==> Class(Redirect(root, loser, winner), r) == Class(root, r)
  {
    assert Class(Redirect(root, loser, winner), winner) == Class(root, winner) + Class(root, loser);
    assert Class(root, winner) !! Class(root, loser);
  }

  ghost predicate AreRoots(parent: map<string, string>, a: string, b: string) {
    a in parent && b in parent && parent[a] == a && parent[b] == b && a != b
  }

  /** The rank the winning root ends up with. */
  function WinnerRank(rank: map<string, nat>, loser: string, winner: string): nat
    requires loser in rank && winner in rank
  {
    if rank[loser] == rank[winner] then rank[winner] + 1 else rank[winner]
  }

  lemma LinkKeepsNodes(parent: map<string, string>, rank: map<string, nat>, root: map<string, string>, loser: string, winner: string)
    requires Shaped(parent, rank, root) && AreRoots(parent, loser, winner) && rank[loser] <= rank[winner]
    ensures var rank' := rank[winner := WinnerRank(rank, loser, winner)];
            var parent', root' := parent[loser := winner], Redirect(root, loser, winner);
            forall x :: NodeOk(parent', rank', root', x)
  {
    var rank' := rank[winner := WinnerRank(rank, loser, winner)];
    var parent', root' := parent[loser := winner], Redirect(root, loser, winner);
    assert NodeOk(parent, rank, root, loser) && NodeOk(parent, rank, root, winner);
    forall x ensures NodeOk(parent', rank', root', x) {
      assert NodeOk(parent, rank, root, x);
      if x in parent {
        assert NodeOk(parent, rank, root, root[x]) && NodeOk(parent, rank, root, parent[x]);
      }
    }
  }

  lemma LinkKeepsBushy(parent: map<string, string>, rank: map<string, nat>, root: map<string, string>, loser: string, winner: string)
    requires Shaped(parent, rank, root) && AreRoots(parent, loser, winner) && rank[loser] <= rank[winner]
    ensures var rank' := rank[winner := WinnerRank(rank, loser, winner)];
            forall x :: Bushy(rank', Redirect(root, loser, winner), x)
  {
    var rank' := rank[winner := WinnerRank(rank, loser, winner)];
    var root' := Redirect(root, loser, winner);
    assert NodeOk(parent, rank, root, loser) && NodeOk(parent, rank, root, winner);
    ClassesJoin(root, loser, winner);
    forall x ensures Bushy(rank', root', x) {
      assert NodeOk(parent, rank, root, x) && Bushy(rank, root, x);
      assert Bushy(rank, root, winner) && Bushy(rank, root, loser);
    }
  }

  /** Union by rank keeps the forest in shape. */
  lemma LinkKeepsShape(parent: map<string, string>, rank: map<string, nat>, root: map<string, string>, loser: string, winner: string)
    requires Shaped(parent, rank, root) && AreRoots(parent, loser, winner) && rank[loser] <= rank[winner]
    ensures Shaped(parent[loser := winner], rank[winner := WinnerRank(rank, loser, winner)], Redirect(root, loser, winner))
  {
    LinkKeepsNodes(parent, rank, root, loser, winner);
    LinkKeepsBushy(parent, rank, root, loser, winner);
  }

  class Forest {
    var parent: map<string, string>
    var rank: map<string, nat>
    ghost var root: map<string, string>

    ghost predicate Valid()
      reads this
    {
      Shaped(parent, rank, root)
    }

    /** Every element starts as its own root. */
    constructor (elements: seq<string>)
      ensures Valid() && (forall x :: x in root <==> x in elements) && forall x <- root :: root[x] == x
    {
      var p: map<string, string>, k: map<string, nat> := map[], map[];
      for i := 0 to |elements|
        invariant p.Keys == k.Keys && (forall x :: x in p <==> x in elements[..i])
        invariant forall x <- p :: p[x] == x && k[x] == 0
      {
        p, k := p[elements[i] := elements[i]], k[elements[i] := 0];
        assert elements[..i + 1] == elements[..i] + [elements[i]];
      }
      assert elements[..|elements|] == elements;
      parent, rank, root := p, k, p;
      forall x ensures Bushy(k, p, x) {
        assert x in p ==> x in Class(p, p[x]);
      }
    }

    /**
      Returns the root of `x` and points every element on the way straight at it. The number
      of hops is logarithmic in the number of elements.
     */
    method FindSet(x: string) returns (r: string, ghost hops: nat)
      requires Valid() && x in parent
      modifies `parent
      ensures Valid() && r == root[x] && parent.Keys == old(parent.Keys)
      ensures parent[x] == root[x]
      ensures forall y :: y in parent ==> parent[y] == old(parent)[y] || parent[y] == root[y]
      ensures hops == old(Depth(parent, rank, root, x)) && Pow2(hops) <= |parent|
      decreases Climb(rank, root, x)
    {
      DepthIsLogarithmic(parent, rank, root, x);
      assert NodeOk(parent, rank, root, x) && NodeOk(parent, rank, root, parent[x]);
      hops := 0;
      if parent[x] != x {
        r, hops := FindSet(parent[x]);
        assert NodeOk(parent, rank, root, x);
        CompressionKeepsShape(parent, rank, root, x);
        parent, hops := parent[x := r], hops + 1;
      }
      r := parent[x];
    }

    /** The classes of the two elements become one; all others stay as they are. */
    method UnionSets(left: string, right: string)
      requires Valid() && left in parent && right in parent
      modifies this
      ensures Valid() && root.Keys == old(root.Keys)
      ensures Unites(old(root), root, left, right)
    {
      var leftRoot, _ := FindSet(left);
      var rightRoot, _ := FindSet(right);
      assert NodeOk(parent, rank, root, left) && NodeOk(parent, rank, root, right);
      if leftRoot == rightRoot {
        return;
      }
      if rank[leftRoot] < rank[rightRoot] {
        Link(leftRoot, rightRoot);
        RedirectUnites(old(root), right, left);
        return;
      }
      Link(rightRoot, leftRoot);
      RedirectUnites(old(root), left, right);
    }

    /** The root `loser` becomes a child of the root `winner`, whose rank grows on a tie. */
    method Link(loser: string, winner: string)
      requires Valid() && AreRoots(parent, loser, winner) && rank[loser] <= rank[winner]
      modifies this
      ensures Valid() && root == Redirect(old(root), loser, winner)
    {
      LinkKeepsShape(parent, rank, root, loser, winner);
      parent, root := parent[loser := winner], Redirect(root, loser, winner);
      if rank[loser] != rank[winner] {
        assert rank[winner := rank[winner]] == rank;
        return;
      }
      rank := rank[winner := rank[winner] + 1];
    }
  }

  /** One of the two elements was with `left` and the other with `right`. */
  predicate Joins(root: map<string, string>, left: string, right: string, x: string, y: string)
    requires left in root && right in root && x in root && y in root
  {
    || (root[x] == root[left] && root[y] == root[right])
    || (root[x] == root[right] && root[y] == root[left])
  }

  /** Afterwards two elements are together when they were before, or when the union brought them together. */
  ghost predicate Unites(before: map<string, string>, after: map<string, string>, left: string, right: string) {
    && before.Keys == after.Keys && left in before && right in before
    && forall x, y :: x in before && y in before ==>
                        (after[x] == after[y] <==> before[x] == before[y] || Joins(before, left, right, x, y))
  }

  lemma RedirectUnites(root: map<string, string>, kept: string, gone: string)
    requires kept in root && gone in root && root[kept] != root[gone]
    ensures Unites(root, Redirect(root, root[gone], root[kept]), kept, gone)
    ensures Unites(root, Redirect(root, root[gone], root[kept]), gone, kept)
  {
  }
}
