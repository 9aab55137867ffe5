/**
  Opinion clusters: actors are linked when their distinctive themes overlap enough, and a
  cluster is a connected component of the links with a theme that all its members share.
 */
module Clusters {
  import opened Sorting
  import opened DisjointSets

  type Themes = map<string, set<string>>

  // ----- Links and components -----

  /** Shared themes over all themes; zero when one side has none. */
  function Overlap(left: set<string>, right: set<string>): real {
    if left == {} || right == {} then 0.0
    else if |left| + |right| - |left * right| == 0 then 0.0
    else |left * right| as real / (|left| + |right| - |left * right|) as real
  }

  lemma OverlapIsSymmetric(left: set<string>, right: set<string>)
    ensures Overlap(left, right) == Overlap(right, left)
  {
    assert left * right == right * left;
  }

  lemma UnionSize(left: set<string>, right: set<string>)
    ensures |left + right| == |left| + |right| - |left * right|
  {
    assert left + right == left + (right - left);
    assert right == (right - left) + (left * right);
    assert |right| == |right - left| + |left * right|;
  }

  /** The overlap is the share of common themes among all: 1 for equal sets only, 0 for disjoint ones only. */
  lemma OverlapIsShare(left: set<string>, right: set<string>)
    ensures Overlap(left, right) * |left + right| as real == |left * right| as real
    ensures left + right == {} ==> Overlap(left, right) == 0.0
    ensures 0.0 <= Overlap(left, right) <= 1.0
    ensures Overlap(left, right) == 1.0 <==> left == right != {}
    ensures Overlap(left, right) == 0.0 <==> left !! right
  {
    UnionSize(left, right);
    var all, both := left + right, left * right;
    assert left !! right <==> both == {};
    if left != {} && right != {} {
      assert |all| > 0 && all == both + (all - both);
      assert |all| == |both| + |all - both|;
      assert all == both <==> left == right;
      RatioBounds(|both|, |all|);
      if |both| == |all| {
        assert |all - both| == 0;
      }
    }
  }

  lemma RatioBounds(m: nat, n: nat)
    requires 0 < n && m <= n
    ensures 0.0 <= m as real / n as real <= 1.0 && (m as real / n as real == 1.0 <==> m == n) && (m as real / n as real == 0.0 <==> m == 0)
  {
    var q := m as real / n as real;
    assert q * n as real == m as real;
  }

  predicate Linked(themes: Themes, minOverlap: real, a: string, b: string) {
    a in themes && b in themes && Overlap(themes[a], themes[b]) >= minOverlap
  }

  /** Two actors are linked when enough of the themes that either has are common to both. */
  lemma LinkedIff(themes: Themes, minOverlap: real, a: string, b: string)
    requires a in themes && b in themes
    ensures Linked(themes, minOverlap, a, b) <==>
              if themes[a] + themes[b] == {} then minOverlap <= 0.0
              else |themes[a] * themes[b]| as real >= minOverlap * |themes[a] + themes[b]| as real
  {
    var all, o := themes[a] + themes[b], Overlap(themes[a], themes[b]);
    OverlapIsShare(themes[a], themes[b]);
    if all != {} {
      assert |all| as real > 0.0;
      if o >= minOverlap {
        assert o * |all| as real >= minOverlap * |all| as real;
      } else {
        assert (minOverlap - o) * |all| as real > 0.0;
      }
    }
  }

  /** Position `i` of the path, unless it is the last, is linked to the next. */
  predicate StepOk(themes: Themes, minOverlap: real, p: seq<string>, i: int) {
    0 <= i < |p| - 1 ==> Linked(themes, minOverlap, p[i], p[i + 1])
  }

  ghost predicate Path(themes: Themes, minOverlap: real, p: seq<string>, a: string, b: string) {
    && p != [] && p[0] == a && p[|p| - 1] == b && a in themes
    && forall i :: StepOk(themes, minOverlap, p, i)
  }

  /** A chain of links leads from `a` to `b`. */
  ghost predicate Connected(themes: Themes, minOverlap: real, a: string, b: string) {
    exists p :: Path(themes, minOverlap, p, a, b)
  }

  lemma ConnectedReflexive(themes: Themes, minOverlap: real, a: string)
    requires a in themes
    ensures Connected(themes, minOverlap, a, a)
  {
    assert Path(themes, minOverlap, [a], a, a);
  }

  lemma ConnectedByLink(themes: Themes, minOverlap: real, a: string, b: string)
    requires Linked(themes, minOverlap, a, b)
    ensures Connected(themes, minOverlap, a, b)
  {
    assert Path(themes, minOverlap, [a, b], a, b);
  }

  lemma ConnectedTransitive(themes: Themes, minOverlap: real, a: string, b: string, c: string)
    requires Connected(themes, minOverlap, a, b) && Connected(themes, minOverlap, b, c)
    ensures Connected(themes, minOverlap, a, c)
  {
    var p :| Path(themes, minOverlap, p, a, b);
    var q :| Path(themes, minOverlap, q, b, c);
    var r := p + q[1..];
    forall i ensures StepOk(themes, minOverlap, r, i) {
      assert StepOk(themes, minOverlap, p, i) && StepOk(themes, minOverlap, q, i - |p| + 1);
    }
    assert Path(themes, minOverlap, r, a, c);
  }

  lemma {:induction false} PathBack(themes: Themes, minOverlap: real, p: seq<string>, a: string, b: string)
    requires Path(themes, minOverlap, p, a, b)
    ensures Connected(themes, minOverlap, b, a)
    decreases |p|
  {
    if |p| == 1 {
      ConnectedReflexive(themes, minOverlap, a);
    } else {
      var rest := p[1..];
      assert StepOk(themes, minOverlap, p, 0);
      OverlapIsSymmetric(themes[a], themes[p[1]]);
      forall i ensures StepOk(themes, minOverlap, rest, i) {
        assert StepOk(themes, minOverlap, p, i + 1);
      }
      PathBack(themes, minOverlap, rest, p[1], b);
      ConnectedByLink(themes, minOverlap, p[1], a);
      ConnectedTransitive(themes, minOverlap, b, p[1], a);
    }
  }

  lemma ConnectedSymmetric(themes: Themes, minOverlap: real, a: string, b: string)
    requires Connected(themes, minOverlap, a, b)
    ensures Connected(themes, minOverlap, b, a)
  {
    var p :| Path(themes, minOverlap, p, a, b);
    PathBack(themes, minOverlap, p, a, b);
  }

  predicate Together(root: map<string, string>, a: string, b: string) {
    a in root && b in root && root[a] == root[b]
  }

  /** Elements with one root are connected. */
  ghost predicate RootsAreSound(themes: Themes, minOverlap: real, root: map<string, string>) {
    root.Keys == themes.Keys && forall a, b :: Together(root, a, b) ==> Connected(themes, minOverlap, a, b)
  }

  /** Linked elements have one root. */
  ghost predicate RootsAreComplete(themes: Themes, minOverlap: real, root: map<string, string>) {
    root.Keys == themes.Keys && forall a, b :: Linked(themes, minOverlap, a, b) ==> Together(root, a, b)
  }

  lemma {:induction false} PathHasOneRoot(themes: Themes, minOverlap: real, root: map<string, string>, p: seq<string>, a: string, b: string)
    requires RootsAreComplete(themes, minOverlap, root) && Path(themes, minOverlap, p, a, b)
    ensures Together(root, a, b)
    decreases |p|
  {
    if |p| > 1 {
      var front := p[..|p| - 1];
      forall i ensures StepOk(themes, minOverlap, front, i) {
        assert StepOk(themes, minOverlap, p, i);
      }
      PathHasOneRoot(themes, minOverlap, root, front, a, p[|p| - 2]);
      assert StepOk(themes, minOverlap, p, |p| - 2);
      assert Together(root, p[|p| - 2], b);
    }
  }

  /** The union-find classes are exactly the connected components. */
  lemma RootsAreComponents(themes: Themes, minOverlap: real, root: map<string, string>, a: string, b: string)
    requires RootsAreSound(themes, minOverlap, root) && RootsAreComplete(themes, minOverlap, root)
    ensures Together(root, a, b) <==> Connected(themes, minOverlap, a, b)
  {
    if Connected(themes, minOverlap, a, b) {
      var p :| Path(themes, minOverlap, p, a, b);
      PathHasOneRoot(themes, minOverlap, root, p, a, b);
    }
  }

  lemma UnionKeepsSound(themes: Themes, minOverlap: real, before: map<string, string>, after: map<string, string>, left: string, right: string)
    requires RootsAreSound(themes, minOverlap, before) && Unites(before, after, left, right) && Linked(themes, minOverlap, left, right)
    ensures RootsAreSound(themes, minOverlap, after)
  {
    ConnectedByLink(themes, minOverlap, left, right);
    ConnectedSymmetric(themes, minOverlap, left, right);
    forall a, b | Together(after, a, b) ensures Connected(themes, minOverlap, a, b) {
      if !Together(before, a, b) {
        var x, y := if before[a] == before[left] then left else right, if before[a] == before[left] then right else left;
        assert Together(before, a, x) && Together(before, y, b);
        ConnectedTransitive(themes, minOverlap, a, x, y);
        ConnectedTransitive(themes, minOverlap, a, y, b);
      }
    }
  }

  // ----- Themes -----

  method ThemeOverlap(left: set<string>, right: set<string>) returns (overlap: real)
    ensures overlap == Overlap(left, right)
    ensures overlap * |left + right| as real == |left * right| as real
    ensures overlap == 1.0 <==> left == right != {}
    ensures overlap == 0.0 <==> left !! right
  {
    OverlapIsShare(left, right);
    if |left| == 0 || |right| == 0 {
      return 0.0;
    }
    var intersection := CountCommon(left, right);
    var union := |left| + |right| - intersection;
    if union == 0 {
      return 0.0;
    }
    return intersection as real / union as real;
  }

  method CountCommon(left: set<string>, right: set<string>) returns (intersection: nat)
    ensures intersection == |left * right|
  {
    intersection := 0;
    var todo := left;
    while todo != {}
      invariant todo <= left && intersection == |(left - todo) * right|
      decreases todo
    {
      var theme :| theme in todo;
      if theme in right {
        assert (left - (todo - {theme})) * right == (left - todo) * right + {theme};
        intersection := intersection + 1;
      } else {
        assert (left - (todo - {theme})) * right == (left - todo) * right;
      }
      todo := todo - {theme};
    }
    assert left - {} == left;
  }

  /** How many of the actors hold the theme. */
  function Holders(full: Themes, actors: seq<string>, theme: string): nat {
    if actors == [] then 0
    else
      var last := actors[|actors| - 1];
      Holders(full, actors[..|actors| - 1], theme) + if last in full && theme in full[last] then 1 else 0
  }

  lemma {:induction false} AllHold(full: Themes, actors: seq<string>, theme: string)
    ensures Holders(full, actors, theme) <= |actors|
    ensures Holders(full, actors, theme) == |actors| <==> forall a <- actors :: a in full && theme in full[a]
  {
    if actors != [] {
      var front, last := actors[..|actors| - 1], actors[|actors| - 1];
      AllHold(full, front, theme);
      assert forall a :: a in actors <==> a in front || a == last;
    }
  }

  method CountThemes(full: Themes, actor: string, counts: map<string, nat>) returns (out: map<string, nat>)
    requires actor in full
    ensures forall t :: t in out <==> t in counts || (t in full[actor] && t != "general")
    ensures forall t <- out :: out[t] == (if t in counts then counts[t] else 0)
                                         + (if t in full[actor] && t != "general" then 1 else 0)
  {
    out := counts;
    var todo := full[actor];
    while todo != {}
      invariant todo <= full[actor]
      invariant forall t :: t in out <==> t in counts || (t in full[actor] && t !in todo && t != "general")
      invariant forall t <- out :: out[t] == (if t in counts then counts[t] else 0)
                                             + (if t in full[actor] && t !in todo && t != "general" then 1 else 0)
      decreases todo
    {
      var theme :| theme in todo;
      todo := todo - {theme};
      if theme != "general" {
        out := out[theme := (if theme in out then out[theme] else 0) + 1];
      }
    }
  }

  /** The themes, other than "general", that every actor holds. */
  function Universal(full: Themes): set<string> {
    set a, t | a in full && t in full[a] && t != "general" && (forall b <- full :: t in full[b]) :: t
  }

  method UniversalThemes(full: Themes, actors: seq<string>) returns (universal: set<string>)
    requires actors != [] && forall a :: a in actors <==> a in full
    ensures universal == Universal(full)
    ensures forall t :: t in universal <==> t != "general" && forall a <- actors :: t in full[a]
  {
    var counts: map<string, nat> := map[];
    for i := 0 to |actors|
      invariant forall t <- counts :: t != "general" && counts[t] == Holders(full, actors[..i], t) > 0
      invariant forall t :: t != "general" && t !in counts ==> Holders(full, actors[..i], t) == 0
    {
      assert actors[..i + 1][..i] == actors[..i];
      counts := CountThemes(full, actors[i], counts);
    }
    assert actors[..|actors|] == actors;
    universal := set t | t in counts && counts[t] == |actors|;
    assert actors[0] in full;
    forall t ensures t in universal <==> t in Universal(full) {
      AllHold(full, actors, t);
    }
  }

  function Distinctive(full: set<string>, universal: set<string>): set<string> {
    full - universal - {"general"}
  }

  method DistinctiveThemes(full: set<string>, universal: set<string>) returns (out: set<string>)
    ensures out == Distinctive(full, universal)
    ensures forall t :: t in out <==> t in full && t !in universal && t != "general"
  {
    out := {};
    var todo := full;
    while todo != {}
      invariant todo <= full && out == Distinctive(full - todo, universal)
      decreases todo
    {
      var theme :| theme in todo;
      todo := todo - {theme};
      if theme != "general" && theme !in universal {
        out := out + {theme};
      }
    }
  }

  /** In order and without repetition. */
  ghost predicate Listed(xs: seq<string>) {
    Sorted(xs, AtMost) && forall x <- xs :: multiset(xs)[x] == 1
  }

  /** A set of strings has only one listing. */
  lemma ListingIsUnique(xs: seq<string>, ys: seq<string>)
    requires Listed(xs) && Listed(ys) && forall x :: x in xs <==> x in ys
    ensures xs == ys
  {
    forall x ensures multiset(xs)[x] == multiset(ys)[x] {
      assert x in xs <==> x in multiset(xs);
      assert x in ys <==> x in multiset(ys);
    }
    forall a, b | a in multiset(xs) && b in multiset(xs) && AtMost(a, b) && AtMost(b, a) ensures a == b {
      AtMostIsOrder(a, b, b);
    }
    SortedIsUnique(xs, ys, AtMost);
  }

  ghost predicate SharedByAll(themes: Themes, members: seq<string>, theme: string) {
    forall m <- members :: m in themes && theme in themes[m]
  }

  /** The themes all members hold, in order. */
  method SharedThemes(themes: Themes, members: seq<string>) returns (out: seq<string>)
    requires members != [] && forall m <- members :: m in themes
    ensures Listed(out) && forall t :: t in out <==> SharedByAll(themes, members, t)
  {
    var shared := themes[members[0]];
    for i := 1 to |members|
      invariant forall t :: t in shared <==> SharedByAll(themes, members[..i], t)
    {
      ghost var before := shared;
      var todo := shared;
      while todo != {}
        invariant todo <= shared <= before
        invariant forall t :: t in before ==> (t in shared <==> t in todo || t in themes[members[i]])
        decreases todo
      {
        var theme :| theme in todo;
        todo := todo - {theme};
        if theme !in themes[members[i]] {
          shared := shared - {theme};
        }
      }
      assert members[..i + 1] == members[..i] + [members[i]];
    }
    assert members[..|members|] == members;
    var listed := ListOf(shared);
    StringsAreOrdered();
    out := Sort(listed, AtMost);
    assert forall t :: t in out <==> t in multiset(out);
  }

  method ListOf(s: set<string>) returns (out: seq<string>)
    ensures multiset(out) == multiset(s)
  {
    out := [];
    var todo := s;
    while todo != {}
      invariant todo <= s && multiset(out) == multiset(s - todo)
      decreases todo
    {
      var x :| x in todo;
      assert s - (todo - {x}) == (s - todo) + {x};
      out, todo := out + [x], todo - {x};
    }
    assert s - {} == s;
  }

  // ----- Computing the clusters -----

  datatype Cluster = Cluster(themes: seq<string>, members: seq<string>)

  /**
    What counts as a cluster: a whole connected component of at least two actors, listed in
    order, with the non-empty list of the distinctive themes that all of them share.
   */
  ghost predicate IsCluster(themes: Themes, minOverlap: real, c: Cluster) {
    && Listed(c.members) && |c.members| >= 2
    && (forall x :: x in c.members <==> Connected(themes, minOverlap, c.members[0], x))
    && Listed(c.themes) && c.themes != []
    && (forall t :: t in c.themes <==> SharedByAll(themes, c.members, t))
  }

  /** Clusters that share an actor are the same cluster. */
  lemma ClustersAreDisjoint(themes: Themes, minOverlap: real, c: Cluster, d: Cluster, x: string)
    requires IsCluster(themes, minOverlap, c) && IsCluster(themes, minOverlap, d) && x in c.members && x in d.members
    ensures c == d
  {
    var a, b := c.members[0], d.members[0];
    ConnectedSymmetric(themes, minOverlap, a, x);
    ConnectedSymmetric(themes, minOverlap, b, x);
    ConnectedTransitive(themes, minOverlap, a, x, b);
    ConnectedTransitive(themes, minOverlap, b, x, a);
    forall y ensures y in c.members <==> y in d.members {
      if Connected(themes, minOverlap, a, y) {
        ConnectedTransitive(themes, minOverlap, b, a, y);
      }
      if Connected(themes, minOverlap, b, y) {
        ConnectedTransitive(themes, minOverlap, a, b, y);
      }
    }
    ListingIsUnique(c.members, d.members);
    ListingIsUnique(c.themes, d.themes);
  }

  /** Comes the pair (i, j) before the pair (left, right) in the order of the two loops? */
  predicate Earlier(i: int, j: int, left: int, right: int) {
    0 <= i < j && (i < left || (i == left && j < right))
  }

  predicate PairDone(themes: Themes, minOverlap: real, actors: seq<string>, root: map<string, string>, i: int, j: int) {
    0 <= i < |actors| && 0 <= j < |actors| && Linked(themes, minOverlap, actors[i], actors[j]) ==> Together(root, actors[i], actors[j])
  }

  /** The pairs seen so far have one root when they are linked. */
  ghost predicate PairsDone(themes: Themes, minOverlap: real, actors: seq<string>, root: map<string, string>, left: int, right: int) {
    forall i, j :: Earlier(i, j, left, right) ==> PairDone(themes, minOverlap, actors, root, i, j)
  }

  lemma NextPair(themes: Themes, minOverlap: real, actors: seq<string>, before: map<string, string>, after: map<string, string>, left: nat, right: nat)
    requires PairsDone(themes, minOverlap, actors, before, left, right) && left < right < |actors|
    requires if Linked(themes, minOverlap, actors[left], actors[right])
             then Unites(before, after, actors[left], actors[right]) else after == before
    ensures PairsDone(themes, minOverlap, actors, after, left, right + 1)
  {
    forall i, j | Earlier(i, j, left, right + 1) ensures PairDone(themes, minOverlap, actors, after, i, j) {
      assert (i == left && j == right) || PairDone(themes, minOverlap, actors, before, i, j);
    }
  }

  lemma AllPairsSuffice(themes: Themes, minOverlap: real, actors: seq<string>, root: map<string, string>)
    requires root.Keys == themes.Keys && forall a :: a in actors <==> a in themes
    requires PairsDone(themes, minOverlap, actors, root, |actors|, 0)
    ensures RootsAreComplete(themes, minOverlap, root)
  {
    forall a, b | Linked(themes, minOverlap, a, b) ensures Together(root, a, b) {
      assert a in actors && b in actors;
      var i :| 0 <= i < |actors| && actors[i] == a;
      var j :| 0 <= j < |actors| && actors[j] == b;
      OverlapIsSymmetric(themes[a], themes[b]);
      assert i == j || PairDone(themes, minOverlap, actors, root, if i < j then i else j, if i < j then j else i);
    }
  }

  /** Visits every pair of actors and unites the linked ones. */
  method UniteLinked(themes: Themes, actors: seq<string>, minOverlap: real) returns (forest: Forest)
    requires forall a :: a in actors <==> a in themes
    ensures fresh(forest) && forest.Valid()
    ensures RootsAreSound(themes, minOverlap, forest.root) && RootsAreComplete(themes, minOverlap, forest.root)
  {
    forest := new Forest(actors);
    AlonePartsAreSound(themes, minOverlap, forest.root);
    for left := 0 to |actors|
      invariant fresh(forest) && forest.Valid() && RootsAreSound(themes, minOverlap, forest.root)
      invariant PairsDone(themes, minOverlap, actors, forest.root, left, 0)
    {
      for right := left + 1 to |actors|
        invariant fresh(forest) && forest.Valid() && RootsAreSound(themes, minOverlap, forest.root)
        invariant PairsDone(themes, minOverlap, actors, forest.root, left, right)
      {
        var leftID, rightID := actors[left], actors[right];
        assert leftID in actors && rightID in actors;
        var overlap := ThemeOverlap(themes[leftID], themes[rightID]);
        ghost var before := forest.root;
        if overlap >= minOverlap {
          forest.UnionSets(leftID, rightID);
          UnionKeepsSound(themes, minOverlap, before, forest.root, leftID, rightID);
        }
        NextPair(themes, minOverlap, actors, before, forest.root, left, right);
      }
    }
    AllPairsSuffice(themes, minOverlap, actors, forest.root);
  }

  lemma AlonePartsAreSound(themes: Themes, minOverlap: real, root: map<string, string>)
    requires root.Keys == themes.Keys && forall x <- root :: root[x] == x
    ensures RootsAreSound(themes, minOverlap, root)
  {
    forall a, b | Together(root, a, b) ensures Connected(themes, minOverlap, a, b) {
      ConnectedReflexive(themes, minOverlap, a);
    }
  }

  /** The actors with root `r`, in their order. */
  function Members(actors: seq<string>, root: map<string, string>, r: string): (members: seq<string>)
    ensures forall x :: x in members <==> x in actors && x in root && root[x] == r
  {
    if actors == [] then []
    else
      var front, last := Members(actors[..|actors| - 1], root, r), actors[|actors| - 1];
      assert forall x :: x in actors <==> x in actors[..|actors| - 1] || x == last;
      if last in root && root[last] == r then front + [last] else front
  }

  lemma {:induction false} MembersAreListed(actors: seq<string>, root: map<string, string>, r: string)
    requires forall x <- actors :: multiset(actors)[x] == 1
    ensures forall x <- Members(actors, root, r) :: multiset(Members(actors, root, r))[x] == 1
  {
    if actors != [] {
      var front, last := actors[..|actors| - 1], actors[|actors| - 1];
      assert actors == front + [last] && multiset(actors) == multiset(front) + multiset{last};
      forall x | x in front ensures multiset(front)[x] == 1 {
        assert x in actors && x in multiset(front);
      }
      assert last in actors && multiset(actors)[last] == 1;
      assert last !in multiset(front) && last !in front;
      MembersAreListed(front, root, r);
      forall x | x in Members(actors, root, r) ensures multiset(Members(actors, root, r))[x] == 1 {
        assert x in Members(front, root, r) <==> x in multiset(Members(front, root, r));
        assert last !in Members(front, root, r) && last !in multiset(Members(front, root, r));
      }
    }
  }

  /** A root's bucket holds its members; roots without members have no bucket. */
  predicate BucketOk(actors: seq<string>, root: map<string, string>, buckets: map<string, seq<string>>, r: string) {
    if r in buckets then buckets[r] == Members(actors, root, r) && buckets[r] != [] else Members(actors, root, r) == []
  }

  lemma NextActor(actors: seq<string>, root: map<string, string>, buckets: map<string, seq<string>>, i: nat, r: string)
    requires i < |actors| && actors[i] in root && BucketOk(actors[..i], root, buckets, r)
    requires BucketOk(actors[..i], root, buckets, root[actors[i]])
    ensures var mine := root[actors[i]];
            BucketOk(actors[..i + 1], root, buckets[mine := (if mine in buckets then buckets[mine] else []) + [actors[i]]], r)
  {
    assert actors[..i + 1][..i] == actors[..i];
  }

  /** Sorts the actors into buckets by root; looking up a root compresses paths on the way. */
  method FillBuckets(forest: Forest, actors: seq<string>) returns (buckets: map<string, seq<string>>)
    requires forest.Valid() && forall a <- actors :: a in forest.root
    modifies forest
    ensures forest.Valid() && forest.root == old(forest.root)
    ensures forall r :: BucketOk(actors, forest.root, buckets, r)
  {
    ghost var root := forest.root;
    buckets := map[];
    for i := 0 to |actors|
      invariant forest.Valid() && forest.root == root
      invariant forall r :: BucketOk(actors[..i], root, buckets, r)
    {
      assert actors[i] in actors;
      var mine, _ := forest.FindSet(actors[i]);
      ghost var before, seen := buckets, actors[..i + 1];
      buckets := buckets[mine := (if mine in buckets then buckets[mine] else []) + [actors[i]]];
      forall r ensures BucketOk(seen, root, buckets, r) {
        NextActor(actors, root, before, i, r);
      }
    }
    assert actors[..|actors|] == actors;
  }

  function AllDistinctive(full: Themes): (distinctive: Themes)
    ensures distinctive.Keys == full.Keys
  {
    map a | a in full :: Distinctive(full[a], Universal(full))
  }

  /** A theme is distinctive of its holder unless it is "general" or every actor holds it. */
  lemma DistinctiveOf(full: Themes, a: string, t: string)
    requires a in full
    ensures t in AllDistinctive(full)[a] <==> t in full[a] && t != "general" && exists b <- full :: t !in full[b]
  {
  }

  /** The component with root `r`, as the loop over the buckets turns it into a cluster. */
  ghost predicate FromBucket(themes: Themes, actors: seq<string>, root: map<string, string>, c: Cluster, r: string) {
    && Listed(c.members) && |c.members| >= 2 && multiset(c.members) == multiset(Members(actors, root, r))
    && Listed(c.themes) && c.themes != []
    && (forall t :: t in c.themes <==> SharedByAll(themes, c.members, t))
  }

  lemma BucketIsComponent(themes: Themes, minOverlap: real, actors: seq<string>, root: map<string, string>, c: Cluster, r: string)
    requires RootsAreSound(themes, minOverlap, root) && RootsAreComplete(themes, minOverlap, root)
    requires (forall a :: a in actors <==> a in themes) && FromBucket(themes, actors, root, c, r)
    ensures IsCluster(themes, minOverlap, c) && c.members[0] in root && root[c.members[0]] == r
  {
    assert forall x :: x in c.members <==> x in multiset(c.members);
    assert c.members[0] in c.members;
    forall x ensures x in c.members <==> Connected(themes, minOverlap, c.members[0], x) {
      RootsAreComponents(themes, minOverlap, root, c.members[0], x);
    }
  }

  lemma ComponentHasBucket(themes: Themes, minOverlap: real, actors: seq<string>, root: map<string, string>, c: Cluster)
    requires RootsAreSound(themes, minOverlap, root) && RootsAreComplete(themes, minOverlap, root)
    requires (forall a :: a in actors <==> a in themes) && (forall a <- actors :: multiset(actors)[a] == 1)
    requires IsCluster(themes, minOverlap, c)
    ensures c.members[0] in root && FromBucket(themes, actors, root, c, root[c.members[0]])
  {
    var a := c.members[0];
    assert a in c.members;
    RootsAreComponents(themes, minOverlap, root, a, a);
    var ms := Members(actors, root, root[a]);
    MembersAreListed(actors, root, root[a]);
    forall x ensures multiset(c.members)[x] == multiset(ms)[x] {
      RootsAreComponents(themes, minOverlap, root, a, x);
      assert x in c.members <==> x in multiset(c.members);
      assert x in ms <==> x in multiset(ms);
    }
  }

  /** A bucket makes at most one cluster. */
  lemma BucketMakesOne(themes: Themes, actors: seq<string>, root: map<string, string>, c: Cluster, d: Cluster, r: string)
    requires FromBucket(themes, actors, root, c, r) && FromBucket(themes, actors, root, d, r)
    ensures c == d
  {
    assert forall x :: x in c.members <==> x in multiset(c.members);
    assert forall x :: x in d.members <==> x in multiset(d.members);
    ListingIsUnique(c.members, d.members);
    ListingIsUnique(c.themes, d.themes);
  }

  predicate Apart(c: Cluster, d: Cluster) {
    forall x <- c.members :: x !in d.members
  }

  /** The clusters made so far are those of the buckets visited so far, each once. */
  ghost predicate Made(themes: Themes, actors: seq<string>, root: map<string, string>, clusters: seq<Cluster>, from: seq<string>, todo: set<string>) {
    && |from| == |clusters|
    && (forall i :: 0 <= i < |clusters| ==> FromBucket(themes, actors, root, clusters[i], from[i]))
    && (forall r <- from :: r !in todo)
    && (forall i, j :: 0 <= i < j < |from| ==> from[i] != from[j])
    && (forall c, r :: r !in todo && FromBucket(themes, actors, root, c, r) ==> r in from)
  }

  lemma MadeOneMore(themes: Themes, actors: seq<string>, root: map<string, string>, clusters: seq<Cluster>, from: seq<string>,
                    todo: set<string>, r: string, c: Cluster)
    requires Made(themes, actors, root, clusters, from, todo) && r in todo && FromBucket(themes, actors, root, c, r)
    ensures Made(themes, actors, root, clusters + [c], from + [r], todo - {r})
  {
    assert forall s :: s in from + [r] <==> s in from || s == r;
  }

  lemma MadeNoMore(themes: Themes, actors: seq<string>, root: map<string, string>, clusters: seq<Cluster>, from: seq<string>, todo: set<string>, r: string)
    requires Made(themes, actors, root, clusters, from, todo) && forall c :: !FromBucket(themes, actors, root, c, r)
    ensures Made(themes, actors, root, clusters, from, todo - {r})
  {
  }

  lemma FromBucketShares(themes: Themes, actors: seq<string>, root: map<string, string>, c: Cluster, r: string)
    requires FromBucket(themes, actors, root, c, r)
    ensures |Members(actors, root, r)| >= 2 && c.themes != [] && SharedByAll(themes, Members(actors, root, r), c.themes[0])
  {
    var ms := Members(actors, root, r);
    assert |multiset(c.members)| == |c.members| && |multiset(ms)| == |ms|;
    assert forall x :: x in c.members <==> x in multiset(c.members);
    assert forall x :: x in ms <==> x in multiset(ms);
    assert SharedByAll(themes, c.members, c.themes[0]);
  }

  /** A bucket with fewer than two members, or whose members share no theme, makes no cluster. */
  lemma BucketMakesNone(themes: Themes, actors: seq<string>, root: map<string, string>, r: string, shared: seq<string>)
    requires |Members(actors, root, r)| < 2
             || (shared == [] && forall t :: t in shared <==> SharedByAll(themes, Members(actors, root, r), t))
    ensures forall c :: !FromBucket(themes, actors, root, c, r)
  {
    var ms := Members(actors, root, r);
    forall c ensures !FromBucket(themes, actors, root, c, r) {
      if FromBucket(themes, actors, root, c, r) {
        FromBucketShares(themes, actors, root, c, r);
      }
    }
  }

  /** Turns the buckets, visited in any order, into clusters. */
  method MakeClusters(themes: Themes, actors: seq<string>, buckets: map<string, seq<string>>, ghost root: map<string, string>)
    returns (clusters: seq<Cluster>, ghost from: seq<string>)
    requires (forall a <- actors :: multiset(actors)[a] == 1 && a in themes)
    requires forall r :: BucketOk(actors, root, buckets, r)
    ensures Made(themes, actors, root, clusters, from, {})
  {
    clusters, from := [], [];
    var todo := buckets.Keys;
    forall c, r | FromBucket(themes, actors, root, c, r) ensures r in todo {
      assert BucketOk(actors, root, buckets, r);
      assert |multiset(c.members)| == |c.members|;
    }
    StringsAreOrdered();
    while todo != {}
      invariant todo <= buckets.Keys && Made(themes, actors, root, clusters, from, todo)
      decreases todo
    {
      var r :| r in todo;
      var bucket := buckets[r];
      assert BucketOk(actors, root, buckets, r);
      MembersAreListed(actors, root, r);
      if |bucket| < 2 {
        BucketMakesNone(themes, actors, root, r, []);
        MadeNoMore(themes, actors, root, clusters, from, todo, r);
      } else {
        var members, shared := SharedInBucket(themes, bucket);
        if |shared| != 0 {
          MadeOneMore(themes, actors, root, clusters, from, todo, r, Cluster(shared, members));
          clusters, from := clusters + [Cluster(shared, members)], from + [r];
        } else {
          BucketMakesNone(themes, actors, root, r, shared);
          MadeNoMore(themes, actors, root, clusters, from, todo, r);
        }
      }
      todo := todo - {r};
    }
  }

  method SharedInBucket(themes: Themes, bucket: seq<string>) returns (members: seq<string>, shared: seq<string>)
    requires bucket != [] && (forall m <- bucket :: m in themes && multiset(bucket)[m] == 1)
    ensures Listed(members) && multiset(members) == multiset(bucket)
    ensures Listed(shared) && forall t :: t in shared <==> SharedByAll(themes, bucket, t)
    ensures forall t :: t in shared <==> SharedByAll(themes, members, t)
  {
    StringsAreOrdered();
    members := Sort(bucket, AtMost);
    assert |multiset(members)| == |multiset(bucket)|;
    assert forall m :: m in members <==> m in multiset(members);
    assert forall m :: m in bucket <==> m in multiset(bucket);
    shared := SharedThemes(themes, members);
    forall t ensures SharedByAll(themes, bucket, t) <==> SharedByAll(themes, members, t) {
    }
  }

  lemma MadeAreClusters(themes: Themes, minOverlap: real, actors: seq<string>, root: map<string, string>, clusters: seq<Cluster>, from: seq<string>)
    requires RootsAreSound(themes, minOverlap, root) && RootsAreComplete(themes, minOverlap, root)
    requires (forall a :: a in actors <==> a in themes) && (forall a <- actors :: multiset(actors)[a] == 1)
    requires Made(themes, actors, root, clusters, from, {})
    ensures forall c :: c in clusters <==> IsCluster(themes, minOverlap, c)
    ensures forall i, j :: 0 <= i < j < |clusters| ==> Apart(clusters[i], clusters[j])
  {
    forall c ensures c in clusters <==> IsCluster(themes, minOverlap, c) {
      if c in clusters {
        var i :| 0 <= i < |clusters| && clusters[i] == c;
        BucketIsComponent(themes, minOverlap, actors, root, c, from[i]);
      }
      if IsCluster(themes, minOverlap, c) {
        ComponentHasBucket(themes, minOverlap, actors, root, c);
        var r := root[c.members[0]];
        var i :| 0 <= i < |from| && from[i] == r;
        BucketMakesOne(themes, actors, root, c, clusters[i], r);
      }
    }
    forall i, j | 0 <= i < j < |clusters| ensures Apart(clusters[i], clusters[j]) {
      forall x <- clusters[i].members ensures x !in clusters[j].members {
        if x in clusters[j].members {
          assert clusters[i] in clusters && clusters[j] in clusters;
          ClustersAreDisjoint(themes, minOverlap, clusters[i], clusters[j], x);
          BucketIsComponent(themes, minOverlap, actors, root, clusters[i], from[i]);
          BucketIsComponent(themes, minOverlap, actors, root, clusters[j], from[j]);
          assert false;
        }
      }
    }
  }

  lemma ClusterNeedsTwo(themes: Themes, minOverlap: real, c: Cluster)
    requires IsCluster(themes, minOverlap, c)
    ensures |themes| >= 2
  {
    var a, b := c.members[0], c.members[1];
    assert a in c.members && b in c.members && c.members == [a] + c.members[1..];
    assert multiset(c.members)[a] == 1 && b in multiset(c.members[1..]);
    assert a != b;
    MembersAreActors(themes, minOverlap, a, a);
    MembersAreActors(themes, minOverlap, a, b);
    SubsetSize({a, b}, themes.Keys);
  }

  lemma MembersAreActors(themes: Themes, minOverlap: real, a: string, b: string)
    requires Connected(themes, minOverlap, a, b)
    ensures a in themes && b in themes
  {
    var p :| Path(themes, minOverlap, p, a, b);
    assert StepOk(themes, minOverlap, p, |p| - 2);
  }

  method DistinctiveOfAll(full: Themes, actors: seq<string>) returns (distinctive: Themes)
    requires actors != [] && forall a :: a in actors <==> a in full
    ensures distinctive == AllDistinctive(full)
  {
    var universal := UniversalThemes(full, actors);
    distinctive := map[];
    for i := 0 to |actors|
      invariant forall a :: a in distinctive <==> a in actors[..i]
      invariant forall a <- distinctive :: a in full && distinctive[a] == Distinctive(full[a], universal)
    {
      assert actors[i] in actors && actors[..i + 1] == actors[..i] + [actors[i]];
      var own := DistinctiveThemes(full[actors[i]], universal);
      distinctive := distinctive[actors[i] := own];
    }
    assert actors[..|actors|] == actors;
  }

  /**
    The clusters are exactly the connected components of the overlap graph that have two
    members or more and a theme in common, each listed once, in whatever order the buckets
    are visited.
   */
  method FindClusters(full: Themes, actors: seq<string>, minOverlap: real) returns (clusters: seq<Cluster>)
    requires forall a :: a in actors <==> a in full
    requires forall a <- actors :: multiset(actors)[a] == 1
    ensures forall c :: c in clusters <==> IsCluster(AllDistinctive(full), minOverlap, c)
    ensures forall i, j :: 0 <= i < j < |clusters| ==> Apart(clusters[i], clusters[j])
  {
    if |actors| < 2 {
      forall c ensures !IsCluster(AllDistinctive(full), minOverlap, c) {
        if IsCluster(AllDistinctive(full), minOverlap, c) {
          FewActorsFewKeys(full, actors);
          ClusterNeedsTwo(AllDistinctive(full), minOverlap, c);
          assert false;
        }
      }
      return [];
    }
    var distinctive := DistinctiveOfAll(full, actors);
    var forest := UniteLinked(distinctive, actors, minOverlap);
    var buckets := FillBuckets(forest, actors);
    ghost var from;
    clusters, from := MakeClusters(distinctive, actors, buckets, forest.root);
    MadeAreClusters(distinctive, minOverlap, actors, forest.root, clusters, from);
  }

  lemma FewActorsFewKeys(full: Themes, actors: seq<string>)
    requires |actors| < 2 && forall a :: a in actors <==> a in full
    ensures |AllDistinctive(full)| < 2
  {
    if actors == [] {
      assert full.Keys == {};
    } else {
      assert full.Keys == {actors[0]};
    }
    assert |AllDistinctive(full)| == |AllDistinctive(full).Keys|;
  }

  // ----- What is shown of them -----

  /** A cluster as it is returned: its members under their display names. */
  datatype OpinionCluster = OpinionCluster(themes: seq<string>, labels: seq<string>)

  /** An actor without a name is shown by its ID. */
  function Label(names: map<string, string>, actor: string): string {
    if actor in names && names[actor] != "" then names[actor] else actor
  }

  function Labels(names: map<string, string>, members: seq<string>): (labels: seq<string>)
    ensures |labels| == |members| && forall i :: 0 <= i < |members| ==> labels[i] == Label(names, members[i])
  {
    seq(|members|, i requires 0 <= i < |members| => Label(names, members[i]))
  }

  function Shown(names: map<string, string>, c: Cluster): OpinionCluster {
    OpinionCluster(c.themes, Labels(names, c.members))
  }

  function AllShown(names: map<string, string>, clusters: seq<Cluster>): seq<OpinionCluster> {
    seq(|clusters|, i requires 0 <= i < |clusters| => Shown(names, clusters[i]))
  }

  /** Each cluster is shown with its themes and, for each member, the member's name or, without one, its ID. */
  lemma ShownUnderNames(names: map<string, string>, clusters: seq<Cluster>, i: nat)
    requires i < |clusters|
    ensures |AllShown(names, clusters)| == |clusters|
    ensures var shown, c := AllShown(names, clusters)[i], clusters[i];
            && shown.themes == c.themes && |shown.labels| == |c.members|
            && forall k :: 0 <= k < |c.members| ==>
                             var id := c.members[k];
                             shown.labels[k] == if id in names && names[id] != "" then names[id] else id
  {
  }

  predicate ByFirstLabel(a: OpinionCluster, b: OpinionCluster) {
    a.labels == [] || (b.labels != [] && AtMost(a.labels[0], b.labels[0]))
  }

  lemma ByFirstLabelIsTotal()
    ensures TotalPreorder(ByFirstLabel)
  {
    forall a: OpinionCluster, b: OpinionCluster ensures ByFirstLabel(a, b) || ByFirstLabel(b, a) {
      if a.labels != [] && b.labels != [] {
        AtMostIsOrder(a.labels[0], b.labels[0], b.labels[0]);
      }
    }
    forall a: OpinionCluster, b: OpinionCluster, c: OpinionCluster | ByFirstLabel(a, b) && ByFirstLabel(b, c) ensures ByFirstLabel(a, c) {
      if a.labels != [] && b.labels != [] && c.labels != [] {
        AtMostIsOrder(a.labels[0], b.labels[0], c.labels[0]);
      }
    }
  }

  method ClusterLabel(names: map<string, string>, members: seq<string>) returns (labels: seq<string>)
    ensures labels == Labels(names, members)
  {
    labels := [];
    for i := 0 to |members|
      invariant labels == Labels(names, members[..i])
    {
      var name := if members[i] in names then names[members[i]] else "";
      if name == "" {
        name := members[i];
      }
      labels := labels + [name];
    }
    assert members[..|members|] == members;
  }

  /** All the clusters there are, each once and with disjoint members. */
  ghost predicate AreTheClusters(themes: Themes, minOverlap: real, clusters: seq<Cluster>) {
    && (forall c :: c in clusters <==> IsCluster(themes, minOverlap, c))
    && (forall i, j :: 0 <= i < j < |clusters| ==> Apart(clusters[i], clusters[j]))
  }

  /** The cluster is shown here, under its members' names or IDs. */
  ghost predicate ShowsCluster(out: seq<OpinionCluster>, names: map<string, string>, c: Cluster) {
    exists shown <- out ::
      && shown.themes == c.themes && |shown.labels| == |c.members|
      && forall k :: 0 <= k < |c.members| ==>
                       shown.labels[k] == if c.members[k] in names && names[c.members[k]] != "" then names[c.members[k]] else c.members[k]
  }

  lemma EachIsShown(names: map<string, string>, clusters: seq<Cluster>, out: seq<OpinionCluster>)
    requires multiset(out) == multiset(AllShown(names, clusters))
    ensures |out| == |clusters| && forall c <- clusters :: ShowsCluster(out, names, c)
    ensures (forall c <- clusters :: c.members != []) ==> forall o <- out :: o.labels != []
  {
    var all := AllShown(names, clusters);
    assert |multiset(out)| == |multiset(all)|;
    forall c | c in clusters ensures ShowsCluster(out, names, c) {
      var i :| 0 <= i < |clusters| && clusters[i] == c;
      ShownUnderNames(names, clusters, i);
      assert all[i] in multiset(all) && all[i] in out;
    }
    forall o | o in out && forall c <- clusters :: c.members != [] ensures o.labels != [] {
      assert o in multiset(out) && o in all;
      var i :| 0 <= i < |all| && all[i] == o;
      assert clusters[i] in clusters;
    }
  }

  /** The clusters with their members' display names, in the order of the first of these. */
  method ComputeClusters(full: Themes, actors: seq<string>, names: map<string, string>, minOverlap: real) returns (out: seq<OpinionCluster>)
    requires forall a :: a in actors <==> a in full
    requires forall a <- actors :: multiset(actors)[a] == 1
    ensures forall i, j :: 0 <= i < j < |out| ==> out[i].labels != [] && out[j].labels != [] && AtMost(out[i].labels[0], out[j].labels[0])
    ensures exists clusters :: && AreTheClusters(AllDistinctive(full), minOverlap, clusters) && multiset(out) == multiset(AllShown(names, clusters))
                               && forall c <- clusters :: ShowsCluster(out, names, c)
  {
    var clusters := FindClusters(full, actors, minOverlap);
    var shown := [];
    for i := 0 to |clusters|
      invariant shown == AllShown(names, clusters[..i])
    {
      var labels := ClusterLabel(names, clusters[i].members);
      shown := shown + [OpinionCluster(clusters[i].themes, labels)];
    }
    assert clusters[..|clusters|] == clusters;
    ByFirstLabelIsTotal();
    out := Sort(shown, ByFirstLabel);
    assert AreTheClusters(AllDistinctive(full), minOverlap, clusters);
    EachIsShown(names, clusters, out);
    assert forall c <- clusters :: IsCluster(AllDistinctive(full), minOverlap, c);
    assert forall i, j :: 0 <= i < j < |out| ==> out[i] in out && out[j] in out && ByFirstLabel(out[i], out[j]);
  }
}
