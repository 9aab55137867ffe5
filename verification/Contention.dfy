/**
  Detecting trouble in the contention events of a time window: pairs of actors that wait for
  each other, and actors that fail again and again on one prefix. Both detectors range over
  Go maps, so they report in arbitrary order; what they report does not depend on it.
 */
module Contentions {
  import opened Text
  import opened Sorting
  import opened Recency

  datatype Contention = Contention(
    actorID: string,
    prefix: string,
    holderID: string,
    holderPrefix: string,
    error: string,
    at: int)

  predicate IsValid(c: Contention) {
    !Blank(c.actorID) && !Blank(c.prefix) && c.at > 0 && !Blank(c.error) && c.holderID != c.actorID
  }

  datatype Kind = Starvation | Deadlock

  datatype Issue = Issue(
    kind: Kind,
    actorID: string,
    prefix: string,
    holderID: string,
    holderPrefix: string,
    attempts: nat,
    since: int,
    until: int)

  // ----- The window -----

  predicate ByTime(a: Contention, b: Contention) {
    StampedAtMost(a.at, a.actorID, b.at, b.actorID)
  }

  lemma ByTimeIsTotal()
    ensures TotalPreorder(ByTime)
  {
    forall a: Contention, b: Contention ensures ByTime(a, b) || ByTime(b, a) {
      AtMostIsOrder(a.actorID, b.actorID, b.actorID);
    }
    forall a: Contention, b: Contention, c: Contention | ByTime(a, b) && ByTime(b, c) ensures ByTime(a, c) {
      AtMostIsOrder(a.actorID, b.actorID, c.actorID);
    }
  }

  function ContendedAt(c: Contention): int { c.at }

  lemma {:induction false} RecentKeepsOrder(cs: seq<Contention>, cutoff: int)
    requires Sorted(cs, ByTime)
    ensures Sorted(Recent(cs, ContendedAt, cutoff), ByTime)
  {
    if cs != [] {
      var front, last := cs[..|cs| - 1], cs[|cs| - 1];
      RecentKeepsOrder(front, cutoff);
      RecentMembers(front, ContendedAt, cutoff);
      forall c | c in Recent(front, ContendedAt, cutoff) ensures ByTime(c, last) {
        var i :| 0 <= i < |front| && front[i] == c;
        assert ByTime(cs[i], cs[|cs| - 1]);
      }
    }
  }

  /** `recent` is the events at or after the cutoff, each as often as it was reported, in order. */
  ghost predicate IsWindow(events: seq<Contention>, cutoff: int, recent: seq<Contention>) {
    && Sorted(recent, ByTime)
    && forall c :: multiset(recent)[c] == if c.at >= cutoff then multiset(events)[c] else 0
  }

  /** A sorted copy of the events, cut down to the window. */
  method RecentWindow(events: seq<Contention>, cutoff: int) returns (recent: seq<Contention>)
    ensures IsWindow(events, cutoff, recent)
  {
    ByTimeIsTotal();
    var contentions := Sort(events, ByTime);
    recent := [];
    for i := 0 to |contentions|
      invariant recent == Recent(contentions[..i], ContendedAt, cutoff)
    {
      assert contentions[..i + 1][..i] == contentions[..i];
      if contentions[i].at < cutoff {
        continue;
      }
      recent := recent + [contentions[i]];
    }
    assert contentions[..|contentions|] == contentions;
    RecentKeepsOrder(contentions, cutoff);
    forall c ensures multiset(recent)[c] == if c.at >= cutoff then multiset(events)[c] else 0 {
      RecentCounts(contentions, ContendedAt, cutoff, c);
    }
  }

  // ----- The latest event of each actor -----

  predicate Blames(c: Contention, actor: string) {
    c.actorID == actor && c.holderID != ""
  }

  /** Event `i` is the actor's latest that names a holder; of several at one time, the first listed. */
  ghost predicate IsLatest(cs: seq<Contention>, actor: string, i: int) {
    && 0 <= i < |cs| && Blames(cs[i], actor)
    && forall j :: 0 <= j < |cs| && Blames(cs[j], actor) ==> cs[j].at < cs[i].at || (cs[j].at == cs[i].at && i <= j)
  }

  ghost predicate LatestOk(cs: seq<Contention>, latest: map<string, Contention>, actor: string) {
    if actor in latest then exists i :: IsLatest(cs, actor, i) && latest[actor] == cs[i]
    else forall c <- cs :: !Blames(c, actor)
  }

  lemma OneMoreEvent(cs: seq<Contention>, latest: map<string, Contention>, c: Contention, actor: string)
    requires LatestOk(cs, latest, actor)
    ensures LatestOk(cs + [c], if Blames(c, c.actorID) && !(c.actorID in latest && latest[c.actorID].at >= c.at)
                               then latest[c.actorID := c] else latest, actor)
  {
    var more := cs + [c];
    var after := if Blames(c, c.actorID) && !(c.actorID in latest && latest[c.actorID].at >= c.at)
                 then latest[c.actorID := c] else latest;
    if actor in latest {
      var i :| IsLatest(cs, actor, i) && latest[actor] == cs[i];
      if after != latest && actor == c.actorID {
        assert IsLatest(more, actor, |cs|);
      } else {
        assert IsLatest(more, actor, i);
      }
    } else if actor in after {
      assert IsLatest(more, actor, |cs|);
    }
  }

  method LatestContentionByActor(cs: seq<Contention>) returns (latest: map<string, Contention>)
    ensures forall actor :: LatestOk(cs, latest, actor)
  {
    latest := map[];
    for i := 0 to |cs|
      invariant forall actor :: LatestOk(cs[..i], latest, actor)
    {
      ghost var before := latest;
      var c := cs[i];
      if c.holderID != "" && !(c.actorID in latest && latest[c.actorID].at >= c.at) {
        latest := latest[c.actorID := c];
      }
      ghost var seen := cs[..i + 1];
      assert seen == cs[..i] + [c];
      forall actor ensures LatestOk(seen, latest, actor) {
        OneMoreEvent(cs[..i], before, c, actor);
      }
    }
    assert cs[..|cs|] == cs;
  }

  /** If no actor has two blaming events at one time, the order of the events does not matter. */
  lemma LatestIsOrderIndependent(xs: seq<Contention>, ys: seq<Contention>, left: map<string, Contention>, right: map<string, Contention>, actor: string)
    requires forall c :: c in xs <==> c in ys
    requires forall c, d :: c in xs && d in xs && Blames(c, actor) && Blames(d, actor) && c.at == d.at ==> c == d
    requires LatestOk(xs, left, actor) && LatestOk(ys, right, actor)
    ensures actor in left <==> actor in right
    ensures actor in left ==> left[actor] == right[actor]
  {
    if actor in left {
      var i :| IsLatest(xs, actor, i) && left[actor] == xs[i];
      assert xs[i] in ys;
      assert actor in right;
      var j :| IsLatest(ys, actor, j) && right[actor] == ys[j];
      assert ys[j] in xs;
      var k :| 0 <= k < |ys| && ys[k] == xs[i];
      var l :| 0 <= l < |xs| && xs[l] == ys[j];
    }
  }

  // ----- Pairs that wait for each other -----

  const NUL: char := '\0'

  /** The same for a pair in either order. */
  function PairKey(first: string, second: string): string {
    if Less(first, second) then first + [NUL] + second else second + [NUL] + first
  }

  lemma PairKeyIsUnordered(a: string, b: string)
    ensures PairKey(a, b) == PairKey(b, a)
  {
    LessTotal(a, b);
    if Less(a, b) {
      LessAsymmetric(a, b);
    } else if Less(b, a) {
      LessAsymmetric(b, a);
    }
  }

  /** Without NUL in the actor IDs the key tells all pairs apart. */
  lemma PairKeyIsInjective(a: string, b: string, c: string, d: string)
    requires NUL !in a && NUL !in b && NUL !in c && NUL !in d && PairKey(a, b) == PairKey(c, d)
    ensures (a == c && b == d) || (a == d && b == c)
  {
    var x, y := if Less(a, b) then a else b, if Less(a, b) then b else a;
    var u, v := if Less(c, d) then c else d, if Less(c, d) then d else c;
    SameAroundSeparator(x, y, u, v, NUL);
  }

  predicate WaitsFor(latest: map<string, Contention>, a: string, b: string) {
    a in latest && latest[a].holderID == b
  }

  predicate Deadlocked(latest: map<string, Contention>, a: string, b: string) {
    WaitsFor(latest, a, b) && WaitsFor(latest, b, a)
  }

  function DeadlockIssue(first: Contention, second: Contention): Issue {
    Issue(Deadlock, first.actorID, first.prefix, first.holderID, first.holderPrefix, 2, first.at, second.at)
  }

  /** The issue reports a pair that waits for each other, from one side or the other. */
  ghost predicate Reports(latest: map<string, Contention>, issue: Issue, a: string, b: string) {
    Deadlocked(latest, a, b) && issue == DeadlockIssue(latest[a], latest[b])
  }

  function KeyOf(issue: Issue): string {
    PairKey(issue.actorID, issue.holderID)
  }

  ghost predicate HasKey(issues: seq<Issue>, key: string) {
    exists i :: 0 <= i < |issues| && KeyOf(issues[i]) == key
  }

  ghost predicate Reported(latest: map<string, Contention>, issues: seq<Issue>, a: string, b: string) {
    Deadlocked(latest, a, b) ==> HasKey(issues, PairKey(a, b))
  }

  /** No two issues are about one key. */
  ghost predicate KeysDiffer(issues: seq<Issue>) {
    forall i, j :: 0 <= i < j < |issues| ==> KeyOf(issues[i]) != KeyOf(issues[j])
  }

  /** The issues found from the actors visited so far: sound, each key once, and nobody visited is missing. */
  ghost predicate Found(latest: map<string, Contention>, issues: seq<Issue>, seen: set<string>, todo: set<string>) {
    && (forall issue <- issues :: Reports(latest, issue, issue.actorID, issue.holderID))
    && (forall key :: key in seen <==> HasKey(issues, key))
    && KeysDiffer(issues)
    && (forall a, b :: a in latest && a !in todo ==> Reported(latest, issues, a, b))
  }

  lemma FoundOneMore(latest: map<string, Contention>, issues: seq<Issue>, seen: set<string>, todo: set<string>, a: string, issue: Issue)
    requires Found(latest, issues, seen, todo) && a in todo && todo <= latest.Keys
    requires Reports(latest, issue, a, issue.holderID) && issue.actorID == a && KeyOf(issue) !in seen
    ensures Found(latest, issues + [issue], seen + {KeyOf(issue)}, todo - {a})
  {
    var more := issues + [issue];
    assert more[|issues|] == issue;
    forall key | HasKey(issues, key) ensures HasKey(more, key) {
      var i :| 0 <= i < |issues| && KeyOf(issues[i]) == key;
      assert more[i] == issues[i];
    }
    forall key ensures key in seen + {KeyOf(issue)} <==> HasKey(more, key) {
    }
    forall i, j | 0 <= i < j < |more| ensures KeyOf(more[i]) != KeyOf(more[j]) {
      if j == |issues| {
        assert HasKey(issues, KeyOf(more[i]));
      }
    }
    forall x, y | x in latest && x !in todo - {a} ensures Reported(latest, more, x, y) {
      assert x == a || Reported(latest, issues, x, y);
    }
  }

  /** An actor that is in no deadlock, or in one already reported, adds nothing. */
  lemma FoundNoMore(latest: map<string, Contention>, issues: seq<Issue>, seen: set<string>, todo: set<string>, a: string)
    requires Found(latest, issues, seen, todo) && a in todo && todo <= latest.Keys
    requires forall b :: Deadlocked(latest, a, b) ==> PairKey(a, b) in seen
    ensures Found(latest, issues, seen, todo - {a})
  {
  }

  lemma LatestIsKeyed(cs: seq<Contention>, latest: map<string, Contention>, a: string)
    requires LatestOk(cs, latest, a) && a in latest
    ensures latest[a].actorID == a && latest[a].holderID != "" && latest[a] in cs
  {
  }

  /** `a` and `b` each name the other in their latest event that names a holder. */
  ghost predicate NameEachOther(cs: seq<Contention>, a: string, b: string) {
    && (exists i :: IsLatest(cs, a, i) && cs[i].holderID == b)
    && (exists j :: IsLatest(cs, b, j) && cs[j].holderID == a)
  }

  /** The issue is made of the latest events of two actors that name each other. */
  ghost predicate IsDeadlock(cs: seq<Contention>, issue: Issue) {
    exists i, j :: && IsLatest(cs, issue.actorID, i) && IsLatest(cs, issue.holderID, j)
                   && cs[i].holderID == issue.holderID && cs[j].holderID == issue.actorID
                   && issue.kind == Deadlock && issue.attempts == 2
                   && issue.prefix == cs[i].prefix && issue.holderPrefix == cs[i].holderPrefix
                   && issue.since == cs[i].at && issue.until == cs[j].at
  }

  /** Sound, complete and without duplicates. */
  ghost predicate DeadlocksFound(cs: seq<Contention>, issues: seq<Issue>) {
    && (forall issue <- issues :: IsDeadlock(cs, issue))
    && KeysDiffer(issues)
    && (forall a, b :: NameEachOther(cs, a, b) ==> HasKey(issues, PairKey(a, b)))
  }

  /**
    One issue for each key of a pair that waits for each other, whatever the order in which
    the map of latest events is visited.
   */
  method DetectDeadlocks(cs: seq<Contention>) returns (issues: seq<Issue>)
    ensures DeadlocksFound(cs, issues)
  {
    var last := LatestContentionByActor(cs);
    issues := [];
    var seen: set<string> := {};
    var todo := last.Keys;
    while todo != {}
      invariant todo <= last.Keys && Found(last, issues, seen, todo)
      decreases todo
    {
      var actorID :| actorID in todo;
      LatestIsKeyed(cs, last, actorID);
      var contention := last[actorID];
      if contention.holderID in last && last[contention.holderID].holderID == actorID && PairKey(actorID, contention.holderID) !in seen {
        var issue := DeadlockIssue(contention, last[contention.holderID]);
        FoundOneMore(last, issues, seen, todo, actorID, issue);
        seen := seen + {PairKey(actorID, contention.holderID)};
        issues := issues + [issue];
      } else {
        FoundNoMore(last, issues, seen, todo, actorID);
      }
      todo := todo - {actorID};
    }
    FoundInEvents(cs, last, issues, seen);
  }

  /** What was found in the map of latest events, said of the events themselves. */
  lemma FoundInEvents(cs: seq<Contention>, latest: map<string, Contention>, issues: seq<Issue>, seen: set<string>)
    requires (forall actor :: LatestOk(cs, latest, actor)) && Found(latest, issues, seen, {})
    ensures DeadlocksFound(cs, issues)
  {
    forall issue | issue in issues ensures IsDeadlock(cs, issue) {
      var a, b := issue.actorID, issue.holderID;
      assert Reports(latest, issue, a, b) && LatestOk(cs, latest, a) && LatestOk(cs, latest, b);
      var i :| IsLatest(cs, a, i) && latest[a] == cs[i];
      var j :| IsLatest(cs, b, j) && latest[b] == cs[j];
      assert IsLatest(cs, issue.actorID, i) && IsLatest(cs, issue.holderID, j);
    }
    forall a, b | NameEachOther(cs, a, b) ensures HasKey(issues, PairKey(a, b)) {
      DeadlockedMeansNamed(cs, latest, a, b);
      assert Reported(latest, issues, a, b);
    }
  }

  /** The issue is about this unordered pair. */
  predicate IsAbout(issue: Issue, a: string, b: string) {
    (issue.actorID == a && issue.holderID == b) || (issue.actorID == b && issue.holderID == a)
  }

  /**
    When no actor ID contains NUL, there is exactly one issue about a pair if the two name
    each other, and none otherwise.
   */
  lemma DeadlocksAreExact(cs: seq<Contention>, issues: seq<Issue>, a: string, b: string)
    requires DeadlocksFound(cs, issues) && forall c <- cs :: NUL !in c.actorID
    ensures NameEachOther(cs, a, b) <==> exists i :: 0 <= i < |issues| && IsAbout(issues[i], a, b)
    ensures forall i, j :: 0 <= i < j < |issues| ==> !(IsAbout(issues[i], a, b) && IsAbout(issues[j], a, b))
  {
    forall i | 0 <= i < |issues| ensures IsAbout(issues[i], a, b) ==> KeyOf(issues[i]) == PairKey(a, b) && NameEachOther(cs, a, b) {
      PairKeyIsUnordered(a, b);
      assert issues[i] in issues && IsDeadlock(cs, issues[i]);
    }
    if NameEachOther(cs, a, b) {
      var i :| 0 <= i < |issues| && KeyOf(issues[i]) == PairKey(a, b);
      assert issues[i] in issues && IsDeadlock(cs, issues[i]);
      PairKeyIsInjective(issues[i].actorID, issues[i].holderID, a, b);
    }
  }

  lemma LatestIsUnique(cs: seq<Contention>, latest: map<string, Contention>, a: string, b: string)
    requires LatestOk(cs, latest, a)
    ensures WaitsFor(latest, a, b) <==> exists i :: IsLatest(cs, a, i) && cs[i].holderID == b
  {
    if i :| IsLatest(cs, a, i) && cs[i].holderID == b {
      assert cs[i] in cs && Blames(cs[i], a);
    }
  }

  lemma DeadlockedMeansNamed(cs: seq<Contention>, latest: map<string, Contention>, a: string, b: string)
    requires LatestOk(cs, latest, a) && LatestOk(cs, latest, b)
    ensures Deadlocked(latest, a, b) <==> NameEachOther(cs, a, b)
  {
    LatestIsUnique(cs, latest, a, b);
    LatestIsUnique(cs, latest, b, a);
  }

  /** Validated events never make an actor wait for itself. */
  lemma NoSelfPair(cs: seq<Contention>, issue: Issue)
    requires (forall c <- cs :: IsValid(c)) && IsDeadlock(cs, issue)
    ensures issue.actorID != issue.holderID
  {
    var i :| IsLatest(cs, issue.actorID, i) && cs[i].holderID == issue.holderID;
    assert cs[i] in cs;
  }

  predicate SamePair(a: string, b: string, c: string, d: string) {
    (a == c && b == d) || (a == d && b == c)
  }

  /** No two different pairs that name each other share a key. */
  ghost predicate KeysTellPairsApart(cs: seq<Contention>) {
    forall a, b, c, d :: NameEachOther(cs, a, b) && NameEachOther(cs, c, d) && PairKey(a, b) == PairKey(c, d) ==> SamePair(a, b, c, d)
  }

  ghost predicate HasIssue(issues: seq<Issue>, a: string, b: string) {
    exists i :: 0 <= i < |issues| && IsAbout(issues[i], a, b)
  }

  lemma AboutHasKey(issue: Issue, a: string, b: string)
    requires IsAbout(issue, a, b)
    ensures KeyOf(issue) == PairKey(a, b)
  {
    PairKeyIsUnordered(a, b);
  }

  ghost predicate AllReported(cs: seq<Contention>, issues: seq<Issue>) {
    forall a, b :: NameEachOther(cs, a, b) ==> HasIssue(issues, a, b)
  }

  lemma OneKeyOneIssue(issues: seq<Issue>, a: string, b: string, c: string, d: string)
    requires KeysDiffer(issues) && HasIssue(issues, a, b) && HasIssue(issues, c, d) && PairKey(a, b) == PairKey(c, d)
    ensures SamePair(a, b, c, d)
  {
    var i :| 0 <= i < |issues| && IsAbout(issues[i], a, b);
    var j :| 0 <= j < |issues| && IsAbout(issues[j], c, d);
    AboutHasKey(issues[i], a, b);
    AboutHasKey(issues[j], c, d);
    assert i == j;
  }

  lemma KeyNamesPair(cs: seq<Contention>, issues: seq<Issue>, a: string, b: string)
    requires DeadlocksFound(cs, issues) && KeysTellPairsApart(cs) && NameEachOther(cs, a, b)
    ensures HasIssue(issues, a, b)
  {
    var i :| 0 <= i < |issues| && KeyOf(issues[i]) == PairKey(a, b);
    var c, d := issues[i].actorID, issues[i].holderID;
    assert issues[i] in issues && IsDeadlock(cs, issues[i]);
    assert NameEachOther(cs, c, d);
    assert SamePair(a, b, c, d);
    assert IsAbout(issues[i], a, b);
  }

  /**
    Every pair that names each other is reported if and only if no two of them share a key.
    NUL-free actor IDs are enough for that: see `NulFreeKeysTellPairsApart`.
   */
  lemma AllReportedIff(cs: seq<Contention>, issues: seq<Issue>)
    requires DeadlocksFound(cs, issues)
    ensures AllReported(cs, issues) <==> KeysTellPairsApart(cs)
  {
    if KeysTellPairsApart(cs) {
      forall a, b | NameEachOther(cs, a, b) ensures HasIssue(issues, a, b) {
        KeyNamesPair(cs, issues, a, b);
      }
    }
    if AllReported(cs, issues) {
      forall a, b, c, d | NameEachOther(cs, a, b) && NameEachOther(cs, c, d) && PairKey(a, b) == PairKey(c, d)
        ensures SamePair(a, b, c, d)
      {
        OneKeyOneIssue(issues, a, b, c, d);
      }
    }
  }

  lemma NulFreeKeysTellPairsApart(cs: seq<Contention>)
    requires forall c <- cs :: NUL !in c.actorID
    ensures KeysTellPairsApart(cs)
  {
    forall a, b, c, d | NameEachOther(cs, a, b) && NameEachOther(cs, c, d) && PairKey(a, b) == PairKey(c, d)
      ensures SamePair(a, b, c, d)
    {
      PairKeyIsInjective(a, b, c, d);
    }
  }

  function Waits(actor: string, holder: string): Contention {
    Contention(actor, "p", holder, "p", "e", 1)
  }

  /** Four actors in two pairs that name each other. */
  function TwoPairs(a: string, b: string, c: string, d: string): seq<Contention> {
    [Waits(a, b), Waits(b, a), Waits(c, d), Waits(d, c)]
  }

  lemma TwoPairsNameEachOther(a: string, b: string, c: string, d: string)
    requires a != b && a != c && a != d && b != c && b != d && c != d && a != "" && b != "" && c != "" && d != ""
    ensures NameEachOther(TwoPairs(a, b, c, d), a, b) && NameEachOther(TwoPairs(a, b, c, d), c, d)
  {
    var cs := TwoPairs(a, b, c, d);
    assert IsLatest(cs, a, 0) && IsLatest(cs, b, 1) && IsLatest(cs, c, 2) && IsLatest(cs, d, 3);
  }

  /**
    Four events by which two pairs wait for each other. NUL in two of the IDs gives the pairs
    one key, so whatever the detector returns, one of the two deadlocks is missing.
   */
  lemma NulHidesADeadlock(issues: seq<Issue>)
    requires DeadlocksFound(TwoPairs("x", "y\0z", "x\0y", "z"), issues)
    ensures NameEachOther(TwoPairs("x", "y\0z", "x\0y", "z"), "x", "y\0z")
    ensures NameEachOther(TwoPairs("x", "y\0z", "x\0y", "z"), "x\0y", "z")
    ensures !(HasIssue(issues, "x", "y\0z") && HasIssue(issues, "x\0y", "z"))
  {
    var a, b, c, d := "x", "y\0z", "x\0y", "z";
    assert |a| == |d| == 1 && |b| == |c| == 3 && a[0] == 'x' && d[0] == 'z' && b[0] == 'y' && c[0] == 'x';
    TwoPairsNameEachOther(a, b, c, d);
    SharedKey();
    if HasIssue(issues, a, b) && HasIssue(issues, c, d) {
      OneKeyOneIssue(issues, a, b, c, d);
    }
  }

  lemma SharedKey()
    ensures PairKey("x", "y\0z") == PairKey("x\0y", "z")
  {
    var s, t := "x" + [NUL] + "y\0z", "x\0y" + [NUL] + "z";
    assert s == t;
    assert Less("x", "y\0z") && Less("x\0y", "z");
  }

  // ----- Actors that keep failing on one prefix -----

  function GroupKey(c: Contention): string {
    c.actorID + [NUL] + c.prefix
  }

  /** The events with this key, in their order. */
  function Group(cs: seq<Contention>, key: string): (g: seq<Contention>)
    ensures forall c :: c in g <==> c in cs && GroupKey(c) == key
  {
    if cs == [] then []
    else
      var front, last := cs[..|cs| - 1], cs[|cs| - 1];
      assert forall c :: c in cs <==> c in front || c == last;
      if GroupKey(last) == key then Group(front, key) + [last] else Group(front, key)
  }

  /** How many of the events are this actor's failures on this prefix. */
  function Failures(cs: seq<Contention>, actor: string, prefix: string): nat {
    if cs == [] then 0
    else
      var last := cs[|cs| - 1];
      Failures(cs[..|cs| - 1], actor, prefix) + if last.actorID == actor && last.prefix == prefix then 1 else 0
  }

  /** When no actor ID contains NUL, a group is one actor's failures on one prefix. */
  lemma {:induction false} GroupIsActorAndPrefix(cs: seq<Contention>, c: Contention)
    requires NUL !in c.actorID && forall d <- cs :: NUL !in d.actorID
    ensures |Group(cs, GroupKey(c))| == Failures(cs, c.actorID, c.prefix)
    ensures forall d <- Group(cs, GroupKey(c)) :: d.actorID == c.actorID && d.prefix == c.prefix
  {
    if cs != [] {
      var last := cs[|cs| - 1];
      GroupIsActorAndPrefix(cs[..|cs| - 1], c);
      if GroupKey(last) == GroupKey(c) {
        SameAroundSeparator(last.actorID, last.prefix, c.actorID, c.prefix, NUL);
      }
    }
  }

  function StarvationIssue(group: seq<Contention>): Issue
    requires group != []
  {
    var first, last := group[0], group[|group| - 1];
    Issue(Starvation, first.actorID, first.prefix, last.holderID, last.holderPrefix, |group|, first.at, last.at)
  }

  /** A group has each of its events as often as they were reported. */
  lemma {:induction false} GroupCounts(cs: seq<Contention>, key: string, c: Contention)
    ensures multiset(Group(cs, key))[c] == if GroupKey(c) == key then multiset(cs)[c] else 0
  {
    if cs != [] {
      assert cs == cs[..|cs| - 1] + [cs[|cs| - 1]];
      GroupCounts(cs[..|cs| - 1], key, c);
    }
  }

  /** Event `i` is the first with this key, event `j` the last. */
  ghost predicate Ends(cs: seq<Contention>, key: string, i: int, j: int) {
    && 0 <= i <= j < |cs| && GroupKey(cs[i]) == key && GroupKey(cs[j]) == key
    && forall k :: 0 <= k < |cs| && GroupKey(cs[k]) == key ==> i <= k <= j
  }

  lemma EndsOneMore(cs: seq<Contention>, last: Contention, key: string, i: int, j: int)
    requires Ends(cs, key, i, j)
    ensures Ends(cs + [last], key, i, if GroupKey(last) == key then |cs| else j)
  {
    var more := cs + [last];
    assert more[|cs|] == last && forall k :: 0 <= k < |cs| ==> more[k] == cs[k];
  }

  lemma EndsAlone(cs: seq<Contention>, last: Contention, key: string)
    requires GroupKey(last) == key && forall c <- cs :: GroupKey(c) != key
    ensures Ends(cs + [last], key, |cs|, |cs|)
  {
    var more := cs + [last];
    assert more[|cs|] == last && forall k :: 0 <= k < |cs| ==> more[k] in cs;
  }

  lemma {:induction false} GroupEnds(cs: seq<Contention>, key: string) returns (i: int, j: int)
    requires Group(cs, key) != []
    ensures Ends(cs, key, i, j) && Group(cs, key)[0] == cs[i] && Group(cs, key)[|Group(cs, key)| - 1] == cs[j]
  {
    var front, last := cs[..|cs| - 1], cs[|cs| - 1];
    assert cs == front + [last];
    if Group(front, key) == [] {
      assert forall c <- front :: GroupKey(c) == key ==> c in Group(front, key);
      EndsAlone(front, last, key);
      i, j := |front|, |front|;
    } else {
      i, j := GroupEnds(front, key);
      EndsOneMore(front, last, key, i, j);
      j := if GroupKey(last) == key then |front| else j;
    }
  }

  /** The issue spans the group with its key: who failed first, and who held what at the last failure. */
  ghost predicate IsStarvation(cs: seq<Contention>, issue: Issue) {
    exists i, j :: && Ends(cs, GroupOf(issue), i, j)
                   && issue.kind == Starvation && issue.attempts == |Group(cs, GroupOf(issue))|
                   && issue.actorID == cs[i].actorID && issue.prefix == cs[i].prefix
                   && issue.holderID == cs[j].holderID && issue.holderPrefix == cs[j].holderPrefix
                   && issue.since == cs[i].at && issue.until == cs[j].at
  }

  lemma InOrder(cs: seq<Contention>, i: int, j: int)
    requires Sorted(cs, ByTime) && 0 <= i <= j < |cs|
    ensures cs[i].at <= cs[j].at
  {
    assert i < j ==> ByTime(cs[i], cs[j]);
  }

  /** In a sorted window an issue spans its group: from the least to the greatest time. */
  lemma IssueSpansGroup(cs: seq<Contention>, issue: Issue)
    requires Sorted(cs, ByTime) && IsStarvation(cs, issue)
    ensures var key := GroupOf(issue);
            && (forall c <- cs :: GroupKey(c) == key ==> issue.since <= c.at <= issue.until)
            && (exists c <- cs :: GroupKey(c) == key && c.at == issue.since)
            && (exists c <- cs :: GroupKey(c) == key && c.at == issue.until)
  {
    var i, j :| Ends(cs, GroupOf(issue), i, j) && issue.since == cs[i].at && issue.until == cs[j].at;
    assert cs[i] in cs && cs[j] in cs;
    forall c | c in cs && GroupKey(c) == GroupOf(issue) ensures cs[i].at <= c.at <= cs[j].at {
      var k :| 0 <= k < |cs| && cs[k] == c;
      InOrder(cs, i, k);
      InOrder(cs, k, j);
    }
  }

  /** A key's bucket holds its group; keys without events have no bucket. */
  predicate BucketOk(cs: seq<Contention>, groups: map<string, seq<Contention>>, key: string) {
    if key in groups then groups[key] == Group(cs, key) && groups[key] != [] else Group(cs, key) == []
  }

  method GroupContentions(cs: seq<Contention>) returns (groups: map<string, seq<Contention>>)
    ensures forall key :: BucketOk(cs, groups, key)
  {
    groups := map[];
    for i := 0 to |cs|
      invariant forall key :: BucketOk(cs[..i], groups, key)
    {
      ghost var before, seen := groups, cs[..i + 1];
      assert seen[..i] == cs[..i];
      var key := GroupKey(cs[i]);
      groups := groups[key := (if key in groups then groups[key] else []) + [cs[i]]];
      forall k ensures BucketOk(seen, groups, k) {
        assert BucketOk(cs[..i], before, k);
      }
    }
    assert cs[..|cs|] == cs;
  }

  /** The group is not empty and at the threshold. */
  ghost predicate Starved(cs: seq<Contention>, threshold: int, key: string) {
    Group(cs, key) != [] && |Group(cs, key)| >= threshold
  }

  /** The key of the group that an issue reports. */
  function GroupOf(issue: Issue): string {
    issue.actorID + [NUL] + issue.prefix
  }

  ghost predicate HasGroup(issues: seq<Issue>, key: string) {
    exists i :: 0 <= i < |issues| && GroupOf(issues[i]) == key
  }

  /** Every issue is that of its group, the group is at the threshold, and no group has two. */
  ghost predicate IssuesOk(cs: seq<Contention>, threshold: int, issues: seq<Issue>) {
    && (forall issue <- issues :: Starved(cs, threshold, GroupOf(issue)) && IsStarvation(cs, issue))
    && (forall i, j :: 0 <= i < j < |issues| ==> GroupOf(issues[i]) != GroupOf(issues[j]))
  }

  lemma IssueNamesGroup(cs: seq<Contention>, key: string)
    requires Group(cs, key) != []
    ensures GroupOf(StarvationIssue(Group(cs, key))) == key && IsStarvation(cs, StarvationIssue(Group(cs, key)))
  {
    var i, j := GroupEnds(cs, key);
    assert Ends(cs, GroupOf(StarvationIssue(Group(cs, key))), i, j);
  }

  lemma OneMoreIssue(cs: seq<Contention>, threshold: int, issues: seq<Issue>, key: string)
    requires IssuesOk(cs, threshold, issues) && Starved(cs, threshold, key) && !HasGroup(issues, key)
    ensures IssuesOk(cs, threshold, issues + [StarvationIssue(Group(cs, key))])
    ensures forall k :: HasGroup(issues + [StarvationIssue(Group(cs, key))], k) <==> HasGroup(issues, k) || k == key
  {
    var issue := StarvationIssue(Group(cs, key));
    var more := issues + [issue];
    IssueNamesGroup(cs, key);
    assert more[|issues|] == issue;
    forall k | HasGroup(issues, k) ensures HasGroup(more, k) {
      var i :| 0 <= i < |issues| && GroupOf(issues[i]) == k;
      assert more[i] == issues[i];
    }
    forall i, j | 0 <= i < j < |more| ensures GroupOf(more[i]) != GroupOf(more[j]) {
      assert j == |issues| ==> more[i] == issues[i];
    }
  }

  /** One issue for each group at the threshold and no other, whatever the order of the groups. */
  method DetectStarvation(cs: seq<Contention>, threshold: int) returns (issues: seq<Issue>)
    ensures IssuesOk(cs, threshold, issues) && forall key :: HasGroup(issues, key) <==> Starved(cs, threshold, key)
  {
    var groups := GroupContentions(cs);
    issues := [];
    var todo := groups.Keys;
    forall key | Starved(cs, threshold, key) ensures key in todo {
      assert BucketOk(cs, groups, key);
    }
    while todo != {}
      invariant todo <= groups.Keys && IssuesOk(cs, threshold, issues)
      invariant forall key :: HasGroup(issues, key) <==> Starved(cs, threshold, key) && key !in todo
      decreases todo
    {
      var key :| key in todo;
      assert BucketOk(cs, groups, key);
      var group := groups[key];
      if |group| >= threshold {
        OneMoreIssue(cs, threshold, issues, key);
        issues := issues + [StarvationIssue(group)];
      }
      todo := todo - {key};
    }
  }

  ghost predicate HasStarvation(issues: seq<Issue>, actor: string, prefix: string) {
    exists i :: 0 <= i < |issues| && issues[i].actorID == actor && issues[i].prefix == prefix
  }

  lemma FailuresInGroup(cs: seq<Contention>, actor: string, prefix: string)
    requires NUL !in actor && forall c <- cs :: NUL !in c.actorID
    ensures |Group(cs, actor + [NUL] + prefix)| == Failures(cs, actor, prefix)
  {
    GroupIsActorAndPrefix(cs, Contention(actor, prefix, "", "", "", 0));
  }

  /**
    When no actor ID contains NUL, there is an issue for exactly those actors and prefixes with
    as many failures as the threshold, one for each, and it counts the failures.
   */
  lemma StarvationIsExact(cs: seq<Contention>, threshold: int, issues: seq<Issue>, actor: string, prefix: string)
    requires IssuesOk(cs, threshold, issues) && forall key :: HasGroup(issues, key) <==> Starved(cs, threshold, key)
    requires NUL !in actor && forall c <- cs :: NUL !in c.actorID
    ensures HasStarvation(issues, actor, prefix) <==> Failures(cs, actor, prefix) > 0 && Failures(cs, actor, prefix) >= threshold
    ensures forall issue <- issues :: issue.actorID == actor && issue.prefix == prefix ==> issue.attempts == Failures(cs, actor, prefix)
    ensures forall i, j :: 0 <= i < j < |issues| ==> issues[i].actorID != issues[j].actorID || issues[i].prefix != issues[j].prefix
  {
    var key := actor + [NUL] + prefix;
    FailuresInGroup(cs, actor, prefix);
    assert HasGroup(issues, key) <==> Starved(cs, threshold, key);
    forall i | 0 <= i < |issues| ensures GroupOf(issues[i]) == key <==> issues[i].actorID == actor && issues[i].prefix == prefix {
      assert issues[i] in issues && IsStarvation(cs, issues[i]);
      if GroupOf(issues[i]) == key {
        SameAroundSeparator(issues[i].actorID, issues[i].prefix, actor, prefix, NUL);
      }
    }
  }

  /** The issues of the starved groups and, from position `n` on, those of the deadlocked pairs. */
  ghost predicate Analyzed(cs: seq<Contention>, threshold: int, issues: seq<Issue>, n: nat) {
    && n <= |issues| && IssuesOk(cs, threshold, issues[..n])
    && (forall key :: HasGroup(issues[..n], key) <==> Starved(cs, threshold, key))
    && DeadlocksFound(cs, issues[n..])
  }

  method Analyze(cs: seq<Contention>, threshold: int) returns (issues: seq<Issue>)
    ensures exists n: nat :: Analyzed(cs, threshold, issues, n)
  {
    var starved := DetectStarvation(cs, threshold);
    var deadlocked := DetectDeadlocks(cs);
    issues := starved + deadlocked;
    assert issues[..|starved|] == starved && issues[|starved|..] == deadlocked;
    assert Analyzed(cs, threshold, issues, |starved|);
  }
}
