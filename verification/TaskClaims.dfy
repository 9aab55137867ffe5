/**
  Optimistic task claims: one earliest claim per task and actor, and the order in which
  claims win. The tables are values here; `Views` keeps them on the heap.
 */
module TaskClaims {
  import opened Wrappers
  import opened Text
  import opened Sorting

  datatype TaskClaim = TaskClaim(
    taskID: string,
    actorID: string,
    actorName: string,
    role: string,
    at: int,
    confirmAfter: int)

  /** Task, then actor. */
  type Table = map<string, map<string, TaskClaim>>

  predicate TaskClaimIsValid(claim: TaskClaim) {
    !Blank(claim.taskID) && !Blank(claim.actorID) && 0 < claim.at < claim.confirmAfter
  }

  predicate Ready(claim: TaskClaim, now: int) {
    now >= claim.confirmAfter
  }

  predicate Has(table: Table, task: string, actor: string) {
    task in table && actor in table[task]
  }

  /** A claim is kept unless the actor already has one for the task that is no later. */
  function Merge(table: Table, claim: TaskClaim): Table {
    var claims := if claim.taskID in table then table[claim.taskID] else map[];
    if claim.actorID in claims && claims[claim.actorID].at <= claim.at then table
    else table[claim.taskID := claims[claim.actorID := claim]]
  }

  function Recent(claims: map<string, TaskClaim>, cutoff: int): map<string, TaskClaim> {
    map actor | actor in claims && claims[actor].at >= cutoff :: claims[actor]
  }

  /** Claims stamped before the cutoff go, and so do tasks that are left without a claim. */
  function Purge(table: Table, cutoff: int): Table {
    map task | task in table && Recent(table[task], cutoff) != map[] :: Recent(table[task], cutoff)
  }

  function MergeAll(claims: seq<TaskClaim>): Table {
    if claims == [] then map[] else Merge(MergeAll(claims[..|claims| - 1]), claims[|claims| - 1])
  }

  predicate ClaimOrder(a: TaskClaim, b: TaskClaim) {
    StampedAtMost(a.at, a.actorID, b.at, b.actorID)
  }

  lemma ClaimOrderIsTotal()
    ensures TotalPreorder(ClaimOrder)
  {
    forall a: TaskClaim, b: TaskClaim ensures ClaimOrder(a, b) || ClaimOrder(b, a) {
      AtMostIsOrder(a.actorID, b.actorID, b.actorID);
    }
    forall a: TaskClaim, b: TaskClaim, c: TaskClaim | ClaimOrder(a, b) && ClaimOrder(b, c) ensures ClaimOrder(a, c) {
      AtMostIsOrder(a.actorID, b.actorID, c.actorID);
    }
  }

  /** Every claim sits under its own task and actor, and no task is there without a claim. */
  ghost predicate WellKeyed(table: Table) {
    && (forall task <- table :: table[task] != map[])
    && (forall task, actor :: Has(table, task, actor) ==> table[task][actor].taskID == task && table[task][actor].actorID == actor)
  }

  lemma MergeKeepsWellKeyed(table: Table, claim: TaskClaim)
    requires WellKeyed(table)
    ensures WellKeyed(Merge(table, claim))
  {
    var merged := Merge(table, claim);
    forall task, actor | Has(merged, task, actor)
      ensures merged[task][actor].taskID == task && merged[task][actor].actorID == actor
    {
      if !(task == claim.taskID && actor == claim.actorID) {
        assert Has(table, task, actor);
      }
    }
    forall task | task in merged ensures merged[task] != map[] {
      if task == claim.taskID {
        assert claim.actorID in merged[task];
      }
    }
  }

  // ----- The table depends only on which claims were received -----

  /** The table holds the earliest claim of every task and actor that claimed, and nothing else. */
  ghost predicate HoldsEarliest(table: Table, claims: seq<TaskClaim>) {
    && WellKeyed(table)
    && (forall c <- claims :: Has(table, c.taskID, c.actorID) && table[c.taskID][c.actorID].at <= c.at)
    && (forall task, actor :: Has(table, task, actor) ==> table[task][actor] in claims)
  }

  lemma MergeHoldsEarliest(table: Table, claims: seq<TaskClaim>, last: TaskClaim)
    requires HoldsEarliest(table, claims)
    ensures HoldsEarliest(Merge(table, last), claims + [last])
  {
    var after := Merge(table, last);
    MergeKeepsWellKeyed(table, last);
    assert forall c :: c in claims + [last] <==> c in claims || c == last;
    forall task, actor | Has(after, task, actor) ensures after[task][actor] in claims + [last] {
      assert (task == last.taskID && actor == last.actorID) || Has(table, task, actor);
    }
  }

  lemma {:induction false} MergeAllHoldsEarliest(claims: seq<TaskClaim>)
    ensures HoldsEarliest(MergeAll(claims), claims)
  {
    if claims != [] {
      var front, last := claims[..|claims| - 1], claims[|claims| - 1];
      MergeAllHoldsEarliest(front);
      MergeHoldsEarliest(MergeAll(front), front, last);
      assert claims == front + [last];
    }
  }

  /** Two claims of one actor on one task with the same stamp are the same claim. */
  ghost predicate Distinguished(claims: seq<TaskClaim>) {
    forall c, d :: c in claims && d in claims && c.taskID == d.taskID && c.actorID == d.actorID && c.at == d.at ==> c == d
  }

  /** Any order and any repetition of the same claims gives the same table. */
  lemma ReceptionOrderIsIrrelevant(claims: seq<TaskClaim>, others: seq<TaskClaim>)
    requires forall c :: c in claims <==> c in others
    requires Distinguished(claims)
    ensures MergeAll(claims) == MergeAll(others)
  {
    MergeAllHoldsEarliest(claims);
    MergeAllHoldsEarliest(others);
    var a, b := MergeAll(claims), MergeAll(others);
    forall task, actor ensures Has(a, task, actor) <==> Has(b, task, actor)
      ensures Has(a, task, actor) ==> a[task][actor] == b[task][actor]
    {
      if Has(a, task, actor) {
        assert a[task][actor] in others;
      }
      if Has(b, task, actor) {
        assert b[task][actor] in claims;
      }
    }
    SameEntries(a, b);
  }

  lemma SameEntries(a: Table, b: Table)
    requires WellKeyed(a) && WellKeyed(b)
    requires forall task, actor :: Has(a, task, actor) <==> Has(b, task, actor)
    requires forall task, actor :: Has(a, task, actor) ==> a[task][actor] == b[task][actor]
    ensures a == b
  {
    forall task | task in a ensures task in b && a[task] == b[task] {
      var actor :| actor in a[task];
      assert Has(a, task, actor);
      forall other ensures other in a[task] <==> other in b[task] {
        assert Has(a, task, other) <==> Has(b, task, other);
      }
      forall other | other in a[task] ensures a[task][other] == b[task][other] {
        assert Has(a, task, other);
      }
    }
    forall task | task in b ensures task in a {
      var actor :| actor in b[task];
      assert Has(b, task, actor);
    }
  }

  // ----- Listing claims and the winner -----

  function Claims(table: Table, task: string): set<TaskClaim> {
    if task in table then table[task].Values else {}
  }

  /** The claims of a task, sorted; the loop visits the inner map in arbitrary order. */
  method ListClaims(table: Table, task: string) returns (out: seq<TaskClaim>)
    requires WellKeyed(table)
    ensures Sorted(out, ClaimOrder) && multiset(out) == multiset(Claims(table, task))
  {
    var found: seq<TaskClaim> := [];
    if task in table {
      var claims := table[task];
      var todo := claims.Keys;
      ghost var seen: set<TaskClaim> := {};
      while todo != {}
        invariant todo <= claims.Keys && multiset(found) == multiset(seen)
        invariant forall c :: c in seen <==> c in claims.Values && c.actorID !in todo
        decreases todo
      {
        var actor :| actor in todo;
        assert Has(table, task, actor);
        assert forall other <- claims :: Has(table, task, other);
        found, todo, seen := found + [claims[actor]], todo - {actor}, seen + {claims[actor]};
      }
      assert seen == claims.Values by {
        assert forall other <- claims :: Has(table, task, other);
      }
    }
    ClaimOrderIsTotal();
    out := Sort(found, ClaimOrder);
  }

  /** The listing is the same for every map iteration order. */
  lemma ListingIsUnique(table: Table, task: string, xs: seq<TaskClaim>, ys: seq<TaskClaim>)
    requires WellKeyed(table)
    requires Sorted(xs, ClaimOrder) && multiset(xs) == multiset(Claims(table, task))
    requires Sorted(ys, ClaimOrder) && multiset(ys) == multiset(Claims(table, task))
    ensures xs == ys
  {
    forall a, b | a in multiset(xs) && b in multiset(xs) && ClaimOrder(a, b) && ClaimOrder(b, a) ensures a == b {
      AtMostIsOrder(a.actorID, b.actorID, b.actorID);
      var i :| i in table[task] && table[task][i] == a;
      var j :| j in table[task] && table[task][j] == b;
      assert Has(table, task, i) && Has(table, task, j);
    }
    SortedIsUnique(xs, ys, ClaimOrder);
  }

  ghost predicate Wins(table: Table, task: string, winner: TaskClaim) {
    winner in Claims(table, task) && forall c <- Claims(table, task) :: ClaimOrder(winner, c)
  }

  method Winner(table: Table, task: string) returns (winner: Option<TaskClaim>)
    requires WellKeyed(table)
    ensures winner.None? <==> task !in table
    ensures winner.Some? ==> Wins(table, task, winner.value)
  {
    var listed := ListClaims(table, task);
    assert |listed| == |multiset(listed)| == |multiset(Claims(table, task))|;
    if |listed| == 0 {
      return None;
    }
    assert listed[0] in multiset(listed);
    forall c | c in Claims(table, task) ensures ClaimOrder(listed[0], c) {
      assert c in multiset(listed);
      var i :| 0 <= i < |listed| && listed[i] == c;
      if i == 0 {
        AtMostIsOrder(c.actorID, c.actorID, c.actorID);
      }
    }
    return Some(listed[0]);
  }

  ghost predicate LeastReceived(claims: seq<TaskClaim>, task: string, winner: TaskClaim) {
    winner in claims && winner.taskID == task && forall c <- claims :: c.taskID == task ==> ClaimOrder(winner, c)
  }

  lemma WinnerIsLeast(table: Table, claims: seq<TaskClaim>, task: string, winner: TaskClaim)
    requires HoldsEarliest(table, claims) && Wins(table, task, winner)
    ensures LeastReceived(claims, task, winner)
  {
    var actor :| actor in table[task] && table[task][actor] == winner;
    assert Has(table, task, actor);
    forall c | c in claims && c.taskID == task ensures ClaimOrder(winner, c) {
      var kept := table[task][c.actorID];
      assert Has(table, task, c.actorID);
      assert kept in Claims(table, task);
      AtMostIsOrder(winner.actorID, kept.actorID, c.actorID);
    }
  }

  lemma LeastIsWinner(table: Table, claims: seq<TaskClaim>, task: string, winner: TaskClaim)
    requires HoldsEarliest(table, claims) && Distinguished(claims) && LeastReceived(claims, task, winner)
    ensures Wins(table, task, winner)
  {
    var kept := table[task][winner.actorID];
    assert Has(table, task, winner.actorID);
    assert kept in claims && ClaimOrder(winner, kept);
    assert kept == winner;
    forall c | c in Claims(table, task) ensures ClaimOrder(winner, c) {
      var actor :| actor in table[task] && table[task][actor] == c;
      assert Has(table, task, actor);
    }
  }

  /** With nothing purged, the winner is the least claim received: earliest stamp, then least actor. */
  lemma WinnerIsLeastReceived(claims: seq<TaskClaim>, task: string, winner: TaskClaim)
    requires Distinguished(claims)
    ensures Wins(MergeAll(claims), task, winner) <==> LeastReceived(claims, task, winner)
  {
    MergeAllHoldsEarliest(claims);
    if Wins(MergeAll(claims), task, winner) {
      WinnerIsLeast(MergeAll(claims), claims, task, winner);
    }
    if LeastReceived(claims, task, winner) {
      LeastIsWinner(MergeAll(claims), claims, task, winner);
    }
  }

  // ----- When purging makes a difference -----

  datatype Event = Received(claim: TaskClaim) | Purged(cutoff: int)

  function Apply(table: Table, e: Event): Table {
    match e
    case Received(claim) => Merge(table, claim)
    case Purged(cutoff) => Purge(table, cutoff)
  }

  function Replay(events: seq<Event>): Table {
    if events == [] then map[] else Apply(Replay(events[..|events| - 1]), events[|events| - 1])
  }

  /** The claims received, without the purges. */
  function Receptions(events: seq<Event>): seq<TaskClaim> {
    if events == [] then []
    else
      var front, last := Receptions(events[..|events| - 1]), events[|events| - 1];
      if last.Received? then front + [last.claim] else front
  }

  /** No purge so far had a later cutoff. */
  predicate PurgedUpTo(events: seq<Event>, cutoff: int) {
    forall e <- events :: e.Purged? ==> e.cutoff <= cutoff
  }

  /** The entry of one actor for one task. */
  function Entry(table: Table, task: string, actor: string): Option<TaskClaim> {
    if Has(table, task, actor) then Some(table[task][actor]) else None
  }

  predicate Concerns(c: TaskClaim, task: string, actor: string) {
    c.taskID == task && c.actorID == actor
  }

  lemma EntryAfterMerge(table: Table, c: TaskClaim, task: string, actor: string)
    ensures Entry(Merge(table, c), task, actor) ==
            var was := Entry(table, task, actor);
            if Concerns(c, task, actor) && (was.None? || was.value.at > c.at) then Some(c) else was
  {
  }

  lemma EntryAfterPurge(table: Table, cutoff: int, task: string, actor: string)
    ensures Entry(Purge(table, cutoff), task, actor) ==
            var was := Entry(table, task, actor);
            if was.Some? && was.value.at >= cutoff then was else None
  {
    if Has(table, task, actor) && table[task][actor].at >= cutoff {
      assert actor in Recent(table[task], cutoff);
    }
  }

  lemma {:induction false} ReplayIsWellKeyed(events: seq<Event>)
    ensures WellKeyed(Replay(events))
  {
    if events != [] {
      var before, last := Replay(events[..|events| - 1]), events[|events| - 1];
      ReplayIsWellKeyed(events[..|events| - 1]);
      match last
      case Received(claim) => MergeKeepsWellKeyed(before, claim);
      case Purged(cutoff) => PurgeKeepsWellKeyed(before, cutoff);
    }
  }

  lemma PurgeKeepsWellKeyed(table: Table, cutoff: int)
    requires WellKeyed(table)
    ensures WellKeyed(Purge(table, cutoff))
  {
    var purged := Purge(table, cutoff);
    forall task, actor | Has(purged, task, actor)
      ensures purged[task][actor].taskID == task && purged[task][actor].actorID == actor
    {
      assert Has(table, task, actor);
    }
  }

  /** A claim below the cutoff that comes before the last one of its actor on the task, which is not below it. */
  ghost predicate Shadowed(claims: seq<TaskClaim>, cutoff: int, i: int, j: int) {
    && 0 <= i < j < |claims| && Concerns(claims[i], claims[j].taskID, claims[j].actorID)
    && claims[i].at < cutoff <= claims[j].at
    && forall k :: j < k < |claims| ==> !Concerns(claims[k], claims[j].taskID, claims[j].actorID)
  }

  /** Some actor's last claim on a task is recent enough, and an earlier received one is not. */
  ghost predicate HasShadow(claims: seq<TaskClaim>, cutoff: int) {
    exists i, j :: Shadowed(claims, cutoff, i, j)
  }

  /** All of the actor's claims on the task are recent enough. */
  ghost predicate AllRecent(claims: seq<TaskClaim>, cutoff: int, task: string, actor: string) {
    forall c <- claims :: Concerns(c, task, actor) ==> c.at >= cutoff
  }

  /** The last of the actor's claims on the task, if there is one, is too old. */
  ghost predicate LastIsOld(claims: seq<TaskClaim>, cutoff: int, task: string, actor: string) {
    forall j :: LastOf(claims, task, actor, j) ==> claims[j].at < cutoff
  }

  ghost predicate LastOf(claims: seq<TaskClaim>, task: string, actor: string, j: int) {
    && 0 <= j < |claims| && Concerns(claims[j], task, actor)
    && forall k :: j < k < |claims| ==> !Concerns(claims[k], task, actor)
  }

  /** Where all claims are recent, purges up to the cutoff never remove the entry. */
  lemma {:induction false} RecentEntrySurvives(events: seq<Event>, cutoff: int, task: string, actor: string)
    requires PurgedUpTo(events, cutoff) && AllRecent(Receptions(events), cutoff, task, actor)
    ensures Entry(Replay(events), task, actor) == Entry(MergeAll(Receptions(events)), task, actor)
    ensures Entry(Replay(events), task, actor).Some? ==> Entry(Replay(events), task, actor).value.at >= cutoff
  {
    if events != [] {
      var front, last := events[..|events| - 1], events[|events| - 1];
      assert forall e :: e in front ==> e in events;
      assert last in events;
      assert last.Received? ==> Receptions(events) == Receptions(front) + [last.claim];
      assert forall c :: c in Receptions(front) ==> c in Receptions(events);
      RecentEntrySurvives(front, cutoff, task, actor);
      match last
      case Received(claim) =>
        assert claim in Receptions(events);
        assert Receptions(events)[..|Receptions(events)| - 1] == Receptions(front);
        EntryAfterMerge(Replay(front), claim, task, actor);
        EntryAfterMerge(MergeAll(Receptions(front)), claim, task, actor);
      case Purged(early) => EntryAfterPurge(Replay(front), early, task, actor);
    }
  }

  /** Where the last claim is too old, the entry is, if it is still there. */
  lemma {:induction false} OldEntryIsOld(events: seq<Event>, cutoff: int, task: string, actor: string)
    requires LastIsOld(Receptions(events), cutoff, task, actor)
    ensures Entry(Replay(events), task, actor).Some? ==> Entry(Replay(events), task, actor).value.at < cutoff
  {
    if events != [] {
      var front, last := events[..|events| - 1], events[|events| - 1];
      match last
      case Received(claim) =>
        EntryAfterMerge(Replay(front), claim, task, actor);
        if Concerns(claim, task, actor) {
          assert LastOf(Receptions(events), task, actor, |Receptions(events)| - 1);
        } else {
          forall j | LastOf(Receptions(front), task, actor, j) ensures Receptions(front)[j].at < cutoff {
            assert LastOf(Receptions(events), task, actor, j);
          }
          OldEntryIsOld(front, cutoff, task, actor);
        }
      case Purged(early) =>
        EntryAfterPurge(Replay(front), early, task, actor);
        OldEntryIsOld(front, cutoff, task, actor);
    }
  }

  lemma {:induction false} UnpurgedReplay(claims: seq<TaskClaim>, events: seq<Event>)
    requires |events| == |claims| && forall i :: 0 <= i < |claims| ==> events[i] == Received(claims[i])
    ensures Replay(events) == MergeAll(claims) && Receptions(events) == claims
  {
    if claims != [] {
      UnpurgedReplay(claims[..|claims| - 1], events[..|events| - 1]);
    }
  }

  function AsEvents(claims: seq<TaskClaim>): (events: seq<Event>)
    ensures |events| == |claims| && forall i :: 0 <= i < |claims| ==> events[i] == Received(claims[i])
  {
    seq(|claims|, i requires 0 <= i < |claims| => Received(claims[i]))
  }

  /** The first `m` claims, with one purge in front of the j-th. */
  function PurgedBefore(claims: seq<TaskClaim>, j: nat, m: nat, cutoff: int): seq<Event>
    requires j <= m <= |claims|
  {
    if m == j then AsEvents(claims[..j]) + [Purged(cutoff)]
    else PurgedBefore(claims, j, m - 1, cutoff) + [Received(claims[m - 1])]
  }

  lemma LastEvent(events: seq<Event>, e: Event)
    ensures Replay(events + [e]) == Apply(Replay(events), e)
    ensures Receptions(events + [e]) == Receptions(events) + if e.Received? then [e.claim] else []
  {
    assert (events + [e])[..|events|] == events;
  }

  lemma {:induction false} PurgedBeforeReceives(claims: seq<TaskClaim>, j: nat, m: nat, cutoff: int)
    requires j <= m <= |claims|
    ensures Receptions(PurgedBefore(claims, j, m, cutoff)) == claims[..m] && PurgedUpTo(PurgedBefore(claims, j, m, cutoff), cutoff)
  {
    if j < m {
      PurgedBeforeReceives(claims, j, m - 1, cutoff);
      LastEvent(PurgedBefore(claims, j, m - 1, cutoff), Received(claims[m - 1]));
      assert claims[..m] == claims[..m - 1] + [claims[m - 1]];
    } else {
      UnpurgedReplay(claims[..j], AsEvents(claims[..j]));
      LastEvent(AsEvents(claims[..j]), Purged(cutoff));
      }
  }

  lemma ShadowPurged(claims: seq<TaskClaim>, cutoff: int, i: nat, j: nat)
    requires Shadowed(claims, cutoff, i, j)
    ensures Entry(Replay(PurgedBefore(claims, j, j, cutoff)), claims[j].taskID, claims[j].actorID) == None
  {
    UnpurgedReplay(claims[..j], AsEvents(claims[..j]));
    LastEvent(AsEvents(claims[..j]), Purged(cutoff));
    MergeAllHoldsEarliest(claims[..j]);
    assert claims[..j][i] in claims[..j];
    EntryAfterPurge(MergeAll(claims[..j]), cutoff, claims[j].taskID, claims[j].actorID);
  }

  /** The purge clears the way for the j-th claim, which then stays. */
  lemma {:induction false} ShadowLifted(claims: seq<TaskClaim>, cutoff: int, i: nat, j: nat, m: nat)
    requires Shadowed(claims, cutoff, i, j) && j < m <= |claims|
    ensures Entry(Replay(PurgedBefore(claims, j, m, cutoff)), claims[j].taskID, claims[j].actorID) == Some(claims[j])
  {
    if m == j + 1 {
      ShadowPurged(claims, cutoff, i, j);
    } else {
      ShadowLifted(claims, cutoff, i, j, m - 1);
    }
    LastEvent(PurgedBefore(claims, j, m - 1, cutoff), Received(claims[m - 1]));
    EntryAfterMerge(Replay(PurgedBefore(claims, j, m - 1, cutoff)), claims[m - 1], claims[j].taskID, claims[j].actorID);
  }

  lemma ShadowShows(claims: seq<TaskClaim>, cutoff: int, i: nat, j: nat)
    requires Shadowed(claims, cutoff, i, j)
    ensures Purge(Replay(PurgedBefore(claims, j, |claims|, cutoff)), cutoff) != Purge(MergeAll(claims), cutoff)
  {
    var task, actor := claims[j].taskID, claims[j].actorID;
    ShadowLifted(claims, cutoff, i, j, |claims|);
    MergeAllHoldsEarliest(claims);
    assert claims[i] in claims;
    EntryAfterPurge(Replay(PurgedBefore(claims, j, |claims|, cutoff)), cutoff, task, actor);
    EntryAfterPurge(MergeAll(claims), cutoff, task, actor);
  }

  lemma AllAreRecent(claims: seq<TaskClaim>, cutoff: int, task: string, actor: string, j: nat)
    requires !HasShadow(claims, cutoff) && LastOf(claims, task, actor, j) && claims[j].at >= cutoff
    ensures AllRecent(claims, cutoff, task, actor)
  {
    forall c | c in claims && Concerns(c, task, actor) ensures c.at >= cutoff {
      var i :| 0 <= i < |claims| && claims[i] == c;
      assert i <= j && !Shadowed(claims, cutoff, i, j);
    }
  }

  lemma EntryUnaffected(claims: seq<TaskClaim>, events: seq<Event>, cutoff: int, task: string, actor: string)
    requires !HasShadow(claims, cutoff) && Receptions(events) == claims && PurgedUpTo(events, cutoff)
    ensures Entry(Purge(Replay(events), cutoff), task, actor) == Entry(Purge(MergeAll(claims), cutoff), task, actor)
  {
    var left, right := Replay(events), MergeAll(claims);
    if j :| LastOf(claims, task, actor, j) && claims[j].at >= cutoff {
      AllAreRecent(claims, cutoff, task, actor, j);
      RecentEntrySurvives(events, cutoff, task, actor);
      assert Entry(left, task, actor) == Entry(right, task, actor);
    } else {
      UnpurgedReplay(claims, AsEvents(claims));
      OldEntryIsOld(events, cutoff, task, actor);
      OldEntryIsOld(AsEvents(claims), cutoff, task, actor);
    }
    EntryAfterPurge(left, cutoff, task, actor);
    EntryAfterPurge(right, cutoff, task, actor);
  }

  lemma TableUnaffected(claims: seq<TaskClaim>, events: seq<Event>, cutoff: int)
    requires !HasShadow(claims, cutoff) && Receptions(events) == claims && PurgedUpTo(events, cutoff)
    ensures Purge(Replay(events), cutoff) == Purge(MergeAll(claims), cutoff)
  {
    var a, b := Purge(Replay(events), cutoff), Purge(MergeAll(claims), cutoff);
    ReplayIsWellKeyed(events);
    MergeAllHoldsEarliest(claims);
    PurgeKeepsWellKeyed(Replay(events), cutoff);
    PurgeKeepsWellKeyed(MergeAll(claims), cutoff);
    forall task, actor ensures Has(a, task, actor) <==> Has(b, task, actor)
      ensures Has(a, task, actor) ==> a[task][actor] == b[task][actor]
    {
      EntryUnaffected(claims, events, cutoff, task, actor);
      assert Entry(a, task, actor) == Entry(b, task, actor);
    }
    SameEntries(a, b);
  }

  /** Wherever purges are put between the receptions, a final purge leaves the same. */
  ghost predicate PurgingIsUnobservable(claims: seq<TaskClaim>, cutoff: int) {
    forall events :: Receptions(events) == claims && PurgedUpTo(events, cutoff) ==>
                       Purge(Replay(events), cutoff) == Purge(MergeAll(claims), cutoff)
  }

  /**
    Purging in between is unobservable for claims if and only if nobody's last claim on a task
    survives the final purge while an earlier received one does not. Otherwise the old claim
    shadows the last one, unless it is purged in time.
   */
  lemma PurgingClaimsIsUnobservableIff(claims: seq<TaskClaim>, cutoff: int)
    ensures PurgingIsUnobservable(claims, cutoff) <==> !HasShadow(claims, cutoff)
  {
    if !HasShadow(claims, cutoff) {
      forall events | Receptions(events) == claims && PurgedUpTo(events, cutoff)
        ensures Purge(Replay(events), cutoff) == Purge(MergeAll(claims), cutoff)
      {
        TableUnaffected(claims, events, cutoff);
      }
    }
    if i, j :| Shadowed(claims, cutoff, i, j) {
      var events := PurgedBefore(claims, j, |claims|, cutoff);
      PurgedBeforeReceives(claims, j, |claims|, cutoff);
      ShadowShows(claims, cutoff, i, j);
      assert claims[..|claims|] == claims;
      assert Receptions(events) == claims;
    }
  }

  /**
    Purging is observable: with a purge in between, a later claim of the same actor is
    accepted and outlives the final purge; without it the earlier claim shadows it and both go.
   */
  lemma PurgingClaimsIsObservable(early: TaskClaim, late: TaskClaim, cutoff: int)
    requires early.taskID == late.taskID && early.actorID == late.actorID && early.at < cutoff <= late.at
    ensures Purge(Merge(Merge(map[], early), late), cutoff) == map[]
    ensures Has(Purge(Merge(Purge(Merge(map[], early), cutoff), late), cutoff), late.taskID, late.actorID)
  {
    assert Recent(map[early.actorID := early], cutoff) == map[];
    assert Purge(map[early.taskID := map[early.actorID := early]], cutoff) == map[];
    assert late.actorID in Recent(map[late.actorID := late], cutoff);
  }

  /** An old claim received last hides the difference again: it displaces the recent one either way. */
  lemma LaterOldClaimHides(old1: TaskClaim, recent: TaskClaim, old2: TaskClaim, cutoff: int)
    requires Concerns(old1, recent.taskID, recent.actorID) && Concerns(old2, recent.taskID, recent.actorID)
    requires old1.at < cutoff <= recent.at && old2.at < cutoff
    ensures PurgingIsUnobservable([old1, recent, old2], cutoff)
  {
    var claims := [old1, recent, old2];
    forall i, j ensures !Shadowed(claims, cutoff, i, j) {
      assert Concerns(claims[2], recent.taskID, recent.actorID);
    }
    PurgingClaimsIsUnobservableIff(claims, cutoff);
  }
}
