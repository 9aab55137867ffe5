/**
  What the participants' methods do together is a run of the protocol: every claim, every
  message taken, every finished drain and every confirmation is a step of `TaskProtocol`.
 */
module ParticipantRuns {
  import opened Wrappers
  import opened Recency
  import opened Views
  import opened Participants
  import C = TaskClaims
  import P = TaskProtocol

  /**
    What one participant did, with the answer it got. `Pass` is time going by, and `Other` is
    whatever leaves the claims alone: submitting a task, reporting a signal, holding leases.
   */
  datatype Deed =
    | Pass(d: nat)
    | ClaimTask(p: Participant, task: string, window: int, now: int, up: bool,
                claim: C.TaskClaim, trouble: Option<Trouble>, sent: seq<Packet>)
    | Take(p: Participant, m: Packet, i: nat, reading: int)
    | Purge(p: Participant, reading: int)
    | Other(p: Participant)
    | DrainEnds(p: Participant)
    | Confirm(p: Participant, task: string, note: string, stamp: string, now: int, up: bool,
              trouble: Option<Trouble>, sent: seq<Packet>)

  /** The views hold the claims of the protocol's peers. */
  predicate Matches(a: P.State, views: map<string, Shown>) {
    a.peers.Keys <= views.Keys && forall q <- a.peers :: a.peers[q].view == views[q].taskClaims
  }

  predicate IsClaim(m: Packet) {
    m.ClaimPacket? && C.TaskClaimIsValid(m.claim)
  }

  /** Only the acting participant's view changes, if any. */
  predicate OnlyChanges(was: map<string, Shown>, left: map<string, Shown>, q: string) {
    q in was && q in left && left == was[q := left[q]]
  }

  /**
    The participant did this, as the contracts of its methods say, with clocks, window and
    delivery within the bounds of the protocol. A claim that is taken is one that was sent.
   */
  ghost predicate Done(c: P.Config, a: P.State, was: map<string, Shown>, deed: Deed, left: map<string, Shown>) {
    match deed
    case Pass(d) => left == was
    case ClaimTask(p, task, window, now, up, claim, trouble, sent) =>
      && OnlyChanges(was, left, p.actorID) && P.ReadsClock(c, a, p.actorID, now) && window >= c.window && (up || c.lossy)
      && p.Claims(was[p.actorID], task, window, now, up, claim, trouble, left[p.actorID], sent)
    case Take(p, m, i, reading) =>
      && OnlyChanges(was, left, p.actorID) && P.ReadsClock(c, a, p.actorID, reading)
      && (IsClaim(m) ==> i < |a.sent| && a.sent[i].claim == m.claim && i !in a.peers[p.actorID].taken)
      && left[p.actorID] == Taken(was[p.actorID], m, Cutoff(reading, c.ttl))
    case Purge(p, reading) =>
      && OnlyChanges(was, left, p.actorID) && P.ReadsClock(c, a, p.actorID, reading)
      && left[p.actorID] == Forget(was[p.actorID], Cutoff(reading, c.ttl))
    case Other(p) =>
      OnlyChanges(was, left, p.actorID) && left[p.actorID].taskClaims == was[p.actorID].taskClaims
    case DrainEnds(p) =>
      left == was && p.actorID in a.peers && P.NothingWaits(c, a.now, a.sent, a.peers[p.actorID])
    case Confirm(p, task, note, stamp, now, up, trouble, sent) =>
      && OnlyChanges(was, left, p.actorID) && P.Enabled(c, a, P.Confirm(p.actorID, task, now))
      && p.Confirms(was[p.actorID], task, note, stamp, now, up, trouble, left[p.actorID], sent)
  }

  /** A claim that was refused or repeated is no step of the protocol. */
  predicate ClaimsAnew(was: map<string, Shown>, deed: Deed)
    requires deed.ClaimTask?
  {
    && deed.p.actorID in was && !C.Has(was[deed.p.actorID].taskClaims, deed.task, deed.p.actorID)
    && deed.p.ClaimTrouble(was[deed.p.actorID], deed.task, deed.window, deed.now).None?
  }

  function EventOf(was: map<string, Shown>, deed: Deed): P.Event {
    match deed
    case Pass(d) => P.Tick(d)
    case ClaimTask(p, _, _, _, up, claim, _, _) => if ClaimsAnew(was, deed) then P.Claim(p.actorID, claim, up) else P.Tick(0)
    case Take(p, m, i, reading) => if IsClaim(m) then P.Receive(p.actorID, i, reading) else P.Hear(p.actorID, reading)
    case Purge(p, reading) => P.Hear(p.actorID, reading)
    case Other(_) => P.Tick(0)
    case DrainEnds(p) => P.DrainEnd(p.actorID)
    case Confirm(p, task, _, _, now, _, _, _) => P.Confirm(p.actorID, task, now)
  }

  ghost function Next(c: P.Config, a: P.State, e: P.Event): P.State {
    if P.Enabled(c, a, e) then P.Apply(c, a, e) else a
  }

  ghost predicate Steps(c: P.Config, states: seq<P.State>, views: seq<map<string, Shown>>, deeds: seq<Deed>, k: int) {
    0 <= k < |deeds| && |states| == |views| == |deeds| + 1
    && Done(c, states[k], views[k], deeds[k], views[k + 1]) && states[k + 1] == Next(c, states[k], EventOf(views[k], deeds[k]))
  }

  /** Deeds of any number of participants, beside the protocol's record of claims and clocks. */
  ghost predicate Run(c: P.Config, states: seq<P.State>, views: seq<map<string, Shown>>, deeds: seq<Deed>) {
    && |states| == |views| == |deeds| + 1
    && (exists now :: states[0] == P.Init(c, now)) && Matches(states[0], views[0])
    && forall k :: 0 <= k < |deeds| ==> Steps(c, states, views, deeds, k)
  }

  // ----- Each deed is a step -----

  lemma ClaimIsAStep(c: P.Config, a: P.State, was: map<string, Shown>, deed: Deed, left: map<string, Shown>)
    requires deed.ClaimTask? && Matches(a, was) && Done(c, a, was, deed, left)
    ensures P.Enabled(c, a, EventOf(was, deed)) && Matches(P.Apply(c, a, EventOf(was, deed)), left)
    ensures ClaimsAnew(was, deed) && deed.up ==> deed.sent == [ClaimPacket(deed.claim)]
    ensures !(ClaimsAnew(was, deed) && deed.up) ==> deed.sent == []
  {
    var q := deed.p.actorID;
    if ClaimsAnew(was, deed) {
      var mine := deed.p.NewClaim(deed.task, deed.window, deed.now);
      assert deed.claim == mine && left[q].taskClaims == C.Merge(was[q].taskClaims, mine);
    } else {
      assert left[q] == was[q];
      assert a.(now := a.now + 0) == a;
    }
  }

  function TakenClaims(was: C.Table, m: Packet, reading: int, ttl: int): C.Table {
    if IsClaim(m) then P.Absorb(was, m.claim, reading, ttl) else C.Purge(was, Cutoff(reading, ttl))
  }

  lemma ClaimsTaken(c: P.Config, a: P.State, was: map<string, Shown>, q: string, m: Packet, i: nat, reading: int, left: map<string, Shown>)
    requires Matches(a, was) && OnlyChanges(was, left, q) && P.ReadsClock(c, a, q, reading)
    requires IsClaim(m) ==> i < |a.sent| && a.sent[i].claim == m.claim && i !in a.peers[q].taken
    requires left[q].taskClaims == TakenClaims(was[q].taskClaims, m, reading, c.ttl)
    ensures var e := if IsClaim(m) then P.Receive(q, i, reading) else P.Hear(q, reading);
            P.Enabled(c, a, e) && Matches(P.Apply(c, a, e), left)
  {
  }

  lemma TakeChangesClaims(c: P.Config, a: P.State, was: map<string, Shown>, deed: Deed, left: map<string, Shown>)
    requires deed.Take? && Done(c, a, was, deed, left)
    ensures var q := deed.p.actorID;
            OnlyChanges(was, left, q) && left[q].taskClaims == TakenClaims(was[q].taskClaims, deed.m, deed.reading, c.ttl)
  {
    TakingIsAProtocolStep(was[deed.p.actorID], deed.m, deed.reading, c.ttl);
  }

  lemma PurgeIsAStep(c: P.Config, a: P.State, was: map<string, Shown>, q: string, reading: int, left: map<string, Shown>)
    requires Matches(a, was) && OnlyChanges(was, left, q) && P.ReadsClock(c, a, q, reading)
    requires left[q] == Forget(was[q], Cutoff(reading, c.ttl))
    ensures P.Enabled(c, a, P.Hear(q, reading)) && Matches(P.Apply(c, a, P.Hear(q, reading)), left)
  {
    assert left[q].taskClaims == C.Purge(was[q].taskClaims, Cutoff(reading, c.ttl));
  }

  /** Only a confirmation that is a start in the protocol is answered without trouble. */
  lemma ConfirmIsAStep(c: P.Config, a: P.State, was: map<string, Shown>, deed: Deed, left: map<string, Shown>)
    requires deed.Confirm? && Matches(a, was) && Done(c, a, was, deed, left)
    ensures P.Enabled(c, a, EventOf(was, deed)) && Matches(P.Apply(c, a, EventOf(was, deed)), left)
    ensures deed.trouble.None? ==>
              var q, claims := deed.p.actorID, was[deed.p.actorID].taskClaims;
              && C.Has(claims, deed.task, q)
              && P.Apply(c, a, EventOf(was, deed)).starts == a.starts + [P.Start(q, claims[deed.task][q], deed.now, a.now)]
  {
    var q := deed.p.actorID;
    assert left[q].taskClaims == was[q].taskClaims;
  }

  lemma DeedIsAStep(c: P.Config, a: P.State, was: map<string, Shown>, deed: Deed, left: map<string, Shown>)
    requires Matches(a, was) && Done(c, a, was, deed, left)
    ensures P.Enabled(c, a, EventOf(was, deed)) && Matches(P.Apply(c, a, EventOf(was, deed)), left)
  {
    match deed
    case Pass(_) =>
    case ClaimTask(_, _, _, _, _, _, _, _) => ClaimIsAStep(c, a, was, deed, left);
    case Take(p, m, i, reading) =>
      TakeChangesClaims(c, a, was, deed, left);
      ClaimsTaken(c, a, was, p.actorID, m, i, reading, left);
    case Purge(p, reading) => PurgeIsAStep(c, a, was, p.actorID, reading, left);
    case Other(_) => assert a.(now := a.now + 0) == a;
    case DrainEnds(_) =>
    case Confirm(_, _, _, _, _, _, _, _) => ConfirmIsAStep(c, a, was, deed, left);
  }

  // ----- Runs are traces -----

  function EventsOf(views: seq<map<string, Shown>>, deeds: seq<Deed>): (es: seq<P.Event>)
    requires |views| == |deeds| + 1
    ensures |es| == |deeds| && forall k :: 0 <= k < |deeds| ==> es[k] == EventOf(views[k], deeds[k])
  {
    seq(|deeds|, k requires 0 <= k < |deeds| => EventOf(views[k], deeds[k]))
  }

  lemma {:induction false} RunKeepsMatch(c: P.Config, states: seq<P.State>, views: seq<map<string, Shown>>, deeds: seq<Deed>, k: nat)
    requires Run(c, states, views, deeds) && k < |states|
    ensures Matches(states[k], views[k])
  {
    if k > 0 {
      RunKeepsMatch(c, states, views, deeds, k - 1);
      assert Steps(c, states, views, deeds, k - 1);
      DeedIsAStep(c, states[k - 1], views[k - 1], deeds[k - 1], views[k]);
    }
  }

  /** What any number of participants do is a trace of the protocol, and their views are its peers' views. */
  lemma RunIsATrace(c: P.Config, states: seq<P.State>, views: seq<map<string, Shown>>, deeds: seq<Deed>)
    requires Run(c, states, views, deeds)
    ensures P.Trace(c, states, EventsOf(views, deeds))
    ensures forall k :: 0 <= k < |states| ==> Matches(states[k], views[k])
  {
    var events := EventsOf(views, deeds);
    forall k | 0 <= k < |states| ensures Matches(states[k], views[k]) {
      RunKeepsMatch(c, states, views, deeds, k);
    }
    forall k | 0 <= k < |events| ensures P.Enabled(c, states[k], events[k]) && states[k + 1] == P.Apply(c, states[k], events[k]) {
      assert Steps(c, states, views, deeds, k);
      DeedIsAStep(c, states[k], views[k], deeds[k], views[k + 1]);
    }
  }

  // ----- At most one participant is told to start -----

  lemma {:induction false} StartsStay(c: P.Config, states: seq<P.State>, events: seq<P.Event>, k: nat, n: nat)
    requires P.Trace(c, states, events) && k <= n < |states|
    ensures forall x <- states[k].starts :: x in states[n].starts
    decreases n
  {
    if k < n {
      StartsStay(c, states, events, k, n - 1);
      assert states[n] == P.Apply(c, states[n - 1], events[n - 1]);
    }
  }

  ghost predicate ToldToStart(deeds: seq<Deed>, k: int, task: string) {
    0 <= k < |deeds| && deeds[k].Confirm? && deeds[k].task == task && deeds[k].trouble.None?
  }

  /** Who is told to start is on the protocol's list of starts from then on. */
  lemma ToldIsStarted(c: P.Config, states: seq<P.State>, views: seq<map<string, Shown>>, deeds: seq<Deed>, k: nat, task: string) returns (x: P.Start)
    requires Run(c, states, views, deeds) && ToldToStart(deeds, k, task)
    ensures x in states[|deeds|].starts && x.actor == deeds[k].p.actorID && x.claim.taskID == task && x.reading == deeds[k].now
  {
    RunIsATrace(c, states, views, deeds);
    var events := EventsOf(views, deeds);
    assert Steps(c, states, views, deeds, k);
    ConfirmIsAStep(c, states[k], views[k], deeds[k], views[k + 1]);
    var q := deeds[k].p.actorID;
    x := P.Start(q, views[k][q].taskClaims[task][q], deeds[k].now, states[k].now);
    assert states[k + 1].starts == states[k].starts + [x];
    P.TraceKeepsInv(c, states, events, k);
    assert P.PeerOk(c, states[k].now, states[k].sent, states[k].kept, q, states[k].peers[q]);
    assert P.EntryIsMade(states[k].sent, states[k].kept, q, states[k].peers[q].view, task, q);
    StartsStay(c, states, events, k + 1, |deeds|);
  }

  /**
    When the window suffices and every broadcast goes through, two participants are never both
    told to start one task within the TTL of its earliest claim.
   */
  lemma AtMostOneIsToldToStart(c: P.Config, states: seq<P.State>, views: seq<map<string, Shown>>, deeds: seq<Deed>, k: nat, l: nat, task: string)
    requires P.WindowSuffices(c) && !c.lossy && Run(c, states, views, deeds)
    requires ToldToStart(deeds, k, task) && ToldToStart(deeds, l, task) && deeds[k].p.actorID != deeds[l].p.actorID
    ensures var sent := states[|deeds|].sent;
            P.Outlived(c, sent, task, deeds[k].now) || P.Outlived(c, sent, task, deeds[l].now)
  {
    var x := ToldIsStarted(c, states, views, deeds, k, task);
    var y := ToldIsStarted(c, states, views, deeds, l, task);
    RunIsATrace(c, states, views, deeds);
    var last := states[|deeds|];
    P.TraceKeepsInv(c, states, EventsOf(views, deeds), |deeds|);
    P.AtMostOneStarts(c, states, EventsOf(views, deeds), |deeds|);
    assert last.sent + last.kept == last.sent;
    assert P.Together(x, y);
  }
}
