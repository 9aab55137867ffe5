/**
  Claim-then-confirm between peers that only share a broadcast mesh. Time is real time;
  every peer reads its own clock, which is off by at most `skew` and does not go back. A
  claim reaches every peer within `delay` of its stamp. A confirming peer drains its inbox
  first and looks at the clock at most `gap` later.
 */
module TaskProtocol {
  import opened Wrappers
  import opened Text
  import opened Sorting
  import opened TaskClaims

  /** `lossy` says whether the mesh may fail to take a claim. */
  datatype Config = Config(actors: set<string>, delay: nat, skew: nat, gap: nat, window: nat, ttl: nat, lossy: bool)

  /** A published claim and the real time at which it was stamped. */
  datatype Sent = Sent(claim: TaskClaim, moment: int)

  /**
    One peer: its last clock reading, its view, which published claims it has taken from its
    inbox and which are merged in the view, and when it last found the inbox empty.
   */
  datatype Peer = Peer(
    reading: int,
    view: Table,
    taken: set<nat>,
    merged: set<nat>,
    drained: Option<int>)

  /** A peer that passed confirmation and starts the work. */
  datatype Start = Start(actor: string, claim: TaskClaim, reading: int, moment: int)

  /** `kept` are the claims that the mesh did not take: they are in their owner's view only. */
  datatype State = State(now: int, sent: seq<Sent>, kept: seq<Sent>, peers: map<string, Peer>, starts: seq<Start>)

  /**
    A claim is merged into its owner's view before it is broadcast, and `up` says whether the
    mesh takes it. `Hear` is the arrival of a message that is no claim: like any arrival it
    purges the view.
   */
  datatype Event =
    | Tick(d: nat)
    | Claim(q: string, claim: TaskClaim, up: bool)
    | Receive(q: string, i: nat, reading: int)
    | Hear(q: string, reading: int)
    | DrainEnd(q: string)
    | Confirm(q: string, task: string, reading: int)

  /** Receiving a claim purges the view first. */
  function Absorb(view: Table, claim: TaskClaim, reading: int, ttl: int): Table {
    Merge(Purge(view, reading - ttl), claim)
  }

  datatype Verdict = NotClaimed | NotConfirmable | Outbid | Started

  /** What confirmation decides from the view once the inbox is drained. */
  ghost function Judge(view: Table, task: string, actor: string, reading: int): Verdict {
    if !Has(view, task, actor) then NotClaimed
    else if !Ready(view[task][actor], reading) then NotConfirmable
    else if exists w :: Wins(view, task, w) && w.actorID == actor then Started
    else Outbid
  }

  predicate ReadsClock(c: Config, a: State, q: string, reading: int) {
    q in a.peers && a.peers[q].reading <= reading && a.now - c.skew <= reading <= a.now + c.skew
  }

  function Init(c: Config, now: int): State {
    State(now, [], [], map q | q in c.actors :: Peer(now - c.skew, map[], {}, {}, None), [])
  }

  /** The inbox can be empty: whatever was not taken from it may still be on its way. */
  predicate NothingWaits(c: Config, now: int, sent: seq<Sent>, p: Peer) {
    forall i :: 0 <= i < |sent| ==> i in p.taken || now <= sent[i].moment + c.delay
  }

  ghost predicate Enabled(c: Config, a: State, e: Event) {
    match e
    case Tick(d) => true
    case Claim(q, claim, up) =>
      && (up || c.lossy)
      && ReadsClock(c, a, q, claim.at) && claim.actorID == q && claim.confirmAfter >= claim.at + c.window && TaskClaimIsValid(claim)
      && !Has(a.peers[q].view, claim.taskID, q)
    case Receive(q, i, reading) =>
      ReadsClock(c, a, q, reading) && i < |a.sent| && i !in a.peers[q].taken
    case Hear(q, reading) =>
      ReadsClock(c, a, q, reading)
    case DrainEnd(q) =>
      q in a.peers && NothingWaits(c, a.now, a.sent, a.peers[q])
    case Confirm(q, task, reading) =>
      ReadsClock(c, a, q, reading) && a.peers[q].drained.Some? && a.now - a.peers[q].drained.value <= c.gap
  }

  ghost function Apply(c: Config, a: State, e: Event): State
    requires Enabled(c, a, e)
  {
    match e
    case Tick(d) => a.(now := a.now + d)
    case Claim(q, claim, up) =>
      var p := a.peers[q];
      var p' := p.(reading := claim.at, view := Merge(p.view, claim));
      if up then
        a.(sent := a.sent + [Sent(claim, a.now)], peers := a.peers[q := p'.(merged := p.merged + {|a.sent|})])
      else
        a.(kept := a.kept + [Sent(claim, a.now)], peers := a.peers[q := p'])
    case Receive(q, i, reading) =>
      var p := a.peers[q];
      a.(peers := a.peers[q := p.(reading := reading, view := Absorb(p.view, a.sent[i].claim, reading, c.ttl),
                                  taken := p.taken + {i}, merged := p.merged + {i})])
    case Hear(q, reading) =>
      var p := a.peers[q];
      a.(peers := a.peers[q := p.(reading := reading, view := Purge(p.view, reading - c.ttl))])
    case DrainEnd(q) =>
      a.(peers := a.peers[q := a.peers[q].(drained := Some(a.now))])
    case Confirm(q, task, reading) =>
      var p := a.peers[q];
      var b := a.(peers := a.peers[q := p.(reading := reading, drained := None)]);
      if Judge(p.view, task, q, reading).Started? then
        b.(starts := a.starts + [Start(q, p.view[task][q], reading, a.now)])
      else b
  }

  ghost predicate Trace(c: Config, states: seq<State>, events: seq<Event>) {
    && |states| == |events| + 1 && (exists now :: states[0] == Init(c, now))
    && forall i :: 0 <= i < |events| ==> Enabled(c, states[i], events[i]) && states[i + 1] == Apply(c, states[i], events[i])
  }

  // ----- The invariant -----

  /** Some claim on the task was stamped more than the TTL before this reading. */
  ghost predicate Outlived(c: Config, sent: seq<Sent>, task: string, reading: int) {
    exists j :: 0 <= j < |sent| && sent[j].claim.taskID == task && reading > sent[j].claim.at + c.ttl
  }

  ghost predicate WasSent(sent: seq<Sent>, claim: TaskClaim) {
    exists j :: 0 <= j < |sent| && sent[j].claim == claim
  }

  ghost predicate StampOk(c: Config, now: int, s: Sent) {
    && s.moment <= now && s.moment - c.skew <= s.claim.at <= s.moment + c.skew
    && s.claim.confirmAfter >= s.claim.at + c.window
  }

  /** Every entry is a claim that was broadcast, or one that its owner kept. */
  ghost predicate ViewIsMade(sent: seq<Sent>, kept: seq<Sent>, q: string, view: Table) {
    forall task, actor :: Has(view, task, actor) ==> EntryIsMade(sent, kept, q, view, task, actor)
  }

  ghost predicate EntryIsMade(sent: seq<Sent>, kept: seq<Sent>, q: string, view: Table, task: string, actor: string)
    requires Has(view, task, actor)
  {
    && (WasSent(sent, view[task][actor]) || (actor == q && WasSent(kept, view[task][actor])))
    && view[task][actor].taskID == task && view[task][actor].actorID == actor
  }

  /** What was merged is still represented, unless the whole race is past its TTL for this peer. */
  ghost predicate Remembers(c: Config, sent: seq<Sent>, view: Table, reading: int, claim: TaskClaim) {
    || Outlived(c, sent, claim.taskID, reading)
    || (Has(view, claim.taskID, claim.actorID) && view[claim.taskID][claim.actorID].at <= claim.at
        && WasSent(sent, view[claim.taskID][claim.actorID]))
  }

  ghost predicate RemembersMerged(c: Config, sent: seq<Sent>, p: Peer) {
    forall i <- p.merged :: i < |sent| && Remembers(c, sent, p.view, p.reading, sent[i].claim)
  }

  /** Everything due before the inbox was found empty has been merged. */
  ghost predicate InboxOk(c: Config, now: int, sent: seq<Sent>, p: Peer) {
    && p.taken <= p.merged
    && (p.drained.Some? ==>
          p.drained.value <= now
          && forall i :: 0 <= i < |sent| && sent[i].moment + c.delay < p.drained.value ==> i in p.merged)
  }

  ghost predicate OwnMerged(sent: seq<Sent>, q: string, p: Peer) {
    forall i :: 0 <= i < |sent| && sent[i].claim.actorID == q ==> i in p.merged
  }

  ghost predicate PeerOk(c: Config, now: int, sent: seq<Sent>, kept: seq<Sent>, q: string, p: Peer) {
    && p.reading <= now + c.skew
    && ViewIsMade(sent, kept, q, p.view) && RemembersMerged(c, sent, p)
    && InboxOk(c, now, sent, p) && OwnMerged(sent, q, p)
  }

  /** An actor claims a task again only when the race has outlived the TTL. */
  ghost predicate ReclaimsLate(c: Config, sent: seq<Sent>, i: int, j: int) {
    0 <= i < j < |sent| && sent[i].claim.taskID == sent[j].claim.taskID && sent[i].claim.actorID == sent[j].claim.actorID ==>
      Outlived(c, sent, sent[j].claim.taskID, sent[j].claim.at)
  }

  ghost predicate Inv(c: Config, a: State) {
    && (forall s <- a.sent :: StampOk(c, a.now, s))
    && (forall s <- a.kept :: StampOk(c, a.now, s))
    && (a.kept != [] ==> c.lossy)
    && (forall q <- a.peers :: PeerOk(c, a.now, a.sent, a.kept, q, a.peers[q]))
    && (forall i, j :: ReclaimsLate(c, a.sent, i, j))
  }

  // ----- Every step keeps the invariant -----

  lemma OutlivedGrows(c: Config, sent: seq<Sent>, more: seq<Sent>, task: string, reading: int, later: int)
    requires Outlived(c, sent, task, reading) && reading <= later
    ensures Outlived(c, sent + more, task, later) && Outlived(c, sent, task, later)
  {
    var j :| 0 <= j < |sent| && sent[j].claim.taskID == task && reading > sent[j].claim.at + c.ttl;
    assert (sent + more)[j] == sent[j];
  }

  lemma WasSentGrows(sent: seq<Sent>, more: seq<Sent>, claim: TaskClaim)
    requires WasSent(sent, claim)
    ensures WasSent(sent + more, claim)
  {
    var j :| 0 <= j < |sent| && sent[j].claim == claim;
    assert (sent + more)[j] == sent[j];
  }

  lemma ViewIsMadeGrows(sent: seq<Sent>, more: seq<Sent>, kept: seq<Sent>, keptMore: seq<Sent>, q: string, view: Table)
    requires ViewIsMade(sent, kept, q, view)
    ensures ViewIsMade(sent + more, kept + keptMore, q, view)
  {
    forall task, actor | Has(view, task, actor) ensures EntryIsMade(sent + more, kept + keptMore, q, view, task, actor) {
      assert EntryIsMade(sent, kept, q, view, task, actor);
      if WasSent(sent, view[task][actor]) {
        WasSentGrows(sent, more, view[task][actor]);
      } else {
        WasSentGrows(kept, keptMore, view[task][actor]);
      }
    }
  }

  /** Merging a broadcast claim forgets nothing. */
  lemma MergeRemembers(c: Config, sent: seq<Sent>, view: Table, reading: int, claim: TaskClaim, other: TaskClaim)
    requires Remembers(c, sent, view, reading, other) && WasSent(sent, claim)
    ensures Remembers(c, sent, Merge(view, claim), reading, other)
  {
  }

  /** Nor does merging a claim of an actor that has none on the task. */
  lemma NewClaimRemembers(c: Config, sent: seq<Sent>, view: Table, reading: int, claim: TaskClaim, other: TaskClaim)
    requires Remembers(c, sent, view, reading, other) && !Has(view, claim.taskID, claim.actorID)
    ensures Remembers(c, sent, Merge(view, claim), reading, other)
  {
  }

  lemma RemembersLater(c: Config, sent: seq<Sent>, more: seq<Sent>, view: Table, reading: int, later: int, claim: TaskClaim)
    requires Remembers(c, sent, view, reading, claim) && reading <= later
    ensures Remembers(c, sent + more, view, later, claim)
  {
    if Outlived(c, sent, claim.taskID, reading) {
      OutlivedGrows(c, sent, more, claim.taskID, reading, later);
    } else {
      WasSentGrows(sent, more, view[claim.taskID][claim.actorID]);
    }
  }

  /** Purging forgets a claim only when the race has outlived the TTL. */
  lemma PurgeRemembers(c: Config, sent: seq<Sent>, kept: seq<Sent>, q: string, view: Table, reading: int, later: int, claim: TaskClaim)
    requires Remembers(c, sent, view, reading, claim) && ViewIsMade(sent, kept, q, view) && reading <= later
    ensures Remembers(c, sent, Purge(view, later - c.ttl), later, claim)
  {
    if Outlived(c, sent, claim.taskID, reading) {
      OutlivedGrows(c, sent, [], claim.taskID, reading, later);
    } else {
      var entry := view[claim.taskID][claim.actorID];
      if entry.at >= later - c.ttl {
        assert claim.actorID in Recent(view[claim.taskID], later - c.ttl);
      } else {
        assert EntryIsMade(sent, kept, q, view, claim.taskID, claim.actorID);
      }
    }
  }

  lemma PurgeIsMade(sent: seq<Sent>, kept: seq<Sent>, q: string, view: Table, cutoff: int)
    requires ViewIsMade(sent, kept, q, view)
    ensures ViewIsMade(sent, kept, q, Purge(view, cutoff))
  {
    var purged := Purge(view, cutoff);
    forall task, actor | Has(purged, task, actor) ensures EntryIsMade(sent, kept, q, purged, task, actor) {
      assert EntryIsMade(sent, kept, q, view, task, actor);
    }
  }

  lemma MergeIsMade(sent: seq<Sent>, kept: seq<Sent>, q: string, view: Table, claim: TaskClaim)
    requires ViewIsMade(sent, kept, q, view) && (WasSent(sent, claim) || (claim.actorID == q && WasSent(kept, claim)))
    ensures ViewIsMade(sent, kept, q, Merge(view, claim))
  {
    var merged := Merge(view, claim);
    forall task, actor | Has(merged, task, actor) ensures EntryIsMade(sent, kept, q, merged, task, actor) {
      if !(task == claim.taskID && actor == claim.actorID) {
        assert EntryIsMade(sent, kept, q, view, task, actor);
      } else if Has(view, task, actor) {
        assert EntryIsMade(sent, kept, q, view, task, actor);
      }
    }
  }

  lemma AbsorbRemembers(c: Config, sent: seq<Sent>, kept: seq<Sent>, q: string, view: Table, reading: int, later: int, i: nat, other: TaskClaim)
    requires ViewIsMade(sent, kept, q, view) && Remembers(c, sent, view, reading, other) && reading <= later && i < |sent|
    ensures Remembers(c, sent, Absorb(view, sent[i].claim, later, c.ttl), later, other)
  {
    PurgeRemembers(c, sent, kept, q, view, reading, later, other);
    MergeRemembers(c, sent, Purge(view, later - c.ttl), later, sent[i].claim, other);
  }

  lemma AbsorbedIsRemembered(c: Config, sent: seq<Sent>, kept: seq<Sent>, q: string, view: Table, later: int, i: nat)
    requires ViewIsMade(sent, kept, q, view) && i < |sent|
    requires !Has(view, sent[i].claim.taskID, sent[i].claim.actorID) || WasSent(sent, view[sent[i].claim.taskID][sent[i].claim.actorID])
    ensures Remembers(c, sent, Absorb(view, sent[i].claim, later, c.ttl), later, sent[i].claim)
  {
    var claim, purged := sent[i].claim, Purge(view, later - c.ttl);
    if Has(purged, claim.taskID, claim.actorID) {
      assert purged[claim.taskID][claim.actorID] == view[claim.taskID][claim.actorID];
    }
  }

  lemma ReceiveKeepsPeer(c: Config, now: int, sent: seq<Sent>, kept: seq<Sent>, q: string, p: Peer, i: nat, reading: int)
    requires PeerOk(c, now, sent, kept, q, p) && p.reading <= reading <= now + c.skew && i < |sent|
    ensures PeerOk(c, now, sent, kept, q, p.(reading := reading, view := Absorb(p.view, sent[i].claim, reading, c.ttl),
                                             taken := p.taken + {i}, merged := p.merged + {i}))
  {
    var claim := sent[i].claim;
    PurgeIsMade(sent, kept, q, p.view, reading - c.ttl);
    MergeIsMade(sent, kept, q, Purge(p.view, reading - c.ttl), claim);
    forall k | k in p.merged + {i} ensures k < |sent| && Remembers(c, sent, Absorb(p.view, claim, reading, c.ttl), reading, sent[k].claim) {
      if k in p.merged {
        AbsorbRemembers(c, sent, kept, q, p.view, p.reading, reading, i, sent[k].claim);
      } else {
        assert Has(p.view, claim.taskID, claim.actorID) ==> EntryIsMade(sent, kept, q, p.view, claim.taskID, claim.actorID);
        AbsorbedIsRemembered(c, sent, kept, q, p.view, reading, i);
      }
    }
  }

  lemma HearKeepsPeer(c: Config, now: int, sent: seq<Sent>, kept: seq<Sent>, q: string, p: Peer, reading: int)
    requires PeerOk(c, now, sent, kept, q, p) && p.reading <= reading <= now + c.skew
    ensures PeerOk(c, now, sent, kept, q, p.(reading := reading, view := Purge(p.view, reading - c.ttl)))
  {
    PurgeIsMade(sent, kept, q, p.view, reading - c.ttl);
    forall k | k in p.merged ensures Remembers(c, sent, Purge(p.view, reading - c.ttl), reading, sent[k].claim) {
      PurgeRemembers(c, sent, kept, q, p.view, p.reading, reading, sent[k].claim);
    }
  }

  /** A claim of somebody else, broadcast or kept, leaves a peer in order. */
  lemma ClaimKeepsOthers(c: Config, now: int, sent: seq<Sent>, kept: seq<Sent>, claim: TaskClaim, up: bool, q: string, p: Peer)
    requires PeerOk(c, now, sent, kept, q, p) && claim.actorID != q
    ensures var more := [Sent(claim, now)];
            if up then PeerOk(c, now, sent + more, kept, q, p) else PeerOk(c, now, sent, kept + more, q, p)
  {
    var more := [Sent(claim, now)];
    if up {
      ViewIsMadeGrows(sent, more, kept, [], q, p.view);
      assert kept + [] == kept;
      forall i | i in p.merged ensures i < |sent + more| && Remembers(c, sent + more, p.view, p.reading, (sent + more)[i].claim) {
        RemembersLater(c, sent, more, p.view, p.reading, p.reading, sent[i].claim);
      }
    } else {
      ViewIsMadeGrows(sent, [], kept, more, q, p.view);
      assert sent + [] == sent;
    }
  }

  /** What its own claim does to a peer, apart from the question whether the mesh takes it. */
  lemma OwnClaimIsRemembered(c: Config, sent: seq<Sent>, more: seq<Sent>, p: Peer, claim: TaskClaim, i: nat)
    requires RemembersMerged(c, sent, p) && i in p.merged && p.reading <= claim.at && !Has(p.view, claim.taskID, claim.actorID)
    ensures i < |sent| && Remembers(c, sent + more, Merge(p.view, claim), claim.at, sent[i].claim)
  {
    RemembersLater(c, sent, more, p.view, p.reading, claim.at, sent[i].claim);
    NewClaimRemembers(c, sent + more, p.view, claim.at, claim, sent[i].claim);
  }

  lemma SendKeepsClaimant(c: Config, a: State, claim: TaskClaim)
    requires Inv(c, a) && Enabled(c, a, Claim(claim.actorID, claim, true))
    ensures var b := Apply(c, a, Claim(claim.actorID, claim, true));
            PeerOk(c, b.now, b.sent, b.kept, claim.actorID, b.peers[claim.actorID])
  {
    var q := claim.actorID;
    var p, more := a.peers[q], [Sent(claim, a.now)];
    var b := Apply(c, a, Claim(q, claim, true));
    assert PeerOk(c, a.now, a.sent, a.kept, q, p);
    ViewIsMadeGrows(a.sent, more, a.kept, [], q, p.view);
    assert a.kept + [] == a.kept && b.sent[|a.sent|].claim == claim;
    MergeIsMade(b.sent, a.kept, q, p.view, claim);
    forall i | i in b.peers[q].merged ensures i < |b.sent| && Remembers(c, b.sent, b.peers[q].view, claim.at, b.sent[i].claim) {
      if i in p.merged {
        OwnClaimIsRemembered(c, a.sent, more, p, claim, i);
      }
    }
  }

  lemma KeepKeepsClaimant(c: Config, a: State, claim: TaskClaim)
    requires Inv(c, a) && Enabled(c, a, Claim(claim.actorID, claim, false))
    ensures var b := Apply(c, a, Claim(claim.actorID, claim, false));
            PeerOk(c, b.now, b.sent, b.kept, claim.actorID, b.peers[claim.actorID])
  {
    var q := claim.actorID;
    var p, more := a.peers[q], [Sent(claim, a.now)];
    var b := Apply(c, a, Claim(q, claim, false));
    assert PeerOk(c, a.now, a.sent, a.kept, q, p);
    ViewIsMadeGrows(a.sent, [], a.kept, more, q, p.view);
    assert a.sent + [] == a.sent && b.kept[|a.kept|].claim == claim;
    MergeIsMade(a.sent, b.kept, q, p.view, claim);
    forall i | i in p.merged ensures Remembers(c, a.sent, b.peers[q].view, claim.at, a.sent[i].claim) {
      OwnClaimIsRemembered(c, a.sent, [], p, claim, i);
    }
  }

  lemma ClaimIsLate(c: Config, a: State, claim: TaskClaim, i: nat)
    requires Inv(c, a) && Enabled(c, a, Claim(claim.actorID, claim, true)) && i < |a.sent|
    ensures ReclaimsLate(c, a.sent + [Sent(claim, a.now)], i, |a.sent|)
  {
    var q, other := claim.actorID, a.sent[i].claim;
    if other.taskID == claim.taskID && other.actorID == q {
      assert PeerOk(c, a.now, a.sent, a.kept, q, a.peers[q]);
      assert i in a.peers[q].merged;
      OutlivedGrows(c, a.sent, [Sent(claim, a.now)], claim.taskID, a.peers[q].reading, claim.at);
    }
  }

  lemma ConfirmKeepsPeer(c: Config, now: int, sent: seq<Sent>, kept: seq<Sent>, q: string, p: Peer, reading: int)
    requires PeerOk(c, now, sent, kept, q, p) && p.reading <= reading <= now + c.skew
    ensures PeerOk(c, now, sent, kept, q, p.(reading := reading, drained := None))
  {
    assert sent + [] == sent;
    forall i | i in p.merged ensures Remembers(c, sent, p.view, reading, sent[i].claim) {
      RemembersLater(c, sent, [], p.view, p.reading, reading, sent[i].claim);
    }
  }

  lemma DrainEndKeepsPeer(c: Config, now: int, sent: seq<Sent>, kept: seq<Sent>, q: string, p: Peer)
    requires PeerOk(c, now, sent, kept, q, p) && NothingWaits(c, now, sent, p)
    ensures PeerOk(c, now, sent, kept, q, p.(drained := Some(now)))
  {
  }

  lemma StepKeepsPeer(c: Config, a: State, e: Event, q: string)
    requires Inv(c, a) && Enabled(c, a, e) && q in a.peers
    ensures var b := Apply(c, a, e); q in b.peers && PeerOk(c, b.now, b.sent, b.kept, q, b.peers[q])
  {
    var p := a.peers[q];
    assert PeerOk(c, a.now, a.sent, a.kept, q, p);
    if e.Tick? {
    } else if e.q != q {
      if e.Claim? {
        ClaimKeepsOthers(c, a.now, a.sent, a.kept, e.claim, e.up, q, p);
      }
    } else {
      match e
      case Claim(_, claim, up) =>
        if up {
          SendKeepsClaimant(c, a, claim);
        } else {
          KeepKeepsClaimant(c, a, claim);
        }
      case Receive(_, i, reading) => ReceiveKeepsPeer(c, a.now, a.sent, a.kept, q, p, i, reading);
      case Hear(_, reading) => HearKeepsPeer(c, a.now, a.sent, a.kept, q, p, reading);
      case DrainEnd(_) => DrainEndKeepsPeer(c, a.now, a.sent, a.kept, q, p);
      case Confirm(_, task, reading) => ConfirmKeepsPeer(c, a.now, a.sent, a.kept, q, p, reading);
    }
  }

  lemma StepKeepsStamps(c: Config, a: State, e: Event)
    requires Inv(c, a) && Enabled(c, a, e)
    ensures forall s <- Apply(c, a, e).sent :: StampOk(c, Apply(c, a, e).now, s)
    ensures forall s <- Apply(c, a, e).kept :: StampOk(c, Apply(c, a, e).now, s)
  {
    var b := Apply(c, a, e);
    forall s | s in b.sent ensures StampOk(c, b.now, s) {
      assert s in a.sent ==> StampOk(c, a.now, s);
    }
    forall s | s in b.kept ensures StampOk(c, b.now, s) {
      assert s in a.kept ==> StampOk(c, a.now, s);
    }
  }

  lemma StepKeepsReclaims(c: Config, a: State, e: Event, i: int, j: int)
    requires Inv(c, a) && Enabled(c, a, e)
    ensures ReclaimsLate(c, Apply(c, a, e).sent, i, j)
  {
    var b := Apply(c, a, e);
    assert ReclaimsLate(c, a.sent, i, j);
    if e.Claim? && e.up && 0 <= i < j < |b.sent| {
      if j < |a.sent| {
        if Outlived(c, a.sent, a.sent[j].claim.taskID, a.sent[j].claim.at) {
          OutlivedGrows(c, a.sent, [Sent(e.claim, a.now)], a.sent[j].claim.taskID, a.sent[j].claim.at, a.sent[j].claim.at);
        }
      } else {
        ClaimIsLate(c, a, e.claim, i);
      }
    }
  }

  lemma StepKeepsInv(c: Config, a: State, e: Event)
    requires Inv(c, a) && Enabled(c, a, e)
    ensures Inv(c, Apply(c, a, e))
  {
    var b := Apply(c, a, e);
    StepKeepsStamps(c, a, e);
    forall q | q in b.peers ensures PeerOk(c, b.now, b.sent, b.kept, q, b.peers[q]) {
      StepKeepsPeer(c, a, e, q);
    }
    forall i, j ensures ReclaimsLate(c, b.sent, i, j) {
      StepKeepsReclaims(c, a, e, i, j);
    }
  }

  lemma {:induction false} TraceKeepsInv(c: Config, states: seq<State>, events: seq<Event>, i: nat)
    requires Trace(c, states, events) && i < |states|
    ensures Inv(c, states[i])
  {
    if i > 0 {
      TraceKeepsInv(c, states, events, i - 1);
      StepKeepsInv(c, states[i - 1], events[i - 1]);
    }
  }

  // ----- At most one peer starts the work -----

  /** The window outlasts the slowest delivery, both clocks' errors and the confirming peer's own delay. */
  predicate WindowSuffices(c: Config) {
    c.window > c.delay + 2 * c.skew + c.gap
  }

  /** `first` is another actor's claim that wins over `second`. */
  predicate Beats(first: TaskClaim, second: TaskClaim) {
    first.taskID == second.taskID && first.actorID != second.actorID && ClaimOrder(first, second)
  }

  ghost predicate Unbeaten(c: Config, sent: seq<Sent>, claim: TaskClaim, reading: int) {
    forall j :: 0 <= j < |sent| && Beats(sent[j].claim, claim) ==> Outlived(c, sent, claim.taskID, reading)
  }

  ghost predicate StartOk(c: Config, a: State, x: Start) {
    && x.actor == x.claim.actorID && (WasSent(a.sent, x.claim) || WasSent(a.kept, x.claim))
    && x.reading >= x.claim.at + c.window && x.reading - c.skew <= x.moment <= a.now
    && Unbeaten(c, a.sent, x.claim, x.reading)
  }

  /** A better claim was due before the drain ended, so the confirming peer has seen it. */
  lemma BetterClaimWasSeen(c: Config, a: State, q: string, mine: TaskClaim, reading: int, j: nat)
    requires Inv(c, a) && WindowSuffices(c) && ReadsClock(c, a, q, reading)
    requires a.peers[q].drained.Some? && a.now - a.peers[q].drained.value <= c.gap
    requires Ready(mine, reading) && mine.confirmAfter >= mine.at + c.window
    requires j < |a.sent| && Beats(a.sent[j].claim, mine)
    ensures j in a.peers[q].merged
  {
    assert StampOk(c, a.now, a.sent[j]);
    assert PeerOk(c, a.now, a.sent, a.kept, q, a.peers[q]);
  }

  lemma StartedIsUnbeaten(c: Config, a: State, q: string, task: string, reading: int)
    requires Inv(c, a) && WindowSuffices(c) && Enabled(c, a, Confirm(q, task, reading))
    requires Judge(a.peers[q].view, task, q, reading) == Started
    ensures var mine := a.peers[q].view[task][q]; StartedOk(c, a, q, task, mine) && Unbeaten(c, a.sent, mine, reading)
  {
    var p := a.peers[q];
    var mine := p.view[task][q];
    StartedIsMade(c, a, q, task);
    assert PeerOk(c, a.now, a.sent, a.kept, q, p);
    forall j | 0 <= j < |a.sent| && Beats(a.sent[j].claim, mine) ensures Outlived(c, a.sent, task, reading) {
      BetterClaimWasSeen(c, a, q, mine, reading, j);
      if Outlived(c, a.sent, task, p.reading) {
        OutlivedGrows(c, a.sent, [], task, p.reading, reading);
      } else {
        forall actor | actor in p.view[task] ensures p.view[task][actor].actorID == actor {
          assert Has(p.view, task, actor) && EntryIsMade(a.sent, a.kept, q, p.view, task, actor);
        }
        WinnerIsNotBeaten(p.view, task, q, a.sent[j].claim);
      }
    }
  }

  /** The claim that a peer starts on is its own and waited for its window, broadcast or not. */
  ghost predicate StartedOk(c: Config, a: State, q: string, task: string, mine: TaskClaim) {
    && mine.actorID == q && mine.taskID == task && (WasSent(a.sent, mine) || WasSent(a.kept, mine))
    && mine.confirmAfter >= mine.at + c.window
  }

  lemma StartedIsMade(c: Config, a: State, q: string, task: string)
    requires Inv(c, a) && q in a.peers && Has(a.peers[q].view, task, q)
    ensures StartedOk(c, a, q, task, a.peers[q].view[task][q])
  {
    var view := a.peers[q].view;
    assert PeerOk(c, a.now, a.sent, a.kept, q, a.peers[q]) && EntryIsMade(a.sent, a.kept, q, view, task, q);
    if k :| 0 <= k < |a.sent| && a.sent[k].claim == view[task][q] {
      assert StampOk(c, a.now, a.sent[k]);
    } else {
      var k :| 0 <= k < |a.kept| && a.kept[k].claim == view[task][q];
      assert StampOk(c, a.now, a.kept[k]);
    }
  }

  /** The holder of the winning claim has no better claim in its own view. */
  lemma WinnerIsNotBeaten(view: Table, task: string, q: string, better: TaskClaim)
    requires Has(view, task, q) && view[task][q].actorID == q && view[task][q].taskID == task
    requires forall actor <- view[task] :: view[task][actor].actorID == actor
    requires exists w :: Wins(view, task, w) && w.actorID == q
    requires Has(view, task, better.actorID) && view[task][better.actorID].at <= better.at
    ensures !Beats(better, view[task][q])
  {
    var w :| Wins(view, task, w) && w.actorID == q;
    var key :| key in view[task] && view[task][key] == w;
    assert w == view[task][q];
    var kept := view[task][better.actorID];
    assert kept in Claims(view, task);
    AtMostIsOrder(q, better.actorID, q);
  }

  /** A claim made after a start is stamped too late to have beaten it. */
  lemma LaterClaimDoesNotBeat(c: Config, a: State, x: Start, claim: TaskClaim)
    requires WindowSuffices(c) && StartOk(c, a, x) && a.now - c.skew <= claim.at
    ensures StartOk(c, a.(sent := a.sent + [Sent(claim, a.now)]), x)
    ensures StartOk(c, a.(kept := a.kept + [Sent(claim, a.now)]), x)
  {
    var more := [Sent(claim, a.now)];
    if WasSent(a.sent, x.claim) {
      WasSentGrows(a.sent, more, x.claim);
    } else {
      WasSentGrows(a.kept, more, x.claim);
    }
    forall j | 0 <= j < |a.sent + more| && Beats((a.sent + more)[j].claim, x.claim)
      ensures Outlived(c, a.sent + more, x.claim.taskID, x.reading)
    {
      if j < |a.sent| {
        OutlivedGrows(c, a.sent, more, x.claim.taskID, x.reading, x.reading);
      }
    }
  }

  lemma StepKeepsStart(c: Config, a: State, e: Event, x: Start)
    requires WindowSuffices(c) && Enabled(c, a, e) && StartOk(c, a, x)
    ensures StartOk(c, Apply(c, a, e), x)
  {
    if e.Claim? {
      LaterClaimDoesNotBeat(c, a, x, e.claim);
    }
  }

  lemma StepKeepsStarts(c: Config, a: State, e: Event)
    requires Inv(c, a) && WindowSuffices(c) && Enabled(c, a, e) && forall x <- a.starts :: StartOk(c, a, x)
    ensures forall x <- Apply(c, a, e).starts :: StartOk(c, Apply(c, a, e), x)
  {
    var b := Apply(c, a, e);
    forall x | x in b.starts ensures StartOk(c, b, x) {
      if x in a.starts {
        StepKeepsStart(c, a, e, x);
      } else {
        StartedIsUnbeaten(c, a, e.q, e.task, e.reading);
      }
    }
  }

  lemma {:induction false} TraceKeepsStarts(c: Config, states: seq<State>, events: seq<Event>, i: nat)
    requires WindowSuffices(c) && Trace(c, states, events) && i < |states|
    ensures forall x <- states[i].starts :: StartOk(c, states[i], x)
  {
    if i > 0 {
      TraceKeepsStarts(c, states, events, i - 1);
      TraceKeepsInv(c, states, events, i - 1);
      StepKeepsStarts(c, states[i - 1], events[i - 1]);
    }
  }

  /** Two peers started one task. */
  predicate Together(x: Start, y: Start) {
    x.actor != y.actor && x.claim.taskID == y.claim.taskID
  }

  /** Two peers started one task, both within the TTL of every claim on it. */
  ghost predicate DoubleStart(c: Config, a: State) {
    exists x, y :: x in a.starts && y in a.starts && Together(x, y)
                   && !Outlived(c, a.sent + a.kept, x.claim.taskID, x.reading)
                   && !Outlived(c, a.sent + a.kept, y.claim.taskID, y.reading)
  }

  /**
    In every run, of any number of peers, when two of them start one task within the TTL of its
    earliest broadcast claim, then the better of their two claims was never broadcast.
   */
  lemma BetterStartWasNeverSent(c: Config, states: seq<State>, events: seq<Event>, i: nat, x: Start, y: Start)
    requires WindowSuffices(c) && Trace(c, states, events) && i < |states|
    requires x in states[i].starts && y in states[i].starts && Together(x, y) && Beats(x.claim, y.claim)
    requires !Outlived(c, states[i].sent, y.claim.taskID, y.reading)
    ensures !WasSent(states[i].sent, x.claim) && WasSent(states[i].kept, x.claim)
  {
    TraceKeepsStarts(c, states, events, i);
    assert StartOk(c, states[i], x) && StartOk(c, states[i], y);
  }

  lemma OneBeatsTheOther(c: Config, states: seq<State>, events: seq<Event>, i: nat, x: Start, y: Start)
    requires WindowSuffices(c) && Trace(c, states, events) && i < |states|
    requires x in states[i].starts && y in states[i].starts && Together(x, y)
    ensures Beats(x.claim, y.claim) || Beats(y.claim, x.claim)
  {
    TraceKeepsStarts(c, states, events, i);
    assert StartOk(c, states[i], x) && StartOk(c, states[i], y);
    AtMostIsOrder(x.actor, y.actor, x.actor);
  }

  /**
    In every run, of any number of peers, at most one peer starts a task within the TTL of its
    earliest claim, unless the better claim of two that do was never broadcast.
   */
  lemma AtMostOneStarts(c: Config, states: seq<State>, events: seq<Event>, i: nat)
    requires WindowSuffices(c) && Trace(c, states, events) && i < |states|
    ensures DoubleStart(c, states[i]) ==> exists s <- states[i].kept, x <- states[i].starts :: s.claim == x.claim
    ensures !c.lossy ==> !DoubleStart(c, states[i])
  {
    var a := states[i];
    TraceKeepsInv(c, states, events, i);
    if x, y :| x in a.starts && y in a.starts && Together(x, y)
               && !Outlived(c, a.sent + a.kept, x.claim.taskID, x.reading)
               && !Outlived(c, a.sent + a.kept, y.claim.taskID, y.reading)
    {
      OneBeatsTheOther(c, states, events, i, x, y);
      SentIsMade(c, a, y.claim.taskID, y.reading);
      SentIsMade(c, a, x.claim.taskID, x.reading);
      var z := if Beats(x.claim, y.claim) then x else y;
      BetterStartWasNeverSent(c, states, events, i, z, if Beats(x.claim, y.claim) then y else x);
      var k :| 0 <= k < |a.kept| && a.kept[k].claim == z.claim;
      assert a.kept[k] in a.kept && z in a.starts;
    }
  }

  lemma SentIsMade(c: Config, a: State, task: string, reading: int)
    requires !Outlived(c, a.sent + a.kept, task, reading)
    ensures !Outlived(c, a.sent, task, reading)
  {
    if Outlived(c, a.sent, task, reading) {
      OutlivedGrows(c, a.sent, a.kept, task, reading, reading);
    }
  }

  // ----- The least claimant gets through -----

  /** `sent[i]` wins over every claim published for its task. */
  ghost predicate LeastSent(sent: seq<Sent>, i: nat)
    requires i < |sent|
  {
    forall j :: 0 <= j < |sent| && sent[j].claim.taskID == sent[i].claim.taskID ==> ClaimOrder(sent[i].claim, sent[j].claim)
  }

  /** The actor of the least claim has no other claim on the task with that stamp. */
  lemma LeastStampIsUnique(c: Config, sent: seq<Sent>, i: nat)
    requires i < |sent| && LeastSent(sent, i) && forall m, n :: ReclaimsLate(c, sent, m, n)
    ensures forall k | 0 <= k < |sent| && sent[k].claim.taskID == sent[i].claim.taskID
                       && sent[k].claim.actorID == sent[i].claim.actorID && sent[k].claim.at == sent[i].claim.at :: k == i
  {
    forall k | 0 <= k < |sent| && sent[k].claim.taskID == sent[i].claim.taskID
               && sent[k].claim.actorID == sent[i].claim.actorID && sent[k].claim.at == sent[i].claim.at
      ensures k == i
    {
      assert ReclaimsLate(c, sent, k, i) && ReclaimsLate(c, sent, i, k);
    }
  }

  /** Its own claim is what the least claimant finds in its view. */
  lemma LeastClaimIsInView(c: Config, a: State, i: nat, reading: int)
    requires Inv(c, a) && i < |a.sent| && LeastSent(a.sent, i)
    requires var claim := a.sent[i].claim; ReadsClock(c, a, claim.actorID, reading) && reading <= claim.at + c.ttl
    ensures var claim := a.sent[i].claim;
            && Has(a.peers[claim.actorID].view, claim.taskID, claim.actorID)
            && a.peers[claim.actorID].view[claim.taskID][claim.actorID] == claim
  {
    var claim := a.sent[i].claim;
    var p := a.peers[claim.actorID];
    assert PeerOk(c, a.now, a.sent, a.kept, claim.actorID, p);
    assert Remembers(c, a.sent, p.view, p.reading, claim);
    assert EntryIsMade(a.sent, a.kept, claim.actorID, p.view, claim.taskID, claim.actorID);
    LeastStampIsUnique(c, a.sent, i);
  }

  /**
    The actor of the least claim is never turned away by another's claim: once its window has
    elapsed, and within the TTL, its confirmation succeeds whatever it has received.
   */
  lemma LeastClaimantStarts(c: Config, states: seq<State>, events: seq<Event>, n: nat, i: nat, reading: int)
    requires Trace(c, states, events) && n < |states| && i < |states[n].sent| && LeastSent(states[n].sent, i)
    requires var claim := states[n].sent[i].claim;
             ReadsClock(c, states[n], claim.actorID, reading) && reading <= claim.at + c.ttl
    ensures var claim := states[n].sent[i].claim;
            Judge(states[n].peers[claim.actorID].view, claim.taskID, claim.actorID, reading)
            == if Ready(claim, reading) then Started else NotConfirmable
  {
    var a, claim := states[n], states[n].sent[i].claim;
    TraceKeepsInv(c, states, events, n);
    LeastClaimIsInView(c, a, i, reading);
    var view := a.peers[claim.actorID].view;
    assert PeerOk(c, a.now, a.sent, a.kept, claim.actorID, a.peers[claim.actorID]);
    forall other | other in Claims(view, claim.taskID) ensures ClaimOrder(claim, other) {
      var actor :| actor in view[claim.taskID] && view[claim.taskID][actor] == other;
      assert EntryIsMade(a.sent, a.kept, claim.actorID, view, claim.taskID, actor);
    }
    assert Wins(view, claim.taskID, claim);
  }

  // ----- The window bound is exact -----

  ghost predicate Reachable(c: Config, a: State) {
    exists states, events :: Trace(c, states, events) && states[|states| - 1] == a
  }

  lemma InitIsReachable(c: Config, now: int)
    ensures Reachable(c, Init(c, now))
  {
    var states: seq<State>, events: seq<Event> := [Init(c, now)], [];
    assert Trace(c, states, events);
  }

  lemma Reach(c: Config, a: State, e: Event, b: State)
    requires Reachable(c, a) && Enabled(c, a, e) && Apply(c, a, e) == b
    ensures Reachable(c, b)
  {
    var states, events :| Trace(c, states, events) && states[|states| - 1] == a;
    var states', events' := states + [b], events + [e];
    assert states'[0] == states[0];
    forall i | 0 <= i < |events'| ensures Enabled(c, states'[i], events'[i]) && states'[i + 1] == Apply(c, states'[i], events'[i]) {
      if i < |events| {
        assert states'[i] == states[i] && states'[i + 1] == states[i + 1] && events'[i] == events[i];
      }
    }
    assert Trace(c, states', events');
  }

  /** Two peers; ties on the stamp go to `p`. */
  predicate TwoPeers(c: Config, p: string, q: string) {
    c.actors == {p, q} && AtMost(p, q) && p != q && !Blank(p) && !Blank(q) && c.window > 0
  }

  /** Both peers claim at this reading: `q` at time 1 on a clock that is fast by the skew, `p` when its clock shows it. */
  function TiedClaim(c: Config, actor: string): TaskClaim {
    TaskClaim("task", actor, "", "", c.skew + 1, Due(c))
  }

  /** The reading at which both claims can be confirmed. */
  function Due(c: Config): int {
    c.skew + 1 + c.window
  }

  lemma TiedClaimIsValid(c: Config, actor: string)
    requires !Blank(actor) && c.window > 0
    ensures TaskClaimIsValid(TiedClaim(c, actor))
  {
    assert "task"[0] == 't' && 't' in "task" && !IsSpace('t');
  }

  function Claimed(c: Config, actor: string): Table {
    map["task" := map[actor := TiedClaim(c, actor)]]
  }

  function Duel(p: string, q: string, now: int, sent: seq<Sent>, kept: seq<Sent>, first: Peer, second: Peer, starts: seq<Start>): State {
    State(now, sent, kept, map[p := first, q := second], starts)
  }

  /** Changing one of the two peers. */
  lemma DuelUpdates(p: string, q: string, first: Peer, second: Peer, other: Peer)
    requires p != q
    ensures map[p := first, q := second][p := other] == map[p := other, q := second]
    ensures map[p := first, q := second][q := other] == map[p := first, q := other]
  {
  }

  /** Both tied claims side by side. */
  function Both(c: Config, p: string, q: string): Table {
    map["task" := map[p := TiedClaim(c, p), q := TiedClaim(c, q)]]
  }

  lemma AbsorbTied(c: Config, p: string, q: string)
    requires p != q
    ensures Absorb(Claimed(c, p), TiedClaim(c, q), c.skew + 1, c.ttl) == Both(c, p, q)
    ensures Absorb(Both(c, p, q), TiedClaim(c, p), c.skew + 1, c.ttl) == Both(c, p, q)
  {
    var cutoff := c.skew + 1 - c.ttl;
    assert p in Recent(Claimed(c, p)["task"], cutoff) && p in Recent(Both(c, p, q)["task"], cutoff);
    assert Recent(Claimed(c, p)["task"], cutoff) == Claimed(c, p)["task"];
    assert Recent(Both(c, p, q)["task"], cutoff) == Both(c, p, q)["task"];
    assert Purge(Claimed(c, p), cutoff) == Claimed(c, p) && Purge(Both(c, p, q), cutoff) == Both(c, p, q);
    assert Claimed(c, p)["task"][q := TiedClaim(c, q)] == Both(c, p, q)["task"];
  }

  lemma SmallSets()
    ensures (var none: set<nat> := {}; none + {0} == {0} && none + {1} == {1})
    ensures (var zero: set<nat> := {0}; zero + {0} == {0} && zero + {1} == {0, 1})
    ensures (var one: set<nat> := {1}; one + {0} == {0, 1})
  {
  }

  lemma AbsorbAgain(c: Config, q: string)
    ensures Absorb(Claimed(c, q), TiedClaim(c, q), c.skew + 1, c.ttl) == Claimed(c, q)
  {
    var view := Claimed(c, q);
    assert q in Recent(view["task"], c.skew + 1 - c.ttl);
    assert Recent(view["task"], c.skew + 1 - c.ttl) == view["task"];
    assert Purge(view, c.skew + 1 - c.ttl) == view;
  }

  function Fresh(c: Config): Peer {
    Peer(1 - c.skew, map[], {}, {}, None)
  }

  /** `q` knows of its own claim only. */
  function Alone(c: Config, q: string): Peer {
    Peer(c.skew + 1, Claimed(c, q), {0}, {0}, None)
  }

  /** `q` claims at time 1. */
  lemma QClaims(c: Config, p: string, q: string)
    requires TwoPeers(c, p, q)
    ensures Reachable(c, Duel(p, q, 1, [Sent(TiedClaim(c, q), 1)], [], Fresh(c), Alone(c, q).(taken := {}), []))
  {
    var start, me := Duel(p, q, 1, [], [], Fresh(c), Fresh(c), []), Alone(c, q).(taken := {});
    InitIsReachable(c, 1);
    TiedClaimIsValid(c, q);
    SmallSets();
    assert start == Init(c, 1);
    DuelUpdates(p, q, Fresh(c), Fresh(c), me);
    Reach(c, start, Claim(q, TiedClaim(c, q), true), Duel(p, q, 1, [Sent(TiedClaim(c, q), 1)], [], Fresh(c), me, []));
  }

  /** It takes its own echo. */
  lemma QHearsItself(c: Config, p: string, q: string)
    requires TwoPeers(c, p, q)
    ensures Reachable(c, Duel(p, q, 1, [Sent(TiedClaim(c, q), 1)], [], Fresh(c), Alone(c, q), []))
  {
    var sent, me := [Sent(TiedClaim(c, q), 1)], Alone(c, q).(taken := {});
    QClaims(c, p, q);
    SmallSets();
    AbsorbAgain(c, q);
    DuelUpdates(p, q, Fresh(c), me, Alone(c, q));
    Reach(c, Duel(p, q, 1, sent, [], Fresh(c), me, []), Receive(q, 0, c.skew + 1), Duel(p, q, 1, sent, [], Fresh(c), Alone(c, q), []));
  }

  lemma TiedVerdicts(c: Config, p: string, q: string)
    requires TwoPeers(c, p, q)
    ensures Judge(Claimed(c, q), "task", q, Due(c)) == Started
    ensures Judge(Both(c, p, q), "task", p, Due(c)) == Started
  {
    assert Claimed(c, q)["task"][q] in Claims(Claimed(c, q), "task");
    assert Wins(Claimed(c, q), "task", TiedClaim(c, q));
    assert Both(c, p, q)["task"][p] in Claims(Both(c, p, q), "task");
    assert Wins(Both(c, p, q), "task", TiedClaim(c, p));
  }

  /** Where both runs below end: the one peer knows of both claims, the other of its own, and both confirm. */
  lemma BothConfirm(c: Config, p: string, q: string, now: int, sent: seq<Sent>, kept: seq<Sent>, first: Peer, second: Peer)
    requires TwoPeers(c, p, q) && Reachable(c, Duel(p, q, now, sent, kept, first, second, []))
    requires first.view == Both(c, p, q) && second.view == Claimed(c, q)
    requires first.reading == second.reading == c.skew + 1 && now - c.skew <= Due(c) <= now + c.skew
    requires first.drained.Some? && now - first.drained.value <= c.gap && second.drained.Some? && now - second.drained.value <= c.gap
    ensures exists b :: Reachable(c, b) && b.sent == sent && b.kept == kept
                        && b.starts == [Start(q, TiedClaim(c, q), Due(c), now), Start(p, TiedClaim(c, p), Due(c), now)]
  {
    var begun, done := second.(reading := Due(c), drained := None), first.(reading := Due(c), drained := None);
    var one := [Start(q, TiedClaim(c, q), Due(c), now)];
    TiedVerdicts(c, p, q);
    DuelUpdates(p, q, first, second, begun);
    Reach(c, Duel(p, q, now, sent, kept, first, second, []), Confirm(q, "task", Due(c)), Duel(p, q, now, sent, kept, first, begun, one));
    PConfirms(c, p, q, now, sent, kept, first, begun);
  }

  lemma PConfirms(c: Config, p: string, q: string, now: int, sent: seq<Sent>, kept: seq<Sent>, first: Peer, begun: Peer)
    requires TwoPeers(c, p, q) && Reachable(c, Duel(p, q, now, sent, kept, first, begun, [Start(q, TiedClaim(c, q), Due(c), now)]))
    requires first.view == Both(c, p, q) && first.reading == c.skew + 1 && now - c.skew <= Due(c) <= now + c.skew
    requires first.drained.Some? && now - first.drained.value <= c.gap
    ensures exists b :: Reachable(c, b) && b.sent == sent && b.kept == kept
                        && b.starts == [Start(q, TiedClaim(c, q), Due(c), now), Start(p, TiedClaim(c, p), Due(c), now)]
  {
    var done := first.(reading := Due(c), drained := None);
    var one, two := [Start(q, TiedClaim(c, q), Due(c), now)], [Start(q, TiedClaim(c, q), Due(c), now), Start(p, TiedClaim(c, p), Due(c), now)];
    TiedVerdicts(c, p, q);
    DuelUpdates(p, q, first, begun, done);
    Reach(c, Duel(p, q, now, sent, kept, first, begun, one), Confirm(p, "task", Due(c)), Duel(p, q, now, sent, kept, done, begun, two));
  }

  /** Both peers find their inboxes empty. */
  lemma BothDrain(c: Config, p: string, q: string, now: int, sent: seq<Sent>, kept: seq<Sent>, first: Peer, second: Peer)
    requires p != q && Reachable(c, Duel(p, q, now, sent, kept, first, second, []))
    requires NothingWaits(c, now, sent, first) && NothingWaits(c, now, sent, second)
    ensures Reachable(c, Duel(p, q, now, sent, kept, first.(drained := Some(now)), second.(drained := Some(now)), []))
  {
    var one, two := first.(drained := Some(now)), second.(drained := Some(now));
    DuelUpdates(p, q, first, second, two);
    Reach(c, Duel(p, q, now, sent, kept, first, second, []), DrainEnd(q), Duel(p, q, now, sent, kept, first, two, []));
    DuelUpdates(p, q, first, two, one);
    Reach(c, Duel(p, q, now, sent, kept, first, two, []), DrainEnd(p), Duel(p, q, now, sent, kept, one, two, []));
  }

  // ----- Too short a window -----

  /** `p` knows of both claims. */
  function Informed(c: Config, p: string, q: string): Peer {
    Peer(c.skew + 1, Both(c, p, q), {0, 1}, {0, 1}, None)
  }

  function BothSent(c: Config, p: string, q: string): seq<Sent> {
    [Sent(TiedClaim(c, q), 1), Sent(TiedClaim(c, p), 1 + 2 * c.skew)]
  }

  /** When twice the skew has passed, `p` claims with the very same stamp. */
  lemma PClaims(c: Config, p: string, q: string)
    requires TwoPeers(c, p, q)
    ensures Reachable(c, Duel(p, q, 1 + 2 * c.skew, BothSent(c, p, q), [], Peer(c.skew + 1, Claimed(c, p), {}, {1}, None), Alone(c, q), []))
  {
    var one, now := [Sent(TiedClaim(c, q), 1)], 1 + 2 * c.skew;
    var raced := Peer(c.skew + 1, Claimed(c, p), {}, {1}, None);
    QHearsItself(c, p, q);
    TiedClaimIsValid(c, p);
    SmallSets();
    Reach(c, Duel(p, q, 1, one, [], Fresh(c), Alone(c, q), []), Tick(now - 1), Duel(p, q, now, one, [], Fresh(c), Alone(c, q), []));
    DuelUpdates(p, q, Fresh(c), Alone(c, q), raced);
    assert one + [Sent(TiedClaim(c, p), now)] == BothSent(c, p, q);
    Reach(c, Duel(p, q, now, one, [], Fresh(c), Alone(c, q), []), Claim(p, TiedClaim(c, p), true),
          Duel(p, q, now, BothSent(c, p, q), [], raced, Alone(c, q), []));
  }

  /** `p` hears of the other claim, then takes its own echo. */
  lemma PHearsOther(c: Config, p: string, q: string)
    requires TwoPeers(c, p, q)
    ensures Reachable(c, Duel(p, q, 1 + 2 * c.skew, BothSent(c, p, q), [], Informed(c, p, q).(taken := {0}), Alone(c, q), []))
  {
    var sent, now := BothSent(c, p, q), 1 + 2 * c.skew;
    var deaf, heard := Peer(c.skew + 1, Claimed(c, p), {}, {1}, None), Informed(c, p, q).(taken := {0});
    PClaims(c, p, q);
    SmallSets();
    AbsorbTied(c, p, q);
    DuelUpdates(p, q, deaf, Alone(c, q), heard);
    Reach(c, Duel(p, q, now, sent, [], deaf, Alone(c, q), []), Receive(p, 0, c.skew + 1), Duel(p, q, now, sent, [], heard, Alone(c, q), []));
  }

  lemma PHears(c: Config, p: string, q: string)
    requires TwoPeers(c, p, q)
    ensures Reachable(c, Duel(p, q, 1 + 2 * c.skew, BothSent(c, p, q), [], Informed(c, p, q), Alone(c, q), []))
  {
    var sent, now := BothSent(c, p, q), 1 + 2 * c.skew;
    var heard := Informed(c, p, q).(taken := {0});
    PHearsOther(c, p, q);
    SmallSets();
    AbsorbTied(c, p, q);
    DuelUpdates(p, q, heard, Alone(c, q), Informed(c, p, q));
    Reach(c, Duel(p, q, now, sent, [], heard, Alone(c, q), []), Receive(p, 1, c.skew + 1),
          Duel(p, q, now, sent, [], Informed(c, p, q), Alone(c, q), []));
  }

  /** The first time at which both clocks can show the due reading and `p` has claimed. */
  function Meeting(c: Config): int {
    if c.window >= 2 * c.skew then 1 + c.window else 1 + 2 * c.skew
  }

  /** The last time before the meeting at which `p`'s claim can still be on its way. */
  function LastSilence(c: Config): int {
    if Meeting(c) <= 1 + 2 * c.skew + c.delay then Meeting(c) else 1 + 2 * c.skew + c.delay
  }

  /** Both drain while `p`'s claim can still be on its way to `q`, and meet no later than the gap allows. */
  lemma MeetUninformed(c: Config, p: string, q: string)
    requires TwoPeers(c, p, q) && !WindowSuffices(c)
    ensures Reachable(c, Duel(p, q, Meeting(c), BothSent(c, p, q), [], Informed(c, p, q).(drained := Some(LastSilence(c))),
                              Alone(c, q).(drained := Some(LastSilence(c))), []))
  {
    var sent, claimed, silent := BothSent(c, p, q), 1 + 2 * c.skew, LastSilence(c);
    var first, second := Informed(c, p, q), Alone(c, q);
    PHears(c, p, q);
    Reach(c, Duel(p, q, claimed, sent, [], first, second, []), Tick(silent - claimed), Duel(p, q, silent, sent, [], first, second, []));
    BothDrain(c, p, q, silent, sent, [], first, second);
    var one, two := first.(drained := Some(silent)), second.(drained := Some(silent));
    Reach(c, Duel(p, q, silent, sent, [], one, two, []), Tick(Meeting(c) - silent), Duel(p, q, Meeting(c), sent, [], one, two, []));
  }

  // ----- A claim that the mesh does not take -----

  /** `p` claims too, but its claim stays with it. */
  lemma PKeeps(c: Config, p: string, q: string)
    requires TwoPeers(c, p, q) && c.lossy
    ensures Reachable(c, Duel(p, q, 1, [Sent(TiedClaim(c, q), 1)], [Sent(TiedClaim(c, p), 1)],
                              Peer(c.skew + 1, Claimed(c, p), {}, {}, None), Alone(c, q), []))
  {
    var sent, kept := [Sent(TiedClaim(c, q), 1)], [Sent(TiedClaim(c, p), 1)];
    var raced := Peer(c.skew + 1, Claimed(c, p), {}, {}, None);
    QHearsItself(c, p, q);
    TiedClaimIsValid(c, p);
    DuelUpdates(p, q, Fresh(c), Alone(c, q), raced);
    Reach(c, Duel(p, q, 1, sent, [], Fresh(c), Alone(c, q), []), Claim(p, TiedClaim(c, p), false),
          Duel(p, q, 1, sent, kept, raced, Alone(c, q), []));
  }

  /** It hears of the other claim; the other does not hear of its own. */
  lemma PHearsAndKeeps(c: Config, p: string, q: string)
    requires TwoPeers(c, p, q) && c.lossy
    ensures Reachable(c, Duel(p, q, 1, [Sent(TiedClaim(c, q), 1)], [Sent(TiedClaim(c, p), 1)],
                              Peer(c.skew + 1, Both(c, p, q), {0}, {0}, None), Alone(c, q), []))
  {
    var sent, kept := [Sent(TiedClaim(c, q), 1)], [Sent(TiedClaim(c, p), 1)];
    var deaf, heard := Peer(c.skew + 1, Claimed(c, p), {}, {}, None), Peer(c.skew + 1, Both(c, p, q), {0}, {0}, None);
    PKeeps(c, p, q);
    SmallSets();
    AbsorbTied(c, p, q);
    DuelUpdates(p, q, deaf, Alone(c, q), heard);
    Reach(c, Duel(p, q, 1, sent, kept, deaf, Alone(c, q), []), Receive(p, 0, c.skew + 1), Duel(p, q, 1, sent, kept, heard, Alone(c, q), []));
  }

  lemma MeetUnsent(c: Config, p: string, q: string)
    requires TwoPeers(c, p, q) && c.lossy
    ensures Reachable(c, Duel(p, q, 1 + c.window, [Sent(TiedClaim(c, q), 1)], [Sent(TiedClaim(c, p), 1)],
                              Peer(c.skew + 1, Both(c, p, q), {0}, {0}, Some(1 + c.window)), Alone(c, q).(drained := Some(1 + c.window)), []))
  {
    var sent, kept, now := [Sent(TiedClaim(c, q), 1)], [Sent(TiedClaim(c, p), 1)], 1 + c.window;
    var first := Peer(c.skew + 1, Both(c, p, q), {0}, {0}, None);
    PHearsAndKeeps(c, p, q);
    Reach(c, Duel(p, q, 1, sent, kept, first, Alone(c, q), []), Tick(c.window), Duel(p, q, now, sent, kept, first, Alone(c, q), []));
    BothDrain(c, p, q, now, sent, kept, first, Alone(c, q));
  }

  // ----- The exact condition -----

  /** Both have started, and the race is within its TTL. */
  lemma StartedWithinTTL(c: Config, p: string, q: string, b: State, now: int)
    requires p != q && c.window <= c.ttl
    requires b.starts == [Start(q, TiedClaim(c, q), Due(c), now), Start(p, TiedClaim(c, p), Due(c), now)]
    requires forall s <- b.sent + b.kept :: s.claim.at == c.skew + 1
    ensures DoubleStart(c, b)
  {
    assert b.starts[0] in b.starts && b.starts[1] in b.starts && Together(b.starts[0], b.starts[1]);
  }

  lemma DoubleStartIsReachable(c: Config, p: string, q: string)
    requires TwoPeers(c, p, q) && c.window <= c.ttl && !(WindowSuffices(c) && !c.lossy)
    ensures exists b :: Reachable(c, b) && DoubleStart(c, b)
  {
    if c.lossy {
      MeetUnsent(c, p, q);
      var sent, kept := [Sent(TiedClaim(c, q), 1)], [Sent(TiedClaim(c, p), 1)];
      BothConfirm(c, p, q, 1 + c.window, sent, kept, Peer(c.skew + 1, Both(c, p, q), {0}, {0}, Some(1 + c.window)),
                  Alone(c, q).(drained := Some(1 + c.window)));
      var b :| Reachable(c, b) && b.sent == sent && b.kept == kept
               && b.starts == [Start(q, TiedClaim(c, q), Due(c), 1 + c.window), Start(p, TiedClaim(c, p), Due(c), 1 + c.window)];
      StartedWithinTTL(c, p, q, b, 1 + c.window);
    } else {
      MeetUninformed(c, p, q);
      var sent := BothSent(c, p, q);
      BothConfirm(c, p, q, Meeting(c), sent, [], Informed(c, p, q).(drained := Some(LastSilence(c))),
                  Alone(c, q).(drained := Some(LastSilence(c))));
      var b :| Reachable(c, b) && b.sent == sent && b.kept == []
               && b.starts == [Start(q, TiedClaim(c, q), Due(c), Meeting(c)), Start(p, TiedClaim(c, p), Due(c), Meeting(c))];
      StartedWithinTTL(c, p, q, b, Meeting(c));
    }
  }

  lemma StepKeepsStartsMade(c: Config, a: State, e: Event)
    requires Inv(c, a) && Enabled(c, a, e) && forall x <- a.starts :: StartMade(c, a, x)
    ensures forall x <- Apply(c, a, e).starts :: StartMade(c, Apply(c, a, e), x)
  {
    var b := Apply(c, a, e);
    forall x | x in b.starts ensures StartMade(c, b, x) {
      if x in a.starts {
        if e.Claim? && WasSent(a.sent, x.claim) {
          WasSentGrows(a.sent, [Sent(e.claim, a.now)], x.claim);
        } else if e.Claim? {
          WasSentGrows(a.kept, [Sent(e.claim, a.now)], x.claim);
        }
      } else {
        StartedIsMade(c, a, e.q, e.task);
      }
    }
  }

  /** A start is on a claim that was made, and waited for its window. */
  ghost predicate StartMade(c: Config, a: State, x: Start) {
    (WasSent(a.sent, x.claim) || WasSent(a.kept, x.claim)) && x.reading >= x.claim.at + c.window
  }

  lemma {:induction false} TraceKeepsStartsMade(c: Config, states: seq<State>, events: seq<Event>, i: nat)
    requires Trace(c, states, events) && i < |states|
    ensures forall x <- states[i].starts :: StartMade(c, states[i], x)
  {
    if i > 0 {
      TraceKeepsStartsMade(c, states, events, i - 1);
      TraceKeepsInv(c, states, events, i - 1);
      StepKeepsStartsMade(c, states[i - 1], events[i - 1]);
    }
  }

  /** When the window is longer than the TTL, nobody can start within it. */
  lemma NoStartWithinTTL(c: Config, states: seq<State>, events: seq<Event>, i: nat)
    requires Trace(c, states, events) && i < |states| && c.window > c.ttl
    ensures !DoubleStart(c, states[i])
  {
    var a := states[i];
    TraceKeepsStartsMade(c, states, events, i);
    forall x | x in a.starts ensures Outlived(c, a.sent + a.kept, x.claim.taskID, x.reading) {
      assert StartMade(c, a, x);
      if j :| 0 <= j < |a.sent| && a.sent[j].claim == x.claim {
        assert (a.sent + a.kept)[j].claim == x.claim;
      } else {
        var j :| 0 <= j < |a.kept| && a.kept[j].claim == x.claim;
        assert (a.sent + a.kept)[|a.sent| + j].claim == x.claim;
      }
    }
  }

  /**
    The exact condition. No run of two peers ever lets both start within the TTL if and only
    if the window exceeds the delay, twice the skew and the gap together and no broadcast can
    fail, or the window is so long that nobody starts within the TTL at all.
   */
  lemma ExclusiveIffWindowSuffices(c: Config, p: string, q: string)
    requires TwoPeers(c, p, q)
    ensures (forall a :: Reachable(c, a) ==> !DoubleStart(c, a)) <==> (WindowSuffices(c) && !c.lossy) || c.window > c.ttl
  {
    if (WindowSuffices(c) && !c.lossy) || c.window > c.ttl {
      forall a | Reachable(c, a) ensures !DoubleStart(c, a) {
        var states, events :| Trace(c, states, events) && states[|states| - 1] == a;
        if c.window > c.ttl {
          NoStartWithinTTL(c, states, events, |states| - 1);
        } else {
          AtMostOneStarts(c, states, events, |states| - 1);
        }
      }
    } else {
      DoubleStartIsReachable(c, p, q);
    }
  }
}
