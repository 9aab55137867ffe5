/**
  What the participants' claims, renewals, releases and receptions do together is a run of
  `ClaimGossip`, so that what is proved of its views holds of what the participants' own views
  answer.
 */
module GossipRuns {
  import opened Wrappers
  import opened Recency
  import opened Views
  import opened Participants
  import G = ClaimGossip
  import L = Leases
  import K = Coordinators

  /**
    What one participant did, with the answer it got. `Other` is whatever leaves the records of
    lease claims alone: claiming a task, reporting a signal.
   */
  datatype Deed =
    | Pass(d: nat)
    | Lease(p: Participant, op: L.Op, text: string, trouble: Option<Trouble>, sent: seq<Packet>, out: L.Outcome, next: L.Table)
    | Take(p: Participant, m: Packet)
    | Purge(p: Participant)
    | Other(p: Participant)

  /** The views hold the records of the model's peers. */
  predicate Matches(a: G.State, views: map<string, Shown>) {
    a.peers.Keys <= views.Keys && forall q <- a.peers :: a.peers[q].view == views[q].claims
  }

  predicate IsLeaseRumor(m: Packet) {
    m.RumorPacket? && m.rumor.kind in {ClaimKind, ReleaseKind} && RumorIsValid(m.rumor)
  }

  /** What the rumour says about a lease. */
  function RumorIn(m: Packet): G.LeaseRumor
    requires IsLeaseRumor(m)
  {
    if m.rumor.kind == ReleaseKind then G.Release(m.rumor.prefix, m.rumor.actorID, m.rumor.at)
    else G.Claim(m.rumor.prefix, m.rumor.actorID, m.rumor.at)
  }

  /** Only the acting participant's view changes, if any. */
  predicate OnlyChanges(was: map<string, Shown>, left: map<string, Shown>, q: string) {
    q in was && q in left && left == was[q := left[q]]
  }

  /** A lease call whose rumour is valid and goes out, of an actor whose spelling of the prefix is the only one in use. */
  ghost predicate Usual(c: G.Config, a: G.State, op: L.Op) {
    && (op.Acquire? || op.Touch? || op.Release?) && G.RumorIsValid(op, a.clock) && G.OneSpelling(c, a.log, op.prefix)
    && op.key == K.Key(c.leases, op.prefix) && L.Purge(c.leases, a.table, a.clock) == a.table
  }

  /** The participant took the message. A rumour about a lease is the next one of the log. */
  ghost predicate Takes(c: G.Config, a: G.State, was: map<string, Shown>, q: string, m: Packet, left: map<string, Shown>) {
    && q in a.peers && OnlyChanges(was, left, q)
    && (IsLeaseRumor(m) ==> a.peers[q].pos < |a.log| && a.log[a.peers[q].pos] == RumorIn(m))
    && left[q] == Taken(was[q], m, Cutoff(a.clock, c.gossipTTL))
  }

  /** The participant did this, as the contracts of its methods say, at the clock's reading. */
  ghost predicate Done(c: G.Config, a: G.State, was: map<string, Shown>, deed: Deed, left: map<string, Shown>) {
    match deed
    case Pass(d) => left == was
    case Lease(p, op, text, trouble, sent, out, next) =>
      && Usual(c, a, op) && op.actor == p.actorID && p.coordinator.Cfg() == c.leases
      && p.actorID in a.peers && OnlyChanges(was, left, p.actorID)
      && p.Leases(was[p.actorID], op, text, a.clock, a.clock, a.clock, true, a.table, next, out, trouble, left[p.actorID], sent)
    case Take(p, m) => Takes(c, a, was, p.actorID, m, left)
    case Purge(p) =>
      && p.actorID in a.peers && OnlyChanges(was, left, p.actorID)
      && left[p.actorID] == Forget(was[p.actorID], Cutoff(a.clock, c.gossipTTL))
    case Other(p) =>
      OnlyChanges(was, left, p.actorID) && left[p.actorID].claims == was[p.actorID].claims
  }

  /** A call that the coordinator turns down for its arguments never reaches the table. */
  ghost function EventOf(c: G.Config, deed: Deed): G.Event {
    match deed
    case Pass(d) => G.Tick(d)
    case Lease(p, op, _, _, _, out, next) =>
      if (op.Acquire? || op.Touch? || op.Release?) && c.leases.keys.normalize(op.prefix).Ok? then G.Call(p.actorID, op, next, out) else G.Tick(0)
    case Take(p, m) => if IsLeaseRumor(m) then G.Receive(p.actorID) else G.Hear(p.actorID)
    case Purge(p) => G.Hear(p.actorID)
    case Other(_) => G.Tick(0)
  }

  ghost function Next(c: G.Config, a: G.State, e: G.Event): G.State {
    if G.Enabled(c, a, e) then G.Apply(c, a, e) else a
  }

  ghost predicate Steps(c: G.Config, states: seq<G.State>, views: seq<map<string, Shown>>, deeds: seq<Deed>, k: int) {
    0 <= k < |deeds| && |states| == |views| == |deeds| + 1
    && Done(c, states[k], views[k], deeds[k], views[k + 1]) && states[k + 1] == Next(c, states[k], EventOf(c, deeds[k]))
  }

  /** Deeds of any number of participants, beside the coordinator's table and the log of broadcasts. */
  ghost predicate Run(c: G.Config, states: seq<G.State>, views: seq<map<string, Shown>>, deeds: seq<Deed>) {
    && |states| == |views| == |deeds| + 1 && G.Init(states[0]) && Matches(states[0], views[0])
    && forall k :: 0 <= k < |deeds| ==> Steps(c, states, views, deeds, k)
  }

  // ----- Each deed is a step -----

  /** Messages that are not about leases leave the records of lease claims alone. */
  lemma OnlyLeaseRumorsChangeRecords(shown: Shown, m: Packet)
    ensures IsLeaseRumor(m) ==> Merged(shown, m).claims == G.Merge(shown.claims, RumorIn(m))
    ensures !IsLeaseRumor(m) ==> Merged(shown, m).claims == shown.claims
  {
    match m
    case RumorPacket(rumor) => {
      match rumor.kind
      case ClaimKind =>
      case ReleaseKind =>
      case AnnounceKind =>
      case StatusKind =>
      case OtherKind(_) =>
    }
    case TaskPacket(task) =>
    case ClaimPacket(claim) =>
    case StatusPacket(event) =>
    case SignalPacket(signal) =>
    case MetricPacket(metric) =>
    case ContentionPacket(contention) =>
    case UnsupportedPacket(kind) =>
  }

  /** Taking a message does to the records of lease claims what the model's `Receive` and `Hear` do. */
  lemma TakingIsAGossipStep(shown: Shown, m: Packet, now: int, ttl: int)
    ensures IsLeaseRumor(m) ==> Taken(shown, m, Cutoff(now, ttl)).claims == G.Merge(G.Purge(shown.claims, now - ttl), RumorIn(m))
    ensures !IsLeaseRumor(m) ==> Taken(shown, m, Cutoff(now, ttl)).claims == G.Purge(shown.claims, now - ttl)
  {
    var left := Forget(shown, Cutoff(now, ttl));
    assert left.claims == G.Purge(shown.claims, now - ttl);
    OnlyLeaseRumorsChangeRecords(left, m);
  }

  /** A call that goes through is a step, and what it broadcasts is the rumour that the log grows by. */
  lemma LeaseIsAStep(c: G.Config, a: G.State, was: map<string, Shown>, deed: Deed, left: map<string, Shown>)
    requires deed.Lease? && Matches(a, was) && Done(c, a, was, deed, left)
    ensures G.Enabled(c, a, EventOf(c, deed)) && Matches(G.Apply(c, a, EventOf(c, deed)), left)
    ensures deed.out.Done? ==> |deed.sent| == 1 && IsLeaseRumor(deed.sent[0]) && G.Apply(c, a, EventOf(c, deed)).log == a.log + [RumorIn(deed.sent[0])]
    ensures deed.out.Refused? ==> G.Apply(c, a, EventOf(c, deed)).log == a.log && forall m <- deed.sent :: !IsLeaseRumor(m)
  {
    var q := deed.p.actorID;
    match deed.out
    case Done =>
      var m := RumorPacket(deed.p.NewRumor(if deed.op.Release? then ReleaseKind else ClaimKind, deed.op.prefix, a.clock));
      assert IsLeaseRumor(m) && RumorIn(m) == G.RumorOf(deed.op, a.clock);
      OnlyLeaseRumorsChangeRecords(was[q], m);
    case Refused(refusal) =>
      RefusedKeepsRecords(c, a, was, deed, left);
      assert a.(clock := a.clock + 0) == a;
  }

  lemma RefusedKeepsRecords(c: G.Config, a: G.State, was: map<string, Shown>, deed: Deed, left: map<string, Shown>)
    requires deed.Lease? && deed.out.Refused? && Matches(a, was) && Done(c, a, was, deed, left)
    ensures left[deed.p.actorID].claims == was[deed.p.actorID].claims && forall m <- deed.sent :: !IsLeaseRumor(m)
    ensures Matches(a, left) && deed.next == a.table
  {
    var q := deed.p.actorID;
    if deed.op.Acquire? {
      var report, trouble :| deed.p.Publishes(was[q], ContentionPacket(report), true, trouble, left[q], deed.sent);
      OnlyLeaseRumorsChangeRecords(was[q], ContentionPacket(report));
    }
  }

  lemma RecordsTaken(c: G.Config, a: G.State, was: map<string, Shown>, q: string, m: Packet, left: map<string, Shown>)
    requires Matches(a, was) && q in a.peers && OnlyChanges(was, left, q) && IsLeaseRumor(m)
    requires a.peers[q].pos < |a.log| && a.log[a.peers[q].pos] == RumorIn(m)
    requires left[q].claims == G.Merge(G.Purge(was[q].claims, a.clock - c.gossipTTL), RumorIn(m))
    ensures G.Enabled(c, a, G.Receive(q)) && Matches(G.Apply(c, a, G.Receive(q)), left)
  {
  }

  lemma RecordsPurged(c: G.Config, a: G.State, was: map<string, Shown>, q: string, left: map<string, Shown>)
    requires Matches(a, was) && q in a.peers && OnlyChanges(was, left, q)
    requires left[q].claims == G.Purge(was[q].claims, a.clock - c.gossipTTL)
    ensures G.Enabled(c, a, G.Hear(q)) && Matches(G.Apply(c, a, G.Hear(q)), left)
  {
  }

  lemma TakeIsAStep(c: G.Config, a: G.State, was: map<string, Shown>, q: string, m: Packet, left: map<string, Shown>)
    requires Matches(a, was) && Takes(c, a, was, q, m, left)
    ensures var e := if IsLeaseRumor(m) then G.Receive(q) else G.Hear(q);
            G.Enabled(c, a, e) && Matches(G.Apply(c, a, e), left)
  {
    TakingIsAGossipStep(was[q], m, a.clock, c.gossipTTL);
    if IsLeaseRumor(m) {
      RecordsTaken(c, a, was, q, m, left);
    } else {
      RecordsPurged(c, a, was, q, left);
    }
  }

  lemma PurgeIsAStep(c: G.Config, a: G.State, was: map<string, Shown>, q: string, left: map<string, Shown>)
    requires Matches(a, was) && q in a.peers && OnlyChanges(was, left, q)
    requires left[q] == Forget(was[q], Cutoff(a.clock, c.gossipTTL))
    ensures G.Enabled(c, a, G.Hear(q)) && Matches(G.Apply(c, a, G.Hear(q)), left)
  {
    assert left[q].claims == G.Purge(was[q].claims, a.clock - c.gossipTTL);
    RecordsPurged(c, a, was, q, left);
  }

  lemma DeedIsAStep(c: G.Config, a: G.State, was: map<string, Shown>, deed: Deed, left: map<string, Shown>)
    requires Matches(a, was) && Done(c, a, was, deed, left)
    ensures G.Enabled(c, a, EventOf(c, deed)) && Matches(G.Apply(c, a, EventOf(c, deed)), left)
  {
    match deed
    case Pass(_) =>
    case Lease(_, _, _, _, _, _, _) => LeaseIsAStep(c, a, was, deed, left);
    case Take(p, m) => TakeIsAStep(c, a, was, p.actorID, m, left);
    case Purge(p) => PurgeIsAStep(c, a, was, p.actorID, left);
    case Other(_) => assert a.(clock := a.clock + 0) == a;
  }

  // ----- Runs are traces -----

  ghost function EventsOf(c: G.Config, deeds: seq<Deed>): (es: seq<G.Event>)
    ensures |es| == |deeds| && forall k :: 0 <= k < |deeds| ==> es[k] == EventOf(c, deeds[k])
  {
    seq(|deeds|, k requires 0 <= k < |deeds| => EventOf(c, deeds[k]))
  }

  lemma {:induction false} RunKeepsMatch(c: G.Config, states: seq<G.State>, views: seq<map<string, Shown>>, deeds: seq<Deed>, k: nat)
    requires Run(c, states, views, deeds) && k < |states|
    ensures Matches(states[k], views[k])
  {
    if k > 0 {
      RunKeepsMatch(c, states, views, deeds, k - 1);
      assert Steps(c, states, views, deeds, k - 1);
      DeedIsAStep(c, states[k - 1], views[k - 1], deeds[k - 1], views[k]);
    }
  }

  /** What any number of participants do with their leases is a trace of the model, and their views are its peers' views. */
  lemma RunIsATrace(c: G.Config, states: seq<G.State>, views: seq<map<string, Shown>>, deeds: seq<Deed>)
    requires Run(c, states, views, deeds)
    ensures G.Trace(c, states, EventsOf(c, deeds))
    ensures forall k :: 0 <= k < |states| ==> Matches(states[k], views[k])
  {
    var events := EventsOf(c, deeds);
    forall k | 0 <= k < |states| ensures Matches(states[k], views[k]) {
      RunKeepsMatch(c, states, views, deeds, k);
    }
    forall k | 0 <= k < |events| ensures G.Enabled(c, states[k], events[k]) && states[k + 1] == G.Apply(c, states[k], events[k]) {
      assert Steps(c, states, views, deeds, k);
      DeedIsAStep(c, states[k], views[k], deeds[k], views[k + 1]);
    }
  }

  // ----- What a participant's view answers -----

  /** What `View.ClaimHolder` answers in the participant's view. */
  function HolderShown(views: map<string, Shown>, q: string, prefix: string): Option<string> {
    if q in views && prefix in views[q].claims then Some(views[q].claims[prefix].actor) else None
  }

  /**
    Whoever a participant's view names, once it has taken every broadcast, holds the lease in
    the coordinator's table.
   */
  lemma ShownHolderHoldsLease(c: G.Config, states: seq<G.State>, views: seq<map<string, Shown>>, deeds: seq<Deed>, k: nat, q: string, prefix: string)
    requires Run(c, states, views, deeds) && k < |states| && q in states[k].peers
    requires states[k].peers[q].pos == |states[k].log| && HolderShown(views[k], q, prefix).Some?
    ensures c.leases.keys.normalize(prefix).Ok?
    ensures var key := c.leases.keys.normalize(prefix).value;
            key in states[k].table && states[k].table[key].actor == HolderShown(views[k], q, prefix).value
  {
    RunIsATrace(c, states, views, deeds);
    G.DrainedViewNamesHolder(c, states, EventsOf(c, deeds), k, q, prefix, HolderShown(views[k], q, prefix).value);
  }

  /** The holder of a lease is named to everybody who has taken every broadcast, while its last claim is no older than the gossip TTL. */
  lemma LeaseHolderIsShown(c: G.Config, states: seq<G.State>, views: seq<map<string, Shown>>, deeds: seq<Deed>, k: nat, q: string, key: string)
    requires Run(c, states, views, deeds) && k < |states| && q in states[k].peers && key in states[k].table
    requires states[k].peers[q].pos == |states[k].log|
    ensures var a, lease := states[k], states[k].table[key];
            exists i :: && 0 <= i < |a.log| && a.log[i] == G.Claim(lease.prefix, lease.actor, a.log[i].at)
                        && (forall j :: i < j < |a.log| ==> a.log[j].prefix != lease.prefix)
                        && (a.clock - a.log[i].at <= c.gossipTTL ==> HolderShown(views[k], q, lease.prefix) == Some(lease.actor))
  {
    RunIsATrace(c, states, views, deeds);
    G.HolderIsNamed(c, states, EventsOf(c, deeds), k, q, key);
    var a, lease := states[k], states[k].table[key];
    var i := G.Last(a.log, |a.log|, lease.prefix);
    assert a.log[i].prefix == lease.prefix;
  }
}
