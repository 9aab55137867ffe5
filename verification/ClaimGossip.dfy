/**
  Lease claims as gossip. A participant that acquires, renews or releases a lease merges the
  rumour into its own view and broadcasts it; everybody, itself included, merges the broadcast
  again when it arrives, in order. Nobody tells the views what the coordinator holds.
 */
module ClaimGossip {
  import opened Wrappers
  import L = Leases

  datatype LeaseRumor =
    | Claim(prefix: string, actor: string, at: int)
    | Release(prefix: string, actor: string, at: int)

  datatype ClaimRecord = ClaimRecord(actor: string, at: int)

  type View = map<string, ClaimRecord>

  /** The last write wins; a release only removes the releasing actor's own, no later claim. */
  function Merge(view: View, r: LeaseRumor): View {
    match r
    case Claim(prefix, actor, at) =>
      if prefix in view && view[prefix].at > at then view else view[prefix := ClaimRecord(actor, at)]
    case Release(prefix, actor, at) =>
      if prefix !in view || view[prefix].actor != actor || view[prefix].at > at then view else view - {prefix}
  }

  function Purge(view: View, cutoff: int): View {
    map prefix | prefix in view && view[prefix].at >= cutoff :: view[prefix]
  }

  datatype Config = Config(leases: L.Config, gossipTTL: nat)

  /** A participant's view and how much of the broadcast log it has taken. */
  datatype Peer = Peer(view: View, pos: nat)

  datatype State = State(clock: int, table: L.Table, log: seq<LeaseRumor>, peers: map<string, Peer>)

  /** `Receive` takes the next broadcast; `Hear` is any other message, or a purge, which drops old claims only. */
  datatype Event =
    | Tick(d: nat)
    | Call(q: string, op: L.Op, next: L.Table, out: L.Outcome)
    | Receive(q: string)
    | Hear(q: string)

  /** The rumour a successful coordinator call is followed by. */
  function RumorOf(op: L.Op, now: int): LeaseRumor
    requires op.Acquire? || op.Touch? || op.Release?
  {
    if op.Release? then Release(op.prefix, op.actor, now) else Claim(op.prefix, op.actor, now)
  }

  /** Every spelling in use has a key of its own. */
  ghost predicate OneSpelling(c: Config, log: seq<LeaseRumor>, prefix: string) {
    forall r <- log :: c.leases.keys.normalize(r.prefix) == c.leases.keys.normalize(prefix) ==> r.prefix == prefix
  }

  /** A rumour is only merged with a prefix, an actor and a positive stamp. */
  predicate RumorIsValid(op: L.Op, now: int)
    requires op.Acquire? || op.Touch? || op.Release?
  {
    op.prefix != "" && op.actor != "" && now > 0
  }

  ghost predicate Enabled(c: Config, a: State, e: Event) {
    match e
    case Tick(d) => true
    case Call(q, op, next, out) =>
      && q in a.peers && (op.Acquire? || op.Touch? || op.Release?) && op.actor == q && RumorIsValid(op, a.clock)
      && c.leases.keys.normalize(op.prefix) == Ok(op.key) && OneSpelling(c, a.log, op.prefix)
      && L.Purge(c.leases, a.table, a.clock) == a.table
      && L.Attempt(c.leases, op, a.clock, a.clock, a.table, next, out)
    case Receive(q) => q in a.peers && a.peers[q].pos < |a.log|
    case Hear(q) => q in a.peers
  }

  ghost function Apply(c: Config, a: State, e: Event): State
    requires Enabled(c, a, e)
  {
    match e
    case Tick(d) => a.(clock := a.clock + d)
    case Call(q, op, next, out) =>
      if out.Refused? then a.(table := next)
      else
        var r := RumorOf(op, a.clock);
        State(a.clock, next, a.log + [r], a.peers[q := a.peers[q].(view := Merge(a.peers[q].view, r))])
    case Receive(q) =>
      var p := a.peers[q];
      a.(peers := a.peers[q := Peer(Merge(Purge(p.view, a.clock - c.gossipTTL), a.log[p.pos]), p.pos + 1)])
    case Hear(q) =>
      var p := a.peers[q];
      a.(peers := a.peers[q := p.(view := Purge(p.view, a.clock - c.gossipTTL))])
  }

  ghost predicate Init(a: State) {
    a.table == map[] && a.log == [] && forall q <- a.peers :: a.peers[q] == Peer(map[], 0)
  }

  ghost predicate Trace(c: Config, states: seq<State>, events: seq<Event>) {
    && |states| == |events| + 1 && Init(states[0])
    && forall i :: 0 <= i < |events| ==> Enabled(c, states[i], events[i]) && states[i + 1] == Apply(c, states[i], events[i])
  }

  // ----- The invariant -----

  /** `actor` is named as the holder of a prefix. */
  predicate Names(view: View, prefix: string, actor: string) {
    prefix in view && view[prefix].actor == actor
  }

  predicate HoldsLease(table: L.Table, key: string, actor: string) {
    key in table && table[key].actor == actor
  }

  /** The last of the first `m` rumours that concerns `prefix`, or -1. */
  function Last(log: seq<LeaseRumor>, m: nat, prefix: string): (k: int)
    requires m <= |log|
    ensures -1 <= k < m && (k >= 0 ==> log[k].prefix == prefix)
    ensures forall j :: k < j < m ==> log[j].prefix != prefix
  {
    if m == 0 then -1 else if log[m - 1].prefix == prefix then m - 1 else Last(log, m - 1, prefix)
  }

  /** The coordinator holds a key exactly when the last rumour about its spelling is a claim, by that claim's actor. */
  ghost predicate LogTellsTable(c: Config, table: L.Table, log: seq<LeaseRumor>, prefix: string) {
    var k := Last(log, |log|, prefix);
    match c.leases.keys.normalize(prefix)
    case Err(_) => k == -1
    case Ok(key) =>
      && (k >= 0 && log[k].Claim? ==> HoldsLease(table, key, log[k].actor))
      && (k >= 0 && log[k].Release? ==> key !in table)
  }

  ghost predicate LeaseIsInLog(c: Config, lease: L.Lease, key: string, log: seq<LeaseRumor>) {
    c.leases.keys.normalize(lease.prefix) == Ok(key) && Last(log, |log|, lease.prefix) >= 0
  }

  ghost predicate Agree(c: Config, table: L.Table, log: seq<LeaseRumor>) {
    && (forall key <- table :: LeaseIsInLog(c, table[key], key, log))
    && (forall prefix :: LogTellsTable(c, table, log, prefix))
  }

  /** Stamps do not go back, and a release ends a tenure of its own actor. */
  ghost predicate LogOk(log: seq<LeaseRumor>, clock: int) {
    && (forall i, j :: 0 <= i <= j < |log| ==> log[i].at <= log[j].at)
    && (forall i :: 0 <= i < |log| ==> log[i].at <= clock)
    && (forall i :: 0 <= i < |log| ==> TenureOk(log, i))
  }

  ghost predicate TenureOk(log: seq<LeaseRumor>, i: nat)
    requires i < |log|
  {
    log[i].Release? ==> var k := Last(log, i, log[i].prefix); k >= 0 && log[k].Claim? && log[k].actor == log[i].actor
  }

  /** A record in a view is the last claim taken, or an own claim whose echo is still to come. */
  ghost predicate ComesFrom(log: seq<LeaseRumor>, q: string, p: Peer, prefix: string, j: int)
    requires p.pos <= |log| && prefix in p.view
  {
    && 0 <= j < |log| && log[j] == Claim(prefix, p.view[prefix].actor, p.view[prefix].at)
    && (j == Last(log, p.pos, prefix) || (j >= p.pos && log[j].actor == q))
  }

  /** A claim that was the last one taken is on show unless it is too old or its release is an own one still to come. */
  ghost predicate Shows(c: Config, log: seq<LeaseRumor>, clock: int, q: string, p: Peer, prefix: string)
    requires p.pos <= |log|
  {
    var k := Last(log, p.pos, prefix);
    k >= 0 && log[k].Claim? ==>
      prefix in p.view || clock > log[k].at + c.gossipTTL || OwnReleaseAhead(log, q, p.pos, prefix)
  }

  ghost predicate OwnReleaseAhead(log: seq<LeaseRumor>, q: string, pos: nat, prefix: string) {
    exists j :: pos <= j < |log| && log[j].Release? && log[j].prefix == prefix && log[j].actor == q
  }

  /** Every record on show is some claim of the log. */
  ghost predicate Sourced(log: seq<LeaseRumor>, q: string, p: Peer, prefix: string)
    requires p.pos <= |log|
  {
    prefix in p.view ==> exists j :: ComesFrom(log, q, p, prefix, j)
  }

  ghost predicate PeerOk(c: Config, log: seq<LeaseRumor>, clock: int, q: string, p: Peer) {
    && p.pos <= |log|
    && (forall prefix :: Sourced(log, q, p, prefix))
    && (forall prefix :: Shows(c, log, clock, q, p, prefix))
  }

  ghost predicate Inv(c: Config, a: State) {
    && LogOk(a.log, a.clock) && Agree(c, a.table, a.log)
    && (forall q <- a.peers :: PeerOk(c, a.log, a.clock, q, a.peers[q]))
  }

  // ----- The log and the table -----

  lemma {:induction false} LastGrows(log: seq<LeaseRumor>, more: seq<LeaseRumor>, m: nat, prefix: string)
    requires m <= |log|
    ensures Last(log + more, m, prefix) == Last(log, m, prefix)
  {
    if m > 0 {
      assert (log + more)[m - 1] == log[m - 1];
      LastGrows(log, more, m - 1, prefix);
    }
  }

  lemma LastOfAppended(log: seq<LeaseRumor>, r: LeaseRumor, prefix: string)
    ensures Last(log + [r], |log| + 1, prefix) == if r.prefix == prefix then |log| else Last(log, |log|, prefix)
  {
    LastGrows(log, [r], |log|, prefix);
  }

  /** What a successful call does to a table in which nothing has idled out. */
  predicate Effect(op: L.Op, now: int, table: L.Table, next: L.Table)
    requires op.Acquire? || op.Touch? || op.Release?
  {
    && (op.Acquire? || HoldsLease(table, op.key, op.actor))
    && (op.Release? ==> next == table - {op.key})
    && (op.Acquire? ==> next == table[op.key := L.Lease(op.actor, op.prefix, now)])
    && (op.Touch? ==> HoldsLease(table, op.key, op.actor) && next == table[op.key := table[op.key].(lastUsed := now)])
  }

  lemma CallHasEffect(c: Config, a: State, e: Event)
    requires e.Call? && Enabled(c, a, e) && e.out.Done?
    ensures Effect(e.op, a.clock, a.table, e.next)
  {
  }

  lemma AppendKeepsAgreement(c: Config, table: L.Table, log: seq<LeaseRumor>, op: L.Op, now: int, next: L.Table)
    requires Agree(c, table, log) && (op.Acquire? || op.Touch? || op.Release?) && Effect(op, now, table, next)
    requires c.leases.keys.normalize(op.prefix) == Ok(op.key) && OneSpelling(c, log, op.prefix)
    ensures Agree(c, next, log + [RumorOf(op, now)])
  {
    var r := RumorOf(op, now);
    forall prefix ensures LogTellsTable(c, next, log + [r], prefix) {
      assert LogTellsTable(c, table, log, prefix);
      LastOfAppended(log, r, prefix);
      var k := Last(log, |log|, prefix);
      assert k >= 0 ==> log[k] in log;
    }
    forall key | key in next ensures LeaseIsInLog(c, next[key], key, log + [r]) {
      LastOfAppended(log, r, next[key].prefix);
      assert key in table ==> LeaseIsInLog(c, table[key], key, log);
    }
  }

  /** A release that goes through ends a tenure of its own actor. */
  lemma ReleaseEndsTenure(c: Config, table: L.Table, log: seq<LeaseRumor>, op: L.Op)
    requires Agree(c, table, log) && op.Release? && HoldsLease(table, op.key, op.actor)
    requires c.leases.keys.normalize(op.prefix) == Ok(op.key) && OneSpelling(c, log, op.prefix)
    ensures var k := Last(log, |log|, op.prefix); k >= 0 && log[k].Claim? && log[k].actor == op.actor
  {
    var spelled := table[op.key].prefix;
    assert LeaseIsInLog(c, table[op.key], op.key, log);
    assert log[Last(log, |log|, spelled)] in log;
    assert LogTellsTable(c, table, log, spelled);
  }

  lemma AppendKeepsLog(log: seq<LeaseRumor>, r: LeaseRumor, now: int)
    requires LogOk(log, now) && r.at == now
    requires r.Release? ==> var k := Last(log, |log|, r.prefix); k >= 0 && log[k].Claim? && log[k].actor == r.actor
    ensures LogOk(log + [r], now)
  {
    var log' := log + [r];
    assert log'[|log|] == r && forall i :: 0 <= i < |log| ==> log'[i] == log[i];
    forall i | 0 <= i < |log'| ensures TenureOk(log', i) {
      LastGrows(log, [r], i, log'[i].prefix);
      if i < |log| {
        assert TenureOk(log, i);
      }
    }
  }

  // ----- The views -----

  /** Nothing another participant says changes what this one has merged. */
  lemma AppendKeepsPeer(c: Config, log: seq<LeaseRumor>, clock: int, q: string, p: Peer, r: LeaseRumor)
    requires PeerOk(c, log, clock, q, p)
    ensures PeerOk(c, log + [r], clock, q, p)
  {
    var log' := log + [r];
    forall prefix ensures Sourced(log', q, p, prefix) {
      assert Sourced(log, q, p, prefix);
      if prefix in p.view {
        var j :| ComesFrom(log, q, p, prefix, j);
        LastGrows(log, [r], p.pos, prefix);
        assert ComesFrom(log', q, p, prefix, j);
      }
    }
    forall prefix ensures Shows(c, log', clock, q, p, prefix) {
      assert Shows(c, log, clock, q, p, prefix);
      LastGrows(log, [r], p.pos, prefix);
      if OwnReleaseAhead(log, q, p.pos, prefix) {
        var j :| p.pos <= j < |log| && log[j].Release? && log[j].prefix == prefix && log[j].actor == q;
        assert log'[j] == log[j];
      }
    }
  }

  /** A participant merges its own rumour before anybody has received it. */
  lemma OwnMergeKeepsPeer(c: Config, log: seq<LeaseRumor>, clock: int, q: string, p: Peer, r: LeaseRumor)
    requires PeerOk(c, log + [r], clock, q, p) && p.pos <= |log| && r.actor == q && LogOk(log + [r], clock)
    ensures PeerOk(c, log + [r], clock, q, p.(view := Merge(p.view, r)))
  {
    var log', p' := log + [r], p.(view := Merge(p.view, r));
    assert log'[|log|] == r;
    forall prefix ensures Sourced(log', q, p', prefix) {
      assert Sourced(log', q, p, prefix);
      if prefix in p'.view {
        if r.Claim? && prefix == r.prefix {
          if prefix in p.view {
            var j :| ComesFrom(log', q, p, prefix, j);
          }
          assert ComesFrom(log', q, p', prefix, |log|);
        } else {
          var j :| ComesFrom(log', q, p, prefix, j);
          assert ComesFrom(log', q, p', prefix, j);
        }
      }
    }
    forall prefix ensures Shows(c, log', clock, q, p', prefix) {
      assert Shows(c, log', clock, q, p, prefix);
    }
  }

  lemma PurgeKeepsPeer(c: Config, log: seq<LeaseRumor>, clock: int, q: string, p: Peer)
    requires PeerOk(c, log, clock, q, p) && LogOk(log, clock)
    ensures PeerOk(c, log, clock, q, p.(view := Purge(p.view, clock - c.gossipTTL)))
  {
    var p' := p.(view := Purge(p.view, clock - c.gossipTTL));
    forall prefix ensures Sourced(log, q, p', prefix) {
      assert Sourced(log, q, p, prefix);
      if prefix in p'.view {
        var j :| ComesFrom(log, q, p, prefix, j);
        assert ComesFrom(log, q, p', prefix, j);
      }
    }
    forall prefix ensures Shows(c, log, clock, q, p', prefix) {
      assert Shows(c, log, clock, q, p, prefix) && Sourced(log, q, p, prefix);
      if prefix in p.view && prefix !in p'.view {
        var j :| ComesFrom(log, q, p, prefix, j);
      }
    }
  }

  /** What the next broadcast does to the record of the prefix it concerns. */
  lemma EchoKeepsRecord(c: Config, log: seq<LeaseRumor>, clock: int, q: string, p: Peer, prefix: string)
    requires PeerOk(c, log, clock, q, p) && LogOk(log, clock) && p.pos < |log|
    ensures Sourced(log, q, Peer(Merge(p.view, log[p.pos]), p.pos + 1), prefix)
  {
    var r, p' := log[p.pos], Peer(Merge(p.view, log[p.pos]), p.pos + 1);
    assert Sourced(log, q, p, prefix);
    if prefix !in p'.view {
    } else if r.prefix == prefix && r.Claim? && p'.view[prefix] == ClaimRecord(r.actor, r.at) {
      assert ComesFrom(log, q, p', prefix, p.pos);
    } else {
      var j :| ComesFrom(log, q, p, prefix, j);
      if r.prefix == prefix && r.Release? {
        assert TenureOk(log, p.pos);
      }
      assert ComesFrom(log, q, p', prefix, j);
    }
  }

  lemma EchoKeepsShows(c: Config, log: seq<LeaseRumor>, clock: int, q: string, p: Peer, prefix: string)
    requires PeerOk(c, log, clock, q, p) && p.pos < |log|
    ensures Shows(c, log, clock, q, Peer(Merge(p.view, log[p.pos]), p.pos + 1), prefix)
  {
    assert Shows(c, log, clock, q, p, prefix);
    if log[p.pos].prefix != prefix && OwnReleaseAhead(log, q, p.pos, prefix) {
      var j :| p.pos <= j < |log| && log[j].Release? && log[j].prefix == prefix && log[j].actor == q;
      assert j >= p.pos + 1;
    }
  }

  lemma ReceiveKeepsPeer(c: Config, log: seq<LeaseRumor>, clock: int, q: string, p: Peer)
    requires PeerOk(c, log, clock, q, p) && LogOk(log, clock) && p.pos < |log|
    ensures PeerOk(c, log, clock, q, Peer(Merge(Purge(p.view, clock - c.gossipTTL), log[p.pos]), p.pos + 1))
  {
    var purged := p.(view := Purge(p.view, clock - c.gossipTTL));
    PurgeKeepsPeer(c, log, clock, q, p);
    var p' := Peer(Merge(purged.view, log[p.pos]), p.pos + 1);
    forall prefix ensures Sourced(log, q, p', prefix) {
      EchoKeepsRecord(c, log, clock, q, purged, prefix);
    }
    forall prefix ensures Shows(c, log, clock, q, p', prefix) {
      EchoKeepsShows(c, log, clock, q, purged, prefix);
    }
  }

  lemma TickKeepsPeer(c: Config, log: seq<LeaseRumor>, clock: int, later: int, q: string, p: Peer)
    requires PeerOk(c, log, clock, q, p) && clock <= later
    ensures PeerOk(c, log, later, q, p)
  {
    forall prefix ensures Shows(c, log, later, q, p, prefix) {
      assert Shows(c, log, clock, q, p, prefix);
    }
  }

  lemma CallKeepsPeer(c: Config, log: seq<LeaseRumor>, clock: int, q: string, p: Peer, r: LeaseRumor)
    requires PeerOk(c, log, clock, q, p) && LogOk(log + [r], clock)
    ensures PeerOk(c, log + [r], clock, q, if r.actor == q then p.(view := Merge(p.view, r)) else p)
  {
    AppendKeepsPeer(c, log, clock, q, p, r);
    if r.actor == q {
      OwnMergeKeepsPeer(c, log, clock, q, p, r);
    }
  }

  lemma CallKeepsInv(c: Config, a: State, e: Event)
    requires Inv(c, a) && e.Call? && Enabled(c, a, e) && e.out.Done?
    ensures Inv(c, Apply(c, a, e))
  {
    var b, r := Apply(c, a, e), RumorOf(e.op, a.clock);
    CallHasEffect(c, a, e);
    AppendKeepsAgreement(c, a.table, a.log, e.op, a.clock, e.next);
    if e.op.Release? {
      ReleaseEndsTenure(c, a.table, a.log, e.op);
    }
    AppendKeepsLog(a.log, r, a.clock);
    forall q | q in b.peers ensures PeerOk(c, b.log, b.clock, q, b.peers[q]) {
      CallKeepsPeer(c, a.log, a.clock, q, a.peers[q], r);
    }
  }

  lemma ReceiveKeepsInv(c: Config, a: State, q: string)
    requires Inv(c, a) && Enabled(c, a, Receive(q))
    ensures Inv(c, Apply(c, a, Receive(q)))
  {
    var b := Apply(c, a, Receive(q));
    ReceiveKeepsPeer(c, a.log, a.clock, q, a.peers[q]);
    var p' := b.peers[q];
    assert PeerOk(c, a.log, a.clock, q, p');
    assert b == a.(peers := a.peers[q := p']);
    forall x | x in b.peers ensures PeerOk(c, b.log, b.clock, x, b.peers[x]) {
      assert x == q || b.peers[x] == a.peers[x];
    }
  }

  lemma HearKeepsInv(c: Config, a: State, q: string)
    requires Inv(c, a) && q in a.peers
    ensures Inv(c, Apply(c, a, Hear(q)))
  {
    var b := Apply(c, a, Hear(q));
    PurgeKeepsPeer(c, a.log, a.clock, q, a.peers[q]);
    var p' := b.peers[q];
    assert PeerOk(c, a.log, a.clock, q, p');
    forall x | x in b.peers ensures PeerOk(c, b.log, b.clock, x, b.peers[x]) {
      assert x == q || b.peers[x] == a.peers[x];
    }
  }

  lemma TickKeepsInv(c: Config, a: State, d: nat)
    requires Inv(c, a)
    ensures Inv(c, a.(clock := a.clock + d))
  {
    var b := a.(clock := a.clock + d);
    forall q | q in b.peers ensures PeerOk(c, b.log, b.clock, q, b.peers[q]) {
      TickKeepsPeer(c, a.log, a.clock, b.clock, q, a.peers[q]);
    }
  }

  lemma StepKeepsInv(c: Config, a: State, e: Event)
    requires Inv(c, a) && Enabled(c, a, e)
    ensures Inv(c, Apply(c, a, e))
  {
    match e
    case Tick(d) => TickKeepsInv(c, a, d);
    case Receive(q) => ReceiveKeepsInv(c, a, q);
    case Hear(q) => HearKeepsInv(c, a, q);
    case Call(_, _, _, out) =>
      if out.Done? {
        CallKeepsInv(c, a, e);
      } else {
        assert Apply(c, a, e) == a;
      }
  }

  lemma {:induction false} TraceKeepsInv(c: Config, states: seq<State>, events: seq<Event>, i: nat)
    requires Trace(c, states, events) && i < |states|
    ensures Inv(c, states[i])
  {
    if i > 0 {
      TraceKeepsInv(c, states, events, i - 1);
      StepKeepsInv(c, states[i - 1], events[i - 1]);
    }
  }

  /**
    A participant that has taken every broadcast is never misled: whoever its view names holds
    the lease, although it merged its own rumours twice and out of order with the others'.
   */
  lemma DrainedViewNamesHolder(c: Config, states: seq<State>, events: seq<Event>, i: nat, q: string, prefix: string, actor: string)
    requires Trace(c, states, events) && i < |states| && q in states[i].peers
    requires states[i].peers[q].pos == |states[i].log| && Names(states[i].peers[q].view, prefix, actor)
    ensures c.leases.keys.normalize(prefix).Ok? && HoldsLease(states[i].table, c.leases.keys.normalize(prefix).value, actor)
  {
    var a := states[i];
    TraceKeepsInv(c, states, events, i);
    assert PeerOk(c, a.log, a.clock, q, a.peers[q]);
    assert Sourced(a.log, q, a.peers[q], prefix);
    var j :| ComesFrom(a.log, q, a.peers[q], prefix, j);
    assert LogTellsTable(c, a.table, a.log, prefix);
  }

  /** The converse holds while the holder's last claim is within the gossip TTL. */
  lemma HolderIsNamed(c: Config, states: seq<State>, events: seq<Event>, i: nat, q: string, key: string)
    requires Trace(c, states, events) && i < |states| && q in states[i].peers && key in states[i].table
    requires states[i].peers[q].pos == |states[i].log|
    ensures var a := states[i];
            var prefix := a.table[key].prefix;
            var k := Last(a.log, |a.log|, prefix);
            && k >= 0 && a.log[k].Claim? && a.log[k].actor == a.table[key].actor
            && (a.clock <= a.log[k].at + c.gossipTTL ==> Names(a.peers[q].view, prefix, a.table[key].actor))
  {
    var a := states[i];
    var prefix := a.table[key].prefix;
    TraceKeepsInv(c, states, events, i);
    assert LeaseIsInLog(c, a.table[key], key, a.log);
    assert LogTellsTable(c, a.table, a.log, prefix);
    assert PeerOk(c, a.log, a.clock, q, a.peers[q]);
    assert Shows(c, a.log, a.clock, q, a.peers[q], prefix) && Sourced(a.log, q, a.peers[q], prefix);
    if prefix in a.peers[q].view {
      var j :| ComesFrom(a.log, q, a.peers[q], prefix, j);
    }
  }
}
