/**
  Any number of threads calling the coordinator at once. A thread loads the published table,
  computes its attempt from it while the clock runs, and tries to swap the pointer; when
  another thread was faster it starts again with a fresh load. What a call captures outside
  the retried closure, its error and a sweep's list, every attempt adds to and none clears.
 */
module LeaseThreads {
  import opened Wrappers
  import opened Leases

  /** One attempt: the published version it started from, its readings, and what it came to. */
  datatype Try = Try(base: nat, p: int, s: int, next: Table, out: Outcome)

  /** A call in progress: what it does, its attempts so far, its captured error, and when it began. */
  datatype Call = Call(op: Op, sweepAt: int, tries: seq<Try>, failed: Option<Refusal>, seen: nat, born: nat)

  datatype Thread =
    | Idle
    | Ready(call: Call)
    | Loaded(call: Call, version: nat, table: Table, since: int)
    | Computed(call: Call)

  /** A finished call: its answer (`None` is Go's nil), its attempts, and its place among the commits. */
  datatype Return = Return(thread: nat, call: Call, answer: Option<Refusal>, commit: nat)

  datatype State = State(
    clock: int,
    version: nat,
    table: Table,
    threads: seq<Thread>,
    log: seq<Entry>,
    authors: seq<nat>,
    lost: seq<nat>,
    returned: seq<Return>)

  datatype Event =
    | Tick(d: nat)
    | Invoke(t: nat, op: Op, sweepAt: int)
    | Load(t: nat)
    | Compute(t: nat, p: int, s: int, next: Table, out: Outcome)
    | Swap(t: nat)

  ghost predicate Init(a: State) {
    && a.version == 0 && a.table == map[] && a.log == [] && a.authors == [] && a.returned == []
    && |a.lost| == |a.threads|
    && (forall t :: 0 <= t < |a.threads| ==> a.threads[t] == Idle && a.lost[t] == 0)
  }

  /** Readings are taken between the load and the swap; a sweep purges with the reading its caller took. */
  ghost predicate ReadingsFit(call: Call, since: int, clock: int, p: int, s: int) {
    && since <= s <= clock && p <= s
    && if call.op.Sweep? then p == call.sweepAt else since <= p
  }

  function Attempted(call: Call, t: Try): Call {
    call.(tries := call.tries + [t], failed := if t.out.Refused? then Some(t.out.refusal) else call.failed)
  }

  function Last(call: Call): Try
    requires call.tries != []
  {
    call.tries[|call.tries| - 1]
  }

  /** The event is for a thread that is at the right point of its loop. */
  predicate Fits(a: State, e: Event) {
    e.Tick? || (e.t < |a.threads| == |a.lost|
                && match e
                   case Invoke(t, _, _) => a.threads[t].Idle?
                   case Load(t) => a.threads[t].Ready?
                   case Compute(t, _, _, _, _) => a.threads[t].Loaded?
                   case Swap(t) => a.threads[t].Computed? && a.threads[t].call.tries != [])
  }

  function Apply(a: State, e: Event): State
    requires Fits(a, e)
  {
    match e
    case Tick(d) => a.(clock := a.clock + d)
    case Invoke(t, op, sweepAt) =>
      a.(threads := a.threads[t := Ready(Call(op, sweepAt, [], None, |a.returned|, a.version))])
    case Load(t) =>
      a.(threads := a.threads[t := Loaded(a.threads[t].call, a.version, a.table, a.clock)])
    case Compute(t, p, s, next, out) =>
      a.(threads := a.threads[t := Computed(Attempted(a.threads[t].call, Try(a.threads[t].version, p, s, next, out)))])
    case Swap(t) =>
      var call := a.threads[t].call;
      var last := Last(call);
      if last.base == a.version then
        a.(version := a.version + 1,
           table := last.next,
           threads := a.threads[t := Idle],
           log := a.log + [Entry(call.op, last.p, last.s, last.out, last.next)],
           authors := a.authors + [t],
           returned := a.returned + [Return(t, call, call.failed, |a.log|)])
      else
        a.(threads := a.threads[t := Ready(call)], lost := a.lost[t := a.lost[t] + 1])
  }

  ghost predicate Next(c: Config, a: State, e: Event, b: State) {
    && Fits(a, e) && b == Apply(a, e)
    && (e.Invoke? ==> e.sweepAt <= a.clock)
    && (e.Compute? ==>
          && ReadingsFit(a.threads[e.t].call, a.threads[e.t].since, a.clock, e.p, e.s)
          && Attempt(c, a.threads[e.t].call.op, e.p, e.s, a.threads[e.t].table, e.next, e.out))
  }

  ghost predicate Trace(c: Config, states: seq<State>, events: seq<Event>) {
    && |states| == |events| + 1 && Init(states[0])
    && forall i :: 0 <= i < |events| ==> Next(c, states[i], events[i], states[i + 1])
  }

  // ----- The invariant -----

  /** The attempt is what the operation does to some published table. */
  ghost predicate TryOk(c: Config, log: seq<Entry>, op: Op, born: nat, t: Try) {
    born <= t.base <= |log| && t.p <= t.s && Attempt(c, op, t.p, t.s, TableAt(map[], log, t.base), t.next, t.out)
  }

  ghost predicate TriesOk(c: Config, log: seq<Entry>, call: Call) {
    && (call.failed.None? <==> forall t <- call.tries :: t.out.Done?)
    && (forall t <- call.tries :: TryOk(c, log, call.op, call.born, t))
  }

  ghost predicate CallOk(c: Config, a: State, call: Call) {
    && TriesOk(c, a.log, call)
    && call.seen <= |a.returned| && call.born <= |a.log| && call.sweepAt <= a.clock
    && (forall j :: 0 <= j < call.seen ==> a.returned[j].commit < call.born)
  }

  ghost predicate StampedBefore(log: seq<Entry>, now: int) {
    forall e <- log :: e.s <= now
  }

  ghost predicate ThreadOk(c: Config, a: State, th: Thread) {
    match th
    case Idle => true
    case Ready(call) => CallOk(c, a, call)
    case Loaded(call, version, table, since) =>
      && CallOk(c, a, call) && call.born <= version <= |a.log| && call.sweepAt <= since <= a.clock
      && table == TableAt(map[], a.log, version)
      && (version == |a.log| ==> StampedBefore(a.log, since))
    case Computed(call) =>
      && CallOk(c, a, call) && call.tries != [] && Last(call).s <= a.clock
      && (Last(call).base == |a.log| ==> StampedBefore(a.log, Last(call).s))
  }

  ghost predicate ReturnOk(c: Config, a: State, r: Return) {
    && r.commit < |a.log| == |a.authors|
    && r.call.tries != [] && Last(r.call).base == r.commit
    && a.log[r.commit] == Entry(r.call.op, Last(r.call).p, Last(r.call).s, Last(r.call).out, Last(r.call).next)
    && a.authors[r.commit] == r.thread
    && r.answer == r.call.failed && CallOk(c, a, r.call)
  }

  ghost predicate LogOk(c: Config, a: State) {
    && a.version == |a.log| == |a.authors| && a.table == TableAt(map[], a.log, |a.log|)
    && Run(c, map[], a.log) && StampedBefore(a.log, a.clock)
  }

  ghost predicate Inv(c: Config, a: State) {
    && LogOk(c, a)
    && |a.lost| == |a.threads|
    && (forall t :: 0 <= t < |a.threads| ==> ThreadOk(c, a, a.threads[t]))
    && (forall r <- a.returned :: ReturnOk(c, a, r))
  }

  lemma {:induction false} AppendToRun(c: Config, init: Table, log: seq<Entry>, e: Entry)
    requires Run(c, init, log) && StampedBefore(log, e.s)
    requires e.p <= e.s && Attempt(c, e.op, e.p, e.s, TableAt(init, log, |log|), e.next, e.out)
    ensures Run(c, init, log + [e])
  {
    var log' := log + [e];
    forall i | 0 <= i < |log'| ensures Follows(c, init, log', i) {
      assert TableAt(init, log', i) == TableAt(init, log, i);
      if i < |log| {
        assert Follows(c, init, log, i);
      }
    }
    forall i, j | 0 <= i < j < |log'| ensures log'[i].s <= log'[j].s {
      assert log'[i] in log;
    }
  }

  lemma SwapKeepsLog(c: Config, a: State, t: nat, b: State)
    requires Inv(c, a) && Next(c, a, Swap(t), b) && Last(a.threads[t].call).base == a.version
    ensures LogOk(c, b)
  {
    var call := a.threads[t].call;
    var last := Last(call);
    assert ThreadOk(c, a, a.threads[t]) && last in call.tries;
    assert TryOk(c, a.log, call.op, call.born, last);
    AppendToRun(c, map[], a.log, Entry(call.op, last.p, last.s, last.out, last.next));
  }

  /** Published tables stay what they are while the log grows. */
  lemma TriesStayOk(c: Config, log: seq<Entry>, more: seq<Entry>, call: Call)
    requires TriesOk(c, log, call) && log <= more
    ensures TriesOk(c, more, call)
  {
    forall t | t in call.tries ensures TryOk(c, more, call.op, call.born, t) {
      assert TryOk(c, log, call.op, call.born, t);
      assert TableAt(map[], more, t.base) == TableAt(map[], log, t.base);
    }
  }

  /** The log, the clock and the returned calls only grow. */
  ghost predicate Grows(a: State, b: State) {
    && a.clock <= b.clock && a.log <= b.log && a.authors <= b.authors && a.returned <= b.returned
    && |b.log| == |b.authors| && |a.log| == |a.authors|
  }

  /** Whatever a step does, a call it does not touch stays as good as it was. */
  lemma CallStaysOk(c: Config, a: State, call: Call, b: State)
    requires CallOk(c, a, call) && Grows(a, b)
    ensures CallOk(c, b, call)
  {
    TriesStayOk(c, a.log, b.log, call);
  }

  lemma OthersStayOk(c: Config, a: State, b: State, th: Thread)
    requires ThreadOk(c, a, th) && Grows(a, b)
    ensures ThreadOk(c, b, th)
  {
    if !th.Idle? {
      CallStaysOk(c, a, th.call, b);
    }
    if th.Loaded? {
      assert TableAt(map[], b.log, th.version) == TableAt(map[], a.log, th.version);
    } else if th.Computed? {
      assert Last(th.call) in th.call.tries && TryOk(c, a.log, th.call.op, th.call.born, Last(th.call));
      assert |a.log| == |b.log| ==> a.log == b.log;
    }
  }

  lemma ReturnStaysOk(c: Config, a: State, b: State, r: Return)
    requires ReturnOk(c, a, r) && Grows(a, b)
    ensures ReturnOk(c, b, r)
  {
    CallStaysOk(c, a, r.call, b);
  }

  lemma AttemptedIsOk(c: Config, log: seq<Entry>, call: Call, t: Try)
    requires TriesOk(c, log, call) && TryOk(c, log, call.op, call.born, t)
    ensures TriesOk(c, log, Attempted(call, t))
  {
    var after := Attempted(call, t);
    assert after.tries[|after.tries| - 1] == t;
    forall u ensures u in after.tries <==> u in call.tries || u == t {
    }
    assert t in after.tries;
    assert after.failed.None? <==> call.failed.None? && t.out.Done?;
  }

  /** The thread that moves is left in order. */
  lemma MoverStaysOk(c: Config, a: State, e: Event, b: State)
    requires Inv(c, a) && Next(c, a, e, b) && !e.Tick? && Grows(a, b)
    ensures ThreadOk(c, b, b.threads[e.t])
  {
    var me := a.threads[e.t];
    assert ThreadOk(c, a, me);
    match e
    case Invoke(t, op, sweepAt) =>
      forall j | 0 <= j < |a.returned| ensures a.returned[j].commit < |a.log| {
        assert a.returned[j] in a.returned;
      }
    case Load(t) =>
    case Compute(t, p, s, next, out) =>
      AttemptedIsOk(c, a.log, me.call, Try(me.version, p, s, next, out));
    case Swap(t) =>
  }

  lemma NextGrows(c: Config, a: State, e: Event, b: State)
    requires Inv(c, a) && Next(c, a, e, b)
    ensures Grows(a, b)
  {
  }

  lemma NextKeepsThreads(c: Config, a: State, e: Event, b: State)
    requires Inv(c, a) && Next(c, a, e, b)
    ensures forall t :: 0 <= t < |b.threads| ==> ThreadOk(c, b, b.threads[t])
  {
    NextGrows(c, a, e, b);
    forall t | 0 <= t < |b.threads| ensures ThreadOk(c, b, b.threads[t]) {
      if !e.Tick? && t == e.t {
        MoverStaysOk(c, a, e, b);
      } else {
        OthersStayOk(c, a, b, a.threads[t]);
      }
    }
  }

  lemma NextKeepsReturns(c: Config, a: State, e: Event, b: State)
    requires Inv(c, a) && Next(c, a, e, b)
    ensures forall r <- b.returned :: ReturnOk(c, b, r)
  {
    NextGrows(c, a, e, b);
    forall r | r in b.returned ensures ReturnOk(c, b, r) {
      if r in a.returned {
        ReturnStaysOk(c, a, b, r);
      } else {
        assert ThreadOk(c, a, a.threads[e.t]);
        CallStaysOk(c, a, a.threads[e.t].call, b);
      }
    }
  }

  lemma NextKeepsInv(c: Config, a: State, e: Event, b: State)
    requires Inv(c, a) && Next(c, a, e, b)
    ensures Inv(c, b)
  {
    if e.Swap? && Last(a.threads[e.t].call).base == a.version {
      SwapKeepsLog(c, a, e.t, b);
    }
    NextKeepsThreads(c, a, e, b);
    NextKeepsReturns(c, a, e, b);
  }

  lemma {:induction false} TraceKeepsInv(c: Config, states: seq<State>, events: seq<Event>, i: nat)
    requires Trace(c, states, events) && i < |states|
    ensures Inv(c, states[i])
  {
    if i > 0 {
      TraceKeepsInv(c, states, events, i - 1);
      NextKeepsInv(c, states[i - 1], events[i - 1], states[i]);
    }
  }

  // ----- What every interleaving guarantees -----

  /** The commit of `r` comes after those of all calls that had returned when `r` began. */
  ghost predicate AfterAllSeen(a: State, r: Return) {
    r.call.seen <= |a.returned| && forall j :: 0 <= j < r.call.seen ==> a.returned[j].commit < r.commit
  }

  /**
    Linearizability: the published table is the outcome of running the committed attempts one
    after the other, in the order of their swaps, under one clock that never goes back; no
    commit is lost, and a call commits after every call that returned before it began.
   */
  lemma CommitsAreSequential(c: Config, states: seq<State>, events: seq<Event>, i: nat)
    requires Trace(c, states, events) && i < |states|
    ensures var a := states[i];
            && Run(c, map[], a.log) && a.table == TableAt(map[], a.log, |a.log|)
            && |a.log| == a.version
            && (forall r <- a.returned :: AfterAllSeen(a, r))
  {
    TraceKeepsInv(c, states, events, i);
    var a := states[i];
    forall r | r in a.returned ensures AfterAllSeen(a, r) {
      ReturnIsOk(c, states, events, i, r);
    }
  }

  /** In every reachable state the published leases exclude each other. */
  lemma PublishedLeasesExclude(c: Config, states: seq<State>, events: seq<Event>, i: nat)
    requires Trace(c, states, events) && i < |states|
    ensures Exclusive(c, states[i].table)
  {
    CommitsAreSequential(c, states, events, i);
    RunKeepsExclusive(c, map[], states[i].log, |states[i].log|);
  }

  lemma ReturnIsOk(c: Config, states: seq<State>, events: seq<Event>, i: nat, r: Return)
    requires Trace(c, states, events) && i < |states| && r in states[i].returned
    ensures ReturnOk(c, states[i], r) && Last(r.call) in r.call.tries && TryOk(c, states[i].log, r.call.op, r.call.born, Last(r.call))
  {
    TraceKeepsInv(c, states, events, i);
    assert ReturnOk(c, states[i], r);
  }

  /**
    A call answers nil exactly when all of its attempts went through; its own effect is the
    last attempt. So nil means the call took effect, and answer and effect agree if and only
    if the last attempt was refused or none was. `SpuriousConflict` shows that they need not.
   */
  lemma NilMeansCommitted(c: Config, states: seq<State>, events: seq<Event>, i: nat, r: Return)
    requires Trace(c, states, events) && i < |states| && r in states[i].returned
    ensures r.commit < |states[i].log| && states[i].log[r.commit].op == r.call.op
    ensures r.answer.None? <==> forall t <- r.call.tries :: t.out.Done?
    ensures r.answer.None? ==> states[i].log[r.commit].out.Done?
    ensures |r.call.tries| == 1 ==> (r.answer.None? <==> states[i].log[r.commit].out.Done?)
    ensures r.call.tries != []
    ensures (r.answer.None? <==> states[i].log[r.commit].out.Done?)
            <==> (Last(r.call).out.Refused? || forall t <- r.call.tries :: t.out.Done?)
  {
    ReturnIsOk(c, states, events, i, r);
  }

  /** Two actors that both write a key within the idle TTL: the first released a covering lease in between. */
  lemma ConcurrentWritersHandOver(c: Config, states: seq<State>, events: seq<Event>, n: nat, i: nat, j: nat)
    requires c.keys.Lawful() && Trace(c, states, events) && n < |states| && i < j < |states[n].log|
    requires var log := states[n].log;
             && Writes(c, log[i], TableAt(map[], log, i)) && Writes(c, log[j], TableAt(map[], log, j))
             && log[i].op.key == log[j].op.key && log[i].op.actor != log[j].op.actor
             && log[j].s <= log[i].s + c.idleTTL
    ensures DroppedBetween(c, states[n].log, i, j, states[n].log[i].op.key, states[n].log[i].op.actor)
  {
    CommitsAreSequential(c, states, events, n);
    WritersHandOver(c, map[], states[n].log, i, j);
  }

  // ----- Renewals under contention -----

  /** The attempt's reading falls within the TTL of a renewal that was committed before its load, at entry `i` or later. */
  ghost predicate TriedInTime(c: Config, log: seq<Entry>, i: nat, t: Try, key: string, actor: string) {
    exists k :: i <= k < t.base && k < |log| && Renews(log[k].op, key, actor) && t.p <= log[k].s + c.idleTTL
  }

  /** An attempt to renew a lease that its holder has kept alive goes through, also when it then loses the swap. */
  lemma RenewalAttemptSucceeds(c: Config, log: seq<Entry>, i: nat, op: Op, born: nat, t: Try, key: string, actor: string)
    requires c.keys.Lawful() && Run(c, map[], log) && i < |log| && i < born
    requires Renews(log[i].op, key, actor) && log[i].out.Done?
    requires HeartbeatsFrom(c, log, i, |log|, key, actor) && forall k :: i < k < |log| ==> !Drops(log[k], key, actor)
    requires Renews(op, key, actor) && TryOk(c, log, op, born, t) && TriedInTime(c, log, i, t, key, actor)
    ensures t.out.Done?
  {
    var cur := TableAt(map[], log, t.base);
    var beat :| i <= beat < t.base && beat < |log| && Renews(log[beat].op, key, actor) && t.p <= log[beat].s + c.idleTTL;
    forall k | i < k < t.base ensures InTime(c, log, i, k, key, actor) {
    }
    assert HeartbeatsFrom(c, log, i, t.base, key, actor);
    HeartbeatKeepsLease(c, map[], log, i, t.base, key, actor);
    assert Held(cur, key, actor, log[beat].s);
    RunKeepsExclusive(c, map[], log, t.base);
    RenewalOfHeldSucceeds(c, op, t, cur, key, actor);
  }

  lemma RenewalOfHeldSucceeds(c: Config, op: Op, t: Try, cur: Table, key: string, actor: string)
    requires Exclusive(c, cur) && Renews(op, key, actor) && Attempt(c, op, t.p, t.s, cur, t.next, t.out)
    requires Held(cur, key, actor, t.p - c.idleTTL)
    ensures t.out.Done?
  {
    var live := Purge(c, cur, t.p);
    assert key in live && live[key].actor == actor;
    forall held ensures !Rival(c, live, held, key, actor) {
      if held in live && live[held].actor != actor {
        assert !c.keys.covers(held, key) && !c.keys.covers(key, held);
      }
    }
  }

  /**
    While a holder keeps its lease alive, each of its renewals answers nil, whatever other
    threads do meanwhile and however many swaps it loses.
   */
  lemma ContendedRenewalsAnswerNil(c: Config, states: seq<State>, events: seq<Event>, n: nat, i: nat, r: Return, key: string, actor: string)
    requires c.keys.Lawful() && Trace(c, states, events) && n < |states| && r in states[n].returned
    requires var log := states[n].log;
             && i < |log| && Renews(log[i].op, key, actor) && log[i].out.Done?
             && HeartbeatsFrom(c, log, i, |log|, key, actor)
             && (forall k :: i < k < |log| ==> !Drops(log[k], key, actor))
             && (forall t <- r.call.tries :: TriedInTime(c, log, i, t, key, actor))
    requires Renews(r.call.op, key, actor) && i < r.call.born
    ensures r.answer.None?
  {
    ReturnIsOk(c, states, events, n, r);
    CommitsAreSequential(c, states, events, n);
    forall t | t in r.call.tries ensures t.out.Done? {
      assert TryOk(c, states[n].log, r.call.op, r.call.born, t);
      RenewalAttemptSucceeds(c, states[n].log, i, r.call.op, r.call.born, t, key, actor);
    }
  }

  /** While a holder keeps its lease alive in a concurrent run, every renewal that was committed went through. */
  lemma ConcurrentHeartbeatKeepsLease(c: Config, states: seq<State>, events: seq<Event>, n: nat, i: nat, key: string, actor: string)
    requires c.keys.Lawful() && Trace(c, states, events) && n < |states|
    requires var log := states[n].log;
             && i < |log| && Renews(log[i].op, key, actor) && log[i].out.Done?
             && HeartbeatsFrom(c, log, i, |log|, key, actor)
             && (forall k :: i < k < |log| ==> !Drops(log[k], key, actor))
    ensures KeptAlive(map[], states[n].log, i, |states[n].log|, key, actor)
    ensures key in states[n].table && states[n].table[key].actor == actor
  {
    CommitsAreSequential(c, states, events, n);
    HeartbeatKeepsLease(c, map[], states[n].log, i, |states[n].log|, key, actor);
    assert Renews(states[n].log[i].op, key, actor);
  }

  // ----- What a sweep reports -----

  /** The leases that an attempt of a sweep takes out of the table, and appends to the captured list. */
  function Collected(log: seq<Entry>, t: Try): Table {
    if t.base <= |log| then TableAt(map[], log, t.base) - t.next.Keys else map[]
  }

  predicate Collects(log: seq<Entry>, t: Try, key: string, lease: Lease) {
    key in Collected(log, t) && Collected(log, t)[key] == lease
  }

  /** How often the list holds the lease after these attempts. */
  function TimesReported(log: seq<Entry>, tries: seq<Try>, key: string, lease: Lease): nat {
    if tries == [] then 0
    else TimesReported(log, tries[..|tries| - 1], key, lease) + if Collects(log, tries[|tries| - 1], key, lease) then 1 else 0
  }

  /** The list is what the committed attempt removed, each lease once. */
  ghost predicate ReportsExactly(log: seq<Entry>, call: Call)
    requires call.tries != []
  {
    forall key, lease :: TimesReported(log, call.tries, key, lease) == if Collects(log, Last(call), key, lease) then 1 else 0
  }

  lemma {:induction false} ReportedIffCollected(log: seq<Entry>, tries: seq<Try>, key: string, lease: Lease)
    ensures TimesReported(log, tries, key, lease) > 0 <==> exists t <- tries :: Collects(log, t, key, lease)
  {
    if tries != [] {
      var front, last := tries[..|tries| - 1], tries[|tries| - 1];
      ReportedIffCollected(log, front, key, lease);
      assert forall t :: t in tries <==> t in front || t == last;
    }
  }

  lemma NothingBefore(log: seq<Entry>, call: Call, t: Try, key: string)
    requires call.tries != [] && ReportsExactly(log, call) && t in call.tries[..|call.tries| - 1]
    ensures key !in Collected(log, t)
  {
    if key in Collected(log, t) {
      var lease := Collected(log, t)[key];
      assert TimesReported(log, call.tries, key, lease) == if Collects(log, Last(call), key, lease) then 1 else 0;
      assert Collects(log, t, key, lease);
      ReportedIffCollected(log, call.tries[..|call.tries| - 1], key, lease);
    }
  }

  /**
    A sweep's list is exact if and only if none of the attempts that lost their swap had
    collected a lease: what they collected stays in the list.
   */
  lemma SweepReportsExactlyIff(c: Config, states: seq<State>, events: seq<Event>, i: nat, r: Return)
    requires Trace(c, states, events) && i < |states| && r in states[i].returned && r.call.op.Sweep?
    ensures r.call.tries != [] && r.commit < |states[i].log|
    ensures Collected(states[i].log, Last(r.call)) == TableAt(map[], states[i].log, r.commit) - states[i].log[r.commit].next.Keys
    ensures ReportsExactly(states[i].log, r.call)
            <==> forall t <- r.call.tries[..|r.call.tries| - 1] :: Collected(states[i].log, t) == map[]
  {
    ReturnIsOk(c, states, events, i, r);
    var log, front := states[i].log, r.call.tries[..|r.call.tries| - 1];
    if ReportsExactly(log, r.call) {
      forall t | t in front ensures Collected(log, t) == map[] {
        forall key ensures key !in Collected(log, t) {
          NothingBefore(log, r.call, t, key);
        }
      }
    }
    if forall t <- front :: Collected(log, t) == map[] {
      forall key, lease ensures TimesReported(log, r.call.tries, key, lease) == if Collects(log, Last(r.call), key, lease) then 1 else 0 {
        ReportedIffCollected(log, front, key, lease);
      }
    }
  }

  // ----- Lock freedom -----

  function Count(authors: seq<nat>, t: nat): nat {
    if authors == [] then 0
    else Count(authors[..|authors| - 1], t) + if authors[|authors| - 1] == t then 1 else 0
  }

  /** The pointer a thread compares against, or the current one when it holds none. */
  function Basis(a: State, t: nat): nat
    requires t < |a.threads|
  {
    match a.threads[t]
    case Loaded(_, version, _, _) => version
    case Computed(call) => if call.tries == [] then a.version else Last(call).base
    case _ => a.version
  }

  ghost predicate Charged(a: State) {
    && |a.lost| == |a.threads| && |a.authors| == a.version
    && forall t :: 0 <= t < |a.threads| ==> a.lost[t] + Count(a.authors, t) <= Basis(a, t) <= a.version
  }

  lemma NextKeepsCharged(c: Config, a: State, e: Event, b: State)
    requires Charged(a) && Next(c, a, e, b)
    ensures Charged(b)
  {
    if e.Swap? && Last(a.threads[e.t].call).base == a.version {
      assert b.authors[..|b.authors| - 1] == a.authors;
      forall t | 0 <= t < |b.threads| ensures b.lost[t] + Count(b.authors, t) <= Basis(b, t) <= b.version {
        assert a.lost[t] + Count(a.authors, t) <= Basis(a, t) <= a.version;
      }
    }
  }

  lemma {:induction false} TraceKeepsCharged(c: Config, states: seq<State>, events: seq<Event>, i: nat)
    requires Trace(c, states, events) && i < |states|
    ensures Charged(states[i])
  {
    if i > 0 {
      TraceKeepsCharged(c, states, events, i - 1);
      NextKeepsCharged(c, states[i - 1], events[i - 1], states[i]);
    }
  }

  /** A thread never loses more swaps than the other threads have won. */
  lemma LostSwapsArePaidFor(c: Config, states: seq<State>, events: seq<Event>, i: nat, t: nat)
    requires Trace(c, states, events) && i < |states| && t < |states[i].threads|
    ensures t < |states[i].lost| && states[i].lost[t] <= |states[i].log| - Count(states[i].authors, t)
  {
    TraceKeepsCharged(c, states, events, i);
    TraceKeepsInv(c, states, events, i);
  }

  // ----- A call that fails and takes effect -----

  lemma Extend(c: Config, states: seq<State>, events: seq<Event>, e: Event)
    returns (states': seq<State>, events': seq<Event>)
    requires Trace(c, states, events)
    requires var a := states[|states| - 1]; Fits(a, e) && Next(c, a, e, Apply(a, e))
    ensures Trace(c, states', events') && states'[|states'| - 1] == Apply(states[|states| - 1], e)
  {
    var a := states[|states| - 1];
    states', events' := states + [Apply(a, e)], events + [e];
    forall i | 0 <= i < |events'| ensures Next(c, states'[i], events'[i], states'[i + 1]) {
      if i < |events| {
        assert Next(c, states[i], events[i], states[i + 1]);
      }
    }
  }

  /** One call of thread `t` from start to end, with nobody in between and the clock standing still. */
  lemma RunAlone(c: Config, states: seq<State>, events: seq<Event>, t: nat, op: Op, next: Table, out: Outcome)
    returns (states': seq<State>, events': seq<Event>)
    requires Trace(c, states, events) && !op.Sweep?
    requires var a := states[|states| - 1];
             && t < |a.threads| == |a.lost| && a.threads[t] == Idle
             && Attempt(c, op, a.clock, a.clock, a.table, next, out)
    ensures Trace(c, states', events')
    ensures var a, b := states[|states| - 1], states'[|states'| - 1];
            && b.clock == a.clock && b.threads == a.threads && b.lost == a.lost && b.table == next && b.version == a.version + 1
            && b.log == a.log + [Entry(op, a.clock, a.clock, out, next)]
  {
    var a := states[|states| - 1];
    states', events' := Extend(c, states, events, Invoke(t, op, a.clock));
    states', events' := Extend(c, states', events', Load(t));
    states', events' := Extend(c, states', events', Compute(t, a.clock, a.clock, next, out));
    states', events' := Extend(c, states', events', Swap(t));
    assert states'[|states'| - 1].threads == a.threads;
  }

  /** The last call to return was answered with a conflict, yet its commit gave it the lease. */
  predicate AnsweredButHeld(z: State, key: string) {
    && z.returned != [] && z.log != []
    && z.returned[|z.returned| - 1].call.op == Acquire(key, key, "a")
    && z.returned[|z.returned| - 1].answer == Some(Conflict(key, key, "b"))
    && z.returned[|z.returned| - 1].commit == |z.log| - 1
    && z.log[|z.log| - 1].out == Done
    && z.table == map[key := Lease("a", key, 0)]
  }

  /**
    Under contention an acquire can answer with a conflict and still hold the lease: its first
    attempt met the old holder, lost the swap to that holder's release, and the second attempt
    went through without clearing the error.
   */
  lemma SpuriousConflict(c: Config, key: string)
    requires c.keys.Lawful() && c.idleTTL > 0
    ensures exists states: seq<State>, events: seq<Event> ::
              Trace(c, states, events) && AnsweredButHeld(states[|states| - 1], key)
  {
    var states, events := MeetsHolder(c, key);
    states, events := RunAlone(c, states, events, 1, Release(key, key, "b"), map[], Done);
    states, events := Extend(c, states, events, Swap(0));
    states, events := Extend(c, states, events, Load(0));
    states, events := Extend(c, states, events, Compute(0, 0, 0, map[key := Lease("a", key, 0)], Done));
    states, events := Extend(c, states, events, Swap(0));
  }

  /** Actor "b" holds the key, and thread 0 has computed a conflict it has not published yet. */
  lemma MeetsHolder(c: Config, key: string) returns (states: seq<State>, events: seq<Event>)
    requires c.keys.Lawful() && c.idleTTL > 0
    ensures Trace(c, states, events)
    ensures var a := states[|states| - 1];
            && a.clock == 0 && a.version == 1 && a.table == map[key := Lease("b", key, 0)]
            && |a.threads| == |a.lost| == 2 && a.threads[1] == Idle
            && a.threads[0].Computed? && |a.threads[0].call.tries| == 1 && Last(a.threads[0].call).base == 1
            && a.threads[0].call.op == Acquire(key, key, "a") && a.threads[0].call.failed == Some(Conflict(key, key, "b"))
  {
    var held := map[key := Lease("b", key, 0)];
    states, events := [State(0, 0, map[], [Idle, Idle], [], [], [0, 0], [])], [];
    states, events := RunAlone(c, states, events, 1, Acquire(key, key, "b"), held, Done);
    assert Purge(c, held, 0) == held && Rival(c, held, key, key, "a");
    states, events := Extend(c, states, events, Invoke(0, Acquire(key, key, "a"), 0));
    states, events := Extend(c, states, events, Load(0));
    states, events := Extend(c, states, events, Compute(0, 0, 0, held, Refused(Conflict(key, key, "b"))));
  }

  // ----- A sweep that reports a lease twice -----

  /** The last call to return was a sweep whose list holds the lease on `key` twice. */
  ghost predicate SweptTwice(z: State, key: string) {
    && z.returned != []
    && z.returned[|z.returned| - 1].call.op.Sweep?
    && TimesReported(z.log, z.returned[|z.returned| - 1].call.tries, key, Lease("b", key, 0)) == 2
  }

  lemma TwoTries(log: seq<Entry>, t: Try, u: Try, key: string, lease: Lease)
    requires Collects(log, t, key, lease) && Collects(log, u, key, lease)
    ensures TimesReported(log, [t, u], key, lease) == 2
  {
    assert [t, u][..1] == [t] && [t][..0] == [];
    assert TimesReported(log, [t], key, lease) == 1;
  }

  /** The lease of "b" has idled away, and thread 0 has collected it without having published yet. */
  lemma CollectsIdle(c: Config, key: string) returns (states: seq<State>, events: seq<Event>)
    requires c.keys.Lawful() && c.idleTTL > 0
    ensures Trace(c, states, events)
    ensures var a, now := states[|states| - 1], c.idleTTL + 1;
            && a.clock == now && a.version == 1 && |a.log| == 1 && a.log[0].next == a.table == map[key := Lease("b", key, 0)]
            && |a.threads| == |a.lost| == 2 && a.threads[1] == Idle
            && a.threads[0].Computed? && a.threads[0].call.op == Sweep && a.threads[0].call.sweepAt == now
            && a.threads[0].call.tries == [Try(1, now, now, map[], Done)]
  {
    var held, now := map[key := Lease("b", key, 0)], c.idleTTL + 1;
    states, events := [State(0, 0, map[], [Idle, Idle], [], [], [0, 0], [])], [];
    states, events := RunAlone(c, states, events, 1, Acquire(key, key, "b"), held, Done);
    states, events := Extend(c, states, events, Tick(now));
    assert Purge(c, held, now) == map[];
    states, events := Extend(c, states, events, Invoke(0, Sweep, now));
    states, events := Extend(c, states, events, Load(0));
    states, events := Extend(c, states, events, Compute(0, now, now, map[], Done));
  }

  /**
    A sweep that loses its swap to a call that leaves the table as it is reports an idle lease
    twice.
   */
  lemma SweepReportsTwice(c: Config, key: string)
    requires c.keys.Lawful() && c.idleTTL > 0
    ensures exists states: seq<State>, events: seq<Event> :: Trace(c, states, events) && SweptTwice(states[|states| - 1], key)
  {
    var held, now := map[key := Lease("b", key, 0)], c.idleTTL + 1;
    var states, events := CollectsIdle(c, key);
    assert Purge(c, held, now) == map[];
    states, events := RunAlone(c, states, events, 1, Renew(key, "x"), held, Done);
    states, events := Extend(c, states, events, Swap(0));
    states, events := Extend(c, states, events, Load(0));
    states, events := Extend(c, states, events, Compute(0, now, now, map[], Done));
    states, events := Extend(c, states, events, Swap(0));
    var z := states[|states| - 1];
    var tries := z.returned[|z.returned| - 1].call.tries;
    assert tries == [Try(1, now, now, map[], Done), Try(2, now, now, map[], Done)];
    assert z.log[0].next == held && z.log[1].next == held;
    TwoTries(z.log, tries[0], tries[1], key, held[key]);
  }
}
