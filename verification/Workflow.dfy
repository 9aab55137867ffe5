/**
  The lease transaction of one workflow agent: it claims its prefixes in order, gives
  everything back when a claim fails, and releases what it claimed when it is done. Between
  its calls the coordinator serves any number of other actors.
 */
module Workflows {
  import opened Leases
  import opened Coordinators

  /**
    The first `i` prefixes are claimed, or the first `j` of `n` claimed ones are released;
    `lost` was claimed without being recorded. `cut` means that a release took effect and
    was reported as failed.
   */
  datatype Agent =
    | Claiming(i: nat)
    | Releasing(n: nat, j: nat, lost: set<string>)
    | Stopped(n: nat, j: nat, lost: set<string>, cut: bool)

  datatype World = World(table: Table, agent: Agent)

  function Keys(c: Config, prefixes: seq<string>, m: int): (ks: set<string>) {
    set i | 0 <= i < m && i < |prefixes| :: Key(c, prefixes[i])
  }

  /** The keys that the actor holds leases on. */
  function Mine(table: Table, actor: string): set<string> {
    set k | k in table && table[k].actor == actor
  }

  /** A claim that was refused, or that took effect and was reported as failed, ends the claiming. */
  function AfterClaim(c: Config, prefixes: seq<string>, i: nat, out: Outcome, clean: bool): Agent
    requires i < |prefixes|
  {
    if out.Refused? then Releasing(i, 0, {})
    else if !clean then Releasing(i, 0, {Key(c, prefixes[i])})
    else Claiming(i + 1)
  }

  /** A release that was refused, or that took effect and was reported as failed, ends the releasing. */
  function AfterRelease(n: nat, j: nat, lost: set<string>, out: Outcome, clean: bool): Agent {
    if out.Refused? then Stopped(n, j, lost, false)
    else if !clean then Stopped(n, j + 1, lost, true)
    else Releasing(n, j + 1, lost)
  }

  /**
    One step of the agent. `out` is what the attempt that the call committed came to. `clean`
    says whether the call returned no error and the mesh took the rumour: a call that took
    effect can fail for want of the mesh, and under contention because of an earlier attempt.
   */
  ghost predicate OwnStep(c: Config, actor: string, prefixes: seq<string>, a: World, b: World, p: int, s: int, out: Outcome, clean: bool) {
    match a.agent
    case Claiming(i) =>
      if i >= |prefixes| then b == a.(agent := Releasing(|prefixes|, 0, {}))
      else
        && Call(c, Acquire(Key(c, prefixes[i]), prefixes[i], actor), prefixes[i], p, s, a.table, b.table, out)
        && b.agent == AfterClaim(c, prefixes, i, out, clean)
    case Releasing(n, j, lost) =>
      if j >= n || n > |prefixes| then b == a.(agent := Stopped(n, j, lost, false))
      else
        && Call(c, Release(Key(c, prefixes[j]), prefixes[j], actor), prefixes[j], p, s, a.table, b.table, out)
        && b.agent == AfterRelease(n, j, lost, out, clean)
    case Stopped(_, _, _, _) => b == a
  }

  /** Somebody else's attempt, or a sweep. */
  ghost predicate ForeignStep(c: Config, actor: string, a: World, b: World, op: Op, p: int, s: int, out: Outcome) {
    b.agent == a.agent && (op.Sweep? || op.actor != actor) && Attempt(c, op, p, s, a.table, b.table, out)
  }

  /** No lease of the actor has idled away at this reading. */
  ghost predicate NoneExpired(c: Config, table: Table, actor: string, p: int) {
    forall k <- table :: table[k].actor == actor ==> !Expired(c, table[k], p)
  }

  // ----- What is held, step by step -----

  ghost predicate DistinctUpTo(c: Config, prefixes: seq<string>, m: int) {
    forall i :: 0 <= i < m && i < |prefixes| ==> Key(c, prefixes[i]) !in Keys(c, prefixes, i)
  }

  /** The first `m` prefixes can be claimed at all. */
  ghost predicate Claimable(c: Config, actor: string, prefixes: seq<string>, m: int) {
    forall i :: 0 <= i < m && i < |prefixes| ==> actor != "" && c.keys.normalize(prefixes[i]).Ok?
  }

  /** After `n` claims and `j` releases the actor holds what it claimed and has not released. */
  ghost predicate Holds(c: Config, actor: string, prefixes: seq<string>, table: Table, n: nat, j: nat, lost: set<string>) {
    && j <= n <= |prefixes| && Claimable(c, actor, prefixes, n) && DistinctUpTo(c, prefixes, j)
    && Mine(table, actor) == Keys(c, prefixes, n) + lost - Keys(c, prefixes, j)
  }

  ghost predicate Inv(c: Config, actor: string, prefixes: seq<string>, w: World) {
    match w.agent
    case Claiming(i) => Holds(c, actor, prefixes, w.table, i, 0, {})
    case Releasing(n, j, lost) => Holds(c, actor, prefixes, w.table, n, j, lost)
    case Stopped(n, j, lost, cut) =>
      && Holds(c, actor, prefixes, w.table, n, j, lost)
      && (cut || j == n || Key(c, prefixes[j]) in Keys(c, prefixes, j))
  }

  lemma KeysGrow(c: Config, prefixes: seq<string>, m: nat)
    requires m < |prefixes|
    ensures Keys(c, prefixes, m + 1) == Keys(c, prefixes, m) + {Key(c, prefixes[m])}
  {
  }

  lemma ClaimChangesMine(c: Config, prefix: string, actor: string, p: int, s: int, cur: Table, next: Table, out: Outcome)
    requires Call(c, Acquire(Key(c, prefix), prefix, actor), prefix, p, s, cur, next, out) && NoneExpired(c, cur, actor, p)
    ensures Mine(next, actor) == if out.Done? then Mine(cur, actor) + {Key(c, prefix)} else Mine(cur, actor)
  {
    if out.Done? {
      forall k ensures k in Mine(next, actor) <==> k in Mine(cur, actor) || k == Key(c, prefix) {
      }
    }
  }

  /** A release goes through exactly when the actor holds the key. */
  lemma ReleaseChangesMine(c: Config, prefix: string, actor: string, p: int, s: int, cur: Table, next: Table, out: Outcome)
    requires Call(c, Release(Key(c, prefix), prefix, actor), prefix, p, s, cur, next, out) && NoneExpired(c, cur, actor, p)
    ensures Mine(next, actor) == if out.Done? then Mine(cur, actor) - {Key(c, prefix)} else Mine(cur, actor)
    ensures out.Done? ==> Key(c, prefix) in Mine(cur, actor)
    ensures Key(c, prefix) in Mine(cur, actor) && actor != "" && c.keys.normalize(prefix).Ok? ==> out.Done?
  {
    if out.Done? {
      forall k ensures k in Mine(next, actor) <==> k in Mine(cur, actor) && k != Key(c, prefix) {
      }
    }
  }

  lemma ClaimKeepsInv(c: Config, actor: string, prefixes: seq<string>, a: World, b: World, p: int, s: int, out: Outcome, clean: bool)
    requires Inv(c, actor, prefixes, a) && NoneExpired(c, a.table, actor, p) && a.agent.Claiming?
    requires OwnStep(c, actor, prefixes, a, b, p, s, out, clean)
    ensures Inv(c, actor, prefixes, b)
  {
    var i := a.agent.i;
    assert Keys(c, prefixes, 0) == {};
    if i < |prefixes| {
      KeysGrow(c, prefixes, i);
      ClaimChangesMine(c, prefixes[i], actor, p, s, a.table, b.table, out);
    }
  }

  lemma ReleaseKeepsInv(c: Config, actor: string, prefixes: seq<string>, a: World, b: World, p: int, s: int, out: Outcome, clean: bool)
    requires Inv(c, actor, prefixes, a) && NoneExpired(c, a.table, actor, p) && a.agent.Releasing?
    requires OwnStep(c, actor, prefixes, a, b, p, s, out, clean)
    ensures Inv(c, actor, prefixes, b)
  {
    var n, j, lost := a.agent.n, a.agent.j, a.agent.lost;
    if j < n {
      var key := Key(c, prefixes[j]);
      KeysGrow(c, prefixes, j);
      assert key in Keys(c, prefixes, n);
      ReleaseChangesMine(c, prefixes[j], actor, p, s, a.table, b.table, out);
    }
  }

  lemma OwnStepKeepsInv(c: Config, actor: string, prefixes: seq<string>, a: World, b: World, p: int, s: int, out: Outcome, clean: bool)
    requires Inv(c, actor, prefixes, a) && NoneExpired(c, a.table, actor, p)
    requires OwnStep(c, actor, prefixes, a, b, p, s, out, clean)
    ensures Inv(c, actor, prefixes, b)
  {
    match a.agent
    case Claiming(_) => ClaimKeepsInv(c, actor, prefixes, a, b, p, s, out, clean);
    case Releasing(_, _, _) => ReleaseKeepsInv(c, actor, prefixes, a, b, p, s, out, clean);
    case Stopped(_, _, _, _) =>
  }

  /** Nobody else can give the actor a lease or take one from it before it has idled away. */
  lemma OthersLeaveMine(c: Config, actor: string, op: Op, p: int, s: int, cur: Table, next: Table, out: Outcome)
    requires c.keys.Lawful() && (op.Sweep? || op.actor != actor) && Attempt(c, op, p, s, cur, next, out)
    requires NoneExpired(c, cur, actor, p)
    ensures Mine(next, actor) == Mine(cur, actor)
  {
    var live := Purge(c, cur, p);
    forall k ensures k in Mine(next, actor) <==> k in Mine(cur, actor) {
      if k in Mine(cur, actor) {
        assert k in live && live[k].actor == actor;
        if op.Acquire? && op.key == k {
          assert c.keys.covers(k, k) && Rival(c, live, k, k, op.actor);
        }
      }
    }
  }

  /** The agent's own calls change no lease of anybody else that has not idled away. */
  lemma OwnStepLeavesOthers(c: Config, actor: string, prefixes: seq<string>, a: World, b: World, p: int, s: int, out: Outcome, clean: bool, k: string)
    requires c.keys.Lawful() && OwnStep(c, actor, prefixes, a, b, p, s, out, clean)
    ensures k in a.table && a.table[k].actor != actor && !Expired(c, a.table[k], p) ==> k in b.table && b.table[k] == a.table[k]
    ensures k in b.table && b.table[k].actor != actor ==> k in a.table && b.table[k] == a.table[k]
  {
    if k in a.table && a.table[k].actor != actor && !Expired(c, a.table[k], p) {
      var live := Purge(c, a.table, p);
      assert k in live && c.keys.covers(k, k);
      assert Rival(c, live, k, k, actor);
    }
  }

  // ----- Whole runs -----

  datatype Step =
    | Own(p: int, s: int, out: Outcome, clean: bool)
    | Foreign(op: Op, p: int, s: int, out: Outcome)

  ghost predicate Steps(c: Config, actor: string, prefixes: seq<string>, a: World, b: World, step: Step) {
    match step
    case Own(p, s, out, clean) => OwnStep(c, actor, prefixes, a, b, p, s, out, clean)
    case Foreign(op, p, s, out) => ForeignStep(c, actor, a, b, op, p, s, out)
  }

  ghost predicate StepAt(c: Config, actor: string, prefixes: seq<string>, worlds: seq<World>, steps: seq<Step>, i: int) {
    0 <= i < |steps| && i + 1 < |worlds|
    && Steps(c, actor, prefixes, worlds[i], worlds[i + 1], steps[i]) && NoneExpired(c, worlds[i].table, actor, steps[i].p)
  }

  /** The run of an actor that starts without leases, with no lease of its own idling away on the way. */
  ghost predicate Trace(c: Config, actor: string, prefixes: seq<string>, worlds: seq<World>, steps: seq<Step>) {
    && |worlds| == |steps| + 1 && worlds[0].agent == Claiming(0) && Mine(worlds[0].table, actor) == {}
    && forall i :: 0 <= i < |steps| ==> StepAt(c, actor, prefixes, worlds, steps, i)
  }

  lemma TraceGrows(c: Config, actor: string, prefixes: seq<string>, worlds: seq<World>, steps: seq<Step>, b: World, step: Step)
    requires Trace(c, actor, prefixes, worlds, steps) && Steps(c, actor, prefixes, worlds[|steps|], b, step)
    requires NoneExpired(c, worlds[|steps|].table, actor, step.p)
    ensures Trace(c, actor, prefixes, worlds + [b], steps + [step])
  {
    forall i | 0 <= i < |steps + [step]| ensures StepAt(c, actor, prefixes, worlds + [b], steps + [step], i) {
      if i < |steps| {
        assert StepAt(c, actor, prefixes, worlds, steps, i);
      }
    }
  }

  lemma StepKeepsInv(c: Config, actor: string, prefixes: seq<string>, a: World, b: World, step: Step)
    requires c.keys.Lawful() && Inv(c, actor, prefixes, a) && Steps(c, actor, prefixes, a, b, step) && NoneExpired(c, a.table, actor, step.p)
    ensures Inv(c, actor, prefixes, b)
  {
    match step
    case Own(p, s, out, clean) => OwnStepKeepsInv(c, actor, prefixes, a, b, p, s, out, clean);
    case Foreign(op, p, s, out) => OthersLeaveMine(c, actor, op, p, s, a.table, b.table, out);
  }

  lemma {:induction false} TraceKeepsInv(c: Config, actor: string, prefixes: seq<string>, worlds: seq<World>, steps: seq<Step>, i: nat)
    requires c.keys.Lawful() && Trace(c, actor, prefixes, worlds, steps) && i < |worlds|
    ensures Inv(c, actor, prefixes, worlds[i])
  {
    if i > 0 {
      TraceKeepsInv(c, actor, prefixes, worlds, steps, i - 1);
      assert StepAt(c, actor, prefixes, worlds, steps, i - 1);
      StepKeepsInv(c, actor, prefixes, worlds[i - 1], worlds[i], steps[i - 1]);
    }
  }

  /** The first of the prefixes whose key came before, or `n` if there is none. */
  function FirstRepeat(c: Config, prefixes: seq<string>, n: nat): (j: nat)
    ensures j <= n && DistinctUpTo(c, prefixes, j)
    ensures j < n && j < |prefixes| ==> Key(c, prefixes[j]) in Keys(c, prefixes, j)
  {
    if n == 0 then 0
    else
      var j := FirstRepeat(c, prefixes, n - 1);
      if j < n - 1 || (n <= |prefixes| && Key(c, prefixes[n - 1]) in Keys(c, prefixes, n - 1)) then j else n
  }

  lemma FirstRepeatIsUnique(c: Config, prefixes: seq<string>, n: nat, j: nat)
    requires j <= n <= |prefixes| && DistinctUpTo(c, prefixes, j) && (j < n ==> Key(c, prefixes[j]) in Keys(c, prefixes, j))
    ensures j == FirstRepeat(c, prefixes, n)
  {
  }

  /** What a stopped agent still holds, whatever went wrong on the way. */
  lemma StoppedHolds(c: Config, actor: string, prefixes: seq<string>, worlds: seq<World>, steps: seq<Step>, i: nat)
    requires c.keys.Lawful() && Trace(c, actor, prefixes, worlds, steps) && i < |worlds| && worlds[i].agent.Stopped?
    ensures var agent, left := worlds[i].agent, Mine(worlds[i].table, actor);
            && left == Keys(c, prefixes, agent.n) + agent.lost - Keys(c, prefixes, agent.j)
            && (left == {} <==> Keys(c, prefixes, agent.n) + agent.lost <= Keys(c, prefixes, agent.j))
  {
    TraceKeepsInv(c, actor, prefixes, worlds, steps, i);
    var agent := worlds[i].agent;
    NothingLeftIff(Keys(c, prefixes, agent.n) + agent.lost, Keys(c, prefixes, agent.j));
  }

  lemma NothingLeftIff(had: set<string>, gone: set<string>)
    ensures had - gone == {} <==> had <= gone
  {
    if had - gone == {} {
      forall k | k in had ensures k in gone {
        assert k !in had - gone;
      }
    }
  }

  /**
    What a stopped agent still holds when no call that took effect was reported as failed: the keys it claimed,
    except those before the first repeated one. It holds nothing exactly when every key
    occurs before the first repetition, so distinct keys never leak.
   */
  lemma LeftoverIsExact(c: Config, actor: string, prefixes: seq<string>, worlds: seq<World>, steps: seq<Step>, i: nat)
    requires c.keys.Lawful() && Trace(c, actor, prefixes, worlds, steps) && i < |worlds|
    requires worlds[i].agent.Stopped? && !worlds[i].agent.cut && worlds[i].agent.lost == {}
    ensures var n := worlds[i].agent.n;
            var j := FirstRepeat(c, prefixes, n);
            && worlds[i].agent.j == j
            && Mine(worlds[i].table, actor) == Keys(c, prefixes, n) - Keys(c, prefixes, j)
            && (Mine(worlds[i].table, actor) == {} <==> Keys(c, prefixes, n) <= Keys(c, prefixes, j))
            && (DistinctUpTo(c, prefixes, n) ==> Mine(worlds[i].table, actor) == {})
  {
    TraceKeepsInv(c, actor, prefixes, worlds, steps, i);
    var agent := worlds[i].agent;
    FirstRepeatIsUnique(c, prefixes, agent.n, agent.j);
  }

  /** Before the i-th moment of the run there is one at which the actor's leases are those on all its prefixes. */
  ghost predicate HeldAll(c: Config, actor: string, prefixes: seq<string>, worlds: seq<World>, i: nat) {
    exists j: nat :: j < i && j < |worlds| && worlds[j].agent == Releasing(|prefixes|, 0, {})
                     && Mine(worlds[j].table, actor) == Keys(c, prefixes, |prefixes|)
  }

  /** An agent that gives back all its prefixes has held all of them at once. */
  lemma {:induction false} AllAreHeldOnce(c: Config, actor: string, prefixes: seq<string>, worlds: seq<World>, steps: seq<Step>, i: nat)
    requires c.keys.Lawful() && Trace(c, actor, prefixes, worlds, steps) && i < |worlds|
    requires !worlds[i].agent.Claiming? && worlds[i].agent.n == |prefixes|
    ensures HeldAll(c, actor, prefixes, worlds, i + 1)
  {
    assert StepAt(c, actor, prefixes, worlds, steps, i - 1);
    if worlds[i - 1].agent.Claiming? {
      TraceKeepsInv(c, actor, prefixes, worlds, steps, i);
      assert Keys(c, prefixes, 0) == {};
    } else {
      AllAreHeldOnce(c, actor, prefixes, worlds, steps, i - 1);
    }
  }

  // ----- The agent itself -----

  /** All readings of one run, `lo` being the first and `hi` no more than the TTL later. */
  ghost predicate Within(c: Config, clock: nat -> int, lo: int) {
    forall k :: lo <= clock(k) <= lo + c.idleTTL
  }

  /** The actor's leases are no older than the run. */
  ghost predicate Young(table: Table, actor: string, lo: int) {
    forall k <- table :: table[k].actor == actor ==> table[k].lastUsed >= lo
  }

  /** Leases of others are as they were, apart from those that idle away. */
  ghost predicate OthersKept(c: Config, actor: string, before: Table, after: Table, hi: int) {
    && (forall k <- before :: before[k].actor != actor && !Expired(c, before[k], hi) ==> k in after && after[k] == before[k])
    && (forall k <- after :: after[k].actor != actor ==> k in before && after[k] == before[k])
  }

  lemma CallKeepsYoung(c: Config, op: Op, prefix: string, p: int, s: int, cur: Table, next: Table, out: Outcome, lo: int)
    requires (op.Acquire? || op.Release?) && Call(c, op, prefix, p, s, cur, next, out) && Young(cur, op.actor, lo) && lo <= s
    ensures Young(next, op.actor, lo)
  {
  }

  lemma CallKeepsOthers(c: Config, op: Op, prefix: string, p: int, s: int, before: Table, cur: Table, next: Table, out: Outcome, hi: int)
    requires c.keys.Lawful() && (op.Acquire? || op.Release?) && Call(c, op, prefix, p, s, cur, next, out) && p <= hi
    requires OthersKept(c, op.actor, before, cur, hi)
    ensures OthersKept(c, op.actor, before, next, hi)
  {
    var live := Purge(c, cur, p);
    forall k | k in before && before[k].actor != op.actor && !Expired(c, before[k], hi) ensures k in next && next[k] == before[k] {
      assert k in live && live[k] == before[k] && c.keys.covers(k, k);
      assert Rival(c, live, k, k, op.actor);
    }
  }

  /** Acquires the lease and broadcasts the claim. The rumour of an empty prefix is invalid. */
  method TryClaim(co: Coordinator, actor: string, prefix: string, p: int, s: int, meshUp: bool) returns (failed: bool, ghost out: Outcome)
    modifies co
    ensures Call(co.Cfg(), Acquire(Key(co.Cfg(), prefix), prefix, actor), prefix, p, s, old(co.leases), co.leases, out)
    ensures failed <==> out.Refused? || prefix == "" || !meshUp
  {
    var answer := co.AcquireID(prefix, actor, p, s);
    out := answer;
    failed := answer.Refused? || prefix == "" || !meshUp;
  }

  /** Drops the lease and broadcasts the release. */
  method ReleasePrefix(co: Coordinator, actor: string, prefix: string, p: int, meshUp: bool) returns (failed: bool, ghost out: Outcome)
    modifies co
    ensures Call(co.Cfg(), Release(Key(co.Cfg(), prefix), prefix, actor), prefix, p, p, old(co.leases), co.leases, out)
    ensures failed <==> out.Refused? || !meshUp
  {
    var answer := co.ReleaseID(prefix, actor, p);
    out := answer;
    failed := answer.Refused? || !meshUp;
  }

  // ----- What others do meanwhile -----

  /** A call of somebody else. */
  datatype Move =
    | Acquires(actor: string, prefix: string, p: int, s: int)
    | Releases(actor: string, prefix: string, p: int)
    | Touches(actor: string, prefix: string, p: int, s: int)

  lemma OthersLeaveYoung(c: Config, actor: string, op: Op, p: int, s: int, cur: Table, next: Table, out: Outcome, lo: int)
    requires c.keys.Lawful() && !op.Sweep? && op.actor != actor && Attempt(c, op, p, s, cur, next, out)
    requires Young(cur, actor, lo) && p <= lo + c.idleTTL
    ensures Young(next, actor, lo) && Mine(next, actor) == Mine(cur, actor)
  {
    OthersLeaveMine(c, actor, op, p, s, cur, next, out);
    forall k | k in next && next[k].actor == actor ensures next[k].lastUsed >= lo {
      assert k in Mine(next, actor) && k in Mine(cur, actor);
    }
  }

  /**
    A call of somebody else takes no lease of the actor away and gives it none. `step` is the
    attempt that it commits, if it comes to that.
   */
  method MakeMove(co: Coordinator, actor: string, lo: int, move: Move) returns (ghost acted: bool, ghost step: Step)
    requires co.keys.Lawful() && Young(co.leases, actor, lo) && move.actor != actor && move.p <= lo + co.idleTTL
    modifies co
    ensures Young(co.leases, actor, lo) && Mine(co.leases, actor) == old(Mine(co.leases, actor))
    ensures acted ==> step.Foreign? && step.p == move.p && !step.op.Sweep? && step.op.actor == move.actor
    ensures acted ==> Attempt(co.Cfg(), step.op, step.p, step.s, old(co.leases), co.leases, step.out)
    ensures !acted ==> co.leases == old(co.leases)
  {
    ghost var c, cur := co.Cfg(), co.leases;
    var r := co.keys.normalize(move.prefix);
    var out, op, s;
    match move {
      case Acquires(other, prefix, p, s') =>
        out := co.AcquireID(prefix, other, p, s');
        op, s := Acquire(if r.Ok? then r.value else "", prefix, other), s';
      case Releases(other, prefix, p) =>
        out := co.ReleaseID(prefix, other, p);
        op, s := Release(if r.Ok? then r.value else "", prefix, other), p;
      case Touches(other, prefix, p, s') =>
        out := co.TouchID(prefix, other, p, s');
        op, s := Touch(if r.Ok? then r.value else "", prefix, other), s';
    }
    acted, step := move.actor != "" && r.Ok?, Foreign(op, move.p, s, out);
    if acted {
      OthersLeaveYoung(c, actor, op, move.p, s, cur, co.leases, out, lo);
    }
  }

  method MakeMoves(co: Coordinator, actor: string, lo: int, moves: seq<Move>)
    requires co.keys.Lawful() && Young(co.leases, actor, lo)
    requires forall m <- moves :: m.actor != actor && m.p <= lo + co.idleTTL
    modifies co
    ensures Young(co.leases, actor, lo) && Mine(co.leases, actor) == old(Mine(co.leases, actor))
    ensures moves == [] ==> co.leases == old(co.leases)
  {
    for i := 0 to |moves|
      invariant Young(co.leases, actor, lo) && Mine(co.leases, actor) == old(Mine(co.leases, actor))
      invariant i == 0 ==> co.leases == old(co.leases)
    {
      var _, _ := MakeMove(co, actor, lo, moves[i]);
    }
  }

  /**
    The clock readings of a run, which of its broadcasts the mesh takes, and what others do
    before the agent takes its k-th reading.
   */
  datatype Weather = Weather(clock: nat -> int, meshUp: nat -> bool, moves: nat -> seq<Move>)

  /** The moves are those of others, within the time of the run. */
  ghost predicate Orderly(c: Config, w: Weather, actor: string) {
    forall k, m :: m in w.moves(k) ==> m.actor != actor && m.p <= w.clock(0) + c.idleTTL
  }

  /** Nobody else calls. */
  ghost predicate Alone(w: Weather) {
    forall k :: w.moves(k) == []
  }

  /** Every broadcast goes out: the mesh takes it and its rumour is valid. */
  ghost predicate AllSent(w: Weather, prefixes: seq<string>) {
    "" !in prefixes && forall k :: w.meshUp(k)
  }

  // ----- What stops an agent that is alone -----

  /** The reading at which the i-th claim of a run looks for rivals. */
  function ClaimReading(w: Weather, i: nat): int {
    w.clock(2 * i)
  }

  /** The lease has not idled away at any of the first `m` claims. */
  ghost predicate Outlasts(c: Config, w: Weather, lease: Lease, m: nat) {
    forall i: nat :: i < m ==> ClaimReading(w, i) - lease.lastUsed <= c.idleTTL
  }

  /** When the agent comes to its i-th prefix, an overlapping lease of somebody else is still alive. */
  ghost predicate Blocked(c: Config, w: Weather, actor: string, prefixes: seq<string>, before: Table, i: nat)
    requires i < |prefixes|
  {
    exists held <- before ::
      && before[held].actor != actor && Outlasts(c, w, before[held], i + 1)
      && (c.keys.covers(held, Key(c, prefixes[i])) || c.keys.covers(Key(c, prefixes[i]), held))
  }

  /** The i-th prefix cannot be claimed: the actor or the prefix is invalid, or a rival is alive. */
  ghost predicate Fails(c: Config, w: Weather, actor: string, prefixes: seq<string>, before: Table, i: nat)
    requires i < |prefixes|
  {
    actor == "" || c.keys.normalize(prefixes[i]).Err? || Blocked(c, w, actor, prefixes, before, i)
  }

  /** Of the leases of others exactly those are left that have outlasted the first `m` claims. */
  ghost predicate RivalsLeft(c: Config, w: Weather, actor: string, before: Table, table: Table, m: nat) {
    && (forall k <- before :: before[k].actor != actor && Outlasts(c, w, before[k], m) ==> k in table && table[k] == before[k])
    && (forall k <- table :: table[k].actor != actor ==> k in before && table[k] == before[k] && Outlasts(c, w, before[k], m))
  }

  lemma OutlastsOneMore(c: Config, w: Weather, lease: Lease, m: nat)
    ensures Outlasts(c, w, lease, m + 1) <==> Outlasts(c, w, lease, m) && !Expired(c, lease, ClaimReading(w, m))
  {
  }

  /** The claim of the i-th prefix goes through unless it fails for one of the reasons above. */
  lemma ClaimFailsIff(c: Config, w: Weather, actor: string, prefixes: seq<string>, before: Table, i: nat, s: int, cur: Table, next: Table, out: Outcome)
    requires c.keys.Lawful() && i < |prefixes| && RivalsLeft(c, w, actor, before, cur, i)
    requires Call(c, Acquire(Key(c, prefixes[i]), prefixes[i], actor), prefixes[i], ClaimReading(w, i), s, cur, next, out)
    ensures out.Refused? <==> Fails(c, w, actor, prefixes, before, i)
    ensures out.Done? ==> RivalsLeft(c, w, actor, before, next, i + 1)
  {
    var key, p := Key(c, prefixes[i]), ClaimReading(w, i);
    var live := Purge(c, cur, p);
    forall k ensures k in live && live[k].actor != actor <==> k in before && before[k].actor != actor && Outlasts(c, w, before[k], i + 1)
      ensures k in live && live[k].actor != actor ==> live[k] == before[k]
    {
      if k in before {
        OutlastsOneMore(c, w, before[k], i);
      }
    }
    if actor != "" && c.keys.normalize(prefixes[i]).Ok? {
      if held :| Rival(c, live, held, key, actor) {
        assert held in before && Outlasts(c, w, before[held], i + 1);
        assert Blocked(c, w, actor, prefixes, before, i);
      } else if Blocked(c, w, actor, prefixes, before, i) {
        var held :| held in before && before[held].actor != actor && Outlasts(c, w, before[held], i + 1) && Overlaps(c, held, key);
        assert Rival(c, live, held, key, actor);
      }
      if out.Done? {
        assert c.keys.covers(key, key) && !Rival(c, live, key, key, actor);
        forall held ensures !Rival(c, live, held, key, actor) {
        }
      }
    }
  }

  class WorkflowAgent {
    const co: Coordinator
    const actor: string
    const prefixes: seq<string>
    var claimed: seq<string>
    /** How many readings the run has taken. */
    var ticks: nat
    ghost var agent: Agent
    /** The prefixes that the run is to claim: none if its slot requires no leases. */
    ghost var list: seq<string>
    /** The run so far. */
    ghost var worlds: seq<World>
    ghost var steps: seq<Step>

    constructor (co: Coordinator, actor: string, prefixes: seq<string>)
      ensures this.co == co && this.actor == actor && this.prefixes == prefixes
      ensures claimed == [] && ticks == 0
    {
      this.co, this.actor, this.prefixes := co, actor, prefixes;
      claimed, ticks, agent := [], 0, Claiming(0);
      list, worlds, steps := [], [], [];
    }

    /** The run so far is a trace that ends in the coordinator's table. */
    ghost predicate Recorded()
      reads this, co
    {
      Trace(co.Cfg(), actor, list, worlds, steps) && worlds[|steps|] == World(co.leases, agent)
    }

    /** In the middle of a run: `before` was the table when it began. */
    ghost predicate Running(w: Weather, before: Table)
      reads this, co
    {
      && co.keys.Lawful() && Within(co.Cfg(), w.clock, w.clock(0)) && Orderly(co.Cfg(), w, actor)
      && Recorded() && worlds[0].table == before && Stands(w, before, World(co.leases, agent))
    }

    /** What the agent's own calls and those of others keep. */
    ghost predicate Stands(w: Weather, before: Table, world: World) {
      && Young(world.table, actor, w.clock(0))
      && (Alone(w) ==> OthersKept(co.Cfg(), actor, before, world.table, w.clock(0) + co.idleTTL))
    }

    /** After `m` claims of an agent that is alone. */
    ghost predicate Undisturbed(w: Weather, before: Table, m: nat)
      reads this, co
    {
      Alone(w) ==> ticks == 2 * m && RivalsLeft(co.Cfg(), w, actor, before, co.leases, m)
    }

    /** Nobody else calls and every broadcast goes out. */
    ghost predicate Expected(w: Weather) {
      Alone(w) && AllSent(w, prefixes)
    }

    /** Each of the first `m` prefixes can be claimed. */
    ghost predicate NoneFails(w: Weather, before: Table, m: nat)
      requires m <= |prefixes|
    {
      forall i: nat :: i < m ==> !Fails(co.Cfg(), w, actor, prefixes, before, i)
    }

    /** A call of the agent's own keeps what stands. */
    lemma StandsOn(w: Weather, before: Table, a: World, b: World, p: int, s: int, out: Outcome, clean: bool)
      requires co.keys.Lawful() && Within(co.Cfg(), w.clock, w.clock(0)) && Stands(w, before, a)
      requires OwnStep(co.Cfg(), actor, list, a, b, p, s, out, clean)
      requires w.clock(0) <= p <= w.clock(0) + co.idleTTL && w.clock(0) <= s
      ensures Stands(w, before, b)
    {
      var c, lo := co.Cfg(), w.clock(0);
      match a.agent
      case Claiming(i) =>
        if i < |list| {
          var op := Acquire(Key(c, list[i]), list[i], actor);
          CallKeepsYoung(c, op, list[i], p, s, a.table, b.table, out, lo);
          if Alone(w) {
            CallKeepsOthers(c, op, list[i], p, s, before, a.table, b.table, out, lo + c.idleTTL);
          }
        }
      case Releasing(n, j, _) =>
        if j < n <= |list| {
          var op := Release(Key(c, list[j]), list[j], actor);
          CallKeepsYoung(c, op, list[j], p, s, a.table, b.table, out, lo);
          if Alone(w) {
            CallKeepsOthers(c, op, list[j], p, s, before, a.table, b.table, out, lo + c.idleTTL);
          }
        }
      case Stopped(_, _, _, _) =>
    }

    /** One more step of the run. */
    ghost method Record(step: Step, next: Agent, cur: Table)
      requires Trace(co.Cfg(), actor, list, worlds, steps) && worlds[|steps|] == World(cur, agent)
      requires Steps(co.Cfg(), actor, list, World(cur, agent), World(co.leases, next), step)
      requires NoneExpired(co.Cfg(), cur, actor, step.p)
      modifies `agent, `worlds, `steps
      ensures Recorded() && agent == next && worlds[0] == old(worlds[0])
    {
      TraceGrows(co.Cfg(), actor, list, worlds, steps, World(co.leases, next), step);
      agent, worlds, steps := next, worlds + [World(co.leases, next)], steps + [step];
    }

    /** The beginning of a run. */
    ghost method Begin(w: Weather, toClaim: seq<string>)
      requires co.keys.Lawful() && Within(co.Cfg(), w.clock, w.clock(0)) && Orderly(co.Cfg(), w, actor) && Mine(co.leases, actor) == {}
      modifies `list, `agent, `worlds, `steps
      ensures Running(w, co.leases) && agent == Claiming(0) && list == toClaim && (ticks == 0 ==> Undisturbed(w, co.leases, 0))
    {
      list, agent, worlds, steps := toClaim, Claiming(0), [World(co.leases, Claiming(0))], [];
      forall k | k in co.leases ensures co.leases[k].actor != actor {
        assert k !in Mine(co.leases, actor);
      }
    }

    /** Others make their calls. */
    method Yield(w: Weather, ghost before: Table)
      requires Running(w, before)
      modifies co, `agent, `worlds, `steps
      ensures Running(w, before) && agent == old(agent)
      ensures Alone(w) ==> co.leases == old(co.leases)
    {
      var moves := w.moves(ticks);
      for i := 0 to |moves|
        invariant Running(w, before) && agent == old(agent)
        invariant i == 0 ==> co.leases == old(co.leases)
      {
        ghost var cur := co.leases;
        assert moves[i] in w.moves(ticks);
        ghost var acted, step := MakeMove(co, actor, w.clock(0), moves[i]);
        if acted {
          Record(step, agent, cur);
        }
      }
    }

    /** Claims one prefix. */
    method ClaimOne(w: Weather, ghost before: Table) returns (failed: bool)
      requires Running(w, before) && list == prefixes && agent.Claiming? && agent.i < |prefixes| && claimed == prefixes[..agent.i]
      requires Undisturbed(w, before, agent.i)
      modifies this`claimed, `ticks, `agent, `worlds, `steps, co
      ensures Running(w, before) && failed == !agent.Claiming?
      ensures if failed then old(agent.i) == |claimed| && agent.Releasing? && agent.n == |claimed| && agent.j == 0 && claimed == old(claimed)
              else agent == Claiming(old(agent.i) + 1) && claimed == prefixes[..agent.i]
      ensures failed && agent.lost != {} ==> !w.meshUp(old(ticks)) || "" in prefixes
      ensures Expected(w) ==> (failed <==> Fails(co.Cfg(), w, actor, prefixes, before, old(agent.i)))
      ensures !failed ==> Undisturbed(w, before, agent.i)
    {
      Yield(w, before);
      var c, i, p, s := co.Cfg(), |claimed|, w.clock(ticks), w.clock(ticks + 1);
      ghost var clean := prefixes[i] != "" && w.meshUp(ticks);
      ghost var a := World(co.leases, agent);
      ghost var out;
      failed, out := TryClaim(co, actor, prefixes[i], p, s, w.meshUp(ticks));
      Record(Own(p, s, out, clean), AfterClaim(c, prefixes, i, out, clean), a.table);
      ticks := ticks + 2;
      if !failed {
        claimed := claimed + [prefixes[i]];
      }
      StandsOn(w, before, a, World(co.leases, agent), p, s, out, clean);
      if Alone(w) {
        ClaimFailsIff(c, w, actor, prefixes, before, i, s, a.table, co.leases, out);
      }
    }

    /** Releases one recorded prefix. */
    method ReleaseOne(w: Weather, j: nat, ghost before: Table) returns (failed: bool)
      requires Running(w, before) && agent.Releasing? && agent.n == |claimed| && agent.j == j < |claimed| <= |list| && claimed == list[..|claimed|]
      modifies `ticks, `agent, `worlds, `steps, co
      ensures Running(w, before) && !agent.Claiming? && failed == agent.Stopped? && agent.n == old(agent.n) && agent.lost == old(agent.lost)
      ensures !failed ==> agent == Releasing(old(agent.n), j + 1, old(agent.lost))
      ensures failed && agent.cut ==> !w.meshUp(old(ticks))
      ensures failed && !agent.cut ==> agent.j == j
    {
      Yield(w, before);
      var c, p, clean := co.Cfg(), w.clock(ticks), w.meshUp(ticks);
      ghost var a := World(co.leases, agent);
      ghost var out;
      assert claimed[j] == list[j];
      failed, out := ReleasePrefix(co, actor, claimed[j], p, clean);
      Record(Own(p, p, out, clean), AfterRelease(agent.n, j, agent.lost, out, clean), a.table);
      ticks := ticks + 1;
      StandsOn(w, before, a, World(co.leases, agent), p, p, out, clean);
    }

    /** Releases what was recorded, in order, up to the first failure. */
    method ReleaseAll(w: Weather, ghost before: Table) returns (failed: bool)
      requires Running(w, before) && agent.Releasing? && agent.j == 0
      requires agent.n == |claimed| <= |list| && claimed == list[..|claimed|]
      modifies `ticks, `agent, `worlds, `steps, co
      ensures Running(w, before) && agent.Stopped? && agent.n == old(agent.n) && agent.lost == old(agent.lost)
      ensures AllSent(w, prefixes) ==> !agent.cut
      ensures !failed ==> agent.j == agent.n && !agent.cut
      ensures failed && !agent.cut ==> agent.j < agent.n
      ensures claimed == [] ==> !failed && co.leases == old(co.leases)
    {
      for j := 0 to |claimed|
        invariant Running(w, before) && agent == Releasing(|claimed|, j, old(agent.lost))
        invariant j == 0 ==> co.leases == old(co.leases)
      {
        failed := ReleaseOne(w, j, before);
        if failed {
          return;
        }
      }
      Record(Own(w.clock(ticks), w.clock(ticks), Done, true), Stopped(|claimed|, |claimed|, agent.lost, false), co.leases);
      failed := false;
    }

    /** Everything is claimed. */
    ghost method EndClaiming(w: Weather, before: Table)
      requires Running(w, before) && agent == Claiming(|list|)
      modifies `agent, `worlds, `steps
      ensures Running(w, before) && agent == Releasing(|list|, 0, {})
    {
      Record(Own(w.clock(ticks), w.clock(ticks), Done, true), Releasing(|list|, 0, {}), co.leases);
    }

    /** Claims one prefix; on a failure everything recorded is released again. */
    method ClaimOrGiveUp(w: Weather, ghost before: Table) returns (failed: bool)
      requires Running(w, before) && list == prefixes && agent.Claiming? && agent.i < |prefixes| && claimed == prefixes[..agent.i]
      requires Undisturbed(w, before, agent.i)
      modifies this`claimed, `ticks, `agent, `worlds, `steps, co
      ensures Running(w, before)
      ensures if failed then agent.Stopped? && agent.n == |claimed| == old(agent.i) && claimed == old(claimed)
              else agent == Claiming(old(agent.i) + 1) && claimed == prefixes[..agent.i]
      ensures failed && AllSent(w, prefixes) ==> agent.lost == {} && !agent.cut
      ensures Expected(w) ==> (failed <==> Fails(co.Cfg(), w, actor, prefixes, before, old(agent.i)))
      ensures !failed ==> Undisturbed(w, before, agent.i)
    {
      failed := ClaimOne(w, before);
      if failed {
        var _ := ReleaseAll(w, before);
      }
    }

    /**
      Claims the prefixes in order; on a failure everything recorded is released again. When
      nobody else calls and every broadcast goes out, the claiming ends at the first prefix that
      cannot be claimed.
     */
    method ClaimAll(w: Weather, ghost before: Table) returns (failed: bool)
      requires Running(w, before) && agent == Claiming(0) && claimed == [] && list == prefixes
      requires Undisturbed(w, before, 0)
      modifies this`claimed, `ticks, `agent, `worlds, `steps, co
      ensures Running(w, before) && |claimed| <= |prefixes| && claimed == prefixes[..|claimed|]
      ensures if failed then agent.Stopped? && agent.n == |claimed| < |prefixes| else agent == Releasing(|prefixes|, 0, {}) && |claimed| == |prefixes|
      ensures failed && AllSent(w, prefixes) ==> agent.lost == {} && !agent.cut
      ensures Expected(w) ==>
                NoneFails(w, before, |claimed|) && (failed ==> Fails(co.Cfg(), w, actor, prefixes, before, |claimed|))
    {
      for i := 0 to |prefixes|
        invariant Running(w, before) && agent == Claiming(i) && claimed == prefixes[..i]
        invariant Undisturbed(w, before, i) && (Expected(w) ==> NoneFails(w, before, i))
      {
        failed := ClaimOrGiveUp(w, before);
        if failed {
          return;
        }
      }
      EndClaiming(w, before);
      failed := false;
    }

    /**
      The whole run of an agent that has no lease yet, with any calls of others between its
      own. On success it has held the leases on all its prefixes at one moment and holds nothing
      any more. When no broadcast fails it is left with the keys it claimed that do not occur
      before the first repeated one, on success and on failure: with distinct keys that is
      nothing. When nobody else calls either, it succeeds exactly if every prefix has its own
      key and none of them fails.
     */
    method RunAgent(w: Weather, taskStarts: bool, requireLeases: bool, taskCompletes: bool) returns (ok: bool)
      requires co.keys.Lawful() && Within(co.Cfg(), w.clock, w.clock(0)) && Orderly(co.Cfg(), w, actor) && Mine(co.leases, actor) == {}
      requires claimed == [] && ticks == 0
      modifies this, co
      ensures Recorded() && worlds[0].table == old(co.leases) && list == if taskStarts && requireLeases then prefixes else []
      ensures claimed <= list && (ok && requireLeases ==> claimed == prefixes && HeldAll(co.Cfg(), actor, prefixes, worlds, |worlds|))
      ensures !taskStarts || !requireLeases ==> co.leases == old(co.leases)
      ensures ok ==> taskStarts && taskCompletes && Mine(co.leases, actor) == {}
      ensures AllSent(w, prefixes) ==>
                Mine(co.leases, actor) == Keys(co.Cfg(), prefixes, |claimed|) - Keys(co.Cfg(), prefixes, FirstRepeat(co.Cfg(), prefixes, |claimed|))
      ensures AllSent(w, prefixes) && DistinctUpTo(co.Cfg(), prefixes, |prefixes|) ==> Mine(co.leases, actor) == {}
      ensures Alone(w) ==> OthersKept(co.Cfg(), actor, old(co.leases), co.leases, w.clock(0) + co.idleTTL)
      ensures Expected(w) ==>
                && NoneFails(w, old(co.leases), |claimed|) && (|claimed| < |list| ==> Fails(co.Cfg(), w, actor, prefixes, old(co.leases), |claimed|))
                && (ok <==> taskStarts && taskCompletes && NoneFails(w, old(co.leases), |list|) && DistinctUpTo(co.Cfg(), list, |list|))
    {
      ghost var before := co.leases;
      Begin(w, if taskStarts && requireLeases then prefixes else []);
      if !taskStarts {
        return false;
      }
      if requireLeases {
        var failed := ClaimAll(w, before);
        if failed {
          Leftover(w, before);
          return false;
        }
      } else {
        EndClaiming(w, before);
      }
      var failed := ReleaseAll(w, before);
      Leftover(w, before);
      if requireLeases {
        AllAreHeldOnce(co.Cfg(), actor, prefixes, worlds, steps, |steps|);
      }
      ok := !failed && taskCompletes;
    }

    lemma Leftover(w: Weather, before: Table)
      requires Running(w, before) && agent.Stopped? && agent.n == |claimed| <= |list| && list <= prefixes
      ensures agent.lost == {} && agent.j == agent.n ==> Mine(co.leases, actor) == {} && DistinctUpTo(co.Cfg(), list, |claimed|)
      ensures agent.lost == {} && !agent.cut ==>
                && Mine(co.leases, actor) == Keys(co.Cfg(), prefixes, |claimed|) - Keys(co.Cfg(), prefixes, FirstRepeat(co.Cfg(), prefixes, |claimed|))
                && (DistinctUpTo(co.Cfg(), prefixes, |prefixes|) ==> Mine(co.leases, actor) == {})
                && (agent.j < agent.n ==> !DistinctUpTo(co.Cfg(), list, |list|))
    {
      var c, n := co.Cfg(), agent.n;
      TraceKeepsInv(c, actor, list, worlds, steps, |steps|);
      assert Keys(c, list, n) == Keys(c, prefixes, n) && Keys(c, list, agent.j) == Keys(c, prefixes, agent.j);
      if !agent.cut {
        assert DistinctUpTo(c, prefixes, agent.j);
        if agent.j < n {
          assert Keys(c, list, agent.j) == Keys(c, prefixes, agent.j) && Key(c, prefixes[agent.j]) == Key(c, list[agent.j]);
        }
        FirstRepeatIsUnique(c, prefixes, n, agent.j);
      }
    }
  }
}
