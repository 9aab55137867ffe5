/**
  Claiming one of several configured prefixes: sweeps over the list with a jittered wait in
  between, during which other actors use the coordinator.
 */
module ConfiguredClaims {
  import opened Wrappers
  import opened Leases
  import opened Coordinators
  import opened Workflows

  // ----- Waiting -----

  datatype Backoff = Backoff(attempts: int, max: int, jitter: int)

  /** What the constructor accepts. */
  predicate BackoffIsValid(b: Backoff) {
    b.attempts > 0 && b.max > 0 && b.jitter >= 0
  }

  /**
    The delay after a failed attempt. `next` is the exponential delay of the library and
    `random` its random number: whatever they are, the delay is the capped one or up to the jitter more.
   */
  function Delay(b: Backoff, attempt: int, next: int, random: nat): (r: Option<int>)
    requires BackoffIsValid(b) && next >= 0
    ensures r.None? <==> attempt <= 0
    ensures r.Some? && next <= b.max ==> next <= r.value <= next + b.jitter
    ensures r.Some? && next > b.max ==> b.max <= r.value <= b.max + b.jitter
  {
    if attempt <= 0 then None
    else
      var delay := if next > b.max then b.max else next;
      Some(if b.jitter == 0 then delay else delay + random % (b.jitter + 1))
  }

  // ----- Sweeping -----

  /** The actor or the prefix is invalid, or an overlapping lease of somebody else is alive at the reading. */
  ghost predicate CannotClaim(c: Config, table: Table, actor: string, prefix: string, p: int) {
    || actor == "" || c.keys.normalize(prefix).Err?
    || exists held <- table :: && table[held].actor != actor && p - table[held].lastUsed <= c.idleTTL
                               && (c.keys.covers(held, Key(c, prefix)) || c.keys.covers(Key(c, prefix), held))
  }

  lemma RefusedIffCannotClaim(c: Config, actor: string, prefix: string, p: int, s: int, cur: Table, next: Table, out: Outcome)
    requires Call(c, Acquire(Key(c, prefix), prefix, actor), prefix, p, s, cur, next, out)
    ensures out.Refused? <==> CannotClaim(c, cur, actor, prefix, p)
    ensures out.Refused? ==> next == cur
  {
    if actor != "" && c.keys.normalize(prefix).Ok? {
      AcquireComesTo(c, Entry(Acquire(Key(c, prefix), prefix, actor), p, s, out, next), cur);
    }
  }

  /** How many of the first `n` prefixes the view shows as free: as many claims are tried before the n-th. */
  function Tried(free: nat -> bool, n: nat): nat {
    if n == 0 then 0 else Tried(free, n - 1) + if free(n - 1) then 1 else 0
  }

  /** The reading at which a sweep that begins at tick `ticks` tries the i-th prefix. */
  function SweepReading(w: Weather, free: nat -> bool, ticks: nat, i: nat): int {
    w.clock(ticks + 2 * Tried(free, i))
  }

  class Claimant {
    const co: Coordinator
    const actor: string
    const prefixes: seq<string>
    var ticks: nat

    constructor (co: Coordinator, actor: string, prefixes: seq<string>)
      ensures this.co == co && this.actor == actor && this.prefixes == prefixes
    {
      this.co, this.actor, this.prefixes, ticks := co, actor, prefixes, 0;
    }

    ghost predicate Running(w: Weather)
      reads this, co
    {
      co.keys.Lawful() && Within(co.Cfg(), w.clock, w.clock(0)) && Young(co.leases, actor, w.clock(0))
    }

    /** Claims one prefix, whose key is added to the actor's exactly when the claim takes effect. */
    method ClaimOne(w: Weather, prefix: string) returns (failed: bool)
      requires Running(w)
      modifies `ticks, co
      ensures Running(w)
      ensures !failed ==> Mine(co.leases, actor) == old(Mine(co.leases, actor)) + {Key(co.Cfg(), prefix)}
      ensures failed && prefix != "" && w.meshUp(old(ticks)) ==> Mine(co.leases, actor) == old(Mine(co.leases, actor))
      ensures old(Mine(co.leases, actor)) <= Mine(co.leases, actor)
      ensures ticks == old(ticks) + 2
      ensures prefix != "" && w.meshUp(old(ticks)) ==>
                && (failed <==> CannotClaim(co.Cfg(), old(co.leases), actor, prefix, w.clock(old(ticks))))
                && (failed ==> co.leases == old(co.leases))
    {
      var p, s := w.clock(ticks), w.clock(ticks + 1);
      ghost var cur, out := co.leases, Done;
      failed, out := TryClaim(co, actor, prefix, p, s, w.meshUp(ticks));
      ticks := ticks + 2;
      ClaimChangesMine(co.Cfg(), prefix, actor, p, s, cur, co.leases, out);
      RefusedIffCannotClaim(co.Cfg(), actor, prefix, p, s, cur, co.leases, out);
      CallKeepsYoung(co.Cfg(), Acquire(Key(co.Cfg(), prefix), prefix, actor), prefix, p, s, cur, co.leases, out, w.clock(0));
    }

    /** The view showed one of the first `n` prefixes as free when the sweep came to it. */
    predicate SomeFree(free: nat -> bool, n: nat) {
      exists i: nat :: i < n && i < |prefixes| && free(i)
    }

    /** The prefix stands in the list where the view showed it as free. */
    predicate FreeAt(free: nat -> bool, prefix: string) {
      exists i: nat :: i < |prefixes| && prefixes[i] == prefix && free(i)
    }

    /** Where the view shows one of the first `n` prefixes as free, it cannot be claimed when the sweep comes to it. */
    ghost predicate InVain(w: Weather, free: nat -> bool, table: Table, ticks: nat, n: nat) {
      forall i: nat :: i < n && i < |prefixes| && free(i) ==>
                         CannotClaim(co.Cfg(), table, actor, prefixes[i], SweepReading(w, free, ticks, i))
    }

    lemma InVainOneMore(w: Weather, free: nat -> bool, table: Table, ticks: nat, i: nat)
      requires InVain(w, free, table, ticks, i) && i < |prefixes|
      requires free(i) ==> CannotClaim(co.Cfg(), table, actor, prefixes[i], SweepReading(w, free, ticks, i))
      ensures InVain(w, free, table, ticks, i + 1)
    {
    }

    /** The prefix is the first free one that can be claimed when the sweep comes to it. */
    ghost predicate FirstToClaim(w: Weather, free: nat -> bool, table: Table, ticks: nat, prefix: string) {
      exists i: nat :: && i < |prefixes| && prefixes[i] == prefix && free(i) && InVain(w, free, table, ticks, i)
                       && !CannotClaim(co.Cfg(), table, actor, prefix, SweepReading(w, free, ticks, i))
    }

    /**
      One sweep over the prefixes; `free(i)` is what the view shows when the sweep comes to the
      i-th. `failed` is whether any of them was tried in vain. With all rumours broadcast the
      sweep claims the first free prefix that can be claimed, and nothing only if there is none.
     */
    method TryConfiguredOnce(w: Weather, free: nat -> bool) returns (claimed: Option<string>, failed: bool)
      requires Running(w)
      modifies `ticks, co
      ensures Running(w)
      ensures claimed.Some? ==> FreeAt(free, claimed.value) && Key(co.Cfg(), claimed.value) in Mine(co.leases, actor)
      ensures claimed.None? ==> (failed <==> SomeFree(free, |prefixes|))
      ensures AllSent(w, prefixes) ==>
                if claimed.None? then co.leases == old(co.leases) && InVain(w, free, old(co.leases), old(ticks), |prefixes|)
                else FirstToClaim(w, free, old(co.leases), old(ticks), claimed.value)
      ensures AllSent(w, prefixes) ==>
                Mine(co.leases, actor) == old(Mine(co.leases, actor)) + if claimed.Some? then {Key(co.Cfg(), claimed.value)} else {}
    {
      failed := false;
      for i := 0 to |prefixes|
        invariant Running(w) && (failed <==> SomeFree(free, i))
        invariant ticks == old(ticks) + 2 * Tried(free, i)
        invariant AllSent(w, prefixes) ==> co.leases == old(co.leases) && InVain(w, free, old(co.leases), old(ticks), i)
      {
        if !free(i) {
          continue;
        }
        failed := ClaimOne(w, prefixes[i]);
        if !failed {
          assert AllSent(w, prefixes) ==> FirstToClaim(w, free, old(co.leases), old(ticks), prefixes[i]);
          return Some(prefixes[i]), false;
        }
        if AllSent(w, prefixes) {
          InVainOneMore(w, free, old(co.leases), old(ticks), i);
        }
      }
      claimed := None;
    }

    /** The wait after a failed sweep: others make their calls, and the context may be canceled. */
    method Wait(w: Weather, moves: seq<Move>, canceled: bool) returns (failed: bool)
      requires Running(w) && forall m <- moves :: m.actor != actor && m.p <= w.clock(0) + co.idleTTL
      modifies co
      ensures Running(w) && Mine(co.leases, actor) == old(Mine(co.leases, actor)) && failed == canceled
    {
      MakeMoves(co, actor, w.clock(0), moves);
      failed := canceled;
    }

    /**
      Sweeps until a claim takes effect, no prefix is free, the attempts are used up or the
      wait is canceled. What others do in between takes nothing away: with all rumours
      broadcast the actor ends with the claimed key more than before, or with what it had.
     */
    method TryClaimConfigured(w: Weather, attempts: nat, free: (nat, nat) -> bool, moves: nat -> seq<Move>, canceled: nat -> bool)
      returns (claimed: Option<string>, sweeps: nat)
      requires Running(w) && attempts > 0
      requires forall k :: forall m <- moves(k) :: m.actor != actor && m.p <= w.clock(0) + co.idleTTL
      modifies `ticks, co
      ensures Running(w) && 0 < sweeps <= attempts
      ensures claimed.Some? ==> FreeAt((i: nat) => free(sweeps, i), claimed.value) && Key(co.Cfg(), claimed.value) in Mine(co.leases, actor)
      ensures claimed.None? ==> sweeps == attempts || canceled(sweeps) || !SomeFree((i: nat) => free(sweeps, i), |prefixes|)
      ensures AllSent(w, prefixes) ==>
                Mine(co.leases, actor) == old(Mine(co.leases, actor)) + if claimed.Some? then {Key(co.Cfg(), claimed.value)} else {}
    {
      claimed, sweeps := None, 0;
      while sweeps < attempts
        invariant Running(w) && sweeps <= attempts && claimed.None?
        invariant AllSent(w, prefixes) ==> Mine(co.leases, actor) == old(Mine(co.leases, actor))
      {
        sweeps := sweeps + 1;
        var failed;
        claimed, failed := TryConfiguredOnce(w, (i: nat) => free(sweeps, i));
        if claimed.Some? || !failed || sweeps == attempts {
          return;
        }
        var stopped := Wait(w, moves(sweeps), canceled(sweeps));
        if stopped {
          return;
        }
      }
    }
  }
}
