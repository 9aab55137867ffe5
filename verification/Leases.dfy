/**
  The lease table and what one attempt of each coordinator operation may do to it.

  An attempt reads the clock twice: once to purge idle leases and once to stamp the
  lease it renews. Go's map iteration order is arbitrary, so an attempt is a relation
  rather than a function: any conflicting lease may be reported, and any covering lease
  of the writer may be the one that is renewed.
 */
module Leases {
  import opened KeySpaces

  datatype Lease = Lease(actor: string, prefix: string, lastUsed: int)

  type Table = map<string, Lease>

  datatype Config = Config(keys: KeySpace, idleTTL: int)

  datatype Refusal =
    | MissingActor
    | MissingTime
    | BadKey(reason: string)
    | Conflict(key: string, leaseKey: string, actor: string)
    | NotLeased(prefix: string)
    | HeldBy(prefix: string, actor: string)
    | ReadOnly(actor: string)
    | OutsidePrefixes(actor: string)
    | LacksLease(actor: string, key: string)
    | Changing(key: string, leaseKey: string, actor: string)

  datatype Outcome = Done | Refused(refusal: Refusal)

  /**
    The closures handed to the copy-on-write update. `key` is normalized; `prefix` and
    `name` are the caller's spelling. `Renew` is what a write does that needs no lease.
   */
  datatype Op =
    | Acquire(key: string, prefix: string, actor: string)
    | Release(key: string, prefix: string, actor: string)
    | Touch(key: string, prefix: string, actor: string)
    | Observe(key: string, name: string, actor: string)
    | Write(key: string, name: string, actor: string)
    | Renew(key: string, actor: string)
    | Sweep

  predicate Expired(c: Config, lease: Lease, now: int) {
    now - lease.lastUsed > c.idleTTL
  }

  function Purge(c: Config, table: Table, now: int): Table {
    map k | k in table && !Expired(c, table[k], now) :: table[k]
  }

  predicate Overlaps(c: Config, a: string, b: string) {
    c.keys.covers(a, b) || c.keys.covers(b, a)
  }

  /** `held` is a lease of somebody else that overlaps `key`. */
  predicate Rival(c: Config, table: Table, held: string, key: string, actor: string) {
    held in table && table[held].actor != actor && Overlaps(c, held, key)
  }

  /** `held` is a lease of `actor` that covers `key`. */
  predicate Covering(c: Config, table: Table, held: string, key: string, actor: string) {
    held in table && table[held].actor == actor && c.keys.covers(held, key)
  }

  /** `held` is a longest lease covering `key`. An empty lease key is never reported. */
  ghost predicate Longest(c: Config, table: Table, held: string, key: string) {
    && held in table && held != "" && c.keys.covers(held, key)
    && forall k <- table :: c.keys.covers(k, key) ==> |k| <= |held|
  }

  function Stamp(table: Table, key: string, now: int): Table
    requires key in table
  {
    table[key := table[key].(lastUsed := now)]
  }

  /** What one attempt of `op` does, purging at reading `p` and stamping at reading `s`. */
  ghost predicate Attempt(c: Config, op: Op, p: int, s: int, cur: Table, next: Table, out: Outcome) {
    var live := Purge(c, cur, p);
    match op
    case Acquire(key, prefix, actor) =>
      if exists held :: Rival(c, live, held, key, actor) then
        next == cur && exists held :: Rival(c, live, held, key, actor)
                                      && out == Refused(Conflict(prefix, held, live[held].actor))
      else
        next == live[key := Lease(actor, prefix, s)] && out == Done
    case Release(key, prefix, actor) =>
      if key !in live then next == cur && out == Refused(NotLeased(prefix))
      else if live[key].actor != actor then next == cur && out == Refused(HeldBy(prefix, live[key].actor))
      else next == live - {key} && out == Done
    case Touch(key, prefix, actor) =>
      if key !in live then next == cur && out == Refused(NotLeased(prefix))
      else if live[key].actor != actor then next == cur && out == Refused(HeldBy(prefix, live[key].actor))
      else next == Stamp(live, key, s) && out == Done
    case Observe(key, name, actor) =>
      && next == live
      && (out == Done || exists held :: Longest(c, live, held, key) && live[held].actor != ""
                                        && live[held].actor != actor
                                        && out == Refused(Changing(name, held, live[held].actor)))
      && (out == Done ==> (forall held :: held != "" ==> !(held in live && c.keys.covers(held, key)))
                          || exists held :: Longest(c, live, held, key) && live[held].actor in {"", actor})
    case Write(key, name, actor) =>
      if exists held :: Covering(c, live, held, key, actor) then
        out == Done && exists held :: Covering(c, live, held, key, actor) && next == Stamp(live, held, s)
      else
        next == cur && out == Refused(LacksLease(actor, name))
    case Renew(key, actor) =>
      && out == Done
      && if exists held :: Covering(c, live, held, key, actor) then
           exists held :: Covering(c, live, held, key, actor) && next == Stamp(live, held, s)
         else next == cur
    case Sweep =>
      next == live && out == Done
  }

  /** No two actors hold leases one of which covers the other. */
  ghost predicate Exclusive(c: Config, table: Table) {
    forall a, b :: a in table && b in table && table[a].actor != table[b].actor ==> !c.keys.covers(a, b)
  }

  /** Exclusion is kept by every attempt, whichever iteration order Go picks and whatever the clock reads. */
  lemma AttemptKeepsExclusive(c: Config, op: Op, p: int, s: int, cur: Table, next: Table, out: Outcome)
    requires Attempt(c, op, p, s, cur, next, out) && Exclusive(c, cur)
    ensures Exclusive(c, next)
  {
    var live := Purge(c, cur, p);
    if op.Acquire? && out.Done? {
      forall a, b | a in next && b in next && next[a].actor != next[b].actor ensures !c.keys.covers(a, b) {
        if a == op.key {
          assert !Rival(c, live, b, op.key, op.actor);
        } else if b == op.key {
          assert !Rival(c, live, a, op.key, op.actor);
        }
      }
    }
  }

  /** All leases that cover one key belong to one actor, so the holder a read reports does not depend on map order. */
  lemma CoveringLeasesShareActor(c: Config, table: Table, a: string, b: string, key: string)
    requires c.keys.Lawful() && Exclusive(c, table)
    requires a in table && b in table && c.keys.covers(a, key) && c.keys.covers(b, key)
    ensures table[a].actor == table[b].actor
  {
    assert c.keys.covers(a, b) || c.keys.covers(b, a);
  }

  // ----- Runs of committed attempts -----

  /** One committed attempt: its clock readings, the caller's answer and the table it published. */
  datatype Entry = Entry(op: Op, p: int, s: int, out: Outcome, next: Table)

  // ----- What each operation comes to, key by key -----

  /** The lease on the key has been idle for no longer than the TTL. */
  predicate Live(c: Config, table: Table, k: string, p: int) {
    k in table && p - table[k].lastUsed <= c.idleTTL
  }

  /** Whatever the keys in `but` come to, the other live leases stay as they are and the idle ones go. */
  ghost predicate LiveStay(c: Config, e: Entry, cur: Table, but: set<string>) {
    forall k :: k !in but ==> (k in e.next <==> Live(c, cur, k, e.p)) && (k in e.next ==> e.next[k] == cur[k])
  }

  /**
    An acquire succeeds exactly when every overlapping lease of somebody else has been idle
    for longer than the TTL; then the actor holds the key. Otherwise nothing changes and the
    answer names one of those leases.
   */
  lemma AcquireComesTo(c: Config, e: Entry, cur: Table)
    requires Attempt(c, e.op, e.p, e.s, cur, e.next, e.out) && e.op.Acquire?
    ensures e.out.Done? <==>
              forall k <- cur :: cur[k].actor != e.op.actor && (c.keys.covers(k, e.op.key) || c.keys.covers(e.op.key, k)) ==>
                                   e.p - cur[k].lastUsed > c.idleTTL
    ensures e.out.Done? ==> LiveStay(c, e, cur, {e.op.key})
    ensures e.out.Done? ==> e.op.key in e.next && e.next[e.op.key] == Lease(e.op.actor, e.op.prefix, e.s)
    ensures e.out.Refused? ==> e.next == cur
    ensures e.out.Refused? ==>
              exists k <- cur :: && cur[k].actor != e.op.actor && (c.keys.covers(k, e.op.key) || c.keys.covers(e.op.key, k))
                                 && e.p - cur[k].lastUsed <= c.idleTTL && e.out.refusal == Conflict(e.op.prefix, k, cur[k].actor)
  {
    var live := Purge(c, cur, e.p);
    if e.out.Done? {
      forall k | k in cur && cur[k].actor != e.op.actor && (c.keys.covers(k, e.op.key) || c.keys.covers(e.op.key, k))
        ensures e.p - cur[k].lastUsed > c.idleTTL
      {
        assert !Rival(c, live, k, e.op.key, e.op.actor);
      }
    } else {
      var k :| Rival(c, live, k, e.op.key, e.op.actor) && e.out == Refused(Conflict(e.op.prefix, k, live[k].actor));
      assert k in cur;
    }
  }

  /** A release takes away the actor's own live lease and nothing else that is alive, or nothing at all. */
  lemma ReleaseComesTo(c: Config, e: Entry, cur: Table)
    requires Attempt(c, e.op, e.p, e.s, cur, e.next, e.out) && e.op.Release?
    ensures e.out.Done? <==> Live(c, cur, e.op.key, e.p) && cur[e.op.key].actor == e.op.actor
    ensures e.out.Done? ==> e.op.key !in e.next && LiveStay(c, e, cur, {e.op.key})
    ensures e.out.Refused? ==>
              && e.next == cur
              && e.out.refusal == if Live(c, cur, e.op.key, e.p) then HeldBy(e.op.prefix, cur[e.op.key].actor) else NotLeased(e.op.prefix)
  {
  }

  /** A touch stamps the actor's own live lease and nothing else, or changes nothing. */
  lemma TouchComesTo(c: Config, e: Entry, cur: Table)
    requires Attempt(c, e.op, e.p, e.s, cur, e.next, e.out) && e.op.Touch?
    ensures e.out.Done? <==> Live(c, cur, e.op.key, e.p) && cur[e.op.key].actor == e.op.actor
    ensures e.out.Done? ==> e.op.key in e.next && LiveStay(c, e, cur, {e.op.key})
                            && e.next[e.op.key] == Lease(e.op.actor, cur[e.op.key].prefix, e.s)
    ensures e.out.Refused? ==>
              && e.next == cur
              && e.out.refusal == if Live(c, cur, e.op.key, e.p) then HeldBy(e.op.prefix, cur[e.op.key].actor) else NotLeased(e.op.prefix)
  {
  }

  /**
    A read removes what is idle. Under exclusion it is refused exactly when a live lease of
    somebody else covers the key; leases under the empty key or of the empty actor are passed over.
   */
  lemma ObserveComesTo(c: Config, e: Entry, cur: Table)
    requires c.keys.Lawful() && Exclusive(c, cur)
    requires Attempt(c, e.op, e.p, e.s, cur, e.next, e.out) && e.op.Observe?
    ensures LiveStay(c, e, cur, {})
    ensures e.out.Refused? <==>
              exists k <- cur :: k != "" && Live(c, cur, k, e.p) && c.keys.covers(k, e.op.key) && cur[k].actor !in {"", e.op.actor}
    ensures e.out.Refused? ==>
              exists k <- cur :: && Live(c, cur, k, e.p) && c.keys.covers(k, e.op.key)
                                 && e.out.refusal == Changing(e.op.name, k, cur[k].actor)
                                 && forall l <- cur :: Live(c, cur, l, e.p) && c.keys.covers(l, e.op.key) ==> |l| <= |k|
  {
    var live := Purge(c, cur, e.p);
    assert e.next == live;
    if k :| k in live && k != "" && c.keys.covers(k, e.op.key) && live[k].actor !in {"", e.op.actor} {
      if e.out.Done? {
        var held :| Longest(c, live, held, e.op.key) && live[held].actor in {"", e.op.actor};
        CoveringLeasesShareActor(c, cur, k, held, e.op.key);
        assert false;
      }
    }
    if e.out.Refused? {
      var k :| Longest(c, live, k, e.op.key) && live[k].actor != "" && live[k].actor != e.op.actor
               && e.out == Refused(Changing(e.op.name, k, live[k].actor));
      assert k in cur && Live(c, cur, k, e.p);
      forall l | l in cur && Live(c, cur, l, e.p) && c.keys.covers(l, e.op.key) ensures |l| <= |k| {
        assert l in live;
      }
    }
  }

  /** The actor has a live lease that covers the key. */
  ghost predicate OwnsLive(c: Config, cur: Table, p: int, key: string, actor: string) {
    exists k <- cur :: Live(c, cur, k, p) && cur[k].actor == actor && c.keys.covers(k, key)
  }

  /** One live lease of the writer that covers the key gets the stamp; the other live leases stay as they are. */
  ghost predicate StampsOne(c: Config, e: Entry, cur: Table, held: string)
    requires e.op.Write? || e.op.Renew?
  {
    && Live(c, cur, held, e.p) && cur[held].actor == e.op.actor && c.keys.covers(held, e.op.key)
    && held in e.next && e.next[held] == Lease(e.op.actor, cur[held].prefix, e.s) && LiveStay(c, e, cur, {held})
  }

  /** A write that needs a lease goes through exactly when the writer has a live one, which it stamps. */
  lemma WriteComesTo(c: Config, e: Entry, cur: Table)
    requires Attempt(c, e.op, e.p, e.s, cur, e.next, e.out) && e.op.Write?
    ensures e.out.Done? <==> OwnsLive(c, cur, e.p, e.op.key, e.op.actor)
    ensures e.out.Done? ==> exists held :: StampsOne(c, e, cur, held)
    ensures e.out.Refused? ==> e.next == cur && e.out.refusal == LacksLease(e.op.actor, e.op.name)
  {
    var live := Purge(c, cur, e.p);
    if e.out.Done? {
      var held :| Covering(c, live, held, e.op.key, e.op.actor) && e.next == Stamp(live, held, e.s);
      assert held in cur && StampsOne(c, e, cur, held);
    } else if OwnsLive(c, cur, e.p, e.op.key, e.op.actor) {
      var k :| k in cur && Live(c, cur, k, e.p) && cur[k].actor == e.op.actor && c.keys.covers(k, e.op.key);
      assert Covering(c, live, k, e.op.key, e.op.actor);
    }
  }

  /** A write that needs no lease always goes through, and stamps a live lease of the writer if there is one. */
  lemma RenewComesTo(c: Config, e: Entry, cur: Table)
    requires Attempt(c, e.op, e.p, e.s, cur, e.next, e.out) && e.op.Renew?
    ensures e.out.Done?
    ensures if OwnsLive(c, cur, e.p, e.op.key, e.op.actor) then exists held :: StampsOne(c, e, cur, held) else e.next == cur
  {
    var live := Purge(c, cur, e.p);
    if OwnsLive(c, cur, e.p, e.op.key, e.op.actor) {
      var k :| k in cur && Live(c, cur, k, e.p) && cur[k].actor == e.op.actor && c.keys.covers(k, e.op.key);
      assert Covering(c, live, k, e.op.key, e.op.actor);
      var held :| Covering(c, live, held, e.op.key, e.op.actor) && e.next == Stamp(live, held, e.s);
      assert StampsOne(c, e, cur, held);
    } else {
      forall k ensures !Covering(c, live, k, e.op.key, e.op.actor) {
        assert k in live ==> k in cur && Live(c, cur, k, e.p);
      }
    }
  }

  /** A sweep removes what is idle and nothing else. */
  lemma SweepComesTo(c: Config, e: Entry, cur: Table)
    requires Attempt(c, e.op, e.p, e.s, cur, e.next, e.out) && e.op.Sweep?
    ensures e.out.Done? && LiveStay(c, e, cur, {})
  {
  }

  // ----- Tables along a run -----

  function TableAt(init: Table, log: seq<Entry>, i: nat): Table
    requires i <= |log|
  {
    if i == 0 then init else log[i - 1].next
  }

  /**
    Committed attempts in order. Stamps follow one clock that does not go back; an attempt
    never purges with a reading from the future (a sweep may use an old one).
   */
  ghost predicate Run(c: Config, init: Table, log: seq<Entry>) {
    && (forall i :: 0 <= i < |log| ==> Follows(c, init, log, i))
    && (forall i, j :: 0 <= i < j < |log| ==> log[i].s <= log[j].s)
  }

  ghost predicate Follows(c: Config, init: Table, log: seq<Entry>, i: nat)
    requires i < |log|
  {
    var e := log[i];
    e.p <= e.s && Attempt(c, e.op, e.p, e.s, TableAt(init, log, i), e.next, e.out)
  }

  lemma {:induction false} RunKeepsExclusive(c: Config, init: Table, log: seq<Entry>, i: nat)
    requires Run(c, init, log) && Exclusive(c, init) && i <= |log|
    ensures Exclusive(c, TableAt(init, log, i))
  {
    if i > 0 {
      RunKeepsExclusive(c, init, log, i - 1);
      assert Follows(c, init, log, i - 1);
      var e := log[i - 1];
      AttemptKeepsExclusive(c, e.op, e.p, e.s, TableAt(init, log, i - 1), e.next, e.out);
    }
  }

  /** `actor` holds `key`, stamped no earlier than `since`. */
  predicate Held(table: Table, key: string, actor: string, since: int) {
    key in table && table[key].actor == actor && table[key].lastUsed >= since
  }

  predicate Drops(e: Entry, key: string, actor: string) {
    e.op.Release? && e.op.key == key && e.op.actor == actor && e.out.Done?
  }

  /** Only its holder's release takes a lease away before it has idled for the whole TTL. */
  lemma AttemptKeepsHeld(c: Config, e: Entry, cur: Table, key: string, actor: string, since: int)
    requires c.keys.Lawful()
    requires Attempt(c, e.op, e.p, e.s, cur, e.next, e.out)
    requires Held(cur, key, actor, since) && since <= e.s && e.p <= since + c.idleTTL
    requires !Drops(e, key, actor)
    ensures Held(e.next, key, actor, since)
  {
    var live := Purge(c, cur, e.p);
    assert Held(live, key, actor, since);
    if e.op.Acquire? && e.op.key == key && e.op.actor != actor {
      assert Rival(c, live, key, key, e.op.actor);
    }
  }

  lemma {:induction false} RunKeepsHeld(c: Config, init: Table, log: seq<Entry>, i: nat, j: nat, key: string, actor: string, since: int)
    requires c.keys.Lawful() && Run(c, init, log)
    requires i <= j <= |log| && Held(TableAt(init, log, i), key, actor, since)
    requires forall k :: i <= k < j ==> since <= log[k].s && log[k].p <= since + c.idleTTL && !Drops(log[k], key, actor)
    ensures Held(TableAt(init, log, j), key, actor, since)
  {
    if i < j {
      RunKeepsHeld(c, init, log, i, j - 1, key, actor, since);
      assert Follows(c, init, log, j - 1);
      AttemptKeepsHeld(c, log[j - 1], TableAt(init, log, j - 1), key, actor, since);
    }
  }

  /**
    A write by an actor that has a live lease on the key, whether it needs the lease or not.
    A write that needs one goes through in no other way: see `WriteComesTo`.
   */
  ghost predicate Writes(c: Config, e: Entry, cur: Table) {
    (e.op.Write? || e.op.Renew?) && OwnsLive(c, cur, e.p, e.op.key, e.op.actor)
  }

  /** The write stamps one of its leases, which then is as good as new. */
  lemma WriteStampsCovering(c: Config, e: Entry, cur: Table) returns (held: string)
    requires Attempt(c, e.op, e.p, e.s, cur, e.next, e.out) && Writes(c, e, cur)
    ensures e.out.Done? && c.keys.covers(held, e.op.key) && Held(e.next, held, e.op.actor, e.s)
    ensures Live(c, cur, held, e.p) && cur[held].actor == e.op.actor
  {
    if e.op.Write? {
      WriteComesTo(c, e, cur);
    } else {
      RenewComesTo(c, e, cur);
    }
    held :| StampsOne(c, e, cur, held);
  }

  /** A write keeps its lease for a whole TTL, unless the writer lets go of it. */
  lemma WriterKeepsLease(c: Config, init: Table, log: seq<Entry>, i: nat, j: nat) returns (held: string)
    requires c.keys.Lawful() && Run(c, init, log) && i < j <= |log| && Writes(c, log[i], TableAt(init, log, i))
    requires forall k :: i < k < j ==> log[k].p <= log[i].s + c.idleTTL && !DropsCovering(c, log[k], log[i].op.key, log[i].op.actor)
    ensures c.keys.covers(held, log[i].op.key) && Held(TableAt(init, log, j), held, log[i].op.actor, log[i].s)
  {
    assert Follows(c, init, log, i);
    held := WriteStampsCovering(c, log[i], TableAt(init, log, i));
    forall k | i + 1 <= k < j
      ensures log[i].s <= log[k].s && log[k].p <= log[i].s + c.idleTTL && !Drops(log[k], held, log[i].op.actor)
    {
    }
    RunKeepsHeld(c, init, log, i + 1, j, held, log[i].op.actor, log[i].s);
  }

  predicate DropsCovering(c: Config, e: Entry, key: string, actor: string) {
    e.op.Release? && Drops(e, e.op.key, actor) && c.keys.covers(e.op.key, key)
  }

  ghost predicate DroppedBetween(c: Config, log: seq<Entry>, i: nat, j: nat, key: string, actor: string)
    requires j <= |log|
  {
    exists k :: i < k < j && DropsCovering(c, log[k], key, actor)
  }

  /**
    Two actors write one key under leases within the idle TTL only if the first one let go in
    between: it released a lease that covers the key.
   */
  lemma WritersHandOver(c: Config, init: Table, log: seq<Entry>, i: nat, j: nat)
    requires c.keys.Lawful() && Run(c, init, log) && Exclusive(c, init) && i < j < |log|
    requires Writes(c, log[i], TableAt(init, log, i)) && Writes(c, log[j], TableAt(init, log, j))
    requires log[i].op.key == log[j].op.key && log[i].op.actor != log[j].op.actor
    requires log[j].s <= log[i].s + c.idleTTL
    ensures DroppedBetween(c, log, i, j, log[i].op.key, log[i].op.actor)
  {
    var key, first := log[i].op.key, log[i].op.actor;
    if !DroppedBetween(c, log, i, j, key, first) {
      forall k | i < k < j ensures log[k].p <= log[i].s + c.idleTTL && !DropsCovering(c, log[k], key, first) {
        assert Follows(c, init, log, k);
      }
      var held := WriterKeepsLease(c, init, log, i, j);
      assert Follows(c, init, log, j);
      var other := WriteStampsCovering(c, log[j], TableAt(init, log, j));
      RunKeepsExclusive(c, init, log, j);
      CoveringLeasesShareActor(c, TableAt(init, log, j), held, other, key);
    }
  }

  // ----- Heartbeats -----

  /** An operation that stamps `key` for `actor` when it succeeds. */
  predicate Renews(op: Op, key: string, actor: string) {
    (op.Acquire? || op.Touch?) && op.key == key && op.actor == actor
  }

  /**
    From entry `i` on, every reading up to entry `j` falls within the TTL of an earlier
    renewal attempt of the holder. That the attempts succeed is not assumed.
   */
  ghost predicate HeartbeatsFrom(c: Config, log: seq<Entry>, i: nat, j: nat, key: string, actor: string)
    requires i < j <= |log|
  {
    forall k :: i < k < j ==> InTime(c, log, i, k, key, actor)
  }

  ghost predicate InTime(c: Config, log: seq<Entry>, i: nat, k: nat, key: string, actor: string)
    requires i < k < |log|
  {
    exists r :: i <= r < k && Renews(log[r].op, key, actor) && log[k].p <= log[r].s + c.idleTTL
  }

  /** The next entry of a run, as seen by the holder of a live lease: the lease survives and a renewal goes through. */
  lemma BeatSurvives(c: Config, init: Table, log: seq<Entry>, k: nat, key: string, actor: string, beat: int)
    requires c.keys.Lawful() && Run(c, init, log) && Exclusive(c, init) && k < |log|
    requires Held(TableAt(init, log, k), key, actor, beat)
    requires beat <= log[k].s && log[k].p <= beat + c.idleTTL && !Drops(log[k], key, actor)
    ensures Held(log[k].next, key, actor, beat)
    ensures Renews(log[k].op, key, actor) ==> log[k].out.Done? && Held(log[k].next, key, actor, log[k].s)
    ensures log[k].op.Acquire? && log[k].op.actor != actor && Overlaps(c, key, log[k].op.key) ==>
              log[k].out.Refused? && log[k].out.refusal.Conflict? && log[k].next == TableAt(init, log, k)
  {
    var e, cur := log[k], TableAt(init, log, k);
    assert Follows(c, init, log, k);
    RunKeepsExclusive(c, init, log, k);
    AttemptKeepsHeld(c, e, cur, key, actor, beat);
    var live := Purge(c, cur, e.p);
    assert Held(live, key, actor, beat);
    if e.op.Acquire? && e.op.actor != actor && Overlaps(c, key, e.op.key) {
      assert Rival(c, live, key, e.op.key, e.op.actor);
    }
    if e.op.Acquire? && Renews(e.op, key, actor) {
      forall held ensures !Rival(c, live, held, key, actor) {
        if held in live && live[held].actor != actor {
          assert !c.keys.covers(held, key) && !c.keys.covers(key, held);
        }
      }
    }
  }

  /** Every renewal from entry `i` up to entry `j` has gone through and its stamp has not been lost. */
  ghost predicate KeptAlive(init: Table, log: seq<Entry>, i: nat, j: nat, key: string, actor: string)
    requires i < j <= |log|
  {
    forall r :: i <= r < j && Renews(log[r].op, key, actor) ==> log[r].out.Done? && Held(TableAt(init, log, j), key, actor, log[r].s)
  }

  lemma RenewalHolds(c: Config, init: Table, log: seq<Entry>, i: nat, key: string, actor: string)
    requires Run(c, init, log) && i < |log| && Renews(log[i].op, key, actor) && log[i].out.Done?
    ensures Held(log[i].next, key, actor, log[i].s)
  {
    assert Follows(c, init, log, i);
  }

  /** No renewal loses its stamp at entry `k`, whichever of them is the latest. */
  lemma StampSurvives(c: Config, init: Table, log: seq<Entry>, k: nat, r: nat, beat: nat, key: string, actor: string)
    requires c.keys.Lawful() && Run(c, init, log) && Exclusive(c, init) && r < k < |log| && beat < k
    requires Held(TableAt(init, log, k), key, actor, log[r].s) && Held(TableAt(init, log, k), key, actor, log[beat].s)
    requires log[k].p <= log[beat].s + c.idleTTL && !Drops(log[k], key, actor)
    ensures Held(log[k].next, key, actor, log[r].s)
  {
    BeatSurvives(c, init, log, k, key, actor, if log[r].s > log[beat].s then log[r].s else log[beat].s);
  }

  lemma {:induction false} HeartbeatKeepsLease(c: Config, init: Table, log: seq<Entry>, i: nat, j: nat, key: string, actor: string)
    requires c.keys.Lawful() && Run(c, init, log) && Exclusive(c, init) && i < j <= |log|
    requires Renews(log[i].op, key, actor) && log[i].out.Done?
    requires HeartbeatsFrom(c, log, i, j, key, actor)
    requires forall k :: i < k < j ==> !Drops(log[k], key, actor)
    ensures KeptAlive(init, log, i, j, key, actor)
  {
    if i + 1 == j {
      RenewalHolds(c, init, log, i, key, actor);
    } else {
      var k := j - 1;
      HeartbeatKeepsLease(c, init, log, i, k, key, actor);
      assert InTime(c, log, i, k, key, actor);
      var beat :| i <= beat < k && Renews(log[beat].op, key, actor) && log[k].p <= log[beat].s + c.idleTTL;
      BeatSurvives(c, init, log, k, key, actor, log[beat].s);
      forall r | i <= r < j && Renews(log[r].op, key, actor)
        ensures log[r].out.Done? && Held(log[k].next, key, actor, log[r].s)
      {
        if r < k {
          StampSurvives(c, init, log, k, r, beat, key, actor);
        }
      }
    }
  }

  /**
    While its holder keeps renewing, a lease is never lost: every renewal goes through
    and every other actor's overlapping acquire is answered with a conflict.
   */
  lemma HeartbeatExcludesOthers(c: Config, init: Table, log: seq<Entry>, i: nat, j: nat, key: string, actor: string)
    requires c.keys.Lawful() && Run(c, init, log) && Exclusive(c, init) && i < j < |log|
    requires Renews(log[i].op, key, actor) && log[i].out.Done?
    requires HeartbeatsFrom(c, log, i, j + 1, key, actor)
    requires forall k :: i < k <= j ==> !Drops(log[k], key, actor)
    ensures key in log[j].next && log[j].next[key].actor == actor
    ensures Renews(log[j].op, key, actor) ==> log[j].out.Done?
    ensures log[j].op.Acquire? && log[j].op.actor != actor && Overlaps(c, key, log[j].op.key) ==>
              log[j].out.Refused? && log[j].out.refusal.Conflict? && log[j].next == TableAt(init, log, j)
  {
    HeartbeatKeepsLease(c, init, log, i, j, key, actor);
    assert InTime(c, log, i, j, key, actor);
    var beat :| i <= beat < j && Renews(log[beat].op, key, actor) && log[j].p <= log[beat].s + c.idleTTL;
    BeatSurvives(c, init, log, j, key, actor, log[beat].s);
  }
}
