/**
  The in-process lease registry. Each method is one uncontended call: it clones the table,
  works on the clone with loops that visit the keys in arbitrary order, and publishes it.
  What the same operations do under contention is the subject of `LeaseThreads`.
 */
module Coordinators {
  import opened Wrappers
  import opened Text
  import opened KeySpaces
  import opened Leases
  import opened Sorting
  import Paths = PathKeySpace

  datatype Principal = Principal(actorID: string, readOnly: bool, allowedPrefixes: seq<string>, requireLease: bool)

  datatype ExpiredLease = ExpiredLease(actorID: string, prefix: string, lastUsed: int)

  predicate SweepOrder(a: ExpiredLease, b: ExpiredLease) {
    Less(a.prefix, b.prefix) || (a.prefix == b.prefix && AtMost(a.actorID, b.actorID))
  }

  lemma SweepOrderIsTotal()
    ensures TotalPreorder(SweepOrder)
  {
    forall a: ExpiredLease, b: ExpiredLease ensures SweepOrder(a, b) || SweepOrder(b, a) {
      AtMostIsOrder(a.prefix, b.prefix, b.prefix);
      AtMostIsOrder(a.actorID, b.actorID, b.actorID);
    }
    forall a: ExpiredLease, b: ExpiredLease, c: ExpiredLease | SweepOrder(a, b) && SweepOrder(b, c)
      ensures SweepOrder(a, c)
    {
      AtMostIsOrder(a.actorID, b.actorID, c.actorID);
      if Less(a.prefix, b.prefix) && Less(b.prefix, c.prefix) {
        LessTransitive(a.prefix, b.prefix, c.prefix);
      }
    }
  }

  function Report(lease: Lease): ExpiredLease {
    ExpiredLease(lease.actor, lease.prefix, lease.lastUsed)
  }

  /** Every key is the normal form of the spelling its lease was acquired under. */
  ghost predicate Spelled(keys: KeySpace, table: Table) {
    forall k <- table :: keys.normalize(table[k].prefix) == Ok(k)
  }

  /** The reports of the leases that are in `table` and no longer in `next`. */
  function Reclaimed(table: Table, next: Table): set<ExpiredLease> {
    set k | k in table && k !in next :: Report(table[k])
  }

  /** Two leases never report alike: a prefix belongs to one key. */
  lemma ReportsDiffer(keys: KeySpace, table: Table, a: string, b: string)
    requires Spelled(keys, table) && a in table && b in table
    requires SweepOrder(Report(table[a]), Report(table[b])) && SweepOrder(Report(table[b]), Report(table[a]))
    ensures a == b
  {
    if Less(table[a].prefix, table[b].prefix) {
      LessAsymmetric(table[a].prefix, table[b].prefix);
    }
    assert keys.normalize(table[a].prefix) == Ok(a) && keys.normalize(table[b].prefix) == Ok(b);
  }

  lemma OneMoreReclaimed(keys: KeySpace, table: Table, next: Table, k: string)
    requires Spelled(keys, table) && k in table && k in next && next[k] == table[k]
    ensures multiset(Reclaimed(table, next - {k})) == multiset(Reclaimed(table, next)) + multiset{Report(table[k])}
  {
    var gone := Reclaimed(table, next);
    assert Reclaimed(table, next - {k}) == gone + {Report(table[k])};
  }

  /** What a sweep returns does not depend on the order in which the map was visited. */
  lemma SweepAnswerIsUnique(keys: KeySpace, table: Table, next: Table, xs: seq<ExpiredLease>, ys: seq<ExpiredLease>)
    requires Spelled(keys, table)
    requires Sorted(xs, SweepOrder) && multiset(xs) == multiset(Reclaimed(table, next))
    requires Sorted(ys, SweepOrder) && multiset(ys) == multiset(Reclaimed(table, next))
    ensures xs == ys
  {
    forall a, b | a in multiset(xs) && b in multiset(xs) && SweepOrder(a, b) && SweepOrder(b, a) ensures a == b {
      var i :| i in table && i !in next && Report(table[i]) == a;
      var j :| j in table && j !in next && Report(table[j]) == b;
      ReportsDiffer(keys, table, i, j);
    }
    SortedIsUnique(xs, ys, SweepOrder);
  }

  /** All prefixes in use have clean edges, as those without white space do. */
  ghost predicate CleanlySpelled(table: Table) {
    forall k <- table :: Paths.EdgesAreClean(table[k].prefix)
  }

  lemma StoredKeyIsFixed(table: Table, k: string)
    requires Spelled(Paths.SPACE, table) && CleanlySpelled(table) && k in table
    ensures Paths.Normalize(k) == Ok(k)
  {
    Paths.NormalizeIdempotentIff(table[k].prefix);
    assert Paths.SPACE.normalize(table[k].prefix) == Ok(k);
  }

  /** Of the leases that cover a key only one is the longest. */
  lemma LongestIsUnique(c: Config, table: Table, a: string, b: string, key: string)
    requires c.keys == Paths.SPACE && Spelled(c.keys, table) && CleanlySpelled(table)
    requires Longest(c, table, a, key) && Longest(c, table, b, key)
    ensures a == b
  {
    StoredKeyIsFixed(table, a);
    StoredKeyIsFixed(table, b);
    var whole := Paths.Normalize(key);
    assert |a| <= |b| && |b| <= |a|;
    assert a <= whole.value && b <= whole.value;
    assert a == whole.value[..|a|] == b;
  }

  /** What a read answers and leaves behind does not depend on the order in which the map was visited. */
  lemma ReadIsDetermined(c: Config, op: Op, p: int, s: int, cur: Table, next: Table, out: Outcome, next': Table, out': Outcome)
    requires c.keys == Paths.SPACE && Spelled(c.keys, cur) && CleanlySpelled(cur) && op.Observe?
    requires Attempt(c, op, p, s, cur, next, out) && Attempt(c, op, p, s, cur, next', out')
    ensures next' == next && out' == out
  {
    var live := Purge(c, cur, p);
    forall a, b | Longest(c, live, a, op.key) && Longest(c, live, b, op.key) ensures a == b {
      LongestIsUnique(c, live, a, b, op.key);
    }
  }

  function Two(k: string, m: string, prefix: string): Table {
    map[k := Lease("x", prefix, 0), m := Lease("x", m, 0)]
  }

  /** Two leases of one actor whose keys are equally long and both cover the second one. */
  lemma EquallyLong(c: Config, k: string, m: string, prefix: string)
    requires c.keys.covers(k, m) && c.keys.covers(m, m) && k != m && |k| == |m| > 0 && c.idleTTL >= 0
    ensures Attempt(c, Acquire(k, prefix, "x"), 0, 0, map[], map[k := Lease("x", prefix, 0)], Done)
    ensures Attempt(c, Acquire(m, m, "x"), 0, 0, map[k := Lease("x", prefix, 0)], Two(k, m, prefix), Done)
    ensures Attempt(c, Observe(m, m, "y"), 0, 0, Two(k, m, prefix), Two(k, m, prefix), Refused(Changing(m, k, "x")))
    ensures Attempt(c, Observe(m, m, "y"), 0, 0, Two(k, m, prefix), Two(k, m, prefix), Refused(Changing(m, m, "x")))
  {
    var one, two := map[k := Lease("x", prefix, 0)], Two(k, m, prefix);
    assert Purge(c, one, 0) == one && Purge(c, two, 0) == two;
    assert Longest(c, two, k, m) && Longest(c, two, m, m);
  }

  /**
    With a spaced prefix in use the answer depends on map order: two acquires lead to a table
    in which a read of "ab" can be told of the lease on " a" or of the one on "ab".
   */
  lemma SpacedKeyTies(c: Config)
    requires c.keys == Paths.SPACE && c.idleTTL >= 0
    ensures Attempt(c, Acquire(" a", "./ a", "x"), 0, 0, map[], map[" a" := Lease("x", "./ a", 0)], Done)
    ensures Attempt(c, Acquire("ab", "ab", "x"), 0, 0, map[" a" := Lease("x", "./ a", 0)], Two(" a", "ab", "./ a"), Done)
    ensures var tied, read := Two(" a", "ab", "./ a"), Observe("ab", "ab", "y");
            && Spelled(c.keys, tied)
            && Attempt(c, read, 0, 0, tied, tied, Refused(Changing("ab", " a", "x")))
            && Attempt(c, read, 0, 0, tied, tied, Refused(Changing("ab", "ab", "x")))
            && " a" != "ab"
  {
    Paths.NormalizeNotIdempotent();
    Paths.NormalizeOfPlain();
    assert "a" == "ab"[..1] && " a"[0] != "ab"[0];
    EquallyLong(c, " a", "ab", "./ a");
  }

  /** The key that a prefix is leased under. */
  function Key(c: Config, prefix: string): string {
    var r := c.keys.normalize(prefix);
    if r.Ok? then r.value else prefix
  }

  /** An acquire, touch or release by a participant, with the checks that come before the table is touched. */
  ghost predicate Call(c: Config, op: Op, prefix: string, p: int, s: int, cur: Table, next: Table, out: Outcome)
    requires op.Acquire? || op.Touch? || op.Release?
  {
    if op.actor == "" then next == cur && out == Refused(MissingActor)
    else if c.keys.normalize(prefix).Err? then next == cur && out == Refused(BadKey(c.keys.normalize(prefix).error))
    else Attempt(c, op, p, s, cur, next, out)
  }

  class Coordinator {
    const keys: KeySpace
    const idleTTL: int
    var leases: map<string, Lease>

    constructor (keys: KeySpace, idleTTL: int)
      requires idleTTL > 0
      ensures this.keys == keys && this.idleTTL == idleTTL && leases == map[]
    {
      this.keys, this.idleTTL, leases := keys, idleTTL, map[];
    }

    function Cfg(): Config {
      Config(keys, idleTTL)
    }

    /** What a call that gets past its argument checks does to the table. */
    twostate predicate Commits(op: Op, purgeNow: int, stampNow: int, out: Outcome)
      reads this
    {
      && Attempt(Cfg(), op, purgeNow, stampNow, old(leases), leases, out)
      && (Exclusive(Cfg(), old(leases)) ==> Exclusive(Cfg(), leases))
      && (Spelled(keys, old(leases)) && (op.Acquire? ==> keys.normalize(op.prefix) == Ok(op.key)) ==> Spelled(keys, leases))
    }

    method PurgeExpired(table: Table, now: int) returns (live: Table)
      ensures live == Purge(Cfg(), table, now)
    {
      live := table;
      var todo := table.Keys;
      while todo != {}
        invariant todo <= table.Keys
        invariant forall k :: k in live <==> k in table && (k in todo || !Expired(Cfg(), table[k], now))
        invariant forall k <- live :: live[k] == table[k]
        decreases todo
      {
        var k :| k in todo;
        todo := todo - {k};
        if now - table[k].lastUsed > idleTTL {
          live := live - {k};
        }
      }
    }

    method OverlappingLease(table: Table, key: string, actorID: string) returns (held: Option<string>)
      ensures held.Some? ==> Rival(Cfg(), table, held.value, key, actorID)
      ensures held.None? ==> forall h :: !Rival(Cfg(), table, h, key, actorID)
    {
      var todo := table.Keys;
      while todo != {}
        invariant todo <= table.Keys
        invariant forall h :: h in table && h !in todo ==> !Rival(Cfg(), table, h, key, actorID)
        decreases todo
      {
        var h :| h in todo;
        todo := todo - {h};
        if table[h].actor != actorID && (keys.covers(h, key) || keys.covers(key, h)) {
          return Some(h);
        }
      }
      return None;
    }

    method CoveringLease(table: Table, key: string, actorID: string) returns (held: Option<string>)
      ensures held.Some? ==> Covering(Cfg(), table, held.value, key, actorID)
      ensures held.None? ==> forall h :: !Covering(Cfg(), table, h, key, actorID)
    {
      var todo := table.Keys;
      while todo != {}
        invariant todo <= table.Keys
        invariant forall h :: h in table && h !in todo ==> !Covering(Cfg(), table, h, key, actorID)
        decreases todo
      {
        var h :| h in todo;
        todo := todo - {h};
        if keys.covers(h, key) && table[h].actor == actorID {
          return Some(h);
        }
      }
      return None;
    }

    method LeaseHolder(table: Table, key: string) returns (best: string, holder: string)
      ensures best != "" ==> Longest(Cfg(), table, best, key) && holder == table[best].actor
      ensures best == "" ==> holder == "" && forall h :: h != "" ==> !(h in table && keys.covers(h, key))
    {
      best, holder := "", "";
      var todo := table.Keys;
      while todo != {}
        invariant todo <= table.Keys
        invariant forall h :: h in table && h !in todo && keys.covers(h, key) ==> |h| <= |best|
        invariant best != "" ==> best in table && keys.covers(best, key) && holder == table[best].actor
        invariant best == "" ==> holder == ""
        decreases todo
      {
        var h :| h in todo;
        todo := todo - {h};
        if keys.covers(h, key) && |h| > |best| {
          best, holder := h, table[h].actor;
        }
      }
    }

    method AcquireID(prefix: string, actorID: string, purgeNow: int, stampNow: int) returns (out: Outcome)
      modifies this
      ensures actorID == "" ==> out == Refused(MissingActor) && leases == old(leases)
      ensures actorID != "" && keys.normalize(prefix).Err? ==>
                out == Refused(BadKey(keys.normalize(prefix).error)) && leases == old(leases)
      ensures actorID != "" && keys.normalize(prefix).Ok? ==>
                Commits(Acquire(keys.normalize(prefix).value, prefix, actorID), purgeNow, stampNow, out)
    {
      if actorID == "" {
        return Refused(MissingActor);
      }
      var normalized := keys.normalize(prefix);
      if normalized.Err? {
        return Refused(BadKey(normalized.error));
      }
      var key := normalized.value;
      var updated := PurgeExpired(leases, purgeNow);
      var held := OverlappingLease(updated, key, actorID);
      if held.Some? {
        out := Refused(Conflict(prefix, held.value, updated[held.value].actor));
      } else {
        leases := updated[key := Lease(actorID, prefix, stampNow)];
        out := Done;
      }
      KeepExclusive(old(leases), Acquire(key, prefix, actorID), purgeNow, stampNow, out);
    }

    method ReleaseID(prefix: string, actorID: string, purgeNow: int) returns (out: Outcome)
      modifies this
      ensures actorID == "" ==> out == Refused(MissingActor) && leases == old(leases)
      ensures actorID != "" && keys.normalize(prefix).Err? ==>
                out == Refused(BadKey(keys.normalize(prefix).error)) && leases == old(leases)
      ensures actorID != "" && keys.normalize(prefix).Ok? ==>
                Commits(Release(keys.normalize(prefix).value, prefix, actorID), purgeNow, purgeNow, out)
    {
      if actorID == "" {
        return Refused(MissingActor);
      }
      var normalized := keys.normalize(prefix);
      if normalized.Err? {
        return Refused(BadKey(normalized.error));
      }
      var key := normalized.value;
      var updated := PurgeExpired(leases, purgeNow);
      if key !in updated {
        out := Refused(NotLeased(prefix));
      } else if updated[key].actor != actorID {
        out := Refused(HeldBy(prefix, updated[key].actor));
      } else {
        leases := updated - {key};
        out := Done;
      }
      KeepExclusive(old(leases), Release(key, prefix, actorID), purgeNow, purgeNow, out);
    }

    method TouchID(prefix: string, actorID: string, purgeNow: int, stampNow: int) returns (out: Outcome)
      modifies this
      ensures actorID == "" ==> out == Refused(MissingActor) && leases == old(leases)
      ensures actorID != "" && keys.normalize(prefix).Err? ==>
                out == Refused(BadKey(keys.normalize(prefix).error)) && leases == old(leases)
      ensures actorID != "" && keys.normalize(prefix).Ok? ==>
                Commits(Touch(keys.normalize(prefix).value, prefix, actorID), purgeNow, stampNow, out)
    {
      if actorID == "" {
        return Refused(MissingActor);
      }
      var normalized := keys.normalize(prefix);
      if normalized.Err? {
        return Refused(BadKey(normalized.error));
      }
      var key := normalized.value;
      var updated := PurgeExpired(leases, purgeNow);
      if key !in updated {
        out := Refused(NotLeased(prefix));
      } else if updated[key].actor != actorID {
        out := Refused(HeldBy(prefix, updated[key].actor));
      } else {
        var record := updated[key].(lastUsed := stampNow);
        leases := updated[key := record];
        out := Done;
      }
      KeepExclusive(old(leases), Touch(key, prefix, actorID), purgeNow, stampNow, out);
    }

    method ObserveRead(name: string, principal: Principal, purgeNow: int) returns (out: Outcome)
      modifies this
      ensures keys.normalize(name).Err? ==> out == Refused(BadKey(keys.normalize(name).error)) && leases == old(leases)
      ensures keys.normalize(name).Ok? ==>
                Commits(Observe(keys.normalize(name).value, name, principal.actorID), purgeNow, purgeNow, out)
    {
      var normalized := keys.normalize(name);
      if normalized.Err? {
        return Refused(BadKey(normalized.error));
      }
      var updated := PurgeExpired(leases, purgeNow);
      var leaseKey, holder := LeaseHolder(updated, normalized.value);
      leases := updated;
      out := if holder == "" || holder == principal.actorID then Done else Refused(Changing(name, leaseKey, holder));
      if leaseKey != "" {
        assert Longest(Cfg(), updated, leaseKey, normalized.value);
      }
      KeepExclusive(old(leases), Observe(normalized.value, name, principal.actorID), purgeNow, purgeNow, out);
    }

    /** The checks `CanWrite` makes before it looks at the lease table. */
    function WritePolicy(name: string, principal: Principal): (denied: Option<Refusal>)
      ensures denied.None? <==>
                && !principal.readOnly && keys.normalize(name).Ok?
                && (principal.allowedPrefixes == []
                    || exists allowed <- principal.allowedPrefixes :: keys.covers(allowed, keys.normalize(name).value))
      ensures denied.Some? ==>
                match denied.value
                case ReadOnly(actor) => principal.readOnly && actor == principal.actorID
                case BadKey(reason) => !principal.readOnly && keys.normalize(name) == Err(reason)
                case OutsidePrefixes(actor) => !principal.readOnly && keys.normalize(name).Ok? && actor == principal.actorID
                case _ => false
    {
      var normalized := keys.normalize(name);
      if principal.readOnly then Some(ReadOnly(principal.actorID))
      else if normalized.Err? then Some(BadKey(normalized.error))
      else if principal.allowedPrefixes != []
              && !(exists allowed <- principal.allowedPrefixes :: keys.covers(allowed, normalized.value))
      then Some(OutsidePrefixes(principal.actorID))
      else None
    }

    method MatchesAnyPrefix(key: string, prefixes: seq<string>) returns (found: bool)
      ensures found <==> exists allowed <- prefixes :: keys.covers(allowed, key)
    {
      for i := 0 to |prefixes|
        invariant forall j :: 0 <= j < i ==> !keys.covers(prefixes[j], key)
      {
        if keys.covers(prefixes[i], key) {
          return true;
        }
      }
      return false;
    }

    /**
      With `requireLease` the write is let through exactly when the actor holds a live lease
      covering the key. In any case such a lease is stamped: the write keeps it alive.
     */
    method CanWrite(name: string, principal: Principal, purgeNow: int, stampNow: int) returns (out: Outcome)
      modifies this
      ensures WritePolicy(name, principal).Some? ==>
                out == Refused(WritePolicy(name, principal).value) && leases == old(leases)
      ensures WritePolicy(name, principal).None? && (principal.requireLease || principal.actorID != "") ==>
                var key, cur := keys.normalize(name).value, old(leases);
                var e := Entry(Renew(key, principal.actorID), purgeNow, stampNow, out, leases);
                if OwnsLive(Cfg(), cur, purgeNow, key, principal.actorID) then
                  out == Done && exists held :: StampsOne(Cfg(), e, cur, held)
                else
                  && leases == cur
                  && out == if principal.requireLease then Refused(LacksLease(principal.actorID, name)) else Done
      ensures WritePolicy(name, principal).None? && principal.requireLease ==>
                Commits(Write(keys.normalize(name).value, name, principal.actorID), purgeNow, stampNow, out)
      ensures WritePolicy(name, principal).None? && !principal.requireLease ==>
                out == Done && ((principal.actorID == "" && leases == old(leases))
                                || Commits(Renew(keys.normalize(name).value, principal.actorID), purgeNow, stampNow, out))
    {
      if principal.readOnly {
        return Refused(ReadOnly(principal.actorID));
      }
      var normalized := keys.normalize(name);
      if normalized.Err? {
        return Refused(BadKey(normalized.error));
      }
      var key := normalized.value;
      var allowed := MatchesAnyPrefix(key, principal.allowedPrefixes);
      if principal.allowedPrefixes != [] && !allowed {
        return Refused(OutsidePrefixes(principal.actorID));
      }
      if !principal.requireLease && principal.actorID == "" {
        return Done;
      }
      var updated := PurgeExpired(leases, purgeNow);
      var held := CoveringLease(updated, key, principal.actorID);
      out := Done;
      if held.Some? {
        leases := updated[held.value := updated[held.value].(lastUsed := stampNow)];
      } else if principal.requireLease {
        out := Refused(LacksLease(principal.actorID, name));
      }
      var op := if principal.requireLease then Write(key, name, principal.actorID) else Renew(key, principal.actorID);
      KeepExclusive(old(leases), op, purgeNow, stampNow, out);
      WriteIsCounted(old(leases), op, purgeNow, stampNow, out);
    }

    lemma WriteIsCounted(before: Table, op: Op, purgeNow: int, stampNow: int, out: Outcome)
      requires (op.Write? || op.Renew?) && Attempt(Cfg(), op, purgeNow, stampNow, before, leases, out)
      ensures var e := Entry(Renew(op.key, op.actor), purgeNow, stampNow, out, leases);
              if OwnsLive(Cfg(), before, purgeNow, op.key, op.actor) then
                out == Done && exists held :: StampsOne(Cfg(), e, before, held)
              else
                leases == before && out == if op.Write? then Refused(LacksLease(op.actor, op.name)) else Done
    {
      var done, e := Entry(op, purgeNow, stampNow, out, leases), Entry(Renew(op.key, op.actor), purgeNow, stampNow, out, leases);
      if op.Write? {
        WriteComesTo(Cfg(), done, before);
      } else {
        RenewComesTo(Cfg(), done, before);
      }
      if OwnsLive(Cfg(), before, purgeNow, op.key, op.actor) {
        var held :| StampsOne(Cfg(), done, before, held);
        assert StampsOne(Cfg(), e, before, held);
      }
    }

    method CollectExpired(now: int) returns (updated: Table, found: seq<ExpiredLease>)
      requires Spelled(keys, leases)
      ensures updated == Purge(Cfg(), leases, now)
      ensures multiset(found) == multiset(Reclaimed(leases, updated))
    {
      found, updated := [], leases;
      var todo := leases.Keys;
      while todo != {}
        invariant todo <= leases.Keys
        invariant forall k :: k in updated <==> k in leases && (k in todo || !Expired(Cfg(), leases[k], now))
        invariant forall k <- updated :: updated[k] == leases[k]
        invariant multiset(found) == multiset(Reclaimed(leases, updated))
        decreases todo
      {
        var k :| k in todo;
        todo := todo - {k};
        if now - leases[k].lastUsed > idleTTL {
          found := found + [Report(leases[k])];
          OneMoreReclaimed(keys, leases, updated, k);
          updated := updated - {k};
        }
      }
    }

    /**
      The idle leases leave the table and are returned, each one once, in the order of their
      prefix and then their actor; nothing else changes. Without a time nothing happens.
     */
    method SweepExpired(now: Option<int>) returns (r: Result<seq<ExpiredLease>, Refusal>)
      requires Spelled(keys, leases)
      modifies this
      ensures r.Err? <==> now.None?
      ensures r.Err? ==> r.error == MissingTime && leases == old(leases)
      ensures r.Ok? ==> Commits(Sweep, now.value, now.value, Done)
      ensures r.Ok? ==> Sorted(r.value, SweepOrder) && multiset(r.value) == multiset(Reclaimed(old(leases), leases))
      ensures r.Ok? ==> forall i, j :: 0 <= i < j < |r.value| ==>
                Less(r.value[i].prefix, r.value[j].prefix)
                || (r.value[i].prefix == r.value[j].prefix && AtMost(r.value[i].actorID, r.value[j].actorID))
      ensures r.Ok? ==> forall x :: x in r.value <==>
                exists k <- old(leases) :: now.value - old(leases)[k].lastUsed > idleTTL
                                           && x.actorID == old(leases)[k].actor && x.prefix == old(leases)[k].prefix
                                           && x.lastUsed == old(leases)[k].lastUsed
    {
      if now.None? {
        return Err(MissingTime);
      }
      var updated, found := CollectExpired(now.value);
      SweepOrderIsTotal();
      var expired := Sort(found, SweepOrder);
      leases := updated;
      KeepExclusive(old(leases), Sweep, now.value, now.value, Done);
      r := Ok(expired);
      forall x ensures x in r.value <==> x in Reclaimed(old(leases), leases) {
        assert x in r.value <==> x in multiset(r.value);
      }
    }

    lemma KeepExclusive(before: Table, op: Op, purgeNow: int, stampNow: int, out: Outcome)
      requires Attempt(Cfg(), op, purgeNow, stampNow, before, leases, out)
      ensures Exclusive(Cfg(), before) ==> Exclusive(Cfg(), leases)
      ensures Spelled(keys, before) && (op.Acquire? ==> keys.normalize(op.prefix) == Ok(op.key)) ==> Spelled(keys, leases)
    {
      if Exclusive(Cfg(), before) {
        AttemptKeepsExclusive(Cfg(), op, purgeNow, stampNow, before, leases, out);
      }
    }
  }
}
