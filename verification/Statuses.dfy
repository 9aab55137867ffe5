/**
  Heartbeat statuses: the last write wins, and old ones are purged now and then. How many
  purges there are, and where between the merges, does not show after the last of them.
 */
module Statuses {

  datatype StatusRecord = StatusRecord(actorName: string, role: string, state: string, at: int)

  type Table = map<string, StatusRecord>

  function Merge(table: Table, actor: string, record: StatusRecord): Table {
    if actor in table && table[actor].at > record.at then table else table[actor := record]
  }

  function Purge(table: Table, cutoff: int): Table {
    map actor | actor in table && table[actor].at >= cutoff :: table[actor]
  }

  datatype Event = Received(actor: string, record: StatusRecord) | Purged(cutoff: int)

  function Apply(table: Table, e: Event): Table {
    match e
    case Received(actor, record) => Merge(table, actor, record)
    case Purged(cutoff) => Purge(table, cutoff)
  }

  function Replay(events: seq<Event>): Table {
    if events == [] then map[] else Apply(Replay(events[..|events| - 1]), events[|events| - 1])
  }

  /** The same events without the purges. */
  function Receptions(events: seq<Event>): seq<Event> {
    if events == [] then []
    else
      var front := Receptions(events[..|events| - 1]);
      if events[|events| - 1].Received? then front + [events[|events| - 1]] else front
  }

  /** No purge so far had a later cutoff. */
  predicate PurgedUpTo(events: seq<Event>, cutoff: int) {
    forall e <- events :: e.Purged? ==> e.cutoff <= cutoff
  }

  lemma MergeRespectsPurge(a: Table, b: Table, actor: string, record: StatusRecord, cutoff: int)
    requires Purge(a, cutoff) == Purge(b, cutoff)
    ensures Purge(Merge(a, actor, record), cutoff) == Purge(Merge(b, actor, record), cutoff)
  {
    var p, q := Purge(Merge(a, actor, record), cutoff), Purge(Merge(b, actor, record), cutoff);
    forall other ensures other in p <==> other in q
      ensures other in p ==> p[other] == q[other]
    {
      assert other in Purge(a, cutoff) <==> other in Purge(b, cutoff);
      assert other in Purge(a, cutoff) ==> a[other] == Purge(a, cutoff)[other] == Purge(b, cutoff)[other] == b[other];
    }
  }

  lemma EarlierPurgeIsAbsorbed(a: Table, earlier: int, cutoff: int)
    requires earlier <= cutoff
    ensures Purge(Purge(a, earlier), cutoff) == Purge(a, cutoff)
  {
  }

  /**
    Lazy purging cannot be observed: after a purge, the table is what it would be had all
    earlier purges, at no later cutoffs, been left out. Stamps need not be distinct.
   */
  lemma {:induction false} PurgingStatusesIsUnobservable(events: seq<Event>, cutoff: int)
    requires PurgedUpTo(events, cutoff)
    ensures Purge(Replay(events), cutoff) == Purge(Replay(Receptions(events)), cutoff)
  {
    if events != [] {
      var front, last := events[..|events| - 1], events[|events| - 1];
      assert last in events && forall e <- front :: e in events;
      PurgingStatusesIsUnobservable(front, cutoff);
      if last.Received? {
        MergeRespectsPurge(Replay(front), Replay(Receptions(front)), last.actor, last.record, cutoff);
        assert Receptions(events)[..|Receptions(events)| - 1] == Receptions(front);
      } else {
        EarlierPurgeIsAbsorbed(Replay(front), last.cutoff, cutoff);
      }
    }
  }

  ghost predicate ReceivedFrom(events: seq<Event>, actor: string, record: StatusRecord) {
    Received(actor, record) in events
  }

  /** The last record of `actor` among those with the greatest stamp. */
  function Latest(events: seq<Event>, actor: string): (latest: seq<StatusRecord>)
    ensures |latest| <= 1
    ensures latest == [] <==> forall record :: !ReceivedFrom(events, actor, record)
    ensures latest != [] ==> ReceivedFrom(events, actor, latest[0])
                             && forall record :: ReceivedFrom(events, actor, record) ==> record.at <= latest[0].at
  {
    if events == [] then []
    else
      var front, last := events[..|events| - 1], events[|events| - 1];
      var latest := Latest(front, actor);
      assert forall record :: ReceivedFrom(events, actor, record) <==> ReceivedFrom(front, actor, record) || last == Received(actor, record);
      if last.Received? && last.actor == actor && (latest == [] || latest[0].at <= last.record.at) then [last.record]
      else latest
  }

  lemma {:induction false} ReplayKeepsLatest(events: seq<Event>, actor: string)
    requires forall e <- events :: e.Received?
    ensures actor in Replay(events) <==> Latest(events, actor) != []
    ensures actor in Replay(events) ==> Replay(events)[actor] == Latest(events, actor)[0]
  {
    if events != [] {
      var front := events[..|events| - 1];
      assert forall e <- front :: e in events;
      assert events[|events| - 1] in events;
      ReplayKeepsLatest(front, actor);
    }
  }

  lemma {:induction false} ReceptionsAre(events: seq<Event>, actor: string)
    ensures forall e <- Receptions(events) :: e.Received?
    ensures Latest(Receptions(events), actor) == Latest(events, actor)
  {
    if events != [] {
      var front, last := events[..|events| - 1], events[|events| - 1];
      ReceptionsAre(front, actor);
      if last.Received? {
        assert Receptions(events)[..|Receptions(events)| - 1] == Receptions(front);
      }
    }
  }

  /** What a peer sees after a purge: each actor's latest status if it is recent enough, nothing otherwise. */
  lemma PurgedViewShowsLatest(events: seq<Event>, cutoff: int, actor: string)
    requires PurgedUpTo(events, cutoff)
    ensures var view, latest := Purge(Replay(events), cutoff), Latest(events, actor);
            && (actor in view <==> latest != [] && latest[0].at >= cutoff)
            && (actor in view ==> view[actor] == latest[0])
  {
    PurgingStatusesIsUnobservable(events, cutoff);
    ReceptionsAre(events, actor);
    ReplayKeepsLatest(Receptions(events), actor);
  }
}
