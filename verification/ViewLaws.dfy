/**
  What each message and each purge leave in a view, part by part and record by record, and
  which messages are accepted. Everything is said in terms of what is shown before and after.
 */
module ViewLaws {
  import opened Wrappers
  import opened Text
  import opened Recency
  import opened Tasks
  import opened Views
  import C = TaskClaims
  import G = ClaimGossip
  import S = Statuses
  import D = Contentions

  // ----- Rumours -----

  /** The two views have the same claims, apart from those of one prefix. */
  ghost predicate OtherClaimsStay(before: G.View, after: G.View, prefix: string) {
    forall k :: k != prefix ==> (k in after <==> k in before) && (k in after ==> after[k] == before[k])
  }

  /** A claim takes the prefix over unless a later one is on record; nothing else changes. */
  lemma ClaimComesTo(shown: Shown, r: Rumor)
    requires r.kind == ClaimKind
    ensures FaultOf(shown, RumorPacket(r)) == if r.prefix != "" && r.actorID != "" && r.at > 0 then None else Some(Invalid)
    ensures var left := Merged(shown, RumorPacket(r));
            && left == shown.(claims := left.claims) && OtherClaimsStay(shown.claims, left.claims, r.prefix)
            && if r.prefix != "" && r.actorID != "" && r.at > 0 && (r.prefix in shown.claims ==> shown.claims[r.prefix].at <= r.at)
               then r.prefix in left.claims && left.claims[r.prefix].actor == r.actorID && left.claims[r.prefix].at == r.at
               else left == shown
  {
  }

  /** A release by the recorded actor that is no earlier frees the prefix; any other changes nothing. */
  lemma ReleaseComesTo(shown: Shown, r: Rumor)
    requires r.kind == ReleaseKind
    ensures FaultOf(shown, RumorPacket(r)) == if r.prefix != "" && r.actorID != "" && r.at > 0 then None else Some(Invalid)
    ensures var left := Merged(shown, RumorPacket(r));
            && left == shown.(claims := left.claims) && OtherClaimsStay(shown.claims, left.claims, r.prefix)
            && if && r.prefix != "" && r.actorID != "" && r.at > 0
                  && r.prefix in shown.claims && shown.claims[r.prefix].actor == r.actorID && shown.claims[r.prefix].at <= r.at
               then r.prefix !in left.claims
               else left == shown
  {
  }

  lemma AnnounceComesTo(shown: Shown, r: Rumor)
    requires r.kind == AnnounceKind
    ensures FaultOf(shown, RumorPacket(r)) == if r.topic != "" && r.actorID != "" && r.at > 0 then None else Some(Invalid)
    ensures Merged(shown, RumorPacket(r)) ==
            if r.topic != "" && r.actorID != "" && r.at > 0 then
              shown.(announces := shown.announces + [Announce(r.actorID, r.topic, r.payload, r.at)])
            else shown
  {
  }

  /** A status becomes the actor's unless a later one is on record; nothing else changes. */
  lemma StatusComesTo(shown: Shown, r: Rumor)
    requires r.kind == StatusKind
    ensures FaultOf(shown, RumorPacket(r)) == if r.state != "" && r.actorID != "" && r.at > 0 then None else Some(Invalid)
    ensures var left := Merged(shown, RumorPacket(r));
            && left == shown.(statuses := left.statuses)
            && (forall q :: q != r.actorID ==> (q in left.statuses <==> q in shown.statuses)
                                               && (q in left.statuses ==> left.statuses[q] == shown.statuses[q]))
            && if r.state != "" && r.actorID != "" && r.at > 0 && (r.actorID in shown.statuses ==> shown.statuses[r.actorID].at <= r.at)
               then r.actorID in left.statuses && left.statuses[r.actorID] == S.StatusRecord(r.actorName, r.role, r.state, r.at)
               else left == shown
  {
  }

  lemma UnknownRumorComesTo(shown: Shown, r: Rumor)
    requires r.kind.OtherKind?
    ensures FaultOf(shown, RumorPacket(r)) == Some(Invalid) && Merged(shown, RumorPacket(r)) == shown
  {
  }

  // ----- Tasks and their claims -----

  ghost predicate OtherTasksStay(before: map<string, TaskShown>, after: map<string, TaskShown>, id: string) {
    forall k :: k != id ==> (k in after <==> k in before) && (k in after ==> after[k] == before[k])
  }

  lemma TaskComesTo(shown: Shown, task: TaskShown)
    ensures FaultOf(shown, TaskPacket(task)) == if TaskIsValid(task) then None else Some(Invalid)
    ensures var left := Merged(shown, TaskPacket(task));
            && left == shown.(tasks := left.tasks) && OtherTasksStay(shown.tasks, left.tasks, task.id)
            && if TaskIsValid(task) then task.id in left.tasks && left.tasks[task.id] == task else left == shown
  {
  }

  /** A status for a known task replaces its context, state and message, and nothing else. */
  lemma TaskStatusComesTo(shown: Shown, event: StatusShown)
    ensures FaultOf(shown, StatusPacket(event)) ==
            if Blank(event.taskID) || !StatusIsValid(event.state, event.message) then Some(Invalid)
            else if event.taskID !in shown.tasks then Some(UnknownTask(event.taskID))
            else None
    ensures var left := Merged(shown, StatusPacket(event));
            && left == shown.(tasks := left.tasks) && OtherTasksStay(shown.tasks, left.tasks, event.taskID)
            && left.tasks.Keys == shown.tasks.Keys
            && if FaultOf(shown, StatusPacket(event)).Some? then left == shown
               else
                 var was, now := shown.tasks[event.taskID], left.tasks[event.taskID];
                 && now.id == event.taskID && now.contextID == event.contextID && now.state == event.state && now.message == event.message
                 && now.history == was.history && now.artifacts == was.artifacts && now.metadata == was.metadata
  {
  }

  ghost predicate OtherTaskClaimsStay(before: C.Table, after: C.Table, task: string, actor: string) {
    forall t, q :: t != task || q != actor ==>
                     (C.Has(after, t, q) <==> C.Has(before, t, q)) && (C.Has(after, t, q) ==> after[t][q] == before[t][q])
  }

  /** An actor's claim on a task is kept unless the actor has one on it that is no later. */
  lemma TaskClaimComesTo(shown: Shown, claim: C.TaskClaim)
    ensures FaultOf(shown, ClaimPacket(claim)) ==
            if !Blank(claim.taskID) && !Blank(claim.actorID) && 0 < claim.at < claim.confirmAfter then None else Some(Invalid)
    ensures var left := Merged(shown, ClaimPacket(claim));
            && left == shown.(taskClaims := left.taskClaims)
            && OtherTaskClaimsStay(shown.taskClaims, left.taskClaims, claim.taskID, claim.actorID)
            && if FaultOf(shown, ClaimPacket(claim)).Some? then left == shown
               else
                 && C.Has(left.taskClaims, claim.taskID, claim.actorID)
                 && left.taskClaims[claim.taskID][claim.actorID]
                    == if C.Has(shown.taskClaims, claim.taskID, claim.actorID) && shown.taskClaims[claim.taskID][claim.actorID].at <= claim.at
                       then shown.taskClaims[claim.taskID][claim.actorID] else claim
  {
  }

  // ----- Reports -----

  lemma SignalComesTo(shown: Shown, s: Signal)
    ensures var ok := !Blank(s.actorID) && s.kind in {Friction, Quality, Blocker, Opportunity} && !Blank(s.summary) && s.at > 0;
            && FaultOf(shown, SignalPacket(s)) == (if ok then None else Some(Invalid))
            && Merged(shown, SignalPacket(s)) == if ok then shown.(signals := shown.signals + [s]) else shown
  {
  }

  lemma MetricComesTo(shown: Shown, m: Metric)
    ensures var ok := !Blank(m.actorID) && !Blank(m.name) && m.at > 0 && m.score.Finite? && 0.0 <= m.score.value <= 1.0;
            && FaultOf(shown, MetricPacket(m)) == (if ok then None else Some(Invalid))
            && Merged(shown, MetricPacket(m)) == if ok then shown.(metrics := shown.metrics + [m]) else shown
  {
  }

  lemma ContentionComesTo(shown: Shown, c: D.Contention)
    ensures var ok := !Blank(c.actorID) && !Blank(c.prefix) && !Blank(c.error) && c.at > 0 && c.holderID != c.actorID;
            && FaultOf(shown, ContentionPacket(c)) == (if ok then None else Some(Invalid))
            && Merged(shown, ContentionPacket(c)) == if ok then shown.(contentions := shown.contentions + [c]) else shown
  {
  }

  lemma UnsupportedComesTo(shown: Shown, kind: string)
    ensures FaultOf(shown, UnsupportedPacket(kind)) == Some(Unsupported(kind)) && Merged(shown, UnsupportedPacket(kind)) == shown
  {
  }

  // ----- Purging -----

  /** The list keeps what is no older than the TTL, each as often as it was there. */
  ghost predicate KeepsYoung<T(!new)>(before: seq<T>, after: seq<T>, at: T -> int, now: int, ttl: int) {
    forall x :: multiset(after)[x] == if now - at(x) <= ttl then multiset(before)[x] else 0
  }

  lemma ListKeepsYoung<T(!new)>(xs: seq<T>, at: T -> int, now: int, ttl: int)
    ensures KeepsYoung(xs, Recent(xs, at, Cutoff(now, ttl)), at, now, ttl)
  {
    forall x ensures multiset(Recent(xs, at, Cutoff(now, ttl)))[x] == if now - at(x) <= ttl then multiset(xs)[x] else 0 {
      RecentCounts(xs, at, Cutoff(now, ttl), x);
    }
  }

  /** A purge keeps the tasks, and of everything else exactly what is no older than the TTL. */
  lemma ForgetKeeps(shown: Shown, now: int, ttl: int)
    ensures var left := Forget(shown, Cutoff(now, ttl));
            && left.tasks == shown.tasks
            && (forall k :: k in left.claims <==> k in shown.claims && now - shown.claims[k].at <= ttl)
            && (forall k <- left.claims :: left.claims[k] == shown.claims[k])
            && (forall q :: q in left.statuses <==> q in shown.statuses && now - shown.statuses[q].at <= ttl)
            && (forall q <- left.statuses :: left.statuses[q] == shown.statuses[q])
            && (forall t, q :: C.Has(left.taskClaims, t, q) <==> C.Has(shown.taskClaims, t, q) && now - shown.taskClaims[t][q].at <= ttl)
            && (forall t, q :: C.Has(left.taskClaims, t, q) ==> left.taskClaims[t][q] == shown.taskClaims[t][q])
            && (forall t <- left.taskClaims :: left.taskClaims[t] != map[])
    ensures var left := Forget(shown, Cutoff(now, ttl));
            && KeepsYoung(shown.announces, left.announces, (a: Announce) => a.at, now, ttl)
            && KeepsYoung(shown.signals, left.signals, (s: Signal) => s.at, now, ttl)
            && KeepsYoung(shown.metrics, left.metrics, (m: Metric) => m.at, now, ttl)
            && KeepsYoung(shown.contentions, left.contentions, (c: D.Contention) => c.at, now, ttl)
  {
    var cutoff := Cutoff(now, ttl);
    ListKeepsYoung(shown.announces, AnnouncedAt, now, ttl);
    ListKeepsYoung(shown.signals, SignaledAt, now, ttl);
    ListKeepsYoung(shown.metrics, MeasuredAt, now, ttl);
    ListKeepsYoung(shown.contentions, D.ContendedAt, now, ttl);
    forall t, q ensures C.Has(Forget(shown, cutoff).taskClaims, t, q) <==> C.Has(shown.taskClaims, t, q) && now - shown.taskClaims[t][q].at <= ttl {
      if C.Has(shown.taskClaims, t, q) && now - shown.taskClaims[t][q].at <= ttl {
        assert q in C.Recent(shown.taskClaims[t], cutoff);
      }
    }
  }
}
