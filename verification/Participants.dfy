/**
  One agent's side of the claim-then-confirm protocol: an inbox of broadcast messages, a
  view, and the mesh it publishes to. Messages of every kind are merged into the view, and a
  task is claimed, confirmed and started through it. `TaskProtocol` says what many of these
  do to each other; here the same steps are the methods of one participant, and the module
  `ParticipantRuns` connects the two.
 */
module Participants {
  import opened Wrappers
  import opened Text
  import opened Recency
  import opened Tasks
  import opened Views
  import opened Sorting
  import C = TaskClaims
  import P = TaskProtocol
  import D = Contentions
  import L = Leases
  import K = Coordinators

  /** The broadcast mesh, as far as a publisher sees it. */
  class Mesh {
    var published: seq<Packet>

    constructor ()
      ensures published == []
    {
      published := [];
    }
  }

  datatype Trouble =
    | BlankTask
    | NotVisible(task: string)
    | NoWindow
    | Refused(fault: Fault)
    | NotClaimed
    | NotConfirmable
    | HeldBy(actor: string)
    | BlankNote
    | MeshDown
    | LeaseRefused(refusal: L.Refusal)

  // ----- Taking messages -----

  /** What the view shows after one message: purged first, then merged if there is no fault. */
  function Taken(shown: Shown, m: Packet, cutoff: int): Shown {
    Merged(Forget(shown, cutoff), m)
  }

  /** What the view shows after a message, and what was wrong with the message. */
  datatype Sight = Sight(shown: Shown, fault: Option<Fault>)

  function Received(shown: Shown, m: Packet, cutoff: int): Sight {
    Sight(Taken(shown, m, cutoff), FaultOf(Forget(shown, cutoff), m))
  }

  /** One step of a trail: the k-th message is taken at clock reading `clock(k)`. */
  predicate TakenAt(trail: seq<Sight>, ms: seq<Packet>, clock: int -> int, ttl: int, k: int) {
    0 <= k < |ms| && k < |trail| - 1 && trail[k + 1] == Received(trail[k].shown, ms[k], Cutoff(clock(k), ttl))
  }

  /** What was seen before the first message, after the first, and so on. */
  ghost predicate Trail(trail: seq<Sight>, ms: seq<Packet>, clock: int -> int, ttl: int) {
    trail != [] && forall k :: 0 <= k < |trail| - 1 ==> TakenAt(trail, ms, clock, ttl, k)
  }

  /** So far every message that was taken went well. */
  ghost predicate Draining(waiting: seq<Packet>, rest: seq<Packet>, clock: int -> int, ttl: int, trail: seq<Sight>) {
    && 1 <= |trail| <= |waiting| + 1 && rest == waiting[|trail| - 1..] && Trail(trail, waiting, clock, ttl)
    && forall sight <- trail :: sight.fault.None?
  }

  /**
    A drain took the first of the waiting messages, one after the other. It stopped because
    nothing was left, or because the last message it took was refused.
   */
  ghost predicate Drains(waiting: seq<Packet>, rest: seq<Packet>, clock: int -> int, ttl: int, trail: seq<Sight>) {
    && 1 <= |trail| <= |waiting| + 1 && rest == waiting[|trail| - 1..] && Trail(trail, waiting, clock, ttl)
    && (forall sight <- trail[..|trail| - 1] :: sight.fault.None?)
    && (trail[|trail| - 1].fault.None? ==> rest == [])
  }

  lemma OnlyClaimsChangeClaims(shown: Shown, m: Packet)
    ensures !(m.ClaimPacket? && C.TaskClaimIsValid(m.claim)) ==> Merged(shown, m).taskClaims == shown.taskClaims
  {
    match m
    case RumorPacket(rumor) => {
      match rumor.kind
      case ClaimKind =>
      case ReleaseKind =>
      case AnnounceKind =>
      case StatusKind =>
      case OtherKind(_) =>
    }
    case TaskPacket(task) =>
    case ClaimPacket(claim) =>
    case StatusPacket(event) =>
    case SignalPacket(signal) =>
    case MetricPacket(metric) =>
    case ContentionPacket(contention) =>
    case UnsupportedPacket(kind) =>
  }

  /** Taking a message does to the claim table what the protocol's `Receive` and `Hear` do. */
  lemma TakingIsAProtocolStep(shown: Shown, m: Packet, reading: int, ttl: int)
    ensures m.ClaimPacket? && C.TaskClaimIsValid(m.claim) ==>
              Taken(shown, m, Cutoff(reading, ttl)).taskClaims == P.Absorb(shown.taskClaims, m.claim, reading, ttl)
    ensures !(m.ClaimPacket? && C.TaskClaimIsValid(m.claim)) ==>
              Taken(shown, m, Cutoff(reading, ttl)).taskClaims == C.Purge(shown.taskClaims, Cutoff(reading, ttl))
  {
    var left := Forget(shown, Cutoff(reading, ttl));
    OnlyClaimsChangeClaims(left, m);
    assert left.taskClaims == C.Purge(shown.taskClaims, reading - ttl);
    assert m.ClaimPacket? && C.TaskClaimIsValid(m.claim) ==> Merged(left, m).taskClaims == C.Merge(left.taskClaims, m.claim);
  }

  lemma MergingKeepsWellKeyed(shown: Shown, m: Packet)
    requires C.WellKeyed(shown.taskClaims)
    ensures C.WellKeyed(Merged(shown, m).taskClaims)
  {
    OnlyClaimsChangeClaims(shown, m);
    if m.ClaimPacket? {
      C.MergeKeepsWellKeyed(shown.taskClaims, m.claim);
    }
  }

  lemma {:induction false} DrainingKeepsWellKeyed(trail: seq<Sight>, ms: seq<Packet>, clock: int -> int, ttl: int, k: nat)
    requires Trail(trail, ms, clock, ttl) && C.WellKeyed(trail[0].shown.taskClaims) && k < |trail|
    ensures C.WellKeyed(trail[k].shown.taskClaims)
  {
    if k > 0 {
      DrainingKeepsWellKeyed(trail, ms, clock, ttl, k - 1);
      assert TakenAt(trail, ms, clock, ttl, k - 1);
      C.PurgeKeepsWellKeyed(trail[k - 1].shown.taskClaims, Cutoff(clock(k - 1), ttl));
      MergingKeepsWellKeyed(Forget(trail[k - 1].shown, Cutoff(clock(k - 1), ttl)), ms[k - 1]);
    }
  }

  /** The task is shown as working, with one note on it that the actor signed. */
  predicate SaysWorking(shown: Shown, task: string, note: string, actor: string) {
    && task in shown.tasks && shown.tasks[task].state == Working && shown.tasks[task].message.Some?
    && var m := shown.tasks[task].message.value;
    && m.role == Agent && |m.parts| == 1 && m.parts[0].text == note
    && m.metadata.Some? && "actor_id" in m.metadata.value && m.metadata.value["actor_id"] == actor
  }

  class Participant {
    const actorID: string
    const actorName: string
    const role: string
    const coordinator: K.Coordinator
    const view: View
    const mesh: Mesh
    var inbox: seq<Packet>

    ghost predicate Valid()
      reads this, view, view.repr
    {
      view.Valid() && this !in view.repr && mesh !in view.repr && coordinator !in view.repr
    }

    ghost function Sees(): Shown
      reads view
    {
      view.shown
    }

    constructor (actorID: string, actorName: string, role: string, coordinator: K.Coordinator, view: View, mesh: Mesh)
      requires view.Valid() && mesh !in view.repr && coordinator !in view.repr
      ensures Valid() && this.coordinator == coordinator && this.view == view && this.mesh == mesh && inbox == []
      ensures this.actorID == actorID && this.actorName == actorName && this.role == role
    {
      this.actorID, this.actorName, this.role := actorID, actorName, role;
      this.coordinator, this.view, this.mesh, inbox := coordinator, view, mesh, [];
    }

    /** Purges the view, then merges the message. A message that is refused has still purged. */
    method ReceiveArtifact(m: Packet, now: int) returns (fault: Option<Fault>)
      requires Valid()
      modifies view
      ensures Valid() && Sight(Sees(), fault) == Received(old(Sees()), m, Cutoff(now, view.gossipTTL))
    {
      ghost var was := Sees();
      view.PurgeExpired(now);
      ghost var left := Sees();
      assert left == Forget(was, Cutoff(now, view.gossipTTL));
      fault := view.MergePacket(m);
      assert Sees() == Merged(left, m);
    }

    /** The next pending message, if any. */
    method Poll() returns (m: Option<Packet>)
      requires Valid()
      modifies `inbox
      ensures Valid() && Sees() == old(Sees())
      ensures m == if old(inbox) == [] then None else Some(old(inbox)[0])
      ensures inbox == if old(inbox) == [] then [] else old(inbox)[1..]
    {
      if inbox == [] {
        return None;
      }
      m := Some(inbox[0]);
      inbox := inbox[1..];
    }

    /**
      Takes messages until the inbox is empty or a message is refused; that message is gone,
      the rest stays. `trail` is what was seen from message to message.
     */
    method Drain(clock: int -> int) returns (fault: Option<Fault>, ghost trail: seq<Sight>)
      requires Valid()
      modifies view, `inbox
      ensures Valid() && Drains(old(inbox), inbox, clock, view.gossipTTL, trail)
      ensures trail[0] == Sight(old(Sees()), None) && trail[|trail| - 1] == Sight(Sees(), fault)
    {
      ghost var waiting, start := inbox, Sees();
      var n := 0;
      fault, trail := None, [Sight(start, None)];
      while true
        invariant Valid() && |trail| == n + 1 && Draining(waiting, inbox, clock, view.gossipTTL, trail)
        invariant trail[0] == Sight(start, None) && trail[n] == Sight(Sees(), fault)
        decreases |inbox|
      {
        ghost var was, rest := Sees(), inbox;
        var head := Poll();
        if head.None? {
          return;
        }
        var now := clock(n);
        fault := ReceiveArtifact(head.value, now);
        ghost var next := Sight(Sees(), fault);
        DrainGrows(waiting, rest, clock, view.gossipTTL, trail, was, head.value, now, next);
        n, trail := n + 1, trail + [next];
        if fault.Some? {
          return;
        }
      }
    }

    function NewClaim(task: string, window: int, now: int): C.TaskClaim {
      C.TaskClaim(task, actorID, actorName, role, now, now + window)
    }

    /** Why a claim is turned down before anything is changed. */
    function ClaimTrouble(shown: Shown, task: string, window: int, now: int): Option<Trouble> {
      if Blank(task) then Some(BlankTask)
      else if task !in shown.tasks then Some(NotVisible(task))
      else if C.Has(shown.taskClaims, task, actorID) then None
      else if window <= 0 then Some(NoWindow)
      else if !C.TaskClaimIsValid(NewClaim(task, window, now)) then Some(Refused(Invalid))
      else None
    }

    /** `up` says whether the mesh takes the message. */
    method Send(m: Packet, up: bool) returns (trouble: Option<Trouble>)
      requires Valid()
      modifies mesh
      ensures Valid() && Sees() == old(Sees())
      ensures trouble == if up then None else Some(MeshDown)
      ensures mesh.published == old(mesh.published) + if up then [m] else []
    {
      if !up {
        return Some(MeshDown);
      }
      mesh.published := mesh.published + [m];
      trouble := None;
    }

    // ----- Leases -----

    function NewRumor(kind: Kind, prefix: string, now: int): Rumor {
      Rumor(kind, actorID, actorName, role, prefix, "", "", "", now)
    }

    /** What merging and broadcasting a message of one's own answers and does. */
    ghost predicate Publishes(was: Shown, m: Packet, meshUp: bool, trouble: Option<Trouble>, left: Shown, sent: seq<Packet>) {
      && left == Merged(was, m)
      && (if FaultOf(was, m).Some? then trouble == Some(Refused(FaultOf(was, m).value)) && sent == []
          else if meshUp then trouble.None? && sent == [m]
          else trouble == Some(MeshDown) && sent == [])
    }

    /** Merges a message into the participant's own view, then broadcasts it if the mesh takes it. */
    method Publish(m: Packet, meshUp: bool) returns (trouble: Option<Trouble>, ghost sent: seq<Packet>)
      requires Valid()
      modifies view, mesh
      ensures Valid() && mesh.published == old(mesh.published) + sent
      ensures Publishes(old(Sees()), m, meshUp, trouble, Sees(), sent)
    {
      var fault := view.MergePacket(m);
      if fault.Some? {
        return Some(Refused(fault.value)), [];
      }
      trouble := Send(m, meshUp);
      sent := if trouble.None? then [m] else [];
    }

    /** Who is in the way of a claim: the actor of the conflict, or whoever the view names. */
    ghost predicate Blames(was: Shown, prefix: string, refusal: L.Refusal, c: D.Contention) {
      if refusal.Conflict? then c.holderID == refusal.actor && c.holderPrefix == refusal.leaseKey
      else if prefix in was.claims then c.holderID == was.claims[prefix].actor && c.holderPrefix == prefix
      else c.holderID == "" && c.holderPrefix == ""
    }

    /** Reports a refused claim; `text` is the refusal as a message. */
    method ReportContention(prefix: string, refusal: L.Refusal, text: string, now: int, meshUp: bool)
      returns (ghost report: D.Contention, ghost sent: seq<Packet>)
      requires Valid()
      modifies view, mesh
      ensures Valid() && mesh.published == old(mesh.published) + sent
      ensures report.actorID == actorID && report.prefix == prefix && report.error == text && report.at == now
      ensures Blames(old(Sees()), prefix, refusal, report)
      ensures exists trouble :: Publishes(old(Sees()), ContentionPacket(report), meshUp, trouble, Sees(), sent)
    {
      var named := view.ClaimHolder(prefix);
      var holder, held := "", "";
      if refusal.Conflict? {
        holder, held := refusal.actor, refusal.leaseKey;
      } else if named.Some? {
        holder, held := named.value, prefix;
      }
      var contention := D.Contention(actorID, prefix, holder, held, text, now);
      var trouble;
      trouble, sent := Publish(ContentionPacket(contention), meshUp);
      report := contention;
    }

    /**
      What a claim, a renewal or a release answers and does. The coordinator is asked first;
      if it agrees, the rumour is merged and broadcast, and if it refuses a claim, that is
      reported as contention, with `text` for the refusal.
     */
    ghost predicate Leases(was: Shown, op: L.Op, text: string, p: int, s: int, now: int, meshUp: bool,
                           cur: L.Table, next: L.Table, out: L.Outcome, trouble: Option<Trouble>, left: Shown, sent: seq<Packet>)
      requires op.Acquire? || op.Touch? || op.Release?
    {
      && K.Call(coordinator.Cfg(), op, op.prefix, p, s, cur, next, out)
      && match out
         case Done =>
           Publishes(was, RumorPacket(NewRumor(if op.Release? then ReleaseKind else ClaimKind, op.prefix, now)), meshUp, trouble, left, sent)
         case Refused(refusal) =>
           && trouble == Some(LeaseRefused(refusal))
           && if op.Acquire? then Reports(was, op.prefix, refusal, text, now, meshUp, left, sent) else left == was && sent == []
    }

    /** The contention that is reported names the actor, the prefix, the refusal and who is in the way. */
    ghost predicate Reports(was: Shown, prefix: string, refusal: L.Refusal, text: string, now: int, meshUp: bool, left: Shown, sent: seq<Packet>) {
      exists report: D.Contention, trouble ::
        && report.actorID == actorID && report.prefix == prefix && report.error == text && report.at == now
        && Blames(was, prefix, refusal, report) && Publishes(was, ContentionPacket(report), meshUp, trouble, left, sent)
    }

    /** Acquires the lease, then tells its own view and the others; `text` turns a refusal into a message. */
    method TryClaim(prefix: string, text: L.Refusal -> string, p: int, s: int, now: int, meshUp: bool)
      returns (trouble: Option<Trouble>, ghost out: L.Outcome, ghost sent: seq<Packet>)
      requires Valid()
      modifies coordinator, view, mesh
      ensures Valid() && mesh.published == old(mesh.published) + sent
      ensures Leases(old(Sees()), L.Acquire(K.Key(coordinator.Cfg(), prefix), prefix, actorID), if out.Refused? then text(out.refusal) else "", p, s, now, meshUp,
                     old(coordinator.leases), coordinator.leases, out, trouble, Sees(), sent)
    {
      var answer := coordinator.AcquireID(prefix, actorID, p, s);
      out := answer;
      if answer.Refused? {
        ghost var _, reported := ReportContention(prefix, answer.refusal, text(answer.refusal), now, meshUp);
        return Some(LeaseRefused(answer.refusal)), out, reported;
      }
      trouble, sent := Publish(RumorPacket(NewRumor(ClaimKind, prefix, now)), meshUp);
    }

    /** Touches the lease, then tells its own view and the others again. */
    method Renew(prefix: string, p: int, s: int, now: int, meshUp: bool)
      returns (trouble: Option<Trouble>, ghost out: L.Outcome, ghost sent: seq<Packet>)
      requires Valid()
      modifies coordinator, view, mesh
      ensures Valid() && mesh.published == old(mesh.published) + sent
      ensures Leases(old(Sees()), L.Touch(K.Key(coordinator.Cfg(), prefix), prefix, actorID), "", p, s, now, meshUp,
                     old(coordinator.leases), coordinator.leases, out, trouble, Sees(), sent)
    {
      var answer := coordinator.TouchID(prefix, actorID, p, s);
      out := answer;
      if answer.Refused? {
        return Some(LeaseRefused(answer.refusal)), out, [];
      }
      trouble, sent := Publish(RumorPacket(NewRumor(ClaimKind, prefix, now)), meshUp);
    }

    /** Drops the lease, then tells its own view and the others. */
    method Release(prefix: string, p: int, now: int, meshUp: bool)
      returns (trouble: Option<Trouble>, ghost out: L.Outcome, ghost sent: seq<Packet>)
      requires Valid()
      modifies coordinator, view, mesh
      ensures Valid() && mesh.published == old(mesh.published) + sent
      ensures Leases(old(Sees()), L.Release(K.Key(coordinator.Cfg(), prefix), prefix, actorID), "", p, p, now, meshUp,
                     old(coordinator.leases), coordinator.leases, out, trouble, Sees(), sent)
    {
      var answer := coordinator.ReleaseID(prefix, actorID, p);
      out := answer;
      if answer.Refused? {
        return Some(LeaseRefused(answer.refusal)), out, [];
      }
      trouble, sent := Publish(RumorPacket(NewRumor(ReleaseKind, prefix, now)), meshUp);
    }

    // ----- Tasks -----

    /** Merges a claim into the participant's own view, then broadcasts it if the mesh takes it. */
    method PublishTaskClaim(claim: C.TaskClaim, meshUp: bool) returns (trouble: Option<Trouble>)
      requires Valid()
      modifies view, mesh
      ensures Valid() && Sees() == Merged(old(Sees()), ClaimPacket(claim))
      ensures mesh.published == old(mesh.published) + if trouble.None? then [ClaimPacket(claim)] else []
      ensures trouble == if !C.TaskClaimIsValid(claim) then Some(Refused(Invalid)) else if !meshUp then Some(MeshDown) else None
    {
      var fault := view.MergeTaskClaim(claim);
      if fault.Some? {
        return Some(Refused(fault.value));
      }
      trouble := Send(ClaimPacket(claim), meshUp);
    }

    /** What `ClaimTask` answers and does, given what the view shows. */
    ghost predicate Claims(was: Shown, task: string, window: int, now: int, meshUp: bool,
                           claim: C.TaskClaim, trouble: Option<Trouble>, left: Shown, sent: seq<Packet>)
    {
      var mine := NewClaim(task, window, now);
      if ClaimTrouble(was, task, window, now).Some? then
        trouble == ClaimTrouble(was, task, window, now) && left == was && sent == []
      else if C.Has(was.taskClaims, task, actorID) then
        trouble.None? && claim == was.taskClaims[task][actorID] && left == was && sent == []
      else
        && claim == mine && left == Merged(was, ClaimPacket(mine))
        && (if meshUp then trouble.None? && sent == [ClaimPacket(mine)] else trouble == Some(MeshDown) && sent == [])
    }

    method ClaimTask(task: string, window: int, now: int, meshUp: bool)
      returns (claim: C.TaskClaim, trouble: Option<Trouble>, ghost sent: seq<Packet>)
      requires Valid()
      modifies view, mesh
      ensures Valid() && mesh.published == old(mesh.published) + sent
      ensures Claims(old(Sees()), task, window, now, meshUp, claim, trouble, Sees(), sent)
    {
      claim, sent := NewClaim(task, window, now), [];
      if Blank(task) {
        return claim, Some(BlankTask), [];
      }
      var known := view.HasTask(task);
      if !known {
        return claim, Some(NotVisible(task)), [];
      }
      var held := view.TaskClaim(task, actorID);
      if held.Some? {
        return held.value, None, [];
      }
      if window <= 0 {
        return claim, Some(NoWindow), [];
      }
      trouble, sent := ClaimAnew(task, window, now, meshUp);
    }

    /** The claim of an actor that has none on the task. */
    method ClaimAnew(task: string, window: int, now: int, meshUp: bool) returns (trouble: Option<Trouble>, ghost sent: seq<Packet>)
      requires Valid() && !Blank(task) && task in Sees().tasks && !C.Has(Sees().taskClaims, task, actorID) && window > 0
      modifies view, mesh
      ensures Valid() && mesh.published == old(mesh.published) + sent
      ensures Claims(old(Sees()), task, window, now, meshUp, NewClaim(task, window, now), trouble, Sees(), sent)
    {
      var claim := NewClaim(task, window, now);
      ghost var was := Sees();
      assert C.TaskClaimIsValid(claim) <==> ClaimTrouble(was, task, window, now).None?;
      trouble := PublishTaskClaim(claim, meshUp);
      sent := if trouble.None? then [ClaimPacket(claim)] else [];
    }

    /**
      Claiming goes through exactly when the task is visible and either has a claim of this actor
      already, or the actor is named, the window and the time are positive and the mesh takes the
      claim, which then is stamped with the time and due when the window has elapsed.
     */
    lemma ClaimGoesThroughIff(was: Shown, task: string, window: int, now: int, meshUp: bool,
                              claim: C.TaskClaim, trouble: Option<Trouble>, left: Shown, sent: seq<Packet>)
      requires Claims(was, task, window, now, meshUp, claim, trouble, left, sent)
      ensures trouble.None? <==>
                && !Blank(task) && task in was.tasks
                && (C.Has(was.taskClaims, task, actorID) || (window > 0 && !Blank(actorID) && now > 0 && meshUp))
      ensures trouble.None? && !C.Has(was.taskClaims, task, actorID) ==>
                && claim == C.TaskClaim(task, actorID, actorName, role, now, now + window) && sent == [ClaimPacket(claim)]
                && C.Has(left.taskClaims, task, actorID) && left.taskClaims[task][actorID] == claim
    {
    }

    /**
      Once a claim was made, claiming again gives the same claim back and sends nothing, also
      when the first claim never reached the mesh.
     */
    lemma SecondClaimIsSilent(was: Shown, task: string, window: int, now: int, meshUp: bool,
                              claim: C.TaskClaim, trouble: Option<Trouble>, left: Shown, sent: seq<Packet>,
                              window': int, now': int, meshUp': bool,
                              claim': C.TaskClaim, trouble': Option<Trouble>, left': Shown, sent': seq<Packet>)
      requires Claims(was, task, window, now, meshUp, claim, trouble, left, sent) && ClaimTrouble(was, task, window, now).None?
      requires Claims(left, task, window', now', meshUp', claim', trouble', left', sent')
      ensures trouble'.None? && claim' == claim && left' == left && sent' == []
    {
      if !C.Has(was.taskClaims, task, actorID) {
        assert left.taskClaims == C.Merge(was.taskClaims, claim) && left.tasks == was.tasks;
      }
    }

    /** The status that marks a task as working, with a note by this participant. */
    function WorkingOn(task: string, note: string, stamp: string): StatusShown {
      var signed := map["actor_id" := actorID, "actor_name" := actorName, "role" := role];
      var message := MessageShown(actorID + ":" + task + ":" + stamp, Agent, [PartShown(note, None, "", "")], [], Some(signed));
      StatusShown(task, "", Working, Some(message))
    }

    /** What `StartTask` answers and does, given what the view shows. */
    ghost predicate Starts(was: Shown, task: string, note: string, stamp: string, meshUp: bool,
                           trouble: Option<Trouble>, left: Shown, sent: seq<Packet>)
    {
      var working := StatusPacket(WorkingOn(task, note, stamp));
      if Blank(task) then trouble == Some(BlankTask) && left == was && sent == []
      else if Blank(note) then trouble == Some(BlankNote) && left == was && sent == []
      else if task !in was.tasks then trouble == Some(Refused(UnknownTask(task))) && left == was && sent == []
      else
        && left == Learn(was, working)
        && (if meshUp then trouble.None? && sent == [working] else trouble == Some(MeshDown) && sent == [])
    }

    /** After a start the view shows the task as working, with a note signed by this participant, and the mesh was told so. */
    lemma StartShowsWorking(was: Shown, task: string, note: string, stamp: string, meshUp: bool,
                            trouble: Option<Trouble>, left: Shown, sent: seq<Packet>)
      requires Starts(was, task, note, stamp, meshUp, trouble, left, sent) && trouble.None?
      ensures SaysWorking(left, task, note, actorID)
      ensures |sent| == 1 && sent[0].StatusPacket? && sent[0].event.taskID == task && sent[0].event.state == Working
      ensures sent[0].event.message == left.tasks[task].message
      ensures left == was.(tasks := was.tasks[task := left.tasks[task]])
    {
    }

    lemma WorkingIsValid(task: string, note: string, stamp: string)
      requires !Blank(task) && !Blank(note)
      ensures StatusEventIsValid(WorkingOn(task, note, stamp))
    {
      var part := PartShown(note, None, "", "");
      assert Payloads(part) == 1;
    }

    method StartTask(task: string, note: string, stamp: string, meshUp: bool) returns (trouble: Option<Trouble>, ghost sent: seq<Packet>)
      requires Valid()
      modifies view, mesh
      ensures Valid() && mesh.published == old(mesh.published) + sent
      ensures Starts(old(Sees()), task, note, stamp, meshUp, trouble, Sees(), sent)
      ensures trouble.None? ==> SaysWorking(Sees(), task, note, actorID)
    {
      if Blank(task) {
        return Some(BlankTask), [];
      }
      if Blank(note) {
        return Some(BlankNote), [];
      }
      WorkingIsValid(task, note, stamp);
      var event := WorkingOn(task, note, stamp);
      trouble, sent := Publish(StatusPacket(event), meshUp);
    }

    /** Why the participant's claim may not start the task, if so. */
    ghost predicate Answers(claims: C.Table, task: string, now: int, trouble: Option<Trouble>) {
      match P.Judge(claims, task, actorID, now)
      case NotClaimed => trouble == Some(NotClaimed)
      case NotConfirmable => trouble == Some(NotConfirmable)
      case Outbid => exists w :: C.Wins(claims, task, w) && trouble == Some(HeldBy(w.actorID))
      case Started => trouble == None
    }

    method JudgeClaim(task: string, now: int) returns (trouble: Option<Trouble>)
      requires Valid() && C.WellKeyed(Sees().taskClaims)
      ensures Answers(Sees().taskClaims, task, now, trouble)
      ensures trouble.None? <==> UpAndFirst(Sees().taskClaims, task, actorID, now)
    {
      StartedIff(Sees().taskClaims, task, actorID, now);
      var claim := view.TaskClaim(task, actorID);
      if claim.None? {
        return Some(NotClaimed);
      }
      if !C.Ready(claim.value, now) {
        return Some(NotConfirmable);
      }
      trouble := CompareWithWinner(task, now);
    }

    method CompareWithWinner(task: string, ghost now: int) returns (trouble: Option<Trouble>)
      requires Valid() && C.WellKeyed(Sees().taskClaims)
      requires C.Has(Sees().taskClaims, task, actorID) && C.Ready(Sees().taskClaims[task][actorID], now)
      ensures Answers(Sees().taskClaims, task, now, trouble)
    {
      var winner := view.TaskClaimWinner(task);
      JudgedByWinner(Sees().taskClaims, task, actorID, now, winner.value);
      if winner.value.actorID != actorID {
        return Some(HeldBy(winner.value.actorID));
      }
      trouble := None;
    }

    /** What confirmation answers and does once the inbox is drained. */
    ghost predicate Confirms(was: Shown, task: string, note: string, stamp: string, now: int, meshUp: bool,
                             trouble: Option<Trouble>, left: Shown, sent: seq<Packet>)
    {
      if P.Judge(was.taskClaims, task, actorID, now) == P.Started then
        Starts(was, task, note, stamp, meshUp, trouble, left, sent)
      else
        Answers(was.taskClaims, task, now, trouble) && left == was && sent == []
    }

    method ConfirmDrained(task: string, note: string, stamp: string, now: int, meshUp: bool) returns (trouble: Option<Trouble>, ghost sent: seq<Packet>)
      requires Valid() && C.WellKeyed(Sees().taskClaims)
      modifies view, mesh
      ensures Valid() && mesh.published == old(mesh.published) + sent
      ensures Confirms(old(Sees()), task, note, stamp, now, meshUp, trouble, Sees(), sent)
      ensures trouble.None? ==> SaysWorking(Sees(), task, note, actorID)
    {
      trouble := JudgeClaim(task, now);
      if trouble.Some? {
        return trouble, [];
      }
      trouble, sent := StartTask(task, note, stamp, meshUp);
    }

    /**
      Drains the inbox, and starts the task only when the participant's own claim is ready
      and wins in the view that the drain left behind.
     */
    method ConfirmTaskClaim(task: string, note: string, stamp: string, clock: int -> int, now: int, meshUp: bool)
      returns (trouble: Option<Trouble>, ghost trail: seq<Sight>, ghost sent: seq<Packet>)
      requires Valid() && C.WellKeyed(Sees().taskClaims)
      modifies view, `inbox, mesh
      ensures Valid() && mesh.published == old(mesh.published) + sent
      ensures Drains(old(inbox), inbox, clock, view.gossipTTL, trail) && trail[0] == Sight(old(Sees()), None)
      ensures var last := trail[|trail| - 1];
              if last.fault.Some? then trouble == Some(Refused(last.fault.value)) && Sees() == last.shown && sent == []
              else Confirms(last.shown, task, note, stamp, now, meshUp, trouble, Sees(), sent)
      ensures trouble.None? ==>
                && SaysWorking(Sees(), task, note, actorID)
                && UpAndFirst(trail[|trail| - 1].shown.taskClaims, task, actorID, now)
    {
      ghost var waiting := inbox;
      var fault;
      fault, trail := Drain(clock);
      if fault.Some? {
        return Some(Refused(fault.value)), trail, [];
      }
      DrainingKeepsWellKeyed(trail, waiting, clock, view.gossipTTL, |trail| - 1);
      StartedIff(Sees().taskClaims, task, actorID, now);
      trouble, sent := ConfirmDrained(task, note, stamp, now, meshUp);
    }
  }

  /** The actor's claim is due, and no other claim on the task has an earlier stamp, or the same one and a lesser actor. */
  ghost predicate UpAndFirst(claims: C.Table, task: string, actor: string, now: int) {
    && task in claims && actor in claims[task] && claims[task][actor].confirmAfter <= now
    && forall q <- claims[task] :: || claims[task][actor].at < claims[task][q].at
                                   || (claims[task][actor].at == claims[task][q].at && (actor == q || Less(actor, q)))
  }

  lemma StartedIff(claims: C.Table, task: string, actor: string, now: int)
    requires C.WellKeyed(claims)
    ensures P.Judge(claims, task, actor, now) == P.Started <==> UpAndFirst(claims, task, actor, now)
  {
    if C.Has(claims, task, actor) {
      var mine := claims[task][actor];
      forall q | q in claims[task] ensures C.Has(claims, task, q) {
      }
      if w :| C.Wins(claims, task, w) && w.actorID == actor {
        assert w == mine;
        forall q | q in claims[task] ensures C.ClaimOrder(mine, claims[task][q]) {
        }
      }
      if UpAndFirst(claims, task, actor, now) {
        assert C.Wins(claims, task, mine);
      }
    }
  }

  lemma JudgedByWinner(table: C.Table, task: string, actor: string, now: int, w: C.TaskClaim)
    requires C.Wins(table, task, w) && C.Has(table, task, actor) && C.Ready(table[task][actor], now)
    ensures P.Judge(table, task, actor, now) == if w.actorID == actor then P.Started else P.Outbid
  {
    WinnersAgree(table, task, w);
  }

  lemma WinnersAgree(table: C.Table, task: string, w: C.TaskClaim)
    requires C.Wins(table, task, w)
    ensures forall v :: C.Wins(table, task, v) ==> v.actorID == w.actorID
  {
    forall v | C.Wins(table, task, v) ensures v.actorID == w.actorID {
      assert C.ClaimOrder(v, w) && C.ClaimOrder(w, v);
      AtMostIsOrder(v.actorID, w.actorID, v.actorID);
    }
  }

  lemma DrainGrows(waiting: seq<Packet>, rest: seq<Packet>, clock: int -> int, ttl: int, trail: seq<Sight>,
                   was: Shown, m: Packet, reading: int, next: Sight)
    requires Draining(waiting, rest, clock, ttl, trail) && rest != []
    requires was == trail[|trail| - 1].shown && m == rest[0] && reading == clock(|trail| - 1)
    requires next == Received(was, m, Cutoff(reading, ttl))
    ensures Drains(waiting, rest[1..], clock, ttl, trail + [next]) || next.fault.None?
    ensures next.fault.None? ==> Draining(waiting, rest[1..], clock, ttl, trail + [next])
  {
    var longer, n := trail + [next], |trail| - 1;
    forall k | 0 <= k < |longer| - 1 ensures TakenAt(longer, waiting, clock, ttl, k) {
      if k < n {
        assert TakenAt(trail, waiting, clock, ttl, k) && longer[k] == trail[k] && longer[k + 1] == trail[k + 1];
      } else {
        assert longer[k] == trail[n] && waiting[n] == rest[0];
      }
    }
    assert longer[..|longer| - 1] == trail;
  }
}
