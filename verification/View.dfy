/**
  A participant's local picture of the swarm, with maps, slices and tasks on the heap. An
  update copies the published picture, nested maps and tasks included, works on the copy in
  place and publishes it, so that whoever loaded an earlier picture goes on seeing what it
  showed. Only a status update leaves something of its caller's in what it publishes.
 */
module Views {
  import opened Wrappers
  import opened Text
  import opened Recency
  import opened Heap
  import opened Tasks
  import C = TaskClaims
  import G = ClaimGossip
  import S = Statuses
  import D = Contentions

  // ----- The picture and what it shows -----

  datatype Announce = Announce(actorID: string, topic: string, payload: string, at: int)

  function AnnouncedAt(a: Announce): int { a.at }

  datatype SignalKind = Friction | Quality | Blocker | Opportunity | OtherSignal(name: string)

  datatype Signal = Signal(goalID: string, taskID: string, actorID: string, kind: SignalKind, summary: string, detail: string, at: int)

  function SignaledAt(s: Signal): int { s.at }

  predicate SignalIsValid(s: Signal) {
    !Blank(s.actorID) && !s.kind.OtherSignal? && !Blank(s.summary) && s.at > 0
  }

  datatype Score = Finite(value: real) | NotFinite

  datatype Metric = Metric(goalID: string, taskID: string, actorID: string, name: string, score: Score, success: bool, evidence: string, at: int)

  function MeasuredAt(m: Metric): int { m.at }

  predicate MetricIsValid(m: Metric) {
    !Blank(m.actorID) && !Blank(m.name) && m.score.Finite? && 0.0 <= m.score.value <= 1.0 && m.at > 0
  }

  /** Claims by task and actor in nested maps, with those maps and what they show. No two tasks share one. */
  class ClaimMap {
    var entries: map<string, GoMap<C.TaskClaim>>
    ghost var objects: set<object>
    ghost var shown: C.Table

    ghost predicate Valid()
      reads this, objects
    {
      && this !in objects && shown.Keys == entries.Keys
      && (forall t <- entries :: entries[t] in objects && entries[t].entries == shown[t])
      && (forall s, t :: s in entries && t in entries && s != t ==> entries[s] != entries[t])
    }

    constructor ()
      ensures Valid() && shown == map[] && objects == {}
    {
      entries, objects, shown := map[], {}, map[];
    }

    /** Stores a map for a task that has none. */
    method Put(task: string, claims: GoMap<C.TaskClaim>)
      requires Valid() && task !in entries && claims !in objects
      modifies this
      ensures Valid() && entries == old(entries)[task := claims]
      ensures objects == old(objects) + {claims} && shown == old(shown)[task := claims.entries]
    {
      entries := entries[task := claims];
      objects, shown := objects + {claims}, shown[task := claims.entries];
    }

    method Remove(task: string)
      requires Valid()
      modifies this
      ensures Valid() && entries == old(entries) - {task} && objects == old(objects) && shown == old(shown) - {task}
    {
      entries := entries - {task};
      shown := shown - {task};
    }

    function Table(): (table: C.Table)
      requires Valid()
      reads this, objects
      ensures table == shown
    {
      map task | task in entries :: entries[task].entries
    }
  }

  datatype Picture = Picture(
    claims: GoMap<G.ClaimRecord>,
    statuses: GoMap<S.StatusRecord>,
    tasks: TaskMap,
    taskClaims: ClaimMap,
    announces: Slice<Announce>,
    signals: Slice<Signal>,
    metrics: Slice<Metric>,
    contentions: Slice<D.Contention>)

  datatype Shown = Shown(
    claims: G.View,
    statuses: S.Table,
    tasks: map<string, TaskShown>,
    taskClaims: C.Table,
    announces: seq<Announce>,
    signals: seq<Signal>,
    metrics: seq<Metric>,
    contentions: seq<D.Contention>)

  const NOTHING := Shown(map[], map[], map[], map[], [], [], [], [])

  /** The maps of records and the backing arrays of a picture. */
  ghost function Flat(p: Picture): (s: set<object>) {
    {p.claims, p.statuses, p.announces.cells, p.signals.cells, p.metrics.cells, p.contentions.cells}
  }

  /** The same, with the maps of tasks and of nested maps, but not what these hang on. */
  ghost function Own(p: Picture): (s: set<object>) {
    Flat(p) + {p.taskClaims, p.tasks}
  }

  /** Everything a picture hangs on. */
  ghost function Footprint(p: Picture): (s: set<object>)
    reads p.taskClaims, p.tasks
  {
    Own(p) + p.taskClaims.objects + p.tasks.objects
  }

  ghost predicate ListsFit(p: Picture) {
    p.announces.Fits() && p.signals.Fits() && p.metrics.Fits() && p.contentions.Fits()
  }

  /** The nested maps show what is on record for them, and hang on objects of their own. */
  ghost predicate Sound(p: Picture)
    reads Footprint(p)
  {
    ListsFit(p) && p.taskClaims.Valid() && p.tasks.Valid() && (Own(p) !! p.taskClaims.objects !! p.tasks.objects)
  }

  ghost function Show(p: Picture): Shown
    requires ListsFit(p)
    reads Own(p)
  {
    Shown(p.claims.entries, p.statuses.entries, p.tasks.shown, p.taskClaims.shown,
          p.announces.Elements(), p.signals.Elements(), p.metrics.Elements(), p.contentions.Elements())
  }

  // ----- Copying -----

  method CloneClaims(m: ClaimMap, copy: ClaimMap, task: string)
    requires m.Valid() && copy.Valid() && task in m.entries && task !in copy.entries
    modifies copy
    ensures copy.Valid() && fresh(copy.objects - old(copy.objects)) && copy.shown == old(copy.shown)[task := old(m.shown)[task]]
  {
    var claims := new GoMap(m.entries[task].entries);
    copy.Put(task, claims);
  }

  /** Copies the nested maps one by one. */
  method CloneNested(m: ClaimMap) returns (copy: ClaimMap)
    requires m.Valid()
    ensures fresh(copy) && fresh(copy.objects) && copy.Valid() && copy.shown == old(m.shown)
  {
    copy := new ClaimMap();
    ghost var was := m.shown;
    var todo := m.entries.Keys;
    while todo != {}
      invariant todo <= was.Keys == m.entries.Keys && m.Valid() && m.shown == was
      invariant fresh(copy) && fresh(copy.objects) && copy.Valid()
      invariant copy.shown.Keys == was.Keys - todo && forall t <- copy.shown :: copy.shown[t] == was[t]
      decreases todo
    {
      var task :| task in todo;
      CloneClaims(m, copy, task);
      todo := todo - {task};
    }
  }

  method CloneLists(p: Picture)
    returns (announces: Slice<Announce>, signals: Slice<Signal>, metrics: Slice<Metric>, contentions: Slice<D.Contention>)
    requires ListsFit(p)
    ensures fresh(announces.cells) && fresh(signals.cells) && fresh(metrics.cells) && fresh(contentions.cells)
    ensures announces.Fits() && announces.Elements() == old(p.announces.Elements())
    ensures signals.Fits() && signals.Elements() == old(p.signals.Elements())
    ensures metrics.Fits() && metrics.Elements() == old(p.metrics.Elements())
    ensures contentions.Fits() && contentions.Elements() == old(p.contentions.Elements())
  {
    announces := CloneSlice(p.announces);
    signals := CloneSlice(p.signals);
    metrics := CloneSlice(p.metrics);
    contentions := CloneSlice(p.contentions);
  }

  /** Copies the maps of records and the lists. */
  method CloneFlat(p: Picture) returns (copy: Picture)
    requires ListsFit(p)
    ensures ListsFit(copy) && copy.taskClaims == p.taskClaims && copy.tasks == p.tasks && Show(copy) == old(Show(p))
    ensures fresh(Flat(copy))
  {
    var claims := CloneMap(p.claims);
    var statuses := CloneMap(p.statuses);
    var announces, signals, metrics, contentions := CloneLists(p);
    copy := p.(claims := claims, statuses := statuses, announces := announces, signals := signals, metrics := metrics, contentions := contentions);
  }

  /** Copies the nested maps and the tasks, each with what they hang on. */
  method CloneDeep(p: Picture, ghost others: set<object>) returns (taskClaims: ClaimMap, tasks: TaskMap)
    requires p.taskClaims.Valid() && p.tasks.Valid()
    ensures taskClaims.Valid() && taskClaims.shown == old(p.taskClaims.shown) && fresh({taskClaims} + taskClaims.objects)
    ensures tasks.Valid() && tasks.shown == old(p.tasks.shown) && fresh({tasks} + tasks.objects)
    ensures {taskClaims} + taskClaims.objects !! {tasks} + tasks.objects
    ensures others !! {taskClaims, tasks} + taskClaims.objects + tasks.objects
  {
    taskClaims := CloneNested(p.taskClaims);
    tasks := CloneTasks(p.tasks);
  }

  lemma Assembled(flat: Picture, taskClaims: ClaimMap, tasks: TaskMap)
    requires ListsFit(flat) && taskClaims.Valid() && tasks.Valid() && {taskClaims} + taskClaims.objects !! {tasks} + tasks.objects
    requires Flat(flat) !! {taskClaims, tasks} + taskClaims.objects + tasks.objects
    ensures var p := flat.(taskClaims := taskClaims, tasks := tasks);
            Sound(p) && Show(p) == Show(flat).(taskClaims := taskClaims.shown, tasks := tasks.shown)
  {
    var p := flat.(taskClaims := taskClaims, tasks := tasks);
    assert Own(p) !! taskClaims.objects;
    assert Own(p) !! tasks.objects;
  }

  /** The copy shows the same and shares nothing with the original, nested maps and tasks included. */
  method ClonePicture(p: Picture) returns (copy: Picture)
    requires Sound(p)
    ensures Sound(copy) && Show(copy) == old(Show(p)) && fresh(Footprint(copy))
  {
    ghost var was := Show(p);
    var flat := CloneFlat(p);
    var taskClaims, tasks := CloneDeep(p, Flat(flat));
    assert Show(flat) == was;
    copy := flat.(taskClaims := taskClaims, tasks := tasks);
    Assembled(flat, taskClaims, tasks);
  }

  // ----- The changes, each made in place on a copy -----

  datatype Kind = ClaimKind | ReleaseKind | AnnounceKind | StatusKind | OtherKind(name: string)

  datatype Rumor = Rumor(
    kind: Kind,
    actorID: string,
    actorName: string,
    role: string,
    prefix: string,
    topic: string,
    payload: string,
    state: string,
    at: int)

  predicate RumorIsValid(r: Rumor) {
    && r.kind != OtherKind("") && r.actorID != "" && r.at > 0
    && match r.kind
       case AnnounceKind => r.topic != ""
       case ClaimKind => r.prefix != ""
       case ReleaseKind => r.prefix != ""
       case StatusKind => r.state != ""
       case OtherKind(_) => false
  }

  /** What the view shows once a rumour is merged. */
  function Hear(shown: Shown, r: Rumor): Shown {
    match r.kind
    case ClaimKind => shown.(claims := G.Merge(shown.claims, G.Claim(r.prefix, r.actorID, r.at)))
    case ReleaseKind => shown.(claims := G.Merge(shown.claims, G.Release(r.prefix, r.actorID, r.at)))
    case AnnounceKind => shown.(announces := shown.announces + [Announce(r.actorID, r.topic, r.payload, r.at)])
    case StatusKind => shown.(statuses := S.Merge(shown.statuses, r.actorID, S.StatusRecord(r.actorName, r.role, r.state, r.at)))
    case OtherKind(_) => shown
  }

  function Forget(shown: Shown, cutoff: int): Shown {
    Shown(G.Purge(shown.claims, cutoff), S.Purge(shown.statuses, cutoff), shown.tasks,
          C.Purge(shown.taskClaims, cutoff),
          Recent(shown.announces, AnnouncedAt, cutoff),
          Recent(shown.signals, SignaledAt, cutoff),
          Recent(shown.metrics, MeasuredAt, cutoff),
          Recent(shown.contentions, D.ContendedAt, cutoff))
  }

  method MergeClaim(claims: GoMap<G.ClaimRecord>, r: Rumor)
    modifies claims
    ensures claims.entries == G.Merge(old(claims.entries), G.Claim(r.prefix, r.actorID, r.at))
  {
    if r.prefix in claims.entries && claims.entries[r.prefix].at > r.at {
      return;
    }
    claims.entries := claims.entries[r.prefix := G.ClaimRecord(r.actorID, r.at)];
  }

  method MergeRelease(claims: GoMap<G.ClaimRecord>, r: Rumor)
    modifies claims
    ensures claims.entries == G.Merge(old(claims.entries), G.Release(r.prefix, r.actorID, r.at))
  {
    if r.prefix !in claims.entries {
      return;
    }
    if claims.entries[r.prefix].actor != r.actorID {
      return;
    }
    if claims.entries[r.prefix].at > r.at {
      return;
    }
    claims.entries := claims.entries - {r.prefix};
  }

  method MergeStatus(statuses: GoMap<S.StatusRecord>, r: Rumor)
    modifies statuses
    ensures statuses.entries == S.Merge(old(statuses.entries), r.actorID, S.StatusRecord(r.actorName, r.role, r.state, r.at))
  {
    if r.actorID in statuses.entries && statuses.entries[r.actorID].at > r.at {
      return;
    }
    statuses.entries := statuses.entries[r.actorID := S.StatusRecord(r.actorName, r.role, r.state, r.at)];
  }

  /** The nested map of a task, which is made first if it is missing. */
  method ClaimsOf(m: ClaimMap, task: string) returns (claims: GoMap<C.TaskClaim>)
    requires m.Valid()
    modifies m
    ensures m.Valid() && fresh(m.objects - old(m.objects)) && (claims in old(m.objects) || fresh(claims))
    ensures task in m.entries && m.entries[task] == claims
    ensures m.shown == if task in old(m.shown) then old(m.shown) else old(m.shown)[task := map[]]
  {
    if task !in m.entries {
      claims := new GoMap<C.TaskClaim>(map[]);
      m.Put(task, claims);
    }
    claims := m.entries[task];
  }

  /** Writes into the nested map of the claim's task. */
  method MergeTaskClaimInto(m: ClaimMap, claim: C.TaskClaim)
    requires m.Valid()
    modifies m, m.objects
    ensures m.Valid() && fresh(m.objects - old(m.objects))
    ensures m.shown == C.Merge(old(m.shown), claim)
  {
    ghost var before := m.shown;
    var claims := ClaimsOf(m, claim.taskID);
    if claim.actorID in claims.entries && claims.entries[claim.actorID].at <= claim.at {
      return;
    }
    claims.entries := claims.entries[claim.actorID := claim];
    m.shown := m.shown[claim.taskID := claims.entries];
    assert m.shown == C.Merge(before, claim);
  }

  /** A status event as its maker holds it, with a pointer to the message. */
  datatype StatusEvent = StatusEvent(taskID: string, contextID: string, state: TaskState, message: MessageBox?)

  datatype StatusShown = StatusShown(taskID: string, contextID: string, state: TaskState, message: Option<MessageShown>)

  ghost function ShowStatus(event: StatusEvent, its: set<object>): StatusShown
    requires BoxIn(event.message, its)
    reads its
  {
    StatusShown(event.taskID, event.contextID, event.state, ShowBox(event.message, its))
  }

  /** History, artifacts and metadata of the task stay. */
  function WithNewStatus(task: TaskShown, event: StatusShown): TaskShown {
    task.(id := event.taskID, contextID := event.contextID, state := event.state, message := event.message)
  }

  function WithStatusShown(shown: Shown, event: StatusShown): Shown {
    if event.taskID in shown.tasks then
      shown.(tasks := shown.tasks[event.taskID := WithNewStatus(shown.tasks[event.taskID], event)])
    else shown
  }

  predicate Survives(before: C.Table, cutoff: int, task: string) {
    task in before && C.Recent(before[task], cutoff) != map[]
  }

  lemma SurvivorsRemain(before: C.Table, after: C.Table, cutoff: int)
    requires forall t :: t in after <==> Survives(before, cutoff, t)
    requires forall t <- after :: t in before && after[t] == C.Recent(before[t], cutoff)
    ensures after == C.Purge(before, cutoff)
  {
    forall t ensures t in after <==> t in C.Purge(before, cutoff)
      ensures t in after ==> after[t] == C.Purge(before, cutoff)[t]
    {
      assert t in after <==> Survives(before, cutoff, t);
    }
  }

  method PurgeNested(m: ClaimMap, task: string, cutoff: int) returns (empty: bool, ghost kept: map<string, C.TaskClaim>)
    requires m.Valid() && task in m.entries
    modifies m`shown, m.entries[task]
    ensures m.Valid() && m.shown == old(m.shown)[task := kept]
    ensures kept == C.Recent(old(m.shown[task]), cutoff) && (empty <==> kept == map[])
  {
    var claims := m.entries[task];
    ghost var before := claims.entries;
    DropOld(claims, (c: C.TaskClaim) => c.at, cutoff);
    kept := claims.entries;
    m.shown := m.shown[task := kept];
    assert kept == C.Recent(before, cutoff);
    empty := |claims.entries| == 0;
  }

  /** Deletes inside one nested map, and the nested map itself if it becomes empty. */
  method PurgeTask(m: ClaimMap, task: string, cutoff: int)
    requires m.Valid() && task in m.entries
    modifies m, m.entries[task]
    ensures m.Valid() && m.objects == old(m.objects)
    ensures m.shown == if C.Recent(old(m.shown[task]), cutoff) == map[] then old(m.shown) - {task}
                       else old(m.shown)[task := C.Recent(old(m.shown[task]), cutoff)]
  {
    ghost var before := m.shown;
    var empty, kept := PurgeNested(m, task, cutoff);
    if empty {
      m.Remove(task);
      assert m.shown == before - {task};
    }
  }

  /** Deletes inside the nested maps, and the nested maps that become empty. */
  method PurgeTaskClaims(m: ClaimMap, cutoff: int)
    requires m.Valid()
    modifies m, m.objects
    ensures m.Valid() && m.objects == old(m.objects)
    ensures m.shown == C.Purge(old(m.shown), cutoff)
  {
    ghost var before := m.shown;
    var todo := m.entries.Keys;
    while todo != {}
      invariant m.Valid() && m.objects == old(m.objects) && todo <= m.shown.Keys <= before.Keys
      invariant forall t <- m.shown :: m.shown[t] == if t in todo then before[t] else C.Recent(before[t], cutoff)
      invariant forall t :: t in m.shown <==> t in todo || Survives(before, cutoff, t)
      decreases todo
    {
      var task :| task in todo;
      todo := todo - {task};
      PurgeTask(m, task, cutoff);
    }
    SurvivorsRemain(before, m.shown, cutoff);
  }

  method MergeInto(p: Picture, rumor: Rumor) returns (q: Picture)
    requires Sound(p)
    modifies p.claims, p.statuses, p.announces.cells
    ensures q == p.(announces := q.announces) && Sound(q)
    ensures q.announces.cells == p.announces.cells || fresh(q.announces.cells)
    ensures Show(q) == Hear(old(Show(p)), rumor)
  {
    q := p;
    match rumor.kind {
      case ClaimKind => MergeClaim(p.claims, rumor);
      case ReleaseKind => MergeRelease(p.claims, rumor);
      case AnnounceKind =>
        var announces := Append(p.announces, Announce(rumor.actorID, rumor.topic, rumor.payload, rumor.at));
        q := p.(announces := announces);
      case StatusKind => MergeStatus(p.statuses, rumor);
      case OtherKind(_) =>
    }
  }

  method PurgeRecords(claims: GoMap<G.ClaimRecord>, statuses: GoMap<S.StatusRecord>, cutoff: int)
    modifies claims, statuses
    ensures claims.entries == G.Purge(old(claims.entries), cutoff) && statuses.entries == S.Purge(old(statuses.entries), cutoff)
  {
    DropOld(claims, (r: G.ClaimRecord) => r.at, cutoff);
    DropOld(statuses, (r: S.StatusRecord) => r.at, cutoff);
  }

  method PurgeLists(p: Picture, cutoff: int) returns (q: Picture)
    requires ListsFit(p)
    modifies p.announces.cells, p.signals.cells, p.metrics.cells, p.contentions.cells
    ensures q == p.(announces := q.announces, signals := q.signals, metrics := q.metrics, contentions := q.contentions) && ListsFit(q)
    ensures q.announces.cells == p.announces.cells && q.signals.cells == p.signals.cells
    ensures q.metrics.cells == p.metrics.cells && q.contentions.cells == p.contentions.cells
    ensures q.announces.Elements() == Recent(old(p.announces.Elements()), AnnouncedAt, cutoff)
    ensures q.signals.Elements() == Recent(old(p.signals.Elements()), SignaledAt, cutoff)
    ensures q.metrics.Elements() == Recent(old(p.metrics.Elements()), MeasuredAt, cutoff)
    ensures q.contentions.Elements() == Recent(old(p.contentions.Elements()), D.ContendedAt, cutoff)
  {
    var announces := KeepRecent(p.announces, AnnouncedAt, cutoff);
    var signals := KeepRecent(p.signals, SignaledAt, cutoff);
    var metrics := KeepRecent(p.metrics, MeasuredAt, cutoff);
    var contentions := KeepRecent(p.contentions, D.ContendedAt, cutoff);
    q := p.(announces := announces, signals := signals, metrics := metrics, contentions := contentions);
  }

  /** Purges everything but the nested maps. */
  method PurgeFlat(p: Picture, cutoff: int) returns (q: Picture)
    requires ListsFit(p)
    modifies Flat(p)
    ensures q == p.(announces := q.announces, signals := q.signals, metrics := q.metrics, contentions := q.contentions)
    ensures ListsFit(q) && Own(q) == Own(p)
    ensures Show(q) == Forget(old(Show(p)), cutoff).(taskClaims := old(Show(p)).taskClaims)
  {
    PurgeRecords(p.claims, p.statuses, cutoff);
    q := PurgeLists(p, cutoff);
  }

  /** Drops what was stamped before the cutoff from every part of the picture. Tasks stay. */
  method PurgeInto(p: Picture, cutoff: int) returns (q: Picture)
    requires Sound(p)
    modifies Flat(p), p.taskClaims, p.taskClaims.objects
    ensures q == p.(announces := q.announces, signals := q.signals, metrics := q.metrics, contentions := q.contentions) && Sound(q)
    ensures Footprint(q) == old(Footprint(p)) && Show(q) == Forget(old(Show(p)), cutoff)
  {
    q := PurgeFlat(p, cutoff);
    PurgeTaskClaims(p.taskClaims, cutoff);
  }

  // ----- What can be merged -----

  datatype Fault = Invalid | UnknownTask(id: string) | Unsupported(kind: string)

  /** What can be merged into a view, as it travels on the mesh. */
  datatype Packet =
    | RumorPacket(rumor: Rumor)
    | TaskPacket(task: TaskShown)
    | ClaimPacket(claim: C.TaskClaim)
    | StatusPacket(event: StatusShown)
    | SignalPacket(signal: Signal)
    | MetricPacket(metric: Metric)
    | ContentionPacket(contention: D.Contention)
    | UnsupportedPacket(kind: string)

  predicate StatusEventIsValid(event: StatusShown) {
    !Blank(event.taskID) && StatusIsValid(event.state, event.message)
  }

  function FaultOf(shown: Shown, m: Packet): Option<Fault> {
    match m
    case RumorPacket(rumor) => if RumorIsValid(rumor) then None else Some(Invalid)
    case TaskPacket(task) => if TaskIsValid(task) then None else Some(Invalid)
    case ClaimPacket(claim) => if C.TaskClaimIsValid(claim) then None else Some(Invalid)
    case StatusPacket(event) =>
      if !StatusEventIsValid(event) then Some(Invalid)
      else if event.taskID !in shown.tasks then Some(UnknownTask(event.taskID))
      else None
    case SignalPacket(signal) => if SignalIsValid(signal) then None else Some(Invalid)
    case MetricPacket(metric) => if MetricIsValid(metric) then None else Some(Invalid)
    case ContentionPacket(contention) => if D.IsValid(contention) then None else Some(Invalid)
    case UnsupportedPacket(kind) => Some(Unsupported(kind))
  }

  /** What the view shows after a message that it accepts. */
  function Learn(shown: Shown, m: Packet): Shown {
    match m
    case RumorPacket(rumor) => Hear(shown, rumor)
    case TaskPacket(task) => shown.(tasks := shown.tasks[task.id := task])
    case ClaimPacket(claim) => shown.(taskClaims := C.Merge(shown.taskClaims, claim))
    case StatusPacket(event) => WithStatusShown(shown, event)
    case SignalPacket(signal) => shown.(signals := shown.signals + [signal])
    case MetricPacket(metric) => shown.(metrics := shown.metrics + [metric])
    case ContentionPacket(contention) => shown.(contentions := shown.contentions + [contention])
    case UnsupportedPacket(_) => shown
  }

  function Merged(shown: Shown, m: Packet): Shown {
    if FaultOf(shown, m).None? then Learn(shown, m) else shown
  }

  // ----- The closures: none of them changes an object that existed before -----

  method Heard(snapshot: Picture, rumor: Rumor) returns (updated: Picture)
    requires Sound(snapshot)
    ensures Sound(updated) && fresh(Footprint(updated))
    ensures Show(updated) == Learn(old(Show(snapshot)), RumorPacket(rumor))
  {
    var copy := ClonePicture(snapshot);
    updated := MergeInto(copy, rumor);
  }

  method Purged(snapshot: Picture, cutoff: int) returns (updated: Picture)
    requires Sound(snapshot)
    ensures Sound(updated) && fresh(Footprint(updated))
    ensures Show(updated) == Forget(old(Show(snapshot)), cutoff)
  {
    var copy := ClonePicture(snapshot);
    updated := PurgeInto(copy, cutoff);
  }

  method PutClaim(p: Picture, claim: C.TaskClaim)
    requires Sound(p)
    modifies p.taskClaims, p.taskClaims.objects
    ensures Sound(p) && fresh(Footprint(p) - old(Footprint(p)))
    ensures Show(p) == Learn(old(Show(p)), ClaimPacket(claim))
  {
    MergeTaskClaimInto(p.taskClaims, claim);
  }

  method WithTaskClaim(snapshot: Picture, claim: C.TaskClaim) returns (updated: Picture)
    requires Sound(snapshot)
    ensures Sound(updated) && fresh(Footprint(updated))
    ensures Show(updated) == Learn(old(Show(snapshot)), ClaimPacket(claim))
  {
    updated := ClonePicture(snapshot);
    PutClaim(updated, claim);
  }

  method PutTask(p: Picture, id: string, task: Task, ghost its: set<object>)
    requires Sound(p) && TaskIn(task, its) && Own(p) !! p.taskClaims.objects !! its
    modifies p.tasks
    ensures Sound(p) && Footprint(p) == old(Footprint(p)) + its
    ensures p.tasks.entries == old(p.tasks.entries)[id := task]
    ensures Show(p) == old(Show(p)).(tasks := old(Show(p)).tasks[id := old(ShowTask(task, its))])
  {
    p.tasks.Put(id, task, its);
  }

  /** Stores a copy of the task, whatever the caller's task hangs on. */
  method WithTask(snapshot: Picture, task: Task, ghost its: set<object>) returns (updated: Picture)
    requires Sound(snapshot) && TaskIn(task, its)
    ensures Sound(updated) && fresh(Footprint(updated))
    ensures Show(updated) == Learn(old(Show(snapshot)), TaskPacket(old(ShowTask(task, its))))
  {
    ghost var sight := ShowTask(task, its);
    updated := ClonePicture(snapshot);
    assert TaskIn(task, its) && ShowTask(task, its) == sight;
    CopyTaskInto(updated, task, its);
  }

  method CopyTaskInto(p: Picture, task: Task, ghost its: set<object>)
    requires Sound(p) && TaskIn(task, its) && p.tasks !in its
    modifies p.tasks
    ensures Sound(p) && fresh(Footprint(p) - old(Footprint(p)))
    ensures Show(p) == Learn(old(Show(p)), TaskPacket(old(ShowTask(task, its))))
  {
    ghost var was := Show(p);
    var copy, new' := CloneTask(task, its);
    assert Sound(p) && Show(p) == was;
    PutTask(p, task.id, copy, new');
  }

  lemma NewStatus(task: Task, objects: set<object>, event: StatusEvent, its: set<object>)
    requires TaskIn(task, objects) && BoxIn(event.message, its)
    ensures var t := task.(id := event.taskID, contextID := event.contextID, state := event.state, message := event.message);
            && TaskIn(t, objects + its)
            && ShowTask(t, objects + its) == WithNewStatus(ShowTask(task, objects), ShowStatus(event, its))
  {
    MoreObjectsForTask(task, objects, objects + its);
    MoreObjectsForBox(event.message, its, objects + its);
  }

  /** A status message is stored as it is: the pointer goes into the picture, not a copy. */
  method WithStatus(snapshot: Picture, event: StatusEvent, ghost its: set<object>) returns (updated: Picture)
    requires Sound(snapshot) && BoxIn(event.message, its) && event.taskID in Show(snapshot).tasks
    ensures Sound(updated) && fresh(Footprint(updated) - its)
    ensures event.taskID in updated.tasks.entries && updated.tasks.entries[event.taskID].message == event.message
    ensures event.message != null ==> event.message in Footprint(updated)
    ensures Show(updated) == Learn(old(Show(snapshot)), StatusPacket(old(ShowStatus(event, its))))
  {
    ghost var was, sight := Show(snapshot), ShowStatus(event, its);
    updated := ClonePicture(snapshot);
    assert BoxIn(event.message, its) && ShowStatus(event, its) == sight;
    SetStatus(updated, event, its);
  }

  method SetStatus(p: Picture, event: StatusEvent, ghost its: set<object>)
    requires Sound(p) && BoxIn(event.message, its) && event.taskID in Show(p).tasks && Own(p) !! p.taskClaims.objects !! its
    modifies p.tasks
    ensures Sound(p) && Footprint(p) == old(Footprint(p)) + its
    ensures event.taskID in p.tasks.entries && p.tasks.entries[event.taskID].message == event.message
    ensures Show(p) == Learn(old(Show(p)), StatusPacket(old(ShowStatus(event, its))))
  {
    ghost var objects := p.tasks.objects;
    assert ShownAs(p.tasks.entries, objects, p.tasks.shown, event.taskID);
    var task := p.tasks.entries[event.taskID];
    NewStatus(task, objects, event, its);
    var task' := task.(id := event.taskID, contextID := event.contextID, state := event.state, message := event.message);
    PutTask(p, event.taskID, task', objects + its);
  }

  method AddSignal(p: Picture, signal: Signal) returns (q: Picture)
    requires Sound(p)
    modifies p.signals.cells
    ensures q == p.(signals := q.signals) && Sound(q) && (q.signals.cells == p.signals.cells || fresh(q.signals.cells))
    ensures Footprint(q) <= old(Footprint(p)) + {q.signals.cells} && Show(q) == Learn(old(Show(p)), SignalPacket(signal))
  {
    var signals := Append(p.signals, signal);
    q := p.(signals := signals);
  }

  method WithSignal(snapshot: Picture, signal: Signal) returns (updated: Picture)
    requires Sound(snapshot)
    ensures Sound(updated) && fresh(Footprint(updated))
    ensures Show(updated) == Learn(old(Show(snapshot)), SignalPacket(signal))
  {
    var copy := ClonePicture(snapshot);
    updated := AddSignal(copy, signal);
  }

  method AddMetric(p: Picture, metric: Metric) returns (q: Picture)
    requires Sound(p)
    modifies p.metrics.cells
    ensures q == p.(metrics := q.metrics) && Sound(q) && (q.metrics.cells == p.metrics.cells || fresh(q.metrics.cells))
    ensures Footprint(q) <= old(Footprint(p)) + {q.metrics.cells} && Show(q) == Learn(old(Show(p)), MetricPacket(metric))
  {
    var metrics := Append(p.metrics, metric);
    q := p.(metrics := metrics);
  }

  method WithMetric(snapshot: Picture, metric: Metric) returns (updated: Picture)
    requires Sound(snapshot)
    ensures Sound(updated) && fresh(Footprint(updated))
    ensures Show(updated) == Learn(old(Show(snapshot)), MetricPacket(metric))
  {
    var copy := ClonePicture(snapshot);
    updated := AddMetric(copy, metric);
  }

  method AddContention(p: Picture, contention: D.Contention) returns (q: Picture)
    requires Sound(p)
    modifies p.contentions.cells
    ensures q == p.(contentions := q.contentions) && Sound(q) && (q.contentions.cells == p.contentions.cells || fresh(q.contentions.cells))
    ensures Footprint(q) <= old(Footprint(p)) + {q.contentions.cells} && Show(q) == Learn(old(Show(p)), ContentionPacket(contention))
  {
    var contentions := Append(p.contentions, contention);
    q := p.(contentions := contentions);
  }

  method WithContention(snapshot: Picture, contention: D.Contention) returns (updated: Picture)
    requires Sound(snapshot)
    ensures Sound(updated) && fresh(Footprint(updated))
    ensures Show(updated) == Learn(old(Show(snapshot)), ContentionPacket(contention))
  {
    var copy := ClonePicture(snapshot);
    updated := AddContention(copy, contention);
  }

  // ----- The view -----

  method EmptySlice<T(0)>() returns (s: Slice<T>)
    ensures fresh(s.cells) && s.Fits() && s.Elements() == []
  {
    var cells := new T[0];
    s := Slice(cells, 0);
  }

  method NewFlat(taskClaims: ClaimMap, tasks: TaskMap) returns (p: Picture)
    ensures p.taskClaims == taskClaims && p.tasks == tasks && fresh(Flat(p)) && ListsFit(p)
    ensures Show(p) == NOTHING.(taskClaims := taskClaims.shown, tasks := tasks.shown)
  {
    var claims := new GoMap<G.ClaimRecord>(map[]);
    var statuses := new GoMap<S.StatusRecord>(map[]);
    var announces := EmptySlice<Announce>();
    var signals := EmptySlice<Signal>();
    var metrics := EmptySlice<Metric>();
    var contentions := EmptySlice<D.Contention>();
    p := Picture(claims, statuses, tasks, taskClaims, announces, signals, metrics, contentions);
  }

  method NewPicture() returns (p: Picture)
    ensures Sound(p) && fresh(Footprint(p)) && Show(p) == NOTHING
  {
    var taskClaims := new ClaimMap();
    var tasks := new TaskMap();
    p := NewFlat(taskClaims, tasks);
    Assembled(p, taskClaims, tasks);
  }

  class View {
    const gossipTTL: int
    var state: Picture
    ghost var shown: Shown
    ghost var repr: set<object>

    ghost predicate Valid()
      reads this, repr
    {
      && this !in repr && state.taskClaims in repr && state.tasks in repr && Footprint(state) <= repr
      && Sound(state) && shown == Show(state)
    }

    constructor (gossipTTL: int)
      requires gossipTTL > 0
      ensures Valid() && this.gossipTTL == gossipTTL && fresh(repr) && shown == NOTHING
    {
      this.gossipTTL := gossipTTL;
      var picture := NewPicture();
      state, shown, repr := picture, Show(picture), Footprint(picture);
    }

    /** Makes the finished copy the current picture. */
    method Publish(updated: Picture)
      requires Sound(updated) && this !in Footprint(updated)
      modifies this
      ensures Valid() && state == updated && shown == old(Show(updated)) && repr == old(Footprint(updated))
    {
      state, shown, repr := updated, Show(updated), Footprint(updated);
    }

    method Merge(rumor: Rumor) returns (fault: Option<Fault>)
      requires Valid()
      modifies this
      ensures Valid() && fault == FaultOf(old(shown), RumorPacket(rumor))
      ensures shown == Merged(old(shown), RumorPacket(rumor))
      ensures if fault.None? then fresh(repr) else unchanged(this)
    {
      if !RumorIsValid(rumor) {
        return Some(Invalid);
      }
      assert FaultOf(shown, RumorPacket(rumor)) == None;
      var updated := Heard(state, rumor);
      Publish(updated);
      fault := None;
    }

    /** Stores a copy, so that the caller keeps nothing of what is published. */
    method MergeTask(task: Task, ghost its: set<object>) returns (fault: Option<Fault>)
      requires Valid() && TaskIn(task, its)
      modifies this
      ensures Valid() && fault == FaultOf(old(shown), TaskPacket(old(ShowTask(task, its))))
      ensures shown == Merged(old(shown), TaskPacket(old(ShowTask(task, its))))
      ensures if fault.None? then fresh(repr) else unchanged(this)
    {
      var ok := ValidateTask(task, its);
      if !ok {
        return Some(Invalid);
      }
      assert FaultOf(shown, TaskPacket(ShowTask(task, its))) == None;
      var updated := WithTask(state, task, its);
      Publish(updated);
      fault := None;
    }

    method MergeTaskClaim(claim: C.TaskClaim) returns (fault: Option<Fault>)
      requires Valid()
      modifies this
      ensures Valid() && fault == FaultOf(old(shown), ClaimPacket(claim))
      ensures shown == Merged(old(shown), ClaimPacket(claim))
      ensures if fault.None? then fresh(repr) else unchanged(this)
    {
      if !C.TaskClaimIsValid(claim) {
        return Some(Invalid);
      }
      assert FaultOf(shown, ClaimPacket(claim)) == None;
      var updated := WithTaskClaim(state, claim);
      Publish(updated);
      fault := None;
    }

    method CheckStatus(event: StatusEvent, ghost its: set<object>) returns (fault: Option<Fault>)
      requires Valid() && BoxIn(event.message, its)
      ensures fault == FaultOf(shown, StatusPacket(ShowStatus(event, its)))
    {
      if Blank(event.taskID) {
        return Some(Invalid);
      }
      var ok := ValidateStatus(event.state, event.message, its);
      if !ok {
        return Some(Invalid);
      }
      var known := HasTask(event.taskID);
      fault := if known then None else Some(UnknownTask(event.taskID));
    }

    /**
      A status for a task that is not in the view is refused. Otherwise the caller's message
      itself is what the published picture points to.
     */
    method MergeTaskStatus(event: StatusEvent, ghost its: set<object>) returns (fault: Option<Fault>)
      requires Valid() && BoxIn(event.message, its) && this !in its
      modifies this
      ensures Valid() && fault == FaultOf(old(shown), StatusPacket(old(ShowStatus(event, its))))
      ensures shown == Merged(old(shown), StatusPacket(old(ShowStatus(event, its))))
      ensures if fault.None? then fresh(repr - its) else unchanged(this)
      ensures fault.None? ==> event.taskID in state.tasks.entries && state.tasks.entries[event.taskID].message == event.message
      ensures fault.None? && event.message != null ==> event.message in Footprint(state)
    {
      fault := CheckStatus(event, its);
      if fault.Some? {
        return;
      }
      var updated := WithStatus(state, event, its);
      Publish(updated);
    }

    method MergeSignal(signal: Signal) returns (fault: Option<Fault>)
      requires Valid()
      modifies this
      ensures Valid() && fault == FaultOf(old(shown), SignalPacket(signal))
      ensures shown == Merged(old(shown), SignalPacket(signal))
      ensures if fault.None? then fresh(repr) else unchanged(this)
    {
      if !SignalIsValid(signal) {
        return Some(Invalid);
      }
      assert FaultOf(shown, SignalPacket(signal)) == None;
      var updated := WithSignal(state, signal);
      Publish(updated);
      fault := None;
    }

    method MergeMetric(metric: Metric) returns (fault: Option<Fault>)
      requires Valid()
      modifies this
      ensures Valid() && fault == FaultOf(old(shown), MetricPacket(metric))
      ensures shown == Merged(old(shown), MetricPacket(metric))
      ensures if fault.None? then fresh(repr) else unchanged(this)
    {
      if !MetricIsValid(metric) {
        return Some(Invalid);
      }
      assert FaultOf(shown, MetricPacket(metric)) == None;
      var updated := WithMetric(state, metric);
      Publish(updated);
      fault := None;
    }

    method MergeContention(contention: D.Contention) returns (fault: Option<Fault>)
      requires Valid()
      modifies this
      ensures Valid() && fault == FaultOf(old(shown), ContentionPacket(contention))
      ensures shown == Merged(old(shown), ContentionPacket(contention))
      ensures if fault.None? then fresh(repr) else unchanged(this)
    {
      if !D.IsValid(contention) {
        return Some(Invalid);
      }
      assert FaultOf(shown, ContentionPacket(contention)) == None;
      var updated := WithContention(state, contention);
      Publish(updated);
      fault := None;
    }

    /** Decodes a message of any kind into new objects and merges it, or says what is wrong with it. */
    method MergePacket(m: Packet) returns (fault: Option<Fault>)
      requires Valid()
      modifies this
      ensures Valid() && fault == FaultOf(old(shown), m) && shown == Merged(old(shown), m)
      ensures if fault.None? then fresh(repr) else unchanged(this)
    {
      match m
      case RumorPacket(rumor) => fault := Merge(rumor);
      case TaskPacket(task) => fault := TakeTask(task);
      case ClaimPacket(claim) => fault := MergeTaskClaim(claim);
      case StatusPacket(event) => fault := TakeStatus(event);
      case SignalPacket(signal) => fault := MergeSignal(signal);
      case MetricPacket(metric) => fault := MergeMetric(metric);
      case ContentionPacket(contention) => fault := MergeContention(contention);
      case UnsupportedPacket(kind) => fault := Some(Unsupported(kind));
    }

    method TakeTask(task: TaskShown) returns (fault: Option<Fault>)
      requires Valid()
      modifies this
      ensures Valid() && fault == FaultOf(old(shown), TaskPacket(task)) && shown == Merged(old(shown), TaskPacket(task))
      ensures if fault.None? then fresh(repr) else unchanged(this)
    {
      var made, its := MakeTask(task);
      assert Valid();
      fault := MergeTask(made, its);
    }

    method TakeStatus(event: StatusShown) returns (fault: Option<Fault>)
      requires Valid()
      modifies this
      ensures Valid() && fault == FaultOf(old(shown), StatusPacket(event)) && shown == Merged(old(shown), StatusPacket(event))
      ensures if fault.None? then fresh(repr) else unchanged(this)
    {
      var box, its := MakeBox(event.message);
      assert Valid();
      fault := MergeTaskStatus(StatusEvent(event.taskID, event.contextID, event.state, box), its);
    }

    method PurgeExpired(now: int)
      requires Valid()
      modifies this
      ensures Valid() && fresh(repr)
      ensures shown == Forget(old(shown), Cutoff(now, gossipTTL))
    {
      var updated := Purged(state, Cutoff(now, gossipTTL));
      Publish(updated);
    }

    method HasTask(id: string) returns (known: bool)
      requires Valid()
      ensures known <==> id in shown.tasks
    {
      known := id in state.tasks.entries;
      SameKeys(state.tasks.entries, state.tasks.objects, state.tasks.shown);
    }

    /** Returns a copy, so that the caller cannot reach into the picture through it. */
    method GetTask(id: string) returns (task: Option<Task>, ghost its: set<object>)
      requires Valid()
      ensures fresh(its) && (task.Some? <==> id in shown.tasks)
      ensures task.Some? ==> TaskIn(task.value, its) && ShowTask(task.value, its) == shown.tasks[id]
    {
      var tasks := state.tasks;
      assert ShownAs(tasks.entries, tasks.objects, tasks.shown, id);
      if id !in tasks.entries {
        return None, {};
      }
      var copy;
      copy, its := CloneTask(tasks.entries[id], tasks.objects);
      task := Some(copy);
    }

    method TaskClaim(task: string, actor: string) returns (claim: Option<C.TaskClaim>)
      requires Valid()
      ensures claim.Some? <==> C.Has(shown.taskClaims, task, actor)
      ensures claim.Some? ==> claim.value == shown.taskClaims[task][actor]
    {
      if task !in state.taskClaims.entries {
        return None;
      }
      var claims := state.taskClaims.entries[task];
      claim := if actor in claims.entries then Some(claims.entries[actor]) else None;
    }

    method TaskClaimWinner(task: string) returns (winner: Option<C.TaskClaim>)
      requires Valid() && C.WellKeyed(shown.taskClaims)
      ensures winner.None? <==> task !in shown.taskClaims
      ensures winner.Some? ==> C.Wins(shown.taskClaims, task, winner.value)
    {
      winner := C.Winner(state.taskClaims.Table(), task);
    }

    method ClaimHolder(prefix: string) returns (holder: Option<string>)
      requires Valid()
      ensures holder == if prefix in shown.claims then Some(shown.claims[prefix].actor) else None
    {
      holder := if prefix in state.claims.entries then Some(state.claims.entries[prefix].actor) else None;
    }
  }

  // ----- Snapshots over time -----

  datatype Call = Purge(now: int) | Take(packet: Packet)

  function Step(shown: Shown, call: Call, ttl: int): Shown {
    match call
    case Purge(now) => Forget(shown, Cutoff(now, ttl))
    case Take(packet) => Merged(shown, packet)
  }

  /** What a view shows after the calls, one after the other. */
  function After(shown: Shown, calls: seq<Call>, ttl: int): Shown {
    if calls == [] then shown else Step(After(shown, calls[..|calls| - 1], ttl), calls[|calls| - 1], ttl)
  }

  lemma AfterOneMore(shown: Shown, calls: seq<Call>, i: nat, ttl: int)
    requires i < |calls|
    ensures After(shown, calls[..i + 1], ttl) == Step(After(shown, calls[..i], ttl), calls[i], ttl)
  {
    assert calls[..i + 1][..i] == calls[..i];
  }

  method Perform(view: View, call: Call)
    requires view.Valid()
    modifies view
    ensures view.Valid() && view.shown == Step(old(view.shown), call, view.gossipTTL)
    ensures fresh(view.repr - old(view.repr))
  {
    match call
    case Purge(now) =>
      view.PurgeExpired(now);
    case Take(packet) =>
      var fault := view.MergePacket(packet);
  }

  method PerformBeside(view: View, call: Call, ghost loaded: Picture)
    requires view.Valid() && Sound(loaded) && view !in Footprint(loaded)
    modifies view
    ensures view.Valid() && view.shown == Step(old(view.shown), call, view.gossipTTL)
    ensures Sound(loaded) && Footprint(loaded) == old(Footprint(loaded)) && Show(loaded) == old(Show(loaded))
  {
    Perform(view, call);
  }

  /**
    Whoever loaded a picture goes on seeing what it showed, whatever is merged and purged
    afterwards: none of the objects it hangs on is written.
   */
  method LoadedPictureStays(view: View, calls: seq<Call>) returns (loaded: Picture)
    requires view.Valid()
    modifies view
    ensures view.Valid() && view.shown == After(old(view.shown), calls, view.gossipTTL)
    ensures loaded == old(view.state) && Sound(loaded) && Show(loaded) == old(view.shown)
    ensures unchanged(old(view.repr))
  {
    loaded := view.state;
    ghost var start, objects := view.shown, view.repr;
    for i := 0 to |calls|
      invariant view.Valid() && view.shown == After(start, calls[..i], view.gossipTTL)
      invariant view !in objects && Footprint(loaded) <= objects && Sound(loaded) && Show(loaded) == start
    {
      PerformBeside(view, calls[i], loaded);
      AfterOneMore(start, calls, i, view.gossipTTL);
    }
    assert calls[..|calls|] == calls;
  }

  lemma WhatIsShownNow(m: TaskMap, id: string, message: Message, its: set<object>)
    requires m.Valid() && id in m.entries && m.entries[id].message != null && m.entries[id].message.message == message
    requires MessageIn(message, its)
    ensures id in m.shown && m.shown[id].message == Some(ShowMessage(message, its))
  {
    assert ShownAs(m.entries, m.objects, m.shown, id);
    MoreObjects(message, m.objects, m.objects + its);
    MoreObjects(message, its, m.objects + its);
  }

  method WriteMessage(box: MessageBox, later: Message, tasks: TaskMap, id: string, ghost its: set<object>)
    requires tasks.Valid() && id in tasks.entries && tasks.entries[id].message == box && id in tasks.shown
    requires MessageIn(later, its) && box !in its
    modifies box
    ensures box.message == later && MessageIn(later, its) && ShowMessage(later, its) == old(ShowMessage(later, its))
    ensures Some(ShowMessage(later, its)) != tasks.shown[id].message ==> !tasks.Valid()
  {
    box.message := later;
    if tasks.Valid() {
      WhatIsShownNow(tasks, id, later, its);
    }
  }

  /**
    The maker of a status keeps its message. What is written there later changes the picture
    that was published, which then no longer shows what is on record for it.
   */
  method StatusStaysItsMakers(view: View, event: StatusEvent, later: Message, ghost its: set<object>, ghost more: set<object>)
    requires view.Valid() && event.message != null && BoxIn(event.message, its) && view !in its
    requires FaultOf(view.shown, StatusPacket(ShowStatus(event, its))).None?
    requires MessageIn(later, more) && event.message !in more && view !in more
    modifies view, event.message
    ensures event.taskID in view.state.tasks.entries && view.state.tasks.entries[event.taskID].message == event.message
    ensures MessageIn(event.message.message, more) && ShowMessage(event.message.message, more) == old(ShowMessage(later, more))
    ensures old(ShowMessage(later, more)) != old(ShowMessage(event.message.message, its)) ==> !Sound(view.state)
  {
    ghost var first, second := ShowMessage(event.message.message, its), ShowMessage(later, more);
    var fault := view.MergeTaskStatus(event, its);
    assert view.state.tasks.shown[event.taskID].message == Some(first);
    assert MessageIn(later, more) && ShowMessage(later, more) == second;
    WriteMessage(event.message, later, view.state.tasks, event.taskID, more);
  }
}
