# Verified model of the swarm's coordination

The repository lets agents that share no boss work on one tree of files. This project models
the parts that decide who may do what, and proves what they promise:

- **Leases.** A map from keys to leases is changed by copy-on-write attempts that retry when
  they lose a compare-and-swap. `Leases` says what one attempt may do, with an arbitrary map
  order and two clock readings; `Coordinators` is the registry as a class with loops;
  `Snapshots` is the retry loop; `LeaseThreads` lets any number of threads load, compute and
  swap in any order. `KeySpaces` is what a key space has to satisfy and `PathKeySpace` the one
  for paths.
- **Task claims.** Participants claim a task, wait, and confirm. `TaskClaims` and `Statuses`
  are the merges, `TaskProtocol` is the timed race between any number of peers with delays,
  clock skew and broadcasts that can fail, `Participants` is one participant's own code, and
  `ParticipantRuns` shows that what participants do together is a run of the protocol.
- **Views.** `Views` is a participant's picture of the swarm on the heap, with `Heap` for Go's
  maps and slices and `Tasks` for tasks, their validation and their deep copies. `ViewLaws`
  says, part by part, what each message and each purge leave.
- **Lease gossip.** `ClaimGossip` relates what views say about holders to what the coordinator
  holds, and `GossipRuns` shows that what participants do with leases is a run of it.
- **Contention.** `Contentions` and `Detectors` find starved actors and pairs that wait for
  each other.
- **Opinion clusters.** `DisjointSets` is union-find on two maps and `Clusters` what is
  computed with it.
- **Users.** `ConfiguredClaims` claims one of several prefixes with retries, `Workflows` is the
  lease transaction of a workflow agent, and `Memory` and `MemoryStores` are the document
  memory with its suffix index and tombstones. `MemoryHistories` tells what the store holds
  from the history of changes alone.

`Text`, `Sorting`, `Recency` and `Wrappers` hold strings, sorting, cutoffs and result types.

## How the code is read

Time is an unbounded integer; every clock reading is a parameter. Go's map iteration is an
arbitrary choice, so each result is proved independent of it or says what it leaves open. A
published value has an identity of its own, as a Go pointer has. Sorting promises no more than
a sorted permutation. In views and tasks, maps are objects and slices are backing arrays with a
length, because the code filters and appends in place and copies one level at a time. The
loops over maps take any remaining key at each turn.

A method of a view may write no object but the view itself, and the closures it publishes
through may write nothing that existed before. Every operation but one publishes new objects
only. The exception is `MergeTaskStatus`: its event's message is stored as it is, so that the
published snapshot shares it with the caller until the next operation copies it
(`StatusStaysItsMakers`). Messages that arrive over the mesh are decoded into new objects, so
nobody else holds theirs.

Where the code does not do what one would expect, the model follows the code:

- A call that lost a swap can return a conflict and hold the lease (`SpuriousConflict`), and a
  sweep that lost one can report a lease twice (`SweepReportsTwice`). `NilMeansCommitted` and
  `SweepReportsExactlyIff` say exactly when.
- Confirmation drains before it looks at the clock, so the window has to cover that gap too. A
  claim whose broadcast fails stays in its owner's view, and claiming again does not send it
  (`SecondClaimIsSilent`); then two peers can start (`ExclusiveIffWindowSuffices`).
- A key can normalize to one with white space at an end, which is no fixed point and makes a
  read depend on map order (`NormalizeIdempotentIff`, `SpacedKeyTies`, `ReadIsDetermined`).
- Purging task claims early can change what a view shows later (`PurgingClaimsIsUnobservableIff`).
- An agent whose prefixes repeat a key can stop with leases (`LeftoverIsExact`). A claim that
  takes effect and is reported as failed is not recorded and not released (`StoppedHolds`):
  because the mesh did not take it, because of a lost swap as above, or because the prefix is
  empty, which is leased as "." while its rumour is invalid.
- NUL in actor IDs can merge two deadlocks into one (`AllReportedIff`, `NulHidesADeadlock`).
- A document is found by the last word of its text only: two texts share a suffix exactly when
  they end in the same word (`SharedSuffixIff`). Replacing a document does not remove its old
  suffixes, so a search can show a text that does not end like the query (`OldSuffixesStay`).
- A tombstone belongs to a path that different IDs can share, and no put lifts it
  (`TombstonedIff`, `HiddenByPath`).

Assumptions of the main results: distinct actor IDs; delivery of every broadcast claim within a
delay; clocks within a skew of real time that do not go back; in `ClaimGossip` atomic participant
steps, in-order delivery of every rumour, one spelling for each key, rumours that pass
validation, no lease idling away and no other calls to the coordinator; in `Workflows` no lease
of the agent idling away; in `Memory` that '/' and '_' are no word characters, and that the index
library keeps its own keys outside "animal/memory/".

## Model

| member | source | states |
|---|---|---|
| PathKeySpace.NormalizeIsTotal | lease/path_keyspace.go:17-26 | On a system with '/' as separator `Normalize` is lexical cleaning of the trimmed key and its error branch is never taken: the cleaned key is never empty. |
| PathKeySpace.CleanIdempotent | lease/path_keyspace.go:17-26 | Lexical cleaning with ".", ".." and repeated slashes has only fixed points as results. |
| PathKeySpace.CleanKeepsMeaning | lease/path_keyspace.go:17-26 | From every directory the cleaned path leads where the path itself leads, segment by segment. |
| PathKeySpace.NormalizeIdempotentIff | lease/path_keyspace.go:17-26 | A normalized key is a fixed point if and only if the last name the key leads to does not end in white space and the first does not begin with any, unless it comes after a "/" or a "..". |
| PathKeySpace.WhitespaceFreeIsFixed | lease/path_keyspace.go:17-26 | A key without white space, and any key whose segments have none at their ends, meets that condition: normalizing twice is normalizing once. |
| PathKeySpace.NormalizeNotIdempotent | lease/path_keyspace.go:17-26 | The concrete key "./ a", on which normalizing twice gives something else than normalizing once. |
| PathKeySpace.CoversIsPrefixOfClean | lease/path_keyspace.go:31-43 | One key covers another exactly when its cleaned text is a plain string prefix, without regard to "/" boundaries. |
| PathKeySpace.SpaceIsLawful | lease/path_keyspace.go:17-43 | Covering is reflexive on every key, and two keys that cover one key are comparable: what the lease proofs ask of a key space. |
| Text.BlankIsTrimmedAway | swarm/task_claim.go:57-64 | The blank test that guards every required field is the test whether trimming leaves nothing. |
| Text.TrimSpaceCutsEdges | lease/path_keyspace.go:18 | Trimming cuts white space, and nothing else, off the two ends and leaves none there. |
| Text.LessIsLexicographic | lease/sweep.go:47-56 | The order on strings that every sort uses is lexicographic: a proper prefix comes first, otherwise the first difference decides. |
| Leases.AttemptKeepsExclusive | lease/coordinator.go:74-116 | Every attempt of every operation, with any clock readings and any map order, keeps leases of different actors from covering one another. |
| Leases.CoveringLeasesShareActor | lease/coordinator.go:330-350 | All leases that cover one key belong to one actor, so the reported holder does not depend on map order. |
| Leases.RunKeepsExclusive | lease/coordinator.go:74-204 | Exclusion holds after every committed attempt of every run that starts from it. |
| Leases.AttemptKeepsHeld | lease/coordinator.go:320-328 | Only its holder's release takes a lease away before it has idled for the whole TTL. |
| Leases.RunKeepsHeld | lease/coordinator.go:320-328 | Over any stretch of a run whose purge readings stay within the TTL of a stamp, the lease stays unless its holder releases it. |
| Leases.WritersHandOver | lease/coordinator.go:244-290 | If two actors write one key within the idle TTL, each while it holds a live covering lease and whether or not a lease is required, the first released a covering lease in between. |
| Leases.BeatSurvives | lease/coordinator.go:170-204 | One entry of a run as the holder of a live lease sees it: the lease stays, a renewal goes through, a foreign overlapping acquire is answered with a conflict. |
| Leases.HeartbeatKeepsLease | swarm/heartbeat.go:99-119 | If every reading falls within the TTL of an earlier renewal attempt and the holder does not release, all renewals go through and no stamp is lost. |
| Leases.HeartbeatExcludesOthers | swarm/heartbeat.go:99-119 | While its holder keeps renewing, the lease stays in the table and every overlapping acquire of another actor returns a conflict and changes nothing. |
| Leases.AcquireComesTo | lease/coordinator.go:74-116 | An acquire succeeds if and only if every overlapping lease of somebody else has been idle longer than the TTL. Then the actor holds the key with the new stamp and every other live lease stays as it was; otherwise nothing changes and the conflict names one of those leases. |
| Leases.ReleaseComesTo | lease/coordinator.go:132-165 | A release removes the actor's own live lease and no other live one; for a lease that is missing or somebody else's it is refused accordingly and changes nothing. |
| Leases.TouchComesTo | lease/coordinator.go:170-204 | A touch stamps the actor's own live lease and leaves every other live one as it was; otherwise it is refused accordingly and changes nothing. |
| Leases.ObserveComesTo | lease/coordinator.go:212-239 | A read removes exactly the idle leases. It is refused if and only if a live lease of somebody else covers the key, and then names the longest live lease that does; leases under an empty key or without an actor are passed over. |
| Leases.WriteComesTo | lease/coordinator.go:263-290 | A write that needs a lease goes through if and only if the actor has a live covering one; one such lease gets the stamp and all other live leases stay as they were. |
| Leases.RenewComesTo | lease/coordinator.go:258-261 | A write that needs no lease always goes through; it stamps a live covering lease of the actor if there is one and changes nothing otherwise. |
| Leases.WriterKeepsLease | lease/coordinator.go:244-318 | A write of either kind by the holder of a live covering lease keeps one of the actor's covering leases in the table for a TTL from the write's stamp, whatever else the run does, unless the actor releases it. |
| Coordinators.Coordinator.PurgeExpired | lease/coordinator.go:320-328 | The loop keeps exactly the leases that have not been idle longer than the TTL. |
| Coordinators.Coordinator.OverlappingLease | lease/coordinator.go:352-372 | Finds a lease of another actor that overlaps the key in either direction, or shows that there is none. |
| Coordinators.Coordinator.CoveringLease | lease/coordinator.go:292-318 | Finds a lease of the actor that covers the key, or shows that there is none. |
| Coordinators.Coordinator.LeaseHolder | lease/coordinator.go:330-350 | Returns a longest covering lease and its actor; an empty lease key is never reported. |
| Coordinators.Coordinator.AcquireID | lease/coordinator.go:74-116 | Argument errors change nothing; otherwise the call is one attempt of the acquire relation and keeps exclusion and the spelling of keys. |
| Coordinators.Coordinator.ReleaseID | lease/coordinator.go:132-165 | Argument errors, unknown leases and leases of others are refused and change nothing; the actor's own lease is removed, and idle ones with it. |
| Coordinators.Coordinator.TouchID | lease/coordinator.go:170-204 | Argument errors, unknown leases and leases of others are refused and change nothing; the actor's own lease is stamped, and idle ones are removed with it. |
| Coordinators.Coordinator.ObserveRead | lease/coordinator.go:212-239 | Purges, and reports the longest covering lease when another actor holds it. |
| Coordinators.Coordinator.WritePolicy | lease/coordinator.go:244-262 | A write gets past the policy checks if and only if the principal may write, the key normalizes and, if prefixes are listed, one of them covers it; otherwise the first of the three that fails is the refusal. |
| Coordinators.Coordinator.MatchesAnyPrefix | lease/coordinator.go:374-382 | True exactly when one of the prefixes covers the key. |
| Coordinators.Coordinator.CanWrite | lease/coordinator.go:244-318 | With the lease requirement a write goes through if and only if the actor has a live lease covering the key. With or without it, if there is one, one such lease gets the write's stamp and all other live leases stay as they were; otherwise the table does not change. |
| Coordinators.Coordinator.CollectExpired | lease/sweep.go:29-46 | The loop splits the table into what stays and the reports of what goes. |
| Coordinators.Coordinator.SweepExpired | lease/sweep.go:23-59 | Without a time a sweep is refused and changes nothing; otherwise an uncontended sweep removes exactly the leases idle for longer than the TTL and returns one report for each, with its actor, prefix and last use, sorted by prefix and then actor. |
| Coordinators.StoredKeyIsFixed | lease/path_keyspace.go:17-26 | Every key in a table whose prefixes have clean edges is a fixed point of normalizing. |
| Coordinators.LongestIsUnique | lease/coordinator.go:330-350 | In such a table the longest stored key that covers a key is unique. |
| Coordinators.ReadIsDetermined | lease/coordinator.go:212-239 | So a read answers the same and leaves the same table for every order in which the map is visited. |
| Coordinators.SpacedKeyTies | lease/coordinator.go:212-239 | With a prefix like "./ a" in use, two acquires lead to a table in which one read has two possible answers. |
| Coordinators.SweepAnswerIsUnique | lease/sweep.go:47-56 | Because a prefix belongs to one key, the sorted answer is the same for every map order. |
| Snapshots.Snapshot.Load | internal/snapshot.go:28-30 | Returns the published value together with the identity of its pointer. |
| Snapshots.Snapshot.CompareAndSwap | internal/snapshot.go:40-44 | Publishes exactly when the pointer is still the loaded one; every publication has a new identity. |
| Snapshots.Snapshot.Attempt | internal/snapshot.go:36-44 | One turn of the loop succeeds exactly when nobody committed in between. |
| Snapshots.Snapshot.Update | internal/snapshot.go:35-46 | Whatever others commit in between, the change is published once on top of all earlier changes, none is lost, and every lost attempt is charged to a commit of another thread. |
| LeaseThreads.TraceKeepsInv | internal/snapshot.go:35-46 | What every interleaving of any number of load, compute and swap steps keeps: the log of commits is a run, and every thread's loaded value is one that was published. |
| LeaseThreads.CommitsAreSequential | internal/snapshot.go:35-46 | In every interleaving the published table is what the committed attempts give one after the other, and that order respects the real-time order of calls. |
| LeaseThreads.PublishedLeasesExclude | lease/coordinator.go:74-204 | Every table published in any interleaving excludes overlapping leases of different actors. |
| LeaseThreads.NilMeansCommitted | lease/coordinator.go:84-115 | A call returns nil if and only if all its attempts succeeded. Answer and effect agree if and only if the last attempt was refused or all were done; in particular with a single attempt. |
| LeaseThreads.SpuriousConflict | lease/coordinator.go:84-115 | A concrete interleaving in which an acquire returns a conflict and holds the lease: the captured error is not cleared when the closure runs again. |
| LeaseThreads.ConcurrentWritersHandOver | lease/coordinator.go:244-290 | The hand-over property for concurrent writers in every interleaving. |
| LeaseThreads.ContendedRenewalsAnswerNil | swarm/heartbeat.go:99-119 | While a holder keeps its lease alive, each of its renewals returns nil in every interleaving, however many swaps it loses. |
| LeaseThreads.ConcurrentHeartbeatKeepsLease | swarm/heartbeat.go:99-119 | The heartbeat property for concurrent threads: every committed renewal went through and the published table still holds the lease. |
| LeaseThreads.SweepReportsExactlyIff | lease/sweep.go:29-56 | What a sweep returns are exactly the leases it removed, each once, if and only if no attempt that lost its swap had collected one. |
| LeaseThreads.SweepReportsTwice | lease/sweep.go:29-46 | A run in which a sweep reports a lease twice: the captured list is not emptied when the closure runs again. |
| LeaseThreads.LostSwapsArePaidFor | internal/snapshot.go:35-46 | A thread never loses more swaps than the other threads have won. |
| TaskClaims.MergeAllHoldsEarliest | swarm/view_events.go:33-58 | After any sequence of merges the table holds the earliest claim of every task and actor, and nothing that was not received. |
| TaskClaims.ReceptionOrderIsIrrelevant | swarm/view_events.go:33-58 | Without purges, any order and any repetition of the same claims gives the same table. |
| TaskClaims.ListClaims | swarm/view_events.go:195-206 | The listing is sorted by stamp and actor and holds exactly the claims of the task. |
| TaskClaims.ListingIsUnique | swarm/view_events.go:195-206 | The listing is the same for every map order. |
| TaskClaims.Winner | swarm/view_events.go:211-219 | A winner exists exactly when the task has claims, and no claim of the task comes before it. |
| TaskClaims.WinnerIsLeastReceived | swarm/view_events.go:195-219 | Without purges the winner is the least claim received, by stamp and then actor, and only that one. |
| TaskClaims.ClaimOrderIsTotal | swarm/view_events.go:259-265 | The comparator is a total preorder on claims. |
| TaskClaims.PurgingClaimsIsObservable | swarm/view.go:227-239 | A purge between two claims of one actor changes what the view shows at the end, unlike for statuses. |
| TaskClaims.PurgingClaimsIsUnobservableIff | swarm/view.go:227-239 | For every list of claims received: earlier purges, wherever they are put, change nothing of what a final purge leaves if and only if no actor's last claim on a task is recent while one received before it is not. |
| TaskClaims.LaterOldClaimHides | swarm/view.go:227-239 | It has to be the last claim: an old claim received after the recent one makes the purges unobservable again. |
| Statuses.PurgingStatusesIsUnobservable | swarm/view.go:195-225 | Purges with earlier cutoffs, anywhere between the merges, change nothing of what a final purge leaves. |
| Statuses.PurgedViewShowsLatest | swarm/view.go:362-375 | After the final purge an actor's status is the latest received if it is recent enough, and missing otherwise. |
| TaskProtocol.TraceKeepsInv | swarm/participant_tasks.go:69-144 | What every timed run keeps: views hold only published claims, and whatever a peer merged is still represented unless the race has outlived the TTL. |
| TaskProtocol.BetterClaimWasSeen | swarm/participant_tasks.go:112-144 | A claim that wins over a ready one was due before the confirming peer's drain ended, so it is in that peer's view. |
| TaskProtocol.StartedIsUnbeaten | swarm/participant_tasks.go:112-144 | A peer whose confirmation succeeds holds the least of all published claims on the task, or the race has outlived the TTL. |
| TaskProtocol.BetterStartWasNeverSent | swarm/participant_tasks.go:69-144 | If two peers start one task within the TTL of its earliest broadcast claim, the better of their two claims was kept by its owner because its broadcast failed. |
| TaskProtocol.AtMostOneStarts | swarm/participant_tasks.go:69-144 | In every run of any number of peers at most one starts a task within the TTL of its earliest claim, if the window exceeds delay, twice the skew and the time between drain and clock reading, unless a claim that was started never reached the mesh. |
| TaskProtocol.DoubleStartIsReachable | swarm/participant_tasks.go:69-144 | Two peers both start within the TTL in a concrete run whenever the window is not longer than the bound, or a broadcast can fail, and the window fits into the TTL. |
| TaskProtocol.LeastClaimantStarts | swarm/participant_tasks.go:112-144 | The least claimant's confirmation succeeds as soon as its window has elapsed, whatever else it has received, within the TTL. |
| TaskProtocol.ExclusiveIffWindowSuffices | swarm/participant_tasks.go:69-144 | The exact condition for two peers: no run has a double start within the TTL if and only if the window exceeds the bound and no broadcast can fail, or the window is longer than the TTL. |
| ClaimGossip.TraceKeepsInv | swarm/participant.go:142-205 | What every run of claims, renewals, releases and in-order receptions keeps between coordinator, broadcast log and views, every participant merging its own rumours twice. |
| ClaimGossip.DrainedViewNamesHolder | swarm/view.go:318-349 | A fully drained view that names a holder names the actor that holds the lease. |
| ClaimGossip.HolderIsNamed | swarm/view.go:318-349 | A drained view names the holder of every lease whose last claim is within the gossip TTL. |
| GossipRuns.TakingIsAGossipStep | swarm/participant.go:69-98 | Taking a message does to a view's records of lease claims what a step of the gossip model does: a lease rumour is merged after the purge, and any other message purges only. |
| GossipRuns.LeaseIsAStep | swarm/participant.go:142-205 | A participant's claim, renewal or release is a call of the gossip model; when it goes through, what it broadcasts is the rumour by which the log grows, and otherwise it broadcasts no lease rumour. |
| GossipRuns.RunIsATrace | swarm/participant.go:60-205 | Whatever any number of participants do with claims, renewals, releases and messages of all kinds is a trace of the gossip model, and their views are its peers' views. |
| GossipRuns.ShownHolderHoldsLease | swarm/view.go:278-286 | In every such run, whoever `ClaimHolder` names in the view of a participant that has taken every broadcast holds the lease in the coordinator's table. |
| GossipRuns.LeaseHolderIsShown | swarm/view.go:278-286 | Conversely, such a participant's `ClaimHolder` names the holder of every lease whose last claim is no older than the gossip TTL. |
| Tasks.CloneMessage | a2a/clone.go:22-34 | The copy of a message shows the same, and its parts, references and maps are on new arrays and objects. |
| Tasks.CloneList | a2a/clone.go:74-84 | A list of messages or artifacts is copied into a new array, each of them copied with what it hangs on. |
| Tasks.CloneStatus | a2a/clone.go:55-64 | The status message is copied behind a new pointer; a missing one stays missing. |
| Tasks.CloneTask | a2a/clone.go:69-87 | The copy of a task shows the same in every part and hangs on new objects only: arrays, maps and the status message. |
| Tasks.CloneTasks | swarm/view.go:112-116 | The map of tasks is copied task by task; the copy shows the same and shares nothing with the original. |
| Tasks.ValidatePart | a2a/model.go:140-170 | A part is valid exactly when it has one payload of the four kinds, which `PartHasOnePayload` spells out. |
| Tasks.ValidateMessage | a2a/model.go:173-193 | A message is valid exactly when its role is known and it has parts, all of them valid. |
| Tasks.ValidateTask | a2a/model.go:247-269 | A task is valid exactly when it has an ID, a valid status, and only valid messages and artifacts. |
| Tasks.PartHasOnePayload | a2a/model.go:140-170 | A valid part has a non-blank text, non-empty data, non-blank raw bytes or a non-blank URL, and exactly one of the four. |
| Tasks.ValidTaskHas | a2a/model.go:247-269 | A valid task has an ID and a known state; its status message and every message of its history have a known role and parts, and all parts, those of artifacts too, are valid. |
| Tasks.MessageShowsAll | a2a/clone.go:22-34 | What is shown of a message, and so what a copy has to agree on, is all of it: ID, role, references, metadata and every part's text, data, raw bytes and URL. |
| Tasks.TaskShowsAll | a2a/clone.go:69-87 | What is shown of a task is all of it: ID, context, state, status message, every artifact and message of the history, and metadata. |
| Heap.KeepRecent | swarm/view.go:208-216 | Filtering into the same backing array keeps exactly the recent elements, in order. |
| Heap.DropOld | swarm/view.go:200-206 | Deleting from a map while ranging over it keeps exactly the recent entries, whatever the order. |
| Recency.RecentCounts | swarm/view.go:208-216 | Filtering keeps what was stamped at or after the cutoff, each as often as it was there, and nothing else. |
| Recency.RecentSplits | swarm/view.go:208-216 | What is kept of a list is what is kept of its two halves, one behind the other: the order stays. |
| Views.CloneNested | swarm/view.go:118-123 | The nested claim maps are copied one by one: the copy shows the same and shares no map. |
| Views.ClonePicture | swarm/view.go:105-141 | A cloned snapshot shows the same in every part and hangs on new objects only, down to the messages of its tasks. |
| Views.MergeTaskClaimInto | swarm/view_events.go:38-55 | Writing into the nested map of the copy is the earliest-wins merge on the table. |
| Views.PurgeTaskClaims | swarm/view.go:227-239 | Deleting in the nested maps, and the maps that become empty, is the purge of the claim table. |
| Views.PurgeInto | swarm/view.go:195-273 | The whole purge of a copy, in place, is the purge of each part: claims, statuses, task claims, announcements, signals, metrics and contentions. |
| Views.Heard | swarm/view.go:172-187 | The closure of `Merge` changes no object that existed before, and its result is new and shows the merged rumour, as `ViewLaws` spells it out. |
| Views.Purged | swarm/view.go:198-272 | The closure of `PurgeExpired` changes no object that existed before, and its result is new and shows what is recent. |
| Views.WithTask | swarm/view_events.go:20-25 | The closure of `MergeTask` stores a copy: its result hangs on new objects only, whatever the caller's task hangs on. |
| Views.WithTaskClaim | swarm/view_events.go:38-55 | The closure of `MergeTaskClaim` changes no object that existed before. |
| Views.WithStatus | swarm/view_events.go:76-85 | The closure of `MergeTaskStatus` changes no object that existed before; its result points to the event's own message and is otherwise new. |
| Views.View.Merge | swarm/view.go:167-190 | Invalid rumours change nothing; valid ones give the last-write-wins merge, which `ViewLaws` spells out for each kind. Nothing but the view's own fields is written. |
| Views.View.MergeTask | swarm/view_events.go:15-28 | An invalid task is refused; a valid one replaces the one with its ID, by a copy. |
| Views.View.MergeTaskClaim | swarm/view_events.go:33-58 | Invalid claims change nothing; valid ones give the earliest-wins merge. |
| Views.View.MergeTaskStatus | swarm/view_events.go:63-88 | An invalid status or one for an unknown task is refused; otherwise context, state and message of the task are replaced and its history, artifacts and metadata stay. The published picture shares the message with the caller, and nothing else. |
| Views.View.MergeSignal | swarm/view_events.go:93-106 | Appends a valid signal, also when the backing array has room left. |
| Views.View.MergeMetric | swarm/view_events.go:111-124 | Appends a metric with a finite score between 0 and 1. |
| Views.View.MergeContention | swarm/view_contention.go:8-21 | Appends a valid contention event. |
| Views.View.PurgeExpired | swarm/view.go:195-273 | Publishes what is recent, on new objects only. |
| Views.View.GetTask | swarm/view_events.go:129-133 | Returns a copy of the task on new objects, exactly when the view has it. |
| Views.View.TaskClaim | swarm/view_events.go:180-190 | Returns the actor's claim on the task exactly when the view has one. |
| Views.View.TaskClaimWinner | swarm/view_events.go:211-219 | Returns the winner of the table that the view shows. |
| Views.View.ClaimHolder | swarm/view.go:278-286 | Returns the actor that the view names for the prefix, if any. |
| Views.LoadedPictureStays | internal/snapshot.go:28-46 | Whoever loads a snapshot goes on seeing what it showed through any list of merges and purges: none of the objects it hangs on is written, and the view ends with the fold of the calls. |
| Views.StatusStaysItsMakers | swarm/view_events.go:79 | The one alias: what the maker of a status writes into its message afterwards changes the published snapshot. |
| ViewLaws.ClaimComesTo | swarm/view.go:318-331 | A claim with prefix, actor and time gives the prefix to the claimant with the claim's time unless a later claim is on record; nothing else in the view changes, and any other claim is refused. |
| ViewLaws.ReleaseComesTo | swarm/view.go:333-349 | A valid release by the recorded actor that is no earlier than the record frees the prefix; every other release leaves the view as it was. |
| ViewLaws.AnnounceComesTo | swarm/view.go:351-360 | An announcement with a topic, an actor and a time is appended; any other is refused. |
| ViewLaws.StatusComesTo | swarm/view.go:362-375 | A status with a state, an actor and a time becomes the actor's unless a later one is on record; nothing else in the view changes. |
| ViewLaws.TaskComesTo | swarm/view_events.go:15-28 | A valid task is stored under its ID and every other task stays; an invalid one is refused. |
| ViewLaws.TaskStatusComesTo | swarm/view_events.go:63-88 | A valid status for a known task replaces its context, state and message; its history, artifacts and metadata and all other tasks stay. An invalid one and one for an unknown task are refused, in this order. |
| ViewLaws.TaskClaimComesTo | swarm/view_events.go:33-58 | A valid claim becomes the actor's claim on the task unless the actor has one that is no later; the claims of other actors and on other tasks stay. |
| ViewLaws.SignalComesTo | swarm/event.go:102-127 | A signal is appended exactly when it has an actor, a known kind, a summary and a time. |
| ViewLaws.MetricComesTo | swarm/event.go:129-151 | A metric is appended exactly when it has an actor, a name, a time and a finite score between 0 and 1. |
| ViewLaws.ContentionComesTo | swarm/contention.go:51-76 | A contention event is appended exactly when it has an actor, a prefix, an error and a time and the actor is not its own holder. |
| ViewLaws.ForgetKeeps | swarm/view.go:195-273 | A purge keeps all tasks and, of claims, statuses, task claims, announcements, signals, metrics and contention events, exactly what is no older than the TTL, and no task without a claim. |
| Participants.Participant.ReceiveArtifact | swarm/participant.go:69-98 | Every message purges first; then it is merged, or refused with the purge left in place. |
| Participants.Participant.Drain | swarm/participant.go:103-115 | Messages of all kinds are taken in order until the inbox is empty or one is refused; the refused one is gone and the rest stays. |
| Participants.Participant.PublishTaskClaim | swarm/participant_tasks.go:218-228 | A claim is merged locally before it is broadcast; when the mesh does not take it, it stays in the own view. |
| Participants.Participant.ClaimTask | swarm/participant_tasks.go:69-107 | The outcome in every case: which error comes first, the existing claim returned unchanged, the new claim merged and sent. |
| Participants.Participant.SecondClaimIsSilent | swarm/participant_tasks.go:88-90 | Claiming again returns the first claim and sends nothing, also when the first one was never sent. |
| Participants.Participant.ClaimGoesThroughIff | swarm/participant_tasks.go:69-107 | Claiming goes through exactly when the task is visible and the actor has a claim on it already, or actor, window and time are valid and the mesh takes the new claim, which is due when the window has elapsed. |
| Participants.Participant.JudgeClaim | swarm/participant_tasks.go:117-141 | The verdict on a drained view is the one of the protocol: there is no trouble exactly when the own claim is due and none on the task has an earlier stamp, or the same one and a lesser actor; a claim that lost names the winner's actor. |
| Participants.Participant.StartTask | swarm/participant_tasks.go:51-64 | The status is merged and broadcast, or the reason why not is returned; on success the view shows the task as working, with a note signed by this actor. |
| Participants.Participant.StartShowsWorking | swarm/participant_tasks.go:51-64 | After a start only the task's entry has changed: its state is working, its message is the note with the actor's ID, and that status is what was sent. |
| Participants.Participant.ConfirmTaskClaim | swarm/participant_tasks.go:112-144 | A failed drain ends the confirmation; otherwise the task is started exactly when the protocol's verdict on the drained view says so. Without trouble the own claim was due and first in the drained view, and the task is shown as working with a note signed by this actor. |
| Participants.StartedIff | swarm/participant_tasks.go:117-141 | The verdict is to start exactly when the actor's claim is due and no claim on the task has an earlier stamp, or the same stamp and a lesser actor. |
| Participants.Participant.TryClaim | swarm/participant.go:142-180 | The coordinator is asked first. If it agrees, the claim is merged into the own view and broadcast; if it refuses, that is merged and broadcast as contention that names who is in the way. |
| Participants.Participant.Renew | swarm/participant.go:153-180 | A renewal touches the lease, then merges and broadcasts the claim again; a refused one tells nobody. |
| Participants.Participant.Release | swarm/participant.go:182-205 | A release drops the lease, then merges and broadcasts the release; a refused one tells nobody. |
| Participants.Participant.ReportContention | swarm/participant_contention.go:10-60 | A refused claim is reported with the actor and key of the conflict, or else with whoever the own view names for the prefix, or nobody. |
| Participants.TakingIsAProtocolStep | swarm/participant.go:69-98 | Taking a message does to the claim table what a step of the timed protocol does. |
| Participants.DrainingKeepsWellKeyed | swarm/participant.go:103-115 | Every claim stays filed under its own task and actor through any drain. |
| ParticipantRuns.RunIsATrace | swarm/participant_tasks.go:69-144 | Whatever any number of participants do with these methods, within the protocol's bounds on clocks and delivery, is a trace of the timed protocol, and their views are its peers' views. |
| ParticipantRuns.ClaimIsAStep | swarm/participant_tasks.go:69-107 | A new claim is the protocol's claim step and is sent exactly when the mesh takes it; a refused or repeated one is no step. |
| ParticipantRuns.ConfirmIsAStep | swarm/participant_tasks.go:112-144 | A confirmation that is answered without trouble is a start in the protocol. |
| ParticipantRuns.AtMostOneIsToldToStart | swarm/participant_tasks.go:69-144 | In every such run, if the window suffices and every broadcast goes through, two participants' confirmations of one task are never both answered without trouble within the TTL of its earliest claim. |
| Contentions.RecentWindow | swarm/contention_detector.go:110-123 | The window holds exactly the events at or after the cutoff, sorted by time and actor. |
| Contentions.ByTimeIsTotal | swarm/view_contention.go:34-52 | The comparator is a total preorder on events. |
| Contentions.LatestContentionByActor | swarm/contention_detector_deadlock.go:35-54 | For each actor the latest event that names a holder, the first listed of several at one time. |
| Contentions.LatestIsOrderIndependent | swarm/contention_detector_deadlock.go:35-54 | If no actor has two such events at one time, the order of the events does not matter. |
| Contentions.PairKeyIsInjective | swarm/contention_detector_deadlock.go:77-83 | Without NUL in the actor IDs the key tells all unordered pairs apart. |
| Contentions.DetectDeadlocks | swarm/contention_detector_deadlock.go:5-33 | For every order in which the map is visited: each issue has the prefixes and times of the latest events of two actors that name each other and counts two attempts, no two issues share a key, and every such pair's key has one. |
| Contentions.DeadlocksAreExact | swarm/contention_detector_deadlock.go:5-33 | Without NUL in actor IDs there is exactly one issue about a pair if each one's latest event names the other, and none otherwise. |
| Contentions.NoSelfPair | swarm/contention.go:68-74 | Validated events never give an issue of an actor with itself. |
| Contentions.AllReportedIff | swarm/contention_detector_deadlock.go:5-33 | Every pair that names each other is reported if and only if no two different such pairs share a key. |
| Contentions.NulFreeKeysTellPairsApart | swarm/contention_detector_deadlock.go:77-83 | No two pairs share a key when the actors of the events have no NUL in their IDs. |
| Contentions.NulHidesADeadlock | swarm/contention_detector_deadlock.go:77-83 | Four events by which two pairs wait for each other, with NUL in two IDs: whatever the detector returns, one of the deadlocks is missing. |
| Contentions.GroupContentions | swarm/contention_detector_starvation.go:8-13 | The loop sorts the events into their groups, each in the order of the window. |
| Contentions.GroupIsActorAndPrefix | swarm/contention_detector_starvation.go:8-13 | Without NUL in actor IDs a group is one actor's failures on one prefix, all of them. |
| Contentions.DetectStarvation | swarm/contention_detector_starvation.go:5-26 | One issue for each group at the threshold and no other, for every map order: it counts the group, and its prefix and times are those of the first and the last event. |
| Contentions.StarvationIsExact | swarm/contention_detector_starvation.go:5-50 | Without NUL in actor IDs there is exactly one issue for each actor and prefix with as many failures as the threshold, it counts these failures, and there is no other. |
| Contentions.GroupCounts | swarm/contention_detector_starvation.go:8-13 | A group has each of its events as often as it was reported. |
| Contentions.IssueSpansGroup | swarm/contention_detector_starvation.go:28-50 | The issue's two times are the least and the greatest in its group. |
| Detectors.ContentionDetector.Detect | swarm/contention_detector.go:92-99 | Purges the view, then reports exactly the starved groups and the deadlocked pairs of the window. |
| DisjointSets.Forest.FindSet | examples/conversation/clusters.go:324-330 | Returns the root and points the way straight at it, changes no root, and takes no more hops than the logarithm of the number of elements. |
| DisjointSets.Forest.UnionSets | examples/conversation/clusters.go:332-352 | Joins exactly the classes of the two elements and keeps ranks rising towards the roots and trees bushy. |
| DisjointSets.CompressionKeepsShape | examples/conversation/clusters.go:324-330 | Path compression changes no element's root and keeps ranks rising. |
| DisjointSets.LinkKeepsShape | examples/conversation/clusters.go:340-351 | Union by rank keeps every tree whose root has rank r at 2^r members or more. |
| DisjointSets.DepthIsLogarithmic | examples/conversation/clusters.go:324-330 | No element lies deeper than the logarithm of the number of elements. |
| DisjointSets.RootsAreUnique | examples/conversation/clusters.go:324-330 | The roots are determined by the parent map. |
| Clusters.ThemeOverlap | examples/conversation/clusters.go:303-322 | The overlap times the size of the union is the size of the intersection; it is 1 exactly for equal non-empty sets and 0 exactly for disjoint ones. |
| Clusters.OverlapIsShare | examples/conversation/clusters.go:303-322 | The same of the specified quotient, with the bounds 0 and 1 and 0 for two empty sets. |
| Clusters.LinkedIff | examples/conversation/clusters.go:47-60 | Two actors are linked exactly when their common themes are at least the given share of the themes that either has; without any themes, when the share is not positive. |
| Clusters.DistinctiveOf | examples/conversation/clusters.go:217-257 | A theme is distinctive of an actor exactly when the actor holds it, it is not "general", and some actor does not hold it. |
| Clusters.UniversalThemes | examples/conversation/clusters.go:217-239 | Counting finds exactly the themes, other than "general", that every actor holds. |
| Clusters.DistinctiveThemes | examples/conversation/clusters.go:241-257 | A theme is kept exactly when it is in the set, not universal and not "general". |
| Clusters.UniteLinked | examples/conversation/clusters.go:47-60 | After the loop over all pairs, two actors have one root only if a chain of links connects them, and always if they are linked. |
| Clusters.RootsAreComponents | examples/conversation/clusters.go:40-66 | Two actors have one root if and only if a chain of pairs with enough overlap connects them. |
| Clusters.FillBuckets | examples/conversation/clusters.go:62-67 | Each root's bucket lists its members in order, although looking up roots rewrites the parent map. |
| Clusters.SharedThemes | examples/conversation/clusters.go:185-215 | The sorted list of exactly the themes that all members hold. |
| Clusters.FindClusters | examples/conversation/clusters.go:23-88 | The clusters are exactly the connected components with two members or more and a shared theme, each once, with disjoint members, for every map order. |
| Clusters.ComputeClusters | examples/conversation/clusters.go:71-95 | The result shows exactly these clusters, each with its themes and its members' names, or IDs where a name is missing, in the order of the first names. |
| Clusters.ShownUnderNames | examples/conversation/clusters.go:288-301 | Each member is shown by its name or, if that is missing or empty, by its ID. |
| Clusters.ClustersAreDisjoint | examples/conversation/clusters.go:71-88 | Two clusters that share an actor are the same cluster. |
| Workflows.OwnStepKeepsInv | ai/workflow_agent.go:83-116 | What every step of the transaction keeps: the agent holds what it claimed and has not released. |
| Workflows.OthersLeaveMine | lease/coordinator.go:74-204 | No call of another actor and no sweep changes which leases the agent holds, before they have idled away. |
| Workflows.OwnStepLeavesOthers | ai/workflow_agent.go:83-116 | The agent's own calls change no lease of anybody else that has not idled away, and add none. |
| Workflows.StoppedHolds | ai/workflow_agent.go:14-63 | What a stopped agent still holds, whichever call or broadcast failed, with any calls of other actors between its own: nothing if and only if all it was given is among what it released. |
| Workflows.LeftoverIsExact | ai/workflow_agent.go:14-63 | If no call that took effect was reported as failed, a stopped agent holds the keys it claimed except those before the first repeated one; nothing if and only if every key occurs before it, in particular when keys are distinct. |
| Workflows.AllAreHeldOnce | ai/workflow_agent.go:14-63 | An agent that gives back all its prefixes has, at one moment of the run, held the leases on exactly these. |
| Workflows.ClaimFailsIff | ai/workflow_agent.go:83-103 | The claim of a prefix is refused exactly when actor or prefix is invalid or an overlapping lease of somebody else has outlasted every claim so far and this one. |
| Workflows.WorkflowAgent.ClaimAll | ai/workflow_agent.go:83-103 | Claims in order; on a failure everything recorded is released in order. When nobody else calls and every broadcast goes out, the first prefix that cannot be claimed ends the claiming. |
| Workflows.WorkflowAgent.ReleaseAll | ai/workflow_agent.go:105-116 | Releases in order up to the first failure. |
| Workflows.MakeMove | lease/coordinator.go:74-204 | A call of somebody else is one attempt on the table or changes nothing; it takes no young lease of the actor away and gives it none. |
| Workflows.WorkflowAgent.RunAgent | ai/workflow_agent.go:14-63 | With any calls of others between the agent's own, the run is a trace that ends in the coordinator's table. On success with required leases the agent claimed all its prefixes, held exactly these leases at one moment, and holds nothing at the end. With all rumours broadcast and distinct keys it holds nothing on failure either. When nobody else calls, it succeeds if and only if the task starts and completes, every prefix has its own key and none fails because of an invalid name or a live rival, and live leases of others are untouched. |
| ConfiguredClaims.Delay | swarm/backoff.go:99-120 | Whatever the library's exponential delay and random number are, the delay is the lesser of that delay and the cap, or up to the jitter more, and only a non-positive attempt is refused. |
| ConfiguredClaims.Claimant.TryConfiguredOnce | swarm/participant_claim.go:67-85 | A sweep claims a prefix that the view showed as free when the sweep came to it, or reports a failure exactly when it tried one; a sweep in vain leaves no lease behind. With all rumours broadcast it claims the first free prefix that can be claimed at that reading, and none only if every free one has a live rival or an invalid name. |
| ConfiguredClaims.Claimant.TryClaimConfigured | swarm/participant_claim.go:26-65 | At most the allowed number of sweeps; on success the lease of a configured prefix is held, on failure the reason is one of three and the actor holds what it held before, whatever others did during the waits. |
| Memory.FieldsOfJoin | ai/memory_dmt_record.go:208-218 | Splitting a joined token list gives the tokens back. |
| Memory.FieldsKeepWords | ai/memory_dmt_record.go:214-218 | The tokens of a text lose none of its word characters, add none, and keep their order. |
| Memory.DocumentKeysCollideIff | ai/memory_dmt_record.go:138-140 | Two documents share a key if and only if their scopes have one path and their IDs do. |
| Memory.SequenceIsSuffix | ai/memory_dmt_record.go:192-206 | A joined token list is among a text's sequences if and only if it is a suffix of the text's tokens. |
| Memory.ParserInvertsBuilder | ai/memory_dmt_record.go:146-179 | Parsing an index key gives back the document key it was built from. |
| Memory.PrefixNamesSequence | ai/memory_dmt_record.go:146-152 | An index key starts with a sequence's prefix if and only if it was built for that sequence. |
| Memory.WalkVisitsPutDocuments | ai/memory_dmt.go:162-239 | Over all runs, walking a sequence's prefix visits exactly the document keys ever put with that sequence as a suffix. |
| Memory.DocumentKeyHoldsLatestPut | ai/memory_dmt.go:162-182 | A document key holds the record of the last put under it; index entries, relationships and tombstones never touch it. |
| Memory.IndexHoldsKeys | ai/memory_dmt.go:262-279 | Whatever an ID index key holds is a document key, in every run. |
| Memory.TombstonedIff | ai/memory_dmt.go:112-132 | Over all runs an ID has a tombstone if and only if an ID with its path was deleted at some time. |
| Memory.DeletionIsForever | ai/memory_dmt.go:112-132 | Once deleted, an ID and every ID with the same path stay deleted whatever comes after, also when put again. |
| Memory.PathForgetsPunctuation | ai/memory_dmt_record.go:230-246 | IDs that differ in one punctuation character have one path. |
| Memory.HiddenByPath | ai/memory_dmt.go:112-132 | A run in which deleting one ID hides the document just put under another that shares its path. |
| Memory.DifferentIDsShareAPath | ai/memory_dmt_record.go:230-246 | "a-b" and "a_b" are two such IDs. |
| Memory.IndexHoldsLatest | ai/memory_dmt.go:162-182 | Over all runs an ID index key holds the document key of the last put with an ID of its path, and is missing if there was none. |
| Memory.LookupIsStored | ai/memory_dmt.go:74-88 | Reading over all runs: by scope and ID the last put under that key, by ID alone the last put of any scope, and nothing if the ID read was ever deleted. |
| Memory.DeletedIsNeverRead | ai/memory_dmt.go:241-260 | No read by any ID and scope returns an ID whose path was ever deleted. |
| Memory.PutIsReadBack | ai/memory_dmt.go:74-88 | A document just put is read back by ID and scope and by ID alone, unless an ID with its path was deleted before; then it is not found. |
| Memory.RelationshipParserInvertsBuilder | ai/memory_dmt_record.go:162-190 | Parsing a relationship index key gives back the relationship key, and the key lies under the prefix of its sequence. |
| Memory.RelationIsIndexed | ai/memory_dmt.go:184-218 | A relationship put with a sequence as a suffix has its index key under that sequence in every later state. |
| MemoryHistories.PathCutsEdges | ai/memory_dmt_record.go:230-246 | A path is the trimmed value in lower case with an underscore for every character of no word, without the underscores at its two ends. |
| MemoryHistories.SharedSuffixIff | ai/memory_dmt_record.go:192-206 | Two texts have a common suffix in the index if and only if they end in the same word. |
| MemoryHistories.LatestPutIff | ai/memory_dmt.go:162-182 | What a document key holds last is what the last of all puts under it stored. |
| MemoryHistories.FoundIffCurrent | ai/memory_dmt.go:241-260 | Over all runs a document key leads to a record if and only if that is the last one put under it and no ID with its path was ever deleted. |
| MemoryHistories.FoundByScope | ai/memory_dmt.go:262-279 | A read by scope and ID finds exactly the record that can be read under their document key. |
| MemoryHistories.FoundByID | ai/memory_dmt.go:262-279 | A read by ID alone finds exactly the document that was put last with the ID's path, whatever its scope, if it can be read. |
| MemoryHistories.OldSuffixesStay | ai/memory_dmt.go:162-182 | A run in which a replaced text still leads to the document: the index keeps its suffixes while a read gives the new text. |
| MemoryHistories.KnownIff | ai/memory_dmt.go:262-279 | The ID index knows an ID if and only if a document with its path was put at some time. |
| MemoryHistories.RelationKeyHoldsStanding | ai/memory_dmt.go:184-218 | Over all runs a relationship key holds the last relationship put under it; documents, indexes and tombstones never touch it. |
| MemoryHistories.RelationIndexIsExact | ai/memory_dmt.go:184-218 | Over all runs the keys under a sequence's relationship prefix are exactly those of the relationships put with it as a suffix. |
| MemoryStores.MutationIsReadBack | ai/memory_dmt_record.go:22-46 | What is read back under a mutation's own, untrimmed ID and scope is its trimmed ID, scope and text, unless an ID with its path was deleted before. |
| MemoryStores.MemoryStore.TrainDocument | ai/memory_dmt.go:220-239 | The loop marks exactly the index keys of the text's suffixes. |
| MemoryStores.MemoryStore.PutDocument | ai/memory_dmt.go:162-182 | Refuses a mutation without ID, scope or words, in this order; otherwise stores the trimmed ID, scope and text, its ID index and its suffix index. |
| MemoryStores.MemoryStore.PutRelationship | ai/memory_dmt.go:184-218 | Refuses a mutation without scope, endpoints or type, in this order; otherwise stores a relationship from the trimmed ID to the trimmed related ID, under the metadata's ID or one made of the three, and its suffix index. |
| MemoryStores.MemoryStore.Put | ai/memory_dmt.go:93-107 | A mutation with a relationship or a related ID that is not blank is stored as a relationship, any other as a document, exactly when it has what these need; a refused one changes nothing. |
| MemoryStores.MemoryStore.Delete | ai/memory_dmt.go:112-132 | Sets a tombstone exactly when the ID is not blank and a document with its path was put at some time, and fails without a change otherwise. |
| MemoryStores.MemoryStore.Get | ai/memory_dmt.go:74-88 | By scope and ID returns exactly the last record put under their key, by ID alone exactly the last one put with the ID's path, and nothing if the ID returned was ever deleted. |
| MemoryStores.MemoryStore.WalkDocuments | ai/memory_dmt_search.go:120-150 | Adds eligible documents from new keys under the prefix up to the limit; if the limit is not reached, none under the prefix is missing. |
| MemoryStores.MemoryStore.CollectDocuments | ai/memory_dmt_search.go:101-118 | Adds documents from the sequence's own prefix. Exactly when there is no hit before nor under that prefix, the prefix of the analog is walked, and then all hits come from there. |
| MemoryStores.MemoryStore.CollectRelationships | ai/memory_dmt_search.go:152-182 | Adds every relationship in scope that the sequence's index leads to, each once, and no other. |
| MemoryStores.Candidates | ai/memory_dmt_search.go:72-99 | Every sequence of the query and everything the beam search proposes, each once. |
| MemoryStores.MemoryStore.Search | ai/memory_dmt_search.go:55-70 | At most `limit` documents, from different keys and never deleted, and relationships, all of exactly the query's scope if it names one, whatever the library proposes. If there are fewer documents, nothing is missing of what can be read now, is in scope and was put, under its key, with a text or endpoints that end in the query's last word. When the library proposes nothing, the answer holds nothing else. |

## Left out

- Transport, JSON envelopes and queues: the mesh is an in-order broadcast with a delay bound; a message that fails to decode is not modelled.
- Goroutines, tickers, contexts and cancellation: heartbeat and sweeper are steps that the clock enables.
- LeaseThreads.TraceKeepsInv: threads of one process share one clock that does not go back; a sweep may use an old reading.
- Workflows.WorkflowAgent.RunAgent: the run takes no longer than the idle TTL; the trace results only ask that none of the agent's leases idles away. The task's status messages are two flags.
- TaskProtocol.AtMostOneStarts: a peer that joins late and never receives earlier claims is not modelled.
- ParticipantRuns.RunIsATrace: each participant's step is atomic, as its view's updates are.
- GossipRuns.RunIsATrace: one clock for all, each step atomic, and every lease rumour broadcast; reads, writes and sweeps on the coordinator are not part of these runs.
- Tasks.CloneTask: values in data and metadata maps are strings. In Go they can be maps or lists themselves, which a copy shares with its original.
- Tasks.Message: file names, media types, descriptions, timestamps and the task and context IDs inside messages are strings that no rule reads.
- Clusters.ThemeOverlap: overlap is an exact quotient, not a floating-point one.
- Clusters.ComputeClusters: the numbers that clusters are given before sorting.
- Contentions.DetectDeadlocks: issue summaries are not modelled.
- MemoryStores.MemoryStore.Search: embeddings and metadata are not kept.
- MemoryStores.MemoryStore.PutRelationship: what the index library trains on beside the store is not modelled.
- Beam search, consolidation and structural analogs: arbitrary functions of the search.
- Display names and roles in announcements, signals, metrics and contention events: they are carried along and read by no rule.
- ConfiguredClaims.Claimant.TryClaimConfigured: what the view shows as free is an arbitrary choice at every prefix of every sweep; calls do not contend, and the whole run takes no longer than the idle TTL.
- ConfiguredClaims.Delay: the growth of the library's exponential delay is not modelled.
- Reporting signals and metrics from a participant's own calls, and the text of errors; what arrives of them is merged.
- Submitting, completing, failing and canceling tasks: the same path as starting one. That a completed task stays completed does not hold, because statuses are merged without an order check.
- That a sweep reports every expired lease: other operations purge too, without a report.
- Line-range edits of files, prompts, providers, dashboards, configuration and command line.
- Integer widths: stamps are unbounded, and durations do not saturate.
- Path separators other than '/'.
