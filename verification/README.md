# Cloud Robotics Core: a verified model

This project models the controllers and the HTTP relay of Cloud Robotics Core in Dafny and proves what they
keep over all inputs, all runs and all interleavings. `dafny verify dfyconfig.toml` checks everything.

| files | what they model |
|---|---|
| `ApiServer`, `Syncer`, `SyncerOwnership`, `SyncerQuiescence`, `SyncerSubtree`, `ConflictCounter` | cr-syncer: two clusters kept in step through stale caches and two work queues |
| `SetNames`, `Synk`, `SynkServer`, `SynkRetry`, `SynkSets` | synk: a manifest applied as one versioned ResourceSet, with retries, owner references and pruning |
| `RelayTypes`, `RelayClient`, `Broker`, `BrokerServer`, `ResponseFilter`, `Relay` | the HTTP relay: chunking in the client, the broker, the reply to the waiting user, and all of it end to end |
| `Release`, `ReleaseRuns`, `ChartAssignments`, `ChartAssignmentRuns`, `ChartAssignmentRaces` | the ChartAssignment controller: one worker per release, and the finalizer and status protocol around it |
| `NameOrder`, `AppRollout`, `AppRolloutOrder`, `AppRolloutReconcile`, `AppRolloutStatus` | the AppRollout controller: which ChartAssignments are wanted, and the difference to those there are |
| `ValueMerges`, `SharedTables`, `SharedValues`, `SharedGeneration`, `RolloutValues` | the chart values of a rollout on maps that are shared and merged in place, and when they are the wanted ones |
| `Corefile` | the two rewrites of the CoreDNS Corefile |

A method that changes state step by step is a class method or a loop here too. It is proved equal to a function,
and the results are lemmas about that function or about the runs that are built from it. Concurrency is modelled as
steps; every result on runs holds for every order of the steps.

## What the proofs turned up

Some properties that one would like to have are false of the code as it is. For each, the project proves the exact
condition under which it holds, or a run in which it fails next to the general result.

- cr-syncer: `conflictErrors` is shared without a lock. The counter is exact if and only if every increment is atomic
  (`ConflictCounter.CounterCountsConflicts`, `ConflictCounter.SplitAddMiscounts`). It stays within its limit in any case.
- cr-syncer: workers do not wait for the events of both clusters. A downstream object that is being deleted, synced
  before the cache shows its upstream object, loses its key, and the clusters can stay different. It is the only step
  that does so (`SyncerQuiescence.StepCovers`, `SyncerQuiescence.CoveredIffNoneMissed`, `SyncerQuiescence.LostKeyIsNeverSynced`).
- cr-syncer: an upstream status that somebody else overwrites is noticed if and only if a downstream event of the key is
  queued or on its way, or a spec copy changes the downstream object (`SyncerQuiescence.CoveredIffNoticed`; over runs,
  `SyncerQuiescence.CoveredIffNoneMissed`). Otherwise it stays until the next resync, restart or write of that key
  (`SyncerQuiescence.UnrepairedWriteSurvives`). A downstream object with a finalizer outlives its upstream object, marked
  as being deleted.
- synk: after version 2^31-1 the next version wraps to -2^31, whose name does not decode (`SetNames.NextVersion`,
  `SetNames.DecodeUndoesEncode`).
- synk: the number of failures falls from pass to pass, for every cluster and all replies, if and only if no two resources
  with a name have the same key (`SynkRetry.DuplicateKeysMayRise`, `SynkRetry.FallsIffNamedOnce`).
- synk: an object keeps the name of its ResourceSet owner up to the first garbage collection that finds that set gone while
  another owner keeps the object; then any set can take it over (`SynkSets.OwnerIsMonotone`, `SynkSets.DisownedIsTakenOver`).
- ChartAssignment: the phase and the retry flag of a release stay as they were from the acceptance of a job until the
  job sets its first phase, and a read in between can do harm.
  - An update can start once too often (`ReleaseRuns.StaleReadStartsAnother`). Throughout a run updates start within the
    retries if and only if none starts for a generation whose last update has not ended for a retry
    (`ReleaseRuns.WithinRetriesIffNoneReopens`); if the generations asked for do not fall, that is a start for the
    accepted generation while the flag is down (`ReleaseRuns.WithinRetriesIff`).
  - The finalizer of an object whose update is still to run can be dropped (`ChartAssignmentRaces.StaleDeletedDropsFinalizer`).
    If nobody else takes it away, it is carried throughout a run if and only if none is removed, from the object as it
    was read, after a look at the phase that was too early (`ChartAssignmentRuns.CarriedIffNoneRemovedEarly`). With
    writers who do, `ChartAssignmentRuns.CarriedIffNoneEnds` says which steps end it.
  - After such a removal, the next object can ask for a lower generation than the one accepted last
    (`ChartAssignmentRaces.LowerGenerationIsAsked`).
- ChartAssignment: reconcile ignores the result of `ensureUpdated`, and an accepted update may still wait. So a status
  can name the new generation as observed while Settled is that of the old one
  (`ChartAssignmentRuns.SettledStatusIsOfAcceptedGeneration` says exactly when, and
  `ChartAssignmentRaces.StaleSettledIsStored` is a run in which one is stored).
- ChartAssignment: a release reaches phase Deleted also after an error of Synk (`Release.Release.RunDelete`). No result here
  takes Deleted to mean that Synk succeeded.
- AppRollout: the robot named when selectors overlap depends on the order of the list; over all orders it can be any that
  the first overlapping entry shares with earlier ones (`AppRolloutOrder.NamedAreShared`). Nothing else depends on the order.
- AppRollout: an update builds its object from nothing, which takes away the finalizers and the other owners, and so
  the finalizer of the ChartAssignment controller until that puts it back (`AppRolloutReconcile.UpdateDropsFinalizers`).
  A reconcile converges, and the next one is silent, if and only if nothing lingers (`AppRolloutReconcile.ConvergesIff`):
  no obsolete assignment has a finalizer, and none that is being deleted has to change.
- AppRollout: deletions go by name, so a stale listing can delete an assignment that the rollout does not own
  (`AppRolloutReconcile.UnownedIsDeletedIffListed`).
- AppRollout: obsolete assignments count as settled in the reconcile that replaces them
  (`AppRolloutStatus.ObsoleteAssignmentsCount`). `AppRolloutStatus.ConditionsMeanWantedIff` says exactly when Settled and
  Ready speak of the wanted assignments all the same.
- AppRollout: names of assignments and of app namespaces are unique only within a rollout and a namespace; two of them
  can collide exactly if one name continues the other in one of two ways (`AppRolloutOrder.AssignmentsCollideIff`,
  `AppRolloutOrder.AppNamespacesCollideIff`). If two assignments collide, a reconcile fails.
- AppRollout: tables in the base values are merged in place, at any depth, so that assignments share them. A generation
  yields the values that are meant exactly if no assignment puts anything into such a table that is not meant for every
  other one that shows it (`ValueMerges.AllAsMeantIff`, `RolloutValues.GenerateValues`).
- Corefile: the two rewrites undo each other exactly under the conditions stated in `Corefile.RevertUndoesPatch` and
  `Corefile.PatchUndoesRevert`.

Where comments and code differ, the model follows the code: `RelayRequest` returns on a duplicate id without unlocking
(broker.go:95-97), the comment on `Reconcile` speaks of a rollback that is not there (controller.go:135-138 of the
ChartAssignment controller), and `delete` reports success after an error (release.go:211-216).

## Model

| member | source | states |
|---|---|---|
| Syncer.CrSyncer.StartInformers | src/go/cmd/cr-syncer/syncer.go:255-274 | Starting fails exactly if informers run already or a server cannot be reached; otherwise both caches show the clusters and every object is queued |
| Syncer.CrSyncer.RestartInformers | src/go/cmd/cr-syncer/syncer.go:276-288 | A restart fails only if a server cannot be reached, and never because informers were running |
| Syncer.CrSyncer.SyncDownstream | src/go/cmd/cr-syncer/syncer.go:404-503 | One status copy in all its branches: what both clusters, the upstream queue and the conflict counter are afterwards, and whether the key is retried |
| Syncer.CrSyncer.CopyStatusInto | src/go/cmd/cr-syncer/syncer.go:446-466 | The status is taken whole, or one subtree of it; it fails exactly if a status that has to be a dictionary is none |
| Syncer.CrSyncer.SyncUpstream | src/go/cmd/cr-syncer/syncer.go:508-599 | One spec copy in all its branches: creation, update, deletion and their errors, and the effect on the counter |
| Syncer.CrSyncer.ProcessNextWorkItem | src/go/cmd/cr-syncer/syncer.go:316-362 | Too many conflicts restart the informers first, which queues every object again, and a failed restart or sync puts the key back; the counter never exceeds its limit |
| SyncerOwnership.RunIsVersioned | src/go/cmd/cr-syncer/syncer.go:404-599 | In every run a resource version names one state of one object |
| SyncerOwnership.FieldOwnership | src/go/cmd/cr-syncer/syncer.go:404-599 | Whatever the age of each cached object, no sync step changes an upstream spec, label set or foreign annotation, creates or deletes an upstream object, or changes the status of a downstream object that exists |
| SyncerOwnership.WrittenFields | src/go/cmd/cr-syncer/syncer.go:440-599 | A sync that wrote has written exactly the fields it owns, from the snapshot it worked from, onto the current object; with and without a subtree and a status subresource |
| SyncerSubtree.CopiesMerge | src/go/cmd/cr-syncer/syncer.go:446-466 | After any number of copies by owners of different subtrees each owner's subtree equals its source, or is absent where the source lacks it, and every other key is unchanged |
| SyncerSubtree.CopiesCommute | src/go/cmd/cr-syncer/syncer.go:446-466 | Any two schedules of the same owners, with any order and repetition, end with the same status |
| SyncerSubtree.FullCopiesDoNotCommute | src/go/cmd/cr-syncer/syncer.go:446-466 | Without a subtree the order does matter |
| SyncerQuiescence.SyncUpEffect | src/go/cmd/cr-syncer/syncer.go:508-599 | With caches that caught up, a spec copy succeeds and leaves downstream what upstream asks for, for that key only |
| SyncerQuiescence.SyncDownEffect | src/go/cmd/cr-syncer/syncer.go:404-503 | With caches that caught up, a status copy succeeds, or asks for a spec copy, or deletes an orphan |
| SyncerQuiescence.StepLowersTotal | src/go/cmd/cr-syncer/syncer.go:290-362 | Every delivery of an event and every sync lowers one measure of the whole system, unless it comes before the last event of its key; then it raises it by a constant at most |
| SyncerQuiescence.StepCovers | src/go/cmd/cr-syncer/syncer.go:404-599 | Differences stay covered by an event or a queued key through any step, however old the caches are, if and only if it is not the sync of a deleting downstream object whose upstream object the cache does not show yet |
| SyncerQuiescence.QueuesDrain | src/go/cmd/cr-syncer/syncer.go:290-599 | Once writers stop, and unless a sync loses its key, every run with stale syncs, resyncs and restarts or without is at most as long as that measure, a constant for each early step and one for each resync or restart, some other step can be taken until the queues are empty, and then spec, labels, annotations and status are equal, and no downstream object is without its upstream one except for those that a finalizer holds |
| SyncerQuiescence.WritersStop | src/go/cmd/cr-syncer/syncer.go:290-599 | The same from any point of a run with outside writes at which they stop, if no write was unnoticed and no key lost |
| SyncerQuiescence.ResyncCovers | src/go/cmd/cr-syncer/syncer.go:235-274 | A resync, and a restart of the informers, queues whatever is needed to repair any difference |
| SyncerQuiescence.CoveredIffNoticed | src/go/cmd/cr-syncer/syncer.go:404-599 | In any state, an outside event of any kind leaves every difference covered if and only if it is no upstream write, or a downstream event of the key is queued or on its way, or the status and the syncer's annotation fit the downstream object, or a spec copy changes that |
| SyncerQuiescence.CoveredIffNoneMissed | src/go/cmd/cr-syncer/syncer.go:290-599 | Through outside writes of any kind, mixed with sync steps from caches of any age, every difference stays covered if and only if no sync loses its key and every write is noticed |
| SyncerQuiescence.MixedRunStaysCovered | src/go/cmd/cr-syncer/syncer.go:290-599 | Through outside writes that keep to their own fields, whatever is in the queues, mixed with sync steps from caches of any age, every difference stays covered by an event or a queued key if and only if no sync loses its key |
| SyncerQuiescence.LostKeyIsNeverSynced | src/go/cmd/cr-syncer/syncer.go:426-439 | A run from empty clusters in which a key is lost: the queues are empty and the clusters differ |
| SyncerQuiescence.CoveredIffRepaired | src/go/cmd/cr-syncer/syncer.go:404-599 | The same once the queues have drained: the status and the annotation fit, or a spec copy changes the downstream object |
| SyncerQuiescence.UnrepairedWriteSurvives | src/go/cmd/cr-syncer/syncer.go:404-599 | Any other write is never noticed: the queues are empty again after two steps and the clusters differ |
| ConflictCounter.CounterWithinLimit | src/go/cmd/cr-syncer/syncer.go:316-362 | In every interleaving, even of the halves of an increment, the counter is at most the limit and only the cloud-facing worker raises it |
| ConflictCounter.CounterCountsConflicts | src/go/cmd/cr-syncer/syncer.go:316-362 | The counter equals the conflicts since the last success or restart throughout a run if and only if every increment of the run is atomic |
| ConflictCounter.SplitAddMiscounts | src/go/cmd/cr-syncer/syncer.go:476-499 | A run with a limit of 2 in which the counter says 2 after one conflict |
| SetNames.DecodesTheMatch | src/go/pkg/synk/synk.go:1024-1036 | A string matches the name pattern in at most one way, and decoding reads off that one |
| SetNames.DecodeUndoesEncode | src/go/pkg/synk/synk.go:1020-1036 | Decoding undoes encoding if and only if the name is non-empty, has no newline and the version is not negative, even for names that end like a version |
| SetNames.EncodeIsInjective | src/go/pkg/synk/synk.go:1020-1036 | Different pairs of such a name and a version have different set names |
| SetNames.NextVersion | src/go/pkg/synk/synk.go:970-987 | The next version is one above the largest of the name, or 1; it wraps exactly after the largest 32-bit version, and a set name whose version overflows panics |
| SetNames.NextNameIsFresh | src/go/pkg/synk/synk.go:970-1022 | The name of the next version is not in use |
| SynkServer.Server.SetOwnerRef | src/go/pkg/synk/synk.go:578-594 | The loop gives the manifest's other owners and then the set |
| SynkServer.Server.ValidateOwnerRefs | src/go/pkg/synk/synk.go:549-574 | A live object may be taken over exactly if all its ResourceSet owners are sets of the same name with versions up to this one |
| SynkServer.Server.ApplyResource | src/go/pkg/synk/synk.go:638-788 | One resource in all its outcomes: created, patched, replaced, left alone or lost between delete and create |
| SynkServer.Server.Summarize | src/go/pkg/synk/synk.go:378-402 | In any order of the results: no error exactly if every entry succeeded, a transient error exactly if some failed and all failures are transient |
| SynkServer.Server.ApplyEverything | src/go/pkg/synk/synk.go:301-403 | CRDs, the wait and the retry loop together; unless two resources with a name have one key, at most the smaller of ten and n + 1 passes |
| SynkServer.Server.Retry | src/go/pkg/synk/synk.go:343-376 | The loop of passes refines the recursive definition, with the number of failures of every pass |
| SynkServer.Server.OnePass | src/go/pkg/synk/synk.go:351-372 | One pass over the regular resources; a resource that succeeded is skipped |
| SynkServer.Server.DeleteResourceSets | src/go/pkg/synk/synk.go:946-968 | If the sets can be listed, the loop deletes the older ones of the name in listed order up to the first failure, and nothing else; otherwise nothing |
| SynkServer.Server.ChooseVersion | src/go/pkg/synk/synk.go:407-474 | A version is chosen exactly if discovery and the listing succeed and every namespace is allowed, and it is the next one; a forbidden namespace is a permanent error, the others are those of the call |
| SynkServer.Server.Apply | src/go/pkg/synk/synk.go:220-257 | The whole of Apply ends in the state, with the success and with the transience of its error that the definition of a versioned apply says, or changes nothing |
| SynkServer.ChosenVersionIsNext | src/go/pkg/synk/synk.go:970-987 | The version that is chosen satisfies what the results on whole sets assume of it |
| SynkRetry.PassFrame | src/go/pkg/synk/synk.go:351-358 | A pass leaves alone what is not in the list and, after the first pass, everything that has succeeded |
| SynkRetry.PassCount | src/go/pkg/synk/synk.go:363-372 | The failures counted by a pass are the resources whose last result is a failure |
| SynkRetry.LaterPass | src/go/pkg/synk/synk.go:351-376 | No pass ends with more failures than the one before, unless two resources with a name have one key |
| SynkRetry.LoopTerminates | src/go/pkg/synk/synk.go:345-376 | Unless two resources with a name have one key, the failures fall strictly from pass to pass until the last, so the loop ends by itself within n + 1 passes and within ten |
| SynkRetry.DuplicateKeysMayRise | src/go/pkg/synk/synk.go:351-376 | For every list with two resources of one key with a name there are a cluster and replies for which the second pass has more failures than the first |
| SynkRetry.FallsIffNamedOnce | src/go/pkg/synk/synk.go:351-376 | For all clusters and replies the failures fall, if and only if no two resources with a name have one key |
| SynkSets.ApplyAllSuccess | src/go/pkg/synk/synk.go:301-403 | Without an error every regular resource is as the manifest says and owned by the new set |
| SynkSets.SetOwnerIsTheOnlyOne | src/go/pkg/synk/synk.go:578-594 | After an apply the set is the one ResourceSet owner, and the other owners are kept |
| SynkSets.OtherOwnersInOrder | src/go/pkg/synk/synk.go:578-594 | The other owners keep their order |
| SynkSets.OwnerIsMonotone | src/go/pkg/synk/synk.go:547-594 | Over any sequence of applies, deletions of sets and garbage collections, an object's ResourceSet owner keeps its name and its version never falls while the object exists, if and only if no collection finds its set gone |
| SynkSets.CollectKeepsOwner | src/go/pkg/synk/synk.go:578-594 | The collector keeps the set owner of an object exactly if that set is alive |
| SynkSets.DisownedIsTakenOver | src/go/pkg/synk/synk.go:547-594 | A history in which an object goes from one set name to another after such a collection |
| SynkSets.PruneFacts | src/go/pkg/synk/synk.go:946-968 | What pruning leaves is a subset; it is complete if there was no error |
| SynkSets.SetsAfterApply | src/go/pkg/synk/synk.go:220-257 | After an error-free apply the new set is the only one of its name and the sets of other names are untouched |
| SynkSets.ApplyReplacesTheSet | src/go/pkg/synk/synk.go:220-257 | After an error-free apply and garbage collection the regular objects owned through the name are exactly those of the manifest, with its content |
| SynkSets.UidsStayIssued | src/go/pkg/synk/synk.go:220-257 | Over any sequence of applies, deletions of sets and garbage collections, every set and every reference has a UID that was issued, if those that manifests name have |
| SynkSets.EveryApplyReplacesTheSet | src/go/pkg/synk/synk.go:220-257 | So the same holds of every error-free apply in such a sequence |
| SynkSets.ApplySparesOthers | src/go/pkg/synk/synk.go:220-257 | An object that is neither in the manifest nor owned through the name fares as it would have without the apply |
| SynkSets.FailedApplyKeepsOldSets | src/go/pkg/synk/synk.go:248-257 | If a resource, the wait, or a call before the first deletion failed, no earlier set is deleted and garbage collection takes no regular object that it would not have taken before |
| RelayClient.StreamBytes | src/go/cmd/http-relay-client/main.go:215-231 | The blocks hold exactly the bytes read before the end or error, none is empty and none exceeds the block size |
| RelayClient.BuildResponses | src/go/cmd/http-relay-client/main.go:233-273 | The loop over blocks, ticks and the end of input sends the messages of the collating machine |
| RelayClient.StreamGrammar | src/go/cmd/http-relay-client/main.go:233-273 | In every interleaving all ids agree, only the first message has status and headers, only the last has Eof, and the bodies concatenate to the input |
| RelayClient.BodyBound | src/go/cmd/http-relay-client/main.go:233-273 | No body exceeds the chunk size plus the largest block |
| RelayClient.KeepAlive | src/go/cmd/http-relay-client/main.go:244-273 | No stretch with 31 ticks passes without a message; data and the status wait for one tick at most |
| RelayClient.KeepAliveIsTight | src/go/cmd/http-relay-client/main.go:244-273 | After a message, 30 ticks without data send nothing and the next one sends |
| ResponseFilter.Filter | src/go/cmd/http-relay-server/main.go:145-175 | The reply has the first message's status and headers and all bodies in order, or is an internal error if there is none; the channel is drained in every case |
| BrokerServer.RelayBroker.RelayRequest | src/go/cmd/http-relay-server/broker.go:87-118 | A fresh id is registered and queued under its server; a known id is refused, and the lock stays taken |
| BrokerServer.RelayBroker.GetRequest | src/go/cmd/http-relay-server/broker.go:122-141 | One request of that server is handed out, or none |
| BrokerServer.RelayBroker.AcceptResponse | src/go/cmd/http-relay-server/broker.go:181-198 | A response is accepted exactly if its id is known; Eof removes the id |
| BrokerServer.RelayBroker.SendResponse | src/go/cmd/http-relay-server/broker.go:181-206 | The message reaches the channel of its id, Eof closes that channel, other ids are untouched |
| BrokerServer.RelayBroker.ReapInactiveRequests | src/go/cmd/http-relay-server/broker.go:208-220 | Exactly the ids inactive since before the threshold are removed |
| Broker.RunKeepsInv | src/go/cmd/http-relay-server/broker.go:87-220 | Every state of every run of requests, polls, posts, sends, closes and reaping satisfies the broker's invariant |
| Broker.HandedOutOnceUnderOwnServer | src/go/cmd/http-relay-server/broker.go:87-141 | In every interleaving a request is handed out at most once and only under its own server |
| Broker.ResponsesReachTheirClient | src/go/cmd/http-relay-server/broker.go:179-206 | A channel holds only accepted responses of its id, in the order of posting, none after Eof, and all of them once nothing is in flight |
| Broker.ClosedAtMostOnce | src/go/cmd/http-relay-server/broker.go:179-220 | A channel is closed at most once, only by the step that the removal of its id allowed, and nothing is sent on it afterwards |
| Broker.EofCloses | src/go/cmd/http-relay-server/broker.go:188-205 | After Eof the sender has closed the channel, and the reaper has not |
| Broker.PostAfterEofIsRefused | src/go/cmd/http-relay-server/broker.go:181-190 | A late or repeated post changes nothing |
| Broker.SentIsReceived | src/go/cmd/http-relay-server/broker.go:181-206 | An undisturbed send arrives and touches no other channel |
| Relay.PostsAreAccepted | src/go/cmd/http-relay-server/broker.go:181-198 | Sequential posts for an id that is not reaped are all accepted |
| Relay.EndToEnd | src/go/cmd/http-relay-server/main.go:148-175 | However blocks, ticks and all steps of the broker interleave, the user gets the backend's status, headers and exactly its bytes in order, and the channel was closed once |
| Relay.RelayBody | src/go/cmd/http-relay-client/main.go:341-395 | The two stages of the client composed, with any number of ticks before each block and after the last: well-formed messages with exactly the bytes read, within the size bound |
| Release.Release.SetPhase | src/go/pkg/controller/chartassignment/release.go:178-184 | A new phase clears the error and the retry flag |
| Release.Release.SetFailed | src/go/pkg/controller/chartassignment/release.go:186-198 | An error is recorded; the phase becomes Failed only if it cannot be retried |
| Release.Release.RunUpdate | src/go/pkg/controller/chartassignment/release.go:222-255 | The statuses shown by an update, one by one; it ends Settled exactly if the chart loaded and Apply succeeded, and with the retry flag of the error otherwise |
| Release.Release.RunDelete | src/go/pkg/controller/chartassignment/release.go:200-220 | The statuses shown by a deletion; it ends Deleted even after an error, and does nothing if the release is Deleted |
| Release.Releases.Add | src/go/pkg/controller/chartassignment/release.go:106-127 | A name has one release for good |
| Release.Releases.EnsureUpdated | src/go/pkg/controller/chartassignment/release.go:129-150 | An update is started exactly if it is due and the worker waits; the generation is stored exactly then; other releases are untouched |
| ReleaseRuns.RunKeepsInv | src/go/pkg/controller/chartassignment/release.go:106-255 | If the generations asked for do not fall, the invariant of one release with its worker and its caller holds in every interleaving |
| ReleaseRuns.RunKeepsBase | src/go/pkg/controller/chartassignment/release.go:106-255 | In every interleaving, whatever generations are asked for, there is one worker and the status is that of its job |
| ReleaseRuns.OneJobAtATime | src/go/pkg/controller/chartassignment/release.go:106-176 | No two jobs of a release are ever accepted or running at once |
| ReleaseRuns.UpdatesPerGeneration | src/go/pkg/controller/chartassignment/release.go:129-255 | If the generations asked for do not fall, between deletions an update for a generation starts at most once, plus once per update that ended for a retry, plus once per stale read; without reads before the first phase there are no stale ones |
| ReleaseRuns.WithinRetriesIff | src/go/pkg/controller/chartassignment/release.go:129-255 | If the generations asked for do not fall, in all states of a run an update for a generation has started at most once, plus once per update that ended for a retry, if and only if no step starts one for the accepted generation while the retry flag is down |
| ReleaseRuns.WithinRetriesIffNoneReopens | src/go/pkg/controller/chartassignment/release.go:129-255 | Whatever generations are asked for, the same holds if and only if no step starts an update for a generation whose last one, since the last deletion began, has not ended for a retry |
| ReleaseRuns.SuperfluousExceeds | src/go/pkg/controller/chartassignment/release.go:129-176 | The first such start makes one update too many, and its flag was read while an update waited |
| ReleaseRuns.SettledMeansApplied | src/go/pkg/controller/chartassignment/release.go:178-255 | Settled means no error, no retry, and a last job that was an update without error; between jobs it is equivalent; if the generations asked for do not fall and no update waits, it was for the one accepted last |
| ReleaseRuns.SettledGeneration | src/go/pkg/controller/chartassignment/release.go:129-255 | In phase Settled the last job was for the accepted generation, or for an earlier one exactly if an update of another generation waits |
| ReleaseRuns.TrueMeansAccepted | src/go/pkg/controller/chartassignment/release.go:129-150 | When ensureUpdated returns true, the generation asked for is the accepted one, or a deletion has reset it |
| ReleaseRuns.RetryMeansError | src/go/pkg/controller/chartassignment/release.go:178-255 | The retry flag means an error and a phase that is neither Settled nor Failed nor Deleted; between jobs it is up exactly if the last job ended for a retry |
| ReleaseRuns.DeletedHasNoGeneration | src/go/pkg/controller/chartassignment/release.go:200-220 | In phase Deleted no generation counts as deployed, unless a new update waits |
| ReleaseRuns.StaleReadStartsAnother | src/go/pkg/controller/chartassignment/release.go:132-176 | A run with a stale read in which three updates start for one generation after a single retry |
| ChartAssignments.OthersStay | src/go/pkg/controller/chartassignment/controller.go:439-468 | Setting a condition leaves the conditions of other types alone and in order |
| ChartAssignments.StaysOnePerKind | src/go/pkg/controller/chartassignment/controller.go:439-468 | Setting a condition keeps one condition per type |
| ChartAssignments.ConditionIsSet | src/go/pkg/controller/chartassignment/controller.go:439-468 | The condition has the new status and message; its transition time moves only with its status |
| ChartAssignments.NewStatusIsSound | src/go/pkg/controller/chartassignment/controller.go:315-371 | A status that is written is Settled exactly if the release is, and Ready exactly if the release is settled, the namespace exists and every pod runs or has succeeded |
| ChartAssignments.Assignment.SetCondition | src/go/pkg/controller/chartassignment/controller.go:439-468 | The search and update in place |
| ChartAssignments.Assignment.SetStatus | src/go/pkg/controller/chartassignment/controller.go:315-371 | The status that is written; none is for a Deleted release or after a failed lookup |
| ChartAssignments.Assignment.DeleteFinalizer | src/go/pkg/controller/chartassignment/controller.go:419-426 | Exactly the given finalizer goes |
| ChartAssignmentRuns.RunKeepsInv | src/go/pkg/controller/chartassignment/controller.go:246-408 | As long as no finalizer is taken away by others, or removed after a look at the phase that was too early, the invariant of object, cache, reconcile and release holds; and a removal that is due is of an object whose update was started exactly if that look was too early |
| ChartAssignmentRuns.StartedCarriesFinalizer | src/go/pkg/controller/chartassignment/controller.go:246-408 | As long as no finalizer is removed early or taken away by others, an object whose update was started exists and carries the finalizer until its release reaches Deleted, whatever the cache shows, others write or calls fail |
| ChartAssignmentRuns.CarriedIffNoneRemovedEarly | src/go/pkg/controller/chartassignment/controller.go:246-408 | If nobody else takes it away, in all states of a run every such object carries the finalizer if and only if no step removes it from the object as it was read after the last look at the phase found a Deleted left over from before an update that waits |
| ChartAssignmentRuns.CarriedIffNoneEnds | src/go/pkg/controller/chartassignment/controller.go:246-408 | In every run, whatever others write, every such object carries the finalizer throughout if and only if nobody takes it from an object whose update was started, no removal does, and no update starts for an object that has lost it before |
| ChartAssignmentRuns.StoredStatusIsSound | src/go/pkg/controller/chartassignment/controller.go:315-371 | In every run every stored status has one condition per type, is in phase Ready exactly if Ready is true, and then Settled is true |
| ChartAssignmentRuns.SettledStatusIsOfAcceptedGeneration | src/go/pkg/controller/chartassignment/controller.go:288-332 | If a status about to be written is Settled, the last job was for the generation named as observed if and only if that is the one accepted last and no update of another one waits; if ensureUpdated returned true, only a waiting update can make it wrong |
| ChartAssignmentRuns.WrittenStatusIsOfRelease | src/go/pkg/controller/chartassignment/controller.go:315-332 | In every run a status about to be written names the generation that was read and is Settled exactly if the release is, whose last job was then an update without error |
| ChartAssignmentRuns.RequestIsInOrder | src/go/pkg/controller/chartassignment/controller.go:246-290 | Unless a finalizer was removed early or taken away, reconciles never ask the release for a generation below the one accepted last |
| ChartAssignmentRaces.StaleDeletedDropsFinalizer | src/go/pkg/controller/chartassignment/controller.go:373-408 | A run with an early look in which the object is gone while its update is still to run |
| ChartAssignmentRaces.LowerGenerationIsAsked | src/go/pkg/controller/chartassignment/controller.go:246-290 | And a run that goes on with a new object, which asks for a lower generation than the one accepted last |
| ChartAssignmentRaces.StaleSettledIsStored | src/go/pkg/controller/chartassignment/controller.go:288-332 | A run in which a stored status is Settled and names a generation whose update still waits |
| NameOrder.SortBySorts | src/go/pkg/controller/approllout/controller.go:480-487 | Sorting by name keeps the elements and orders them strictly if names differ |
| NameOrder.IncreasingIsUnique | src/go/pkg/controller/approllout/controller.go:480-487 | A strictly sorted list is determined by its elements |
| AppRollout.MatchingRobots | src/go/pkg/controller/approllout/controller.go:597-617 | All robots, none, or those whose labels meet every requirement, in order; an error exactly for an invalid selector that is looked at |
| AppRollout.AddRobots | src/go/pkg/controller/approllout/controller.go:459-471 | The inner loop: one entry is added, or the first robot that was selected before is reported |
| AppRollout.SortedNames | src/go/pkg/controller/approllout/controller.go:474-482 | In any order of the map, the sorted names of the selected robots |
| AppRollout.GenerateAssignments | src/go/pkg/controller/approllout/controller.go:438-489 | The loops give the list, or the failure, of the definition that the lemmas are about, with the values that are meant |
| AppRolloutOrder.AddAllFacts | src/go/pkg/controller/approllout/controller.go:459-471 | An entry is added as a whole exactly if none of its robots was selected before |
| AppRolloutOrder.PicksIffDisjoint | src/go/pkg/controller/approllout/controller.go:454-472 | Selection succeeds if and only if no robot is selected by two entries, and picks every selected robot once |
| AppRolloutOrder.NamesDiffer | src/go/pkg/controller/approllout/controller.go:633-638 | Assignments of a rollout for different robots, and for the cloud, have different names |
| AppRolloutOrder.GenerateIffDisjoint | src/go/pkg/controller/approllout/controller.go:438-529 | With valid selectors generation succeeds if and only if selections are pairwise disjoint, and gives a strictly name-sorted list of exactly one assignment per selected robot and one for the cloud that names exactly them, each if the app has that component |
| AppRolloutOrder.GenerateInAnyOrder | src/go/pkg/controller/approllout/controller.go:438-489 | The order of the robots never changes the outcome, for any selectors, except for the robot named in an overlap |
| AppRolloutOrder.OverlapNamesTheFirst | src/go/pkg/controller/approllout/controller.go:432-436 | Two orders of the same robots name different robots |
| AppRolloutOrder.NamedAreShared | src/go/pkg/controller/approllout/controller.go:454-466 | Over all orders of the robots, the named ones are exactly those that the first overlapping entry shares with earlier entries |
| AppRolloutOrder.SameOutcomeIffOneShared | src/go/pkg/controller/approllout/controller.go:454-466 | The outcome is the same in every order if and only if that is one robot |
| AppRolloutOrder.RobotAssignmentSays | src/go/pkg/controller/approllout/controller.go:531-595 | For every robot, app, rollout, tenant and key: the cluster, labels, annotations, version and component of its assignment, and which of tenant, robot, entry and base value is meant to win |
| AppRolloutOrder.CloudAssignmentSays | src/go/pkg/controller/approllout/controller.go:491-529 | The cloud assignment is given the list of the selected robots and the tenant's gateway, whatever other values say |
| AppRolloutOrder.AppNamespacesDiffer | src/go/pkg/controller/approllout/controller.go:619-624 | Rollouts of one namespace have apps in different namespaces |
| AppRolloutOrder.NamesCollide | src/go/pkg/controller/approllout/controller.go:619-638 | A cloud assignment can be named like a robot's of another rollout, and two namespaces can share an app namespace |
| AppRolloutOrder.AssignmentsCollideIff | src/go/pkg/controller/approllout/controller.go:633-638 | Two rollouts can have assignments of one name if and only if the name of one is that of the other with "-robot" behind it, or begins with that and a dash |
| AppRolloutOrder.AppNamespacesCollideIff | src/go/pkg/controller/approllout/controller.go:619-624 | Two namespaces can share an app namespace if and only if, likewise with "-app", one of them continues the other; the default namespace counts as an empty name |
| AppRolloutOrder.Validate | src/go/pkg/controller/approllout/controller.go:714-739 | Exactly the rollouts that are accepted |
| AppRolloutOrder.SelectorsAreThere | src/go/pkg/controller/approllout/controller.go:599-600 | Generation never meets a missing selector in a rollout that was accepted |
| AppRolloutReconcile.SetOwnerReference | src/go/pkg/controller/approllout/controller.go:660-670 | The reference of the same owner is replaced, or a new one added |
| AppRolloutReconcile.Server.Want | src/go/pkg/controller/approllout/controller.go:299-329 | One wanted assignment is created, updated under the listed version, or left alone if its labels, annotations and spec are equal |
| AppRolloutReconcile.Server.Drop | src/go/pkg/controller/approllout/controller.go:330-336 | Each obsolete assignment is deleted, in any order |
| AppRolloutReconcile.Server.Reconcile | src/go/pkg/controller/approllout/controller.go:290-336 | For any listing and any failing calls, what became of every name; an error-free reconcile writes nothing if and only if listing and wanted list agree |
| AppRolloutReconcile.UnownedIsUntouched | src/go/pkg/controller/approllout/controller.go:290-336 | With a current listing no object of others is updated or deleted, even if calls fail, and one with a wanted name makes the reconcile fail |
| AppRolloutReconcile.UnownedIsDeletedIffListed | src/go/pkg/controller/approllout/controller.go:330-336 | With a stale listing a reconcile touches an object of others only if its name is listed and not wanted and it is not already under deletion and held; without an error, exactly then |
| AppRolloutReconcile.ConvergesIff | src/go/pkg/controller/approllout/controller.go:290-336 | An error-free reconcile leaves exactly the wanted assignments with the wanted content if and only if none of those it found lingers |
| AppRolloutReconcile.ReconcileTwice | src/go/pkg/controller/approllout/controller.go:290-336 | The second of two reconciles writes nothing if and only if the first found nothing that lingers |
| AppRolloutReconcile.UpdateDropsFinalizers | src/go/pkg/controller/approllout/controller.go:319-327 | An update takes away all finalizers and other owners, and removes an object that is being deleted |
| AppRolloutStatus.RolloutObject.SetStatus | src/go/pkg/controller/approllout/controller.go:354-381 | The counts over the listed assignments and both conditions |
| AppRolloutStatus.RolloutObject.UpdateErrorStatus | src/go/pkg/controller/approllout/controller.go:346-352 | Settled becomes false with the message, and nothing else changes |
| AppRolloutStatus.ConditionsCount | src/go/pkg/controller/approllout/controller.go:354-381 | Settled is true exactly if as many listed assignments are settled as are wanted, Ready likewise; ready ones are settled, failed ones are not |
| AppRolloutStatus.ConvergedConditions | src/go/pkg/controller/approllout/controller.go:354-381 | When as many are listed as wanted, Settled and Ready say that all the listed ones are, and Ready implies Settled |
| AppRolloutStatus.ConditionsMeanWantedIff | src/go/pkg/controller/approllout/controller.go:354-381 | Settled is true just when every wanted assignment is listed and settled, if and only if no obsolete one is settled or neither the wanted settled ones nor all settled ones are as many as the wanted; Ready likewise |
| AppRolloutStatus.NoObsoleteSettled | src/go/pkg/controller/approllout/controller.go:354-381 | If no listed obsolete assignment is settled, Settled and Ready mean that every wanted assignment is, and Ready implies Settled |
| AppRolloutStatus.ObsoleteAssignmentsCount | src/go/pkg/controller/approllout/controller.go:338-371 | Settled obsolete assignments make a rollout Settled although nothing that is wanted exists |
| AppRolloutStatus.ErrorKeepsReady | src/go/pkg/controller/approllout/controller.go:346-352 | After an error Settled is false and Ready is as it was |
| ValueMerges.AllAsMeantIff | src/go/pkg/controller/approllout/controller.go:491-595 | Whatever is shared, all assignments end up with the values that are meant for them if and only if, wherever one shows a table of the base values, no other puts anything into it that is not meant for the first one |
| ValueMerges.NothingNewIff | src/go/pkg/controller/approllout/controller.go:491-595 | That, and base values that stay as they are for the next generation, hold if and only if no assignment says anything new in a table of the base values; this is if no assignment but the last has a table of its own in the place of a value that it is given |
| SharedTables.Tables.MergeInto | vendor/k8s.io/helm/pkg/chartutil/values.go:97-111 | Merging on shared tables of any depth: the first table stands for the merged value, the second one is as before, only tables that both have change, and merging once more changes nothing |
| SharedTables.BaseAbsorbs | src/go/pkg/controller/approllout/controller.go:514-516 | What is merged into a copy of the top level of the base values goes into their tables |
| SharedValues.Build | src/go/pkg/controller/approllout/controller.go:514-526 | The values of one assignment in a new map: which entries are those of the base values, its own and given ones, and which tables change |
| SharedGeneration.BuildAll | src/go/pkg/controller/approllout/controller.go:454-489 | After any number of assignments each shows what all of them put into the tables of the base values, and has the values meant for it if and only if they are independent |
| SharedGeneration.BuildOnce | src/go/pkg/controller/approllout/controller.go:514-516 | One assignment has the values meant for it; the base values are kept if and only if its tables say nothing new there |
| SharedGeneration.BuildTwo | src/go/pkg/controller/approllout/controller.go:552-555 | Two assignments that set the same base table end up with one table, in which the second one wins |
| RolloutValues.MadeAsMeant | src/go/pkg/controller/approllout/controller.go:491-595 | The values of RobotAssignment and CloudAssignment are base values, own values and given ones, merged in this order |
| RolloutValues.PickedInOrder | src/go/pkg/controller/approllout/controller.go:454-472 | The robots of an entry are picked one after the other, before those of later entries |
| RolloutValues.GenerateValues | src/go/pkg/controller/approllout/controller.go:438-595 | A whole generation on shared tables: the values are those of the wanted assignments if and only if these are independent, and what the base values are afterwards |
| Corefile.RevertUndoesPatch | src/go/cmd/metadata-server/coredns.go:61-84 | Reverting a patched text gives it back if and only if it did not hold the block before |
| Corefile.PatchIsIdempotent | src/go/cmd/metadata-server/coredns.go:61-71 | A second patch changes nothing |
| Corefile.RevertIsIdempotent | src/go/cmd/metadata-server/coredns.go:74-84 | A second revert changes nothing if and only if the text held no block, or none further on and no second copy of the host lines right behind the first |
| Corefile.PatchUndoesRevert | src/go/cmd/metadata-server/coredns.go:61-84 | Patching a reverted text gives it back if and only if its first zone start opened the first block, no block is further on, and no second copy of the host lines is right behind it |
| Corefile.RevertLeavesBlockIff | src/go/cmd/metadata-server/coredns.go:74-84 | Whether a reverted text still holds a block, told from the text before |
| Corefile.CoreDns.PatchCorefile | src/go/cmd/metadata-server/coredns.go:61-71 | The stored text becomes the patched one; every error leaves it, and a write that fails does no harm if the text was patched before |
| Corefile.CoreDns.RevertCorefile | src/go/cmd/metadata-server/coredns.go:74-84 | The stored text becomes the reverted one; every error leaves it, and a write that fails does no harm if there was no block |
| Corefile.PatchThenRevert | src/go/cmd/metadata-server/coredns.go:61-84 | Patching and then reverting a Corefile that was not patched leaves the ConfigMap as it was |

## Left out

- Kubernetes clients, informers, discovery and REST mapping: what the API server does is reduced to version-checked
  updates, creation that fails if the name is taken, deletion that waits for finalizers, and owner-based collection.
- SynkServer.Server.ApplyResource: does not model the three-way patch of applyOne. A patch is taken to give the live object the owners and the body of the manifest;
  the strategic merge of owner lists is not modelled.
- The error texts by which applyOne decides to replace a Job, Service or PersistentVolume: whether an object can be
  replaced is part of the reply of the API server.
- The sorting of resources before they are applied, and the label selector by which sets of a name are listed: both
  orders and all sets are covered, since the results hold for every list.
- SynkServer.Server.ValidateOwnerRefs: counts an owner whose set name makes decoding panic as not valid, which ends the
  resource here and the process there.
- Synk.Delete, crdAvailable and the content of a ResourceSet's status: one call each.
- Generated clients, deep copies and the protobuf code: no hand-written logic.
- Helm charts, their download and rendering, and YAML: their errors are inputs of a release's jobs. A chart assignment that
  went through the API server is taken to come back with equal values.
- Clocks, metrics, logs, tracing and backoff: times are numbers or ticks, and one reconcile reads the clock once.
- The stream of bytes from the user to the backend and the hijacking of connections: input and output on a shared buffer.
- Relay.EndToEnd: is about runs in which posts for an id are neither lost, repeated nor reordered, the id is fresh, and the
  id is not reaped, because the protocol has no sequence numbers.
- The reaper against a send that is in flight: the threshold is taken to be older than any such send.
- The removal of the legacy finalizer in the cr-syncer, and its list of ignored namespaces: not part of this model.
- SyncerQuiescence.QueuesDrain: is for custom resources without a status subresource and without a subtree, where a copy of
  a status can be equal to the status that is copied; and for runs in which no sync loses its key.
- ChartAssignmentRuns.StartedCarriesFinalizer: is for runs in which nobody else takes the finalizer away, which an update
  by the AppRollout controller does; ChartAssignmentRuns.CarriedIffNoneEnds says what such writes do.
- ChartAssignmentRuns.SettledStatusIsOfAcceptedGeneration: is for runs in which no finalizer was removed early or taken away.
- ReleaseRuns.UpdatesPerGeneration: is for runs in which the generations asked for do not fall. For all others
  ReleaseRuns.WithinRetriesIffNoneReopens says when updates stay within the retries.
- The namespace and service account that a ChartAssignment reconcile prepares: it succeeds or it ends the reconcile.
- A write whose reply is lost: a failing call has no effect here.
- ChartAssignments of a rollout in several namespaces: names are keys, as they are in the code's map.
- The list of tenants: an AppRollout reconcile is modelled from the point where app, tenant and robots are known.
- AppRollout.GenerateAssignments: values are merged on values, as if base values were copied; RolloutValues.GenerateValues
  says exactly when the shared tables of the code stand for the same. What a client does to an object that it has sent is
  not modelled.
- AppRolloutOrder.GenerateIffDisjoint: is about the values that are meant, in the same way.
- AppRolloutOrder.RobotAssignmentSays: is about the values that are meant, in the same way.
- RolloutValues.GenerateValues: is for rollouts without a value "robot" in an entry, which the webhook sees to.
- Tenant controller, setup-robot, auth proxy, logging proxy, metadata handlers, crd-generator and grpc2rest: mostly calls
  to APIs, which would add only easy members.
