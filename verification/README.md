# labeler-relay: a verified model

The relay reads label streams from many labelers, stores every kept frame under its own increasing sequence
number, and serves one resumable stream to its consumers. This project models the parts whose correctness is
not visible in any single function, and proves what they promise over whole runs. `dafny verify dfyconfig.toml`
checks everything.

## What is modelled

**The seam between backfill and live** (`Seam*.dfy`, `Channels.dfy`). `StreamFrom` is a concurrent protocol: a
writer that commits and broadcasts in two steps, a pruner that deletes arbitrary rows at any time, a bounded
subscription the Hub closes when it is full, a drainer that throws live events away, a consumer, a cleanup, and
a goroutine that goes through four phases of database reads and live receives. `Seam` is that protocol as a step
relation, one step per action of one party; every interleaving is a sequence of steps. `SeamSafety` is the
inductive invariant, `SeamTheorems` what follows for every run, `SeamProgress` termination and delivery,
`SeamResume` chains of sessions and a run in which the no-gap promise fails, `SeamGap` exactly when it can. `SeamCode` is the goroutine as
a program, with the source's loops and local variables: under any schedule of the other parties its execution is
a run of the protocol, so the theorems are about the program; and it takes no failure the database did not report, so
a stream that nothing hinders does deliver.

**The store** (`StoreSpec.dfy`, `LabelPersist.dfy`). One ingest is a transaction that may fail at any point or be
followed by a crash. Runs of ingests, deletes, prunes and restarts give global sequencing; `Cursors` says what a
cursor means against the retention window. The class `LabelPersist` has the transaction, the bounded playback and
the batched prune loop.

**The Hub** (`Hub.dfy`). The class fills and closes channels in place; each method is one step of a pure model
over which the stream invariant and the independence of subscribers are proved.

**Ingest** (`Ingest.dfy`). Persist, then move the bookmark. The step relation has connections that overlap,
fail and crash anywhere while the rest of the relay uses the same store and registry.

**The registry and the slurper** (`Registry.dfy`, `Slurper.dfy`, `Wakeup.dfy`). Who may change which column over
whole runs; the three loops that reconcile the running subscriptions with the table; the capacity-1 poke channel
between the writers and the reconcile loop, and convergence of the two.

**The firehose watcher** (`Firehose.dfy`, `Discovery.dfy`). The batched bookmark over any sequence of sessions, and the commit
handler with everything it does to registry, store and poke. `Discovery.dfy` follows a discovered labeler into the
reconcile loop.

**The wire** (`Cbor.dfy`, `MapCodec.dfy`, `Structs.dfy`, `CborStreams.dfy`, `Frames.dfy`, `WireFormat.dfy`,
`Subscribe.dfy`, `WireMeaning.dfy`). Item heads, strings and skipping follow sections 3 and 3.1 of RFC 8949; the map encoders and
decoders are the generated code's pattern, driven by a schema per struct; readers and writers work byte by byte
against pure codecs. `WireFormat` gives the bytes themselves in the numbers of the standard. `WireMeaning` composes codec, store, seam and handler: what a consumer decodes is what was
ingested.

## How programs and specifications fit together

Code that changes state is a class or a method with the source's loops. Its contract ties the new state to a pure
function or step of the old one (`Abs() == Step(old(Abs()), ...)`), and the promises are lemmas about runs of
that function. Everything the outside world decides (a database call that fails, a socket that refuses a frame,
the clock, the order in which other goroutines run) is a parameter, so the contracts hold for every choice.

Integers the source keeps in `int64` are `int64` here where wrap-around matters: the head-minus-cursor gap, the
`uint64(-t.Seq-1)` of the encoders, and every decoded integer. A Go string is a sequence of chars below 256, one
per byte.

Trusted, and stated as part of the model: a SQLite transaction is atomic, a failed commit leaves nothing behind,
a query reads one snapshot, AUTOINCREMENT ids lie above every committed id; the label and record codecs of the AT
Protocol library read back exactly what they wrote (`MapCodec.SelfDelimiting`); an upstream replays what lies
above the cursor in ascending order.

## Where the code promises less than its comments

- A stream whose context is cancelled while its straggler query runs still enters Phase 4 (seam.go:180-186) and
  can put a live event on `out` after a gap. `SeamResume.CancellationCanLeaveGap` is such a run.
  `SeamGap.BlindHandoffGapExactly` says when it can come to that: exactly when, at that moment, a broadcast event
  above the last delivered one is gone from the live channel, no query having found it deleted, and something can
  still be delivered live. A drop alone never causes it (`SeamResume.DropIsNotBlind`).
- The head of an empty table is 0. A consumer that reconnects with a cursor it really received is refused with
  FutureCursor exactly when every surviving row is older than that cursor (`Cursors.FutureForReceivedExactly`):
  after completed prunes, when nothing survives (`Cursors.FutureAfterTotalPrune`); between two batches, possibly
  while rows survive (`Cursors.HalfPrunedTableRefusesReceived`).
- A prune batch deletes old rows in no particular order. OK never misses a committed event exactly when the table
  has no holes (`Cursors.OkMissesNothingExactly`); completed prunes leave none unless they leave nothing at all, but a batch of
  any size can
  (`Cursors.HalfPrunedTableHidesLoss`).
- A poke received just before the list query fails is consumed for nothing; the registry change then waits for
  the next tick or poke. `Wakeup.NoLostWakeup` says that this is the only way to lose one.
- When the firehose bookmark cannot be read the watcher connects without one, and its next write can carry the
  bookmark past commits that never reached it. `FirehoseSpec.DialSkipsExactly` says when: exactly when such a
  commit lies at or before the place where the upstream starts, and anything lies after it.
- In the firehose watcher a labeler that was upserted, but whose #service event does not commit, is not poked for
  (watcher.go:243-249). `Discovery.PokedForExactly` says when that leaves it unserved, and
  `Discovery.ServiceEventCommits` when the event commits; `Discovery.FailedEventLeavesLabelerUnserved` is a case.

## Model

| member | source | states |
|---|---|---|
| SeamTheorems.SeamDelivery | internal/server/seam.go:46-211 | in every interleaving, pruning included, delivery is strictly ascending, committed with exactly that content, above since; before a cancelled handoff anything missing had been deleted before the query that would have returned it |
| SeamTheorems.SeamExact | internal/server/seam.go:15-34 | without pruning, what is put on out is exactly the committed log between since and the last delivered seq |
| SeamTheorems.HandoffComplete | internal/server/seam.go:140-210 | in Phase 4 every broadcast event above the last delivered one is in the live buffer, unless found deleted or the subscriber was dropped |
| SeamTheorems.QuiescentDeliveredAll | internal/server/seam.go:188-210 | an undropped stream with empty buffers has delivered every committed event above since, exactly those if nothing was pruned |
| SeamTheorems.NoPanic | internal/server/seam.go:55-147 | stopDrain is closed at most once on every path and before out closes; out is never sent on or closed after it is closed and never exceeds its capacity |
| SeamTheorems.SkippedWasDeleted | internal/server/seam.go:92-138 | the history variable of skipped seqs holds only events some query found deleted |
| SeamTheorems.DeletedIsSkipped | internal/server/seam.go:92-138 | and every event a query found deleted |
| SeamTheorems.SentIsWindow | internal/server/seam.go:92-138 | a delivery with nothing skipped is a window of the log |
| SeamTheorems.BulkEndsNearHead | internal/server/seam.go:73-90 | from a cursor that is not negative, an uncancelled bulk phase ends on a head it could read exactly when no surviving event lies more than bufSize above its cursor, and reads another chunk otherwise |
| SeamTheorems.GapDecides | internal/server/seam.go:80-90 | the same for any cursor whose int64 distance to the log does not overflow; an empty table counts as head 0 |
| SeamTheorems.HeadIsNewest | internal/store/persist.go:268-280 | the head is the newest surviving seq, 0 when nothing survives |
| SeamTheorems.LeavesExactly | internal/server/seam.go:74-210 | a stream ends on a cancelled context, a failed head query, a query that fails while the context is alive, or a closed live channel with nothing left in it, and on nothing else |
| SeamTheorems.NothingAfterLeaving | internal/server/seam.go:47-147 | once on its way out it never turns back and puts nothing more on out |
| SeamSafety.StepKeepsInv | internal/server/seam.go:46-211 | every step of every party keeps the invariant of the seam |
| SeamSafety.ReachableInv | internal/server/seam.go:46-211 | the invariant holds after every run from subscription on |
| SeamSafety.CommitKeepsInv | internal/store/persist.go:97-159 | a commit that is not yet broadcast keeps the invariant: the two are separate steps to a reader |
| SeamSafety.BroadcastKeepsInv | internal/server/hub.go:41-55 | a broadcast that fills or drops the subscription keeps it |
| SeamSafety.OthersKeepInv | internal/store/persist.go:332-359 | deleting rows, cancelling, unsubscribing and receiving keep it |
| SeamSafety.DrainerKeepsInv | internal/server/seam.go:57-71 | throwing a live event away keeps it while the drainer runs |
| SeamSafety.QueryKeepsInv | internal/store/persist.go:226-266 | starting a bounded playback, or failing to, keeps it, with rows deleted before it recorded as skipped |
| SeamSafety.SendKeepsInv | internal/server/seam.go:121-129 | sending one row and moving the cursor keeps it |
| SeamSafety.ControlKeepsInv | internal/server/seam.go:74-147 | every context check, chunk result and phase change keeps it |
| SeamSafety.LiveTakeKeepsStream | internal/server/seam.go:194-201 | taking a live event, delivered or dropped as a duplicate, keeps what is known of the stream |
| SeamSafety.LivePutKeepsStream | internal/server/seam.go:202-206 | delivering a live event keeps it: ascending and without a gap |
| SeamProgress.CleanupTerminates | internal/server/seam.go:213-218 | after both cancels the two goroutines take a bounded number of steps in any interleaving, are never stuck, and end with out closed |
| SeamProgress.NextWorker | internal/server/seam.go:53-147 | after both cancels some step of the goroutines can always be taken until out is closed |
| SeamProgress.QuietStreamDelivers | internal/server/seam.go:156-162 | in a quiet relay an uncancelled undropped stream takes a bounded number of steps and delivers every committed event above since that no query found deleted |
| SeamProgress.QuietRunsEnd | internal/server/seam.go:111-210 | quiet runs end, and end quiescent |
| SeamProgress.QuietStep | internal/server/seam.go:111-210 | every quiet step of a live stream takes it closer to having delivered everything |
| SeamProgress.UnhinderedStep | internal/server/seam.go:46-211 | a stream stays clear of cancellation, closing and every way out as long as no step is a fault or cancels, unsubscribes or drops it |
| SeamProgress.QuietWorkIsBounded | internal/server/seam.go:46-211 | how many quiet steps are left is bounded by the log and the buffer size |
| SeamResume.ResumeChain | internal/server/seam.go:35-221 | sessions ended anywhere and resumed from the last event received: the receipts together are one window of the committed log |
| SeamResume.SessionWindow | internal/server/seam.go:35-221 | one session brings a window of the log that starts right after its cursor |
| SeamResume.DropIsNotBlind | internal/server/hub.go:48-53 | a drop or a failure without an outside cancel never hands off on a failed straggler query |
| SeamResume.CancellationCanLeaveGap | internal/server/seam.go:171-207 | a run in which a cancelled stream delivers a live event after an undelivered committed one |
| SeamGap.BlindHandoffGapExactly | internal/server/seam.go:166-207 | a handoff on a failed straggler query can come to leave a gap exactly when a broadcast event above the last delivered one is gone from the live channel, no query having found it deleted, and something can still be delivered live |
| SeamGap.NoHoleNoGap | internal/server/seam.go:188-207 | when nothing was thrown away above the last delivered event no continuation leaves a gap |
| SeamGap.ThrownAwayLeavesGap | internal/server/seam.go:188-207 | when something was, the next live delivery leaves one |
| SeamCode.Streamer.StreamFrom | internal/server/seam.go:46-211 | under every schedule the goroutine's execution is a run of the protocol: delivery ascending, committed and above since, no gap before a cancelled handoff, and it returns only with out closed. When every database call succeeds no query is taken as failed; when besides nobody cancels, unsubscribes or drops it, it never ends; and when the relay then rests for longer than a stated bound, everything committed above since has been received, except what a query found deleted |
| SeamCode.Streamer.BulkBackfill | internal/server/seam.go:73-109 | Phase 1 ends within bufSize of the head or on an empty chunk, or leaves by stopping the drainer |
| SeamCode.Streamer.MeasureGap | internal/server/seam.go:74-90 | the head query, its failure, cancellation and the int64 gap decide as the protocol does, with the query failing exactly when the database does |
| SeamCode.OwnStepPays | internal/server/seam.go:46-211 | as long as nothing hinders the stream each of its own steps is progress |
| SeamCode.RestedMore | internal/server/seam.go:57-71 | what consumer and drainer do in a turn of rest is never a step back, empties a place on out and stops a drainer that was told to |
| SeamCode.Streamer.DrainTable | internal/server/seam.go:114-138 | Phases 2 and 3 read bounded chunks until one delivers nothing |
| SeamCode.Streamer.PlaybackFramesChunk | internal/store/persist.go:226-266 | the chunk is the snapshot taken when the query starts, sent row by row, stopped by a cancelled context or a failing read |
| SeamCode.Streamer.JoinDrainer | internal/server/seam.go:142-143 | close(stopDrain) and the wait for drainDone |
| SeamCode.Streamer.Live | internal/server/seam.go:192-210 | Phase 4 with its deduplication against the last backfilled seq |
| SeamCode.Streamer.Deferred | internal/server/seam.go:47-49 | the deferred calls run last registered first |
| HubSpec.StreamInvariant | internal/server/hub.go:41-82 | over every run an open subscriber has received or still buffers exactly the broadcasts since it subscribed, a closed one a first part of them, within its capacity |
| HubSpec.Independence | internal/server/hub.go:34-55 | one subscriber's fate never changes what another sees |
| HubSpec.ClosedStaysClosed | internal/server/hub.go:48-53 | a dropped or cancelled subscription sees no later broadcast, keeps what it buffered and is never reopened |
| HubSpec.ClosedExactly | internal/server/hub.go:41-79 | over every run a subscription is closed exactly when it was cancelled or a broadcast found its buffer full |
| HubObjects.Hub.Subscribe | internal/server/hub.go:62-81 | a fresh open channel of the size asked for under a new id |
| HubObjects.Hub.Cancel | internal/server/hub.go:72-79 | the cancel closure closes the channel unless a drop already has |
| HubObjects.Hub.Broadcast | internal/server/hub.go:41-55 | every registered channel gets the event or is closed and removed, and nothing else changes |
| HubObjects.Hub.Deliver | internal/server/hub.go:46-53 | one turn of the loop |
| HubObjects.Channel.TrySend | internal/server/hub.go:46-48 | a send that never blocks, never on a closed channel |
| HubObjects.Channel.Receive | internal/server/seam.go:195-198 | a closed channel still yields what it buffered |
| StoreSpec.GlobalSequencing | internal/store/persist.go:91-160 | over any run of successful, failed and crashed ingests, prunes and restarts: committed seqs strictly increase, broadcasts equal commits in order per process, no placeholder is ever committed and every frame decodes to its own seq and labeler |
| StoreSpec.CommittedOnlyGrows | internal/store/schema.sql:5 | nothing later changes or renumbers a committed row, and the counter never goes back |
| StoreSpec.StepKeepsWorld | internal/store/persist.go:97-359 | each operation keeps the store invariant |
| StoreSpec.MintedDescribes | internal/store/persist.go:101-153 | a committed row has the next id and the time of its ingest; a "labels" row carries exactly its relay seq, labeler, labels and upstream seq (0 without one), a "service" row its action, relay seq, labeler and record, each decoding with nothing left over |
| StoreSpec.MintedExactly | internal/store/persist.go:97-153 | an ingest commits exactly when the transaction meets no fault, an id is left, the kind is known and every length, label and record can be encoded |
| StoreSpec.IngestCommits | internal/store/persist.go:97-165 | one ingest in a run: the row is stored, remembered and broadcast, not broadcast when the process dies first, and nothing changes when it fails |
| StoreSpec.OthersCommitNothing | internal/store/persist.go:332-359 | deletes, prunes and restarts commit and broadcast nothing, leave the counter, and remove exactly the rows they name or that are too old |
| StoreSpec.DeleteContents | internal/store/persist.go:340-344 | a delete removes exactly the named rows and keeps the order |
| StoreSpec.FreshContents | internal/store/persist.go:324-331 | what a finished prune leaves |
| Cursors.StatusMeans | internal/store/persist.go:295-322 | on a table without holes, Future, OK and Outdated against everything ever committed: above it, misses nothing, or replays every surviving row from floor - 1 |
| Cursors.StatusIsExact | internal/store/persist.go:295-322 | with no id skipped and the newest rows left, the surviving seqs are an interval, Outdated exactly when something above the cursor is gone (or it is negative), and OK means playback starts at cursor + 1 or is empty at the head |
| Cursors.CursorContract | internal/store/persist.go:295-368 | after any run of ingests, failures, crashes, restarts and completed prunes under a clock that does not go back, a non-empty table gives every cursor a status that means this, exactly so and on an interval of seqs when no id was skipped |
| Cursors.NoSkipsIsContiguous | internal/store/schema.sql:5 | without skipped ids the n-th committed event has seq n |
| Cursors.OkMissesNothingExactly | internal/store/persist.go:295-322 | whatever was deleted, OK never misses a committed event exactly when nothing from the floor on is gone |
| Cursors.SuffixHasNoHoles | internal/store/persist.go:324-331 | what completed prunes leave, if they leave anything, has no holes |
| Cursors.StatusAcrossQueries | internal/store/persist.go:299-322 | what the status means when the table changes between the head query and the floor query |
| Cursors.SurvivorsAreSuffix | internal/store/persist.go:324-331 | with a clock that does not go back, ingests and completed prunes keep the newest rows without holes |
| Cursors.PlaybackOfLog | internal/store/persist.go:226-232 | a playback of the table is the playback the seam takes of the log without the deleted seqs |
| Cursors.FutureAfterTotalPrune | internal/store/persist.go:268-280 | after completed prunes a received cursor is called Future exactly when nothing survives |
| Cursors.FutureForReceivedExactly | internal/store/persist.go:304-307 | whatever was deleted, a received cursor is called Future exactly when every surviving row is older |
| Cursors.HalfPrunedTableRefusesReceived | internal/store/persist.go:340-344 | after one full batch of any size the newest received cursor can be refused while rows survive |
| Cursors.BatchSparesOldest | internal/store/persist.go:340-344 | a full batch of any size may spare the oldest row and take those after it |
| Cursors.HalfPrunedTableHidesLoss | internal/store/persist.go:340-344 | after one full batch of any size an OK cursor can miss a deleted event, because the batch left a hole |
| LabelPersistObject.LabelPersist.PersistIngest | internal/store/persist.go:97-178 | the transaction fails exactly on a fault, without an id or without a frame, and then changes nothing; otherwise it appends one row with the next id, stamped with the clock and carrying the event's own content, returns that id and broadcasts that row |
| LabelPersistObject.LabelPersist.PlaybackFramesChunk | internal/store/persist.go:226-266 | the callback gets the first rows above since, in order, up to the limit; n counts those it took, and it fails exactly when the query, a read, the callback or the end of the iteration does |
| LabelPersistObject.LabelPersist.CursorStatus | internal/store/persist.go:299-322 | the status of a cursor against the head before and the floor after other users of the database |
| LabelPersistObject.LabelPersist.Prune | internal/store/persist.go:332-368 | for any choice of rows per batch and any ingests between batches the loop ends, leaves exactly the rows at or after the cutoff and returns how many it removed, also when the last floor query fails; an interrupted one has removed only old rows |
| LabelPersistObject.LabelPersist.DeleteSome | internal/store/persist.go:340-354 | one batch removes as many old rows as it may, whichever they are |
| LabelPersistObject.DeleteOld | internal/store/persist.go:340-344 | deleting some old rows leaves the fresh ones and that many fewer old ones |
| LabelPersistObject.ArrivalsAreFresh | internal/store/persist.go:325-327 | ingests between batches add to what survives and to nothing that is pruned |
| IngestSpec.AtLeastOnce | internal/slurper/subscription.go:139-193 | from a bookmark c0, over crashes, redials and overlapping sessions, every upstream frame above c0 up to the bookmark was handled by some session, and is committed with what the policy of that session keeps of it, or that keeps nothing |
| IngestSpec.PassedWasHandled | internal/slurper/subscription.go:139-193 | a session gets past a frame only in a step that found nothing to keep under its own policy or committed what that keeps |
| IngestSpec.ReachableInv | internal/slurper/subscription.go:78-126 | every session and the bookmark are only ever past handled frames |
| IngestSpec.WriteKeepsInv | internal/store/registry.go:270-290 | the unconditional bookmark write keeps this although it may move the bookmark back |
| IngestSpec.HandleKeepsInv | internal/slurper/subscription.go:156-193 | handling the next frame under the session's own policy, with any failure of the store, keeps it |
| IngestSpec.CommittedFrameReadsBack | internal/slurper/subscription.go:173-182 | what is committed for a frame decodes to its labeler, upstream seq and kept labels |
| IngestSpec.CrashRepeatsFrame | internal/slurper/subscription.go:172-190 | a crash between commit and bookmark commits the frame twice: at least once, not exactly once |
| IngestSpec.StoreReachable | internal/store/persist.go:97-178 | every store such a run can leave is one the relay can reach |
| IngestSpec.KeptMeaning | internal/slurper/subscription.go:145-161 | a label with a signature, and any label when none is required, is relayed as often as it came, any other not at all |
| IngestSpec.KeptSigned | internal/slurper/policy.go:19-26 | when a signature is required what goes through is exactly the signed labels, in order and as often as they came |
| IngestSpec.PolicyDecides | internal/slurper/policy.go:10-26 | an override decides alone, without one the default does: the signed labels only, or the whole frame |
| IngestSpec.KeptEverything | internal/slurper/policy.go:19-26 | without a signature policy a frame passes unmodified |
| IngestSpec.StepsAreTheHandler | internal/slurper/subscription.go:139-193 | the protocol's handle and bookmark steps have the effect of the handler's contract |
| IngestObject.FrameHandler.HandleLabelLabels | internal/slurper/subscription.go:139-193 | limiter, filter, persist, then bookmark: nothing moves when something before it fails, and an empty frame only moves the bookmark. What is committed decodes to the labeler, the upstream seq and exactly the signed labels of the frame in order when the override or else the default requires signatures, all of them when it does not |
| IngestObject.FrameHandler.KeepLabels | internal/slurper/subscription.go:141-161 | the filter loop: exactly the signed labels in order under a signature policy, the whole frame without one; it fails exactly when the limiter does |
| RegistrySpec.DiscoveryNeverInterferes | internal/store/registry.go:46-72 | source, enabled and require_sig of an existing row after any run are those after the operators' part of it alone |
| RegistrySpec.OperatorsDecide | internal/store/registry.go:46-72 | a labeler is enabled as the operators last said; one added by hand stays manual |
| RegistrySpec.UnresolvedStaysOff | internal/store/registry.go:292-305 | a labeler first seen through an error stays disabled whatever is discovered later |
| RegistrySpec.FirstSightDecides | internal/store/registry.go:55-62 | a labeler not seen before is enabled as its first discovery says, and stays so until an operator acts |
| RegistrySpec.BookmarkMovesOnlyByWrite | internal/store/registry.go:270-275 | only a labeler's own WriteCursor moves its bookmark and nothing clears it |
| RegistrySpec.RowsStay | internal/store/registry.go:31-144 | no statement removes a row |
| RegistrySpec.UpsertMeans | internal/store/registry.go:46-72 | column by column what an upsert makes of an unknown and of a known labeler |
| RegistrySpec.SettersMean | internal/store/registry.go:98-309 | what the other statements store in a row that exists, and that only an error is recorded without one |
| RegistrySpec.OthersUntouched | internal/store/registry.go:31-309 | a statement touches one row |
| RegistrySpec.BeforeIsByteOrder | internal/store/registry.go:217 | the listing order is that of the bytes |
| RegistryObject.LabelerRegistry.Upsert | internal/store/registry.go:31-96 | insert, or refresh under the stickiness rule |
| RegistryObject.LabelerRegistry.SetEnabled | internal/store/registry.go:98-119 | one column of one row, an error when there is none |
| RegistryObject.LabelerRegistry.SetRequireSig | internal/store/registry.go:121-144 | one column of one row, an error when there is none |
| RegistryObject.LabelerRegistry.RecordError | internal/store/registry.go:292-309 | a minimal disabled row, or only last_error and updated_at |
| RegistryObject.LabelerRegistry.ReadCursor | internal/store/registry.go:252-268 | the bookmark, none for a missing row |
| RegistryObject.LabelerRegistry.WriteCursor | internal/store/registry.go:270-290 | the bookmark of one row, an error when there is none |
| RegistryObject.LabelerRegistry.ListEnabled | internal/store/registry.go:214-250 | every enabled row exactly once, in the order of the dids |
| SlurperPolicy.UnchangedMeansSameConfig | internal/slurper/policy.go:28-40 | unchanged exactly when endpoint and override agree, so under any default the same policy is in force |
| SlurperSpec.ReconcileCorrect | internal/slurper/slurper.go:70-170 | after a reconciliation the active labelers are the listed ones under their rows' configuration; unchanged subscriptions keep identity, changed and new ones are new, all others are stopped and nothing else is touched |
| SlurperSpec.ReconcileIdempotent | internal/slurper/slurper.go:73 | reconciling twice with the same registry changes nothing |
| SlurperSpec.StoppedAtMostOnce | internal/slurper/slurper.go:92-161 | over any sequence of reconciliations and shutdowns no subscription is cancelled or its limiter closed twice, or while it runs |
| SlurperSpec.ShutdownStopsEverything | internal/slurper/slurper.go:237-249 | after a final shutdown every subscription ever started was cancelled and its limiter closed exactly once |
| SlurperSpec.StartMissingMeans | internal/slurper/slurper.go:108-150 | the start loop starts what is listed and not active, and leaves the rest alone |
| SlurperObject.LabelSlurper.Reconcile | internal/slurper/slurper.go:74-170 | the three loops compute the specified reconciliation with the listed rows, and nothing changes when listing fails |
| SlurperObject.LabelSlurper.StopStale | internal/slurper/slurper.go:92-106 | the restart loop |
| SlurperObject.LabelSlurper.StartListed | internal/slurper/slurper.go:108-150 | the start loop |
| SlurperObject.LabelSlurper.StopUnlisted | internal/slurper/slurper.go:153-162 | the stop loop over the map, in any order |
| SlurperObject.LabelSlurper.Shutdown | internal/slurper/slurper.go:237-249 | every running subscription is cancelled and closed, the map replaced, the parent context cancelled, and every goroutine has returned |
| Wakeup.NoLostWakeup | internal/slurper/slurper.go:204-232 | every poked write has a token pending, a received poke whose list is not yet read or a list read that saw it, exactly unless ListEnabled failed with none of these and nothing woke the loop since |
| Wakeup.StepWakes | internal/slurper/slurper.go:204-232 | which steps keep, lose and restore this |
| Wakeup.FailedListLosesPoke | internal/slurper/slurper.go:226-229 | the losing run |
| Wakeup.SettledMatchesRegistry | internal/slurper/slurper.go:211-232 | with the latest write that asks for something new poked for, nothing pending and no wakeup lost, the running subscriptions are what the registry asks for |
| Wakeup.InLineExactly | internal/slurper/slurper.go:211-232 | between reconciliations the running subscriptions are what the registry asks for exactly when it asks for what was listed last |
| Wakeup.InLineWithBoth | internal/slurper/policy.go:28-40 | subscriptions in line with one table are in line with another exactly when it asks for the same |
| Wakeup.RoutineWritesKeepDemand | internal/store/registry.go:270-309 | bookmarks, recorded errors and discoveries that find nothing new ask for nothing new |
| Discovery.PokedForExactly | internal/firehose/watcher.go:219-249 | after an upsert a poke is pending exactly when the service event commits, and the subscriptions stay in line exactly when the upsert asks for nothing new |
| Discovery.ServiceEventCommits | internal/store/persist.go:97-153 | a service event commits exactly when the transaction meets no fault, an id is left, did and action are at most 8192 bytes long and the record can be encoded |
| Discovery.FailedEventLeavesLabelerUnserved | internal/firehose/watcher.go:236-249 | a new labeler enabled on discovery whose event fails to commit runs nowhere and no poke is pending |
| FirehoseSpec.BookmarkSafety | internal/firehose/watcher.go:124-174 | over any sessions the stored cursor is the initial one or the seq of a handled commit; while writes succeed fewer than flushEvery staged commits are unflushed |
| FirehoseSpec.ExitKeepsLastStaged | internal/firehose/watcher.go:156-167 | after a successful deferred flush the stored cursor is the last staged seq |
| FirehoseSpec.NoCommitSkipped | internal/firehose/watcher.go:137-145 | while every dial reads the bookmark, every commit up to the stored cursor reached the handler, whatever became of its operations there |
| FirehoseSpec.FailedReadCanSkip | internal/firehose/watcher.go:142-145 | a failed read with a start past an unhandled commit can make the bookmark skip it |
| FirehoseSpec.DialSkipsExactly | internal/firehose/watcher.go:136-144 | a dial can make the bookmark skip a commit exactly when a commit up to where its session starts has not reached the handler and the upstream goes on after that; a dial that reads the bookmark never can |
| FirehoseSpec.StaysGapless | internal/firehose/watcher.go:124-174 | from any state in which nothing is skipped, reading the bookmark at every dial keeps it so |
| FirehoseObject.WatcherKeepsPolicy | internal/firehose/watcher.go:219-233 | the watcher never decides source, enabled or require_sig of a registered labeler |
| FirehoseObject.DiscoveryMeans | internal/firehose/watcher.go:202-233 | only a created or updated record changes the registry: a resolved one its endpoint, with source firehose and the auto-subscribe setting when the labeler is new, an unresolved one its last error |
| FirehoseObject.DiscoveryCommits | internal/firehose/watcher.go:219-249 | an event is committed for it exactly after a successful upsert, and carries action, labeler and record as they were found |
| FirehoseObject.ConnectionKeepsPolicy | internal/firehose/watcher.go:124-174 | nor does a whole connection |
| FirehoseObject.DialIsItsSteps | internal/firehose/watcher.go:124-174 | a connection's effect on the cursor batch is that of the session's steps |
| FirehoseObject.FirehoseWatcher.MaybeFlushCursor | internal/firehose/watcher.go:267-294 | stage, then write when enough commits (100 unless configured) or enough time (5 s unless configured) have passed |
| FirehoseObject.FirehoseWatcher.ProcessOp | internal/firehose/watcher.go:202-255 | one labeler operation: recorded error, or upsert, event and poke, each only after the one before succeeded |
| FirehoseObject.FirehoseWatcher.HandleCommit | internal/firehose/watcher.go:191-263 | all operations of a commit, then the cursor; nothing at all when extraction fails |
| FirehoseObject.FirehoseWatcher.RunConnection | internal/firehose/watcher.go:124-174 | reset, resume from the stored cursor, handle every delivered commit in turn with all it does to registry, store and pokes, deferred flush |
| Structs.RoundTrip | api/community/cbor_gen.go:23-678 | decoding the encoding of any encodable header, error, Labels, Service or Info followed by any bytes gives the value and leaves exactly those bytes; `WireFormat` says which bytes they are |
| Structs.AnyOrder | api/community/cbor_gen.go:156-291 | the same fields in any order with well-formed unknown entries among them decode to the same struct |
| Structs.EncodesWithinLimits | api/community/cbor_gen.go:57-104 | encoding fails exactly when a string or the label array is longer than 8192 or a label or record cannot be encoded |
| Structs.BuildStored | api/community/cbor_gen.go:401-519 | what the decoder assigned is the struct that was written, absent optional fields included |
| MapCodec.OrderIndependent | internal/server/cbor_gen.go:108-156 | two entry lists with distinct keys and the same fields decode alike |
| MapCodec.MapRoundTrip | internal/server/cbor_gen.go:24-161 | a map of acceptable entries decodes to what they assign |
| MapCodec.StoreAllContents | internal/server/cbor_gen.go:108-156 | with distinct keys the stored fields are those the entries assign |
| MapCodec.LastEntryWins | internal/server/cbor_gen.go:108-156 | of several entries under one key the last that assigns anything counts |
| MapCodec.ValueRoundTrip | api/community/cbor_gen.go:170-285 | every field value survives with any bytes after it |
| MapCodec.LabelsRoundTrip | api/community/cbor_gen.go:212-257 | an array of labels, null entries included, survives |
| Cbor.Int64RoundTrip | api/community/cbor_gen.go:47-55 | every int64 survives uint64(-t.Seq-1), the least one included |
| Cbor.HeadRoundTrip | api/community/cbor_gen.go:31-49 | item heads read back with exactly the bytes after them left |
| Cbor.TextItemRoundTrip | api/community/cbor_gen.go:62-78 | text strings read back; `WireFormat.TextFormat` says how they are written |
| Cbor.SkipItem | api/community/cbor_gen.go:285-291 | skipping an unknown value consumes exactly that item |
| WireFormat.HeadFormat | api/community/cbor_gen.go:31-55 | an item head is the shortest of the five forms of section 3 of RFC 8949: 32 times the major type plus the argument or 24 to 27, then the argument, most significant byte first |
| WireFormat.BigEndianDigits | api/community/cbor_gen.go:47-55 | byte by byte what the argument is |
| WireFormat.IntFormat | api/community/cbor_gen.go:47-55 | an int64 is major type 0 with its value, or 1 with -1 minus it |
| WireFormat.TextFormat | api/community/cbor_gen.go:57-78 | a text string is major type 3 with its length, then its bytes |
| WireFormat.ArrayFormat | api/community/cbor_gen.go:81-103 | a label array is major type 4 with their number, then the labels; an absent one is 0xf6 |
| WireFormat.MapFormat | api/community/cbor_gen.go:31-129 | a map of n entries starts with 0xa0 + n; each key is 0x60 plus its length and its bytes, followed by its value |
| WireFormat.LabelsStructFormat | api/community/cbor_gen.go:23-129 | a #labels body is the map seq, src, labels, upstreamSeq, in that order |
| WireFormat.ServiceStructFormat | api/community/cbor_gen.go:295-399 | a #service body is the map op, seq, src and, if there is one, record |
| WireFormat.InfoStructFormat | api/community/cbor_gen.go:521-593 | an #info body is the map name and, if there is one, message |
| WireFormat.HeaderStructFormat | internal/server/cbor_gen.go:24-83 | a header is the map t, unless that is empty, and op |
| WireFormat.ErrorStructFormat | internal/server/cbor_gen.go:163-215 | an error body is the map error, message |
| WireFormat.MessageFrameFormat | internal/server/frames.go:37-48 | a message frame is the map {t, op: 1} and the body as it was given |
| WireFormat.ErrorFrameFormat | internal/server/frames.go:52-65 | an error frame is the map {op: -1} and the map {error, message} |
| WireFormat.ReadHeadMeans | api/community/cbor_gen.go:136-145 | a head is read exactly when all of it is there, in any of the five forms, and which number it holds |
| WireFormat.TextRefused | api/community/cbor_gen.go:158-162 | text under any major type but 3 or above 8192 bytes is refused |
| WireFormat.IntegerRefused | api/community/cbor_gen.go:174-198 | integers under any major type but 0 and 1 or outside int64 are refused, and which value they have |
| WireFormat.ArrayRefused | api/community/cbor_gen.go:212-227 | a label array under any major type but 4 or above 8192 labels is refused |
| WireFormat.MapRefused | api/community/cbor_gen.go:147-153 | a struct under any major type but 5 or above 8192 fields is refused |
| WireFormat.EmptyMapIsZero | api/community/cbor_gen.go:131-156 | a map without fields decodes to the zero value |
| WireFormat.ItemIsSkipped | api/community/cbor_gen.go:285-291 | skipping takes exactly the next item: numbers, strings with their bytes, arrays, maps with two items an entry, tags, simple values, to any depth |
| WireFormat.WellFormedIsItem | api/community/cbor_gen.go:285-291 | every such item is one an unknown field may hold |
| CborStreams.Marshal | api/community/cbor_gen.go:23-129 | the writer appends exactly the encoding, whose bytes `WireFormat` gives, or reports failure |
| CborStreams.Reader.Unmarshal | api/community/cbor_gen.go:131-293 | the reader computes the decoding and leaves exactly what follows |
| CborStreams.Reader.ReadEntries | api/community/cbor_gen.go:156-291 | the field loop |
| CborStreams.Reader.ReadLabelArray | api/community/cbor_gen.go:212-257 | the array loop |
| CborStreams.Reader.SkipOne | api/community/cbor_gen.go:285-291 | skipping one item of any nesting |
| Frames.MessageReadsBack | internal/server/frames.go:37-48 | a message frame reads back as the body it carries and nothing is left over |
| Frames.ErrorReadsBack | internal/server/frames.go:52-65 | an error frame reads back as its name and message |
| Frames.WriteMessage | internal/server/frames.go:37-48 | header then body in one write, or nothing |
| Frames.WriteError | internal/server/frames.go:52-65 | header then error body in one write, or nothing |
| Subscribe.Resolve | internal/server/subscribe.go:152-217 | cursor resolution: without a cursor the stream starts at the head, with one above the head it is refused, with one more than one below the floor it gets the #info note and starts one below the floor read after that, with any other it starts there; what is written, and that a failed query or write ends the connection, for other users of the database between its queries |
| Subscribe.HandleSubscribe | internal/server/subscribe.go:122-250 | the whole handler: the frames written for what the stream delivers from the resolved cursor. When every query and write succeeds these are the note if there is one, the frame of every delivered event, and the goodbye if the request is alive |
| Subscribe.StreamOut | internal/server/subscribe.go:227-249 | one frame per event until one cannot be written, then ConsumerTooSlow only if the request is alive |
| Subscribe.SendEvents | internal/server/subscribe.go:227-237 | the write loop |
| Subscribe.EffectiveBufSize | internal/server/subscribe.go:83-88 | the configured size when that is positive and 512 otherwise, so never 0, as the seam needs |
| WireMeaning.EndToEnd | internal/server/subscribe.go:111-250 | what the handler writes for a run of the seam from the planned cursor reads back as at most one leading #info, then the ingested events under their relay seqs, with the labels or the action and record they were ingested with, ascending and above that cursor, then at most one error |
| WireMeaning.ServeConsumer | internal/server/subscribe.go:122-250 | from the query parameter to the decoded frames on a fresh socket; when every query and write succeeds all the delivered events are on it |
| WireMeaning.NothingLost | internal/server/subscribe.go:227-249 | when every query and write succeeds, the note if there is one, every event and the goodbye arrive |
| WireMeaning.WrittenReadsBack | internal/server/subscribe.go:154-249 | the frames written in every outcome of the handler read back, one each and in order |
| WireMeaning.EventReadsBack | internal/server/subscribe.go:227-237 | a committed event is framed and decoded to what was ingested under its relay seq: labeler, labels and upstream seq, or action, labeler and record |
| WireMeaning.EventOnTheWire | internal/server/subscribe.go:227-265 | an event goes out as the map {t: "#" and its kind, op: 1}, then its stored frame |
| WireMeaning.LiveEqualsBackfill | internal/store/persist.go:155-165 | what is broadcast is what a playback of the row returns |
| WireMeaning.PlanMeans | internal/server/subscribe.go:152-217 | what each decision about the cursor means for what a playback returns, with the table changing between the queries: no cursor starts at the newest surviving seq, or 0; FutureCursor exactly when everything that survives is older; no note misses nothing unless there is a hole; OutdatedCursor gets every surviving row |
| WireMeaning.FutureCursorIsRefused | internal/server/subscribe.go:181-189 | a cursor ahead of the head gets one FutureCursor error frame and nothing else |
| WireMeaning.EdgesReadBack | internal/server/subscribe.go:163-249 | the frames around the events |
| WireMeaning.ReceivedIsCommitted | internal/server/subscribe.go:220-227 | what a consumer receives is committed, ascending and above since |

## Left out

- SQLite: pages, locks, WAL and durability settings; see the trusted assumptions above.
- `PlaybackFrames` without a limit, `Get` and `List` of the registry, and the decoders of `frame.go`: the bounded
  playback, `ListEnabled` and `Structs.Decode` are the same code with more to say.
- Concurrent callers of `Reconcile`: the list is read before the lock, so two callers can apply stale lists out
  of order; the model has one reconciler, the run loop, and not the initial one main.go:212 starts beside it.
- `Poke` and `Run` as methods: they are steps of `Wakeup`, with the ticker as a step that may come at any time.
- Unbounded blocking in `SeamCode`: a send or receive that cannot proceed waits for the schedule; an execution
  whose schedule ends first is reported as suspended.
- Ingest before a labeler's first bookmark: with no cursor the upstream chooses where to start, so nothing can be said.
- The rate limiter and its windows: a wait either passes or fails with cancellation.
- Null entries in an upstream label array, and nil struct receivers in the encoders: not values the relay makes.
- UTF-8 validity, canonical key order of foreign encodings, and the rejection of CIDs other than tag 42 while
  skipping: strings are bytes, and `Cbor.Skip` accepts any well-formed nesting.
- DID resolution, signature verification, CAR and MST loading, WebSocket handshakes and deadlines, backoff,
  configuration, admin endpoints, metrics callbacks and logging: input and output, or easy.
- FirehoseSpec.NoCommitSkipped: says that a commit reached the handler and not that its operations succeeded,
  because the source moves the cursor past commits whose extraction, upsert or event failed.
- Decimal printing of the firehose cursor in the meta table: it is kept as the number.
- The stub methods of `LabelPersist` that satisfy an external interface (persist.go:384-425): they do nothing.
