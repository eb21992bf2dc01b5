# Kogwistar LLM Wiki: notifications, archives, maintenance

A Dafny model of three parts of the application, with proofs of what they are meant to guarantee.

* **Notifications.** Per-recipient schedules and a durable cursor drive producers. A producer plans the finalized
  windows after the cursor, reads each window's events, builds a digest, enqueues delivery jobs and advances the cursor
  by compare-and-set, fenced by the schedule revision. Workers claim the jobs, check access again, deliver and
  acknowledge. `Production.dfy` and `DeliveryProtocol.dfy` state this as two transition systems with arbitrary
  interleaving: several producers with stale snapshots, crashes after any step, schedule saves with and without reset,
  lease expiry, stale claim tokens. The classes `ScheduleStore`, `NotificationService` and `WorkerQueue` are the
  imperative code. Each transaction (`SaveSchedule`, `PostWindow`, `AdvanceCursor`, the worker's `TakeJob`) is one step of
  its transition system from any state, and each whole call (`ProduceOnce`, `ProcessPendingJobs`) is a run of it when
  nothing else runs meanwhile. Interleavings of several calls are the runs of the transition systems themselves, which
  is what the theorems speak of. What a whole call does is also determined by its inputs: which windows a producer posts,
  from which events, with which jobs; for which jobs a worker calls the adapter, and what becomes of each of them.
* **Archives.** Append-only event logs are exported as a base plus increments at fixed watermarks, verified, loaded as
  a chain, moved to another workspace, and restored into an empty target together with layered artifact files.
* **Maintenance.** The worker's poll loop, the collection of notification sources behind one bound, and the splitting
  of request budgets over source jobs.

Time is an integer number of microseconds since 1970, negative before it. Library functions (hashes, `isoformat`,
`str`, encoded size) are arbitrary functions gathered in the records `Platform` and `Hasher`. A theorem requires of them
only what it uses: ids that are trimmed and printable, ids and checksums that do not collide, timestamps that survive
being written and read. `PlatformWitness.dfy` shows that one choice of functions has all of this at once. Job ids are
asked to tell apart payloads without floating-point numbers, and payloads are shown to have none. Access checks are
arbitrary predicates that may differ from one pass to the next, or fail. A tar file is a record of a typed manifest, an
event sequence and a list of members.

Modules build up in this order: `Basics`, `Ordering`, `Text`, `Platforms`; `Windows`; `Digests`, `DigestFacts`,
`DigestBuilder`, `DigestItems`; `Delivery`, `Compaction`, `Codec`, `Evidence`, `Acceptance`; `Schedules`, `Production`, `Alignment`,
`ProducerLoop`; `DeliveryProtocol`, `DeliveryWorker`; `Archives`, `Captures`, `Chains`, `RoundTrips`; `Remaps`,
`Namespaces`, `Artifacts`, `Restores`, `RestoreFacts`, `LayerRoundTrips`; `Workers`, `SourceCollections`, `Budgets`;
and `PlatformWitness`.

Where a stated intention is not quite what the code does, the model follows the code, gives a counterexample and proves
the exact condition:

* A `duplicate_key` that spells another event's fallback key `event:<id>` merges the two in the logical count
  (`LogicalCountCanMerge`, `LogicalCountExact`).
* Decoding trims strings, so encoding round trips hold exactly for trimmed, printable strings (`ItemRoundTrip`,
  `DigestRoundTrip`, `QueueRoundTrip`). Because trimmed reference ids are compared with untrimmed event ids, a valid
  event with an id such as `" a"` is accepted and enqueued, and the one job that carries it is refused for good
  (`UntrimmedIdIsAccepted`, `UntrimmedEventIsLost`). Exactly the jobs with a trimmed workspace and trimmed event ids are
  accepted (`WrittenJobAccepted`), and access is then checked for the trimmed sources (`RecheckedSources`).
* A bare `ws:<old>` gains a colon when remapped, and a string that already names the new workspace is captured by the
  way back (`BareGainsColon`, `RemapBack`).
* An accepted chain can declare a watermark beyond the events it holds, through an empty range that starts past 1
  (`WatermarkCanOverstate`, `ChainSound`). The watermark default differs between verification (-1) and chain loading (0).
* An archive may carry an artifact file that its manifest does not declare; such a file can replace what an earlier
  archive declared (`UndeclaredMemberWins`, `DeclaredPathExact`, `DeclaredPathsHold`).
* Member names are read with `\` as a separator. A collected file comes back to its own path exactly when no component
  contains a backslash (`DestinationOfFile`, `BackslashIsLost`, `BackslashCollides`).
* Restoring layers never removes a file, so files deleted between the base and the last increment come back
  (`DirectoryRestored`).
* A target log that begins after event 1 passes the emptiness check (`OccupiedExactly`).
* Integer budgets pass through double precision and are conserved exactly when they are multiples of the spacing of
  doubles around them, so always up to 2^53 (`LargeBudgetLoses`, `BudgetConserved`).

## Model

| member | source | states |
|---|---|---|
| Windows.FloorBoundaryGreatest | src/kogwistar_llm_wiki/app_contracts/notification_producer.py:620-622 | The floor of any time, before 1970 too, is the greatest cadence boundary not after it |
| Windows.AlignedIsSecondsAligned | src/kogwistar_llm_wiki/app_contracts/notification_digest.py:299-302 | The check on whole seconds and their remainder is alignment in microseconds |
| Windows.TilingUnique | src/kogwistar_llm_wiki/app_contracts/notification_digest.py:315-321 | Only one list of consecutive cadence-long windows covers a given span |
| Windows.TilingAppend | src/kogwistar_llm_wiki/app_contracts/notification_digest.py:315-321 | Two adjoining tilings make one |
| Windows.PlanExact | src/kogwistar_llm_wiki/app_contracts/notification_digest.py:286-321 | Planning fails exactly on a misaligned cursor, a clock before it or too long a backlog; otherwise the windows tile from the cursor to the greatest boundary not after now minus the delay, all aligned, at most the bound |
| Windows.PlanComposes | src/kogwistar_llm_wiki/app_contracts/notification_digest.py:286-321 | The windows up to a later time are those up to an earlier time followed by those from where these ended |
| Text.RequiredKeeps | src/kogwistar_llm_wiki/app_contracts/notification_delivery.py:506-511 | A string is returned unchanged exactly when it is non-blank, printable and trimmed |
| Text.RequiredIsClean | src/kogwistar_llm_wiki/app_contracts/notification_delivery.py:506-511 | Whatever the check returns is such a string |
| DigestFacts.ItemContents | src/kogwistar_llm_wiki/app_contracts/notification_digest.py:324-375 | An item lists exactly the event ids and evidence references of its group |
| DigestFacts.ItemFacts | src/kogwistar_llm_wiki/app_contracts/notification_digest.py:89-124 | Every item made from a valid group passes all checks of its constructor |
| DigestFacts.ItemOrderFree | src/kogwistar_llm_wiki/app_contracts/notification_digest.py:333-360 | The item does not depend on the order of its events |
| DigestFacts.KeysSeparateLanes | src/kogwistar_llm_wiki/app_contracts/notification_digest.py:237-250 | A routine and an urgent event with different ids never share a group key |
| DigestFacts.GroupKeyExact | src/kogwistar_llm_wiki/app_contracts/notification_digest.py:237-250 | Two events of one lane share a group key exactly when they carry the same duplicate or dedupe key, or are the same event |
| DigestFacts.UrgentIsOneLogicalEvent | src/kogwistar_llm_wiki/app_contracts/notification_digest.py:237-244 | An urgent group counts as one logical event, however many copies it has |
| DigestFacts.DigestIsValid | src/kogwistar_llm_wiki/app_contracts/notification_digest.py:149-172 | The digest of every accepted batch passes all checks of its constructor, item ids distinct across both lanes included |
| DigestFacts.DigestPartition | src/kogwistar_llm_wiki/app_contracts/notification_digest.py:234-259 | Every event is in exactly one item, of the right lane, together with exactly the events that carry the same duplicate key (urgent) or dedupe key (routine) |
| DigestFacts.DigestSize | src/kogwistar_llm_wiki/app_contracts/notification_digest.py:338-375 | The digest lists as many event ids as the batch has distinct events |
| DigestFacts.DigestCounts | src/kogwistar_llm_wiki/app_contracts/notification_digest.py:338-375 | Logical plus duplicate counts over the digest equal the number of distinct events; each urgent item has logical count 1 |
| DigestFacts.CountsAddUp | src/kogwistar_llm_wiki/app_contracts/notification_digest.py:119-124 | In any valid digest the counts add up to the number of distinct events referred to |
| DigestBuilder.AdmitEvents | src/kogwistar_llm_wiki/app_contracts/notification_digest.py:214-228 | The admission loop accepts exactly consistent in-scope authorized batches and keeps each distinct event once |
| DigestBuilder.GroupEvents | src/kogwistar_llm_wiki/app_contracts/notification_digest.py:234-250 | The two dictionaries hold exactly the groups of the two lanes |
| DigestBuilder.BuildNotificationDigest | src/kogwistar_llm_wiki/app_contracts/notification_digest.py:181-266 | Accepts exactly the acceptable batches, returns the digest of the set of their events (whose items `DigestPartition` and `DigestItemExact` describe), and every error names a real fault |
| DigestBuilder.AcceptedIsValid | src/kogwistar_llm_wiki/app_contracts/notification_digest.py:252-266 | For accepted batches construction of the digest never raises |
| DigestBuilder.OrderAndRepetitionFree | src/kogwistar_llm_wiki/app_contracts/notification_digest.py:210-259 | Reordering or repeating events within the bound changes neither acceptance nor the digest |
| DigestBuilder.LogicalCountExact | src/kogwistar_llm_wiki/app_contracts/notification_digest.py:338-341 | The logical count is the number of distinct underlying events exactly when no copy key spells a fallback key |
| DigestItems.DigestItemExact | src/kogwistar_llm_wiki/app_contracts/notification_digest.py:324-375 | The item of an event lists the references of exactly the events grouped with it, has their highest severity, asks for action if one does, and is headed by the title of the latest, with updates and copies spelled after it; its logical count is the number of distinct underlying events exactly when no copy key spells a fallback key |
| DigestItems.ItemsOrdered | src/kogwistar_llm_wiki/app_contracts/notification_digest.py:252-259 | Within a lane the items stand in the order of their group keys |
| DigestBuilder.LogicalCountCanMerge | src/kogwistar_llm_wiki/app_contracts/notification_digest.py:338-341 | A batch on which two unrelated events count as one |
| PlatformWitness.FaithfulPlatformExists | src/kogwistar_llm_wiki/app_contracts/notification_digest.py:355-360 | Ids and timestamps with all the properties required of them exist |
| PlatformWitness.FaithfulHasherExists | src/kogwistar_llm_wiki/archiving/io.py:159-164 | So do checksums |
| Delivery.DeserializeItems | src/kogwistar_llm_wiki/app_contracts/notification_delivery.py:426-476 | The item loop yields all decoded items, or nothing if one is malformed |
| Compaction.RefsInjective | src/kogwistar_llm_wiki/app_contracts/notification_digest.py:115-118 | In a valid item the references correspond one to one to the event ids |
| Compaction.RollupValid | src/kogwistar_llm_wiki/app_contracts/notification_delivery.py:320-372 | The one item that replaces the routine items passes all item checks |
| Compaction.RollupSays | src/kogwistar_llm_wiki/app_contracts/notification_delivery.py:320-372 | That item has the highest severity, asks for action exactly if one of them does, carries their totals, and its summary spells these |
| Compaction.CompactionConserves | src/kogwistar_llm_wiki/app_contracts/notification_delivery.py:320-372 | Compaction gives a valid digest of at most five items with the same events, references and total counts |
| Codec.ListRoundTrip | src/kogwistar_llm_wiki/app_contracts/notification_delivery.py:426-476 | A list decodes to what was encoded exactly when each element does |
| Codec.ItemRoundTrip | src/kogwistar_llm_wiki/app_contracts/notification_delivery.py:297-311 | An encoded valid item decodes to itself exactly when its strings are clean |
| Codec.DigestRoundTrip | src/kogwistar_llm_wiki/app_contracts/notification_delivery.py:422-494 | An encoded valid digest decodes to itself exactly when its strings are clean |
| Codec.JobRoundTrip | src/kogwistar_llm_wiki/app_contracts/notification_delivery.py:375-410 | A job parses back to its recipient and digest exactly when the digest is clean |
| Codec.PartsValid | src/kogwistar_llm_wiki/app_contracts/notification_delivery.py:91-121 | Every part of a split digest is a valid digest with one urgent item or only routine ones |
| Codec.UrgentJobsApart | src/kogwistar_llm_wiki/app_contracts/notification_delivery.py:91-142 | Urgent items come first, each alone in a job of the urgent namespace; the routine items share one job in the other |
| Codec.QueueRoundTrip | src/kogwistar_llm_wiki/app_contracts/notification_delivery.py:91-142 | Every job written for a valid digest is accepted and decodes to the same recipient and part, exactly when clean |
| Codec.ParsedJobSound | src/kogwistar_llm_wiki/app_contracts/notification_delivery.py:375-494 | Whatever job is accepted stands in a queue of the workspace, names itself or its recipient, and yields a clean recipient and a valid digest of that workspace with one urgent item or routine items only |
| Evidence.ExactlyOneJob | src/kogwistar_llm_wiki/app_contracts/notification_delivery.py:91-142 | Every event of the batch is in the evidence of exactly one job, an urgent one exactly for urgent events |
| Evidence.OnlyBatchEvidence | src/kogwistar_llm_wiki/app_contracts/notification_delivery.py:91-142 | No job carries evidence that is not of the batch |
| Evidence.JobIdsDistinct | src/kogwistar_llm_wiki/app_contracts/notification_delivery.py:122-142 | The jobs of one digest have distinct ids |
| Evidence.PutJobsFacts | src/kogwistar_llm_wiki/app_contracts/notification_delivery.py:143-172 | Enqueueing keeps every job already present and adds exactly the new ids |
| Evidence.ReplayIsHarmless | src/kogwistar_llm_wiki/app_contracts/notification_delivery.py:122-172 | Enqueueing the same jobs again leaves the queue as it is, also after other jobs were added |
| Evidence.PostedIntact | src/kogwistar_llm_wiki/app_contracts/notification_delivery.py:122-172 | After enqueueing, every job is present with its own content |
| Evidence.CleanEventsDecode | src/kogwistar_llm_wiki/app_contracts/notification_delivery.py:375-410 | Every job made from events with clean strings is accepted and decodes to what was written, compaction included |
| Acceptance.ItemAccepted | src/kogwistar_llm_wiki/app_contracts/notification_delivery.py:426-476 | A printable valid item decodes, trimmed, exactly when its workspace and event ids are trimmed |
| Acceptance.JobAccepted | src/kogwistar_llm_wiki/app_contracts/notification_delivery.py:375-410 | The same of a job and its digest |
| Acceptance.WrittenJobAccepted | src/kogwistar_llm_wiki/app_contracts/notification_delivery.py:375-494 | A job written for valid events is accepted exactly when the workspace and every event id it carries are trimmed; what is read differs from what was written only by trimming |
| Acceptance.RecheckedSources | src/kogwistar_llm_wiki/app_contracts/notification_delivery.py:284-293 | The access check on delivery asks about the trimmed sources |
| Acceptance.UntrimmedEventIsLost | src/kogwistar_llm_wiki/app_contracts/notification_delivery.py:440-448 | The one job that carries an event with an untrimmed id is refused |
| Acceptance.UntrimmedIdIsAccepted | src/kogwistar_llm_wiki/app_contracts/notification_digest.py:41-72 | Such an event is valid and its batch accepted |
| Schedules.ScheduleStore.CompareAndSetCursor | src/kogwistar_llm_wiki/app_contracts/notification_producer.py:112-160 | Fails on a value that does not advance; otherwise inserts or replaces exactly when fence and expectation hold, and changes nothing else |
| Schedules.ScheduleStore.SaveSchedule | src/kogwistar_llm_wiki/app_contracts/notification_producer.py:234-333 | Stores the schedule with the next revision and rewinds or deletes the cursor as the reset rules say, or reports the fault and changes nothing |
| Schedules.ValidScheduleAligned | src/kogwistar_llm_wiki/app_contracts/notification_producer.py:419-452 | Constructing a schedule guarantees an aligned start |
| Schedules.SaveNeverAdvances | src/kogwistar_llm_wiki/app_contracts/notification_producer.py:253-327 | No save creates or advances a cursor, and one that changes it is a reset of that recipient's own schedule |
| Schedules.StaleSaveRefused | src/kogwistar_llm_wiki/app_contracts/notification_producer.py:253-303 | Of two saves that expect the same revision only the first is performed |
| Schedules.SaveEffect | src/kogwistar_llm_wiki/app_contracts/notification_producer.py:253-333 | A save writes its own row under the next revision and leaves all others; a reset without a change of timing forgets the cursor, one with it takes the cursor to the last boundary, anything else leaves it |
| Schedules.RewindIsTight | src/kogwistar_llm_wiki/app_contracts/notification_producer.py:304-326 | A rewind goes to a boundary of the new cadence less than one window back |
| Production.RunKeepsProducers | src/kogwistar_llm_wiki/app_contracts/notification_producer.py:498-588 | In every run each producer works through consecutive windows from where it started, and advances only over a window it posted |
| Production.RunKeepsInv | src/kogwistar_llm_wiki/app_contracts/notification_producer.py:498-588 | Every run of producers, crashes and saves keeps: records backed by intact queued jobs, producers on tilings, no gap behind any cursor |
| Production.NoGap | src/kogwistar_llm_wiki/app_contracts/notification_producer.py:498-588 | In every reachable state each instant between the start a cursor was set from and the cursor lies in a window that was read, digested and enqueued |
| Production.RecordedEventSentOnce | src/kogwistar_llm_wiki/app_contracts/notification_delivery.py:91-172 | Every event read for such a window is in the evidence of exactly one of its jobs, and that job is in the queue |
| Alignment.RunKeepsAligned | src/kogwistar_llm_wiki/app_contracts/notification_producer.py:124-155 | Fenced runs keep every cursor and every plan aligned with the schedule they belong to |
| Alignment.CursorAlignment | src/kogwistar_llm_wiki/app_contracts/notification_producer.py:124-155 | In every run from an empty store whose producers hold saved schedules the cursor is a multiple of the stored cadence, so the current schedule never fails the alignment check |
| Alignment.CursorMotion | src/kogwistar_llm_wiki/app_contracts/notification_producer.py:253-327 | Only a save with reset takes a cursor back or away; no save takes it forward |
| Alignment.MonotoneWithoutReset | src/kogwistar_llm_wiki/app_contracts/notification_producer.py:112-160 | Over any run without a reset of its schedule a cursor only grows |
| ProducerLoop.NotificationService.EnqueueDigest | src/kogwistar_llm_wiki/app_contracts/notification_delivery.py:75-172 | Checks everything first; then all jobs are put, or nothing changes |
| ProducerLoop.NotificationService.SaveSchedule | src/kogwistar_llm_wiki/app_contracts/notification_producer.py:234-333 | A successful save is the protocol's save step, a failed one no step |
| ProducerLoop.NotificationService.PostWindow | src/kogwistar_llm_wiki/app_contracts/notification_producer.py:542-570 | Digesting and enqueueing the events of one window is the protocol's post step, performed exactly when the events are acceptable and their digest can be enqueued; it reports the ids of exactly their jobs and the number of distinct events |
| ProducerLoop.NotificationService.AdvanceCursor | src/kogwistar_llm_wiki/app_contracts/notification_producer.py:571-580 | Advancing over a posted window is the protocol's advance step; it succeeds exactly when the fence holds and the cursor is where the producer left it |
| ProducerLoop.NotificationService.ProduceWindow | src/kogwistar_llm_wiki/app_contracts/notification_producer.py:540-588 | Producing one window is a run of post and advance steps, cut short by any failure |
| ProducerLoop.NotificationService.ProduceWindows | src/kogwistar_llm_wiki/app_contracts/notification_producer.py:540-588 | The window loop is a run of the protocol; it records and enqueues, window by window, what was read for each, up to the first window that cannot be posted, and succeeds exactly when all checks pass |
| ProducerLoop.NotificationService.ProduceOnce | src/kogwistar_llm_wiki/app_contracts/notification_producer.py:498-600 | The whole call, with any schedule, is a run of the protocol. Disabled, or without a finalized window, it changes nothing. Otherwise it succeeds exactly when sources, events, sizes and fence are all in order; then records, queue, reported ids and counts are those of exactly the events read for each planned window, in order, and the cursor is the last finalized boundary. On failure the same holds for the windows before the one that failed |
| ProducerLoop.PostableIsAuthorized | src/kogwistar_llm_wiki/app_contracts/notification_producer.py:542-562 | Only events of the schedule's own workspace, within the window and of sources its recipient may see are posted |
| DeliveryProtocol.RunKeepsInv | src/kogwistar_llm_wiki/app_contracts/notification_delivery.py:192-271 | Every run of claims, expiries, checks, sends and acknowledgements keeps the delivery invariant |
| DeliveryProtocol.AuthorizeMeansGranted | src/kogwistar_llm_wiki/app_contracts/notification_delivery.py:273-293 | The access check passes exactly when the recipient and every source referred to, at least one, are allowed |
| DeliveryProtocol.DoneWasDelivered | src/kogwistar_llm_wiki/app_contracts/notification_delivery.py:192-271 | A job is done only if the adapter returned normally for it in a pass that parsed it and was granted the recipient and every source |
| DeliveryProtocol.RefusedNeverSent | src/kogwistar_llm_wiki/app_contracts/notification_delivery.py:273-293 | The adapter is never called for a malformed job or in a pass that was refused |
| DeliveryProtocol.SentFromOwnQueue | src/kogwistar_llm_wiki/app_contracts/notification_delivery.py:194-213 | In every run the adapter is called for a workspace only with jobs from that workspace's two queues |
| DeliveryProtocol.IdempotencyKeyFixesContent | src/kogwistar_llm_wiki/app_contracts/notification_delivery.py:236-271 | All deliveries under one idempotency key carry the same recipient and digest |
| DeliveryProtocol.TerminalIsStable | src/kogwistar_llm_wiki/app_contracts/notification_delivery.py:192-271 | Done and failed jobs never change again |
| DeliveryProtocol.LeaseIsExclusive | src/kogwistar_llm_wiki/app_contracts/notification_delivery.py:192-271 | Until its lease runs out only its own claim can change a claimed job's row, whatever others do |
| DeliveryProtocol.StaleTokenIsHarmless | src/kogwistar_llm_wiki/app_contracts/notification_delivery.py:192-271 | A stale claim token changes nothing in the queue |
| DeliveryWorker.WorkerQueue.ProcessJob | src/kogwistar_llm_wiki/app_contracts/notification_delivery.py:211-271 | The adapter is called, once, exactly for a job that parses in a pass that is granted access; the job becomes done, retried or failed, and the reported outcome follows, from what it parses to, the access answers and whether the adapter returned |
| DeliveryWorker.PrepareExact | src/kogwistar_llm_wiki/app_contracts/notification_delivery.py:84-142 | A digest is enqueued exactly when the recipient is named, access to the recipient and every source is granted and every payload fits |
| DeliveryWorker.WorkerQueue.ProcessPendingJobs | src/kogwistar_llm_wiki/app_contracts/notification_delivery.py:174-271 | The call is a run of the protocol; it fails exactly on a bad workspace, limit or lease; otherwise it takes the urgent jobs before the routine ones and leaves rows, adapter calls and outcomes as `BatchExact` describes |
| DeliveryWorker.BatchExact | src/kogwistar_llm_wiki/app_contracts/notification_delivery.py:192-271 | Over a whole batch, in claim order: one adapter call for each job that parses and is granted and none for others, one outcome per job, the status of each row, and no other row touched |
| DeliveryWorker.RealParserFixesWorkspace | src/kogwistar_llm_wiki/app_contracts/notification_delivery.py:375-410 | A job parses in at most one workspace |
| DeliveryWorker.DeliveredIsWhatWasWritten | src/kogwistar_llm_wiki/app_contracts/notification_delivery.py:91-271 | Whatever is delivered under the id of a job written for a clean part is that part, to that recipient |
| Archives.ScanEvents | src/kogwistar_llm_wiki/archiving/validation.py:175-187 | The scan accepts exactly the files in which every namespace, however interleaved, runs without a gap from 1 or later, and knows each first and last number |
| Archives.VerifyRanges | src/kogwistar_llm_wiki/archiving/validation.py:192-206 | Comparing ends is comparing whole ranges: accepted exactly when each declared range is the events of its namespace |
| Archives.VerifyPayloads | src/kogwistar_llm_wiki/archiving/validation.py:114-161 | Accepted exactly when entries are complete and consistent, every declared payload is there, and each matches its checksum |
| Archives.VerifyArchive | src/kogwistar_llm_wiki/archiving/validation.py:164-210 | Accepts exactly the archives whose count, checksum, ranges, watermarks, namespaces and payloads all agree |
| Archives.ManifestFixesContent | src/kogwistar_llm_wiki/archiving/validation.py:114-210 | Two accepted archives with one manifest agree in the checksum of their events and of every declared file, so altered events or files are refused |
| Archives.EntriesArePresent | src/kogwistar_llm_wiki/archiving/validation.py:114-161 | In an accepted archive of version 2 every artifact entry names a path and a checksum, and a regular file with that checksum is there unless a backend entry claims the path |
| Captures.AcceptedIsExact | src/kogwistar_llm_wiki/archiving/validation.py:164-210 | In an accepted archive the events of each declared namespace, in file order, are exactly its range, no other namespace has any, and the total is the sum of the range lengths |
| Captures.CaptureAccepted | src/kogwistar_llm_wiki/archiving/operations.py:96-140 | Every archive that is created is accepted |
| Captures.FixWatermarks | src/kogwistar_llm_wiki/archiving/operations.py:96-115 | Watermarks and ranges are fixed for all namespaces, exactly when none is behind its parent |
| Captures.DeclareSnapshots | src/kogwistar_llm_wiki/archiving/operations.py:151-180 | Every file found under a copied backend directory is listed with its checksum |
| Captures.ExportNamespace | src/kogwistar_llm_wiki/archiving/operations.py:126-140 | A namespace is exported exactly when its rows are the whole range without a gap |
| Captures.CreateArchive | src/kogwistar_llm_wiki/archiving/operations.py:80-212 | Succeeds exactly when the parent verifies and every history is readable up to its watermark; the result is the capture of the stage, artifacts and backend files with their checksums included, and is accepted |
| Chains.AppendEvents | src/kogwistar_llm_wiki/archiving/validation.py:254-268 | The event loop continues every namespace without a gap or finds one that breaks |
| Chains.CheckLinks | src/kogwistar_llm_wiki/archiving/validation.py:233-253 | Accepts exactly the chains in which each archive names its predecessor, its workspace and its continuation |
| Chains.LoadChain | src/kogwistar_llm_wiki/archiving/validation.py:230-269 | Accepts exactly the chains of accepted, linked archives whose namespaces count from 1, and returns all events in order |
| Chains.ChainSound | src/kogwistar_llm_wiki/archiving/validation.py:233-269 | Every namespace of an accepted chain is numbered 1..k; k is the final watermark exactly when its last declared stretch starts right after the events before |
| Chains.ChainReachesWatermark | src/kogwistar_llm_wiki/archiving/validation.py:233-269 | With base ranges from 1 and no namespace dropped, k is the final watermark |
| Chains.WatermarkCanOverstate | src/kogwistar_llm_wiki/archiving/validation.py:194-204 | An accepted base whose watermark counts events that are nowhere |
| RoundTrips.ChainRoundTrip | src/kogwistar_llm_wiki/archiving/operations.py:94-140 | For all growing logs, a base and any number of increments can be made, form an accepted chain, and carry exactly the final logs |
| RoundTrips.ChainEqualsFullArchive | src/kogwistar_llm_wiki/archiving/operations.py:94-140 | The chain carries, per namespace, what one full archive of the final logs carries |
| Remaps.RemapAt | src/kogwistar_llm_wiki/archiving/operations.py:215-240 | At every path the remapped document holds the remapped value under its governing key |
| Remaps.RemapIsLocal | src/kogwistar_llm_wiki/archiving/operations.py:215-240 | Paths, shapes and keys stay; only strings under the six keys that name the old workspace change |
| Remaps.RemapRelocates | src/kogwistar_llm_wiki/archiving/operations.py:234-239 | A string that names the old workspace names the new one afterwards: the name itself becomes the new name, a prefixed string keeps its rest |
| Remaps.RemapBack | src/kogwistar_llm_wiki/archiving/operations.py:215-240 | Remapping back is the identity exactly when every scoped string is reversible |
| Remaps.BareGainsColon | src/kogwistar_llm_wiki/archiving/operations.py:237-239 | A bare workspace name comes back with a colon it did not have |
| Remaps.NamespaceInjective | src/kogwistar_llm_wiki/archiving/operations.py:258-262 | Remapping tells the namespaces of one workspace apart |
| Remaps.EventBack | src/kogwistar_llm_wiki/archiving/operations.py:243-255 | A moved event keeps number, id, entity, operation and time, has the new prefix before its own suffix and its payload remapped; it is recovered by remapping back exactly when its payload is reversible |
| Namespaces.NamesDistinct | src/kogwistar_llm_wiki/archiving/io.py:38-66 | The archived namespaces of a workspace are pairwise distinct and start with its prefix |
| Namespaces.NamesRemap | src/kogwistar_llm_wiki/archiving/io.py:38-66 | Remapping carries the namespaces of one workspace to those of the other |
| Artifacts.SplitExact | src/kogwistar_llm_wiki/archiving/io.py:149-156 | The parts of a name are the one way to cut it at its slashes |
| Artifacts.DestinationExact | src/kogwistar_llm_wiki/archiving/io.py:149-156 | A name is refused exactly when it is absolute, steps up or does not lead into `artifacts`; otherwise the named parts that follow are kept, in order |
| Artifacts.DestinationOfFile | src/kogwistar_llm_wiki/archiving/io.py:138-156 | A file collected from a relative path goes back to that path exactly when no component contains a backslash |
| Artifacts.DestinationStaysInside | src/kogwistar_llm_wiki/archiving/io.py:149-156 | A member's destination has only plain components, without slash or backslash, and no step up |
| Artifacts.DataDirectory.RestoreMember | src/kogwistar_llm_wiki/archiving/io.py:175-198 | A member is written exactly when its path is safe, its checksum matches and what it replaces is absent, equal or declared by an earlier archive |
| Artifacts.DataDirectory.RestoreArtifacts | src/kogwistar_llm_wiki/archiving/io.py:167-202 | Succeeds exactly when every member may be written onto what the ones before left and nothing declared is missing; a failure leaves a written prefix; a file changes only if its content was declared for its own path |
| Artifacts.DataDirectory.RestoreLayers | src/kogwistar_llm_wiki/archiving/operations.py:308-320 | The same over a chain, oldest first; a failure leaves the layers below and a beginning of one; a file changes only if its content was declared for its own path |
| Artifacts.OverlayAt | src/kogwistar_llm_wiki/archiving/io.py:175-198 | Every path ends with the last member that lands on it, or as it was |
| Artifacts.LayeredRestore | src/kogwistar_llm_wiki/archiving/operations.py:308-320 | After a chain restore every path holds the last member of the chain landing on it, and every other file is unchanged |
| Artifacts.DeclaredPathsHold | src/kogwistar_llm_wiki/archiving/operations.py:308-320 | When all members are declared and names do not collide, each declared path holds what the last archive to declare it declares |
| Artifacts.DeclaredPathExact | src/kogwistar_llm_wiki/archiving/operations.py:308-320 | For any chain: the declared bytes are there exactly when no member after the declared one goes there, or the last that does carries them; all such members are undeclared or go by another name |
| Artifacts.UndeclaredMemberWins | src/kogwistar_llm_wiki/archiving/io.py:184-194 | An accepted chain whose second archive replaces a declared file by one it does not declare |
| Restores.MovedExact | src/kogwistar_llm_wiki/archiving/operations.py:243-285 | Moving keeps every event in its place, each with number, id, entity, operation and time kept, the namespace under the new prefix and the payload remapped |
| Restores.MoveEvents | src/kogwistar_llm_wiki/archiving/operations.py:280-285 | Events are moved to the target workspace one by one, field by field, exactly when the target has all their namespaces |
| Restores.GroupByNamespace | src/kogwistar_llm_wiki/archiving/operations.py:287-289 | The groups are exactly the events of each namespace, in order |
| Restores.CheckComplete | src/kogwistar_llm_wiki/archiving/operations.py:292-296 | Rows pass exactly when they are numbered 1, 2, 3, … |
| Restores.Target.CheckEmpty | src/kogwistar_llm_wiki/archiving/io.py:205-221 | Passes exactly when no namespace of the target has a first event or graph data |
| Restores.Target.Check | src/kogwistar_llm_wiki/archiving/operations.py:275-306 | The checks pass exactly when the chain is accepted and the moved events are supported, complete and meet an empty target |
| Restores.Target.WriteGroups | src/kogwistar_llm_wiki/archiving/operations.py:322-325 | Every namespace gains exactly its rows |
| Restores.Target.ReplayGroups | src/kogwistar_llm_wiki/archiving/operations.py:326-334 | Replay reaches the last row of every group, or stops at an engine that cannot replay |
| Restores.Target.RestoreArchive | src/kogwistar_llm_wiki/archiving/operations.py:265-337 | A dry run or failed check changes nothing; an artifact failure leaves the logs and a beginning of the files; after that exactly the rows, moved field by field to the requested workspace, and the files are added; success also means every restored log was replayed to its end |
| RestoreFacts.MovedRows | src/kogwistar_llm_wiki/archiving/operations.py:280-296 | The rows a namespace receives are its source events in order, moved |
| RestoreFacts.OccupiedExactly | src/kogwistar_llm_wiki/archiving/io.py:205-221 | The emptiness check refuses a namespace exactly when its log begins with event 1 or its backend holds data |
| RestoreFacts.RestorableExactly | src/kogwistar_llm_wiki/archiving/operations.py:275-303 | For an accepted chain of one workspace the checks come down to a supporting and empty target |
| RestoreFacts.RestoreRoundTrip | src/kogwistar_llm_wiki/archiving/operations.py:265-337 | Growing logs archived as base plus increments restore into an empty target: under its new prefix each namespace receives as many rows as the final source log has events, row by row with number, id, entity, operation and time kept and the payload remapped |
| RestoreFacts.NothingElseRestored | src/kogwistar_llm_wiki/archiving/operations.py:265-337 | No other namespace receives any row |
| RestoreFacts.RestoreEqualsFullRestore | src/kogwistar_llm_wiki/archiving/operations.py:265-337 | Restoring the chain writes in every namespace what restoring one full archive writes |
| LayerRoundTrips.LayersAlwaysFit | src/kogwistar_llm_wiki/archiving/operations.py:308-320 | Files collected from paths without backslashes and archived as base plus increments never conflict when restored onto an empty directory, however they changed |
| LayerRoundTrips.FilesComeBack | src/kogwistar_llm_wiki/archiving/operations.py:142-149 | After that restore every file of the last stage is at the path it was collected from, with its bytes |
| LayerRoundTrips.DirectoryRestored | src/kogwistar_llm_wiki/archiving/operations.py:308-320 | The whole directory: every path holds what the last stage with a file there had, and nothing if none had one |
| LayerRoundTrips.BackslashIsLost | src/kogwistar_llm_wiki/archiving/io.py:149-156 | Nothing is ever restored to a path with a backslash |
| LayerRoundTrips.BackslashCollides | src/kogwistar_llm_wiki/archiving/io.py:149-156 | Two different files whose member names lead to one place |
| Workers.MaintenanceWorker.Process | src/kogwistar_llm_wiki/worker.py:259-328 | One job gets one call and one disposition; a context-window failure switches both modes off |
| Workers.MaintenanceWorker.ProcessPendingJobs | src/kogwistar_llm_wiki/worker.py:220-337 | The poll disposes of each reached job once, in claim order; an empty queue means all were reached; otherwise only the rest of the current batch stays leased, and nothing after a fair slice |
| Workers.NothingHandledAfterContextFailure | src/kogwistar_llm_wiki/worker.py:290-317 | After a context-window failure every later job of the poll is put back |
| Workers.FairPollHandlesOnce | src/kogwistar_llm_wiki/worker.py:284-337 | A fair poll handles at most one job |
| Workers.HandledExactlyWhenOn | src/kogwistar_llm_wiki/worker.py:267-284 | A job is handled exactly when its own mode is on at that moment; its disposition is determined by that and by how its call failed |
| Workers.PausedModeStaysPaused | src/kogwistar_llm_wiki/worker.py:267-283 | Once a mode is off its jobs are put back for the rest of the poll |
| SourceCollections.SourceOwnership | src/kogwistar_llm_wiki/app_contracts/notification_sources.py:132-147 | Succeeds exactly on named, non-shared, bounded sources, and gives each source the adapter that lists it |
| SourceCollections.OwnedExactly | src/kogwistar_llm_wiki/app_contracts/notification_sources.py:132-147 | Each adapter owns exactly the sources it lists |
| SourceCollections.ReadAdapter | src/kogwistar_llm_wiki/app_contracts/notification_sources.py:107-129 | A batch is taken whole exactly when it fits and is in scope; one event too many is an error, never a cut |
| SourceCollections.ReadWindow | src/kogwistar_llm_wiki/app_contracts/notification_sources.py:78-130 | Returns everything the adapters hold for their own sources in adapter order, at most the bound, exactly when all checks hold; otherwise fails |
| Budgets.RoundExact | src/kogwistar_llm_wiki/agent/protocol.py:143-149 | Conversion through a double is exact precisely for multiples of the spacing and off by at most half of it |
| Budgets.SmallIsExact | src/kogwistar_llm_wiki/agent/protocol.py:143-149 | Integers up to 2^53 survive |
| Budgets.PartitionBudgets | src/kogwistar_llm_wiki/agent/protocol.py:123-140 | Gives a job its share of every budget, exactly when all are convertible, and keeps what is not a number; no jobs means an unchanged copy |
| Budgets.SharesConserve | src/kogwistar_llm_wiki/agent/protocol.py:134-137 | Shares add up to the total, never increase and differ by at most one |
| Budgets.BudgetConserved | src/kogwistar_llm_wiki/agent/protocol.py:123-140 | The shares of an integer budget add up to the request exactly when it is a multiple of the spacing of doubles, so always up to 2^53 |
| Budgets.FractionConserved | src/kogwistar_llm_wiki/agent/protocol.py:134-149 | A fractional request for an integer budget is cut to a whole number towards zero, and the shares add up to that; -1 and below are refused |
| Budgets.NearestExact | src/kogwistar_llm_wiki/agent/protocol.py:138-139 | Rounding a quotient to a double is exact precisely on multiples of the spacing around it, and off by at most half of it otherwise |
| Budgets.EvenSharesConserve | src/kogwistar_llm_wiki/agent/protocol.py:138-139 | Equal time and cost shares, of negative amounts too, make up the request exactly when the even share is a double, and miss it by at most half a spacing per job |
| Budgets.WholeSharesConserve | src/kogwistar_llm_wiki/agent/protocol.py:138-139 | The same for whole numbers, which are first converted to doubles: exactly if multiples of the spacing, so always up to 2^53 |
| Budgets.LargeBudgetLoses | src/kogwistar_llm_wiki/agent/protocol.py:143-149 | A budget of 2^53 + 1 loses a unit |
| Budgets.LimitPartitions | src/kogwistar_llm_wiki/agent/protocol.py:107-120 | Queued sources followed by skipped ones are the input; no positive quota is exceeded, and something is skipped only when a positive quota is used up |
| Budgets.QuotaReachesEveryJob | src/kogwistar_llm_wiki/agent/protocol.py:107-140 | A positive call or step quota gives every queued job at least one |
| Budgets.Maintain | src/kogwistar_llm_wiki/agent/maintenance_tools.py:78-99 | Queues the allowed sources in order, each with its share, and reports the rest |

## Left out

- SQLite, tar and gzip, the file system and JSON text: tables, archives, directories and documents are values; library round trips and the absence of hash collisions are assumed, and a file standing where a directory is needed is not modelled.
- The job queue, metadata store and graph replay behind the application: the queue is a map with states, claim tokens and leases, a store keeps numbered events in order, and replay is known by how far it went. Which jobs a claim returns is arbitrary.
- Time zones and the range of `datetime`: times are unbounded integers, and timestamps are taken to be zone-aware.
- Types that the model fixes (a non-string id, a boolean where a number is wanted) and the wording of error messages; every error path itself is kept.
- `restore_backend_snapshot`, quiescence checks and embedding profiles: file copying and capability probing. Snapshot entries are modelled as far as capture writes and verification reads them.
- `notification_outbox.py`: its pager and cursor type belong to code outside the repository.
- The agent gateway, MCP server, protocol adapters, HTTP handlers, command line, terminal and web front ends, telemetry, engine builders and benchmarks: wiring and single-branch validation with little to prove.
- Paging through schedules (`list_schedules`) and the listing half of the source collection: one bounded query each.
- What a maintenance job does once handled, and how sources are looked up before budgets are applied.
- Captures.CreateArchive: requires event stores that keep each namespace's own events in increasing order from 1, as the store's reader promises, and files collected one per path; which directories are copied is given, not computed.
- Restores.Target.RestoreArchive: an archive is given as a list with at least the archive itself; a one-shot iterator of parents, which the source would exhaust on its first pass, is not modelled.
- Artifacts.DataDirectory.RestoreArtifacts: destinations are resolved by POSIX rules; drive letters are not modelled.
- Workers.MaintenanceWorker.ProcessPendingJobs: callbacks may switch modes off but not on again during a poll.
- SourceCollections.ReadWindow: adapters answer truthfully up to their limit and list the same sources throughout one call; access answers do not change within a call.
