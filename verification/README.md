# Proofs about the Storevia core

This project models the hard logic of the Storevia repository in Dafny and
proves what its documentation, tests and comments promise of it. Every database
transaction is one atomic step over rows held in memory, except where a property
is about finer interleavings; there, row locks, heartbeats, crashes, object
writes and object deletes are steps of their own.

- **Billing** (`StateMachine`, `Subscriptions`, `Webhooks`, `WebhookDeliveries`,
  `StaffActions`, `StaffOutcomes`, `SubscriptionSweep`, `BillingRuns`,
  `WebhookConvergence`, and the class in `BillingService`): staff actions, provider
  webhooks and the expiry sweep write the same subscription rows through one
  function.
- **Entitlements and usage** (`Entitlements`, `Usage`, `Products`): what a plan
  grants at a moment, and counters that must equal what they count.
- **Jobs** (`Schedule`, `JobTables`, `SchedulerRuns`, `SchedulerTiming`, and the
  classes in `Scheduler`): a lease protocol over several workers with arbitrary clocks.
- **Media** (`Media`, `MediaRuns`, `ProcessingSlots`, and the class in
  `MediaService`): uploads, deletions, sweeps and purges racing over asset rows
  and an object store.
- **Variants** (`Combinations`, `VariantPlan`, `VariantRows`,
  `VariantApplication`, `VariantOutcomes`): planning an option edit and applying it
  in place under a unique index.
- **Stock** (`StockLedger`, `StockChanges`, `LocationLocks`, `LocationScripts`, `LocationSafety`,
  `LocationDeadlocks`): conditional updates with an append-only ledger, and the
  share and exclusive locks between stock writes and locations going in and out of
  use.
- **Algorithms** (`Rounding`, `Allocation`, `Decimals`, `Base32`,
  `CategoryPaths`, `Categories`, `CategoryBuilder`, `Handles`), over `Common`,
  `Arithmetic`, `Numerals` and `Text`.

Operations are written as the code runs them, with a function saying what each does
to the rows. What the code promises is then stated without those functions: over the
rows before and after, over the request, and over every run (`WebhookDeliveries`,
`StaffOutcomes`, `SchedulerTiming`, `VariantOutcomes`, `StockChanges`, and the last
part of the other modules).

Run `dafny verify dfyconfig.toml` here to check all of it.

## What the proofs found

Four statements one would like to make are not true of the code as it stands.
Each is replaced by its exact condition, one that can be checked beforehand,
proved in both directions for all inputs.

- **Webhook order.** `docs/adr/0022-provider-neutral-subscriptions-and-entitlements.md:171`
  says that out-of-order delivery converges. It does so if and only if the
  newest snapshot may directly follow each older one
  (`WebhookConvergence.ConvergenceIffNewestFollowsAll`). CANCELLED to PAST_DUE is
  not a legal move, so a cancellation undone before a payment failed diverges in
  some order (`WebhookConvergence.UndoneCancellationDiverges`). The model follows
  the code.
- **Deactivating a location.** The comment at packages/commerce/src/inventory.ts:55
  says that a deactivation locks its location before checking for stock. The
  statement locks the locations that were active when it began. Among stock writes
  and deactivations that is enough
  (`LocationSafety.WritesAndDeactivationsAreSafe`). With activations and new
  locations about, a deactivation can strand stock if and only if its target is
  not active when it starts and at least two locations are
  (`LocationSafety.StrandsExactly`): activated meanwhile, the target is switched
  off without having been locked.
- **Lock order.** Stock writes, transfers and deactivations never deadlock
  (`LocationDeadlocks.WritesAndDeactivationsNeverDeadlock`). With activations a
  switch can close a cycle if and only if its target is not active when it starts,
  some active location has a larger id and, to deactivate, at least two are active
  (`LocationDeadlocks.DeadlocksExactly`): the row it updates last sorts before one
  it holds, and a transfer between the two does the rest.
- **Generated handles.** The candidates for a taken base may be shortened to make
  room for the suffix, and then no longer begin with the prefix that was looked up.
  The chosen handle is sure not to be in use if and only if the base is free or
  every candidate up to a free one begins with that prefix
  (`Handles.GeneratedHandleFree`); `Handles.ShortenedHandleClashes` has titles for
  which it fails. The unique index then refuses the product.

## Model

| member | source | states |
|---|---|---|
| StateMachine.LegalMoves | packages/billing/src/state-machine.ts:16-29 | a subscription opens as a trial or active, nothing leaves EXPIRED or returns to a trial, a cancellation never falls past due, and every other move is legal |
| Entitlements.EntitlementOnlyEnds | packages/entitlements/src/engine.ts:66-81 | what a subscription stopped granting it never grants again later, whatever its status and dates |
| Subscriptions.ChangeKeepsHistory | packages/billing/src/subscriptions.ts:201-293 | the event an accepted change appends continues that subscription's chain, and replaying the longer log gives every row's new status and plan |
| Subscriptions.ChangeKeepsConsistent | packages/billing/src/subscriptions.ts:201-293 | an accepted change keeps every row valid, one live row per organisation, one row per provider reference and a log that replays to the rows; EXPIRED rows, owners and origins are frozen |
| Subscriptions.UpdateNeverViolates | packages/billing/src/subscriptions.ts:201-293 | changing an existing row never trips a unique index |
| Subscriptions.CreateViolatesOnlyWhenTaken | packages/database/prisma/migrations/20260925000000_billing_entitlements/migration.sql:414-435 | creating a row trips an index if and only if the organisation already has a live row or the provider reference is used |
| Subscriptions.LateChange | packages/billing/src/subscriptions.ts:201-293 | a change acceptable on earlier tables and written to later ones: an update never trips an index; a creation trips one if and only if the organisation or the reference was taken meanwhile, and else succeeds |
| Subscriptions.ChangeAcceptedExactly | packages/billing/src/subscriptions.ts:201-242 | a change is accepted if and only if an update stays with its organisation, makes a legal move, and takes a cancellation back only while access lasts, or a creation names its origin, opens legally unless it mirrors a provider, and finds organisation and reference free |
| Subscriptions.ChangeWrites | packages/billing/src/subscriptions.ts:214-293 | an accepted change writes its one row and one event, column by column, and no other row |
| Subscriptions.FindLive | packages/billing/src/subscriptions.ts:155-164 | finds the organisation's first row that is not EXPIRED, or shows there is none |
| Subscriptions.LiveIsUnique | packages/billing/src/subscriptions.ts:155-164 | the live row that is locked is the only row of the organisation that is not EXPIRED |
| StaffActions.ActNeverViolates | packages/billing/src/manual.ts:307-622 | a staff action that no other transaction overlaps never trips a unique index |
| StaffActions.LateActionViolates | packages/billing/src/manual.ts:184-196 | decided on earlier tables and written to later ones, a staff action trips an index if and only if it assigns a plan and the organisation got a live subscription meanwhile, the case reported as a conflict |
| StaffActions.ActNeverIllegal | packages/billing/src/manual.ts:307-622 | a staff action that its own checks let through is never refused by the state machine |
| StaffOutcomes.AssignAcceptedExactly | packages/billing/src/manual.ts:307-342 | a plan is assigned if and only if the organisation exists without a live subscription, the plan is active, and the dates are in order |
| StaffOutcomes.AssignedSubscription | packages/billing/src/manual.ts:334-366 | an assigned trial grants the plan exactly until the trial ends, entered or the plan's days after its start; an assigned active subscription until its fixed end, if it has one |
| StaffOutcomes.ChangeAccepted | packages/billing/src/manual.ts:375-426 | when a change of a live manual subscription is accepted, in terms of the row, the plans and the dates entered |
| StaffOutcomes.ChangedSubscription | packages/billing/src/manual.ts:392-441 | plan, interval and ends become those asked for; status and all other columns stay |
| StaffOutcomes.ActivateAccepted | packages/billing/src/manual.ts:444-465 | activation is accepted if and only if the row is manual and not active, the end given lies ahead and a cancellation's access has not ended |
| StaffOutcomes.ActivatedSubscription | packages/billing/src/manual.ts:466-494 | an activated subscription grants its plan exactly until the end given or the fixed end it had; a cancellation's access end is dropped |
| StaffOutcomes.GraceAccepted | packages/billing/src/manual.ts:502-521 | grace is extended if and only if the manual row is past due and the new end lies ahead, at most 60 days, and after the current one |
| StaffOutcomes.ExtendedGrace | packages/billing/src/manual.ts:522-539 | the plan is granted exactly until the new, later grace end |
| StaffOutcomes.CancelAccepted | packages/billing/src/manual.ts:542-564 | cancelling is accepted if and only if the manual row is not cancelled yet and access has an end that lies ahead |
| StaffOutcomes.CancelledSubscription | packages/billing/src/manual.ts:565-588 | a cancelled subscription grants its plan exactly until access ends: as chosen, with the trial, at the fixed end, or with the paid period |
| StaffOutcomes.ExpireAccepted | packages/billing/src/manual.ts:591-601 | expiry is accepted if and only if the row is live, and manual or granting nothing any more |
| StaffOutcomes.ExpiredSubscription | packages/billing/src/manual.ts:602-622 | an expired subscription grants nothing at any time and the organisation has no live one left |
| Webhooks.AcceptedEventsApply | packages/billing/src/webhooks.ts:178-254 | once the webhook checks pass nothing throws: in particular the supersede-then-create pair succeeds as a whole |
| Webhooks.SupersedeFrees | packages/billing/src/webhooks.ts:205-230 | ending the live row with an EXPIRED state succeeds and leaves the organisation without a live row |
| Webhooks.DeliverySettles | packages/billing/src/webhooks.ts:264-363 | a delivery that no other transaction overlaps ends with its ledger row PROCESSED or IGNORED, never FAILED |
| Webhooks.LateObservationViolates | packages/billing/src/webhooks.ts:323-361 | an overlapping delivery that creates a row fails, and is recorded FAILED for a retry, if and only if a live subscription of the organisation or a row with the reference appeared meanwhile |
| Webhooks.SettledIsDuplicate | packages/billing/src/webhooks.ts:117-258 | a delivery whose event id is settled changes nothing and reports a duplicate |
| WebhookDeliveries.ShownGrants | packages/billing/src/webhooks.ts:70-89 | a row that shows a snapshot grants access at exactly the times the snapshot's own dates say |
| WebhookDeliveries.AcceptedExactly | packages/billing/src/webhooks.ts:150-254 | an event is applied if and only if its customer and plan are known, its snapshot complete, its own row older and able to make the move, or, seen first and not over, the organisation's live row strictly older |
| WebhookDeliveries.IgnoredForItsReason | packages/billing/src/webhooks.ts:158-192 | each reason an event is ignored for is true, in the order of the checks; invalid means exactly that a date the status needs is missing or a period ends before it starts |
| WebhookDeliveries.ProcessedDelivery | packages/billing/src/webhooks.ts:193-258 | after an accepted delivery the subscription's row carries the snapshot's plan, status, dates and version and grants access at exactly the snapshot's times; only a live row that gave way changed besides, and both are logged |
| WebhookDeliveries.DeliveryRecorded | packages/billing/src/webhooks.ts:91-115 | a delivery touches its own ledger row only, counts an attempt and records the outcome; what is not processed leaves the subscriptions alone |
| WebhookDeliveries.OutcomeIsVerdict | packages/billing/src/webhooks.ts:264-363 | the outcome reported and the organisation recorded are those of the verdict |
| SubscriptionSweep.QueryIsExact | packages/billing/src/sweep.ts:21-34 | on valid rows the sweep's query selects exactly the live MANUAL subscriptions that grant nothing now |
| SubscriptionSweep.ExpiryKeepsPlan | packages/billing/src/sweep.ts:36-61 | expiring such a row leaves every organisation's entitling plan as it is, now and at every later time |
| SubscriptionSweep.SweepKeepsPlans | packages/billing/src/sweep.ts:36-61 | a whole sweep never fails, keeps the tables consistent and changes no organisation's entitling plan at any time from now on |
| SubscriptionSweep.SweepKeepsEntitlements | packages/entitlements/src/store.ts:146-224 | every feature of every organisation resolves to the same value and origin before and after a sweep, at every time from now on |
| SubscriptionSweep.SweepEndsExactlyTheListed | packages/billing/src/sweep.ts:36-61 | the sweep ends exactly the listed due rows, touches no other row, and counts and logs each once |
| SubscriptionSweep.FeatureDecided | packages/entitlements/src/engine.ts:107-140 | an unexpired override decides a feature, else the plan of the organisation's access-granting subscription, else the system default |
| BillingRuns.StepGrows | packages/billing/src/webhooks.ts:264-363 | every staff action, delivery and sweep keeps the tables consistent, only appends events, freezes EXPIRED rows and keeps settled ledger rows |
| BillingRuns.RunKeepsConsistent | packages/billing/src/subscriptions.ts:201-293 | the same over every run mixing the three writers in any order |
| BillingRuns.OneLiveSubscription | packages/database/prisma/migrations/20260925000000_billing_entitlements/migration.sql:414-435 | in every reachable state an organisation has at most one subscription that is not EXPIRED |
| BillingRuns.HistoryExplainsRows | packages/billing/src/subscriptions.ts:243-265 | in every reachable state replaying the event log gives each row's status and plan, and each row passes the state invariants |
| BillingRuns.HistoryIsChained | packages/billing/src/subscriptions.ts:243-265 | in every reachable state each event opens its subscription's history or continues the latest one before it, same status and plan, by a legal move |
| BillingRuns.RowsAreReadable | packages/billing/src/subscriptions.ts:169-197 | in every reachable state the dates each status is read with are there, no trial or period ends before it starts, and provider columns fit the source |
| BillingRuns.ExpiredIsForever | packages/billing/src/state-machine.ts:16-29 | a row that expired is never written again, whatever runs afterwards |
| BillingRuns.EventsCountOnce | packages/billing/src/webhooks.ts:117-139 | after an event was delivered, any later delivery with its id changes nothing at all |
| WebhookConvergence.FollowsAllConverges | packages/billing/src/webhooks.ts:117-258 | if the newest snapshot may directly follow every older one, any order and repetition of deliveries, among unrelated traffic, ends with the row showing the newest snapshot, as of its version |
| WebhookConvergence.ConvergedEntitlement | packages/entitlements/src/store.ts:146-172 | and the organisation is then granted the newest snapshot's plan at exactly the times the newest snapshot gives access |
| WebhookConvergence.ConvergenceIffNewestFollowsAll | packages/billing/src/subscriptions.ts:90-101 | deliveries converge in every order if and only if the newest snapshot may directly follow each older applicable one |
| WebhookConvergence.BlockedDelivery | packages/billing/src/webhooks.ts:232-254 | otherwise delivering the blocking event first leaves the row at that event |
| WebhookConvergence.CancelledThenPastDueDiverges | packages/billing/src/state-machine.ts:23 | a stream with a CANCELLED snapshot whose newest is PAST_DUE has an order that does not converge |
| WebhookConvergence.UndoneCancellationDiverges | packages/billing/src/state-machine.ts:16-25 | a concrete stream, cancelled, reactivated, then past due, whose every step is legal and which still diverges in some order |
| BillingService.BillingDatabase.ApplySubscriptionChange | packages/billing/src/subscriptions.ts:201-293 | the stored rows and events become those of the specification, or an error leaves them untouched |
| BillingService.BillingDatabase.ApplyWebhook | packages/billing/src/webhooks.ts:117-258 | one webhook transaction changes tables and ledger as specified, or rolls back |
| BillingService.BillingDatabase.IngestBillingWebhook | packages/billing/src/webhooks.ts:264-363 | a whole delivery ends in the specified tables, ledger and outcome, failures recorded; once processed, a row shows the snapshot |
| BillingService.BillingDatabase.PerformStaffAction | packages/billing/src/manual.ts:307-622 | a staff action ends in the specified tables or leaves them untouched |
| BillingService.BillingDatabase.FindDue | packages/billing/src/sweep.ts:22-34 | lists distinct due rows, at most one batch, and all of them when there are fewer |
| BillingService.BillingDatabase.SweepSubscriptionExpiry | packages/billing/src/sweep.ts:21-61 | the sweep's loop leaves the specified tables and counts what it expired |
| Schedule.BoundariesAre | packages/jobs/src/schedule.ts:3-18 | the boundaries of a schedule lie whole intervals, of everySeconds seconds, from its anchor, the epoch if none is given |
| Schedule.SlotAtOrAfterIsLeast | packages/jobs/src/schedule.ts:13-18 | the slot is a boundary of the schedule, not before the time, and no boundary in between |
| Schedule.NextSlotAdvances | packages/jobs/src/schedule.ts:24-29 | the next slot lies strictly after both the slot and now, aligned or not |
| Schedule.NextSlotIsLeast | packages/jobs/src/schedule.ts:24-29 | from an aligned slot it is the least boundary strictly after both |
| Schedule.RetryDelayGrows | packages/jobs/src/schedule.ts:32-34 | retry delays start at the base, never shrink and never pass the cap |
| Schedule.RetryDelayDoubles | packages/jobs/src/schedule.ts:32-34 | each retry doubles the delay until the cap |
| SchedulerRuns.StepSound | packages/jobs/src/scheduler.ts:150-342 | every claim, heartbeat, finish, crash and registration keeps the lease invariant |
| SchedulerRuns.RunSound | packages/jobs/src/scheduler.ts:150-342 | the lease invariant holds after every interleaving, with arbitrary clocks |
| SchedulerRuns.OneRunPerJob | packages/jobs/src/scheduler.ts:150-202 | a job has at most one RUNNING run in every reachable state |
| SchedulerRuns.LockNamesTheRunner | packages/jobs/src/scheduler.ts:150-202 | the lock names a worker exactly when that worker owns the job's RUNNING run |
| SchedulerRuns.LateFinishIsHarmless | packages/jobs/src/scheduler.ts:311-339 | a finish after the lease was lost leaves every job row and every other run untouched |
| SchedulerRuns.ClaimNeverCollides | packages/database/prisma/migrations/20260926000000_worker_jobs/migration.sql:53 | the next claim's job, slot and attempt are always unused, so the unique index never refuses a claim |
| SchedulerRuns.SlotMovesOnlyForward | packages/jobs/src/scheduler.ts:296-324 | a slot changes only when the lease holder finishes its RUNNING run of that slot with success or out of attempts, and then moves past the old slot and the clock |
| SchedulerRuns.ClaimsAdvance | packages/jobs/src/scheduler.ts:178-200 | the runs of a job are claimed in strictly increasing (slot, attempt) order |
| SchedulerRuns.NoSlotDropped | packages/jobs/src/scheduler.ts:296-324 | a job moves past a slot it ran only after some run of the slot succeeded or used the last attempt |
| SchedulerRuns.OnlyTakeoversExceedTheLimit | packages/jobs/src/scheduler.ts:178-200 | a claim of an unlocked job never starts an attempt beyond maxAttempts |
| SchedulerTiming.NeverEarly | packages/jobs/src/scheduler.ts:155-176 | in every reachable state a slot is a boundary of its schedule and its first attempt started at or after it; a run is finished exactly when it is not RUNNING, with an error exactly when it FAILED |
| SchedulerTiming.DueExactly | packages/jobs/src/scheduler.ts:158-165 | in every reachable state a job between slots is due from its slot on, one between attempts once the retry delay after its last failure has passed, and one under lease not before the lease ends |
| SchedulerTiming.FinishReleases | packages/jobs/src/scheduler.ts:312-324 | a finish by the lease holder: after success or the last attempt the job is due from the least boundary after slot and clock, after any other failure exactly when the retry delay has passed |
| SchedulerTiming.RetryWaits | packages/jobs/src/schedule.ts:31-34 | a retry waits half a minute at first, doubling up to a quarter of an hour |
| SchedulerTiming.RegisterWrites | packages/jobs/src/scheduler.ts:104-120 | a new job is due from the first boundary at or after now; a known one keeps all but its interval |
| SchedulerTiming.ClaimWrites | packages/jobs/src/scheduler.ts:155-200 | a claim leases the job so that it is not due before the lease ends, starts the next attempt of its slot, and fails the runs left RUNNING and no others |
| SchedulerTiming.HeartbeatWrites | packages/jobs/src/scheduler.ts:283-288 | a heartbeat moves the end of the holder's lease and nothing else |
| SchedulerTiming.FinishRecords | packages/jobs/src/scheduler.ts:330-339 | every finish records its own run's outcome, and no other run's |
| Scheduler.Worker.Register | packages/jobs/src/scheduler.ts:104-120 | adds the job at its first slot or updates its interval, as specified |
| Scheduler.Worker.FirstDue | packages/jobs/src/scheduler.ts:155-176 | finds a registered due job whose time came first, or shows that nothing is due |
| Scheduler.Worker.Claim | packages/jobs/src/scheduler.ts:150-202 | claims the first due job: stale runs expired, lock, attempt and new run as specified |
| Scheduler.Worker.RenewLease | packages/jobs/src/scheduler.ts:283-288 | extends the lease only of jobs this worker holds |
| Scheduler.Worker.Finish | packages/jobs/src/scheduler.ts:290-342 | records the run, and releases the job only while the lease is still held: due again at the next slot, or after the retry delay |
| Scheduler.Worker.RunDue | packages/jobs/src/scheduler.ts:137-148 | the loop is a run of the protocol and ends only when nothing is due or shutdown was asked |
| MediaRuns.StepSound | packages/media/src/service.ts:200-325 | every step of completions, deletions, sweeps and purges keeps the media invariant |
| MediaRuns.RunSound | apps/worker/src/media.ts:28-109 | the media invariant holds after every interleaving, crashes included |
| MediaRuns.QuotaIsExact | packages/media/src/service.ts:279-299 | once the storage counter exists it equals the bytes READY rows record |
| MediaRuns.QuotaIsStorage | packages/media/src/service.ts:251-299 | and it equals the sizes, in storage, of all objects READY rows name |
| MediaRuns.CountedOnce | packages/media/src/service.ts:458-530 | each asset is consumed at most once and released at most once, after it was consumed |
| MediaRuns.ReadyIsServable | packages/media/src/service.ts:253-299 | a READY asset's original and recorded renditions are all in storage, under different keys and at their recorded sizes |
| MediaRuns.PurgedIsGone | packages/media/src/service.ts:532-555 | none of the objects a purged asset's row records is in storage, its raw upload aside |
| MediaRuns.DeleteReleasesExactly | packages/media/src/service.ts:458-530 | deleting a READY asset lowers the counter by exactly its bytes; the clamp at zero does not fire |
| MediaService.MediaLibrary.Claim | packages/media/src/service.ts:209-224 | exactly one completion of a pending upload goes on |
| MediaService.MediaLibrary.MarkRejected | packages/media/src/service.ts:159-163 | only an asset still PROCESSING becomes REJECTED |
| MediaService.MediaLibrary.CompleteMediaUpload | packages/media/src/service.ts:200-325 | a completion is a run of the protocol, changes no other row, completes exactly when nothing it meets prevents it, and ends as its outcome says: refused without effect, READY with one object per processed file at its own width and size and exactly their bytes counted, or REJECTED with the counter as it was |
| MediaService.CommitsExactly | packages/media/src/service.ts:279-325 | the final transaction takes effect if and only if the upload is still PROCESSING and its bytes fit; then the row records every processed file and the counter grows by all their bytes |
| MediaService.DeletionCoversAll | packages/media/src/service.ts:532-545 | a deletion undertakes to remove every object the row names and the raw upload, and nothing else |
| MediaService.RetryCoversAll | apps/worker/src/media.ts:60-109 | a purge taken up again has all of the row's objects and the raw upload to do over |
| MediaService.UploadStarts | packages/media/src/service.ts:95-160 | an upload starts as a pending row of its own, arrives in storage, and only the first claim takes it |
| MediaService.ReconcilesExactly | packages/entitlements/src/store.ts:480-519 | reconciling sets the counter to the sizes in storage of what READY rows name |
| MediaService.MediaLibrary.DeleteMedia | packages/media/src/service.ts:458-556 | deletion is a run of the protocol, succeeds exactly for unused assets not yet deleted, frees a READY asset's bytes, removes the objects that can be deleted and marks the row purged if all could |
| MediaService.MediaLibrary.SweepMedia | apps/worker/src/media.ts:28-58 | the sweep is a run of the protocol that rejects exactly the listed rows, counts the stuck and the abandoned, and removes the raw uploads that can be deleted |
| MediaService.MediaLibrary.PurgeObjects | packages/media/src/service.ts:532-555 | purging is a run of the protocol that removes exactly the keys that can be deleted and marks the row purged if and only if all could |
| ProcessingSlots.Semaphore.TryEnter | packages/media/src/service.ts:176-191 | takes a slot while one is free and otherwise queues, as specified |
| ProcessingSlots.Semaphore.Leave | packages/media/src/service.ts:176-191 | frees the slot and wakes the first in the queue |
| ProcessingSlots.AtMostTwoRun | packages/media/src/service.ts:176-191 | at most two tasks run at once in every interleaving |
| ProcessingSlots.NoWakeUpIsLost | packages/media/src/service.ts:176-191 | whenever a task waits, running and woken tasks number at least two |
| ProcessingSlots.EveryoneGetsThrough | packages/media/src/service.ts:176-191 | without newcomers every interleaving ends, and only with nobody waiting, woken or running |
| ProcessingSlots.EntersExactly | packages/media/src/service.ts:180-185 | a task takes a slot if fewer than two run, and else the last place in the queue |
| ProcessingSlots.FinishesExactly | packages/media/src/service.ts:186-190 | a task that ends wakes exactly the one that queued first |
| ProcessingSlots.QueueIsFair | packages/media/src/service.ts:176-191 | over any run the queue only loses its front and only grows at its back |
| Usage.ConsumeStaysAccurate | packages/entitlements/src/store.ts:403-425 | consuming an accurate or missing counter gives the new real count, within the limit |
| Usage.ReleaseStaysAccurate | packages/entitlements/src/store.ts:428-440 | releasing what is there lowers an accurate counter by exactly that much |
| Usage.ConsumesExactly | packages/entitlements/src/engine.ts:88-171 | a stored value admits a consumption if and only if it is enabled and, for a limit, unlimited or with room, and for a configuration, really one |
| Usage.GrantedAdmitsOne | packages/entitlements/src/engine.ts:143-154 | a feature is granted if and only if it admits a first unit |
| Usage.ReleasesExactly | packages/entitlements/src/store.ts:428-440 | a release lowers the counter by the amount and stops at zero |
| Products.RunStaysAccurate | packages/commerce/src/products.ts:414-465 | after every serial run of create, archive, restore and reconcile the counter is absent or the number of live products |
| Products.ClampNeverFires | packages/entitlements/src/store.ts:428-440 | while a live product exists the counter is at least one, so the clamp at zero never fires |
| Products.AdmitsExactly | packages/entitlements/src/store.ts:403-425 | from usage u at most L, N creations against the limit L succeed exactly min(N, L - u) times |
| Products.CreatesExactly | packages/commerce/src/products.ts:169-215 | a creation succeeds if and only if it is permitted and there is room, and adds one live product |
| Products.ChangesStatusExactly | packages/commerce/src/products.ts:414-465 | a status change succeeds if and only if the product exists, publishing is permitted and a restored one has room; it changes that product and the counter alone |
| Products.LiveProductsCounts | packages/entitlements/src/store.ts:474-479 | the gauge counts the products that are not archived |
| Products.ReconcilesExactly | packages/entitlements/src/store.ts:504-519 | reconciling sets the counter to the real count and touches no product |
| Products.ProductTable.CreateProduct | packages/commerce/src/products.ts:169-215 | creation counts the product and adds it, or changes nothing |
| Products.ProductTable.SetStatus | packages/commerce/src/products.ts:414-465 | status changes count restored and release archived products as specified |
| Combinations.CartesianMember | packages/commerce/src/variants.ts:160-165 | the product contains exactly the choices of one value per list |
| Combinations.CartesianDistinct | packages/commerce/src/variants.ts:160-165 | the product lists each choice once, as many as the list sizes multiply to |
| Combinations.SignatureInjective | packages/commerce/src/variants.ts:84-86 | slash-free keys, equally many, are determined by their signature |
| VariantPlan.ValidateValues | packages/commerce/src/variants.ts:120-149 | accepts an option's values if and only if they are sound; a refusal names a fault that is there |
| VariantPlan.Validate | packages/commerce/src/variants.ts:93-158 | accepts an edit if and only if it meets all the option rules; a refusal names a fault that is there |
| VariantPlan.AcceptableExactly | packages/commerce/src/variants.ts:93-158 | an edit meets the rules if and only if none of the faults a refusal can name is there |
| VariantPlan.FindCombination | packages/commerce/src/variants.ts:208-228 | finds a variant's combination under the new options, or that a value is lost |
| VariantPlan.PlanOptionChange | packages/commerce/src/variants.ts:176-243 | the planner's loops compute the specified plan, and refuse exactly the unacceptable edits |
| VariantPlan.KeepAndRemovePartition | packages/commerce/src/variants.ts:204-236 | every variant is either kept or removed, none twice |
| VariantPlan.KeptExactly | packages/commerce/src/variants.ts:204-236 | every variant: it is kept, under its own combination, if and only if all its values still exist and no earlier variant has that combination |
| VariantPlan.KeptAndCreatedAreTheProduct | packages/commerce/src/variants.ts:204-242 | kept and created combinations are together exactly the Cartesian product, each once |
| VariantApplication.PlansAreSound | packages/commerce/src/variants.ts:176-243 | every plan for an acceptable edit meets what applying it relies on: distinct keys, distinct kept and created combinations, each a choice |
| VariantPlan.ConfirmationIsExact | packages/commerce/src/product-variants.ts:225-235 | an edit that removes variants goes through if and only if exactly those were confirmed |
| VariantRows.PositionsAreLexicographic | packages/commerce/src/product-variants.ts:353-358 | base-64 positions order variants by option values, first option first, and tell all apart |
| VariantRows.VariantTable.Put | packages/database/prisma/migrations/20260928000000_catalogue_inventory/migration.sql:318 | a row is written only if all signatures stay different, and the new state joins the recorded history |
| VariantRows.VariantTable.RemoveVariants | packages/commerce/src/product-variants.ts:283-298 | variants with stock history are soft-deleted under their own tag, others erased; every recorded state keeps signatures different |
| VariantRows.VariantTable.ParkVariants | packages/commerce/src/product-variants.ts:344-352 | kept rows get temporary signatures; every recorded state keeps signatures different |
| VariantRows.VariantTable.RebuildOptions | packages/commerce/src/product-variants.ts:300-336 | every planned key resolves to its value's row, and every value row shows the text planned for it |
| VariantRows.VariantTable.SettleVariants | packages/commerce/src/product-variants.ts:360-371 | kept rows take signature, title, position and links one by one; every recorded state keeps signatures different |
| VariantRows.VariantTable.CreateVariants | packages/commerce/src/product-variants.ts:373-411 | new combinations become rows like the template; every recorded state keeps signatures different |
| VariantApplication.ApplyPlan | packages/commerce/src/product-variants.ts:272-413 | the whole application yields the specified rows; every state the table went through meanwhile has distinct signatures, and each follows from the one before by one row write or the cascade; each live row is then titled, signed, placed and linked by its own values |
| VariantApplication.LiveRowsAreTheProduct | packages/commerce/src/product-variants.ts:272-413 | afterwards the live rows are exactly the product of the option values: each a choice, titled with the texts of its values in option order, each choice one row, no two alike |
| VariantApplication.AppliedIsAProduct | packages/database/prisma/migrations/20260928000000_catalogue_inventory/migration.sql:672-674 | and the product is ready for the next edit: exactly the kept and created rows are live, and a row is deleted if and only if its signature is its deletion tag |
| VariantApplication.KeptVariantsKeepTheirData | packages/commerce/src/product-variants.ts:360-371 | surviving variants keep their SKU, terms and history |
| VariantOutcomes.PlannedAsDesired | packages/commerce/src/variants.ts:186-203 | the plan has the desired options in order, with their names and texts, and existing values keep their ids |
| VariantOutcomes.CombinationMeans | packages/commerce/src/variants.ts:208-228 | a variant survives unless a value it held is gone; its combination takes the values held, and the first value of an option it held nothing of |
| VariantOutcomes.KeptVariantsKeepTheirValues | packages/commerce/src/product-variants.ts:336-371 | a surviving variant stays linked to the very values it held, and to the first value of a new option |
| VariantOutcomes.RemovedVariants | packages/commerce/src/product-variants.ts:281-298 | a removed variant is gone, or with stock history stays deleted, unlinked and tagged, otherwise as it was |
| VariantOutcomes.DeletedRowsStay | packages/commerce/src/product-variants.ts:300-304 | rows deleted by earlier edits keep everything but their links |
| VariantOutcomes.CreatedVariants | packages/commerce/src/product-variants.ts:381-411 | a created variant is live, without SKU or history, has the template's terms and is linked to its combination's values |
| VariantOutcomes.PositionsSpelledOut | packages/commerce/src/product-variants.ts:353-358 | a position is the places of the values in their options, one base-64 digit each, first option first |
| VariantOutcomes.TemplateIs | packages/commerce/src/product-variants.ts:374-380 | the template is the first loaded variant that stays, else the first loaded, else the store's defaults |
| StockLedger.Inventory.LockLevels | packages/commerce/src/inventory.ts:77-104 | missing level rows are created at zero and no other level changes |
| StockLedger.Inventory.UpdateLevel | packages/commerce/src/inventory.ts:117-132 | the conditional update changes the level exactly when the result is acceptable |
| StockLedger.Inventory.Adjust | packages/commerce/src/inventory.ts:185-218 | adjusting changes level and ledger as specified, or nothing |
| StockLedger.Inventory.SetLevel | packages/commerce/src/inventory.ts:280-345 | setting a level records the difference, or nothing when it is already there |
| StockLedger.Inventory.Transfer | packages/commerce/src/inventory.ts:352-425 | moving stock changes both levels and records both movements, or nothing |
| StockLedger.LedgerExplainsStock | packages/commerce/src/inventory.ts:134-164 | after any sequence each level is the sum of its movements, each movement states the sum up to itself, and every level stays within the limit |
| StockLedger.LowersBelowZeroOnlyByOverselling | packages/commerce/src/inventory.ts:117-132 | a level goes down to below zero only for an item that may be oversold, and never in a transfer |
| StockLedger.WithoutOversellingNeverNegative | packages/commerce/src/inventory.ts:117-132 | over whole runs an item that may not be oversold never has negative stock |
| StockLedger.OnlyActiveLocationsChange | packages/commerce/src/inventory.ts:172-183 | only tracked items at active locations change |
| StockLedger.TransferConserves | packages/commerce/src/inventory.ts:352-425 | a transfer leaves the item's total over any locations holding both ends unchanged, and had enough stock to move |
| StockChanges.AdjustsExactly | packages/commerce/src/inventory.ts:185-218 | an adjustment by a delta moves the level by that delta and records it; accepted if and only if item and location are usable, the result is not below zero unless stock is added or overselling allowed, and it is within the limit |
| StockChanges.SetsExactly | packages/commerce/src/inventory.ts:294-330 | setting a level makes it the quantity and records the difference, INITIAL without history, nothing when already there; accepted if and only if usable and not below zero without overselling |
| StockChanges.MovesExactly | packages/commerce/src/inventory.ts:352-425 | a transfer takes the quantity from one level, adds it to the other and records both; accepted if and only if both ends are usable, that much is there and the other end does not overflow |
| StockChanges.UnusableIsRefused | packages/commerce/src/inventory.ts:172-183 | a missing, untracked or inactive target is refused as such before anything else is looked at |
| LocationLocks.StepSound | packages/commerce/src/inventory.ts:55-103 | every lock, check, write and switch step keeps the lock invariant |
| LocationLocks.RunSound | packages/commerce/src/locations.ts:259-311 | the lock invariant holds after every interleaving |
| LocationLocks.OneLocationStaysActive | packages/commerce/src/locations.ts:272-283 | a store that has an active location keeps one in every interleaving |
| LocationLocks.LockedLevelsStay | packages/commerce/src/inventory.ts:92-98 | a level a writer has locked keeps its value until that writer commits, whatever others do |
| LocationLocks.LockedLocationsStay | packages/commerce/src/inventory.ts:53-70 | a location a writer has share-locked keeps its state until that writer is done |
| LocationLocks.WritesExactly | packages/commerce/src/inventory.ts:106-132 | a stock write gives each of its locations its own value and touches nothing else |
| LocationLocks.SwitchGoesOnExactly | packages/commerce/src/locations.ts:272-296 | a switch goes on if and only if there is something to switch and, to deactivate, another active location and no stock at the target |
| LocationLocks.SwitchesExactly | packages/commerce/src/locations.ts:297 | a switch that commits gives its target the state asked for and touches nothing else |
| LocationSafety.WritesAndDeactivationsAreSafe | packages/commerce/src/locations.ts:259-311 | stock writes and deactivations alone: whatever the deactivations aim at, no interleaving leaves stock at an inactive location |
| LocationSafety.WellAimedRunsAreSafe | packages/commerce/src/locations.ts:272-299 | with creations and activations too, if every deactivation starts while its target is active or fewer than two locations are |
| LocationSafety.RunKeepsAim | packages/commerce/src/locations.ts:272-299 | in such runs every deactivation that commits found its target among the rows it locked |
| LocationSafety.GuardedRunsAreSafe | packages/commerce/src/inventory.ts:55-70 | and a run in which each does leaves no stock at an inactive location |
| LocationSafety.UnguardedStrandsStock | packages/commerce/src/locations.ts:272-299 | one that did not, with its target active, can always be overtaken by a stock write before it commits, whoever else is at work |
| LocationSafety.RaceStrandsStock | packages/commerce/src/locations.ts:272-299 | a deactivation that starts while its target is not active, with any two or more others active, can strand stock |
| LocationSafety.StrandsExactly | packages/commerce/src/locations.ts:259-311 | after any well-aimed run, starting a deactivation can lead to stranded stock if and only if its target is not active then and at least two locations are |
| LocationDeadlocks.NoDeadlock | packages/commerce/src/inventory.ts:364-374 | if each switch starts with its target active, or above all active locations, or too few to go ahead, no interleaving reaches a cycle of waiting transactions |
| LocationDeadlocks.WritesAndDeactivationsNeverDeadlock | packages/commerce/src/inventory.ts:72-76 | stock writes, transfers and deactivations alone never do |
| LocationDeadlocks.DisorderlySwitchCanDeadlock | packages/commerce/src/locations.ts:272-299 | any other switch can close a cycle with a transfer, whatever else is active |
| LocationDeadlocks.DeadlocksExactly | packages/commerce/src/locations.ts:259-311 | a switch can close a cycle of waiting transactions if and only if, when it starts, its target is not active, some active location has a larger id and, to deactivate, at least two are active |
| Rounding.DivisionRounds | packages/commerce/src/money.ts:265-295 | division fails only by zero and otherwise gives what its rounding mode promises of the exact quotient |
| Rounding.RoundingUnique | packages/commerce/src/money.ts:265-295 | the promise of each mode names exactly the integer that is returned |
| Rounding.DivisionMirrors | packages/commerce/src/money.ts:265-295 | negating the numerator negates the result, floor and ceiling exchanged |
| Allocation.Allocate | packages/commerce/src/money.ts:311-330 | fails exactly on no, negative or all-zero weights, and otherwise splits by the largest-remainder rule |
| Allocation.PartsAddUp | packages/commerce/src/money.ts:311-330 | the parts always add up to the amount |
| Allocation.AllocationFair | packages/commerce/src/money.ts:311-330 | each part is within one unit of its exact share, a zero weight gets zero, a larger weight never a smaller part in magnitude, no part the wrong sign |
| Allocation.ExactShareGetsNoMore | packages/commerce/src/money.ts:311-330 | a weight whose share is exact gets no leftover unit, because there are fewer of them than remainders |
| Allocation.AllocationMirrors | packages/commerce/src/money.ts:311-330 | the split of a negative amount is the negated split of the positive one |
| Allocation.AllocationUnique | packages/commerce/src/money.ts:311-330 | the rule determines the parts, so no sort algorithm can change them |
| Decimals.ParseUndoesPrint | packages/commerce/src/money.ts:350-409 | parsing undoes printing for every amount and every number of decimals; without negatives allowed, negative amounts are refused |
| Decimals.PrintsCanonically | packages/commerce/src/money.ts:350-360 | amounts print with a minus sign only when negative, whole digits without leading zeros and exactly the currency's decimals, worth exactly the amount |
| Decimals.SeparatorsDoNotMatter | packages/commerce/src/money.ts:384-409 | a space or comma inserted anywhere in any input changes nothing, errors included |
| Decimals.ParsesExactly | packages/commerce/src/money.ts:384-409 | every well-formed number gives its exact value or the first error that applies, never a rounded value |
| Decimals.MalformedExactly | packages/commerce/src/money.ts:384-409 | an input is malformed if and only if, separators aside, it is no well-formed number |
| Decimals.MatchExactly | packages/commerce/src/money.ts:390-391 | the two patterns accept exactly the well-formed numbers, each with one reading |
| Base32.Encode | packages/auth/src/totp.ts:14-28 | the letters spell the bytes' bits filled up with zeros (RFC 4648, section 6, unpadded), although the word is never masked |
| Base32.Decode | packages/auth/src/totp.ts:30-46 | succeeds exactly on letters of the alphabet and gives the bytes their bits spell |
| Base32.EncodingUnique | packages/auth/src/totp.ts:14-28 | a byte sequence has one encoding |
| Base32.RoundTrip | packages/auth/src/totp.ts:14-46 | decoding gives back what was encoded, for every byte sequence |
| Base32.PresentationDoesNotMatter | packages/auth/src/totp.ts:30-31 | grouped, padded or lower-cased, an encoding still decodes to the bytes |
| Base32.IgnoredDoNotMatter | packages/auth/src/totp.ts:30-31 | a space, hyphen or padding sign inserted anywhere changes nothing |
| Base32.CaseDoesNotMatter | packages/auth/src/totp.ts:30-31 | a small letter anywhere stands for its capital, and a character whose upper case is several letters for those |
| Base32.ShiftPending | packages/auth/src/totp.ts:18-20 | shifting a 32-bit word keeps the pending low bits right whatever is above them |
| Text.SlugIsJoinedWords | packages/database/scripts/product-categories.ts:33 | the pattern accepts exactly lower-case words joined by single hyphens |
| CategoryPaths.SplitUndoesJoin | packages/commerce/src/taxonomy.ts:34 | splitting a path gives back the joined names when none holds an angle bracket |
| Categories.RowsShowForest | packages/database/scripts/product-categories.ts:49-68 | fitting rows for all categories mean known parents, no cycle and depth at most ten |
| Categories.PathSplitsIntoLineage | packages/database/scripts/product-categories.ts:56-66 | a row's path splits into the names from the root to the row, one per level |
| Categories.TaxonomyRow | packages/database/scripts/product-categories.ts:49-78 | each row has its parent's level plus one, its parent's names followed by its own, and its place among its siblings |
| Categories.CodesExactly | packages/database/scripts/product-categories.ts:40 | a code fits if and only if it is hyphenated lower-case words of at most 64 characters |
| Categories.NamesExactly | packages/database/scripts/product-categories.ts:42-45 | a name fits if and only if it has no white space at either end, no angle bracket and at most 120 UTF-16 units |
| Categories.SiblingsNumbered | packages/database/scripts/product-categories.ts:72-78 | each position below the count is taken by exactly one sibling, in file order |
| Categories.JustifiedMeansUnbuildable | packages/database/scripts/product-categories.ts:39-61 | every error names a real fault of the source |
| CategoryBuilder.TreeBuilder.Load | packages/database/scripts/product-categories.ts:38-47 | files every category by code, or names a bad code, bad name or duplicate |
| CategoryBuilder.TreeBuilder.ResolveRow | packages/database/scripts/product-categories.ts:50-70 | terminates on every input, adds fitting rows only, and each error is a cycle, an unknown parent or excess depth that is there |
| CategoryBuilder.TreeBuilder.Number | packages/database/scripts/product-categories.ts:71-78 | lists the rows in file order with siblings counted from zero |
| CategoryBuilder.BuildCategoryRows | packages/database/scripts/product-categories.ts:37-79 | succeeds if and only if the source is well formed, unique, with known parents, acyclic and at most ten deep, and gives its tree |
| Handles.HyphenatedJoinsWords | packages/commerce/src/handles.ts:49-50 | the hyphenated text is its maximal alphanumeric runs joined by single hyphens |
| Handles.SlugifyFits | packages/commerce/src/handles.ts:38-54 | empty exactly without words; the joined words if at most 100 long, else a well-formed prefix of them, cut at the last word boundary that fits when one lies past 40 |
| Handles.BaseAcceptable | packages/commerce/src/handles.ts:83-84 | the base handle is acceptable if the fallback is |
| Handles.CandidatesDiffer | packages/commerce/src/handles.ts:86-90 | no two candidates are the same |
| Handles.CandidateAcceptable | packages/commerce/src/handles.ts:59-65 | every candidate of an acceptable base is free of handle problems |
| Handles.CandidateIsLongestFitting | packages/commerce/src/handles.ts:86-90 | candidate n is the longest beginning of the base that leaves room for the suffix and does not end in a hyphen, and then the suffix |
| Handles.ProblemsExactly | packages/commerce/src/handles.ts:59-65 | a handle has a problem exactly when empty, over 100 long, not hyphenated words or reserved, in that order |
| Handles.BaseOfTitle | packages/commerce/src/handles.ts:83-84 | the base is the joined words while they fit, numbered if reserved, and the fallback for a title without words |
| Handles.UniqueHandle | packages/commerce/src/handles.ts:78-92 | the search ends and returns the base if it is free or else the first free candidate |
| Handles.FirstFreeAcceptable | packages/commerce/src/handles.ts:78-92 | what it returns is not taken and has no handle problem |
| Handles.FirstFreeUnique | packages/commerce/src/handles.ts:78-92 | the result is determined by base and taken handles |
| Handles.ResolveHandle | packages/commerce/src/products.ts:76-101 | an explicit handle is taken as it is, or refused exactly when invalid or in use; a generated one avoids what the prefix query returned |
| Handles.FittingHandleIsFree | packages/commerce/src/products.ts:53-101 | so the prefix query sees every clash while base and the suffixes that so many handles can need fit in 100 characters |
| Handles.GeneratedHandleFree | packages/commerce/src/products.ts:53-101 | a generated handle is sure not to be in use, whatever handles the query cannot see, if and only if the base is free or every candidate up to a free one begins with the prefix that was looked up |
| Handles.ShortenedHandleClashes | packages/commerce/src/products.ts:94-101 | for every 99- or 100-letter title already used the condition fails, and the generated handle can be one in use |

## Left out

- Handles.UniqueHandle: asks that the number of taken handles, plus two, be written in at most 98 digits, so that a suffix leaves room for a stem; the code assumes as much.
- Handles.ResolveHandle: asks the same of the handles in use when it has to generate one.
- Scheduler.Worker.RunDue: heartbeats and other workers' steps between a claim and its finish are steps of the protocol in `SchedulerRuns`, not of this loop.
- MediaService.MediaLibrary.CompleteMediaUpload: takes it from image processing that no two renditions have the same width (packages/media/src/process.ts:110), and describes a completion that meets no other actor; what interleavings keep is proved of the protocol in `MediaRuns`.
- StockLedger.Inventory.Transfer: asks for a positive quantity and two different locations, which the request schema (packages/validation/src/catalogue.ts:348) has already checked.
- Stock at a location is the available quantity; reservations made by checkout are not part of this model.
- Transactions other than those of the lock protocol are atomic and serial, except that billing changes are also written to later tables than they were decided on; the lazy initialisation of a usage counter racing a release in another transaction is therefore not covered.
- SQL text, row-level security, permissions, audit rows, notes, reasons and notifications: no bearing on the properties.
- Signatures, HMAC, hashing and code generation: a verified event, an encoded secret and its bytes are inputs.
- Plans are named by key, rows by index: rows of subscriptions, assets and products are never deleted; the retention of job runs is not modelled.
- The over-limit warning and the free-product confirmation are boolean inputs of the transactions they may refuse.
- Job timeouts, health reports and the abandoned set of the scheduler process; in the lease protocol a worker may claim any due job, as with locked rows skipped.
- A schedule's slots use exact integer division; the code divides doubles, exact for every date JavaScript can represent.
- The cap on pending uploads and the quota hint when an upload starts: neither is relied on when it completes.
- The purge worker's selection of assets to retry; objects written by a process that died are outside every row and stay in storage.
- Image processing is an input: the sizes it yields, one rendition per width (packages/media/src/keys.ts:77), or that it failed.
- Unicode folding of titles and option names: `Slugify` and the planner start from the folded text.
- Currency codes stand for their number of decimals; the table itself and the unknown-currency error are not modelled. Locale formatting is a library call.
- `removedOptionIds` and `removedValueIds` of the plan, and bulk edits of variants: easy members.
- The search for a free default location code, low-stock queries, listings, entitlement override forms and diagnostics: mostly SQL.
- Writing the taxonomy rows to the database.
