# Verified model of the relay server's stateful core

This project models the parts of the token-toxication server whose guarantees span several functions, and
proves them for all inputs, all interleavings and all runs. `dafny verify dfyconfig.toml` checks everything.

| part | files |
|---|---|
| Per-account slot queue with cancellation | `AccountSlots`, `AccountConcurrency`, `SlotProtocol`, `SlotWaiting`, `SlotBound` |
| Quota capacity observer and its transaction | `QuotaCapacity`, `QuotaTables`, `QuotaCapacityDb`, `QuotaLedger` |
| Managed catalog reconciliation | `CatalogTables`, `ManagedCatalog`, `CatalogReconcile` |
| Provider limits and availability | `LimitTables`, `ProviderLimits` |
| Streaming rewriter | `EventStream`, `RetryAdvice` |
| Retry and failover controller | `RelayRetry`, `RetryController`, `RetryBounds` |
| Route choice and overflow | `Routing`, `RouteSelection` |
| Device login | `DeviceFlows`, `DeviceLogin` |

Each part has the same shape. Functions on values say what one lock section, one transaction or one turn of a
loop does. Classes and methods with the source's own fields and loops are proved to do exactly that. Lemmas
about the functions, and about transition systems built from them, state the guarantees. In the transition
systems one lock section is one step; network calls, random numbers and the clock are chosen by the environment.

## How the source is represented

- Instants and durations are integers in nanoseconds and percentages are exact reals. Comparing RFC 3339 texts in
  SQL is comparing instants. Milliseconds in the sample table are instants rounded down.
- The random generator, the session hash, JSON, UTF-8 decoding and the upstream's answers are arbitrary functions
  or arbitrary choices. Fresh UUIDs are ids from a counter, or ids not used before.
- SQLite tables are maps or sequences, a cascade is a deletion, and a transaction is one step. One source kind is
  fixed, and reconcile runs start where every managed route has a source row and a managed entry.
- Log rows of an account complete after every sample its segments have accepted, and each sample starts no
  later than it finishes (`QuotaLedger.Enabled`).
- `mark_provider_result` is called with `healthy` or `blocked`; `OtherResultsNeedLimits` says what another status does.
- The clock never goes back.

## Where the obvious claim is false

- Usage inside a segment is not monotone: `QuotaCapacity.UsageFallsExactly` and `UsageFallsBelowBaselineExactly` give
  the exact conditions, `UsageCanFallBelowBaseline` a run.
- Reconciling the same list twice can replace routes when a model is listed twice:
  `CatalogReconcile.SecondRunSameRoutes` gives the exact condition, `DuplicateListingFlickers` an instance.
- `maximum_delay` is the least delay, not the greatest (`RelayRetry.MaximumDelayIsTheLeast`), so a retry that passes
  the guard can still find no time for its sleep: `RetryBounds.GuardLeavesTime` gives the exact condition,
  `GuardWithoutTime` an instance.
- `select_account` can give another account when the routes change between its two reads:
  `RouteSelection.AskedAccountExactly` gives the exact condition, `RetryCanLandElsewhere` an instance.
- An excluded account can be retried, after a streamed limit or after such a change:
  `RetryBounds.RetryAccountExcluded` gives the exact condition, `ExcludedAccountIsRetried` a streamed run and
  `PlainRequestStrays` a plain one.
- An expired login can still succeed: `DeviceLogin.ExpiredLeavesByItsPoll` says exactly how, `ExpiredCanSucceed` is a run.
- A login can start one poll more than its lifetime has intervals: `DeviceLogin.PollBoundsAreMet`.
- The account status text is not always what a refresh would compute: `ProviderLimits.RecordedStatusAgrees` and
  `StatusRulesAgree` give the exact conditions, `RecordedStatusCanDisagree` and `SuccessStatusCanDisagree` runs.
- An overload event with mixed line ends can be read as two events once it is advised:
  `RetryAdvice.ClientReadsEveryEvent` gives the exact condition, `MixedStreamIsMisread` every such stream of two
  events and `MisreadStream` one with its JSON.

## Model

| member | source | states |
|---|---|---|
| SlotProtocol.PermitConservation | crates/token-toxication-server/src/account_concurrency.rs:65-181 | in every reachable state an account's `running` is the number of its live permits, granted waiters that have not run yet and slots on their way back; an account with any claim on it, a queued waiter included, is never forgotten |
| SlotProtocol.DefensiveBranchesDead | crates/token-toxication-server/src/account_concurrency.rs:65-76 | in every reachable state a release finds its account with a positive count (no saturation), every queued receiver is open (no failed `send`), a cancelled waiter is queued or granted, and an await ends only with a grant |
| SlotProtocol.FifoAndWorkConserving | crates/token-toxication-server/src/account_concurrency.rs:64-76 | per account the grants of any run carry strictly increasing ids, every queued id is later than all of them, and a nonempty queue means no capacity |
| SlotWaiting.BoundedWaiting | crates/token-toxication-server/src/account_concurrency.rs:102-181 | with the limit left alone, a waiter at index k that does not cancel is granted by the time k + 1 + (running - limit) slots of its account were released, whatever else interleaves |
| SlotBound.LastWaits | crates/token-toxication-server/src/account_concurrency.rs:102-119 | for every n there is a reachable state in which the last of n waiters is, by the bound, n releases from its grant |
| SlotBound.BoundIsSharp | crates/token-toxication-server/src/account_concurrency.rs:175-181 | the bound is met exactly for every n: a run from that state with n - 1 releases, no cancellation and no limit change leaves the waiter ungranted, and one release more grants it |
| SlotWaiting.RankNeverGrows | crates/token-toxication-server/src/account_concurrency.rs:64-76 | one section of any kind but a limit change or the waiter's own cancellation grants the waiter or leaves it queued, no further from its grant, and one nearer for each release |
| SlotProtocol.NoBarging | crates/token-toxication-server/src/account_concurrency.rs:86-98 | in any state nobody takes a slot past a queued waiter, and the limit a request carries is ignored once the account has a slot |
| SlotProtocol.LimitChangesOnlyBySetLimit | crates/token-toxication-server/src/account_concurrency.rs:135-143 | an existing slot's limit is changed by `set_limit` and by no other section |
| SlotProtocol.RunningRisesWithinLimit | crates/token-toxication-server/src/account_concurrency.rs:60-76 | a section that raises `running` leaves it within the limit then in force |
| SlotProtocol.SectionEffect | crates/token-toxication-server/src/account_concurrency.rs:86-181 | a section rewrites exactly its target's slot, to a value given by arithmetic instead of by the dispatch loop |
| SlotProtocol.ResumeMeansGranted | crates/token-toxication-server/src/account_concurrency.rs:127-131 | a waiter resumes only with a grant in its channel |
| SlotProtocol.CancelDecides | crates/token-toxication-server/src/account_concurrency.rs:197-219 | the first section of a cancellation finds the waiter in its queue or granted; the two defensive exits are not taken |
| SlotProtocol.IdleHasNoClaims | crates/token-toxication-server/src/account_concurrency.rs:146-155 | an idle account has no permit, no waiter and no slot on its way back, so `forget` drops nothing in use |
| SlotProtocol.ForgetExactly | crates/token-toxication-server/src/account_concurrency.rs:146-155 | in every state that keeps the invariants, forgetting an account removes it exactly when nobody holds, awaits or is giving back a slot of it, and changes nothing else |
| SlotProtocol.StepKeeps | crates/token-toxication-server/src/account_concurrency.rs:86-240 | every section keeps conservation, queue and channel agreement, grant order and work conservation, with the two sections of a cancellation kept apart |
| SlotProtocol.ReachableInv | crates/token-toxication-server/src/account_concurrency.rs:22-240 | those invariants hold in every state reachable by any interleaving over any number of accounts |
| AccountSlots.DispatchServesPrefix | crates/token-toxication-server/src/account_concurrency.rs:65-76 | with open receivers the loop grants exactly the first `Serves` waiters in order and stops with an empty queue or no capacity |
| AccountSlots.DispatchGrantsOpenPrefix | crates/token-toxication-server/src/account_concurrency.rs:65-76 | with closed receivers too, it consumes a prefix of the queue, grants exactly its open ids in order, one running slot each, and never passes the limit |
| AccountConcurrency.AccountSlot.DispatchQueue | crates/token-toxication-server/src/account_concurrency.rs:65-76 | the loop over the slot's fields computes the dispatch of the old slot and delivers exactly those grants |
| AccountConcurrency.AccountConcurrency.TryAcquireSlot | crates/token-toxication-server/src/account_concurrency.rs:86-98 | the new shared state and the answer are those of the section's specification |
| AccountConcurrency.AccountConcurrency.EnterQueue | crates/token-toxication-server/src/account_concurrency.rs:102-119 | the lock section of `acquire`: immediate slot or a fresh id at the end of the queue, as specified |
| AccountConcurrency.AccountConcurrency.ChangeLimit | crates/token-toxication-server/src/account_concurrency.rs:135-143 | `set_limit`: the limit is replaced, then the queue is dispatched, as specified |
| AccountConcurrency.AccountConcurrency.ForgetAccount | crates/token-toxication-server/src/account_concurrency.rs:146-155 | an account goes exactly when it has no running slot and no waiter, and every other stays the same |
| AccountConcurrency.AccountConcurrency.ReleaseSlot | crates/token-toxication-server/src/account_concurrency.rs:175-181 | `release`: one slot back, then the queue is dispatched, as specified |
| AccountConcurrency.AccountConcurrency.DecideCancel | crates/token-toxication-server/src/account_concurrency.rs:197-214 | the first section of `QueuedWaiter::drop`: leave the queue, or see whether the grant came |
| AccountConcurrency.AccountConcurrency.Load | crates/token-toxication-server/src/account_concurrency.rs:157-166 | `load` reports the running count and queue length, zero for an unknown account |
| QuotaCapacity.Segment.Observe | crates/token-toxication-server/src/quota_capacity.rs:58-123 | the in-place observation leaves the live segment and returns the completed one of the specification, over all ten exits |
| QuotaCapacity.Segment.Restart | crates/token-toxication-server/src/quota_capacity.rs:125-128 | the segment is replaced by a fresh one at the sample and the old value is returned |
| QuotaCapacity.ObservedKeepsSound | crates/token-toxication-server/src/quota_capacity.rs:58-123 | an observation keeps: a candidate a point or more below and after the frozen latest sample; ordered windows; a settled latest sample implies a settled baseline |
| QuotaCapacity.BoundariesExactly | crates/token-toxication-server/src/quota_capacity.rs:62-92 | for a later sample each of the five boundary events ends the segment exactly when, in their order, its condition on observer, gap, plan and length, or reset times holds |
| QuotaCapacity.ObservationExactly | crates/token-toxication-server/src/quota_capacity.rs:58-123 | within the same conditions, exactly when a sample is ignored, becomes the candidate, ends the segment by recovery, correction, metering gap or settled baseline, or is accepted, and what that leaves |
| QuotaLedger.SegmentsAreOfOneKind | crates/token-toxication-server/src/quota_capacity.rs:63-92 | over the whole run every segment, live or completed, has one observer, plan and window length from its baseline to its latest sample, so no estimate spans a change of plan |
| QuotaCapacity.CompletedSegment | crates/token-toxication-server/src/quota_capacity.rs:90-128 | a completed segment keeps its window except that a metering gap moves its end; its successor starts, empty, at the observation that completed it |
| QuotaCapacity.AcceptedDropIsSmall | crates/token-toxication-server/src/quota_capacity.rs:94-121 | an accepted sample that starts no segment keeps the baseline and lowers usage by less than one point |
| QuotaCapacity.UsageFallsExactly | crates/token-toxication-server/src/quota_capacity.rs:62-121 | a sample of lower usage can be accepted exactly while a candidate is pending that can settle before the sampling gap |
| QuotaCapacity.UsageFallsBelowBaselineExactly | crates/token-toxication-server/src/quota_capacity.rs:62-121 | one below the baseline can be accepted exactly when besides that the latest sample lies less than a point above the baseline |
| QuotaCapacity.UsageCanFallBelowBaseline | crates/token-toxication-server/src/quota_capacity.rs:58-123 | a run of two samples on a fresh segment after which its usage is below its baseline |
| QuotaCapacity.PendingHasOrigin | crates/token-toxication-server/src/quota_capacity.rs:94-109 | over any run, a pending candidate was one earlier sample, a point or more below and after the latest, with latest and baseline frozen since |
| QuotaCapacity.RecoveryIsConfirmed | crates/token-toxication-server/src/quota_capacity.rs:94-109 | a quota recovery is announced only by a second sample that starts 30 seconds or more after that candidate finished and is still a point below; the new baseline is the confirming sample |
| QuotaCapacity.ExtrapolateBounds | crates/token-toxication-server/src/quota_capacity.rs:206-210 | for 10 to 100 points the extrapolation lies between the tokens and ten times the tokens |
| QuotaCapacity.ReportExactly | crates/token-toxication-server/src/quota_capacity.rs:178-230 | for each status exactly when a report has it; an estimate exactly when none of the obstacles holds, and then it is the tokens over the points consumed, extended to a hundred points |
| QuotaCapacity.EstimateBounds | crates/token-toxication-server/src/quota_capacity.rs:190-210 | a report has an estimate only for a settled, complete codex segment with no candidate and 10 to 100 points, and then each class lies between one and ten times its tokens |
| QuotaTables.TokensAreCappedSums | crates/token-toxication-server/src/quota_capacity_db.rs:232-240 | each class of token is the true sum over the rows, capped at the 64-bit maximum |
| QuotaTables.RowsAreCountedOnce | crates/token-toxication-server/src/quota_capacity_db.rs:235-256 | every row is counted once, and once in its own workload |
| QuotaTables.CleanMeansNoBadRow | crates/token-toxication-server/src/quota_capacity_db.rs:241-251 | the completeness and boundary results are clean exactly when no metered row is bad |
| QuotaTables.MeteredAsLogged | crates/token-toxication-server/src/quota_capacity_db.rs:213-231 | each row of a codex segment's window is metered as often as it is logged, and no other row is |
| QuotaTables.SummaryMeans | crates/token-toxication-server/src/quota_capacity_db.rs:202-276 | the report counts those rows, the complete ones and each workload's, and its tokens are their capped sums |
| QuotaTables.RecordedSamples | crates/token-toxication-server/src/quota_capacity_db.rs:55-65 | a response changes nothing exactly when a sample of its account finished in or after the millisecond it began; otherwise its row is added and its account's rows finished over 90 days before it go |
| QuotaTables.ResponseIsRead | crates/token-toxication-server/src/quota_capacity_db.rs:66-126 | each window of a limit listed once is read field by field into a sample that opens its segment or is observed by it; settled exactly when the account is idle and logged nothing from 30 seconds before; a window without a number from 0 to 100 is passed over |
| QuotaTables.WindowIsRead | crates/token-toxication-server/src/quota_capacity_db.rs:82-126 | one window touches its own segment only, and archives exactly the segment that its sample completes |
| QuotaTables.RescanMeaning | crates/token-toxication-server/src/quota_capacity_db.rs:213-251 | the rescan of a codex segment is clean exactly when no row in (baseline.finished, latest.started] is bad |
| QuotaCapacityDb.CapacityDb.HasIncompleteMetering | crates/token-toxication-server/src/quota_capacity_db.rs:168-200 | the scan that stops at the first bad row finds one exactly when one completed since the latest accepted sample |
| QuotaCapacityDb.CapacityDb.ObserveWindow | crates/token-toxication-server/src/quota_capacity_db.rs:82-126 | one window of one limit: metering flag, observation, history row and state row, as specified |
| QuotaCapacityDb.CapacityDb.RecordCapacitySample | crates/token-toxication-server/src/quota_capacity_db.rs:48-137 | the transaction, guard and deletions included, leaves the tables of the specification |
| QuotaCapacityDb.CapacityDb.Summarize | crates/token-toxication-server/src/quota_capacity_db.rs:202-276 | the accumulating loop produces the report of the specification |
| QuotaLedger.IncrementalAgreesWithRescan | crates/token-toxication-server/src/quota_capacity_db.rs:105-200 | in every reachable state a live codex segment whose flag is down has a clean rescan, and with no candidate pending flag and rescan agree both ways |
| QuotaLedger.ScanReachesUntil | crates/token-toxication-server/src/quota_capacity_db.rs:168-200 | the incremental scan sets the flag exactly when some row between the baseline and `until` is bad |
| QuotaLedger.SettledSampleNeverIncomplete | crates/token-toxication-server/src/quota_capacity_db.rs:105-126 | right after a settled response is recorded no window it read is reported as incomplete |
| QuotaLedger.LateResponsesChangeNothing | crates/token-toxication-server/src/quota_capacity_db.rs:58-65 | a response that began before a live segment of its account last finished changes nothing; a recorded one finds them all finished |
| QuotaLedger.NoDoubleCounting | crates/token-toxication-server/src/quota_capacity.rs:114-128 | of all segments ever completed for an account, limit and window, and the live one, at most one counts a given instant |
| QuotaLedger.GuardSurvivesPruning | crates/token-toxication-server/src/quota_capacity_db.rs:128-134 | after the 90-day deletion the ordering guard stands at this response's finish for its account and where it stood for the others |
| QuotaLedger.SampleInsertNeverCollides | crates/token-toxication-server/src/quota_capacity_db.rs:63-80 | the sample insert never meets an existing primary key |
| QuotaLedger.TransactionStarts | crates/token-toxication-server/src/quota_capacity_db.rs:58-65 | a response that passes the guard finds every segment of its account finished before it began |
| QuotaLedger.HistoryIsNewest | crates/token-toxication-server/src/quota_capacity_db.rs:135-135 | the stored history of an account is exactly the 40 newest segments it ever completed |
| QuotaLedger.ReachableEstimates | crates/token-toxication-server/src/quota_capacity.rs:190-210 | every estimate reachable by any run, live or historical, is a bounded extrapolation |
| CatalogReconcile.SourcesBecomeTheList | crates/token-toxication-server/src/db.rs:650-752 | after a reconcile the account's sources are exactly the listed ids, each with its last listed values |
| CatalogReconcile.RoutesBecomeTheList | crates/token-toxication-server/src/db.rs:680-752 | the account has an enabled managed route for a model exactly when its last listing is supported and its entry managed, and each of its managed routes carries the last listed upstream model and wire API and a clean bill of health, with the operator's role, weight and other values if it was there before, and else as a primary route of weight 100 |
| CatalogReconcile.EntriesBecomeTheList | crates/token-toxication-server/src/db.rs:639-649 | a listed entry that is managed or new is enabled and has the last listed name and family, and keeps its creation time |
| CatalogReconcile.EnabledEntriesHaveSources | crates/token-toxication-server/src/db.rs:753-761 | a managed entry is enabled only while some account offers it, and is enabled when listed |
| CatalogReconcile.CatalogIsolation | crates/token-toxication-server/src/db.rs:623-649 | manual entries are unchanged, managed and manual never swap, and an unlisted managed entry loses at most its enabled flag |
| CatalogReconcile.AccountIsolation | crates/token-toxication-server/src/db.rs:623-752 | manual routes, and every other account's routes and sources, are the same rows before and after |
| CatalogReconcile.ReconcileKeepsConsistent | crates/token-toxication-server/src/db.rs:627-763 | managed routes keep a managed entry and a source row |
| CatalogReconcile.SecondRunSameCatalog | crates/token-toxication-server/src/db.rs:638-761 | a second run of the same list leaves entries alone and sources up to the time seen |
| CatalogReconcile.SecondRunSameRoutes | crates/token-toxication-server/src/db.rs:683-725 | a second run leaves the routes alone exactly when no listed model that keeps a route was also listed as unsupported |
| CatalogReconcile.DuplicateListingFlickers | crates/token-toxication-server/src/db.rs:683-725 | a concrete list, one model twice, whose second run replaces a route |
| CatalogReconcile.ReconcileIsIdempotent | crates/token-toxication-server/src/db.rs:638-761 | for distinct ids a second run changes nothing but the time last seen |
| CatalogReconcile.CatalogConfluent | crates/token-toxication-server/src/db.rs:638-761 | two accounts reconciled in either order give the same sources and the same managed and enabled flags |
| CatalogReconcile.RoutesConfluent | crates/token-toxication-server/src/db.rs:683-752 | two accounts reconciled in either order keep the same routes of those that were there, with the same values, and insert equal ones, matched one to one by a pairing of their ids |
| ManagedCatalog.ManagedCatalog.UpsertModel | crates/token-toxication-server/src/db.rs:638-726 | one listed model, statement by statement over mutable tables, leaves the tables of the specification; of a supported model in the managed catalog the account then has a route, each carries the listed values and keeps the operator's, a new one is plain, and the others are the same |
| ManagedCatalog.ManagedCatalog.DropStale | crates/token-toxication-server/src/db.rs:728-752 | the loop over stale ids removes exactly the unlisted sources and their managed routes |
| ManagedCatalog.ManagedCatalog.Reconcile | crates/token-toxication-server/src/db.rs:627-763 | the whole transaction leaves the tables of the specification, of which the lemmas of `CatalogReconcile` speak |
| ProviderLimits.AvailabilityInvariant | crates/token-toxication-server/src/db.rs:1289-1491 | over every sequence of operations a non-blocked account is healthy exactly when it has no limit rows, and there is at most one limit per account, scope and key |
| ProviderLimits.WhoEndsABlock | crates/token-toxication-server/src/db.rs:1289-1455 | only a successful call, an edit or a deletion ends a block, and only a `blocked` result starts one; recording and clearing limits never do |
| ProviderLimits.OtherResultsNeedLimits | crates/token-toxication-server/src/db.rs:1337-1344 | any other reported status breaks the invariant exactly when the account has no limits |
| ProviderLimits.StatusRulesAgree | crates/token-toxication-server/src/db.rs:1305-1325 | the status rules of a successful call and of a refresh differ in exactly one situation |
| ProviderLimits.RecordedStatusAgrees | crates/token-toxication-server/src/db.rs:1394-1408 | recording a limit leaves the status a refresh would compute exactly when no other limit of the account outranks the new one |
| ProviderLimits.RecordedStatusCanDisagree | crates/token-toxication-server/src/db.rs:1394-1408 | a run of three operations after which the recorded status and the refreshed one differ |
| ProviderLimits.SuccessStatusCanDisagree | crates/token-toxication-server/src/db.rs:1305-1325 | a run of four operations after which the status of a success and the refreshed one differ |
| ProviderLimits.StepKeeps | crates/token-toxication-server/src/db.rs:1152-1491 | each of nine operations keeps availability, limit uniqueness and the foreign key |
| ProviderLimits.RescheduleTells | crates/token-toxication-server/src/db.rs:1478-1491 | rescheduling moves the next check of exactly the account's limits and changes nothing else |
| ProviderLimits.LimitStore.RefreshAvailability | crates/token-toxication-server/src/db.rs:1725-1762 | a blocked account stays as it is; any other gets the status that tells its limits (none, one of quota for the account, quota for models only, no quota) and loses its error exactly when it has none; no other account changes |
| ProviderLimits.LimitStore.MarkProviderResult | crates/token-toxication-server/src/db.rs:1289-1346 | a success removes exactly the due rate limits, ends a block and leaves the status that tells the limits left, for each of four exactly when; any other result is stored and removes nothing; the invariant is kept |
| ProviderLimits.LimitStore.RecordProviderLimit | crates/token-toxication-server/src/db.rs:1348-1410 | exactly one limit stands in the scope, the new one with its revision counted up, every other row is the same, its next check is at its reset or by default after two hours or a minute, the status is that of its kind and scope, a block withstands it, and an unknown account changes nothing; the invariant is kept |
| ProviderLimits.LimitStore.ClearProviderLimits | crates/token-toxication-server/src/db.rs:1412-1420 | exactly the account's limits are removed, it is then healthy without error unless blocked, and the invariant is kept |
| ProviderLimits.LimitStore.ClearProviderQuotaLimits | crates/token-toxication-server/src/db.rs:1422-1434 | exactly its quota limits are removed, it is then healthy or rate limited unless blocked, and the invariant is kept |
| ProviderLimits.LimitStore.ClearDueProviderLimits | crates/token-toxication-server/src/db.rs:1436-1455 | exactly its due limits for the account or the model are removed, what is left due is for other models, its status tells its limits unless blocked, and the invariant is kept |
| ProviderLimits.LimitStore.UpdateProviderAccount | crates/token-toxication-server/src/db.rs:1198-1235 | an edit touches no limit, ends a block, clears the error and leaves the status that tells the limits; the invariant is kept |
| EventStream.FindEventIsFirst | crates/token-toxication-server/src/routes.rs:2337-2347 | the search finds the first delimiter of either kind, and none exactly when there is none |
| EventStream.CutIsStable | crates/token-toxication-server/src/routes.rs:2337-2347 | a cut found in a buffer stays the first cut however the buffer is continued, also when CR LF CR LF is split |
| EventStream.DrainAppend | crates/token-toxication-server/src/routes.rs:2312-2330 | draining a buffer early and going on with the rest equals draining everything at once |
| EventStream.ChunkIndependence | crates/token-toxication-server/src/routes.rs:2311-2335 | any two splits of one stream give the same output, the same remainder, the same event count and the same injection record |
| EventStream.DrainedFrames | crates/token-toxication-server/src/routes.rs:2312-2330 | the output is the stream's frames rewritten in order, each ended by LF LF, and the remainder is its tail |
| EventStream.PassedStream | crates/token-toxication-server/src/routes.rs:2312-2335 | a stream whose events pass unchanged reaches the client unchanged exactly when every delimiter is LF LF |
| EventStream.FramedExactly | crates/token-toxication-server/src/routes.rs:2326-2347 | an event put out with LF LF is read back as itself exactly when it ends neither in LF nor in CR LF CR |
| EventStream.CutEventIsClear | crates/token-toxication-server/src/routes.rs:2337-2347 | the bytes of a cut event hold no delimiter |
| EventStream.OutputReadsBack | crates/token-toxication-server/src/routes.rs:2312-2335 | cutting the output by the same rules gives exactly the rewritten events in order and the same tail, exactly when each rewritten event by itself is read back as one event |
| RetryAdvice.AdviceRule | crates/token-toxication-server/src/routes.rs:2312-2389 | event k of a stream is given advice exactly when it reports overload on a subscription and an earlier event of the stream was a response event |
| RetryAdvice.AdviceRecorded | crates/token-toxication-server/src/routes.rs:2312-2330 | advice is recorded for a stream exactly when such an event exists |
| RetryAdvice.UnadvisedStream | crates/token-toxication-server/src/routes.rs:2305-2389 | a valid stream without advice reaches the client unchanged exactly when all its delimiters are LF LF |
| RetryAdvice.AdviceIsLocal | crates/token-toxication-server/src/routes.rs:2349-2389 | advice replaces the data line and keeps the other lines; it keeps the other bytes exactly when no line ended in CR LF and the event did not end in LF; and the advised event is read back as one exactly when after its first line no line is empty or a lone CR after a line ending in CR |
| RetryAdvice.ClientReadsEveryEvent | crates/token-toxication-server/src/routes.rs:2312-2389 | the client reads one event for each event sent, in order, and the same bytes after the last, exactly when every advised event passes that test on its lines and every other is read back as itself |
| RetryAdvice.UnadvisedSentWhole | crates/token-toxication-server/src/routes.rs:2326-2347 | for an event of valid UTF-8 without advice that is a test of its last bytes |
| RetryAdvice.MixedEventSplits | crates/token-toxication-server/src/routes.rs:2349-2389 | every overload event of a data line, an empty line ended by CR LF and another line is one event as it arrives and two once advised |
| RetryAdvice.MixedStreamIsMisread | crates/token-toxication-server/src/routes.rs:2312-2389 | for every JSON codec and payload, a stream of a response event and such an overload event, both well framed and valid, holds these two frames and is not read back as them |
| RetryAdvice.MisreadStream | crates/token-toxication-server/src/routes.rs:2312-2389 | an instance: the start of a response, then the overload error with mixed line ends |
| RetryAdvice.JoinLinesExactly | crates/token-toxication-server/src/routes.rs:2354-2388 | joining the lines of a text gives it back exactly when no line ended in CR LF and it does not end in LF |
| RetryAdvice.JoinedIsFramed | crates/token-toxication-server/src/routes.rs:2337-2388 | joined lines are read back as one event exactly when none after the first is empty or a lone CR after a line ending in CR |
| RetryAdvice.Rewriter.Process | crates/token-toxication-server/src/routes.rs:2312-2330 | the buffer, counter, output and record after a chunk are those of draining the old buffer with the chunk |
| RetryAdvice.Rewriter.Finish | crates/token-toxication-server/src/routes.rs:2332-2334 | the remainder is returned and the buffer emptied |
| RetryAdvice.Forward | crates/token-toxication-server/src/routes.rs:2640-2682 | what the forwarding loop sends depends only on the bytes, not on the chunks; one that is stopped before a chunk or the end, or fails to send a processed chunk or the rest, sends a prefix of it, and at every exit advice is recorded exactly for the chunks processed, sent or not |
| RelayRetry.MaximumDelayIsTheLeast | crates/token-toxication-server/src/relay_retry.rs:34-60 | `maximum_delay` is the least possible delay; every delay is 2 seconds to 15 minutes, honours the provider's wait and exceeds it by at most the jitter |
| RelayRetry.DelayExactly | crates/token-toxication-server/src/relay_retry.rs:34-60 | the base doubles from two seconds to ten, the jitter adds its seconds up to the same ten, and a longer wait asked for is kept up to 15 minutes |
| RelayRetry.DelayCanExceed | crates/token-toxication-server/src/relay_retry.rs:34-60 | a jitter carries the delay past `maximum_delay` exactly for the first three retries when the provider asks for less than the full backoff |
| RelayRetry.GreatestDelay | crates/token-toxication-server/src/relay_retry.rs:34-49 | over the jitters that can be drawn the full base gives the greatest delay, the larger of the provider's wait and the doubled base up to ten seconds |
| RetryController.WaitForRetry | crates/token-toxication-server/src/routes.rs:3282-3308 | the wait sleeps, for two seconds or more and not past the deadline, exactly when the random delay still fits and the server is not shutting down |
| RetryController.AfterSend | crates/token-toxication-server/src/routes.rs:948-1332 | the branches after a send retry, fail over or stop, and answer, each exactly when the outcome, the clock and the record say, and set the loop's variables as the rules do |
| RetryController.Relay | crates/token-toxication-server/src/routes.rs:770-1332 | the loop's log is a finished run of those rules from the initial variables: it stops only at an attempt that ends it or where no account is selected or no request can be built; the answer is that run's, and after a last attempt exactly its response, or which error, by its outcome, record, guard and sleep |
| RetryBounds.SendsAreBounded | crates/token-toxication-server/src/routes.rs:780-1332 | at most eleven requests go upstream, and the eleventh always ends the loop |
| RetryBounds.TurnsEndExactly | crates/token-toxication-server/src/routes.rs:948-1272 | every attempt of a run is retried, and wakes when, or fails over, for each exactly when its outcome, the clock and the record say |
| RetryBounds.AnswersExactly | crates/token-toxication-server/src/routes.rs:793-1332 | for every finished run and each answer exactly when it is given: the last attempt's response, the kept limit of the latest failover, or which error |
| RetryBounds.RunIsDetermined | crates/token-toxication-server/src/routes.rs:770-1332 | the rules of a finished run leave one log for each environment, so the loop can send neither fewer nor other attempts |
| RetryBounds.AnotherAttemptFollows | crates/token-toxication-server/src/routes.rs:780-838 | an attempt that goes on is followed by another whenever selection finds an account and the request can be built |
| RetryBounds.UnsafeRequestIsSentOnce | crates/token-toxication-server/src/routes.rs:780-1332 | a request that is not replay-safe is sent at most once |
| RetryBounds.FailoversAreBounded | crates/token-toxication-server/src/routes.rs:1083-1097 | at most two rate-limit failovers, by the first two attempts only |
| RetryBounds.RetriesFitTheDeadline | crates/token-toxication-server/src/routes.rs:3282-3308 | no sleep ends after the retry deadline, and n retries take at least 2n seconds of the loop's clock |
| RetryBounds.GuardLeavesTime | crates/token-toxication-server/src/routes.rs:948-959 | a retry that passes the guard finds time for its sleep under every jitter exactly when the greatest delay still fits |
| RetryBounds.GuardWithoutTime | crates/token-toxication-server/src/routes.rs:3282-3293 | an instance: two seconds left, the guard passes, and a jitter of one second leaves no time |
| RetryBounds.RetryIsCertain | crates/token-toxication-server/src/routes.rs:948-1230 | with 15 minutes left, a retryable failure of a subscription account is retried while retries remain, and no other outcome is |
| RetryBounds.FailoverBudget | crates/token-toxication-server/src/routes.rs:772-818 | the failover deadline is 30 seconds after the first selection plus the time later attempts queued |
| RetryBounds.AttemptsAddUp | crates/token-toxication-server/src/routes.rs:774-1272 | at every head of the loop the retry count and the excluded accounts add up to the attempt index |
| RetryBounds.RetryAccountExcluded | crates/token-toxication-server/src/routes.rs:780-1272 | the retry account at a head is an excluded one exactly when some attempt strayed onto an excluded account and was retried there, or the second met a streamed limit on the account the first retried, and every attempt since was retried on it |
| RetryBounds.SteadyRetryAccountExcluded | crates/token-toxication-server/src/routes.rs:1248-1272 | while selection for an account answers with it, exactly after a streamed limit failover that followed a retry of the first attempt |
| RetryBounds.ExcludedAccountIsRetried | crates/token-toxication-server/src/routes.rs:1248-1272 | a concrete finished run whose third and last attempt is sent for the account excluded after the second |
| RetryBounds.PlainRequestRetriesOpenAccount | crates/token-toxication-server/src/routes.rs:1083-1097 | a request that is not streamed retries an excluded account exactly when selection strayed onto one and every attempt since was retried there; never while selection for an account answers with it |
| RetryBounds.PlainRequestStrays | crates/token-toxication-server/src/routes.rs:782-800 | a concrete plain run that goes on with an excluded account after selection for another answered with it |
| RetryBounds.OneAttemptAnswers | crates/token-toxication-server/src/routes.rs:801-1332 | the client is answered with the bytes of at most one attempt: the last one sent, or the 429 kept from the latest failover |
| RetryBounds.StartedOutputIsNotReplayed | crates/token-toxication-server/src/routes.rs:1134-1272 | an attempt whose stream had started output is never retried; only a limit failover may follow it, and its bytes are dropped |
| Routing.Draw | crates/token-toxication-server/src/routing.rs:70-85 | the scan with its running subtraction picks the route whose interval of the weights holds the draw |
| Routing.WeightedDrawIsExact | crates/token-toxication-server/src/routing.rs:70-85 | exactly weight_i of the draws in 0..total select route i |
| Routing.EveryDrawSelects | crates/token-toxication-server/src/routing.rs:70-85 | a draw selects a route exactly when it is below the total |
| Routing.BestIsFirstLeast | crates/token-toxication-server/src/routing.rs:65-69 | the rendezvous choice is the first route of least score |
| Routing.Select | crates/token-toxication-server/src/routing.rs:39-87 | a backup is chosen only when no candidate is primary, and nothing exactly when no candidate of that role has weight; a session gets the least hash for its weight, and a draw the route in whose stretch of the weights it falls |
| Routing.MinimalDisruption | crates/token-toxication-server/src/routing.rs:65-109 | adding a route anywhere moves a session only to it; removing an unchosen one moves nothing, while the tier stays the same tier |
| Routing.RaisedWeightAttracts | crates/token-toxication-server/src/routing.rs:89-109 | raising a route's weight moves sessions only to it and none away |
| RouteSelection.TryInTurn | crates/token-toxication-server/src/relay_attempt.rs:585-590 | the overflow loop tries the routes that selection gives, each account's other routes dropped after a refusal, and ends |
| RouteSelection.OverflowIsComplete | crates/token-toxication-server/src/relay_attempt.rs:568-592 | each account is tried at most once, all but a chosen last are refused, and the loop gives up only when every account with weight was tried and refused |
| RouteSelection.Overflow | crates/token-toxication-server/src/relay_attempt.rs:568-592 | over the other accounts of the preferred tier the tries are complete in that sense, and each is the usual choice among the accounts not tried before |
| RouteSelection.SelectExcluding | crates/token-toxication-server/src/relay_attempt.rs:410-482 | the preferred route of the tier runs if its section grants a slot; primary before backup; otherwise exactly the tries that this call made, in the usual order, decide: the request runs on the one granted, of the same tier, or queues on the preferred route, every usable account of the tier tried and refused; never an excluded account; errors exactly without candidates |
| RouteSelection.QueuesOnlyWhenAllFull | crates/token-toxication-server/src/relay_attempt.rs:458-482 | with the slot queue giving the answers, while others use it in between, a request queues only if each account with weight in the preferred tier had no free slot or a nonempty queue in the section that asked it |
| RouteSelection.SelectAccount | crates/token-toxication-server/src/relay_attempt.rs:529-557 | unavailable exactly when the account is not in the list first read; otherwise selection as above over the routes whose account that list did not hold or is the asked one |
| RouteSelection.RetryCandidatesExactly | crates/token-toxication-server/src/relay_attempt.rs:529-557 | left for a retry are exactly the asked account's routes and those of accounts that the first list did not hold |
| RouteSelection.AskedAccountExactly | crates/token-toxication-server/src/relay_attempt.rs:529-557 | whatever is drawn, granted or refused, the answer is for the asked account exactly when each route eligible at the second reading is of that account |
| RouteSelection.SteadyListAnswersFor | crates/token-toxication-server/src/relay_attempt.rs:529-557 | so it always is when the list does not change between the readings |
| RouteSelection.RetryCanLandElsewhere | crates/token-toxication-server/src/relay_attempt.rs:529-557 | an instance of `select_account` in which an account that comes up between the readings gets the retry |
| DeviceLogin.LoginIsSafe | crates/token-toxication-server/src/codex_device_oauth.rs:208-322 | in every reachable state a login has at most one poll in flight, at most one account, and at most ceil(lifetime / gap) polls started, one more when the section reads the clock at several instants |
| DeviceLogin.PollBoundInSeconds | crates/token-toxication-server/src/codex_device_oauth.rs:178-197 | that bound is ceil(900 / interval) for intervals of 1 to 60 seconds |
| DeviceLogin.PollBoundsAreMet | crates/token-toxication-server/src/codex_device_oauth.rs:216-262 | for every interval of 1 to 60 seconds a run with one instant per section starts ceil(lifetime / gap) polls, and one with several readings of the clock starts one more, after expiry |
| DeviceLogin.PollsAreSpaced | crates/token-toxication-server/src/codex_device_oauth.rs:228-252 | a poll starts only before expiry and a full interval after the last start or answer |
| DeviceLogin.FinalForever | crates/token-toxication-server/src/codex_device_oauth.rs:216-342 | a succeeded or failed login never changes while it is stored |
| DeviceLogin.FinalFlowStays | crates/token-toxication-server/src/codex_device_oauth.rs:216-342 | one step leaves a finished login as it is or removes it |
| DeviceLogin.ExpiredLeavesByItsPoll | crates/token-toxication-server/src/codex_device_oauth.rs:224-227 | a login leaves `Expired` exactly by the success or failure of the poll that was in flight |
| DeviceLogin.ExpiredCanSucceed | crates/token-toxication-server/src/codex_device_oauth.rs:303-315 | a concrete run in which an expired login succeeds |
| DeviceLogin.SuccessHasItsAccount | crates/token-toxication-server/src/codex_device_oauth.rs:261-315 | a succeeded login carries the one account it created; a failed one created none |
| DeviceLogin.CancelledPollBlocks | crates/token-toxication-server/src/codex_device_oauth.rs:231-240 | over any rest of any run, a login whose poll was cancelled never polls, creates an account or finishes again |
| DeviceLogin.PruneSparesLiveLogins | crates/token-toxication-server/src/codex_device_oauth.rs:373-378 | `begin` removes a login with a poll in flight exactly 5 minutes after expiry, another exactly when its time is over or it is no longer pending, and nothing else removes one |
| DeviceLogin.RunKeepsInv | crates/token-toxication-server/src/codex_device_oauth.rs:149-342 | the invariants hold in every state reachable by interleaved and cancelled calls |
| DeviceFlows.Store.Begin | crates/token-toxication-server/src/codex_device_oauth.rs:178-198 | the lock section of `begin` prunes and inserts, as specified; the new login is its owner's, pending, due at once, with 15 minutes and 1 to 60 seconds between polls |
| DeviceFlows.Store.Enter | crates/token-toxication-server/src/codex_device_oauth.rs:216-240 | nothing is shown to or changed by anyone but the owner; the owner polls exactly when the login is pending, unexpired, due and not being polled, and else is shown it, expired if its time is over |
| DeviceFlows.Store.FinishPending | crates/token-toxication-server/src/codex_device_oauth.rs:245-262 | after a pending answer the login expires if its time is over and else waits an interval; it is shown as left, and no other is touched |
| DeviceFlows.Store.FinishSucceeded | crates/token-toxication-server/src/codex_device_oauth.rs:299-316 | the login succeeds with its account and no error; it is shown as left, and no other is touched |
| DeviceFlows.Store.FinishFailed | crates/token-toxication-server/src/codex_device_oauth.rs:324-342 | the login fails with the error; it is shown as left, and no other is touched |

## Left out

- HTTP, TLS, WebSocket transport, static files, the admin application, configuration and OpenAPI: wiring.
- Token contents, OAuth exchange, JWT and JSON shapes: arbitrary results of a step.
- SHA-256, floating-point logarithms and rounding of scores and estimates: an arbitrary nonnegative number for each
  route, and exact reals.
- Overflow of `running` and `next_waiter_id`, and 64-bit counters other than the token sums: unbounded here.
- The loop that looks at the start of a stream, with its byte and time limits, is one arbitrary outcome of an attempt. The
  library's `SseDecoder` is not part of this model, nor is `take_sse_event`.
- The reports query (order, six newest history rows) and the idle sampler around the capacity transaction.
- Whether a request is replay-safe, and whether an account uses a subscription: parameters of the controller.
- Request logs, metrics, the analytics cache and trend buckets, alias and URL normalisers: easy members only.
- Route status columns and cooldowns, except where reconciliation resets them; provider fields of an account other than
  its name.
- RetryAdvice.ClientReadsEveryEvent: assumes that the JSON printer writes no line end, as compact JSON has none.
- RetryBounds.AttemptsAddUp: assumes that selection without a retry account respects the exclusions, which
  `RouteSelection.SelectExcluding` proves of it.
- RetryBounds.RetryAccountExcluded: assumes the same, and nothing of selection for a retry account.
- RetryBounds.PlainRequestRetriesOpenAccount: assumes the same for its exact condition.
- RetryBounds.SteadyRetryAccountExcluded: assumes also that selection for a retry account answers with it, which
  `RouteSelection.SteadyListAnswersFor` proves for a list that does not change between its two reads.
- QuotaTables.ResponseIsRead: speaks of a limit id that the response lists once; for an id listed twice `WindowIsRead`
  says what each of its windows does in turn.
- ManagedCatalog.ManagedCatalog.UpsertModel: what it says of routes takes the next route id to be unused, as a random
  UUID is taken to be.
- Routing.MinimalDisruption: keeps the tier fixed; removing the last primary route moves every session to the backups.
- DeviceFlows.Store.Begin: the flow id is fresh, as a random UUID is taken to be.
