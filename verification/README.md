# Verified models of the bot starter kit

Dafny models of the parts of the bot starter kit whose correctness is not visible from one function:
the per-user message router, the asynchronous database gates, the chart planner, the static report
publisher, the line scanner of the code guidelines, the WhatsApp webhook adapters and the benchmark
progress reporter. `dafny verify dfyconfig.toml` checks everything.

How the files are organised:

- **Per-user router.** `Router` is the step machine (one event per atomic section between two awaits),
  `RouterSafety` its invariants, `RouterRuns` what holds of every run, `UserRouter` the object with its
  fields updated in place, each method proved equal to steps of the machine; `RouterShutdown` what the
  shutdown loop closes; `RouterChannels` what closes a channel, what a closed one still does, and that an open
  one can be drained. Channel rules taken as given: FIFO, a closed channel or one without receiver refuses sends, closing keeps queued items.
- **Database gates.** `Gates`, `GateSafety`, `GateRuns`: writer mutex, FIFO reader semaphore and
  maintenance as a step machine, with the drop of a transaction and the release of its permit as two
  steps. `GateProgress` shows who can always go on. Maintenance is heed's `resize`, which runs beside
  readers and writers; redb's `compact` takes the database exclusively, so redb's are the runs without any.
  `GateNesting` has exactly which nestings of gates inside one task are safe where maintenance runs beside
  readers and writers (heed), `GatePlain` where it does not (redb); `GateOrder` shows that the mutex serves in the order of requests.
  `Stores` has `ingest_stream` as in-place methods, `Benchmarks` the ingest-and-query benchmarks.
- **Chart planner.** `Moves` (run detection), `Ticks` (index rounding and tick selection), `Metrics`
  (the text-measure cache), `Chart` (layout and plan as functions of quotes and theme alone),
  `ChartProofs` (geometry), `ChartDrawing` (what an accepted plan shows, and when it is accepted), `RenderEngine` (the engine that computes the plan through its cache).
- **Report publisher.** `Snapshots` (the hashed byte stream), `Publisher` and `PublisherSafety` (the
  export as a step machine that can crash after any step), `PublisherRuns` (what it can always reach and never
  takes away), `ReportSite` (the export as one method over
  an output directory).
- **Scanner.** `ScannerAttributes`: which lines head a test module, read off the characters alone; `Scanner`: the brace-depth scanner against a declarative reading of the file, and that
  against the regions the test modules really cover; `ScannerHeaders`: which headers make the two differ;
  `ScannerTrees`: the regions as subtrees.
- **Webhook.** `Webhook` (the JSON rewriting), `WebhookPaths` (the same by the literal paths of a body),
  `StatusUpdates` (the status-only reading), `StatusOrder` (its answer by position).
- **Benchmark progress.** `Progress` and `ProgressRuns` (the timed machine), `ProgressReports` (which calls send), `ProgressSpacing` (the
  distance of sends to one chat across benchmarks), `ProgressReporter` (the reporter object).
- `Wrappers` and `Arithmetic` are shared helpers.

Some statements one would like to make are false of the code. Each has inputs that show it and the exact
condition under which the code does what is wanted:

- *One live dialog per user.* `close_dialog` removes by user id without comparing channels
  (`RouterRuns.RouteOfNewerDialogIsTaken`); two live dialogs occur exactly when a message is looked up
  between a dialog's idle close and its final one (`RouterRuns.TwoLiveExactlyAfterLookupInWindow`). A dialog
  that loses its route this way is missed by the shutdown (`RouterShutdown.LostRouteEscapesShutdown`); the
  shutdown misses exactly the open dialogs whose route was removed (`RouterShutdown.EscapesShutdownExactly`).
- *No task waits for ever at the gates.* A task that asks for a gate inside another one can. Where
  maintenance runs beside readers and writers, as in heed, exactly the read inside the own write is safe
  (`GateNesting.SafeNestingsExactly`). Where it does not, as in redb, either order of read and write is safe
  as long as the other one is not used too, and no gate inside itself
  (`GatePlain.SafeNestingsWithoutMaintenance`). A redb database without reader
  slots keeps its first reader waiting (`GateNesting.NoReaderSlotsIsStuck`).
- *The scanner yields the lines outside test modules.* A header that opens no more than it closes hides
  lines, and one that opens two levels or more can leak lines (`Scanner.ScannerFails`);
  `Scanner.ScannerAgreesExactly` compares the two readings line by line, and headers that open exactly one
  level always agree (`Scanner.ScannerAgreesOnSingleOpeners`). `ScannerHeaders` has the conditions on headers:
  `HidingExactly`, `LeakingExactly`, both together in `ScannerAgreesWhereHeadersAreApart`, and in terms of
  depths alone in `ScannerAgreesByHeadersExactly`.
- *Every benchmark message keeps six seconds from the last one.* Not from one benchmark to the next
  of a chat (`ProgressSpacing.SecondBenchmarkIsTooQuick`). `ProgressSpacing.NextBenchmarkIsSpacedExactly` has
  the condition on the instant of the start, `ProgressSpacing.PatientRunsAreSpaced` what follows for the whole
  process, and `ProgressSpacing.TwoFinishesCanBePatient` a run that meets it although both finishes got through.
- *A body with a messages member is never answered as status-only.* A null member is
  (`StatusUpdates.NullMessagesAreTaken`); `StatusUpdates.TakenExactly` has the condition.
- *The benchmarks' payload always fits its array.* Exactly for sequence numbers below 10^12
  (`Benchmarks.PayloadFillsItsArray`).
- *Every quote of a chart is drawn inside the plot.* For every theme, negative padding and scales included,
  `ChartProofs.PointsAreInsideExactly` has the condition.
- *The subtitle of a frame announces the threshold that was used.* Only without an override of the default
  (`RenderEngine.SubtitleIsRightExactly`).

Where the code and its messages disagree the model follows the code: after a failed MT send the router
logs that it is bailing out, but the loop goes on with the next reply (`src/messaging/user_router.rs`,
lines 185-198).

Assumptions, stated once: floating point is modelled by reals and 32-bit pixels by unbounded integers,
so neither rounding of `f64` operations nor `i32` overflow in the chart planner is covered; the wrapping
arithmetic of the record keys is modelled exactly. Clocks are monotone and a sleep lasts at least as
long as it is told to.

## Model

| member | source | states |
|---|---|---|
| RouterRuns.MosAreConserved | src/messaging/user_router.rs:221-279 | In every run each arrived MO is, in order, accepted once or dropped on a closed channel of its sender (or in the router's hands); what was accepted from a user is the concatenation of what was sent to that user's dialogs in creation order; each dialog's sent log is consumed followed by queued |
| RouterRuns.RoutesLeadToLatestDialog | src/messaging/user_router.rs:245-266 | In every run a registered route leads to its user's most recent dialog, whose task is unfinished, and every channel gets exactly one task |
| RouterRuns.FreshSendIsAccepted | src/messaging/user_router.rs:273-277 | The send into a fresh channel is always accepted, so each dialog's log starts with the MO that created it |
| RouterRuns.SendIsRefusedOnlyByAbandoned | src/messaging/user_router.rs:224-235 | A send is refused only by a dialog nobody reads any more, and always by one whose receiver is gone |
| RouterRuns.LookupInWindowMakesTwo | src/messaging/user_router.rs:245-266 | A lookup between a dialog's idle close and its final one leaves two live dialogs behind |
| RouterRuns.SingleUntilLookupInWindow | src/messaging/user_router.rs:292-308 | Until such a lookup the user never has two live dialogs |
| RouterRuns.TwoLiveExactlyAfterLookupInWindow | src/messaging/user_router.rs:325-336 | A run gives a user two live dialogs at once if and only if it looks up an MO of the user in such a window |
| RouterRuns.CloseDialogTakesOwnRoute | src/messaging/user_router.rs:325-336 | Without such a lookup, close_dialog never takes another dialog's route although it compares no channels |
| RouterRuns.RouteOfNewerDialogIsTaken | src/messaging/user_router.rs:211-212 | A run in which the final close_dialog of a timed-out dialog removes the route of the user's newer dialog |
| RouterRuns.DeliveredIsPrefixOfProduced | src/messaging/user_router.rs:185-198 | The merged MT output of a dialog is a prefix of what it produced, delivered plus queued is what was accepted, the queue never exceeds 64, and replies are lost only after the MT channel is closed |
| RouterRuns.RepliesArriveInOrder | src/messaging/user_router.rs:601-610 | With a one-reply-per-message processor the i-th delivered reply of a dialog answers the i-th MO sent to it, in every interleaving |
| RouterChannels.MtChannelClosedExactly | src/messaging/user_router.rs:115-118 | In every run the MT channel is closed exactly when the router has finished, that is once its close event has happened |
| RouterChannels.NothingIsAcceptedAfterShutdown | src/messaging/user_router.rs:115-118 | From a finished state no continuation accepts a reply: delivered plus queued and every dialog's accepted replies stay the same |
| RouterChannels.LateReplyIsLost | src/messaging/user_router.rs:185-198 | Each reply pushed after the shutdown is added to the lost ones, and the task goes on |
| RouterChannels.EndedTaskHasPushedAll | src/messaging/user_router.rs:185-212 | A task gives its route up for good only when each of its replies was accepted or, after the shutdown, lost |
| RouterChannels.ChannelClosedExactly | src/messaging/user_router.rs:325-336 | A dialog's MO channel is closed exactly when its receiver is gone, its idle close found a route and got through, or the shutdown found it registered |
| RouterChannels.ClosedTakesNothing | src/messaging/user_router.rs:224-235 | However a run goes on, a closed channel is sent nothing any more, and from a given-up one nothing is read any more |
| RouterChannels.LogsAreTheRuns | src/messaging/user_router.rs:151-200 | The logs of arrived MOs and of produced replies are those of the run's events |
| RouterChannels.QueuedMosCanBeRead | src/messaging/user_router.rs:174-184 | A serving task can read, one by one, everything that waits in its channel |
| RouterChannels.PendingReplyCanBeDelivered | src/messaging/user_router.rs:185-198 | Before the shutdown every pending reply can be delivered, after all that are queued before it |
| RouterChannels.PushWaitsExactly | src/messaging/user_router.rs:56-60 | A reply is pushed at once exactly when the merged channel is closed or holds fewer than 64 |
| RouterSafety.InvAlways | src/messaging/user_router.rs:131-218 | Every reachable state satisfies the invariants about routes, program counter, channels, replies, dialogs, logs and the MT queue |
| UserRouter.Service.constructor | src/messaging/user_router.rs:47-56 | A new router is in the machine's initial state |
| UserRouter.Service.FindOrCreateDialog | src/messaging/user_router.rs:245-266 | The critical section is the machine's lookup step; a dialog is created exactly for a user without a route |
| UserRouter.Service.RouteMo | src/messaging/user_router.rs:221-279 | Routing one MO without interference is lookup then send; a new dialog is returned exactly when the sender had no route |
| UserRouter.Service.SendMo | src/messaging/user_router.rs:224-235 | The send is the machine's send step: enqueue, or close the refusing channel |
| UserRouter.Service.RemoveRoute | src/messaging/user_router.rs:325-331 | The half under the lock, from either call site, is the machine's removal step and reports whether a route was found |
| UserRouter.Service.CloseSender | src/messaging/user_router.rs:332-336 | The half after it is the machine's closing step |
| UserRouter.Service.CloseDialog | src/messaging/user_router.rs:325-336 | Both together when nothing comes between them |
| UserRouter.Service.PushMt | src/messaging/user_router.rs:185-198 | One turn of the MT loop is the machine's MT step and keeps the queue within its capacity |
| UserRouter.Service.RemainingMos | src/messaging/user_router.rs:71-76 | The fold over the map is the total queued, and is 0 exactly when every registered channel is empty |
| UserRouter.Service.Remaining | src/messaging/user_router.rs:71-77 | The waiting MOs and MTs together; 0 exactly when every registered channel and the merged one are empty |
| UserRouter.Service.CloseAllRoutes | src/messaging/user_router.rs:105-113 | The end of the shutdown loop closes every registered channel and changes nothing else |
| UserRouter.Service.CloseMtChannel | src/messaging/user_router.rs:115-118 | The merged channel is closed and keeps what it holds; the router has finished |
| RouterShutdown.ShutdownClosesLiveDialogs | src/messaging/user_router.rs:105-113 | After it every live dialog of a user without a lookup in a window has a closed channel, unless its own idle close is in progress |
| RouterShutdown.EscapesShutdownExactly | src/messaging/user_router.rs:105-113 | A live dialog keeps an open channel through it if and only if it was open before and some close_dialog had removed its route |
| RouterShutdown.LostRouteEscapesShutdown | src/messaging/user_router.rs:325-336 | A run in which a dialog whose route an older one has taken still serves with an open channel after it |
| UserRouter.AwaitDrain | src/messaging/user_router.rs:70-119 | The shutdown loop ends in the first round that finds the grace period over or nothing left, sleeps at most ceil(grace) times, and its remaining wait never underflows |
| GateRuns.GatesAreConserved | src/db/heed/async_heed.rs:71-97 | Permits are conserved, readers never exceed max_readers, at most one operation owns the writer mutex |
| GateRuns.NoTransactionDuringMaintenance | src/db/heed/async_heed.rs:186-203 | While resize runs no transaction is alive and nobody else owns a permit or the mutex |
| GateRuns.ReaderQueuedLaterWaits | src/db/heed/async_heed.rs:186-203 | A reader queued after a maintenance request owns a permit only once that maintenance has given its permits back |
| GateRuns.RunsAreSerial | src/db/heed/async_heed.rs:152-180 | The commits are exactly the successful ingestions, each once and with its own items, no failed one among them; the store is what they produce in that order; every open reader sees the store after a prefix of them; a success returns its item count, repeated keys included |
| GateRuns.EarlierIngestionComesFirst | src/db/heed/async_heed.rs:152-180 | An ingestion that had succeeded before another was requested comes before it in the serial order |
| GateRuns.ReadersAreFresh | src/db/heed/async_heed.rs:71-84 | A reader sees at least everything committed before it was requested |
| GateRuns.OnlyCommitsChangeTheStore | src/db/redb/async_redb.rs:143-183 | Only a successful commit changes the store, and it applies all of the ingestion's puts at once; a failed ingestion changes nothing |
| GateOrder.SerialOrderIsRequestOrder | src/db/heed/async_heed.rs:86-97 | The mutex is given in the order of requests, each time after the one before is over, so the commits follow each other in the order in which the ingestions were requested |
| GateOrder.IngestionCanSucceed | src/db/heed/async_heed.rs:152-180 | An ingestion with an open transaction can put all that is left, commit, and return its item count; the store then is what it was with all of its items put |
| GateOrder.IngestionCanBeGivenUp | src/db/heed/async_heed.rs:152-180 | At any point before its commit it can be dropped: the mutex is free again and the store is as it was |
| GateProgress.NeverStuck | src/db/heed/async_heed.rs:71-97 | With a reader slot, no reachable state is stuck in which a waiting task holds nothing but its own writes, and then waits for a read |
| GateProgress.EverybodyCanFinish | src/db/heed/async_heed.rs:222-279 | From every such state all pending operations can finish without new requests |
| GateProgress.RunsWithoutRequestsEnd | src/db/heed/async_heed.rs:222-279 | Without new requests every run ends: each step uses up a measure |
| GateNesting.NoReaderSlotsIsStuck | src/db/redb/async_redb.rs:50-61 | redb opened with no reader slots keeps its first reader waiting for ever; heed refuses to open that way |
| GateNesting.ReadInWriteNeverSticks | src/db/heed/async_heed.rs:163-171 | Runs whose tasks nest nothing but a read inside their own write never get stuck |
| GateNesting.OtherNestingsStick | src/db/heed/async_heed.rs:186-203 | For any number of reader slots, every other nesting of two gates gets stuck in a run that nests nothing else |
| GateNesting.SafeNestingsExactly | src/db/heed/async_heed.rs:71-97 | Where maintenance runs beside readers and writers (heed), for any positive number of reader slots: a set of allowed nestings keeps every run from getting stuck if and only if it allows no other than a read inside the own write |
| GateNesting.EveryRunFinishesEverybody | src/db/heed/async_heed.rs:222-279 | After requests that nest nothing else, every run without new requests is bounded, and wherever no step is left every operation has finished |
| GatePlain.WriteInReadNeverSticks | src/db/redb/async_redb.rs:100-141 | Runs without maintenance whose tasks nest nothing but a write inside their own read never get stuck |
| GatePlain.ReadInReadSticks | src/db/redb/async_redb.rs:100-111 | Without maintenance too, a task that holds all the reader slots and asks for another gets stuck |
| GatePlain.BothOrdersStick | src/db/redb/async_redb.rs:130-141 | For any positive number of reader slots, tasks that write inside their reads together with one that reads inside its write get stuck |
| GatePlain.SafeNestingsWithoutMaintenance | src/db/redb/async_redb.rs:82-141 | In runs without maintenance (redb), for any positive number of reader slots: a set of nestings is safe if and only if it has neither read in read nor write in write, and not both read in write and write in read |
| GateSafety.InvAlways | src/db/heed/async_heed.rs:71-97 | Every reachable state satisfies the invariants about permits, writer, reader queue and store |
| Stores.PutAllKeys | src/db/heed/async_heed.rs:163-171 | The fold of an ingestion has the keys of store and stream and keeps what it does not touch |
| Stores.LastPutWins | src/db/heed/async_heed.rs:163-171 | Of several puts with one key the last one wins |
| Stores.Database.IngestStream | src/db/heed/async_heed.rs:152-180 | Succeeds exactly when no engine call fails; then returns the item count and publishes the fold, otherwise publishes nothing; the mutex is free again |
| Stores.Table.IngestStream | src/db/sqlite/sqlite_wrapper.rs:152-183 | The same for SQLite: all rows appended and counted, or none |
| Benchmarks.KeysAreDistinct | src/db/heed/benchmark.rs:75-77 | Two records of a run share a wrapped key (heed, redb) or id (SQLite) only if they are the same record, for every run id |
| Benchmarks.KeysOfRunsAreApart | src/db/heed/benchmark.rs:75-77 | Below 2^32 records the key holds the low 32 bits of the run id above the sequence number, so keys of two runs collide exactly when both agree |
| Benchmarks.DigitsReadBack | src/db/heed/benchmark.rs:68 | Reading back the digits of a formatted number gives the number, in any radix |
| Benchmarks.DigitCount | src/db/heed/benchmark.rs:68 | A number has at most k digits exactly when it is below radix^k |
| Benchmarks.PayloadFillsItsArray | src/db/heed/benchmark.rs:51-55 | The payload is exactly 53 bytes if and only if the sequence number is below 10^12; otherwise the copy panics |
| Benchmarks.PayloadsAreDistinct | src/db/redb/benchmark.rs:47-73 | Different records have different payloads, of one run or of two |
| Benchmarks.RecordIsFound | src/db/heed/benchmark.rs:57-77 | After its ingestion every record is found under its key with its own event, whatever the database held before |
| Benchmarks.PointQuery | src/db/heed/benchmark.rs:192-245 | The sampled query succeeds exactly when every sampled key is present, and then counts the closed-form number of samples |
| Benchmarks.SampleCount | benches/databases.rs:27-29 | The number of samples below a record count is the closed form the benchmark suite expects |
| Benchmarks.IngestThenQuery | src/db/redb/benchmark.rs:166-215 | Ingestion followed by the sampled query never misses a key and matches the expected count, with 53-byte payloads, on any database |
| Benchmarks.OneHighScorePerCycle | src/db/sqlite/benchmark.rs:99-115 | A run of n records holds n / 100000 high scores |
| Benchmarks.RangeQuery | src/db/sqlite/benchmark.rs:254-293 | The query loop counts exactly the high-score rows |
| Benchmarks.IngestThenRangeQuery | src/db/sqlite/benchmark.rs:43-55 | On a fresh table ingestion followed by the range query matches n / 100000 rows |
| Moves.DetectImportantMoves | src/plot/moves.rs:17-68 | Returns, in order and once each, exactly the maximal same-direction runs whose change plus eps reaches the threshold, with their total change and direction |
| Moves.MaybePushMove | src/plot/moves.rs:70-81 | Closing a run extends the report by exactly that run if it is important |
| Moves.MaximalRunsAreApart | src/plot/moves.rs:30-67 | Two maximal runs are the same or follow one another |
| Moves.ReportIsUnique | src/plot/moves.rs:17-68 | The specification of the detection has exactly one answer |
| Moves.MoveSurvives | src/plot/demo.rs:120-121 | A move found on a prefix is found on every longer prefix, unchanged or with the same start and kind and a later end; only one ending at the last quote can be prolonged |
| Moves.NothingNewBefore | src/plot/demo.rs:120-121 | No move appears later that ends before the prefix's last quote |
| Moves.DetectionIsStable | src/plot/moves.rs:30-67 | Both directions together, for whole reports |
| Moves.DetectOnGrowingPrefixes | src/plot/demo.rs:120-121 | The growing-prefix loop yields the report of each prefix, each continuing the one before |
| Moves.ThresholdsAgreeExactly | src/plot/moves.rs:70-81 | Two thresholds find the same moves in all quotes if and only if they are equal or neither is positive |
| Moves.ImportantExactly | src/plot/moves.rs:70-75 | A run is important exactly when its change is at least the threshold's cents, up to a ten-millionth |
| Metrics.FontMetricsCache.Measure | src/plot/render/metrics.rs:29-55 | Returns the cached box or measures and stores it; under one typography it always equals the direct measurement |
| Metrics.MeasureUnderTwoThemes | src/plot/render/metrics.rs:29-55 | With two typographies the second answer repeats the first, so it is right exactly when both measure alike |
| Ticks.ChooseEvenlySpacedIndices | src/plot/render/layout.rs:475-518 | Returns exactly the rounded indices: its duplicate check and its two repairs never change anything |
| Ticks.RoundedIndices | src/plot/render/layout.rs:488-517 | Exactly `target` strictly increasing indices from 0 to n-1 whose gaps are (n-1)/(target-1) rounded down or up |
| Ticks.RoundStep | src/plot/render/layout.rs:503-506 | Consecutive roundings of k*n/t differ by n/t rounded down or up |
| Ticks.XIsInside | src/plot/render/layout.rs:448-450 | Every index is drawn inside the plot, the first and last on its edges |
| Ticks.TicksKeepTheirDistance | src/plot/render/layout.rs:475-518 | With more than two labels, neighbouring ticks are more than min_gap/2 - 1 pixels apart |
| Ticks.DivCeilIsLeast | src/plot/render/layout.rs:530-532 | With truncating division and a positive divisor the result is the ceiling, for negative dividends too |
| Ticks.BuildYTickCents | src/plot/render/layout.rs:461-473 | The loop yields the specified tick sequence |
| Ticks.YTicksAreTheMultiples | src/plot/render/layout.rs:461-473 | The y ticks are exactly the multiples of the tick step between the bounds, in order |
| Ticks.TargetIsGreatest | src/plot/render/layout.rs:483-487 | The wanted number of x labels is the greatest that their limit, their gap and the quotes allow |
| ChartProofs.ScaleIsLargestThatFits | src/plot/render/layout.rs:272-293 | Unforced, the scale step fails exactly when span * min_px exceeds the inner height and otherwise picks the largest scale in range that fits |
| ChartProofs.RefusedForScaleExactly | src/plot/render/layout.rs:54-446 | The whole layout is refused for its range exactly under that condition |
| ChartProofs.PointsAreInsideExactly | src/plot/render/layout.rs:452-455 | For every theme the quotes of an accepted chart are all inside the plot if and only if the scale is zero, or it is positive and the padding is not negative or is one cent that rounding gives back at both extremes |
| ChartProofs.PointsAreInside | src/plot/render/mod.rs:108-123 | So they are whenever padding and scales are not negative |
| ChartProofs.YTicksAreInside | src/plot/render/layout.rs:322-352 | Every y tick is inside the plot; its caption ends at the axis gap and does not cross the left margin |
| ChartProofs.XTicksSpanThePlot | src/plot/render/layout.rs:353-384 | The x ticks are for the first and last quote at the plot's edges and strictly ordered indices in between |
| ChartProofs.XTicksKeepTheirDistance | src/plot/render/layout.rs:353-384 | The same distance bound for the x ticks of an accepted layout |
| ChartProofs.PlotIsCentred | src/plot/render/layout.rs:295-300 | The plot is centred in its room within one pixel |
| ChartProofs.MovementLabelStaysInside | src/plot/render/mod.rs:221-273 | A movement label never crosses the left and top margins and stays within the plot with its padding exactly when it fits |
| ChartProofs.BoundsArePadded | src/plot/render/layout.rs:77-84 | The bounds leave exactly the padding beyond the lowest and the highest price, rounded to whole cents outwards |
| ChartDrawing.PlanShowsQuotes | src/plot/render/mod.rs:108-123 | In every accepted plan the first point is on the left edge and the last on the right, the steps between are equal up to rounding, a higher price is never below a lower one, prices meet the y ticks of their amount, every x tick stands under its quote with its date, and every label is as near as its margins allow to above the middle of a rise or below that of a fall |
| ChartDrawing.LabelClearsTheMiddle | src/plot/render/mod.rs:221-241 | A label that needs no clamping stands above the middle of its two end points for a rise and below it for a fall |
| ChartDrawing.TextsAreStacked | src/plot/render/layout.rs:200-446 | Title, subtitle, plot, x captions and axis labels follow each other downwards with the gaps of the theme and stay on the canvas |
| ChartDrawing.FrameAcceptedExactly | src/plot/render/layout.rs:54-275 | A frame is refused exactly for fewer than two quotes, no room across, or no room down, without or with the inner gaps |
| ChartDrawing.CaptionReadsBack | src/plot/render/layout.rs:534-538 | The digits of a price caption are its amount in cents |
| RenderEngine.Engine.WarmUp | src/plot/render/mod.rs:62-101 | Warming up fills the cache with the dates' boxes and keeps it truthful |
| RenderEngine.Engine.BuildLayout | src/plot/render/layout.rs:54-446 | The layout built through the cache equals the layout as a function of quotes and theme, errors included |
| RenderEngine.Engine.BuildMovementLayer | src/plot/render/mod.rs:204-301 | A movement layer built through the cache equals its direct definition |
| RenderEngine.Engine.Plan | src/plot/render/mod.rs:108-123 | On every call of an engine's life the plan equals the plan measured without a cache; if accepted it shows every quote where its date and price belong and every move's label beside it |
| RenderEngine.Engine.PlanFrame | src/plot/demo.rs:25-41 | Detection at the default threshold, then the plan: the moves found always fit the quotes |
| RenderEngine.SubtitleIsRightExactly | src/plot/demo.rs:79-84 | The threshold the subtitle announces finds the moves that were used if and only if no override was given, or the default |
| Snapshots.StreamReadsBack | scripts/management/gui_server:738-747 | Decoding the length-prefixed stream gives back the list of files |
| Snapshots.LeadingBytesAreZero | scripts/management/gui_server:742-744 | Lengths are written with the most significant byte first |
| Snapshots.DirectoryStreamsAreDistinct | scripts/management/gui_server:738-747 | Two directories are hashed from the same bytes only if they are equal |
| Snapshots.SnapshotIdFor | scripts/management/gui_server:738-747 | The digest loop hashes exactly that stream |
| PublisherSafety.IndexRefersToCompleteGeneration | scripts/management/gui_server:769-797 | After any run, crashes included, the index page (if any) is that of a report whose generation is in place, whole and unaltered, and every URL in it leads there |
| PublisherSafety.EveryUrlLeads | scripts/management/gui_server:692-721 | Read beside the index page, the URLs of model, style, script and diagrams, and the diagram URLs in the model, are the paths of these files in generations/<id>/, where they lie with their own contents |
| PublisherSafety.GenerationsAreImmutable | scripts/management/gui_server:757-766 | Whatever has appeared under generations/ keeps its contents for ever |
| PublisherSafety.IdsNameReports | scripts/management/gui_server:786-794 | For a collision-free digest equal generation ids mean equal reports and equal final directories, although the id is taken before its URLs are written |
| PublisherSafety.ExistingIsEqual | scripts/management/gui_server:750-754 | An existing generation with a report's id has that report's contents |
| PublisherSafety.CollisionIsUnreachable | scripts/management/gui_server:757-766 | The collision error is never raised between exports |
| PublisherSafety.FinishedExportIsWhole | scripts/management/gui_server:625-637 | After the index switch an export can go on to its end, where the root holds its index page and a copy of each of its files |
| PublisherRuns.ExportCanFinish | scripts/management/gui_server:769-797 | From every reachable state, in the middle of another export or not, every report can be exported to the end |
| PublisherRuns.NothingDisappears | scripts/management/gui_server:625-637 | No path is ever removed in any run, the index page included |
| PublisherSafety.InvAlways | scripts/management/gui_server:769-797 | Every reachable state satisfies the publisher's invariant |
| ReportSite.Site.PublishImmutableGeneration | scripts/management/gui_server:757-766 | Reuses an equal generation, refuses a different one, otherwise moves the staged directory in at once; no existing file changes |
| ReportSite.Site.PublishStagedFiles | scripts/management/gui_server:625-637 | All staged files replace their namesakes one by one, nothing else changes; a named entry point must be staged and is put in place after all the others |
| ReportSite.Site.Export | scripts/management/gui_server:769-797 | Fails exactly on a collision, changing nothing; otherwise generation, index and root copies are the report's, every URL of the index leads into the generation, and nothing else changes |
| Scanner.ProductionLines | scripts/ci/enforce_code_guidelines:76-107 | For every file the scanner yields exactly the lines that neither head a test module nor lie in one whose depth has not been left |
| ScannerAttributes.HeadersExactly | scripts/ci/enforce_code_guidelines:85-104 | For every line of every file: it heads a test module exactly when it names a module and begins with the attribute, or has it above on a line that names none, with only blank lines and lines that begin with # between, none of which names a module |
| ScannerAttributes.AttributedModuleIsSkipped | scripts/ci/enforce_code_guidelines:85-107 | With the attribute on a line of its own, further attributes and blank lines between, no line of the module is yielded |
| ScannerAttributes.InterruptedAttributeIsLost | scripts/ci/enforce_code_guidelines:97-104 | A line that is neither blank nor begins with # ends the wait for a module |
| ScannerAttributes.TwoLineFormIsSkipped | scripts/ci/enforce_code_guidelines:76-107 | The usual form at a concrete file, line by line |
| Scanner.StackStep | scripts/ci/enforce_code_guidelines:97-107 | One line's push and pops keep the stack in step with the set of open test modules |
| Scanner.PopBelow | scripts/ci/enforce_code_guidelines:106-107 | The pop loop keeps exactly the entries up to the topmost one that is not deeper than the new depth |
| Scanner.StackEmptyExactly | scripts/ci/enforce_code_guidelines:89-92 | The stack is empty exactly when no test module is open |
| Scanner.ScannerAgreesExactly | scripts/ci/enforce_code_guidelines:76-107 | For every file the scanner yields the lines outside test modules if and only if no line outside them is under a recorded depth and every line inside one is |
| Scanner.OnlyTheseHeadersMislead | scripts/ci/enforce_code_guidelines:97-107 | Lines are hidden only by headers that open no more than they close and leaked only from modules whose header opens at least two levels |
| Scanner.ScannerAgreesOnSingleOpeners | scripts/ci/enforce_code_guidelines:76-107 | For every file whose test-module headers open exactly one level, the scanner yields exactly the lines outside the test modules, at any nesting depth |
| ScannerHeaders.HidingExactly | scripts/ci/enforce_code_guidelines:97-107 | Where no test-module header directly follows another, no line is hidden if and only if every header that opens no more than it closes is the last line or stands in a module that goes on after it |
| ScannerHeaders.LeakingExactly | scripts/ci/enforce_code_guidelines:97-107 | Then no line is leaked if and only if no outermost module has a line that heads no module and is under none of the depths recorded since its header; such a header opens at least two levels |
| ScannerHeaders.ScannerAgreesWhereHeadersAreApart | scripts/ci/enforce_code_guidelines:76-107 | Where no header directly follows another, the scanner yields exactly the lines outside test modules if and only if both hold |
| ScannerHeaders.ScannerAgreesByHeaders | scripts/ci/enforce_code_guidelines:76-107 | For every file it is enough that such headers are covered and that no line of an outermost module lies deeper than its header but less deep than its recorded depth |
| ScannerHeaders.ScannerAgreesByHeadersExactly | scripts/ci/enforce_code_guidelines:76-107 | That is also necessary where headers are apart and neither they nor the lines before them close more than they open |
| ScannerTrees.SubtreesAreModules | scripts/ci/enforce_code_guidelines:76-107 | When blocks open and close line for line, the regions of test modules are the subtrees of their headers |
| ScannerTrees.ScannerAgreesWithTree | scripts/ci/enforce_code_guidelines:76-107 | Then the scanner yields exactly the lines outside those subtrees if and only if no line is hidden |
| ScannerTrees.ScannerAgreesWhenHeadersOpen | scripts/ci/enforce_code_guidelines:76-107 | In particular when every test-module header opens more than it closes |
| Scanner.OneLineModuleHides | scripts/ci/enforce_code_guidelines:97-107 | After a one-line test module a line outside every test module is hidden |
| Scanner.DoubleOpenerLeaks | scripts/ci/enforce_code_guidelines:97-107 | After the inner level of a header that opens two is closed, a line inside the test module is yielded |
| Scanner.ScannerFails | scripts/ci/enforce_code_guidelines:97-107 | Both failures at concrete files |
| Webhook.NormalizeTemplateQuickReplyCallbacks | examples/whatsapp_demoscene.rs:1104-1173 | The in-place loops compute: nothing for a body without button messages, the first fault in document order, or the body with its button messages adapted |
| Webhook.AdaptedKeepsTheReply | examples/whatsapp_demoscene.rs:1153-1164 | The adapted message is an interactive button reply with the button's payload as its id and the button's text as its title, is no button any more, and keeps its other fields |
| WebhookPaths.ReplyOfButton | examples/whatsapp_demoscene.rs:1158-1164 | Member by member: the reply has exactly a type and a button reply, and that exactly an id, the payload, and a title, the text |
| WebhookPaths.FaultExactly | examples/whatsapp_demoscene.rs:1134-1152 | Which of object, payload and text is missing, checked in this order |
| WebhookPaths.MessageAtPath | examples/whatsapp_demoscene.rs:1104-1173 | In a rewritten body the message at entry[e].changes[c].value.messages[m] is the adapted message of that path |
| WebhookPaths.AnswerByPaths | examples/whatsapp_demoscene.rs:1104-1173 | A body is refused, left alone or rewritten exactly by the messages at those paths |
| WebhookPaths.QuickReplyIsRewritten | examples/whatsapp_demoscene.rs:1158-1164 | A concrete body before and after |
| Webhook.OnlyButtonMessagesChange | examples/whatsapp_demoscene.rs:1104-1173 | Nothing but messages changes; all counts and the order stay; messages that are not buttons are untouched |
| Webhook.NoButtonIsLeft | examples/whatsapp_demoscene.rs:1104-1173 | A rewritten body holds no button message |
| Webhook.SecondPassFindsNothing | examples/whatsapp_demoscene.rs:1104-1173 | A second pass over a rewritten body returns None |
| Webhook.RefusedExactly | examples/whatsapp_demoscene.rs:1129-1152 | A body is refused exactly when some button message lacks its object, its payload or its text |
| Webhook.MapBodyTwice | examples/whatsapp_demoscene.rs:1104-1173 | Replacing a body's messages twice is replacing them once by the composition |
| StatusUpdates.StatusUpdatesIfOnly | examples/whatsapp_demoscene.rs:1078-1102 | The path takes a body exactly when it reads as the account's envelope, every change has statuses and no messages, and there is an update; it returns all updates in order |
| StatusOrder.TakenInOrder | examples/whatsapp_demoscene.rs:1084-1099 | Update k of change c of entry e of a taken body is in the answer at the number of updates before it, and the answer holds as many as there are |
| StatusOrder.PositionIsOfUpdate | examples/whatsapp_demoscene.rs:1084-1099 | Every place of the answer is the position of an update, so nothing is added |
| StatusOrder.PositionsFollowDocument | examples/whatsapp_demoscene.rs:1084-1099 | Earlier in the document is earlier in the answer |
| StatusOrder.TakenByChanges | examples/whatsapp_demoscene.rs:1087-1101 | The account's envelope is taken exactly when each change has statuses and no messages and at least one an update |
| StatusOrder.OtherAccountsAreLeft | examples/whatsapp_demoscene.rs:1080-1082 | A body of another account, in either form, is never taken |
| StatusOrder.NamedUpdateReads | examples/whatsapp_demoscene.rs:594-611 | Every member of an update and its error ends up in its own field |
| StatusUpdates.MessagesAreNeverTaken | examples/whatsapp_demoscene.rs:1087-1094 | A body with a non-null messages member, written by name or by position, is never taken |
| StatusUpdates.ButtonsReachTheRewriter | examples/whatsapp_demoscene.rs:996-1019 | A body with a template quick reply is never swallowed by the status path |
| StatusUpdates.TakenExactly | examples/whatsapp_demoscene.rs:1078-1102 | An envelope of the account with statuses and an update is taken if and only if every messages member is absent or null |
| StatusUpdates.NullMessagesAreTaken | examples/whatsapp_demoscene.rs:589-593 | A body whose messages member is null is taken |
| ProgressRuns.SendsAreSpaced | examples/whatsapp_demoscene.rs:1402-1410 | In every run each send of a benchmark starts at least 6 s after each of its earlier completed ones |
| ProgressRuns.ReportsAreFew | examples/whatsapp_demoscene.rs:1366-1378 | Within T a benchmark attempts at most T/60 s + 1 progress reports |
| ProgressReports.ReportIsAttemptedExactly | examples/whatsapp_demoscene.rs:1316-1321 | A report is attempted with its own message exactly when a minute has passed since all of the benchmark's samples; otherwise nothing is sent |
| ProgressReports.FinishIsAttemptedExactly | examples/whatsapp_demoscene.rs:1379-1389 | A successful finish sends the last message reported exactly when that is not the last one that got through |
| ProgressReports.DelayIsExact | examples/whatsapp_demoscene.rs:1338-1342 | The delay reaches exactly to 6 s after the benchmark's last delivered send, and there is none when that is past |
| ProgressReports.FinishIsLast | examples/whatsapp_demoscene.rs:1544-1566 | After its finishing call a benchmark reports nothing more |
| ProgressRuns.OneBenchmarkAtATime | examples/whatsapp_demoscene.rs:1544-1548 | At most one benchmark runs, and a start is refused exactly when one is running |
| ProgressRuns.LatestIsLastReported | examples/whatsapp_demoscene.rs:1316-1321 | The reporter's latest message is the last one it was given, sampled or not |
| ProgressRuns.FinishLeavesLatestSent | examples/whatsapp_demoscene.rs:1379-1389 | After a successful finish_success the last message that got through is the last one reported |
| ProgressSpacing.SecondBenchmarkIsTooQuick | examples/whatsapp_demoscene.rs:1358-1364 | For any gap below 6 s there is a run in which one benchmark ends with a delivered finish and the first report of the next one to the same chat gets through that gap later |
| ProgressSpacing.NextBenchmarkIsSpacedExactly | examples/whatsapp_demoscene.rs:1402-1410 | When none is running and one is started for a chat at an instant, all later sends to the chat in all continuations keep 6 s from all its earlier delivered ones if and only if each of these was recorded 6 s before that instant |
| ProgressSpacing.PatientRunsAreSpaced | examples/whatsapp_demoscene.rs:1544-1548 | If every granted start comes 6 s after the delivered sends to its chat, every two sends of the process to one chat are spaced |
| ProgressSpacing.TwoFinishesCanBePatient | examples/whatsapp_demoscene.rs:1379-1389 | Such a run with two benchmarks of one chat, the finishes of both delivered |
| ProgressRuns.InvAlways | examples/whatsapp_demoscene.rs:1306-1410 | Every reachable state satisfies the invariants about permit, reporter fields, logs and spacing |
| ProgressReporter.Reporter.Observe | examples/whatsapp_demoscene.rs:1316-1321 | Keeps the message and says whether a minute has passed since the last sample |
| ProgressReporter.Reporter.SendLocked | examples/whatsapp_demoscene.rs:1402-1410 | Waits out the pair interval, sends, and records exactly the sends that got through |
| ProgressReporter.Reporter.Report | examples/whatsapp_demoscene.rs:1366-1378 | Every execution is a report call of the machine, in time and with its sends |
| ProgressReporter.Reporter.FinishSuccess | examples/whatsapp_demoscene.rs:1379-1389 | Every execution is a finish call of the machine; on success the latest message equals the last one sent |
| ProgressReporter.Reporter.FinishFailure | examples/whatsapp_demoscene.rs:1391-1400 | Every execution is a failure call of the machine; the failure is the latest message even if its send fails |

## Left out

- Cancellation of a future while it is queued at a gate or in the middle of a send.
- Throttling, and the length of idle timeouts: an idle timeout is a step that may happen whenever a dialog is listening.
- Tokio, the channel library, LMDB, redb and SQLite internals: their contracts are assumed as described in the module comments.
- Aliasing of channel handles: channels are named by the dialog they belong to.
- UserRouter.Service.RouteMo: states routing without interference; FindOrCreateDialog and SendMo are its two halves, and interleavings are covered by the step machine.
- UserRouter.Service.CloseDialog: states closing without interference; RemoveRoute and CloseSender are its two halves, and interleavings are covered by the step machine.
- Rounding of `f64`, ties in two-decimal formatting, and `i32` overflow in the chart planner.
- Drawing, fonts, PNG encoding and rasterisation of charts; colours and line widths of layers.
- Benchmarks.IngestThenQuery: requires at most 10^12 records, because the payload copy panics beyond.
- The staged files of an export are written in one step: nothing outside the staging directory changes meanwhile.
- PublisherSafety.IdsNameReports: assumes that the digest is collision-free and that JSON rendering loses nothing.
- PublisherRuns.ExportCanFinish: assumes that the digest is collision-free, as an export is refused on a collision.
- The markers of the index template, their replacement and the escaping of URLs: rendering is a parameter.
- `ensure_diagrams`, the HTTP interface of the management server, and its JavaScript.
- Unicode classes in the scanner: `\s`, `\w`, `strip` and line splitting are modelled for ASCII.
- JSON text: a body is its parsed value, so duplicate names within one object are not modelled.
- Signature checks, Telegram handlers, menus, TLS, Meta and Gemini clients: plumbing over libraries.
- The replies sent to somebody who starts a second benchmark: they are counted as refusals and are not rate-limited.
- Braces within one line: the scanner and the regions of test modules are compared at line ends, as the code counts them.
- `scripts/management/management_tool` is not part of this model.
