# Verified model of binance-th

`binance_th` is an async client for the Binance TH exchange. Its HTTP and socket layers are plumbing, but
inside it are protocols that must stay right over every run: a replica of the exchange's order book kept
current through a lossy queue, a self-healing view of the open orders, a pacer shared by many tasks, order
placement against a server whose replies may be lost, and exact decimal arithmetic. This project models
those protocols in Dafny and proves what they promise, for every input, every interleaving and every server.

Check it with `dafny verify dfyconfig.toml`.

## How the model reads

- Code between two awaits is one atomic step. Where tasks, sockets and the exchange interleave, a step
  system (`Action`, `Next`, `After`) quantifies over every order of the steps.
- The code's mutable objects are classes whose methods are proved against pure functions: `LocalOrderBook`,
  `Subscription`, `MarketConnection`, `LocalOrderView`, `Window`, `DualWindowRateLimiter`, `Client`,
  `OrdersClient`. The loops (`run`, `_apply_side`, `iter_time_windows`, the retry loop, `acquire`,
  `_base36`) are loops with invariants. The theorems are then about the pure functions.
- An async generator is a method that returns everything it yields. The code yields one mutable object
  again and again; the model keeps its value at each yield. A provider that is awaited is a sequence of
  answers; asking beyond its end is the provider raising.
- Decimals are integers at one common scale, except in `DecimalPrecision`, which models the 28-digit
  rounding of the default decimal context. The limiter's clock counts integer ticks, the retry delays are
  reals.
- The exchange is an opponent. In `Transport` and `Placement` it is any function of the whole history that
  chooses each reply and whether, and when, an order is placed; in `DepthServer` it is any history of the
  book; in `UserDataFeed` it emits any reports at any time and any socket may drop at any time.

| file | what it models |
|---|---|
| `LocalOrderBook.dfy` | the book object, seeding, applying levels, ordered reads |
| `OrderBookSync.dfy` | the snapshot, drop, bracket, apply, re-snapshot loop, and exactly when it re-snapshots |
| `DepthServer.dfy` | the exchange's book as a history by update id; refinement for truncated and full snapshots |
| `Subscription.dfy` | the bounded drop-oldest queue and what every interleaving of offer and get keeps |
| `RingedOrderBook.dfy` | the book fed through that queue |
| `Connection.dfy` | ref-counted subscriptions, live frames, reconnects, and what the exchange has subscribed |
| `OrderView.dfy` | the order view, one order at a time; reordering, repetition, resurrection |
| `OrderTracker.dfy` | the seed, replay, re-seed loop |
| `UserDataFeed.dfy` | exchange, two sockets, queue and tracker together; convergence and self-healing |
| `TrackerDivergence.dfy` | runs that settle on a wrong view, and exactly when every run of a new tracker converges |
| `RateLimit.dfy`, `RateHistory.dfy` | the windows, one locked section and reseeding; then every interleaving of tasks, usage headers and reseeds |
| `ReseedHistory.dfy` | which sources of reseed rules keep every run within the limit |
| `Pagination.dfy`, `PagedServer.dfy` | the generator against any server; then over a fixed sorted list |
| `Transport.dfy`, `Placement.dfy` | one attempt with time resync, the retry loop; then `create_order` and reconciliation |
| `Validation.dfy`, `DecimalPrecision.dfy` | snapping and pre-trade validation; the decimal context |
| `Idempotency.dfy` | base 36 and minted client order ids |
| `Prelude.dfy`, `Arithmetic.dfy` | shared vocabulary; products and quotients |

## Where the code and its documentation differ

The model follows the code. For each difference there is an exact condition, and a case that shows it
really fails.

| what the documentation says | what the code does | exactly when | a failing case |
|---|---|---|---|
| ADR-0008, line 38: the local state converges to exchange truth | the first connect of a socket broadcasts no reconnect signal (`binance_th/userstream.py:155-157`) | without overflow every run of a new tracker converges if and only if both sockets had been connected once when it was created: `ConvergesIffBothEverUp` | `SeedBeforeFirstConnectDiverges`, from every start with a never-connected socket |
| the same | the queue, bounded at 1024 items (`binance_th/stream.py:52`), can drop the reconnect signal itself | with seeds only after the first connects every run converges if and only if the queue has no bound: `ConvergesIffUnbounded`; a single run converges if nothing was dropped since a fresh seed was last due: `TrackerConverges`, `ReconnectRestoresTrust` | `LostSignalDiverges`, for every bound and every start |
| `binance_th/ordertracker.py:35`: a view of currently-open orders | a late non-terminal report re-adds a removed order, because nothing is left to compare its time with (`binance_th/ordertracker.py:47-53`) | `AbsentUnlessActiveReport` | `LateReportResurrects` |
| `docs/concepts/errors-and-reconciliation.md`, line 68: the client never does a second POST | it resends once after code -1021 (`binance_th/transport.py:195-203`) | two posts if and only if the first got out, was rejected with -1021 and the resync succeeded: `AtMostTwoPosts` | `SecondPostPlacesOrder` |
| the same page, line 39: any 5xx is reconciled | a 5xx whose body carries a non-zero code is raised as that code's error (`binance_th/errors.py:96-97`) | `ReconcilesIff`, `SettledByPostReply` | `CodedFaultHidesOrder` |
| the same page, line 52: a failed reconcile query raises `OrderUnknown(resubmittable=False)` | only an API error is converted (`binance_th/orders.py:254`); a timeout, a network error and a reply that cannot be read are raised unchanged | `OrderUnknown` is raised if and only if the last reply of the whole call is an HTTP error: `ReconciledByLastReply` | `QueryTimeoutHidesOrder`, `UnreadableQueryHidesOrder` |
| the same page, line 50: `resubmittable=True` means definitely not placed | the query can be answered before a delayed request takes effect | `OutcomeIsTruthful` | `LateOrderIsResubmitted` |
| `binance_th/validation.py:24-35`: snapping floors | it rounds toward zero, and nothing checks a stop price | `SnapNeverRaisesIff` | `NegativeStopIsRaised` |
| the same | the quotient is first rounded half-even to 28 digits | `TruncationExactIff`, `SnapInContextIff`; with the product rounded too, for every price: `SnapNotRaisedIff`; never below 2 * 10^27 units: `TruncationIsExact` | `LongPriceIsRaised`: the 28-digit price 2 * 10^27 + 3 with tick 2 is raised by one; `LongProductIsRaised` |
| ADR-0016, line 25: each row exactly once | iteration stops at a timestamp that fills a page (`binance_th/pagination.py:51-52`) | `CompleteIffNoEarlyStall` | `FullTimestampLosesRows` |
| `binance_th/ratelimit.py:3-8`: a window cannot over-admit | a call heavier than the limit is admitted to an empty window (line 98) | every period stays within the limit if and only if no single charge exceeds it: `NoPeriodOverAdmitsIff` | `OversizedIsAdmitted` |
| the same | a reseed that drops a window forgets its usage (lines 213-230) | over all runs with reseeds from given rule lists the period stays within the limit if and only if every list keeps the window, or none does: `WithinIffKeptByAllOrNone` | `DroppedWindowForgets`, for any two lists without and with the window |
| the connect URL already encodes `desired` (`binance_th/stream.py:242`) | a stream subscribed while a connect is in flight is neither in its URL nor sent as a frame | `ServerFollowsIffNoDrift` | `SubscribeInFlightDrifts` |

## Model

| member | source | states |
|---|---|---|
| LocalOrderBooks.SeedHoldsLastListing | binance_th/orderbook.py:52-53 | seeding holds exactly the listed prices, each with the quantity of the last entry that lists it |
| LocalOrderBooks.ApplyTakesLastListing | binance_th/orderbook.py:62-68 | by the entries alone: the last entry for a price sets its quantity or, if zero, removes it; a price no entry lists stays as it was |
| LocalOrderBooks.ApplyLevelsAt | binance_th/orderbook.py:62-68 | applying a level list decides each price by its last listing, read as a quantity with zero for an absent price |
| LocalOrderBooks.BestPrice | binance_th/orderbook.py:70-82 | the best of a non-empty set of prices is a member that nothing beats |
| LocalOrderBooks.SortedPrices | binance_th/orderbook.py:84-90 | every price once, in strict price order |
| LocalOrderBooks.TopLevelsAreBest | binance_th/orderbook.py:84-90 | a top-n read shows the n best held levels in strict order (for a negative n all but the worst ones), and nothing left out is better than anything shown |
| LocalOrderBooks.LocalOrderBook.constructor | binance_th/orderbook.py:44-48 | a new book is empty at id -1 |
| LocalOrderBooks.LocalOrderBook.Seed | binance_th/orderbook.py:50-54 | both sides and the id are replaced by the snapshot's, whatever the book held; SeedHoldsLastListing says what that is |
| LocalOrderBooks.LocalOrderBook.Apply | binance_th/orderbook.py:56-60 | both sides take their own levels and the id becomes the diff's final id |
| LocalOrderBooks.LocalOrderBook.ApplySide | binance_th/orderbook.py:62-68 | the loop over one side's levels is the fold whose effect on each price ApplyLevelsAt states |
| LocalOrderBooks.LocalOrderBook.BestBid | binance_th/orderbook.py:70-75 | None exactly when there are no bids, else a held level whose price no bid exceeds |
| LocalOrderBooks.LocalOrderBook.BestAsk | binance_th/orderbook.py:77-82 | None exactly when there are no asks, else a held level whose price no ask undercuts |
| LocalOrderBooks.LocalOrderBook.BidsTop | binance_th/orderbook.py:84-86 | min(n, depth) held bids, strictly falling in price |
| LocalOrderBooks.LocalOrderBook.AsksTop | binance_th/orderbook.py:88-90 | min(n, depth) held asks, strictly rising in price |
| OrderBookSync.Run | binance_th/orderbook.py:101-132 | the generator with its mutable book yields exactly the run of the recursive specification, and ends as it does, for every provider and stream |
| OrderBookSync.JudgeIgnoresFirst | binance_th/orderbook.py:117-126 | a diff is stale if and only if it ends at or before the last id, and otherwise a gap if and only if it starts beyond the next one: the bracket check of the first diff and the gap check are the same test |
| OrderBookSync.SyncChained | binance_th/orderbook.py:116-129 | whatever arrives, each applied diff extends the previous yield's book without a hole, and ids strictly increase until a re-snapshot |
| OrderBookSync.SyncUsesInputs | binance_th/orderbook.py:107-129 | every epoch is seeded by a provided snapshot and applies only delivered diffs |
| OrderBookSync.SnapshotsBounded | binance_th/orderbook.py:107-132 | each re-snapshot consumes a diff: at most one snapshot more than diffs, and the run fails only if the provider does |
| OrderBookSync.ResyncExactlyWhenUncovered | binance_th/orderbook.py:116-132 | an epoch survives the remaining stream if and only if no diff starts beyond the id reached, and then ends at the furthest id seen |
| OrderBookSync.ContiguousIsCovered | binance_th/orderbook.py:117-126 | a contiguous stream that joins the snapshot leaves no gap |
| OrderBookSync.CoveredNeedsOneSnapshot | binance_th/orderbook.py:107-132 | over a covered stream the whole run uses one snapshot and ends at the furthest id |
| OrderBookSync.ResyncHeals | binance_th/orderbook.py:107-132 | a snapshot at or past the diff that triggered it, then a contiguous stream: no further re-snapshot, and the book ends at the later of the snapshot id and the last diff's id |
| DepthServer.SeedTracks | binance_th/orderbook.py:50-54 | seeding from a list of the exchange's best `limit` levels tracks its side |
| DepthServer.Unchanged | binance_th/orderbook.py:56-60 | a price no update id changed rests the same quantity at both ends |
| DepthServer.ApplyTracks | binance_th/orderbook.py:56-68 | a genuine diff starting no later than the next id moves a tracking side to its final id; overlap with the past does no harm |
| DepthServer.BooksTrackServer | binance_th/orderbook.py:101-132 | refinement with truncated snapshots: under any drops, duplicates and reordering every level of every yielded book is the exchange's at last_applied_u, and nothing inside the seeded band is missing |
| DepthServer.BooksEqualServer | binance_th/orderbook.py:101-132 | refinement with full snapshots: every yielded book equals the exchange's book at last_applied_u |
| DepthServer.SortedPrefixAgrees | binance_th/orderbook.py:84-90 | a sorted list that misses nothing at or better than its m-th entry shares its first m entries with the list it is part of |
| DepthServer.TopInsideBandIsServers | binance_th/orderbook.py:84-108 | a top-n list lying inside the band is the exchange's own list of that length, in strict price order |
| DepthServer.BestInsideBandIsServers | binance_th/orderbook.py:70-82 | a best level inside the band is the exchange's best level |
| Subscription.RingFaithful | binance_th/stream.py:160-185 | over every interleaving the queue is a suffix of what was offered, the delivered items an ordered subsequence, and offered = delivered + queued + lagged |
| Subscription.LosslessIffNeverLagged | binance_th/stream.py:157-168 | delivered followed by queued is everything offered, in order, if and only if lagged is 0 |
| Subscription.LaggedNeverFalls | binance_th/stream.py:160-168 | an offer lags by one exactly when the queue holds its bound, and otherwise appends; nothing else changes the counter |
| Subscription.Subscription.constructor | binance_th/stream.py:155-158 | an empty queue with nothing lagged |
| Subscription.Subscription.Offer | binance_th/stream.py:160-168 | enqueues, dropping the oldest item and counting it when full, and keeps the history faithful |
| Subscription.Subscription.Fault | binance_th/stream.py:170-171 | a fault travels through the same queue |
| Subscription.Subscription.Close | binance_th/stream.py:173-174 | the close sentinel travels through the same queue, so it may push out an item |
| Subscription.Subscription.Next | binance_th/stream.py:179-185 | takes the oldest item and yields it, raises the fault, or stops |
| RingedOrderBook.RingedBooksTrackServer | binance_th/stream.py:441-462 | whatever the queue dropped, every book built from what it delivered tracks the exchange |
| RingedOrderBook.PayloadsAreItems | binance_th/stream.py:179-185 | the book sees the delivered items up to the first sentinel, and no further |
| RingedOrderBook.PreviousDiffAccountedFor | binance_th/orderbook.py:116-129 | an applied diff of a contiguous stream directly follows the previous diff, or a snapshot that contains it |
| RingedOrderBook.EpochHasNoHole | binance_th/orderbook.py:107-129 | each earlier diff is in the epoch's snapshot or was applied in that epoch |
| RingedOrderBook.LostDiffForcesResnapshot | binance_th/orderbook.py:116-129 | a diff lost anywhere, under any duplication and reordering of the others, forces a snapshot at or past it before any later diff is applied |
| RingedOrderBook.DroppedDiffForcesResnapshot | binance_th/stream.py:160-168 | in particular a diff the queue dropped |
| RingedOrderBook.UndroppedIsPrefix | binance_th/stream.py:160-185 | with nothing lagged the consumer has received a prefix of the stream, one diff per take |
| RingedOrderBook.UndroppedStreamNeedsOneSnapshot | binance_th/stream.py:441-462 | with nothing lagged and a contiguous stream that joins the first snapshot, one snapshot suffices and the book reaches the last delivered diff |
| Connection.DesiredIsSubscribed | binance_th/stream.py:215-236 | in every run `desired` is exactly the set of streams with a live subscriber, under double and foreign unsubscribes |
| Connection.FramesSent | binance_th/stream.py:215-236 | on a live socket the first subscriber of a stream sends one subscribe frame, the last to leave one unsubscribe frame, and nobody else sends |
| Connection.RunDiffers | binance_th/stream.py:238-247 | once the frames in flight are handled, the exchange and the client differ on exactly the drifted streams |
| Connection.ServerFollowsIffNoDrift | binance_th/stream.py:273-303 | at a quiescent point the exchange's set equals `desired` if and only if nothing drifted while a connect was in flight |
| Connection.ServerFollowsDesired | binance_th/stream.py:273-303 | so with quiet connects it equals `desired` at every quiescent point, across reconnects |
| Connection.SubscribeInFlightDrifts | binance_th/stream.py:238-242 | a stream first subscribed during a connect is desired and never asked for |
| Connection.MarketConnection.constructor | binance_th/stream.py:207-213 | nothing desired, no subscribers, offline |
| Connection.MarketConnection.Subscribe | binance_th/stream.py:215-226 | adds one subscriber; only the first one of a stream sends a frame |
| Connection.MarketConnection.Unsubscribe | binance_th/stream.py:228-236 | removes that subscriber only; the last one clears the stream and sends a frame |
| Connection.MarketConnection.Apply | binance_th/stream.py:238-247 | a frame is appended when a socket is live, and nothing happens otherwise |
| OrderViews.LocalOrderView.constructor | binance_th/ordertracker.py:37-38 | an empty view |
| OrderViews.LocalOrderView.Seed | binance_th/ordertracker.py:40-42 | replaces the whole view by the seeded one, whose contents SeedHoldsLastActive states |
| OrderViews.SeedHoldsLastActive | binance_th/ordertracker.py:40-42 | an id is held if and only if the reply lists an active order with it, and then the last active one listed; an inactive order neither enters nor displaces |
| OrderViews.HeldOrdersAreOpen | binance_th/ordertracker.py:40-60 | after any seed and any reports, what is held for an id has that id and is open |
| OrderViews.ReportedOrder | binance_th/models/userdata.py:118-149 | field by field: exactly FILLED, CANCELED, REJECTED and EXPIRED end an order, an unknown status counts as new, and absent fields fall back to the event time, zero and openness |
| OrderViews.AppliedByWire | binance_th/ordertracker.py:44-53 | by the wire alone: an older report changes nothing, one of the four ending statuses removes the order, any other holds it with the report's time and quantities; other orders are untouched |
| OrderViews.LocalOrderView.Apply | binance_th/ordertracker.py:44-53 | the stepwise update is the one AppliedByWire describes |
| OrderViews.EntryDependsOnOwnReports | binance_th/ordertracker.py:44-53 | the final entry of an order is what its own reports alone produce |
| OrderViews.ViewIgnoresCrossOrderTiming | binance_th/ordertracker.py:44-53 | two deliveries that agree order by order give the same view |
| OrderViews.InterleavingsAgree | binance_th/ordertracker.py:44-53 | every interleaving of two streams with disjoint order ids gives the same view |
| OrderViews.ApplyIsIdempotent | binance_th/ordertracker.py:44-53 | applying a report twice is applying it once |
| OrderViews.NewestActiveReportWins | binance_th/models/userdata.py:118-149 | among active reports and the seed the newest wins, a report winning a tie with the seed |
| OrderViews.ActiveReportsCommute | binance_th/ordertracker.py:44-53 | for active reports with distinct update times every permutation and repetition gives the same view |
| OrderViews.AbsentUnlessActiveReport | binance_th/ordertracker.py:47-53 | an absent order stays absent throughout if and only if no report calls it open |
| OrderViews.LateReportResurrects | binance_th/ordertracker.py:47-53 | filled at 3, then a partial fill of time 2 arrives: the order is back |
| OrderTracker.Run | binance_th/ordertracker.py:69-90 | the generator with its mutable view yields exactly the run of the recursive specification, for every provider and event stream |
| OrderTracker.OneSeedPerReconnect | binance_th/ordertracker.py:75-90 | the provider is asked once at the start and once per signal: the run ends normally if and only if it can answer that often |
| OrderTracker.TrackOneMoreEvent | binance_th/ordertracker.py:81-87 | one more event extends a run by exactly its own step |
| OrderTracker.TrackOneMoreSeed | binance_th/ordertracker.py:76-78 | one more REST answer extends a waiting run by exactly the seeded view |
| UserDataFeed.StepKeepsSound | binance_th/userstream.py:155-171 | every step of exchange, sockets, queue and tracker keeps the system sound, whatever the queue drops |
| UserDataFeed.StepKeepsCorrect | binance_th/ordertracker.py:69-90 | every step that drops nothing keeps the view right up to what is still pending |
| UserDataFeed.DrainedOrderIsRight | binance_th/ordertracker.py:69-90 | in a trusted run an order that no queued or unread report mentions is in the view exactly as at the exchange, so ghosts show only before the drain |
| UserDataFeed.TrackerConverges | binance_th/userstream.py:322-342 | over any number of reconnects and overflows, once drained the view is exactly the exchange's open orders, if each order's times never decrease and, since a fresh seed was last due, nothing was dropped and both sockets had been connected once |
| UserDataFeed.LosslessIsTrusted | binance_th/userstream.py:322-342 | a run that never overflowed and took no seed before the first connects meets that condition |
| UserDataFeed.ReconnectRestoresTrust | binance_th/userstream.py:155-156 | whatever was lost before, a reconnect meets that condition again |
| UserDataFeed.TrackerIsTheLoop | binance_th/ordertracker.py:69-90 | in every interleaving the tracker's view is what the loop yields last on the answers and events delivered so far |
| TrackerDivergence.SeedBeforeFirstConnectDiverges | binance_th/userstream.py:155-157 | from every start with a never-connected socket, whatever the other does, there is a run without overflow that settles on a wrong view |
| TrackerDivergence.LostSignalDiverges | binance_th/userstream.py:263-266 | for every queue bound and from every start there is a run with one dropped item, the signal, pushed out while a REST answer is on its way, that settles on a wrong view |
| TrackerDivergence.ConvergesIffBothEverUp | binance_th/userstream.py:155-157 | without overflow every run converges if and only if both sockets had been connected once at the start |
| TrackerDivergence.ConvergesIffUnbounded | binance_th/stream.py:160-168 | with seeds only after the first connects every run converges if and only if the queue has no bound |
| TrackerDivergence.AnswerIsTruthful | binance_th/ordertracker.py:40-42 | for every account history there is a REST reply from which the seeded view is exactly its open orders |
| TrackerDivergence.OutageMissesReport | binance_th/userstream.py:155-157 | from every state a report sent during an outage is lost, and the connect after it queues a signal if and only if it is not the socket's first |
| RateLimit.RollLandsInPeriod | binance_th/ratelimit.py:86-94 | after a roll the clock is inside the window's period |
| RateLimit.JumpIsWalk | binance_th/ratelimit.py:91-93 | the one jump of the code lands where walking the grid period by period does |
| RateLimit.ZeroWaitIffFits | binance_th/ratelimit.py:96-101 | a rolled window asks for no wait if and only if the charge fits |
| RateLimit.FitsOnceWaitIsOver | binance_th/ratelimit.py:86-101 | at any later time the window admits the charge if and only if the computed wait is over |
| RateLimit.AdmitsIffAllFit | binance_th/ratelimit.py:171-184 | the call is admitted if and only if every window it charges has room |
| RateLimit.AllOrNothing | binance_th/ratelimit.py:159-184 | a call charges all its windows by their own amounts, or none |
| RateLimit.TriedByKind | binance_th/ratelimit.py:159-184 | kind by kind: a call that does not mutate leaves order windows alone; every other window is rolled and, if every window of the call has room, charged the weight, one request, or one order |
| RateLimit.RolledByClock | binance_th/ratelimit.py:86-94 | rolling by the clock: anchored when new, unchanged inside the period, else emptied and moved by whole durations |
| RateLimit.ReportedRaises | binance_th/ratelimit.py:205-209 | a usage header leaves the named window with the larger of its own and the reported count, and every other window as it was |
| RateLimit.DurationsInSeconds | binance_th/ratelimit.py:29-34 | a minute is sixty seconds, an hour sixty minutes, a day twenty-four hours |
| RateLimit.RuleForIsLast | binance_th/ratelimit.py:214-221 | of several rules for a key the last one counts |
| RateLimit.OneSleepSuffices | binance_th/ratelimit.py:173-185 | undisturbed, a later try is admitted if and only if the requested sleep is over |
| RateLimit.Window.constructor | binance_th/ratelimit.py:69-79 | unused and not anchored |
| RateLimit.Window.Roll | binance_th/ratelimit.py:86-94 | anchors on first use, else jumps to where walking its own grid period by period leads, and resets the count when a period is over |
| RateLimit.DualWindowRateLimiter.constructor | binance_th/ratelimit.py:128-147 | one unused window per key, under the last rule given for it |
| RateLimit.DualWindowRateLimiter.RollAndWait | binance_th/ratelimit.py:175-180 | rolls exactly the windows the call charges and returns the longest wait |
| RateLimit.DualWindowRateLimiter.Charge | binance_th/ratelimit.py:182-183 | charges exactly the windows the call applies to |
| RateLimit.DualWindowRateLimiter.TryAcquire | binance_th/ratelimit.py:174-184 | the locked section is one atomic step of the interleaving model |
| RateLimit.DualWindowRateLimiter.Report | binance_th/ratelimit.py:205-209 | rolls the named window and raises its count to the reported one, never down; the others are untouched, and an unknown key changes nothing |
| RateLimit.DualWindowRateLimiter.Adopt | binance_th/ratelimit.py:216-229 | one rule: the held window object updated in place, every other one untouched, or a new unused one |
| RateLimit.DualWindowRateLimiter.Reseed | binance_th/ratelimit.py:211-230 | the loop over shared, mutated window objects is the fold whose effect on each key ReseededAt states; every window is a held one or new |
| RateLimit.ReseededAt | binance_th/ratelimit.py:211-230 | per key: no rule, no window; otherwise the last rule's limit with the kept window's count and anchor, or an unused window |
| RateLimit.ReseededSound | binance_th/ratelimit.py:213-230 | one window per key and positive durations, whatever rules repeat |
| RateLimit.DualWindowRateLimiter.Acquire | binance_th/ratelimit.py:171-185 | alone, the whole loop sleeps at most once, for the first computed wait, and leaves every window charged once |
| RateHistory.RunAccounted | binance_th/ratelimit.py:171-209 | over every interleaving of tasks, usage headers and reseeds that keep a window, its accounting invariant holds |
| RateHistory.AdmittedByKind | binance_th/ratelimit.py:159-184 | what a try admits to a window: the weight, one request, or for a mutating call one order, and only when every window of the call has room |
| RateHistory.PeriodsNeverOverAdmit | binance_th/ratelimit.py:171-209 | admissions of the current period are at most `used`, and every period admits at most the highest limit in force (the limit itself without a reseed) or one single charge, admitted when `used` was 0 |
| RateHistory.NoPeriodOverAdmitsIff | binance_th/ratelimit.py:96-101 | every period stays within that limit if and only if no single admitted charge exceeds it |
| RateHistory.OversizedIsAdmitted | binance_th/ratelimit.py:98-99 | any call heavier than the limit is admitted to an unused window, and its period over-admits |
| RateHistory.AnyIntervalAtMostTwice | binance_th/ratelimit.py:86-101 | any half-open interval of one duration holds at most twice max(highest limit in force, largest charge) |
| RateHistory.TwiceIsReached | binance_th/ratelimit.py:86-101 | for every limit and duration above one tick a run reaches that factor two |
| RateHistory.ReportedUsageIsRespected | binance_th/ratelimit.py:187-209 | after a usage header, what it reported and all that is admitted until the period ends stay within the limit together, in every interleaving |
| ReseedHistory.ReseededUnused | binance_th/ratelimit.py:213-230 | a reseed that keeps no used window leaves every window unused |
| ReseedHistory.DroppedWindowForgets | binance_th/ratelimit.py:213-230 | for any rule list without the window's key and any later one with it, one period admits twice the limit while `used` shows one |
| ReseedHistory.GoneForGood | binance_th/ratelimit.py:213-230 | a window that no list brings back is gone after the first reseed of any run |
| ReseedHistory.WithinIffKeptByAllOrNone | binance_th/ratelimit.py:211-230 | for every kind of window: over all runs of calls charging at most the limit, usage headers and reseeds from given lists, the current period stays within the limit if and only if every list keeps the window or none does |
| Pagination.YieldPage | binance_th/pagination.py:41-47 | yields the unseen rows before the end time and says whether the end time was met |
| Pagination.IterTimeWindows | binance_th/pagination.py:33-55 | the loop is the recursive specification, and against any server it fetches at most max(0, end - start) times |
| PagedServer.YieldsUpToFirstStall | binance_th/pagination.py:37-55 | over a fixed sorted list the rows are the wanted ones, in order, up to the end of the first page filled by one timestamp |
| PagedServer.YieldsPrefixOfWanted | binance_th/pagination.py:33-55 | always a prefix of the rows with start <= time < end |
| PagedServer.YieldsEachRowOnce | binance_th/pagination.py:45-46 | no row is yielded twice |
| PagedServer.CompleteIffNoEarlyStall | binance_th/pagination.py:50-55 | all wanted rows are yielded if and only if no timestamp fills a page with wanted rows left beyond it |
| PagedServer.CompleteWhenTimestampsAreSmall | binance_th/pagination.py:33-55 | in particular when every timestamp has fewer than `page_limit` rows |
| PagedServer.ReachAllIff | binance_th/pagination.py:48-55 | where the iteration stops, by the page-filling timestamps alone |
| PagedServer.FullTimestampLosesRows | binance_th/pagination.py:51-52 | three rows, pages of two, two rows at one time: the third is wanted and never yielded |
| Transport.Client.constructor | binance_th/transport.py:119-142 | nothing sent, time not synchronised |
| Transport.Client.DoSend | binance_th/transport.py:273-295 | one exchange is appended and classified |
| Transport.Client.DoSyncTime | binance_th/transport.py:211-226 | one time exchange; synchronised only if it is a time reply |
| Transport.Client.DoExecute | binance_th/transport.py:252-295 | a signed request synchronises first if needed, then is sent once |
| Transport.Client.DoAttempt | binance_th/transport.py:195-203 | one resync and one resend after code -1021, otherwise the error as it is |
| Transport.Client.DoRequest | binance_th/retry.py:50-66 | the retry loop with its sleeps is the recursive specification |
| Transport.ExecuteSendsOnce | binance_th/transport.py:252-295 | the request goes out once if and only if time is or gets synchronised, and then its reply decides; otherwise the call failed |
| Transport.OutcomeByReply | binance_th/errors.py:90-147 | the class of every reply by its status and code, and which ones keep their Retry-After |
| Transport.TimestampReplies | binance_th/transport.py:200 | a timestamp error is an HTTP error with code -1021 |
| Transport.UnsignedIsSentOnce | binance_th/transport.py:198-203 | an unsigned request is one send, never resent |
| Transport.AttemptSendsTwice | binance_th/transport.py:195-203 | at most two sends, and two if and only if the first got out, was rejected with code -1021 and the resync succeeded; the last reply decides unless that resync failed |
| Transport.RetryEndsWithLast | binance_th/retry.py:58-66 | the result of a call is what its very last reply means, except that a time exchange answered without the time is foreign |
| Transport.RetryByReply | binance_th/retry.py:58-73 | a read sleeps and tries again exactly after a timeout, a network error, or a 5xx, 429 or 418 without a non-zero code, while retries are left, and sleeps the Retry-After of a 429 or 418 or else the jittered step; an order post never does |
| Transport.GivesUpOnlyWhenExhausted | binance_th/retry.py:58-66 | a read ends on such a reply only after all its retries |
| Transport.RetryAfterIsSlept | binance_th/retry.py:68-72 | a 429 with Retry-After and then the order: the read sleeps that long and returns the order |
| Transport.DefaultSchedule | binance_th/retry.py:34-40 | the default steps are 0.5, 1, 2, 4 and then 8 seconds |
| Transport.RetryCounts | binance_th/retry.py:58-66 | from attempt k on, at most 2*(max_retries-k+1) sends of the own path and max_retries-k sleeps |
| Transport.RetryBackoff | binance_th/retry.py:68-73 | without Retry-After the sleeps are within the capped exponential schedule |
| Transport.ReadIsBounded | binance_th/transport.py:195-209 | for any server a read sends its own path at most 2*(max_retries+1) times, with its total backoff bounded |
| Placement.OrdersClient.constructor | binance_th/orders.py:113-114 | wraps a transport that can sign or cannot |
| Placement.OrdersClient.QueryOrder | binance_th/orders.py:163-181 | one read by client id, parsed |
| Placement.OrdersClient.DoReconcile | binance_th/orders.py:250-267 | the order, or unknown (resubmittable exactly for code -2013), and errors that are not API errors unchanged |
| Placement.OrdersClient.CreateOrder | binance_th/orders.py:113-135 | credentials, then validation, then the POST, then reconciliation of an unknown outcome only |
| Placement.PostIsOneAttempt | binance_th/transport.py:312-315 | a mutating request is never retried |
| Placement.PostsOfCreate | binance_th/orders.py:113-135 | every order request of a call belongs to its one POST attempt; reconciliation sends none |
| Placement.SentOnlyIfReady | binance_th/orders.py:113-121 | without credentials, which come first, or after a failed validation nothing is sent and that is raised; otherwise something is sent |
| Placement.AtMostTwoPosts | binance_th/orders.py:123-135 | against any server at most two POSTs, and two if and only if the first got out, was rejected with code -1021 and the resync succeeded |
| Placement.SecondPostPlacesOrder | binance_th/transport.py:200-202 | at a server with a skewed clock the second POST is sent and places the order |
| Placement.AtMostOneOrder | binance_th/orders.py:113-135 | if -1021 means rejected, one call leaves at most one order |
| Placement.ReconcileIsTruthful | binance_th/orders.py:250-267 | with truthful queries a found order exists and a not-found answer means none does |
| Placement.OutcomeIsTruthful | binance_th/orders.py:250-267 | a returned order exists exactly once; a resubmittable error means nothing came of the call if and only if no request takes effect after it |
| Placement.UnknownReplies | binance_th/errors.py:96-100 | the replies that leave the outcome unknown: timeout, network error, and a 5xx without a non-zero code |
| Placement.ReconcilesIff | binance_th/orders.py:134-135 | the client queries if and only if the deciding reply is one of those, and otherwise returns or raises that reply |
| Placement.CodedFaultHidesOrder | binance_th/errors.py:96-97 | a 503 with a code is raised without a query while the order exists |
| Placement.UnreadablePostHidesOrder | binance_th/transport.py:299-303 | a POST answered 200 with an unreadable body is raised without a query while the order exists |
| Placement.QueryTimeoutHidesOrder | binance_th/orders.py:252-254 | for every retry policy a query that keeps timing out is raised as a timeout while the order exists |
| Placement.UnreadableQueryHidesOrder | binance_th/orders.py:252-254 | a query answered 200 with an unreadable body escapes unconverted while the order exists |
| Placement.LateOrderIsResubmitted | binance_th/orders.py:255-261 | a request that takes effect after the query: resubmittable, and the order comes |
| Placement.ReconciledByLastReply | binance_th/orders.py:250-267 | after a post of unknown fate the last reply of the call decides: an order if and only if the query shows one, OrderUnknown if and only if it is an HTTP error, resubmittable if and only if that carries -2013, everything else raised as it is |
| Placement.SettledByPostReply | binance_th/orders.py:123-134 | otherwise nothing more is sent, and the post's last reply decides between an order, its API error and an unreadable body |
| Placement.RaisedTimeoutIsTheQuerys | binance_th/orders.py:113-135 | the call raises a timeout or network error if and only if the lookup before validation did, or the last reply of a reconciling query was one |
| Validation.CheckPrice | binance_th/validation.py:63-70 | no rejection if and only if the price is positive and within the non-zero bounds; otherwise the first rule it breaks |
| Validation.CheckQuantity | binance_th/validation.py:79-92 | no rejection if and only if the quantity is positive and within the non-zero bounds; otherwise the first rule it breaks |
| Validation.CheckNotional | binance_th/validation.py:94-103 | a rejection if and only if a non-zero minimum is set and the known notional, the quote quantity first, is below it |
| Validation.VerdictsDecide | binance_th/validation.py:63-103 | these declarative verdicts determine the rejection uniquely |
| Validation.ValidateOrder | binance_th/validation.py:38-109 | the stepwise body returns the snapped copy or the first rejection |
| Validation.AcceptedQuantityFollowsLot | binance_th/validation.py:50-54 | an accepted market order follows MARKET_LOT_SIZE when there is one, every other one LOT_SIZE: positive, within its bounds, the greatest multiple of its step; without a filter the quantity is as asked |
| Validation.AcceptedPricesFollowTick | binance_th/validation.py:59-73 | price and stop price rounded toward zero by the price filter's tick, or untouched without one; kind and quote quantity untouched |
| Validation.RejectionsInOrder | binance_th/validation.py:63-103 | a quantity is rejected only when the price passes, the notional only when both pass |
| Validation.SnapRoundsTowardZero | binance_th/validation.py:24-35 | for every value and tick: the multiple next to the value on the side of zero; an absent or zero tick changes nothing |
| Validation.SnapIsIdempotent | binance_th/validation.py:24-35 | snapping a snapped value changes nothing, for every sign of value and tick |
| Validation.SnapIsGreatestMultiple | binance_th/validation.py:24-35 | a non-negative value snaps to the greatest multiple of a positive tick not above it |
| Validation.SnapNeverRaisesIff | binance_th/validation.py:28-35 | snapping does not raise a value if and only if it is non-negative or already a multiple |
| Validation.NegativeStopIsRaised | binance_th/validation.py:72-73 | a stop price of -7 with tick 5 is accepted and becomes -5 |
| Validation.ValidationIsFixpoint | binance_th/validation.py:38-109 | validating an accepted result returns it unchanged |
| Validation.AcceptedIffTradable | binance_th/validation.py:49-109 | a request is accepted if and only if its snapped copy meets every rule, and that copy is the result |
| Validation.RejectionIsTrue | binance_th/validation.py:63-103 | a rejection names a rule the snapped request really breaks |
| Validation.AcceptedMeansTradable | binance_th/validation.py:49-109 | accepted price and quantity are the greatest multiples not above what was asked, positive, within the bounds after snapping, and meet the minimum notional |
| DecimalPrecision.ShortQuotient | binance_th/validation.py:28 | a quotient below 10^28 truncates to its floor, or to the next integer if and only if the gap to it is less than half a unit of the 28th digit, or half with an even result |
| DecimalPrecision.RoundsToNearestEven | binance_th/validation.py:28 | the context rounds to the nearest integer, to the even one on a tie |
| DecimalPrecision.PlacesFit | binance_th/validation.py:28 | the coefficient kept has 28 digits and no more |
| DecimalPrecision.LongQuotient | binance_th/validation.py:28 | a longer one is not raised if and only if it is rounded down, and exact if and only if the digits dropped are zeros |
| DecimalPrecision.TruncationExactIff | binance_th/validation.py:28 | for every quotient: exactly when truncation never rounds up, and exactly when it gives the floor |
| DecimalPrecision.TruncationIsExact | binance_th/validation.py:28 | for every numerator below 2 * 10^27 the 28-digit quotient truncates to the exact floor |
| DecimalPrecision.SnapNotRaisedIff | binance_th/validation.py:24-35 | for every price, quotient and product both rounded: exactly when snapping does not raise it, by the multiples of the last kept digit next to the product |
| DecimalPrecision.SnapInContextIff | binance_th/validation.py:24-35 | a price of at most 28 digits is not raised if and only if its quotient is not, and then snapping is exact flooring |
| DecimalPrecision.SnappingNeverRoundsUp | binance_th/validation.py:24-35 | so below 2 * 10^27 units snapping under the default context is exact floor snapping |
| DecimalPrecision.LongPriceIsRaised | binance_th/validation.py:28 | the 28-digit price 2 * 10^27 + 3 with tick 2 is raised by one |
| DecimalPrecision.LongProductIsRaised | binance_th/validation.py:28 | the price 10^28 + 8 with tick 3 has an exact quotient and is raised by two when the product is rounded |
| Idempotency.ToBase36 | binance_th/idempotency.py:24-31 | the divmod loop; its text decodes to the value for every non-negative input |
| Idempotency.DecodeInvertsBase36 | binance_th/idempotency.py:24-31 | decoding returns every non-negative input |
| Idempotency.Base36IsCanonical | binance_th/idempotency.py:24-31 | digits and lower-case letters only, no leading zero, and "0" for zero and every negative input |
| Idempotency.MintedIdIsWhole | binance_th/idempotency.py:42-49 | with the default prefix and times below 36^21 the id is not cut, has at most 36 characters and is URL-safe |
| Idempotency.MintedIdIsCut | binance_th/idempotency.py:49 | for every prefix, time and token the id is the first 36 characters of the whole |
| Idempotency.MintedIdsCollideIff | binance_th/idempotency.py:42-49 | two such ids are equal if and only if time and token are |

## Left out

- httpx, websockets, JSON decoding and pydantic parsing: only their outcomes (a reply, a timeout, a network error, a frame, a drop, a body that does not parse) appear.
- Signing, redaction, logging, configuration, and the market, account and wallet clients: parameter builders and field declarations.
- The listenKey manager and the teardown paths (`aclose`, task cancellation).
- `ManagedOrderBook` and `OrderTracker` as background-task wrappers: they publish the last yield, and they end if a provider raises.
- Stream routing, frame dispatch by name, and the connection path without live subscribe, which closes the socket to rebuild the URL.
- Supervisor backoff and session lifetimes: a failed connect and a lost socket are steps that may happen at any time.
- Header names and their parsing: a usage header arrives as the key it names and its count.
- Rate-limit rules with an interval count of zero or less, on which the first roll divides by zero.
- Floating-point time in the limiter, and negative weights.
- Rounding to 28 digits outside `DecimalPrecision`: `Validation` snaps and multiplies exactly.
- The dormant price-range hook, and the exchange-info lookup that precedes validation: its failure is one of the failures validation may raise.
- `_resolve_request`, `_params`, `cancel_order` and `open_orders`: thin builders over the same transport. The rate limiter's wait inside an exchange is not repeated in `Transport`.
- The fields of an order that the view only copies; the seed and the reports are taken to describe an order alike when their modelled fields agree.
- A user-data session in which the exchange hands out a key for one of the two symbol types only.
- The random token, the wall clock and the jitter: parameters.
- LocalOrderBooks.LocalOrderBook.ApplySide: the dictionaries are value maps held in the object's fields, so aliasing of one dictionary by two books, which the code never does, is not expressible.
- Subscription.Subscription.Next: starts once an item is queued; the waiting itself is the scheduler's.
- RateLimit.DualWindowRateLimiter.Acquire: states the undisturbed call; what interleaved calls do is the subject of `RateHistory`.
