# Verified model of the exchange engine's core

This project models the parts of the exchange engine that make promises across many steps, and proves
those promises in Dafny. `dafny verify dfyconfig.toml` checks everything.

| file | component |
|---|---|
| `OrderedStrings`, `Subscriptions` | the join of public subscriptions and its routing to streams |
| `PublicHub`, `PublicHubProperties`, `PrivateHub` | the lease protocol of the two subscription hubs |
| `RequestIds`, `CommandTransport`, `CommandTransportProperties`, `CommandTransportOrder`, `CommandTransportTasks` | the command websocket transport |
| `CommandHandle` | pending command handles and their resolution |
| `KlineCalendar`, `OhlcvPaging`, `OhlcvPagingProperties` | candle close times and windowed candle fetches |
| `PerInstrumentPaging` | window fetches for several instruments, whose pages are cut one by one |
| `Health` | the health machine |
| `Engine`, `EngineState`, `EngineProperties`, `EngineHistory`, `AccountHistory` | the local state projection |
| `SharedState` | the locked state, its batches and broadcasts |
| `MaxRegister` | latency diagnostics with a lock-free maximum |
| `OrderPlan` | order planning on exact numbers |

Code that changes state step by step (hubs, session task, health report, engine state, paging loop,
command handle) is a class or a loop whose `ensures` ties the new state to a function of the old one;
the promises are lemmas about those functions over every run. Concurrent code (the transport, the
maximum register) is a state machine over its atomic steps, and a lemma holds for every interleaving.

The environment is a parameter everywhere: how many stream spawns of a command succeed, whether a
connection attempt succeeds, what a page request returns, which value a relaxed load sees, when a
socket dies. Nothing is assumed about it unless a lemma says so in a `requires`.

## Where the code does less than one might expect

Each of these is proved, with the exact condition that decides it.

- `Healthy` does not exclude an open state divergence: a private message or a REST success restores
  `Healthy` without looking at the flag (`Health.HealthyWhileDivergent`).
- A public disconnect, like any stream event or reconcile result, overwrites `CommandUncertain`
  (`Health.UncertaintyEnds`).
- The result of the stream switch after a release is ignored. The plan equals the route of the active
  leases exactly when no release switch has failed since the last successful switch
  (`PublicHubProperties.PlanFollowsLeases`); otherwise it over-covers them, as in
  `FailedReleaseOverCovers`, and coverage still holds.
- Merging leases in two stages loses the topics of a group that names no instrument, exactly when the
  other group does not want them (`Subscriptions.MergeGroups`).
- With pages that cut all instruments at one point, forward paging is exact for every environment
  exactly when no candle of the window opens before an earlier one has closed, and backward paging
  always is (`OhlcvPagingProperties.ExactlyWhenTiled`).
- For several instruments a page is put together from one request per instrument, each cut on its own,
  while the loop advances by the latest close or earliest open of all. Such a fetch is exact for every
  environment exactly when the instruments keep apart (`PerInstrumentPaging.ExactlyWhenSeparated`):
  forwards, a candle that is not its instrument's first in the window opens after all candles of the
  others have closed; backwards, only an instrument's last candle may open at or after one of another.
  So two instruments with two candles each are never safe (`TwoSeriesAreLost`), unless, as with one
  limit and equal open times, all pages are in fact cut at one point (`CommonLimitIsExact`).
- A backward page moves the cursor exactly when it holds a candle of the window no later than the
  requested end (`OhlcvPaging.AdvanceMoves`). Pages that do, or hold nothing of the window, end the
  loop (`PagingTerminates`); pages that never do keep it going for ever (`StubbornPagesNeverEnd`).
- Repeated instrument ids end in a panic, exactly when the ids are not distinct (`OhlcvPaging.FlattenGroups`).
- Replayed fills are recognised exactly while the distinct execution ids fit the queue
  (`EngineProperties.ReplayIsIdempotent`).
- Funding rates and open interest are stored for unknown instruments. Over every run they are for known
  ones only exactly when each such event since the last instrument replacement named a known one
  (`EngineHistory.UncheckedDataIsKnown`).
- Positions are kept by instrument alone, so hedge legs overwrite each other: two updates both stay
  visible exactly when they name different instruments (`EngineProperties.BothPositionsShown`).
- Request ids repeat after the 64-bit counter wraps, and only then (`RequestIds.IssuedIdsCollide`).

## Model

| member | source | states |
|---|---|---|
| `Subscriptions.Normalize` | crates/bat-markets/src/subscriptions.rs:307-313 | the normal form is sorted and duplicate-free and asks for the same instruments and topics |
| `Subscriptions.NormalizeUnique` | crates/bat-markets/src/subscriptions.rs:307-313 | it is the only canonical subscription with that content |
| `Subscriptions.AbsorbIsJoin` | crates/bat-markets/src/subscriptions.rs:333-344 | one loop round is the binary least upper bound |
| `Subscriptions.AccumulateIsJoin` | crates/bat-markets/src/subscriptions.rs:315-353 | the accumulated subscription is the componentwise least one that covers every lease |
| `Subscriptions.AccumulateExact` | crates/bat-markets/src/subscriptions.rs:315-353 | it names an instrument, or wants a topic, iff some lease does |
| `Subscriptions.MergePublicSubscriptions` | crates/bat-markets/src/subscriptions.rs:315-353 | the loop over mutable sets computes the join, absent iff it names no instrument |
| `Subscriptions.MergeDependsOnElements` | crates/bat-markets/src/subscriptions.rs:315-353 | order and repetition of the leases do not matter |
| `Subscriptions.MergeGroups` | crates/bat-markets/src/subscriptions.rs:315-353 | merging two groups first gives the join of all iff a group dropped for naming no instrument wants nothing the other does not |
| `Subscriptions.MergeGroupsNeedsInstruments` | crates/bat-markets/src/subscriptions.rs:346-348 | a concrete pair of groups where it does not |
| `Subscriptions.SplitPreservesDemand` | crates/bat-markets/src/subscriptions.rs:369-418 | the Binance split loses no demand, adds none and sends none to both sockets |
| `Subscriptions.SplitByTopic` | crates/bat-markets/src/subscriptions.rs:369-418 | the public socket carries the book topics, the market socket the others, for the same instruments; a socket is opened iff it has a topic to carry |
| `Subscriptions.RouteIsJoin` | crates/bat-markets/src/subscriptions.rs:355-367 | no plan iff no lease names an instrument; other venues run the join on the default route |
| `Subscriptions.RouteIsExact` | crates/bat-markets/src/subscriptions.rs:355-367 | the plan carries (instrument, topic) iff some lease names the instrument and some lease wants the topic, on one route only |
| `Subscriptions.RouteCoversLease` | crates/bat-markets/src/subscriptions.rs:355-367 | every demand of every lease is carried |
| `PublicHub.PublicSubscriptionHub.SpawnReplacements` | crates/bat-markets/src/subscriptions.rs:226-240 | spawns the changed routes in order; at the first failure aborts exactly what it spawned |
| `PublicHub.PublicSubscriptionHub.DropStaleStreams` | crates/bat-markets/src/subscriptions.rs:242-256 | aborts and removes exactly the streams of changed or vanished routes |
| `PublicHub.PublicSubscriptionHub.InstallReplacements` | crates/bat-markets/src/subscriptions.rs:257-261 | records the new streams, aborting displaced ones |
| `PublicHub.PublicSubscriptionHub.SwitchPublicStream` | crates/bat-markets/src/subscriptions.rs:216-264 | refines the all-or-nothing switch |
| `PublicHub.PublicSubscriptionHub.DesiredPlan` | crates/bat-markets/src/subscriptions.rs:174-176 | the plan of a lease map, whatever the iteration order |
| `PublicHub.PublicSubscriptionHub.Handle` | crates/bat-markets/src/subscriptions.rs:167-208 | refines one command of the hub: new leases, plan, streams and the reply |
| `PublicHub.PublicSubscriptionHub.AbortAll` | crates/bat-markets/src/subscriptions.rs:210-212 | aborts every remaining stream |
| `PublicHub.PublicSubscriptionHub.RunPublicHub` | crates/bat-markets/src/subscriptions.rs:159-214 | the whole hub task refines the run of its commands followed by the final abort |
| `PublicHub.PlanOfAnyOrder` | crates/bat-markets/src/subscriptions.rs:174-176 | any listing of the leases gives the same plan |
| `PublicHubProperties.NothingDisplaced` | crates/bat-markets/src/subscriptions.rs:257-261 | after the stale routes are gone an insertion displaces nothing: that abort branch is unreachable |
| `PublicHubProperties.SuccessfulSwitch` | crates/bat-markets/src/subscriptions.rs:216-264 | a successful switch runs exactly the desired routes; unchanged routes keep their stream, changed routes get a new one, every new stream is in use |
| `PublicHubProperties.FailedSwitchConserves` | crates/bat-markets/src/subscriptions.rs:231-239 | a failed switch keeps stream conservation |
| `PublicHubProperties.SuccessfulSwitchConserves` | crates/bat-markets/src/subscriptions.rs:242-263 | so does a successful one |
| `PublicHubProperties.RunInvariant` | crates/bat-markets/src/subscriptions.rs:159-264 | over every run: stream and plan maps have equal keys; each spawned stream is the one live stream of its route running the recorded subscription, or was aborted exactly once; the plan is the route of the leases last switched to, which include the active ones |
| `PublicHubProperties.EveryLeaseIsServed` | crates/bat-markets/src/subscriptions.rs:159-264 | over every run, whatever an active lease demands is delivered by a live, never aborted stream |
| `PublicHubProperties.RejectedAcquire` | crates/bat-markets/src/subscriptions.rs:169-193 | a rejected acquire changes neither leases, plan nor streams, and everything it spawned is aborted |
| `PublicHubProperties.SwitchSucceeds` | crates/bat-markets/src/subscriptions.rs:222-240 | a switch succeeds iff as many spawns succeed as there are routes of the new plan that differ from the current one |
| `PublicHubProperties.AcquireIsAccepted` | crates/bat-markets/src/subscriptions.rs:169-193 | an acquire is accepted iff so many spawns succeed, and the lease is recorded iff it is accepted |
| `PublicHubProperties.ReleaseEndsLease` | crates/bat-markets/src/subscriptions.rs:194-206 | a release ends the lease whatever becomes of its switch |
| `PublicHubProperties.ActiveAreHeld` | crates/bat-markets/src/subscriptions.rs:159-208 | over every run the leases are exactly those whose last accepted acquire has not been released, with its subscription |
| `PublicHubProperties.HeldLeaseIsServed` | crates/bat-markets/src/subscriptions.rs:159-264 | so whatever a watcher holds is delivered by a live, never aborted stream |
| `PublicHubProperties.PlanFollowsLeases` | crates/bat-markets/src/subscriptions.rs:194-206 | the plan is the route of the active leases iff no release switch has failed since the last successful switch |
| `PublicHubProperties.FailedReleaseOverCovers` | crates/bat-markets/src/subscriptions.rs:194-206 | a concrete run after which the plan still carries an instrument that no lease names |
| `PublicHubProperties.CoveredLeaseIsFree` | crates/bat-markets/src/subscriptions.rs:222-230 | a lease below the join of the active ones opens and closes no socket, even if every spawn would fail |
| `PublicHubProperties.NothingRunsAfterClose` | crates/bat-markets/src/subscriptions.rs:210-212 | after the task ends every stream ever spawned was aborted exactly once |
| `PrivateHub.PrivateSubscriptionHub.Handle` | crates/bat-markets/src/subscriptions.rs:274-299 | refines one command of the private hub |
| `PrivateHub.PrivateSubscriptionHub.RunPrivateHub` | crates/bat-markets/src/subscriptions.rs:266-305 | the whole task refines the run of its commands and the final abort |
| `PrivateHub.RunInvariant` | crates/bat-markets/src/subscriptions.rs:266-305 | over every run there is a stream iff there is a lease, it is the newest, and every earlier one was aborted exactly once, in order |
| `PrivateHub.AcquireIsAccepted` | crates/bat-markets/src/subscriptions.rs:275-287 | an acquire is accepted iff somebody holds a lease or the spawn succeeds |
| `PrivateHub.ActiveAreHeld` | crates/bat-markets/src/subscriptions.rs:273-299 | over every run the leases are exactly those whose last accepted acquire has not been released |
| `PrivateHub.StreamWhileHeld` | crates/bat-markets/src/subscriptions.rs:266-305 | so there is a stream exactly while somebody holds a lease |
| `PrivateHub.NothingRunsAfterClose` | crates/bat-markets/src/subscriptions.rs:301-305 | after the task ends every stream was aborted exactly once |
| `RequestIds.RequestIdInjective` | crates/bat-markets/src/transport.rs:75-78 | whatever the prefixes, an id determines its prefix and counter |
| `RequestIds.IssuedIdsCollide` | crates/bat-markets/src/transport.rs:75-78 | two issued ids are equal iff the prefixes are and the counter has wrapped from one to the other |
| `RequestIds.IssuedIdsDistinct` | crates/bat-markets/src/transport.rs:75-78 | no two of any 2^64 consecutive ids are equal |
| `RequestIds.DecimalParses` | crates/bat-markets/src/transport.rs:75-78 | the digits are the decimal notation of the counter, without leading zeros |
| `RequestIds.IssuedNumbers` | crates/bat-markets/src/transport.rs:60-78 | requests are numbered from one |
| `CommandTransportProperties.StepKeepsInv` | crates/bat-markets/src/transport.rs:80-323 | every atomic step of callers and sessions keeps the protocol invariant: an unsettled request is in exactly one place |
| `CommandTransportProperties.RunKeepsInv` | crates/bat-markets/src/transport.rs:80-323 | so it holds over every interleaving |
| `CommandTransportProperties.AtMostOnce` | crates/bat-markets/src/transport.rs:80-117 | a payload is queued on at most one session and written at most once; `Unavailable` implies never queued |
| `CommandTransportProperties.RepliesCorrelate` | crates/bat-markets/src/transport.rs:209-223 | an `Ok` payload carries the caller's own id and answers a written request; a request is settled at most once |
| `CommandTransportProperties.IdsIdentifyCalls` | crates/bat-markets/src/transport.rs:75-78 | until the counter wraps an id names one call |
| `CommandTransportProperties.FrameReachesItsCall` | crates/bat-markets/src/transport.rs:296-304 | a frame changes no call but the one whose id it carries, and that one iff its request is pending on that session, however late the frame |
| `CommandTransportProperties.PendingIsNeverDisplaced` | crates/bat-markets/src/transport.rs:238-253 | inserting a pending entry never replaces another |
| `CommandTransportProperties.DeadSessionReleasesCallers` | crates/bat-markets/src/transport.rs:451-466 | once a session has ended every request queued on it is settled exactly once and no caller is left waiting |
| `CommandTransportProperties.SlotStep` | crates/bat-markets/src/transport.rs:119-137 | the slot goes only from empty to a brand-new session, and is emptied only by a caller that used the very session in it |
| `CommandTransportProperties.EvictedStaysEvicted` | crates/bat-markets/src/transport.rs:119-137 | an evicted session never returns to the slot |
| `CommandTransportOrder.WritesInSendOrder` | crates/bat-markets/src/transport.rs:195-253 | over every run, of two requests on one session the one sent first is written first |
| `CommandTransportOrder.RunIsTimed` | crates/bat-markets/src/transport.rs:195-253 | the positions in the run at which a call is sent and written hold its `Send` and a write of its session |
| `CommandTransportOrder.RunKeepsOrder` | crates/bat-markets/src/transport.rs:236-253 | a session holds its waiting requests in the order they were sent |
| `CommandTransportOrder.RunAbandons` | crates/bat-markets/src/transport.rs:451-466 | a request settled without being written belongs to a session that has ended |
| `CommandTransportTasks.CommandTransportHub.NextRequestId` | crates/bat-markets/src/transport.rs:75-78 | the k-th call gets the k-th issued id, with wrap-around, as a `Start` step of the machine |
| `CommandTransportTasks.CommandTransportHub.Session` | crates/bat-markets/src/transport.rs:119-128 | the `Connect` step: the session in the slot, or a new one that takes the slot, or nothing |
| `CommandTransportTasks.CommandTransportHub.Send` | crates/bat-markets/src/transport.rs:195-209 | the `Send` step: the payload is queued iff the session task still runs |
| `CommandTransportTasks.CommandTransportHub.EndWait` | crates/bat-markets/src/transport.rs:211-224 | the end of the wait: a reply if there is one by then, else the timeout; anything but an answer is uncertain |
| `CommandTransportTasks.CommandTransportHub.Interfere` | crates/bat-markets/src/transport.rs:80-323 | at an await any steps of the others may happen; none moves this call |
| `CommandTransportTasks.CommandTransportHub.InvalidateSession` | crates/bat-markets/src/transport.rs:130-137 | the `Evict` step: empties the slot only if it holds this very session |
| `CommandTransportTasks.CommandTransportHub.Attempt` | crates/bat-markets/src/transport.rs:88-110 | one round of the loop, with interference at every await; only a refused first attempt is retried |
| `CommandTransportTasks.CommandTransportHub.RequestText` | crates/bat-markets/src/transport.rs:80-117 | whatever the others do meanwhile, the call is a run of the machine: payload queued on at most one session and written at most once, not at all iff `Unavailable`; a success carries its own id; an uncertain session is out of the slot; left alone, which session takes the payload |
| `CommandTransportTasks.CommandWsSession.End` | crates/bat-markets/src/transport.rs:451-466 | pending requests get the failure, queued ones are dropped, nothing else changes |
| `CommandTransportTasks.CommandWsSession.Write` | crates/bat-markets/src/transport.rs:238-253 | the oldest queued request becomes pending under its id |
| `CommandTransportTasks.CommandWsSession.OnText` | crates/bat-markets/src/transport.rs:296-304 | answers the pending request whose id the frame carries, if any |
| `CommandHandle.PendingCommandHandle.NextReceiptEvent` | crates/bat-markets/src/entry.rs:52-73 | the acknowledged receipt first, then the first matching receipt on the bus |
| `CommandHandle.PendingCommandHandle.NextLifecycleEvent` | crates/bat-markets/src/entry.rs:79-95 | the first matching lifecycle event, or a receive error |
| `CommandHandle.PendingCommandHandle.Resolved` | crates/bat-markets/src/entry.rs:102-113 | a known receipt is returned without reading the bus; an unknown one refines the resolution function |
| `CommandHandle.FirstDecisiveResolves` | crates/bat-markets/src/entry.rs:102-113 | resolution is decided by the first receive error or recovery completion of an equal acknowledgement, and by nothing else |
| `CommandHandle.IndecisiveKeepsWaiting` | crates/bat-markets/src/entry.rs:102-113 | without one the command stays unresolved |
| `CommandHandle.AcceptedOnlyBySynchronizedRecovery` | crates/bat-markets/src/entry.rs:102-170 | an unknown command becomes `Accepted` iff that first delivery is a synchronized recovery |
| `CommandHandle.CompletionResolvesOneCommand` | crates/bat-markets/src/entry.rs:120-127 | no completion resolves two commands with different acknowledgements |
| `CommandHandle.RecoveryKeepsIdentity` | crates/bat-markets/src/entry.rs:147-170 | recovery changes only status, retriability and message, so the same receipts match |
| `CommandHandle.MatchingIsByIdentity` | crates/bat-markets/src/entry.rs:129-145 | matching is symmetric; a receipt matches itself iff it carries an identity |
| `CommandHandle.MatchesByStrongestIdentity` | crates/bat-markets/src/entry.rs:129-145 | receipts match iff the operations are equal and so is the strongest identity that both carry |
| `CommandHandle.FirstReceiptIsReturned` | crates/bat-markets/src/entry.rs:52-73 | the receipt returned is the first that matches unless an error comes before it; the rest stays on the bus |
| `CommandHandle.FirstLifecycleIsReturned` | crates/bat-markets/src/entry.rs:79-127 | likewise the lifecycle event, of an equal acknowledgement or a matching receipt |
| `KlineCalendar.FirstDayStep` | crates/bat-markets-core/src/market.rs:311-320 | the closed form of month starts steps by the Gregorian month lengths, across leap years, centuries and December |
| `KlineCalendar.MonthOfDay` | crates/bat-markets-core/src/market.rs:311-317 | the month whose span contains the day |
| `KlineCalendar.MonthOfDayUnique` | crates/bat-markets-core/src/market.rs:311-317 | no other month's span contains it |
| `KlineCalendar.MonthlyClose` | crates/bat-markets-core/src/market.rs:311-320 | inside a month every open time closes at the month's last millisecond; only December 9999 has no close |
| `KlineCalendar.MonthsTile` | crates/bat-markets-core/src/market.rs:311-320 | close + 1 opens the next month and no month opens in between |
| `KlineCalendar.CloseMonotone` | crates/bat-markets-core/src/market.rs:290-321 | for every interval close(t) >= t, and close is monotone |
| `KlineCalendar.CloseDefined` | crates/bat-markets-core/src/market.rs:290-321 | exactly when there is a close time |
| `KlineCalendar.IntervalsAndDays` | crates/bat-markets-core/src/market.rs:291-305 | minutes and hours divide the day as their names say, the others are whole days |
| `KlineCalendar.FixedTile` | crates/bat-markets-core/src/market.rs:307-309 | candles of a fixed interval tile time, and a day candle spans one UTC day |
| `OhlcvPaging.CalendarClosesForward` | crates/bat-markets-core/src/market.rs:290-321 | the calendar meets what paging needs of it |
| `OhlcvPaging.AdvanceMoves` | crates/bat-markets/src/facade.rs:588-610 | one page moves the cursor strictly: forwards any page, backwards iff it holds a candle of the window no later than the requested end |
| `OhlcvPaging.PagingTerminates` | crates/bat-markets/src/facade.rs:548-611 | at most end - start + 1 requests: forwards for any pages, backwards if every page moves the cursor or holds nothing of the window |
| `OhlcvPaging.StubbornPagesNeverEnd` | crates/bat-markets/src/facade.rs:604-609 | backward paging of pages that never move the cursor goes on for ever |
| `OhlcvPaging.StubbornPageNeverEnds` | crates/bat-markets/src/facade.rs:604-609 | such an environment exists for every window of two instants or more |
| `OhlcvPaging.RemoteErrorEnds` | crates/bat-markets/src/facade.rs:549-559 | a failed request ends the fetch with its error |
| `OhlcvPaging.ForeignCandleEnds` | crates/bat-markets/src/facade.rs:573-581 | so does a page with an in-window candle of an instrument that was not requested |
| `OhlcvPaging.ScanPage` | crates/bat-markets/src/facade.rs:564-586 | the scan of one page: in-window candles per instrument, latest and earliest open time, foreign instruments |
| `OhlcvPaging.TakePage` | crates/bat-markets/src/facade.rs:560-610 | one loop round refines one step of the cursor, with all its exits |
| `OhlcvPaging.FlattenGroups` | crates/bat-markets/src/facade.rs:613-622 | sorted, deduplicated groups in request order; a panic iff ids repeat |
| `OhlcvPaging.PageLoop` | crates/bat-markets/src/facade.rs:540-622 | the loop refines the iteration, wherever it ends |
| `OhlcvPaging.FetchPages` | crates/bat-markets/src/facade.rs:540-622 | so it returns the result of the iteration, within the bound |
| `OhlcvPaging.FetchOhlcvWindow` | crates/bat-markets/src/facade.rs:510-622 | the argument checks in order, then the paging result |
| `OhlcvPagingProperties.SortIsStable` | crates/bat-markets/src/facade.rs:618 | the sort is a stable reordering |
| `OhlcvPagingProperties.DedupKeepsFirst` | crates/bat-markets/src/facade.rs:619 | of the candles with one open time the first stays |
| `OhlcvPagingProperties.SeriesIsExact` | crates/bat-markets/src/facade.rs:613-621 | an instrument's series has strictly increasing open times and is exactly its first arrivals |
| `OhlcvPagingProperties.OutputShape` | crates/bat-markets/src/facade.rs:613-622 | for arbitrary pages the output is grouped in request order, strictly increasing per instrument, and holds exactly the first arrivals of the requested instruments |
| `OhlcvPagingProperties.IterateProgress` | crates/bat-markets/src/facade.rs:548-611 | after any number of faithful pages exactly the history up to (Bybit: after) the cursor is held |
| `OhlcvPagingProperties.PagingIsExact` | crates/bat-markets/src/facade.rs:545-622 | with faithful pages of any sizes the fetch returns exactly the candles opening in the window, in order, once each |
| `OhlcvPagingProperties.ForwardAgreesWithBackward` | crates/bat-markets/src/facade.rs:588-610 | the two loops return the same result for one history |
| `OhlcvPagingProperties.UntiledIsLost` | crates/bat-markets/src/facade.rs:589-603 | on any other history some faithful environment makes forward paging wrong |
| `OhlcvPagingProperties.ExactlyWhenTiled` | crates/bat-markets/src/facade.rs:545-622 | with pages that cut all instruments at one point: exact for every environment iff backward, or no candle of the window opens before an earlier one has closed |
| `OhlcvPagingProperties.AlignedIsTiled` | crates/bat-markets/src/facade.rs:589-603 | candles on the interval's grid or at month starts, of one instrument or many, meet that condition |
| `PerInstrumentPaging.FetchEachIsPerInstrument` | crates/bat-markets/src/runtime.rs:4159-4180 | concatenating one prefix (Bybit: suffix) page per instrument gives a page cut instrument by instrument |
| `PerInstrumentPaging.SeparatedIsExact` | crates/bat-markets/src/facade.rs:545-622 | if the instruments keep apart, such pages of any sizes give exactly the window |
| `PerInstrumentPaging.UnseparatedIsLost` | crates/bat-markets/src/facade.rs:583-610 | if two candles do not keep apart, some environment loses one of them |
| `PerInstrumentPaging.ExactlyWhenSeparated` | crates/bat-markets/src/facade.rs:545-622 | exact for every per-instrument environment iff: forwards every candle has a close and one that is not its instrument's first opens after all others (of its own: all earlier) have closed; backwards only an instrument's last opens at or after one of another |
| `PerInstrumentPaging.WindowExactlyWhenSeparated` | crates/bat-markets/src/facade.rs:510-622 | the same for requests by calendar interval |
| `PerInstrumentPaging.CalendarClosesInOrder` | crates/bat-markets-core/src/market.rs:290-321 | the calendar orders close times as that needs |
| `PerInstrumentPaging.TwoSeriesAreLost` | crates/bat-markets/src/facade.rs:583-610 | two instruments with two candles each in the window are never safe, in either direction |
| `PerInstrumentPaging.OneInstrumentApart` | crates/bat-markets/src/facade.rs:545-622 | for one instrument the condition is that its candles do not overlap, and nothing backwards |
| `PerInstrumentPaging.PerInstrumentPagesLoseCandles` | crates/bat-markets/src/facade.rs:583-584 | on a common minute grid some per-instrument environment makes the result wrong, on every venue |
| `PerInstrumentPaging.LimitedIsPerInstrument` | crates/bat-markets/src/runtime.rs:4168-4178 | one limit per request cuts instrument by instrument |
| `PerInstrumentPaging.CommonLimitIsFaithful` | crates/bat-markets/src/runtime.rs:4168-4178 | over equal open times one limit is one common cut |
| `PerInstrumentPaging.CommonLimitIsExact` | crates/bat-markets/src/facade.rs:545-622 | so instruments with equal open times are fetched exactly, forwards if their candles do not overlap |
| `Health.HealthReport.ObservePublicMessage` | crates/bat-markets-core/src/health.rs:73-94 | recovers from disconnected, degraded-public or read-only, but not over a divergence or an open reconcile or command doubt |
| `Health.HealthReport.ObservePrivateMessage` | crates/bat-markets-core/src/health.rs:96-108 | recovers from disconnected, degraded-private or read-only, without looking at the divergence flag |
| `Health.HealthReport.ObserveRestSuccess` | crates/bat-markets-core/src/health.rs:110-119 | recovers from disconnected only; a missing skew keeps the old one |
| `Health.HealthReport.MarkPublicDisconnect` | crates/bat-markets-core/src/health.rs:121-130 | degraded while anything else works, disconnected otherwise, whatever the status was |
| `Health.HealthReport.MarkPublicGap` | crates/bat-markets-core/src/health.rs:132-136 | the public stream counts as down |
| `Health.HealthReport.MarkPrivateDisconnect` | crates/bat-markets-core/src/health.rs:138-147 | read-only while anything else works, disconnected otherwise |
| `Health.HealthReport.MarkPrivateGap` | crates/bat-markets-core/src/health.rs:149-153 | a reconcile is required and the private stream counts as down |
| `Health.HealthReport.MarkSnapshotAge` | crates/bat-markets-core/src/health.rs:155-166 | a stale snapshot requires a reconcile unless a command doubt or divergence is the reason already |
| `Health.HealthReport.MarkReconnect` | crates/bat-markets-core/src/health.rs:168-170 | only the counter changes |
| `Health.HealthReport.MarkNeedsReconcile` | crates/bat-markets-core/src/health.rs:172-175 | a reconcile is required, nothing else changes |
| `Health.HealthReport.MarkUncertain` | crates/bat-markets-core/src/health.rs:177-180 | a command is in doubt, nothing else changes |
| `Health.HealthReport.MarkDivergence` | crates/bat-markets-core/src/health.rs:182-186 | raises the divergence flag and requires a reconcile |
| `Health.HealthReport.MarkReconcileComplete` | crates/bat-markets-core/src/health.rs:188-201 | clears the flag and the age; the new status depends on which streams work |
| `Health.HealthReport.constructor` | crates/bat-markets-core/src/health.rs:54-70 | the default report |
| `Health.RunInvariant` | crates/bat-markets-core/src/health.rs:54-201 | over every run only nine status/reason pairs occur, `Healthy` iff no reason, and the divergence flag holds iff a divergence mark is newer than the last completed reconcile |
| `Health.KnownPairReachable` | crates/bat-markets-core/src/health.rs:54-201 | each of the nine pairs does occur |
| `Health.UncertaintySurvives` | crates/bat-markets-core/src/health.rs:73-170 | `CommandUncertain` survives any sequence of messages, REST successes, staleness ticks and reconnects |
| `Health.UncertaintyEnds` | crates/bat-markets-core/src/health.rs:121-201 | exactly the other events end it |
| `Health.HealthyWhileDivergent` | crates/bat-markets-core/src/health.rs:96-119 | exactly when a divergent report becomes `Healthy` |
| `Health.HealthyWhileDivergentHappens` | crates/bat-markets-core/src/health.rs:110-130 | a concrete run that does |
| `Health.FlagsFollowHistory` | crates/bat-markets-core/src/health.rs:54-201 | over every run a stream counts as up iff its last message, gap or disconnect is a message, and REST iff it ever succeeded; the initial status is disconnected |
| `Health.FieldsFollowHistory` | crates/bat-markets-core/src/health.rs:54-201 | message times, skew and age are the last observed (a reconcile sets the age to zero), reconnects are counted |
| `Health.StatusAfterMark` | crates/bat-markets-core/src/health.rs:121-201 | the exact status after every mark, disconnect and completed reconcile, from the history of the connections |
| `Health.StatusAfterRoutine` | crates/bat-markets-core/src/health.rs:73-166 | the exact status after every message, REST success and staleness tick; a public message recovers iff no divergence is open |
| `Health.ReasonForReconcile` | crates/bat-markets-core/src/health.rs:149-186 | why a reconcile is required: what last demanded it |
| `EngineStates.EvictOldest` | crates/bat-markets-core/src/state.rs:457-460 | the eviction loop keeps the newest entries |
| `EngineStates.EngineState.ApplyFastTicker` | crates/bat-markets-core/src/state.rs:430-438 | refines the event; unknown instruments change nothing |
| `EngineStates.EngineState.ApplyFastTrade` | crates/bat-markets-core/src/state.rs:440-461 | likewise, with adjacent repeats skipped and the queue bounded |
| `EngineStates.EngineState.ApplyFastBookTop` | crates/bat-markets-core/src/state.rs:463-472 | refines the event |
| `EngineStates.EngineState.ApplyFastKline` | crates/bat-markets-core/src/state.rs:474-482 | refines the event |
| `EngineStates.EngineState.ApplyFastMarkPrice` | crates/bat-markets-core/src/state.rs:484-493 | refines the event |
| `EngineStates.EngineState.ApplyFastLiquidation` | crates/bat-markets-core/src/state.rs:495-510 | refines the event, with a bounded queue |
| `EngineStates.EngineState.ApplyUnchecked` | crates/bat-markets-core/src/state.rs:86-104 | funding rates, open interest and divergences cannot fail |
| `EngineStates.EngineState.ApplyPublicEvent` | crates/bat-markets-core/src/state.rs:78-108 | dispatch; on an error the state is unchanged |
| `EngineStates.EngineState.AdmitExecution` | crates/bat-markets-core/src/state.rs:125-138 | an execution is queued iff its id is not there |
| `EngineStates.EngineState.ApplyPrivateEvent` | crates/bat-markets-core/src/state.rs:110-147 | refines the event |
| `EngineStates.EngineState.MergeExecutionBatch` | crates/bat-markets-core/src/state.rs:224-245 | the batch loop refines the merge |
| `EngineStates.EngineState.MergeOrders` | crates/bat-markets-core/src/state.rs:214-222 | history orders replace by id |
| `EngineStates.EngineState.ReplaceOpen` | crates/bat-markets-core/src/state.rs:198-212 | open orders are replaced, the others stay |
| `EngineStates.EngineState.ReplaceAccountSnapshot` | crates/bat-markets-core/src/state.rs:165-185 | balances and summary are replaced |
| `EngineStates.EngineState.ReplacePositionsSnapshot` | crates/bat-markets-core/src/state.rs:187-196 | positions are replaced |
| `EngineStates.EngineState.ApplyPrivateSnapshot` | crates/bat-markets-core/src/state.rs:247-253 | the three replacements in order |
| `EngineStates.EngineState.PruneOrphanMarketState` | crates/bat-markets-core/src/state.rs:524-547 | market data of unknown instruments goes, the rest stays |
| `EngineStates.EngineState.Replace` | crates/bat-markets-core/src/state.rs:157-163 | instrument replacement with pruning |
| `EngineStates.EngineState.ApplyCommandReceipt` | crates/bat-markets-core/src/state.rs:149-155 | only an unknown execution changes the health |
| `EngineStates.EngineState.ApplyReconcileReport` | crates/bat-markets-core/src/state.rs:255-261 | each outcome with its health transition |
| `EngineStates.EngineState.MarkRestSuccess` | crates/bat-markets-core/src/state.rs:263-265 | delegates to the owned health report |
| `EngineStates.EngineState.MarkPublicDisconnect` | crates/bat-markets-core/src/state.rs:267-269 | delegates to the owned health report |
| `EngineStates.EngineState.MarkPrivateDisconnect` | crates/bat-markets-core/src/state.rs:271-273 | delegates to the owned health report |
| `EngineStates.EngineState.MarkReconnect` | crates/bat-markets-core/src/state.rs:275-277 | delegates to the owned health report |
| `EngineStates.EngineState.MarkSnapshotAge` | crates/bat-markets-core/src/state.rs:279-281 | delegates to the owned health report |
| `EngineProperties.RunInvariant` | crates/bat-markets-core/src/state.rs:43-547 | after any operations: executions distinct and bounded, trade and liquidation queues bounded, no adjacent trades with one id, market data only for known instruments |
| `EngineProperties.UnknownInstrumentsAreStored` | crates/bat-markets-core/src/state.rs:86-95 | funding rates and open interest are stored unchecked |
| `EngineHistory.UncheckedDataIsKnown` | crates/bat-markets-core/src/state.rs:86-95 | over every run they are for known instruments only iff every such event since the last replacement named a known one |
| `EngineProperties.ReplacementPrunesAll` | crates/bat-markets-core/src/state.rs:157-163 | a replacement drops exactly the data of unknown instruments, in all eight maps, and keeps the rest unchanged |
| `EngineProperties.QueueIsFirstOccurrences` | crates/bat-markets-core/src/state.rs:125-138 | the queue is the first occurrences in arrival order iff the distinct ids fit the capacity |
| `EngineProperties.PushExecutionsConcat` | crates/bat-markets-core/src/state.rs:224-245 | merging two batches in turn is merging their concatenation |
| `EngineProperties.MergeIsFillByFill` | crates/bat-markets-core/src/state.rs:224-245 | a merge gives the queue of applying its executions one by one |
| `EngineProperties.ReplayIsIdempotent` | crates/bat-markets-core/src/state.rs:125-138 | replaying any applied executions changes nothing iff the distinct ids fit the capacity (or it is zero) |
| `EngineProperties.CollectLast` | crates/bat-markets-core/src/state.rs:158-192 | collecting by key keeps the last entry of every key |
| `EngineProperties.SnapshotConverges` | crates/bat-markets-core/src/state.rs:165-253 | after a snapshot open orders and positions (and balances and summary, if it has an account part) are the snapshot's own whatever came before; settled orders it does not name survive |
| `EngineProperties.SnapshotIdempotent` | crates/bat-markets-core/src/state.rs:247-253 | applying a snapshot twice is applying it once |
| `EngineProperties.BothPositionsShown` | crates/bat-markets-core/src/state.rs:116-120 | two position updates both stay visible iff they name different instruments |
| `EngineHistory.EngineHealthIsARun` | crates/bat-markets-core/src/state.rs:78-282 | over every run the engine's health is that of the health machine after exactly the events the operations tell it, so its invariants hold |
| `EngineHistory.LatestIsNewest` | crates/bat-markets-core/src/state.rs:187-245 | a batch is observed at the newest of its timestamps |
| `EngineHistory.BalanceTimeIsNewest` | crates/bat-markets-core/src/state.rs:172-181 | an account snapshot without summary at the newest of the balances it leaves |
| `EngineHistory.LatestEventWins` | crates/bat-markets-core/src/state.rs:78-108 | over every run what is shown for an instrument is the latest accepted event since it became known |
| `EngineHistory.TradeQueueIsWindow` | crates/bat-markets-core/src/state.rs:440-461 | the trade queue is the newest part of the accepted trades without adjacent repeats |
| `EngineHistory.LiquidationQueueIsWindow` | crates/bat-markets-core/src/state.rs:495-510 | the liquidation queue is the newest part of the accepted liquidations |
| `EngineHistory.UpdatesExtendSnapshot` | crates/bat-markets-core/src/state.rs:110-147 | after a snapshot and any updates the account is, per key, the last of the snapshot's entries and the updates |
| `AccountHistory.OrdersFollowHistory` | crates/bat-markets-core/src/state.rs:110-253 | over every run `orders` shows, per id, the last order among updates, history merges and snapshots, absent iff it was open and a later snapshot does not name it |
| `AccountHistory.OpenOrdersFollowHistory` | crates/bat-markets-core/src/state.rs:368-379 | the open orders are those that are new or partially filled |
| `AccountHistory.PositionsFollowHistory` | crates/bat-markets-core/src/state.rs:110-253 | per instrument the last update or snapshot entry, and none that the last snapshot left out |
| `AccountHistory.BalancesFollowHistory` | crates/bat-markets-core/src/state.rs:110-253 | per asset likewise since the last snapshot with an account part, and that part's summary |
| `AccountHistory.ExecutionsFollowHistory` | crates/bat-markets-core/src/state.rs:125-245 | the execution queue is that of pushing every fill, alone or in a batch, in order of arrival |
| `SharedStates.SharedState.constructor` | crates/bat-markets/src/client.rs:91-108 | the watch starts at the engine's health, nothing is notified |
| `SharedStates.SharedState.PublishHealth` | crates/bat-markets/src/client.rs:128-142 | the watch and the notifications stay those of the whole history of healths |
| `SharedStates.SharedState.Write` | crates/bat-markets/src/client.rs:122-145 | a write of any operations performs them in order and keeps that invariant |
| `SharedStates.SharedState.CheckBatch` | crates/bat-markets/src/client.rs:173-185 | the pre-check loop |
| `SharedStates.SharedState.ApplyInOrder` | crates/bat-markets/src/client.rs:186-189 | applies up to the first error |
| `SharedStates.SharedState.ApplyPublicEvents` | crates/bat-markets/src/client.rs:167-197 | state and broadcasts of a batch, nothing is broadcast on an error, and watch and notifications stay those of the history |
| `SharedStates.SharedState.ApplyPrivateEvents` | crates/bat-markets/src/client.rs:209-223 | all events applied, then broadcast in order, and watch and notifications stay those of the history |
| `SharedStates.PreCheckIsExact` | crates/bat-markets/src/client.rs:603-616 | the pre-check names exactly the events whose application fails; no event changes the known instruments |
| `SharedStates.BatchIsAllOrNothing` | crates/bat-markets/src/client.rs:167-197 | either every event is applied in order or an error leaves the state as it was, decided by the instruments known beforehand |
| `SharedStates.UncheckedBatchIsPartial` | crates/bat-markets/src/client.rs:173-188 | without the pre-check it would not be so |
| `SharedStates.PublishedChain` | crates/bat-markets/src/client.rs:592-601 | for any history of healths the watch lags in no published field and the notifications form a chain |
| `SharedStates.NotifiedDiffer` | crates/bat-markets/src/client.rs:592-601 | every notification changes one of the eight published fields |
| `SharedStates.WatchFollowsHealth` | crates/bat-markets/src/client.rs:122-145 | in every shared state, after any of its writes, watch and health agree in the eight published fields, every notification changes one, and they lead to the watched health without a gap |
| `MaxRegister.NextGrows` | crates/bat-markets/src/diagnostics.rs:343-351 | the cell changes only by a successful exchange, to a larger sample |
| `MaxRegister.RunInvariant` | crates/bat-markets/src/diagnostics.rs:322-351 | invariant over every interleaving, stale load and spurious failure |
| `MaxRegister.CellNeverDecreases` | crates/bat-markets/src/diagnostics.rs:343-351 | the cell only grows |
| `MaxRegister.CellIsASample` | crates/bat-markets/src/diagnostics.rs:343-351 | it holds zero or an observed sample, and no less than the sample of an observer that has returned |
| `MaxRegister.QuiescentMaximum` | crates/bat-markets/src/diagnostics.rs:343-351 | at quiescence it is the exact maximum |
| `MaxRegister.QuiescentCounters` | crates/bat-markets/src/diagnostics.rs:322-328 | and the counters are the number and the sum of the samples modulo 2^64 |
| `MaxRegister.AverageAtMostMaximum` | crates/bat-markets/src/diagnostics.rs:45-64 | without wrap-around total <= operations * maximum |
| `OrderPlan.QuantizeBounds` | crates/bat-markets-testing/src/live_trade_cycle.rs:1901-1909 | rounding down stays below, rounding up above a non-negative value |
| `OrderPlan.QuantizeOnGrid` | crates/bat-markets-testing/src/live_trade_cycle.rs:1901-1909 | with the step on the decimal grid both give the neighbouring multiple of the step |
| `OrderPlan.GreatestMultiple` | crates/bat-markets-testing/src/live_trade_cycle.rs:1901-1904 | rounding down gives the greatest multiple of the step that is no larger |
| `OrderPlan.LeastMultiple` | crates/bat-markets-testing/src/live_trade_cycle.rs:1906-1909 | rounding up gives the least that is no smaller |
| `OrderPlan.PlanMeetsLimits` | crates/bat-markets-testing/src/live_trade_cycle.rs:1246-1313 | minimum quantity, 1.05 times minimum notional, and the budget |
| `OrderPlan.PlanKeepsDistance` | crates/bat-markets-testing/src/live_trade_cycle.rs:1246-1313 | the maker sell is at least 8 ticks above the ask, the maker buy at least 8 below a bid of at least 9 ticks, and they are ordered |
| `OrderPlan.MakerBuyDistance` | crates/bat-markets-testing/src/live_trade_cycle.rs:1246-1313 | on the price grid the maker buy keeps its distance iff the bid is at least 9 ticks |
| `OrderPlan.LeastQuantity` | crates/bat-markets-testing/src/live_trade_cycle.rs:1246-1313 | the planned quantity is the least multiple of the step meeting the minimum quantity and 1.05 times the minimum notional |
| `OrderPlan.MakerPricesExact` | crates/bat-markets-testing/src/live_trade_cycle.rs:1246-1313 | the maker sell is the least tick multiple 8 ticks above the ask, the maker buy the greatest 8 below the bid or one tick |
| `OrderPlan.PlanExists` | crates/bat-markets-testing/src/live_trade_cycle.rs:1246-1313 | for an uncrossed book there is a plan iff the quantity is positive and within the budget |
| `OrderPlan.TriggersBracketEntry` | crates/bat-markets-testing/src/live_trade_cycle.rs:1219-1238 | stop < entry < take-profit when the entry is above one tick |
| `OrderPlan.StopBelowEntry` | crates/bat-markets-testing/src/live_trade_cycle.rs:1219-1238 | on the price grid only then |
| `OrderPlan.TriggersExact` | crates/bat-markets-testing/src/live_trade_cycle.rs:1219-1238 | the triggers are the nearest tick multiples beyond 0.35 percent of the entry and beyond 40 ticks |
| `OrderPlan.SellLadder` | crates/bat-markets-testing/src/live_trade_cycle.rs:1146-1217 | sell rung n is exactly n ticks above rung zero |
| `OrderPlan.BuyLadder` | crates/bat-markets-testing/src/live_trade_cycle.rs:1146-1217 | buy rung n is n ticks below rung zero, clamped at one tick |
| `OrderPlan.LadderExact` | crates/bat-markets-testing/src/live_trade_cycle.rs:1146-1244 | rung n is the nearest tick multiple n ticks beyond 0.4 percent of the ask and beyond 50 ticks |
| `OrderPlan.BuyPricesDiffer` | crates/bat-markets-testing/src/live_trade_cycle.rs:1146-1217 | two buy prices are equal iff the higher one is already clamped |
| `OrderPlan.BurstPricesDiffer` | crates/bat-markets-testing/src/live_trade_cycle.rs:1146-1217 | over all rounds no two orders of a side share a price, as long as buys are not clamped |

## Left out

- OhlcvPaging.FetchOhlcvWindow: requires that every Bybit page holds a candle of the window no later than the requested end, or none of the window, because the loop need not end otherwise (`StubbornPagesNeverEnd`).
- PerInstrumentPaging.WindowExactlyWhenSeparated: monthly windows that begin before the year -9999, where early candles have no close time, are covered by `ExactlyWhenSeparated` only if their candles all have one.
- OhlcvPaging.FlattenGroups: the `expect` on a missing group is the error value `Panic`.
- KlineCalendar.CloseTime: the addition `open + duration - 1` does not overflow here; in the source it is 64-bit and overflows within a week of the last representable millisecond.
- OrderPlan.BuildPlan: arithmetic is exact; the 28-digit precision of the decimal library and its overflow are not modelled, nor are the book fetch and the venue limits it reads.
- OrderPlan.BurstPricesDiffer: the assembly of the order requests (client ids, sides by index, time in force) is left out; the ladder of both sides is modelled.
- Health.HealthReport.MarkReconnect: the 64-bit wrap-around of the reconnect counter is not modelled.
- Response id extraction from JSON (crates/bat-markets/src/transport.rs:423-444): a frame is given with its id, or with none.
- Connecting and authenticating a command session (crates/bat-markets/src/transport.rs:139-185, 325-421): it succeeds or fails as the environment says.
- The stream runners, REST calls, rate limiter and reconcile of crates/bat-markets/src/runtime.rs: the environment.
- Cancellation of an `acquire` future between its command and the reply: the caller is taken to wait.
- Order of health notifications between concurrent writers, which are sent after the lock is released: writes are sequential.
- Loss and lag on broadcast channels, except where a command handle receives: there a lost message is a receive error.
- Payloads are reduced to the fields the state logic reads; the conversion of fast integers by an instrument's scale is `Engine.Unify`.
- Sorted iteration order of the state's ordered maps and the readers of `EngineState` other than `open_orders`: they only copy.
- `AtomicLockDiagnostics` (crates/bat-markets/src/diagnostics.rs:285-314): two copies of the counters and the maximum that are modelled.
- A snapshot of the diagnostics read while observers run: three independent loads, with no promise beyond those about each cell.
- Native payload decoding, the adapters, the instrument catalog and the ticker cache: field copies that would add only easy members.
- Signing, configuration, capability tables, id types, interval parsing and the typed watch wrappers: no state or loop to prove anything about.
