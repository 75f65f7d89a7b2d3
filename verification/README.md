# Verified model of the Go SDK's quoting and streaming core

This Dafny project models the parts of the Go SDK where concurrency, exact arithmetic and state have to fit together, and
proves what they promise. Each component is written twice: as functions or as a state machine whose steps are the sections the
source runs under a lock, about which the theorems are proved, and, where the source updates objects or loops over local
variables, as methods proved to compute exactly those functions or steps. Schedules, replies, failures and cancellations are
arbitrary in every theorem about runs.

- **Exact decimals** (`Decimals`, `DecimalRounding`, `DecimalText`, `DecimalMeaning`, with `Arith` and `Text`): integers with
  a 32-bit scale, their meaning as rational numbers, tick flooring, basis points, the parser against a grammar, and the
  printer.
- **The ledger of resting orders** (`Ledger`, `LedgerMeaning`, `Convergence`, `Handoff`, `HandoffTiming`, `HandoffHistory`,
  `Streaming`): what order events and snapshots do to it, field by field, why replaying the stream over any snapshot
  converges, and the handoff between fetching orders and following the stream.
- **Quote reconciliation** (`QuoteDiff`, `Targets`, `BoundedWorkers`, `SyncCycle`, `CycleReplies`, `SyncOutcome`,
  `TolerantFixpoint`, `EndedOrders`, `LiveOrders`, `Reconciler`, with `Counting`): target validation, the greedy diff
  and its optimality, the concurrent cancel and placement phases, reply by reply, the exposure bound, and the fixpoint.
- **The WebSocket client** (`WireGates`, `SubscriptionChannel`, `EventPump`, `FeedKeys`, `FeedRegistry`, `Lifecycle`,
  `DisconnectCleanup`): per-feed gates, the send/close handshake, event delivery, agreement of subscription tables and
  active feeds, the connection lifecycle, and the cleanup of what a lost connection leaves.
- **Token refresh** (`TokenRefresh`): one refresh shared by all callers.

`Wrappers` holds the optional value. `dafny verify dfyconfig.toml` checks everything.

## What the proofs found

Where a property does not hold of the code as it is, the model keeps the code, a lemma names the input, and another one states
the exact condition:

- The parser strips one sign and lets the integer parser take another, so `++5` and `+-5` are accepted; the accepted texts are
  exactly those of a grammar (`DecimalText.ParseAccepts`).
- Printing and parsing is a round trip exactly up to 1000 printed digits (`DecimalText.RoundTrip`, `DecimalText.LongestFraction`).
- The duplicate check by text misses a duplicate of a quote exactly when its price or amount is printed with a zero at the end
  of its places (`Targets.DuplicateFoundIffPlain`, `Targets.KeyMissesDuplicates`).
- Tick flooring returns a number unrounded when its scale is too far from the tick's, so order can be lost
  (`DecimalRounding.RoundToTickKeepsOrderIff`, `DecimalRounding.RoundToTickLosesOrder`).
- Replay is absorbed for every event except an amendment without a side (`Convergence.ReplaySafeIffSided`,
  `Convergence.SomeReplayFails`).
- Where the initial hydration and the reader's fall into one generation, the second one comes after the handoff and can lose an
  event; the comment in the source says that the startup race is eliminated (`HandoffTiming.BeginSafeIff`,
  `HandoffTiming.EitherCanBeOvertaken`).
- The placement commit puts back an order that has already ended exactly when its terminal event came before the commit
  (`EndedOrders.EndedOrderBackIff`, `EndedOrders.EndedOrderReinserted`).
- With a tolerance, a realized ledger is left alone at all ages exactly when no target can be starved by earlier ones
  (`TolerantFixpoint.FixpointIffNobodyStarves`, `TolerantFixpoint.NeighboursStarve`).
- Depth feeds of a symbol stay consistent exactly when it does not begin with `@` (`FeedRegistry.ConsistentIffPlainSymbol`,
  `FeedRegistry.AtSymbolBreaks`).
- After reconnecting is given up, the cleanup of the subscriptions waits for the gate; a connect call that gets it first and
  fails to dial makes that cleanup stale, and the subscriptions stay open on a disconnected client
  (`DisconnectCleanup.SubscriptionsCanBeLeft`). Without such a call they are failed or
  a task is about to (`DisconnectCleanup.DisconnectCleansUp`), and any such call can do this (`DisconnectCleanup.OvertakingLeavesBehind`).
- A refresh reply with a blank refresh token replaces a usable one; the source can refresh again exactly otherwise
  (`TokenRefresh.RefreshableAgain`, `TokenRefresh.BlankRefreshTokenLocks`).

Two guards of the connection lifecycle never fire (`Lifecycle.GuardsNeverFire`).

## Model

| member | source | states |
|---|---|---|
| `Decimals.NormalizeMeaning` | packages/sdk-go/types/decimal.go:520-543 | stripping trailing zeros keeps the number, at every scale it can be read at, and yields a normal form |
| `Decimals.NormalizeLoop` | packages/sdk-go/types/decimal.go:520-543 | the strip loop, over its changing value and scale, computes the recursive normal form |
| `Decimals.AlignMeaning` | packages/sdk-go/types/decimal.go:545-562 | aligning rewrites both operands at the larger scale without changing either number |
| `Decimals.CmpMeaning` | packages/sdk-go/types/decimal.go:326-330 | the comparison result is the order of the two rational numbers, by cross-multiplied integers |
| `Decimals.CmpEqualTransitive` | packages/sdk-go/types/decimal.go:326-335 | numbers that compare equal compare alike against every third number |
| `Decimals.AddSubMeaning` | packages/sdk-go/types/decimal.go:373-385 | addition and subtraction are exact |
| `Decimals.MulMeaning` | packages/sdk-go/types/decimal.go:387-393 | multiplication is exact whenever the summed scale fits 32 bits |
| `Decimals.NormalFormUnique` | packages/sdk-go/types/decimal.go:326-335 | two normal forms with a scale that is not negative compare equal exactly when they are the same decimal |
| `Decimals.DivMeaning` | packages/sdk-go/types/decimal.go:395-430 | division succeeds exactly for a non-zero divisor inside the precision and scale bounds, and is then the rational quotient cut off toward zero at the given precision |
| `DecimalRounding.TickCountIsFloor` | packages/sdk-go/types/decimal.go:432-448 | the number of whole ticks is the floor of the quotient, for either sign |
| `DecimalRounding.RoundToTickFloors` | packages/sdk-go/types/decimal.go:432-448 | the rounded value is the greatest multiple of the tick that is not above the number |
| `DecimalRounding.RoundToTickIdempotent` | packages/sdk-go/types/decimal.go:432-448 | rounding twice is rounding once, for every decimal and every tick, also where rounding is refused |
| `DecimalRounding.RoundToTickMonotone` | packages/sdk-go/types/decimal.go:432-448 | rounding the smaller of two numbers keeps their order, whether or not the larger one is rounded |
| `DecimalRounding.RoundToTickKeepsOrderIff` | packages/sdk-go/types/decimal.go:408-448 | rounding keeps the order of two numbers exactly when the smaller is rounded, or the larger is not, or a multiple of the tick lies between them |
| `DecimalRounding.RoundToTickLosesOrder` | packages/sdk-go/types/decimal.go:408-448 | the sum of 1 and 10 to the minus 999 comes back unrounded for a tick of 100, and 2 is floored below it |
| `DecimalRounding.DivNeg` | packages/sdk-go/types/decimal.go:395-430 | dividing the negated number gives the negated quotient or the same refusal |
| `DecimalRounding.BpsOpposite` | packages/sdk-go/types/decimal.go:465-489 | adding and subtracting the same basis points move a price by exactly opposite amounts |
| `DecimalRounding.AddBpsTruncates` | packages/sdk-go/types/decimal.go:465-484 | the adjustment is the exact one cut off toward zero at the kept number of places |
| `DecimalMeaning.MoveByPoints` | packages/sdk-go/types/decimal.go:465-489 | a move by basis points adds ten-thousandths of the price, cut off at eight places or four more than the price has; it leaves the price exactly for zero points and where that division is refused |
| `DecimalMeaning.DivRefusals` | packages/sdk-go/types/decimal.go:395-430 | which of the three refusals a division gives, on its operands: a zero divisor, more than 1000 places, or a scale or scale difference beyond 1000; a negative precision stands for eight |
| `DecimalText.ParseDecimalText` | packages/sdk-go/types/decimal.go:146-232 | the imperative parser, with its successive updates of text, sign and exponent, computes the parsing function |
| `DecimalText.ParseMantissaText` | packages/sdk-go/types/decimal.go:183-231 | its second half, with the digits and the scale updated in place, computes the mantissa function |
| `DecimalText.ParseMeaning` | packages/sdk-go/types/decimal.go:146-232 | a text that is a literal up to surrounding white space is accepted exactly within the size limits, and then parses to the number it denotes |
| `DecimalText.ParseAccepts` | packages/sdk-go/types/decimal.go:146-232 | a text is accepted exactly when it is, up to white space, a bounded literal; the grammar includes the second sign that the code lets through |
| `DecimalText.ParsedIsNormal` | packages/sdk-go/types/decimal.go:229-231 | a parsed decimal is in normal form with a scale between 0 and 1000 |
| `DecimalText.PrintText` | packages/sdk-go/types/decimal.go:234-283 | the imperative printer computes the printing function |
| `DecimalText.RoundTrip` | packages/sdk-go/types/decimal.go:146-283 | printing and parsing gives the normal form back exactly when the print has at most 1000 digits |
| `DecimalText.RoundTripNormal` | packages/sdk-go/types/decimal.go:146-283 | so a normal form with a scale that is not negative comes back itself when its print has at most 1000 digits |
| `DecimalText.LongestFraction` | packages/sdk-go/types/decimal.go:202-219 | the text 1e-1000 parses, and its print does not |
| `DecimalMeaning.PrintMeans` | packages/sdk-go/types/decimal.go:234-283 | a print is a minus sign for negative numbers only, at least one digit, and as many digits after the point as the scale says; its digits read as one number are the decimal at that many places |
| `DecimalMeaning.ParseNumeral` | packages/sdk-go/types/decimal.go:146-232 | a signed numeral with a digit before the point parses exactly when it has at most 1000 digits, to the normal form of the number its digits denote |
| `DecimalText.PrintTellsApart` | packages/sdk-go/types/decimal.go:234-283 | two decimals print alike exactly when they are the same number with the same number of printed places |
| `DecimalText.PrintsNormallyIff` | packages/sdk-go/types/decimal.go:234-283 | a decimal prints like its normal form exactly when it is zero, has no places, or does not end in a zero |
| `DecimalText.PrintInjective` | packages/sdk-go/types/decimal.go:234-283 | on decimals that print so, equal prints and equal numbers coincide |
| `DecimalText.PrintNotInjectiveOffNormalForm` | packages/sdk-go/types/decimal.go:78-87 | an instance off that condition: 1.50 and 1.5 compare equal and print differently |
| `Ledger.ApplyKeepsGood` | packages/sdk-go/services/reconciler_stream.go:34-143 | whatever an order event says, every entry stays keyed by its own ID, on a valid side, with a positive amount no larger than the original one |
| `Ledger.ListedIsGood` | packages/sdk-go/services/reconciler.go:177-227 | an accepted listed order becomes such an entry |
| `Ledger.SubBelow` | packages/sdk-go/services/reconciler.go:192-199 | subtracting a positive executed quantity leaves less than the original amount |
| `Ledger.SnapshotIsGood` | packages/sdk-go/services/reconciler.go:177-228 | so every snapshot is a well-formed ledger |
| `Ledger.SnapshotEntry` | packages/sdk-go/services/reconciler.go:177-228 | an ID is in the snapshot exactly when the function on single listed orders accepts an order under it, and the entry is the last such order’s; `LedgerMeaning.HydratedLedger` says what it accepts |
| `Ledger.ApplyConcat` | packages/sdk-go/services/reconciler_stream.go:230-232 | applying two batches one after the other is applying their concatenation |
| `LedgerMeaning.StatusTexts` | packages/sdk-go/services/reconciler_stream.go:47-110 | statuses are recognized by thirteen texts, in upper case |
| `LedgerMeaning.ForeignEvent` | packages/sdk-go/services/reconciler_stream.go:34-43 | an event for another symbol or without a positive order ID changes nothing |
| `LedgerMeaning.OpeningEvent` | packages/sdk-go/services/reconciler_stream.go:51-63 | under NEW, ACCEPTED, BOOKED or OPEN the ledger holds the event’s own ID, client ID and side, the parsed price as price and the parsed quantity as amount and original amount, with other IDs unchanged; without a valid side and positive numbers nothing changes |
| `LedgerMeaning.ChangingEvent` | packages/sdk-go/services/reconciler_stream.go:65-105 | under MODIFIED, AMENDED or REPLACED an order gets the parsed price, the remaining amount and the quantity as original amount, and keeps its side and client ID where the event names none; an unknown order is created if a side is named, nothing left removes the order, and an unsound event changes nothing |
| `LedgerMeaning.EndingEvent` | packages/sdk-go/services/reconciler_stream.go:107-108 | under the five terminal texts the order is removed and nothing else changes |
| `LedgerMeaning.FillingEvent` | packages/sdk-go/services/reconciler_stream.go:110-141 | a partial fill changes only the amount of its order, unless it exceeds the original amount; it creates an unknown order from price, side and the larger quantity; nothing left removes the order |
| `LedgerMeaning.UnknownEvent` | packages/sdk-go/services/reconciler_stream.go:47-143 | an event with any other status changes nothing |
| `LedgerMeaning.HydratedLedger` | packages/sdk-go/services/reconciler.go:177-228 | an ID is in the hydrated ledger exactly when a listed order has it, with a matching or missing symbol, numbers as price and amount, a known side, and less executed than ordered; the last such order gives the entry its side, price, client ID and original amount, and an amount that makes up the original with the executed part |
| `LedgerMeaning.SidelessMeans` | packages/sdk-go/services/reconciler_stream.go:65-95 | the events whose replay is not absorbed are the sound amendments with something left and an empty side |
| `Convergence.ReplayAbsorbed` | packages/sdk-go/services/reconciler_stream.go:34-143 | replaying sided events that the ledger already reflects changes nothing, for any ledger and any events, malformed ones included |
| `Convergence.HydrationConverges` | packages/sdk-go/services/reconciler_stream.go:162-165 | whichever prefix of the stream the fetched orders reflect, replaying the whole stream over them gives the ledger the stream makes of the state at subscription time |
| `Convergence.SidelessBreaks` | packages/sdk-go/services/reconciler_stream.go:81-95 | an amendment without a side, followed by a fill that creates its order, is not absorbed on replay |
| `Convergence.SomeReplayFails` | packages/sdk-go/services/reconciler_stream.go:65-105 | for every symbol there are such two events |
| `Convergence.ReflectedByAllIffInert` | packages/sdk-go/services/reconciler_stream.go:34-143 | events change no well-formed ledger exactly when each of them is for another ledger or is ignored |
| `Convergence.ReplaySafeIffSided` | packages/sdk-go/services/reconciler_stream.go:34-143 | an event can be replayed among all sided events exactly when it is not an amendment without a side |
| `Handoff.NextKeeps` | packages/sdk-go/services/reconciler_stream.go:186-234 | every step of reader, hydration and reconnect keeps the queue, the taken batches and the ledger in agreement |
| `Handoff.RunKeeps` | packages/sdk-go/services/reconciler_stream.go:186-320 | so does every run |
| `Handoff.HandoffIsExact` | packages/sdk-go/services/reconciler_stream.go:186-320 | in every interleaving, once the handoff is done none was dropped and the ledger is the generation’s snapshot with each of its events applied once, first occurrences in arrival order, except those that came before a late snapshot; with all hydrations on time there are none, and otherwise the ledger is right exactly when the snapshot reflects them |
| `Handoff.HandoffFollowsStream` | packages/sdk-go/services/reconciler_stream.go:162-165 | with sided events and a snapshot of any prefix that includes the missed ones, the ledger is the one the whole stream makes |
| `HandoffHistory.FirstOccurrencesMean` | packages/sdk-go/services/reconciler_stream.go:19-32 | deduplication keeps each event once, in the order of first appearance |
| `HandoffHistory.HandoffAppliesArrivals` | packages/sdk-go/services/reconciler_stream.go:186-320 | in every run with hydrations on time, read off its steps alone: the ledger is the last open orders fetched in the generation with all events applied that arrived since the connection was last lost, in arrival order, without repetitions among those that were queued |
| `HandoffHistory.FailuresStop` | packages/sdk-go/services/reconciler_stream.go:190-219 | a failed fetch and a full queue stop the stream exactly when the generation is still current, and touch neither queue nor ledger |
| `HandoffTiming.EitherCanBeOvertaken` | packages/sdk-go/services/reconciler_stream.go:190-291 | each of the two hydrations can be overtaken: the reader’s or the initial one can hand the generation off while the other is still to come |
| `HandoffTiming.LateReaderLeavesSnapshot` | packages/sdk-go/services/reconciler_stream.go:278-291 | a late hydration by the reader leaves exactly its snapshot, and is right exactly when that reflects all events of the generation |
| `HandoffTiming.LateBeginLoses` | packages/sdk-go/services/reconciler_stream.go:324-333 | an initial hydration that begins after the handoff can lose an event |
| `HandoffTiming.BothDueLoses` | packages/sdk-go/services/reconciler_stream.go:266-291 | where both hydrations are due in one generation the second one can lose an event |
| `HandoffTiming.BeginSafeIff` | packages/sdk-go/services/reconciler_stream.go:186-333 | in every reachable state and for both kinds of hydration, over all continuations: beginning one is safe exactly when the stream is not handed off and the other one is not due as well or the queue has overflowed, or when it is the reader’s and the generation’s events are all inert |
| `Streaming.OrderStream.constructor` | packages/sdk-go/services/reconciler_stream.go:177-184 | the shared variables start in the protocol’s initial state |
| `Streaming.OrderStream.EnqueuePending` | packages/sdk-go/services/reconciler_stream.go:19-32 | queues an event unless an equal one was seen, and refuses it exactly when 4096 others are queued |
| `Streaming.OrderStream.Receive` | packages/sdk-go/services/reconciler_stream.go:293-319 | takes an event to the queue while hydrating, and straight to the ledger otherwise |
| `Streaming.OrderStream.ConnectionLost` | packages/sdk-go/services/reconciler_stream.go:267-277 | starts a new generation with an empty queue, once per recovery |
| `Streaming.OrderStream.TakeBatch` | packages/sdk-go/services/reconciler_stream.go:208-228 | reports a stale generation, an overflow or an empty queue, each exactly when it is one, ends the handoff on an empty queue, and otherwise swaps out the queue |
| `Streaming.OrderStream.ReplayBatch` | packages/sdk-go/services/reconciler_stream.go:230-232 | applies a batch in order |
| `Streaming.OrderStream.HydrateAndReplay` | packages/sdk-go/services/reconciler_stream.go:186-234 | undisturbed, a hydration leaves the snapshot with the queued events applied and the handoff done; it fails exactly without a reply or after an overflow |
| `Reconciler.QuoteReconciler.constructor` | packages/sdk-go/services/reconciler.go:115-131 | an empty ledger for the trimmed upper-case symbol |
| `Reconciler.QuoteReconciler.ApplyOrderEvent` | packages/sdk-go/services/reconciler_stream.go:34-143 | the branches of the event handler, updating the ledger in place, compute the ledger that the `LedgerMeaning` results describe event by event, and keep it well formed |
| `Reconciler.QuoteReconciler.ApplyOpened` | packages/sdk-go/services/reconciler_stream.go:51-63 | the branches for opening events do what the decoded event says; `LedgerMeaning.OpeningEvent` says that on the event’s fields |
| `Reconciler.QuoteReconciler.ApplyChanged` | packages/sdk-go/services/reconciler_stream.go:65-105 | an amendment changes, creates, removes or ignores the order, by the remaining quantity, the side and the client ID |
| `Reconciler.QuoteReconciler.ApplyPartialFill` | packages/sdk-go/services/reconciler_stream.go:110-141 | a partial fill changes the amount, creates, removes or ignores the order |
| `Reconciler.QuoteReconciler.Hydrate` | packages/sdk-go/services/reconciler.go:157-229 | the loop replaces the ledger by the snapshot that `LedgerMeaning.HydratedLedger` describes, or leaves it alone without a reply |
| `Reconciler.QuoteReconciler.Diff` | packages/sdk-go/services/reconciler.go:251-309 | the nested loops over targets and orders, the matched sets and the counters compute a plan of the greedy assignment; kept and cancelled make up the ledger, kept and placed the targets, and no cancelled order has the side and amount of a placed target and a price within the tolerance |
| `Reconciler.QuoteReconciler.Match` | packages/sdk-go/services/reconciler.go:267-296 | the matched sets and the counter are those of the greedy assignment |
| `Reconciler.QuoteReconciler.FitsTarget` | packages/sdk-go/services/reconciler.go:273-289 | the in-loop checks succeed exactly for an equal side, amounts that compare equal, and a price that is equal or within a positive tolerance in truncated basis points |
| `Reconciler.QuoteReconciler.Unmatched` | packages/sdk-go/services/reconciler.go:298-302 | collects exactly the unkept orders, each once, in the map’s arbitrary order |
| `Reconciler.QuoteReconciler.UnmatchedTargets` | packages/sdk-go/services/reconciler.go:305-309 | collects exactly the unserved targets in their order |
| `Reconciler.ValidateCancelResponse` | packages/sdk-go/services/reconciler.go:141-155 | a cancel reply proves the order dead exactly when it reports not live, or reports cancelled without reporting liveness |
| `Reconciler.CycleRecord.FinishCancel` | packages/sdk-go/services/reconciler.go:321-343 | a returned cancel is recorded as cancelled exactly when the reply reports not live, or cancelled without a word on liveness, and the ID is a number, and as an error otherwise |
| `Reconciler.CycleRecord.FinishPlacement` | packages/sdk-go/services/reconciler.go:394-414 | a returned placement is recorded with the reply’s ID and the target’s fields exactly when the reply names an order and reports it neither cancelled nor dead, and as an error otherwise |
| `Reconciler.QuoteReconciler.CommitCancels` | packages/sdk-go/services/reconciler.go:351-358 | deletes exactly the entries that still equal a cancelled snapshot, and keeps the ledger well formed |
| `Reconciler.QuoteReconciler.CommitPlacements` | packages/sdk-go/services/reconciler.go:422-431 | adds placed orders under absent keys only, and keeps the ledger well formed |
| `BoundedWorkers.NextKeeps` | packages/sdk-go/services/reconciler.go:449-464 | every step of every worker keeps each claimed item in flight once or finished once |
| `BoundedWorkers.AtMostOnce` | packages/sdk-go/services/reconciler.go:436-466 | in every schedule the limit or one worker an item runs, whichever is fewer, and no item is started twice |
| `BoundedWorkers.NilMeansAllRan` | packages/sdk-go/services/reconciler.go:464-466 | a nil return means every item ran exactly once |
| `BoundedWorkers.NilReturnRanAll` | packages/sdk-go/services/reconciler.go:436-466 | so it does in every schedule from the start |
| `BoundedWorkers.CancelStopsClaims` | packages/sdk-go/services/reconciler.go:452-459 | once the context is cancelled only the workers past their check claim another item, one each |
| `BoundedWorkers.Terminates` | packages/sdk-go/services/reconciler.go:449-466 | every schedule stops within a bound, and never while a worker could still move |
| `QuoteDiff.OlderIsStrictWeak` | packages/sdk-go/services/reconciler.go:593-603 | the age comparator is a strict weak order |
| `QuoteDiff.TiedIDs` | packages/sdk-go/services/reconciler.go:583-603 | IDs tie exactly when equal or texts of one number, so ages are total on IDs without leading zeros |
| `QuoteDiff.OlderMeans` | packages/sdk-go/services/reconciler.go:593-603 | numbers come before other texts and among themselves by value; other texts by their first difference, a prefix first |
| `QuoteDiff.RestingOrdersByAge` | packages/sdk-go/services/reconciler.go:588-605 | lists every entry once, oldest first, whatever order the map yields |
| `QuoteDiff.AgeListingUnique` | packages/sdk-go/services/reconciler.go:259-265 | with such IDs the listing depends on the ledger’s contents only |
| `QuoteDiff.AssignIsMatching` | packages/sdk-go/services/reconciler.go:267-296 | the keep relation is injective and within the compatibility that `QuoteDiff.KeptPairsFit` spells out |
| `QuoteDiff.AssignServesOldest` | packages/sdk-go/services/reconciler.go:259-296 | each target took the oldest free compatible order |
| `QuoteDiff.AssignIsMaximal` | packages/sdk-go/services/reconciler.go:267-309 | no cancelled order is compatible with a placed target, at any tolerance |
| `QuoteDiff.KeptPairsFit` | packages/sdk-go/services/reconciler.go:267-296 | at any tolerance each kept order has its target’s side, an equal amount, and a price that is equal or whose truncated basis points lie within the tolerance on either side; older orders that would do as well are kept for earlier targets |
| `QuoteDiff.NoFitLeftOver` | packages/sdk-go/services/reconciler.go:267-309 | and no order that is not kept fits an unserved target in that sense |
| `QuoteDiff.GreedyKeepsHalf` | packages/sdk-go/services/reconciler.go:267-296 | at any tolerance no other assignment keeps more than twice as many |
| `QuoteDiff.KeepsOldest` | packages/sdk-go/services/reconciler.go:259-265 | with exact prices, a kept order’s older equals are kept too |
| `QuoteDiff.GreedyIsOptimal` | packages/sdk-go/services/reconciler.go:231-296 | with exact prices no other assignment keeps more |
| `Targets.NormalizeTargetsLoop` | packages/sdk-go/services/reconciler.go:468-507 | the validating loop with its set of seen keys computes the normalized targets or the first refusal, which `Targets.AcceptedTargets` and `Targets.NextTarget` describe |
| `Targets.CleanTargets` | packages/sdk-go/services/reconciler.go:481-505 | accepted targets are valid, positive, and pairwise different in key; `Targets.AcceptedTargets` says what becomes of each |
| `Targets.AcceptedTargets` | packages/sdk-go/services/reconciler.go:481-505 | each accepted target keeps its client ID, has its side trimmed and in lower case, its price floored to the greatest multiple of the tick and its amount to the greatest multiple of the lot, or as they were without a step or where rounding is refused; no two have the same side and texts |
| `Targets.ConfigRefusals` | packages/sdk-go/services/reconciler.go:469-477 | an empty symbol, then a negative tolerance, then a negative tick or lot refuses every list of targets |
| `Targets.NextTarget` | packages/sdk-go/services/reconciler.go:481-504 | after accepted targets the next one is refused for its side, then for a number that is not positive, then exactly when its price is below the tick or its amount below the lot, then when an accepted one has its side and texts |
| `Targets.RefusedAtFirst` | packages/sdk-go/services/reconciler.go:481-504 | a list is refused exactly with the refusal of its first target that does not go with the ones before it |
| `Targets.KeyInjective` | packages/sdk-go/services/reconciler.go:499 | equal keys mean equal sides and equal texts of price and amount |
| `Targets.KeyMeansEqualAsWritten` | packages/sdk-go/services/reconciler.go:499-504 | the duplicate check by text finds exactly the equal quotes that are written with the same numbers of places |
| `Targets.KeyMeansEqual` | packages/sdk-go/services/reconciler.go:499-504 | on quotes that print plainly it finds exactly the equal quotes |
| `Targets.DuplicateFoundIffPlain` | packages/sdk-go/services/reconciler.go:499-504 | a quote and its tidied form are found to be duplicates exactly when the quote prints plainly |
| `Targets.KeyMissesDuplicates` | packages/sdk-go/services/reconciler.go:499-504 | an instance off that condition: quotes at 1.50 and 1.5 are equal and have different keys |
| `Targets.EqualTargetsDifferInPlaces` | packages/sdk-go/services/reconciler.go:499-504 | equal quotes among the accepted targets are written with different numbers of places |
| `Targets.CleanTargetsDiffer` | packages/sdk-go/services/reconciler.go:499-504 | so accepted targets that print plainly are pairwise different quotes |
| `Targets.FlooredIsPlain` | packages/sdk-go/services/reconciler.go:490-495 | a price or amount floored to a step prints plainly |
| `SyncCycle.DeleteAllOnlyUnchanged` | packages/sdk-go/services/reconciler.go:607-626 | committing cancellations removes an entry exactly when it still equals a cancelled snapshot, and changes none |
| `SyncCycle.AddAbsentOnlyAdds` | packages/sdk-go/services/reconciler.go:422-431 | committing placements leaves every entry as it is and adds exactly the absent IDs, each with the first order placed under it |
| `SyncCycle.PlanBalances` | packages/sdk-go/services/reconciler.go:251-309 | kept and cancelled orders make up the ledger, kept and placed targets the targets |
| `SyncCycle.DiffIsDetermined` | packages/sdk-go/services/reconciler.go:259-309 | with IDs free of leading zeros the kept, cancelled and placed quotes depend on the ledger’s contents and the targets only, not on the map’s iteration order |
| `SyncCycle.NextKeeps` | packages/sdk-go/services/reconciler.go:311-420 | every step of the cancel and placement phases, under any schedule and replies, keeps the record of what was proved |
| `SyncCycle.ExposureBound` | packages/sdk-go/services/reconciler.go:359-364 | in a state so kept, the possibly live orders never outnumber both the ledger and the targets |
| `SyncCycle.ExposureSafe` | packages/sdk-go/services/reconciler.go:311-420 | in every run no placement is issued unless every diffed-out order is recorded as cancelled, and the orders that can be live for all the client knows never exceed the larger of the initial ledger and the targets |
| `CycleReplies.RunRecords` | packages/sdk-go/services/reconciler.go:311-420 | in every run the recorded cancellations, placements and errors are, in order, the replies that report an order dead, the replies that leave an order placed, and everything else that came back or was cut short |
| `CycleReplies.CancelledIffKilled` | packages/sdk-go/services/reconciler.go:321-343 | in every run an order is recorded as cancelled exactly when a reply to its own request reports it not live, or cancelled without a word on liveness, and its ID is a number |
| `CycleReplies.PlacesOnlyAfterDeaths` | packages/sdk-go/services/reconciler.go:359-364 | so no placement is issued unless each order to cancel was reported dead in this very run |
| `CycleReplies.PhaseEnds` | packages/sdk-go/services/reconciler.go:344-364 | placements follow exactly when nothing failed and the context did not cut the cancels short |
| `CycleReplies.GoodRepliesNoErrors` | packages/sdk-go/services/reconciler.go:311-420 | when every reply is good, nothing is cancelled and the IDs are numbers, no error is recorded |
| `CycleReplies.CommitMeaning` | packages/sdk-go/services/reconciler.go:351-431 | the first commit drops an entry exactly when a cancelled order agrees with it in all six fields; the second adds exactly the first placed orders under absent IDs |
| `CycleReplies.GoodRepliesRealizeTargets` | packages/sdk-go/services/reconciler.go:231-434 | so an undisturbed cycle at exact prices whose replies are all good and name new orders, run to its end, leaves one order per target, equal in side, price and amount, and nothing else |
| `CycleReplies.GoodRepliesThenIdle` | packages/sdk-go/services/reconciler.go:231-434 | and a second cycle over the same targets has nothing to do |
| `CycleReplies.GoodPurgeEmpties` | packages/sdk-go/services/reconciler.go:521-580 | with good replies, cancelling all leaves an undisturbed ledger empty |
| `LiveOrders.LiveNeverExceeds` | packages/sdk-go/services/reconciler.go:311-420 | in every history of cycle and exchange in which no reply reports a live order dead, or cancelled without a word on liveness, the orders that really are live never exceed it either, and no placement is live beside a diffed-out order |
| `SyncOutcome.RunKeepsGood` | packages/sdk-go/services/reconciler.go:232-434 | in every run of a cycle, interleaved with any order events, the ledger stays well formed |
| `EndedOrders.EndedOrderBackIff` | packages/sdk-go/services/reconciler.go:422-431 | in every run, an order whose last event was terminal is in the ledger exactly when the placements were committed after that event and one of them names it |
| `EndedOrders.EndedOrderReinserted` | packages/sdk-go/services/reconciler.go:366-431 | for every terminal event and target there is such a run, complete and without an error |
| `SyncOutcome.PurgeEmpties` | packages/sdk-go/services/reconciler.go:521-580 | undisturbed and fully acknowledged, cancelling all leaves an empty ledger |
| `SyncOutcome.SyncRealizesTargets` | packages/sdk-go/services/reconciler.go:231-434 | undisturbed, with exact prices, all requests successful and fresh IDs, the ledger ends up as exactly the targets |
| `SyncOutcome.RealizedIsFixpoint` | packages/sdk-go/services/reconciler.go:231-309 | a cycle over such a ledger keeps all, cancels none and places none |
| `SyncOutcome.BpsAsymmetric` | packages/sdk-go/types/decimal.go:500-511 | the basis-point difference is relative to the target, so it is not symmetric |
| `SyncOutcome.TolerantNotFixpoint` | packages/sdk-go/services/reconciler.go:277-285 | at a tolerance of 100 points the older order for 99 goes to the target 100 and leaves the target 99 unserved |
| `TolerantFixpoint.LeftAloneIffNobodyStarves` | packages/sdk-go/services/reconciler.go:259-309 | at any tolerance, every ledger of the given orders is left alone, whatever their ages, exactly when no first few targets can be matched with orders they accept so that the next target finds all it accepts taken |
| `TolerantFixpoint.FixpointIffNobodyStarves` | packages/sdk-go/services/reconciler.go:259-309 | so every ledger that realizes the targets is left alone exactly under that condition on targets and tolerance |
| `TolerantFixpoint.NeighboursStarve` | packages/sdk-go/services/reconciler.go:277-285 | the targets 100 and 99 fail it at 100 points |
| `SyncOutcome.SecondSyncIsIdle` | packages/sdk-go/services/reconciler.go:231-434 | so a second cycle over the same targets does nothing |
| `WireGates.NextKeeps` | packages/sdk-go/websocket/client_subscriptions.go:108-169 | every mutex section and channel operation keeps the gates’ tokens and counts in agreement with the operations |
| `WireGates.GatesAgree` | packages/sdk-go/websocket/client_subscriptions.go:104-169 | in every run one operation at most holds a feed’s gate; the table has the gate exactly while operations refer to it, counting them; the token is present exactly while nobody holds it; and returning it never blocks |
| `WireGates.WaiterCanTake` | packages/sdk-go/websocket/client_subscriptions.go:128-137 | a waiter can take the gate whenever nobody holds it, also after others have given up |
| `WireGates.QuietTableEmpty` | packages/sdk-go/websocket/client_subscriptions.go:149-168 | no gate is left once no operation refers to it |
| `WireGates.WireGateTable.Enter` | packages/sdk-go/websocket/client_subscriptions.go:119-126 | finds or makes the feed’s gate and adds a reference |
| `WireGates.WireGateTable.Release` | packages/sdk-go/websocket/client_subscriptions.go:140-157 | drops a reference, removing the gate with the last one and returning the token otherwise; another gate under the key is left alone |
| `WireGates.WireGateTable.Abandon` | packages/sdk-go/websocket/client_subscriptions.go:159-169 | drops a reference without touching the token |
| `SubscriptionChannel.NextKeeps` | packages/sdk-go/websocket/client.go:214-240 | every step of senders, receiver and closer keeps the counter, the flags and the channel’s contents in agreement |
| `SubscriptionChannel.HandshakeIsSafe` | packages/sdk-go/websocket/client.go:214-240 | in every run with any number of senders and closers nothing is sent on the closed channel, it is closed at most once and after every registered sender signed off, no closer that waited returns earlier, and the receiver gets what was sent in order |
| `SubscriptionChannel.SendersDeliverOnce` | packages/sdk-go/websocket/client.go:214-230 | a sender delivers the value it entered with, once, and an escaping one nothing; no sender enters after the marking |
| `SubscriptionChannel.ClosedRunIsShort` | packages/sdk-go/websocket/client.go:231-240 | once marked closed, senders and closer have a bounded number of steps left, whatever new senders do |
| `SubscriptionChannel.CloseNeverStuck` | packages/sdk-go/websocket/client.go:224-238 | every sender in flight can leave without the receiver, and then the closer can finish |
| `SubscriptionChannel.Subscription.EnterSend` | packages/sdk-go/websocket/client.go:214-221 | refused once closed, otherwise registered |
| `SubscriptionChannel.Subscription.EndSend` | packages/sdk-go/websocket/client.go:222 | signs the sender off |
| `SubscriptionChannel.Subscription.MarkClosed` | packages/sdk-go/websocket/client.go:233-236 | marks closed and releases the senders |
| `SubscriptionChannel.Subscription.CloseChannel` | packages/sdk-go/websocket/client.go:237-238 | closes a channel that was not closed before |
| `EventPump.NextKeeps` | packages/sdk-go/websocket/client.go:532-633 | every publish, pump, reader and subscriber step keeps the pipeline increasing and each subscriber’s run without gaps |
| `EventPump.LatestIsNeverLost` | packages/sdk-go/websocket/client.go:568-633 | in every run, delivered, buffered, in-hand and pending events are an increasing selection of the published ones that ends in the latest |
| `EventPump.DrainedReaderIsCurrent` | packages/sdk-go/websocket/client.go:513-522 | a reader that has emptied the channel, with the pump at rest, has seen the latest event |
| `EventPump.SubscribersMissNothing` | packages/sdk-go/websocket/client.go:524-561 | each subscriber gets every event from its registration on, in order, until its channel is closed |
| `EventPump.OnlyFullAreClosed` | packages/sdk-go/websocket/client.go:574-586 | a subscription ends exactly when it is given up or an event finds its channel full |
| `EventPump.EventHub.PublishEvent` | packages/sdk-go/websocket/client.go:568-605 | subscribers with a free place get the event and the others are forgotten; the shared channel of 32 places takes it unless full or a pump runs, when it becomes the pending one |
| `EventPump.EventHub.OfferAll` | packages/sdk-go/websocket/client.go:574-586 | the loop over the subscribers pushes to those with room and closes and forgets the others |
| `EventPump.EventHub.NextPending` | packages/sdk-go/websocket/client.go:613-621 | takes the pending event or stops the pump |
| `EventPump.EventHub.SubscribeConnectionEvents` | packages/sdk-go/websocket/client.go:532-547 | registers a new channel of at least one place |
| `EventPump.EventHub.Stop` | packages/sdk-go/websocket/client.go:550-559 | closes and forgets a subscriber that is still registered |
| `FeedKeys.KeysTellApart` | packages/sdk-go/websocket/client_subscriptions.go:242-250 | different feeds have different text keys, and all contract-status symbols share one |
| `FeedKeys.FamilyOfKey` | packages/sdk-go/websocket/client_subscriptions.go:171-189 | the variant family computed from a key’s text is the one of the feed |
| `FeedKeys.DepthHasFamily` | packages/sdk-go/websocket/client_subscriptions.go:171-182 | a depth feed belongs to a family unless its symbol begins with an at sign |
| `FeedKeys.SameFamilyMeans` | packages/sdk-go/websocket/client_subscriptions.go:171-189 | two feeds are variants of one another exactly when both are depth feeds of symbols that agree up to their first at sign and do not begin with it, or both are the orders, the balances or the positions stream |
| `FeedRegistry.RequestKeys` | packages/sdk-go/websocket/client_subscriptions.go:60-250 | the literal feed text of each subscription call |
| `FeedRegistry.NextKeeps` | packages/sdk-go/websocket/client_subscriptions.go:224-661 | every publish, acknowledgement, refusal, removal and clearing keeps tables, active feeds, subscriptions and waiting operations in agreement |
| `FeedRegistry.RegistryIsConsistent` | packages/sdk-go/websocket/client_subscriptions.go:171-661 | in every run over such symbols a feed is active exactly when subscriptions are listed for it, every listed one is open and listed once, one variant of a family is active at most, and one RFQ scope at most |
| `FeedRegistry.PublishedKeeps` | packages/sdk-go/websocket/client_subscriptions.go:268-287 | publishing before the acknowledgement keeps the agreement |
| `FeedRegistry.NackKeeps` | packages/sdk-go/websocket/client_subscriptions.go:583-661 | so does taking a refused subscription back, although it removes the shared contract key whenever its own list is empty |
| `FeedRegistry.PublishScope` | packages/sdk-go/websocket/rfq.go:147-185 | checking the scope and publishing later under the scope mutex never makes both RFQ scopes active |
| `FeedRegistry.AtSymbolBreaks` | packages/sdk-go/websocket/client_subscriptions.go:179-181 | for a symbol that begins with an at sign two depth variants get active, and removing one leaves the other active without subscriptions |
| `FeedRegistry.ConsistentIffPlainSymbol` | packages/sdk-go/websocket/client_subscriptions.go:171-189 | the depth feeds of a symbol stay consistent in every run exactly when it does not begin with an at sign |
| `FeedRegistry.SubscriptionRegistry.ValidateActiveVariant` | packages/sdk-go/websocket/client_subscriptions.go:191-202 | the loop over the active keys, comparing family texts, finds exactly the conflicts |
| `FeedRegistry.SubscriptionRegistry.PublishSubscription` | packages/sdk-go/websocket/client_subscriptions.go:268-286 | refused exactly when another active key has the same family text; otherwise the subscription is appended to its list, and the key is added exactly when it was not active or the list was empty |
| `FeedRegistry.SubscriptionRegistry.RemoveSubscription` | packages/sdk-go/websocket/client_subscriptions.go:583-661 | the loop removes the subscription from its list, and the list and key when nothing remains |
| `FeedRegistry.SubscriptionRegistry.UnsubscribeAll` | packages/sdk-go/websocket/client_subscriptions.go:331-366 | removes a whole list and its key, keeping the shared contract key while other contract symbols are listed |
| `FeedRegistry.SubscriptionRegistry.Clear` | packages/sdk-go/websocket/client_connection.go:778-782 | empties tables and active feeds |
| `Lifecycle.NextKeeps` | packages/sdk-go/websocket/client_connection.go:202-818 | every step of connect calls, read pumps, reconnect loops, replays and cleanups keeps client, gate and goroutines in agreement |
| `Lifecycle.ConnectionMatchesState` | packages/sdk-go/websocket/client_connection.go:202-818 | in every run a connection is installed exactly while connected, it is the current lifecycle’s, and no cleanup swapped the tables for an older lifecycle or under an installed connection |
| `Lifecycle.WaitersHaveAnOwner` | packages/sdk-go/websocket/client_connection.go:37-61 | in every run callers have an open channel to wait on exactly while an attempt is under way, and exactly one live goroutine owns the attempt |
| `Lifecycle.ClosedIsAbsorbing` | packages/sdk-go/websocket/client_connection.go:314-328 | once closed, no step changes the client or installs a connection |
| `Lifecycle.LifecycleStep` | packages/sdk-go/websocket/client_connection.go:37-50 | a lifecycle grows by one, only in the hands of the gate’s holder, and each installs at most one connection |
| `Lifecycle.LifecycleGrows` | packages/sdk-go/websocket/client_connection.go:37-50 | over whole runs lifecycles never shrink, and a closed client stays as it is |
| `Lifecycle.GuardsNeverFire` | packages/sdk-go/websocket/client_connection.go:454-466 | a read pump of the current lifecycle always finds its connection installed, and a reconnect loop never finds one |
| `Lifecycle.DropMeans` | packages/sdk-go/websocket/client_connection.go:454-503 | a drop of the current connection begins the next lifecycle: with automatic reconnecting in the reconnecting state with a new boundary and the pump going on as its loop, otherwise disconnected with the waiters released and the pump failing the subscriptions |
| `DisconnectCleanup.DisconnectCleansUp` | packages/sdk-go/websocket/client_connection.go:640-786 | in every run in which no connect call begins while a cleanup is due, a disconnected client has failed the subscriptions of all its connections or a task is on its way to |
| `DisconnectCleanup.OvertakingLeavesBehind` | packages/sdk-go/websocket/client_connection.go:745-786 | wherever a connect call does begin then, a failing dial leaves the subscriptions with no task to fail them |
| `DisconnectCleanup.SubscriptionsCanBeLeft` | packages/sdk-go/websocket/client_connection.go:640-670 | and there is a run in which one does |
| `Lifecycle.ConnectionLifecycle.StartConnectAttempt` | packages/sdk-go/websocket/client_connection.go:37-50 | bumps the lifecycle and leaves an open channel to wait on |
| `Lifecycle.ConnectionLifecycle.BroadcastConnect` | packages/sdk-go/websocket/client_connection.go:52-61 | closes the channel once |
| `Lifecycle.ConnectionLifecycle.BeginConnecting` | packages/sdk-go/websocket/client_connection.go:213-239 | starts an attempt exactly from the disconnected state |
| `Lifecycle.ConnectionLifecycle.FinishDial` | packages/sdk-go/websocket/client_connection.go:252-278 | installs the dialled connection, or settles the attempt as failed or closed |
| `Lifecycle.ConnectionLifecycle.FinishReconnectDial` | packages/sdk-go/websocket/client_connection.go:597-616 | installs the connection only for the current lifecycle of a client without one |
| `Lifecycle.ConnectionLifecycle.FinishReplay` | packages/sdk-go/websocket/client_connection.go:624-631 | settles the attempt if the connection is still current |
| `Lifecycle.ConnectionLifecycle.HandleResubscribeFailure` | packages/sdk-go/websocket/client_connection.go:801-817 | invalidates the connection and its lifecycle if it is still current |
| `Lifecycle.ConnectionLifecycle.ConnectionDropped` | packages/sdk-go/websocket/client_connection.go:454-503 | if the lost connection is still current the lifecycle ends: with automatic reconnecting the state is reconnecting with an open boundary, otherwise disconnected with the boundary settled |
| `Lifecycle.ConnectionLifecycle.GiveUp` | packages/sdk-go/websocket/client_connection.go:657-668 | disconnects and settles the attempt if it is still current |
| `Lifecycle.ConnectionLifecycle.CloseConnection` | packages/sdk-go/websocket/client_connection.go:318-328 | closes the client and drops the connection |
| `TokenRefresh.NextKeeps` | packages/sdk-go/oauth/oauth.go:464-545 | every step of callers and refresh keeps the running refresh, the outcomes and the tokens in agreement |
| `TokenRefresh.RefreshIsShared` | packages/sdk-go/oauth/oauth.go:464-545 | in every run one refresh runs at most, each waiter’s refresh runs or has an outcome, a waiter that was not cancelled returned the outcome of the refresh it joined, a refresh token is never lost, and the saved token is the one in memory whenever no refresh runs |
| `TokenRefresh.TokenChangesAfterUpdate` | packages/sdk-go/oauth/oauth.go:509-534 | the visible token changes only when a refresh finishes after its update callback saved exactly that token |
| `TokenRefresh.CallMeans` | packages/sdk-go/oauth/oauth.go:471-501 | a caller gets the current token exactly when that is not blank and not within the early window of its expiry; otherwise it is told that there is no refresh token, waits for the refresh in flight, or starts one with the current refresh token |
| `TokenRefresh.GotMeans` | packages/sdk-go/oauth/oauth.go:475-545 | a token a caller receives is the current usable one or the one that the refresh it waited for brought |
| `TokenRefresh.ReplyMeans` | packages/sdk-go/oauth/oauth.go:509-522 | a reply keeps its access token, expiry and scope; an empty refresh token is replaced by the one sent and an empty type by Bearer; with an update callback it is saved before it is published |
| `TokenRefresh.FinishMeans` | packages/sdk-go/oauth/oauth.go:524-533 | finishing publishes the token and the outcome, or the failure, and lets the next refresh start |
| `TokenRefresh.OutcomesStay` | packages/sdk-go/oauth/oauth.go:524-533 | an outcome is written once |
| `TokenRefresh.RefreshableAgain` | packages/sdk-go/oauth/oauth.go:511-513 | a refreshed source can refresh again exactly when the reply’s refresh token is empty or not blank |
| `TokenRefresh.BlankRefreshTokenLocks` | packages/sdk-go/oauth/oauth.go:481-484 | a reply with a blank refresh token leaves callers without a token once its access token expires |
| `TokenRefresh.Source.Begin` | packages/sdk-go/oauth/oauth.go:475-501 | uses the token exactly when it is not blank and not within the early window of its expiry, else gives up without a refresh token, joins the refresh in flight, or starts one |
| `TokenRefresh.Source.Finish` | packages/sdk-go/oauth/oauth.go:524-533 | publishes the result and lets the next refresh start |

## Left out

- Network, TLS, JSON, HMAC, keyrings and file writes: replies and decoded events are arbitrary inputs.
- Clocks, timeouts, backoff and jitter: cancellation and attempts happen at any time.
- Floats: the tolerance and the basis points are exact decimals, and the tolerance check uses the exact truncated basis-point
  value, so the refusal of NaN and infinite tolerances and a failing float conversion are not modelled.
- Case mapping outside ASCII, except for the letters that map to or from ASCII letters.
- Text is a sequence of characters, so the 1000-digit limit counts characters where the source counts bytes; they differ only
  on texts that are refused anyway.
- 64-bit wrap-around of generations, lifecycles and counters: they are unbounded.
- Nil big integers in a decimal: the zero decimal stands for them.
- The sorting algorithm of the standard library: `QuoteDiff.RestingOrdersByAge` inserts one entry at a time, and the theorems
  hold of any listing that is sorted by the comparator.
- Identity of maps, channels and objects: subscriptions, connections and refreshes are named by numbers, and copy-on-write
  tables are values.
- The stop, error and unsubscribe paths of the order stream's reader, and the stream's single-start flag.
- `Close` after it has marked the client closed: gates, event pump and subscription tables are modelled for states before that.
- The isolated snapshot clients, snapshot markers and liveness pump of the WebSocket client, and whether pending requests drain.
- A subscription channel without a buffer: no subscription is made with one.
- The wire frames a replay sends, and their identity check.
- FeedRegistry.RegistryIsConsistent: for depth symbols that do not begin with `@`, because the property is false for others;
  `FeedRegistry.ConsistentIffPlainSymbol` says exactly when.
- Streaming.OrderStream.HydrateAndReplay: says what an undisturbed hydration does; steps in between are those of `Handoff`.
- TolerantFixpoint.FixpointIffNobodyStarves: for prices whose scale is not negative, as parsed ones are;
  `TolerantFixpoint.LeftAloneIffNobodyStarves` has no such condition and is about the orders as they are written.
- LiveOrders.LiveNeverExceeds: for replies that do not claim a live order dead, and for the orders the ledger knows at the start.
- QuoteDiff.GreedyIsOptimal: like the other results on comparing, for scales whose differences fit 32 bits, beyond which comparison itself wraps around.
- TokenRefresh.RefreshIsShared: for a session store whose write fails without writing; a store that fails half-way is not modelled.
- REST wrappers, command-line tools, the MCP server, sports data, samples and generators: thin plumbing or easy facts.
