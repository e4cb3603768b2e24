# Matchplane: model and proofs

A Dafny model of Matchplane's correctness cores, with proofs about every run of them:

- **The limit-order-book engine.** `BookState` gives a book as a value and `apply` as a function on it, with every error branch in its order. `Matching` decides commands against the book before them; `OrderBook` is the engine itself, a class that updates its two price maps, order table and dedup sets in place, each method proved equal to the functions. On top: the index invariant (`BookInvariants`), price-time priority (`PriceTime`), all-or-nothing processing and the uncrossed book (`EngineRuns`, `LiveRuns`), exactly which events and commands are accepted (`EventRules`), replay with repeated deliveries (`LiveRuns`), snapshots and recovery (`Snapshots`), conservation and reservations (`Accounting`).
- **The cache projector.** `Decimal` is the script's arithmetic on digit strings of any length; `CacheProjector` is the script, its wrappers and the reader over six keys; `CacheRuns` compares them with a simple rule ("hold the last book installed") over every interleaving.
- **The catalog relay** (`CatalogRelay`): leased job rows under many workers, crashes, lost replies, expiring leases, superseding producers and operator replays.
- **Route expansion** (`RouteExpansion`, `RouteSafety`, `RouteReach`, `RouteCompleteness`): the bounded breadth-first loop, what it reaches, and the unbounded expansion.
- **Storefront ranking** (`RankBatches`, `RankPool`, `RankMerge`): batching, the concurrent worker pool, and the deterministic merge.
- **The admission limiter** (`Admission`): hourly windows over all admitted calls.
- **The printers**: canonical JSON (`CanonicalJson`), its exact form (`CanonicalForm`), the digest preimage built with it (`ProjectionDigest`), the bytes of both (`CanonicalBytes`) and the finance CSV (`FinanceCsv`).

`Sorting`, `Histories` and `Wrappers` hold what several of these share: uniqueness of sorted listings, folds of inputs through a state machine, and result types. `dafny verify dfyconfig.toml` checks everything.

Modelling choices that matter for reading the statements:

- Integers of Rust (`i128`, `u64`) are unbounded with the ranges written out where the source checks them; scores and boosts are `real`.
- Event identifiers derived from a command and an ordinal are a free constructor, as UUID version 5 is meant to behave (crates/matchplane-domain/src/ids.rs:193-206).
- Hash maps are maps; where the source iterates one, the model takes any order and proves that the result does not depend on it.
- A snapshot is a value. Cached JSON text is what each of its readers makes of it: the script's lenient decoder, the script's pattern for the sequence, and the typed decoder of the reader; the three agree on text the cache wrote itself.
- What the outside answers (model decisions, registry reads, ranking replies, clocks) is a parameter, and the statements hold for all answers. One SQL statement or one Lua script is one atomic step.

Where the code falls short of what its comments or shape suggest, the exact condition is proved:

- `RestoreIsIdentity`: restoring a snapshot gives the book back if and only if every queue is in acceptance order. The index invariant alone does not give that order (`RestoreReorders` has a book); live runs do (`CutRestores`).
- `RepairHeals`, `FencedGarbage`: the documentation of `repair_book` says a complete projection at the same or a newer sequence wins. The script's idea of a complete projection is weaker than the reader's: it never looks at the text under a newer marker, takes a marker that is no number for 0, and decodes an equal one with a lenient decoder and a pattern for the sequence. Where the reader refuses such a pair, a repair answers "current" and leaves it, and these are the only such states.
- `TerminalAbsorbs`, `AttemptsMonotone`, `ReplayReopens`, `WorkIsBounded`: acked rows never change. Dead and superseded rows stay closed if and only if no operator replays them (crates/matchplane-storage/src/catalog_projection.rs:252-345). A replay also resets the attempts, so the bounds on work scale with the number of replays.
- `CanonicalJsonFaithful`, `NonFinitePrintsNull`: `canonicalJson` prints a non-finite number as `null`, so it tells values apart exactly up to key order and that replacement; `stableJson` refuses such numbers.

## Model

| member | source | states |
|---|---|---|
| `BookInvariants.ApplyKeeps` | crates/matchplane-engine/src/lib.rs:227-252 | Any event whatever, valid, corrupt or repeated, leaves queues and order table in agreement |
| `BookInvariants.ListedExactlyOnce` | crates/matchplane-engine/src/lib.rs:505-707 | An order is open iff it has quantity left, iff it occurs exactly once, in the queue of its own side and price; no level is empty |
| `BookInvariants.ClosedIsFinal` | crates/matchplane-engine/src/lib.rs:597-656 | Over any later event stream a closed order never changes, and no event of the stream that is accepted names it |
| `PriceTime.MakersArePriorityList` | crates/matchplane-engine/src/lib.rs:328-379 | Walking levels and queues serves exactly the crossing opposite orders by best price then acceptance; that list is unique |
| `PriceTime.GreedyFills` | crates/matchplane-engine/src/lib.rs:328-379 | Every maker but the last is emptied, and the total is the smaller of the quantity wanted and the liquidity |
| `PriceTime.PriceTimePriority` | crates/matchplane-engine/src/lib.rs:310-382 | The events of an incoming order are its acceptance and the greedy fill of any list in price-time order (cheaper asks or dearer bids first, then earlier acceptance), numbered, each trade at the maker's limit with its buyer, seller, scope and time |
| `EngineRuns.TradesPlay` | crates/matchplane-engine/src/lib.rs:310-382 | Trades decided on the old book are all accepted one after another on the changing book; if the taker is left open no maker is |
| `EngineRuns.PlaceSound` | crates/matchplane-engine/src/lib.rs:310-382 | In a live state every event of a placement is accepted in order and keeps the log invariant |
| `EngineRuns.CloseSound` | crates/matchplane-engine/src/lib.rs:384-422 | A cancel or expiry decides one event, which is accepted and only takes orders out of the queues |
| `EngineRuns.CloseReleases` | crates/matchplane-engine/src/lib.rs:384-422 | It is granted iff the order is open and, to expire, past its time; it then releases all that is left, leaves the order closed and in no queue, and changes no other order and no queue's order |
| `EngineRuns.PlaceUncrossed` | crates/matchplane-engine/src/lib.rs:310-382 | After the events of a placement played out, every bid is below every ask again |
| `LiveRuns.ProcessAllOrNothing` | crates/matchplane-engine/src/lib.rs:179-222 | A command that fails leaves the whole book unchanged; one that succeeds applies all its events, many trades included |
| `LiveRuns.RunsAreSafe` | crates/matchplane-engine/src/lib.rs:179-252 | After any list of commands the book is sound, uncrossed, and equal to the replay of the log |
| `LiveRuns.CutsAreSound` | crates/matchplane-engine/src/lib.rs:227-252 | Wherever the log is cut, also inside a command, the replayed book is sound |
| `LiveRuns.DeliveryReplays` | crates/matchplane-engine/src/lib.rs:227-252 | Events delivered again, any number of times later, change nothing |
| `LiveRuns.DeliverySeen` | crates/matchplane-engine/src/lib.rs:227-252 | Likewise into a book that has applied part of the log before |
| `LiveRuns.ReplayEqualsLive` | crates/matchplane-engine/src/lib.rs:179-252 | Any in-order, at-least-once delivery of a live log into a fresh book gives the same full state |
| `EventRules.OrderAcceptedExactly` | crates/matchplane-engine/src/lib.rs:505-526 | An acceptance event is taken iff the order is new, positive and of the book's market and scope; the order enters open and whole at the end of its level, nothing else changes |
| `EventRules.TradeAcceptedExactly` | crates/matchplane-engine/src/lib.rs:528-595 | A trade event is taken iff an open buy and an open sell of its scope have the quantity, the maker is the earlier and sets the price, and both limits allow it; both orders lose the quantity, no other changes |
| `EventRules.CloseAcceptedExactly` | crates/matchplane-engine/src/lib.rs:597-617 | A cancel or expiry event is taken iff the order is open and exactly its remainder is released |
| `EventRules.EventRecorded` | crates/matchplane-engine/src/lib.rs:227-252 | An accepted event and its command are remembered and the sequence never falls; a repeated or refused one changes nothing |
| `EventRules.DecideExactly` | crates/matchplane-engine/src/lib.rs:384-443 | When each kind of command is granted, and for which reason it is refused otherwise |
| `EventRules.ProcessExactly` | crates/matchplane-engine/src/lib.rs:179-222 | What a live book answers to any command: nothing to one seen before, a gap to one out of order, numbered events iff it is granted, after which the shard has moved on by one |
| `EventRules.SequenceCounts` | crates/matchplane-engine/src/lib.rs:179-252 | After any run the shard sequence is the number of commands granted |
| `Snapshots.SnapshotUnique` | crates/matchplane-engine/src/lib.rs:725-739 | A book has one snapshot, whatever the order in which its hash tables iterate |
| `Snapshots.RestoreExactly` | crates/matchplane-engine/src/lib.rs:279-308 | A snapshot restores iff its orders have different identifiers and one market, tenant and domain; each level then queues its open orders as listed |
| `Snapshots.RestoreIsIdentity` | crates/matchplane-engine/src/lib.rs:279-308 | Restoring the snapshot of a sound book succeeds, and gives the same book, unstored queues included, iff every queue is in acceptance order |
| `Snapshots.RestoreReorders` | crates/matchplane-engine/src/lib.rs:279-308 | Two accepted events whose sound book comes back from its snapshot with a queue reversed |
| `Snapshots.CutRestores` | crates/matchplane-engine/src/lib.rs:279-308 | A snapshot taken anywhere in a live log restores exactly |
| `Snapshots.RecoveryEqualsLive` | crates/matchplane-engine/src/lib.rs:279-308 | Restoring and replaying a tail that overlaps the snapshot by any amount, with any event delivered again later, equals the live book |
| `Accounting.Conservation` | crates/matchplane-engine/src/lib.rs:528-638 | Over any accepted log, quantity = remaining + traded + released, for every order |
| `Accounting.NoOverfill` | crates/matchplane-engine/src/lib.rs:528-595 | No trade takes more than either side has left |
| `Accounting.AdmissionReserves` | crates/matchplane-application/src/orders.rs:65-139 | An order is admitted iff its numbers, its product for a buy and its expiry are in range; the order submitted is the request field by field, the reservation exactly its worst case |
| `Accounting.SpendingBounded` | crates/matchplane-engine/src/lib.rs:576-594 | A buy never pays more than its limit for what it traded |
| `Accounting.ReservationsSuffice` | crates/matchplane-application/src/orders.rs:124-139 | At any point of a log of orders that `place_order` accepted, a buy's spending plus limit times what is left or released is within the amount reserved for it; a sell's parts add up to it |
| `Accounting.TradeValueFits` | crates/matchplane-domain/src/numeric.rs:56-61 | The value of every trade between orders that `place_order` accepted fits in `i128` |
| `Accounting.LiveReservationsSuffice` | crates/matchplane-application/src/orders.rs:65-139 | Over every run whose placed orders `place_order` accepted: conservation, accounts within the reserved amount, and every trade's value fits in `i128` |
| `OrderBooks.OrderBook.constructor` | crates/matchplane-engine/src/lib.rs:117-127 | A new book is the empty one |
| `OrderBooks.OrderBook.Process` | crates/matchplane-engine/src/lib.rs:179-222 | Updates the book and answers as the functions above say, for every command |
| `OrderBooks.OrderBook.Apply` | crates/matchplane-engine/src/lib.rs:227-252 | Accepts, ignores or refuses an event as the function says; a refusal changes nothing |
| `OrderBooks.OrderBook.ApplyOrderAccepted` | crates/matchplane-engine/src/lib.rs:505-526 | Inserts and queues an order, or refuses it unchanged |
| `OrderBooks.OrderBook.ApplyTrade` | crates/matchplane-engine/src/lib.rs:528-595 | Checks both orders before decreasing either |
| `OrderBooks.OrderBook.ApplyClosedOrder` | crates/matchplane-engine/src/lib.rs:597-617 | Closes an open order and takes it out of its queue |
| `OrderBooks.OrderBook.DecreaseOrder` | crates/matchplane-engine/src/lib.rs:619-638 | Decreases an order and takes it out of its queue when it is filled |
| `OrderBooks.OrderBook.PushToLevel` | crates/matchplane-engine/src/lib.rs:658-671 | Appends at the end of the order's own level |
| `OrderBooks.OrderBook.RemoveFromLevel` | crates/matchplane-engine/src/lib.rs:673-707 | Removes exactly that order and drops a level left empty |
| `OrderBooks.OrderBook.DecidePlaceLimitOrder` | crates/matchplane-engine/src/lib.rs:310-382 | The nested loops over levels and queues produce the greedy fill |
| `OrderBooks.OrderBook.MatchAsks` | crates/matchplane-engine/src/lib.rs:328-351 | Ascending walk of the asks up to the limit |
| `OrderBooks.OrderBook.MatchBids` | crates/matchplane-engine/src/lib.rs:352-378 | Descending walk of the bids down to the limit |
| `OrderBooks.OrderBook.SnapshotState` | crates/matchplane-engine/src/lib.rs:725-739 | Any iteration order gives the book's one snapshot |
| `OrderBooks.OrderBook.FromSnapshot` | crates/matchplane-engine/src/lib.rs:279-308 | Rebuilds the queues from sorted open orders, or fails as the function says |
| `OrderBooks.OrderBook.AggregateLevel` | crates/matchplane-engine/src/lib.rs:709-723 | Sums a level, or reports the overflow |
| `Decimal.NormalizeIsText` | crates/matchplane-cache/src/lib.rs:276-281 | Normalizing refuses exactly what is not a number and otherwise gives the text of its value |
| `Decimal.CompareIsNumeric` | crates/matchplane-cache/src/lib.rs:282-288 | Comparing normalized texts is comparing numbers, at any length |
| `Decimal.IncrementDecimal` | crates/matchplane-cache/src/lib.rs:289-299 | The carry loop yields the normalized text of the value plus one |
| `Decimal.PadOrders` | crates/matchplane-cache/src/lib.rs:350-354 | 38-wide padding is injective and makes byte order price order |
| `CacheProjector.ExactAgree` | crates/matchplane-cache/src/lib.rs:434-443 | The script's and the reader's value checks accept the same texts, with the same number |
| `CacheProjector.ExactIsNumeral` | crates/matchplane-cache/src/lib.rs:300-305 | They accept exactly the plain numerals of positive numbers below 10 to the 38 |
| `CacheProjector.LuaValidSide` | crates/matchplane-cache/src/lib.rs:306-319 | The script's side check accepts exactly strictly ordered sides of exact values |
| `CacheProjector.RustValidSide` | crates/matchplane-cache/src/lib.rs:445-466 | The reader's side check accepts exactly the same sides |
| `CacheProjector.MarketCache.ProjectBook` | crates/matchplane-cache/src/lib.rs:274-363 | The script's answer and new keys, for every state of the keys |
| `CacheProjector.MarketCache.ApplyBook` | crates/matchplane-cache/src/lib.rs:245-253 | Outcome of a delta; anything but "applied" leaves the keys alone |
| `CacheProjector.MarketCache.RepairBook` | crates/matchplane-cache/src/lib.rs:263-272 | Outcome of a repair |
| `CacheProjector.MarketCache.Book` | crates/matchplane-cache/src/lib.rs:405-431 | What the reader returns or which error it gives |
| `CacheRuns.CacheMirrors` | crates/matchplane-cache/src/lib.rs:245-431 | From an empty cache, after any interleaving, the six keys describe one book, the one last installed, and the reader returns it |
| `CacheRuns.KeysSayBook` | crates/matchplane-cache/src/lib.rs:350-362 | After any operations, the marker, the text, the bid keys and the ask keys each say their part of the held book, and nothing more |
| `CacheRuns.DeltaAnswers` | crates/matchplane-cache/src/lib.rs:339-349 | By the held book: a delta behind it or of the same state is a duplicate, of another state at its sequence a conflict, the next is applied, any other is a gap |
| `CacheRuns.RepairAnswers` | crates/matchplane-cache/src/lib.rs:339-349 | By the held book: a repair is answered as current iff it is behind or the same state |
| `CacheRuns.ReadExactly` | crates/matchplane-cache/src/lib.rs:405-431 | Whatever the keys hold: which book the reader returns, and which error otherwise |
| `CacheRuns.StepMonotone` | crates/matchplane-cache/src/lib.rs:326-363 | From an empty cache, after any operations: one more never lowers the stored marker, a delta that is applied raises it by exactly one, an operation not applied changes no key |
| `CacheRuns.SequenceMonotone` | crates/matchplane-cache/src/lib.rs:326-363 | The stored marker never decreases along a run |
| `CacheRuns.IndexReadsBack` | crates/matchplane-cache/src/lib.rs:350-360 | Reading a side's index in byte order gives its levels and quantities in book order |
| `CacheRuns.StoredIndexReadsBack` | crates/matchplane-cache/src/lib.rs:350-360 | Likewise for the stored bid keys and ask keys after any operations, against the held book |
| `CacheRuns.RepairHeals` | crates/matchplane-cache/src/lib.rs:255-272 | From any keys, a repair leaves a readable cache iff it is not fenced off from a pair the reader refuses; a repair not fenced off leaves exactly its own book |
| `CacheRuns.RepairHealsOwnText` | crates/matchplane-cache/src/lib.rs:255-272 | Over text a writer of this cache stored, under a numeric marker that is not newer, a repair always leaves a readable book of its sequence and state |
| `CacheRuns.FencedGarbage` | crates/matchplane-cache/src/lib.rs:326-347 | Three concrete key states where a repair answers "current" over a pair the reader refuses, one of them text that only the script accepts |
| `CatalogRelay.JobTable.Claim` | web/src/catalog-projection-relay.ts:167-212 | Claims up to the limit of rows that are due (waiting for a time that has come, or with a lease run out, and attempts left), each under a new lease with one more attempt, no other row changing |
| `CatalogRelay.JobTable.CloseExhausted` | web/src/catalog-projection-relay.ts:519-535 | Closes exactly the rows out of attempts that nobody holds |
| `CatalogRelay.DeliverySettles` | web/src/catalog-projection-relay.ts:229-335 | In any run a delivery touches only the job at the head of its batch: under a held lease it settles the row by the outcome and the attempts the row has now, without the lease nothing changes |
| `CatalogRelay.ClaimsDueRows` | web/src/catalog-projection-relay.ts:173-191 | No claim takes a row before its time, under a running lease, or without attempts left |
| `CatalogRelay.ClosesSpentRows` | web/src/catalog-projection-relay.ts:519-535 | Closing exhausted rows leaves running leases alone |
| `CatalogRelay.LeaseProtects` | web/src/catalog-projection-relay.ts:167-212 | Until its lease runs out nothing but the owner's own delivery changes a row, over any steps of anyone |
| `CatalogRelay.RunKeepsInv` | web/src/catalog-projection-relay.ts:151-335 | In every interleaving: a lease exactly while in process, attempts within the maximum, waiting rows with attempts left, memories exact under a held lease |
| `CatalogRelay.DeliveryIsFenced` | web/src/catalog-projection-relay.ts:457-517 | A delivery that changes a row does so under the lease of the very claim the worker remembers |
| `CatalogRelay.LostLeaseIsPowerless` | web/src/catalog-projection-relay.ts:457-517 | After its lease is taken over, a worker's deliveries leave the row alone, over any steps, until it claims the row again |
| `CatalogRelay.TerminalAbsorbs` | web/src/catalog-projection-relay.ts:167-212 | From anywhere in a run, over any later steps: an acked row never changes, and a superseded or dead one stays closed iff no operator replays it |
| `CatalogRelay.ReplayReopens` | crates/matchplane-storage/src/catalog_projection.rs:252-267 | A run in which a replay reopens a dead job and drops its attempts to 0 |
| `CatalogRelay.AttemptsMonotone` | web/src/catalog-projection-relay.ts:167-212 | Over any later steps attempts never exceed 8, and never decrease iff no replay takes effect on a row with attempts used |
| `CatalogRelay.NeverStuck` | web/src/catalog-projection-relay.ts:519-535 | In every run a waiting row has an attempt left; an open row, once due, can be claimed, or closed after its last attempt, by a worker with the full limit |
| `CatalogRelay.WorkIsBounded` | web/src/catalog-projection-relay.ts:167-212 | In any run a job is claimed at most 8 times and changed at most 17 times per replay |
| `RouteExpansion.ExpandPlatformRouteTree` | web/src/platform-orchestrator.ts:32-122 | The loop computes the expansion for all decisions, registry answers and clocks |
| `RouteExpansion.BoundsOf` | web/src/platform-orchestrator.ts:49-51 | A missing or unsafe setting takes its default (the depth's is the number of steps), any other is moved between 1 and the protocol's maximum |
| `RouteSafety.ExpansionExplained` | web/src/platform-orchestrator.ts:64-121 | Steps, hops and depth stay within bounds, each decision is asked at the root or at a hop selected earlier with the children loaded for it, and the plan is made of their selections in order |
| `RouteSafety.HopsFromParents` | web/src/platform-orchestrator.ts:75-100 | Every hop was supplied and selected at a decided parent, one level below it; no parent adds more than the fanout; no path is decided twice |
| `RouteReach.TakenFirst` | web/src/platform-orchestrator.ts:77-79 | A decision's selection is cut to its longest beginning that the fanout and the free hops allow |
| `RouteReach.KnownInOrder` | web/src/platform-orchestrator.ts:80-83 | The slugs taken are looked up in order and unknown ones skipped |
| `RouteReach.FindLast` | web/src/platform-orchestrator.ts:76-76 | Of candidates with one slug the last counts |
| `RouteReach.NothingLeftOut` | web/src/platform-orchestrator.ts:64-119 | With steps and time to spare every hop with children above the depth limit was decided, truncated or not |
| `RouteCompleteness.CompleteIffUnboundedFits` | web/src/platform-orchestrator.ts:64-121 | `truncated` is false iff there is time left and the unbounded expansion of the same answers ends within every bound; plan and trace are then the unbounded ones |
| `RankBatches.AssertRequestInput` | web/src/storefront-ranking-gateway.ts:337-374 | Accepts exactly input within the limits and names the first candidate that is not |
| `RankBatches.CandidateLimits` | web/src/storefront-ranking-gateway.ts:350-373 | The limits of a candidate |
| `RankBatches.BuildLexicalRankBatches` | web/src/storefront-ranking-gateway.ts:55-112 | Succeeds iff the input and every candidate on its own is within the limits; the batches are consecutive, within both caps, and each is full |
| `RankBatches.BytesAre` | web/src/storefront-ranking-gateway.ts:303-323 | A body is what is around the list, the candidates, and a comma between each two |
| `RankBatches.SplitCovers` | web/src/storefront-ranking-gateway.ts:55-112 | The batches list the indexes 0 to n-1 and the candidates, once each and in order |
| `RankBatches.FewestRequests` | web/src/storefront-ranking-gateway.ts:55-112 | No split into consecutive batches within the caps needs fewer requests |
| `RankBatches.ValidateResponse` | web/src/storefront-ranking-gateway.ts:238-301 | Accepts exactly responses that rank eligible candidates of the batch, each once, with values and labels in range, and translates the indexes |
| `RankBatches.RowLimits` | web/src/storefront-ranking-gateway.ts:266-289 | The limits of a row |
| `RankBatches.ValidOverlapLabels` | web/src/storefront-ranking-gateway.ts:376-395 | Accepts exactly a few different labels, each short, trimmed and without control characters |
| `RankPool.RunKeeps` | web/src/storefront-ranking-gateway.ts:143-183 | In every interleaving, while nothing failed, each batch sent is in flight or completed exactly once |
| `RankPool.EveryBatchOnce` | web/src/storefront-ranking-gateway.ts:143-183 | A pool that returns has completed every batch exactly once, all with valid answers |
| `RankPool.PoolAdvances` | web/src/storefront-ranking-gateway.ts:145-170 | Every move of a worker uses up a measure, so no schedule goes on for ever |
| `RankPool.PoolEnds` | web/src/storefront-ranking-gateway.ts:171-183 | When no worker can move and nothing failed, the pool returns |
| `RankPool.FailsExactly` | web/src/storefront-ranking-gateway.ts:130-170 | The pool fails iff the deadline passed or some reply was cut off or invalid |
| `RankPool.SendsInOrder` | web/src/storefront-ranking-gateway.ts:143-175 | At most four requests in flight, batches sent in order, none after a failure |
| `RankMerge.MergeRustRankedCandidates` | web/src/storefront-ranking.ts:169-200 | Rejects exactly unknown, repeated or ineligible rows; otherwise the rows by more overlap, then higher score, then earlier position |
| `RankMerge.RowsMergeable` | web/src/storefront-ranking.ts:169-200 | Rows validated batch by batch are distinct and eligible together, in any order of completion |
| `RankMerge.Deterministic` | web/src/storefront-ranking-gateway.ts:143-183 | Every schedule that returns is accepted by the merge and gives the same final list |
| `Admission.AdmissionTable.AdmitPlatformAiCall` | web/src/platform-ai-admission.ts:15-53 | Admits iff both counts are below their limits; a refusal leaves the table as it was, rows to be pruned included |
| `Admission.PruningIsHarmless` | web/src/platform-ai-admission.ts:22-25 | Pruning removes no row that is counted now or later |
| `Admission.PruningPrunes` | web/src/platform-ai-admission.ts:22-25 | It leaves no row older than two hours before the transaction began |
| `Admission.HourlyLimitsHold` | web/src/platform-ai-admission.ts:15-53 | In any run no one-hour window, wherever it starts, holds more calls than the global or the subject's limit, rows since pruned included |
| `Admission.RefusalIsDue` | web/src/platform-ai-admission.ts:26-45 | A call is refused only when a limit is used up in the hour before it began |
| `CanonicalJson.UnquoteEscape` | web/src/federation-contract.ts:131-131 | A quoted string reads back as itself, whatever follows |
| `CanonicalJson.TextsDecode` | web/src/federation-contract.ts:127-140 | The text of a finite value determines the value, up to key order, and where it ends, at any depth |
| `CanonicalJson.SamePrints` | web/src/federation-contract.ts:127-146 | Finite values equal up to key order print alike |
| `CanonicalJson.NulledPrints` | web/src/federation-contract.ts:130-130 | A value prints as it does with its non-finite numbers replaced by null |
| `CanonicalJson.CanonicalJsonFaithful` | web/src/catalog-projection.ts:178-201 | Two finite values have the same text iff they are equal up to key order; in general, iff they are so after non-finite numbers are replaced by null |
| `CanonicalForm.KeysAscend` | web/src/federation-contract.ts:142-146 | Members are printed in ascending order of their keys: at the first difference the earlier key ends or has the smaller code unit, as section 3.2.3 of RFC 8785 has it |
| `CanonicalForm.PrintsAs` | web/src/federation-contract.ts:127-140 | The text of each kind of value: literals, and items or members joined by commas without white space |
| `CanonicalForm.ShortSpelling` | web/src/federation-contract.ts:131-131 | The seven two-character escapes |
| `CanonicalForm.LongSpelling` | web/src/federation-contract.ts:131-131 | Other control units and lone surrogates as lower-case hex, every other unit as itself |
| `CanonicalForm.SpelledInParts` | web/src/federation-contract.ts:131-131 | Strings are spelled part by part, surrogate pairs whole |
| `CanonicalForm.TakesExactly` | web/src/catalog-projection.ts:178-195 | A printer throws iff the value holds something it refuses, at any depth |
| `CanonicalJson.NonFinitePrintsNull` | web/src/federation-contract.ts:130-130 | The input on which the lenient printer is not injective |
| `ProjectionDigest.SameAttachments` | web/src/catalog-projection.ts:142-151 | The attachments are determined by the attributes up to key order |
| `ProjectionDigest.AttachmentsInOrder` | web/src/catalog-projection.ts:142-151 | The attachments are the string references listed, in order |
| `ProjectionDigest.ScopeSays` | web/src/catalog-projection.ts:67-71 | Each member of the scope by its name |
| `ProjectionDigest.OfferSays` | web/src/catalog-projection.ts:72-80 | Each member of the offer by its name |
| `ProjectionDigest.PreimageSays` | web/src/catalog-projection.ts:81-88 | The version, the scope and the offer by their names |
| `CanonicalForm.PreimageTaken` | web/src/catalog-projection.ts:61-66 | A projection is hashed iff its version is a positive safe integer and its attributes and terms are JSON |
| `ProjectionDigest.PreimageFaithful` | web/src/catalog-projection.ts:54-98 | Two projections are hashed from one text iff version, scope and offer agree up to key order |
| `CanonicalBytes.Utf8Injective` | web/src/federation-contract.ts:92-97 | Texts without lone surrogates have the same UTF-8 bytes iff they are the same |
| `CanonicalBytes.Utf8Examples` | web/src/federation-contract.ts:92-97 | The bytes of four code points, one of each length |
| `CanonicalBytes.LoneSurrogatesCollide` | web/src/federation-contract.ts:92-97 | A lone surrogate and the replacement character, which have the same bytes |
| `CanonicalBytes.PrintPaired` | web/src/federation-contract.ts:127-146 | No printed text has a lone surrogate, whatever its strings and keys hold |
| `CanonicalBytes.CanonicalBytesFaithful` | web/src/federation-contract.ts:71-97 | The bytes that are signed or hashed are as faithful as the text |
| `CanonicalBytes.PreimageBytesFaithful` | web/src/catalog-projection.ts:81-89 | Two projections are hashed from the same bytes iff version, scope and offer agree up to key order |
| `FinanceCsv.CellReads` | web/src/store-finance.ts:201-203 | Any cell, quotes, commas and line breaks included, reads back as itself |
| `FinanceCsv.CsvRoundTrip` | web/src/store-finance.ts:175-190 | Reading by section 2 of RFC 4180 gives back exactly the rows |
| `FinanceCsv.ExactDecimalKeepsValue` | web/src/store-finance.ts:192-199 | The decimal has exactly `scale` fraction digits, a whole part, and the sign and digits of the amount; without a scale it is the amount |
| `FinanceCsv.ExportReadsBack` | web/src/store-finance.ts:126-190 | The export reads back as its header and one row per entry, whatever the entries contain; each row tells the entry column by column, and exactly refunds are negated |
| `FinanceCsv.QuotedOnlyIfNeeded` | web/src/store-finance.ts:201-203 | A cell is quoted iff it holds a quote, a comma or a line break |

## Left out

- SQL, PostgreSQL, Valkey, Kafka, TLS and HTTP: each statement or script is one atomic step on the state it touches.
- JSON encoding of snapshots and cached books, and SHA-256: encoding is taken to be invertible, hashes do not appear.
- `bids()` and `asks()`: only the level sum with its overflow error (`AggregateLevel`), not the listing.
- `AdmissionReserves`: the texts of price and quantity arrive parsed to an `i128` or to nothing.
- `CanonicalJsonFaithful`: a number is the text `JSON.stringify` gives it, so numbers are compared by that text.
- `CsvRoundTrip`: plain fields may hold any character but the special ones, which is wider than TEXTDATA in section 2 of RFC 4180 (the Chinese headers are not TEXTDATA); rows have at least two cells, as every exported row has; one empty cell on its own is not told from an empty file by the grammar.
- `ExportReadsBack`: entries come in export order, so the sort by locale comparison and the choice of report fields for an entry are not modelled.
- `ProjectBook`: one market's keys at a time, as keys of different markets do not meet; keys that hold another kind of value than the script writes are not modelled.
- `DeliveryIsFenced`: a statement that a worker gave up on and the server executes later is no step of the model. Were the worker to hold the row again by then, the guard on `lease_owner` would let it pass under the later claim.
- `CatalogRelay`: rows are never deleted; the cascading deletes of their store and offer (migrations/202608220001_marketplace_offer_projection_jobs.sql) are no step of the model.
- `Claim`: which due rows a claim takes first is left open, since rows locked by another claim are skipped.
- `ExpandPlatformRouteTree`: the guard that skips a hop when the plan is already full is not modelled, because the selection is cut to the free hops before it; elapsed time is a yes or no at each check.
- `ValidateResponse`: that a row has exactly its five keys, with values of the right types, is one flag.
- `BuildLexicalRankBatches`: the serialized length of a candidate is a number, and the body adds commas and a constant, as JSON does.
- Retry delays with jitter, error codes and messages of the relay, and the acknowledgement parser: each is settled by reading one expression.
- Locale-dependent money display, provider calls, prompts, request validators, configuration, signatures and address filtering.
