# windbreak: the paper exchange and its guards, modelled and proved

windbreak trades prediction markets on paper before it trades them for real. Its paper exchange
replays recorded order books and trade prints, fills orders pessimistically, charges a worst-case
fee rounded up to the cent, and reports balances and positions by folding its own fill log. This
project models that engine and the smaller machines beside it, and proves what they keep over
every run.

| part | modules | form |
|---|---|---|
| integer rounding and fees | `Numeric`, `Sums`, `Fees` | functions and lemmas |
| fill rules | `Sorting`, `TakerWalk`, `RestingAllocation`, `AllocationOptimality` | loops over seqs refined to functions, then lemmas about those |
| paper exchange | `PaperModel` (state machine), `PaperRules` (the exchange's rules in figures, on the recorded book and tape alone), `PaperInvariant`, `PaperMarkets`, `PaperAccounting`, `PaperBalances`, `PaperSafety`, `PaperVolume`, `PaperPlacements`, `PaperDuality`, `PaperPositions`, `Replay` | `Run(v, ops)` is the state after any sequence of place, cancel and advance; `Within(v, ops, i)` is the state inside the next advance, once `i` markets have stepped |
| paper exchange, as an object | `PaperExchanges` | class whose `Valid()` says its fields are `Run(venue, ops)` for the ghost history `ops` |
| connector resilience | `TokenBuckets`, `CircuitBreakers`, `ResilientCallers` | classes over a monotone clock, each tied to a history |
| beat supervisor | `BeatSupervision` | class whose `Valid()` says its fields are those of the machine folded over every beat so far; the machine is then proved to follow the history |
| schema drift, configuration diff | `SchemaValidation`, `ConfigVersioning` | recursive search and flattening with declarative counterparts |

Main results:

- **The allocator is optimal.** `AllocationIsMaximum`: no assignment of print volume to same-side
  orders fills more than the greedy one. The proof is a cut argument: `FeasibleWithinCut` bounds every
  assignment by every price cut, `GreedyReachesCut` finds a cut the greedy allocation reaches, and
  `ConsumeLeavesMost` and `HighestFirstLeavesMost` say that a highest-price-first claim leaves the most
  possible volume below each lower price, and exactly how much.
- **YES and NO are the same exchange.** `RunIsDual`: flipping every side of every call and complementing
  the recording flips the whole final state; balances are equal and positions change sign.
- **Nothing is lost.** `OrderIsConserved`: in every reachable state an arrival's size is its fills plus what
  rests plus what was cancelled.
- **Every call keeps its rules.** `PlacementKeepsItsWord` and `AdvanceKeepsPromises` state, for every call of
  every run, what it fills, out of which recorded step, within which share of which depth, at what cost,
  dated how and in which order; the rules are those of `PaperRules`, written on the recording's own figures.
- **Markets do not disturb each other.** `MarketsAreIndependent`: an advance steps its markets one after
  another, yet fills each one exactly as the book before the call demands; the step-level theorems hold
  from every state inside an advance.
- **Both sides share the tape.** `SafeIffUncrossed`: a book is safe for every run, every order and every
  tape exactly when no live bid is more than a pip above a live ask.
- **Money.** `BalancesAreRefolded` says what `total` and `available` are, fill by fill and order by order;
  `TotalFallsByItsFills`, `PlacementCosts`, `CancelReleasesItsOrder` and `AdvanceCostsItsLeaks` give their
  exact movement over every call; `LedgerEqualsWalk`, `HaircutNeverLeaks` and `OrderCostIsBounded` tie them
  to the taker walks and to each order's slices.
- **Independent machines.** `AdmissionsBy`/`AdmissionsWithin` and `SleepMeansSpent` (rate limit: never too
  much, never a needless sleep), `RefusesExactly`, `TripsAreACooldownApart` and
  `HalfOpenMeansRejectedProbe` (breaker), `MachineTracks` and `PagesIffNews` (the paging counters follow the
  whole history), `SearchIsSoundAndComplete` (schema drift), `InjectiveIffTraceable` and `DiffIsAPatch`
  (configuration).

Where the code and its own text disagree, or where a promise needs a condition, the code is modelled and
the exact condition is proved:

- The `get_balances` docstring (windbreak/connector/paper.py:951-960) says `available` does not move when a
  resting order fills. For a part fill it can drop by a cent, because two ceilings can exceed one.
  `PartialFillCanLeak` is a run that loses it, `AdvanceCostsItsLeaks` gives the exact drop over an advance
  and says when there is none, judged on the book before the call, and `FeeSplit` says when one split
  costs the cent: exactly when the two rounding slacks do not fit in one.
- YES and NO orders resting on one market can claim the same print, though only on a crossed book.
  `UncrossedSidesShareVolume` rules it out, for any limits, when no live bid is more than a pip above a
  live ask; `CrossedBookOverclaims` builds, for every other book, a run that fills two contracts out of
  one. Seen from the limits, whatever the book: up to YES limit + NO limit = 10001 nothing is shared
  (`SidesShareVolume`), and above that some run overclaims (`CrossedSidesOverclaim`).
- A half-open breaker whose probe ends in a non-retryable error stays half-open and refuses every later
  call (`RejectedProbeSticks`, `HalfOpenIsForever`, `HalfOpenMeansRejectedProbe`).
- The walk's slices add up to `filled` exactly when neither the request nor the share is negative and one
  of them stays within the live eligible depth (`FilledIsWalkedExactly`); a share above 100% breaks it
  (`OversizedShareOverfills`).
- Keys containing a dot are lost by flattening (`DottedKeyLosesALeaf`); without them nothing is
  (`FlattenKeepsLeaves`). Tuple elements without a leaf leave no trace (`EmptyElementIsLost`): flattening
  tells all configurations of a schema apart exactly when every tuple's elements have a leaf below no
  further tuple (`InjectiveIffTraceable`).
- The diff compares with the language's `==`, for which 1 equals True: replacing one by the other does not
  show (`FlagForNumberIsMissed`). `DiffIsAPatch` is exact about it.

Integers are unbounded, as in the source's language. Prices are pips (10000 to the dollar), sizes are
contract-centis, money is micros. Instants are integers. A well-formed venue (`ValidVenue`) has prices in
0..10000, non-negative recorded sizes, a default fee schedule, a participation share of at most 100% and
distinct tickers; each lemma that needs it says so, and many need nothing.

## Model

| member | source | states |
|---|---|---|
| `Numeric.Divide` | windbreak/numeric/rounding.py:38-64 | cost rounding is the least integer at or above the quotient, equity rounding the greatest at or below |
| `Fees.MaxTradingFeeMicros` | windbreak/connector/fees.py:162-191 | refuses exactly a price outside 0..10000, first, or a non-positive size; otherwise the least whole cents at or above the dearer of the two rates times price times complement times size |
| `Fees.MaxSettlementFeeMicros` | windbreak/connector/fees.py:193-214 | refuses exactly a non-positive size; otherwise the least whole cents at or above the settlement share |
| `Fees.FeeSplit` | windbreak/connector/fees.py:184-191 | pricing a size in two parts costs the same, or exactly one cent more, the latter exactly when the two rounding slacks reach a cent |
| `Fees.SlicedFeeBound` | windbreak/connector/fees.py:184-191 | k slices together cost at least the whole and at most k - 1 cents more |
| `TakerWalk.ParticipationCap` | windbreak/connector/fills.py:132-151 | the largest integer not above the ppm share of the depth |
| `TakerWalk.Eligible` | windbreak/connector/fills.py:154-166 | holds a level exactly when it is on the book at or better than the limit |
| `TakerWalk.ConsumeLevels` | windbreak/connector/fills.py:169-208 | the loop's slices, book cost and fee are those of the recursive best-first walk; every slice can be priced |
| `TakerWalk.WalkTakerFill` | windbreak/connector/fills.py:211-254 | the method returns the walk as a value, on which the lemmas below are stated |
| `TakerWalk.WalkTotal` | windbreak/connector/fills.py:192-208 | the slices add up to the target or to all live depth, whichever is less, and each lies within a level of its price |
| `TakerWalk.FilledIsWalkedExactly` | windbreak/connector/fills.py:239-254 | slices sum to `filled` if and only if request and share are non-negative and the request or the floored share stays within the live eligible depth; for any book whatever |
| `TakerWalk.OversizedShareOverfills` | windbreak/connector/fills.py:239-254 | a 200% share of a lone level of 10 reports 20 filled and walks 10 |
| `TakerWalk.TakerFillIsBounded` | windbreak/connector/fills.py:211-254 | on a recorded book `filled` is the request or the floored share, every slice is within the limit, and the total is slice costs and fees plus a haircut rounded up |
| `TakerWalk.WalkIsASelection` | windbreak/connector/fills.py:169-208 | the walk is one of the admissible selections of its quantity, at its own book cost |
| `TakerWalk.WalkIsLeastCost` | windbreak/connector/fills.py:169-208 | on a best-first book no selection of the same quantity costs less |
| `TakerWalk.TakerFillIsLeastCost` | windbreak/connector/fills.py:211-254 | `book_cost` is the minimum over all selections of `filled` contracts from the eligible levels, and is attained |
| `Sorting.DescendingOrder` | windbreak/connector/fills.py:332-334 | the stable highest-first permutation of the indices: every index once, equal keys by position |
| `RestingAllocation.ConsumeThroughPrints` | windbreak/connector/fills.py:311-346 | the loop over the pool computes the recursive highest-price-first consumption |
| `RestingAllocation.ConsumeLeavesMost` | windbreak/connector/fills.py:311-346 | below every lower limit a claim leaves exactly min(what was there, what remains below the claiming limit) |
| `RestingAllocation.HighestFirstLeavesMost` | windbreak/connector/fills.py:311-346 | of all ways of claiming an amount through a limit, this one leaves the most volume below every lower limit |
| `RestingAllocation.ConsumedVolume` | windbreak/connector/fills.py:311-346 | the pool's remaining volume below any price at all, after one claim |
| `RestingAllocation.AllocateRestingFills` | windbreak/connector/fills.py:349-397 | the loop writing fills by index computes the allocation the lemmas below are about |
| `AllocationOptimality.FeasibleWithinCut` | windbreak/connector/fills.py:349-397 | no feasible assignment exceeds any cut: caps of the orders above it plus print volume below it |
| `AllocationOptimality.GreedyReachesCut` | windbreak/connector/fills.py:349-397 | the greedy allocation reaches some cut |
| `AllocationOptimality.GreedyIsFeasible` | windbreak/connector/fills.py:349-397 | the greedy fills are realised by an explicit assignment of print volume to orders that breaks no cap, print size or strict trade-through |
| `AllocationOptimality.AllocationIsMaximum` | windbreak/connector/fills.py:349-397 | the fills are realised by a feasible assignment and no feasible assignment has a larger total |
| `AllocationOptimality.AllocationIsBounded` | windbreak/connector/fills.py:257-290 | each fill is non-negative, within the order's size and share, and within the volume strictly through its limit |
| `AllocationOptimality.VolumeIsClaimedOnce` | windbreak/connector/fills.py:357-397 | for every price, orders limited at or below it fill no more than the print volume below it |
| `AllocationOptimality.PriorityIsRespected` | windbreak/connector/fills.py:379-397 | an order gets a fill only if every order with a better limit, or the same limit and an earlier place, got its full claim |
| `PaperModel.TradeThroughStamp` | windbreak/connector/fills.py:400-429 | refuses exactly when no print is strictly through the limit; otherwise returns the latest such print's stamp |
| `PaperInvariant.RunIsNumbered` | windbreak/connector/paper.py:1460-1539 | in every reachable state ids are consecutive and unique, the book is in arrival order, and every resting order and resting fill carries an arrival's ticker, side and price |
| `PaperInvariant.RunIsSound` | windbreak/connector/paper.py:1293-1320 | in every reachable state of any venue, resting sizes and fill sizes are positive |
| `PaperInvariant.RunIsPriced` | windbreak/connector/paper.py:1369-1408 | over a well-formed recording, runs placing valid limits only ever hold and fill at valid prices |
| `PaperInvariant.StepFillOf` | windbreak/connector/paper.py:1252-1291 | the fill an order finds under its id is the one its own side's allocation gave that order |
| `PaperMarkets.MarketsAreIndependent` | windbreak/connector/paper.py:1214-1226 | what an advance appends on a market, leaves resting there and does to its cursor is that market's own step on the book before the call; a market without a step left is untouched |
| `PaperAccounting.OrderIsConserved` | windbreak/connector/paper.py:1293-1320 | over every run: arrival quantity = fills under its id + what rests + what was cancelled |
| `PaperAccounting.PlacementIsWhole` | windbreak/connector/paper.py:1369-1408 | the new fills are the most of the request within the ppm share of the recorded depth the limit reaches, and with the rested remainder equal the request; each is at the intent's side and market, dated by the book, out of a recorded level at or better than the limit |
| `PaperPlacements.PlacementIsLeastCost` | windbreak/connector/fills.py:169-254 | on a best-first book, what a placement pays is the least any way of taking its filled quantity from the recorded levels within its limit could cost, on either side, and is attained |
| `PaperPlacements.PlacementKeepsItsWord` | windbreak/connector/paper.py:1369-1433 | over every run: a placement after n advances walks its market's step n (the last one once consumed), fills its capped share of it at least cost, and rests exactly the remainder under the next id; an unknown or empty market changes nothing |
| `PaperAccounting.LedgerEqualsWalk` | windbreak/connector/paper.py:984-1003 | over every run: cash refolded from fills = every taker walk's own book cost and fee + every resting fill's cash |
| `PaperAccounting.HaircutNeverLeaks` | windbreak/connector/paper.py:962-965 | the entire account and both balances are the same under every haircut |
| `PaperAccounting.FillCost` | windbreak/connector/paper.py:1100-1124 | filling part of an order costs its reservation plus a cent exactly when the order leaks |
| `PaperAccounting.PassCostsItsLeaks` | windbreak/connector/paper.py:1241-1320 | a pass spends what it releases plus one cent per leak, and leaks number at most the part fills |
| `PaperAccounting.StepCostsItsLeaks` | windbreak/connector/paper.py:951-960 | from any state inside any advance of any run, a step lowers `available` by exactly its leaks in cents |
| `PaperAccounting.AdvanceCostsItsLeaks` | windbreak/connector/paper.py:951-960 | over every run an advance lowers `available` by exactly one cent per leak, summed over its markets and judged before the call; it moves nothing if and only if no resting order will leak |
| `PaperAccounting.PartialFillCanLeak` | windbreak/connector/paper.py:951-960 | a run: YES 100 at 5000 rests, an advance fills 20 of it, and `available` is a cent lower |
| `PaperAccounting.BalancesMoveAsPromised` | windbreak/connector/paper.py:931-982 | `total` never rises; only a cancel raises `available`, and not `total`; an advance lowers `available` by at most a cent per part fill |
| `PaperBalances.TotalByWalk` | windbreak/connector/paper.py:975-1003 | over every run `total` = opening - every taker walk's own cost - every resting fill's cash |
| `PaperBalances.BalancesAreRefolded` | windbreak/connector/paper.py:975-1124 | over every run placing valid limits, `total` = opening - the sum over fills of price times size plus the fee under the market's own schedule or the default one, and `available` = opening - that - the same sum over resting orders |
| `PaperBalances.TotalFallsByItsFills` | windbreak/connector/paper.py:984-1003 | every call lowers `total` by exactly what its new fills cost; a cancel adds none |
| `PaperBalances.PlacementCosts` | windbreak/connector/paper.py:1033-1049 | a placement lowers `available` by exactly what its fills cost and its remainder would |
| `PaperBalances.CancelReleasesItsOrder` | windbreak/connector/paper.py:1541-1552 | a cancel removes exactly the order with that id and raises `available` by exactly what it would have cost, and by nothing when there is none |
| `PaperAccounting.OrderCostIsBounded` | windbreak/connector/paper.py:1033-1098 | what an order spent and still withholds exceeds the reservation of the contracts it kept by between 0 and k - 1 cents for k slices |
| `PaperAccounting.AvailableByOrder` | windbreak/connector/paper.py:975-982 | `available` = opening - all taker walks - the sum of each order's own cost |
| `PaperSafety.NoGuardTrips` | windbreak/connector/paper.py:1241-1320 | from any state inside any advance of any run, every order of the stepped market finds its fill, and a positive fill always has a through-print to be dated by |
| `PaperSafety.FillKeepsToItsShare` | windbreak/connector/paper.py:1252-1367 | from any state inside any advance of any run, a step gives an order at most what it has left, its ppm share of the recorded depth queued at its price or ahead, and the volume printed strictly through its price |
| `PaperSafety.FeesNeverRefuse` | windbreak/connector/paper.py:1100-1124 | balances can be priced exactly when every resting and filled price is valid, which runs placing valid limits guarantee |
| `PaperSafety.WalkGuards` | windbreak/connector/fills.py:192-208 | every slice a placement walks is accepted by the fee schedule |
| `PaperSafety.TouchNeverFills` | windbreak/connector/fills.py:257-290 | prints at or above the limit fill nothing |
| `PaperSafety.FillIsDatedByItsTrade` | windbreak/connector/paper.py:1293-1320 | from any such state, every resting fill carries the stamp of the latest print strictly through its price |
| `PaperSafety.NoQueueIsAskDepth` | windbreak/connector/paper.py:1354-1367 | a NO bid's queue is the YES ask depth at or below its complement |
| `PaperVolume.StepClaimsVolumeOnce` | windbreak/connector/paper.py:1252-1291 | from any state inside any advance of any run, for every price, one side's emitted fills limited at or below it total at most the recorded volume strictly through it |
| `PaperVolume.StepFillsTheMost` | windbreak/connector/paper.py:1252-1291 | from any such state, what a step emits on a side is attained by an assignment of its recorded prints to that side's resting orders that breaks no limit, size, queue share or print size, and exceeded by none |
| `PaperVolume.AdvanceKeepsPromises` | windbreak/connector/paper.py:1214-1320 | over every run the advance after n earlier ones appends on each market, out of its step n: fills dated by their trades, within each order's size and queue share, in price-time priority, the most each side could, claiming no volume twice per side, nor across sides on an uncrossed book; nothing where there is no step n |
| `PaperVolume.SidesShareVolume` | windbreak/connector/paper.py:1252-1291 | whatever the book, fills at limits summing to at most 10001 together stay within the step's recorded volume |
| `PaperVolume.UncrossedSidesShareVolume` | windbreak/connector/paper.py:1252-1291 | when no live bid is more than a pip above a live ask, all fills of a step together stay within its recorded volume, whatever the limits |
| `PaperVolume.CrossedBookOverclaims` | windbreak/connector/paper.py:1252-1291 | for every other book a run rests one contract on each side and fills both out of one printed contract |
| `PaperVolume.SafeIffUncrossed` | windbreak/connector/paper.py:1252-1291 | hence a book is safe over every run, order and tape if and only if it is uncrossed in that sense |
| `PaperVolume.CrossedSidesOverclaim` | windbreak/connector/paper.py:1252-1291 | for every pair of limits above that sum some run with both orders resting fills two contracts out of one |
| `PaperSafety.PriceTimePriority` | windbreak/connector/paper.py:1252-1291 | from any such state, an order fills only if each better-priced, or equally priced and earlier, order of its side got the most of its size within its share of its own recorded queue |
| `PaperSafety.ArrivalOrderSurvives` | windbreak/connector/paper.py:1241-1250 | every operation leaves the book in arrival order with each survivor's own terms |
| `PaperDuality.FramesSwap` | windbreak/connector/paper.py:1322-1433 | taker levels, queue and prints of a side are those of the other side on the complemented step |
| `PaperDuality.RunIsDual` | windbreak/connector/paper.py:1228-1433 | any run with every side flipped on the complemented recording ends in the flipped state |
| `PaperDuality.BalancesAreDual` | windbreak/connector/paper.py:931-982 | the dual run reports the same `total` and `available` |
| `PaperPositions.FillTotals` | windbreak/connector/paper.py:1151-1166 | an entry exactly for each side of each market traded, holding the sums of its quantities and notionals |
| `PaperPositions.GetPositions` | windbreak/connector/paper.py:1126-1149 | refuses exactly on the first market traded on both sides; otherwise one row per traded market in ticker order |
| `PaperPositions.RowIsConservative` | windbreak/connector/paper.py:336-374 | the signed row's price is within one pip of notional over quantity, on the side that understates equity in the YES and in the NO frame |
| `PaperPositions.ReportIsFaithful` | windbreak/connector/paper.py:1126-1166 | over every run the report refuses iff some market traded on both sides; otherwise one row per traded market in ticker order, its signed quantity the sum of that market's fills and its own-frame average the pip at or just below what was paid per contract |
| `PaperPositions.ReportIsDual` | windbreak/connector/paper.py:336-374 | the flipped fills report the same rows with sign and frame flipped |
| `PaperPositions.PositionsAreDual` | windbreak/connector/paper.py:1126-1149 | over whole runs, the flipped calls on the complemented recording report the same positions with every sign and frame flipped |
| `Replay.OriginAndEnd` | windbreak/connector/paper.py:471-512 | the earliest and latest recorded book, absent exactly when nothing was recorded |
| `Replay.AnchorLeads` | windbreak/connector/paper.py:535-581 | an anchored recording starts on its anchor and spans what it spanned |
| `Replay.AnchorKeepsDistances` | windbreak/connector/paper.py:515-629 | every recorded instant (book, print, venue clock, market close, expected resolution) survives anchoring, and any two of them stay as far apart |
| `Replay.AnchorKeepsTape` | windbreak/connector/paper.py:515-581 | anchoring keeps every step, level, print price and print size |
| `Replay.RunMovesWithAnchor` | windbreak/connector/paper.py:515-581 | any run on a shifted recording is the original run with its fill stamps shifted and nothing else changed |
| `Replay.CursorCountsAdvances` | windbreak/connector/paper.py:1195-1226 | a cursor is the number of advances so far, clamped to its session |
| `Replay.ExhaustedAfterLongest` | windbreak/connector/paper.py:884-915 | all cursors are consumed exactly when the number of advances covers every session |
| `Replay.AdvanceAnswersExhaustion` | windbreak/connector/paper.py:1214-1226 | `advance` answers False exactly when the state it leaves is exhausted |
| `PaperExchanges.PaperExchange.constructor` | windbreak/connector/paper.py:660-737 | a flat account on an optionally re-dated recording, with markets and venue clock moved by the same offset; the substantiated end is set only under an anchor |
| `PaperExchanges.PaperExchange.EmitFill` | windbreak/connector/paper.py:1502-1539 | appends one fill under the next id |
| `PaperExchanges.PaperExchange.EmitTakerFills` | windbreak/connector/paper.py:1435-1458 | one fill per consumed level, in order, numbered consecutively and dated by the book |
| `PaperExchanges.PaperExchange.RestTheRemainder` | windbreak/connector/paper.py:1460-1476 | rests and logs exactly a positive remainder |
| `PaperExchanges.PaperExchange.PlaceOrder` | windbreak/connector/paper.py:1369-1408 | refuses exactly an unknown or empty session and then changes nothing; otherwise the state is that of the run extended by this placement |
| `PaperExchanges.PaperExchange.CancelOrder` | windbreak/connector/paper.py:1541-1552 | drops exactly the order with that id; the state is that of the extended run |
| `PaperExchanges.PaperExchange.AllocateSideFills` | windbreak/connector/paper.py:1274-1291 | merges one side's allocation into the dictionary |
| `PaperExchanges.PaperExchange.AllocateFills` | windbreak/connector/paper.py:1252-1291 | the dictionary holds both sides' allocations |
| `PaperExchanges.PaperExchange.ApplyRestingFill` | windbreak/connector/paper.py:1293-1320 | emits one dated fill for a positive amount and keeps the order unless nothing is left |
| `PaperExchanges.PaperExchange.ProcessRestingFills` | windbreak/connector/paper.py:1228-1250 | the loop over the book performs the modelled pass |
| `PaperExchanges.PaperExchange.AdvanceAllSessions` | windbreak/connector/paper.py:1195-1226 | the state is that of the run extended by an advance; the answer is False exactly when the advances so far cover every session |
| `PaperExchanges.PaperExchange.CashSpent` | windbreak/connector/paper.py:984-1003 | the fold over fills, refused exactly on an invalid fill price |
| `PaperExchanges.PaperExchange.ReservedCash` | windbreak/connector/paper.py:1033-1049 | the fold over resting orders, refused exactly on an invalid limit |
| `PaperExchanges.PaperExchange.GetBalances` | windbreak/connector/paper.py:931-982 | refused exactly on an unpriceable fill or order; on runs placing valid limits, the opening figures less what the fills, and for `available` the resting orders, cost under their schedules |
| `PaperExchanges.PaperExchange.GetPositions` | windbreak/connector/paper.py:1126-1149 | the report of this account's own fills |
| `PaperExchanges.PaperExchange.GetExchangeTime` | windbreak/connector/paper.py:837-915 | refused exactly when the advances cover every session or, when anchored, past the last recorded book; otherwise the venue clock |
| `TokenBuckets.RunIsBalanced` | windbreak/connector/resilience.py:203-219 | over every run: admissions and tokens balance against capacity and the intervals credited, and the credit clock never runs ahead |
| `TokenBuckets.AdmissionsBy` | windbreak/connector/resilience.py:177-219 | by time t at most capacity + (t - t0) div interval admissions |
| `TokenBuckets.AdmissionsWithin` | windbreak/connector/resilience.py:177-219 | any window of length w admits at most capacity + 1 + ceil(w / interval) |
| `TokenBuckets.SleepIsShort` | windbreak/connector/resilience.py:211-219 | an acquire asks for at most one interval of sleep, and at least a second when its two clock readings agree |
| `TokenBuckets.SleepEndsOnTheTick` | windbreak/connector/resilience.py:211-219 | an acquire that sleeps asks to be woken exactly at the first whole interval from birth after its reading |
| `TokenBuckets.SleepMeansSpent` | windbreak/connector/resilience.py:203-219 | an acquire sleeps only when, since birth or since a visit that found the bucket full, exactly a full bucket and one admission per elapsed interval are used up |
| `TokenBuckets.TokenBucket.constructor` | windbreak/connector/resilience.py:180-201 | a full bucket dated by the clock |
| `TokenBuckets.TokenBucket.AcquireToken` | windbreak/connector/resilience.py:203-219 | one more visit, after every earlier one, in a history the lemmas above cover |
| `CircuitBreakers.BreakerInvariant` | windbreak/connector/resilience.py:257-318 | between calls CLOSED means failures below the threshold, and the counter is the number of exhausted calls since the last success |
| `CircuitBreakers.TripRecordsOneHalt` | windbreak/connector/resilience.py:465-480 | a call records a halt exactly when it trips the breaker, which it does exactly when an admitted call is exhausted as a probe or at the threshold |
| `CircuitBreakers.HaltsCountTrips` | windbreak/connector/resilience.py:465-480 | over every run halt records equal trips |
| `CircuitBreakers.TripStartsCooldown` | windbreak/connector/resilience.py:314-318 | at every later point the breaker is still open from that instant or a later one, stuck half-open, or a cooldown has passed |
| `CircuitBreakers.TripsAreACooldownApart` | windbreak/connector/resilience.py:257-318 | no call is admitted, hence none trips, within a cooldown of an earlier trip |
| `CircuitBreakers.RefusesExactly` | windbreak/connector/resilience.py:257-282 | over every run a call is refused exactly when a rejected probe is stuck or the last trip, with nothing let through since, is less than a cooldown old |
| `CircuitBreakers.RejectedProbeSticks` | windbreak/connector/resilience.py:396-417 | one exhausted call and one rejected probe leave a breaker half-open |
| `CircuitBreakers.HalfOpenIsForever` | windbreak/connector/resilience.py:275-282 | a breaker left half-open refuses every later call and never changes |
| `CircuitBreakers.HalfOpenMeansRejectedProbe` | windbreak/connector/resilience.py:396-417 | between calls it is half-open if and only if some probe ended in a non-retryable error |
| `ResilientCallers.BackoffGrowsToCeiling` | windbreak/connector/resilience.py:452-463 | backoff never shrinks between attempts and never passes its ceiling |
| `ResilientCallers.BackoffDoubles` | windbreak/connector/resilience.py:452-463 | backoff starts at the base and doubles per attempt, thirty times at most, under its ceiling |
| `ResilientCallers.EndingByStatus` | windbreak/connector/resilience.py:321-355 | a failed attempt surfaces at once exactly when it carries a status that is neither 429 nor in the 500s |
| `ResilientCallers.CircuitBreaker.BeforeCall` | windbreak/connector/resilience.py:257-282 | admits exactly when closed, or open past the cooldown, and then half-opens |
| `ResilientCallers.CircuitBreaker.Success` | windbreak/connector/resilience.py:284-288 | closes and forgets the failures |
| `ResilientCallers.CircuitBreaker.Failure` | windbreak/connector/resilience.py:290-318 | counts a failure and trips at the threshold or from a probe, dated by the clock |
| `ResilientCallers.ResilientCaller.constructor` | windbreak/connector/resilience.py:361-394 | a fresh bucket and breaker with an empty history |
| `ResilientCallers.ResilientCaller.RunAttempts` | windbreak/connector/resilience.py:419-463 | retries only retryable errors, up to the budget, one token per physical attempt, waiting backoff plus bounded jitter in between |
| `ResilientCallers.ResilientCaller.Invoke` | windbreak/connector/resilience.py:396-417 | a refused call spends no token; an answered one returns its last attempt after retrying only retryable ones, one token each, within the budget; the breaker history grows by the call, and a halt carrying the failure streak is recorded exactly when it trips |
| `ResilientCallers.AttemptsWithinBudget` | windbreak/connector/resilience.py:419-450 | both rate bounds hold for the physical attempts of a caller, retries included |
| `BeatSupervision.NewsByAbsences` | windbreak/main.py:1163-1175 | a history ends in three absences exactly when its trailing absences number at least three |
| `BeatSupervision.ClearTracks` | windbreak/main.py:1163-1175 | clearing keeps the counter map tied to the kind's history extended by an absence |
| `BeatSupervision.EscalateTracks` | windbreak/main.py:1177-1195 | escalating keeps it tied, and the kind is re-armed exactly when its presence is news |
| `BeatSupervision.MachineTracks` | windbreak/main.py:1135-1195 | for every history of beats, the folded counter map holds a kind exactly when its presence would not be news, with its trailing absences as the count |
| `BeatSupervision.MachineCountsRun` | windbreak/main.py:1152-1156 | for every history, the folded backoff counter is the length of the run of escalating beats it ends with |
| `BeatSupervision.PagesIffNews` | windbreak/main.py:1135-1195 | after any history the machine dispatches a kind on a beat iff the beat sees it present and it was never present before or its last three sightings were absent; never twice |
| `BeatSupervision.PagesAreSpaced` | windbreak/main.py:1157-1195 | two dispatches of one kind have at least three absent sightings, hence more than three beats, between them |
| `BeatSupervision.BeatStopReason` | windbreak/main.py:1364-1389 | runs on exactly when neither stopped nor out of budget; a stop event wins over the budget and names its signal |
| `BeatSupervision.BeatSupervisor.Clear` | windbreak/main.py:1163-1175 | counts an absence, re-arming on the third, as the machine does |
| `BeatSupervision.BeatSupervisor.Escalate` | windbreak/main.py:1177-1195 | pages exactly when the kind is not already active, as the machine does |
| `BeatSupervision.BeatSupervisor.Settle` | windbreak/main.py:1135-1161 | the loop over the sightings takes the machine one beat further |
| `BeatSupervision.BeatSupervisor.Observe` | windbreak/main.py:1074-1118 | extends the history and the pages by what the machine dispatches, reports TICK_FAILED, RESEARCH or the hook's own mode, and ledgers a failed beat exactly when a writer is set |
| `BeatSupervision.BeatSupervisor.WaitSeconds` | windbreak/main.py:1120-1133 | the interval times 1, 2, 4, 8 or 16, by the length of the run of escalating beats, capped at 4 |
| `BeatSupervision.RunLoop` | windbreak/main.py:1392-1469 | from a supervisor with any past, with or without a hook: exactly as many beats as the stop event and the budget allow, each heartbeat with its own beat's mode, each wait as the whole history demands, and the right reason to end |
| `SchemaValidation.Offending` | windbreak/connector/validation.py:248-252 | lists a name exactly when it is present and neither recognized nor cosmetic |
| `SchemaValidation.SchemaFor` | windbreak/connector/validation.py:149-181 | the schema of the first registered pattern that gives the path when its wildcards are filled in from it, none exactly when no pattern does |
| `SchemaValidation.AnomalyIsReal` | windbreak/connector/validation.py:231-300 | a reported anomaly names exactly the offending fields of one mapping reached by a trail of recognized child fields, each holding the next mapping or a list of it, under its schema's key and version |
| `SchemaValidation.CleanMeansClean` | windbreak/connector/validation.py:231-300 | when none is reported, no mapping on any such trail has a field that is present and neither recognized nor cosmetic |
| `SchemaValidation.SearchIsSoundAndComplete` | windbreak/connector/validation.py:231-300 | an anomaly is found iff some mapping on such a trail drifts |
| `SchemaValidation.Search` | windbreak/connector/validation.py:231-275 | the early-returning loops compute the modelled search |
| `SchemaValidation.SearchItems` | windbreak/connector/validation.py:277-300 | likewise for a value's items |
| `SchemaValidation.JoinedAppend` | windbreak/connector/validation.py:222 | an unregistered path is reported as its segments with slashes between them |
| `SchemaValidation.SchemaValidator.Validate` | windbreak/connector/validation.py:206-229 | accepts iff the path is registered and nothing drifts; drift records one event naming a real anomaly, an unregistered path none |
| `ConfigVersioning.DecimalRoundTrip` | windbreak/config/versioning.py:45 | a tuple index is recovered from its decimal text |
| `ConfigVersioning.FlattenNode` | windbreak/config/versioning.py:29-48 | the loops filling the dictionary compute the modelled flattening |
| `ConfigVersioning.DottedIsInjective` | windbreak/config/versioning.py:24-26 | different dot-free key paths never share a dotted path |
| `ConfigVersioning.FlattenKeepsLeaves` | windbreak/config/versioning.py:29-48 | for dot-free non-empty keys the result holds every leaf under its dotted path, and nothing else |
| `ConfigVersioning.DottedKeyLosesALeaf` | windbreak/config/versioning.py:24-48 | with a dotted key a leaf is overwritten |
| `ConfigVersioning.FlattenIsInjective` | windbreak/config/versioning.py:29-53 | same-schema configurations whose tuple elements hold leaves flatten alike iff equal |
| `ConfigVersioning.InjectiveIffTraceable` | windbreak/config/versioning.py:29-53 | flattening tells all configurations of a schema apart if and only if every tuple's elements have a leaf below no further tuple |
| `ConfigVersioning.EmptyElementIsLost` | windbreak/config/versioning.py:29-48 | a field with an empty tuple and one with a tuple of an empty tuple flatten alike |
| `ConfigVersioning.DiffIsAPatch` | windbreak/config/versioning.py:91-105 | for any two flattened maps the diff turns each into the other up to the language's equality, and to the letter iff no flag stands for a number; its parts are disjoint, every change changes, and it is empty iff the maps are equal |
| `ConfigVersioning.ConfigDiffIsAPatch` | windbreak/config/versioning.py:91-105 | the diff of two configurations patches the old leaves into the new and back, with every value under its own path |
| `ConfigVersioning.FlagForNumberIsMissed` | windbreak/config/versioning.py:100-104 | replacing 1 by True changes the flattened configuration and leaves the diff empty |
| `ConfigVersioning.EmptyDiffMeansEqual` | windbreak/config/versioning.py:85-105 | the diff of two same-schema configurations whose tuple elements hold leaves is empty iff the configurations are equal, flags read as numbers |

## Left out

- Textual ids: order and fill ids are numbers; the `paper-order-N` rendering is not modelled. Tickers are integers that stand for their sort order.
- `LiveBookPaperExchange`: it has no recorded sessions and only delegates to a venue.
- Fixture loading, the balance-semantics guard and the read-only accessors (`list_markets`, `get_order_book`, `get_fills` and the like): each is settled by reading one branch.
- A missing fee schedule: `get_fee_model` falls back to the default schedule, which every modelled venue has. Recording well-formedness is likewise assumed where a lemma asks for it.
- Market documents are reduced to the two calendar instants that anchoring moves.
- Sorting is modelled as a stable descending order of indices, and the sorted position keys as repeatedly taking the least key; the sort algorithm itself is not modelled.
- PaperExchanges.PaperExchange.AllocateFills: the loop over the two sides is unrolled.
- Logging, alert text, payload fingerprints, canonical JSON, the configuration hash and the printed diff: library behaviour.
- Ledger writers that raise: the source isolates the failure, so only the attempt to record is modelled.
- TokenBuckets.TokenBucket.AcquireToken: the clock is monotone and a sleeper sleeps at least what it is asked; a sleeper that refuses a negative request is not modelled.
- Interleavings of threads inside the breaker: it takes no locks, and calls are modelled one after another. Exceptions that are not `Exception` (interrupts) end a process and are not modelled.
- BeatSupervision.RunLoop: requires a beat budget or an eventual stop, without which the loop never ends by design; the stop event is modelled by the beat after which it is set.
- Command line, dashboard, alert sinks, risk kernel, order gateway, research budget, scripts: other parts of the repository, not modelled.
