# Verification of the AILEE framework's cores

Dafny 4.11 models of the parts of the framework that carry its guarantees, with proofs of those
guarantees over every input, every run or every interleaving. `dafny verify dfyconfig.toml` checks
the whole project. No part of the framework is executed.

## What is modelled

**Telemetry and the wave channel.** `Seqlock` takes every atomic load, store and increment of the
export plane as one step of a schedule: one writer per shard at a time, one scanning reader that
retries. `ExportPlane` holds the sequential methods. `SpscRing` does the same for the two
single-producer single-consumer rings, as one ring with two shapes of index arithmetic; `Channels`
holds their methods over the slot array. `WaveEvaluator` is the frame evaluator, and its last part
joins it to the channel.

**The simulated market.** `OrderBook` is the matching loop, the stable sort and price rounding on
values; `BookRuns` is a submission, an expiry and whole runs, `BookLimits` what their trades owe to
the limits as they were submitted; `OrderBookObjects` is the same over the order objects that rest
in the queues and are filled in place. `ImpactMatcher` and `MarketObjects` are the second engine,
`Settlement` the agents' balances, and `MarketSimulation` the loop that ties them together for any
orders the agents may decide on.

**Allocation.** `Portfolio` is the four-stage constraint pipeline as a function and the limits it
has to meet, `PortfolioStages` what each stage adds exactly, and `PortfolioPipeline` is its loops over
arrays. `Routing` and `RoutingTables` do the same for liquidity routing, with what every single state
proposes and how far it is scaled in `RoutingChoice`. `RealSums` holds the sums that most modules
use, `Options` the optional value, `Modular` the remainders and 64-bit words of the lock-free cores.

**Audit.** `AuditRecord` is the canonical text of a record, `AuditChain` the hash chain over a trail,
`AuditLayout` the 256-byte record, `AuditJournal` the file and its replay, `AuditLog` the logger
with its open, write, failure and close paths. `Bytes` holds byte-string facts. The digest and the
printing of floats are parameters; nothing is assumed about the digest, and of the printing only
that finite floats print differently and without the separator.

**The decision engine.** `FallbackRing` is the ring with a modulus that changes at run time,
`Consensus` the vote, `Decisions` one decision as a function of everything it depends on, and
`DecisionEngine` the object. `VoteMean` and `DecisionPaths` say what vote and decision come to in
terms of the signals alone.

**State machines.** `TraderDaemon`, `TraderSignals` and `TraderObject`, `SyncClock` and `SyncObject`, and
`RegimeHysteresis`.

Floating-point numbers are exact reals and the code's finiteness checks are part of the types;
64-bit words are explicit wherever they can wrap or overflow. Memory is sequentially consistent.

## Where the code does not do what one would expect

- An accepted seqlock read can be torn after exactly 2^64 sequence bumps inside one round
  (`Seqlock.TornReadAfterFullWrap`); the atomicity result holds for fewer.
- `WNFSChannel::size()` reports an empty channel for a while after the head counter has wrapped
  (`Channels.WaveChannel.Size`, `SpscRing.SizeIsExactUnlessWrapShows`).
- The frame after id 2^64 - 1 is accepted whatever its id, since the expected id wraps to zero
  (`WaveEvaluator.WrapBreaksOrder`); a producer whose numbers wrap loses frames to the evaluator
  exactly when the ring refused the frame of that id (`WaveEvaluator.GapsAreRefusals`).
- Two standalone ticks get the same timestamp when the system clock reads zero for both
  (`SyncClock.ZeroClockRepeats`, `SyncClock.StrictUnlessZeroRepeats`).
- A sale beyond the inventory held writes off more cost than there is and breaks the agent's
  cash-and-basis identity (`Settlement.OversoldLosesTrack`; the exact condition is in
  `Settlement.WealthKeptIff`).
- Of an asset listed twice only the last position takes part in correlation clusters
  (`Portfolio.RepeatedAssetEscapes`, `Portfolio.ProfileJoinsAllIff`).
- An asset that both receives and sends can end beyond its liquidity shift bound
  (`Routing.BothWaysEscapes`), although the comment at extensions/aille_routing.cpp:282-285 wants
  the bound met strictly.
- A sync failure after a complete write leaves a file whose trail is one record longer than the
  logger that reported the failure (`AuditLog.AfterFailedWrite`).

## Model

| member | source | states |
|---|---|---|
| Seqlock.TallyIsCensus | extensions/aille_observability.hpp:138-158 | the counters after any sequence of recordings are the census of its statuses: per kind how many there were, fallbacks being confidence rejections plus consensus rejections plus activations |
| Seqlock.CountsCoverLog | extensions/aille_observability.hpp:144-156 | every decision is counted in exactly one of the kinds |
| Seqlock.WriterStepOk | extensions/aille_observability.hpp:40-48 | every single step of a recording keeps the shard well-formed: an even sequence exactly when no recording is under way, counters equal to the finished decisions plus the part of the script already done |
| Seqlock.RoundSurvivesWriter | extensions/aille_observability.hpp:166-184 | a writer step at any point of a reader's round either adds a bump or leaves what the round has loaded valid |
| Seqlock.ShardsStayOk | extensions/aille_observability.hpp:138-158 | the shards stay well-formed over every schedule, wraps and torn reads included |
| Seqlock.AcceptedReadIsAtomic | extensions/aille_observability.hpp:166-184 | an accepted read (first sequence even, second equal, fewer than 2^64 bumps between) is the shard's counters after exactly half the sequence many finished decisions, with no writer inside |
| Seqlock.SnapshotIsAHistory | extensions/aille_observability.hpp:160-194 | under every schedule of writer and reader steps in which no accepted round saw 2^64 bumps, the aggregated snapshot is the census of a prefix of each shard's decisions, each prefix between what was finished when the scan began and what had started when it ended |
| Seqlock.SnapshotIdentities | extensions/aille_observability.hpp:160-194 | every aggregated snapshot satisfies total = valid + fallback + invalid and confidence + consensus rejections <= fallback (modulo 2^64, and exactly while fewer decisions were made), with its total between decisions finished at the start and started at the end of the scan |
| Seqlock.TornReadAfterFullWrap | extensions/aille_observability.hpp:166-184 | the bound is exact: with 2^64 bumps between the two sequence loads a mixed read is accepted |
| ExportPlane.Plane.RecordDecision | extensions/aille_observability.hpp:138-158 | the method moves exactly the addressed shard (core 0 when out of range) by one whole recording |
| ExportPlane.Plane.GetAggregatedSnapshot | extensions/aille_observability.hpp:160-194 | without concurrent writers the scan returns the census of everything recorded |
| ExportPlane.RecordingAlone | extensions/aille_observability.hpp:138-158 | the method is the interleaved writer run to its end without interruption |
| SpscRing.Fifo | extensions/aille_wnfs.hpp:169-193 | under every interleaving of index loads, slot accesses and index stores the values popped are a prefix of the values whose push succeeded, and never more than the limit are held |
| SpscRing.NoOverwriteNoRace | extensions/aille_wnfs.hpp:169-193 | under every interleaving a producer about to write never hits a slot still to be read nor the slot a consumer is reading |
| SpscRing.BothChannelsAreFifo | extensions/aille_observability.hpp:83-102 | both at their real index arithmetic: 1024 slots under counters that wrap at 2^64, and N slots with one kept empty under indices modulo N |
| SpscRing.FullMeansLimit | extensions/aille_wnfs.hpp:170-175 | the full test on wrapped indices is true exactly when the limit of values was held at the tail load |
| SpscRing.EmptyMeansNone | extensions/aille_wnfs.hpp:183-188 | the empty test on wrapped indices is true exactly when nothing was held at the head load |
| SpscRing.HealthFullTest | extensions/aille_observability.hpp:84-88 | next write index equal to read index means capacity - 1 values held |
| SpscRing.MaskIsRemainder | extensions/aille_wnfs.hpp:177-190 | masking with 1023 is the remainder by 1024 on every 64-bit word |
| SpscRing.SizeIsExactUnlessWrapShows | extensions/aille_wnfs.hpp:195-199 | size() is the number of pushes less that of pops at its two loads, exactly unless the two counters have wrapped a different number of times and their words show it |
| Channels.WaveChannel.PushFrame | extensions/aille_wnfs.hpp:169-180 | refuses exactly at 1024 held frames, also across the wrap; otherwise appends |
| Channels.WaveChannel.PopFrame | extensions/aille_wnfs.hpp:182-193 | delivers the oldest frame, refuses exactly when none is held |
| Channels.WaveChannel.Size | extensions/aille_wnfs.hpp:195-199 | equals the number held exactly while the head has not wrapped past the tail; then it says zero for a non-empty channel |
| Channels.HealthStream.TryPush | extensions/aille_observability.hpp:83-92 | drops exactly at capacity - 1 held snapshots; otherwise appends |
| Channels.HealthStream.TryPop | extensions/aille_observability.hpp:94-102 | delivers the oldest snapshot, refuses exactly when none is held |
| WaveEvaluator.WaveState.Evaluate | extensions/aille_wnfs.cpp:17-104 | the step-by-step update of state and advisory is the state machine used below, every branch included |
| WaveEvaluator.PhaseInRange | extensions/aille_wnfs.cpp:68-70 | the wave phase lies in [0, 2 pi) and differs from a tenth of the id by whole turns |
| WaveEvaluator.AdviceExplained | extensions/aille_wnfs.cpp:17-104 | after every frame: the status, when the advisory escalates, freezes or degrades, its confidence and its energy, each both directions |
| WaveEvaluator.NeverHeals | extensions/aille_wnfs.cpp:27-99 | no frame, fault or degraded clone makes an unhealthy channel healthy; its advisory stays degraded and frozen |
| WaveEvaluator.StaysUnhealthy | extensions/aille_wnfs.cpp:27-99 | the same over every run |
| WaveEvaluator.CountingLaw | extensions/aille_wnfs.cpp:49-66 | over every fault-free run of any length, all modulo 2^64: processed frames are the accepted ids, gaps are the ids skipped between them, the expected id is the successor of the last, and each accepted id is at or above what was expected |
| WaveEvaluator.CountingLawWithFaults | extensions/aille_wnfs.cpp:19-66 | the same over runs with safety faults anywhere: faulted frames leave the sequence fields alone |
| WaveEvaluator.CountsGiveExpected | extensions/aille_wnfs.cpp:49-66 | until 2^64 frames are accepted the expected id is the first accepted id plus processed frames plus gaps, modulo 2^64 |
| WaveEvaluator.IdsIncreaseUnlessWrapped | extensions/aille_wnfs.cpp:49-66 | accepted ids strictly increase exactly when no frame offered before the last one carries 2^64 - 1, in every run that accepts no more than 2^64 frames; a longer one never increases |
| WaveEvaluator.WrapBreaksOrder | extensions/aille_wnfs.cpp:49-66 | the failing family in the open: after id 2^64 - 1 any smaller id is accepted |
| WaveEvaluator.HealthyIff | extensions/aille_wnfs.cpp:49-99 | a fault-free run ends healthy exactly when ids were consecutive and no frame was flagged or over the gap limit |
| WaveEvaluator.IncreasingAllCounted | extensions/aille_wnfs.cpp:49-66 | frames with increasing ids are all accepted and the gap count is the number of ids skipped between first and last |
| WaveEvaluator.GapsAreRefusals | extensions/aille_wnfs.cpp:49-66 | channel and evaluator together, under every interleaving: with frames numbered by consecutive 64-bit words, wrap included, all consumed frames are processed and the gap count is the number of frames the full ring refused between the first and the last one consumed, exactly when no refused one of those carried 2^64 - 1 |
| WaveEvaluator.GapsAreRefusalsOf | extensions/aille_wnfs.cpp:49-66 | the same for any prefix of the accepted frames that has been consumed |
| WaveEvaluator.ShortNumbering | extensions/aille_wnfs.cpp:49-66 | a producer that has not numbered past 2^64 - 1 meets that condition |
| OrderBook.SweepShape | src/market_sim.py:126-164 | the matching loop fills a prefix of the opposite queue, all but the last of it completely, never beyond what either order had left, and what is left of the queue is the rest |
| OrderBook.SweepStops | src/market_sim.py:128-133 | it stops only when at most dust is left of the incoming order or no crossing order is left |
| OrderBook.SweepIsMaximal | src/market_sim.py:126-164 | traded volume is the smaller of the incoming quantity and the crossing liquidity, to within 1e-6 |
| OrderBook.TouchedGains | src/market_sim.py:138-139 | the resting orders together gain exactly the sum of the fills |
| OrderBook.StableSortContents | src/market_sim.py:162-164 | the re-sort keeps the orders as a multiset |
| OrderBook.InsertKeepsPriority | src/market_sim.py:162-164 | inserting the remainder keeps price, then time, then arrival order |
| OrderBook.SortOfSorted | src/market_sim.py:162-164 | sorting a queue in priority order changes nothing, so append-and-sort is an insertion |
| OrderBook.RoundingIsNearest | src/market_sim.py:70-71 | rounding goes to a nearest integer, to the even one of two, and never reverses an order |
| OrderBook.EnteredPriceIsNear | src/market_sim.py:70-71 | the entered price is on the 0.0001 grid, within 0.00005 of a multiple of the tick that is within half a tick of the submitted price, so within tick/2 + 0.00005 of it; a larger price never enters lower |
| BookLimits.EveryTradeHonoursLimits | src/market_sim.py:114-209 | over every run every trade joins a submitted buy order and a submitted sell order by number and agent, never above the buyer's submitted limit nor below the seller's by more than tick/2 + 0.00005, and every resting order is what is left of a submitted limit order |
| BookLimits.SubmissionWithinSubmitted | src/market_sim.py:114-205 | the same for the trades of one submission and its own limit, on any book in order |
| BookRuns.EveryRunKeepsTheBook | src/market_sim.py:114-209 | after every sequence of fresh submissions (refused ones included) and expiries both queues are in price-time-arrival order, every bid below every ask, no resting dust, overfill or market order |
| BookRuns.EveryRunOrdersTheQueues | src/market_sim.py:164-205 | in every state of every run bids fall and asks rise in price, equal prices by time and then by arrival |
| BookRuns.EveryRunNumbersTrades | src/market_sim.py:141-156 | after every such sequence trades are numbered from one without a gap, the counter is their number and the last traded price is that of the last trade |
| BookRuns.SubmitOk | src/market_sim.py:114-205 | one accepted submission keeps that invariant |
| BookRuns.ExpireOk | src/market_sim.py:207-209 | an expiry keeps it |
| BookRuns.UnexpiredOk | src/market_sim.py:207-209 | an expiry keeps exactly the orders young enough and above dust, in order |
| BookRuns.SubmissionTrades | src/market_sim.py:128-159 | a submission trades with a prefix of the opposite queue, each trade at the resting price and within both limits |
| BookRuns.SubmissionRests | src/market_sim.py:161-164 | what is left of a limit order, if more than 0.000001, joins its own queue, and nothing else joins or leaves that queue; a market order never rests |
| BookRuns.EveryRunConservesFills | src/market_sim.py:114-209 | over every run from an empty book buy fills = sell fills = traded volume |
| BookRuns.SubmissionVolume | src/market_sim.py:126-164 | volume traded = what the submitted order gains = what the opposite orders gain, and it is maximal to within 1e-6 |
| OrderBookObjects.MatchBest | src/market_sim.py:135-153 | one match writes the same fill into both order objects and prints the trade at the resting price |
| OrderBookObjects.SweepObjects | src/market_sim.py:128-159 | the loop over order objects does what the value sweep says to the incoming order, to every opposite order whether or not it still rests, to the queue and to the trades |
| OrderBookObjects.SortObjectsViews | src/market_sim.py:164-164 | sorting the objects is the stable sort of their values |
| OrderBookObjects.LimitOrderBook.ProcessOrder | src/market_sim.py:114-205 | a malformed order is refused with nothing changed; otherwise book, submitted object and all opposite objects end exactly as the value model says, and the book invariant holds |
| OrderBookObjects.LimitOrderBook.ClearExpiredOrders | src/market_sim.py:207-209 | the two comprehensions are the value expiry and keep the invariant |
| ImpactMatcher.WalkConserves | src/market_sim.py:250-276 | the two-index loop ends with one side used up to dust, nothing overfilled, and buy fills = sell fills = printed volume |
| ImpactMatcher.PairAdvances | src/market_sim.py:254-276 | every pass uses up one of the two orders to within dust, so the loop terminates |
| ImpactMatcher.ImpactPrice | src/market_sim.py:236-241 | the moved price is at least 0.01 |
| ImpactMatcher.ImpactMovesByShare | src/market_sim.py:234-241 | the price moves by price times coefficient times imbalance over volume plus 100, to within rounding, unless the floor stops it |
| ImpactMatcher.ImpactFollowsImbalance | src/market_sim.py:230-241 | more buying than selling never lowers the rounded price, more selling never raises it |
| ImpactMatcher.NoVolumeNoneWaiting | src/market_sim.py:245-248 | skipping the loop without matched volume loses nothing: that side has no waiting order |
| MarketObjects.PickSide | src/market_sim.py:230-248 | the comprehension and the sum of one side, in submission order |
| MarketObjects.MatchWaiting | src/market_sim.py:250-276 | the loop over order objects is the value walk, trades included |
| MarketObjects.ImpactMarketModel.ProcessOrders | src/market_sim.py:223-278 | malformed orders are refused with nothing changed; otherwise price, waiting orders, trades and counter end as the model says and all other orders keep their fills |
| MarketObjects.SettleTrades | src/market_sim.py:429-433 | the settlement loop over agent objects is the settlement of accounts |
| Settlement.Agent.OnTradeExecution | src/agents.py:53-64 | the four balances after a purchase or a sale |
| Settlement.WealthKeptIff | src/agents.py:53-64 | cash + cost basis - realised profit is kept by every purchase, and by a sale exactly when the cost it writes off does not exceed the cost basis |
| Settlement.SaleKeepsAverage | src/agents.py:53-64 | a covered sale leaves the average cost of the remaining inventory unchanged |
| Settlement.LedgerExplains | src/market_sim.py:429-433 | each agent's cash and inventory are the initial ones plus the sums over its own sales and purchases |
| Settlement.CoveredSale | src/agents.py:59-64 | a sale of no more than the inventory held is within the cost basis |
| Settlement.OversoldLosesTrack | src/agents.py:59-64 | a sale beyond the inventory that breaks the identity |
| Settlement.SettleTotals | src/market_sim.py:429-433 | settling any trades moves total cash and inventory by exactly what parties that are not agents take or bring |
| Settlement.SettlementConserves | src/market_sim.py:429-433 | trades between agents leave total cash and total inventory unchanged |
| Settlement.WealthConstant | src/agents.py:53-64 | with every sale covered each agent's cash + cost basis - realised profit never moves |
| MarketSimulation.SimulationConserves | src/market_sim.py:364-433 | over every simulation on either engine whose orders come from its agents, total cash and total inventory stay what they were |
| MarketSimulation.TradeStepKnown | src/market_sim.py:395-409 | whoever trades in a step is an agent, because the book only ever holds agents' orders |
| MarketSimulation.FreshMarketsBegin | src/market_sim.py:338-348 | a fresh book or impact market with any listed agents is a starting point for the simulation results |
| MarketSimulation.SimulationKeepsBookWealth | src/market_sim.py:364-433 | over every simulation without overselling each agent's cash + cost basis - realised profit stays at its initial value |
| MarketSimulation.ImpactVolumes | src/market_sim.py:223-278 | on the impact engine buy fills = sell fills = traded volume in every step |
| MarketSimulation.ImpactTradesExplained | src/market_sim.py:243-278 | every trade of a step on the impact engine is between a buy order and a sell order of that step, by number and agent, above dust and at the step's price |
| Portfolio.AllLimitsHold | extensions/aille_portfolio_constraints.cpp:81-249 | after all four stages every first active exposure rule, every active sector cap, the 0.30 cluster caps and the active risk budget hold together; no allocation grew or changed sign |
| Portfolio.UnchangedIffWithinLimits | extensions/aille_portfolio_constraints.cpp:81-249 | the pipeline leaves an allocation alone exactly when it already meets all limits |
| Portfolio.Idempotent | extensions/aille_portfolio_constraints.cpp:81-249 | applying it to its own output changes nothing |
| Portfolio.CappedOk | extensions/aille_portfolio_constraints.cpp:134-144 | scaling down to a cap ends exactly at the cap where it was exceeded, changes nothing where it was not, and moves every entry towards zero |
| Portfolio.DampenedWithin | extensions/aille_portfolio_constraints.cpp:211-223 | a cluster of two or more that exceeded its cap ends exactly at it, and every cluster within it |
| Portfolio.FirstRuleIsFirst | extensions/aille_portfolio_constraints.cpp:87-93 | the rule applied is the first active one for the asset |
| Portfolio.ClampIsNearest | extensions/aille_portfolio_constraints.cpp:95-113 | the clamp moves an allocation no further than to the nearest value its rule allows |
| PortfolioStages.RuleStageExact | extensions/aille_portfolio_constraints.cpp:81-116 | with rules alone an allocation moves into the range of the first active rule for its asset, and stays without one |
| PortfolioStages.SectorStageExact | extensions/aille_portfolio_constraints.cpp:118-155 | each active sector brings its load, in what comes out of the sectors before it, exactly to the cap if it exceeded it, its members in their proportions and the others untouched; otherwise nothing changes |
| PortfolioStages.ClusterStageExact | extensions/aille_portfolio_constraints.cpp:157-223 | against the result of the same problem without profiles, everything linked to a position that exceeded 0.30 ends at exactly 0.30 in its proportions, and every other position stays: clusters come after sectors |
| PortfolioStages.BudgetStageExact | extensions/aille_portfolio_constraints.cpp:225-249 | against the result without the budget, a risk above maxRisk ends at exactly maxRisk, positions with risk in their proportions and the others untouched; otherwise nothing changes |
| PortfolioStages.ConstrainedWellStaged | extensions/aille_portfolio_constraints.cpp:81-249 | all four comparisons hold of every input, which determines the result |
| PortfolioStages.EdgeIff | extensions/aille_portfolio_constraints.cpp:169-187 | two positions are joined exactly by an active profile above 0.70 whose assets they are the last to hold |
| Portfolio.SectorCapsHold | extensions/aille_portfolio_constraints.cpp:118-155 | all active sector caps hold after the last one is enforced |
| Portfolio.LabelsAreComponents | extensions/aille_portfolio_constraints.cpp:167-199 | after the relabelling two positions share a label exactly when a path of strong profiles links them, and every label is a position that labels itself |
| Portfolio.ComponentsCapped | extensions/aille_portfolio_constraints.cpp:201-223 | everything linked to one position of a cluster with two or more members holds at most 0.30 at the end |
| Portfolio.ProfileJoinsAllIff | extensions/aille_portfolio_constraints.cpp:179-187 | a strong profile joins every holding of its two assets exactly when each is held in one position: of a repeated asset only the last position counts |
| Portfolio.RepeatedAssetEscapes | extensions/aille_portfolio_constraints.cpp:179-223 | an asset held twice keeps half the portfolio although its cluster may hold 0.30 |
| PortfolioPipeline.LabelClusters | extensions/aille_portfolio_constraints.cpp:167-199 | the relabelling loops over the array compute those labels |
| Portfolio.ClustersPartition | extensions/aille_portfolio_constraints.cpp:201-209 | the per-label sums partition the total exposure, as every label is in range |
| Portfolio.ExposureIsPartitioned | extensions/aille_portfolio_constraints.cpp:167-209 | so the sums over the labels built from any profiles add up to the total exposure |
| PortfolioPipeline.ClusterTotals | extensions/aille_portfolio_constraints.cpp:201-209 | sizes and exposures of all clusters in one pass, the exposures adding up to the total |
| PortfolioPipeline.EnforceSectorCaps | extensions/aille_portfolio_constraints.cpp:119-155 | the loops over sectors and allocations are the sector stage |
| PortfolioPipeline.Constrain | extensions/aille_portfolio_constraints.cpp:81-249 | the four stages in place over the allocation array are the pipeline |
| PortfolioPipeline.ApplyPortfolioConstraints | extensions/aille_portfolio_constraints.cpp:26-265 | refuses exactly the invalid inputs; otherwise the limits hold, the risks are those of the allocations, the final risk is not above the initial one, and remaining_violations is always zero |
| Routing.RoutingBounds | extensions/aille_routing.cpp:97-331 | after both scalings every state sends at most its surplus and its outflow cap, and only to known unfrozen assets other than itself, every asset takes in at most its cap, and all flows stay within the portfolio bound |
| Routing.ProposedIsOk | extensions/aille_routing.cpp:97-221 | the same bounds hold of the proposals of every prefix of the states |
| RoutingChoice.RouteIsFirst | extensions/aille_routing.cpp:133-142 | the rule used is the first one for the asset at the stress level |
| RoutingChoice.TargetIsFirst | extensions/aille_routing.cpp:100-108 | the target ratio is that of the first decision for the asset, or the current ratio |
| RoutingChoice.CapsCount | extensions/aille_routing.cpp:116-126 | outflow and inflow caps are the liquidity times the outflow, respectively inflow, ratio of the first cap for the asset at the stress level, or all of it |
| RoutingChoice.ProposalsWellRouted | extensions/aille_routing.cpp:97-221 | every state proposes exactly its rule's share of the smaller of surplus and outflow cap, to the primary target exactly when that fits after the flows of earlier states, to the fallback only when it alone fits, and nothing exactly when neither fits or the winner is the asset itself |
| RoutingChoice.AssetScalingExact | extensions/aille_routing.cpp:224-302 | a proposal keeps its amount if neither end moves beyond its bound, and otherwise shrinks far enough for every exceeded bound of its ends and exactly as far as one of them asks |
| RoutingChoice.PortfolioScalingExact | extensions/aille_routing.cpp:304-331 | all flows shrink in one proportion when they exceed the portfolio bound together, and not otherwise |
| RoutingChoice.RoutedWell | extensions/aille_routing.cpp:97-358 | the returned flows are exactly the proposals still positive after both scalings |
| Routing.OneWayAssetWithin | extensions/aille_routing.cpp:249-331 | an asset that only sends or only receives moves by at most its share of the liquidity of each of its states |
| Routing.AssetMovesAtMost | extensions/aille_routing.cpp:249-331 | any asset, also one that sends and receives, ends with a net of at most its shift factor times the larger of its proposed inflow and outflow |
| Routing.AssetWithin | extensions/aille_routing.cpp:249-331 | so its liquidity shift bound is met whenever that amount is within the bound |
| Routing.TableDecides | extensions/aille_routing.cpp:133-142 | an asset that is no source, or no target, of the rules for the stress level goes one way: the condition can be read off the table |
| Routing.BothWaysEscapes | extensions/aille_routing.cpp:282-302 | an asset that does both ends at a net 7 against a bound of 3: its inflow is scaled for the sender's sake, its outflow is not |
| Routing.NetsCancel | extensions/aille_routing.cpp:249-253 | over assets that cover both ends of every flow net flows sum to zero |
| Routing.RoutedNetsCancel | extensions/aille_routing.cpp:249-331 | so they do over the assets of the states |
| Routing.ShiftScales | extensions/aille_routing.cpp:304-323 | scaling all flows scales their total |
| Routing.RoutedInFull | extensions/aille_routing.cpp:249-331 | proposals that meet every bound are routed in full |
| Routing.PortfolioBoundExact | extensions/aille_routing.cpp:304-323 | where the portfolio bound was exceeded the total ends exactly at it |
| RoutingTables.RoomLeft | extensions/aille_routing.cpp:81-95 | a table of distinct known assets has room for another known one, so the sixteen entries never run out and the fallback entry is never used |
| RoutingTables.AssetTable.Slot | extensions/aille_routing.cpp:81-95 | finds or makes the entry of an asset without changing any amount |
| RoutingTables.AssetTable.Add | extensions/aille_routing.cpp:249-253 | adds to one asset and to no other |
| RoutingTables.ProposeNext | extensions/aille_routing.cpp:98-221 | one round of the loop over states makes the proposal of that state and keeps the inflow table equal to the inflows of all proposals |
| RoutingTables.ScaleByAssets | extensions/aille_routing.cpp:282-302 | the in-place scaling by the least factor of either end |
| RoutingTables.RouteLiquidity | extensions/aille_routing.cpp:10-358 | refuses exactly the invalid inputs; otherwise returns the flows within all bounds and their total |
| Bytes.DecimalInjective | aille_audit.cpp:239-257 | different integers print differently |
| Bytes.DecimalRoundTrip | aille_audit.cpp:239-257 | reading the decimal text of an integer gives the integer |
| Bytes.HexRoundTrip | aille_audit.cpp:41-57 | reading back the hexadecimal text of a digest gives the digest |
| Bytes.JoinedInjective | aille_audit.cpp:239-257 | a list of separator-free items is determined by its joined text |
| AuditRecord.SerializationInjective | aille_audit.cpp:228-259 | two records have the same canonical text exactly when they agree on every canonical field: numbers, texts up to their NUL, previous digest, model list |
| AuditRecord.TextSays | aille_audit.cpp:238-257 | cut at its separators the canonical text has 13 pieces, each a field of the record under its own name |
| AuditRecord.SamePrev | aille_audit.cpp:59-68 | the genesis marker and the hexadecimal text together still determine the previous digest |
| AuditChain.VerifyIntegrity | aille_audit.cpp:467-484 | the one-pass check accepts exactly the trails whose every record has a canonical text, its digest, and the digest before it (the genesis marker first) |
| AuditChain.LastLinks | aille_audit.cpp:467-484 | equal last digests without a collision force equal evidence in the last records and equal digests before them |
| AuditChain.LastDigestDeterminesHistory | aille_audit.cpp:467-484 | two trails that pass the check and end in one digest have equal length and agree on every canonical field of every record, unless they exhibit two texts with one digest |
| AuditChain.CanonicalIsFaithful | aille_audit.cpp:228-263 | the canonical text has the property the chain relies on, given that finite floats print injectively |
| AuditLayout.DecodeEncode | aille.hpp:270-305 | reading back a written 256-byte record gives the record, padding included |
| AuditLayout.LayoutOffsets | aille.hpp:270-305 | each field lies at its own offset of the 256 bytes, numbers with the least significant byte first and in two's complement |
| AuditLayout.EncodeDecode | aille_audit.cpp:351-362 | a block that passes the replay's checks is the encoding of what it decodes to |
| AuditLayout.PackedIsExact | aille.hpp:270-305 | both directions together, as the journal uses them |
| AuditJournal.ReplayOfWritten | aille_audit.cpp:351-363 | replaying the bytes of a recorded trail gives the trail back |
| AuditJournal.WrittenOfReplay | aille_audit.cpp:351-363 | only recorded trails replay |
| AuditJournal.AcceptsIff | aille_audit.cpp:336-366 | open accepts a file exactly when it is the journal of some trail: header, whole records, consecutive identifiers, intact chain, within the size limit; and then rebuilds that trail |
| AuditJournal.TornRecordRefused | aille_audit.cpp:351-355 | a file ending in part of a record is refused |
| AuditJournal.WrittenIsJournal | aille_audit.cpp:426-434 | appending the next record to a journal gives the journal of the longer trail |
| AuditJournal.CapacityFits | aille_audit.cpp:397-398 | the capacity test admits exactly the trails whose journal is within what open accepts |
| AuditJournal.ChainGrows | aille_audit.cpp:400-436 | appending a record made for the end of a trail keeps the chain intact |
| AuditJournal.ReadRecords | aille_audit.cpp:349-363 | the reading loop is the replay |
| AuditLog.AuditLogger.LogDecision | aille_audit.cpp:386-436 | each error in the order it is raised; only a logged decision changes the trail, by one sealed record; a failed write closes the file with the part of the record that reached it; trail, counters and open file always agree |
| AuditLog.OutcomeIff | aille_audit.cpp:386-436 | a decision is logged exactly when nothing is in the way, and each error names what was, the first in order |
| AuditJournal.NewRecordReports | aille_audit.cpp:400-420 | the record shows each number of its decision in its own field, as much of each text as its buffer has room for, and the first ten models |
| AuditLog.AuditLogger.Open | aille_audit.cpp:317-375 | succeeds exactly on a fresh logger with a usable new file or an accepted journal, and then trail, next identifier and last digest are those of the file |
| AuditLog.AfterFailedWrite | aille_audit.cpp:428-433 | what the next open finds after a failed write of n bytes: the old trail for none, the longer one for all, a refusal in between |
| AuditLog.Recover | aille_audit.cpp:317-384 | closing and opening again rebuilds trail, next identifier and last digest |
| FallbackRing.QueueIsNewest | aille.hpp:548-564 | over any mix of accepted decisions, window changes and resets the bounded queue is the newest of what was accepted since the last reset, in order: never more than its window, and all of it or at least as much as the least window in force since that reset |
| FallbackRing.PushKeepsOrder | aille.hpp:558-563 | writing at the head modulo the window is a push that forgets the oldest sample |
| FallbackRing.RetainedAt | aille.hpp:1074-1079 | the repack reads the retained newest samples in age order, also across the wrap |
| FallbackRing.SlotsSum | aille.hpp:539-546 | the sum over slots 0..count-1 is the sum of the queue |
| DecisionEngine.Engine.UpdateFallback | aille.hpp:548-564 | both arrays undergo that push |
| DecisionEngine.Engine.SetConfig | aille.hpp:1060-1087 | refuses exactly the invalid configurations with nothing changed; otherwise keeps the newest samples that fit the new window |
| DecisionEngine.Engine.ResetRing | aille.hpp:1049-1055 | empties the queue |
| DecisionEngine.Engine.Fallback | aille.hpp:698-717 | the value is the fallback of the queue, whatever order its slots lie in |
| DecisionEngine.Engine.MakeDecision | aille.hpp:864-1047 | the decision is the one the model defines, path by path, and only an accepted one enters the ring |
| Consensus.MedianSignIsMajority | aille.hpp:606-609 | whatever permutation nth_element leaves, the median is non-negative exactly when twice the negatives are at most the count |
| Consensus.CheckConsensus | aille.hpp:594-635 | the vote by the median's sign is the vote by majority count |
| VoteMean.VoteIsWeightedMean | aille.hpp:594-635 | the vote is accepted exactly when the winning lanes are enough by number and share and have any confidence; its value times their confidences is the sum of their values times confidences |
| VoteMean.NoConfidenceNoSay | aille.hpp:621-631 | a lane without confidence does not move the value while the same side wins and the vote stays accepted |
| VoteMean.ConfidencePulls | aille.hpp:621-631 | raising the confidence of a winning lane keeps the vote accepted and moves its value towards that lane |
| Consensus.HalfAgree | aille.hpp:611-616 | the agreeing models are at least half |
| Consensus.ConsensusBetween | aille.hpp:621-632 | an accepted value lies between any bounds of the agreeing values |
| Consensus.ConsensusSign | aille.hpp:621-632 | an accepted value has the majority's sign |
| Consensus.VoteUnordered | aille.hpp:594-635 | the vote does not depend on the order of the signals |
| Decisions.DecisionWithinLimit | aille.hpp:864-1047 | under a valid configuration every decision on every path is within max_position_abs; under an invalid one it is zero |
| Decisions.AcceptedFollowsMajority | aille.hpp:1013-1028 | an accepted position never points against the majority |
| Decisions.AcceptedContributors | aille.hpp:1013-1038 | the contributors of an accepted decision are different models, at least half of them agree, and at least as many as required |
| Decisions.FallbackFollowsMean | aille.hpp:698-717 | the fallback points in the direction of the recent mean, at its scale or at the position limit |
| Decisions.NoFaultInRange | aille.hpp:922-997 | signals that pass have confidences in [0,1] and distinct model identifiers |
| DecisionPaths.StatusExplained | aille.hpp:864-1047 | each status is given exactly under its own condition: kill switch, permission and stabilizer, configuration, first bad signal, admitted lanes, carried vote |
| DecisionPaths.ValueExplained | aille.hpp:864-1047 | value, confidence, agreement, contributors and fallback flag of every decision on every path |
| DecisionPaths.LanesAreAdmitted | aille.hpp:575-592 | the lanes are exactly the signals at or above the grace threshold, in order, those below the full threshold with four fifths of their confidence |
| DecisionPaths.FirstFaultIs | aille.hpp:926-997 | signals pass exactly when all are timely, in range and of different models; otherwise the first bad one decides |
| TraderDaemon.OrderIsDebounced | examples/volume_auto_trader.cpp:202-213 | every order sent comes at the end of hysteresis_bars ticks in a row that were all evaluated and all asked to buy, with no skipped tick between |
| TraderDaemon.CountIsStreak | examples/volume_auto_trader.cpp:202-213 | the bar counter is the length of the current streak as long as the daemon may act |
| TraderDaemon.OrderIsSafe | examples/volume_auto_trader.cpp:146-163 | every order costs at most max_position_usd and is sent while the drawdown from the highest equity ever seen is below the limit |
| TraderDaemon.OrderWithin | examples/volume_auto_trader.cpp:236-250 | quantity times price never exceeds the position limit, after rounding down and risk reduction |
| TraderDaemon.PeakIsHighWater | examples/volume_auto_trader.cpp:152-156 | the peak is the running maximum of all equities as long as the daemon may act |
| TraderDaemon.AtMostOneRealOrder | examples/volume_auto_trader.cpp:138-145 | with mock off at most one order is accepted in a daemon's lifetime, after which it stays pending, and it never flattens |
| TraderDaemon.MockTradesAlternate | examples/volume_auto_trader.cpp:226-265 | with mock on accepted buys and completed flattens strictly alternate, starting with a buy |
| TraderObject.VolumeTraderDaemon.ProcessTick | examples/volume_auto_trader.cpp:130-265 | the updates of the fields are the step of the state machine, early returns included |
| TraderSignals.AsksIff | examples/volume_auto_trader.cpp:130-202 | a tick asks for something exactly when it reaches the signal, and to buy exactly when the broker is not locked by then and the advisory shows a contrarian buy, or favourable growth without elevated risk |
| TraderSignals.LocksIff | examples/volume_auto_trader.cpp:130-265 | the lockout and the pending outcome last, and are set for the listed reasons and no other |
| TraderSignals.OrderFollowsSignals | examples/volume_auto_trader.cpp:188-213 | each of the hysteresis_bars ticks before any order of any run carried a reason to buy and found the broker unlocked |
| TraderSignals.EveryTickActs | examples/volume_auto_trader.cpp:203-265 | over every run an order goes out exactly after hysteresis_bars requests to buy in a row with execution on, nothing held and a budget for one share, for the most whole shares the budget buys; a flatten exactly after as many requests for nothing with something held |
| TraderObject.SymbolOk | examples/volume_auto_trader.cpp:62-63 | the symbol check of the configuration |
| SyncClock.AcceptedAscend | extensions/aille_sync_adapter.cpp:35-184 | over every interleaving of external ticks, standalone ticks, reconfigurations and resets: accepted ticks ascend in index and timestamp since the last reset, two timestamps being equal only when both are zero; they are what the total counts, and max_observed_drift is the largest absolute drift among them |
| SyncClock.StrictUnlessZeroRepeats | extensions/aille_sync_adapter.cpp:129-143 | the timestamps ascend strictly exactly when the system clock gave no zero to a tick after the first while the last timestamp was zero |
| SyncClock.ZeroClockRepeats | extensions/aille_sync_adapter.cpp:137-143 | a system clock that reads zero twice makes two ticks at time zero |
| SyncClock.EveryRunSound | extensions/aille_sync_adapter.cpp:35-184 | total = external + fallback, total never exceeds the index, phase in [0, 2 pi], confidence in [0, 1], everything within 64 bits |
| SyncClock.StepAdvances | extensions/aille_sync_adapter.cpp:41-57 | an accepted tick moves the index strictly forward, and the timestamp exactly unless the system clock reads zero while it is zero; a refused one moves neither, nor any count |
| SyncClock.TickReports | extensions/aille_sync_adapter.cpp:35-127 | an accepted external tick: last timestamp + cadence + drift = timestamp, and gap, drift warning, confidence, degradation and both escalations exactly as the drift and the gap make them |
| SyncClock.StandaloneReports | extensions/aille_sync_adapter.cpp:129-184 | a standalone tick is one cadence later, with the phase moved by a tenth around the circle |
| SyncObject.SyncAdapter.IngestProtocolClock | extensions/aille_sync_adapter.cpp:35-127 | the machine-integer method is the step, and no 64-bit sum, difference, negation, product or conversion in it overflows |
| SyncObject.SyncAdapter.AdvanceTick | extensions/aille_sync_adapter.cpp:129-184 | the same for a standalone tick |
| SyncObject.SyncAdapter.ResetState | extensions/aille_sync_adapter.cpp:28-33 | resets everything but the configuration, whose cadence becomes the expected one |
| SyncObject.SyncAdapter.MeasureDrift | extensions/aille_sync_adapter.cpp:66-73 | the signed drift is exact and its magnitude representable |
| RegimeHysteresis.MachinesAreTriggers | extensions/aille_chart_intelligence.cpp:403-495 | all three machines are one three-level trigger with their own thresholds; the correlation machine while the rolling correlation is positive |
| RegimeHysteresis.Idempotent | extensions/aille_chart_intelligence.cpp:403-495 | a repeated input changes nothing the second time |
| RegimeHysteresis.MoreStressMoreCaution | extensions/aille_chart_intelligence.cpp:393-501 | each factor is that of its level, and more volatility, less depth and less correlation from the same levels never lower any factor |
| RegimeHysteresis.RatiosAre | extensions/aille_chart_intelligence.cpp:403-490 | the inputs of the three machines against the baselines that count |
| RegimeHysteresis.OrderPreserving | extensions/aille_chart_intelligence.cpp:403-495 | larger inputs from higher levels never give lower levels |
| RegimeHysteresis.TriggerCannotChatter | extensions/aille_chart_intelligence.cpp:409-429 | direction reversals times the hysteresis gap never exceed the total variation of the input |
| RegimeHysteresis.RegimesCannotChatter | extensions/aille_chart_intelligence.cpp:393-501 | over every run of the computation, with gaps 0.10, 0.10 and 0.06 |

## Left out

- Seqlock.SnapshotIsAHistory: is stated for scans in which no accepted round saw 2^64 bumps of its shard; `Seqlock.TornReadAfterFullWrap` shows the bound is needed.
- WaveEvaluator.CountingLaw: starts from a fresh state, whose clone fields the evaluator never sets; with a degraded clone it returns before the sequence check.
- WaveEvaluator.GapsAreRefusals: is stated for fewer than 2^64 frames offered in all, as the processed count itself wraps there.
- Routing.AssetWithin: goes one way; an asset that sends and receives can also meet its bound because its two scaled flows cancel, and `Routing.BothWaysEscapes` shows that it may not.
- OrderBookObjects.LimitOrderBook.ProcessOrder: takes an order object that does not already rest in the book; submitting a resting object again is not modelled.
- MarketObjects.ImpactMarketModel.ProcessOrders: takes the orders of one step to be different objects.
- MarketObjects.SettleTrades: takes different agent identifiers to name different agent objects.
- AuditLog.AuditLogger.LogDecision: takes fewer than 2^64 records for granted in a logger without a file; with a file the capacity test is far below.
- AuditChain.LastDigestDeterminesHistory: leaves the collision as an alternative instead of taking the digest to be injective, which no 256-bit digest is.
- TraderDaemon.OrderIsSafe: takes the broker's lockout to last once triggered, and the broker's and advisory's answers to be arbitrary; cancelling a pending order has no effect on the daemon and is not modelled.
- DecisionEngine.Engine.MakeDecision: receives what nth_element leaves as an argument, restricted only by what nth_element promises, and tanh as a function.
- Constructors that refuse a bad tick size, price, coefficient or daemon configuration are modelled for good ones; the condition they refuse by is their precondition.
- Rounding, NaN and infinities of floating point, so also the branches taken only for non-finite values.
- Acquire and release orders weaker than sequential consistency.
- The rounds of SHA-256 and the decimal printing of floats, which enter as functions.
- AuditLog.AuditLogger.Open: receives as flags whether the file can be opened, locked and synced and whether it is a private regular file; the text export and the report are not modelled.
- The trace records, log texts and reasons that the pipelines, the engine and the daemon write beside their results.
- The bias settings of the daemon's configuration check, which enter as one flag.
- Agents' decisions, random numbers, price curves, statistics and best-price or depth readers of the market simulation.
- Assets', macro and anomaly advisories, the unified runtime, stress override and arbitration: they would add single-branch facts only.
- Servers, plugins, hardware layers, builders and command lines.
