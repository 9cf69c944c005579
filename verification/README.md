# Kyros arbitrage: the decision core, modelled and proved

Kyros watches the order books of several exchanges, sizes every pair of exchanges on which a market
could be bought on one side and sold on the other, ranks the results, and executes at most one
simulated trade per pass against a paper ledger. A risk controller with a sticky circuit breaker
stands in front of every trade. This project models that core and the parts that feed it, and proves
what they keep over every input, every pass and every run.

`dafny verify dfyconfig.toml` checks all of it. Lemmas on which Dafny would try induction by itself carry
`{:induction false}`, so that each proof is the one that is written; `hide` keeps the arithmetic of one
lemma out of the others.

## What is modelled

- **Depth and sizing** (`Depth`, `Sizing`). The two-pointer walks over an ask and a bid ladder are
  methods with the source's indices and remainders, proved against the merge of the two ladders into
  stretches of one ask and one bid price. `DepthTheorems`, `Allocations`, `Optimality`,
  `SizingTheorems`, `MinimumTheorems`, `BreakpointTheorems`, `AdmissibleTheorems` and `Matching` say
  what the chosen size means: it is optimal among all allocations of fills, it lies on the two price
  curves, it is what the plain walk returns, its minimum flag speaks about the largest affordable size,
  and the sizes it is chosen from are the ends of levels and of the wallets.
- **Engine, ledger and risk controller** (`Ledger`, `Risk`, `Latency`, `Terms`, `Ranking`, `Sorting`,
  `Scoring`, `Engine`). Each object is a class with the source's fields; each method is proved against
  a function of the old state, and a whole pass against the relation `Scoring.PassStep`. The order in
  which markets come up and the order of ties are left open. `LedgerTheorems`, `RiskTheorems`, `ModeTexts`,
  `LatencyTheorems`, `RouteTheorems` and `PassTheorems` speak about single operations and passes.
  `LabelTheorems` gives the label and every figure of a route by one table of conditions on the books, the
  terms, the wallets, the samples and the controller, and `ExecutionTheorems` says from them when a pass
  executes, and what. `RunTheorems`, `ReconciliationTheorems`, `SafetyTheorems` and `SeedingTheorems` are
  about whole runs, in which passes interleave with mode switches, halts, resets and outside questions to
  the controller.
- **The wake-up protocol** (`MarketStore`, `MarketTheorems`, `WakeUp`). The store of snapshots is a class. Its
  interplay with the decision loop is a state machine whose steps are as fine as the source's: a
  writer holds the lock while it notifies subscriber after subscriber, and the loop receives, drains
  and reads in between; subscribers come and go.
- **The Kraken book** (`KrakenBook`, `KrakenTheorems`) and the **percentile** (`Percentile`).

Amounts are exact reals. Division goes through a function value of type `Arithmetic.Quotient`, because
the source's decimal quotient rounds; a theorem that needs it exact says `Exact(quo)`. Payability of
approved trades, conservation, exactly-once execution, the breaker and the wallets' positivity hold for
every such function, however it rounds.

## Where the code does less than its names suggest

Each with an input, the exact condition, and whether the server as it is wired can come to it.

- **Sizes between breakpoints.** With a market minimum in force, only breakpoints of the walk are scored.
  `Matching.ProfitableSizePassedBy` is a book on which a trade netting 6.82 is passed by for one losing
  3.80. The selection is the best of all payable sizes that meet the minimum exactly when a level of
  either side ends at the least of them, or that is the largest affordable one, or its next unit would
  not lose money (`AdmissibleTheorems.BestOfAdmissibleIff`). Books and minimums come from the exchanges,
  so this can happen.
- **A depth-limited book forgets.** A message keeps the book in agreement with the full one exactly when
  every level that was out of sight, and that the message does not send again, is still not among the
  best after it; the book agrees after every message of a run exactly when every message but the
  snapshots does so (`KrakenTheorems.MessageAgreesIff`, `RunAgreesIff`). `LevelForgotten` is a run of
  three messages to a book of ten levels, the depth the server asks for, that ends in disagreement;
  `LevelReplaced` is the same run with the hidden level sent again along with the removal, as a
  depth-limited feed is expected to do, and it ends in agreement. Whether the first can happen is up to
  the feed; a message with a checksum over the feed's ten levels would then end the stream
  (internal/exchange/kraken/provider.go:89-106, :211-216), and the next one starts from a snapshot.
- **A zero cap is no cap.** On a crossed book and an empty wallet nothing is chosen, and the plain walk
  capped at that size takes the whole book (`Matching.ZeroCapTakesAll`); in all other cases the two agree
  (`SizingTheorems.SelectionRefinesWalk`). The only caller of the plain walk passes zero on purpose, to
  show the whole crossed depth (internal/arbitrage/routes.go:96), so no trade is sized this way.
- **The mode text is kept as given.** `SetMode` accepts "AGGRESSIVE" and then weighs candidates as balanced
  (`RiskTheorems.CapitalsFallBack`; `ModeTextDecides` says for which texts). The server does not come to
  this: the only caller passes on the mode it parsed (internal/ui/dashboard/risk/handler.go:30-37), and
  the mode loaded at the start is parsed too; for those the thresholds are the named ones
  (`RiskTheorems.ParsedModeDecides`).
- **The breaker never opens by itself.** Session profit is never negative, so no pass reaches the drawdown
  limit, and no approved trade is refused. As the server lets only mode switches and resets at the
  controller from outside, the breaker never opens there at all (`SafetyTheorems.BreakerNeverOpens`).

## Model

| member | source | states |
|---|---|---|
| Depth.WalkExecutableDepth | internal/arbitrage/routes.go:135-206 | the walk ends for every pair of ladders and every cap, takes `WalkOn` of them, and without negative quantities the crossed stretches of the two in order up to the cap |
| Depth.WalkOnMerged | internal/arbitrage/routes.go:144-198 | without negative quantities, stepping along two remainders is taking the merged stretches in order |
| DepthTheorems.CrossedIffMerged | internal/arbitrage/routes.go:144-149 | a size lies within the merged stretches exactly when every unit of it is bid above its ask |
| DepthTheorems.WalkReachesCrossing | internal/arbitrage/routes.go:144-198 | the walk stops at the largest crossed size the cap allows and reads cost and revenue off the two price curves there |
| Allocations.BookOrderIsCheapest | internal/arbitrage/routes.go:144-198 | no way of filling an amount from an ask ladder costs less than filling it in book order |
| Allocations.BookOrderIsDearest | internal/arbitrage/routes.go:144-198 | no way of filling an amount into a bid ladder earns more than filling it in book order |
| Matching.WalkIsBestMatching | internal/arbitrage/routes.go:144-198 | no matching of the two ladders within the cap, of any size, grosses more than the walk |
| Sizing.SelectBestNetDepth | internal/arbitrage/engine.go:288-385 | the loop over indices, remainders and wallet caps returns the best scored breakpoint of the merged ladders |
| Optimality.Chosen | internal/arbitrage/engine.go:350-363 | the result is a breakpoint of greatest net among those that meet the minimums, or the first breakpoint when none does |
| Optimality.ChosenIsFirst | internal/arbitrage/engine.go:350-363 | of the breakpoints that meet the minimums and net the most, the first, and so the smallest, is chosen |
| Optimality.AllocationOnCurve | internal/arbitrage/engine.go:387-419 | filling as much in book order is payable whenever an allocation is, and nets no less than its revenue less cost, fees and latency penalty |
| Optimality.SizingIsOptimal | internal/arbitrage/engine.go:288-469 | without minimums, no payable allocation of equal amounts over any levels, beyond the crossing too, nets more after both fees and the latency penalty than the selection or zero |
| SizingTheorems.VisitsOnCurve | internal/arbitrage/engine.go:335-347 | every breakpoint is a crossed size within the base wallet with both notionals on the price curves |
| SizingTheorems.VisitsAffordable | internal/arbitrage/engine.go:421-469 | every breakpoint is paid for by both wallets, fee included |
| SizingTheorems.SelectionOnCurve | internal/arbitrage/engine.go:335-362 | a chosen depth is crossed, positive, within the base wallet and on both curves |
| SizingTheorems.SelectionRefinesWalk | internal/arbitrage/engine.go:296-382 | the chosen depth equals the plain walk capped at the chosen size exactly when a size was chosen or the tops do not cross |
| SizingTheorems.HasDepthIff | internal/arbitrage/engine.go:296-333 | there is a size exactly when the tops cross, both wallets hold something and the quote buys something at the top ask |
| SizingTheorems.MinimumSpeaksOfLargest | internal/arbitrage/engine.go:350-363 | there is a largest affordable crossed size; the minimums are reported met exactly when that size meets both |
| MinimumTheorems.BestFromFirstMinimum | internal/arbitrage/engine.go:350-363 | from the first breakpoint that meets the minimums on, no payable allocation of any size nets more than the selection |
| BreakpointTheorems.VisitedIff | internal/arbitrage/engine.go:296-382 | from any point of the walk, a payable crossed size is a breakpoint to come exactly when a level of either side ends there or the wallets go no farther |
| BreakpointTheorems.BreakpointIff | internal/arbitrage/engine.go:296-382 | the scored sizes, read off the ladders and wallets: where a level of either side ends, and the largest affordable size |
| BreakpointTheorems.PartialIff | internal/arbitrage/engine.go:316-349 | a selection is reported partial exactly when no level of either side ends at its size |
| AdmissibleTheorems.SizeForIs | internal/arbitrage/engine.go:629-633 | a cost that a ladder reaches is reached exactly from one least size on |
| AdmissibleTheorems.LeastAdmissibleIff | internal/arbitrage/engine.go:350-363 | with a minimum in force, the selection meets it exactly when the wallets can pay for the least crossed size that does, which then exists |
| AdmissibleTheorems.BestOfAdmissibleIff | internal/arbitrage/engine.go:350-363 | with a minimum in force and met, the selection is the best of all payable sizes that meet it, beyond the crossing too, exactly when a level ends at the least of them, it is the largest affordable, or its next unit does not lose |
| Matching.ProfitableSizePassedBy | internal/arbitrage/engine.go:350-363 | a concrete book and minimum on which the selection loses although an admissible size would gain |
| Matching.ZeroCapTakesAll | internal/arbitrage/routes.go:159-165 | a concrete crossed book and empty wallet on which nothing is chosen and the walk capped at zero takes everything |
| Terms.Floored | internal/terms/fallback.go:177-189 | for every asset, the larger of its floor and its positive authenticated amount, and no other asset |
| Terms.MergeBalanceFloors | internal/terms/fallback.go:177-189 | filling a copy of the floors in any map order gives that wallet |
| Terms.FlooredUnique | internal/terms/fallback.go:177-189 | the floors and amounts determine the merged wallet |
| Terms.FlooredPositive | internal/terms/fallback.go:175-189 | a merged wallet keeps every floor asset and has only positive entries |
| Ledger.PaperLedger.constructor | internal/portfolio/paper/ledger.go:21-35 | starts with the demo wallet on each default exchange and nothing executed |
| Ledger.PaperLedger.Seed | internal/portfolio/paper/ledger.go:139-145 | a wallet is put in place unless one is there and must be kept |
| Ledger.PaperLedger.SeedAuthenticatedOnce | internal/portfolio/paper/ledger.go:43-62 | replaces a wallet only by an authenticated one, once per exchange and only before any execution |
| Ledger.PaperLedger.Balance | internal/portfolio/paper/ledger.go:64-72 | shows the wallet's amount, or for an exchange not met yet 2 BTC and 200000 of USDT and of USD |
| Ledger.PaperLedger.EnsureExchange | internal/portfolio/paper/ledger.go:147-153 | enters an unmet exchange with the demo wallet |
| Ledger.EnsuredView | internal/portfolio/paper/ledger.go:147-153 | entering an exchange changes no balance that anyone can see |
| Ledger.PaperLedger.Settle | internal/portfolio/paper/ledger.go:120-123 | moves the four amounts in the source's order, aliases included |
| Ledger.PaperLedger.Apply | internal/portfolio/paper/ledger.go:98-128 | accepts exactly the executions both wallets can pay for, and leaves the state `Applied` describes |
| LedgerTheorems.AppliedView | internal/portfolio/paper/ledger.go:120-123 | an accepted execution moves exactly four amounts, whichever exchanges and assets coincide |
| LedgerTheorems.PayableIff | internal/portfolio/paper/ledger.go:113-118 | an execution is accepted exactly when the buying wallet shows the cost with its fee and the selling wallet the size |
| LedgerTheorems.AppliedRecords | internal/portfolio/paper/ledger.go:125-126 | an accepted execution is appended and its profit added |
| LedgerTheorems.RefusedLeavesNoTrace | internal/portfolio/paper/ledger.go:113-118 | a refused execution changes no visible balance, no execution and no profit |
| LedgerTheorems.ExecutionConserves | internal/portfolio/paper/ledger.go:105-123 | over any exchanges with the two traded on, an execution conserves every asset but its quote and adds proceeds less cost to that |
| SeedingTheorems.SeedingView | internal/portfolio/paper/ledger.go:43-62 | an offered authenticated wallet, the first of its exchange and before any execution, raises what that exchange shows to the larger of the demo and the positive authenticated amount; nothing else changes any balance shown |
| SeedingTheorems.SecondIsIgnored | internal/portfolio/paper/ledger.go:53-56 | a second wallet of the same exchange changes nothing that is shown |
| SeedingTheorems.RunShowsFirst | internal/arbitrage/engine.go:116-122 | in every run, until something is executed, each exchange shows the first unexpired authenticated wallet any pass offered for it, raised to the demo amounts, and the demo wallet when there was none |
| Risk.Controller.constructor | internal/risk/controller.go:36-41 | starts normal and closed in the stored mode |
| Risk.Controller.SetMode | internal/risk/controller.go:44-65 | an accepted mode is taken over, the breaker and its status staying as they are when open |
| Risk.Controller.Reset | internal/risk/controller.go:67-78 | closes the breaker and clears its reason |
| Risk.Controller.Halt | internal/risk/controller.go:80-87 | opens the breaker with the given reason, or with the default one |
| Risk.Controller.Evaluate | internal/risk/controller.go:103-123 | allows exactly the candidates within the limits of the mode, 75/6/50/0.05, 150/12/100/0.03 or 250/20/250/0.01, while the breaker is closed; a loss past the limit, and nothing else, opens it |
| Risk.Controller.Preview | internal/risk/controller.go:125-137 | allows exactly the candidates that `Evaluate` allows and changes nothing |
| Risk.AllowedIff | internal/risk/controller.go:139-180 | an answer is an approval exactly when the breaker is closed, the loss, the spread and the latency are within the numbers of the mode and both wallets keep its reserve; asking opens the breaker exactly for a loss past the limit |
| RiskTheorems.AnswerOf | internal/risk/controller.go:139-208 | the whole answer: the first limit passed, in the order drawdown, spread, latency, buying wallet, selling wallet, gives the reason, and asking leaves its status and texts, or an open breaker after a drawdown |
| RiskTheorems.ControlsLeave | internal/risk/controller.go:44-87 | what a halt, a reset and a mode switch leave, field by field |
| ModeTexts.AcceptedIffNamed | internal/risk/types.go:71-79 | a text is accepted as a mode exactly when it is the mode's name in any capitals with blanks around it |
| RiskTheorems.ApprovalKeepsReserve | internal/risk/controller.go:210-219 | an approval leaves at least the reserve rate in both paying wallets, and so something in each, in every mode |
| RiskTheorems.CircuitOpenIff | internal/risk/controller.go:103-123 | the breaker is open exactly when something opened it after the last reset |
| RiskTheorems.OpenStays | internal/risk/controller.go:54-64 | nothing but a reset closes an open breaker or changes its status |
| RiskTheorems.CircuitIsSticky | internal/risk/controller.go:111-113 | through any events without a reset an open breaker stays open and halted and denies every candidate as open |
| RiskTheorems.ModeTextDecides | internal/risk/controller.go:44-55 | the thresholds in force after an accepted switch are those of the named mode exactly when the text was its plain name or named the balanced mode |
| RiskTheorems.CapitalsFallBack | internal/risk/controller.go:44-55 | "AGGRESSIVE" is accepted and weighed as balanced |
| RiskTheorems.ParsedModeDecides | internal/risk/types.go:71-105 | a mode that was parsed is its own name, and setting it puts its own thresholds in force |
| Latency.Prune | internal/arbitrage/latency.go:58-65 | drops what is older than the cutoff from the front, then all but the newest 256 |
| Latency.LatencyModel.constructor | internal/arbitrage/latency.go:24-32 | starts empty, with five minutes for a window that is not positive |
| Latency.LatencyModel.Observe | internal/arbitrage/latency.go:34-68 | records the mid of every live book in turn, pruned |
| Latency.LatencyModel.Penalty | internal/arbitrage/latency.go:70-83 | the larger last movement of the two feeds, when both have one |
| LatencyTheorems.WindowStep | internal/arbitrage/latency.go:57-66 | pruning the kept samples with one more gives the window on the whole history with one more |
| LatencyTheorems.MidIsHalf | internal/arbitrage/latency.go:45-57 | a sample is taken at the time of the call and is half the sum of the best bid and the best ask |
| LatencyTheorems.SamplesAreWindow | internal/arbitrage/latency.go:34-68 | with times that never step back, the samples of a feed are the last 256 of its whole history in the window ending at its latest observation |
| LatencyTheorems.PenaltyRestsOnWindow | internal/arbitrage/latency.go:70-107 | right after a call that observed a feed, all its samples lie in the window ending at the call |
| LatencyTheorems.PenaltyFromHistory | internal/arbitrage/latency.go:70-107 | from the whole histories of two feeds: a penalty exactly when both have two samples in their windows, the same whichever is named first, and the larger of their last steps in basis points of the price before |
| LatencyTheorems.MovementFromHistory | internal/arbitrage/latency.go:85-107 | one feed's movement, from its whole history: known exactly with two samples in the window, then its last step, zero exactly for a still mid |
| Sorting.Sort | internal/arbitrage/engine.go:53-69 | some permutation ordered by the comparator |
| Ranking.BeforeIsStrictWeakOrder | internal/arbitrage/engine.go:53-69 | the ranking comparator is a strict weak order |
| Ranking.RankedOrder | internal/arbitrage/engine.go:53-69 | however ties fall: executable, waiting, skipped, no edge last, by falling net in each and then by falling gross basis points; the first is executable exactly when any is, and nets the most of those |
| Ranking.BestNetOverall | internal/arbitrage/engine.go:97-114 | one more batch keeps the session best the first of the routes with exchanges, size and cost that net the most of all seen |
| Engine.ArbitrageEngine.constructor | internal/arbitrage/engine.go:27-35 | starts with no executed ids, no session best and no samples |
| Engine.ArbitrageEngine.SeedActualBalances | internal/arbitrage/engine.go:116-122 | offers every fresh terms snapshot to the ledger in order |
| Engine.ArbitrageEngine.Score | internal/arbitrage/engine.go:157-182 | the stale-terms and empty-book answers, or what scoring the tops gives |
| Engine.ArbitrageEngine.ScoreCrossed | internal/arbitrage/engine.go:184-255 | the balance, edge, latency, depth, minimum, transfer-fee and net checks in the source's order, each with its label |
| Engine.ArbitrageEngine.EvaluatePair | internal/arbitrage/engine.go:256-270 | asks the controller about a route that got that far and labels it as `ScoredPair` does, which `LabelTheorems.ExecutableIff` and `RouteLabel` read off the inputs; only `Evaluate` may change the controller |
| Engine.ArbitrageEngine.GroupByMarket | internal/arbitrage/engine.go:125-131 | the live books with both sides, by market, in the order given |
| Engine.ArbitrageEngine.FindOpportunities | internal/arbitrage/engine.go:124-155 | every pair of every market in some order of the markets, or the waiting entry when there is none |
| Engine.ArbitrageEngine.ExecuteBest | internal/arbitrage/engine.go:595-627 | applies the route and records its id, or relabels it, halting when the ledger refuses |
| Engine.ArbitrageEngine.ObserveSessionBest | internal/arbitrage/engine.go:97-107 | folds the shown routes into the session best |
| Engine.ArbitrageEngine.Number | internal/arbitrage/engine.go:71-77 | ranks from one, and the number of places at which a route is skipped |
| Engine.ArbitrageEngine.Run | internal/arbitrage/engine.go:45-95 | one whole pass is the relation `PassStep`, and the report shows the state after it |
| Engine.ArbitrageEngine.Evaluate | internal/arbitrage/engine.go:37-39 | a pass that executes |
| Engine.ArbitrageEngine.Project | internal/arbitrage/engine.go:41-43 | a pass that does not |
| RouteTheorems.VisitsGain | internal/arbitrage/engine.go:296-347 | every breakpoint of any two ladders earns strictly more than it costs before fees |
| RouteTheorems.SelectionAddsUp | internal/arbitrage/engine.go:387-419 | the parts of a selection as numbers of its depth: gross, gross in basis points of the cost, each fee at its rate, the penalty at basis points over ten thousand, the net, and the minimums met exactly when size and cost reach them; it sells dearer than it buys |
| RouteTheorems.RouteFacts | internal/arbitrage/engine.go:157-255 | whatever the books and the rounding, a route that reaches the controller has a positive net and size and figures that balance, and asks about its own gross and latency basis points, the session profit and both balances before and after; one that does not is never executable |
| RouteTheorems.ApprovedIsExecutable | internal/arbitrage/engine.go:256-266 | an approved route leaves the reserve of the mode in force in both paying wallets |
| RouteTheorems.ExecutableIsPayable | internal/portfolio/paper/ledger.go:113-118 | such a route passes both balance checks of the ledger |
| RouteTheorems.CostDecomposition | internal/arbitrage/engine.go:212-250 | size times the top spread is gross profit plus a slippage never negative; each fee is at its own side's rate, the latency penalty at the feeds' penalty, the rebalance cost the buying side's base fee at the average price plus the selling side's quote fee; net is sale less purchase, both fees, latency and rebalance cost |
| RouteTheorems.SelectionWithinTops | internal/arbitrage/engine.go:244-249 | no chosen size costs less than the top ask or earns more than the top bid a unit |
| RouteTheorems.SelectionAffordable | internal/arbitrage/engine.go:432-469 | both wallets pay for the chosen size, fee included |
| RouteTheorems.SizeWithinGate | internal/arbitrage/engine.go:574-593 | the chosen size is at most what the balance gate allows at the top ask |
| RouteTheorems.OnlyCrossedGains | internal/arbitrage/engine.go:157-255 | no route is shown with a gain, labelled or not, unless its tops cross |
| RouteTheorems.GateYieldsDepth | internal/arbitrage/engine.go:184-207 | past the balance gate a crossed top always yields a size |
| LabelTheorems.TermsForIff | internal/arbitrage/engine.go:169-175 | the terms a route works with are the first on file for the exchange and market |
| LabelTheorems.RouteLabel | internal/arbitrage/engine.go:157-270 | the whole answer about a route: the first check that fails, from terms, books, wallets, edge, samples, size, minimums, transfer fees, net and controller to repetition, gives decision and reason, and every figure follows from the size selected or from the tops |
| LabelTheorems.ExecutableIff | internal/arbitrage/engine.go:157-270 | a route is executable exactly when both terms are on file and unexpired, both wallets funded, the tops crossed, both feeds sampled twice, the selected size and cost reach all four minimums, both transfer fees are known, the net after every cost is positive, the controller's limits are kept and the id is new |
| LabelTheorems.FundedHasSize | internal/arbitrage/engine.go:296-333 | on well-formed crossed books two funded wallets always give a size |
| PassTheorems.PairsAreAll | internal/arbitrage/engine.go:124-144 | a pass scores exactly the pairs of live books of one market on two exchanges |
| PassTheorems.PairsScoredOnce | internal/arbitrage/engine.go:134-144 | no pair is scored twice when no book is listed twice |
| PassTheorems.BestIsExecuted | internal/arbitrage/engine.go:595-627 | the first route waits for new books if its id is on record, opens the breaker and moves nothing if a wallet does not cover it, and is appended and put on record otherwise |
| PassTheorems.FoundFacts | internal/arbitrage/engine.go:157-270 | every executable route found is unseen, payable, between two exchanges and passed a closed breaker; asking moves neither breaker nor mode |
| PassTheorems.SeedingKeeps | internal/portfolio/paper/ledger.go:43-62 | seeding touches no execution and no profit, and nothing at all once something was executed |
| PassTheorems.PassOutcome | internal/arbitrage/engine.go:45-95 | without a session loss a pass appends at most one execution, the ledger never refuses it, the breaker does not move and no route shows a refusal or a drawdown |
| PassTheorems.PassRanks | internal/arbitrage/engine.go:53-80 | the shown routes are in ranking order with ranks from one, and the first is executable exactly when some route found is, netting the most |
| PassTheorems.ExecutionKeepsReserve | internal/risk/controller.go:210-219 | an execution leaves at least the reserve rate of the prior balance in both paying wallets |
| PassTheorems.AllPairsPermuted | internal/arbitrage/engine.go:134-144 | the order in which the markets come up only permutes the pairs scored |
| PassTheorems.ProjectShowsTheSame | internal/arbitrage/engine.go:251-270 | from one state `Project` and `Evaluate` show the same labelled routes, each as often, whatever the order of markets and ties in either |
| PassTheorems.ExecutableCosts | internal/arbitrage/engine.go:184-255 | every executable route of a pass is a scored pair whose costs decompose and whose net is positive |
| PassTheorems.GainIsCrossed | internal/arbitrage/engine.go:45-95 | over well-formed books every shown route with a gain is a scored pair whose tops cross |
| PassTheorems.OpenCircuitDenies | internal/arbitrage/engine.go:256-261 | with the breaker open every route that would reach it is skipped with the circuit-open reason |
| ExecutionTheorems.PassExecutesIff | internal/arbitrage/engine.go:45-95 | a pass executes exactly when it may and some pair of live two-sided books of one market on two exchanges meets the conditions of `LabelTheorems.ExecutableIff`; it then records that pair at figures given in full, and no pair that nets more met them |
| ExecutionTheorems.PairIsShown | internal/arbitrage/engine.go:124-145 | every such pair of books is shown with its rank, labelled and priced as `LabelTheorems.RouteLabel` says |
| ExecutionTheorems.NothingToScore | internal/arbitrage/engine.go:146-154 | without such a pair of books one entry is shown, which waits for a live route |
| ExecutionTheorems.NewBooksNewTrade | internal/arbitrage/engine.go:635-646 | the same levels are cleared again after their execution exactly once a sequence number or a time of either book is another, and that combination is not on record |
| ExecutionTheorems.CrossedBooksTrade | internal/arbitrage/engine.go:184-270 | a concrete pair, one unit at 100 against 101 with demo wallets, that is cleared and nets 0.799 |
| ExecutionTheorems.RunExecutesIff | internal/arbitrage/engine.go:37-95 | what `PassExecutesIff` says, for every pass of every run, the ids on record being those of the run's executions |
| ExecutionTheorems.RunSteppedIff | internal/arbitrage/engine.go:49-52 | the samples a pass of a run works with are the window on the feed's whole history, so that with a clock that never steps back a feed is ready exactly when its window holds two samples |
| RunTheorems.StepKeepsConsistent | internal/arbitrage/engine.go:595-627 | every event keeps profit the sum of positive profits and the ids those of the executions; only `Evaluate` appends, and at most one |
| RunTheorems.RunConsistent | internal/arbitrage/engine.go:263-269 | in every state of every run the executed ids are distinct, are those of the executions and are as many, and profit is not negative |
| RunTheorems.RunGrows | internal/portfolio/paper/ledger.go:125-126 | executions are only appended, at most one an event, and profit grows strictly with them |
| RunTheorems.ApprovedIsAlwaysPaid | internal/arbitrage/engine.go:618-625 | in every run the halt for a refused execution and the drawdown branch are never reached by a pass |
| ReconciliationTheorems.StepReconciles | internal/portfolio/paper/ledger.go:98-128 | an event keeps every balance equal to the starting one plus what the executions moved |
| ReconciliationTheorems.RunReconciles | internal/portfolio/paper/ledger.go:43-153 | from the first execution on, every balance of every exchange is the one it was decided on plus what the executions moved |
| ReconciliationTheorems.EarningsAddUp | internal/arbitrage/engine.go:387-419 | what executions brought in over all their quote assets is profit plus latency penalties plus rebalance costs |
| ReconciliationTheorems.RunConserves | internal/portfolio/paper/ledger.go:98-137 | over a run, the total of an asset grows by what executions quoted in it brought in, others are constant, and all quotes together grow by session profit plus penalties and rebalance costs |
| SafetyTheorems.RunIsStuck | internal/arbitrage/engine.go:256-261 | from an open breaker on, without a reset, nothing is shown executable or executed, profit stands still and every candidate is denied as open |
| SafetyTheorems.BreakerMovesByHand | internal/risk/controller.go:103-123 | passes never move breaker or mode, so the breaker is open exactly when a control opened it after the last reset |
| SafetyTheorems.BreakerNeverOpens | internal/ui/dashboard/risk/handler.go:25-50 | with mode switches and resets as the only outside controls the breaker never opens, whatever the markets do |
| SafetyTheorems.AppliedSolvent | internal/portfolio/paper/ledger.go:120-123 | an execution that leaves something in both paying wallets leaves every entry positive |
| SafetyTheorems.RunSolvent | internal/portfolio/paper/ledger.go:98-145 | every entry of every wallet is positive in every state of every run |
| SafetyTheorems.RunKeepsReserve | internal/risk/types.go:81-105 | every execution of a run leaves the reserve of the mode then in force in both paying wallets |
| SafetyTheorems.RunBest | internal/arbitrage/engine.go:97-114 | the session best is the first comparable route that nets the most of all ever shown, by either kind of pass |
| SafetyTheorems.RunSamples | internal/arbitrage/engine.go:49-52 | the samples of a run are those of its passes observed in turn |
| SafetyTheorems.PassPenaltyInWindow | internal/arbitrage/engine.go:49-52 | with pass times that never step back, the penalty of every scored pair rests on samples in the window ending at the pass |
| MarketStore.Store.constructor | internal/market/store.go:24-30 | starts with no snapshots and no subscribers |
| MarketStore.Store.NotifyLocked | internal/market/store.go:184-191 | leaves a wake-up in every slot and adds or removes none, whatever the order of the subscribers |
| MarketStore.Store.ApplyBook | internal/market/store.go:42-65 | files under its key the bids, asks, sequence and time of the book, with blanks filled in, touches no other key and wakes everybody |
| MarketStore.Store.Report | internal/market/store.go:67-81 | sets status, transport and message, keeping the levels, and wakes everybody |
| MarketStore.Store.ReportIfNotFresh | internal/market/store.go:87-104 | does the same unless a live book is fresh, and then nothing at all |
| MarketStore.Store.MarkOverdue | internal/market/store.go:106-128 | turns exactly the overdue live books stale, and wakes everybody exactly when there is one |
| MarketStore.Store.Snapshot | internal/market/store.go:145-162 | the books on file, one for each key, by the text base/quote and then by exchange, as texts compare at their first difference |
| MarketStore.Store.Subscribe | internal/market/store.go:164-171 | a new id with an empty slot |
| MarketStore.Store.Unsubscribe | internal/market/store.go:173-179 | takes one slot away |
| MarketStore.SilentChangesNothing | internal/market/store.go:87-128 | an operation that wakes nobody has changed nothing |
| Texts.TextBeforeIff | internal/market/store.go:154-160 | one text is before another exactly when, after a common front, it ends or has the lesser character |
| MarketTheorems.ArrivalFiled | internal/market/store.go:42-65 | an arriving book is on file with exactly its bids, asks, sequence, exchange and market, its time or that of its arrival, and what it says or WebSocket, live, "feed live" |
| MarketTheorems.ReportFiled | internal/market/store.go:67-81 | a report sets the three fields over whatever book is there, or over an empty one, and touches no other key |
| MarketTheorems.ReportDroppedIff | internal/market/store.go:83-104 | such a report is dropped, silently, exactly when the snapshot is live and was received within the time allowed |
| MarketTheorems.MarkingAges | internal/market/store.go:106-128 | marking turns exactly the live books received too long ago stale and keeps their levels; it wakes everybody exactly when there is one |
| MarketTheorems.FiledIsLastArrived | internal/market/store.go:42-128 | after any run of arriving books, status reports and markings, every snapshot is under its own key with exactly the bids, asks, sequence and time of the book that arrived last for it, and none was dropped |
| MarketTheorems.LiveIsRecent | internal/market/store.go:106-128 | right after a marking every live dated snapshot is the book that arrived last and came within the time allowed, and marking again is silent |
| WakeUp.MoveLosesNothing | internal/server/server.go:140-162 | every step of every participant keeps that the loop is about to look, is up to date, or has a wake-up pending |
| WakeUp.RunInvariant | internal/market/store.go:164-191 | the protocol's invariant holds at every point of every interleaving |
| WakeUp.NoLostWakeUp | internal/server/server.go:129-163 | if the last evaluated contents are not the store's, the loop is about to read, has just read the current contents, or a wake-up waits or is still to be left |
| WakeUp.NoSendOnClosed | internal/market/store.go:173-190 | nothing is sent on a closed channel, none is closed twice, and the loop ends only after its context was cancelled |
| WakeUp.RankFalls | internal/server/server.go:140-162 | every step of the loop or a lock holder lowers the bound, and of the steps of other subscribers only joining raises it, by one |
| WakeUp.SomethingMoves | internal/server/server.go:140-162 | until it has caught up, the loop, the writer or the closer can take a step |
| WakeUp.CatchesUp | internal/server/server.go:129-163 | once writers stop, whatever other subscribers do, the loop and the lock holders take a bounded number of steps, and when they can take none the loop waits having evaluated what the store holds |
| WakeUp.RankBound | internal/server/server.go:140-162 | the bound is fifteen steps plus two for each subscriber |
| WakeUp.WriteIsAtomic | internal/market/store.go:184-191 | sends in any order with nothing received in between do to the slots what the store's operation does |
| KrakenBook.LadderBest | internal/exchange/kraken/provider.go:356-375 | the first levels of a sorted side are those with fewer than the limit ahead of them |
| KrakenBook.BestIsCut | internal/exchange/kraken/provider.go:377-397 | the best levels of a side in prices: a bid with fewer than the limit of higher bids, an ask with fewer of lower asks |
| KrakenBook.PutAllUpdates | internal/exchange/kraken/provider.go:331-354 | after a list of updates each price has the quantity last sent for it, is gone if that was zero, and is as before if nothing was sent |
| KrakenBook.UpdatedOnce | internal/exchange/kraken/provider.go:331-354 | those three conditions leave one side |
| KrakenBook.SideFollows | internal/exchange/kraken/provider.go:194-204 | after a message a side is what the updates make of it, or of the empty side for a snapshot, cut by price |
| KrakenBook.Book.constructor | internal/exchange/kraken/provider.go:166-176 | starts empty, with ten levels for a limit that is not positive |
| KrakenBook.Book.Sorted | internal/exchange/kraken/provider.go:356-375 | the levels of a side, bids by strictly falling and asks by strictly rising price, cut at the limit |
| KrakenBook.Book.Truncate | internal/exchange/kraken/provider.go:377-397 | a bid stays exactly when fewer than the limit have a higher price, an ask exactly when fewer have a lower one; the other side is left alone |
| KrakenBook.Book.Apply | internal/exchange/kraken/provider.go:331-354 | a level sent has the quantity last sent for its price, zero removing it, the others stay as they were, and the side is then cut by price |
| KrakenBook.LadderUnique | internal/exchange/kraken/provider.go:356-375 | a side has one ladder, however its levels come up |
| KrakenBook.Book.Handle | internal/exchange/kraken/provider.go:178-216 | snapshot reset, both sides, the empty-side error exactly when a side is empty, a mismatch only when the ladders of what is kept do not have the checksum, and those ladders otherwise, bids falling and asks rising; either side follows from the one before by the updates and the cut |
| KrakenTheorems.BestAtMost | internal/exchange/kraken/provider.go:356-375 | at most the limit of levels have fewer than the limit ahead of them |
| KrakenTheorems.KeptIsWithinFull | internal/exchange/kraken/provider.go:331-397 | over any run of messages, every level kept is the full book's level at that price, and at most the limit are kept |
| KrakenTheorems.MessageAgreesIff | internal/exchange/kraken/provider.go:331-397 | one message of any updates keeps an agreeing book agreeing exactly when no level that was out of sight and is not sent again is among the best after it |
| KrakenTheorems.RunAgreesIff | internal/exchange/kraken/provider.go:194-204 | the book agrees with the full book after every message of a run exactly when every message that is not a snapshot does so |
| KrakenTheorems.KeptIsBest | internal/exchange/kraken/provider.go:331-397 | if every message since the last snapshot does so, what is kept is exactly the best levels of the full book, whatever went before |
| KrakenTheorems.TracksWithoutRemovals | internal/exchange/kraken/provider.go:194-204 | in particular over a run that removes nothing after the last snapshot |
| KrakenTheorems.RemovedAlone | internal/exchange/kraken/provider.go:346-349 | removing a best level and sending nothing else breaks the agreement whenever a level is out of sight |
| KrakenTheorems.LevelForgotten | internal/exchange/kraken/provider.go:346-353 | a concrete run of three messages from the empty book of ten levels that ends without a level of the best ten |
| KrakenTheorems.LevelReplaced | internal/exchange/kraken/provider.go:346-353 | the same run with the hidden level sent again ends in agreement |
| Percentile.Compute | internal/metrics/collector.go:187-201 | a sample with at least the percentage of samples at most it and fewer below it; zero for none, and the ends for percentages out of range; the input is left alone |
| Percentile.RankOf | internal/metrics/collector.go:191-200 | in a sorted list the entry at an index has more entries at most it than the index and no more below it |
| Percentile.NearestRankUnique | internal/metrics/collector.go:187-201 | the two bounds leave one value |

## Left out

- KrakenBook.Book.Handle: takes the checksum as a function of the two ladders and leaves out the texts it is computed from, the exchange time and the decoding of the message.
- KrakenBook.Book.Sorted: levels are filed under the price, while the source files them under its text, so that two texts of one price are two entries there.
- Risk.Controller.SetMode: the mode store is a flag that says whether it saved the mode; saving and taking over are one step.
- Percentile.Compute: samples are unbounded integers, so the product of count and percentage cannot overflow.
- Rounding to nineteen digits and the overflow branches of the decimal library: sums, differences and products are exact and never fail.
- Optimality after the rebalance cost: the size is chosen before that cost is taken off, and is claimed best only before it.
- The text of an opportunity id: ids are the tuple that the source prints, and asset names are assumed to hold no separator.
- Clock readings other than the time handed to a pass: the time of a halt and of an execution.
- The terms store: a pass works with one list of terms, while the source asks the store again for each route and refreshes it in the background.
- Concurrent mode switches in the middle of a pass: events of a run are atomic.
- Capital letters and blanks outside ASCII in a mode text.
- A missing risk controller: the server always builds one.
- Figures for display only: trading-fee, net and slippage basis points, balance rows, terms health and the source of the terms of a route.
- `FindRoutes` and `evaluateRoute`: they only display what the walk returns.
- The decision loop as a method: it never returns by itself, so it is the state machine of `WakeUp`; persisting and measuring a decision are left out there.
- Stored history: it records every route labelled executable, not only the one applied, and is not claimed to match session profit.
- The market observer, feeds, polling, REST, signing, configuration, logging and the user interface.
