/** When a pass executes, and what it then records: read off the books, the terms, the wallets, the samples
    and the controller alone. */
module ExecutionTheorems {
  import opened Arithmetic
  import opened Exchange
  import opened Reasons
  import opened Terms
  import opened Wrappers
  import opened Depth
  import opened Sizing
  import opened Matching
  import opened Ledger
  import opened LedgerTheorems
  import opened Risk
  import opened Latency
  import opened LatencyTheorems
  import opened Ranking
  import opened Sorting
  import opened Scoring
  import opened RouteTheorems
  import opened PassTheorems
  import opened LabelTheorems
  import opened RunTheorems
  import opened SafetyTheorems

  /** Two books of one market on two exchanges, both live with both sides. */
  ghost predicate Opposed(books: seq<OrderBook>, buy: OrderBook, sell: OrderBook) {
    && buy in books && buy.status == Live && buy.bids != [] && buy.asks != []
    && sell in books && sell.status == Live && sell.bids != [] && sell.asks != []
    && buy.market == sell.market && buy.exchange != sell.exchange
  }

  lemma {:induction false} OpposedIff(books: seq<OrderBook>, order: seq<Market>, buy: OrderBook, sell: OrderBook)
    requires MarketOrder(books, order)
    ensures (buy, sell) in AllPairs(books, order) <==> Opposed(books, buy, sell)
  {
    PairsAreAll(books, order, (buy, sell));
  }

  /** The pair is cleared for execution in what the pass works with once it has observed and seeded. */
  ghost predicate ClearedIn(s: EngineState, p: Pass, setup: Setup, buy: OrderBook, sell: OrderBook, a: TermsSnapshot,
                            b: TermsSnapshot)
  {
    var ready := Prepared(s, p, setup);
    && Opposed(p.books, buy, sell)
    && Cleared(Scene(ready.ledger, ready.samples, p.terms, p.now), s.risk, s.executed, buy, sell, a, b, setup.quo)
  }

  lemma LabelIsAnswer(s: EngineState, p: Pass, buy: OrderBook, sell: OrderBook, quo: Quotient)
    ensures LabelOf(s, p, (buy, sell), quo)
         == Answered(ScoreRoute(Scene(s.ledger, s.samples, p.terms, p.now), buy, sell, quo), s.risk, s.executed)
  {
    hide ScoreRoute, Judged, Labelled;
  }

  /** The label of every scored pair is ranked. */
  lemma LabelRanked(s: EngineState, p: Pass, s': EngineState, shown: seq<Opportunity>, setup: Setup, pair: Pair)
    requires s.ledger.sessionPnl >= 0.0 && PassStep(s, p, s', shown, setup) && pair in AllPairs(p.books, p.order)
    ensures LabelOf(Prepared(s, p, setup), p, pair, setup.quo) in p.sorted
  {
    hide PassStep, AllPairs, Prepared, LabelOf;
    SortedLabels(s, p, p, s', shown, setup);
    var pairs := AllPairs(p.books, p.order);
    var labels := Ranked(Prepared(s, p, setup), p, pairs, setup.quo);
    var i :| 0 <= i < |pairs| && pairs[i] == pair;
    assert labels[i] == LabelOf(Prepared(s, p, setup), p, pair, setup.quo);
    SameMembers(labels, p.sorted);
  }

  /** A scored pair is labelled executable exactly when it is cleared. */
  lemma LabelIff(s: EngineState, p: Pass, setup: Setup, buy: OrderBook, sell: OrderBook)
    requires Opposed(p.books, buy, sell)
    ensures LabelOf(Prepared(s, p, setup), p, (buy, sell), setup.quo).decision == Execute
      <==> exists a, b :: ClearedIn(s, p, setup, buy, sell, a, b)
  {
    var ready := Prepared(s, p, setup);
    PreparedKeeps(s, p, setup);
    hide Prepared, LabelOf, Cleared, ScoreRoute, Answered;
    var c := Scene(ready.ledger, ready.samples, p.terms, p.now);
    LabelIsAnswer(ready, p, buy, sell, setup.quo);
    ExecutableIff(c, s.risk, s.executed, buy, sell, setup.quo);
    assert forall a, b :: Cleared(c, s.risk, s.executed, buy, sell, a, b, setup.quo)
                          ==> ClearedIn(s, p, setup, buy, sell, a, b);
  }

  /** The first of the ranking is executable exactly when some pair is cleared. */
  lemma FirstIff(s: EngineState, p: Pass, s': EngineState, shown: seq<Opportunity>, setup: Setup)
    requires s.ledger.sessionPnl >= 0.0 && PassStep(s, p, s', shown, setup)
    ensures p.sorted != [] && p.sorted[0].decision == Execute
      <==> exists buy, sell, a, b :: ClearedIn(s, p, setup, buy, sell, a, b)
  {
    hide Prepared, LabelOf, ClearedIn, AllPairs, PassStep, Opposed;
    if p.sorted != [] && p.sorted[0].decision == Execute {
      var buy, sell := FirstPair(s, p, s', shown, setup);
      LabelIff(s, p, setup, buy, sell);
    }
    if buy, sell, a, b :| ClearedIn(s, p, setup, buy, sell, a, b) {
      ClearedIsFirst(s, p, s', shown, setup, buy, sell, a, b);
    }
  }

  /** The pair behind the first of the ranking, when that is executable. */
  lemma FirstPair(s: EngineState, p: Pass, s': EngineState, shown: seq<Opportunity>, setup: Setup)
    returns (buy: OrderBook, sell: OrderBook)
    requires s.ledger.sessionPnl >= 0.0 && PassStep(s, p, s', shown, setup)
    requires p.sorted != [] && p.sorted[0].decision == Execute
    ensures Opposed(p.books, buy, sell) && p.sorted[0] == LabelOf(Prepared(s, p, setup), p, (buy, sell), setup.quo)
  {
    StepOrder(s, p, s', shown, setup);
    hide Prepared, LabelOf, AllPairs, PassStep, Opposed, MarketOrder;
    NoRouteWaits(p.sorted[0]);
    var pair := PairShown(s, p, s', shown, setup, p.sorted[0]);
    buy, sell := pair.0, pair.1;
    assert pair == (buy, sell);
    OpposedIff(p.books, p.order, buy, sell);
  }

  lemma StepOrder(s: EngineState, p: Pass, s': EngineState, shown: seq<Opportunity>, setup: Setup)
    requires PassStep(s, p, s', shown, setup)
    ensures MarketOrder(p.books, p.order)
  {
    hide Prepared, Found, MarketOrder, Finished;
  }

  /** A cleared pair is ranked, and so the first is executable and nets no less. */
  lemma ClearedIsFirst(s: EngineState, p: Pass, s': EngineState, shown: seq<Opportunity>, setup: Setup,
                       buy: OrderBook, sell: OrderBook, a: TermsSnapshot, b: TermsSnapshot)
    requires s.ledger.sessionPnl >= 0.0 && PassStep(s, p, s', shown, setup)
    requires ClearedIn(s, p, setup, buy, sell, a, b)
    ensures p.sorted != [] && p.sorted[0].decision == Execute
    ensures LabelOf(Prepared(s, p, setup), p, (buy, sell), setup.quo).net <= p.sorted[0].net
  {
    assert Opposed(p.books, buy, sell);
    StepOrder(s, p, s', shown, setup);
    hide Prepared, LabelOf, ClearedIn, AllPairs, PassStep, Opposed, MarketOrder;
    OpposedIff(p.books, p.order, buy, sell);
    LabelIff(s, p, setup, buy, sell);
    LabelRanked(s, p, s', shown, setup, (buy, sell));
    FirstNetsMost(s, p, s', shown, setup, LabelOf(Prepared(s, p, setup), p, (buy, sell), setup.quo));
  }

  lemma FirstNetsMost(s: EngineState, p: Pass, s': EngineState, shown: seq<Opportunity>, setup: Setup, o: Opportunity)
    requires s.ledger.sessionPnl >= 0.0 && PassStep(s, p, s', shown, setup) && o in p.sorted && o.decision == Execute
    ensures p.sorted != [] && p.sorted[0].decision == Execute && o.net <= p.sorted[0].net
  {
    hide Prepared, Found, LabelFacts, MarketOrder, Finished;
    var ready := Prepared(s, p, setup);
    PreparedKeeps(s, p, setup);
    FoundFacts(ready, p, setup.quo);
    var found := Found(ready, p, setup.quo).1;
    SameMembers(found, p.sorted);
    RankedOrder(found, p.sorted);
  }

  // ----- What is recorded -----

  /** The latency penalty and both transfer fees are known. */
  ghost predicate Priceable(c: Scene, buy: OrderBook, sell: OrderBook, a: TermsSnapshot, b: TermsSnapshot) {
    BothStepped(c.samples, buy, sell) && KnownFee(a, buy.market.base) && KnownFee(b, buy.market.quote)
  }

  lemma PriceableIf(c: Scene, r: RiskState, executed: set<OpportunityId>, buy: OrderBook, sell: OrderBook,
                    a: TermsSnapshot, b: TermsSnapshot, quo: Quotient)
    requires Cleared(c, r, executed, buy, sell, a, b, quo)
    ensures Priceable(c, buy, sell, a, b)
  {
    hide TermsKnown, Held, BothStepped, LargerStep, Selected, Left, Acceptable, Asked, IdOf, KnownFee, TransferCost,
         MinimumsMet;
  }

  /** An execution priced on two books with these terms. */
  ghost predicate RecordedAs(x: Execution, c: Scene, buy: OrderBook, sell: OrderBook, a: TermsSnapshot,
                             b: TermsSnapshot, quo: Quotient)
    requires Priceable(c, buy, sell, a, b)
  {
    var bps := LargerStep(c.samples, buy, sell, quo);
    var d := Selected(c, buy, sell, a, b, bps, quo).depth;
    var cost := TransferCost(d, buy.market, a, b, quo);
    && x.id == IdOf(buy, sell) && x.market == buy.market
    && x.buyExchange == buy.exchange && x.sellExchange == sell.exchange
    && x.baseSize == d.base && x.buyNotional == d.buyNotional && x.sellNotional == d.sellNotional
    && x.buyFee == d.buyNotional * a.takerRate && x.sellFee == d.sellNotional * b.takerRate
    && x.latencyPenalty == d.buyNotional * quo(bps, 10000.0) && x.rebalanceCost == cost
    && x.netProfit == Left(d, a, b, bps, cost, quo)
  }

  /** What a pair nets when executed with these terms. */
  ghost function Gain(c: Scene, buy: OrderBook, sell: OrderBook, a: TermsSnapshot, b: TermsSnapshot, quo: Quotient): real
    requires Priceable(c, buy, sell, a, b)
  {
    var bps := LargerStep(c.samples, buy, sell, quo);
    var d := Selected(c, buy, sell, a, b, bps, quo).depth;
    Left(d, a, b, bps, TransferCost(d, buy.market, a, b, quo), quo)
  }

  lemma ClearedFigures(c: Scene, r: RiskState, executed: set<OpportunityId>, buy: OrderBook, sell: OrderBook,
                       a: TermsSnapshot, b: TermsSnapshot, o: Opportunity, quo: Quotient)
    requires RouteRow(c, r, executed, buy, sell, o, quo) && Cleared(c, r, executed, buy, sell, a, b, quo)
    ensures RecordedAs(ExecutionOf(o), c, buy, sell, a, b, quo) && o.net == Gain(c, buy, sell, a, b, quo)
  {
    hide TermsKnown, Held, BothStepped, LargerStep, BestNetDepth, Left, Acceptable, Asked, IdOf, KnownFee,
         TransferCost, MinimumsMet, Funded, PricedAtTops, Unpriced;
    SelectedFunded(c, buy, sell, a, b, LargerStep(c.samples, buy, sell, quo), quo);
  }

  /** What an executing pass adds: one execution, of a cleared pair, priced on that pair's books, terms,
      wallets and samples, and netting no less than any other cleared pair would. */
  ghost predicate Records(s: EngineState, p: Pass, s': EngineState, setup: Setup, x: Execution, buy: OrderBook,
                          sell: OrderBook, a: TermsSnapshot, b: TermsSnapshot)
  {
    var ready := Prepared(s, p, setup);
    var c := Scene(ready.ledger, ready.samples, p.terms, p.now);
    && ClearedIn(s, p, setup, buy, sell, a, b) && RecordedAs(x, c, buy, sell, a, b, setup.quo)
    && s'.ledger.executions == s.ledger.executions + [x]
    && s'.ledger.sessionPnl == s.ledger.sessionPnl + x.netProfit && s'.executed == s.executed + {x.id}
  }

  /** No cleared pair nets more than this execution. */
  ghost predicate Foremost(s: EngineState, p: Pass, setup: Setup, x: Execution) {
    var ready := Prepared(s, p, setup);
    forall buy, sell, a, b | ClearedIn(s, p, setup, buy, sell, a, b) ::
      Gain(Scene(ready.ledger, ready.samples, p.terms, p.now), buy, sell, a, b, setup.quo) <= x.netProfit
  }

  lemma FirstIsForemost(s: EngineState, p: Pass, s': EngineState, shown: seq<Opportunity>, setup: Setup)
    requires s.ledger.sessionPnl >= 0.0 && PassStep(s, p, s', shown, setup) && Executes(p)
    ensures Foremost(s, p, setup, ExecutionOf(p.sorted[0]))
  {
    var ready := Prepared(s, p, setup);
    var c := Scene(ready.ledger, ready.samples, p.terms, p.now);
    PreparedKeeps(s, p, setup);
    hide Prepared, LabelOf, PassStep, Opposed, Cleared, ScoreRoute, Answered, RouteRow, RecordedAs;
    forall buy, sell, a, b | ClearedIn(s, p, setup, buy, sell, a, b)
      ensures Priceable(c, buy, sell, a, b) && Gain(c, buy, sell, a, b, setup.quo) <= ExecutionOf(p.sorted[0]).netProfit
    {
      PriceableIf(c, s.risk, s.executed, buy, sell, a, b, setup.quo);
      ClearedIsFirst(s, p, s', shown, setup, buy, sell, a, b);
      LabelIsAnswer(ready, p, buy, sell, setup.quo);
      RouteLabel(c, s.risk, s.executed, buy, sell, setup.quo);
      ClearedFigures(c, s.risk, s.executed, buy, sell, a, b, LabelOf(ready, p, (buy, sell), setup.quo), setup.quo);
    }
  }

  /** A pass executes exactly when it may and some pair is cleared, and otherwise adds nothing. */
  lemma PassExecutesIff(s: EngineState, p: Pass, s': EngineState, shown: seq<Opportunity>, setup: Setup)
    requires s.ledger.sessionPnl >= 0.0 && PassStep(s, p, s', shown, setup)
    ensures
      if p.execute && exists buy, sell, a, b :: ClearedIn(s, p, setup, buy, sell, a, b) then
        exists x, buy, sell, a, b :: Records(s, p, s', setup, x, buy, sell, a, b) && Foremost(s, p, setup, x)
      else
        && s'.ledger.executions == s.ledger.executions && s'.ledger.sessionPnl == s.ledger.sessionPnl
        && s'.executed == s.executed
  {
    hide Prepared, LabelOf, ClearedIn, PassStep, Opposed, Records, Outcome, Foremost;
    FirstIff(s, p, s', shown, setup);
    PassOutcome(s, p, s', shown, setup);
    PreparedKeeps(s, p, setup);
    if Executes(p) {
      var buy, sell := FirstPair(s, p, s', shown, setup);
      LabelIff(s, p, setup, buy, sell);
      var a, b :| ClearedIn(s, p, setup, buy, sell, a, b);
      FirstRecorded(s, p, s', shown, setup, buy, sell, a, b);
      FirstIsForemost(s, p, s', shown, setup);
    } else {
      NothingRecorded(s, p, s', shown, setup);
    }
  }

  lemma NothingRecorded(s: EngineState, p: Pass, s': EngineState, shown: seq<Opportunity>, setup: Setup)
    requires Outcome(s, p, s', shown, setup) && !Executes(p)
    ensures s'.ledger.executions == s.ledger.executions && s'.ledger.sessionPnl == s.ledger.sessionPnl
    ensures s'.executed == s.executed
  {
    hide Prepared, Applied, Payable, Executable, FeePaid, BestNet;
    PreparedKeeps(s, p, setup);
  }

  lemma FirstRecorded(s: EngineState, p: Pass, s': EngineState, shown: seq<Opportunity>, setup: Setup,
                      buy: OrderBook, sell: OrderBook, a: TermsSnapshot, b: TermsSnapshot)
    requires Outcome(s, p, s', shown, setup) && Executes(p) && ClearedIn(s, p, setup, buy, sell, a, b)
    requires p.sorted[0] == LabelOf(Prepared(s, p, setup), p, (buy, sell), setup.quo)
    ensures Records(s, p, s', setup, ExecutionOf(p.sorted[0]), buy, sell, a, b)
  {
    hide Prepared, LabelOf, Applied, Payable, Executable, FeePaid, BestNet, Opposed, Cleared, RecordedAs, ScoreRoute,
         Answered, RouteRow;
    var ready := Prepared(s, p, setup);
    var c := Scene(ready.ledger, ready.samples, p.terms, p.now);
    PreparedKeeps(s, p, setup);
    AppliedRecords(ready.ledger, ExecutionOf(p.sorted[0]));
    LabelIsAnswer(ready, p, buy, sell, setup.quo);
    RouteLabel(c, s.risk, s.executed, buy, sell, setup.quo);
    ClearedFigures(c, s.risk, s.executed, buy, sell, a, b, p.sorted[0], setup.quo);
  }

  // ----- What is shown -----

  /** Every pair of opposed books is shown, labelled and priced by the checks of `RouteRow`. */
  lemma PairIsShown(s: EngineState, p: Pass, s': EngineState, shown: seq<Opportunity>, setup: Setup, buy: OrderBook,
                    sell: OrderBook)
    returns (i: nat)
    requires s.ledger.sessionPnl >= 0.0 && PassStep(s, p, s', shown, setup) && Opposed(p.books, buy, sell)
    ensures i < |shown| && shown[i].rank == i + 1
    ensures
      var ready := Prepared(s, p, setup);
      RouteRow(Scene(ready.ledger, ready.samples, p.terms, p.now), s.risk, s.executed, buy, sell,
               shown[i].(rank := 0), setup.quo)
  {
    var ready := Prepared(s, p, setup);
    var c := Scene(ready.ledger, ready.samples, p.terms, p.now);
    PreparedKeeps(s, p, setup);
    StepOrder(s, p, s', shown, setup);
    hide Prepared, LabelOf, PassStep, Opposed, Outcome, AllPairs, MarketOrder, ScoreRoute, RouteRow;
    PassOutcome(s, p, s', shown, setup);
    OutcomeShows(s, p, s', shown, setup);
    OpposedIff(p.books, p.order, buy, sell);
    LabelRanked(s, p, s', shown, setup, (buy, sell));
    LabelIsAnswer(ready, p, buy, sell, setup.quo);
    var o := LabelOf(ready, p, (buy, sell), setup.quo);
    RouteLabel(c, s.risk, s.executed, buy, sell, setup.quo);
    RowUnranked(c, s.risk, s.executed, buy, sell, o, setup.quo);
    i :| 0 <= i < |p.sorted| && p.sorted[i] == o;
    assert shown[i].(rank := 0) == o;
  }

  lemma RowUnranked(c: Scene, r: RiskState, executed: set<OpportunityId>, buy: OrderBook, sell: OrderBook, o: Opportunity,
                    quo: Quotient)
    requires RouteRow(c, r, executed, buy, sell, o, quo)
    ensures o.rank == 0
  {
    hide TermsKnown, Held, BothStepped, LargerStep, Selected, Left, Acceptable, Asked, IdOf, KnownFee, TransferCost,
         MinimumsMet, Funded, Priced, PricedAtTops, Unpriced;
    if a, b :| TermsKnown(c, buy, sell, a, b) {
      assert buy.asks == [] || sell.bids == [] || TopsRow(c, r, executed, buy, sell, a, b, o, quo);
    }
  }

  /** Without opposed books there is one entry, which waits for a live route. */
  lemma NothingToScore(s: EngineState, p: Pass, s': EngineState, shown: seq<Opportunity>, setup: Setup)
    requires s.ledger.sessionPnl >= 0.0 && PassStep(s, p, s', shown, setup)
    requires forall buy, sell :: !Opposed(p.books, buy, sell)
    ensures |shown| == 1 && Unpriced(shown[0])
    ensures shown[0].id == Waiting && shown[0].rank == 1 && shown[0].market == Market("BTC", "USDT")
    ensures shown[0].buyExchange == "" && shown[0].sellExchange == ""
    ensures shown[0].decision == Wait && shown[0].reason == NoLiveRoute
  {
    StepOrder(s, p, s', shown, setup);
    hide Prepared, LabelOf, PassStep, Opposed, Outcome, AllPairs, MarketOrder;
    PassOutcome(s, p, s', shown, setup);
    OutcomeShows(s, p, s', shown, setup);
    var pairs := AllPairs(p.books, p.order);
    if pairs != [] {
      assert pairs[0] in pairs && pairs[0] == (pairs[0].0, pairs[0].1);
      OpposedIff(p.books, p.order, pairs[0].0, pairs[0].1);
    }
    SortedLabels(s, p, p, s', shown, setup);
    assert multiset(p.sorted) == multiset([NO_ROUTE]);
    SameMembers(p.sorted, [NO_ROUTE]);
    assert |multiset(p.sorted)| == |p.sorted| && |multiset([NO_ROUTE])| == 1;
    assert p.sorted[0] in p.sorted;
  }

  // ----- New books -----

  /** A pair that was just executed is cleared again by the same levels exactly once one of the books has
      another sequence number or time, and that combination was not executed before. */
  lemma NewBooksNewTrade(c: Scene, r: RiskState, executed: set<OpportunityId>, buy: OrderBook, sell: OrderBook,
                         buy': OrderBook, sell': OrderBook, a: TermsSnapshot, b: TermsSnapshot, quo: Quotient)
    requires Cleared(c, r, executed, buy, sell, a, b, quo)
    requires buy' == buy.(sequence := buy'.sequence, receivedAt := buy'.receivedAt)
    requires sell' == sell.(sequence := sell'.sequence, receivedAt := sell'.receivedAt)
    ensures Cleared(c, r, executed + {IdOf(buy, sell)}, buy', sell', a, b, quo)
      <==> && (buy'.sequence != buy.sequence || buy'.receivedAt != buy.receivedAt
               || sell'.sequence != sell.sequence || sell'.receivedAt != sell.receivedAt)
           && IdOf(buy', sell') !in executed
  {
    hide OnFile, Unexpired, Held, Stepped, StepBps, BestNetDepth, Acceptable, KnownFee, MinimumsMet, Left;
    assert TermsKnown(c, buy', sell', a, b) && BothStepped(c.samples, buy', sell');
    var bps := LargerStep(c.samples, buy, sell, quo);
    assert LargerStep(c.samples, buy', sell', quo) == bps;
    assert Selected(c, buy', sell', a, b, bps, quo) == Selected(c, buy, sell, a, b, bps, quo);
    assert Asked(c, buy', sell', a, bps, Selected(c, buy, sell, a, b, bps, quo).depth, quo)
        == Asked(c, buy, sell, a, bps, Selected(c, buy, sell, a, b, bps, quo).depth, quo);
  }

  // ----- Whole runs -----

  /** In every run, a pass executes exactly when it may and some pair of live books is cleared: with terms
      and samples as they are then, a closed breaker, and an id that no execution of the run bears.  It then
      records that pair at those figures, and none that nets more was cleared. */
  lemma RunExecutesIff(mode: string, states: seq<EngineState>, events: seq<Event>, setup: Setup, i: nat)
    requires Run(mode, states, events, setup) && i < |events| && events[i].Passed?
    ensures
      var s, p, s' := states[i], events[i].pass, states[i + 1];
      if p.execute && exists buy, sell, a, b :: ClearedIn(s, p, setup, buy, sell, a, b) then
        exists x, buy, sell, a, b :: Records(s, p, s', setup, x, buy, sell, a, b) && Foremost(s, p, setup, x)
      else
        && s'.ledger.executions == s.ledger.executions && s'.ledger.sessionPnl == s.ledger.sessionPnl
        && s'.executed == s.executed
    ensures forall id :: id in states[i].executed <==> exists x :: x in states[i].ledger.executions && x.id == id
  {
    RunConsistent(mode, states, events, setup, i);
    hide PassStep, Records, Foremost, ClearedIn, Sound, TotalNet;
    PassExecutesIff(states[i], events[i].pass, states[i + 1], events[i].shown, setup);
  }

  /** The samples a pass of a run works with are the window on the feed's whole history, so with a clock that
      does not step back a feed's last step is known exactly when its window holds two samples. */
  lemma {:induction false} RunSteppedIff(mode: string, states: seq<EngineState>, events: seq<Event>, setup: Setup,
                                         i: nat, key: Key)
    requires Run(mode, states, events, setup) && i < |events| && events[i].Passed?
    requires ClockForward(Calls(events[..i + 1]))
    ensures
      var window := Window(History(key, Calls(events[..i + 1]), setup.quo), setup.window);
      var samples := Prepared(states[i], events[i].pass, setup).samples;
      && (if key in samples then samples[key] == window else window == [])
      && (Stepped(samples, key) <==> |window| >= 2)
  {
    var p, quo := events[i].pass, setup.quo;
    var calls := Calls(events[..i + 1]);
    assert events[..i + 1][..i] == events[..i];
    assert calls[..|calls| - 1] == Calls(events[..i]);
    hide PassStep, Step, Observed, SeededFresh, Calls, Window, History, ClockForward;
    RunSamples(mode, states, events, setup, i);
    var samples := Prepared(states[i], p, setup).samples;
    assert samples == SamplesAfter(calls, setup.window, quo);
    SamplesAreWindow(key, calls, setup.window, quo);
    HistoryPositive(key, calls, quo);
    WindowPositive(History(key, calls, quo), setup.window);
    var window := Window(History(key, calls, quo), setup.window);
    assert SamplesOf(samples, key) == window;
    if |window| >= 2 {
      assert window[|window| - 2] in window;
    }
  }

  // ----- A pair that is cleared -----

  const BTC_USDT := Market("BTC", "USDT")
  const OFFERING := OrderBook("binance", BTC_USDT, [PriceLevel(99.0, 1.0)], [PriceLevel(100.0, 1.0)], 5, 7, WebSocket,
                              Live, "")
  const BIDDING := OrderBook("kraken", BTC_USDT, [PriceLevel(101.0, 1.0)], [PriceLevel(102.0, 1.0)], 5, 7, WebSocket,
                             Live, "")
  const STILL := [Sample(1, 100.0), Sample(2, 100.0)]
  const UNTRADED := LedgerState(map[], map[], [], 0.0)

  function FreeTransfers(exchange: Id): TermsSnapshot {
    TermsSnapshot(exchange, BTC_USDT, Fallback, 0.001, 0.0, 0.0, map[], Some(map["BTC" := 0.0, "USDT" := 0.0]), 1, 100)
  }

  const QUIET := Scene(UNTRADED, map[Key("binance", BTC_USDT) := STILL, Key("kraken", BTC_USDT) := STILL],
                       [FreeTransfers("binance"), FreeTransfers("kraken")], 10)

  /** One unit offered at 100 and bid at 101, demo wallets, still mids, fees of a thousandth and free
      transfers: in balanced mode the pair is cleared, and nets 0.799. */
  lemma CrossedBooksTrade()
    ensures
      var a, b := FreeTransfers("binance"), FreeTransfers("kraken");
      && Cleared(QUIET, Started("balanced"), {}, OFFERING, BIDDING, a, b, Quo)
      && Gain(QUIET, OFFERING, BIDDING, a, b, Quo) == 0.799
  {
    var a, b := FreeTransfers("binance"), FreeTransfers("kraken");
    hide BestNetDepth, OnFile, TermsKnown, Selected, BothStepped, LargerStep, TransferCost, Left, Acceptable, Asked;
    QuietScene();
    OneUnitChosen();
    OneUnitGains(a, b);
  }

  lemma QuietScene()
    ensures TermsKnown(QUIET, OFFERING, BIDDING, FreeTransfers("binance"), FreeTransfers("kraken"))
    ensures BothStepped(QUIET.samples, OFFERING, BIDDING) && LargerStep(QUIET.samples, OFFERING, BIDDING, Quo) == 0.0
    ensures Held(UNTRADED, "binance", "USDT") == 200000.0 && Held(UNTRADED, "kraken", "BTC") == 2.0
  {
    assert QUIET.terms[0] == FreeTransfers("binance") && QUIET.terms[1] == FreeTransfers("kraken");
  }

  lemma OneUnitGains(a: TermsSnapshot, b: TermsSnapshot)
    requires a == FreeTransfers("binance") && b == FreeTransfers("kraken")
    ensures
      var d := DepthResult(1.0, 100.0, 101.0);
      && KnownFee(a, "BTC") && KnownFee(b, "USDT") && TransferCost(d, BTC_USDT, a, b, Quo) == 0.0
      && Left(d, a, b, 0.0, 0.0, Quo) == 0.799
      && Acceptable(Started("balanced"), Asked(QUIET, OFFERING, BIDDING, a, 0.0, d, Quo))
  {
  }

  lemma OneUnitChosen()
    ensures Selected(QUIET, OFFERING, BIDDING, FreeTransfers("binance"), FreeTransfers("kraken"), 0.0, Quo).depth
         == DepthResult(1.0, 100.0, 101.0)
  {
    OneUnitScored();
    hide BestNetDepth;
  }

  lemma OneUnitScored()
    ensures BestNetDepth(OFFERING.asks, BIDDING.bids, Wallets(200000.0, 2.0, 0.001, 0.001, 0.0, 0.0, 0.0), Quo).depth
         == DepthResult(1.0, 100.0, 101.0)
  {
    var w, s := Wallets(200000.0, 2.0, 0.001, 0.001, 0.0, 0.0, 0.0), Segment(1.0, 100.0, 101.0);
    assert Consume(OFFERING.asks, 1.0) == [] && Consume(BIDDING.bids, 1.0) == [];
    assert Merge(OFFERING.asks, BIDDING.bids) == [s];
    assert [s][1..] == [];
    assert StepSize(NOTHING, s, w, Quo) == 1.0;
    var v := Visit(DepthResult(1.0, 100.0, 101.0), false);
    assert Visits(NOTHING, [s], w, Quo) == [v];
    assert [v][1..] == [];
    assert Choose(NO_SELECTION, [v], w, Quo) == Better(NO_SELECTION, Sizing.Candidate(v, w, Quo));
  }
}
