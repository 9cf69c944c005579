/** What scoring one route guarantees. */
module RouteTheorems {
  import opened Arithmetic
  import opened Wrappers
  import opened Exchange
  import opened Reasons
  import opened Terms
  import opened Depth
  import opened Allocations
  import opened Sizing
  import opened Optimality
  import opened SizingTheorems
  import opened Ledger
  import opened Risk
  import opened RiskTheorems
  import opened Latency
  import opened Ranking
  import opened Scoring

  /** Proceeds less cost split into net profit, latency penalty and the rebalance cost charged. */
  ghost predicate Balanced(x: Execution) {
    x.sellNotional - x.sellFee - x.buyNotional - x.buyFee
    == x.netProfit + x.latencyPenalty + (if x.rebalanceCost > 0.0 then x.rebalanceCost else 0.0)
  }

  ghost predicate RouteOf(o: Opportunity, buy: OrderBook, sell: OrderBook) {
    && o.id == Route(buy.market, buy.exchange, sell.exchange, buy.sequence, sell.sequence, buy.receivedAt, sell.receivedAt)
    && o.market == buy.market
    && o.buyExchange == buy.exchange && o.sellExchange == sell.exchange
  }

  /** The size selected for a route whose two books have terms on file. */
  ghost function SelectionOf(c: Scene, buy: OrderBook, sell: OrderBook, buyTerms: TermsSnapshot,
                             sellTerms: TermsSnapshot, bps: real, quo: Quotient): Selection
  {
    var quote, base := View(c.ledger, buy.exchange, buy.market.quote), View(c.ledger, sell.exchange, buy.market.base);
    BestNetDepth(buy.asks, sell.bids, WalletsOf(quote, base, buyTerms, sellTerms, bps), quo)
  }

  /** The parts of a selection follow from its depth, the rates and the minimums. */
  ghost predicate AddsUp(s: Selection, w: Wallets, quo: Quotient) {
    var size, cost, revenue := s.depth.base, s.depth.buyNotional, s.depth.sellNotional;
    && size > 0.0 && cost > 0.0 && revenue > cost && s.grossProfit == revenue - cost
    && s.grossBps == quo(revenue - cost, cost) * 10000.0
    && (Exact(quo) ==> s.grossBps * cost == (revenue - cost) * 10000.0)
    && s.buyFee == cost * w.buyFee && s.sellFee == revenue * w.sellFee
    && s.latencyPenalty == cost * quo(w.latencyBps, 10000.0)
    && s.net == revenue - cost - s.buyFee - s.sellFee - s.latencyPenalty
    && (s.meetsMinimum <==> size >= w.minBase && cost >= w.minNotional)
  }

  /** A selection that has a size is a scored breakpoint, so its parts add up. */
  lemma SelectionAddsUp(asks: seq<PriceLevel>, bids: seq<PriceLevel>, w: Wallets, quo: Quotient)
    requires BestNetDepth(asks, bids, w, quo).hasDepth
    ensures AddsUp(BestNetDepth(asks, bids, w, quo), w, quo)
  {
    hide *;
    var v := SelectionVisit(asks, bids, w, quo);
    MergeGains(asks, bids);
    VisitsGain(NOTHING, Merge(asks, bids), w, quo, v);
    VisitsBuy(NOTHING, Merge(asks, bids), w, quo, v);
    CandidateAddsUp(v, w, quo);
  }

  /** Every step of the walk buys something at a positive price, on any ladders. */
  lemma {:induction false} VisitsBuy(d: DepthResult, segments: seq<Segment>, w: Wallets, quo: Quotient, v: Visit)
    requires v in Visits(d, segments, w, quo)
    ensures v.depth.base > d.base && v.depth.buyNotional > d.buyNotional
    decreases segments
  {
    var s, visits := segments[0], Visits(d, segments, w, quo);
    StepBuys(d, s, w, quo);
    hide StepSize;
    if v != visits[0] {
      assert visits[1..] == Visits(visits[0].depth, segments[1..], w, quo);
      VisitsBuy(visits[0].depth, segments[1..], w, quo, v);
    }
  }

  lemma StepBuys(d: DepthResult, s: Segment, w: Wallets, quo: Quotient)
    requires StepSize(d, s, w, quo) > 0.0
    ensures StepSize(d, s, w, quo) * s.ask > 0.0
  {
    hide RemainingQuoteBalance, WithFee, RemainingBalance;
    assert s.ask > 0.0;
    MulStrict(0.0, s.ask, StepSize(d, s, w, quo));
  }

  ghost predicate Gaining(segments: seq<Segment>) {
    forall s | s in segments :: s.ask < s.bid
  }

  lemma {:induction false} MergeGains(asks: seq<PriceLevel>, bids: seq<PriceLevel>)
    ensures Gaining(Merge(asks, bids))
    decreases |asks| + |bids|
  {
    if asks != [] && bids != [] {
      var m := Min(asks[0].quantity, bids[0].quantity);
      if m > 0.0 && bids[0].price > asks[0].price {
        MergeGains(Consume(asks, m), Consume(bids, m));
      }
    }
  }

  /** Every step of the walk sells dearer than it buys, on any ladders. */
  lemma {:induction false} VisitsGain(d: DepthResult, segments: seq<Segment>, w: Wallets, quo: Quotient, v: Visit)
    requires Gaining(segments) && v in Visits(d, segments, w, quo)
    ensures v.depth.sellNotional - v.depth.buyNotional > d.sellNotional - d.buyNotional
    decreases segments
  {
    hide StepSize;
    var s, visits := segments[0], Visits(d, segments, w, quo);
    StepGains(d, StepSize(d, s, w, quo), s.ask, s.bid);
    if v != visits[0] {
      assert visits[1..] == Visits(visits[0].depth, segments[1..], w, quo);
      VisitsGain(visits[0].depth, segments[1..], w, quo, v);
    }
  }

  lemma StepGains(d: DepthResult, size: real, ask: real, bid: real)
    requires size > 0.0 && ask < bid
    ensures
      var next := d.Add(size, ask, bid);
      next.sellNotional - next.buyNotional > d.sellNotional - d.buyNotional
  {
    MulStrict(ask, bid, size);
  }

  lemma SelectionVisit(asks: seq<PriceLevel>, bids: seq<PriceLevel>, w: Wallets, quo: Quotient) returns (v: Visit)
    requires BestNetDepth(asks, bids, w, quo).hasDepth
    ensures v in Visits(NOTHING, Merge(asks, bids), w, quo)
    ensures BestNetDepth(asks, bids, w, quo) == Sizing.Candidate(v, w, quo)
  {
    var visits := Visits(NOTHING, Merge(asks, bids), w, quo);
    hide Visits, Merge, MeetsMinimum, Net, Sizing.Candidate, Choose;
    Chosen(NO_SELECTION, visits, w, quo);
    v :| v in visits && BestNetDepth(asks, bids, w, quo) == Sizing.Candidate(v, w, quo);
  }

  lemma CandidateAddsUp(v: Visit, w: Wallets, quo: Quotient)
    requires v.depth.sellNotional - v.depth.buyNotional > NOTHING.sellNotional - NOTHING.buyNotional
    requires v.depth.base > NOTHING.base && v.depth.buyNotional > NOTHING.buyNotional
    ensures AddsUp(Sizing.Candidate(v, w, quo), w, quo)
  {
    hide Exact;
    if Exact(quo) {
      GrossRatio(v.depth.sellNotional - v.depth.buyNotional, v.depth.buyNotional, quo);
    }
  }

  lemma GrossRatio(gross: real, cost: real, quo: Quotient)
    requires Exact(quo) && cost > 0.0
    ensures quo(gross, cost) * 10000.0 * cost == gross * 10000.0
  {
    assert ExactAt(quo, gross, cost);
    var ratio := quo(gross, cost);
    assert ratio * cost == gross;
  }

  /** The sale brings in something, less a fee at a rate on file. */
  ghost predicate FeePaid(o: Opportunity, terms: seq<TermsSnapshot>) {
    o.sellNotional > 0.0 && exists t | t in terms :: o.sellFee == o.sellNotional * t.takerRate
  }

  /** What a route that reaches the risk controller looks like. */
  ghost predicate PendingFacts(c: Scene, buy: OrderBook, sell: OrderBook, o: Opportunity, candidate: Candidate,
                               quo: Quotient) {
    var quote, base := View(c.ledger, buy.exchange, buy.market.quote), View(c.ledger, sell.exchange, buy.market.base);
    && RouteOf(o, buy, sell) && o.net > 0.0 && o.baseSize > 0.0 && o.buyNotional > 0.0
    && Balanced(ExecutionOf(o)) && FeePaid(o, c.terms)
    && candidate.grossBps == quo(o.sellNotional - o.buyNotional, o.buyNotional) * 10000.0
    && (Exact(quo) ==> candidate.grossBps * o.buyNotional == (o.sellNotional - o.buyNotional) * 10000.0)
    && PenaltyBps(c.samples, buy.BookKey(), sell.BookKey(), quo) == Some(candidate.latencyBps)
    && candidate.sessionPnl == c.ledger.sessionPnl
    && candidate.quoteBalance == quote && candidate.quoteAfter == quote - o.buyNotional - o.buyFee
    && candidate.baseBalance == base && candidate.baseAfter == base - o.baseSize
  }

  /** A settled route is never executable, and only skipped ones lack an edge. */
  ghost predicate SettledFacts(o: Opportunity) {
    && o.decision != Execute && (o.reason == NoGrossEdge ==> o.decision == Skip)
    && o.reason != LedgerApplyFailed && o.reason != RiskDrawdown
  }

  ghost predicate ScoredFacts(c: Scene, buy: OrderBook, sell: OrderBook, scored: Scored, quo: Quotient) {
    match scored
    case Settled(o) => SettledFacts(o)
    case Pending(o, candidate) => PendingFacts(c, buy, sell, o, candidate, quo)
  }

  lemma DepthFacts(c: Scene, buy: OrderBook, sell: OrderBook, o: Opportunity, s: Selection, w: Wallets,
                   buyTerms: TermsSnapshot, sellTerms: TermsSnapshot, bps: real, topAsk: real, topBid: real, quo: Quotient)
    requires o == Blank(RouteId(buy, sell), buy.market, buy.exchange, sell.exchange)
    requires AddsUp(s, w, quo) && w.sellFee == sellTerms.takerRate && sellTerms in c.terms
    requires PenaltyBps(c.samples, buy.BookKey(), sell.BookKey(), quo) == Some(bps)
    ensures
      var quote, base := View(c.ledger, buy.exchange, buy.market.quote), View(c.ledger, sell.exchange, buy.market.base);
      ScoredFacts(c, buy, sell,
                  ScoreDepth(o, s, quote, base, buyTerms, sellTerms, bps, topAsk, topBid, c.ledger.sessionPnl, quo), quo)
  {
    hide View, TransferFeeFor, PenaltyBps, Exact;
  }

  lemma TopsFacts(c: Scene, buy: OrderBook, sell: OrderBook, o: Opportunity, buyTerms: TermsSnapshot,
                  sellTerms: TermsSnapshot, quo: Quotient)
    requires buy.asks != [] && sell.bids != [] && sellTerms in c.terms
    requires o == Blank(RouteId(buy, sell), buy.market, buy.exchange, sell.exchange)
    ensures ScoredFacts(c, buy, sell, ScoreTops(c, o, buy, sell, buyTerms, sellTerms, quo), quo)
  {
    hide BestNetDepth, ScoreDepth, View, PenaltyBps, PreviewNoGrossEdge, MaxBaseByBalance, PendingFacts,
         AddsUp;
    var quote, base := View(c.ledger, buy.exchange, buy.market.quote), View(c.ledger, sell.exchange, buy.market.base);
    var ask, bid := buy.asks[0], sell.bids[0];
    var gate := MaxBaseByBalance(quote, base, ask.price, buyTerms.takerRate, quo);
    if gate.Some? {
      PreviewKeepsLabel(o, ask, bid, buyTerms.takerRate, sellTerms.takerRate, gate.value, quo);
    }
    var penalty := PenaltyBps(c.samples, buy.BookKey(), sell.BookKey(), quo);
    if penalty.Some? {
      var w := WalletsOf(quote, base, buyTerms, sellTerms, penalty.value);
      var s := BestNetDepth(buy.asks, sell.bids, w, quo);
      if s.hasDepth {
        SelectionAddsUp(buy.asks, sell.bids, w, quo);
        DepthFacts(c, buy, sell, o, s, w, buyTerms, sellTerms, penalty.value, ask.price, bid.price, quo);
      }
    }
  }

  lemma PreviewKeepsLabel(o: Opportunity, ask: PriceLevel, bid: PriceLevel, buyFee: real, sellFee: real, maxBase: real,
                          quo: Quotient)
    ensures
      var r := PreviewNoGrossEdge(o, ask, bid, buyFee, sellFee, maxBase, quo);
      r.decision == o.decision && r.reason == o.reason
  {
    hide Bps;
  }

  lemma RouteFacts(c: Scene, buy: OrderBook, sell: OrderBook, quo: Quotient)
    ensures ScoredFacts(c, buy, sell, ScoreRoute(c, buy, sell, quo), quo)
  {
    var o := Blank(RouteId(buy, sell), buy.market, buy.exchange, sell.exchange);
    var buyTerms, sellTerms := TermsFor(c.terms, buy.BookKey()), TermsFor(c.terms, sell.BookKey());
    hide ScoreTops, TermsFor;
    if buyTerms.Some? && sellTerms.Some? && buy.asks != [] && sell.bids != [] {
      TermsOnFile(c.terms, sell.BookKey());
      TopsFacts(c, buy, sell, o, buyTerms.value, sellTerms.value, quo);
    }
  }

  lemma {:induction false} TermsOnFile(terms: seq<TermsSnapshot>, key: Key)
    ensures TermsFor(terms, key).Some? ==> TermsFor(terms, key).value in terms
  {
    if terms != [] {
      TermsOnFile(terms[1..], key);
    }
  }

  // ----- Approval -----

  /** What an executable route guarantees, before it is executed. */
  ghost predicate Executable(l: LedgerState, o: Opportunity, rate: real) {
    var x := ExecutionOf(o);
    var quote, base := View(l, o.buyExchange, o.market.quote), View(l, o.sellExchange, o.market.base);
    && o.net > 0.0 && o.baseSize > 0.0 && Balanced(x)
    && quote > 0.0 && base > 0.0
    && quote - x.buyNotional - x.buyFee >= quote * rate > 0.0
    && base - x.baseSize >= base * rate > 0.0
  }

  /** An approved route is executable with the reserve of the mode in force left over. */
  lemma ApprovedIsExecutable(c: Scene, buy: OrderBook, sell: OrderBook, r: RiskState, o: Opportunity,
                             candidate: Candidate, quo: Quotient)
    requires PendingFacts(c, buy, sell, o, candidate, quo) && Judged(r, candidate).allowed
    ensures !r.open && Executable(c.ledger, o, ThresholdsFor(r.mode).reserveRate)
  {
    hide View, Balanced, ThresholdsFor, PenaltyBps, Exact;
    ApprovalKeepsReserve(r, candidate);
  }

  lemma ExecutableIsPayable(l: LedgerState, o: Opportunity, rate: real)
    requires Executable(l, o, rate)
    ensures Payable(l, ExecutionOf(o))
  {
    hide View, Balanced;
  }

  // ----- Costs -----

  /** Each fee is due on its own side of the trade, at that side's rate. */
  ghost predicate FeesDue(c: Scene, buy: OrderBook, sell: OrderBook, o: Opportunity) {
    var buyTerms, sellTerms := TermsFor(c.terms, buy.BookKey()), TermsFor(c.terms, sell.BookKey());
    && buyTerms.Some? && sellTerms.Some?
    && o.buyFee == o.buyNotional * buyTerms.value.takerRate
    && o.sellFee == o.sellNotional * sellTerms.value.takerRate
  }

  ghost predicate LatencyDue(c: Scene, buy: OrderBook, sell: OrderBook, o: Opportunity, quo: Quotient) {
    && PenaltyBps(c.samples, buy.BookKey(), sell.BookKey(), quo) == Some(o.latencyBps)
    && o.latencyPenalty == o.buyNotional * quo(o.latencyBps, 10000.0)
  }

  /** Moving the base asset back costs the buying exchange's transfer fee at the average price paid, and
      moving the quote asset the selling exchange's; both fees are known. */
  ghost predicate RebalanceDue(c: Scene, buy: OrderBook, sell: OrderBook, o: Opportunity, quo: Quotient) {
    var buyTerms, sellTerms := TermsFor(c.terms, buy.BookKey()), TermsFor(c.terms, sell.BookKey());
    && buyTerms.Some? && sellTerms.Some?
    && KnownFee(buyTerms.value, buy.market.base) && KnownFee(sellTerms.value, buy.market.quote)
    && o.rebalanceCost == buyTerms.value.transferFees.value[buy.market.base] * quo(o.buyNotional, o.baseSize)
                          + sellTerms.value.transferFees.value[buy.market.quote]
  }

  /** The terms were read at some time and have not run out. */
  ghost predicate Unexpired(t: TermsSnapshot, now: Time) {
    t.updatedAt != 0 && now < t.expiresAt
  }

  /** A transfer fee is on file, and does not stand for an unknown one. */
  ghost predicate KnownFee(t: TermsSnapshot, asset: string) {
    && t.transferFees.Some? && asset in t.transferFees.value
    && (t.source == Fallback || t.transferFees.value[asset] != 0.0)
  }

  /** On well-formed books, a route that reaches the risk controller lost to slippage exactly what the
      tops promised and the levels below did not pay; its size is crossed and within the base wallet, and its
      notionals lie on the two price curves. */
  ghost predicate CostFacts(c: Scene, buy: OrderBook, sell: OrderBook, o: Opportunity, quo: Quotient) {
    && buy.asks != [] && sell.bids != []
    && FeesDue(c, buy, sell, o) && LatencyDue(c, buy, sell, o, quo) && RebalanceDue(c, buy, sell, o, quo)
    && o.baseSize * (sell.bids[0].price - buy.asks[0].price) == o.grossProfit + o.slippageCost && o.slippageCost >= 0.0
    && o.net == o.sellNotional - o.buyNotional - o.buyFee - o.sellFee - o.latencyPenalty
                - (if o.rebalanceCost > 0.0 then o.rebalanceCost else 0.0)
    && 0.0 < o.baseSize <= View(c.ledger, sell.exchange, buy.market.base)
    && Crossed(buy.asks, sell.bids, o.baseSize)
    && o.buyNotional == Notional(buy.asks, o.baseSize) && o.sellNotional == Notional(sell.bids, o.baseSize)
  }

  /** How a route comes to be pending: sized on its two ladders with the wallets it was shown. */
  ghost predicate SizedAs(c: Scene, buy: OrderBook, sell: OrderBook, w: Wallets, o: Opportunity, quo: Quotient) {
    var s := BestNetDepth(buy.asks, sell.bids, w, quo);
    && buy.asks != [] && sell.bids != [] && s.hasDepth
    && w.base == View(c.ledger, sell.exchange, buy.market.base)
    && w.quote == View(c.ledger, buy.exchange, buy.market.quote)
    && TermsFor(c.terms, buy.BookKey()).Some? && w.buyFee == TermsFor(c.terms, buy.BookKey()).value.takerRate
    && TermsFor(c.terms, sell.BookKey()).Some? && w.sellFee == TermsFor(c.terms, sell.BookKey()).value.takerRate
    && PenaltyBps(c.samples, buy.BookKey(), sell.BookKey(), quo) == Some(w.latencyBps)
    && RebalanceDue(c, buy, sell, o, quo)
    && o == Slipped(Rebalanced(Sized(Blank(RouteId(buy, sell), buy.market, buy.exchange, sell.exchange), s, w.latencyBps),
                               o.rebalanceCost), buy.asks[0].price, sell.bids[0].price)
  }

  lemma ChargedAs(o: Opportunity, s: Selection, quote: real, base: real, a: TermsSnapshot, b: TermsSnapshot, bps: real,
                  topAsk: real, topBid: real, pnl: real, quo: Quotient)
    requires ScoreDepth(o, s, quote, base, a, b, bps, topAsk, topBid, pnl, quo).Pending?
    ensures
      var x := ScoreDepth(o, s, quote, base, a, b, bps, topAsk, topBid, pnl, quo).opportunity;
      && x == Slipped(Rebalanced(Sized(o, s, bps), x.rebalanceCost), topAsk, topBid)
      && x.buyNotional == s.depth.buyNotional && x.baseSize == s.depth.base
      && KnownFee(a, o.market.base) && KnownFee(b, o.market.quote)
      && x.rebalanceCost == a.transferFees.value[o.market.base] * quo(s.depth.buyNotional, s.depth.base)
                            + b.transferFees.value[o.market.quote]
  {
  }

  lemma PendingIsSized(c: Scene, buy: OrderBook, sell: OrderBook, quo: Quotient) returns (w: Wallets)
    requires ScoreRoute(c, buy, sell, quo).Pending?
    ensures SizedAs(c, buy, sell, w, ScoreRoute(c, buy, sell, quo).opportunity, quo)
  {
    hide BestNetDepth, View, PenaltyBps, TermsFor, Slipped, Rebalanced, Sized, ScoreDepth, KnownFee, MaxBaseByBalance,
         PreviewNoGrossEdge;
    var buyTerms, sellTerms := TermsFor(c.terms, buy.BookKey()).value, TermsFor(c.terms, sell.BookKey()).value;
    var bps := PenaltyBps(c.samples, buy.BookKey(), sell.BookKey(), quo).value;
    var quote, base := View(c.ledger, buy.exchange, buy.market.quote), View(c.ledger, sell.exchange, buy.market.base);
    w := WalletsOf(quote, base, buyTerms, sellTerms, bps);
    ChargedAs(Blank(RouteId(buy, sell), buy.market, buy.exchange, sell.exchange), BestNetDepth(buy.asks, sell.bids, w, quo),
              quote, base, buyTerms, sellTerms, bps, buy.asks[0].price, sell.bids[0].price, c.ledger.sessionPnl, quo);
  }

  lemma CostDecomposition(c: Scene, buy: OrderBook, sell: OrderBook, quo: Quotient)
    requires WellFormed(buy) && WellFormed(sell) && ScoreRoute(c, buy, sell, quo).Pending?
    ensures CostFacts(c, buy, sell, ScoreRoute(c, buy, sell, quo).opportunity, quo)
  {
    var w := PendingIsSized(c, buy, sell, quo);
    SizedCosts(c, buy, sell, w, ScoreRoute(c, buy, sell, quo).opportunity, quo);
  }

  lemma SizedCosts(c: Scene, buy: OrderBook, sell: OrderBook, w: Wallets, o: Opportunity, quo: Quotient)
    requires WellFormed(buy) && WellFormed(sell) && SizedAs(c, buy, sell, w, o, quo)
    ensures CostFacts(c, buy, sell, o, quo)
  {
    hide BestNetDepth, View, Crossed, Notional, AskSide, BidSide, TermsFor, PenaltyBps;
    var s := BestNetDepth(buy.asks, sell.bids, w, quo);
    SelectionAddsUp(buy.asks, sell.bids, w, quo);
    SelectionWithinTops(buy.asks, sell.bids, w, quo);
    SlippageSplit(s.depth.base, buy.asks[0].price, sell.bids[0].price, s.depth.buyNotional, s.depth.sellNotional);
  }

  lemma SlippageSplit(x: real, ask: real, bid: real, cost: real, revenue: real)
    requires x * bid >= revenue && x * ask <= cost
    ensures x * (bid - ask) >= revenue - cost
  {
  }

  lemma SelectionWithinTops(asks: seq<PriceLevel>, bids: seq<PriceLevel>, w: Wallets, quo: Quotient)
    requires AskSide(asks) && BidSide(bids) && asks != [] && bids != [] && BestNetDepth(asks, bids, w, quo).hasDepth
    ensures
      var d := BestNetDepth(asks, bids, w, quo).depth;
      && d == DepthAt(asks, bids, d.base) && Crossed(asks, bids, d.base) && 0.0 < d.base <= w.base
      && d.base * bids[0].price >= d.sellNotional && d.base * asks[0].price <= d.buyNotional
  {
    hide *;
    SidesPositive(asks, bids);
    SelectionOnCurve(asks, bids, w, quo);
    CrossedWithinTops(asks, bids, BestNetDepth(asks, bids, w, quo).depth.base);
  }

  lemma CrossedWithinTops(asks: seq<PriceLevel>, bids: seq<PriceLevel>, x: real)
    requires AskSide(asks) && BidSide(bids) && asks != [] && bids != [] && Crossed(asks, bids, x)
    ensures x * bids[0].price >= DepthAt(asks, bids, x).sellNotional
    ensures x * asks[0].price <= DepthAt(asks, bids, x).buyNotional
  {
    hide Notional, PriceAt, Total, AskSide, BidSide;
    TopOfBook(asks, bids, x);
  }

  /** The size is never more than the balance gate allows at the top ask. */
  lemma SizeWithinGate(asks: seq<PriceLevel>, bids: seq<PriceLevel>, w: Wallets, quo: Quotient)
    requires AskSide(asks) && BidSide(bids) && asks != [] && bids != [] && Exact(quo) && w.buyFee >= 0.0
    requires BestNetDepth(asks, bids, w, quo).hasDepth
    ensures
      var gate := MaxBaseByBalance(w.quote, w.base, asks[0].price, w.buyFee, quo);
      gate.Some? && BestNetDepth(asks, bids, w, quo).depth.base <= gate.value
  {
    hide *;
    SelectionWithinTops(asks, bids, w, quo);
    SelectionAffordable(asks, bids, w, quo);
    GateAllows(BestNetDepth(asks, bids, w, quo).depth, asks, w, quo);
  }

  lemma SelectionAffordable(asks: seq<PriceLevel>, bids: seq<PriceLevel>, w: Wallets, quo: Quotient)
    requires Exact(quo) && w.buyFee >= 0.0 && BestNetDepth(asks, bids, w, quo).hasDepth
    ensures Affordable(BestNetDepth(asks, bids, w, quo).depth, w)
  {
    hide BestNetDepth, Visits, Merge, Affordable, Exact;
    var v := SelectionVisit(asks, bids, w, quo);
    VisitsAffordable(NOTHING, Merge(asks, bids), w, quo, v);
  }

  lemma GateAllows(d: DepthResult, asks: seq<PriceLevel>, w: Wallets, quo: Quotient)
    requires AskSide(asks) && asks != [] && Exact(quo) && w.buyFee >= 0.0
    requires Affordable(d, w) && 0.0 < d.base && d.base * asks[0].price <= d.buyNotional
    ensures
      var gate := MaxBaseByBalance(w.quote, w.base, asks[0].price, w.buyFee, quo);
      gate.Some? && d.base <= gate.value
  {
    var unit := WithFee(asks[0].price, w.buyFee);
    UnitCovers(d.base, asks[0].price, d.buyNotional, w.quote, w.buyFee);
    assert ExactAt(quo, w.quote, unit);
  }

  lemma UnitCovers(x: real, ask: real, cost: real, quote: real, fee: real)
    requires x > 0.0 && ask > 0.0 && fee >= 0.0 && x * ask <= cost && WithFee(cost, fee) <= quote
    ensures WithFee(ask, fee) > 0.0 && quote > 0.0 && quote / (WithFee(ask, fee)) >= x
  {
    var rate := 1.0 + fee;
    MulStrict(0.0, ask, rate);
    MulStrict(0.0, x, ask * rate);
    MulMonotone(x * ask, cost, rate);
    assert x * ask * rate == x * (ask * rate);
    DivideAtLeast(quote, ask * rate, x);
  }

  /** A route shown for want of an edge never gains: it is priced at the tops, for no more than they and
      the wallets hold, with each side's fee. */
  lemma PreviewNeverGains(o: Opportunity, ask: PriceLevel, bid: PriceLevel, buyFee: real, sellFee: real, maxBase: real,
                          quo: Quotient)
    requires ask.price >= bid.price >= 0.0 && buyFee >= 0.0 && sellFee >= 0.0
    requires ask.quantity > 0.0 && bid.quantity > 0.0 && maxBase > 0.0
    ensures
      var r := PreviewNoGrossEdge(o, ask, bid, buyFee, sellFee, maxBase, quo);
      && r.net <= 0.0 && r.net == r.sellNotional - r.buyNotional - r.buyFee - r.sellFee
      && r.baseSize == Min(Min(ask.quantity, bid.quantity), maxBase) && r.buyNotional == r.baseSize * ask.price
      && r.sellNotional == r.baseSize * bid.price
      && r.buyFee == r.buyNotional * buyFee && r.sellFee == r.sellNotional * sellFee
      && r.decision == o.decision && r.reason == o.reason
  {
    hide Bps;
    NoEdgeLoses(Min(Min(ask.quantity, bid.quantity), maxBase), ask.price, bid.price, buyFee, sellFee);
  }

  lemma NoEdgeLoses(size: real, ask: real, bid: real, buyFee: real, sellFee: real)
    requires size >= 0.0 && ask >= bid >= 0.0 && buyFee >= 0.0 && sellFee >= 0.0
    ensures size * bid - size * ask - (size * ask * buyFee + size * bid * sellFee) <= 0.0
  {
    MulMonotone(bid, ask, size);
    MulMonotone(0.0, bid, size);
    assert 0.0 <= size * bid <= size * ask;
    FeesNotNegative(size * ask, size * bid, buyFee, sellFee);
  }

  lemma FeesNotNegative(cost: real, revenue: real, buyFee: real, sellFee: real)
    requires cost >= 0.0 && revenue >= 0.0 && buyFee >= 0.0 && sellFee >= 0.0
    ensures cost * buyFee + revenue * sellFee >= 0.0
  {
  }

  ghost predicate CrossedTops(buy: OrderBook, sell: OrderBook) {
    buy.asks != [] && sell.bids != [] && buy.asks[0].price < sell.bids[0].price
  }

  /** Only a route whose tops cross is ever shown with a gain, labelled or not: on well-formed books and
      rates that are not negative, all others net nothing or less. */
  lemma OnlyCrossedGains(c: Scene, buy: OrderBook, sell: OrderBook, quo: Quotient)
    requires WellFormed(buy) && WellFormed(sell) && forall t | t in c.terms :: t.takerRate >= 0.0
    requires ScoreRoute(c, buy, sell, quo).opportunity.net > 0.0
    ensures CrossedTops(buy, sell)
  {
    hide PreviewNoGrossEdge, BestNetDepth, ScoreDepth, View, PenaltyBps, TermsFor, MaxBaseByBalance;
    TermsOnFile(c.terms, buy.BookKey());
    TermsOnFile(c.terms, sell.BookKey());
    if buy.asks != [] && sell.bids != [] && sell.bids[0].price <= buy.asks[0].price {
      var buyTerms, sellTerms := TermsFor(c.terms, buy.BookKey()), TermsFor(c.terms, sell.BookKey());
      var quote, base := View(c.ledger, buy.exchange, buy.market.quote), View(c.ledger, sell.exchange, buy.market.base);
      if buyTerms.Some? && sellTerms.Some? {
        var gate := MaxBaseByBalance(quote, base, buy.asks[0].price, buyTerms.value.takerRate, quo);
        if gate.Some? && gate.value > 0.0 {
          PreviewNeverGains(Blank(RouteId(buy, sell), buy.market, buy.exchange, sell.exchange), buy.asks[0], sell.bids[0],
                            buyTerms.value.takerRate, sellTerms.value.takerRate, gate.value, quo);
        }
      }
    }
  }

  /** Past the balance gate and the crossed tops there is always a size: the second "insufficient
      balance" answer is never given on well-formed books. */
  lemma GateYieldsDepth(c: Scene, buy: OrderBook, sell: OrderBook, buyTerms: TermsSnapshot, sellTerms: TermsSnapshot,
                        bps: real, quo: Quotient)
    requires WellFormed(buy) && WellFormed(sell) && buy.asks != [] && sell.bids != [] && buyTerms.takerRate >= 0.0
    requires
      var quote, base := View(c.ledger, buy.exchange, buy.market.quote), View(c.ledger, sell.exchange, buy.market.base);
      var gate := MaxBaseByBalance(quote, base, buy.asks[0].price, buyTerms.takerRate, quo);
      gate.Some? && gate.value > 0.0
    requires buy.asks[0].price < sell.bids[0].price
    ensures SelectionOf(c, buy, sell, buyTerms, sellTerms, bps, quo).hasDepth
  {
    var quote, base := View(c.ledger, buy.exchange, buy.market.quote), View(c.ledger, sell.exchange, buy.market.base);
    HasDepthWhen(buy.asks, sell.bids, WalletsOf(quote, base, buyTerms, sellTerms, bps), quo);
  }
}
