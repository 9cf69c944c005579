/** What the engine works out for one route, and for a whole pass over the market, as functions of the
    books, the terms and the engine's state (internal/arbitrage/engine.go). */
module Scoring {
  import opened Arithmetic
  import opened Wrappers
  import opened Exchange
  import opened Reasons
  import opened Terms
  import opened Depth
  import opened Sizing
  import opened Ledger
  import opened Risk
  import opened Latency
  import opened Ranking
  import opened Sorting

  /** A route whose label is settled, or one that still has to pass the risk controller. */
  datatype Scored = Settled(opportunity: Opportunity) | Pending(opportunity: Opportunity, candidate: Candidate)

  /** What scoring reads and does not change. */
  datatype Scene = Scene(ledger: LedgerState, samples: Samples, terms: seq<TermsSnapshot>, now: Time)

  function Blank(id: OpportunityId, market: Market, buy: Id, sell: Id): Opportunity {
    Opportunity(id, 0, market, buy, sell, 0.0, 0.0, 0.0, 0.0, 0.0, 0.0, 0.0, 0.0, 0.0, 0.0, 0.0, 0.0, false,
                Skip, NoGrossEdge)
  }

  const NO_ROUTE := Blank(Waiting, Market("BTC", "USDT"), "", "").(decision := Wait, reason := NoLiveRoute)

  function RouteId(buy: OrderBook, sell: OrderBook): OpportunityId {
    Route(buy.market, buy.exchange, sell.exchange, buy.sequence, sell.sequence, buy.receivedAt, sell.receivedAt)
  }

  function MaxBaseByBalance(quote: real, base: real, topAsk: real, fee: real, quo: Quotient): Option<real> {
    if quote <= 0.0 || base <= 0.0 || topAsk <= 0.0 || WithFee(topAsk, fee) <= 0.0 then None
    else Some(Min(quo(quote, WithFee(topAsk, fee)), base))
  }

  function PreviewNoGrossEdge(o: Opportunity, ask: PriceLevel, bid: PriceLevel, buyFee: real, sellFee: real,
                              maxBase: real, quo: Quotient): Opportunity
  {
    var available := Min(ask.quantity, bid.quantity);
    var size := if maxBase > 0.0 then Min(available, maxBase) else available;
    if size <= 0.0 then o
    else
      var buyNotional, sellNotional := size * ask.price, size * bid.price;
      var gross := sellNotional - buyNotional;
      o.(baseSize := size, buyNotional := buyNotional, sellNotional := sellNotional,
         grossProfit := gross, grossBps := Bps(gross, buyNotional, quo),
         buyFee := buyNotional * buyFee, sellFee := sellNotional * sellFee,
         net := gross - (buyNotional * buyFee + sellNotional * sellFee))
  }

  function RebalanceCost(market: Market, depth: DepthResult, buyTerms: TermsSnapshot, sellTerms: TermsSnapshot,
                         quo: Quotient): Option<real>
  {
    var baseFee, quoteFee := TransferFeeFor(buyTerms, market.base), TransferFeeFor(sellTerms, market.quote);
    if depth.base <= 0.0 || depth.buyNotional <= 0.0 || baseFee.None? || quoteFee.None? then None
    else Some(baseFee.value * quo(depth.buyNotional, depth.base) + quoteFee.value)
  }

  function WalletsOf(quote: real, base: real, buyTerms: TermsSnapshot, sellTerms: TermsSnapshot,
                     latencyBps: real): Wallets {
    Wallets(quote, base, buyTerms.takerRate, sellTerms.takerRate, latencyBps,
            Max(buyTerms.minBase, sellTerms.minBase), Max(buyTerms.minNotional, sellTerms.minNotional))
  }

  function Sized(o: Opportunity, s: Selection, latencyBps: real): Opportunity {
    o.(baseSize := s.depth.base, buyNotional := s.depth.buyNotional, sellNotional := s.depth.sellNotional,
       grossProfit := s.grossProfit, grossBps := s.grossBps, buyFee := s.buyFee, sellFee := s.sellFee,
       latencyBps := latencyBps, latencyPenalty := s.latencyPenalty, net := s.net, partial := s.partial)
  }

  /** The rebalance cost comes off the net only when positive. */
  function Rebalanced(o: Opportunity, cost: real): Opportunity {
    o.(rebalanceCost := cost, net := if cost > 0.0 then o.net - cost else o.net)
  }

  function Slipped(o: Opportunity, topAsk: real, topBid: real): Opportunity {
    var slippage := o.baseSize * (topBid - topAsk) - o.grossProfit;
    if slippage > 0.0 then o.(slippageCost := slippage) else o
  }

  function CandidateOf(o: Opportunity, quote: real, base: real, sessionPnl: real): Candidate {
    Candidate(o.grossBps, o.latencyBps, sessionPnl, quote, quote - (o.buyNotional + o.buyFee), base, base - o.baseSize)
  }

  function ScoreDepth(o: Opportunity, s: Selection, quote: real, base: real, buyTerms: TermsSnapshot,
                      sellTerms: TermsSnapshot, latencyBps: real, topAsk: real, topBid: real, sessionPnl: real,
                      quo: Quotient): Scored
  {
    var sized := Sized(o, s, latencyBps);
    var cost := RebalanceCost(o.market, s.depth, buyTerms, sellTerms, quo);
    if cost.None? then Settled(sized.(decision := Skip, reason := TransferFeeMissing))
    else
      var full := Slipped(Rebalanced(sized, cost.value), topAsk, topBid);
      if full.net <= 0.0 then Settled(full.(decision := Skip, reason := NegativeNet))
      else Pending(full, CandidateOf(full, quote, base, sessionPnl))
  }

  function ScoreTops(c: Scene, o: Opportunity, buy: OrderBook, sell: OrderBook, buyTerms: TermsSnapshot,
                     sellTerms: TermsSnapshot, quo: Quotient): Scored
    requires buy.asks != [] && sell.bids != []
  {
    var quote, base := View(c.ledger, buy.exchange, buy.market.quote), View(c.ledger, sell.exchange, buy.market.base);
    var ask, bid := buy.asks[0], sell.bids[0];
    var maxBase := MaxBaseByBalance(quote, base, ask.price, buyTerms.takerRate, quo);
    if maxBase.None? || maxBase.value <= 0.0 then Settled(o.(reason := InsufficientBalance))
    else if bid.price <= ask.price then
      Settled(PreviewNoGrossEdge(o, ask, bid, buyTerms.takerRate, sellTerms.takerRate, maxBase.value, quo))
    else
      var penalty := PenaltyBps(c.samples, buy.BookKey(), sell.BookKey(), quo);
      if penalty.None? then Settled(o.(decision := Wait, reason := WaitingLatencyModel))
      else
        var s := BestNetDepth(buy.asks, sell.bids, WalletsOf(quote, base, buyTerms, sellTerms, penalty.value), quo);
        if !s.hasDepth then Settled(o.(reason := InsufficientBalance))
        else if !s.meetsMinimum then Settled(o.(reason := BelowMarketMinimum))
        else ScoreDepth(o, s, quote, base, buyTerms, sellTerms, penalty.value, ask.price, bid.price,
                        c.ledger.sessionPnl, quo)
  }

  function ScoreRoute(c: Scene, buy: OrderBook, sell: OrderBook, quo: Quotient): Scored {
    var o := Blank(RouteId(buy, sell), buy.market, buy.exchange, sell.exchange);
    var buyTerms, sellTerms := TermsFor(c.terms, buy.BookKey()), TermsFor(c.terms, sell.BookKey());
    if buyTerms.None? || sellTerms.None? || !buyTerms.value.IsFresh(c.now) || !sellTerms.value.IsFresh(c.now) then
      Settled(o.(decision := Skip, reason := TermsStale))
    else if buy.asks == [] || sell.bids == [] then Settled(o)
    else ScoreTops(c, o, buy, sell, buyTerms.value, sellTerms.value, quo)
  }

  /** The label of a route once the risk controller has answered. */
  function Labelled(o: Opportunity, verdict: Verdict, seen: bool): Opportunity {
    if !verdict.allowed then o.(decision := Skip, reason := verdict.reason)
    else if seen then o.(decision := Wait, reason := WaitingNewBook)
    else o.(decision := Execute, reason := Executed)
  }

  // ----- The engine's state and one pass -----

  datatype EngineState = EngineState(
    ledger: LedgerState,
    risk: RiskState,
    samples: Samples,
    executed: set<OpportunityId>,
    best: Option<Opportunity>)

  /** The inputs of one pass, the order in which the markets came up, and the ranked result before
      execution.  The last two are the choices that the source leaves to the runtime. */
  datatype Pass = Pass(
    books: seq<OrderBook>,
    terms: seq<TermsSnapshot>,
    now: Time,
    execute: bool,
    order: seq<Market>,
    sorted: seq<Opportunity>)

  /** What the engine is built with: the latency window and the division it uses. */
  datatype Setup = Setup(window: Time, quo: Quotient)

  function SeededFresh(l: LedgerState, terms: seq<TermsSnapshot>, now: Time): LedgerState
    decreases |terms|
  {
    if terms == [] then l
    else
      var before, last := SeededFresh(l, terms[..|terms| - 1], now), terms[|terms| - 1];
      if last.IsFresh(now) then SeededOnce(before, last) else before
  }

  function Prepared(s: EngineState, p: Pass, setup: Setup): EngineState {
    s.(samples := Observed(s.samples, p.books, p.now, setup.window, setup.quo),
       ledger := SeededFresh(s.ledger, p.terms, p.now))
  }

  predicate Tradable(b: OrderBook) {
    b.status == Live && b.HasBook()
  }

  /** The tradable books of a market, in the order given. */
  function MarketBooks(books: seq<OrderBook>, market: Market): seq<OrderBook>
    decreases |books|
  {
    if books == [] then []
    else
      var before, last := MarketBooks(books[..|books| - 1], market), books[|books| - 1];
      if Tradable(last) && last.market == market then before + [last] else before
  }

  type Pair = (OrderBook, OrderBook)

  function PairsWith(buy: OrderBook, sells: seq<OrderBook>): seq<Pair>
    decreases |sells|
  {
    if sells == [] then []
    else
      var before, last := PairsWith(buy, sells[..|sells| - 1]), sells[|sells| - 1];
      if buy.exchange == last.exchange then before else before + [(buy, last)]
  }

  function PairsOf(buys: seq<OrderBook>, sells: seq<OrderBook>): seq<Pair>
    decreases |buys|
  {
    if buys == [] then [] else PairsOf(buys[..|buys| - 1], sells) + PairsWith(buys[|buys| - 1], sells)
  }

  /** Every ordered pair of books of one market on two exchanges, market by market. */
  function AllPairs(books: seq<OrderBook>, order: seq<Market>): seq<Pair>
    decreases |order|
  {
    if order == [] then []
    else
      var group := MarketBooks(books, order[|order| - 1]);
      AllPairs(books, order[..|order| - 1]) + PairsOf(group, group)
  }

  lemma {:induction false} AllPairsStep(books: seq<OrderBook>, order: seq<Market>, market: Market)
    ensures AllPairs(books, order + [market])
         == AllPairs(books, order) + PairsOf(MarketBooks(books, market), MarketBooks(books, market))
  {
    assert (order + [market])[..|order|] == order;
  }

  /** Each market with a tradable book comes up exactly once. */
  ghost predicate MarketOrder(books: seq<OrderBook>, order: seq<Market>) {
    && (forall i, j | 0 <= i < j < |order| :: order[i] != order[j])
    && forall m :: m in order <==> MarketBooks(books, m) != []
  }

  function SceneOf(s: EngineState, p: Pass): Scene {
    Scene(s.ledger, s.samples, p.terms, p.now)
  }

  /** One route, and what asking about it leaves in the risk controller. */
  function ScoredPair(s: EngineState, p: Pass, pair: Pair, quo: Quotient): (RiskState, Opportunity) {
    match ScoreRoute(SceneOf(s, p), pair.0, pair.1, quo)
    case Settled(o) => (s.risk, o)
    case Pending(o, c) =>
      (if p.execute then Evaluated(s.risk, c) else s.risk,
       Labelled(o, Judged(s.risk, c), o.id in s.executed))
  }

  function ScoredAll(s: EngineState, p: Pass, pairs: seq<Pair>, quo: Quotient): (RiskState, seq<Opportunity>)
    decreases |pairs|
  {
    if pairs == [] then (s.risk, [])
    else
      var (risk, before) := ScoredAll(s, p, pairs[..|pairs| - 1], quo);
      var (risk', last) := ScoredPair(s.(risk := risk), p, pairs[|pairs| - 1], quo);
      (risk', before + [last])
  }

  function Found(s: EngineState, p: Pass, quo: Quotient): (RiskState, seq<Opportunity>) {
    var (risk, found) := ScoredAll(s, p, AllPairs(p.books, p.order), quo);
    (risk, if found == [] then [NO_ROUTE] else found)
  }

  function ExecutionOf(o: Opportunity): Execution {
    Execution(o.id, o.market, o.buyExchange, o.sellExchange, o.baseSize, o.buyNotional, o.sellNotional,
              o.buyFee, o.sellFee, o.latencyPenalty, o.rebalanceCost, o.net)
  }

  function ExecutedBest(s: EngineState, o: Opportunity): (EngineState, Opportunity) {
    if o.id in s.executed then (s, o.(decision := Wait, reason := WaitingNewBook))
    else
      var x := ExecutionOf(o);
      var paid := s.(ledger := Applied(s.ledger, x));
      if !Payable(s.ledger, x) then
        (paid.(risk := Opened(s.risk, LedgerApplyFailed, ["paper ledger rejected simulated execution"])),
         o.(decision := Skip, reason := LedgerApplyFailed))
      else (paid.(executed := s.executed + {o.id}), o)
  }

  function Numbered(opportunities: seq<Opportunity>): (r: seq<Opportunity>)
    ensures |r| == |opportunities|
    ensures forall i | 0 <= i < |r| :: r[i] == opportunities[i].(rank := i + 1)
  {
    seq(|opportunities|, i requires 0 <= i < |opportunities| => opportunities[i].(rank := i + 1))
  }

  function Finished(s: EngineState, sorted: seq<Opportunity>, execute: bool): (EngineState, seq<Opportunity>) {
    var ranked := Numbered(sorted);
    if execute && ranked != [] && ranked[0].decision == Execute then
      var (s', first) := ExecutedBest(s, ranked[0]);
      var shown := ranked[0 := first];
      (s'.(best := BestNet(s'.best, shown)), shown)
    else
      (s.(best := BestNet(s.best, ranked)), ranked)
  }

  /** One `Evaluate` or `Project`, showing `shown`. */
  ghost predicate PassStep(s: EngineState, p: Pass, s': EngineState, shown: seq<Opportunity>, setup: Setup) {
    var ready := Prepared(s, p, setup);
    var (risk, found) := Found(ready, p, setup.quo);
    && MarketOrder(p.books, p.order)
    && multiset(p.sorted) == multiset(found) && Ordered(Before, p.sorted)
    && (s', shown) == Finished(ready.(risk := risk), p.sorted, p.execute)
  }
}
