/** Which label a route gets and at what figures, in terms of the books, the terms on file, the wallets,
    the samples and the controller alone. */
module LabelTheorems {
  import opened Arithmetic
  import opened Wrappers
  import opened Exchange
  import opened Reasons
  import opened Terms
  import opened Depth
  import opened Sizing
  import opened Optimality
  import opened SizingTheorems
  import opened Ledger
  import opened LedgerTheorems
  import opened Risk
  import opened Latency
  import opened Ranking
  import opened Scoring
  import opened RouteTheorems

  // ----- What scoring looks up -----

  ghost predicate Bears(t: TermsSnapshot, exchange: Id, market: Market) {
    t.exchange == exchange && t.market == market
  }

  /** The entry at `i` is the first of the list for an exchange and a market. */
  ghost predicate FirstAt(terms: seq<TermsSnapshot>, exchange: Id, market: Market, i: nat) {
    i < |terms| && Bears(terms[i], exchange, market) && forall j | 0 <= j < i :: !Bears(terms[j], exchange, market)
  }

  /** The first snapshot of the list for an exchange and a market. */
  ghost predicate OnFile(terms: seq<TermsSnapshot>, exchange: Id, market: Market, t: TermsSnapshot) {
    exists i: nat :: FirstAt(terms, exchange, market, i) && terms[i] == t
  }

  /** The terms found are at the place of the first entry for their key, if there is one. */
  lemma {:induction false} TermsFound(terms: seq<TermsSnapshot>, exchange: Id, market: Market) returns (i: nat)
    ensures
      var t := TermsFor(terms, Key(exchange, market));
      if t.Some? then FirstAt(terms, exchange, market, i) && terms[i] == t.value
      else forall j | 0 <= j < |terms| :: !Bears(terms[j], exchange, market)
  {
    i := 0;
    if terms != [] && !Bears(terms[0], exchange, market) {
      var k := TermsFound(terms[1..], exchange, market);
      i := k + 1;
      assert forall j | 0 < j < |terms| :: terms[j] == terms[1..][j - 1];
    }
  }

  lemma {:induction false} TermsForIff(terms: seq<TermsSnapshot>, exchange: Id, market: Market, t: TermsSnapshot)
    ensures TermsFor(terms, Key(exchange, market)) == Some(t) <==> OnFile(terms, exchange, market, t)
  {
    hide TermsFor, Bears;
    var i := TermsFound(terms, exchange, market);
    if OnFile(terms, exchange, market, t) {
      var k: nat :| FirstAt(terms, exchange, market, k) && terms[k] == t;
      assert Bears(terms[k], exchange, market);
    }
  }

  /** A feed whose last step is known: it has two samples, and the earlier one is positive. */
  ghost predicate Stepped(samples: Samples, key: Key) {
    key in samples && |samples[key]| >= 2 && samples[key][|samples[key]| - 2].mid > 0.0
  }

  /** The size of that step in basis points of the earlier sample. */
  ghost function StepBps(samples: Samples, key: Key, quo: Quotient): real
    requires Stepped(samples, key)
  {
    var latest, previous := samples[key][|samples[key]| - 1].mid, samples[key][|samples[key]| - 2].mid;
    quo(if latest < previous then previous - latest else latest - previous, previous) * 10000.0
  }

  ghost predicate BothStepped(samples: Samples, buy: OrderBook, sell: OrderBook) {
    Stepped(samples, Key(buy.exchange, buy.market)) && Stepped(samples, Key(sell.exchange, sell.market))
  }

  /** The larger of the two feeds' last steps. */
  ghost function LargerStep(samples: Samples, buy: OrderBook, sell: OrderBook, quo: Quotient): real
    requires BothStepped(samples, buy, sell)
  {
    var l := StepBps(samples, Key(buy.exchange, buy.market), quo);
    var r := StepBps(samples, Key(sell.exchange, sell.market), quo);
    if l > r then l else r
  }

  lemma PenaltyIsStep(samples: Samples, buy: OrderBook, sell: OrderBook, quo: Quotient)
    ensures PenaltyBps(samples, buy.BookKey(), sell.BookKey(), quo)
         == if BothStepped(samples, buy, sell) then Some(LargerStep(samples, buy, sell, quo)) else None
  {
  }

  // ----- Figures -----

  /** The size selected on the two ladders with what the wallets show, the taker rate of either side, and the
      larger of the two base minimums and of the two notional minimums. */
  ghost function Selected(c: Scene, buy: OrderBook, sell: OrderBook, a: TermsSnapshot, b: TermsSnapshot, bps: real,
                          quo: Quotient): Selection
  {
    BestNetDepth(buy.asks, sell.bids,
                 Wallets(Held(c.ledger, buy.exchange, buy.market.quote), Held(c.ledger, sell.exchange, buy.market.base),
                         a.takerRate, b.takerRate, bps,
                         if a.minBase >= b.minBase then a.minBase else b.minBase,
                         if a.minNotional >= b.minNotional then a.minNotional else b.minNotional),
                 quo)
  }

  ghost predicate MinimumsMet(d: DepthResult, a: TermsSnapshot, b: TermsSnapshot) {
    && d.base >= a.minBase && d.base >= b.minBase
    && d.buyNotional >= a.minNotional && d.buyNotional >= b.minNotional
  }

  /** The buying side's fee on the base asset at the average price paid, and the selling side's on the quote. */
  ghost function TransferCost(d: DepthResult, market: Market, a: TermsSnapshot, b: TermsSnapshot, quo: Quotient): real
    requires KnownFee(a, market.base) && KnownFee(b, market.quote)
  {
    a.transferFees.value[market.base] * quo(d.buyNotional, d.base) + b.transferFees.value[market.quote]
  }

  /** The sale less the purchase, both taker fees, the latency penalty and a positive transfer cost. */
  ghost function Left(d: DepthResult, a: TermsSnapshot, b: TermsSnapshot, bps: real, cost: real, quo: Quotient): real {
    d.sellNotional - d.buyNotional - d.buyNotional * a.takerRate - d.sellNotional * b.takerRate
    - d.buyNotional * quo(bps, 10000.0) - (if cost > 0.0 then cost else 0.0)
  }

  /** What the controller is asked about. */
  ghost function Asked(c: Scene, buy: OrderBook, sell: OrderBook, a: TermsSnapshot, bps: real, d: DepthResult,
                       quo: Quotient): Risk.Candidate
  {
    var quote, base := Held(c.ledger, buy.exchange, buy.market.quote), Held(c.ledger, sell.exchange, buy.market.base);
    Candidate.Candidate(quo(d.sellNotional - d.buyNotional, d.buyNotional) * 10000.0, bps, c.ledger.sessionPnl,
                        quote, quote - d.buyNotional - d.buyNotional * a.takerRate, base, base - d.base)
  }

  ghost function IdOf(buy: OrderBook, sell: OrderBook): OpportunityId {
    Route(buy.market, buy.exchange, sell.exchange, buy.sequence, sell.sequence, buy.receivedAt, sell.receivedAt)
  }

  /** A route as shown, but for its rank: who trades what with whom, and the label. */
  ghost predicate Shows(o: Opportunity, buy: OrderBook, sell: OrderBook, decision: Decision, reason: ReasonCode) {
    && o.id == IdOf(buy, sell) && o.rank == 0 && o.market == buy.market
    && o.buyExchange == buy.exchange && o.sellExchange == sell.exchange
    && o.decision == decision && o.reason == reason
  }

  /** Nothing was sized. */
  ghost predicate Unpriced(o: Opportunity) {
    && o.baseSize == 0.0 && o.buyNotional == 0.0 && o.sellNotional == 0.0 && o.grossProfit == 0.0 && o.grossBps == 0.0
    && o.buyFee == 0.0 && o.sellFee == 0.0 && o.slippageCost == 0.0 && o.latencyPenalty == 0.0 && o.latencyBps == 0.0
    && o.rebalanceCost == 0.0 && o.net == 0.0 && !o.partial
  }

  /** Sized at `s`, with each taker fee and the latency penalty taken off, and then the transfer cost. */
  ghost predicate Priced(o: Opportunity, s: Selection, a: TermsSnapshot, b: TermsSnapshot, bps: real, cost: real,
                         slippage: real, quo: Quotient)
  {
    var d := s.depth;
    && o.baseSize == d.base && o.buyNotional == d.buyNotional && o.sellNotional == d.sellNotional
    && o.grossProfit == d.sellNotional - d.buyNotional
    && o.grossBps == quo(d.sellNotional - d.buyNotional, d.buyNotional) * 10000.0
    && o.buyFee == d.buyNotional * a.takerRate && o.sellFee == d.sellNotional * b.takerRate
    && o.latencyBps == bps && o.latencyPenalty == d.buyNotional * quo(bps, 10000.0)
    && o.rebalanceCost == cost && o.net == Left(d, a, b, bps, cost, quo)
    && o.slippageCost == (if slippage > 0.0 then slippage else 0.0) && o.partial == s.partial
  }

  // ----- The label of a sized route -----

  ghost function Answered(scored: Scored, r: RiskState, executed: set<OpportunityId>): Opportunity {
    match scored
    case Settled(o) => o
    case Pending(o, k) => Labelled(o, Judged(r, k), o.id in executed)
  }

  /** From the transfer fees on. */
  ghost predicate SizedRow(c: Scene, r: RiskState, executed: set<OpportunityId>, buy: OrderBook, sell: OrderBook,
                           a: TermsSnapshot, b: TermsSnapshot, bps: real, s: Selection, o: Opportunity, quo: Quotient)
    requires buy.asks != [] && sell.bids != []
  {
    if !KnownFee(a, buy.market.base) || !KnownFee(b, buy.market.quote) then
      Shows(o, buy, sell, Skip, TransferFeeMissing) && Priced(o, s, a, b, bps, 0.0, 0.0, quo)
    else
      var d, cost := s.depth, TransferCost(s.depth, buy.market, a, b, quo);
      var promised, k := d.base * (sell.bids[0].price - buy.asks[0].price), Asked(c, buy, sell, a, bps, d, quo);
      && Priced(o, s, a, b, bps, cost, promised - (d.sellNotional - d.buyNotional), quo)
      && if Left(d, a, b, bps, cost, quo) <= 0.0 then Shows(o, buy, sell, Skip, NegativeNet)
         else if !Acceptable(r, k) then Shows(o, buy, sell, Skip, Judged(r, k).reason)
         else if IdOf(buy, sell) in executed then Shows(o, buy, sell, Wait, WaitingNewBook)
         else Shows(o, buy, sell, Execute, Executed)
  }

  lemma SizedFigures(buy: OrderBook, sell: OrderBook, a: TermsSnapshot, b: TermsSnapshot, w: Wallets, s: Selection,
                     cost: real, topAsk: real, topBid: real, quo: Quotient)
    requires AddsUp(s, w, quo) && w.buyFee == a.takerRate && w.sellFee == b.takerRate
    ensures
      var sized := Sized(Blank(RouteId(buy, sell), buy.market, buy.exchange, sell.exchange), s, w.latencyBps);
      var full := Slipped(Rebalanced(sized, cost), topAsk, topBid);
      && Priced(sized, s, a, b, w.latencyBps, 0.0, 0.0, quo) && Shows(sized, buy, sell, Skip, NoGrossEdge)
      && Priced(full, s, a, b, w.latencyBps, cost,
                s.depth.base * (topBid - topAsk) - (s.depth.sellNotional - s.depth.buyNotional), quo)
      && Shows(full, buy, sell, Skip, NoGrossEdge)
  {
    hide Exact;
  }

  lemma AskedIs(c: Scene, buy: OrderBook, sell: OrderBook, o: Opportunity, a: TermsSnapshot, b: TermsSnapshot, bps: real,
                s: Selection, cost: real, slippage: real, quo: Quotient)
    requires Priced(o, s, a, b, bps, cost, slippage, quo)
    ensures
      var quote, base := Held(c.ledger, buy.exchange, buy.market.quote), Held(c.ledger, sell.exchange, buy.market.base);
      CandidateOf(o, quote, base, c.ledger.sessionPnl) == Asked(c, buy, sell, a, bps, s.depth, quo)
  {
    hide Held, Left;
  }

  lemma TransferCostIs(d: DepthResult, market: Market, a: TermsSnapshot, b: TermsSnapshot, quo: Quotient)
    requires d.base > 0.0 && d.buyNotional > 0.0
    ensures RebalanceCost(market, d, a, b, quo)
         == if KnownFee(a, market.base) && KnownFee(b, market.quote) then Some(TransferCost(d, market, a, b, quo))
            else None
  {
    if KnownFee(a, market.base) && KnownFee(b, market.quote) {
      var cost := RebalanceCost(market, d, a, b, quo);
      assert cost.Some? && cost.value == TransferCost(d, market, a, b, quo);
    }
  }

  lemma SizedLabel(c: Scene, r: RiskState, executed: set<OpportunityId>, buy: OrderBook, sell: OrderBook,
                   a: TermsSnapshot, b: TermsSnapshot, w: Wallets, s: Selection, quo: Quotient)
    requires buy.asks != [] && sell.bids != [] && AddsUp(s, w, quo)
    requires w.buyFee == a.takerRate && w.sellFee == b.takerRate
    ensures
      var quote, base := Held(c.ledger, buy.exchange, buy.market.quote), Held(c.ledger, sell.exchange, buy.market.base);
      var o := Blank(RouteId(buy, sell), buy.market, buy.exchange, sell.exchange);
      var scored := ScoreDepth(o, s, quote, base, a, b, w.latencyBps, buy.asks[0].price, sell.bids[0].price,
                               c.ledger.sessionPnl, quo);
      SizedRow(c, r, executed, buy, sell, a, b, w.latencyBps, s, Answered(scored, r, executed), quo)
  {
    hide *;
    var topAsk, topBid := buy.asks[0].price, sell.bids[0].price;
    var cost := if KnownFee(a, buy.market.base) && KnownFee(b, buy.market.quote)
                then TransferCost(s.depth, buy.market, a, b, quo) else 0.0;
    SizedFigures(buy, sell, a, b, w, s, cost, topAsk, topBid, quo);
    SizedBasics(s, w, quo);
    TransferCostIs(s.depth, buy.market, a, b, quo);
    SizedAnswer(c, r, executed, buy, sell, a, b, w.latencyBps, s, cost, quo);
  }

  lemma SizedBasics(s: Selection, w: Wallets, quo: Quotient)
    requires AddsUp(s, w, quo)
    ensures s.depth.base > 0.0 && s.depth.buyNotional > 0.0 && s.grossProfit == s.depth.sellNotional - s.depth.buyNotional
  {
    hide Exact;
  }

  lemma SizedAnswer(c: Scene, r: RiskState, executed: set<OpportunityId>, buy: OrderBook, sell: OrderBook,
                    a: TermsSnapshot, b: TermsSnapshot, bps: real, s: Selection, cost: real, quo: Quotient)
    requires buy.asks != [] && sell.bids != [] && s.depth.base > 0.0 && s.depth.buyNotional > 0.0
    requires
      var sized := Sized(Blank(RouteId(buy, sell), buy.market, buy.exchange, sell.exchange), s, bps);
      var full := Slipped(Rebalanced(sized, cost), buy.asks[0].price, sell.bids[0].price);
      var promised := s.depth.base * (sell.bids[0].price - buy.asks[0].price);
      && Priced(sized, s, a, b, bps, 0.0, 0.0, quo) && Shows(sized, buy, sell, Skip, NoGrossEdge)
      && Priced(full, s, a, b, bps, cost, promised - (s.depth.sellNotional - s.depth.buyNotional), quo)
      && Shows(full, buy, sell, Skip, NoGrossEdge)
    requires KnownFee(a, buy.market.base) && KnownFee(b, buy.market.quote) ==>
               cost == TransferCost(s.depth, buy.market, a, b, quo)
    ensures
      var quote, base := Held(c.ledger, buy.exchange, buy.market.quote), Held(c.ledger, sell.exchange, buy.market.base);
      var o := Blank(RouteId(buy, sell), buy.market, buy.exchange, sell.exchange);
      var scored := ScoreDepth(o, s, quote, base, a, b, bps, buy.asks[0].price, sell.bids[0].price,
                               c.ledger.sessionPnl, quo);
      SizedRow(c, r, executed, buy, sell, a, b, bps, s, Answered(scored, r, executed), quo)
  {
    hide Held, Judged, Acceptable, Left, Sized, Slipped, Rebalanced, RebalanceCost, TransferCost, KnownFee, CandidateOf,
         Asked;
    var sized := Sized(Blank(RouteId(buy, sell), buy.market, buy.exchange, sell.exchange), s, bps);
    var full := Slipped(Rebalanced(sized, cost), buy.asks[0].price, sell.bids[0].price);
    var slippage := s.depth.base * (sell.bids[0].price - buy.asks[0].price) - (s.depth.sellNotional - s.depth.buyNotional);
    TransferCostIs(s.depth, buy.market, a, b, quo);
    AllowedIff(r, Asked(c, buy, sell, a, bps, s.depth, quo));
    AskedIs(c, buy, sell, full, a, b, bps, s, cost, slippage, quo);
    NetLeft(full, s, a, b, bps, cost, slippage, quo);
    Relabels(full, s, a, b, bps, cost, slippage, quo);
    Relabels(sized, s, a, b, bps, 0.0, 0.0, quo);
  }

  lemma NetLeft(o: Opportunity, s: Selection, a: TermsSnapshot, b: TermsSnapshot, bps: real, cost: real, slippage: real,
                quo: Quotient)
    requires Priced(o, s, a, b, bps, cost, slippage, quo)
    ensures o.net == Left(s.depth, a, b, bps, cost, quo)
  {
    hide Left;
  }

  /** A label changes no figure. */
  lemma Relabels(o: Opportunity, s: Selection, a: TermsSnapshot, b: TermsSnapshot, bps: real, cost: real, slippage: real,
                 quo: Quotient)
    requires Priced(o, s, a, b, bps, cost, slippage, quo)
    ensures forall decision, reason ::
              Priced(o.(decision := decision, reason := reason), s, a, b, bps, cost, slippage, quo)
  {
    hide Left;
  }

  // ----- The label of a route with terms -----

  /** One size at the top prices, with each taker fee. */
  ghost predicate SizedAtTops(o: Opportunity, size: real, ask: PriceLevel, bid: PriceLevel, a: TermsSnapshot,
                              b: TermsSnapshot, quo: Quotient)
  {
    && o.baseSize == size && o.buyNotional == size * ask.price && o.sellNotional == size * bid.price
    && o.grossProfit == o.sellNotional - o.buyNotional
    && o.grossBps == (if o.buyNotional <= 0.0 then 0.0 else quo(o.grossProfit, o.buyNotional) * 10000.0)
    && o.buyFee == o.buyNotional * a.takerRate && o.sellFee == o.sellNotional * b.takerRate
    && o.net == o.sellNotional - o.buyNotional - o.buyFee - o.sellFee
    && o.slippageCost == 0.0 && o.latencyPenalty == 0.0 && o.latencyBps == 0.0 && o.rebalanceCost == 0.0 && !o.partial
  }

  /** A route without an edge is shown at the tops, for no more than they and the wallets hold. */
  ghost predicate PricedAtTops(o: Opportunity, ask: PriceLevel, bid: PriceLevel, a: TermsSnapshot, b: TermsSnapshot,
                               paid: real, held: real, quo: Quotient)
  {
    var offered := if ask.quantity <= bid.quantity then ask.quantity else bid.quantity;
    var limit := if paid <= held then paid else held;
    var size := if offered <= limit then offered else limit;
    if size <= 0.0 then Unpriced(o) else SizedAtTops(o, size, ask, bid, a, b, quo)
  }

  /** Both wallets hold something, and the quote wallet buys something. */
  ghost predicate Funded(quote: real, base: real, price: real, fee: real, quo: Quotient) {
    quote > 0.0 && base > 0.0 && price > 0.0 && price * (1.0 + fee) > 0.0 && Buys(quote, price, fee, quo) > 0.0
  }

  /** From the wallets on. */
  ghost predicate TopsRow(c: Scene, r: RiskState, executed: set<OpportunityId>, buy: OrderBook, sell: OrderBook,
                          a: TermsSnapshot, b: TermsSnapshot, o: Opportunity, quo: Quotient)
    requires buy.asks != [] && sell.bids != []
  {
    var quote, base := Held(c.ledger, buy.exchange, buy.market.quote), Held(c.ledger, sell.exchange, buy.market.base);
    var ask, bid := buy.asks[0], sell.bids[0];
    if !Funded(quote, base, ask.price, a.takerRate, quo) then
      Shows(o, buy, sell, Skip, InsufficientBalance) && Unpriced(o)
    else if bid.price <= ask.price then
      && Shows(o, buy, sell, Skip, NoGrossEdge)
      && PricedAtTops(o, ask, bid, a, b, Buys(quote, ask.price, a.takerRate, quo), base, quo)
    else if !BothStepped(c.samples, buy, sell) then
      Shows(o, buy, sell, Wait, WaitingLatencyModel) && Unpriced(o)
    else
      var bps := LargerStep(c.samples, buy, sell, quo);
      var s := Selected(c, buy, sell, a, b, bps, quo);
      if s.depth.base <= 0.0 then Shows(o, buy, sell, Skip, InsufficientBalance) && Unpriced(o)
      else if !MinimumsMet(s.depth, a, b) then Shows(o, buy, sell, Skip, BelowMarketMinimum) && Unpriced(o)
      else SizedRow(c, r, executed, buy, sell, a, b, bps, s, o, quo)
  }

  lemma DepthMeansSize(asks: seq<PriceLevel>, bids: seq<PriceLevel>, w: Wallets, quo: Quotient)
    ensures BestNetDepth(asks, bids, w, quo).hasDepth <==> BestNetDepth(asks, bids, w, quo).depth.base > 0.0
  {
    hide Visits, Merge, AddsUp, Sizing.Candidate, Choose;
    if BestNetDepth(asks, bids, w, quo).hasDepth {
      SelectionAddsUp(asks, bids, w, quo);
      SizedBasics(BestNetDepth(asks, bids, w, quo), w, quo);
    } else {
      Chosen(NO_SELECTION, Visits(NOTHING, Merge(asks, bids), w, quo), w, quo);
      NothingVisited(Visits(NOTHING, Merge(asks, bids), w, quo), w, quo);
    }
  }

  lemma {:induction false} NothingVisited(visits: seq<Visit>, w: Wallets, quo: Quotient)
    requires visits == []
    ensures Choose(NO_SELECTION, visits, w, quo).depth.base == 0.0
  {
  }

  lemma MinimumsAre(s: Selection, w: Wallets, a: TermsSnapshot, b: TermsSnapshot, quo: Quotient)
    requires AddsUp(s, w, quo)
    requires w.minBase == (if a.minBase >= b.minBase then a.minBase else b.minBase)
    requires w.minNotional == (if a.minNotional >= b.minNotional then a.minNotional else b.minNotional)
    ensures s.meetsMinimum <==> MinimumsMet(s.depth, a, b)
  {
    hide Exact;
  }

  lemma GateIs(quote: real, base: real, ask: real, fee: real, quo: Quotient)
    ensures
      var paid, gate := Buys(quote, ask, fee, quo), MaxBaseByBalance(quote, base, ask, fee, quo);
      && (gate.Some? && gate.value > 0.0 <==> Funded(quote, base, ask, fee, quo))
      && (gate.Some? ==> gate.value == if paid <= base then paid else base)
      && (Funded(quote, base, ask, fee, quo) ==> paid > 0.0 && base > 0.0)
  {
    TopUnit(quote, ask, fee, quo);
    hide WithFee;
  }

  lemma PreviewSized(o: Opportunity, size: real, ask: PriceLevel, bid: PriceLevel, a: TermsSnapshot, b: TermsSnapshot,
                     limit: real, quo: Quotient)
    requires Unpriced(o) && limit > 0.0 && size > 0.0 && size == Min(Min(ask.quantity, bid.quantity), limit)
    ensures SizedAtTops(PreviewNoGrossEdge(o, ask, bid, a.takerRate, b.takerRate, limit, quo), size, ask, bid, a, b, quo)
  {
    hide Min;
  }

  lemma PreviewIs(buy: OrderBook, sell: OrderBook, ask: PriceLevel, bid: PriceLevel, a: TermsSnapshot, b: TermsSnapshot,
                  paid: real, held: real, quo: Quotient)
    requires paid > 0.0 && held > 0.0
    ensures
      var o := Blank(RouteId(buy, sell), buy.market, buy.exchange, sell.exchange);
      var r := PreviewNoGrossEdge(o, ask, bid, a.takerRate, b.takerRate, if paid <= held then paid else held, quo);
      Shows(r, buy, sell, Skip, NoGrossEdge) && PricedAtTops(r, ask, bid, a, b, paid, held, quo)
  {
    hide SizedAtTops, Bps;
    var limit := if paid <= held then paid else held;
    var size := Min(Min(ask.quantity, bid.quantity), limit);
    if size > 0.0 {
      PreviewSized(Blank(RouteId(buy, sell), buy.market, buy.exchange, sell.exchange), size, ask, bid, a, b, limit, quo);
    }
  }

  lemma TopsLabel(c: Scene, r: RiskState, executed: set<OpportunityId>, buy: OrderBook, sell: OrderBook,
                  a: TermsSnapshot, b: TermsSnapshot, quo: Quotient)
    requires buy.asks != [] && sell.bids != []
    ensures
      var o := Blank(RouteId(buy, sell), buy.market, buy.exchange, sell.exchange);
      TopsRow(c, r, executed, buy, sell, a, b, Answered(ScoreTops(c, o, buy, sell, a, b, quo), r, executed), quo)
  {
    hide BestNetDepth, ScoreDepth, PenaltyBps, View, Held, PreviewNoGrossEdge, PricedAtTops, MaxBaseByBalance, SizedRow,
         Labelled, Judged, AddsUp, BothStepped, LargerStep, MinimumsMet, Funded, Buys;
    var quote, base := Held(c.ledger, buy.exchange, buy.market.quote), Held(c.ledger, sell.exchange, buy.market.base);
    HeldIsView(c.ledger, buy.exchange, buy.market.quote);
    HeldIsView(c.ledger, sell.exchange, buy.market.base);
    var ask, bid := buy.asks[0], sell.bids[0];
    GateIs(quote, base, ask.price, a.takerRate, quo);
    var paid := Buys(quote, ask.price, a.takerRate, quo);
    if Funded(quote, base, ask.price, a.takerRate, quo) {
      PreviewIs(buy, sell, ask, bid, a, b, paid, base, quo);
    }
    PenaltyIsStep(c.samples, buy, sell, quo);
    if BothStepped(c.samples, buy, sell) {
      var bps := LargerStep(c.samples, buy, sell, quo);
      var w := WalletsOf(quote, base, a, b, bps);
      var s := Selected(c, buy, sell, a, b, bps, quo);
      assert s == BestNetDepth(buy.asks, sell.bids, w, quo);
      DepthMeansSize(buy.asks, sell.bids, w, quo);
      if s.hasDepth {
        SelectionAddsUp(buy.asks, sell.bids, w, quo);
        MinimumsAre(s, w, a, b, quo);
        SizedLabel(c, r, executed, buy, sell, a, b, w, s, quo);
      }
    }
  }

  // ----- The label of any route -----

  /** The terms of both sides, on file and unexpired. */
  ghost predicate TermsKnown(c: Scene, buy: OrderBook, sell: OrderBook, a: TermsSnapshot, b: TermsSnapshot) {
    && OnFile(c.terms, buy.exchange, buy.market, a) && Unexpired(a, c.now)
    && OnFile(c.terms, sell.exchange, sell.market, b) && Unexpired(b, c.now)
  }

  /** The whole answer about a route: its label and all its figures. */
  ghost predicate RouteRow(c: Scene, r: RiskState, executed: set<OpportunityId>, buy: OrderBook, sell: OrderBook,
                           o: Opportunity, quo: Quotient)
  {
    && ((forall a, b :: !TermsKnown(c, buy, sell, a, b)) ==> Shows(o, buy, sell, Skip, TermsStale) && Unpriced(o))
    && forall a, b | TermsKnown(c, buy, sell, a, b) ::
         if buy.asks == [] || sell.bids == [] then Shows(o, buy, sell, Skip, NoGrossEdge) && Unpriced(o)
         else TopsRow(c, r, executed, buy, sell, a, b, o, quo)
  }

  /** The first check that fails decides the label, in the order terms, books, wallets, edge, samples, size,
      minimums, transfer fees, net, controller, repetition; and the figures are those of the size selected. */
  lemma RouteLabel(c: Scene, r: RiskState, executed: set<OpportunityId>, buy: OrderBook, sell: OrderBook, quo: Quotient)
    ensures RouteRow(c, r, executed, buy, sell, Answered(ScoreRoute(c, buy, sell, quo), r, executed), quo)
  {
    hide ScoreTops, TermsFor, OnFile, TopsRow, Labelled, Judged;
    var o := Answered(ScoreRoute(c, buy, sell, quo), r, executed);
    forall a, b
      ensures TermsKnown(c, buy, sell, a, b)
        <==> TermsFor(c.terms, buy.BookKey()) == Some(a) && a.IsFresh(c.now)
             && TermsFor(c.terms, sell.BookKey()) == Some(b) && b.IsFresh(c.now)
    {
      TermsForIff(c.terms, buy.exchange, buy.market, a);
      TermsForIff(c.terms, sell.exchange, sell.market, b);
    }
    forall a, b | TermsKnown(c, buy, sell, a, b) && buy.asks != [] && sell.bids != []
      ensures TopsRow(c, r, executed, buy, sell, a, b, o, quo)
    {
      TopsLabel(c, r, executed, buy, sell, a, b, quo);
    }
    if forall a, b :: !TermsKnown(c, buy, sell, a, b) {
      var t, u := TermsFor(c.terms, buy.BookKey()), TermsFor(c.terms, sell.BookKey());
      assert t.Some? && u.Some? ==> !TermsKnown(c, buy, sell, t.value, u.value);
    }
  }

  // ----- When a route is executable -----

  /** All that has to hold for a route to be executed with these terms, and nothing else. */
  ghost predicate Cleared(c: Scene, r: RiskState, executed: set<OpportunityId>, buy: OrderBook, sell: OrderBook,
                          a: TermsSnapshot, b: TermsSnapshot, quo: Quotient)
  {
    && TermsKnown(c, buy, sell, a, b)
    && buy.asks != [] && sell.bids != [] && buy.asks[0].price < sell.bids[0].price
    && Held(c.ledger, buy.exchange, buy.market.quote) > 0.0 && Held(c.ledger, sell.exchange, buy.market.base) > 0.0
    && BothStepped(c.samples, buy, sell)
    && KnownFee(a, buy.market.base) && KnownFee(b, buy.market.quote)
    && var bps := LargerStep(c.samples, buy, sell, quo);
       var d := Selected(c, buy, sell, a, b, bps, quo).depth;
       && d.base > 0.0 && MinimumsMet(d, a, b)
       && Left(d, a, b, bps, TransferCost(d, buy.market, a, b, quo), quo) > 0.0
       && Acceptable(r, Asked(c, buy, sell, a, bps, d, quo))
       && IdOf(buy, sell) !in executed
  }

  /** A size is only ever found past the balance gate. */
  lemma SizeIsFunded(asks: seq<PriceLevel>, bids: seq<PriceLevel>, w: Wallets, quo: Quotient)
    requires asks != [] && BestNetDepth(asks, bids, w, quo).depth.base > 0.0
    ensures Funded(w.quote, w.base, asks[0].price, w.buyFee, quo)
  {
    DepthMeansSize(asks, bids, w, quo);
    Chosen(NO_SELECTION, Visits(NOTHING, Merge(asks, bids), w, quo), w, quo);
    FirstStepFunded(asks, bids, w, quo);
  }

  lemma {:induction false} FirstStepFunded(asks: seq<PriceLevel>, bids: seq<PriceLevel>, w: Wallets, quo: Quotient)
    requires asks != [] && Visits(NOTHING, Merge(asks, bids), w, quo) != []
    ensures Funded(w.quote, w.base, asks[0].price, w.buyFee, quo)
  {
    hide Funded, RemainingQuoteBaseSize;
    TopBuys(w.quote, asks[0].price, w.buyFee, quo);
    assert StepSize(NOTHING, Merge(asks, bids)[0], w, quo) > 0.0 && Merge(asks, bids)[0].ask == asks[0].price;
    TopFunded(w.quote, w.base, asks[0].price, w.buyFee, quo);
  }

  lemma TopBuys(quote: real, ask: real, fee: real, quo: Quotient)
    ensures
      var bought := RemainingQuoteBaseSize(quote, 0.0, ask, fee, quo);
      bought.Some? ==> bought.value == Buys(quote, ask, fee, quo) > 0.0
                       && quote > 0.0 && ask > 0.0 && ask * (1.0 + fee) > 0.0
  {
    WholeWallet(quote, fee);
    TopUnit(quote, ask, fee, quo);
    hide RemainingQuoteBalance, WithFee;
    var remaining := RemainingQuoteBalance(quote, 0.0, fee);
    if remaining.Some? {
      assert quo(remaining.value, WithFee(ask, fee)) == quo(quote, WithFee(ask, fee));
    }
  }

  lemma WholeWallet(quote: real, fee: real)
    ensures RemainingQuoteBalance(quote, 0.0, fee) == if quote > 0.0 then Some(quote) else None
  {
    assert WithFee(0.0, fee) == 0.0;
    assert quote - WithFee(0.0, fee) == quote;
  }

  lemma TopFunded(quote: real, base: real, ask: real, fee: real, quo: Quotient)
    requires quote > 0.0 && base > 0.0 && ask > 0.0 && ask * (1.0 + fee) > 0.0 && Buys(quote, ask, fee, quo) > 0.0
    ensures Funded(quote, base, ask, fee, quo)
  {
  }

  /** A route is executable exactly when it is cleared. */
  lemma ExecutableIff(c: Scene, r: RiskState, executed: set<OpportunityId>, buy: OrderBook, sell: OrderBook,
                      quo: Quotient)
    ensures
      Answered(ScoreRoute(c, buy, sell, quo), r, executed).decision == Execute
      <==> exists a, b :: Cleared(c, r, executed, buy, sell, a, b, quo)
  {
    hide ScoreRoute, Answered, TermsKnown, Held, BothStepped, LargerStep, Selected, Left, Acceptable, Asked, IdOf, KnownFee,
         TransferCost, MinimumsMet, Funded, Priced, PricedAtTops, Unpriced;
    RouteLabel(c, r, executed, buy, sell, quo);
    var o := Answered(ScoreRoute(c, buy, sell, quo), r, executed);
    forall a, b | TermsKnown(c, buy, sell, a, b)
      ensures o.decision == Execute <==> Cleared(c, r, executed, buy, sell, a, b, quo)
    {
      ClearedIff(c, r, executed, buy, sell, a, b, o, quo);
    }
  }

  lemma ClearedIff(c: Scene, r: RiskState, executed: set<OpportunityId>, buy: OrderBook, sell: OrderBook,
                   a: TermsSnapshot, b: TermsSnapshot, o: Opportunity, quo: Quotient)
    requires TermsKnown(c, buy, sell, a, b) && RouteRow(c, r, executed, buy, sell, o, quo)
    ensures o.decision == Execute <==> Cleared(c, r, executed, buy, sell, a, b, quo)
  {
    hide TermsKnown, Held, BothStepped, LargerStep, BestNetDepth, Left, Acceptable, Asked, IdOf, KnownFee,
         TransferCost, MinimumsMet, Funded, Priced, PricedAtTops, Unpriced;
    if buy.asks != [] && sell.bids != [] && BothStepped(c.samples, buy, sell) {
      var bps := LargerStep(c.samples, buy, sell, quo);
      if Selected(c, buy, sell, a, b, bps, quo).depth.base > 0.0 {
        SelectedFunded(c, buy, sell, a, b, bps, quo);
      }
    }
  }

  lemma SelectedFunded(c: Scene, buy: OrderBook, sell: OrderBook, a: TermsSnapshot, b: TermsSnapshot, bps: real,
                       quo: Quotient)
    requires buy.asks != [] && Selected(c, buy, sell, a, b, bps, quo).depth.base > 0.0
    ensures
      var quote, base := Held(c.ledger, buy.exchange, buy.market.quote), Held(c.ledger, sell.exchange, buy.market.base);
      quote > 0.0 && base > 0.0 && Funded(quote, base, buy.asks[0].price, a.takerRate, quo)
  {
    hide Held, BestNetDepth;
    var quote, base := Held(c.ledger, buy.exchange, buy.market.quote), Held(c.ledger, sell.exchange, buy.market.base);
    SizeIsFunded(buy.asks, sell.bids,
                 Wallets(quote, base, a.takerRate, b.takerRate, bps,
                         if a.minBase >= b.minBase then a.minBase else b.minBase,
                         if a.minNotional >= b.minNotional then a.minNotional else b.minNotional), quo);
  }

  /** On well-formed books with crossed tops and two funded wallets there always is a size. */
  lemma FundedHasSize(c: Scene, buy: OrderBook, sell: OrderBook, a: TermsSnapshot, b: TermsSnapshot, bps: real,
                      quo: Quotient)
    requires WellFormed(buy) && WellFormed(sell) && Exact(quo) && a.takerRate >= 0.0
    requires buy.asks != [] && sell.bids != [] && buy.asks[0].price < sell.bids[0].price
    requires Held(c.ledger, buy.exchange, buy.market.quote) > 0.0 && Held(c.ledger, sell.exchange, buy.market.base) > 0.0
    ensures Selected(c, buy, sell, a, b, bps, quo).depth.base > 0.0
  {
    var quote, base := Held(c.ledger, buy.exchange, buy.market.quote), Held(c.ledger, sell.exchange, buy.market.base);
    var w := Wallets(quote, base, a.takerRate, b.takerRate, bps,
                     if a.minBase >= b.minBase then a.minBase else b.minBase,
                     if a.minNotional >= b.minNotional then a.minNotional else b.minNotional);
    SidesPositive(buy.asks, buy.bids);
    SidesPositive(sell.asks, sell.bids);
    hide Held, BestNetDepth, AskSide, BidSide, Exact, Positive;
    CrossedHasSize(buy.asks, sell.bids, w, quo);
  }

  lemma CrossedHasSize(asks: seq<PriceLevel>, bids: seq<PriceLevel>, w: Wallets, quo: Quotient)
    requires Positive(asks) && Positive(bids) && Exact(quo) && w.buyFee >= 0.0 && w.quote > 0.0 && w.base > 0.0
    requires asks != [] && bids != [] && asks[0].price < bids[0].price
    ensures BestNetDepth(asks, bids, w, quo).depth.base > 0.0
  {
    assert asks[0].price > 0.0;
    hide *;
    QuotientPositive(w.quote, asks[0].price, w.buyFee, quo);
    HasDepthWhen(asks, bids, w, quo);
    DepthMeansSize(asks, bids, w, quo);
  }

  lemma QuotientPositive(quote: real, ask: real, fee: real, quo: Quotient)
    requires Exact(quo) && quote > 0.0 && ask > 0.0 && fee >= 0.0
    ensures quo(quote, WithFee(ask, fee)) > 0.0
  {
    TopUnit(quote, ask, fee, quo);
    MulStrict(0.0, ask, 1.0 + fee);
    var unit := ask * (1.0 + fee);
    assert ExactAt(quo, quote, unit);
    assert quote / unit * unit == quote;
    if quote / unit <= 0.0 {
      MulMonotone(quote / unit, 0.0, unit);
    }
  }
}
