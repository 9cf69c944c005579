/** Why the best breakpoint is the best size.  Net profit is linear between breakpoints, book order
    beats every other allocation, and past the crossing point every further unit loses money. */
module Optimality {
  import opened Arithmetic
  import opened Exchange
  import opened Depth
  import opened DepthTheorems
  import opened Allocations
  import opened Sizing
  import opened Wrappers

  /** Fee rates below one and penalties that are not subsidies. */
  ghost predicate Rates(w: Wallets, quo: Quotient) {
    0.0 <= w.buyFee && 0.0 <= w.sellFee <= 1.0 && 0.0 <= quo(w.latencyBps, 10000.0)
  }

  /** The wallets can pay for this depth, its cost with the buy-side fee on top. */
  ghost predicate Affordable(d: DepthResult, w: Wallets) {
    d.base <= w.base && d.buyNotional + d.buyNotional * w.buyFee <= w.quote
  }

  /** Net profit of one more unit at these prices. */
  ghost function Margin(ask: real, bid: real, w: Wallets, quo: Quotient): real {
    bid - ask - (ask * w.buyFee + bid * w.sellFee) - ask * LatencyRate(w, quo)
  }

  lemma NetAdd(d: DepthResult, size: real, ask: real, bid: real, w: Wallets, quo: Quotient)
    ensures Net(d.Add(size, ask, bid), w, quo) == Net(d, w, quo) + size * Margin(ask, bid, w, quo)
  {
    var f, g, r := w.buyFee, w.sellFee, LatencyRate(w, quo);
    Distribute(d.buyNotional, size * ask, f);
    Distribute(d.sellNotional, size * bid, g);
    Distribute(d.buyNotional, size * ask, r);
    assert size * Margin(ask, bid, w, quo)
        == size * bid - size * ask - (size * ask * f + size * bid * g) - size * ask * r;
  }

  /** Net profit grows with revenue and falls with cost. */
  lemma NetMonotone(d: DepthResult, e: DepthResult, w: Wallets, quo: Quotient)
    requires Rates(w, quo) && e.buyNotional <= d.buyNotional && d.sellNotional <= e.sellNotional
    ensures Net(d, w, quo) <= Net(e, w, quo)
  {
    hide *;
    NetForm(d, w, quo);
    NetForm(e, w, quo);
    RatesWithin(w, quo);
    NetOrder(d.sellNotional, e.sellNotional, 1.0 - w.sellFee, d.buyNotional, e.buyNotional, w.buyFee, LatencyRate(w, quo));
  }

  lemma RatesWithin(w: Wallets, quo: Quotient)
    requires Rates(w, quo)
    ensures 0.0 <= w.buyFee && 0.0 <= 1.0 - w.sellFee && 0.0 <= LatencyRate(w, quo)
  {
  }

  /** More revenue and less cost leave more, after a share of the one and two charges on the other. */
  lemma NetOrder(revenue: real, revenue': real, share: real, cost: real, cost': real, f: real, g: real)
    requires revenue <= revenue' && cost' <= cost && 0.0 <= share && 0.0 <= f && 0.0 <= g
    ensures revenue * share - cost - cost * f - cost * g <= revenue' * share - cost' - cost' * f - cost' * g
  {
    MulMonotone(revenue, revenue', share);
    MulMonotone(cost', cost, f);
    MulMonotone(cost', cost, g);
  }

  lemma NetForm(d: DepthResult, w: Wallets, quo: Quotient)
    ensures Net(d, w, quo) == d.sellNotional * (1.0 - w.sellFee) - d.buyNotional - d.buyNotional * w.buyFee
                              - d.buyNotional * LatencyRate(w, quo)
  {
    OneMinus(d.sellNotional, w.sellFee);
  }

  lemma OneMinus(a: real, g: real)
    ensures a * (1.0 - g) == a - a * g
  {
  }

  /** A unit that is not crossed never gains. */
  lemma UncrossedLoses(ask: real, bid: real, w: Wallets, quo: Quotient)
    requires Rates(w, quo) && 0.0 <= bid <= ask
    ensures Margin(ask, bid, w, quo) <= 0.0
  {
    MulMonotone(0.0, ask, w.buyFee);
    MulMonotone(0.0, bid, w.sellFee);
    MulMonotone(0.0, ask, LatencyRate(w, quo));
  }

  // ----- One step of the walk -----

  lemma ConsumeSides(asks: seq<PriceLevel>, bids: seq<PriceLevel>, m: real)
    requires AskSide(asks) && BidSide(bids) && asks != [] && bids != []
    requires 0.0 < m <= asks[0].quantity && m <= bids[0].quantity
    ensures AskSide(Consume(asks, m)) && BidSide(Consume(bids, m))
  {
    ConsumeAsks(asks, m);
    ConsumeBids(bids, m);
  }

  lemma ConsumeAsks(asks: seq<PriceLevel>, m: real)
    requires AskSide(asks) && asks != [] && 0.0 < m <= asks[0].quantity
    ensures AskSide(Consume(asks, m))
  {
    ConsumePositive(asks, m);
  }

  lemma ConsumeBids(bids: seq<PriceLevel>, m: real)
    requires BidSide(bids) && bids != [] && 0.0 < m <= bids[0].quantity
    ensures BidSide(Consume(bids, m))
  {
    ConsumePositive(bids, m);
  }

  lemma PayableStep(d: DepthResult, w: Wallets, ask: real, y: real, cost: real)
    requires WithFee(d.buyNotional + cost, w.buyFee) <= w.quote
    requires y > 0.0 && ask > 0.0 && cost >= y * ask && w.buyFee >= 0.0
    requires d.buyNotional >= 0.0
    ensures
      var left := w.quote - WithFee(d.buyNotional, w.buyFee);
      WithFee(ask, w.buyFee) > 0.0 && w.quote > 0.0 && left > 0.0 && left / (WithFee(ask, w.buyFee)) >= y
  {
    var rate := 1.0 + w.buyFee;
    var unit := ask * rate;
    Distribute(d.buyNotional, cost, rate);
    MulMonotone(y * ask, cost, rate);
    MulMonotone(0.0, d.buyNotional, rate);
    MulStrict(0.0, ask, rate);
    MulStrict(0.0, y, unit);
    assert y * ask * rate == y * unit;
    DivideAtLeast(w.quote - d.buyNotional * rate, unit, y);
  }

  lemma {:induction false} PayableAfter(d: DepthResult, asks: seq<PriceLevel>, bids: seq<PriceLevel>, y: real,
                                        w: Wallets)
    requires asks != [] && asks[0].price > 0.0 && w.buyFee >= 0.0 && d.buyNotional >= 0.0
    requires 0.0 < y && Notional(asks, y) >= y * asks[0].price && Affordable(After(d, asks, bids, y), w)
    ensures
      var left, unit := w.quote - WithFee(d.buyNotional, w.buyFee), WithFee(asks[0].price, w.buyFee);
      unit > 0.0 && w.quote > 0.0 && left > 0.0 && left / unit >= y
  {
    PayableStep(d, w, asks[0].price, y, Notional(asks, y));
  }

  lemma DivideAtLeast(a: real, b: real, y: real)
    requires b > 0.0 && a >= y * b
    ensures a / b >= y
  {
    assert a / b * b == a;
    if a / b < y {
      MulStrict(a / b, y, b);
    }
  }

  /** When the wallets pay for `y` more, the next step takes all of `y` or all of the stretch. */
  lemma {:induction false} StepCovers(d: DepthResult, asks: seq<PriceLevel>, bids: seq<PriceLevel>, y: real,
                                      w: Wallets, quo: Quotient)
    requires AskSide(asks) && BidSide(bids) && Exact(quo) && w.buyFee >= 0.0
    requires d.base >= 0.0 && d.buyNotional >= 0.0 && Merge(asks, bids) != []
    requires 0.0 < y <= Total(asks) && y <= Total(bids) && Affordable(After(d, asks, bids, y), w)
    ensures
      var size := StepSize(d, Merge(asks, bids)[0], w, quo);
      0.0 < size && (y <= size || size == Merge(asks, bids)[0].size)
  {
    TopOfBook(asks, bids, y);
    PayableAfter(d, asks, bids, y, w);
    MergePositive(asks, bids);
    StepTakes(d, Merge(asks, bids)[0], y, w, quo);
  }

  lemma StepTakes(d: DepthResult, s: Segment, y: real, w: Wallets, quo: Quotient)
    requires Exact(quo) && y > 0.0 && d.base >= 0.0 && s.size > 0.0 && s.ask > 0.0 && WithFee(s.ask, w.buyFee) > 0.0
    requires w.base - d.base >= y && w.quote > 0.0 && w.quote - WithFee(d.buyNotional, w.buyFee) > 0.0
    requires (w.quote - WithFee(d.buyNotional, w.buyFee)) / (WithFee(s.ask, w.buyFee)) >= y
    ensures 0.0 < StepSize(d, s, w, quo) && (y <= StepSize(d, s, w, quo) || StepSize(d, s, w, quo) == s.size)
  {
    var left, unit := w.quote - WithFee(d.buyNotional, w.buyFee), WithFee(s.ask, w.buyFee);
    assert ExactAt(quo, left, unit);
    assert RemainingQuoteBaseSize(w.quote, d.buyNotional, s.ask, w.buyFee, quo) == Some(quo(left, unit));
    assert RemainingBalance(w.base, d.base) == Some(w.base - d.base);
  }

  /** The head of the breakpoints, and the walk they come from after it. */
  lemma {:induction false} VisitsHead(d: DepthResult, asks: seq<PriceLevel>, bids: seq<PriceLevel>, w: Wallets,
                                      quo: Quotient)
    requires Merge(asks, bids) != [] && StepSize(d, Merge(asks, bids)[0], w, quo) > 0.0
    ensures
      var s := Merge(asks, bids)[0];
      var size := StepSize(d, s, w, quo);
      var next := d.Add(size, s.ask, s.bid);
      var visits := Visits(d, Merge(asks, bids), w, quo);
      && asks != [] && bids != [] && s.ask == asks[0].price && s.bid == bids[0].price
      && size <= s.size == Min(asks[0].quantity, bids[0].quantity)
      && visits != [] && visits[0] == Visit(next, size < s.size)
      && visits[1..] == (if size < s.size then []
                         else Visits(next, Merge(Consume(asks, s.size), Consume(bids, s.size)), w, quo))
  {
    var s := Merge(asks, bids)[0];
    assert Merge(asks, bids)[1..] == Merge(Consume(asks, s.size), Consume(bids, s.size));
  }

  /** Taking a whole stretch leaves two well-formed ladders, from which the rest of `y` is taken. */
  lemma {:induction false} TakeStretch(d: DepthResult, asks: seq<PriceLevel>, bids: seq<PriceLevel>, size: real,
                                       y: real)
    requires AskSide(asks) && BidSide(bids) && asks != [] && bids != []
    requires 0.0 < size <= asks[0].quantity && size <= bids[0].quantity && size <= y
    ensures AskSide(Consume(asks, size)) && BidSide(Consume(bids, size))
    ensures Total(Consume(asks, size)) == Total(asks) - size && Total(Consume(bids, size)) == Total(bids) - size
    ensures After(d, asks, bids, y)
         == After(d.Add(size, asks[0].price, bids[0].price), Consume(asks, size), Consume(bids, size), y - size)
  {
    ConsumeSides(asks, bids, size);
    ConsumeTotal(asks, size);
    ConsumeTotal(bids, size);
    var rest := y - size;
    assert size + rest == y;
    AfterStep(d, asks, bids, size, rest);
  }

  // ----- The breakpoints as a sequence -----

  ghost predicate Rising(segments: seq<Segment>) {
    forall i | 0 <= i < |segments| :: segments[i].size > 0.0 && segments[i].ask > 0.0
  }

  /** Every breakpoint lies beyond the depth the walk started from. */
  lemma {:induction false} VisitsForward(d: DepthResult, segments: seq<Segment>, w: Wallets, quo: Quotient, v: Visit)
    requires Rising(segments) && v in Visits(d, segments, w, quo)
    ensures v.depth.base > d.base && v.depth.buyNotional > d.buyNotional
    decreases segments
  {
    var s := segments[0];
    var size := StepSize(d, s, w, quo);
    var next := d.Add(size, s.ask, s.bid);
    var visits := Visits(d, segments, w, quo);
    MulStrict(0.0, size, s.ask);
    if v != visits[0] {
      assert visits[1..] == Visits(next, segments[1..], w, quo);
      VisitsForward(next, segments[1..], w, quo, v);
    }
  }

  /** The first breakpoint reads both curves at its own size, and costs something. */
  lemma {:induction false} HeadDepth(d: DepthResult, asks: seq<PriceLevel>, bids: seq<PriceLevel>, w: Wallets,
                                     quo: Quotient)
    requires AskSide(asks) && BidSide(bids) && Visits(d, Merge(asks, bids), w, quo) != []
    ensures Merge(asks, bids) != [] && asks != [] && bids != []
    ensures
      var s, next := Merge(asks, bids)[0], Visits(d, Merge(asks, bids), w, quo)[0].depth;
      var size := next.base - d.base;
      && size == StepSize(d, s, w, quo) && 0.0 < size <= s.size == Min(asks[0].quantity, bids[0].quantity)
      && next == d.Add(size, asks[0].price, bids[0].price)
      && next == After(d, asks, bids, size)
      && next.buyNotional > d.buyNotional
  {
    VisitsHead(d, asks, bids, w, quo);
    var size := StepSize(d, Merge(asks, bids)[0], w, quo);
    AfterWithin(d, asks, bids, size);
    MulStrict(0.0, size, asks[0].price);
  }

  /** The other breakpoints lie beyond the first. */
  lemma {:induction false} TailVisits(d: DepthResult, asks: seq<PriceLevel>, bids: seq<PriceLevel>, w: Wallets,
                                      quo: Quotient, v: Visit)
    requires AskSide(asks) && BidSide(bids) && v in Visits(d, Merge(asks, bids), w, quo)
    ensures
      var visits := Visits(d, Merge(asks, bids), w, quo);
      var next := visits[0].depth;
      v == visits[0]
      || (v.depth.base > next.base && v.depth.buyNotional > next.buyNotional && v in visits[1..]
          && next.base - d.base == Merge(asks, bids)[0].size)
  {
    var visits := Visits(d, Merge(asks, bids), w, quo);
    HeadDepth(d, asks, bids, w, quo);
    VisitsHead(d, asks, bids, w, quo);
    var size := Merge(asks, bids)[0].size;
    if v != visits[0] {
      ConsumeSides(asks, bids, size);
      MergePositive(Consume(asks, size), Consume(bids, size));
      VisitsForward(visits[0].depth, Merge(Consume(asks, size), Consume(bids, size)), w, quo, v);
    }
  }

  /** A payable size past the first breakpoint is reached by walking on from that breakpoint. */
  lemma Onward(d: DepthResult, asks: seq<PriceLevel>, bids: seq<PriceLevel>, y: real, w: Wallets, quo: Quotient)
    requires AskSide(asks) && BidSide(bids) && Exact(quo) && Rates(w, quo)
    requires d.base >= 0.0 && d.buyNotional >= 0.0 && Merge(asks, bids) != []
    requires 0.0 < y <= Total(asks) && y <= Total(bids) && Affordable(After(d, asks, bids, y), w)
    ensures asks != [] && bids != [] && Visits(d, Merge(asks, bids), w, quo) != []
    ensures
      var visits := Visits(d, Merge(asks, bids), w, quo);
      var next := visits[0].depth;
      var size := next.base - d.base;
      && visits[0] in visits && size > 0.0 && next.buyNotional > d.buyNotional
      && next == After(d, asks, bids, size)
      && (y > size ==>
            var asks', bids' := Consume(asks, size), Consume(bids, size);
            && AskSide(asks') && BidSide(bids') && |asks'| + |bids'| < |asks| + |bids|
            && y - size <= Total(asks') && y - size <= Total(bids')
            && After(d, asks, bids, y) == After(next, asks', bids', y - size)
            && visits[1..] == Visits(next, Merge(asks', bids'), w, quo)
            && Volume(Merge(asks, bids)) == size + Volume(Merge(asks', bids')))
  {
    hide *;
    RatesWithin(w, quo);
    StepCovers(d, asks, bids, y, w, quo);
    VisitsHead(d, asks, bids, w, quo);
    HeadDepth(d, asks, bids, w, quo);
    var size := StepSize(d, Merge(asks, bids)[0], w, quo);
    if y > size {
      TakeWhole(d, asks, bids, size, y, w, quo);
    }
  }

  lemma {:induction false} TakeWhole(d: DepthResult, asks: seq<PriceLevel>, bids: seq<PriceLevel>, size: real,
                                     y: real, w: Wallets, quo: Quotient)
    requires AskSide(asks) && BidSide(bids) && Merge(asks, bids) != [] && size == Merge(asks, bids)[0].size < y
    ensures asks != [] && bids != []
    ensures
      var next := d.Add(size, asks[0].price, bids[0].price);
      var asks', bids' := Consume(asks, size), Consume(bids, size);
      && AskSide(asks') && BidSide(bids') && |asks'| + |bids'| < |asks| + |bids|
      && Total(asks') == Total(asks) - size && Total(bids') == Total(bids) - size
      && After(d, asks, bids, y) == After(next, asks', bids', y - size)
      && Volume(Merge(asks, bids)) == size + Volume(Merge(asks', bids'))
  {
    TakeStretch(d, asks, bids, size, y);
    assert Merge(asks, bids)[1..] == Merge(Consume(asks, size), Consume(bids, size));
  }

  // ----- Breakpoints bound everything affordable -----

  ghost predicate Bounded(visits: seq<Visit>, w: Wallets, quo: Quotient, bound: real) {
    forall v | v in visits :: Net(v.depth, w, quo) <= bound
  }

  lemma BoundedParts(visits: seq<Visit>, w: Wallets, quo: Quotient, bound: real)
    requires Bounded(visits, w, quo, bound) && visits != []
    ensures Net(visits[0].depth, w, quo) <= bound && Bounded(visits[1..], w, quo, bound)
  {
  }

  lemma {:induction false} VisitsBound(d: DepthResult, asks: seq<PriceLevel>, bids: seq<PriceLevel>, y: real,
                                       w: Wallets, quo: Quotient, bound: real)
    requires AskSide(asks) && BidSide(bids) && Exact(quo) && Rates(w, quo)
    requires d.base >= 0.0 && d.buyNotional >= 0.0
    requires 0.0 <= y <= Total(asks) && y <= Total(bids) && Affordable(After(d, asks, bids, y), w)
    requires Net(d, w, quo) <= bound && Bounded(Visits(d, Merge(asks, bids), w, quo), w, quo, bound)
    ensures Net(After(d, asks, bids, y), w, quo) <= bound
    decreases |asks| + |bids|
  {
    hide *;
    if y == 0.0 {
      AtStart(d, asks, bids);
    } else if Merge(asks, bids) == [] {
      PastCrossing(d, asks, bids, y, w, quo);
    } else {
      Onward(d, asks, bids, y, w, quo);
      var visits := Visits(d, Merge(asks, bids), w, quo);
      var next := visits[0].depth;
      var size := next.base - d.base;
      BoundedParts(visits, w, quo, bound);
      if y <= size {
        WithinHead(d, asks, bids, y, w, quo, bound);
      } else {
        VisitsBound(next, Consume(asks, size), Consume(bids, size), y - size, w, quo, bound);
      }
    }
  }

  lemma AtStart(d: DepthResult, asks: seq<PriceLevel>, bids: seq<PriceLevel>)
    requires AskSide(asks) && BidSide(bids)
    ensures After(d, asks, bids, 0.0) == d
  {
    AfterNothing(d, asks, bids);
  }

  lemma {:induction false} WithinHead(d: DepthResult, asks: seq<PriceLevel>, bids: seq<PriceLevel>, y: real,
                                      w: Wallets, quo: Quotient, bound: real)
    requires AskSide(asks) && BidSide(bids) && Visits(d, Merge(asks, bids), w, quo) != []
    requires 0.0 <= y <= Visits(d, Merge(asks, bids), w, quo)[0].depth.base - d.base
    requires Net(d, w, quo) <= bound && Net(Visits(d, Merge(asks, bids), w, quo)[0].depth, w, quo) <= bound
    ensures Net(After(d, asks, bids, y), w, quo) <= bound
  {
    HeadDepth(d, asks, bids, w, quo);
    AfterWithin(d, asks, bids, y);
    hide *;
    var size := Visits(d, Merge(asks, bids), w, quo)[0].depth.base - d.base;
    WithinStretch(d, y, size, asks[0].price, bids[0].price, w, quo, bound);
  }

  lemma WithinStretch(d: DepthResult, y: real, size: real, ask: real, bid: real, w: Wallets, quo: Quotient, bound: real)
    requires 0.0 <= y <= size && Net(d, w, quo) <= bound && Net(d.Add(size, ask, bid), w, quo) <= bound
    ensures Net(d.Add(y, ask, bid), w, quo) <= bound
  {
    hide *;
    NetAdd(d, y, ask, bid, w, quo);
    NetAdd(d, size, ask, bid, w, quo);
    Between(y, size, Margin(ask, bid, w, quo));
  }

  lemma Between(y: real, size: real, k: real)
    requires 0.0 <= y <= size
    ensures y * k <= 0.0 || y * k <= size * k
  {
    if k >= 0.0 {
      MulMonotone(y, size, k);
    } else {
      MulMonotone(0.0, y, -k);
    }
  }

  lemma {:induction false} PastCrossing(d: DepthResult, asks: seq<PriceLevel>, bids: seq<PriceLevel>, y: real,
                                        w: Wallets, quo: Quotient)
    requires AskSide(asks) && BidSide(bids) && Rates(w, quo) && Merge(asks, bids) == []
    requires 0.0 <= y <= Total(asks) && y <= Total(bids)
    ensures Net(After(d, asks, bids, y), w, quo) <= Net(d, w, quo)
  {
    if asks == [] || bids == [] {
      AfterNothing(d, asks, bids);
    } else {
      TopOfBook(asks, bids, y);
      UncrossedPrices(asks, bids);
      hide *;
      UncrossedSize(d, asks, bids, y, w, quo);
    }
  }

  lemma {:induction false} UncrossedPrices(asks: seq<PriceLevel>, bids: seq<PriceLevel>)
    requires AskSide(asks) && BidSide(bids) && Merge(asks, bids) == [] && asks != [] && bids != []
    ensures 0.0 <= bids[0].price <= asks[0].price
  {
  }

  lemma {:induction false} UncrossedSize(d: DepthResult, asks: seq<PriceLevel>, bids: seq<PriceLevel>, y: real,
                                         w: Wallets, quo: Quotient)
    requires asks != [] && bids != [] && 0.0 <= bids[0].price <= asks[0].price && Rates(w, quo) && 0.0 <= y
    requires Notional(asks, y) >= y * asks[0].price && Notional(bids, y) <= y * bids[0].price
    ensures Net(After(d, asks, bids, y), w, quo) <= Net(d, w, quo)
  {
    var ask, bid := asks[0].price, bids[0].price;
    UncrossedLoses(ask, bid, w, quo);
    AfterWorse(d, asks, bids, y);
    hide *;
    NetMonotone(After(d, asks, bids, y), d.Add(y, ask, bid), w, quo);
    StepDeclines(d, y, ask, bid, w, quo);
  }

  lemma {:induction false} AfterWorse(d: DepthResult, asks: seq<PriceLevel>, bids: seq<PriceLevel>, y: real)
    requires asks != [] && bids != []
    requires Notional(asks, y) >= y * asks[0].price && Notional(bids, y) <= y * bids[0].price
    ensures After(d, asks, bids, y).buyNotional >= d.Add(y, asks[0].price, bids[0].price).buyNotional
    ensures After(d, asks, bids, y).sellNotional <= d.Add(y, asks[0].price, bids[0].price).sellNotional
  {
    hide Notional;
  }

  lemma StepDeclines(d: DepthResult, size: real, ask: real, bid: real, w: Wallets, quo: Quotient)
    requires size >= 0.0 && Margin(ask, bid, w, quo) <= 0.0
    ensures Net(d.Add(size, ask, bid), w, quo) <= Net(d, w, quo)
  {
    hide *;
    NetAdd(d, size, ask, bid, w, quo);
    Falling(size, Margin(ask, bid, w, quo));
  }

  lemma Falling(size: real, k: real)
    requires size >= 0.0 && k <= 0.0
    ensures size * k <= 0.0
  {
  }

  // ----- What the selection keeps -----

  /** The selection is the first breakpoint of greatest net profit among those that meet the
      minimums, or the first breakpoint when none does. */
  lemma {:induction false} Chosen(best: Selection, visits: seq<Visit>, w: Wallets, quo: Quotient)
    requires best.meetsMinimum ==> best.hasDepth
    ensures
      var r := Choose(best, visits, w, quo);
      && (r == best || exists v | v in visits :: r == Candidate(v, w, quo))
      && (r.hasDepth <==> best.hasDepth || visits != [])
      && (r.meetsMinimum <==> best.meetsMinimum || exists v | v in visits :: MeetsMinimum(v.depth, w))
      && (best.meetsMinimum ==> best.net <= r.net)
      && (forall v | v in visits && MeetsMinimum(v.depth, w) :: Net(v.depth, w, quo) <= r.net)
      && (!r.meetsMinimum && best.hasDepth ==> r == best)
      && (!r.meetsMinimum && !best.hasDepth && visits != [] ==> r == Candidate(visits[0], w, quo))
    decreases visits
  {
    if visits != [] {
      var kept := Better(best, Candidate(visits[0], w, quo));
      Chosen(kept, visits[1..], w, quo);
      assert forall v | v in visits :: v == visits[0] || v in visits[1..];
      assert forall v | v in visits[1..] :: v in visits;
      assert visits[0] in visits;
    }
  }

  /** Breakpoint `i` is the first of those that meet the minimums and net the most. */
  ghost predicate FirstBest(visits: seq<Visit>, i: nat, w: Wallets, quo: Quotient) {
    && i < |visits| && MeetsMinimum(visits[i].depth, w)
    && (forall j | 0 <= j < i && MeetsMinimum(visits[j].depth, w) ::
          Net(visits[j].depth, w, quo) < Net(visits[i].depth, w, quo))
    && forall j | i <= j < |visits| && MeetsMinimum(visits[j].depth, w) ::
         Net(visits[j].depth, w, quo) <= Net(visits[i].depth, w, quo)
  }

  /** Of breakpoints with the same net profit the smallest size wins: a later one has to net more. */
  lemma {:induction false} ChosenIsFirst(best: Selection, visits: seq<Visit>, w: Wallets, quo: Quotient)
    returns (i: nat)
    requires (exists v | v in visits :: MeetsMinimum(v.depth, w)) && (best.meetsMinimum ==> best.hasDepth)
    ensures i < |visits| && FirstBest(visits, i, w, quo)
    ensures
      var r := Choose(best, visits, w, quo);
      r == (if best.meetsMinimum && best.net >= Net(visits[i].depth, w, quo) then best else Candidate(visits[i], w, quo))
    decreases visits
  {
    hide Net, MeetsMinimum, FirstBest;
    var head, rest := visits[0], visits[1..];
    var kept := Better(best, Candidate(head, w, quo));
    assert forall v | v in visits :: v == head || v in rest;
    if exists v :: v in rest && MeetsMinimum(v.depth, w) {
      var k := ChosenIsFirst(kept, rest, w, quo);
      i := if MeetsMinimum(head.depth, w) && Net(head.depth, w, quo) >= Net(rest[k].depth, w, quo) then 0 else k + 1;
      FirstOnward(visits, k, i, w, quo);
      assert visits[k + 1] == rest[k];
    } else {
      i := 0;
      NoneMeets(kept, rest, w, quo);
      FirstAlone(visits, w, quo);
    }
  }

  lemma FirstOnward(visits: seq<Visit>, k: nat, i: nat, w: Wallets, quo: Quotient)
    requires visits != [] && FirstBest(visits[1..], k, w, quo)
    requires
      var head, later := visits[0].depth, visits[1..][k].depth;
      i == if MeetsMinimum(head, w) && Net(head, w, quo) >= Net(later, w, quo) then 0 else k + 1
    ensures FirstBest(visits, i, w, quo)
  {
    hide Net, MeetsMinimum;
    var rest := visits[1..];
    forall j | 0 < j < |visits| && MeetsMinimum(visits[j].depth, w)
      ensures Net(visits[j].depth, w, quo) <= Net(rest[k].depth, w, quo)
      ensures j < k + 1 ==> Net(visits[j].depth, w, quo) < Net(rest[k].depth, w, quo)
    {
      assert visits[j] == rest[j - 1];
    }
  }

  lemma FirstAlone(visits: seq<Visit>, w: Wallets, quo: Quotient)
    requires visits != [] && MeetsMinimum(visits[0].depth, w)
    requires forall v | v in visits[1..] :: !MeetsMinimum(v.depth, w)
    ensures FirstBest(visits, 0, w, quo)
  {
    hide Net, MeetsMinimum;
    forall j | 0 < j < |visits| ensures !MeetsMinimum(visits[j].depth, w) {
      assert visits[j] == visits[1..][j - 1];
    }
  }

  lemma {:induction false} NoneMeets(best: Selection, visits: seq<Visit>, w: Wallets, quo: Quotient)
    requires best.hasDepth && forall v | v in visits :: !MeetsMinimum(v.depth, w)
    ensures Choose(best, visits, w, quo) == best
    decreases visits
  {
    if visits != [] {
      assert visits[0] in visits && forall v | v in visits[1..] :: v in visits;
      NoneMeets(best, visits[1..], w, quo);
    }
  }

  // ----- Main results -----

  /** What an allocation leaves: revenue less cost, a fee on either, and the latency penalty on the cost. */
  ghost function AllocationNet(asks: seq<PriceLevel>, bids: seq<PriceLevel>, buys: seq<real>, sells: seq<real>,
                               w: Wallets, quo: Quotient): real
    requires |buys| == |asks| && |sells| == |bids|
  {
    var cost, revenue := Value(asks, buys), Value(bids, sells);
    revenue - cost - cost * w.buyFee - revenue * w.sellFee - cost * quo(w.latencyBps, 10000.0)
  }

  lemma {:induction false} AllocationNetIs(asks: seq<PriceLevel>, bids: seq<PriceLevel>, buys: seq<real>,
                                           sells: seq<real>, w: Wallets,
                        quo: Quotient)
    requires |buys| == |asks| && |sells| == |bids|
    ensures AllocationNet(asks, bids, buys, sells, w, quo)
         == Net(DepthResult(Sum(buys), Value(asks, buys), Value(bids, sells)), w, quo)
  {
    hide Sum, Value;
  }

  /** No allocation the wallets can pay for, over any levels and past the crossing point too, nets
      more than the selected size, once the market has no minimums. */
  lemma {:induction false} SizingIsOptimal(asks: seq<PriceLevel>, bids: seq<PriceLevel>, buys: seq<real>,
                                           sells: seq<real>,
                        w: Wallets, quo: Quotient)
    requires AskSide(asks) && BidSide(bids) && Exact(quo) && Rates(w, quo)
    requires w.minBase <= 0.0 && w.minNotional <= 0.0
    requires Allocation(asks, buys) && Allocation(bids, sells) && Sum(buys) == Sum(sells)
    requires Sum(buys) <= w.base && Value(asks, buys) + Value(asks, buys) * w.buyFee <= w.quote
    ensures AllocationNet(asks, bids, buys, sells, w, quo) <= Max(0.0, BestNetDepth(asks, bids, w, quo).net)
  {
    AllocationOnCurve(asks, bids, buys, sells, w, quo);
    AffordableSizeBound(asks, bids, Sum(buys), w, quo);
  }

  /** Filling as much in book order is payable whenever the allocation is, and nets no less. */
  lemma {:induction false} AllocationOnCurve(asks: seq<PriceLevel>, bids: seq<PriceLevel>, buys: seq<real>,
                                             sells: seq<real>,
                          w: Wallets, quo: Quotient)
    requires AskSide(asks) && BidSide(bids) && Rates(w, quo)
    requires Allocation(asks, buys) && Allocation(bids, sells) && Sum(buys) == Sum(sells)
    requires Sum(buys) <= w.base && Value(asks, buys) + Value(asks, buys) * w.buyFee <= w.quote
    ensures 0.0 <= Sum(buys) <= Total(asks) && Sum(buys) <= Total(bids)
    ensures Affordable(DepthAt(asks, bids, Sum(buys)), w)
    ensures AllocationNet(asks, bids, buys, sells, w, quo) <= Net(DepthAt(asks, bids, Sum(buys)), w, quo)
  {
    hide Net, WithFee, Notional, Total, LatencyRate, AllocationNet;
    AllocationNetIs(asks, bids, buys, sells, w, quo);
    var x := Sum(buys);
    SumWithin(asks, buys);
    SumWithin(bids, sells);
    BookOrderIsCheapest(asks, buys);
    BookOrderIsDearest(bids, sells);
    var d := DepthResult(x, Value(asks, buys), Value(bids, sells));
    AffordableDown(d, DepthAt(asks, bids, x), w);
    NetMonotone(d, DepthAt(asks, bids, x), w, quo);
  }

  lemma AffordableDown(d: DepthResult, e: DepthResult, w: Wallets)
    requires Affordable(d, w) && w.buyFee >= 0.0 && e.base <= d.base && e.buyNotional <= d.buyNotional
    ensures Affordable(e, w)
  {
    MulMonotone(e.buyNotional, d.buyNotional, 1.0 + w.buyFee);
    assert WithFee(e.buyNotional, w.buyFee) <= WithFee(d.buyNotional, w.buyFee);
  }

  lemma {:induction false} AffordableSizeBound(asks: seq<PriceLevel>, bids: seq<PriceLevel>, x: real, w: Wallets,
                                               quo: Quotient)
    requires AskSide(asks) && BidSide(bids) && Exact(quo) && Rates(w, quo)
    requires w.minBase <= 0.0 && w.minNotional <= 0.0
    requires 0.0 <= x <= Total(asks) && x <= Total(bids) && Affordable(DepthAt(asks, bids, x), w)
    ensures Net(DepthAt(asks, bids, x), w, quo) <= Max(0.0, BestNetDepth(asks, bids, w, quo).net)
  {
    BreakpointsBelow(asks, bids, w, quo);
    NetNothing(w, quo);
    AfterIsDepthAt(asks, bids, x);
    VisitsBound(NOTHING, asks, bids, x, w, quo, Max(0.0, BestNetDepth(asks, bids, w, quo).net));
  }

  lemma NetNothing(w: Wallets, quo: Quotient)
    ensures Net(NOTHING, w, quo) == 0.0
  {
  }

  lemma AfterIsDepthAt(asks: seq<PriceLevel>, bids: seq<PriceLevel>, x: real)
    ensures After(NOTHING, asks, bids, x) == DepthAt(asks, bids, x)
  {
  }

  lemma {:induction false} BreakpointsBelow(asks: seq<PriceLevel>, bids: seq<PriceLevel>, w: Wallets, quo: Quotient)
    requires AskSide(asks) && BidSide(bids) && w.minBase <= 0.0 && w.minNotional <= 0.0
    ensures Bounded(Visits(NOTHING, Merge(asks, bids), w, quo), w, quo, Max(0.0, BestNetDepth(asks, bids, w, quo).net))
  {
    var visits := Visits(NOTHING, Merge(asks, bids), w, quo);
    Chosen(NO_SELECTION, visits, w, quo);
    MergePositive(asks, bids);
    forall v | v in visits ensures MeetsMinimum(v.depth, w) {
      VisitsForward(NOTHING, Merge(asks, bids), w, quo, v);
    }
  }
}
