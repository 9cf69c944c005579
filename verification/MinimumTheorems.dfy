/** Sizing under market minimums. */
module MinimumTheorems {
  import opened Arithmetic
  import opened Exchange
  import opened Depth
  import opened DepthTheorems
  import opened Allocations
  import opened Sizing
  import opened Optimality
  import opened SizingTheorems

  // ----- From the first breakpoint that meets the minimums -----

  ghost predicate MeetingBounded(visits: seq<Visit>, w: Wallets, quo: Quotient, bound: real) {
    forall v | v in visits && MeetsMinimum(v.depth, w) :: Net(v.depth, w, quo) <= bound
  }

  /** The bound on admissible breakpoints, carried past the first one.  Once one is admissible all
      later ones are. */
  lemma {:induction false} MeetingTail(d: DepthResult, asks: seq<PriceLevel>, bids: seq<PriceLevel>, w: Wallets,
                                       quo: Quotient, bound: real)
    requires AskSide(asks) && BidSide(bids) && Visits(d, Merge(asks, bids), w, quo) != []
    requires MeetingBounded(Visits(d, Merge(asks, bids), w, quo), w, quo, bound)
    ensures
      var visits := Visits(d, Merge(asks, bids), w, quo);
      && MeetingBounded(visits[1..], w, quo, bound)
      && (MeetsMinimum(visits[0].depth, w) ==>
            Net(visits[0].depth, w, quo) <= bound && Bounded(visits[1..], w, quo, bound))
  {
    hide Net, Visits;
    var visits := Visits(d, Merge(asks, bids), w, quo);
    forall v | v in visits[1..]
      ensures MeetsMinimum(v.depth, w) ==> Net(v.depth, w, quo) <= bound
      ensures MeetsMinimum(visits[0].depth, w) ==> MeetsMinimum(v.depth, w)
    {
      assert v in visits;
      TailVisits(d, asks, bids, w, quo, v);
    }
    assert visits[0] in visits;
  }

  lemma {:induction false} VisitAhead(d: DepthResult, asks: seq<PriceLevel>, bids: seq<PriceLevel>, w: Wallets,
                                      quo: Quotient, v: Visit)
    requires AskSide(asks) && BidSide(bids) && v in Visits(d, Merge(asks, bids), w, quo)
    ensures Merge(asks, bids) != [] && v.depth.base > d.base
  {
    MergePositive(asks, bids);
    VisitsForward(d, Merge(asks, bids), w, quo, v);
  }

  lemma {:induction false} MinimumBound(d: DepthResult, asks: seq<PriceLevel>, bids: seq<PriceLevel>, y: real,
                                        w: Wallets, quo: Quotient, v: Visit, bound: real)
    requires AskSide(asks) && BidSide(bids) && Exact(quo) && Rates(w, quo)
    requires d.base >= 0.0 && d.buyNotional >= 0.0
    requires 0.0 <= y <= Total(asks) && y <= Total(bids) && Affordable(After(d, asks, bids, y), w)
    requires v in Visits(d, Merge(asks, bids), w, quo) && MeetsMinimum(v.depth, w) && v.depth.base <= d.base + y
    requires MeetingBounded(Visits(d, Merge(asks, bids), w, quo), w, quo, bound)
    ensures Net(After(d, asks, bids, y), w, quo) <= bound
    decreases |asks| + |bids|
  {
    hide *;
    VisitAhead(d, asks, bids, w, quo, v);
    Onward(d, asks, bids, y, w, quo);
    TailVisits(d, asks, bids, w, quo, v);
    MeetingTail(d, asks, bids, w, quo, bound);
    var next := Visits(d, Merge(asks, bids), w, quo)[0].depth;
    var size := next.base - d.base;
    if y > size {
      if MeetsMinimum(next, w) {
        VisitsBound(next, Consume(asks, size), Consume(bids, size), y - size, w, quo, bound);
      } else {
        MinimumBound(next, Consume(asks, size), Consume(bids, size), y - size, w, quo, v, bound);
      }
    }
  }

  /** With minimums in force, the selection nets at least as much as every payable allocation, over
      any levels, of at least the size of some breakpoint that meets the minimums. */
  lemma {:induction false} BestFromFirstMinimum(asks: seq<PriceLevel>, bids: seq<PriceLevel>, buys: seq<real>,
                                                sells: seq<real>,
                             w: Wallets, quo: Quotient, v: Visit)
    requires AskSide(asks) && BidSide(bids) && Exact(quo) && Rates(w, quo)
    requires Allocation(asks, buys) && Allocation(bids, sells) && Sum(buys) == Sum(sells)
    requires Sum(buys) <= w.base && Value(asks, buys) + Value(asks, buys) * w.buyFee <= w.quote
    requires v in Visits(NOTHING, Merge(asks, bids), w, quo) && MeetsMinimum(v.depth, w) && v.depth.base <= Sum(buys)
    ensures BestNetDepth(asks, bids, w, quo).meetsMinimum
    ensures AllocationNet(asks, bids, buys, sells, w, quo) <= BestNetDepth(asks, bids, w, quo).net
  {
    var x := Sum(buys);
    AllocationOnCurve(asks, bids, buys, sells, w, quo);
    SizeFromMinimum(asks, bids, x, w, quo, v);
  }

  lemma {:induction false} SizeFromMinimum(asks: seq<PriceLevel>, bids: seq<PriceLevel>, x: real, w: Wallets,
                                           quo: Quotient, v: Visit)
    requires AskSide(asks) && BidSide(bids) && Exact(quo) && Rates(w, quo)
    requires 0.0 <= x <= Total(asks) && x <= Total(bids) && Affordable(DepthAt(asks, bids, x), w)
    requires v in Visits(NOTHING, Merge(asks, bids), w, quo) && MeetsMinimum(v.depth, w) && v.depth.base <= x
    ensures BestNetDepth(asks, bids, w, quo).meetsMinimum
    ensures Net(DepthAt(asks, bids, x), w, quo) <= BestNetDepth(asks, bids, w, quo).net
  {
    var visits := Visits(NOTHING, Merge(asks, bids), w, quo);
    Chosen(NO_SELECTION, visits, w, quo);
    assert MeetingBounded(visits, w, quo, BestNetDepth(asks, bids, w, quo).net);
    AfterIsDepthAt(asks, bids, x);
    MinimumBound(NOTHING, asks, bids, x, w, quo, v, BestNetDepth(asks, bids, w, quo).net);
  }

  // ----- Net profit is concave along the walk -----

  lemma MarginFalls(ask: real, bid: real, ask': real, bid': real, w: Wallets, quo: Quotient)
    requires Rates(w, quo) && ask <= ask' && bid' <= bid
    ensures Margin(ask', bid', w, quo) <= Margin(ask, bid, w, quo)
  {
    hide *;
    MarginForm(ask, bid, w, quo);
    MarginForm(ask', bid', w, quo);
    RatesWithin(w, quo);
    NetOrder(bid', bid, 1.0 - w.sellFee, ask', ask, w.buyFee, LatencyRate(w, quo));
  }

  lemma MarginForm(ask: real, bid: real, w: Wallets, quo: Quotient)
    ensures Margin(ask, bid, w, quo) == bid * (1.0 - w.sellFee) - ask - ask * w.buyFee - ask * LatencyRate(w, quo)
  {
    OneMinus(bid, w.sellFee);
  }

  ghost predicate TopAfter(asks: seq<PriceLevel>, bids: seq<PriceLevel>, ask: real, bid: real) {
    (asks != [] ==> ask <= asks[0].price) && (bids != [] ==> bids[0].price <= bid)
  }

  lemma ConsumeTop(asks: seq<PriceLevel>, bids: seq<PriceLevel>, size: real)
    requires AskSide(asks) && BidSide(bids) && asks != [] && bids != []
    requires 0.0 < size <= asks[0].quantity && size <= bids[0].quantity
    ensures AskSide(Consume(asks, size)) && BidSide(Consume(bids, size))
    ensures TopAfter(Consume(asks, size), Consume(bids, size), asks[0].price, bids[0].price)
  {
    ConsumeSides(asks, bids, size);
  }

  /** Once a unit no longer gains, no later breakpoint gains either. */
  lemma {:induction false} VisitsDecline(d: DepthResult, asks: seq<PriceLevel>, bids: seq<PriceLevel>,
                                         w: Wallets, quo: Quotient, ask: real, bid: real, v: Visit)
    requires AskSide(asks) && BidSide(bids) && Rates(w, quo) && Margin(ask, bid, w, quo) <= 0.0
    requires TopAfter(asks, bids, ask, bid) && v in Visits(d, Merge(asks, bids), w, quo)
    ensures Net(v.depth, w, quo) <= Net(d, w, quo)
    decreases |asks| + |bids|
  {
    hide Net, Margin, Merge, Visits, StepSize, LatencyRate, AskSide, BidSide, Rates, DepthResult.Add;
    HeadDepth(d, asks, bids, w, quo);
    TailVisits(d, asks, bids, w, quo, v);
    var visits := Visits(d, Merge(asks, bids), w, quo);
    var next, ask', bid' := visits[0].depth, asks[0].price, bids[0].price;
    MarginFalls(ask, bid, ask', bid', w, quo);
    StepDeclines(d, next.base - d.base, ask', bid', w, quo);
    if v != visits[0] {
      var size := Merge(asks, bids)[0].size;
      ConsumeTop(asks, bids, size);
      VisitsHead(d, asks, bids, w, quo);
      VisitsDecline(next, Consume(asks, size), Consume(bids, size), w, quo, ask', bid', v);
    }
  }

  // ----- The gap between the least admissible size and the first breakpoint -----

  /** Between two sizes every unit has these two prices. */
  ghost predicate Linear(d: DepthResult, asks: seq<PriceLevel>, bids: seq<PriceLevel>, from: real, to: real,
                         ask: real, bid: real)
  {
    forall y | from <= y <= to :: After(d, asks, bids, y) == After(d, asks, bids, from).Add(y - from, ask, bid)
  }

  lemma LinearShift(d: DepthResult, asks: seq<PriceLevel>, bids: seq<PriceLevel>, size: real, from: real, to: real,
                    ask: real, bid: real)
    requires AskSide(asks) && BidSide(bids) && asks != [] && bids != []
    requires 0.0 < size <= asks[0].quantity && size <= bids[0].quantity && size <= from
    requires Linear(d.Add(size, asks[0].price, bids[0].price), Consume(asks, size), Consume(bids, size),
                    from - size, to - size, ask, bid)
    ensures Linear(d, asks, bids, from, to, ask, bid)
  {
    hide After, AskSide, BidSide, Consume, DepthResult.Add;
    var next, asks', bids' := d.Add(size, asks[0].price, bids[0].price), Consume(asks, size), Consume(bids, size);
    TakeStretch(d, asks, bids, size, from);
    forall y | from <= y <= to
      ensures After(d, asks, bids, y) == After(d, asks, bids, from).Add(y - from, ask, bid)
    {
      TakeStretch(d, asks, bids, size, y);
      var y', more := y - size, y - from;
      assert more == y' - (from - size);
      assert After(next, asks', bids', y') == After(next, asks', bids', from - size).Add(more, ask, bid);
    }
  }

  lemma {:induction false} HeadStretch(d: DepthResult, asks: seq<PriceLevel>, bids: seq<PriceLevel>, m: real,
                                       size: real)
    requires asks != [] && bids != [] && 0.0 <= m < size <= Min(asks[0].quantity, bids[0].quantity)
    ensures PriceAt(asks, m) == asks[0].price && PriceAt(bids, m) == bids[0].price
    ensures Linear(d, asks, bids, m, size, asks[0].price, bids[0].price)
  {
    forall y | m <= y <= size
      ensures After(d, asks, bids, y) == After(d, asks, bids, m).Add(y - m, asks[0].price, bids[0].price)
    {
      hide Notional, After;
      AfterWithin(d, asks, bids, y);
      AfterWithin(d, asks, bids, m);
      Distribute(m, y - m, asks[0].price);
      Distribute(m, y - m, bids[0].price);
    }
  }

  /** `u` is the first breakpoint past the size `m`.  Up to it both prices are those of the unit at
      `m`, and when that unit does not gain no later breakpoint gains over `u`. */
  ghost predicate FirstPast(d: DepthResult, asks: seq<PriceLevel>, bids: seq<PriceLevel>, m: real,
                            w: Wallets, quo: Quotient, u: Visit)
  {
    var visits := Visits(d, Merge(asks, bids), w, quo);
    && u in visits && u.depth.base > d.base + m
    && (forall v | v in visits :: v.depth.base < d.base + m || v.depth.base >= u.depth.base)
    && Linear(d, asks, bids, m, u.depth.base - d.base, PriceAt(asks, m), PriceAt(bids, m))
    && u.depth == After(d, asks, bids, u.depth.base - d.base)
    && (Margin(PriceAt(asks, m), PriceAt(bids, m), w, quo) <= 0.0 ==>
          forall v | v in visits && v.depth.base >= u.depth.base :: Net(v.depth, w, quo) <= Net(u.depth, w, quo))
  }

  ghost predicate Unvisited(visits: seq<Visit>, x: real) {
    forall v | v in visits :: v.depth.base != x
  }

  lemma UnvisitedTail(visits: seq<Visit>, x: real)
    requires Unvisited(visits, x) && visits != []
    ensures visits[0].depth.base != x && Unvisited(visits[1..], x)
  {
  }

  lemma {:induction false} NextVisit(d: DepthResult, asks: seq<PriceLevel>, bids: seq<PriceLevel>, m: real,
                                     w: Wallets, quo: Quotient)
    returns (u: Visit)
    requires AskSide(asks) && BidSide(bids) && Exact(quo) && Rates(w, quo)
    requires d.base >= 0.0 && d.buyNotional >= 0.0
    requires 0.0 < m <= Volume(Merge(asks, bids)) && Affordable(After(d, asks, bids, m), w)
    requires Unvisited(Visits(d, Merge(asks, bids), w, quo), d.base + m)
    ensures FirstPast(d, asks, bids, m, w, quo, u)
    decreases |asks| + |bids|
  {
    hide *;
    VolumeWithin(asks, bids);
    Onward(d, asks, bids, m, w, quo);
    var visits := Visits(d, Merge(asks, bids), w, quo);
    UnvisitedTail(visits, d.base + m);
    var next := visits[0].depth;
    var size := next.base - d.base;
    if m < size {
      u := visits[0];
      HeadIsNext(d, asks, bids, m, w, quo);
    } else {
      assert next.base + (m - size) == d.base + m;
      u := NextVisit(next, Consume(asks, size), Consume(bids, size), m - size, w, quo);
      FirstPastShift(d, asks, bids, m, w, quo, u);
    }
  }

  lemma {:induction false} VolumeWithin(asks: seq<PriceLevel>, bids: seq<PriceLevel>)
    requires AskSide(asks) && BidSide(bids)
    ensures Volume(Merge(asks, bids)) <= Total(asks) && Volume(Merge(asks, bids)) <= Total(bids)
    ensures Volume(Merge(asks, bids)) > 0.0 ==> Merge(asks, bids) != []
  {
    MergePositive(asks, bids);
  }

  lemma {:induction false} HeadIsNext(d: DepthResult, asks: seq<PriceLevel>, bids: seq<PriceLevel>, m: real,
                                      w: Wallets, quo: Quotient)
    requires AskSide(asks) && BidSide(bids) && Rates(w, quo) && Visits(d, Merge(asks, bids), w, quo) != []
    requires 0.0 < m < Visits(d, Merge(asks, bids), w, quo)[0].depth.base - d.base
    ensures FirstPast(d, asks, bids, m, w, quo, Visits(d, Merge(asks, bids), w, quo)[0])
  {
    hide Merge, Visits, StepSize, Net, Margin, After, Linear, PriceAt, AskSide, BidSide, Rates, DepthResult.Add;
    var u := Visits(d, Merge(asks, bids), w, quo)[0];
    HeadDepth(d, asks, bids, w, quo);
    HeadStretch(d, asks, bids, m, u.depth.base - d.base);
    AfterHead(d, asks, bids, w, quo);
  }

  lemma FirstPastShift(d: DepthResult, asks: seq<PriceLevel>, bids: seq<PriceLevel>, m: real,
                       w: Wallets, quo: Quotient, u: Visit)
    requires AskSide(asks) && BidSide(bids) && asks != [] && bids != [] && Visits(d, Merge(asks, bids), w, quo) != []
    requires
      var visits := Visits(d, Merge(asks, bids), w, quo);
      var next := visits[0].depth;
      var size := next.base - d.base;
      && size < m
      && visits[1..] == Visits(next, Merge(Consume(asks, size), Consume(bids, size)), w, quo)
      && FirstPast(next, Consume(asks, size), Consume(bids, size), m - size, w, quo, u)
    ensures FirstPast(d, asks, bids, m, w, quo, u)
  {
    hide Merge, Visits, StepSize, Net, Margin, After, Linear, PriceAt, Rates, Consume, Volume, DepthResult.Add;
    var visits := Visits(d, Merge(asks, bids), w, quo);
    var next := visits[0].depth;
    var size := next.base - d.base;
    HeadDepth(d, asks, bids, w, quo);
    ConsumePriceAt(asks, size, m - size);
    ConsumePriceAt(bids, size, m - size);
    assert u.depth.base - d.base - size == u.depth.base - next.base;
    LinearShift(d, asks, bids, size, m, u.depth.base - d.base, PriceAt(asks, m), PriceAt(bids, m));
    assert visits == [visits[0]] + visits[1..];
    VisitsOnCurve(d, asks, bids, w, quo, u);
    assert next.base + (m - size) == d.base + m;
    TailMembers(visits);
  }

  lemma TailMembers(visits: seq<Visit>)
    requires visits != []
    ensures forall v | v in visits :: v == visits[0] || v in visits[1..]
  {
  }

  /** Breakpoints after the first lie beyond it, and gain nothing over it when its units do not. */
  lemma {:induction false} AfterHead(d: DepthResult, asks: seq<PriceLevel>, bids: seq<PriceLevel>, w: Wallets,
                                     quo: Quotient)
    requires AskSide(asks) && BidSide(bids) && Rates(w, quo) && Visits(d, Merge(asks, bids), w, quo) != []
    ensures asks != [] && bids != []
    ensures
      var visits := Visits(d, Merge(asks, bids), w, quo);
      forall v | v in visits ::
        && v.depth.base >= visits[0].depth.base
        && (Margin(asks[0].price, bids[0].price, w, quo) <= 0.0 ==> Net(v.depth, w, quo) <= Net(visits[0].depth, w, quo))
  {
    hide Merge, Visits, StepSize, Net, Margin, After, AskSide, BidSide, Rates, Consume, DepthResult.Add;
    var visits := Visits(d, Merge(asks, bids), w, quo);
    HeadDepth(d, asks, bids, w, quo);
    forall v | v in visits
      ensures v.depth.base >= visits[0].depth.base
      ensures Margin(asks[0].price, bids[0].price, w, quo) <= 0.0 ==> Net(v.depth, w, quo) <= Net(visits[0].depth, w, quo)
    {
      TailVisits(d, asks, bids, w, quo, v);
      if v != visits[0] && Margin(asks[0].price, bids[0].price, w, quo) <= 0.0 {
        var size := Merge(asks, bids)[0].size;
        VisitsHead(d, asks, bids, w, quo);
        ConsumeTop(asks, bids, size);
        VisitsDecline(visits[0].depth, Consume(asks, size), Consume(bids, size), w, quo, asks[0].price, bids[0].price, v);
      }
    }
  }
}
