/** With minimums in force: the least size that meets them, and when the selection is the best of all
    sizes from there on. */
module AdmissibleTheorems {
  import opened Arithmetic
  import opened Exchange
  import opened Depth
  import opened DepthTheorems
  import opened Allocations
  import opened Sizing
  import opened Optimality
  import opened SizingTheorems
  import opened BreakpointTheorems
  import opened MinimumTheorems

  // ----- When the selection is the best of all admissible sizes -----

  /** The least crossed size that meets the minimums, and the wallets can pay for it. */
  ghost predicate LeastAdmissible(asks: seq<PriceLevel>, bids: seq<PriceLevel>, w: Wallets, m: real) {
    && m > 0.0 && Crossed(asks, bids, m) && Affordable(DepthAt(asks, bids, m), w)
    && MeetsMinimum(DepthAt(asks, bids, m), w)
    && forall y :: Crossed(asks, bids, y) && y < m ==> !MeetsMinimum(DepthAt(asks, bids, y), w)
  }

  /** No payable size from `m` on nets more than the selection, past the crossing too. */
  ghost predicate BestOfAdmissible(asks: seq<PriceLevel>, bids: seq<PriceLevel>, w: Wallets, quo: Quotient, m: real) {
    forall x :: m <= x <= Total(asks) && x <= Total(bids) && Affordable(DepthAt(asks, bids, x), w) ==>
      Net(DepthAt(asks, bids, x), w, quo) <= BestNetDepth(asks, bids, w, quo).net
  }

  lemma {:induction false} BestFromLeastIff(asks: seq<PriceLevel>, bids: seq<PriceLevel>, w: Wallets, quo: Quotient,
                                            m: real)
    requires AskSide(asks) && BidSide(bids) && Exact(quo) && Rates(w, quo) && LeastAdmissible(asks, bids, w, m)
    ensures BestNetDepth(asks, bids, w, quo).meetsMinimum
    ensures BestOfAdmissible(asks, bids, w, quo, m)
      <==> Breakpoint(asks, bids, w, m) || Margin(PriceAt(asks, m), PriceAt(bids, m), w, quo) >= 0.0
  {
    hide *;
    AdmissibleSize(asks, bids, w, m);
    BreakpointIff(asks, bids, w, quo, m);
    if Breakpoint(asks, bids, w, m) {
      var v := VisitAt(asks, bids, w, quo, m);
      MeetsIffPast(asks, bids, w, quo, m, v);
      ChosenAtLeast(asks, bids, w, quo, v);
      AdmissibleFrom(asks, bids, w, quo, m, v);
    } else {
      AdmissibleFacts(asks, bids, w, m);
      var u := NextVisit(NOTHING, asks, bids, m, w, quo);
      UMeets(asks, bids, w, quo, m, u);
      ChosenAtLeast(asks, bids, w, quo, u);
      if Margin(PriceAt(asks, m), PriceAt(bids, m), w, quo) >= 0.0 {
        GainingGap(asks, bids, w, quo, m, u);
      } else {
        LosingGap(asks, bids, w, quo, m, u);
      }
    }
  }

  lemma {:induction false} AdmissibleSize(asks: seq<PriceLevel>, bids: seq<PriceLevel>, w: Wallets, m: real)
    requires LeastAdmissible(asks, bids, w, m)
    ensures m > 0.0 && Crossed(asks, bids, m) && Affordable(DepthAt(asks, bids, m), w) && m <= Total(asks)
    ensures m <= Total(bids) && MeetsMinimum(DepthAt(asks, bids, m), w)
  {
    hide Affordable, DepthAt, MeetsMinimum, PriceAt, Total;
  }

  lemma VisitAt(asks: seq<PriceLevel>, bids: seq<PriceLevel>, w: Wallets, quo: Quotient, m: real) returns (v: Visit)
    requires !Unvisited(Visits(NOTHING, Merge(asks, bids), w, quo), m)
    ensures v in Visits(NOTHING, Merge(asks, bids), w, quo) && v.depth.base == m
  {
    hide Visits, Merge;
    v :| v in Visits(NOTHING, Merge(asks, bids), w, quo) && v.depth.base == m;
  }

  lemma {:induction false} AdmissibleFacts(asks: seq<PriceLevel>, bids: seq<PriceLevel>, w: Wallets, m: real)
    requires AskSide(asks) && BidSide(bids) && LeastAdmissible(asks, bids, w, m)
    ensures 0.0 < m <= Volume(Merge(asks, bids)) && Affordable(After(NOTHING, asks, bids, m), w)
    ensures Positive(asks) && Positive(bids) && NOTHING.base + m == m && NOTHING.base == 0.0 && NOTHING.buyNotional == 0.0
    ensures After(NOTHING, asks, bids, m) == DepthAt(asks, bids, m)
  {
    CrossedIffMerged(asks, bids, m);
    AfterIsDepthAt(asks, bids, m);
  }

  /** A breakpoint meets the minimums exactly when it does not come before the least admissible size. */
  lemma {:induction false} MeetsIffPast(asks: seq<PriceLevel>, bids: seq<PriceLevel>, w: Wallets, quo: Quotient,
                                        m: real, v: Visit)
    requires AskSide(asks) && BidSide(bids) && LeastAdmissible(asks, bids, w, m)
    requires v in Visits(NOTHING, Merge(asks, bids), w, quo)
    ensures MeetsMinimum(v.depth, w) <==> v.depth.base >= m
  {
    var x := v.depth.base;
    VisitsOnCurve(NOTHING, asks, bids, w, quo, v);
    CrossedIffMerged(asks, bids, x);
    AfterIsDepthAt(asks, bids, x);
    hide Visits, Merge, Notional, PriceAt;
    if x >= m {
      CurveRises(asks, m, x);
    }
  }

  lemma {:induction false} CurveRises(asks: seq<PriceLevel>, m: real, x: real)
    requires AskSide(asks) && 0.0 <= m <= x <= Total(asks)
    ensures Notional(asks, m) <= Notional(asks, x)
  {
    hide Notional, Total;
    var more := x - m;
    assert m + more == x;
    NotionalSlope(asks, 0.0, m, more);
  }

  lemma {:induction false} UMeets(asks: seq<PriceLevel>, bids: seq<PriceLevel>, w: Wallets, quo: Quotient, m: real,
                                  u: Visit)
    requires AskSide(asks) && BidSide(bids) && LeastAdmissible(asks, bids, w, m)
    requires FirstPast(NOTHING, asks, bids, m, w, quo, u)
    ensures u in Visits(NOTHING, Merge(asks, bids), w, quo) && MeetsMinimum(u.depth, w) && u.depth.base > m
  {
    hide Visits, Merge, Net, Margin, LeastAdmissible, AskSide, BidSide, Linear, After, PriceAt;
    MeetsIffPast(asks, bids, w, quo, m, u);
  }

  /** From an admissible breakpoint at or after every admissible size in question, all is bounded. */
  lemma {:induction false} AdmissibleFrom(asks: seq<PriceLevel>, bids: seq<PriceLevel>, w: Wallets, quo: Quotient,
                                          m: real, v: Visit)
    requires AskSide(asks) && BidSide(bids) && Exact(quo) && Rates(w, quo) && LeastAdmissible(asks, bids, w, m)
    requires v in Visits(NOTHING, Merge(asks, bids), w, quo) && v.depth.base == m
    ensures BestOfAdmissible(asks, bids, w, quo, m)
  {
    hide Visits, Merge, Net, AskSide, BidSide, Rates, LeastAdmissible, PriceAt, Affordable, DepthAt;
    AdmissibleSize(asks, bids, w, m);
    MeetsIffPast(asks, bids, w, quo, m, v);
    forall x | m <= x <= Total(asks) && x <= Total(bids) && Affordable(DepthAt(asks, bids, x), w)
      ensures Net(DepthAt(asks, bids, x), w, quo) <= BestNetDepth(asks, bids, w, quo).net
    {
      SizeFromMinimum(asks, bids, x, w, quo, v);
    }
  }

  lemma {:induction false} GainingGap(asks: seq<PriceLevel>, bids: seq<PriceLevel>, w: Wallets, quo: Quotient,
                                      m: real, u: Visit)
    requires AskSide(asks) && BidSide(bids) && Exact(quo) && Rates(w, quo) && LeastAdmissible(asks, bids, w, m)
    requires FirstPast(NOTHING, asks, bids, m, w, quo, u) && MeetsMinimum(u.depth, w)
    requires Margin(PriceAt(asks, m), PriceAt(bids, m), w, quo) >= 0.0
    ensures BestOfAdmissible(asks, bids, w, quo, m)
  {
    hide Visits, Merge, Net, Margin, AskSide, BidSide, Rates, LeastAdmissible, PriceAt, Affordable, DepthAt, Linear, After,
         BestNetDepth;
    AdmissibleSize(asks, bids, w, m);
    ChosenAtLeast(asks, bids, w, quo, u);
    forall x | m <= x <= Total(asks) && x <= Total(bids) && Affordable(DepthAt(asks, bids, x), w)
      ensures Net(DepthAt(asks, bids, x), w, quo) <= BestNetDepth(asks, bids, w, quo).net
    {
      if x <= u.depth.base {
        GapSlope(asks, bids, w, quo, m, x, u.depth.base);
      } else {
        SizeFromMinimum(asks, bids, x, w, quo, u);
      }
    }
  }

  /** Inside the gap, net profit changes at the margin of the unit at `m`. */
  lemma {:induction false} GapSlope(asks: seq<PriceLevel>, bids: seq<PriceLevel>, w: Wallets, quo: Quotient, m: real,
                                    x: real, end: real)
    requires Linear(NOTHING, asks, bids, m, end, PriceAt(asks, m), PriceAt(bids, m)) && m <= x <= end
    ensures
      var k := Margin(PriceAt(asks, m), PriceAt(bids, m), w, quo);
      && (k >= 0.0 ==> Net(DepthAt(asks, bids, x), w, quo) <= Net(After(NOTHING, asks, bids, end), w, quo))
      && (k < 0.0 && m < end ==> Net(After(NOTHING, asks, bids, end), w, quo) < Net(DepthAt(asks, bids, m), w, quo))
  {
    hide Net, Margin, PriceAt, After, DepthAt, DepthResult.Add;
    var ask, bid := PriceAt(asks, m), PriceAt(bids, m);
    var k := Margin(ask, bid, w, quo);
    AfterIsDepthAt(asks, bids, x);
    AfterIsDepthAt(asks, bids, m);
    NetAdd(DepthAt(asks, bids, m), x - m, ask, bid, w, quo);
    NetAdd(DepthAt(asks, bids, m), end - m, ask, bid, w, quo);
    if k >= 0.0 {
      MulMonotone(x - m, end - m, k);
    } else if m < end {
      MulStrict(0.0, end - m, -k);
      MulNegated(end - m, k, -k);
    }
  }

  lemma {:induction false} ChosenAtLeast(asks: seq<PriceLevel>, bids: seq<PriceLevel>, w: Wallets, quo: Quotient,
                                         u: Visit)
    requires u in Visits(NOTHING, Merge(asks, bids), w, quo) && MeetsMinimum(u.depth, w)
    ensures BestNetDepth(asks, bids, w, quo).meetsMinimum && Net(u.depth, w, quo) <= BestNetDepth(asks, bids, w, quo).net
    ensures exists v | v in Visits(NOTHING, Merge(asks, bids), w, quo) ::
              MeetsMinimum(v.depth, w) && Net(v.depth, w, quo) == BestNetDepth(asks, bids, w, quo).net
  {
    hide Visits, Merge, Net;
    Chosen(NO_SELECTION, Visits(NOTHING, Merge(asks, bids), w, quo), w, quo);
  }

  lemma {:induction false} LosingGap(asks: seq<PriceLevel>, bids: seq<PriceLevel>, w: Wallets, quo: Quotient,
                                     m: real, u: Visit)
    requires AskSide(asks) && BidSide(bids) && Exact(quo) && Rates(w, quo) && LeastAdmissible(asks, bids, w, m)
    requires FirstPast(NOTHING, asks, bids, m, w, quo, u) && MeetsMinimum(u.depth, w)
    requires Margin(PriceAt(asks, m), PriceAt(bids, m), w, quo) < 0.0
    ensures !BestOfAdmissible(asks, bids, w, quo, m)
  {
    hide Visits, Merge, Net, Margin, AskSide, BidSide, Rates, PriceAt, Affordable, DepthAt, Linear, After, BestNetDepth,
         Crossed;
    AdmissibleSize(asks, bids, w, m);
    ChosenAtLeast(asks, bids, w, quo, u);
    var v :| v in Visits(NOTHING, Merge(asks, bids), w, quo)
             && MeetsMinimum(v.depth, w) && Net(v.depth, w, quo) == BestNetDepth(asks, bids, w, quo).net;
    MeetsIffPast(asks, bids, w, quo, m, v);
    GapSlope(asks, bids, w, quo, m, m, u.depth.base);
  }

  // ----- The least admissible size exists -----

  /** The least size whose cost in book order reaches `n`. */
  ghost function SizeFor(levels: seq<PriceLevel>, n: real): real {
    if levels == [] || n <= 0.0 || levels[0].price <= 0.0 then 0.0
    else if n <= levels[0].quantity * levels[0].price then n / levels[0].price
    else levels[0].quantity + SizeFor(levels[1..], n - levels[0].quantity * levels[0].price)
  }

  lemma {:induction false} CostNotNegative(levels: seq<PriceLevel>, x: real)
    requires Positive(levels) && 0.0 <= x
    ensures Notional(levels, x) >= 0.0
    decreases |levels|
  {
    if levels != [] {
      MulMonotone(0.0, x, levels[0].price);
      MulMonotone(0.0, levels[0].quantity, levels[0].price);
      if x > levels[0].quantity {
        CostNotNegative(levels[1..], x - levels[0].quantity);
      }
    }
  }

  lemma Reaches(x: real, price: real, n: real)
    requires price > 0.0
    ensures x * price >= n <==> x >= n / price
  {
    var size := n / price;
    assert size * price == n;
    if x >= size {
      MulMonotone(size, x, price);
    } else {
      MulStrict(x, size, price);
    }
  }

  /** A cost that some size of the ladder reaches is reached exactly from its least size on. */
  lemma {:induction false} SizeForIs(levels: seq<PriceLevel>, n: real, x: real, top: real)
    requires Positive(levels) && 0.0 <= x && 0.0 <= top <= Total(levels) && Notional(levels, top) >= n
    ensures Notional(levels, x) >= n <==> x >= SizeFor(levels, n)
    decreases |levels|
  {
    hide Total, Notional, SizeFor;
    if levels == [] || n <= 0.0 {
      SizeNone(levels, n, x, top);
    } else if n <= levels[0].quantity * levels[0].price {
      SizeInHead(levels, n, x);
    } else {
      BeyondHead(levels, n, top);
      var q, rest := levels[0].quantity, n - levels[0].quantity * levels[0].price;
      SizeForIs(levels[1..], rest, 0.0, top - q);
      if x > q {
        SizeForIs(levels[1..], rest, x - q, top - q);
      }
      SizePastHead(levels, n, x);
    }
  }

  lemma {:induction false} SizeNone(levels: seq<PriceLevel>, n: real, x: real, top: real)
    requires Positive(levels) && 0.0 <= x && 0.0 <= top && Notional(levels, top) >= n && (levels == [] || n <= 0.0)
    ensures Notional(levels, x) >= n <==> x >= SizeFor(levels, n)
  {
    CostNotNegative(levels, x);
  }

  lemma {:induction false} SizeInHead(levels: seq<PriceLevel>, n: real, x: real)
    requires Positive(levels) && levels != [] && 0.0 <= x && 0.0 < n <= levels[0].quantity * levels[0].price
    ensures Notional(levels, x) >= n <==> x >= SizeFor(levels, n)
  {
    var q, price := levels[0].quantity, levels[0].price;
    Reaches(x, price, n);
    Reaches(q, price, n);
    if x > q {
      CostNotNegative(levels[1..], x - q);
    }
  }

  lemma SizePastHead(levels: seq<PriceLevel>, n: real, x: real)
    requires Positive(levels) && levels != [] && 0.0 <= x && n > levels[0].quantity * levels[0].price && n > 0.0
    requires
      var rest := n - levels[0].quantity * levels[0].price;
      && SizeFor(levels[1..], rest) > 0.0
      && (x > levels[0].quantity ==>
            (Notional(levels[1..], x - levels[0].quantity) >= rest
             <==> x - levels[0].quantity >= SizeFor(levels[1..], rest)))
    ensures Notional(levels, x) >= n <==> x >= SizeFor(levels, n)
  {
    hide Notional, SizeFor;
    SizeForTail(levels, n);
    if x <= levels[0].quantity {
      NotionalHead(levels, x);
      MulMonotone(x, levels[0].quantity, levels[0].price);
    } else {
      NotionalTail(levels, x);
    }
  }

  lemma SizeForTail(levels: seq<PriceLevel>, n: real)
    requires Positive(levels) && levels != [] && n > levels[0].quantity * levels[0].price && n > 0.0
    ensures SizeFor(levels, n)
         == levels[0].quantity + SizeFor(levels[1..], n - levels[0].quantity * levels[0].price)
  {
  }

  lemma BeyondHead(levels: seq<PriceLevel>, n: real, top: real)
    requires Positive(levels) && levels != [] && 0.0 <= top <= Total(levels) && Notional(levels, top) >= n
    requires n > levels[0].quantity * levels[0].price
    ensures Positive(levels[1..]) && 0.0 <= top - levels[0].quantity <= Total(levels[1..])
    ensures Notional(levels[1..], top - levels[0].quantity) >= n - levels[0].quantity * levels[0].price
    ensures Notional(levels[1..], 0.0) == 0.0
  {
    if top <= levels[0].quantity {
      MulMonotone(top, levels[0].quantity, levels[0].price);
    }
    var rest := levels[1..];
    assert rest != [] ==> 0.0 <= rest[0].quantity;
  }

  /** A size of the ladder meets the minimums exactly from `MinimumSize` on. */
  ghost function MinimumSize(asks: seq<PriceLevel>, w: Wallets): real {
    Max(w.minBase, SizeFor(asks, w.minNotional))
  }

  lemma {:induction false} MeetsFrom(asks: seq<PriceLevel>, bids: seq<PriceLevel>, w: Wallets, x: real, top: real)
    requires Positive(asks) && 0.0 <= x && 0.0 <= top <= Total(asks) && MeetsMinimum(DepthAt(asks, bids, top), w)
    ensures MeetsMinimum(DepthAt(asks, bids, x), w) <==> x >= MinimumSize(asks, w)
  {
    hide Notional, SizeFor, Total;
    SizeForIs(asks, w.minNotional, x, top);
  }

  /** A minimum in force leaves out the size zero. */
  lemma {:induction false} MinimumSizePositive(asks: seq<PriceLevel>, w: Wallets, top: real)
    requires Positive(asks) && 0.0 <= top <= Total(asks) && Notional(asks, top) >= w.minNotional
    requires w.minBase > 0.0 || w.minNotional > 0.0
    ensures MinimumSize(asks, w) > 0.0
  {
    SizeForIs(asks, w.minNotional, 0.0, top);
    NotionalZero(asks);
  }

  /** With a minimum in force, the selection meets it exactly when the wallets can pay for the least
      crossed size that does. */
  lemma LeastAdmissibleIff(asks: seq<PriceLevel>, bids: seq<PriceLevel>, w: Wallets, quo: Quotient)
    requires AskSide(asks) && BidSide(bids) && Exact(quo) && Rates(w, quo) && (w.minBase > 0.0 || w.minNotional > 0.0)
    ensures BestNetDepth(asks, bids, w, quo).meetsMinimum <==> LeastAdmissible(asks, bids, w, MinimumSize(asks, w))
  {
    hide *;
    RatesWithin(w, quo);
    if BestNetDepth(asks, bids, w, quo).meetsMinimum {
      var v := MeetingVisit(asks, bids, w, quo);
      VisitFacts(asks, bids, w, quo, v);
      LeastBelow(asks, bids, w, v.depth.base);
    }
    if LeastAdmissible(asks, bids, w, MinimumSize(asks, w)) {
      BestFromLeastIff(asks, bids, w, quo, MinimumSize(asks, w));
    }
  }

  /** Only breakpoints are scored.  So with a minimum in force that the selection meets, it is the best of
      all payable sizes that meet it exactly when a level of either side ends at the least of them, or
      that is the largest affordable one, or its next unit would not lose money. */
  lemma {:induction false} BestOfAdmissibleIff(asks: seq<PriceLevel>, bids: seq<PriceLevel>, w: Wallets, quo: Quotient)
    requires AskSide(asks) && BidSide(bids) && Exact(quo) && Rates(w, quo) && (w.minBase > 0.0 || w.minNotional > 0.0)
    requires BestNetDepth(asks, bids, w, quo).meetsMinimum
    ensures
      var m := MinimumSize(asks, w);
      BestOfAdmissible(asks, bids, w, quo, m)
      <==> Breakpoint(asks, bids, w, m) || Margin(PriceAt(asks, m), PriceAt(bids, m), w, quo) >= 0.0
  {
    hide *;
    LeastAdmissibleIff(asks, bids, w, quo);
    BestFromLeastIff(asks, bids, w, quo, MinimumSize(asks, w));
  }

  lemma MeetingVisit(asks: seq<PriceLevel>, bids: seq<PriceLevel>, w: Wallets, quo: Quotient) returns (v: Visit)
    requires BestNetDepth(asks, bids, w, quo).meetsMinimum
    ensures v in Visits(NOTHING, Merge(asks, bids), w, quo) && MeetsMinimum(v.depth, w)
  {
    hide Visits, Merge, Net, MeetsMinimum;
    Chosen(NO_SELECTION, Visits(NOTHING, Merge(asks, bids), w, quo), w, quo);
    v :| v in Visits(NOTHING, Merge(asks, bids), w, quo) && MeetsMinimum(v.depth, w);
  }

  lemma {:induction false} VisitFacts(asks: seq<PriceLevel>, bids: seq<PriceLevel>, w: Wallets, quo: Quotient, v: Visit)
    requires AskSide(asks) && BidSide(bids) && Exact(quo) && Rates(w, quo)
    requires v in Visits(NOTHING, Merge(asks, bids), w, quo)
    ensures v.depth == DepthAt(asks, bids, v.depth.base) && Crossed(asks, bids, v.depth.base)
    ensures Affordable(v.depth, w)
  {
    hide Visits, Merge, Crossed, Affordable, AskSide, BidSide, Exact, DepthAt, LatencyRate;
    SidesPositive(asks, bids);
    VisitsOnCurve(NOTHING, asks, bids, w, quo, v);
    CrossedIffMerged(asks, bids, v.depth.base);
    AfterIsDepthAt(asks, bids, v.depth.base);
    VisitsAffordable(NOTHING, Merge(asks, bids), w, quo, v);
  }

  lemma LeastBelow(asks: seq<PriceLevel>, bids: seq<PriceLevel>, w: Wallets, top: real)
    requires AskSide(asks) && BidSide(bids) && w.buyFee >= 0.0 && (w.minBase > 0.0 || w.minNotional > 0.0)
    requires Crossed(asks, bids, top) && MeetsMinimum(DepthAt(asks, bids, top), w)
    requires Affordable(DepthAt(asks, bids, top), w)
    ensures LeastAdmissible(asks, bids, w, MinimumSize(asks, w))
  {
    hide Notional, PriceAt, Total, Affordable, MinimumSize, AskSide, BidSide;
    var m := MinimumSize(asks, w);
    SidesPositive(asks, bids);
    MinimumSizePositive(asks, w, top);
    MeetsFrom(asks, bids, w, top, top);
    MeetsFrom(asks, bids, w, m, top);
    CurveRises(asks, m, top);
    AffordableDown(DepthAt(asks, bids, top), DepthAt(asks, bids, m), w);
    forall y | Crossed(asks, bids, y) && y < m ensures !MeetsMinimum(DepthAt(asks, bids, y), w) {
      MeetsFrom(asks, bids, w, y, top);
    }
  }
}
