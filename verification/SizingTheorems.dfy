/** What a chosen size means for a caller: it lies on both price curves inside the crossed region,
    it is what the plain walk would return for that size, and its minimum flag speaks about the
    largest size the wallets can pay for. */
module SizingTheorems {
  import opened Arithmetic
  import opened Exchange
  import opened Depth
  import opened DepthTheorems
  import opened Sizing
  import opened Optimality

  // ----- For every rounding of the division -----

  /** Every breakpoint is a crossed size within the base wallet, with both notionals read off the
      two ladders. */
  lemma {:induction false} VisitsOnCurve(d: DepthResult, asks: seq<PriceLevel>, bids: seq<PriceLevel>,
                                         w: Wallets, quo: Quotient, v: Visit)
    requires Positive(asks) && Positive(bids) && v in Visits(d, Merge(asks, bids), w, quo)
    ensures
      var x := v.depth.base - d.base;
      && 0.0 < x <= Volume(Merge(asks, bids)) && v.depth == After(d, asks, bids, x)
      && v.depth.base <= w.base
    decreases |asks| + |bids|
  {
    hide After, StepSize, Positive, Consume, DepthResult.Add;
    var visits := Visits(d, Merge(asks, bids), w, quo);
    FirstOnCurve(d, asks, bids, w, quo);
    if v != visits[0] {
      var size := Merge(asks, bids)[0].size;
      var asks', bids' := Consume(asks, size), Consume(bids, size);
      VisitsHead(d, asks, bids, w, quo);
      ConsumePositive(asks, size);
      ConsumePositive(bids, size);
      VisitsOnCurve(visits[0].depth, asks', bids', w, quo, v);
      var more := v.depth.base - visits[0].depth.base;
      assert size + more == v.depth.base - d.base;
      AfterStep(d, asks, bids, size, more);
    }
  }

  lemma {:induction false} FirstOnCurve(d: DepthResult, asks: seq<PriceLevel>, bids: seq<PriceLevel>, w: Wallets,
                                        quo: Quotient)
    requires Positive(asks) && Positive(bids) && Visits(d, Merge(asks, bids), w, quo) != []
    ensures Merge(asks, bids) != [] && StepSize(d, Merge(asks, bids)[0], w, quo) > 0.0 && asks != [] && bids != []
    ensures
      var first, s := Visits(d, Merge(asks, bids), w, quo)[0].depth, Merge(asks, bids)[0];
      var size := first.base - d.base;
      && size == StepSize(d, s, w, quo) && 0.0 < size <= s.size && s.size == Min(asks[0].quantity, bids[0].quantity)
      && first == After(d, asks, bids, size) && first.base <= w.base
      && first == d.Add(size, asks[0].price, bids[0].price)
      && Volume(Merge(asks, bids)) == s.size + Volume(Merge(Consume(asks, s.size), Consume(bids, s.size)))
      && size <= Volume(Merge(asks, bids))
      && |Consume(asks, s.size)| + |Consume(bids, s.size)| < |asks| + |bids|
  {
    hide After, Positive;
    VisitsHead(d, asks, bids, w, quo);
    var s := Merge(asks, bids)[0];
    ConsumePositive(asks, s.size);
    ConsumePositive(bids, s.size);
    MergePositive(asks, bids);
    MergePositive(Consume(asks, s.size), Consume(bids, s.size));
    assert Merge(asks, bids)[1..] == Merge(Consume(asks, s.size), Consume(bids, s.size));
    AfterWithin(d, asks, bids, StepSize(d, s, w, quo));
  }

  /** The chosen depth, when there is one. */
  lemma SelectionOnCurve(asks: seq<PriceLevel>, bids: seq<PriceLevel>, w: Wallets, quo: Quotient)
    requires Positive(asks) && Positive(bids) && BestNetDepth(asks, bids, w, quo).hasDepth
    ensures
      var best := BestNetDepth(asks, bids, w, quo);
      && best == Candidate(Visit(best.depth, best.partial), w, quo)
      && 0.0 < best.depth.base <= w.base
      && Crossed(asks, bids, best.depth.base)
      && best.depth == DepthAt(asks, bids, best.depth.base)
  {
    var visits := Visits(NOTHING, Merge(asks, bids), w, quo);
    var best := BestNetDepth(asks, bids, w, quo);
    Chosen(NO_SELECTION, visits, w, quo);
    var v :| v in visits && best == Candidate(v, w, quo);
    VisitsOnCurve(NOTHING, asks, bids, w, quo, v);
    AfterIsDepthAt(asks, bids, v.depth.base);
    CrossedIffMerged(asks, bids, v.depth.base);
  }

  /** The chosen depth is what the plain walk returns when asked for the chosen size.  With no size
      chosen this fails on a crossed book, because the plain walk reads a zero size as no limit. */
  lemma {:induction false} SelectionRefinesWalk(asks: seq<PriceLevel>, bids: seq<PriceLevel>, w: Wallets, quo: Quotient)
    requires Positive(asks) && Positive(bids)
    ensures
      var best := BestNetDepth(asks, bids, w, quo);
      best.depth == Walked(NOTHING, Merge(asks, bids), best.depth.base)
      <==> best.hasDepth || asks == [] || bids == [] || bids[0].price <= asks[0].price
  {
    var best := BestNetDepth(asks, bids, w, quo);
    var visits := Visits(NOTHING, Merge(asks, bids), w, quo);
    Chosen(NO_SELECTION, visits, w, quo);
    WalkReachesCrossing(asks, bids, best.depth.base);
    MergePositive(asks, bids);
    if best.hasDepth {
      SelectionOnCurve(asks, bids, w, quo);
    } else if asks != [] && bids != [] && bids[0].price > asks[0].price {
      var m := Min(asks[0].quantity, bids[0].quantity);
      ConsumePositive(asks, m);
      ConsumePositive(bids, m);
      MergePositive(Consume(asks, m), Consume(bids, m));
      assert Volume(Merge(asks, bids)) >= m > 0.0;
    }
  }

  /** What the quote wallet buys at a price with the fee on top. */
  ghost function Buys(quote: real, price: real, fee: real, quo: Quotient): real {
    quo(quote, price * (1.0 + fee))
  }

  /** There is a size exactly when the tops cross, both wallets hold something, and the quote wallet
      buys something at the top ask. */
  lemma HasDepthIff(asks: seq<PriceLevel>, bids: seq<PriceLevel>, w: Wallets, quo: Quotient)
    requires Positive(asks) && Positive(bids) && w.buyFee >= 0.0
    ensures BestNetDepth(asks, bids, w, quo).hasDepth
      <==> && asks != [] && bids != [] && asks[0].price < bids[0].price
           && w.base > 0.0 && w.quote > 0.0 && Buys(w.quote, asks[0].price, w.buyFee, quo) > 0.0
  {
    hide *;
    HasDepthWhen(asks, bids, w, quo);
    if asks != [] {
      TopUnit(w.quote, asks[0].price, w.buyFee, quo);
    }
  }

  lemma TopUnit(quote: real, ask: real, fee: real, quo: Quotient)
    ensures WithFee(ask, fee) == ask * (1.0 + fee) && quo(quote, WithFee(ask, fee)) == Buys(quote, ask, fee, quo)
  {
    assert WithFee(ask, fee) == ask * (1.0 + fee);
  }

  lemma HasDepthWhen(asks: seq<PriceLevel>, bids: seq<PriceLevel>, w: Wallets, quo: Quotient)
    requires Positive(asks) && Positive(bids) && w.buyFee >= 0.0
    ensures BestNetDepth(asks, bids, w, quo).hasDepth
      <==> && asks != [] && bids != [] && asks[0].price < bids[0].price
           && w.base > 0.0 && w.quote > 0.0 && quo(w.quote, WithFee(asks[0].price, w.buyFee)) > 0.0
  {
    Chosen(NO_SELECTION, Visits(NOTHING, Merge(asks, bids), w, quo), w, quo);
    assert WithFee(0.0, w.buyFee) == 0.0;
    if asks != [] {
      MulStrict(0.0, asks[0].price, 1.0 + w.buyFee);
      assert WithFee(asks[0].price, w.buyFee) > 0.0;
    }
  }

  // ----- The largest affordable crossed size -----

  /** The largest size that is crossed and that both wallets can pay for. */
  ghost predicate Largest(asks: seq<PriceLevel>, bids: seq<PriceLevel>, w: Wallets, x: real) {
    && Crossed(asks, bids, x) && Affordable(DepthAt(asks, bids, x), w)
    && forall y :: Crossed(asks, bids, y) && Affordable(DepthAt(asks, bids, y), w) ==> y <= x
  }

  /** The walk's last breakpoint is as far as the wallets go. */
  lemma {:induction false} VisitsReach(d: DepthResult, asks: seq<PriceLevel>, bids: seq<PriceLevel>, w: Wallets,
                                       quo: Quotient)
    returns (r: real)
    requires AskSide(asks) && BidSide(bids) && Exact(quo) && w.buyFee >= 0.0
    requires d.base >= 0.0 && d.buyNotional >= 0.0 && Affordable(d, w)
    ensures 0.0 <= r <= Volume(Merge(asks, bids)) && Affordable(After(d, asks, bids, r), w)
    ensures forall y | r < y <= Volume(Merge(asks, bids)) :: !Affordable(After(d, asks, bids, y), w)
    ensures
      var visits := Visits(d, Merge(asks, bids), w, quo);
      if visits == [] then r == 0.0 else visits[|visits| - 1].depth == After(d, asks, bids, r)
    decreases |asks| + |bids|
  {
    var segments := Merge(asks, bids);
    MergePositive(asks, bids);
    AfterNothing(d, asks, bids);
    if segments == [] {
      r := 0.0;
    } else {
      var size := StepSize(d, segments[0], w, quo);
      if size <= 0.0 {
        r := 0.0;
        forall y | 0.0 < y <= Volume(segments) ensures !Affordable(After(d, asks, bids, y), w) {
          if Affordable(After(d, asks, bids, y), w) {
            StepCovers(d, asks, bids, y, w, quo);
          }
        }
      } else if size < segments[0].size {
        r := size;
        VisitsHead(d, asks, bids, w, quo);
        LimitedStepPays(d, segments[0], w, quo);
        AfterWithin(d, asks, bids, size);
        ConsumePositive(asks, segments[0].size);
        ConsumePositive(bids, segments[0].size);
        MergePositive(Consume(asks, segments[0].size), Consume(bids, segments[0].size));
        forall y | size < y <= Volume(segments) ensures !Affordable(After(d, asks, bids, y), w) {
          if Affordable(After(d, asks, bids, y), w) {
            StepCovers(d, asks, bids, y, w, quo);
          }
        }
      } else {
        r := ReachOn(d, asks, bids, w, quo);
      }
    }
  }

  lemma {:induction false} ReachOn(d: DepthResult, asks: seq<PriceLevel>, bids: seq<PriceLevel>, w: Wallets,
                                   quo: Quotient)
    returns (r: real)
    requires AskSide(asks) && BidSide(bids) && Exact(quo) && w.buyFee >= 0.0
    requires d.base >= 0.0 && d.buyNotional >= 0.0 && Affordable(d, w)
    requires Merge(asks, bids) != [] && StepSize(d, Merge(asks, bids)[0], w, quo) == Merge(asks, bids)[0].size > 0.0
    ensures 0.0 <= r <= Volume(Merge(asks, bids)) && Affordable(After(d, asks, bids, r), w)
    ensures forall y | r < y <= Volume(Merge(asks, bids)) :: !Affordable(After(d, asks, bids, y), w)
    ensures
      var visits := Visits(d, Merge(asks, bids), w, quo);
      visits != [] && visits[|visits| - 1].depth == After(d, asks, bids, r)
    decreases |asks| + |bids|, 0
  {
    var segments := Merge(asks, bids);
    var size := segments[0].size;
    assert segments[1..] == Merge(Consume(asks, size), Consume(bids, size));
    hide Merge, Visits, StepSize, AskSide, BidSide, Exact, Affordable, After, Consume;
    VisitsHead(d, asks, bids, w, quo);
    var visits := Visits(d, segments, w, quo);
    var next, asks', bids' := visits[0].depth, Consume(asks, size), Consume(bids, size);
    LimitedStepPays(d, segments[0], w, quo);
    ConsumeSides(asks, bids, size);
    AskPositive(asks);
    MulMonotone(0.0, size, asks[0].price);
    var rest := VisitsReach(next, asks', bids', w, quo);
    r := size + rest;
    AfterStep(d, asks, bids, size, rest);
    AfterNothing(next, asks', bids');
    assert visits[1..] != [] ==> visits[|visits| - 1] == visits[1..][|visits| - 2];
    forall y | r < y <= Volume(segments) ensures !Affordable(After(d, asks, bids, y), w) {
      TakeStretch(d, asks, bids, size, y);
    }
  }

  lemma AskPositive(asks: seq<PriceLevel>)
    requires AskSide(asks) && asks != []
    ensures asks[0].price > 0.0
  {
  }

  lemma LimitedStepPays(d: DepthResult, s: Segment, w: Wallets, quo: Quotient)
    requires Exact(quo) && w.buyFee >= 0.0 && StepSize(d, s, w, quo) > 0.0
    ensures Affordable(d.Add(StepSize(d, s, w, quo), s.ask, s.bid), w)
  {
    var size, rate := StepSize(d, s, w, quo), 1.0 + w.buyFee;
    var left, unit := w.quote - WithFee(d.buyNotional, w.buyFee), WithFee(s.ask, w.buyFee);
    assert ExactAt(quo, left, unit);
    assert left / unit * unit == left;
    MulMonotone(size, left / unit, unit);
    Distribute(d.buyNotional, size * s.ask, rate);
    assert size * s.ask * rate == size * unit;
  }

  /** Every breakpoint is paid for by both wallets, fee included, when the division does not round. */
  lemma {:induction false} VisitsAffordable(d: DepthResult, segments: seq<Segment>, w: Wallets, quo: Quotient, v: Visit)
    requires Exact(quo) && w.buyFee >= 0.0 && v in Visits(d, segments, w, quo)
    ensures Affordable(v.depth, w)
    decreases segments
  {
    hide Affordable, StepSize, Exact;
    var visits := Visits(d, segments, w, quo);
    if v == visits[0] {
      LimitedStepPays(d, segments[0], w, quo);
    } else {
      assert visits[1..] == Visits(visits[0].depth, segments[1..], w, quo);
      VisitsAffordable(visits[0].depth, segments[1..], w, quo, v);
    }
  }

  /** With wallets that hold nothing negative there is a largest affordable crossed size, and the
      selection reports a size exactly when that is positive, and the minimums met exactly when
      that size meets them. */
  lemma MinimumSpeaksOfLargest(asks: seq<PriceLevel>, bids: seq<PriceLevel>, w: Wallets, quo: Quotient)
    returns (x: real)
    requires AskSide(asks) && BidSide(bids) && Exact(quo) && w.buyFee >= 0.0 && w.base >= 0.0 && w.quote >= 0.0
    ensures Largest(asks, bids, w, x)
    ensures
      var best := BestNetDepth(asks, bids, w, quo);
      && (best.hasDepth <==> x > 0.0)
      && (best.meetsMinimum <==> x > 0.0 && x >= w.minBase && Notional(asks, x) >= w.minNotional)
  {
    hide *;
    NothingIsFree(w);
    x := VisitsReach(NOTHING, asks, bids, w, quo);
    SidesPositive(asks, bids);
    ReachIsLargest(asks, bids, w, x);
    SelectionOfReach(asks, bids, w, quo, x);
  }

  lemma {:induction false} SelectionOfReach(asks: seq<PriceLevel>, bids: seq<PriceLevel>, w: Wallets, quo: Quotient,
                                            x: real)
    requires Positive(asks) && Positive(bids)
    requires
      var visits := Visits(NOTHING, Merge(asks, bids), w, quo);
      if visits == [] then x == 0.0 else visits[|visits| - 1].depth == After(NOTHING, asks, bids, x)
    ensures
      var best := BestNetDepth(asks, bids, w, quo);
      && (best.hasDepth <==> x > 0.0)
      && (best.meetsMinimum <==> x > 0.0 && x >= w.minBase && Notional(asks, x) >= w.minNotional)
  {
    hide Merge, Visits, Net, StepSize, After, DepthAt, Notional, Crossed, Volume, Positive, LatencyRate, Bps;
    var visits := Visits(NOTHING, Merge(asks, bids), w, quo);
    Chosen(NO_SELECTION, visits, w, quo);
    AfterIsDepthAt(asks, bids, x);
    AtReach(asks, bids, x);
    if visits != [] {
      var last := visits[|visits| - 1];
      VisitsOnCurve(NOTHING, asks, bids, w, quo, last);
      forall v | v in visits && MeetsMinimum(v.depth, w) ensures MeetsMinimum(last.depth, w) {
        LastIsFarthest(asks, bids, w, quo, v);
      }
    }
  }

  lemma NothingIsFree(w: Wallets)
    requires w.base >= 0.0 && w.quote >= 0.0
    ensures NOTHING.base >= 0.0 && NOTHING.buyNotional >= 0.0 && Affordable(NOTHING, w)
  {
    assert WithFee(0.0, w.buyFee) == 0.0;
  }

  lemma SidesPositive(asks: seq<PriceLevel>, bids: seq<PriceLevel>)
    requires AskSide(asks) && BidSide(bids)
    ensures Positive(asks) && Positive(bids)
  {
  }

  lemma {:induction false} AtReach(asks: seq<PriceLevel>, bids: seq<PriceLevel>, x: real)
    ensures DepthAt(asks, bids, x).base == x && DepthAt(asks, bids, x).buyNotional == Notional(asks, x)
  {
  }

  lemma {:induction false} ReachIsLargest(asks: seq<PriceLevel>, bids: seq<PriceLevel>, w: Wallets, x: real)
    requires Positive(asks) && Positive(bids)
    requires 0.0 <= x <= Volume(Merge(asks, bids)) && Affordable(After(NOTHING, asks, bids, x), w)
    requires forall y | x < y <= Volume(Merge(asks, bids)) :: !Affordable(After(NOTHING, asks, bids, y), w)
    ensures Largest(asks, bids, w, x)
  {
    AfterIsDepthAt(asks, bids, x);
    CrossedIffMerged(asks, bids, x);
    forall y | Crossed(asks, bids, y) && Affordable(DepthAt(asks, bids, y), w) ensures y <= x {
      CrossedIffMerged(asks, bids, y);
      AfterIsDepthAt(asks, bids, y);
    }
  }

  lemma {:induction false} LastIsFarthest(asks: seq<PriceLevel>, bids: seq<PriceLevel>, w: Wallets, quo: Quotient,
                                          v: Visit)
    requires Positive(asks) && Positive(bids) && v in Visits(NOTHING, Merge(asks, bids), w, quo)
    ensures
      var visits := Visits(NOTHING, Merge(asks, bids), w, quo);
      var last := visits[|visits| - 1].depth;
      v.depth.base <= last.base && v.depth.buyNotional <= last.buyNotional
  {
    MergePositive(asks, bids);
    LastFrom(NOTHING, Merge(asks, bids), w, quo, v);
  }

  lemma {:induction false} LastFrom(d: DepthResult, segments: seq<Segment>, w: Wallets, quo: Quotient, v: Visit)
    requires Rising(segments) && v in Visits(d, segments, w, quo)
    ensures
      var visits := Visits(d, segments, w, quo);
      var last := visits[|visits| - 1].depth;
      v.depth.base <= last.base && v.depth.buyNotional <= last.buyNotional
    decreases segments
  {
    var visits := Visits(d, segments, w, quo);
    var next := visits[0].depth;
    if |visits| > 1 {
      assert visits[1..] == Visits(next, segments[1..], w, quo);
      assert visits[|visits| - 1] == visits[1..][|visits| - 2];
      if v == visits[0] {
        VisitsForward(next, segments[1..], w, quo, visits[|visits| - 1]);
      } else {
        LastFrom(next, segments[1..], w, quo, v);
      }
    }
  }
}
