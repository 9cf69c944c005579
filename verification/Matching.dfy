/** The plain walk finds the most gross profit that matching the two sides can make, and a case where
    scoring breakpoints only passes a profitable size by. */
module Matching {
  import opened Arithmetic
  import opened Exchange
  import opened Depth
  import opened DepthTheorems
  import opened Allocations
  import opened Sizing
  import opened Optimality

  /** Wallets without fees, for which net profit is gross profit. */
  const FREE := Wallets(0.0, 0.0, 0.0, 0.0, 0.0, 0.0, 0.0)

  ghost function Gross(d: DepthResult): real {
    d.sellNotional - d.buyNotional
  }

  ghost function Nought(): Quotient {
    (a: real, b: real) => 0.0
  }

  lemma GrossIsFreeNet(d: DepthResult)
    ensures Net(d, FREE, Nought()) == Gross(d) && Rates(FREE, Nought())
  {
  }

  lemma {:induction false} GrossUncrossed(d: DepthResult, asks: seq<PriceLevel>, bids: seq<PriceLevel>, y: real)
    requires AskSide(asks) && BidSide(bids) && Merge(asks, bids) == []
    requires 0.0 <= y <= Total(asks) && y <= Total(bids)
    ensures Gross(After(d, asks, bids, y)) <= Gross(d)
  {
    hide *;
    GrossIsFreeNet(d);
    GrossIsFreeNet(After(d, asks, bids, y));
    PastCrossing(d, asks, bids, y, FREE, Nought());
  }

  lemma GrossWithin(d: DepthResult, asks: seq<PriceLevel>, bids: seq<PriceLevel>, y: real, z: real)
    requires asks != [] && bids != [] && asks[0].price < bids[0].price
    requires 0.0 <= y <= z <= asks[0].quantity && z <= bids[0].quantity
    ensures Gross(After(d, asks, bids, y)) <= Gross(After(d, asks, bids, z))
  {
    var gain := bids[0].price - asks[0].price;
    AfterWithin(d, asks, bids, y);
    AfterWithin(d, asks, bids, z);
    hide Notional, After;
    MulMonotone(y, z, gain);
  }

  /** Gross profit rises up to the crossed volume and never after it. */
  lemma {:induction false} GrossPeak(d: DepthResult, asks: seq<PriceLevel>, bids: seq<PriceLevel>, y: real, z: real)
    requires AskSide(asks) && BidSide(bids)
    requires 0.0 <= y <= Total(asks) && y <= Total(bids)
    requires 0.0 <= z <= Volume(Merge(asks, bids)) && (y <= z || z == Volume(Merge(asks, bids)))
    ensures Gross(After(d, asks, bids, y)) <= Gross(After(d, asks, bids, z))
    decreases |asks| + |bids|
  {
    hide *;
    if Merge(asks, bids) == [] {
      NoVolume();
      GrossUncrossed(d, asks, bids, y);
      AtStart(d, asks, bids);
    } else {
      HeadStretchOf(asks, bids);
      var m := Merge(asks, bids)[0].size;
      var next, asks', bids' := d.Add(m, asks[0].price, bids[0].price), Consume(asks, m), Consume(bids, m);
      if z < m {
        GrossWithin(d, asks, bids, y, z);
      } else {
        TakeStretch(d, asks, bids, m, z);
        if y <= m {
          GrossWithin(d, asks, bids, y, m);
          TakeStretch(d, asks, bids, m, m);
          SidesTotal(asks', bids');
          GrossPeak(next, asks', bids', 0.0, z - m);
        } else {
          TakeStretch(d, asks, bids, m, y);
          GrossPeak(next, asks', bids', y - m, z - m);
        }
      }
    }
  }

  lemma NoVolume()
    ensures Volume([]) == 0.0
  {
  }

  lemma {:induction false} HeadStretchOf(asks: seq<PriceLevel>, bids: seq<PriceLevel>)
    requires AskSide(asks) && BidSide(bids) && Merge(asks, bids) != []
    ensures asks != [] && bids != [] && asks[0].price < bids[0].price
    ensures
      var m := Merge(asks, bids)[0].size;
      var asks', bids' := Consume(asks, m), Consume(bids, m);
      && 0.0 < m <= asks[0].quantity && m <= bids[0].quantity && m == Min(asks[0].quantity, bids[0].quantity)
      && |asks'| + |bids'| < |asks| + |bids|
      && 0.0 <= Volume(Merge(asks', bids')) == Volume(Merge(asks, bids)) - m
  {
    var m := Merge(asks, bids)[0].size;
    assert Merge(asks, bids)[1..] == Merge(Consume(asks, m), Consume(bids, m));
    ConsumeSides(asks, bids, m);
    MergePositive(Consume(asks, m), Consume(bids, m));
  }

  lemma {:induction false} SidesTotal(asks: seq<PriceLevel>, bids: seq<PriceLevel>)
    requires AskSide(asks) && BidSide(bids)
    ensures Total(asks) >= 0.0 && Total(bids) >= 0.0
  {
    TotalNonNegative(asks);
    TotalNonNegative(bids);
  }

  /** No matching of the two ladders, of any size the cap allows, grosses more than the walk. */
  lemma {:induction false} WalkIsBestMatching(asks: seq<PriceLevel>, bids: seq<PriceLevel>, cap: real,
                                              buys: seq<real>, sells: seq<real>)
    requires AskSide(asks) && BidSide(bids)
    requires Allocation(asks, buys) && Allocation(bids, sells) && Sum(buys) == Sum(sells)
    requires cap > 0.0 ==> Sum(buys) <= cap
    ensures Value(bids, sells) - Value(asks, buys) <= Gross(Walked(NOTHING, Merge(asks, bids), cap))
  {
    var x, z := Sum(buys), Reached(asks, bids, cap);
    SumWithin(asks, buys);
    SumWithin(bids, sells);
    BookOrderIsCheapest(asks, buys);
    BookOrderIsDearest(bids, sells);
    WalkReachesCrossing(asks, bids, cap);
    MergePositive(asks, bids);
    hide Notional, Merge, Walked, Total, AskSide, BidSide, Volume;
    GrossPeak(NOTHING, asks, bids, x, z);
    AfterIsDepthAt(asks, bids, x);
    AfterIsDepthAt(asks, bids, z);
  }

  // ----- A profitable size between breakpoints -----

  const ASKS := [PriceLevel(100.0, 1.0), PriceLevel(109.0, 10.0)]
  const BIDS := [PriceLevel(110.0, 11.0)]
  const MINIMUM_TWO := Wallets(200000.0, 20.0, 0.02, 0.0, 0.0, 2.0, 0.0)

  function Quo(a: real, b: real): real {
    if b == 0.0 then 0.0 else a / b
  }

  /** With a base minimum of two, the only scored size that meets it is the whole crossed volume,
      which loses 3.80; a size of two would have netted 6.82. */
  lemma ProfitableSizePassedBy()
    ensures AskSide(ASKS) && BidSide(BIDS) && Exact(Quo) && Rates(MINIMUM_TWO, Quo)
    ensures BestNetDepth(ASKS, BIDS, MINIMUM_TWO, Quo).meetsMinimum
    ensures BestNetDepth(ASKS, BIDS, MINIMUM_TWO, Quo).net == -3.8
    ensures Crossed(ASKS, BIDS, 2.0) && Affordable(DepthAt(ASKS, BIDS, 2.0), MINIMUM_TWO)
    ensures MeetsMinimum(DepthAt(ASKS, BIDS, 2.0), MINIMUM_TWO)
    ensures Net(DepthAt(ASKS, BIDS, 2.0), MINIMUM_TWO, Quo) == 6.82
  {
    ExampleSides();
    ExampleMerge();
    ExampleVisits();
    ExampleChoice();
    hide Merge, Visits, Choose, StepSize;
    assert ASKS[1..] == [ASKS[1]];
    assert DepthAt(ASKS, BIDS, 2.0) == DepthResult(2.0, 209.0, 220.0);
    assert Exact(Quo);
  }

  const FIRST := DepthResult(1.0, 100.0, 110.0)
  const LAST := DepthResult(11.0, 1190.0, 1210.0)

  lemma ExampleSides()
    ensures AskSide(ASKS) && BidSide(BIDS) && Crossed(ASKS, BIDS, 2.0)
  {
    assert ASKS[1..] == [ASKS[1]];
    assert Total(BIDS) == 11.0 && Total(ASKS) == 11.0;
  }

  lemma ExampleMerge()
    ensures Merge(ASKS, BIDS) == [Segment(1.0, 100.0, 110.0), Segment(10.0, 109.0, 110.0)]
  {
    var asks', bids' := Consume(ASKS, 1.0), Consume(BIDS, 1.0);
    assert asks' == [ASKS[1]] && bids' == [PriceLevel(110.0, 10.0)];
    assert Merge(Consume(asks', 10.0), Consume(bids', 10.0)) == [];
    assert Merge(asks', bids') == [Segment(10.0, 109.0, 110.0)];
  }

  lemma ExampleVisits()
    ensures Visits(NOTHING, [Segment(1.0, 100.0, 110.0), Segment(10.0, 109.0, 110.0)], MINIMUM_TWO, Quo)
         == [Visit(FIRST, false), Visit(LAST, false)]
  {
    var one, rest := Segment(1.0, 100.0, 110.0), Segment(10.0, 109.0, 110.0);
    assert StepSize(NOTHING, one, MINIMUM_TWO, Quo) == 1.0;
    assert StepSize(FIRST, rest, MINIMUM_TWO, Quo) == 10.0;
    assert [rest][1..] == [];
    assert Visits(FIRST, [rest], MINIMUM_TWO, Quo) == [Visit(LAST, false)] + Visits(LAST, [], MINIMUM_TWO, Quo);
    assert [one, rest][1..] == [rest];
  }

  lemma ExampleChoice()
    ensures Choose(NO_SELECTION, [Visit(FIRST, false), Visit(LAST, false)], MINIMUM_TWO, Quo)
         == Candidate(Visit(LAST, false), MINIMUM_TWO, Quo)
  {
    var visits := [Visit(FIRST, false), Visit(LAST, false)];
    var kept := Better(NO_SELECTION, Candidate(visits[0], MINIMUM_TWO, Quo));
    assert visits[1..] == [visits[1]] && visits[1..][1..] == [];
    assert Choose(kept, visits[1..], MINIMUM_TWO, Quo) == Better(kept, Candidate(visits[1], MINIMUM_TWO, Quo));
  }

  // ----- A cap of zero -----

  const OFFER := [PriceLevel(100.0, 1.0)]
  const DEMAND := [PriceLevel(110.0, 1.0)]
  const NO_QUOTE := Wallets(0.0, 20.0, 0.02, 0.0, 0.0, 0.0, 0.0)

  /** On a crossed book and an empty quote wallet nothing is chosen, and the plain walk asked for that
      size of zero takes the whole book. */
  lemma ZeroCapTakesAll()
    ensures AskSide(OFFER) && BidSide(DEMAND)
    ensures BestNetDepth(OFFER, DEMAND, NO_QUOTE, Quo).depth == NOTHING
    ensures Walked(NOTHING, Merge(OFFER, DEMAND), NOTHING.base) == DepthResult(1.0, 100.0, 110.0)
  {
    assert Consume(OFFER, 1.0) == [] && Consume(DEMAND, 1.0) == [];
    assert Merge(OFFER, DEMAND) == [Segment(1.0, 100.0, 110.0)];
    assert [Segment(1.0, 100.0, 110.0)][1..] == [];
    assert Visits(NOTHING, Merge(OFFER, DEMAND), NO_QUOTE, Quo) == [];
  }
}
