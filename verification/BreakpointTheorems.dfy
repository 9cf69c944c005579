/** Where the breakpoints of the walk lie, read off the two ladders and the wallets alone. */
module BreakpointTheorems {
  import opened Arithmetic
  import opened Exchange
  import opened Depth
  import opened DepthTheorems
  import opened Sizing
  import opened Optimality
  import opened SizingTheorems
  import opened MinimumTheorems

  /** The size takes the first levels of a ladder whole, and nothing more. */
  ghost predicate Edge(levels: seq<PriceLevel>, x: real) {
    exists k :: 0 < k <= |levels| && x == Total(levels[..k])
  }

  /** A size at which a level of either side is used up, or the wallets are. */
  ghost predicate Breakpoint(asks: seq<PriceLevel>, bids: seq<PriceLevel>, w: Wallets, x: real) {
    Edge(asks, x) || Edge(bids, x) || Largest(asks, bids, w, x)
  }

  lemma EdgeBeyondHead(levels: seq<PriceLevel>, x: real)
    requires Positive(levels) && levels != [] && Edge(levels, x)
    ensures x >= levels[0].quantity
  {
    var k :| 0 < k <= |levels| && x == Total(levels[..k]);
    TotalNonNegative(levels[..k][1..]);
  }

  lemma HeadIsEdge(levels: seq<PriceLevel>)
    requires levels != []
    ensures Edge(levels, levels[0].quantity)
  {
    assert levels[..1] == [levels[0]] && levels[..1][1..] == [];
    assert Total(levels[..1]) == levels[0].quantity;
  }

  /** Taking `m` off the first level moves the later edges by `m`. */
  lemma EdgeShift(levels: seq<PriceLevel>, m: real, x: real)
    requires Positive(levels) && levels != [] && 0.0 < m <= levels[0].quantity && m < x
    ensures Edge(levels, x) <==> Edge(Consume(levels, m), x - m)
  {
    var rest := Consume(levels, m);
    var gone := |levels| - |rest|;
    if k :| 0 < k <= |levels| && x == Total(levels[..k]) {
      ConsumePrefix(levels, m, k);
    }
    if k :| 0 < k <= |rest| && x - m == Total(rest[..k]) {
      ConsumePrefix(levels, m, k + gone);
    }
  }

  lemma ConsumePrefix(levels: seq<PriceLevel>, m: real, k: nat)
    requires Positive(levels) && levels != [] && 0.0 < m <= levels[0].quantity && 0 < k <= |levels|
    ensures
      var rest := Consume(levels, m);
      var gone := |levels| - |rest|;
      Total(rest[..k - gone]) == Total(levels[..k]) - m
  {
    var rest := Consume(levels, m);
    assert levels[..k][1..] == levels[1..][..k - 1];
    assert Consume(levels[..k], m) == rest[..k - (|levels| - |rest|)];
    ConsumeTotal(levels[..k], m);
  }

  /** No affordable size within the crossed stretches lies beyond `y`. */
  ghost predicate Farthest(d: DepthResult, asks: seq<PriceLevel>, bids: seq<PriceLevel>, w: Wallets, y: real) {
    forall z | y < z <= Volume(Merge(asks, bids)) :: !Affordable(After(d, asks, bids, z), w)
  }

  /** Before the first breakpoint there is no edge, and the wallets go farther. */
  lemma {:induction false} BeforeHead(d: DepthResult, asks: seq<PriceLevel>, bids: seq<PriceLevel>, y: real,
                                      w: Wallets, quo: Quotient)
    requires AskSide(asks) && BidSide(bids) && Exact(quo) && Rates(w, quo) && Visits(d, Merge(asks, bids), w, quo) != []
    requires 0.0 < y < Visits(d, Merge(asks, bids), w, quo)[0].depth.base - d.base
    ensures Unvisited(Visits(d, Merge(asks, bids), w, quo), d.base + y)
    ensures !Edge(asks, y) && !Edge(bids, y) && !Farthest(d, asks, bids, w, y)
  {
    hide Visits, Merge, After, StepSize, AskSide, BidSide, Rates, Exact, Affordable, Volume, Edge, DepthResult.Add;
    var visits := Visits(d, Merge(asks, bids), w, quo);
    HeadDepth(d, asks, bids, w, quo);
    forall v | v in visits ensures v.depth.base != d.base + y {
      TailVisits(d, asks, bids, w, quo, v);
    }
    SidesPositive(asks, bids);
    if Edge(asks, y) {
      EdgeBeyondHead(asks, y);
    }
    if Edge(bids, y) {
      EdgeBeyondHead(bids, y);
    }
    HeadPays(d, asks, bids, w, quo);
  }

  lemma {:induction false} HeadPays(d: DepthResult, asks: seq<PriceLevel>, bids: seq<PriceLevel>, w: Wallets,
                                    quo: Quotient)
    requires AskSide(asks) && BidSide(bids) && Exact(quo) && Rates(w, quo) && Visits(d, Merge(asks, bids), w, quo) != []
    ensures
      var size := Visits(d, Merge(asks, bids), w, quo)[0].depth.base - d.base;
      size <= Volume(Merge(asks, bids)) && Affordable(After(d, asks, bids, size), w)
  {
    hide Visits, After, StepSize, AskSide, BidSide, Exact, Affordable, Consume, LatencyRate;
    HeadDepth(d, asks, bids, w, quo);
    SidesPositive(asks, bids);
    var s := Merge(asks, bids)[0];
    ConsumeSides(asks, bids, s.size);
    SidesPositive(Consume(asks, s.size), Consume(bids, s.size));
    MergePositive(Consume(asks, s.size), Consume(bids, s.size));
    assert Merge(asks, bids)[1..] == Merge(Consume(asks, s.size), Consume(bids, s.size));
    LimitedStepPays(d, s, w, quo);
  }

  /** The first breakpoint uses up a level, or the wallets. */
  lemma {:induction false} AtHead(d: DepthResult, asks: seq<PriceLevel>, bids: seq<PriceLevel>, w: Wallets,
                                  quo: Quotient)
    requires AskSide(asks) && BidSide(bids) && Exact(quo) && Rates(w, quo) && d.base >= 0.0 && d.buyNotional >= 0.0
    requires Visits(d, Merge(asks, bids), w, quo) != []
    ensures
      var visits := Visits(d, Merge(asks, bids), w, quo);
      var size := visits[0].depth.base - d.base;
      && !Unvisited(visits, d.base + size)
      && (Edge(asks, size) || Edge(bids, size) || Farthest(d, asks, bids, w, size))
  {
    hide Visits, Merge, After, StepSize, AskSide, BidSide, Exact, Affordable, Edge, LatencyRate;
    var visits := Visits(d, Merge(asks, bids), w, quo);
    var size := visits[0].depth.base - d.base;
    assert visits[0] in visits && visits[0].depth.base == d.base + size;
    HeadDepth(d, asks, bids, w, quo);
    HeadIsEdge(asks);
    HeadIsEdge(bids);
    VolumeWithin(asks, bids);
    if size < Merge(asks, bids)[0].size {
      forall z | size < z <= Volume(Merge(asks, bids)) ensures !Affordable(After(d, asks, bids, z), w) {
        if Affordable(After(d, asks, bids, z), w) {
          StepCovers(d, asks, bids, z, w, quo);
        }
      }
    }
  }

  lemma {:induction false} FarthestShift(d: DepthResult, asks: seq<PriceLevel>, bids: seq<PriceLevel>, size: real,
                                         y: real, w: Wallets)
    requires AskSide(asks) && BidSide(bids) && asks != [] && bids != []
    requires 0.0 < size <= asks[0].quantity && size <= bids[0].quantity && size < y
    requires Volume(Merge(asks, bids)) == size + Volume(Merge(Consume(asks, size), Consume(bids, size)))
    ensures
      var next := d.Add(size, asks[0].price, bids[0].price);
      Farthest(d, asks, bids, w, y) <==> Farthest(next, Consume(asks, size), Consume(bids, size), w, y - size)
  {
    hide Merge, After, AskSide, BidSide, Consume, Volume, Affordable, DepthResult.Add;
    var next := d.Add(size, asks[0].price, bids[0].price);
    var asks', bids' := Consume(asks, size), Consume(bids, size);
    if Farthest(d, asks, bids, w, y) {
      forall z | y - size < z <= Volume(Merge(asks', bids')) ensures !Affordable(After(next, asks', bids', z), w) {
        var whole := size + z;
        TakeStretch(d, asks, bids, size, whole);
        assert whole - size == z;
      }
    }
    if Farthest(next, asks', bids', w, y - size) {
      forall z | y < z <= Volume(Merge(asks, bids)) ensures !Affordable(After(d, asks, bids, z), w) {
        TakeStretch(d, asks, bids, size, z);
      }
    }
  }

  lemma PastHead(d: DepthResult, asks: seq<PriceLevel>, bids: seq<PriceLevel>, y: real, w: Wallets, quo: Quotient)
    requires AskSide(asks) && BidSide(bids) && Visits(d, Merge(asks, bids), w, quo) != []
    requires
      var visits := Visits(d, Merge(asks, bids), w, quo);
      var next := visits[0].depth;
      var size := next.base - d.base;
      && asks != [] && bids != [] && size < y
      && visits[1..] == Visits(next, Merge(Consume(asks, size), Consume(bids, size)), w, quo)
      && Volume(Merge(asks, bids)) == size + Volume(Merge(Consume(asks, size), Consume(bids, size)))
    ensures
      var visits := Visits(d, Merge(asks, bids), w, quo);
      var next := visits[0].depth;
      var size := next.base - d.base;
      var asks', bids' := Consume(asks, size), Consume(bids, size);
      && (Unvisited(visits, d.base + y) <==> Unvisited(visits[1..], next.base + (y - size)))
      && (Edge(asks, y) <==> Edge(asks', y - size)) && (Edge(bids, y) <==> Edge(bids', y - size))
      && (Farthest(d, asks, bids, w, y) <==> Farthest(next, asks', bids', w, y - size))
  {
    hide Visits, Merge, After, StepSize, AskSide, BidSide, Consume, Volume, Edge, Farthest, DepthResult.Add;
    var visits := Visits(d, Merge(asks, bids), w, quo);
    var size := visits[0].depth.base - d.base;
    HeadDepth(d, asks, bids, w, quo);
    SidesPositive(asks, bids);
    EdgeShift(asks, size, y);
    EdgeShift(bids, size, y);
    FarthestShift(d, asks, bids, size, y, w);
    assert visits[0].depth.base + (y - size) == d.base + y;
    TailMembers(visits);
    assert forall v | v in visits[1..] :: v in visits;
  }

  /** A payable crossed size is a breakpoint of the walk exactly when it is an edge of either side or the
      farthest the wallets go. */
  lemma {:induction false} VisitedIff(d: DepthResult, asks: seq<PriceLevel>, bids: seq<PriceLevel>, y: real,
                                      w: Wallets, quo: Quotient)
    requires AskSide(asks) && BidSide(bids) && Exact(quo) && Rates(w, quo) && d.base >= 0.0 && d.buyNotional >= 0.0
    requires 0.0 < y <= Volume(Merge(asks, bids)) && Affordable(After(d, asks, bids, y), w)
    ensures !Unvisited(Visits(d, Merge(asks, bids), w, quo), d.base + y)
      <==> Edge(asks, y) || Edge(bids, y) || Farthest(d, asks, bids, w, y)
    decreases |asks| + |bids|
  {
    hide *;
    VolumeWithin(asks, bids);
    Onward(d, asks, bids, y, w, quo);
    var visits := Visits(d, Merge(asks, bids), w, quo);
    var next := visits[0].depth;
    var size := next.base - d.base;
    if y < size {
      BeforeHead(d, asks, bids, y, w, quo);
    } else if y == size {
      AtHead(d, asks, bids, w, quo);
    } else {
      VolumeBeyond(asks, bids, size, y);
      VisitedIff(next, Consume(asks, size), Consume(bids, size), y - size, w, quo);
      PastHead(d, asks, bids, y, w, quo);
    }
  }

  lemma {:induction false} VolumeBeyond(asks: seq<PriceLevel>, bids: seq<PriceLevel>, size: real, y: real)
    requires asks != [] && bids != []
    requires Volume(Merge(asks, bids)) == size + Volume(Merge(Consume(asks, size), Consume(bids, size)))
    requires size < y <= Volume(Merge(asks, bids))
    ensures 0.0 < y - size <= Volume(Merge(Consume(asks, size), Consume(bids, size)))
  {
  }

  /** Scored sizes, without the walk: an affordable crossed size is scored exactly when a level of either
      side ends there or it is the largest affordable one. */
  lemma {:induction false} BreakpointIff(asks: seq<PriceLevel>, bids: seq<PriceLevel>, w: Wallets, quo: Quotient,
                                         x: real)
    requires AskSide(asks) && BidSide(bids) && Exact(quo) && Rates(w, quo)
    requires x > 0.0 && Crossed(asks, bids, x) && Affordable(DepthAt(asks, bids, x), w)
    ensures !Unvisited(Visits(NOTHING, Merge(asks, bids), w, quo), x) <==> Breakpoint(asks, bids, w, x)
  {
    hide Visits, Merge, After, DepthAt, AskSide, BidSide, Rates, Exact, Affordable, Crossed, Volume, Edge, Farthest,
         Largest, Unvisited;
    SidesPositive(asks, bids);
    CrossedIffMerged(asks, bids, x);
    AfterIsDepthAt(asks, bids, x);
    VisitedIff(NOTHING, asks, bids, x, w, quo);
    FarthestIsLargest(asks, bids, w, x);
    assert NOTHING.base + x == x;
  }

  lemma FarthestIsLargest(asks: seq<PriceLevel>, bids: seq<PriceLevel>, w: Wallets, x: real)
    requires Positive(asks) && Positive(bids) && Crossed(asks, bids, x) && Affordable(DepthAt(asks, bids, x), w)
    ensures Farthest(NOTHING, asks, bids, w, x) <==> Largest(asks, bids, w, x)
  {
    hide Merge, After, DepthAt, Affordable, Crossed, Volume;
    CrossedIffMerged(asks, bids, x);
    forall y
      ensures Crossed(asks, bids, y) <==> 0.0 <= y <= Volume(Merge(asks, bids))
      ensures After(NOTHING, asks, bids, y) == DepthAt(asks, bids, y)
    {
      CrossedIffMerged(asks, bids, y);
      AfterIsDepthAt(asks, bids, y);
    }
  }

  // ----- Partial sizes -----

  lemma {:induction false} HeadLimitedIff(d: DepthResult, asks: seq<PriceLevel>, bids: seq<PriceLevel>, w: Wallets,
                                          quo: Quotient)
    requires AskSide(asks) && BidSide(bids) && Visits(d, Merge(asks, bids), w, quo) != []
    ensures
      var v := Visits(d, Merge(asks, bids), w, quo)[0];
      v.limited <==> !Edge(asks, v.depth.base - d.base) && !Edge(bids, v.depth.base - d.base)
  {
    hide Visits, Merge, After, StepSize, AskSide, BidSide, Edge, DepthResult.Add;
    var size := Visits(d, Merge(asks, bids), w, quo)[0].depth.base - d.base;
    HeadDepth(d, asks, bids, w, quo);
    VisitsHead(d, asks, bids, w, quo);
    SidesPositive(asks, bids);
    HeadIsEdge(asks);
    HeadIsEdge(bids);
    if Edge(asks, size) {
      EdgeBeyondHead(asks, size);
    }
    if Edge(bids, size) {
      EdgeBeyondHead(bids, size);
    }
  }

  /** A breakpoint counts as cut short by a wallet exactly when no level of either side ends there. */
  lemma {:induction false} LimitedIff(d: DepthResult, asks: seq<PriceLevel>, bids: seq<PriceLevel>, w: Wallets,
                                      quo: Quotient, v: Visit)
    requires AskSide(asks) && BidSide(bids) && v in Visits(d, Merge(asks, bids), w, quo)
    ensures v.limited <==> !Edge(asks, v.depth.base - d.base) && !Edge(bids, v.depth.base - d.base)
    decreases |asks| + |bids|
  {
    hide Visits, Merge, After, StepSize, AskSide, BidSide, Edge, DepthResult.Add;
    var visits := Visits(d, Merge(asks, bids), w, quo);
    HeadLimitedIff(d, asks, bids, w, quo);
    HeadDepth(d, asks, bids, w, quo);
    TailVisits(d, asks, bids, w, quo, v);
    if v != visits[0] {
      var next, size := visits[0].depth, Merge(asks, bids)[0].size;
      VisitsHead(d, asks, bids, w, quo);
      ConsumeSides(asks, bids, size);
      LimitedIff(next, Consume(asks, size), Consume(bids, size), w, quo, v);
      SidesPositive(asks, bids);
      var x := v.depth.base - d.base;
      EdgeShift(asks, size, x);
      EdgeShift(bids, size, x);
      assert v.depth.base - next.base == x - size;
    }
  }

  /** A selection is partial exactly when its size ends no level of either side. */
  lemma PartialIff(asks: seq<PriceLevel>, bids: seq<PriceLevel>, w: Wallets, quo: Quotient)
    requires AskSide(asks) && BidSide(bids) && BestNetDepth(asks, bids, w, quo).hasDepth
    ensures
      var s := BestNetDepth(asks, bids, w, quo);
      s.partial <==> !Edge(asks, s.depth.base) && !Edge(bids, s.depth.base)
  {
    var visits := Visits(NOTHING, Merge(asks, bids), w, quo);
    hide Visits, Merge, Edge, AskSide, BidSide, Net, MeetsMinimum, Choose;
    Chosen(NO_SELECTION, visits, w, quo);
    var v :| v in visits && BestNetDepth(asks, bids, w, quo) == Candidate(v, w, quo);
    LimitedIff(NOTHING, asks, bids, w, quo, v);
    assert v.depth.base - NOTHING.base == v.depth.base;
  }
}
