/** What the two-pointer walk computes: it stops exactly at the end of the crossed region, and it
    reads both price curves correctly at every size on the way. */
module DepthTheorems {
  import opened Arithmetic
  import opened Exchange
  import opened Depth

  // ----- Curves under consumption -----

  lemma ConsumePositive(levels: seq<PriceLevel>, m: real)
    requires Positive(levels) && levels != [] && 0.0 < m <= levels[0].quantity
    ensures Positive(Consume(levels, m))
  {
  }

  lemma {:induction false} TotalNonNegative(levels: seq<PriceLevel>)
    requires Positive(levels)
    ensures Total(levels) >= 0.0
    ensures levels != [] ==> Total(levels) >= levels[0].quantity
  {
    if levels != [] {
      TotalNonNegative(levels[1..]);
    }
  }

  lemma {:induction false} ConsumeTotal(levels: seq<PriceLevel>, m: real)
    requires levels != []
    ensures Total(Consume(levels, m)) == Total(levels) - m
  {
  }

  lemma {:induction false} ConsumeNotional(levels: seq<PriceLevel>, m: real, y: real)
    requires Positive(levels) && levels != [] && 0.0 < m <= levels[0].quantity && 0.0 <= y
    ensures Notional(levels, m + y) == m * levels[0].price + Notional(Consume(levels, m), y)
  {
    var rest := Consume(levels, m);
    if m < levels[0].quantity {
      assert rest[1..] == levels[1..];
      if m + y > levels[0].quantity {
        assert y - (levels[0].quantity - m) == m + y - levels[0].quantity;
      }
    } else if y == 0.0 {
      assert Notional(rest, y) == 0.0;
    }
  }

  lemma {:induction false} ConsumePriceAt(levels: seq<PriceLevel>, m: real, t: real)
    requires Positive(levels) && levels != [] && 0.0 < m <= levels[0].quantity && 0.0 <= t
    ensures PriceAt(levels, m + t) == PriceAt(Consume(levels, m), t)
  {
    var rest := Consume(levels, m);
    if m < levels[0].quantity {
      assert rest[1..] == levels[1..];
      assert t - (levels[0].quantity - m) == m + t - levels[0].quantity;
    }
  }

  // ----- Where the walk ends -----

  lemma {:induction false} MergePositive(asks: seq<PriceLevel>, bids: seq<PriceLevel>)
    requires Positive(asks) && Positive(bids)
    ensures forall i | 0 <= i < |Merge(asks, bids)| :: Merge(asks, bids)[i].size > 0.0 && Merge(asks, bids)[i].ask > 0.0
    ensures 0.0 <= Volume(Merge(asks, bids)) <= Total(asks) && Volume(Merge(asks, bids)) <= Total(bids)
    decreases |asks| + |bids|
  {
    TotalNonNegative(asks);
    TotalNonNegative(bids);
    if asks != [] && bids != [] && bids[0].price > asks[0].price {
      var m := Min(asks[0].quantity, bids[0].quantity);
      ConsumePositive(asks, m);
      ConsumePositive(bids, m);
      MergePositive(Consume(asks, m), Consume(bids, m));
      ConsumeTotal(asks, m);
      ConsumeTotal(bids, m);
    }
  }

  /** The merged volume is the boundary of the crossed region: a size is crossed, unit by unit,
      exactly when it does not exceed the volume of the merge. */
  lemma {:induction false} CrossedIffMerged(asks: seq<PriceLevel>, bids: seq<PriceLevel>, x: real)
    requires Positive(asks) && Positive(bids)
    ensures Crossed(asks, bids, x) <==> 0.0 <= x <= Volume(Merge(asks, bids))
    decreases |asks| + |bids|
  {
    TotalNonNegative(asks);
    TotalNonNegative(bids);
    if asks == [] || bids == [] {
    } else if bids[0].price <= asks[0].price {
      if x > 0.0 {
        assert !(PriceAt(asks, 0.0) < PriceAt(bids, 0.0));
      }
    } else {
      var m := Min(asks[0].quantity, bids[0].quantity);
      var asks', bids' := Consume(asks, m), Consume(bids, m);
      ConsumePositive(asks, m);
      ConsumePositive(bids, m);
      ConsumeTotal(asks, m);
      ConsumeTotal(bids, m);
      MergePositive(asks', bids');
      CrossedIffMerged(asks', bids', x - m);
      if x >= m {
        CrossedShift(asks, bids, m, x);
      }
    }
  }

  lemma CrossedShift(asks: seq<PriceLevel>, bids: seq<PriceLevel>, m: real, x: real)
    requires Positive(asks) && Positive(bids) && asks != [] && bids != []
    requires asks[0].price < bids[0].price && m == Min(asks[0].quantity, bids[0].quantity) && m <= x
    ensures Crossed(asks, bids, x) <==> Crossed(Consume(asks, m), Consume(bids, m), x - m)
  {
    var asks', bids' := Consume(asks, m), Consume(bids, m);
    ConsumeTotal(asks, m);
    ConsumeTotal(bids, m);
    if Crossed(asks, bids, x) {
      forall t | 0.0 <= t < x - m ensures PriceAt(asks', t) < PriceAt(bids', t) {
        ConsumePriceAt(asks, m, t);
        ConsumePriceAt(bids, m, t);
        assert 0.0 <= m + t < x;
      }
    }
    if Crossed(asks', bids', x - m) {
      forall t | 0.0 <= t < x ensures PriceAt(asks, t) < PriceAt(bids, t) {
        if t >= m {
          ConsumePriceAt(asks, m, t - m);
          ConsumePriceAt(bids, m, t - m);
          assert 0.0 <= t - m < x - m;
        }
      }
    }
  }

  /** The size a walk with cap `cap` reaches; a cap of zero or less is no cap. */
  ghost function Reached(asks: seq<PriceLevel>, bids: seq<PriceLevel>, cap: real): real {
    var all := Volume(Merge(asks, bids));
    if cap > 0.0 then Min(cap, all) else all
  }

  /** The depth after taking `x` more from both ladders. */
  ghost function After(d: DepthResult, asks: seq<PriceLevel>, bids: seq<PriceLevel>, x: real): DepthResult {
    DepthResult(d.base + x, d.buyNotional + Notional(asks, x), d.sellNotional + Notional(bids, x))
  }

  lemma AfterWithin(d: DepthResult, asks: seq<PriceLevel>, bids: seq<PriceLevel>, x: real)
    requires asks != [] && bids != [] && x <= asks[0].quantity && x <= bids[0].quantity
    ensures After(d, asks, bids, x) == d.Add(x, asks[0].price, bids[0].price)
  {
    assert Notional(asks, x) == x * asks[0].price && Notional(bids, x) == x * bids[0].price;
  }

  lemma AfterNothing(d: DepthResult, asks: seq<PriceLevel>, bids: seq<PriceLevel>)
    requires Positive(asks) && Positive(bids)
    ensures After(d, asks, bids, 0.0) == d
  {
  }

  lemma AfterStep(d: DepthResult, asks: seq<PriceLevel>, bids: seq<PriceLevel>, m: real, y: real)
    requires Positive(asks) && Positive(bids) && asks != [] && bids != []
    requires 0.0 < m <= asks[0].quantity && m <= bids[0].quantity && 0.0 <= y
    ensures After(d, asks, bids, m + y)
         == After(d.Add(m, asks[0].price, bids[0].price), Consume(asks, m), Consume(bids, m), y)
  {
    ConsumeNotional(asks, m, y);
    ConsumeNotional(bids, m, y);
  }

  ghost function Room(d: DepthResult, segments: seq<Segment>, cap: real): real {
    if cap > 0.0 then Min(cap - d.base, Volume(segments)) else Volume(segments)
  }

  lemma RoomStep(d: DepthResult, segments: seq<Segment>, cap: real)
    requires segments != [] && (cap > 0.0 ==> segments[0].size <= cap - d.base)
    ensures Room(d, segments, cap)
         == segments[0].size + Room(d.Add(segments[0].size, segments[0].ask, segments[0].bid), segments[1..], cap)
  {
  }

  lemma {:induction false} WalkedFrom(d: DepthResult, asks: seq<PriceLevel>, bids: seq<PriceLevel>, cap: real)
    requires Positive(asks) && Positive(bids)
    requires cap > 0.0 ==> d.base <= cap
    ensures Walked(d, Merge(asks, bids), cap) == After(d, asks, bids, Room(d, Merge(asks, bids), cap))
    decreases |asks| + |bids|
  {
    hide After, Positive;
    MergePositive(asks, bids);
    var segments := Merge(asks, bids);
    if segments == [] {
      AfterNothing(d, asks, bids);
    } else {
      var m, ask, bid := segments[0].size, asks[0].price, bids[0].price;
      var asks', bids' := Consume(asks, m), Consume(bids, m);
      var next := d.Add(m, ask, bid);
      assert segments[0] == Segment(m, ask, bid) && segments[1..] == Merge(asks', bids');
      ConsumePositive(asks, m);
      ConsumePositive(bids, m);
      MergePositive(asks', bids');
      if cap <= 0.0 || m <= cap - d.base {
        WalkedFrom(next, asks', bids', cap);
        RoomStep(d, segments, cap);
        AfterStep(d, asks, bids, m, Room(next, segments[1..], cap));
        if cap > 0.0 && m == cap - d.base {
          AfterNothing(next, asks', bids');
        }
      } else {
        AfterWithin(d, asks, bids, cap - d.base);
      }
    }
  }

  /** The walk reads both curves at the smaller of its cap and the crossed volume. */
  lemma {:induction false} WalkReachesCrossing(asks: seq<PriceLevel>, bids: seq<PriceLevel>, cap: real)
    requires Positive(asks) && Positive(bids)
    ensures Walked(NOTHING, Merge(asks, bids), cap) == DepthAt(asks, bids, Reached(asks, bids, cap))
    ensures Crossed(asks, bids, Reached(asks, bids, cap))
    ensures forall x :: Crossed(asks, bids, x) && (cap > 0.0 ==> x <= cap) ==> x <= Reached(asks, bids, cap)
  {
    WalkedFrom(NOTHING, asks, bids, cap);
    MergePositive(asks, bids);
    forall x ensures Crossed(asks, bids, x) <==> 0.0 <= x <= Volume(Merge(asks, bids)) {
      CrossedIffMerged(asks, bids, x);
    }
  }
}
