/** The two-pointer walk down an ask ladder and a bid ladder (internal/arbitrage/routes.go). */
module Depth {
  import opened Arithmetic
  import opened Exchange

  /** What a walk has taken so far: base bought and sold, and the two notionals. */
  datatype DepthResult = DepthResult(base: real, buyNotional: real, sellNotional: real)
  {
    function Add(size: real, ask: real, bid: real): DepthResult {
      DepthResult(base + size, buyNotional + size * ask, sellNotional + size * bid)
    }
  }

  const NOTHING := DepthResult(0.0, 0.0, 0.0)

  // ----- One side of a book, read as a curve -----

  /** All the base a ladder offers. */
  ghost function Total(levels: seq<PriceLevel>): real {
    if levels == [] then 0.0 else levels[0].quantity + Total(levels[1..])
  }

  /** The value of the first `x` units of base, taken in book order. */
  ghost function Notional(levels: seq<PriceLevel>, x: real): real {
    if levels == [] then 0.0
    else if x <= levels[0].quantity then x * levels[0].price
    else levels[0].quantity * levels[0].price + Notional(levels[1..], x - levels[0].quantity)
  }

  /** The price of the unit of base at offset `t`. */
  ghost function PriceAt(levels: seq<PriceLevel>, t: real): real {
    if levels == [] then 0.0
    else if t < levels[0].quantity then levels[0].price
    else PriceAt(levels[1..], t - levels[0].quantity)
  }

  /** The size `x` is crossed when every unit of it is bid above its ask. */
  ghost predicate Crossed(asks: seq<PriceLevel>, bids: seq<PriceLevel>, x: real) {
    && 0.0 <= x <= Total(asks) && x <= Total(bids)
    && forall t :: 0.0 <= t < x ==> PriceAt(asks, t) < PriceAt(bids, t)
  }

  ghost function DepthAt(asks: seq<PriceLevel>, bids: seq<PriceLevel>, x: real): DepthResult {
    DepthResult(x, Notional(asks, x), Notional(bids, x))
  }

  // ----- The merge of two sides -----

  /** A stretch of base with one ask price and one bid price. */
  datatype Segment = Segment(size: real, ask: real, bid: real)

  /** The ladder left after taking `m` from its first level. */
  function Consume(levels: seq<PriceLevel>, m: real): (rest: seq<PriceLevel>)
    requires levels != []
    ensures |rest| == |levels| || (|rest| == |levels| - 1 && levels[0].quantity == m)
  {
    if levels[0].quantity - m == 0.0 then levels[1..]
    else [levels[0].(quantity := levels[0].quantity - m)] + levels[1..]
  }

  /** The crossed stretches of two ladders, best first. */
  function Merge(asks: seq<PriceLevel>, bids: seq<PriceLevel>): seq<Segment>
    decreases |asks| + |bids|
  {
    if asks == [] || bids == [] || bids[0].price <= asks[0].price then []
    else
      var m := Min(asks[0].quantity, bids[0].quantity);
      if m <= 0.0 then []
      else [Segment(m, asks[0].price, bids[0].price)] + Merge(Consume(asks, m), Consume(bids, m))
  }

  ghost function Volume(segments: seq<Segment>): real {
    if segments == [] then 0.0 else segments[0].size + Volume(segments[1..])
  }

  /** The walk over merged segments, up to `cap` when the cap is positive. */
  function Walked(d: DepthResult, segments: seq<Segment>, cap: real): DepthResult
    decreases segments
  {
    if segments == [] then d
    else
      var s := segments[0];
      if cap <= 0.0 then Walked(d.Add(s.size, s.ask, s.bid), segments[1..], cap)
      else if cap - d.base <= 0.0 then d
      else if cap - d.base < s.size then d.Add(cap - d.base, s.ask, s.bid)
      else Walked(d.Add(s.size, s.ask, s.bid), segments[1..], cap)
  }

  /** The ladder that the indices and remainder of a walk still point at. */
  function Rest(levels: seq<PriceLevel>, index: nat, remaining: real): seq<PriceLevel>
    requires index <= |levels|
  {
    if index == |levels| then []
    else if remaining == 0.0 then levels[index..]
    else [levels[index].(quantity := remaining)] + levels[index + 1..]
  }

  function Loaded(levels: seq<PriceLevel>, index: nat, remaining: real): real
    requires index < |levels|
  {
    if remaining == 0.0 then levels[index].quantity else remaining
  }

  lemma RestHead(levels: seq<PriceLevel>, index: nat, remaining: real)
    requires index < |levels|
    ensures
      var rest := Rest(levels, index, remaining);
      && rest != [] && rest[0] == PriceLevel(levels[index].price, Loaded(levels, index, remaining))
      && rest[1..] == levels[index + 1..]
  {
  }

  /** One step of a walk along a ladder takes `size` off the front of what is left of it. */
  lemma Advance(levels: seq<PriceLevel>, index: nat, remaining: real, size: real, index': nat, remaining': real)
    requires index < |levels|
    requires remaining' == Loaded(levels, index, remaining) - size
    requires index' == if remaining' == 0.0 then index + 1 else index
    ensures Rest(levels, index, remaining) != []
    ensures Rest(levels, index', remaining') == Consume(Rest(levels, index, remaining), size)
  {
    RestHead(levels, index, remaining);
  }

  /** The walk from here on, over any two ladders: up to the cap when it is positive, and as far as the
      first stretch that is not crossed or of size zero. */
  function WalkOn(d: DepthResult, asks: seq<PriceLevel>, bids: seq<PriceLevel>, cap: real): DepthResult
    decreases |asks| + |bids|, if cap > 0.0 && d.base >= cap then 0 else 1
  {
    if asks == [] || bids == [] || bids[0].price <= asks[0].price then d
    else if cap > 0.0 && d.base >= cap then d
    else
      var m := Min(asks[0].quantity, bids[0].quantity);
      var size := if cap > 0.0 then Min(m, cap - d.base) else m;
      if size == 0.0 then d
      else WalkOn(d.Add(size, asks[0].price, bids[0].price), Consume(asks, size), Consume(bids, size), cap)
  }

  ghost predicate NonNegative(levels: seq<PriceLevel>) {
    forall i | 0 <= i < |levels| :: levels[i].quantity >= 0.0
  }

  /** Without negative quantities the walk takes the merged stretches in order. */
  lemma {:induction false} WalkOnMerged(d: DepthResult, asks: seq<PriceLevel>, bids: seq<PriceLevel>, cap: real)
    requires NonNegative(asks) && NonNegative(bids)
    ensures WalkOn(d, asks, bids, cap) == Walked(d, Merge(asks, bids), cap)
    decreases |asks| + |bids|
  {
    var segments := Merge(asks, bids);
    if segments != [] && (cap <= 0.0 || d.base < cap) {
      var s := segments[0];
      if cap > 0.0 && cap - d.base < s.size {
        var last := d.Add(cap - d.base, s.ask, s.bid);
        assert cap > 0.0 && last.base >= cap;
      } else {
        assert segments[1..] == Merge(Consume(asks, s.size), Consume(bids, s.size));
        WalkOnMerged(d.Add(s.size, s.ask, s.bid), Consume(asks, s.size), Consume(bids, s.size), cap);
      }
    }
  }

  lemma {:induction false} WalkOnStep(d: DepthResult, asks: seq<PriceLevel>, bids: seq<PriceLevel>, cap: real,
                                      size: real)
    requires asks != [] && bids != [] && asks[0].price < bids[0].price && size != 0.0 && (cap > 0.0 ==> d.base < cap)
    requires
      var m := Min(asks[0].quantity, bids[0].quantity);
      size == if cap > 0.0 then Min(m, cap - d.base) else m
    ensures WalkOn(d, asks, bids, cap)
         == WalkOn(d.Add(size, asks[0].price, bids[0].price), Consume(asks, size), Consume(bids, size), cap)
  {
  }

  lemma {:induction false} WalkOnStop(d: DepthResult, asks: seq<PriceLevel>, bids: seq<PriceLevel>, cap: real)
    requires asks == [] || bids == [] || bids[0].price <= asks[0].price || (cap > 0.0 && d.base >= cap)
             || Min(asks[0].quantity, bids[0].quantity) == 0.0
    ensures WalkOn(d, asks, bids, cap) == d
  {
  }

  /** Ends on any two ladders and any cap: an uncapped step uses up a level, and a capped step that uses
      up none has reached the cap. */
  method WalkExecutableDepth(asks: seq<PriceLevel>, bids: seq<PriceLevel>, maxBase: real)
    returns (depth: DepthResult)
    ensures depth == WalkOn(NOTHING, asks, bids, maxBase)
    ensures NonNegative(asks) && NonNegative(bids) ==> depth == Walked(NOTHING, Merge(asks, bids), maxBase)
  {
    hide Merge, Walked, NonNegative, WalkOn, Consume;
    depth := NOTHING;
    var askIndex, bidIndex := 0, 0;
    var askRemaining, bidRemaining := 0.0, 0.0;
    assert Rest(asks, 0, 0.0) == asks && Rest(bids, 0, 0.0) == bids;
    if NonNegative(asks) && NonNegative(bids) {
      WalkOnMerged(NOTHING, asks, bids, maxBase);
    }
    if asks == [] || bids == [] {
      WalkOnStop(NOTHING, asks, bids, maxBase);
    }

    while askIndex < |asks| && bidIndex < |bids|
      invariant 0 <= askIndex <= |asks| && 0 <= bidIndex <= |bids|
      invariant WalkOn(depth, Rest(asks, askIndex, askRemaining), Rest(bids, bidIndex, bidRemaining), maxBase)
                == WalkOn(NOTHING, asks, bids, maxBase)
      invariant askIndex == |asks| || bidIndex == |bids| ==> WalkOn(NOTHING, asks, bids, maxBase) == depth
      decreases |asks| - askIndex + |bids| - bidIndex, if maxBase > 0.0 && depth.base >= maxBase then 0 else 1
    {
      var ask, bid := asks[askIndex], bids[bidIndex];
      ghost var a, b := Rest(asks, askIndex, askRemaining), Rest(bids, bidIndex, bidRemaining);
      ghost var askWas, bidWas, i, j := askRemaining, bidRemaining, askIndex, bidIndex;
      RestHead(asks, i, askWas);
      RestHead(bids, j, bidWas);
      if bid.price <= ask.price {
        WalkOnStop(depth, a, b, maxBase);
        break;
      }
      if askRemaining == 0.0 {
        askRemaining := ask.quantity;
      }
      if bidRemaining == 0.0 {
        bidRemaining := bid.quantity;
      }
      var size := Min(askRemaining, bidRemaining);
      if maxBase > 0.0 {
        var remaining := maxBase - depth.base;
        if remaining <= 0.0 {
          WalkOnStop(depth, a, b, maxBase);
          break;
        }
        size := Min(size, remaining);
      }
      if size == 0.0 {
        WalkOnStop(depth, a, b, maxBase);
        break;
      }
      WalkOnStep(depth, a, b, maxBase, size);
      depth := depth.Add(size, ask.price, bid.price);
      askRemaining := askRemaining - size;
      bidRemaining := bidRemaining - size;
      if askRemaining == 0.0 {
        askIndex := askIndex + 1;
      }
      if bidRemaining == 0.0 {
        bidIndex := bidIndex + 1;
      }
      Advance(asks, i, askWas, size, askIndex, askRemaining);
      Advance(bids, j, bidWas, size, bidIndex, bidRemaining);
      if askIndex == |asks| || bidIndex == |bids| {
        WalkOnStop(depth, Rest(asks, askIndex, askRemaining), Rest(bids, bidIndex, bidRemaining), maxBase);
      }
    }
  }
}
