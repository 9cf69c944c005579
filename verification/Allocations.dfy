/** Arbitrary ways to fill a ladder, and why taking levels in book order is never worse. */
module Allocations {
  import opened Arithmetic
  import opened Exchange
  import opened Depth

  /** An amount for every level, within what the level offers. */
  ghost predicate Allocation(levels: seq<PriceLevel>, fills: seq<real>) {
    && |fills| == |levels|
    && forall i | 0 <= i < |fills| :: 0.0 <= fills[i] <= levels[i].quantity
  }

  ghost function Sum(fills: seq<real>): real {
    if fills == [] then 0.0 else fills[0] + Sum(fills[1..])
  }

  ghost function Value(levels: seq<PriceLevel>, fills: seq<real>): real
    requires |fills| == |levels|
  {
    if fills == [] then 0.0 else fills[0] * levels[0].price + Value(levels[1..], fills[1..])
  }

  /** The filled amount lies between nothing and everything. */
  lemma {:induction false} SumWithin(levels: seq<PriceLevel>, fills: seq<real>)
    requires Allocation(levels, fills)
    ensures 0.0 <= Sum(fills) <= Total(levels)
  {
    if fills != [] {
      SumWithin(levels[1..], fills[1..]);
    }
  }

  lemma {:induction false} NotionalHead(levels: seq<PriceLevel>, x: real)
    requires levels != [] && x <= levels[0].quantity
    ensures Notional(levels, x) == x * levels[0].price
  {
  }

  lemma NotionalTail(levels: seq<PriceLevel>, x: real)
    requires levels != [] && x > levels[0].quantity
    ensures Notional(levels, x) == levels[0].quantity * levels[0].price + Notional(levels[1..], x - levels[0].quantity)
  {
  }

  /** `d` more units cost at least the least price each. */
  lemma {:induction false} NotionalSlope(levels: seq<PriceLevel>, p: real, y: real, d: real)
    requires Quantified(levels)
    requires forall i | 0 <= i < |levels| :: levels[i].price >= p
    requires 0.0 <= y && 0.0 <= d && y + d <= Total(levels)
    ensures Notional(levels, y + d) - Notional(levels, y) >= d * p
  {
    hide Notional;
    if levels == [] {
      NotionalZero(levels);
    } else {
      var q, rest := levels[0].quantity, levels[1..];
      if y + d <= q {
        SlopeHead(levels, p, y, d);
      } else if y <= q {
        NotionalSlope(rest, p, 0.0, y + d - q);
        NotionalZero(rest);
        SlopeAcross(levels, p, y, d, y + d - q);
      } else {
        NotionalSlope(rest, p, y - q, d);
        assert y - q + d == y + d - q;
        NotionalTail(levels, y + d);
        NotionalTail(levels, y);
      }
    }
  }

  lemma SlopeHead(levels: seq<PriceLevel>, p: real, y: real, d: real)
    requires levels != [] && levels[0].price >= p && 0.0 <= d && y + d <= levels[0].quantity
    ensures Notional(levels, y + d) - Notional(levels, y) >= d * p
  {
    hide *;
    NotionalHead(levels, y + d);
    NotionalHead(levels, y);
    SlopeWithin(levels[0].price, p, y, d);
  }

  lemma SlopeAcross(levels: seq<PriceLevel>, p: real, y: real, d: real, over: real)
    requires levels != [] && levels[0].price >= p && y <= levels[0].quantity < y + d
    requires over == y + d - levels[0].quantity && Notional(levels[1..], over) >= over * p
    ensures Notional(levels, y + d) - Notional(levels, y) >= d * p
  {
    hide *;
    NotionalTail(levels, y + d);
    NotionalHead(levels, y);
    SlopeStep(levels[0].quantity, levels[0].price, p, y, d, over, Notional(levels[1..], over));
  }

  lemma SlopeWithin(price: real, p: real, y: real, d: real)
    requires p <= price && 0.0 <= d
    ensures (y + d) * price - y * price >= d * p
  {
    Distribute(y, d, price);
    MulMonotone(p, price, d);
    assert d * p == p * d && d * price == price * d;
  }

  lemma SlopeStep(q: real, price: real, p: real, y: real, d: real, over: real, rest: real)
    requires p <= price && y <= q && over == y + d - q && rest >= over * p
    ensures q * price + rest - y * price >= d * p
  {
    var within := q - y;
    MulMonotone(p, price, within);
    Split(q, y, within, price);
    Split(d, within, over, p);
    assert p * within == within * p && price * within == within * price;
  }

  ghost predicate Quantified(levels: seq<PriceLevel>) {
    forall i | 0 <= i < |levels| :: levels[i].quantity > 0.0
  }

  lemma {:induction false} NotionalZero(levels: seq<PriceLevel>)
    requires Quantified(levels)
    ensures Notional(levels, 0.0) == 0.0
  {
  }

  lemma {:induction false} NotionalFloor(levels: seq<PriceLevel>, p: real, y: real)
    requires Quantified(levels)
    requires forall i | 0 <= i < |levels| :: levels[i].price >= p
    requires 0.0 <= y <= Total(levels)
    ensures Notional(levels, y) >= y * p
  {
    NotionalSlope(levels, p, 0.0, y);
    NotionalZero(levels);
  }

  /** Taking a ladder cheapest level first costs no more than any other way to take as much. */
  lemma {:induction false} BookOrderIsCheapest(levels: seq<PriceLevel>, fills: seq<real>)
    requires Quantified(levels) && Allocation(levels, fills)
    requires forall i, j | 0 <= i < j < |levels| :: levels[i].price <= levels[j].price
    ensures Notional(levels, Sum(fills)) <= Value(levels, fills)
  {
    hide Notional, Total, Sum, Value;
    if levels == [] {
      NothingFilled(levels, fills);
    } else {
      AllocationTail(levels, fills);
      BookOrderIsCheapest(levels[1..], fills[1..]);
      SumWithin(levels[1..], fills[1..]);
      HeadFirst(levels, fills[0], Sum(fills[1..]));
    }
  }

  lemma {:induction false} NothingFilled(levels: seq<PriceLevel>, fills: seq<real>)
    requires Allocation(levels, fills) && levels == []
    ensures Notional(levels, Sum(fills)) <= Value(levels, fills)
  {
  }

  lemma {:induction false} AllocationTail(levels: seq<PriceLevel>, fills: seq<real>)
    requires Quantified(levels) && Allocation(levels, fills) && levels != []
    ensures Quantified(levels[1..]) && Allocation(levels[1..], fills[1..]) && 0.0 <= fills[0] <= levels[0].quantity
    ensures Sum(fills) == fills[0] + Sum(fills[1..])
    ensures Value(levels, fills) == fills[0] * levels[0].price + Value(levels[1..], fills[1..])
  {
  }

  /** Leaving some of the first level for later costs nothing less. */
  lemma HeadFirst(levels: seq<PriceLevel>, a: real, x: real)
    requires Quantified(levels) && levels != [] && 0.0 <= a <= levels[0].quantity && 0.0 <= x <= Total(levels[1..])
    requires forall i, j | 0 <= i < j < |levels| :: levels[i].price <= levels[j].price
    ensures Notional(levels, a + x) <= a * levels[0].price + Notional(levels[1..], x)
  {
    hide Notional;
    var q, p, rest := levels[0].quantity, levels[0].price, levels[1..];
    if a + x <= q {
      NotionalFloor(rest, p, x);
      NotionalHead(levels, a + x);
      Distribute(a, x, p);
    } else {
      var y, d := a + x - q, q - a;
      NotionalSlope(rest, p, y, d);
      assert y + d == x;
      NotionalTail(levels, a + x);
      Split(q, a, d, p);
    }
  }

  lemma Split(q: real, a: real, d: real, p: real)
    requires q == a + d
    ensures q * p == a * p + d * p
  {
  }

  // ----- The bid side is the ask side with prices negated -----

  ghost function Negated(levels: seq<PriceLevel>): (r: seq<PriceLevel>)
    ensures |r| == |levels|
    ensures forall i | 0 <= i < |r| :: r[i] == PriceLevel(-levels[i].price, levels[i].quantity)
  {
    seq(|levels|, i requires 0 <= i < |levels| => PriceLevel(-levels[i].price, levels[i].quantity))
  }

  lemma {:induction false} NotionalNegated(levels: seq<PriceLevel>, x: real)
    ensures Notional(Negated(levels), x) == -Notional(levels, x)
    ensures Total(Negated(levels)) == Total(levels)
  {
    if levels != [] {
      assert Negated(levels)[1..] == Negated(levels[1..]);
      NotionalNegated(levels[1..], x - levels[0].quantity);
    }
  }

  lemma {:induction false} ValueNegated(levels: seq<PriceLevel>, fills: seq<real>)
    requires |fills| == |levels|
    ensures Value(Negated(levels), fills) == -Value(levels, fills)
  {
    if levels != [] {
      assert Negated(levels)[1..] == Negated(levels[1..]);
      ValueNegated(levels[1..], fills[1..]);
    }
  }

  /** Selling into a ladder highest bid first earns no less than any other way to sell as much. */
  lemma {:induction false} BookOrderIsDearest(levels: seq<PriceLevel>, fills: seq<real>)
    requires BidSide(levels) && Allocation(levels, fills)
    ensures Notional(levels, Sum(fills)) >= Value(levels, fills)
  {
    BookOrderIsCheapest(Negated(levels), fills);
    NotionalNegated(levels, Sum(fills));
    ValueNegated(levels, fills);
  }

  lemma {:induction false} NotionalCeiling(bids: seq<PriceLevel>, y: real)
    requires BidSide(bids) && bids != [] && 0.0 <= y <= Total(bids)
    ensures Notional(bids, y) <= y * bids[0].price
  {
    hide *;
    var top := -bids[0].price;
    NotionalNegated(bids, y);
    FloorNegated(bids, top, y);
    MulNegated(y, bids[0].price, top);
  }

  lemma {:induction false} FloorNegated(bids: seq<PriceLevel>, top: real, y: real)
    requires BidSide(bids) && bids != [] && 0.0 <= y <= Total(bids) && top == -bids[0].price
    ensures Notional(Negated(bids), y) >= y * top
  {
    hide Notional;
    NotionalNegated(bids, y);
    NotionalFloor(Negated(bids), top, y);
  }

  lemma MulNegated(a: real, b: real, c: real)
    requires c == -b
    ensures a * c == -(a * b)
  {
  }

  /** No size costs less than the top ask for every unit, none earns more than the top bid. */
  lemma {:induction false} TopOfBook(asks: seq<PriceLevel>, bids: seq<PriceLevel>, y: real)
    requires AskSide(asks) && BidSide(bids) && asks != [] && bids != []
    requires 0.0 <= y <= Total(asks) && y <= Total(bids)
    ensures Notional(asks, y) >= y * asks[0].price
    ensures Notional(bids, y) <= y * bids[0].price
  {
    NotionalFloor(asks, asks[0].price, y);
    NotionalCeiling(bids, y);
  }
}
