/** Choosing the size of a route: `selectBestNetDepth` and its helpers
    (internal/arbitrage/engine.go).  Every breakpoint of the walk is scored after taker fees and
    the latency penalty, and the best one is kept. */
module Sizing {
  import opened Arithmetic
  import opened Exchange
  import opened Depth
  import opened Wrappers

  /** Everything but the two ladders that decides the size of a route. */
  datatype Wallets = Wallets(
    quote: real,
    base: real,
    buyFee: real,
    sellFee: real,
    latencyBps: real,
    minBase: real,
    minNotional: real)

  datatype Selection = Selection(
    depth: DepthResult,
    grossProfit: real,
    grossBps: real,
    buyFee: real,
    sellFee: real,
    latencyPenalty: real,
    net: real,
    hasDepth: bool,
    meetsMinimum: bool,
    partial: bool)

  const NO_SELECTION := Selection(NOTHING, 0.0, 0.0, 0.0, 0.0, 0.0, 0.0, false, false, false)

  function Bps(value: real, basis: real, quo: Quotient): real {
    if basis <= 0.0 then 0.0 else quo(value, basis) * BPS_SCALE
  }

  function RemainingBalance(balance: real, used: real): Option<real> {
    if balance <= 0.0 || balance - used <= 0.0 then None else Some(balance - used)
  }

  /** What `amount` of quote comes to with the buy-side taker fee on top. */
  function WithFee(amount: real, fee: real): real {
    amount * (1.0 + fee)
  }

  function RemainingQuoteBalance(quote: real, buyNotional: real, fee: real): Option<real> {
    if quote <= 0.0 || quote - WithFee(buyNotional, fee) <= 0.0 then None
    else Some(quote - WithFee(buyNotional, fee))
  }

  function RemainingQuoteBaseSize(quote: real, buyNotional: real, ask: real, fee: real, quo: Quotient): Option<real> {
    var remaining := RemainingQuoteBalance(quote, buyNotional, fee);
    if remaining.None? || ask <= 0.0 || WithFee(ask, fee) <= 0.0 then None
    else
      var size := quo(remaining.value, WithFee(ask, fee));
      if size <= 0.0 then None else Some(size)
  }

  /** How much of the next stretch the wallets still pay for; zero ends the walk. */
  function StepSize(d: DepthResult, s: Segment, w: Wallets, quo: Quotient): real {
    var base := RemainingBalance(w.base, d.base);
    var bought := RemainingQuoteBaseSize(w.quote, d.buyNotional, s.ask, w.buyFee, quo);
    if base.None? || bought.None? then 0.0 else Min(Min(s.size, base.value), bought.value)
  }

  /** A breakpoint of the walk; `limited` when a wallet cut the last stretch short. */
  datatype Visit = Visit(depth: DepthResult, limited: bool)

  function Visits(d: DepthResult, segments: seq<Segment>, w: Wallets, quo: Quotient): seq<Visit>
    decreases segments
  {
    if segments == [] then []
    else
      var s := segments[0];
      var size := StepSize(d, s, w, quo);
      var next := d.Add(size, s.ask, s.bid);
      if size <= 0.0 then []
      else if size < s.size then [Visit(next, true)]
      else [Visit(next, false)] + Visits(next, segments[1..], w, quo)
  }

  function LatencyRate(w: Wallets, quo: Quotient): real {
    quo(w.latencyBps, BPS_SCALE)
  }

  /** Net profit at a depth, after both taker fees and the latency penalty. */
  function Net(d: DepthResult, w: Wallets, quo: Quotient): real {
    d.sellNotional - d.buyNotional - (d.buyNotional * w.buyFee + d.sellNotional * w.sellFee)
    - d.buyNotional * LatencyRate(w, quo)
  }

  predicate MeetsMinimum(d: DepthResult, w: Wallets) {
    d.base >= w.minBase && d.buyNotional >= w.minNotional
  }

  function Candidate(v: Visit, w: Wallets, quo: Quotient): Selection {
    var d := v.depth;
    Selection(
      d,
      d.sellNotional - d.buyNotional,
      Bps(d.sellNotional - d.buyNotional, d.buyNotional, quo),
      d.buyNotional * w.buyFee,
      d.sellNotional * w.sellFee,
      d.buyNotional * LatencyRate(w, quo),
      Net(d, w, quo),
      true,
      MeetsMinimum(d, w),
      v.limited)
  }

  function Better(best: Selection, c: Selection): Selection {
    if c.meetsMinimum then
      if !best.meetsMinimum || c.net > best.net then c else best
    else if !best.hasDepth then c else best
  }

  function Choose(best: Selection, visits: seq<Visit>, w: Wallets, quo: Quotient): Selection
    decreases visits
  {
    if visits == [] then best else Choose(Better(best, Candidate(visits[0], w, quo)), visits[1..], w, quo)
  }

  function BestNetDepth(asks: seq<PriceLevel>, bids: seq<PriceLevel>, w: Wallets, quo: Quotient): Selection {
    Choose(NO_SELECTION, Visits(NOTHING, Merge(asks, bids), w, quo), w, quo)
  }

  /** The selection still to come from here: the best so far against everything the wallets can
      still reach in the ladders `asks` and `bids`. */
  ghost function Pending(best: Selection, d: DepthResult, asks: seq<PriceLevel>, bids: seq<PriceLevel>,
                         w: Wallets, quo: Quotient): Selection
  {
    Choose(best, Visits(d, Merge(asks, bids), w, quo), w, quo)
  }

  lemma {:induction false} PendingStop(best: Selection, d: DepthResult, asks: seq<PriceLevel>, bids: seq<PriceLevel>,
                    w: Wallets, quo: Quotient)
    requires Merge(asks, bids) == [] || StepSize(d, Merge(asks, bids)[0], w, quo) <= 0.0
    ensures Pending(best, d, asks, bids, w, quo) == best
  {
  }

  lemma {:induction false} PendingStep(best: Selection, d: DepthResult, asks: seq<PriceLevel>, bids: seq<PriceLevel>,
                    w: Wallets, quo: Quotient)
    requires Merge(asks, bids) != []
    requires StepSize(d, Merge(asks, bids)[0], w, quo) > 0.0
    ensures
      var s := Merge(asks, bids)[0];
      var size := StepSize(d, s, w, quo);
      var next := d.Add(size, s.ask, s.bid);
      var kept := Better(best, Candidate(Visit(next, size < s.size), w, quo));
      && asks != [] && bids != []
      && Pending(best, d, asks, bids, w, quo)
         == if size < s.size then kept
            else Pending(kept, next, Consume(asks, s.size), Consume(bids, s.size), w, quo)
  {
    var s := Merge(asks, bids)[0];
    var size := StepSize(d, s, w, quo);
    var next := d.Add(size, s.ask, s.bid);
    assert Merge(asks, bids)[1..] == Merge(Consume(asks, s.size), Consume(bids, s.size));
    var visits := Visits(d, Merge(asks, bids), w, quo);
    assert visits[0] == Visit(next, size < s.size);
    var kept := Better(best, Candidate(visits[0], w, quo));
    assert Pending(best, d, asks, bids, w, quo) == Choose(kept, visits[1..], w, quo);
    if size < s.size {
      assert visits[1..] == [];
    } else {
      assert visits[1..] == Visits(next, Merge(asks, bids)[1..], w, quo);
    }
  }

  method SelectBestNetDepth(asks: seq<PriceLevel>, bids: seq<PriceLevel>, w: Wallets, quo: Quotient)
    returns (best: Selection)
    ensures best == BestNetDepth(asks, bids, w, quo)
  {
    var current := NOTHING;
    best := NO_SELECTION;
    var askIndex, bidIndex := 0, 0;
    var askRemaining, bidRemaining := 0.0, 0.0;
    assert Rest(asks, 0, 0.0) == asks && Rest(bids, 0, 0.0) == bids;

    while askIndex < |asks| && bidIndex < |bids|
      invariant 0 <= askIndex <= |asks| && 0 <= bidIndex <= |bids|
      invariant Pending(best, current, Rest(asks, askIndex, askRemaining), Rest(bids, bidIndex, bidRemaining), w, quo)
                == BestNetDepth(asks, bids, w, quo)
      decreases |asks| - askIndex + |bids| - bidIndex
    {
      var ask, bid := asks[askIndex], bids[bidIndex];
      ghost var a, b := Rest(asks, askIndex, askRemaining), Rest(bids, bidIndex, bidRemaining);
      ghost var askWas, bidWas, i, j := askRemaining, bidRemaining, askIndex, bidIndex;
      RestHead(asks, i, askWas);
      RestHead(bids, j, bidWas);
      if bid.price <= ask.price {
        break;
      }
      if askRemaining == 0.0 {
        askRemaining := ask.quantity;
      }
      if bidRemaining == 0.0 {
        bidRemaining := bid.quantity;
      }
      var size := Min(askRemaining, bidRemaining);
      var balanceLimited := false;
      ghost var stretch := Segment(size, ask.price, bid.price);
      assert size > 0.0 ==> Merge(a, b) != [] && Merge(a, b)[0] == stretch;
      if size <= 0.0 || StepSize(current, stretch, w, quo) <= 0.0 {
        PendingStop(best, current, a, b, w, quo);
      } else {
        PendingStep(best, current, a, b, w, quo);
      }

      var remainingBase := RemainingBalance(w.base, current.base);
      if remainingBase.None? {
        break;
      }
      if remainingBase.value < size {
        size, balanceLimited := remainingBase.value, true;
      }
      var remainingQuoteSize := RemainingQuoteBaseSize(w.quote, current.buyNotional, ask.price, w.buyFee, quo);
      if remainingQuoteSize.None? {
        break;
      }
      if remainingQuoteSize.value < size {
        size, balanceLimited := remainingQuoteSize.value, true;
      }
      if size <= 0.0 {
        break;
      }

      assert size == StepSize(current, stretch, w, quo) && (balanceLimited <==> size < stretch.size);
      current := current.Add(size, ask.price, bid.price);
      var candidate := Candidate(Visit(current, balanceLimited), w, quo);
      ghost var kept := Better(best, candidate);
      if candidate.meetsMinimum {
        if !best.meetsMinimum || candidate.net > best.net {
          best := candidate;
        }
      } else if !best.hasDepth {
        best := candidate;
      }
      assert best == kept;
      if balanceLimited {
        return;
      }
      askRemaining := askRemaining - size;
      bidRemaining := bidRemaining - size;
      if askRemaining == 0.0 {
        askIndex := askIndex + 1;
      }
      if bidRemaining == 0.0 {
        bidIndex := bidIndex + 1;
      }
      Advance(asks, i, askWas, size, askIndex, askRemaining);
      Advance(bids, j, bidWas, size, bidIndex, bidRemaining);
    }
  }
}
