/** Recent mid prices per feed and the penalty taken from their last movement
    (internal/arbitrage/latency.go). */
module Latency {
  import opened Arithmetic
  import opened Wrappers
  import opened Exchange

  datatype Sample = Sample(at: Time, mid: real)

  type Samples = map<Key, seq<Sample>>

  const MAX_SAMPLES := 256
  const MIN_SAMPLES := 2
  const DEFAULT_WINDOW: Time := 300_000_000_000

  function SamplesOf(all: Samples, key: Key): seq<Sample> {
    if key in all then all[key] else []
  }

  /** The mid price a book contributes, if any. */
  function MidOf(b: OrderBook, quo: Quotient): Option<real> {
    if b.status != Live || !b.HasBook() then None
    else
      var mid := quo(b.bids[0].price + b.asks[0].price, 2.0);
      if mid <= 0.0 then None else Some(mid)
  }

  /** How many samples at the front are older than the cutoff. */
  function Expired(samples: seq<Sample>, cutoff: Time): (n: nat)
    ensures n <= |samples|
    ensures forall i | 0 <= i < n :: samples[i].at < cutoff
    ensures n < |samples| ==> samples[n].at >= cutoff
  {
    if samples == [] || samples[0].at >= cutoff then 0 else 1 + Expired(samples[1..], cutoff)
  }

  function Newest(samples: seq<Sample>): seq<Sample> {
    if |samples| > MAX_SAMPLES then samples[|samples| - MAX_SAMPLES..] else samples
  }

  function Pruned(samples: seq<Sample>, cutoff: Time): seq<Sample> {
    Newest(samples[Expired(samples, cutoff)..])
  }

  function Recorded(all: Samples, b: OrderBook, now: Time, window: Time, quo: Quotient): Samples {
    var mid := MidOf(b, quo);
    if mid.None? then all
    else all[b.BookKey() := Pruned(SamplesOf(all, b.BookKey()) + [Sample(now, mid.value)], now - window)]
  }

  function Observed(all: Samples, books: seq<OrderBook>, now: Time, window: Time, quo: Quotient): Samples
    decreases |books|
  {
    if books == [] then all
    else Recorded(Observed(all, books[..|books| - 1], now, window, quo), books[|books| - 1], now, window, quo)
  }

  lemma {:induction false} ObservedNone(all: Samples, books: seq<OrderBook>, now: Time, window: Time, quo: Quotient)
    ensures Observed(all, books[..0], now, window, quo) == all
  {
  }

  lemma {:induction false} ObservedStep(all: Samples, books: seq<OrderBook>, i: nat, now: Time, window: Time,
                                        quo: Quotient)
    requires i < |books|
    ensures Observed(all, books[..i + 1], now, window, quo)
         == Recorded(Observed(all, books[..i], now, window, quo), books[i], now, window, quo)
  {
    assert books[..i + 1][..i] == books[..i];
  }

  /** The last movement of a feed in basis points. */
  function MovementBps(samples: seq<Sample>, quo: Quotient): Option<real> {
    if |samples| < MIN_SAMPLES then None
    else
      var latest, previous := samples[|samples| - 1].mid, samples[|samples| - 2].mid;
      if previous <= 0.0 then None else Some(quo(Abs(latest - previous), previous) * BPS_SCALE)
  }

  function PenaltyBps(all: Samples, left: Key, right: Key, quo: Quotient): Option<real> {
    var l, r := MovementBps(SamplesOf(all, left), quo), MovementBps(SamplesOf(all, right), quo);
    if l.None? || r.None? then None else if l.value > r.value then l else r
  }

  /** Drops what is older than the cutoff, then all but the newest 256. */
  method Prune(feed: seq<Sample>, cutoff: Time) returns (kept: seq<Sample>)
    ensures kept == Pruned(feed, cutoff)
  {
    var first := 0;
    while first < |feed| && feed[first].at < cutoff
      invariant 0 <= first <= Expired(feed, cutoff)
    {
      first := first + 1;
    }
    kept := feed[first..];
    if |kept| > MAX_SAMPLES {
      kept := kept[|kept| - MAX_SAMPLES..];
    }
  }

  class LatencyModel {
    const window: Time
    const quo: Quotient
    var samples: Samples

    constructor (window: Time, quo: Quotient)
      ensures samples == map[] && this.quo == quo
      ensures this.window == if window <= 0 then 300_000_000_000 else window
    {
      this.window := if window <= 0 then DEFAULT_WINDOW else window;
      this.quo := quo;
      samples := map[];
    }

    method Observe(books: seq<OrderBook>, now: Time)
      modifies this
      ensures samples == Observed(old(samples), books, now, window, quo)
    {
      hide Observed, Pruned;
      var cutoff := now - window;
      ObservedNone(samples, books, now, window, quo);
      ghost var start := samples;
      for i := 0 to |books|
        invariant samples == Observed(start, books[..i], now, window, quo)
      {
        ObservedStep(start, books, i, now, window, quo);
        var b := books[i];
        if b.status != Live || !b.HasBook() {
          continue;
        }
        var mid := quo(b.bids[0].price + b.asks[0].price, 2.0);
        if mid <= 0.0 {
          continue;
        }
        var key := b.BookKey();
        var feed := SamplesOf(samples, key) + [Sample(now, mid)];
        feed := Prune(feed, cutoff);
        samples := samples[key := feed];
      }
      assert books[..|books|] == books;
    }

    method Penalty(left: Key, right: Key) returns (bps: Option<real>)
      ensures bps == PenaltyBps(samples, left, right, quo)
    {
      var l := MovementBps(SamplesOf(samples, left), quo);
      var r := MovementBps(SamplesOf(samples, right), quo);
      if l.None? || r.None? {
        return None;
      }
      if l.value > r.value {
        return l;
      }
      return r;
    }
  }
}
