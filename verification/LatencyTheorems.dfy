/** The pruned and capped samples of a feed are a window on its whole history. */
module LatencyTheorems {
  import opened Arithmetic
  import opened Wrappers
  import opened Exchange
  import opened Latency

  ghost predicate InOrder(samples: seq<Sample>) {
    forall i, j | 0 <= i < j < |samples| :: samples[i].at <= samples[j].at
  }

  /** The samples of the history not older than the cutoff, wherever they stand in it. */
  ghost function Since(history: seq<Sample>, cutoff: Time): seq<Sample> {
    if history == [] then []
    else if history[0].at >= cutoff then [history[0]] + Since(history[1..], cutoff)
    else Since(history[1..], cutoff)
  }

  /** The last 256 samples within the window that ends at the latest sample. */
  ghost function Window(history: seq<Sample>, window: Time): seq<Sample> {
    if history == [] then []
    else
      var since := Since(history, history[|history| - 1].at - window);
      if |since| > 256 then since[|since| - 256..] else since
  }

  lemma {:induction false} SinceIsSuffix(history: seq<Sample>, cutoff: Time)
    requires InOrder(history)
    ensures Since(history, cutoff) == history[Expired(history, cutoff)..]
  {
    if history != [] {
      SinceIsSuffix(history[1..], cutoff);
      if history[0].at >= cutoff {
        assert Expired(history[1..], cutoff) == 0;
        assert history == [history[0]] + history[1..];
      }
    }
  }

  /** Where the window on a history starts. */
  ghost function Start(history: seq<Sample>, cutoff: Time): nat {
    var expired := Expired(history, cutoff);
    if |history| - expired > MAX_SAMPLES then |history| - MAX_SAMPLES else expired
  }

  lemma PrunedIsSuffix(samples: seq<Sample>, cutoff: Time)
    ensures Pruned(samples, cutoff) == samples[Start(samples, cutoff)..]
  {
  }

  lemma {:induction false} ExpiredIs(samples: seq<Sample>, cutoff: Time, n: nat)
    requires n <= |samples| && forall i | 0 <= i < n :: samples[i].at < cutoff
    requires n < |samples| ==> samples[n].at >= cutoff
    ensures Expired(samples, cutoff) == n
  {
  }

  /** Pruning a suffix that starts early enough gives what pruning the whole history gives. */
  lemma PruneSuffix(history: seq<Sample>, from: nat, cutoff: Time)
    requires InOrder(history) && from <= Start(history, cutoff)
    ensures Pruned(history[from..], cutoff) == Pruned(history, cutoff)
  {
    var suffix, n := history[from..], Expired(history, cutoff);
    ExpiredIs(suffix, cutoff, if from <= n then n - from else 0);
    PrunedIsSuffix(history, cutoff);
    PrunedIsSuffix(suffix, cutoff);
  }

  lemma WindowIsPruned(history: seq<Sample>, window: Time)
    requires InOrder(history) && history != []
    ensures Window(history, window) == Pruned(history, history[|history| - 1].at - window)
  {
    SinceIsSuffix(history, history[|history| - 1].at - window);
  }

  /** One more sample, pruned the way `Observe` does, moves the window along. */
  lemma WindowStep(history: seq<Sample>, x: Sample, window: Time)
    requires InOrder(history + [x])
    ensures Pruned(Window(history, window) + [x], x.at - window) == Window(history + [x], window)
  {
    hide Window, Pruned, Expired, Start;
    var longer, cutoff := history + [x], x.at - window;
    WindowIsPruned(longer, window);
    if history == [] {
      NoWindow(window);
      assert [] + [x] == longer;
    } else {
      var before := history[|history| - 1].at - window;
      assert history == longer[..|history|];
      WindowIsPruned(history, window);
      PrunedIsSuffix(history, before);
      var from := Start(history, before);
      StartWithin(history, before);
      assert history[from..] + [x] == longer[from..];
      assert longer[|history| - 1].at <= longer[|history|].at;
      StartGrows(history, x, before, cutoff);
      PruneSuffix(longer, from, cutoff);
    }
  }

  lemma NoWindow(window: Time)
    ensures Window([], window) == []
  {
  }

  lemma StartWithin(history: seq<Sample>, cutoff: Time)
    ensures Start(history, cutoff) <= |history|
  {
  }

  lemma StartGrows(history: seq<Sample>, x: Sample, before: Time, cutoff: Time)
    requires before <= cutoff
    ensures Start(history, before) <= Start(history + [x], cutoff)
  {
    var longer := history + [x];
    assert forall i | 0 <= i < |history| :: longer[i] == history[i];
    assert Expired(history, before) <= Expired(longer, cutoff);
  }

  // ----- Whole runs of observations -----

  datatype Call = Call(books: seq<OrderBook>, now: Time)

  /** What one book adds to the history of a feed: the middle of its best bid and best ask, when it is live
      and has both. */
  ghost function Added(key: Key, b: OrderBook, now: Time, quo: Quotient): seq<Sample> {
    if b.exchange != key.exchange || b.market != key.market || b.status != Live || b.bids == [] || b.asks == [] then []
    else
      var mid := quo(b.bids[0].price + b.asks[0].price, 2.0);
      if mid > 0.0 then [Sample(now, mid)] else []
  }

  lemma AddedIsMid(key: Key, b: OrderBook, now: Time, quo: Quotient)
    ensures Added(key, b, now, quo)
         == if b.BookKey() == key && MidOf(b, quo).Some? then [Sample(now, MidOf(b, quo).value)] else []
  {
  }

  /** A sample is half the sum of the best bid and the best ask. */
  lemma MidIsHalf(key: Key, b: OrderBook, now: Time, quo: Quotient)
    requires Exact(quo) && Added(key, b, now, quo) != []
    ensures
      var x := Added(key, b, now, quo)[0];
      x.at == now && x.mid * 2.0 == b.bids[0].price + b.asks[0].price
  {
    assert ExactAt(quo, b.bids[0].price + b.asks[0].price, 2.0);
  }

  /** What one call contributes to it. */
  ghost function Contribution(key: Key, books: seq<OrderBook>, now: Time, quo: Quotient): seq<Sample> {
    if books == [] then []
    else Contribution(key, books[..|books| - 1], now, quo) + Added(key, books[|books| - 1], now, quo)
  }

  ghost function History(key: Key, calls: seq<Call>, quo: Quotient): seq<Sample> {
    if calls == [] then []
    else
      var before, last := calls[..|calls| - 1], calls[|calls| - 1];
      History(key, before, quo) + Contribution(key, last.books, last.now, quo)
  }

  ghost function SamplesAfter(calls: seq<Call>, window: Time, quo: Quotient): Samples {
    if calls == [] then map[]
    else
      var before, last := calls[..|calls| - 1], calls[|calls| - 1];
      Observed(SamplesAfter(before, window, quo), last.books, last.now, window, quo)
  }

  ghost predicate ClockForward(calls: seq<Call>) {
    forall i, j | 0 <= i < j < |calls| :: calls[i].now <= calls[j].now
  }

  ghost predicate UpTo(samples: seq<Sample>, now: Time) {
    forall i | 0 <= i < |samples| :: samples[i].at <= now
  }

  lemma RecordedAt(all: Samples, b: OrderBook, key: Key, now: Time, window: Time, quo: Quotient)
    ensures SamplesOf(Recorded(all, b, now, window, quo), key)
         == if b.BookKey() == key && MidOf(b, quo).Some?
            then Pruned(SamplesOf(all, key) + [Sample(now, MidOf(b, quo).value)], now - window)
            else SamplesOf(all, key)
  {
  }

  lemma BookWindow(all: Samples, history: seq<Sample>, key: Key, b: OrderBook, now: Time, window: Time, quo: Quotient)
    requires InOrder(history) && UpTo(history, now) && SamplesOf(all, key) == Window(history, window)
    ensures
      var longer := history + Added(key, b, now, quo);
      && InOrder(longer) && UpTo(longer, now)
      && SamplesOf(Recorded(all, b, now, window, quo), key) == Window(longer, window)
  {
    hide Window, Recorded, MidOf, SamplesOf, Added;
    AddedIsMid(key, b, now, quo);
    RecordedAt(all, b, key, now, window, quo);
    if Added(key, b, now, quo) == [] {
      assert history + [] == history;
    } else {
      WindowStep(history, Sample(now, MidOf(b, quo).value), window);
    }
  }

  lemma {:induction false} CallWindow(all: Samples, history: seq<Sample>, key: Key, books: seq<OrderBook>, now: Time,
                                      window: Time, quo: Quotient)
    requires InOrder(history) && UpTo(history, now) && SamplesOf(all, key) == Window(history, window)
    ensures
      var longer := history + Contribution(key, books, now, quo);
      && InOrder(longer) && UpTo(longer, now)
      && SamplesOf(Observed(all, books, now, window, quo), key) == Window(longer, window)
    decreases |books|
  {
    hide Window, Recorded, InOrder, UpTo, SamplesOf, Added;
    if books == [] {
      assert history + [] == history;
    } else {
      var before, b := books[..|books| - 1], books[|books| - 1];
      CallWindow(all, history, key, before, now, window, quo);
      var longer := history + Contribution(key, before, now, quo);
      BookWindow(Observed(all, before, now, window, quo), longer, key, b, now, window, quo);
      assert history + Contribution(key, books, now, quo) == longer + Added(key, b, now, quo);
    }
  }

  /** With observation times that never step back, the samples kept for a feed are exactly the last
      256 of its whole history within the window ending at its latest observation. */
  lemma {:induction false} SamplesAreWindow(key: Key, calls: seq<Call>, window: Time, quo: Quotient)
    requires ClockForward(calls)
    ensures InOrder(History(key, calls, quo))
    ensures calls != [] ==> UpTo(History(key, calls, quo), calls[|calls| - 1].now)
    ensures SamplesOf(SamplesAfter(calls, window, quo), key) == Window(History(key, calls, quo), window)
    decreases |calls|
  {
    if calls != [] {
      var before, last := calls[..|calls| - 1], calls[|calls| - 1];
      SamplesAreWindow(key, before, window, quo);
      CallWindow(SamplesAfter(before, window, quo), History(key, before, quo), key, last.books, last.now, window, quo);
    }
  }

  lemma {:induction false} ContributionAt(key: Key, books: seq<OrderBook>, now: Time, quo: Quotient)
    ensures forall i | 0 <= i < |Contribution(key, books, now, quo)| :: Contribution(key, books, now, quo)[i].at == now
    ensures (exists b | b in books :: b.BookKey() == key && MidOf(b, quo).Some?) ==> Contribution(key, books, now, quo) != []
    decreases |books|
  {
    hide MidOf, Added;
    if books != [] {
      var before, last := books[..|books| - 1], books[|books| - 1];
      ContributionAt(key, before, now, quo);
      AddedIsMid(key, last, now, quo);
      assert forall b | b in books :: b == last || b in before;
    }
  }

  lemma {:induction false} SinceRecent(history: seq<Sample>, cutoff: Time)
    ensures forall x | x in Since(history, cutoff) :: x.at >= cutoff && x in history
  {
    if history != [] {
      SinceRecent(history[1..], cutoff);
    }
  }

  lemma WindowRecent(history: seq<Sample>, window: Time)
    requires history != []
    ensures forall x | x in Window(history, window) :: x.at >= history[|history| - 1].at - window && x in history
  {
    var since := Since(history, history[|history| - 1].at - window);
    SinceRecent(history, history[|history| - 1].at - window);
    assert forall x | x in Window(history, window) :: x in since;
  }

  /** Right after a call that observed a feed, all that its penalty can rest on was sampled within the
      window that ends at the call. */
  lemma {:induction false} PenaltyRestsOnWindow(key: Key, calls: seq<Call>, window: Time, quo: Quotient, b: OrderBook)
    requires ClockForward(calls) && calls != [] && b in calls[|calls| - 1].books
    requires b.BookKey() == key && MidOf(b, quo).Some?
    ensures
      var now := calls[|calls| - 1].now;
      forall x | x in SamplesOf(SamplesAfter(calls, window, quo), key) :: now - window <= x.at <= now
  {
    var last, history := calls[|calls| - 1], History(key, calls, quo);
    var latest := Contribution(key, last.books, last.now, quo);
    hide Window, SamplesAfter, SamplesOf, MidOf, Contribution, InOrder;
    SamplesAreWindow(key, calls, window, quo);
    ContributionAt(key, last.books, last.now, quo);
    assert history[|history| - 1] == latest[|latest| - 1];
    WindowRecent(history, window);
  }

  /** The penalty of two feeds is the larger of their last movements, whichever is named first, and is
      known exactly when both are. */
  lemma PenaltyIsLarger(all: Samples, left: Key, right: Key, quo: Quotient)
    ensures
      var l, r := MovementBps(SamplesOf(all, left), quo), MovementBps(SamplesOf(all, right), quo);
      var penalty := PenaltyBps(all, left, right, quo);
      && penalty == PenaltyBps(all, right, left, quo)
      && (penalty.Some? <==> l.Some? && r.Some?)
      && (penalty.Some? ==> penalty == Some(Max(l.value, r.value)))
  {
  }

  /** Without rounding, a movement is the size of the last step of the mid price against the price before
      it, in basis points; it vanishes exactly when the mid stood still. */
  lemma MovementMeasures(samples: seq<Sample>, quo: Quotient)
    requires Exact(quo) && |samples| >= 2 && samples[|samples| - 2].mid > 0.0
    ensures
      var latest, previous := samples[|samples| - 1].mid, samples[|samples| - 2].mid;
      var movement := MovementBps(samples, quo);
      && movement.Some? && movement.value >= 0.0
      && movement.value * previous == Abs(latest - previous) * 10000.0
      && (movement.value == 0.0 <==> latest == previous)
  {
    var latest, previous := samples[|samples| - 1].mid, samples[|samples| - 2].mid;
    assert ExactAt(quo, Abs(latest - previous), previous);
    RatioOf(Abs(latest - previous), previous);
  }

  lemma RatioOf(a: real, b: real)
    requires a >= 0.0 && b > 0.0
    ensures a / b >= 0.0 && a / b * 10000.0 * b == a * 10000.0 && (a / b == 0.0 <==> a == 0.0)
  {
    var ratio := a / b;
    assert ratio * b == a;
    if ratio < 0.0 {
      MulStrict(ratio, 0.0, b);
    }
  }

  lemma {:induction false} ContributionPositive(key: Key, books: seq<OrderBook>, now: Time, quo: Quotient)
    ensures forall x | x in Contribution(key, books, now, quo) :: x.mid > 0.0
    decreases |books|
  {
    if books != [] {
      ContributionPositive(key, books[..|books| - 1], now, quo);
    }
  }

  lemma {:induction false} HistoryPositive(key: Key, calls: seq<Call>, quo: Quotient)
    ensures forall x | x in History(key, calls, quo) :: x.mid > 0.0
    decreases |calls|
  {
    if calls != [] {
      var last := calls[|calls| - 1];
      HistoryPositive(key, calls[..|calls| - 1], quo);
      ContributionPositive(key, last.books, last.now, quo);
    }
  }

  /** The last two mids of a feed in its window. */
  ghost predicate Moves(samples: seq<Sample>, bps: real) {
    && |samples| >= 2
    && var latest, previous := samples[|samples| - 1].mid, samples[|samples| - 2].mid;
       previous > 0.0 && bps * previous == Abs(latest - previous) * 10000.0 && (bps == 0.0 <==> latest == previous)
  }

  lemma WindowPositive(history: seq<Sample>, window: Time)
    requires forall x | x in history :: x.mid > 0.0
    ensures forall x | x in Window(history, window) :: x.mid > 0.0
  {
    if history != [] {
      WindowRecent(history, window);
    }
  }

  lemma MovementKnown(samples: seq<Sample>, quo: Quotient)
    requires Exact(quo) && forall x | x in samples :: x.mid > 0.0
    ensures
      var movement := MovementBps(samples, quo);
      && (movement.Some? <==> |samples| >= 2)
      && (movement.Some? ==> movement.value >= 0.0 && Moves(samples, movement.value))
  {
    hide Exact;
    if |samples| >= 2 {
      assert samples[|samples| - 2] in samples;
      MovementMeasures(samples, quo);
    }
  }

  /** A feed's movement is known exactly when its window holds two samples, and is then the last step of
      the mid in basis points of the price before it. */
  lemma {:induction false} MovementFromHistory(key: Key, calls: seq<Call>, window: Time, quo: Quotient)
    requires ClockForward(calls) && Exact(quo)
    ensures
      var samples := Window(History(key, calls, quo), window);
      var movement := MovementBps(SamplesOf(SamplesAfter(calls, window, quo), key), quo);
      && (movement.Some? <==> |samples| >= 2)
      && (movement.Some? ==> movement.value >= 0.0 && Moves(samples, movement.value))
  {
    hide *;
    var history := History(key, calls, quo);
    SamplesAreWindow(key, calls, window, quo);
    HistoryPositive(key, calls, quo);
    WindowPositive(history, window);
    MovementKnown(Window(history, window), quo);
  }

  /** The penalty of a route, from the whole histories of its two feeds: known exactly when both have two
      samples in their windows, the same whichever is named first, and then the larger of the two last
      movements. */
  lemma {:induction false} PenaltyFromHistory(left: Key, right: Key, calls: seq<Call>, window: Time, quo: Quotient)
    requires ClockForward(calls) && Exact(quo)
    ensures
      var l, r := Window(History(left, calls, quo), window), Window(History(right, calls, quo), window);
      var all := SamplesAfter(calls, window, quo);
      var penalty := PenaltyBps(all, left, right, quo);
      && penalty == PenaltyBps(all, right, left, quo)
      && (penalty.Some? <==> |l| >= 2 && |r| >= 2)
      && (penalty.Some? ==>
            exists a, b :: 0.0 <= a && 0.0 <= b && Moves(l, a) && Moves(r, b) && penalty.value == Max(a, b))
  {
    var all := SamplesAfter(calls, window, quo);
    hide SamplesAfter, Window, History, MovementBps, PenaltyBps, Exact, ClockForward, Moves;
    MovementFromHistory(left, calls, window, quo);
    MovementFromHistory(right, calls, window, quo);
    PenaltyIsLarger(all, left, right, quo);
  }
}
