/** One pass of the engine: which routes it looks at, what it may execute, and what it keeps. */
module PassTheorems {
  import opened Arithmetic
  import opened Exchange
  import opened Reasons
  import opened Terms
  import opened Depth
  import opened Ledger
  import opened LedgerTheorems
  import opened Risk
  import opened Latency
  import opened Ranking
  import opened Sorting
  import opened Scoring
  import opened RouteTheorems

  // ----- Which routes are scored -----

  lemma {:induction false} MarketBooksMembers(books: seq<OrderBook>, market: Market, b: OrderBook)
    ensures b in MarketBooks(books, market) <==> b in books && Tradable(b) && b.market == market
    decreases |books|
  {
    if books != [] {
      MarketBooksMembers(books[..|books| - 1], market, b);
      assert books == books[..|books| - 1] + [books[|books| - 1]];
    }
  }

  lemma {:induction false} PairsWithMembers(buy: OrderBook, sells: seq<OrderBook>, pair: Pair)
    ensures pair in PairsWith(buy, sells) <==> pair.0 == buy && pair.1 in sells && buy.exchange != pair.1.exchange
    decreases |sells|
  {
    if sells != [] {
      PairsWithMembers(buy, sells[..|sells| - 1], pair);
      assert sells == sells[..|sells| - 1] + [sells[|sells| - 1]];
    }
  }

  lemma {:induction false} PairsOfMembers(buys: seq<OrderBook>, sells: seq<OrderBook>, pair: Pair)
    ensures pair in PairsOf(buys, sells) <==> pair.0 in buys && pair.1 in sells && pair.0.exchange != pair.1.exchange
    decreases |buys|
  {
    if buys != [] {
      var last := buys[|buys| - 1];
      PairsOfMembers(buys[..|buys| - 1], sells, pair);
      PairsWithMembers(last, sells, pair);
      assert buys == buys[..|buys| - 1] + [last];
    }
  }

  lemma {:induction false} AllPairsMembers(books: seq<OrderBook>, order: seq<Market>, pair: Pair)
    ensures pair in AllPairs(books, order)
      <==> && pair.0.market in order && pair.1.market == pair.0.market && pair.0.exchange != pair.1.exchange
           && pair.0 in books && pair.1 in books && Tradable(pair.0) && Tradable(pair.1)
    decreases |order|
  {
    if order != [] {
      var last := order[|order| - 1];
      AllPairsMembers(books, order[..|order| - 1], pair);
      PairsOfMembers(MarketBooks(books, last), MarketBooks(books, last), pair);
      MarketBooksMembers(books, last, pair.0);
      MarketBooksMembers(books, last, pair.1);
      assert order == order[..|order| - 1] + [last];
    }
  }

  /** A pass scores exactly the pairs of live books of one market on two exchanges, in whatever order
      the markets come up. */
  lemma {:induction false} PairsAreAll(books: seq<OrderBook>, order: seq<Market>, pair: Pair)
    requires MarketOrder(books, order)
    ensures pair in AllPairs(books, order)
      <==> && pair.0 in books && pair.1 in books && Tradable(pair.0) && Tradable(pair.1)
           && pair.0.market == pair.1.market && pair.0.exchange != pair.1.exchange
  {
    AllPairsMembers(books, order, pair);
    MarketBooksMembers(books, pair.0.market, pair.0);
    assert pair.0 in MarketBooks(books, pair.0.market) ==> MarketBooks(books, pair.0.market) != [];
  }

  lemma {:induction false} AllPairsNone(books: seq<OrderBook>)
    ensures AllPairs(books, []) == []
  {
  }

  lemma {:induction false} AllPairsParts(books: seq<OrderBook>, a: seq<Market>, b: seq<Market>)
    ensures AllPairs(books, a + b) == AllPairs(books, a) + AllPairs(books, b)
    decreases |b|
  {
    hide AllPairs, PairsOf, MarketBooks;
    if b == [] {
      AllPairsNone(books);
      assert a + b == a;
    } else {
      var before, last := b[..|b| - 1], b[|b| - 1];
      AllPairsParts(books, a, before);
      AllPairsStep(books, a + before, last);
      AllPairsStep(books, before, last);
      assert a + b == a + before + [last] && b == before + [last];
    }
  }

  ghost predicate Once(order: seq<Market>) {
    forall i, j | 0 <= i < j < |order| :: order[i] != order[j]
  }

  /** The order in which the markets come up permutes the pairs, and changes nothing else. */
  lemma {:induction false} AllPairsPermuted(books: seq<OrderBook>, a: seq<Market>, b: seq<Market>)
    requires Once(a) && Once(b) && forall m :: m in a <==> m in b
    ensures multiset(AllPairs(books, a)) == multiset(AllPairs(books, b))
    decreases |a|
  {
    hide AllPairs, PairsOf, MarketBooks, Once;
    assert b != [] ==> b[0] in a;
    if a != [] {
      var before, m := a[..|a| - 1], a[|a| - 1];
      assert m in a;
      var j :| 0 <= j < |b| && b[j] == m;
      WithoutOne(a, b, j);
      AllPairsPermuted(books, before, b[..j] + b[j + 1..]);
      assert a == before + [m] && b == b[..j] + ([m] + b[j + 1..]);
      AllPairsParts(books, before, [m]);
      AllPairsMoved(books, b[..j], m, b[j + 1..]);
    }
  }

  lemma {:induction false} AllPairsMoved(books: seq<OrderBook>, front: seq<Market>, m: Market, back: seq<Market>)
    ensures multiset(AllPairs(books, front + ([m] + back)))
         == multiset(AllPairs(books, front + back)) + multiset(AllPairs(books, [m]))
  {
    hide AllPairs;
    AllPairsParts(books, front, back);
    AllPairsParts(books, front, [m] + back);
    AllPairsParts(books, [m], back);
  }

  lemma WithoutOne(a: seq<Market>, b: seq<Market>, j: nat)
    requires a != [] && Once(a) && Once(b) && (forall m :: m in a <==> m in b) && j < |b| && b[j] == a[|a| - 1]
    ensures
      var before, rest := a[..|a| - 1], b[..j] + b[j + 1..];
      Once(before) && Once(rest) && forall m :: m in before <==> m in rest
  {
    var before, rest := a[..|a| - 1], b[..j] + b[j + 1..];
    forall m ensures m in before <==> m in rest {
      assert m in a <==> m in before || m == a[|a| - 1];
      assert b == b[..j] + [b[j]] + b[j + 1..];
      assert m in b <==> m in rest || m == b[j];
    }
  }

  ghost predicate Unique<T>(s: seq<T>) {
    forall i, j | 0 <= i < j < |s| :: s[i] != s[j]
  }

  lemma UniqueParts<T>(s: seq<T>, t: seq<T>)
    requires Unique(s) && Unique(t) && forall x | x in s :: x !in t
    ensures Unique(s + t)
  {
    assert forall i | 0 <= i < |s| :: s[i] in s;
    assert forall j | 0 <= j < |t| :: t[j] in t;
  }

  lemma {:induction false} MarketBooksOnce(books: seq<OrderBook>, market: Market)
    requires Unique(books)
    ensures Unique(MarketBooks(books, market))
    decreases |books|
  {
    if books != [] {
      var before, last := books[..|books| - 1], books[|books| - 1];
      MarketBooksOnce(before, market);
      MarketBooksMembers(before, market, last);
      UniqueParts(MarketBooks(before, market), [last]);
    }
  }

  lemma {:induction false} PairsWithOnce(buy: OrderBook, sells: seq<OrderBook>)
    requires Unique(sells)
    ensures Unique(PairsWith(buy, sells))
    decreases |sells|
  {
    if sells != [] {
      var before, last := sells[..|sells| - 1], sells[|sells| - 1];
      PairsWithOnce(buy, before);
      PairsWithMembers(buy, before, (buy, last));
      UniqueParts(PairsWith(buy, before), [(buy, last)]);
    }
  }

  lemma {:induction false} PairsOfOnce(buys: seq<OrderBook>, sells: seq<OrderBook>)
    requires Unique(buys) && Unique(sells)
    ensures Unique(PairsOf(buys, sells))
    decreases |buys|
  {
    if buys != [] {
      var before, last := buys[..|buys| - 1], buys[|buys| - 1];
      PairsOfOnce(before, sells);
      PairsWithOnce(last, sells);
      forall pair | pair in PairsOf(before, sells) ensures pair !in PairsWith(last, sells) {
        PairsOfMembers(before, sells, pair);
        PairsWithMembers(last, sells, pair);
      }
      UniqueParts(PairsOf(before, sells), PairsWith(last, sells));
    }
  }

  /** No pair is scored twice, when no book is listed twice. */
  lemma {:induction false} PairsScoredOnce(books: seq<OrderBook>, order: seq<Market>)
    requires Unique(books) && Once(order)
    ensures Unique(AllPairs(books, order))
    decreases |order|
  {
    hide PairsOf, MarketBooks;
    if order != [] {
      var before, last := order[..|order| - 1], order[|order| - 1];
      var group := MarketBooks(books, last);
      PairsScoredOnce(books, before);
      MarketBooksOnce(books, last);
      PairsOfOnce(group, group);
      forall pair | pair in AllPairs(books, before) ensures pair !in PairsOf(group, group) {
        AllPairsMembers(books, before, pair);
        PairsOfMembers(group, group, pair);
        MarketBooksMembers(books, last, pair.0);
      }
      UniqueParts(AllPairs(books, before), PairsOf(group, group));
    }
  }

  // ----- What the labels mean -----

  function Reserve(s: EngineState): real {
    ThresholdsFor(s.risk.mode).reserveRate
  }

  /** The label of a found route, in a state that shows no session loss. */
  ghost predicate LabelFacts(s: EngineState, p: Pass, o: Opportunity) {
    && o.reason != LedgerApplyFailed && o.reason != RiskDrawdown
    && (o.reason == NoGrossEdge ==> o.decision == Skip)
    && (o.decision == Execute ==>
          && !s.risk.open && o.id !in s.executed && o.buyExchange != o.sellExchange
          && Executable(s.ledger, o, Reserve(s)) && FeePaid(o, p.terms)
          && exists b | b in p.books :: b.market == o.market)
  }

  /** Asking about a candidate changes neither the mode nor, without a session loss, the breaker. */
  lemma AskingKeepsBreaker(r: RiskState, c: Candidate)
    requires c.sessionPnl >= 0.0
    ensures Evaluated(r, c).open == r.open && Evaluated(r, c).mode == r.mode
    ensures r.open ==> Evaluated(r, c) == r
    ensures Judged(r, c).reason != RiskDrawdown && Judged(r, c).reason != LedgerApplyFailed
    ensures Judged(r, c).reason != NoGrossEdge
  {
  }

  lemma PairFacts(s: EngineState, p: Pass, pair: Pair, quo: Quotient)
    requires s.ledger.sessionPnl >= 0.0 && pair.0.exchange != pair.1.exchange && pair.0 in p.books
    ensures
      var (risk, o) := ScoredPair(s, p, pair, quo);
      && LabelFacts(s, p, o) && risk.open == s.risk.open && risk.mode == s.risk.mode
      && (!p.execute || s.risk.open ==> risk == s.risk)
  {
    hide ScoreRoute, Judged, Evaluated, Executable, FeePaid, Balanced, View;
    var c := SceneOf(s, p);
    RouteFacts(c, pair.0, pair.1, quo);
    var scored := ScoreRoute(c, pair.0, pair.1, quo);
    if scored.Pending? {
      AskingKeepsBreaker(s.risk, scored.candidate);
      var o := Labelled(scored.opportunity, Judged(s.risk, scored.candidate), scored.opportunity.id in s.executed);
      if o.decision == Execute {
        ApprovedIsExecutable(c, pair.0, pair.1, s.risk, scored.opportunity, scored.candidate, quo);
        Relabelled(c.ledger, p.terms, scored.opportunity, o, Reserve(s));
      }
    }
  }

  lemma Relabelled(l: LedgerState, terms: seq<TermsSnapshot>, o: Opportunity, labelled: Opportunity, rate: real)
    requires Executable(l, o, rate) && FeePaid(o, terms)
    requires labelled == o.(decision := labelled.decision, reason := labelled.reason)
    ensures Executable(l, labelled, rate) && FeePaid(labelled, terms)
  {
    hide View, Balanced;
  }

  lemma {:induction false} ScoredFactsAll(s: EngineState, p: Pass, pairs: seq<Pair>, quo: Quotient)
    requires s.ledger.sessionPnl >= 0.0
    requires forall pair | pair in pairs :: pair.0.exchange != pair.1.exchange && pair.0 in p.books
    ensures
      var (risk, found) := ScoredAll(s, p, pairs, quo);
      && (forall o | o in found :: LabelFacts(s, p, o)) && risk.open == s.risk.open && risk.mode == s.risk.mode
      && (!p.execute || s.risk.open ==> risk == s.risk)
    decreases |pairs|
  {
    hide ScoredPair;
    if pairs != [] {
      ScoredFactsAll(s, p, pairs[..|pairs| - 1], quo);
      var risk := ScoredAll(s, p, pairs[..|pairs| - 1], quo).0;
      PairFacts(s.(risk := risk), p, pairs[|pairs| - 1], quo);
    }
  }

  lemma FoundFacts(s: EngineState, p: Pass, quo: Quotient)
    requires s.ledger.sessionPnl >= 0.0
    ensures
      var (risk, found) := Found(s, p, quo);
      && found != [] && (forall o | o in found :: LabelFacts(s, p, o)) && EdgeReasons(found)
      && risk.open == s.risk.open && risk.mode == s.risk.mode && (!p.execute || s.risk.open ==> risk == s.risk)
  {
    var pairs := AllPairs(p.books, p.order);
    forall pair | pair in pairs ensures pair.0.exchange != pair.1.exchange && pair.0 in p.books {
      AllPairsMembers(p.books, p.order, pair);
    }
    hide ScoredAll, AllPairs, Executable;
    ScoredFactsAll(s, p, pairs, quo);
  }

  // ----- One pass -----

  lemma {:induction false} SeedingKeeps(l: LedgerState, terms: seq<TermsSnapshot>, now: Time)
    ensures
      var l' := SeededFresh(l, terms, now);
      && l'.executions == l.executions && l'.sessionPnl == l.sessionPnl
      && (l.executions != [] ==> l' == l)
    decreases |terms|
  {
    if terms != [] {
      SeedingKeeps(l, terms[..|terms| - 1], now);
    }
  }

  lemma PreparedKeeps(s: EngineState, p: Pass, setup: Setup)
    ensures
      var ready := Prepared(s, p, setup);
      && ready.ledger.executions == s.ledger.executions && ready.ledger.sessionPnl == s.ledger.sessionPnl
      && ready.risk == s.risk && ready.executed == s.executed && ready.best == s.best
      && (s.ledger.executions != [] ==> ready.ledger == s.ledger)
  {
    hide Observed;
    SeedingKeeps(s.ledger, p.terms, p.now);
  }

  ghost predicate Executes(p: Pass) {
    p.execute && p.sorted != [] && p.sorted[0].decision == Execute
  }

  /** What executing the first route does: a route executed before waits for new books; one that either wallet
      does not cover opens the breaker and moves nothing; any other is appended and its id put on record. */
  lemma BestIsExecuted(s: EngineState, o: Opportunity)
    ensures
      var (s', shown) := ExecutedBest(s, o);
      var quote, base := Held(s.ledger, o.buyExchange, o.market.quote), Held(s.ledger, o.sellExchange, o.market.base);
      if o.id in s.executed then
        s' == s && shown == o.(decision := Wait, reason := WaitingNewBook)
      else if quote < o.buyNotional + o.buyFee || base < o.baseSize then
        && shown == o.(decision := Skip, reason := LedgerApplyFailed)
        && s'.risk.open && s'.risk.status == Halted && s'.risk.mode == s.risk.mode && s'.executed == s.executed
        && s'.ledger.executions == s.ledger.executions && s'.ledger.sessionPnl == s.ledger.sessionPnl
        && forall exchange, asset :: View(s'.ledger, exchange, asset) == View(s.ledger, exchange, asset)
      else
        && shown == o && s'.risk == s.risk && s'.executed == s.executed + {o.id}
        && |s'.ledger.executions| == |s.ledger.executions| + 1
        && s'.ledger.executions[..|s.ledger.executions|] == s.ledger.executions
        && s'.ledger.sessionPnl == s.ledger.sessionPnl + o.net
  {
    var x := ExecutionOf(o);
    PayableIff(s.ledger, x);
    hide View, Held, Applied, Payable;
    if Payable(s.ledger, x) {
      AppliedRecords(s.ledger, x);
    } else {
      RefusedLeavesNoTrace(s.ledger, x);
    }
  }

  /** What a pass does, all of it: it may append one execution, the ledger never refuses it, the
      breaker does not move, and nothing is relabelled after ranking. */
  ghost predicate Outcome(s: EngineState, p: Pass, s': EngineState, shown: seq<Opportunity>, setup: Setup) {
    var ready := Prepared(s, p, setup);
    && s'.samples == ready.samples && s'.risk.open == s.risk.open && s'.risk.mode == s.risk.mode
    && (!p.execute || s.risk.open ==> s'.risk == s.risk)
    && shown == Numbered(p.sorted) && s'.best == BestNet(s.best, shown)
    && (if Executes(p) then
          var x := ExecutionOf(p.sorted[0]);
          && !s.risk.open && x.id !in s.executed && Executable(ready.ledger, p.sorted[0], Reserve(s))
          && FeePaid(p.sorted[0], p.terms) && (exists b | b in p.books :: b.market == x.market)
          && x.buyExchange != x.sellExchange && Payable(ready.ledger, x)
          && s'.ledger == Applied(ready.ledger, x) && s'.executed == s.executed + {x.id}
        else s'.ledger == ready.ledger && s'.executed == s.executed)
  }

  /** The approved route is always payable: without a session loss, no pass ever reaches the halt for a
      refused execution, or the drawdown halt. */
  lemma PassOutcome(s: EngineState, p: Pass, s': EngineState, shown: seq<Opportunity>, setup: Setup)
    requires s.ledger.sessionPnl >= 0.0 && PassStep(s, p, s', shown, setup)
    ensures Outcome(s, p, s', shown, setup)
    ensures forall o | o in shown ::
              o.reason != LedgerApplyFailed && o.reason != RiskDrawdown && (o.decision == Execute ==> !s.risk.open)
  {
    hide Prepared, Found, BestNet, Executable, FeePaid, Payable, Applied, MarketOrder, ThresholdsFor, Opened;
    var ready := Prepared(s, p, setup);
    PreparedKeeps(s, p, setup);
    FoundFacts(ready, p, setup.quo);
    SameMembers(Found(ready, p, setup.quo).1, p.sorted);
    if Executes(p) {
      assert LabelFacts(ready, p, p.sorted[0]);
      ExecutableIsPayable(ready.ledger, p.sorted[0], Reserve(ready));
      assert ExecutionOf(Numbered(p.sorted)[0]) == ExecutionOf(p.sorted[0]);
      assert Numbered(p.sorted)[0 := Numbered(p.sorted)[0]] == Numbered(p.sorted);
    }
    forall o | o in shown
      ensures o.reason != LedgerApplyFailed && o.reason != RiskDrawdown && (o.decision == Execute ==> !s.risk.open)
    {
      var i :| 0 <= i < |shown| && shown[i] == o;
      assert LabelFacts(ready, p, p.sorted[i]);
    }
  }

  lemma OutcomeShows(s: EngineState, p: Pass, s': EngineState, shown: seq<Opportunity>, setup: Setup)
    requires Outcome(s, p, s', shown, setup)
    ensures shown == Numbered(p.sorted)
  {
    hide Prepared, BestNet, Executable, FeePaid, Payable, Applied, Executes;
  }

  /** Numbering keeps the order. */
  lemma NumberedOrder(sorted: seq<Opportunity>)
    requires forall i, j | 0 <= i < j < |sorted| :: NoLater(sorted[i], sorted[j])
    ensures
      var shown := Numbered(sorted);
      forall i, j | 0 <= i < j < |shown| :: NoLater(shown[i], shown[j])
  {
    var shown := Numbered(sorted);
    forall i, j | 0 <= i < j < |shown| ensures NoLater(shown[i], shown[j]) {
      assert NoLater(sorted[i], sorted[j]);
    }
  }

  /** Rank one is executable exactly when some scored route is, it nets the most of those, and the
      rest follow group by group. */
  lemma PassRanks(s: EngineState, p: Pass, s': EngineState, shown: seq<Opportunity>, setup: Setup)
    requires s.ledger.sessionPnl >= 0.0 && PassStep(s, p, s', shown, setup)
    ensures
      var found := Found(Prepared(s, p, setup), p, setup.quo).1;
      && (shown[0].decision == Execute <==> exists o | o in found :: o.decision == Execute)
      && (forall o | o in found && o.decision == Execute :: shown[0].decision == Execute && o.net <= shown[0].net)
    ensures forall i, j | 0 <= i < j < |shown| :: NoLater(shown[i], shown[j])
    ensures forall i | 0 <= i < |shown| :: shown[i].rank == i + 1
  {
    hide Prepared, Found, LabelFacts, Outcome, NoLater, Finished, MarketOrder;
    PreparedKeeps(s, p, setup);
    PassOutcome(s, p, s', shown, setup);
    OutcomeShows(s, p, s', shown, setup);
    var found := Found(Prepared(s, p, setup), p, setup.quo).1;
    FoundFacts(Prepared(s, p, setup), p, setup.quo);
    RankedOrder(found, p.sorted);
    NumberedOrder(p.sorted);
  }

  /** An execution leaves, in both wallets that pay, at least the reserve of what they held. */
  lemma ExecutionKeepsReserve(s: EngineState, p: Pass, s': EngineState, shown: seq<Opportunity>, setup: Setup)
    requires s.ledger.sessionPnl >= 0.0 && PassStep(s, p, s', shown, setup) && Executes(p)
    requires p.sorted[0].market.base != p.sorted[0].market.quote
    ensures
      var x, before := ExecutionOf(p.sorted[0]), Prepared(s, p, setup).ledger;
      && View(s'.ledger, x.buyExchange, x.market.quote) >= View(before, x.buyExchange, x.market.quote) * Reserve(s) > 0.0
      && View(s'.ledger, x.sellExchange, x.market.base) >= View(before, x.sellExchange, x.market.base) * Reserve(s) > 0.0
  {
    hide Prepared, Found, BestNet, Payable, Applied, View, Balanced, FeePaid, ThresholdsFor, PassStep;
    PassOutcome(s, p, s', shown, setup);
    var x, before := ExecutionOf(p.sorted[0]), Prepared(s, p, setup).ledger;
    AppliedView(before, x, x.buyExchange, x.market.quote);
    AppliedView(before, x, x.sellExchange, x.market.base);
  }

  // ----- Evaluate and Project -----

  /** The label a pair gets; it depends on no other pair, and not on whether the pass executes. */
  ghost function LabelOf(s: EngineState, p: Pass, pair: Pair, quo: Quotient): Opportunity {
    ScoredPair(s, p.(execute := false), pair, quo).1
  }

  lemma LabelIsOwn(s: EngineState, p: Pass, q: Pass, r: RiskState, pair: Pair, quo: Quotient)
    requires r.open == s.risk.open && r.mode == s.risk.mode && p.terms == q.terms && p.now == q.now
    ensures ScoredPair(s.(risk := r), p, pair, quo).1 == LabelOf(s, q, pair, quo)
  {
    hide ScoreRoute;
  }

  ghost function Labeller(s: EngineState, p: Pass, quo: Quotient): Pair -> Opportunity {
    (pair: Pair) => LabelOf(s, p, pair, quo)
  }

  /** The routes found are the labels of the pairs, one for each in turn. */
  lemma {:induction false} FoundLabels(s: EngineState, p: Pass, q: Pass, pairs: seq<Pair>, quo: Quotient)
    requires s.ledger.sessionPnl >= 0.0 && p.terms == q.terms && p.now == q.now
    requires forall pair | pair in pairs :: pair.0.exchange != pair.1.exchange && pair.0 in p.books
    ensures ScoredAll(s, p, pairs, quo).1 == Mapped(pairs, Labeller(s, q, quo))
    decreases |pairs|
  {
    hide ScoredPair, LabelOf, LabelFacts;
    if pairs != [] {
      var before, last := pairs[..|pairs| - 1], pairs[|pairs| - 1];
      FoundLabels(s, p, q, before, quo);
      ScoredFactsAll(s, p, before, quo);
      LabelIsOwn(s, p, q, ScoredAll(s, p, before, quo).0, last, quo);
      assert Mapped(pairs, Labeller(s, q, quo)) == Mapped(before, Labeller(s, q, quo)) + [LabelOf(s, q, last, quo)];
    }
  }

  /** What a pass ranks: the labels of all its pairs, or the waiting entry when there is none. */
  ghost function Ranked(s: EngineState, p: Pass, pairs: seq<Pair>, quo: Quotient): seq<Opportunity> {
    if pairs == [] then [NO_ROUTE] else Mapped(pairs, Labeller(s, p, quo))
  }

  lemma SortedLabels(s: EngineState, p: Pass, q: Pass, s': EngineState, shown: seq<Opportunity>, setup: Setup)
    requires s.ledger.sessionPnl >= 0.0 && PassStep(s, p, s', shown, setup) && p.terms == q.terms && p.now == q.now
    ensures multiset(p.sorted)
         == multiset(Ranked(Prepared(s, p, setup), q, AllPairs(p.books, p.order), setup.quo))
  {
    var ready, pairs := Prepared(s, p, setup), AllPairs(p.books, p.order);
    forall pair | pair in pairs ensures pair.0.exchange != pair.1.exchange && pair.0 in p.books {
      AllPairsMembers(p.books, p.order, pair);
    }
    hide Prepared, Labeller, AllPairs, MarketOrder, ScoredPair, ScoredAll, Finished;
    PreparedKeeps(s, p, setup);
    FoundLabels(ready, p, q, pairs, setup.quo);
  }

  /** `Project` shows what `Evaluate` shows from the same state, every labelled route as often, however
      the markets come up and ties fall in either; only `Evaluate` goes on to execute the first. */
  lemma ProjectShowsTheSame(s: EngineState, p: Pass, q: Pass, s1: EngineState, s2: EngineState,
                            shown1: seq<Opportunity>, shown2: seq<Opportunity>, setup: Setup)
    requires s.ledger.sessionPnl >= 0.0 && p.execute && !q.execute
    requires p.books == q.books && p.terms == q.terms && p.now == q.now
    requires PassStep(s, p, s1, shown1, setup) && PassStep(s, q, s2, shown2, setup)
    ensures multiset(p.sorted) == multiset(q.sorted)
    ensures shown1 == Numbered(p.sorted) && shown2 == Numbered(q.sorted)
    ensures s2.ledger == Prepared(s, p, setup).ledger && s2.risk == s.risk && s2.executed == s.executed
  {
    var a, b, ready := AllPairs(p.books, p.order), AllPairs(q.books, q.order), Prepared(s, p, setup);
    assert Prepared(s, q, setup) == ready;
    AllPairsPermuted(p.books, p.order, q.order);
    hide PassStep, AllPairs, Prepared, Labeller, Outcome;
    SortedLabels(s, p, p, s1, shown1, setup);
    SortedLabels(s, q, p, s2, shown2, setup);
    RankedPermuted(ready, p, a, b, setup.quo);
    ShownBoth(s, p, q, s1, s2, shown1, shown2, setup);
  }

  lemma RankedPermuted(s: EngineState, p: Pass, a: seq<Pair>, b: seq<Pair>, quo: Quotient)
    requires multiset(a) == multiset(b)
    ensures multiset(Ranked(s, p, a, quo)) == multiset(Ranked(s, p, b, quo))
  {
    assert a == [] <==> b == [] by {
      assert |multiset(a)| == |a| && |multiset(b)| == |b|;
    }
    MappedPermuted(a, b, Labeller(s, p, quo));
  }

  lemma ShownBoth(s: EngineState, p: Pass, q: Pass, s1: EngineState, s2: EngineState,
                  shown1: seq<Opportunity>, shown2: seq<Opportunity>, setup: Setup)
    requires s.ledger.sessionPnl >= 0.0 && !q.execute && p.books == q.books && p.terms == q.terms && p.now == q.now
    requires PassStep(s, p, s1, shown1, setup) && PassStep(s, q, s2, shown2, setup)
    ensures shown1 == Numbered(p.sorted) && shown2 == Numbered(q.sorted)
    ensures s2.ledger == Prepared(s, p, setup).ledger && s2.risk == s.risk && s2.executed == s.executed
  {
    hide PassStep, BestNet, Executable, Payable, Applied, FeePaid;
    PassOutcome(s, p, s1, shown1, setup);
    PassOutcome(s, q, s2, shown2, setup);
  }

  /** Every executable route of a pass over well-formed books is one scored pair, and its figures add up:
      what the tops promised is gross profit plus a slippage that is never negative, and its net is the
      sale less the purchase, both fees, the latency penalty and the rebalance cost. */
  lemma ExecutableCosts(s: EngineState, p: Pass, s': EngineState, shown: seq<Opportunity>, setup: Setup, o: Opportunity)
    returns (pair: Pair)
    requires s.ledger.sessionPnl >= 0.0 && PassStep(s, p, s', shown, setup) && o in p.sorted && o.decision == Execute
    requires forall b | b in p.books :: WellFormed(b)
    ensures pair in AllPairs(p.books, p.order)
    ensures o.net > 0.0 && CostFacts(SceneOf(Prepared(s, p, setup), p), pair.0, pair.1, o, setup.quo)
  {
    hide PassStep, AllPairs, Prepared, LabelOf, WellFormed, CostFacts, Tradable;
    var ready := Prepared(s, p, setup);
    NoRouteWaits(o);
    pair := PairShown(s, p, s', shown, setup, o);
    AllPairsMembers(p.books, p.order, pair);
    PairCosts(ready, p, pair, setup.quo);
  }

  /** A pass over well-formed books shows a gain only for routes whose tops cross. */
  lemma GainIsCrossed(s: EngineState, p: Pass, s': EngineState, shown: seq<Opportunity>, setup: Setup, o: Opportunity)
    returns (pair: Pair)
    requires s.ledger.sessionPnl >= 0.0 && PassStep(s, p, s', shown, setup) && o in p.sorted && o.net > 0.0
    requires (forall b | b in p.books :: WellFormed(b)) && forall t | t in p.terms :: t.takerRate >= 0.0
    ensures pair in AllPairs(p.books, p.order) && CrossedTops(pair.0, pair.1)
  {
    hide PassStep, AllPairs, Prepared, LabelOf, WellFormed, CrossedTops, Tradable;
    var ready := Prepared(s, p, setup);
    NoRouteWaits(o);
    pair := PairShown(s, p, s', shown, setup, o);
    AllPairsMembers(p.books, p.order, pair);
    LabelKeepsNet(ready, p, pair, setup.quo);
    OnlyCrossedGains(SceneOf(ready, p), pair.0, pair.1, setup.quo);
  }

  lemma LabelKeepsNet(s: EngineState, p: Pass, pair: Pair, quo: Quotient)
    ensures LabelOf(s, p, pair, quo).net == ScoreRoute(SceneOf(s, p), pair.0, pair.1, quo).opportunity.net
  {
    hide ScoreRoute, Judged;
  }

  /** A ranked route other than the waiting entry is the label of a scored pair. */
  lemma PairShown(s: EngineState, p: Pass, s': EngineState, shown: seq<Opportunity>, setup: Setup, o: Opportunity)
    returns (pair: Pair)
    requires s.ledger.sessionPnl >= 0.0 && PassStep(s, p, s', shown, setup) && o in p.sorted && o != NO_ROUTE
    ensures pair in AllPairs(p.books, p.order) && o == LabelOf(Prepared(s, p, setup), p, pair, setup.quo)
  {
    hide PassStep, AllPairs, Prepared, LabelOf;
    SortedLabels(s, p, p, s', shown, setup);
    var pairs := AllPairs(p.books, p.order);
    var labels := Ranked(Prepared(s, p, setup), p, pairs, setup.quo);
    SameMembers(p.sorted, labels);
    var i :| 0 <= i < |labels| && labels[i] == o;
    pair := pairs[i];
  }

  lemma NoRouteWaits(o: Opportunity)
    ensures o.decision == Execute || o.net > 0.0 ==> o != NO_ROUTE
  {
  }

  lemma PairCosts(s: EngineState, p: Pass, pair: Pair, quo: Quotient)
    requires LabelOf(s, p, pair, quo).decision == Execute && WellFormed(pair.0) && WellFormed(pair.1)
    ensures
      var o := LabelOf(s, p, pair, quo);
      o.net > 0.0 && CostFacts(SceneOf(s, p), pair.0, pair.1, o, quo)
  {
    hide ScoreRoute, CostFacts, WellFormed, PendingFacts, Judged;
    var c := SceneOf(s, p);
    RouteFacts(c, pair.0, pair.1, quo);
    assert SceneOf(s, p.(execute := false)) == c;
    var scored := ScoreRoute(c, pair.0, pair.1, quo);
    assert scored.Pending?;
    CostDecomposition(c, pair.0, pair.1, quo);
    LabelledCosts(c, pair.0, pair.1, scored.opportunity, LabelOf(s, p, pair, quo), scored.candidate, quo);
  }

  lemma LabelledCosts(c: Scene, buy: OrderBook, sell: OrderBook, o: Opportunity, labelled: Opportunity, k: Candidate,
                      quo: Quotient)
    requires CostFacts(c, buy, sell, o, quo) && PendingFacts(c, buy, sell, o, k, quo)
    requires labelled == o.(decision := labelled.decision, reason := labelled.reason)
    ensures CostFacts(c, buy, sell, labelled, quo) && labelled.net > 0.0
  {
    hide Crossed, View, Balanced, FeePaid;
  }

  /** An open breaker turns every route that would reach it away with the circuit-open reason, and
      stays as it is. */
  lemma OpenCircuitDenies(s: EngineState, p: Pass, pair: Pair, quo: Quotient)
    requires s.risk.open
    ensures
      var (risk, o) := ScoredPair(s, p, pair, quo);
      && risk == s.risk && o.decision != Execute
      && (ScoreRoute(SceneOf(s, p), pair.0, pair.1, quo).Pending? ==> o.decision == Skip && o.reason == RiskCircuitOpen)
  {
    RouteFacts(SceneOf(s, p), pair.0, pair.1, quo);
    hide ScoreRoute, PendingFacts;
  }
}
