/** The decision engine: it observes the books, seeds authenticated wallets, scores every route, ranks
    the results and executes at most the first (internal/arbitrage/engine.go). */
module Engine {
  import opened Arithmetic
  import opened Wrappers
  import opened Exchange
  import opened Reasons
  import opened Terms
  import opened Sizing
  import opened Ledger
  import opened Risk
  import opened Latency
  import opened Ranking
  import opened Sorting
  import opened Scoring

  datatype Report = Report(
    opportunities: seq<Opportunity>,
    sessionPnl: real,
    executed: nat,
    rejected: nat,
    best: Option<Opportunity>)

  function Rejected(opportunities: seq<Opportunity>): nat
    decreases |opportunities|
  {
    if opportunities == [] then 0
    else Rejected(opportunities[..|opportunities| - 1])
         + (if opportunities[|opportunities| - 1].decision == Skip then 1 else 0)
  }

  /** The places of the skipped routes. */
  ghost function Skipped(opportunities: seq<Opportunity>): set<nat> {
    set i: nat | i < |opportunities| && opportunities[i].decision == Skip
  }

  lemma {:induction false} RejectedAreSkipped(opportunities: seq<Opportunity>)
    ensures Rejected(opportunities) == |Skipped(opportunities)|
    decreases |opportunities|
  {
    if opportunities != [] {
      var n := |opportunities| - 1;
      RejectedAreSkipped(opportunities[..n]);
      assert Skipped(opportunities)
          == Skipped(opportunities[..n]) + if opportunities[n].decision == Skip then {n} else {};
    }
  }

  class ArbitrageEngine {
    const ledger: PaperLedger
    const latency: LatencyModel
    const risk: Controller
    const quo: Quotient
    var executedIds: set<OpportunityId>
    var sessionBest: Option<Opportunity>

    function State(): EngineState
      reads this, ledger, latency, risk
    {
      EngineState(ledger.State(), risk.State(), latency.samples, executedIds, sessionBest)
    }

    function Built(): Setup {
      Setup(latency.window, latency.quo)
    }

    ghost predicate Valid() {
      latency.quo == quo
    }

    constructor (ledger: PaperLedger, risk: Controller, quo: Quotient)
      ensures Valid() && this.ledger == ledger && this.risk == risk && fresh(latency)
      ensures Built() == Setup(300_000_000_000, quo)
      ensures State() == EngineState(ledger.State(), risk.State(), map[], {}, None)
    {
      this.ledger, this.risk, this.quo := ledger, risk, quo;
      latency := new LatencyModel(DEFAULT_WINDOW, quo);
      executedIds, sessionBest := {}, None;
    }

    method SeedActualBalances(terms: seq<TermsSnapshot>, now: Time)
      modifies ledger
      ensures ledger.State() == SeededFresh(old(ledger.State()), terms, now)
    {
      ghost var was := ledger.State();
      for i := 0 to |terms|
        invariant ledger.State() == SeededFresh(was, terms[..i], now)
      {
        assert terms[..i + 1][..i] == terms[..i];
        if terms[i].IsFresh(now) {
          ledger.SeedAuthenticatedOnce(terms[i]);
        }
      }
      assert terms[..|terms|] == terms;
    }

    /** Sizes and prices one route; reads the ledger, the samples and the terms only. */
    method Score(buy: OrderBook, sell: OrderBook, terms: seq<TermsSnapshot>, now: Time) returns (scored: Scored)
      requires Valid()
      ensures scored == ScoreRoute(Scene(ledger.State(), latency.samples, terms, now), buy, sell, quo)
    {
      var o := Blank(RouteId(buy, sell), buy.market, buy.exchange, sell.exchange);
      var buyTerms, sellTerms := TermsFor(terms, buy.BookKey()), TermsFor(terms, sell.BookKey());
      if buyTerms.None? || sellTerms.None? || !buyTerms.value.IsFresh(now) || !sellTerms.value.IsFresh(now) {
        return Settled(o.(decision := Skip, reason := TermsStale));
      }
      if buy.asks == [] || sell.bids == [] {
        return Settled(o);
      }
      scored := ScoreCrossed(o, buy, sell, buyTerms.value, sellTerms.value, terms, now);
    }

    method ScoreCrossed(o: Opportunity, buy: OrderBook, sell: OrderBook, buyTerms: TermsSnapshot,
                        sellTerms: TermsSnapshot, ghost terms: seq<TermsSnapshot>, ghost now: Time)
      returns (scored: Scored)
      requires Valid() && buy.asks != [] && sell.bids != []
      ensures scored == ScoreTops(Scene(ledger.State(), latency.samples, terms, now), o, buy, sell, buyTerms, sellTerms, quo)
    {
      hide BestNetDepth, ScoreDepth, PreviewNoGrossEdge, PenaltyBps, View, MaxBaseByBalance;
      var topAsk, topBid := buy.asks[0], sell.bids[0];
      var quoteBalance := ledger.Balance(buy.exchange, buy.market.quote);
      var baseBalance := ledger.Balance(sell.exchange, buy.market.base);
      var maxBase := MaxBaseByBalance(quoteBalance, baseBalance, topAsk.price, buyTerms.takerRate, quo);
      if maxBase.None? || maxBase.value <= 0.0 {
        return Settled(o.(reason := InsufficientBalance));
      }
      if topBid.price <= topAsk.price {
        return Settled(PreviewNoGrossEdge(o, topAsk, topBid, buyTerms.takerRate, sellTerms.takerRate, maxBase.value, quo));
      }
      var penalty := latency.Penalty(buy.BookKey(), sell.BookKey());
      if penalty.None? {
        return Settled(o.(decision := Wait, reason := WaitingLatencyModel));
      }
      var w := WalletsOf(quoteBalance, baseBalance, buyTerms, sellTerms, penalty.value);
      var selection := SelectBestNetDepth(buy.asks, sell.bids, w, quo);
      if !selection.hasDepth {
        return Settled(o.(reason := InsufficientBalance));
      }
      if !selection.meetsMinimum {
        return Settled(o.(reason := BelowMarketMinimum));
      }
      scored := ScoreDepth(o, selection, quoteBalance, baseBalance, buyTerms, sellTerms, penalty.value,
                           topAsk.price, topBid.price, ledger.sessionPnl, quo);
    }

    /** Asks the risk controller about a scored route; only `Evaluate` may change the controller. */
    method EvaluatePair(buy: OrderBook, sell: OrderBook, ghost p: Pass, terms: seq<TermsSnapshot>, now: Time,
                        execute: bool)
      returns (o: Opportunity)
      requires Valid() && p.terms == terms && p.now == now && p.execute == execute
      modifies risk
      ensures (risk.State(), o) == ScoredPair(old(State()), p, (buy, sell), quo)
      ensures State() == old(State()).(risk := risk.State())
    {
      hide ScoreRoute, Evaluated, Judged;
      var scored := Score(buy, sell, terms, now);
      o := scored.opportunity;
      if scored.Pending? {
        var verdict;
        if execute {
          verdict := risk.Evaluate(scored.candidate);
        } else {
          verdict := risk.Preview(scored.candidate);
        }
        o := Labelled(o, verdict, o.id in executedIds);
      }
    }

    method GroupByMarket(books: seq<OrderBook>) returns (byMarket: map<Market, seq<OrderBook>>)
      ensures forall m :: m in byMarket <==> MarketBooks(books, m) != []
      ensures forall m | m in byMarket :: byMarket[m] == MarketBooks(books, m)
    {
      byMarket := map[];
      for i := 0 to |books|
        invariant forall m :: m in byMarket <==> MarketBooks(books[..i], m) != []
        invariant forall m | m in byMarket :: byMarket[m] == MarketBooks(books[..i], m)
      {
        assert books[..i + 1][..i] == books[..i];
        var b := books[i];
        if !Tradable(b) {
          continue;
        }
        byMarket := byMarket[b.market := (if b.market in byMarket then byMarket[b.market] else []) + [b]];
      }
      assert books[..|books|] == books;
    }

    /** Scores one book of a market as the buy side against all of them, on top of the pairs `done`. */
    method ScoreRow(buy: OrderBook, sells: seq<OrderBook>, ghost p: Pass, terms: seq<TermsSnapshot>, now: Time,
                    execute: bool, before: seq<Opportunity>, ghost ready: EngineState, ghost done: seq<Pair>)
      returns (found: seq<Opportunity>)
      requires Valid() && p.terms == terms && p.now == now && p.execute == execute
      requires State() == ready.(risk := risk.State())
      requires (risk.State(), before) == ScoredAll(ready, p, done, quo)
      modifies risk
      ensures State() == ready.(risk := risk.State())
      ensures (risk.State(), found) == ScoredAll(ready, p, done + PairsWith(buy, sells), quo)
    {
      hide ScoredPair, ScoredAll, PairsWith;
      found := before;
      PairsWithNone(buy, sells);
      assert done + [] == done;
      for j := 0 to |sells|
        invariant State() == ready.(risk := risk.State())
        invariant (risk.State(), found) == ScoredAll(ready, p, done + PairsWith(buy, sells[..j]), quo)
      {
        PairsWithStep(buy, sells, j);
        if buy.exchange == sells[j].exchange {
          continue;
        }
        ghost var pairs := done + PairsWith(buy, sells[..j]);
        var o := EvaluatePair(buy, sells[j], p, terms, now, execute);
        ScoredAllStep(ready, p, pairs, (buy, sells[j]), quo);
        assert done + PairsWith(buy, sells[..j + 1]) == pairs + [(buy, sells[j])];
        found := found + [o];
      }
      assert sells[..|sells|] == sells;
    }

    /** Scores all pairs of one market, on top of the pairs `done` so far. */
    method ScoreMarket(group: seq<OrderBook>, ghost p: Pass, terms: seq<TermsSnapshot>, now: Time, execute: bool,
                       before: seq<Opportunity>, ghost ready: EngineState, ghost done: seq<Pair>)
      returns (found: seq<Opportunity>)
      requires Valid() && p.terms == terms && p.now == now && p.execute == execute
      requires State() == ready.(risk := risk.State())
      requires (risk.State(), before) == ScoredAll(ready, p, done, quo)
      modifies risk
      ensures State() == ready.(risk := risk.State())
      ensures (risk.State(), found) == ScoredAll(ready, p, done + PairsOf(group, group), quo)
    {
      hide ScoredAll;
      found := before;
      assert done + PairsOf(group[..0], group) == done;
      for i := 0 to |group|
        invariant State() == ready.(risk := risk.State())
        invariant (risk.State(), found) == ScoredAll(ready, p, done + PairsOf(group[..i], group), quo)
      {
        ghost var row := done + PairsOf(group[..i], group);
        found := ScoreRow(group[i], group, p, terms, now, execute, found, ready, row);
        PairsOfStep(group, group, i);
        assert row + PairsWith(group[i], group) == done + PairsOf(group[..i + 1], group);
      }
      assert group[..|group|] == group;
    }

    method FindOpportunities(books: seq<OrderBook>, terms: seq<TermsSnapshot>, now: Time, execute: bool)
      returns (found: seq<Opportunity>, ghost order: seq<Market>)
      requires Valid()
      modifies risk
      ensures State() == old(State()).(risk := risk.State())
      ensures MarketOrder(books, order)
      ensures (risk.State(), found) == Found(old(State()), Pass(books, terms, now, execute, order, []), quo)
    {
      ghost var ready := State();
      ghost var p := Pass(books, terms, now, execute, [], []);
      NothingScored(ready, p, books, quo);
      hide ScoredAll, AllPairs, MarketBooks;
      var byMarket := GroupByMarket(books);
      var left := byMarket.Keys;
      found, order := [], [];
      while left != {}
        invariant State() == ready.(risk := risk.State())
        invariant left <= byMarket.Keys
        invariant forall i, j | 0 <= i < j < |order| :: order[i] != order[j]
        invariant forall m :: m in order <==> m in byMarket.Keys - left
        invariant (risk.State(), found) == ScoredAll(ready, p, AllPairs(books, order), quo)
        decreases left
      {
        var market :| market in left;
        assert market !in order;
        assert forall m :: m in order + [market] <==> m in byMarket.Keys - (left - {market});
        left := left - {market};
        found := ScoreMarket(byMarket[market], p, terms, now, execute, found, ready, AllPairs(books, order));
        AllPairsStep(books, order, market);
        order := order + [market];
      }
      ScoredAllSame(ready, p, p.(order := order), AllPairs(books, order), quo);
      if found == [] {
        found := [NO_ROUTE];
      }
    }

    method ExecuteBest(o: Opportunity) returns (shown: Opportunity)
      modifies this, ledger, risk
      ensures (State(), shown) == ExecutedBest(old(State()), o)
    {
      if o.id in executedIds {
        return o.(decision := Wait, reason := WaitingNewBook);
      }
      hide Applied, Payable, Opened;
      var ok := ledger.Apply(ExecutionOf(o));
      if !ok {
        risk.Halt(LedgerApplyFailed, ["paper ledger rejected simulated execution"]);
        return o.(decision := Skip, reason := LedgerApplyFailed);
      }
      executedIds := executedIds + {o.id};
      return o;
    }

    method ObserveSessionBest(opportunities: seq<Opportunity>)
      modifies this
      ensures executedIds == old(executedIds) && sessionBest == BestNet(old(sessionBest), opportunities)
    {
      ghost var was := sessionBest;
      for i := 0 to |opportunities|
        invariant executedIds == old(executedIds) && sessionBest == BestNet(was, opportunities[..i])
      {
        assert opportunities[..i + 1][..i] == opportunities[..i];
        var o := opportunities[i];
        if !NetComparable(o) {
          continue;
        }
        if sessionBest.None? || o.net > sessionBest.value.net {
          sessionBest := Some(o);
        }
      }
      assert opportunities[..|opportunities|] == opportunities;
    }

    method Number(sorted: seq<Opportunity>) returns (ranked: seq<Opportunity>, rejected: nat)
      ensures ranked == Numbered(sorted) && rejected == Rejected(sorted) == |Skipped(sorted)|
    {
      RejectedAreSkipped(sorted);
      ranked, rejected := [], 0;
      for i := 0 to |sorted|
        invariant |ranked| == i && forall k | 0 <= k < i :: ranked[k] == sorted[k].(rank := k + 1)
        invariant rejected == Rejected(sorted[..i])
      {
        assert sorted[..i + 1][..i] == sorted[..i];
        ranked := ranked + [sorted[i].(rank := i + 1)];
        if sorted[i].decision == Skip {
          rejected := rejected + 1;
        }
      }
      assert sorted[..|sorted|] == sorted;
    }

    method Run(books: seq<OrderBook>, terms: seq<TermsSnapshot>, now: Time, execute: bool)
      returns (report: Report, ghost p: Pass)
      requires Valid()
      modifies this, ledger, latency, risk
      ensures p.books == books && p.terms == terms && p.now == now && p.execute == execute
      ensures PassStep(old(State()), p, State(), report.opportunities, Built())
      ensures report.sessionPnl == State().ledger.sessionPnl && report.executed == |State().ledger.executions|
      ensures report.best == State().best && report.rejected == |Skipped(p.sorted)|
    {
      hide Found, Observed, SeededFresh, BestNet, MarketOrder, ExecutedBest, Rejected, Skipped;
      latency.Observe(books, now);
      SeedActualBalances(terms, now);
      ghost var ready := State();
      var found, order := FindOpportunities(books, terms, now, execute);
      BeforeIsStrictWeakOrder();
      var sorted := Sort(found, Before);
      p := Pass(books, terms, now, execute, order, sorted);
      FoundSame(ready, Pass(books, terms, now, execute, order, []), p, quo);
      var ranked, rejected := Number(sorted);
      if execute && |ranked| > 0 && ranked[0].decision == Execute {
        var first := ExecuteBest(ranked[0]);
        ranked := ranked[0 := first];
      }
      ObserveSessionBest(ranked);
      report := Report(ranked, ledger.sessionPnl, |ledger.executions|, rejected, sessionBest);
    }

    method Evaluate(books: seq<OrderBook>, terms: seq<TermsSnapshot>, now: Time) returns (report: Report, ghost p: Pass)
      requires Valid()
      modifies this, ledger, latency, risk
      ensures p.books == books && p.terms == terms && p.now == now && p.execute
      ensures PassStep(old(State()), p, State(), report.opportunities, Built())
    {
      report, p := Run(books, terms, now, true);
    }

    method Project(books: seq<OrderBook>, terms: seq<TermsSnapshot>, now: Time) returns (report: Report, ghost p: Pass)
      requires Valid()
      modifies this, ledger, latency, risk
      ensures p.books == books && p.terms == terms && p.now == now && !p.execute
      ensures PassStep(old(State()), p, State(), report.opportunities, Built())
    {
      report, p := Run(books, terms, now, false);
    }
  }

  lemma {:induction false} PairsWithNone(buy: OrderBook, sells: seq<OrderBook>)
    ensures PairsWith(buy, sells[..0]) == []
  {
  }

  lemma {:induction false} PairsWithStep(buy: OrderBook, sells: seq<OrderBook>, j: nat)
    requires j < |sells|
    ensures PairsWith(buy, sells[..j + 1])
         == if buy.exchange == sells[j].exchange then PairsWith(buy, sells[..j])
            else PairsWith(buy, sells[..j]) + [(buy, sells[j])]
  {
    assert sells[..j + 1][..j] == sells[..j];
  }

  lemma {:induction false} NothingScored(s: EngineState, p: Pass, books: seq<OrderBook>, quo: Quotient)
    ensures ScoredAll(s, p, AllPairs(books, []), quo) == (s.risk, [])
  {
  }

  lemma {:induction false} PairsOfStep(buys: seq<OrderBook>, sells: seq<OrderBook>, i: nat)
    requires i < |buys|
    ensures PairsOf(buys[..i + 1], sells) == PairsOf(buys[..i], sells) + PairsWith(buys[i], sells)
  {
    assert buys[..i + 1][..i] == buys[..i];
  }

  lemma {:induction false} ScoredAllStep(s: EngineState, p: Pass, pairs: seq<Pair>, pair: Pair, quo: Quotient)
    ensures
      var (risk, before) := ScoredAll(s, p, pairs, quo);
      var (risk', last) := ScoredPair(s.(risk := risk), p, pair, quo);
      ScoredAll(s, p, pairs + [pair], quo) == (risk', before + [last])
  {
    assert (pairs + [pair])[..|pairs|] == pairs;
  }

  /** Scoring reads only the terms, the time and the flag of a pass. */
  lemma {:induction false} ScoredAllSame(s: EngineState, p: Pass, q: Pass, pairs: seq<Pair>, quo: Quotient)
    requires p.terms == q.terms && p.now == q.now && p.execute == q.execute
    ensures ScoredAll(s, p, pairs, quo) == ScoredAll(s, q, pairs, quo)
    decreases |pairs|
  {
    if pairs != [] {
      ScoredAllSame(s, p, q, pairs[..|pairs| - 1], quo);
    }
  }

  lemma FoundSame(s: EngineState, p: Pass, q: Pass, quo: Quotient)
    requires p.terms == q.terms && p.now == q.now && p.execute == q.execute && p.books == q.books && p.order == q.order
    ensures Found(s, p, quo) == Found(s, q, quo)
  {
    ScoredAllSame(s, p, q, AllPairs(p.books, p.order), quo);
  }
}
