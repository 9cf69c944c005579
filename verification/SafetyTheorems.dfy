/** Safety over whole runs: the breaker moves only by hand, wallets never empty, reserves are kept, and
    the session best is the best ever shown. */
module SafetyTheorems {
  import opened Arithmetic
  import opened Wrappers
  import opened Exchange
  import opened Reasons
  import opened Terms
  import opened Ledger
  import opened LedgerTheorems
  import opened Risk
  import opened RiskTheorems
  import opened Latency
  import opened LatencyTheorems
  import opened Ranking
  import opened Scoring
  import opened RouteTheorems
  import opened PassTheorems
  import opened RunTheorems

  // ----- The circuit breaker -----

  lemma StuckStep(s: EngineState, e: Event, s': EngineState, setup: Setup)
    requires Consistent(s) && Step(s, e, s', setup) && Halts(s.risk) && e != Control(Reset)
    ensures Halts(s'.risk) && s'.ledger.executions == s.ledger.executions
    ensures e.Passed? ==> s'.risk == s.risk && forall o | o in e.shown :: o.decision != Execute
  {
    hide Consistent, PassStep, Prepared, Executable, FeePaid, Applied, Payable;
    NeverInLoss(s);
    match e
    case Passed(p, shown) =>
      PassOutcome(s, p, s', shown, setup);
      PreparedKeeps(s, p, setup);
    case Control(c) =>
      OpenStays(s.risk, c);
  }

  /** Once open and halted, the circuit stays so through passes, mode switches, further halts and
      questions, until a reset: nothing is shown as executable, nothing is executed, profit stands
      still, and every candidate is told that the circuit is open. */
  lemma {:induction false} RunIsStuck(mode: string, states: seq<EngineState>, events: seq<Event>, setup: Setup,
                                      i: nat, j: nat, c: Candidate)
    requires Run(mode, states, events, setup) && i <= j < |states| && Halts(states[i].risk)
    requires forall k | i <= k < j :: events[k] != Control(Reset)
    ensures Halts(states[j].risk) && states[j].ledger.executions == states[i].ledger.executions
    ensures states[j].ledger.sessionPnl == states[i].ledger.sessionPnl
    ensures forall k | i <= k < j && events[k].Passed? :: forall o | o in events[k].shown :: o.decision != Execute
    ensures !Judged(states[j].risk, c).allowed && Judged(states[j].risk, c).reason == RiskCircuitOpen
    decreases j
  {
    hide Step, Consistent;
    if i < j {
      RunIsStuck(mode, states, events, setup, i, j - 1, c);
      RunConsistent(mode, states, events, setup, j - 1);
      StuckStep(states[j - 1], events[j - 1], states[j], setup);
      RunGrows(mode, states, events, setup, i, j);
    }
  }

  ghost function Controls(events: seq<Event>): seq<RiskEvent>
    decreases |events|
  {
    if events == [] then []
    else
      var before, last := Controls(events[..|events| - 1]), events[|events| - 1];
      if last.Control? then before + [last.event] else before
  }

  lemma ControlLast(r: RiskState, events: seq<Event>)
    requires events != []
    ensures
      var before, last := Replay(r, Controls(events[..|events| - 1])), events[|events| - 1];
      Replay(r, Controls(events)) == if last.Control? then Next(before, last.event) else before
  {
    hide Next, Replay;
    var controls := Controls(events);
    if events[|events| - 1].Control? {
      ReplayLast(r, controls);
      assert controls[..|controls| - 1] == Controls(events[..|events| - 1]);
    }
  }

  lemma SameBreaker(r: RiskState, r': RiskState, e: RiskEvent)
    requires r.open == r'.open && r.mode == r'.mode
    ensures Next(r, e).open == Next(r', e).open && Next(r, e).mode == Next(r', e).mode
  {
  }

  /** Passes never move the breaker or the mode: both are what the controls alone would have made them,
      so the circuit is open exactly when a control opened it after the last reset. */
  lemma {:induction false} BreakerMovesByHand(mode: string, states: seq<EngineState>, events: seq<Event>,
                                              setup: Setup, j: nat)
    requires Run(mode, states, events, setup) && j < |states|
    ensures
      var manual := Replay(Started(mode), Controls(events[..j]));
      states[j].risk.open == manual.open && states[j].risk.mode == manual.mode
    ensures states[j].risk.open <==> OpenAfter(Started(mode), Controls(events[..j]))
  {
    hide Consistent, PassStep, Outcome, Next, OpenAfter, Replay;
    if j > 0 {
      var s, e := states[j - 1], events[j - 1];
      BreakerMovesByHand(mode, states, events, setup, j - 1);
      RunConsistent(mode, states, events, setup, j - 1);
      assert events[..j][..j - 1] == events[..j - 1];
      ControlLast(Started(mode), events[..j]);
      BreakerStep(s, e, states[j], setup);
      if e.Control? {
        SameBreaker(s.risk, Replay(Started(mode), Controls(events[..j - 1])), e.event);
      }
    } else {
      NoControls(Started(mode));
    }
    CircuitOpenIff(Started(mode), Controls(events[..j]));
  }

  lemma {:induction false} NeverTripped(r: RiskState, controls: seq<RiskEvent>)
    requires !r.open && forall c | c in controls :: c.SetMode? || c.Reset?
    ensures !OpenAfter(r, controls)
    decreases |controls|
  {
    if controls != [] {
      NeverTripped(r, controls[..|controls| - 1]);
    }
  }

  lemma {:induction false} ControlsOf(events: seq<Event>)
    ensures forall c | c in Controls(events) :: Control(c) in events
    decreases |events|
  {
    if events != [] {
      ControlsOf(events[..|events| - 1]);
    }
  }

  /** The server lets nothing but mode switches and resets at the controller from outside.  In such a run
      the breaker never opens, whatever the markets do. */
  lemma BreakerNeverOpens(mode: string, states: seq<EngineState>, events: seq<Event>, setup: Setup, j: nat)
    requires Run(mode, states, events, setup) && j < |states|
    requires forall e | e in events && e.Control? :: e.event.SetMode? || e.event.Reset?
    ensures !states[j].risk.open
  {
    hide Step, OpenAfter;
    BreakerMovesByHand(mode, states, events, setup, j);
    ControlsOf(events[..j]);
    NeverTripped(Started(mode), Controls(events[..j]));
  }

  lemma {:induction false} NoControls(r: RiskState)
    ensures Replay(r, Controls([])) == r
  {
  }

  lemma BreakerStep(s: EngineState, e: Event, s': EngineState, setup: Setup)
    requires s.ledger.sessionPnl >= 0.0 && Step(s, e, s', setup)
    ensures e.Passed? ==> s'.risk.open == s.risk.open && s'.risk.mode == s.risk.mode
    ensures e.Control? ==> s'.risk == Next(s.risk, e.event)
  {
    hide PassStep, Prepared, Executable, FeePaid, Applied, Payable, Next;
    if e.Passed? {
      PassOutcome(s, e.pass, s', e.shown, setup);
    }
  }

  // ----- Wallets -----

  ghost predicate Solvent(l: LedgerState) {
    forall e | e in l.balances :: AllPositive(l.balances[e])
  }

  /** No market trades an asset against itself, and no taker fee takes everything. */
  ghost predicate Plausible(p: Pass) {
    && (forall b | b in p.books :: b.market.base != b.market.quote)
    && forall t | t in p.terms :: t.takerRate < 1.0
  }

  lemma {:induction false} SeedingSolvent(l: LedgerState, terms: seq<TermsSnapshot>, now: Time)
    requires Solvent(l)
    ensures Solvent(SeededFresh(l, terms, now))
    decreases |terms|
  {
    if terms != [] {
      SeedingSolvent(l, terms[..|terms| - 1], now);
      FlooredPositive(terms[|terms| - 1].balances, FALLBACK_BALANCES);
    }
  }

  lemma CreditedSolvent(l: LedgerState, exchange: Id, asset: string, amount: real)
    requires Solvent(l) && exchange in l.balances && View(l, exchange, asset) + amount > 0.0
    ensures Solvent(Credited(l, exchange, asset, amount))
  {
  }

  lemma EnsuredSolvent(l: LedgerState, exchange: Id)
    requires Solvent(l)
    ensures Solvent(Ensured(l, exchange))
  {
  }

  lemma SolventView(l: LedgerState, exchange: Id, asset: string)
    requires Solvent(l)
    ensures View(l, exchange, asset) >= 0.0
  {
  }

  /** An execution that leaves something in both paying wallets leaves every entry positive. */
  lemma AppliedSolvent(l: LedgerState, x: Execution)
    requires Solvent(l) && Payable(l, x) && x.buyExchange != x.sellExchange && x.market.base != x.market.quote
    requires View(l, x.buyExchange, x.market.quote) > x.BuyCost() && View(l, x.sellExchange, x.market.base) > x.baseSize
    requires x.baseSize > 0.0 && x.SellProceeds() > 0.0
    ensures Solvent(Applied(l, x))
  {
    var buy, sell, base, quote := x.buyExchange, x.sellExchange, x.market.base, x.market.quote;
    hide View, Credited, Ensured, Solvent, Payable;
    EnsuredSolvent(l, buy);
    EnsuredSolvent(Ensured(l, buy), sell);
    var met := Ensured(Ensured(l, buy), sell);
    EnsuredBoth(l, x);
    EnsuredView(l, buy, buy, quote);
    EnsuredView(Ensured(l, buy), sell, buy, quote);
    EnsuredView(l, buy, sell, base);
    EnsuredView(Ensured(l, buy), sell, sell, base);
    CreditedSolvent(met, buy, quote, -x.BuyCost());
    CreditedView(met, buy, quote, -x.BuyCost(), sell, base);
    var l1 := Credited(met, buy, quote, -x.BuyCost());
    SolventView(l1, buy, base);
    CreditedSolvent(l1, buy, base, x.baseSize);
    CreditedView(l1, buy, base, x.baseSize, sell, base);
    var l2 := Credited(l1, buy, base, x.baseSize);
    CreditedSolvent(l2, sell, base, -x.baseSize);
    CreditedView(l2, sell, base, -x.baseSize, sell, quote);
    var l3 := Credited(l2, sell, base, -x.baseSize);
    SolventView(l3, sell, quote);
    CreditedSolvent(l3, sell, quote, x.SellProceeds());
    SameBalances(Credited(l3, sell, quote, x.SellProceeds()), Applied(l, x));
  }

  lemma SameBalances(l: LedgerState, l': LedgerState)
    requires Solvent(l) && l'.balances == l.balances
    ensures Solvent(l')
  {
  }

  lemma ExecutableSolvent(l: LedgerState, o: Opportunity, p: Pass, rate: real)
    requires Executable(l, o, rate) && FeePaid(o, p.terms) && Plausible(p)
    ensures
      var x := ExecutionOf(o);
      && View(l, x.buyExchange, x.market.quote) > x.BuyCost() && View(l, x.sellExchange, x.market.base) > x.baseSize
      && x.baseSize > 0.0 && x.SellProceeds() > 0.0
  {
    hide View, Balanced;
    var t :| t in p.terms && o.sellFee == o.sellNotional * t.takerRate;
    MulStrict(t.takerRate, 1.0, o.sellNotional);
  }

  lemma PassSolvent(s: EngineState, p: Pass, s': EngineState, shown: seq<Opportunity>, setup: Setup)
    requires s.ledger.sessionPnl >= 0.0 && PassStep(s, p, s', shown, setup) && Plausible(p) && Solvent(s.ledger)
    ensures Solvent(s'.ledger)
  {
    hide PassStep, Executable, FeePaid, Applied, Payable, View, Solvent;
    PassOutcome(s, p, s', shown, setup);
    var ready := Prepared(s, p, setup).ledger;
    SeedingSolvent(s.ledger, p.terms, p.now);
    if Executes(p) {
      ExecutableSolvent(ready, p.sorted[0], p, Reserve(s));
      AppliedSolvent(ready, ExecutionOf(p.sorted[0]));
    }
  }

  /** Every entry of every wallet is positive in every state, through seeding, mode switches and trades. */
  lemma {:induction false} RunSolvent(mode: string, states: seq<EngineState>, events: seq<Event>, setup: Setup, j: nat)
    requires Run(mode, states, events, setup) && j < |states|
    requires forall k | 0 <= k < j && events[k].Passed? :: Plausible(events[k].pass)
    ensures Solvent(states[j].ledger)
  {
    hide PassStep, Consistent, Plausible;
    if j == 0 {
      DemoLedger(DEFAULT_EXCHANGES);
    } else {
      RunSolvent(mode, states, events, setup, j - 1);
      RunConsistent(mode, states, events, setup, j - 1);
      var s, e := states[j - 1], events[j - 1];
      if e.Passed? {
        PassSolvent(s, e.pass, states[j], e.shown, setup);
      }
    }
  }

  /** Every execution of a run leaves the reserve of the mode in force in both wallets that pay. */
  lemma RunKeepsReserve(mode: string, states: seq<EngineState>, events: seq<Event>, setup: Setup, i: nat)
    requires Run(mode, states, events, setup) && i < |events| && events[i].Passed? && Executes(events[i].pass)
    requires events[i].pass.sorted[0].market.base != events[i].pass.sorted[0].market.quote
    ensures
      var x, before := ExecutionOf(events[i].pass.sorted[0]), Prepared(states[i], events[i].pass, setup).ledger;
      var after, rate := states[i + 1].ledger, ThresholdsFor(states[i].risk.mode).reserveRate;
      && states[i + 1].ledger.executions == states[i].ledger.executions + [x]
      && View(after, x.buyExchange, x.market.quote) >= View(before, x.buyExchange, x.market.quote) * rate > 0.0
      && View(after, x.sellExchange, x.market.base) >= View(before, x.sellExchange, x.market.base) * rate > 0.0
  {
    hide PassStep, Consistent, Prepared, View, ThresholdsFor;
    RunConsistent(mode, states, events, setup, i);
    StepKeepsConsistent(states[i], events[i], states[i + 1], setup);
    ExecutionKeepsReserve(states[i], events[i].pass, states[i + 1], events[i].shown, setup);
  }

  // ----- The session best -----

  ghost function AllShown(events: seq<Event>): seq<Opportunity>
    decreases |events|
  {
    if events == [] then []
    else
      var before, last := AllShown(events[..|events| - 1]), events[|events| - 1];
      if last.Passed? then before + last.shown else before
  }

  /** The session best is a comparable route of greatest net profit among all those ever shown, by
      `Evaluate` or `Project`, or absent when none was comparable. */
  lemma {:induction false} RunBest(mode: string, states: seq<EngineState>, events: seq<Event>, setup: Setup, j: nat)
    requires Run(mode, states, events, setup) && j < |states|
    ensures IsBestOf(states[j].best, AllShown(events[..j]))
  {
    hide PassStep, Consistent, IsBestOf, BestNet;
    if j == 0 {
      NothingShown();
    } else {
      var s, e := states[j - 1], events[j - 1];
      RunBest(mode, states, events, setup, j - 1);
      RunConsistent(mode, states, events, setup, j - 1);
      assert events[..j][..j - 1] == events[..j - 1];
      if e.Passed? {
        BestStep(s, e.pass, states[j], e.shown, setup);
        BestNetOverall(s.best, AllShown(events[..j - 1]), e.shown);
      }
    }
  }

  lemma NothingShown()
    ensures IsBestOf(None, AllShown([]))
  {
  }

  lemma {:induction false} BestStep(s: EngineState, p: Pass, s': EngineState, shown: seq<Opportunity>, setup: Setup)
    requires s.ledger.sessionPnl >= 0.0 && PassStep(s, p, s', shown, setup)
    ensures s'.best == BestNet(s.best, shown)
  {
    hide PassStep, Prepared, Executable, FeePaid, Applied, Payable, BestNet;
    PassOutcome(s, p, s', shown, setup);
  }

  // ----- Latency samples -----

  ghost function Calls(events: seq<Event>): seq<Call>
    decreases |events|
  {
    if events == [] then []
    else
      var before, last := Calls(events[..|events| - 1]), events[|events| - 1];
      if last.Passed? then before + [Call(last.pass.books, last.pass.now)] else before
  }

  /** The latency samples of a run are those of its passes, observed one after the other. */
  lemma {:induction false} RunSamples(mode: string, states: seq<EngineState>, events: seq<Event>, setup: Setup, j: nat)
    requires Run(mode, states, events, setup) && j < |states|
    ensures states[j].samples == SamplesAfter(Calls(events[..j]), setup.window, setup.quo)
  {
    hide PassStep, Consistent, Observed;
    if j > 0 {
      var s, e := states[j - 1], events[j - 1];
      RunSamples(mode, states, events, setup, j - 1);
      RunConsistent(mode, states, events, setup, j - 1);
      assert events[..j][..j - 1] == events[..j - 1];
      if e.Passed? {
        var before := Calls(events[..j - 1]);
        assert (before + [Call(e.pass.books, e.pass.now)])[..|before|] == before;
        SampleStep(s, e.pass, states[j], e.shown, setup);
      }
    }
  }

  lemma SampleStep(s: EngineState, p: Pass, s': EngineState, shown: seq<Opportunity>, setup: Setup)
    requires s.ledger.sessionPnl >= 0.0 && PassStep(s, p, s', shown, setup)
    ensures s'.samples == Observed(s.samples, p.books, p.now, setup.window, setup.quo)
  {
    hide PassStep, Executable, FeePaid, Applied, Payable, BestNet, Observed;
    PassOutcome(s, p, s', shown, setup);
  }

  lemma MidOfWellFormed(b: OrderBook, quo: Quotient)
    requires Tradable(b) && WellFormed(b) && Exact(quo)
    ensures MidOf(b, quo).Some?
  {
    assert ExactAt(quo, b.bids[0].price + b.asks[0].price, 2.0);
  }

  /** When pass times never step back, all that the penalty of a scored pair can rest on was sampled
      within the window that ends at the pass. */
  lemma PassPenaltyInWindow(mode: string, states: seq<EngineState>, events: seq<Event>, setup: Setup, i: nat,
                            pair: Pair)
    requires Run(mode, states, events, setup) && i < |events| && events[i].Passed?
    requires ClockForward(Calls(events[..i + 1])) && Exact(setup.quo)
    requires pair in AllPairs(events[i].pass.books, events[i].pass.order) && WellFormed(pair.0) && WellFormed(pair.1)
    ensures
      var p, ready := events[i].pass, Prepared(states[i], events[i].pass, setup);
      forall b, x | b in {pair.0, pair.1} && x in SamplesOf(ready.samples, b.BookKey()) ::
        p.now - setup.window <= x.at <= p.now
  {
    var p, quo := events[i].pass, setup.quo;
    var calls := Calls(events[..i + 1]);
    assert events[..i + 1][..i] == events[..i];
    assert calls[..|calls| - 1] == Calls(events[..i]);
    hide PassStep, Step, Observed, AllPairs, WellFormed, MidOf, ClockForward, Tradable, SamplesOf, Exact,
         SeededFresh, Calls;
    RunSamples(mode, states, events, setup, i);
    AllPairsMembers(p.books, p.order, pair);
    assert Prepared(states[i], p, setup).samples == SamplesAfter(calls, setup.window, quo);
    forall b | b in {pair.0, pair.1}
      ensures forall x | x in SamplesOf(SamplesAfter(calls, setup.window, quo), b.BookKey()) ::
                p.now - setup.window <= x.at <= p.now
    {
      MidOfWellFormed(b, quo);
      PenaltyRestsOnWindow(b.BookKey(), calls, setup.window, quo, b);
    }
  }
}
