/** Where the money of a run went: every balance and every total is accounted for by the executions. */
module ReconciliationTheorems {
  import opened Arithmetic
  import opened Exchange
  import opened Ledger
  import opened LedgerTheorems
  import opened Scoring
  import opened RouteTheorems
  import opened PassTheorems
  import opened RunTheorems

  ghost function Moved(xs: seq<Execution>, exchange: Id, asset: string): real {
    if xs == [] then 0.0 else Moved(xs[..|xs| - 1], exchange, asset) + Delta(xs[|xs| - 1], exchange, asset)
  }

  /** Every balance is the starting one plus what the executions moved. */
  ghost predicate Reconciled(start: LedgerState, l: LedgerState) {
    forall exchange, asset ::
      View(l, exchange, asset) == View(start, exchange, asset) + Moved(l.executions, exchange, asset)
  }

  lemma AppliedReconciles(start: LedgerState, l: LedgerState, x: Execution)
    requires Reconciled(start, l) && Payable(l, x)
    ensures Reconciled(start, Applied(l, x))
  {
    hide View, Payable, Applied, Delta;
    AppliedRecords(l, x);
    var xs := l.executions + [x];
    assert xs[..|xs| - 1] == l.executions;
    forall exchange, asset
      ensures View(Applied(l, x), exchange, asset) == View(start, exchange, asset) + Moved(xs, exchange, asset)
    {
      AppliedView(l, x, exchange, asset);
    }
  }

  /** An event keeps a reconciled ledger reconciled once something was executed, because seeding has
      stopped by then. */
  lemma StepReconciles(start: LedgerState, s: EngineState, e: Event, s': EngineState, setup: Setup)
    requires s.ledger.sessionPnl >= 0.0 && Step(s, e, s', setup)
    requires e.Passed? ==> Reconciled(start, Prepared(s, e.pass, setup).ledger)
    requires e.Control? ==> Reconciled(start, s.ledger)
    ensures Reconciled(start, s'.ledger)
  {
    hide Prepared, Reconciled, Applied, Payable, Executable, FeePaid, PassStep;
    if e.Passed? {
      PassOutcome(s, e.pass, s', e.shown, setup);
      if Executes(e.pass) {
        AppliedReconciles(start, Prepared(s, e.pass, setup).ledger, ExecutionOf(e.pass.sorted[0]));
      }
    }
  }

  lemma NothingMoved(l: LedgerState)
    requires l.executions == []
    ensures Reconciled(l, l)
  {
  }

  /** From the first execution on, every balance of every exchange is the one it had when that
      execution was decided plus what the executions moved: no seeding, mode switch, halt, reset or
      projection ever changes a balance again. */
  lemma {:induction false} RunReconciles(mode: string, states: seq<EngineState>, events: seq<Event>, setup: Setup,
                                         j: nat)
    returns (first: nat, start: LedgerState)
    requires Run(mode, states, events, setup) && j < |states| && states[j].ledger.executions != []
    ensures first < j && events[first].Passed? && states[first].ledger.executions == []
    ensures start == Prepared(states[first], events[first].pass, setup).ledger && start.executions == []
    ensures Reconciled(start, states[j].ledger)
    decreases j
  {
    hide Step, Consistent, Reconciled, Prepared;
    if j == 0 {
      StartConsistent(mode);
    } else {
      var s, e := states[j - 1], events[j - 1];
      RunConsistent(mode, states, events, setup, j - 1);
      StepKeepsConsistent(s, e, states[j], setup);
      if e.Passed? {
        PreparedKeeps(s, e.pass, setup);
      }
      if s.ledger.executions != [] {
        first, start := RunReconciles(mode, states, events, setup, j - 1);
      } else {
        first, start := j - 1, Prepared(s, e.pass, setup).ledger;
        NothingMoved(start);
      }
      StepReconciles(start, s, e, states[j], setup);
    }
  }

  // ----- Totals over the exchanges -----

  /** What executions quoted in an asset brought in: profit, latency penalty and rebalance cost. */
  ghost function Earned(xs: seq<Execution>, asset: string): real {
    if xs == [] then 0.0
    else
      var x := xs[|xs| - 1];
      Earned(xs[..|xs| - 1], asset)
      + (if x.market.quote == asset then x.netProfit + x.latencyPenalty + Max(x.rebalanceCost, 0.0) else 0.0)
  }

  ghost function MovedOver(xs: seq<Execution>, exchanges: seq<Id>, asset: string): real {
    if exchanges == [] then 0.0 else Moved(xs, exchanges[0], asset) + MovedOver(xs, exchanges[1..], asset)
  }

  lemma {:induction false} MovedOverLast(xs: seq<Execution>, exchanges: seq<Id>, asset: string)
    requires xs != []
    ensures MovedOver(xs, exchanges, asset)
         == MovedOver(xs[..|xs| - 1], exchanges, asset) + SumDelta(xs[|xs| - 1], exchanges, asset)
    decreases |exchanges|
  {
    hide Delta;
    if exchanges != [] {
      MovedOverLast(xs, exchanges[1..], asset);
    }
  }

  lemma {:induction false} MovedNone(exchanges: seq<Id>, asset: string)
    ensures MovedOver([], exchanges, asset) == 0.0
  {
    if exchanges != [] {
      MovedNone(exchanges[1..], asset);
    }
  }

  ghost predicate Between(xs: seq<Execution>, exchanges: seq<Id>) {
    forall x | x in xs :: Balanced(x) && x.buyExchange in exchanges && x.sellExchange in exchanges
  }

  lemma {:induction false} MovedIsEarned(xs: seq<Execution>, exchanges: seq<Id>, asset: string)
    requires Distinct(exchanges) && Between(xs, exchanges)
    ensures MovedOver(xs, exchanges, asset) == Earned(xs, asset)
    decreases |xs|
  {
    if xs == [] {
      MovedNone(exchanges, asset);
    } else {
      var before, x := xs[..|xs| - 1], xs[|xs| - 1];
      assert x in xs && forall y | y in before :: y in xs;
      hide MovedOver, Distinct, SumDelta;
      MovedIsEarned(before, exchanges, asset);
      MovedOverLast(xs, exchanges, asset);
      SumDeltaParts(x, exchanges, asset);
    }
  }

  lemma {:induction false} HoldingsMoved(start: LedgerState, l: LedgerState, exchanges: seq<Id>, asset: string)
    requires Reconciled(start, l)
    ensures Holdings(l, exchanges, asset) == Holdings(start, exchanges, asset) + MovedOver(l.executions, exchanges, asset)
    decreases |exchanges|
  {
    hide View, Moved;
    if exchanges != [] {
      HoldingsMoved(start, l, exchanges[1..], asset);
    }
  }

  // ----- Totals over the quote assets -----

  ghost function Earnings(xs: seq<Execution>, assets: seq<string>): real {
    if assets == [] then 0.0 else Earned(xs, assets[0]) + Earnings(xs, assets[1..])
  }

  ghost function HoldingsOf(l: LedgerState, exchanges: seq<Id>, assets: seq<string>): real {
    if assets == [] then 0.0 else Holdings(l, exchanges, assets[0]) + HoldingsOf(l, exchanges, assets[1..])
  }

  /** All the latency penalties and rebalance costs charged. */
  ghost function TotalCharges(xs: seq<Execution>): real {
    if xs == [] then 0.0
    else TotalCharges(xs[..|xs| - 1]) + xs[|xs| - 1].latencyPenalty + Max(xs[|xs| - 1].rebalanceCost, 0.0)
  }

  ghost predicate Quoted(xs: seq<Execution>, quotes: seq<string>) {
    && (forall i, j | 0 <= i < j < |quotes| :: quotes[i] != quotes[j])
    && forall x | x in xs :: x.market.quote in quotes
  }

  ghost function Brought(x: Execution): real {
    x.netProfit + x.latencyPenalty + Max(x.rebalanceCost, 0.0)
  }

  lemma {:induction false} EarningsLast(xs: seq<Execution>, quotes: seq<string>)
    requires xs != [] && forall i, j | 0 <= i < j < |quotes| :: quotes[i] != quotes[j]
    ensures Earnings(xs, quotes) == Earnings(xs[..|xs| - 1], quotes)
                                    + (if xs[|xs| - 1].market.quote in quotes then Brought(xs[|xs| - 1]) else 0.0)
    decreases |quotes|
  {
    if quotes != [] {
      EarningsLast(xs, quotes[1..]);
      assert quotes[0] !in quotes[1..];
      assert forall q :: q in quotes <==> q == quotes[0] || q in quotes[1..];
    }
  }

  lemma {:induction false} EarningsNone(quotes: seq<string>)
    ensures Earnings([], quotes) == 0.0
  {
    if quotes != [] {
      EarningsNone(quotes[1..]);
    }
  }

  lemma {:induction false} EarningsAddUp(xs: seq<Execution>, quotes: seq<string>)
    requires Quoted(xs, quotes)
    ensures Earnings(xs, quotes) == TotalNet(xs) + TotalCharges(xs)
    decreases |xs|
  {
    if xs == [] {
      EarningsNone(quotes);
    } else {
      assert xs[|xs| - 1] in xs && forall y | y in xs[..|xs| - 1] :: y in xs;
      EarningsAddUp(xs[..|xs| - 1], quotes);
      EarningsLast(xs, quotes);
    }
  }

  lemma {:induction false} HoldingsOfEarned(start: LedgerState, l: LedgerState, exchanges: seq<Id>, assets: seq<string>)
    requires Reconciled(start, l) && Distinct(exchanges) && Between(l.executions, exchanges)
    ensures HoldingsOf(l, exchanges, assets) == HoldingsOf(start, exchanges, assets) + Earnings(l.executions, assets)
    decreases |assets|
  {
    hide Holdings, MovedOver, Distinct, Between, Reconciled, Earned;
    if assets != [] {
      HoldingsMoved(start, l, exchanges, assets[0]);
      MovedIsEarned(l.executions, exchanges, assets[0]);
      HoldingsOfEarned(start, l, exchanges, assets[1..]);
    }
  }

  /** Conservation over a whole run.  Over any exchanges that include those traded on: the total of an
      asset grows by exactly what the executions quoted in it brought in, so that of an asset never
      quoted is constant; and over all quote assets together it grows by the session profit plus all
      latency penalties and rebalance costs. */
  lemma RunConserves(mode: string, states: seq<EngineState>, events: seq<Event>, setup: Setup, j: nat,
                     exchanges: seq<Id>, quotes: seq<string>, asset: string)
    returns (first: nat, start: LedgerState)
    requires Run(mode, states, events, setup) && j < |states| && states[j].ledger.executions != []
    requires Distinct(exchanges) && Quoted(states[j].ledger.executions, quotes)
    requires forall x | x in states[j].ledger.executions :: x.buyExchange in exchanges && x.sellExchange in exchanges
    ensures first < j && events[first].Passed? && states[first].ledger.executions == []
    ensures start == Prepared(states[first], events[first].pass, setup).ledger
    ensures
      var l := states[j].ledger;
      && Holdings(l, exchanges, asset) == Holdings(start, exchanges, asset) + Earned(l.executions, asset)
      && (asset !in quotes ==> Holdings(l, exchanges, asset) == Holdings(start, exchanges, asset))
      && HoldingsOf(l, exchanges, quotes)
         == HoldingsOf(start, exchanges, quotes) + l.sessionPnl + TotalCharges(l.executions)
  {
    var l := states[j].ledger;
    hide Prepared, Steps, Balanced, Reconciled, View, Holdings, HoldingsOf, Earned, Earnings, TotalNet, TotalCharges,
         Distinct, MovedOver, Quoted;
    RunConsistent(mode, states, events, setup, j);
    first, start := RunReconciles(mode, states, events, setup, j);
    assert Between(l.executions, exchanges);
    HoldingsMoved(start, l, exchanges, asset);
    MovedIsEarned(l.executions, exchanges, asset);
    HoldingsOfEarned(start, l, exchanges, quotes);
    EarningsAddUp(l.executions, quotes);
    if asset !in quotes {
      NeverQuoted(l.executions, quotes, asset);
    }
  }

  lemma {:induction false} NeverQuoted(xs: seq<Execution>, quotes: seq<string>, asset: string)
    requires Quoted(xs, quotes) && asset !in quotes
    ensures Earned(xs, asset) == 0.0
    decreases |xs|
  {
    if xs != [] {
      assert xs[|xs| - 1] in xs && forall y | y in xs[..|xs| - 1] :: y in xs;
      NeverQuoted(xs[..|xs| - 1], quotes, asset);
    }
  }
}
