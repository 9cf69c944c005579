/** Whole runs of the engine, from its start, through any interleaving of passes with mode switches,
    halts, resets and outside questions to the risk controller. */
module RunTheorems {
  import opened Wrappers
  import opened Exchange
  import opened Reasons
  import opened Terms
  import opened Ledger
  import opened LedgerTheorems
  import opened Risk
  import opened RiskTheorems
  import opened Ranking
  import opened Scoring
  import opened RouteTheorems
  import opened PassTheorems

  /** A pass that showed `shown`, or something done to the risk controller. */
  datatype Event = Passed(pass: Pass, shown: seq<Opportunity>) | Control(event: RiskEvent)

  ghost predicate Step(s: EngineState, e: Event, s': EngineState, setup: Setup) {
    match e
    case Passed(p, shown) => PassStep(s, p, s', shown, setup)
    case Control(c) => s' == s.(risk := Next(s.risk, c))
  }

  function Start(mode: string): EngineState {
    EngineState(INITIAL, Started(mode), map[], {}, None)
  }

  ghost predicate Steps(states: seq<EngineState>, events: seq<Event>, setup: Setup) {
    && |states| == |events| + 1
    && forall i | 0 <= i < |events| :: Step(states[i], events[i], states[i + 1], setup)
  }

  ghost predicate Run(mode: string, states: seq<EngineState>, events: seq<Event>, setup: Setup) {
    Steps(states, events, setup) && states[0] == Start(mode)
  }

  // ----- What every state of a run satisfies -----

  ghost function TotalNet(xs: seq<Execution>): real {
    if xs == [] then 0.0 else TotalNet(xs[..|xs| - 1]) + xs[|xs| - 1].netProfit
  }

  ghost function Ids(xs: seq<Execution>): set<OpportunityId> {
    set x | x in xs :: x.id
  }

  ghost predicate Sound(xs: seq<Execution>) {
    && (forall i, j | 0 <= i < j < |xs| :: xs[i].id != xs[j].id)
    && forall x | x in xs :: x.netProfit > 0.0 && Balanced(x) && x.buyExchange != x.sellExchange
  }

  /** Session profit is the sum of the executions' profits, all positive; the ids on record are those
      of the executions, each once. */
  ghost predicate Consistent(s: EngineState) {
    && Sound(s.ledger.executions)
    && s.ledger.sessionPnl == TotalNet(s.ledger.executions)
    && s.executed == Ids(s.ledger.executions)
  }

  lemma {:induction false} ProfitsAddUp(xs: seq<Execution>)
    requires forall x | x in xs :: x.netProfit > 0.0
    ensures TotalNet(xs) >= 0.0 && (xs != [] ==> TotalNet(xs) > 0.0)
  {
    if xs != [] {
      assert forall x | x in xs[..|xs| - 1] :: x in xs;
      ProfitsAddUp(xs[..|xs| - 1]);
    }
  }

  lemma {:induction false} DistinctIds(xs: seq<Execution>)
    requires forall i, j | 0 <= i < j < |xs| :: xs[i].id != xs[j].id
    ensures |Ids(xs)| == |xs|
  {
    if xs != [] {
      var before, last := xs[..|xs| - 1], xs[|xs| - 1];
      DistinctIds(before);
      assert Ids(xs) == Ids(before) + {last.id};
      assert last.id !in Ids(before);
    }
  }

  lemma NeverInLoss(s: EngineState)
    requires Consistent(s)
    ensures s.ledger.sessionPnl >= 0.0 && (s.ledger.executions != [] ==> s.ledger.sessionPnl > 0.0)
    ensures |s.executed| == |s.ledger.executions|
  {
    ProfitsAddUp(s.ledger.executions);
    DistinctIds(s.ledger.executions);
  }

  lemma {:induction false} OneMore(xs: seq<Execution>, x: Execution)
    requires Sound(xs) && x.netProfit > 0.0 && Balanced(x) && x.buyExchange != x.sellExchange && x.id !in Ids(xs)
    ensures Sound(xs + [x]) && TotalNet(xs + [x]) == TotalNet(xs) + x.netProfit && Ids(xs + [x]) == Ids(xs) + {x.id}
  {
    hide Balanced;
    assert (xs + [x])[..|xs|] == xs;
    assert forall y | y in xs + [x] :: y in xs || y == x;
    forall y | y in xs ensures y.id in Ids(xs + [x]) {
      assert y in xs + [x];
    }
    assert x in xs + [x];
  }

  /** What an event adds to the executions. */
  ghost function Added(e: Event): seq<Execution> {
    if e.Passed? && Executes(e.pass) then [ExecutionOf(e.pass.sorted[0])] else []
  }

  lemma OutcomeKeepsConsistent(s: EngineState, p: Pass, s': EngineState, shown: seq<Opportunity>, setup: Setup)
    requires Consistent(s) && Outcome(s, p, s', shown, setup)
    ensures Consistent(s') && s'.ledger.executions == s.ledger.executions + Added(Passed(p, shown))
  {
    hide Prepared, Executable, FeePaid, Applied, Payable, Sound, TotalNet, Ids, BestNet, Numbered, ThresholdsFor;
    PreparedKeeps(s, p, setup);
    if Executes(p) {
      var x := ExecutionOf(p.sorted[0]);
      AppliedRecords(Prepared(s, p, setup).ledger, x);
      ExecutableGains(Prepared(s, p, setup).ledger, p.sorted[0], Reserve(s));
      OneMore(s.ledger.executions, x);
    }
  }

  /** Every event keeps the books consistent; an `Evaluate` appends at most one execution and nothing
      else appends any. */
  lemma StepKeepsConsistent(s: EngineState, e: Event, s': EngineState, setup: Setup)
    requires Consistent(s) && Step(s, e, s', setup)
    ensures Consistent(s') && s'.ledger.executions == s.ledger.executions + Added(e)
    ensures |Added(e)| <= 1 && (e.Control? || !e.pass.execute ==> Added(e) == [])
  {
    hide PassStep, Outcome, Sound, TotalNet, Ids, Next;
    NeverInLoss(s);
    if e.Passed? {
      PassOutcome(s, e.pass, s', e.shown, setup);
      OutcomeKeepsConsistent(s, e.pass, s', e.shown, setup);
    }
  }

  lemma ExecutableGains(l: LedgerState, o: Opportunity, rate: real)
    requires Executable(l, o, rate)
    ensures ExecutionOf(o).netProfit > 0.0 && Balanced(ExecutionOf(o))
  {
  }

  lemma StartConsistent(mode: string)
    ensures Consistent(Start(mode)) && Start(mode).ledger.executions == []
  {
    DemoLedger(DEFAULT_EXCHANGES);
  }

  lemma {:induction false} DemoLedger(exchanges: seq<Id>)
    ensures
      var l := SeededAll(LedgerState(map[], map[], [], 0.0), exchanges);
      l.executions == [] && l.sessionPnl == 0.0 && forall e | e in l.balances :: AllPositive(l.balances[e])
  {
    if exchanges != [] {
      DemoLedger(exchanges[..|exchanges| - 1]);
    }
  }

  /** Exactly-once execution and non-negative session profit, in every state of every run. */
  lemma {:induction false} RunConsistent(mode: string, states: seq<EngineState>, events: seq<Event>, setup: Setup,
                                         i: nat)
    requires Run(mode, states, events, setup) && i < |states|
    ensures Consistent(states[i]) && |states[i].executed| == |states[i].ledger.executions|
    ensures states[i].ledger.sessionPnl >= 0.0
  {
    hide Step, Consistent;
    if i == 0 {
      StartConsistent(mode);
    } else {
      RunConsistent(mode, states, events, setup, i - 1);
      StepKeepsConsistent(states[i - 1], events[i - 1], states[i], setup);
    }
    NeverInLoss(states[i]);
  }

  /** From `s` to `s'`, executions were only appended, at most `n` of them, and session profit grew
      strictly if any were. */
  ghost predicate Grown(s: EngineState, s': EngineState, n: nat) {
    var before, after := s.ledger, s'.ledger;
    && before.executions <= after.executions && |after.executions| - |before.executions| <= n
    && (if |before.executions| < |after.executions| then before.sessionPnl < after.sessionPnl
        else before.sessionPnl == after.sessionPnl)
  }

  /** Executions are only ever appended, at most one an event, and session profit grows strictly with
      them. */
  lemma {:induction false} RunGrows(mode: string, states: seq<EngineState>, events: seq<Event>, setup: Setup, i: nat,
                                    j: nat)
    requires Run(mode, states, events, setup) && i <= j < |states|
    ensures Grown(states[i], states[j], j - i)
  {
    hide Step, Consistent, Added, Grown;
    if i < j {
      RunGrows(mode, states, events, setup, i, j - 1);
      RunConsistent(mode, states, events, setup, j - 1);
      StepKeepsConsistent(states[j - 1], events[j - 1], states[j], setup);
      LastGains(states[j - 1], events[j - 1], states[j]);
      GrownOn(states[i], states[j - 1], states[j], j - 1 - i, 1);
    } else {
      GrownNot(states[i]);
    }
  }

  lemma GrownNot(s: EngineState)
    ensures Grown(s, s, 0)
  {
  }

  lemma GrownOn(s: EngineState, s': EngineState, s'': EngineState, n: nat, m: nat)
    requires Grown(s, s', n) && Grown(s', s'', m)
    ensures Grown(s, s'', n + m)
  {
  }

  lemma LastGains(s: EngineState, e: Event, s': EngineState)
    requires Consistent(s) && Consistent(s') && s'.ledger.executions == s.ledger.executions + Added(e)
    ensures Grown(s, s', 1)
  {
    hide Executes, Balanced;
    var xs := s'.ledger.executions;
    if Added(e) == [] {
      assert xs == s.ledger.executions;
    } else {
      assert xs[..|xs| - 1] == s.ledger.executions;
      assert xs[|xs| - 1] in xs;
    }
  }

  /** No pass of any run refuses an approved trade or sees a drawdown. */
  lemma ApprovedIsAlwaysPaid(mode: string, states: seq<EngineState>, events: seq<Event>, setup: Setup, i: nat)
    requires Run(mode, states, events, setup) && i < |events| && events[i].Passed?
    ensures Outcome(states[i], events[i].pass, states[i + 1], events[i].shown, setup)
    ensures forall o | o in events[i].shown :: o.reason != LedgerApplyFailed && o.reason != RiskDrawdown
  {
    RunConsistent(mode, states, events, setup, i);
    hide Outcome, PassStep, Consistent;
    PassOutcome(states[i], events[i].pass, states[i + 1], events[i].shown, setup);
  }
}
