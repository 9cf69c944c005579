/** What an execution does to every wallet, and to the sum of them. */
module LedgerTheorems {
  import opened Exchange
  import opened Ledger

  /** What the demo wallet holds. */
  ghost function Demo(asset: string): real {
    if asset == "BTC" then 2.0 else if asset == "USDT" || asset == "USD" then 200000.0 else 0.0
  }

  /** What a wallet shows; an exchange without one shows the demo wallet. */
  ghost function Held(l: LedgerState, exchange: Id, asset: string): real {
    if exchange !in l.balances then Demo(asset)
    else if asset in l.balances[exchange] then l.balances[exchange][asset] else 0.0
  }

  lemma HeldIsView(l: LedgerState, exchange: Id, asset: string)
    ensures View(l, exchange, asset) == Held(l, exchange, asset)
  {
  }

  // ----- Executions -----

  /** What an accepted execution adds to one balance. */
  ghost function Delta(x: Execution, exchange: Id, asset: string): real {
    (if exchange == x.buyExchange && asset == x.market.quote then -(x.buyNotional + x.buyFee) else 0.0)
    + (if exchange == x.buyExchange && asset == x.market.base then x.baseSize else 0.0)
    + (if exchange == x.sellExchange && asset == x.market.base then -x.baseSize else 0.0)
    + (if exchange == x.sellExchange && asset == x.market.quote then x.sellNotional - x.sellFee else 0.0)
  }

  /** The two balances that decide whether an execution is accepted. */
  lemma PayableIff(l: LedgerState, x: Execution)
    ensures Payable(l, x) <==> && Held(l, x.buyExchange, x.market.quote) >= x.buyNotional + x.buyFee
                               && Held(l, x.sellExchange, x.market.base) >= x.baseSize
  {
    hide View, Held;
    HeldIsView(l, x.buyExchange, x.market.quote);
    HeldIsView(l, x.sellExchange, x.market.base);
  }

  lemma CreditedView(l: LedgerState, where: Id, what: string, amount: real, exchange: Id, asset: string)
    requires where in l.balances
    ensures View(Credited(l, where, what, amount), exchange, asset)
         == View(l, exchange, asset) + (if exchange == where && asset == what then amount else 0.0)
    ensures Credited(l, where, what, amount).balances.Keys == l.balances.Keys
  {
  }

  lemma SameView(l: LedgerState, l': LedgerState, exchange: Id, asset: string)
    requires l'.balances == l.balances
    ensures View(l', exchange, asset) == View(l, exchange, asset)
  {
  }

  /** An accepted execution moves exactly four amounts, whichever exchanges and assets coincide. */
  lemma AppliedView(l: LedgerState, x: Execution, exchange: Id, asset: string)
    requires Payable(l, x)
    ensures View(Applied(l, x), exchange, asset) == View(l, exchange, asset) + Delta(x, exchange, asset)
  {
    hide View, Credited, Ensured, Payable;
    var met := Ensured(Ensured(l, x.buyExchange), x.sellExchange);
    EnsuredView(l, x.buyExchange, exchange, asset);
    EnsuredView(Ensured(l, x.buyExchange), x.sellExchange, exchange, asset);
    SameView(Settled(met, x), Applied(l, x), exchange, asset);
    var l1 := Credited(met, x.buyExchange, x.market.quote, -x.BuyCost());
    CreditedView(met, x.buyExchange, x.market.quote, -x.BuyCost(), exchange, asset);
    var l2 := Credited(l1, x.buyExchange, x.market.base, x.baseSize);
    CreditedView(l1, x.buyExchange, x.market.base, x.baseSize, exchange, asset);
    var l3 := Credited(l2, x.sellExchange, x.market.base, -x.baseSize);
    CreditedView(l2, x.sellExchange, x.market.base, -x.baseSize, exchange, asset);
    CreditedView(l3, x.sellExchange, x.market.quote, x.SellProceeds(), exchange, asset);
  }

  /** An accepted execution is appended, and its profit added. */
  lemma AppliedRecords(l: LedgerState, x: Execution)
    requires Payable(l, x)
    ensures Applied(l, x).executions == l.executions + [x] && Applied(l, x).sessionPnl == l.sessionPnl + x.netProfit
  {
    hide View, Ensured, Credited, Payable;
  }

  /** A refused execution changes nothing that anyone can see. */
  lemma RefusedLeavesNoTrace(l: LedgerState, x: Execution)
    requires !Payable(l, x)
    ensures forall exchange, asset :: View(Applied(l, x), exchange, asset) == View(l, exchange, asset)
    ensures Applied(l, x).executions == l.executions && Applied(l, x).sessionPnl == l.sessionPnl
  {
    forall exchange, asset ensures View(Applied(l, x), exchange, asset) == View(l, exchange, asset) {
      EnsuredView(l, x.buyExchange, exchange, asset);
      EnsuredView(Ensured(l, x.buyExchange), x.sellExchange, exchange, asset);
    }
  }

  // ----- Sums over exchanges -----

  ghost predicate Distinct(exchanges: seq<Id>) {
    forall i, j | 0 <= i < j < |exchanges| :: exchanges[i] != exchanges[j]
  }

  ghost function Holdings(l: LedgerState, exchanges: seq<Id>, asset: string): real {
    if exchanges == [] then 0.0 else View(l, exchanges[0], asset) + Holdings(l, exchanges[1..], asset)
  }

  ghost function SumDelta(x: Execution, exchanges: seq<Id>, asset: string): real {
    if exchanges == [] then 0.0 else Delta(x, exchanges[0], asset) + SumDelta(x, exchanges[1..], asset)
  }

  lemma {:induction false} HoldingsChange(l: LedgerState, x: Execution, exchanges: seq<Id>, asset: string)
    requires Payable(l, x)
    ensures Holdings(Applied(l, x), exchanges, asset) == Holdings(l, exchanges, asset) + SumDelta(x, exchanges, asset)
  {
    if exchanges != [] {
      AppliedView(l, x, exchanges[0], asset);
      HoldingsChange(l, x, exchanges[1..], asset);
    }
  }

  ghost function PartDelta(x: Execution, buyHere: bool, sellHere: bool, asset: string): real {
    (if buyHere && asset == x.market.quote then -(x.buyNotional + x.buyFee) else 0.0)
    + (if buyHere && asset == x.market.base then x.baseSize else 0.0)
    + (if sellHere && asset == x.market.base then -x.baseSize else 0.0)
    + (if sellHere && asset == x.market.quote then x.sellNotional - x.sellFee else 0.0)
  }

  lemma {:induction false} SumDeltaParts(x: Execution, exchanges: seq<Id>, asset: string)
    requires Distinct(exchanges)
    ensures SumDelta(x, exchanges, asset) == PartDelta(x, x.buyExchange in exchanges, x.sellExchange in exchanges, asset)
  {
    if exchanges != [] {
      var tail := exchanges[1..];
      SumDeltaParts(x, tail, asset);
      assert exchanges[0] !in tail;
      assert forall e :: e in exchanges <==> e == exchanges[0] || e in tail;
    }
  }

  /** Over any exchanges that include the two it trades between, an execution conserves every asset
      but its quote, and adds to the quote what the sale brought in less what the purchase cost. */
  lemma {:induction false} ExecutionConserves(l: LedgerState, x: Execution, exchanges: seq<Id>, asset: string)
    requires Payable(l, x) && Distinct(exchanges) && x.buyExchange in exchanges && x.sellExchange in exchanges
    ensures Holdings(Applied(l, x), exchanges, asset)
         == Holdings(l, exchanges, asset)
            + (if asset == x.market.quote then x.sellNotional - x.sellFee - x.buyNotional - x.buyFee else 0.0)
  {
    HoldingsChange(l, x, exchanges, asset);
    SumDeltaParts(x, exchanges, asset);
  }
}
