/** The paper ledger: wallets per exchange, the executions applied to them, and session profit
    (internal/portfolio/paper/ledger.go). */
module Ledger {
  import opened Exchange
  import opened Terms

  /** What a route was computed from.  The source prints these fields into one text. */
  datatype OpportunityId =
    | Waiting
    | Route(market: Market, buy: Id, sell: Id, buySequence: int, sellSequence: int, buyAt: Time, sellAt: Time)

  datatype Execution = Execution(
    id: OpportunityId,
    market: Market,
    buyExchange: Id,
    sellExchange: Id,
    baseSize: real,
    buyNotional: real,
    sellNotional: real,
    buyFee: real,
    sellFee: real,
    latencyPenalty: real,
    rebalanceCost: real,
    netProfit: real)
  {
    function BuyCost(): real {
      buyNotional + buyFee
    }

    function SellProceeds(): real {
      sellNotional - sellFee
    }
  }

  datatype LedgerState = LedgerState(
    balances: map<Id, Wallet>,
    sources: map<Id, Source>,
    executions: seq<Execution>,
    sessionPnl: real)

  const DEFAULT_EXCHANGES: seq<Id> := [
    "binance", "kraken", "okx", "bybit", "kucoin", "gate", "coinbase", "bitfinex", "bitstamp", "gemini"]

  /** The balance the ledger shows; an exchange it has not met shows the fallback wallet. */
  function View(l: LedgerState, exchange: Id, asset: string): real {
    Amount(if exchange in l.balances then l.balances[exchange] else FALLBACK_BALANCES, asset)
  }

  function Seeded(l: LedgerState, exchange: Id, wallet: Wallet, source: Source, replace: bool): LedgerState {
    if exchange in l.balances && !replace then l
    else l.(balances := l.balances[exchange := wallet], sources := l.sources[exchange := source])
  }

  function SeededAll(l: LedgerState, exchanges: seq<Id>): LedgerState {
    if exchanges == [] then l
    else Seeded(SeededAll(l, exchanges[..|exchanges| - 1]), exchanges[|exchanges| - 1], FALLBACK_BALANCES, Fallback, false)
  }

  const INITIAL := SeededAll(LedgerState(map[], map[], [], 0.0), DEFAULT_EXCHANGES)

  /** An authenticated wallet replaces the demo one, once per exchange and only before any execution. */
  function SeededOnce(l: LedgerState, t: TermsSnapshot): LedgerState {
    if t.source != Authenticated || |t.balances| == 0 || |l.executions| > 0 then l
    else if t.exchange in l.sources && l.sources[t.exchange] == Authenticated then l
    else Seeded(l, t.exchange, Floored(t.balances, FALLBACK_BALANCES), t.source, true)
  }

  function Ensured(l: LedgerState, exchange: Id): LedgerState {
    Seeded(l, exchange, FALLBACK_BALANCES, Fallback, false)
  }

  function Credited(l: LedgerState, exchange: Id, asset: string, amount: real): LedgerState {
    if exchange !in l.balances then l
    else l.(balances := l.balances[exchange := l.balances[exchange][asset := Amount(l.balances[exchange], asset) + amount]])
  }

  predicate Payable(l: LedgerState, x: Execution) {
    View(l, x.buyExchange, x.market.quote) >= x.BuyCost() && View(l, x.sellExchange, x.market.base) >= x.baseSize
  }

  /** The four amounts of an execution moved, one after the other. */
  function Settled(l: LedgerState, x: Execution): LedgerState {
    var l1 := Credited(l, x.buyExchange, x.market.quote, -x.BuyCost());
    var l2 := Credited(l1, x.buyExchange, x.market.base, x.baseSize);
    var l3 := Credited(l2, x.sellExchange, x.market.base, -x.baseSize);
    Credited(l3, x.sellExchange, x.market.quote, x.SellProceeds())
  }

  /** The state after an execution: unmet exchanges are entered even when the trade is refused. */
  function Applied(l: LedgerState, x: Execution): LedgerState {
    var met := Ensured(Ensured(l, x.buyExchange), x.sellExchange);
    if !Payable(l, x) then met
    else Settled(met, x).(sessionPnl := l.sessionPnl + x.netProfit, executions := l.executions + [x])
  }

  lemma EnsuredView(l: LedgerState, met: Id, exchange: Id, asset: string)
    ensures View(Ensured(l, met), exchange, asset) == View(l, exchange, asset)
    ensures met in Ensured(l, met).balances && l.balances.Keys <= Ensured(l, met).balances.Keys
  {
  }

  /** Entering both exchanges of a trade shows the same balances as before. */
  lemma EnsuredBoth(l: LedgerState, x: Execution)
    ensures
      var met := Ensured(Ensured(l, x.buyExchange), x.sellExchange);
      && x.buyExchange in met.balances && x.sellExchange in met.balances
      && met.sessionPnl == l.sessionPnl && met.executions == l.executions
      && (Payable(l, x) <==> && Amount(met.balances[x.buyExchange], x.market.quote) >= x.BuyCost()
                             && Amount(met.balances[x.sellExchange], x.market.base) >= x.baseSize)
  {
    var first := Ensured(l, x.buyExchange);
    EnsuredView(l, x.buyExchange, x.buyExchange, x.market.quote);
    EnsuredView(l, x.buyExchange, x.sellExchange, x.market.base);
    EnsuredView(first, x.sellExchange, x.buyExchange, x.market.quote);
    EnsuredView(first, x.sellExchange, x.sellExchange, x.market.base);
  }

  lemma CreditedKeys(l: LedgerState, exchange: Id, asset: string, amount: real)
    ensures Credited(l, exchange, asset, amount).balances.Keys == l.balances.Keys
    ensures Credited(l, exchange, asset, amount).sessionPnl == l.sessionPnl
    ensures Credited(l, exchange, asset, amount).executions == l.executions
  {
  }

  class PaperLedger {
    var balances: map<Id, Wallet>
    var sources: map<Id, Source>
    var executions: seq<Execution>
    var sessionPnl: real

    function State(): LedgerState
      reads this
    {
      LedgerState(balances, sources, executions, sessionPnl)
    }

    constructor ()
      ensures State() == INITIAL
    {
      balances, sources, executions, sessionPnl := map[], map[], [], 0.0;
      new;
      ghost var empty := State();
      for i := 0 to |DEFAULT_EXCHANGES|
        invariant State() == SeededAll(empty, DEFAULT_EXCHANGES[..i])
      {
        assert DEFAULT_EXCHANGES[..i + 1][..i] == DEFAULT_EXCHANGES[..i];
        Seed(DEFAULT_EXCHANGES[i], FALLBACK_BALANCES, Fallback, false);
      }
      assert DEFAULT_EXCHANGES[..|DEFAULT_EXCHANGES|] == DEFAULT_EXCHANGES;
    }

    method Seed(exchange: Id, wallet: Wallet, source: Source, replace: bool)
      modifies this
      ensures State() == Seeded(old(State()), exchange, wallet, source, replace)
      ensures exchange in old(balances) && !replace ==> State() == old(State())
      ensures exchange !in old(balances) || replace ==>
                balances == old(balances)[exchange := wallet] && sources == old(sources)[exchange := source]
    {
      if exchange in balances && !replace {
        return;
      }
      balances := balances[exchange := wallet];
      sources := sources[exchange := source];
    }

    method SeedAuthenticatedOnce(t: TermsSnapshot)
      modifies this
      ensures State() == SeededOnce(old(State()), t)
    {
      if t.source != Authenticated || |t.balances| == 0 {
        return;
      }
      if |executions| > 0 {
        return;
      }
      if t.exchange in sources && sources[t.exchange] == Authenticated {
        return;
      }
      var wallet := MergeBalanceFloors(t.balances, FALLBACK_BALANCES);
      Seed(t.exchange, wallet, t.source, true);
    }

    method Balance(exchange: Id, asset: string) returns (amount: real)
      ensures amount == View(State(), exchange, asset)
      ensures exchange in balances ==> amount == if asset in balances[exchange] then balances[exchange][asset] else 0.0
      ensures exchange !in balances ==>
                amount == if asset == "BTC" then 2.0 else if asset in ["USDT", "USD"] then 200000.0 else 0.0
    {
      if exchange !in balances {
        return Amount(FALLBACK_BALANCES, asset);
      }
      return Amount(balances[exchange], asset);
    }

    method EnsureExchange(exchange: Id)
      modifies this
      ensures State() == Ensured(old(State()), exchange)
    {
      if exchange !in balances {
        balances := balances[exchange := FALLBACK_BALANCES];
        sources := sources[exchange := Fallback];
      }
    }

    method Credit(exchange: Id, asset: string, amount: real)
      requires exchange in balances
      modifies this
      ensures State() == Credited(old(State()), exchange, asset, amount)
    {
      balances := balances[exchange := balances[exchange][asset := Amount(balances[exchange], asset) + amount]];
    }

    /** The wallets are read and written in the source's order, so that two equal exchanges or two
        equal assets behave as aliases do there. */
    method Settle(x: Execution)
      requires x.buyExchange in balances && x.sellExchange in balances
      modifies this
      ensures State() == Settled(old(State()), x)
      ensures executions == old(executions) && sessionPnl == old(sessionPnl)
    {
      hide Credited;
      CreditedKeys(State(), x.buyExchange, x.market.quote, -x.BuyCost());
      Credit(x.buyExchange, x.market.quote, -x.BuyCost());
      CreditedKeys(State(), x.buyExchange, x.market.base, x.baseSize);
      Credit(x.buyExchange, x.market.base, x.baseSize);
      CreditedKeys(State(), x.sellExchange, x.market.base, -x.baseSize);
      Credit(x.sellExchange, x.market.base, -x.baseSize);
      CreditedKeys(State(), x.sellExchange, x.market.quote, x.SellProceeds());
      Credit(x.sellExchange, x.market.quote, x.SellProceeds());
    }

    method Apply(x: Execution) returns (ok: bool)
      modifies this
      ensures ok == Payable(old(State()), x)
      ensures State() == Applied(old(State()), x)
    {
      hide Ensured, Settled, Seeded, View, Payable;
      EnsuredBoth(State(), x);
      EnsureExchange(x.buyExchange);
      EnsureExchange(x.sellExchange);
      if Amount(balances[x.buyExchange], x.market.quote) < x.BuyCost() {
        return false;
      }
      if Amount(balances[x.sellExchange], x.market.base) < x.baseSize {
        return false;
      }
      Settle(x);
      sessionPnl := sessionPnl + x.netProfit;
      executions := executions + [x];
      return true;
    }
  }
}
