/** Which authenticated wallets the ledger takes over, and what it shows of them. */
module SeedingTheorems {
  import opened Wrappers
  import opened Exchange
  import opened Terms
  import opened Ledger
  import opened LedgerTheorems
  import opened RiskTheorems
  import opened Ranking
  import opened Scoring
  import opened RouteTheorems
  import opened PassTheorems
  import opened RunTheorems

  /** A wallet read from the exchange itself, with something in it. */
  ghost predicate Offered(t: TermsSnapshot) {
    t.source == Authenticated && t.balances != map[]
  }

  ghost predicate TakenOver(l: LedgerState, exchange: Id) {
    exchange in l.sources && l.sources[exchange] == Authenticated
  }

  /** The larger of the demo amount and the positive amount read from the exchange. */
  ghost function Raised(t: TermsSnapshot, asset: string): real {
    var read := if asset in t.balances && t.balances[asset] > 0.0 then t.balances[asset] else 0.0;
    if Demo(asset) >= read then Demo(asset) else read
  }

  /** What one offered snapshot does to every balance shown: an exchange that nothing was taken over for, before
      anything was executed, then shows the raised amounts, and nothing else changes. */
  lemma SeedingView(l: LedgerState, t: TermsSnapshot, exchange: Id, asset: string)
    ensures
      var l' := SeededOnce(l, t);
      var takes := Offered(t) && l.executions == [] && !TakenOver(l, t.exchange);
      && Held(l', exchange, asset)
         == (if takes && exchange == t.exchange then Raised(t, asset) else Held(l, exchange, asset))
      && (TakenOver(l', exchange) <==> TakenOver(l, exchange) || (takes && exchange == t.exchange))
      && l'.executions == l.executions && l'.sessionPnl == l.sessionPnl
  {
    hide Floored;
    var merged := Floored(t.balances, FALLBACK_BALANCES);
    assert FlooredAt(t.balances, FALLBACK_BALANCES, merged, asset);
    assert asset in FALLBACK_BALANCES ==> FALLBACK_BALANCES[asset] == Demo(asset);
  }

  /** A second wallet of the same exchange changes nothing. */
  lemma SecondIsIgnored(l: LedgerState, t: TermsSnapshot, u: TermsSnapshot, exchange: Id, asset: string)
    requires Offered(t) && u.exchange == t.exchange
    ensures Held(SeededOnce(SeededOnce(l, t), u), exchange, asset) == Held(SeededOnce(l, t), exchange, asset)
  {
    hide SeededOnce, Held, Raised;
    SeedingView(l, t, t.exchange, asset);
    SeedingView(SeededOnce(l, t), u, exchange, asset);
  }

  // ----- Whole passes and runs -----

  /** The wallets offered by the snapshots of a pass: those that are unexpired, in order. */
  ghost function OffersOf(terms: seq<TermsSnapshot>, now: Time): seq<TermsSnapshot>
    decreases |terms|
  {
    if terms == [] then []
    else
      var before, last := OffersOf(terms[..|terms| - 1], now), terms[|terms| - 1];
      if Unexpired(last, now) && Offered(last) then before + [last] else before
  }

  ghost function Offers(events: seq<Event>): seq<TermsSnapshot>
    decreases |events|
  {
    if events == [] then []
    else
      var before, last := Offers(events[..|events| - 1]), events[|events| - 1];
      if last.Passed? then before + OffersOf(last.pass.terms, last.pass.now) else before
  }

  /** The first wallet offered for an exchange. */
  ghost function FirstOffer(offers: seq<TermsSnapshot>, exchange: Id): Option<TermsSnapshot>
    decreases |offers|
  {
    if offers == [] then None
    else if offers[0].exchange == exchange then Some(offers[0])
    else FirstOffer(offers[1..], exchange)
  }

  lemma {:induction false} FirstOfferStays(offers: seq<TermsSnapshot>, more: seq<TermsSnapshot>, exchange: Id)
    ensures FirstOffer(offers + more, exchange)
         == if FirstOffer(offers, exchange).Some? then FirstOffer(offers, exchange) else FirstOffer(more, exchange)
    decreases |offers|
  {
    if offers == [] {
      assert offers + more == more;
    } else {
      assert (offers + more)[1..] == offers[1..] + more;
      FirstOfferStays(offers[1..], more, exchange);
    }
  }

  /** An exchange shows the first wallet offered for it, or else the demo wallet. */
  ghost predicate ShowsFirst(l: LedgerState, offers: seq<TermsSnapshot>, exchange: Id) {
    var first := FirstOffer(offers, exchange);
    && l.executions == [] && (TakenOver(l, exchange) <==> first.Some?)
    && forall asset :: Held(l, exchange, asset) == if first.Some? then Raised(first.value, asset) else Demo(asset)
  }

  lemma OfferShown(l: LedgerState, offers: seq<TermsSnapshot>, t: TermsSnapshot, exchange: Id)
    requires ShowsFirst(l, offers, exchange) && Offered(t)
    ensures ShowsFirst(SeededOnce(l, t), offers + [t], exchange)
  {
    hide Held, Raised, SeededOnce, Demo, TakenOver;
    FirstOfferStays(offers, [t], exchange);
    assert [t][1..] == [];
    forall asset
      ensures Held(SeededOnce(l, t), exchange, asset)
           == if FirstOffer(offers + [t], exchange).Some? then Raised(FirstOffer(offers + [t], exchange).value, asset)
              else Demo(asset)
    {
      SeedingView(l, t, exchange, asset);
    }
    SeedingView(l, t, exchange, "");
  }

  lemma {:induction false} PassShowsFirst(l: LedgerState, offers: seq<TermsSnapshot>, terms: seq<TermsSnapshot>, now: Time,
                                          exchange: Id)
    requires ShowsFirst(l, offers, exchange)
    ensures ShowsFirst(SeededFresh(l, terms, now), offers + OffersOf(terms, now), exchange)
    decreases |terms|
  {
    hide ShowsFirst, SeededOnce;
    if terms == [] {
      assert offers + [] == offers;
    } else {
      var before, last := terms[..|terms| - 1], terms[|terms| - 1];
      PassShowsFirst(l, offers, before, now, exchange);
      if last.IsFresh(now) {
        if Offered(last) {
          OfferShown(SeededFresh(l, before, now), offers + OffersOf(before, now), last, exchange);
          assert offers + OffersOf(before, now) + [last] == offers + OffersOf(terms, now);
        } else {
          NotOffered(SeededFresh(l, before, now), last);
        }
      }
    }
  }

  lemma NotOffered(l: LedgerState, t: TermsSnapshot)
    requires !Offered(t)
    ensures SeededOnce(l, t) == l
  {
  }

  lemma {:induction false} DemoWallets(exchanges: seq<Id>)
    ensures
      var l := SeededAll(LedgerState(map[], map[], [], 0.0), exchanges);
      && (forall e | e in l.balances :: l.balances[e] == FALLBACK_BALANCES) && l.executions == []
      && forall e | e in l.sources :: l.sources[e] != Authenticated
  {
    if exchanges != [] {
      DemoWallets(exchanges[..|exchanges| - 1]);
    }
  }

  lemma StartShowsDemo(mode: string, exchange: Id)
    ensures ShowsFirst(Start(mode).ledger, [], exchange)
  {
    DemoWallets(DEFAULT_EXCHANGES);
    var l := INITIAL;
    forall asset ensures Held(l, exchange, asset) == Demo(asset) {
      HeldIsView(l, exchange, asset);
    }
  }

  /** Until something is executed, every exchange shows the first unexpired authenticated wallet that any pass
      offered for it, raised to the demo amounts, and the demo wallet when there was none. */
  lemma {:induction false} RunShowsFirst(mode: string, states: seq<EngineState>, events: seq<Event>, setup: Setup, j: nat,
                                         exchange: Id)
    requires Run(mode, states, events, setup) && j < |states| && states[j].ledger.executions == []
    ensures ShowsFirst(states[j].ledger, Offers(events[..j]), exchange)
    ensures j < |events| && events[j].Passed? ==>
              ShowsFirst(Prepared(states[j], events[j].pass, setup).ledger, Offers(events[..j + 1]), exchange)
  {
    hide PassStep, Consistent, ShowsFirst, OffersOf, SeededFresh, Start;
    if j == 0 {
      StartShowsDemo(mode, exchange);
    } else {
      var s, e := states[j - 1], events[j - 1];
      RunConsistent(mode, states, events, setup, j - 1);
      StepKeepsConsistent(s, e, states[j], setup);
      assert s.ledger.executions == [];
      RunShowsFirst(mode, states, events, setup, j - 1, exchange);
      assert events[..j][..j - 1] == events[..j - 1];
      LedgerAfter(s, e, states[j], setup);
    }
    if j < |events| && events[j].Passed? {
      PassShowsFirst(states[j].ledger, Offers(events[..j]), events[j].pass.terms, events[j].pass.now, exchange);
      assert events[..j + 1][..j] == events[..j];
    }
  }

  /** A step that executes nothing leaves the ledger as it was seeded. */
  lemma LedgerAfter(s: EngineState, e: Event, s': EngineState, setup: Setup)
    requires s.ledger.sessionPnl >= 0.0 && Step(s, e, s', setup) && s'.ledger.executions == []
    ensures s'.ledger == if e.Passed? then Prepared(s, e.pass, setup).ledger else s.ledger
  {
    hide PassStep, Prepared, Executable, FeePaid, BestNet, Next;
    if e.Passed? {
      PassOutcome(s, e.pass, s', e.shown, setup);
      if Executes(e.pass) {
        AppliedRecords(Prepared(s, e.pass, setup).ledger, ExecutionOf(e.pass.sorted[0]));
      }
    }
  }
}
