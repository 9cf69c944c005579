/** Trading terms of an exchange: fees, minimums, transfer fees, and the demo wallet that stands in
    when no authenticated one is known (internal/terms). */
module Terms {
  import opened Wrappers
  import opened Exchange

  type Wallet = map<string, real>

  datatype Source = Authenticated | Fallback | Mixed

  datatype TermsSnapshot = TermsSnapshot(
    exchange: Id,
    market: Market,
    source: Source,
    takerRate: real,
    minBase: real,
    minNotional: real,
    balances: Wallet,
    transferFees: Option<Wallet>,
    updatedAt: Time,
    expiresAt: Time)
  {
    predicate IsFresh(now: Time) {
      updatedAt != UNSET && now < expiresAt
    }
  }

  /** The terms on file for an exchange and market; the store holds one snapshot for each key. */
  function TermsFor(all: seq<TermsSnapshot>, key: Key): Option<TermsSnapshot> {
    if all == [] then None
    else if Key(all[0].exchange, all[0].market) == key then Some(all[0])
    else TermsFor(all[1..], key)
  }

  function Amount(w: Wallet, asset: string): real {
    if asset in w then w[asset] else 0.0
  }

  const FALLBACK_BALANCES: Wallet := map["BTC" := 2.0, "USDT" := 200000.0, "USD" := 200000.0]

  ghost predicate AllPositive(w: Wallet) {
    forall a | a in w :: w[a] > 0.0
  }

  /** Outside the fallback profiles a zero transfer fee means that the fee is not known. */
  function TransferFeeFor(t: TermsSnapshot, asset: string): Option<real> {
    if t.transferFees.None? || asset !in t.transferFees.value then None
    else if t.source != Fallback && t.transferFees.value[asset] == 0.0 then None
    else Some(t.transferFees.value[asset])
  }

  // ----- Floors under authenticated wallets -----

  /** For every asset, the larger of its floor and its positive authenticated amount. */
  ghost predicate FlooredAt(authenticated: Wallet, floor: Wallet, merged: Wallet, asset: string) {
    var seen := asset in authenticated && authenticated[asset] > 0.0;
    && (asset in merged <==> asset in floor || seen)
    && (asset in merged ==>
          && (asset in floor ==> merged[asset] >= floor[asset])
          && (seen ==> merged[asset] >= authenticated[asset])
          && ((asset in floor && merged[asset] == floor[asset]) || (seen && merged[asset] == authenticated[asset])))
  }

  function Floored(authenticated: Wallet, floor: Wallet): (merged: Wallet)
    ensures forall asset :: FlooredAt(authenticated, floor, merged, asset)
  {
    map asset | asset in floor.Keys + authenticated.Keys
                && (asset in floor || authenticated[asset] > 0.0)
      :: if asset in authenticated && authenticated[asset] > 0.0
            && (asset !in floor || authenticated[asset] > floor[asset])
         then authenticated[asset] else floor[asset]
  }

  /** The source fills a copy of the floors in map order; the result does not depend on it. */
  method MergeBalanceFloors(authenticated: Wallet, floor: Wallet) returns (merged: Wallet)
    ensures merged == Floored(authenticated, floor)
  {
    merged := floor;
    var left := authenticated.Keys;
    while left != {}
      invariant left <= authenticated.Keys
      invariant forall asset | asset in left :: asset in merged <==> asset in floor
      invariant forall asset | asset in left && asset in floor :: merged[asset] == floor[asset]
      invariant forall asset | asset !in left :: FlooredAt(authenticated, floor, merged, asset)
      decreases left
    {
      var asset :| asset in left;
      left := left - {asset};
      var value := authenticated[asset];
      if value > 0.0 && (asset !in merged || value > merged[asset]) {
        merged := merged[asset := value];
      }
    }
    FlooredUnique(authenticated, floor, merged, Floored(authenticated, floor));
  }

  /** The floors determine the merged wallet. */
  lemma FlooredUnique(authenticated: Wallet, floor: Wallet, one: Wallet, other: Wallet)
    requires forall asset :: FlooredAt(authenticated, floor, one, asset)
    requires forall asset :: FlooredAt(authenticated, floor, other, asset)
    ensures one == other
  {
    assert forall asset :: FlooredAt(authenticated, floor, one, asset) && FlooredAt(authenticated, floor, other, asset) ==>
      (asset in one <==> asset in other) && (asset in one ==> one[asset] == other[asset]);
  }

  /** Floors keep every wallet positive, whatever the authenticated read returned. */
  lemma FlooredPositive(authenticated: Wallet, floor: Wallet)
    requires AllPositive(floor)
    ensures AllPositive(Floored(authenticated, floor))
    ensures floor.Keys <= Floored(authenticated, floor).Keys
  {
    var merged := Floored(authenticated, floor);
    forall asset | asset in merged ensures merged[asset] > 0.0 {
      assert FlooredAt(authenticated, floor, merged, asset);
    }
    forall asset | asset in floor ensures asset in merged {
      assert FlooredAt(authenticated, floor, merged, asset);
    }
  }
}
