/** Evaluated routes and the order they are presented in (internal/arbitrage/engine.go,
    internal/arbitrage/types.go). */
module Ranking {
  import opened Exchange
  import opened Wrappers
  import opened Reasons
  import opened Ledger
  import opened Sorting

  datatype Opportunity = Opportunity(
    id: OpportunityId,
    rank: nat,
    market: Market,
    buyExchange: Id,
    sellExchange: Id,
    baseSize: real,
    buyNotional: real,
    sellNotional: real,
    grossProfit: real,
    grossBps: real,
    buyFee: real,
    sellFee: real,
    slippageCost: real,
    latencyPenalty: real,
    latencyBps: real,
    rebalanceCost: real,
    net: real,
    partial: bool,
    decision: Decision,
    reason: ReasonCode)

  function DecisionRank(d: Decision): nat {
    match d
    case Execute => 0
    case Wait => 1
    case Skip => 2
  }

  /** Whether `l` is ranked before `r`. */
  predicate Before(l: Opportunity, r: Opportunity) {
    if l.decision != r.decision then DecisionRank(l.decision) < DecisionRank(r.decision)
    else if l.reason == NoGrossEdge && r.reason != NoGrossEdge then false
    else if r.reason == NoGrossEdge && l.reason != NoGrossEdge then true
    else if l.net != r.net then l.net > r.net
    else l.grossBps > r.grossBps
  }

  lemma BeforeIsStrictWeakOrder()
    ensures StrictWeakOrder(Before)
  {
    forall a, b, c | !Before(b, a) && !Before(c, b) ensures !Before(c, a) {
      assert DecisionRank(a.decision) == DecisionRank(b.decision) ==> a.decision == b.decision;
      assert DecisionRank(b.decision) == DecisionRank(c.decision) ==> b.decision == c.decision;
    }
  }

  /** Only skipped routes carry the no-edge reason. */
  ghost predicate EdgeReasons(opportunities: seq<Opportunity>) {
    forall o | o in opportunities :: o.reason == NoGrossEdge ==> o.decision == Skip
  }

  /** Where a route stands: executable, waiting, skipped, and skipped for want of any edge. */
  ghost function Group(o: Opportunity): nat {
    if o.decision == Execute then 0 else if o.decision == Wait then 1 else if o.reason == NoGrossEdge then 3 else 2
  }

  /** The groups in order; in a group by falling net profit, and then by falling gross basis points. */
  ghost predicate NoLater(l: Opportunity, r: Opportunity) {
    && Group(l) <= Group(r)
    && (Group(l) == Group(r) ==> l.net >= r.net && (l.net == r.net ==> l.grossBps >= r.grossBps))
  }

  lemma NotBehind(l: Opportunity, r: Opportunity)
    requires !Before(r, l)
    requires (l.reason == NoGrossEdge ==> l.decision == Skip) && (r.reason == NoGrossEdge ==> r.decision == Skip)
    ensures NoLater(l, r)
  {
  }

  /** However ties fall, ranked routes go through the groups in order, by falling net profit within each, and
      by falling gross basis points where that is equal; some route is executable exactly when the first is,
      and that one nets the most of them. */
  lemma RankedOrder(found: seq<Opportunity>, sorted: seq<Opportunity>)
    requires EdgeReasons(found) && multiset(sorted) == multiset(found) && Ordered(Before, sorted)
    ensures forall i, j | 0 <= i < j < |sorted| :: NoLater(sorted[i], sorted[j])
    ensures (exists o | o in found :: o.decision == Execute) <==> (sorted != [] && sorted[0].decision == Execute)
    ensures sorted != [] && sorted[0].decision == Execute ==>
              forall o | o in found && o.decision == Execute :: o.net <= sorted[0].net
  {
    hide Before;
    SameMembers(found, sorted);
    forall i, j | 0 <= i < j < |sorted|
      ensures NoLater(sorted[i], sorted[j])
    {
      assert !Before(sorted[j], sorted[i]);
      assert sorted[i] in found && sorted[j] in found;
      NotBehind(sorted[i], sorted[j]);
    }
    if o :| o in found && o.decision == Execute {
      var k :| 0 <= k < |sorted| && sorted[k] == o;
      assert Group(sorted[k]) == 0;
    }
    if sorted != [] && sorted[0].decision == Execute {
      assert sorted[0] in found;
      forall o | o in found && o.decision == Execute ensures o.net <= sorted[0].net {
        var k :| 0 <= k < |sorted| && sorted[k] == o;
      }
    }
  }

  // ----- The session's best net profit -----

  predicate NetComparable(o: Opportunity) {
    o.buyExchange != "" && o.sellExchange != "" && o.baseSize > 0.0 && o.buyNotional > 0.0
  }

  function BetterNet(best: Option<Opportunity>, o: Opportunity): Option<Opportunity> {
    if NetComparable(o) && (best.None? || o.net > best.value.net) then Some(o) else best
  }

  function BestNet(best: Option<Opportunity>, opportunities: seq<Opportunity>): Option<Opportunity>
    decreases |opportunities|
  {
    if opportunities == [] then best
    else BetterNet(BestNet(best, opportunities[..|opportunities| - 1]), opportunities[|opportunities| - 1])
  }

  /** A route between two named exchanges with a size and a cost. */
  ghost predicate Comparable(o: Opportunity) {
    o.buyExchange != "" && o.sellExchange != "" && o.baseSize > 0.0 && o.buyNotional > 0.0
  }

  /** The route at `i` is the first of the comparable ones that net the most. */
  ghost predicate BestAt(seen: seq<Opportunity>, i: nat) {
    && i < |seen| && Comparable(seen[i])
    && (forall j | 0 <= j < i && Comparable(seen[j]) :: seen[j].net < seen[i].net)
    && forall j | i <= j < |seen| && Comparable(seen[j]) :: seen[j].net <= seen[i].net
  }

  /** `best` is the first of the comparable routes seen that net the most, if any was comparable. */
  ghost predicate IsBestOf(best: Option<Opportunity>, seen: seq<Opportunity>) {
    match best
    case None => forall i | 0 <= i < |seen| :: !Comparable(seen[i])
    case Some(o) => exists i: nat :: BestAt(seen, i) && seen[i] == o
  }

  lemma {:induction false} BestNetOverall(best: Option<Opportunity>, seen: seq<Opportunity>, more: seq<Opportunity>)
    requires IsBestOf(best, seen)
    ensures IsBestOf(BestNet(best, more), seen + more)
    decreases |more|
  {
    if more == [] {
      assert seen + more == seen;
    } else {
      var before, last := more[..|more| - 1], more[|more| - 1];
      BestNetOverall(best, seen, before);
      assert seen + more == (seen + before) + [last];
      BestNetOne(BestNet(best, before), seen + before, last);
    }
  }

  lemma BestNetOne(best: Option<Opportunity>, seen: seq<Opportunity>, o: Opportunity)
    requires IsBestOf(best, seen)
    ensures IsBestOf(BetterNet(best, o), seen + [o])
  {
    var more := seen + [o];
    assert forall j | 0 <= j < |seen| :: more[j] == seen[j];
    if NetComparable(o) && (best.None? || o.net > best.value.net) {
      assert BestAt(more, |seen|);
    } else if best.Some? {
      var i: nat :| BestAt(seen, i) && seen[i] == best.value;
      assert BestAt(more, i) && more[i] == best.value;
    }
  }
}
