/** The depth-limited book against the book that is never truncated. */
module KrakenTheorems {
  import opened Exchange
  import opened KrakenBook

  /** The side that a feed describes, with no limit. */
  ghost function FullAfter(side: Side, d: Delta): Side {
    PutAll(Base(side, d), d.levels)
  }

  ghost function FullRun(deltas: seq<Delta>): Side
    decreases |deltas|
  {
    if deltas == [] then map[] else FullAfter(FullRun(deltas[..|deltas| - 1]), deltas[|deltas| - 1])
  }

  /** The side that the book keeps. */
  ghost function KeptRun(deltas: seq<Delta>, bid: bool, depth: nat): Side
    decreases |deltas|
  {
    if deltas == [] then map[]
    else SideAfter(KeptRun(deltas[..|deltas| - 1], bid, depth), deltas[|deltas| - 1], bid, depth)
  }

  ghost predicate Within(part: Side, whole: Side) {
    forall p | p in part :: p in whole && part[p] == whole[p]
  }

  // ----- How many levels are best -----

  lemma {:induction false} Worst(keys: set<PriceKey>, bid: bool) returns (w: PriceKey)
    requires keys != {}
    ensures w in keys && forall p | p in keys && p != w :: Better(bid, p, w)
    decreases |keys|
  {
    var k :| k in keys;
    var others := keys - {k};
    if others == {} {
      w := k;
    } else {
      var rest := Worst(others, bid);
      w := if Better(bid, k, rest) then rest else k;
    }
    forall p | p in keys && p != w ensures Better(bid, p, w) {
      assert p == k || p in others;
    }
  }

  lemma First(keys: set<PriceKey>, bid: bool) returns (b: PriceKey)
    requires keys != {}
    ensures b in keys && forall p | p in keys && p != b :: Better(bid, b, p)
  {
    b := Worst(keys, !bid);
  }

  lemma FirstLeftOut(side: Side, bid: bool, depth: nat, p: PriceKey) returns (b: PriceKey)
    requires p in side && p !in Best(side, bid, depth)
    ensures b in side && b !in Best(side, bid, depth) && Ahead(side, bid, b) <= Best(side, bid, depth).Keys
  {
    var left := side.Keys - Best(side, bid, depth).Keys;
    assert p in left;
    b := First(left, bid);
    forall q | q in Ahead(side, bid, b) ensures q in Best(side, bid, depth) {
      assert q in left ==> q == b || Better(bid, b, q);
    }
  }

  /** At most `depth` levels are best. */
  lemma BestAtMost(side: Side, bid: bool, depth: nat)
    ensures |Best(side, bid, depth)| <= depth
  {
    var best := Best(side, bid, depth);
    if best.Keys != {} {
      var w := Worst(best.Keys, bid);
      SubsetSize(best.Keys - {w}, Ahead(side, bid, w));
    }
    assert |best| == |best.Keys|;
  }

  /** If any level is not best, at least `depth` of those ahead of it are. */
  lemma BestAtLeast(side: Side, bid: bool, depth: nat, p: PriceKey)
    requires p in side && p !in Best(side, bid, depth)
    ensures |Best(side, bid, depth).Keys| >= depth
    ensures forall q | q in Best(side, bid, depth) :: Better(bid, q, p)
  {
    var best := Best(side, bid, depth);
    var b := FirstLeftOut(side, bid, depth, p);
    SubsetSize(Ahead(side, bid, b), best.Keys);
    forall q | q in best ensures Better(bid, q, p) {
      if !Better(bid, q, p) {
        SubsetSize(Ahead(side, bid, p), Ahead(side, bid, q));
      }
    }
  }

  // ----- Sides that agree on the best levels -----

  /** `kept` is part of `full` and misses none of its best levels. */
  ghost predicate Tracks(kept: Side, full: Side, bid: bool, depth: nat) {
    Within(kept, full) && Within(Best(full, bid, depth), kept)
  }

  lemma AheadWithin(part: Side, whole: Side, bid: bool, p: PriceKey)
    requires Within(part, whole)
    ensures |Ahead(part, bid, p)| <= |Ahead(whole, bid, p)|
  {
    SubsetSize(Ahead(part, bid, p), Ahead(whole, bid, p));
  }

  lemma TrackedBest(kept: Side, full: Side, bid: bool, depth: nat)
    requires Tracks(kept, full, bid, depth)
    ensures Best(kept, bid, depth) == Best(full, bid, depth)
  {
    var best := Best(full, bid, depth);
    forall p ensures p in Best(kept, bid, depth) <==> p in best {
      AheadWithin(kept, full, bid, p);
      if p in Best(kept, bid, depth) && p !in best {
        BestAtLeast(full, bid, depth, p);
        SubsetSize(best.Keys, Ahead(kept, bid, p));
      }
    }
  }

  // ----- One message -----

  /** A level a message names stands after it as the message says; any other stands as before. */
  lemma {:induction false} PutAllAt(one: Side, other: Side, levels: seq<PriceLevel>, p: PriceKey)
    ensures
      var one', other' := PutAll(one, levels), PutAll(other, levels);
      if p in Keys(levels) then (p in one' <==> p in other') && (p in one' ==> one'[p] == other'[p])
      else (p in one' <==> p in one) && (p in one' ==> one'[p] == one[p])
    decreases |levels|
  {
    if levels != [] {
      var before, last := levels[..|levels| - 1], levels[|levels| - 1];
      PutAllAt(one, other, before, p);
      assert levels == before + [last];
      assert p in Keys(levels) <==> p in Keys(before) || p == KeyOf(last);
    }
  }

  /** No level that was out of sight, and that the message does not send again, is among the best after
      it: whatever the message takes away from the best, it replaces. */
  ghost predicate Replenishes(full: Side, levels: seq<PriceLevel>, bid: bool, depth: nat) {
    forall p | p in full && p !in Best(full, bid, depth) && p !in Keys(levels) ::
      p !in Best(PutAll(full, levels), bid, depth)
  }

  /** After any message, the book that agreed with the full book lacks exactly the levels that were out of
      sight and were not sent again. */
  lemma {:induction false} MessageLacks(full: Side, levels: seq<PriceLevel>, bid: bool, depth: nat)
    ensures
      var kept, all := PutAll(Best(full, bid, depth), levels), PutAll(full, levels);
      && Within(kept, all)
      && forall p :: p in all && p !in kept <==> p in full && p !in Best(full, bid, depth) && p !in Keys(levels)
  {
    var best := Best(full, bid, depth);
    forall p
      ensures
        var kept, all := PutAll(best, levels), PutAll(full, levels);
        && (p in kept ==> p in all && kept[p] == all[p])
        && (p in all && p !in kept <==> p in full && p !in best && p !in Keys(levels))
    {
      PutAllAt(best, full, levels, p);
      PutAllAt(full, best, levels, p);
    }
  }

  /** One message keeps an agreeing book agreeing exactly when it replenishes it. */
  lemma MessageAgreesIff(full: Side, levels: seq<PriceLevel>, bid: bool, depth: nat)
    ensures SideAfter(Best(full, bid, depth), Delta(false, levels), bid, depth)
         == Best(FullAfter(full, Delta(false, levels)), bid, depth)
      <==> Replenishes(full, levels, bid, depth)
  {
    hide Best, PutAll;
    var kept, all := PutAll(Best(full, bid, depth), levels), PutAll(full, levels);
    MessageLacks(full, levels, bid, depth);
    BestWithin(kept, bid, depth);
    BestWithin(all, bid, depth);
    if Replenishes(full, levels, bid, depth) {
      TrackedBest(kept, all, bid, depth);
    }
  }

  lemma BestWithin(side: Side, bid: bool, depth: nat)
    ensures Within(Best(side, bid, depth), side)
  {
  }

  lemma {:induction false} PutAllWithin(kept: Side, full: Side, levels: seq<PriceLevel>)
    requires Within(kept, full)
    ensures Within(PutAll(kept, levels), PutAll(full, levels))
    decreases |levels|
  {
    if levels != [] {
      PutAllWithin(kept, full, levels[..|levels| - 1]);
    }
  }

  // ----- Whole runs -----

  /** Over any run of updates, every level kept is the full book's level at that price, and at most
      `depth` are kept. */
  lemma {:induction false} KeptIsWithinFull(deltas: seq<Delta>, bid: bool, depth: nat)
    ensures Within(KeptRun(deltas, bid, depth), FullRun(deltas))
    ensures |KeptRun(deltas, bid, depth)| <= depth
    decreases |deltas|
  {
    if deltas != [] {
      var before, d := deltas[..|deltas| - 1], deltas[|deltas| - 1];
      KeptIsWithinFull(before, bid, depth);
      var kept, full := Base(KeptRun(before, bid, depth), d), Base(FullRun(before), d);
      PutAllWithin(kept, full, d.levels);
      BestAtMost(PutAll(kept, d.levels), bid, depth);
    }
  }

  ghost predicate Agrees(deltas: seq<Delta>, bid: bool, depth: nat) {
    KeptRun(deltas, bid, depth) == Best(FullRun(deltas), bid, depth)
  }

  /** The last message is a snapshot, or replenishes what the ones before it described. */
  ghost predicate LastReplenishes(deltas: seq<Delta>, bid: bool, depth: nat)
    requires deltas != []
  {
    var last := deltas[|deltas| - 1];
    last.snapshot || Replenishes(FullRun(deltas[..|deltas| - 1]), last.levels, bid, depth)
  }

  /** A snapshot always agrees, and after any other message an agreeing book agrees exactly when the
      message replenishes it. */
  lemma LastAgreesIff(deltas: seq<Delta>, bid: bool, depth: nat)
    requires deltas != [] && (deltas[|deltas| - 1].snapshot || Agrees(deltas[..|deltas| - 1], bid, depth))
    ensures Agrees(deltas, bid, depth) <==> LastReplenishes(deltas, bid, depth)
  {
    hide Best, PutAll, Replenishes;
    var before, last := deltas[..|deltas| - 1], deltas[|deltas| - 1];
    if !last.snapshot {
      MessageAgreesIff(FullRun(before), last.levels, bid, depth);
    }
  }

  /** The book agrees with the full book after every message exactly when every message that is not a
      snapshot replenishes it. */
  lemma {:induction false} RunAgreesIff(deltas: seq<Delta>, bid: bool, depth: nat)
    ensures (forall n | 0 <= n <= |deltas| :: Agrees(deltas[..n], bid, depth))
      <==> (forall n | 0 < n <= |deltas| :: LastReplenishes(deltas[..n], bid, depth))
    decreases |deltas|
  {
    hide Agrees, LastReplenishes;
    if deltas == [] {
      NothingAgrees(bid, depth);
      assert deltas[..0] == [];
    } else {
      var n, before := |deltas|, deltas[..|deltas| - 1];
      RunAgreesIff(before, bid, depth);
      assert deltas[..n] == deltas;
      assert forall k | 0 <= k < n :: deltas[..k] == before[..k];
      assert before[..n - 1] == before;
      if Agrees(before, bid, depth) {
        LastAgreesIff(deltas, bid, depth);
      }
    }
  }

  /** Since the last snapshot, every message replenished the book. */
  ghost predicate Replenished(deltas: seq<Delta>, bid: bool, depth: nat)
    decreases |deltas|
  {
    deltas != [] ==>
      var before, last := deltas[..|deltas| - 1], deltas[|deltas| - 1];
      last.snapshot || (Replenishes(FullRun(before), last.levels, bid, depth) && Replenished(before, bid, depth))
  }

  /** Whatever went before the last snapshot, over such a run what is kept is exactly the best `depth`
      levels of the full book. */
  lemma {:induction false} KeptIsBest(deltas: seq<Delta>, bid: bool, depth: nat)
    requires Replenished(deltas, bid, depth)
    ensures KeptRun(deltas, bid, depth) == Best(FullRun(deltas), bid, depth)
    decreases |deltas|
  {
    hide Best, Replenishes, KeptRun, FullRun;
    if deltas == [] {
      NothingAgrees(bid, depth);
    } else {
      if !deltas[|deltas| - 1].snapshot {
        KeptIsBest(deltas[..|deltas| - 1], bid, depth);
      }
      LastAgreesIff(deltas, bid, depth);
    }
  }

  lemma NothingAgrees(bid: bool, depth: nat)
    ensures Agrees([], bid, depth)
  {
  }

  /** In particular, over a run that removes nothing since the last snapshot. */
  ghost predicate RemovesNothing(deltas: seq<Delta>)
    decreases |deltas|
  {
    deltas != [] ==>
      var before, d := deltas[..|deltas| - 1], deltas[|deltas| - 1];
      d.snapshot || ((forall l | l in d.levels :: l.quantity != 0.0) && RemovesNothing(before))
  }

  lemma {:induction false} SettingAdds(full: Side, levels: seq<PriceLevel>)
    requires forall l | l in levels :: l.quantity != 0.0
    ensures PutAll(full, levels).Keys == full.Keys + Keys(levels)
    decreases |levels|
  {
    if levels != [] {
      var before, last := levels[..|levels| - 1], levels[|levels| - 1];
      SettingAdds(full, before);
      assert levels == before + [last];
      assert Keys(levels) == Keys(before) + {KeyOf(last)};
    }
  }

  /** A message that only sets levels pushes levels out of the best and lets none back in. */
  lemma SettingReplenishes(full: Side, levels: seq<PriceLevel>, bid: bool, depth: nat)
    requires forall l | l in levels :: l.quantity != 0.0
    ensures Replenishes(full, levels, bid, depth)
  {
    SettingAdds(full, levels);
    forall p | p in full && p !in Best(full, bid, depth) ensures p !in Best(PutAll(full, levels), bid, depth) {
      SubsetSize(Ahead(full, bid, p), Ahead(PutAll(full, levels), bid, p));
    }
  }

  lemma {:induction false} TracksWithoutRemovals(deltas: seq<Delta>, bid: bool, depth: nat)
    requires RemovesNothing(deltas)
    ensures Replenished(deltas, bid, depth)
    ensures KeptRun(deltas, bid, depth) == Best(FullRun(deltas), bid, depth)
    decreases |deltas|
  {
    hide Best, Replenishes, KeptRun, FullRun;
    if deltas != [] {
      var before, d := deltas[..|deltas| - 1], deltas[|deltas| - 1];
      if !d.snapshot {
        SettingReplenishes(FullRun(before), d.levels, bid, depth);
        TracksWithoutRemovals(before, bid, depth);
      }
    }
    KeptIsBest(deltas, bid, depth);
  }

  // ----- A level forgotten -----

  /** Removing a best level and sending nothing else breaks the agreement whenever a level is out of
      sight. */
  lemma RemovedAlone(full: Side, level: PriceLevel, hidden: PriceKey, bid: bool, depth: nat)
    requires level.quantity == 0.0 && KeyOf(level) in Best(full, bid, depth)
    requires hidden in full && hidden !in Best(full, bid, depth)
    ensures !Replenishes(full, [level], bid, depth)
  {
    var k, best := KeyOf(level), Best(full, bid, depth);
    var b := FirstLeftOut(full, bid, depth, hidden);
    BestAtMost(full, bid, depth);
    OnePut(full, level);
    var full' := PutAll(full, [level]);
    assert Ahead(full', bid, b) <= best.Keys - {k};
    SubsetSize(Ahead(full', bid, b), best.Keys - {k});
    assert |best.Keys| <= depth;
    assert b in Best(full', bid, depth) && b !in Keys([level]);
  }

  lemma {:induction false} OnePut(side: Side, level: PriceLevel)
    ensures PutAll(side, [level]) == Put(side, level)
  {
    assert [level][..0] == [];
    assert PutAll(side, []) == side;
  }

  /** Ten offers at 2 to 11. */
  function TenOffers(): seq<PriceLevel> {
    seq(10, i => PriceLevel((i + 2) as real, 1.0))
  }

  const BETTER := PriceLevel(1.0, 1.0)
  const GONE := PriceLevel(1.0, 0.0)

  /** Messages to the ask side of an empty book: a snapshot of ten offers, and one better offer, which
      pushes the worst out of sight of a book of ten levels. */
  function Pushed(): seq<Delta> {
    [Delta(true, TenOffers()), Delta(false, [BETTER])]
  }

  /** The ten offers ahead of the worst. */
  function TenAhead(): seq<PriceLevel> {
    [BETTER] + TenOffers()[..9]
  }

  lemma AheadPrices(p: PriceKey)
    ensures p in Keys(TenAhead()) <==> p in Keys(TenOffers()) + {KeyOf(BETTER)} && p != PriceKey(11.0)
    ensures p in Keys(TenAhead()) ==> p.price < 11.0
  {
    var ten, ahead := TenOffers(), TenAhead();
    if p in Keys(ten) && p != PriceKey(11.0) {
      var i :| 0 <= i < 10 && KeyOf(ten[i]) == p;
      assert ahead[i + 1] == ten[i];
    }
    assert ahead[0] == BETTER;
    if p in Keys(ahead) {
      var i :| 0 <= i < 10 && KeyOf(ahead[i]) == p;
      assert i > 0 ==> ahead[i] == ten[i - 1] && ten[i - 1] in ten;
    }
  }

  /** The full side after them: eleven offers, ten of them ahead of the worst. */
  lemma PushedSide()
    ensures
      var full, worst := FullRun(Pushed()), PriceKey(11.0);
      && worst in full && KeyOf(BETTER) in full && |Ahead(full, false, worst)| == 10
      && forall p | p in full && p != worst :: p in Ahead(full, false, worst)
  {
    var full, worst := FullRun(Pushed()), PriceKey(11.0);
    PushedKeys();
    assert TenOffers()[9] in TenOffers() && KeyOf(TenOffers()[9]) == worst;
    KeysCount(TenAhead(), false);
    hide TenAhead, TenOffers, Pushed, FullRun;
    forall p ensures p in Keys(TenAhead()) <==> p in Ahead(full, false, worst) {
      AheadPrices(p);
    }
    assert Ahead(full, false, worst) == Keys(TenAhead());
    forall p | p in full && p != worst ensures p in Ahead(full, false, worst) {
      AheadPrices(p);
    }
  }

  lemma PushedKeys()
    ensures FullRun(Pushed()).Keys == Keys(TenOffers()) + {KeyOf(BETTER)}
  {
    var ten, run := TenOffers(), Pushed();
    assert run[..1] == [Delta(true, ten)] && run[..1][..0] == [];
    SettingAdds(map[], ten);
    SettingAdds(FullRun(run[..1]), [BETTER]);
    assert FullRun(run) == PutAll(FullRun(run[..1]), [BETTER]) && FullRun(run[..1]) == PutAll(map[], ten);
    assert Keys([BETTER]) == {KeyOf(BETTER)};
  }

  /** After them the book agrees with the full side and has lost sight of the worst offer only. */
  lemma OutOfSight()
    ensures Agrees(Pushed(), false, 10)
    ensures forall p | p in FullRun(Pushed()) :: p in Best(FullRun(Pushed()), false, 10) <==> p != PriceKey(11.0)
  {
    var run := Pushed();
    assert run[..1] == [Delta(true, TenOffers())];
    assert RemovesNothing(run[..1]);
    TracksWithoutRemovals(run, false, 10);
    hide Pushed, FullRun;
    var full, worst := FullRun(Pushed()), PriceKey(11.0);
    PushedSide();
    forall p | p in full && p != worst ensures |Ahead(full, false, p)| < 10 {
      SubsetSize(Ahead(full, false, p), Ahead(full, false, worst) - {p});
    }
  }

  /** When the feed then removes the better offer and sends nothing in its place, the book of ten levels
      is left without the worst offer, which is among the ten of the full side. */
  lemma LevelForgotten()
    ensures
      var run := Pushed() + [Delta(false, [GONE])];
      && !Agrees(run, false, 10)
      && PriceKey(11.0) in Best(FullRun(run), false, 10) && PriceKey(11.0) !in KeptRun(run, false, 10)
  {
    hide Pushed;
    var run := Pushed() + [Delta(false, [GONE])];
    assert run[..|run| - 1] == Pushed();
    OutOfSight();
    PushedSide();
    var full, worst := FullRun(Pushed()), PriceKey(11.0);
    OnePut(full, GONE);
    SubsetSize(Ahead(PutAll(full, [GONE]), false, worst), Ahead(full, false, worst) - {KeyOf(GONE)});
    assert worst !in Keys([GONE]);
    LastAgreesIff(run, false, 10);
    MessageLacks(full, [GONE], false, 10);
  }

  /** When the feed sends the worst offer again with the removal, nothing is lost. */
  lemma LevelReplaced()
    ensures Agrees(Pushed() + [Delta(false, [GONE, TenOffers()[9]])], false, 10)
  {
    hide Pushed;
    var run := Pushed() + [Delta(false, [GONE, TenOffers()[9]])];
    assert run[..|run| - 1] == Pushed();
    OutOfSight();
    assert TenOffers()[9] in [GONE, TenOffers()[9]];
    LastAgreesIff(run, false, 10);
  }
}
