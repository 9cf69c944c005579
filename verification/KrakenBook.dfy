/** The depth-limited order book kept from a feed of level updates
    (internal/exchange/kraken/provider.go). */
module KrakenBook {
  import opened Exchange
  import opened Sorting

  const DEFAULT_DEPTH := 10

  /** What levels are filed under.  The source uses the text of the price; two texts of one price are
      one key here. */
  datatype PriceKey = PriceKey(price: real)

  type Side = map<PriceKey, PriceLevel>

  function KeyOf(level: PriceLevel): PriceKey {
    PriceKey(level.price)
  }

  predicate Better(bid: bool, p: PriceKey, q: PriceKey) {
    if bid then p.price > q.price else p.price < q.price
  }

  /** One update: a zero quantity removes the level. */
  function Put(side: Side, level: PriceLevel): Side {
    if level.quantity == 0.0 then side - {KeyOf(level)} else side[KeyOf(level) := level]
  }

  function PutAll(side: Side, levels: seq<PriceLevel>): Side
    decreases |levels|
  {
    if levels == [] then side else Put(PutAll(side, levels[..|levels| - 1]), levels[|levels| - 1])
  }

  function Ahead(side: Side, bid: bool, p: PriceKey): set<PriceKey> {
    set q | q in side && Better(bid, q, p)
  }

  /** The best `depth` levels: those with fewer than `depth` levels ahead of them. */
  function Best(side: Side, bid: bool, depth: nat): Side {
    map p | p in side && |Ahead(side, bid, p)| < depth :: side[p]
  }

  ghost predicate Keyed(side: Side) {
    forall p | p in side :: KeyOf(side[p]) == p
  }

  lemma {:induction false} PutAllKeyed(side: Side, levels: seq<PriceLevel>)
    requires Keyed(side)
    ensures Keyed(PutAll(side, levels))
    decreases |levels|
  {
    if levels != [] {
      PutAllKeyed(side, levels[..|levels| - 1]);
    }
  }

  // ----- Ladders -----

  ghost predicate InOrder(levels: seq<PriceLevel>, bid: bool) {
    forall i, j | 0 <= i < j < |levels| :: Better(bid, KeyOf(levels[i]), KeyOf(levels[j]))
  }

  /** All levels of a side in strict price order, best first. */
  ghost predicate IsLadder(levels: seq<PriceLevel>, side: Side, bid: bool) {
    && InOrder(levels, bid)
    && forall l :: l in levels <==> KeyOf(l) in side && side[KeyOf(l)] == l
  }

  ghost function Keys(levels: seq<PriceLevel>): set<PriceKey> {
    set l | l in levels :: KeyOf(l)
  }

  lemma {:induction false} KeysCount(levels: seq<PriceLevel>, bid: bool)
    requires InOrder(levels, bid)
    ensures |Keys(levels)| == |levels|
    decreases |levels|
  {
    if levels != [] {
      var before, last := levels[..|levels| - 1], levels[|levels| - 1];
      KeysCount(before, bid);
      assert Keys(levels) == Keys(before) + {KeyOf(last)};
      assert KeyOf(last) !in Keys(before);
    }
  }

  lemma SubsetSize(s: set<PriceKey>, t: set<PriceKey>)
    requires s <= t
    ensures |s| <= |t|
  {
    assert t == s + (t - s);
  }

  /** In a ladder, the levels ahead of the one at `i` are those before it. */
  lemma LadderAhead(levels: seq<PriceLevel>, side: Side, bid: bool, i: nat)
    requires Keyed(side) && IsLadder(levels, side, bid) && i < |levels|
    ensures |Ahead(side, bid, KeyOf(levels[i]))| == i
  {
    KeysCount(levels[..i], bid);
    var p := KeyOf(levels[i]);
    forall q ensures q in Ahead(side, bid, p) <==> q in Keys(levels[..i]) {
      if q in Ahead(side, bid, p) {
        assert side[q] in levels;
        var k :| 0 <= k < |levels| && levels[k] == side[q];
        assert k < i;
        assert levels[k] in levels[..i];
      }
      if q in Keys(levels[..i]) {
        var k :| 0 <= k < i && KeyOf(levels[k]) == q;
        assert levels[k] in levels;
      }
    }
    assert Ahead(side, bid, p) == Keys(levels[..i]);
  }

  function Shorter(n: nat, depth: nat): nat {
    if n < depth then n else depth
  }

  lemma LadderPrices(levels: seq<PriceLevel>, side: Side, bid: bool)
    requires IsLadder(levels, side, bid)
    ensures if bid then Falls(levels) else Rises(levels)
  {
  }

  lemma LevelIsBest(levels: seq<PriceLevel>, side: Side, bid: bool, depth: nat, l: PriceLevel)
    requires Keyed(side) && IsLadder(levels, side, bid)
    ensures l in levels[..Shorter(|levels|, depth)]
      <==> KeyOf(l) in Best(side, bid, depth) && Best(side, bid, depth)[KeyOf(l)] == l
  {
    if l in levels {
      var k :| 0 <= k < |levels| && levels[k] == l;
      LadderAhead(levels, side, bid, k);
      var kept := levels[..Shorter(|levels|, depth)];
      assert forall i | 0 <= i < |kept| :: kept[i] == levels[i] && (kept[i] == l ==> i == k);
    }
  }

  /** The first `depth` levels of the ladder are the best `depth` levels, in order. */
  lemma LadderBest(levels: seq<PriceLevel>, side: Side, bid: bool, depth: nat)
    requires Keyed(side) && IsLadder(levels, side, bid)
    ensures IsLadder(levels[..Shorter(|levels|, depth)], Best(side, bid, depth), bid)
    ensures |levels| <= depth ==> Best(side, bid, depth) == side
  {
    hide Best;
    forall l
      ensures l in levels[..Shorter(|levels|, depth)]
        <==> KeyOf(l) in Best(side, bid, depth) && Best(side, bid, depth)[KeyOf(l)] == l
    {
      LevelIsBest(levels, side, bid, depth, l);
    }
    if |levels| <= depth {
      WholeIsBest(levels, side, bid, depth);
    }
  }

  lemma WholeIsBest(levels: seq<PriceLevel>, side: Side, bid: bool, depth: nat)
    requires Keyed(side) && IsLadder(levels, side, bid) && |levels| <= depth
    ensures Best(side, bid, depth) == side
  {
    forall p | p in side ensures |Ahead(side, bid, p)| < depth {
      assert side[p] in levels;
      var k :| 0 <= k < |levels| && levels[k] == side[p];
      LadderAhead(levels, side, bid, k);
    }
  }

  lemma BestBest(side: Side, bid: bool, depth: nat)
    ensures Best(Best(side, bid, depth), bid, depth) == Best(side, bid, depth)
  {
    var best := Best(side, bid, depth);
    forall p | p in best ensures |Ahead(best, bid, p)| < depth {
      SubsetSize(Ahead(best, bid, p), Ahead(side, bid, p));
    }
  }

  lemma LadderEmpty(levels: seq<PriceLevel>, side: Side, bid: bool)
    requires Keyed(side) && IsLadder(levels, side, bid)
    ensures levels == [] <==> side == map[]
  {
    if p :| p in side {
      assert side[p] in levels;
    }
    if levels != [] {
      assert levels[0] in levels;
    }
  }

  /** A side has one ladder. */
  lemma LadderUnique(one: seq<PriceLevel>, other: seq<PriceLevel>, side: Side, bid: bool)
    requires Keyed(side) && IsLadder(one, side, bid) && IsLadder(other, side, bid)
    ensures one == other
  {
    LadderWithin(one, other, side, bid);
    LadderWithin(other, one, side, bid);
  }

  lemma LadderWithin(one: seq<PriceLevel>, other: seq<PriceLevel>, side: Side, bid: bool)
    requires Keyed(side) && IsLadder(one, side, bid) && IsLadder(other, side, bid)
    ensures one <= other
  {
    if one != [] {
      SamePlace(one, other, side, bid, |one| - 1);
      forall i | 0 <= i < |one| ensures one[i] == other[i] {
        SamePlace(one, other, side, bid, i);
      }
    }
  }

  lemma SamePlace(one: seq<PriceLevel>, other: seq<PriceLevel>, side: Side, bid: bool, i: nat)
    requires Keyed(side) && IsLadder(one, side, bid) && IsLadder(other, side, bid) && i < |one|
    ensures i < |other| && other[i] == one[i]
  {
    assert one[i] in one;
    var k :| 0 <= k < |other| && other[k] == one[i];
    LadderAhead(one, side, bid, i);
    LadderAhead(other, side, bid, k);
  }

  // ----- Sorting a side -----

  lemma PriceOrder(bid: bool)
    ensures StrictWeakOrder((a: PriceLevel, b: PriceLevel) => Better(bid, KeyOf(a), KeyOf(b)))
  {
  }

  /** The levels of a side, in any order. */
  method Collect(side: Side) returns (all: seq<PriceLevel>)
    requires Keyed(side)
    ensures forall l :: l in all <==> KeyOf(l) in side && side[KeyOf(l)] == l
    ensures forall i, j | 0 <= i < j < |all| :: KeyOf(all[i]) != KeyOf(all[j])
  {
    all := [];
    var left := side.Keys;
    while left != {}
      invariant left <= side.Keys
      invariant forall l :: l in all <==> KeyOf(l) in side && KeyOf(l) !in left && side[KeyOf(l)] == l
      invariant forall i, j | 0 <= i < j < |all| :: KeyOf(all[i]) != KeyOf(all[j])
      decreases left
    {
      var p :| p in left;
      assert forall l | l in all :: KeyOf(l) != p;
      all := all + [side[p]];
      left := left - {p};
    }
  }

  lemma SortedIsLadder(all: seq<PriceLevel>, sorted: seq<PriceLevel>, side: Side, bid: bool)
    requires forall i, j | 0 <= i < j < |all| :: KeyOf(all[i]) != KeyOf(all[j])
    requires multiset(all) == multiset(sorted)
    requires Ordered((a: PriceLevel, b: PriceLevel) => Better(bid, KeyOf(a), KeyOf(b)), sorted)
    requires forall l :: l in all <==> KeyOf(l) in side && side[KeyOf(l)] == l
    ensures IsLadder(sorted, side, bid)
  {
    SameMembers(all, sorted);
    forall i, j | 0 <= i < j < |sorted| ensures Better(bid, KeyOf(sorted[i]), KeyOf(sorted[j])) {
      assert sorted[i] in all && sorted[j] in all;
      if sorted[i] == sorted[j] {
        NoTwice(all, sorted, i, j);
      }
    }
  }

  // ----- The book -----

  datatype Message = Message(symbol: string, snapshot: bool, bids: seq<PriceLevel>, asks: seq<PriceLevel>,
                             checksum: int)

  datatype Answer = Ignored | EmptySide | Mismatch | Ladders(bids: seq<PriceLevel>, asks: seq<PriceLevel>)

  /** What a message does to one side. */
  datatype Delta = Delta(snapshot: bool, levels: seq<PriceLevel>)

  /** What the levels of a message are put into. */
  function Base(side: Side, d: Delta): Side {
    if d.snapshot then map[] else side
  }

  function SideAfter(side: Side, d: Delta, bid: bool, depth: nat): Side {
    Best(PutAll(Base(side, d), d.levels), bid, depth)
  }

  // ----- The same in prices -----

  ghost predicate Falls(levels: seq<PriceLevel>) {
    forall i, j | 0 <= i < j < |levels| :: levels[i].price > levels[j].price
  }

  ghost predicate Rises(levels: seq<PriceLevel>) {
    forall i, j | 0 <= i < j < |levels| :: levels[i].price < levels[j].price
  }

  /** Of a bid side the levels with fewer than `depth` higher prices are kept, of an ask side those with
      fewer than `depth` lower ones, as they are. */
  ghost predicate CutTo(kept: Side, all: Side, bid: bool, depth: nat) {
    forall p ::
      && (p in kept <==>
            && p in all
            && |set q | q in all && (if bid then q.price > p.price else q.price < p.price)| < depth)
      && (p in kept ==> kept[p] == all[p])
  }

  lemma BestIsCut(side: Side, bid: bool, depth: nat)
    ensures CutTo(Best(side, bid, depth), side, bid, depth)
  {
    forall p
      ensures Ahead(side, bid, p) == set q | q in side && (if bid then q.price > p.price else q.price < p.price)
    {
    }
  }

  /** What was sent last at a price stands there, with the quantity sent, or nothing when that was zero; at
      any other price nothing changed. */
  ghost predicate Updated(before: Side, levels: seq<PriceLevel>, after: Side) {
    && (forall i | 0 <= i < |levels| && (forall j | i < j < |levels| :: levels[j].price != levels[i].price) ::
          if levels[i].quantity == 0.0 then PriceKey(levels[i].price) !in after
          else PriceKey(levels[i].price) in after && after[PriceKey(levels[i].price)] == levels[i])
    && forall p: PriceKey | forall l | l in levels :: l.price != p.price ::
         (p in after <==> p in before) && (p in after ==> after[p] == before[p])
  }

  /** The place of what was sent last at a price, if anything was. */
  lemma {:induction false} LastSent(levels: seq<PriceLevel>, price: real) returns (i: nat)
    requires exists l | l in levels :: l.price == price
    ensures i < |levels| && levels[i].price == price && forall j | i < j < |levels| :: levels[j].price != price
    decreases |levels|
  {
    i := |levels| - 1;
    if levels[i].price != price {
      assert levels == levels[..i] + [levels[i]];
      i := LastSent(levels[..i], price);
    }
  }

  /** The updates leave one side. */
  lemma UpdatedOnce(before: Side, levels: seq<PriceLevel>, one: Side, other: Side)
    requires Updated(before, levels, one) && Updated(before, levels, other)
    ensures one == other
  {
    forall p ensures (p in one <==> p in other) && (p in one ==> one[p] == other[p]) {
      if exists l :: l in levels && l.price == p.price {
        var i := LastSent(levels, p.price);
        assert PriceKey(levels[i].price) == p;
      }
    }
  }

  /** A side before and after a message: a snapshot starts it anew, then the updates are put and the side is
      cut. */
  ghost predicate Follows(before: Side, snapshot: bool, levels: seq<PriceLevel>, after: Side, bid: bool, depth: nat) {
    exists all :: Updated(if snapshot then map[] else before, levels, all) && CutTo(after, all, bid, depth)
  }

  lemma SideFollows(before: Side, d: Delta, bid: bool, depth: nat)
    ensures Follows(before, d.snapshot, d.levels, SideAfter(before, d, bid, depth), bid, depth)
  {
    hide Updated, CutTo, Best, PutAll;
    PutAllUpdates(Base(before, d), d.levels);
    BestIsCut(PutAll(Base(before, d), d.levels), bid, depth);
  }

  lemma {:induction false} PutAllUpdates(side: Side, levels: seq<PriceLevel>)
    ensures Updated(side, levels, PutAll(side, levels))
    decreases |levels|
  {
    if levels != [] {
      var before, last := levels[..|levels| - 1], levels[|levels| - 1];
      PutAllUpdates(side, before);
      PutUpdates(side, before, PutAll(side, before), last);
      assert before + [last] == levels;
    }
  }

  lemma PutUpdates(side: Side, before: seq<PriceLevel>, middle: Side, last: PriceLevel)
    requires Updated(side, before, middle)
    ensures Updated(side, before + [last], Put(middle, last))
  {
    var levels, after := before + [last], Put(middle, last);
    forall i | 0 <= i < |levels| && (forall j | i < j < |levels| :: levels[j].price != levels[i].price)
      ensures if levels[i].quantity == 0.0 then PriceKey(levels[i].price) !in after
              else PriceKey(levels[i].price) in after && after[PriceKey(levels[i].price)] == levels[i]
    {
      if i < |before| {
        assert levels[|before|].price != levels[i].price;
        forall j | i < j < |before| ensures before[j].price != before[i].price {
          assert levels[j].price != levels[i].price;
        }
      }
    }
    forall p: PriceKey | forall l | l in levels :: l.price != p.price
      ensures (p in after <==> p in side) && (p in after ==> after[p] == side[p])
    {
      assert last in levels && forall l | l in before :: l in levels;
    }
  }

  class Book {
    const depth: nat
    var bids: Side
    var asks: Side

    function SideOf(bid: bool): Side
      reads this
    {
      if bid then bids else asks
    }

    ghost predicate Valid()
      reads this
    {
      depth > 0 && Keyed(bids) && Keyed(asks)
    }

    constructor (depth: int)
      ensures Valid() && bids == map[] && asks == map[]
      ensures this.depth == if depth <= 0 then 10 else depth
    {
      this.depth := if depth <= 0 then DEFAULT_DEPTH else depth;
      bids, asks := map[], map[];
    }

    /** The best levels of a side in price order. */
    method Sorted(bid: bool) returns (levels: seq<PriceLevel>)
      requires Valid()
      ensures IsLadder(levels, Best(SideOf(bid), bid, depth), bid)
      ensures |levels| < depth ==> Best(SideOf(bid), bid, depth) == SideOf(bid)
      ensures if bid then Falls(levels) else Rises(levels)
    {
      hide Best, IsLadder;
      var side := SideOf(bid);
      var all := Collect(side);
      PriceOrder(bid);
      var sorted := Sort(all, (a: PriceLevel, b: PriceLevel) => Better(bid, KeyOf(a), KeyOf(b)));
      SortedIsLadder(all, sorted, side, bid);
      LadderBest(sorted, side, bid, depth);
      levels := sorted[..Shorter(|sorted|, depth)];
      LadderPrices(levels, Best(side, bid, depth), bid);
    }

    method Truncate(bid: bool)
      requires Valid()
      modifies this`bids, this`asks
      ensures Valid() && SideOf(bid) == Best(old(SideOf(bid)), bid, depth) && SideOf(!bid) == old(SideOf(!bid))
      ensures CutTo(SideOf(bid), old(SideOf(bid)), bid, depth)
    {
      hide Best, CutTo, IsLadder;
      BestIsCut(SideOf(bid), bid, depth);
      var levels := Sorted(bid);
      if |levels| < depth {
        return;
      }
      var side := SideOf(bid);
      var keep := set l | l in levels :: KeyOf(l);
      KeepsBest(levels, side, keep, bid, depth);
      var left := side.Keys;
      ghost var was := side;
      while left != {}
        invariant left <= was.Keys
        invariant forall p :: p in side <==> p in was && (p in left || p in keep)
        invariant forall p | p in side :: side[p] == was[p]
        decreases left
      {
        var p :| p in left;
        left := left - {p};
        if p !in keep {
          side := side - {p};
        }
      }
      assert side == map p | p in was && p in keep :: was[p];
      if bid {
        bids := side;
      } else {
        asks := side;
      }
    }

    method Apply(levels: seq<PriceLevel>, bid: bool)
      requires Valid()
      modifies this`bids, this`asks
      ensures Valid() && SideOf(bid) == Best(PutAll(old(SideOf(bid)), levels), bid, depth)
      ensures SideOf(!bid) == old(SideOf(!bid))
      ensures
        var all := PutAll(old(SideOf(bid)), levels);
        Updated(old(SideOf(bid)), levels, all) && CutTo(SideOf(bid), all, bid, depth)
    {
      hide Best, CutTo, Updated;
      PutAllUpdates(SideOf(bid), levels);
      var side := SideOf(bid);
      for i := 0 to |levels|
        invariant side == PutAll(SideOf(bid), levels[..i])
      {
        assert levels[..i + 1][..i] == levels[..i];
        var level := levels[i];
        if level.quantity == 0.0 {
          side := side - {KeyOf(level)};
          continue;
        }
        side := side[KeyOf(level) := level];
      }
      assert levels[..|levels|] == levels;
      PutAllKeyed(SideOf(bid), levels);
      if bid {
        bids := side;
      } else {
        asks := side;
      }
      Truncate(bid);
    }

    /** One book message.  A snapshot replaces both sides, and a message that is then answered with an
        error has already changed the book.  `Sum` is the checksum the feed defines over two ladders. */
    method Handle(m: Message, symbol: string, Sum: (seq<PriceLevel>, seq<PriceLevel>) -> int) returns (answer: Answer)
      requires Valid()
      modifies this`bids, this`asks
      ensures Valid()
      ensures answer == Ignored <==> m.symbol != "" && m.symbol != symbol
      ensures answer == Ignored ==> bids == old(bids) && asks == old(asks)
      ensures answer != Ignored ==>
                && bids == SideAfter(old(bids), Delta(m.snapshot, m.bids), true, depth)
                && asks == SideAfter(old(asks), Delta(m.snapshot, m.asks), false, depth)
                && (answer == EmptySide <==> bids == map[] || asks == map[])
                && Follows(old(bids), m.snapshot, m.bids, bids, true, depth)
                && Follows(old(asks), m.snapshot, m.asks, asks, false, depth)
      ensures answer == Mismatch ==>
                && m.checksum != 0
                && forall b, a | IsLadder(b, bids, true) && IsLadder(a, asks, false) :: Sum(a, b) != m.checksum
      ensures answer.Ladders? ==>
                && IsLadder(answer.bids, bids, true) && IsLadder(answer.asks, asks, false)
                && Falls(answer.bids) && Rises(answer.asks)
                && (m.checksum == 0 || m.checksum == Sum(answer.asks, answer.bids))
    {
      hide Best, PutAll, IsLadder, CutTo, Updated, Follows;
      SideFollows(bids, Delta(m.snapshot, m.bids), true, depth);
      SideFollows(asks, Delta(m.snapshot, m.asks), false, depth);
      if m.symbol != "" && m.symbol != symbol {
        return Ignored;
      }
      if m.snapshot {
        bids, asks := map[], map[];
      }
      BestBest(PutAll(bids, m.bids), true, depth);
      BestBest(PutAll(asks, m.asks), false, depth);
      Apply(m.bids, true);
      Apply(m.asks, false);
      var sortedBids := Sorted(true);
      var sortedAsks := Sorted(false);
      LadderEmpty(sortedBids, bids, true);
      LadderEmpty(sortedAsks, asks, false);
      if |sortedBids| == 0 || |sortedAsks| == 0 {
        return EmptySide;
      }
      if m.checksum != 0 && Sum(sortedAsks, sortedBids) != m.checksum {
        forall b, a | IsLadder(b, bids, true) && IsLadder(a, asks, false) ensures Sum(a, b) != m.checksum {
          LadderUnique(b, sortedBids, bids, true);
          LadderUnique(a, sortedAsks, asks, false);
        }
        return Mismatch;
      }
      return Ladders(sortedBids, sortedAsks);
    }
  }

  lemma KeepsBest(levels: seq<PriceLevel>, side: Side, keep: set<PriceKey>, bid: bool, depth: nat)
    requires Keyed(side) && IsLadder(levels, Best(side, bid, depth), bid) && keep == Keys(levels)
    ensures Best(side, bid, depth) == map p | p in side && p in keep :: side[p]
  {
    var best := Best(side, bid, depth);
    forall p ensures p in best <==> p in keep {
      if p in best {
        assert best[p] in levels;
      }
    }
  }
}
