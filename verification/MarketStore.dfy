/** The shared store of market snapshots and the one-place wake-up slot of each of its subscribers
    (internal/market/store.go). */
module MarketStore {
  import opened Exchange
  import opened Sorting
  import opened Texts

  type Snapshots = map<Key, OrderBook>

  /** The wake-up slots by subscriber: whether a wake-up is waiting.  A slot is a channel with room for
      one empty message, to which the store sends without ever blocking. */
  type Slots = map<nat, bool>

  /** The operations that write to the store. */
  datatype Update =
    | Apply(book: OrderBook, appliedAt: Time)
    | SetStatus(key: Key, status: FeedStatus, transport: Transport, message: string)
    | SetStatusIfNotFresh(unlessFresh: Key, newStatus: FeedStatus, newTransport: Transport, newMessage: string, at: Time)
    | MarkStale(now: Time)

  function Defaulted(b: OrderBook, now: Time): OrderBook {
    b.(receivedAt := if b.receivedAt == UNSET then now else b.receivedAt,
       transport := if b.transport == Unspecified then WebSocket else b.transport,
       status := if b.status == Unknown then Live else b.status,
       message := if b.message == "" then "feed live" else b.message)
  }

  function Blank(key: Key): OrderBook {
    OrderBook(key.exchange, key.market, [], [], UNSET, 0, Unspecified, Unknown, "")
  }

  function BookAt(all: Snapshots, key: Key): OrderBook {
    if key in all then all[key] else Blank(key)
  }

  function WithStatus(all: Snapshots, key: Key, status: FeedStatus, transport: Transport, message: string): Snapshots {
    all[key := BookAt(all, key).(exchange := key.exchange, market := key.market, status := status,
                                 transport := transport, message := message)]
  }

  predicate Fresh(b: OrderBook, now: Time, staleAfter: Time) {
    b.status == Live && b.receivedAt != UNSET && now - b.receivedAt <= staleAfter
  }

  predicate Overdue(b: OrderBook, now: Time, staleAfter: Time) {
    b.status == Live && b.receivedAt != UNSET && now - b.receivedAt > staleAfter
  }

  function Aged(b: OrderBook, now: Time, staleAfter: Time): OrderBook {
    if Overdue(b, now, staleAfter) then b.(status := Stale, message := "market data is stale") else b
  }

  /** A book is filed as it came; a missing time is that of its arrival, and what it says nothing about
      is a live WebSocket feed. */
  ghost predicate FiledAs(b: OrderBook, came: OrderBook, at: Time) {
    && b.exchange == came.exchange && b.market == came.market
    && b.bids == came.bids && b.asks == came.asks && b.sequence == came.sequence
    && b.receivedAt == (if came.receivedAt == 0 then at else came.receivedAt)
    && b.transport == (if came.transport == Unspecified then WebSocket else came.transport)
    && b.status == (if came.status == Unknown then Live else came.status)
    && b.message == (if came.message == "" then "feed live" else came.message)
  }

  function Effect(all: Snapshots, staleAfter: Time, u: Update): Snapshots {
    match u
    case Apply(book, now) =>
      var filled := Defaulted(book, now);
      all[filled.BookKey() := filled]
    case SetStatus(key, status, transport, message) => WithStatus(all, key, status, transport, message)
    case SetStatusIfNotFresh(key, status, transport, message, now) =>
      if Fresh(BookAt(all, key), now, staleAfter) then all else WithStatus(all, key, status, transport, message)
    case MarkStale(now) => map key | key in all :: Aged(all[key], now, staleAfter)
  }

  /** Whether an operation wakes the subscribers. */
  predicate Notifies(all: Snapshots, staleAfter: Time, u: Update) {
    match u
    case Apply(_, _) => true
    case SetStatus(_, _, _, _) => true
    case SetStatusIfNotFresh(key, _, _, _, now) => !Fresh(BookAt(all, key), now, staleAfter)
    case MarkStale(now) => exists key | key in all :: Overdue(all[key], now, staleAfter)
  }

  function Woken(slots: Slots): Slots {
    map id | id in slots :: true
  }

  ghost predicate Keyed(all: Snapshots) {
    forall key | key in all :: all[key].BookKey() == key
  }

  /** The two ways to lose a wake-up are excluded at the source: an operation that wakes nobody has
      changed nothing, and an operation that ages or changes anything wakes everybody. */
  lemma SilentChangesNothing(all: Snapshots, staleAfter: Time, u: Update)
    requires !Notifies(all, staleAfter, u)
    ensures Effect(all, staleAfter, u) == all
  {
    if u.MarkStale? {
      forall key | key in all ensures Aged(all[key], u.now, staleAfter) == all[key] {
        assert !Overdue(all[key], u.now, staleAfter);
      }
    }
  }

  lemma EffectKeyed(all: Snapshots, staleAfter: Time, u: Update)
    requires Keyed(all)
    ensures Keyed(Effect(all, staleAfter, u)) && all.Keys <= Effect(all, staleAfter, u).Keys
  {
  }

  /** Only a book that arrives changes levels, times and sequence numbers; the other operations change at
      most the status, the transport and the message, and those of one key unless they mark. */
  lemma StatusKeepsLevels(all: Snapshots, staleAfter: Time, u: Update, key: Key)
    requires Keyed(all) && key in all && !u.Apply?
    ensures
      var after := Effect(all, staleAfter, u);
      && key in after
      && after[key] == all[key].(status := after[key].status, transport := after[key].transport,
                                 message := after[key].message)
      && (u.SetStatus? && u.key != key ==> after[key] == all[key])
      && (u.SetStatusIfNotFresh? && u.unlessFresh != key ==> after[key] == all[key])
      && (u.MarkStale? ==> after[key].transport == all[key].transport)
  {
  }

  /** After marking, a live snapshot is as fresh as the store demands, and marking again at the same
      time is silent. */
  lemma MarkedIsFresh(all: Snapshots, staleAfter: Time, now: Time, key: Key)
    requires key in all
    ensures
      var marked := Effect(all, staleAfter, MarkStale(now));
      && (marked[key].status == Live && marked[key].receivedAt != UNSET ==> Fresh(marked[key], now, staleAfter))
      && (Fresh(all[key], now, staleAfter) ==> marked[key] == all[key])
      && !Notifies(marked, staleAfter, MarkStale(now))
  {
  }

  /** The order in which a snapshot lists the books. */
  predicate BookBefore(l: OrderBook, r: OrderBook) {
    if l.market.Text() == r.market.Text() then TextBefore(l.exchange, r.exchange)
    else TextBefore(l.market.Text(), r.market.Text())
  }

  lemma BookOrder()
    ensures StrictWeakOrder(BookBefore)
  {
    hide TextBefore;
    forall a, b | BookBefore(a, b) ensures !BookBefore(b, a) {
      TextTotal(a.market.Text(), b.market.Text());
      TextTotal(a.exchange, b.exchange);
    }
    forall a, b, c | !BookBefore(b, a) && !BookBefore(c, b) ensures !BookBefore(c, a) {
      NotAfter(a.market.Text(), b.market.Text(), c.market.Text());
      NotAfter(a.exchange, b.exchange, c.exchange);
      TextTotal(a.market.Text(), b.market.Text());
      TextTotal(b.market.Text(), c.market.Text());
      TextTotal(a.market.Text(), c.market.Text());
    }
  }

  /** By the text base/quote of the market, and by exchange for one text. */
  ghost predicate InListing(l: OrderBook, r: OrderBook) {
    var one, other := l.market.base + "/" + l.market.quote, r.market.base + "/" + r.market.quote;
    if one == other then l.exchange == r.exchange || Lesser(l.exchange, r.exchange) else Lesser(one, other)
  }

  lemma Listed(books: seq<OrderBook>)
    requires Ordered(BookBefore, books)
    ensures forall i, j | 0 <= i < j < |books| :: InListing(books[i], books[j])
  {
    hide TextBefore, Lesser;
    forall i, j | 0 <= i < j < |books| ensures InListing(books[i], books[j]) {
      var l, r := books[i], books[j];
      assert !BookBefore(r, l);
      TextTotal(l.market.Text(), r.market.Text());
      TextTotal(l.exchange, r.exchange);
      TextBeforeIff(l.market.Text(), r.market.Text());
      TextBeforeIff(l.exchange, r.exchange);
    }
  }

  lemma {:induction false} NotAfter(a: string, b: string, c: string)
    ensures !TextBefore(b, a) && !TextBefore(c, b) ==> !TextBefore(c, a) && (a == c ==> a == b)
  {
    hide TextBefore;
    TextTotal(a, b);
    TextTotal(b, c);
    TextTotal(a, c);
    if TextBefore(a, b) && TextBefore(b, c) {
      TextTransitive(a, b, c);
    }
  }

  lemma SortedKeys(snapshots: Snapshots, all: seq<OrderBook>, books: seq<OrderBook>)
    requires forall i, j | 0 <= i < j < |all| :: all[i].BookKey() != all[j].BookKey()
    requires forall b :: b in all <==> b.BookKey() in snapshots && snapshots[b.BookKey()] == b
    requires multiset(all) == multiset(books)
    ensures forall i, j | 0 <= i < j < |books| :: books[i].BookKey() != books[j].BookKey()
    ensures forall b :: b in books <==> b.BookKey() in snapshots && snapshots[b.BookKey()] == b
  {
    SameMembers(all, books);
    forall i, j | 0 <= i < j < |books| ensures books[i].BookKey() != books[j].BookKey() {
      assert books[i] in all && books[j] in all;
      if books[i] == books[j] {
        NoTwice(all, books, i, j);
      }
    }
  }

  class Store {
    const staleAfter: Time
    var snapshots: Snapshots
    var slots: Slots
    var nextSubId: nat

    ghost predicate Valid()
      reads this
    {
      Keyed(snapshots) && forall id | id in slots :: id < nextSubId
    }

    constructor (staleAfter: Time)
      ensures Valid() && this.staleAfter == staleAfter && snapshots == map[] && slots == map[]
    {
      this.staleAfter := staleAfter;
      snapshots, slots, nextSubId := map[], map[], 0;
    }

    method NotifyLocked()
      modifies this`slots
      ensures slots == Woken(old(slots))
      ensures slots.Keys == old(slots.Keys) && forall id | id in slots :: slots[id]
    {
      var left := slots.Keys;
      ghost var was := slots;
      while left != {}
        invariant left <= slots.Keys == was.Keys
        invariant forall id | id in slots && id !in left :: slots[id]
        decreases left
      {
        var id :| id in left;
        left := left - {id};
        slots := slots[id := true];
      }
    }

    method ApplyBook(book: OrderBook, now: Time)
      requires Valid()
      modifies this`snapshots, this`slots
      ensures Valid() && slots == Woken(old(slots))
      ensures snapshots == Effect(old(snapshots), staleAfter, Apply(book, now))
      ensures
        var key := Key(book.exchange, book.market);
        && key in snapshots && FiledAs(snapshots[key], book, now)
        && forall k | k != key :: (k in snapshots <==> k in old(snapshots))
                                  && (k in snapshots ==> snapshots[k] == old(snapshots)[k])
    {
      var filled := book;
      if filled.receivedAt == UNSET {
        filled := filled.(receivedAt := now);
      }
      if filled.transport == Unspecified {
        filled := filled.(transport := WebSocket);
      }
      if filled.status == Unknown {
        filled := filled.(status := Live);
      }
      if filled.message == "" {
        filled := filled.(message := "feed live");
      }
      snapshots := snapshots[filled.BookKey() := filled];
      NotifyLocked();
    }

    method Report(key: Key, status: FeedStatus, transport: Transport, message: string)
      requires Valid()
      modifies this`snapshots, this`slots
      ensures Valid() && slots == Woken(old(slots))
      ensures snapshots == Effect(old(snapshots), staleAfter, SetStatus(key, status, transport, message))
    {
      snapshots := WithStatus(snapshots, key, status, transport, message);
      NotifyLocked();
    }

    method ReportIfNotFresh(key: Key, status: FeedStatus, transport: Transport, message: string, now: Time)
      requires Valid()
      modifies this`snapshots, this`slots
      ensures Valid()
      ensures
        var u := SetStatusIfNotFresh(key, status, transport, message, now);
        && snapshots == Effect(old(snapshots), staleAfter, u)
        && slots == if Notifies(old(snapshots), staleAfter, u) then Woken(old(slots)) else old(slots)
    {
      if Fresh(BookAt(snapshots, key), now, staleAfter) {
        return;
      }
      Report(key, status, transport, message);
    }

    /** The snapshots come up in any order. */
    method MarkOverdue(now: Time)
      requires Valid()
      modifies this`snapshots, this`slots
      ensures Valid() && snapshots == Effect(old(snapshots), staleAfter, MarkStale(now))
      ensures slots == if Notifies(old(snapshots), staleAfter, MarkStale(now)) then Woken(old(slots)) else old(slots)
    {
      var changed := false;
      var left := snapshots.Keys;
      ghost var was := snapshots;
      while left != {}
        invariant left <= snapshots.Keys == was.Keys && slots == old(slots)
        invariant forall key | key in was ::
                    snapshots[key] == if key in left then was[key] else Aged(was[key], now, staleAfter)
        invariant changed <==> exists key | key in was && key !in left :: Overdue(was[key], now, staleAfter)
        decreases left
      {
        var key :| key in left;
        left := left - {key};
        if !Overdue(snapshots[key], now, staleAfter) {
          continue;
        }
        snapshots := snapshots[key := snapshots[key].(status := Stale, message := "market data is stale")];
        changed := true;
      }
      assert snapshots == Effect(was, staleAfter, MarkStale(now));
      assert changed == Notifies(was, staleAfter, MarkStale(now));
      if changed {
        NotifyLocked();
      }
    }

    /** One book a key, by market and exchange. */
    method Snapshot() returns (books: seq<OrderBook>)
      requires Valid()
      ensures forall i, j | 0 <= i < j < |books| :: books[i].BookKey() != books[j].BookKey()
      ensures forall b :: b in books <==> b.BookKey() in snapshots && snapshots[b.BookKey()] == b
      ensures forall i, j | 0 <= i < j < |books| :: InListing(books[i], books[j])
    {
      var all: seq<OrderBook> := [];
      var left := snapshots.Keys;
      while left != {}
        invariant left <= snapshots.Keys
        invariant forall i, j | 0 <= i < j < |all| :: all[i].BookKey() != all[j].BookKey()
        invariant forall b :: b in all <==> b.BookKey() in snapshots.Keys - left && snapshots[b.BookKey()] == b
        decreases left
      {
        var key :| key in left;
        all := all + [snapshots[key]];
        left := left - {key};
      }
      BookOrder();
      books := Sort(all, BookBefore);
      SortedKeys(snapshots, all, books);
      Listed(books);
    }

    method Subscribe() returns (id: nat)
      requires Valid()
      modifies this`slots, this`nextSubId
      ensures Valid() && id !in old(slots) && id == old(nextSubId) < nextSubId
      ensures slots == old(slots)[id := false]
    {
      id := nextSubId;
      nextSubId := nextSubId + 1;
      slots := slots[id := false];
    }

    method Unsubscribe(id: nat)
      requires Valid()
      modifies this`slots
      ensures Valid() && slots == old(slots) - {id}
    {
      slots := slots - {id};
    }
  }
}
