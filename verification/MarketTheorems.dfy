/** What the market store holds after any run of operations, field by field. */
module MarketTheorems {
  import opened Exchange
  import opened MarketStore

  // ----- One operation -----

  /** The levels, the time and the sequence number of a snapshot. */
  ghost predicate HoldsBook(b: OrderBook, came: OrderBook, at: Time) {
    && b.exchange == came.exchange && b.market == came.market
    && b.bids == came.bids && b.asks == came.asks && b.sequence == came.sequence
    && b.receivedAt == (if came.receivedAt == 0 then at else came.receivedAt)
  }

  ghost predicate HoldsNothing(b: OrderBook, key: Key) {
    && b.exchange == key.exchange && b.market == key.market
    && b.bids == [] && b.asks == [] && b.sequence == 0 && b.receivedAt == 0
  }

  ghost predicate SameBook(b: OrderBook, c: OrderBook) {
    && b.exchange == c.exchange && b.market == c.market
    && b.bids == c.bids && b.asks == c.asks && b.sequence == c.sequence && b.receivedAt == c.receivedAt
  }

  ghost predicate Reports(b: OrderBook, status: FeedStatus, transport: Transport, message: string) {
    b.status == status && b.transport == transport && b.message == message
  }

  /** An arriving book is filed under its exchange and market, touches no other key, and wakes everybody. */
  lemma ArrivalFiled(all: Snapshots, staleAfter: Time, came: OrderBook, at: Time, key: Key)
    ensures
      var after := Effect(all, staleAfter, Apply(came, at));
      && Notifies(all, staleAfter, Apply(came, at))
      && (if key == Key(came.exchange, came.market) then key in after && FiledAs(after[key], came, at)
          else (key in after <==> key in all) && (key in all ==> after[key] == all[key]))
  {
  }

  /** A status report is filed over whatever book is there, touches no other key, and wakes everybody. */
  lemma ReportFiled(all: Snapshots, staleAfter: Time, at: Key, status: FeedStatus, transport: Transport,
                    message: string, key: Key)
    requires Keyed(all)
    ensures
      var u := SetStatus(at, status, transport, message);
      var after := Effect(all, staleAfter, u);
      && Notifies(all, staleAfter, u)
      && (if key == at then
            && key in after && Reports(after[key], status, transport, message)
            && (if key in all then SameBook(all[key], after[key]) else HoldsNothing(after[key], key))
          else (key in after <==> key in all) && (key in all ==> after[key] == all[key]))
  {
  }

  ghost predicate LiveSince(b: OrderBook, now: Time, staleAfter: Time) {
    b.status == Live && b.receivedAt != 0 && now - b.receivedAt <= staleAfter
  }

  /** A report that must not replace a fresh feed is dropped, without a wake-up, exactly when the snapshot is
      live and was received within the time allowed; otherwise it is an ordinary report. */
  lemma ReportDroppedIff(all: Snapshots, staleAfter: Time, at: Key, status: FeedStatus, transport: Transport,
                         message: string, now: Time)
    ensures
      var u, plain := SetStatusIfNotFresh(at, status, transport, message, now), SetStatus(at, status, transport, message);
      if at in all && LiveSince(all[at], now, staleAfter) then
        Effect(all, staleAfter, u) == all && !Notifies(all, staleAfter, u)
      else
        Effect(all, staleAfter, u) == Effect(all, staleAfter, plain) && Notifies(all, staleAfter, u)
  {
  }

  ghost predicate LiveTooLong(b: OrderBook, now: Time, staleAfter: Time) {
    b.status == Live && b.receivedAt != 0 && now - b.receivedAt > staleAfter
  }

  /** Marking turns exactly the live snapshots received too long ago stale, says so, and keeps their books;
      it wakes everybody exactly when there is one. */
  lemma MarkingAges(all: Snapshots, staleAfter: Time, now: Time, key: Key)
    ensures
      var after := Effect(all, staleAfter, MarkStale(now));
      && (key in after <==> key in all)
      && (key in all ==>
            if LiveTooLong(all[key], now, staleAfter) then
              SameBook(all[key], after[key]) && Reports(after[key], Stale, all[key].transport, "market data is stale")
            else after[key] == all[key])
    ensures Notifies(all, staleAfter, MarkStale(now)) <==> exists k :: k in all && LiveTooLong(all[k], now, staleAfter)
  {
    if k :| k in all && LiveTooLong(all[k], now, staleAfter) {
      assert Overdue(all[k], now, staleAfter);
    }
    if Notifies(all, staleAfter, MarkStale(now)) {
      var k :| k in all && Overdue(all[k], now, staleAfter);
      assert LiveTooLong(all[k], now, staleAfter);
    }
  }

  // ----- Runs of operations -----

  /** The store's contents after the operations, from empty. */
  ghost function Filed(updates: seq<Update>, staleAfter: Time): Snapshots
    decreases |updates|
  {
    if updates == [] then map[]
    else Effect(Filed(updates[..|updates| - 1], staleAfter), staleAfter, updates[|updates| - 1])
  }

  /** The operation at `i` is the last arrival of a book for the key. */
  ghost predicate LastArrival(updates: seq<Update>, key: Key, i: nat) {
    && i < |updates| && updates[i].Apply? && Key(updates[i].book.exchange, updates[i].book.market) == key
    && forall j | i < j < |updates| && updates[j].Apply? :: Key(updates[j].book.exchange, updates[j].book.market) != key
  }

  ghost predicate NeverArrived(updates: seq<Update>, key: Key) {
    forall j | 0 <= j < |updates| && updates[j].Apply? :: Key(updates[j].book.exchange, updates[j].book.market) != key
  }

  /** The snapshot on file for a key holds the book that arrived last for it, or none. */
  ghost predicate Current(updates: seq<Update>, all: Snapshots, key: Key) {
    && (forall i: nat | LastArrival(updates, key, i) ::
          key in all && HoldsBook(all[key], updates[i].book, updates[i].appliedAt))
    && (key in all && NeverArrived(updates, key) ==> HoldsNothing(all[key], key))
  }

  lemma EffectKeeps(all: Snapshots, staleAfter: Time, u: Update, key: Key)
    requires Keyed(all) && !(u.Apply? && Key(u.book.exchange, u.book.market) == key)
    ensures
      var after := Effect(all, staleAfter, u);
      && (key in all ==> key in after && SameBook(all[key], after[key]))
      && (key in after && key !in all ==> HoldsNothing(after[key], key))
  {
    if key in all && !u.Apply? {
      StatusKeepsLevels(all, staleAfter, u, key);
    }
  }

  lemma CurrentStep(updates: seq<Update>, all: Snapshots, staleAfter: Time, u: Update, key: Key)
    requires Keyed(all) && Current(updates, all, key)
    ensures Current(updates + [u], Effect(all, staleAfter, u), key)
  {
    var run, after := updates + [u], Effect(all, staleAfter, u);
    hide Effect;
    if u.Apply? && Key(u.book.exchange, u.book.market) == key {
      ArrivalFiled(all, staleAfter, u.book, u.appliedAt, key);
      assert run[|updates|] == u;
    } else {
      EffectKeeps(all, staleAfter, u, key);
      forall i: nat | LastArrival(run, key, i)
        ensures key in after && HoldsBook(after[key], run[i].book, run[i].appliedAt)
      {
        assert i < |updates| && run[i] == updates[i];
        forall j | i < j < |updates| && updates[j].Apply?
          ensures Key(updates[j].book.exchange, updates[j].book.market) != key
        {
          assert run[j] == updates[j];
        }
        assert LastArrival(updates, key, i);
      }
      if NeverArrived(run, key) {
        assert forall j | 0 <= j < |updates| :: run[j] == updates[j];
        assert NeverArrived(updates, key);
      }
    }
  }

  /** Whatever feeds and status reports came in, in whatever order: each snapshot on file is under its own
      key and holds exactly the bids, the asks, the sequence number and the time of the book that arrived
      last for it, and no book that arrived was dropped. */
  lemma {:induction false} FiledIsLastArrived(updates: seq<Update>, staleAfter: Time, key: Key)
    ensures Keyed(Filed(updates, staleAfter)) && Current(updates, Filed(updates, staleAfter), key)
    decreases |updates|
  {
    hide Effect, Current, Keyed;
    if updates == [] {
      NothingFiled(staleAfter, key);
    } else {
      var before, last := updates[..|updates| - 1], updates[|updates| - 1];
      FiledIsLastArrived(before, staleAfter, key);
      EffectKeyed(Filed(before, staleAfter), staleAfter, last);
      CurrentStep(before, Filed(before, staleAfter), staleAfter, last, key);
      assert before + [last] == updates;
    }
  }

  lemma {:induction false} NothingFiled(staleAfter: Time, key: Key)
    ensures Keyed(Filed([], staleAfter)) && Current([], Filed([], staleAfter), key)
  {
  }

  /** Right after a marking, every live and dated snapshot holds the book that arrived last for its key, and
      that book came no longer ago than the store allows; marking again is silent. */
  lemma {:induction false} LiveIsRecent(updates: seq<Update>, staleAfter: Time, now: Time, key: Key)
    requires key in Filed(updates + [MarkStale(now)], staleAfter)
    ensures
      var run := updates + [MarkStale(now)];
      var marked := Filed(run, staleAfter);
      && Current(run, marked, key)
      && (marked[key].status == Live && marked[key].receivedAt != 0 ==> now - marked[key].receivedAt <= staleAfter)
      && !Notifies(marked, staleAfter, MarkStale(now))
  {
    var run := updates + [MarkStale(now)];
    assert run[..|run| - 1] == updates;
    FiledIsLastArrived(run, staleAfter, key);
    hide Current;
    MarkedIsFresh(Filed(updates, staleAfter), staleAfter, now, key);
  }
}
