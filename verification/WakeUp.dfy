/** The wake-up protocol between the writers of the market store and the decision loop, as a state
    machine over its steps: a writer holds the lock while it writes and then notifies subscriber after
    subscriber, while the loop receives, drains and reads in between (internal/market/store.go,
    internal/server/server.go). */
module WakeUp {
  import opened Exchange
  import opened MarketStore

  /** A channel with room for one empty message. */
  datatype Channel = Channel(full: bool, closed: bool)

  /** Who holds the store's lock between two steps: a writer with subscribers left to notify, or the
      goroutine that closes the channel of a subscriber it has just deleted. */
  datatype Lock = Free | Notifying(left: set<nat>) | Closing(id: nat)

  /** Where the decision loop is; while evaluating it holds what it read and when. */
  datatype Phase = Subscribing | Reading | Evaluating(read: Snapshots, readAt: nat) | Waiting | Draining | Done

  datatype State = State(
    snapshots: Snapshots,
    version: nat,
    channels: map<nat, Channel>,
    registered: set<nat>,
    nextId: nat,
    lock: Lock,
    phase: Phase,
    loopId: nat,
    stopped: bool,
    ended: set<nat>,
    used: Snapshots,
    usedAt: nat)

  const INITIAL := State(map[], 0, map[], {}, 0, Free, Subscribing, 0, false, {}, map[], 0)

  datatype Move =
    | Write(update: Update)
    | Send(to: nat)
    | Unlock
    | Subscribe
    | Read
    | Evaluate
    | Receive
    | Drain
    | Drained
    | Stop
    | Cancel
    | Delete(id: nat)
    | Close
    | OtherSubscribe
    | OtherReceive(reader: nat)
    | OtherEnd(who: nat)

  predicate IsLoop(s: State, id: nat) {
    s.phase != Subscribing && id == s.loopId
  }

  /** The loop's own channel, once it has one. */
  predicate Full(s: State) {
    s.phase != Subscribing && s.loopId in s.channels && s.channels[s.loopId].full
  }

  predicate Shut(s: State) {
    s.phase != Subscribing && s.loopId in s.channels && s.channels[s.loopId].closed
  }

  predicate Enabled(s: State, m: Move) {
    match m
    case Write(_) => s.lock.Free?
    case Send(id) => s.lock.Notifying? && id in s.lock.left && id in s.channels
    case Unlock => s.lock == Notifying({})
    case Subscribe => s.lock.Free? && s.phase.Subscribing?
    case Read => s.lock.Free? && s.phase.Reading?
    case Evaluate => s.phase.Evaluating?
    case Receive => s.phase.Waiting? && Full(s)
    case Drain => s.phase.Draining? && Full(s)
    case Drained => s.phase.Draining? && !Full(s) && !Shut(s)
    case Stop => (s.phase.Waiting? && s.stopped) || ((s.phase.Waiting? || s.phase.Draining?) && !Full(s) && Shut(s))
    case Cancel => true
    case Delete(id) => s.lock.Free? && id in s.registered && (if IsLoop(s, id) then s.stopped else id in s.ended)
    case Close => s.lock.Closing? && s.lock.id in s.channels
    case OtherSubscribe => s.lock.Free?
    case OtherReceive(id) => !IsLoop(s, id) && id in s.channels && s.channels[id].full
    case OtherEnd(id) => !IsLoop(s, id) && id in s.registered
  }

  function WithFull(s: State, id: nat, full: bool): State
    requires id in s.channels
  {
    s.(channels := s.channels[id := s.channels[id].(full := full)])
  }

  function Opened(s: State): State {
    s.(channels := s.channels[s.nextId := Channel(false, false)], registered := s.registered + {s.nextId},
       nextId := s.nextId + 1)
  }

  function After(s: State, m: Move, staleAfter: Time): State
    requires Enabled(s, m)
  {
    match m
    case Write(u) =>
      if Notifies(s.snapshots, staleAfter, u) then
        s.(snapshots := Effect(s.snapshots, staleAfter, u), version := s.version + 1, lock := Notifying(s.registered))
      else s.(snapshots := Effect(s.snapshots, staleAfter, u))
    case Send(id) => WithFull(s, id, true).(lock := Notifying(s.lock.left - {id}))
    case Unlock => s.(lock := Free)
    case Subscribe => Opened(s).(phase := Reading, loopId := s.nextId)
    case Read => s.(phase := Evaluating(s.snapshots, s.version))
    case Evaluate => s.(phase := Waiting, used := s.phase.read, usedAt := s.phase.readAt)
    case Receive => WithFull(s, s.loopId, false).(phase := Draining)
    case Drain => WithFull(s, s.loopId, false)
    case Drained => s.(phase := Reading)
    case Stop => s.(phase := Done)
    case Cancel => s.(stopped := true)
    case Delete(id) => s.(registered := s.registered - {id}, lock := Closing(id))
    case Close => s.(channels := s.channels[s.lock.id := s.channels[s.lock.id].(closed := true)], lock := Free)
    case OtherSubscribe => Opened(s)
    case OtherReceive(id) => WithFull(s, id, false)
    case OtherEnd(id) => s.(ended := s.ended + {id})
  }

  ghost predicate Run(states: seq<State>, moves: seq<Move>, staleAfter: Time) {
    && |states| == |moves| + 1
    && forall i | 0 <= i < |moves| ::
         Enabled(states[i], moves[i]) && states[i + 1] == After(states[i], moves[i], staleAfter)
  }

  // ----- The invariant -----

  /** The channels: those registered exist and are open, and a channel is closed once, after it was
      taken off the register. */
  ghost predicate ChannelsSafe(s: State) {
    && (forall id | id in s.registered :: id in s.channels && !s.channels[id].closed)
    && (forall id | id in s.channels :: id < s.nextId)
    && (s.lock.Notifying? ==> s.lock.left <= s.registered)
    && (s.lock.Closing? ==> s.lock.id in s.channels && s.lock.id !in s.registered && !s.channels[s.lock.id].closed)
  }

  /** The loop is registered until its context is cancelled, and ends only after that. */
  ghost predicate LoopAttached(s: State) {
    && (s.phase != Subscribing ==> s.loopId in s.channels && (s.loopId in s.registered || s.stopped))
    && (s.phase.Done? ==> s.stopped)
  }

  /** What was read at the current version is what the store holds. */
  ghost predicate VersionsTell(s: State) {
    && s.usedAt <= s.version && (s.usedAt == s.version && s.phase.Waiting? ==> s.used == s.snapshots)
    && (s.phase.Evaluating? ==>
          s.phase.readAt <= s.version && (s.phase.readAt == s.version ==> s.phase.read == s.snapshots))
  }

  /** A wake-up waits in the loop's slot, or the writer is still going to leave one there. */
  ghost predicate WakeUpPending(s: State) {
    Full(s) || (s.phase != Subscribing && s.lock.Notifying? && s.loopId in s.lock.left)
  }

  /** The loop has yet to read the store, or works on its current version. */
  ghost predicate AboutToLook(s: State) {
    match s.phase
    case Subscribing => true
    case Reading => true
    case Draining => true
    case Evaluating(_, at) => at == s.version
    case Waiting => s.usedAt == s.version
    case Done => false
  }

  ghost predicate NothingLost(s: State) {
    s.stopped || AboutToLook(s) || WakeUpPending(s)
  }

  ghost predicate Inv(s: State) {
    ChannelsSafe(s) && LoopAttached(s) && VersionsTell(s) && NothingLost(s)
  }

  lemma MoveKeepsChannels(s: State, m: Move, staleAfter: Time)
    requires Inv(s) && Enabled(s, m)
    ensures ChannelsSafe(After(s, m, staleAfter))
  {
    hide Effect, Notifies, VersionsTell, NothingLost, LoopAttached;
  }

  lemma MoveKeepsLoop(s: State, m: Move, staleAfter: Time)
    requires Inv(s) && Enabled(s, m)
    ensures LoopAttached(After(s, m, staleAfter))
  {
    hide Effect, Notifies, VersionsTell, NothingLost;
  }

  lemma MoveKeepsVersions(s: State, m: Move, staleAfter: Time)
    requires Inv(s) && Enabled(s, m)
    ensures VersionsTell(After(s, m, staleAfter))
  {
    if m.Write? && !Notifies(s.snapshots, staleAfter, m.update) {
      SilentChangesNothing(s.snapshots, staleAfter, m.update);
    }
    hide Effect, Notifies;
  }

  lemma MoveLosesNothing(s: State, m: Move, staleAfter: Time)
    requires Inv(s) && Enabled(s, m)
    ensures NothingLost(After(s, m, staleAfter))
  {
    hide Effect, Notifies;
  }

  lemma {:induction false} RunInvariant(states: seq<State>, moves: seq<Move>, staleAfter: Time, i: nat)
    requires Run(states, moves, staleAfter) && Inv(states[0]) && i < |states|
    ensures Inv(states[i])
  {
    hide Inv, Enabled, After;
    if i == 0 {
    } else {
      RunInvariant(states, moves, staleAfter, i - 1);
      MoveKeepsAll(states[i - 1], moves[i - 1], staleAfter);
    }
  }

  lemma MoveKeepsAll(s: State, m: Move, staleAfter: Time)
    requires Inv(s) && Enabled(s, m)
    ensures Inv(After(s, m, staleAfter))
  {
    hide Enabled, After, ChannelsSafe, LoopAttached, VersionsTell, NothingLost;
    MoveKeepsChannels(s, m, staleAfter);
    MoveKeepsLoop(s, m, staleAfter);
    MoveKeepsVersions(s, m, staleAfter);
    MoveLosesNothing(s, m, staleAfter);
  }

  // ----- Main results -----

  /** No lost wake-up.  At every point of every interleaving: if the loop last worked on anything but
      what the store now holds, then it is about to read the store, or it has just read the current
      contents, or a wake-up waits in its slot or is still to be left there by the writer. */
  lemma NoLostWakeUp(states: seq<State>, moves: seq<Move>, staleAfter: Time, i: nat)
    requires Run(states, moves, staleAfter) && states[0] == INITIAL && i < |states|
    ensures
      var s := states[i];
      !s.stopped && s.used != s.snapshots ==>
        || WakeUpPending(s)
        || s.phase.Subscribing? || s.phase.Reading? || s.phase.Draining?
        || (s.phase.Evaluating? && s.phase.read == s.snapshots)
  {
    RunInvariant(states, moves, staleAfter, i);
  }

  /** No message is ever sent on a closed channel, no channel is closed twice, and the loop ends only
      after its context was cancelled. */
  lemma NoSendOnClosed(states: seq<State>, moves: seq<Move>, staleAfter: Time, i: nat)
    requires Run(states, moves, staleAfter) && states[0] == INITIAL && i < |moves|
    ensures moves[i].Send? ==> !states[i].channels[moves[i].to].closed
    ensures moves[i].Close? ==> !states[i].channels[states[i].lock.id].closed
    ensures moves[i].Stop? ==> states[i].stopped
  {
    RunInvariant(states, moves, staleAfter, i);
  }

  // ----- Catching up -----

  /** The steps of the loop and of a writer or closer that already holds the lock. */
  predicate Internal(m: Move) {
    || m.Send? || m.Unlock? || m.Subscribe? || m.Read? || m.Evaluate? || m.Receive? || m.Drain? || m.Drained?
    || m.Close?
  }

  /** The steps that other subscribers may take meanwhile: they come, receive, end and are deleted. */
  predicate Harmless(m: Move) {
    m.OtherSubscribe? || m.OtherReceive? || m.OtherEnd? || m.Delete?
  }

  ghost function WakeUps(s: State): nat {
    (if Full(s) then 1 else 0) + (if s.phase != Subscribing && s.lock.Notifying? && s.loopId in s.lock.left then 1 else 0)
  }

  ghost function LockSteps(s: State): nat {
    match s.lock
    case Free => 0
    case Closing(_) => 1
    case Notifying(left) => 1 + |left|
  }

  ghost function LoopSteps(s: State): nat {
    match s.phase
    case Subscribing => 4
    case Draining => 3
    case Reading => 2
    case Evaluating(_, _) => 1
    case Waiting => 0
    case Done => 0
  }

  /** A bound on the steps still to come: a wake-up costs at most four steps of the loop, and every
      subscriber may be deleted, whose channel is then still to be closed. */
  ghost function Rank(s: State): nat {
    5 * WakeUps(s) + LoopSteps(s) + LockSteps(s) + |s.registered|
  }

  /** A step of the loop or a lock holder lowers the bound; only a subscriber that joins raises it. */
  ghost predicate Lowers(s: State, m: Move, s': State) {
    if Internal(m) then Rank(s') < Rank(s)
    else if m.OtherSubscribe? then Rank(s') == Rank(s) + 1
    else Rank(s') <= Rank(s)
  }

  lemma RankFalls(s: State, m: Move, staleAfter: Time)
    requires Inv(s) && Enabled(s, m) && (Internal(m) || Harmless(m)) && !s.stopped
    ensures Lowers(s, m, After(s, m, staleAfter))
  {
    match m
    case Send(id) => SendLowers(s, id, staleAfter);
    case Delete(id) => DeleteLowers(s, id, staleAfter);
    case Subscribe => JoinLowers(s, m, staleAfter);
    case OtherSubscribe => JoinLowers(s, m, staleAfter);
    case _ => OthersLower(s, m, staleAfter);
  }

  lemma SendLowers(s: State, id: nat, staleAfter: Time)
    requires Inv(s) && Enabled(s, Send(id))
    ensures Lowers(s, Send(id), After(s, Send(id), staleAfter))
  {
    hide LoopAttached, VersionsTell, NothingLost;
    assert s.lock.left == (s.lock.left - {id}) + {id};
  }

  lemma DeleteLowers(s: State, id: nat, staleAfter: Time)
    requires Inv(s) && Enabled(s, Delete(id)) && !s.stopped
    ensures Lowers(s, Delete(id), After(s, Delete(id), staleAfter))
  {
    hide VersionsTell, NothingLost;
    assert s.registered == (s.registered - {id}) + {id};
  }

  lemma JoinLowers(s: State, m: Move, staleAfter: Time)
    requires Inv(s) && Enabled(s, m) && (m.Subscribe? || m.OtherSubscribe?)
    ensures Lowers(s, m, After(s, m, staleAfter))
  {
    hide VersionsTell, NothingLost;
    assert s.nextId !in s.registered;
  }

  lemma OthersLower(s: State, m: Move, staleAfter: Time)
    requires Inv(s) && Enabled(s, m) && (Internal(m) || Harmless(m))
    requires !m.Send? && !m.Delete? && !m.Subscribe? && !m.OtherSubscribe?
    ensures Lowers(s, m, After(s, m, staleAfter))
  {
    hide VersionsTell, NothingLost, Effect, Notifies;
  }

  lemma NobodyCancels(s: State, m: Move, staleAfter: Time)
    requires Enabled(s, m) && (Internal(m) || Harmless(m))
    ensures After(s, m, staleAfter).stopped == s.stopped
  {
  }

  ghost function Count(moves: seq<Move>): nat {
    if moves == [] then 0 else Count(moves[..|moves| - 1]) + (if Internal(moves[|moves| - 1]) then 1 else 0)
  }

  ghost function Joined(moves: seq<Move>): nat {
    if moves == [] then 0 else Joined(moves[..|moves| - 1]) + (if moves[|moves| - 1].OtherSubscribe? then 1 else 0)
  }

  ghost predicate CaughtUp(s: State) {
    s.phase.Waiting? && s.used == s.snapshots && !Full(s) && s.lock.Free?
  }

  /** Until it has caught up, something can move: the loop, the writer, or the closer. */
  lemma SomethingMoves(s: State) returns (m: Move)
    requires Inv(s) && !s.stopped && !CaughtUp(s)
    ensures Internal(m) && Enabled(s, m)
  {
    if s.lock.Notifying? {
      if s.lock.left == {} {
        m := Unlock;
      } else {
        var id :| id in s.lock.left;
        m := Send(id);
      }
    } else if s.lock.Closing? {
      m := Close;
    } else {
      match s.phase
      case Subscribing => m := Subscribe;
      case Reading => m := Read;
      case Evaluating(_, _) => m := Evaluate;
      case Draining => m := if Full(s) then Drain else Drained;
      case Waiting => m := Receive;
    }
  }

  /** Once writers stop, the loop catches up: whatever other subscribers do meanwhile, it and the lock
      holders take at most `Rank` more steps between them and one for each subscriber that joins, and
      when they can take none, the loop waits having evaluated exactly what the store holds. */
  lemma {:induction false} CatchesUp(states: seq<State>, moves: seq<Move>, staleAfter: Time)
    requires Run(states, moves, staleAfter) && Inv(states[0]) && !states[0].stopped
    requires forall m | m in moves :: Internal(m) || Harmless(m)
    ensures Count(moves) + Rank(states[|moves|]) <= Rank(states[0]) + Joined(moves)
    ensures (forall m :: Internal(m) ==> !Enabled(states[|moves|], m)) ==> CaughtUp(states[|moves|])
    ensures !states[|moves|].stopped && Inv(states[|moves|])
    decreases |moves|
  {
    hide Inv, Rank, CaughtUp, After, Enabled, Internal, Harmless;
    var last := states[|moves|];
    RunInvariant(states, moves, staleAfter, |moves|);
    if moves != [] {
      var n := |moves| - 1;
      var m := moves[n];
      assert m in moves && forall x | x in moves[..n] :: x in moves;
      CatchesUp(states[..n + 1], moves[..n], staleAfter);
      NobodyCancels(states[n], m, staleAfter);
      RankFalls(states[n], m, staleAfter);
    }
    if !CaughtUp(last) {
      var m := SomethingMoves(last);
    }
  }

  /** The bound in numbers: two wake-ups, the loop where it is costliest, a writer under way. */
  lemma RankBound(s: State)
    requires Inv(s)
    ensures Rank(s) <= 15 + 2 * |s.registered|
  {
    if s.lock.Notifying? {
      assert s.registered == s.lock.left + (s.registered - s.lock.left);
    }
  }

  // ----- The protocol against the atomic store -----

  ghost function SlotsOf(s: State): Slots {
    map id | id in s.registered && id in s.channels :: s.channels[id].full
  }

  /** A writer's sends, in any order, with nothing received in between. */
  ghost function AllSent(s: State, order: seq<nat>, staleAfter: Time): State
    decreases |order|
  {
    if order == [] then s
    else
      var before := AllSent(s, order[..|order| - 1], staleAfter);
      if Enabled(before, Send(order[|order| - 1])) then After(before, Send(order[|order| - 1]), staleAfter) else before
  }

  lemma {:induction false} SendsSoFar(s: State, order: seq<nat>, staleAfter: Time)
    requires ChannelsSafe(s) && s.lock == Notifying(s.registered)
    requires (forall i, j | 0 <= i < j < |order| :: order[i] != order[j]) && forall id | id in order :: id in s.registered
    ensures
      var sent := AllSent(s, order, staleAfter);
      && sent.lock == Notifying(s.registered - (set id | id in order)) && sent.registered == s.registered
      && sent.channels.Keys == s.channels.Keys
      && forall id | id in s.channels ::
           sent.channels[id] == if id in order then s.channels[id].(full := true) else s.channels[id]
    decreases |order|
  {
    if order != [] {
      var before, last := order[..|order| - 1], order[|order| - 1];
      assert order == before + [last];
      SendsSoFar(s, before, staleAfter);
      assert last !in before;
      assert s.registered - (set id | id in order) == s.registered - (set id | id in before) - {last};
    } else {
      assert s.registered - (set id | id in order) == s.registered;
    }
  }

  /** A write whose sends are not interleaved with any receive does to the slots what the store's
      operation is specified to do. */
  lemma {:induction false} WriteIsAtomic(s: State, u: Update, order: seq<nat>, staleAfter: Time)
    requires ChannelsSafe(s) && s.lock.Free? && Notifies(s.snapshots, staleAfter, u)
    requires (forall i, j | 0 <= i < j < |order| :: order[i] != order[j]) && forall id :: id in order <==> id in s.registered
    ensures
      var sent := AllSent(After(s, Write(u), staleAfter), order, staleAfter);
      Enabled(sent, Unlock) && SlotsOf(sent) == Woken(SlotsOf(s))
  {
    var written := After(s, Write(u), staleAfter);
    SendsSoFar(written, order, staleAfter);
    assert s.registered - (set id | id in order) == {};
  }
}
