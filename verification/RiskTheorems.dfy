/** The circuit breaker as a state machine, and what an approval guarantees. */
module RiskTheorems {
  import opened Arithmetic
  import opened Wrappers
  import opened Reasons
  import opened Risk

  /** An approval leaves at least the reserve in both paying wallets, whatever the mode text, and so
      leaves both positive and both payments covered. */
  lemma ApprovalKeepsReserve(r: RiskState, c: Candidate)
    requires Judged(r, c).allowed
    ensures !r.open && c.quoteBalance > 0.0 && c.baseBalance > 0.0
    ensures c.quoteAfter >= c.quoteBalance * ThresholdsFor(r.mode).reserveRate > 0.0
    ensures c.baseAfter >= c.baseBalance * ThresholdsFor(r.mode).reserveRate > 0.0
  {
    var rate := ThresholdsFor(r.mode).reserveRate;
    MulStrict(0.0, c.quoteBalance, rate);
    MulStrict(0.0, c.baseBalance, rate);
  }

  datatype RiskEvent =
    | SetMode(mode: string, saved: bool)
    | Halt(reason: ReasonCode, reasons: seq<string>)
    | Evaluate(candidate: Candidate)
    | Preview(previewed: Candidate)
    | Reset

  function Next(r: RiskState, e: RiskEvent): RiskState {
    match e
    case SetMode(mode, saved) => WithMode(r, mode, saved)
    case Halt(reason, reasons) => Opened(r, reason, reasons)
    case Evaluate(c) => Evaluated(r, c)
    case Preview(_) => r
    case Reset => AfterReset(r)
  }

  function Replay(r: RiskState, events: seq<RiskEvent>): RiskState
    decreases |events|
  {
    if events == [] then r else Replay(Next(r, events[0]), events[1..])
  }

  /** The circuit is open exactly when it has been opened since the last reset: by a halt, or by a
      candidate whose session loss was past the drawdown limit of the mode then in force. */
  ghost predicate Trips(r: RiskState, e: RiskEvent) {
    e.Halt? || (e.Evaluate? && PastDrawdown(r.mode, e.candidate))
  }

  ghost predicate OpenAfter(r: RiskState, events: seq<RiskEvent>)
    decreases |events|
  {
    if events == [] then r.open
    else
      var before, last := events[..|events| - 1], events[|events| - 1];
      !last.Reset? && (Trips(Replay(r, before), last) || OpenAfter(r, before))
  }

  lemma {:induction false} ReplayLast(r: RiskState, events: seq<RiskEvent>)
    requires events != []
    ensures Replay(r, events) == Next(Replay(r, events[..|events| - 1]), events[|events| - 1])
    decreases |events|
  {
    if |events| > 1 {
      var tail := events[1..];
      ReplayLast(Next(r, events[0]), tail);
      assert events[..|events| - 1][1..] == tail[..|tail| - 1];
    } else {
      assert events[1..] == [] && events[..0] == [];
    }
  }

  lemma {:induction false} CircuitOpenIff(r: RiskState, events: seq<RiskEvent>)
    ensures Replay(r, events).open <==> OpenAfter(r, events)
    decreases |events|
  {
    if events != [] {
      ReplayLast(r, events);
      CircuitOpenIff(r, events[..|events| - 1]);
    }
  }

  ghost predicate Halts(r: RiskState) {
    r.open && r.status == Halted
  }

  lemma OpenStays(r: RiskState, e: RiskEvent)
    requires Halts(r) && !e.Reset?
    ensures Halts(Next(r, e))
  {
  }

  /** Without a reset an open circuit stays open and halted through every event, and tells every
      candidate that it is open. */
  lemma {:induction false} CircuitIsSticky(r: RiskState, events: seq<RiskEvent>, c: Candidate)
    requires Halts(r) && forall e | e in events :: !e.Reset?
    ensures Halts(Replay(r, events))
    ensures
      var verdict := Judged(Replay(r, events), c);
      !verdict.allowed && verdict.reason == RiskCircuitOpen && verdict.status == Halted
    decreases |events|
  {
    if events != [] {
      OpenStays(r, events[0]);
      CircuitIsSticky(Next(r, events[0]), events[1..], c);
    }
  }

  /** `SetMode` accepts a mode text with capitals or blanks but keeps it as given.  The thresholds in
      force are then those of the mode it names exactly when the text was already the mode's own
      name, or named the balanced mode. */
  lemma ModeTextDecides(r: RiskState, text: string)
    requires ParseMode(text).Some?
    ensures ThresholdsFor(WithMode(r, text, true).mode) == ThresholdsFor(ParseMode(text).value)
      <==> text == ParseMode(text).value || ParseMode(text).value == BALANCED
  {
    var mode := ParseMode(text).value;
    assert CONSERVATIVE[0] == 'c' && AGGRESSIVE[0] == 'a' && BALANCED[0] == 'b';
    if text == CONSERVATIVE || text == AGGRESSIVE {
      PlainMode(text);
    }
  }

  lemma PlainMode(text: string)
    requires text == CONSERVATIVE || text == AGGRESSIVE
    ensures ParseMode(text) == Some(text)
  {
    assert TrimLeft(text) == text && TrimRight(text) == text;
    assert Lower(text) == text;
  }

  /** Given in capitals, the aggressive mode is accepted and then weighed as the balanced one. */
  lemma CapitalsFallBack(r: RiskState)
    ensures ParseMode("AGGRESSIVE") == Some(AGGRESSIVE)
    ensures
      var after := WithMode(r, "AGGRESSIVE", true);
      ThresholdsFor(after.mode) == ThresholdsFor(BALANCED) != ThresholdsFor(AGGRESSIVE)
  {
    var text := "AGGRESSIVE";
    assert TrimLeft(text) == text && TrimRight(text) == text;
    assert Lower(text) == AGGRESSIVE;
    assert text[0] == 'A' && AGGRESSIVE[0] == 'a' && CONSERVATIVE[0] == 'c' && BALANCED[0] == 'b';
  }

  /** The dashboard passes on the mode it parsed, and so does the load at the start: for those the
      thresholds in force are always those of the mode named. */
  lemma ParsedModeDecides(r: RiskState, text: string)
    requires ParseMode(text).Some?
    ensures
      var mode := ParseMode(text).value;
      && ParseMode(mode) == Some(mode) && WithMode(r, mode, true).mode == mode
      && ThresholdsFor(WithMode(r, mode, true).mode) == ThresholdsFor(mode)
  {
    var mode := ParseMode(text).value;
    if mode == BALANCED {
      assert TrimLeft(mode) == mode && TrimRight(mode) == mode;
      assert Lower(mode) == mode;
    } else {
      PlainMode(mode);
    }
  }

  // ----- Reasons -----

  /** The answer to a candidate names the first limit it is past, in the order drawdown, spread, latency,
      buying wallet, selling wallet. */
  ghost predicate Answers(v: Verdict, c: Candidate, spread: real, latency: real, drawdown: real, reserve: real) {
    var buys := c.quoteBalance > 0.0 && c.quoteAfter >= c.quoteBalance * reserve;
    var sells := c.baseBalance > 0.0 && c.baseAfter >= c.baseBalance * reserve;
    if c.sessionPnl < -drawdown then
      v == Verdict(false, Halted, RiskDrawdown, ["session drawdown exceeded"])
    else if c.grossBps > spread then
      v == Verdict(false, Warning, RiskSpreadOutlier, ["gross spread outlier"])
    else if c.latencyBps > latency then
      v == Verdict(false, Warning, RiskLatency, ["latency penalty exceeded"])
    else if !buys then
      v == Verdict(false, Warning, RiskReserve, ["buy wallet reserve breached"])
    else if !sells then
      v == Verdict(false, Warning, RiskReserve, ["sell wallet reserve breached"])
    else
      v == Verdict(true, Normal, NoReason, ["within risk thresholds"])
  }

  /** What a candidate is told in each mode, by either way of asking, and what asking leaves behind: the
      answer's status and reasons, or an open breaker after a loss past the limit. */
  lemma AnswerOf(r: RiskState, c: Candidate)
    ensures
      var v := Judged(r, c);
      if r.open then
        && !v.allowed && v.status == Halted && v.reason == RiskCircuitOpen && (r.reasons != [] ==> v.reasons == r.reasons)
        && Evaluated(r, c) == r
      else
        && (r.mode == "conservative" ==> Answers(v, c, 75.0, 6.0, 50.0, 0.05))
        && (r.mode == "aggressive" ==> Answers(v, c, 250.0, 20.0, 250.0, 0.01))
        && (r.mode != "conservative" && r.mode != "aggressive" ==> Answers(v, c, 150.0, 12.0, 100.0, 0.03))
        && (if PastDrawdown(r.mode, c) then
              Evaluated(r, c) == RiskState(r.mode, Halted, v.reasons + ["manual reset required"], true, RiskDrawdown)
            else Evaluated(r, c) == r.(status := v.status, reasons := v.reasons))
  {
  }

  /** What the controls leave behind. */
  lemma ControlsLeave(r: RiskState, reason: ReasonCode, why: seq<string>, text: string, saved: bool)
    ensures
      var halted := Opened(r, reason, why);
      && halted.open && halted.status == Halted && halted.mode == r.mode
      && halted.openReason == (if reason == NoReason then RiskCircuitOpen else reason)
      && halted.reasons == (if why == [] then ["circuit breaker opened"] else why) + ["manual reset required"]
    ensures
      var reset := AfterReset(r);
      !reset.open && reset.openReason == NoReason && reset.status == Normal && reset.mode == r.mode
    ensures
      var switched := WithMode(r, text, saved);
      && switched.open == r.open && switched.openReason == r.openReason
      && (if saved && ParseMode(text).Some? then
            switched.mode == text && switched.status == (if r.open then Halted else Normal)
          else switched == r)
  {
  }
}
