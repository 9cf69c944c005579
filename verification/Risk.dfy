/** The risk controller: thresholds per mode, the assessment of one candidate, and a circuit breaker
    that stays open until a manual reset (internal/risk). */
module Risk {
  import opened Arithmetic
  import opened Wrappers
  import opened Reasons

  const CONSERVATIVE := "conservative"
  const BALANCED := "balanced"
  const AGGRESSIVE := "aggressive"

  datatype Status = Normal | Warning | Halted

  datatype Thresholds = Thresholds(maxSpreadBps: real, maxLatencyBps: real, maxDrawdown: real, reserveRate: real)

  /** Any text that is not one of the other two modes gets the balanced thresholds. */
  function ThresholdsFor(mode: string): Thresholds {
    if mode == CONSERVATIVE then Thresholds(75.0, 6.0, 50.0, 0.05)
    else if mode == AGGRESSIVE then Thresholds(250.0, 20.0, 250.0, 0.01)
    else Thresholds(150.0, 12.0, 100.0, 0.03)
  }

  function Lower(text: string): (r: string)
    ensures |r| == |text|
  {
    seq(|text|, i requires 0 <= i < |text| =>
      if 'A' <= text[i] <= 'Z' then (text[i] as int + 32) as char else text[i])
  }

  predicate IsSpace(c: char) {
    c == ' ' || '\t' <= c <= '\r'
  }

  function TrimLeft(text: string): string {
    if text != [] && IsSpace(text[0]) then TrimLeft(text[1..]) else text
  }

  function TrimRight(text: string): string {
    if text != [] && IsSpace(text[|text| - 1]) then TrimRight(text[..|text| - 1]) else text
  }

  /** The mode a text names, for ASCII texts. */
  function ParseMode(text: string): Option<string> {
    var mode := Lower(TrimRight(TrimLeft(text)));
    if mode == CONSERVATIVE || mode == BALANCED || mode == AGGRESSIVE then Some(mode) else None
  }

  datatype Candidate = Candidate(
    grossBps: real,
    latencyBps: real,
    sessionPnl: real,
    quoteBalance: real,
    quoteAfter: real,
    baseBalance: real,
    baseAfter: real)

  datatype Verdict = Verdict(allowed: bool, status: Status, reason: ReasonCode, reasons: seq<string>)

  datatype RiskState = RiskState(
    mode: string,
    status: Status,
    reasons: seq<string>,
    open: bool,
    openReason: ReasonCode)

  predicate ViolatesReserve(start: real, after: real, rate: real) {
    start <= 0.0 || after < start * rate
  }

  function Assess(c: Candidate, t: Thresholds): Verdict {
    if c.sessionPnl < 0.0 && Abs(c.sessionPnl) > t.maxDrawdown then
      Verdict(false, Halted, RiskDrawdown, ["session drawdown exceeded"])
    else if c.grossBps > t.maxSpreadBps then
      Verdict(false, Warning, RiskSpreadOutlier, ["gross spread outlier"])
    else if c.latencyBps > t.maxLatencyBps then
      Verdict(false, Warning, RiskLatency, ["latency penalty exceeded"])
    else if ViolatesReserve(c.quoteBalance, c.quoteAfter, t.reserveRate) then
      Verdict(false, Warning, RiskReserve, ["buy wallet reserve breached"])
    else if ViolatesReserve(c.baseBalance, c.baseAfter, t.reserveRate) then
      Verdict(false, Warning, RiskReserve, ["sell wallet reserve breached"])
    else
      Verdict(true, Normal, NoReason, ["within risk thresholds"])
  }

  function OpenVerdict(r: RiskState): Verdict {
    Verdict(false, Halted, RiskCircuitOpen, if r.reasons == [] then ["circuit breaker open"] else r.reasons)
  }

  /** What a candidate is told, in either way of asking. */
  function Judged(r: RiskState, c: Candidate): Verdict {
    if r.open then OpenVerdict(r) else Assess(c, ThresholdsFor(r.mode))
  }

  function Opened(r: RiskState, reason: ReasonCode, reasons: seq<string>): RiskState {
    r.(open := true,
       openReason := if reason == NoReason then RiskCircuitOpen else reason,
       status := Halted,
       reasons := (if reasons == [] then ["circuit breaker opened"] else reasons) + ["manual reset required"])
  }

  /** What asking with `Evaluate` leaves behind. */
  function Evaluated(r: RiskState, c: Candidate): RiskState {
    if r.open then r
    else
      var verdict := Assess(c, ThresholdsFor(r.mode));
      if verdict.status == Halted then Opened(r, verdict.reason, verdict.reasons)
      else r.(status := verdict.status, reasons := verdict.reasons)
  }

  function WithMode(r: RiskState, mode: string, saved: bool): RiskState {
    if ParseMode(mode).None? || !saved then r
    else if r.open then
      r.(mode := mode, status := Halted,
         reasons := ["risk mode updated while circuit remains open", "manual reset required"])
    else r.(mode := mode, status := Normal, reasons := ["risk mode updated"])
  }

  function AfterReset(r: RiskState): RiskState {
    r.(open := false, openReason := NoReason, status := Normal, reasons := ["circuit reset manually"])
  }

  function Started(mode: string): RiskState {
    RiskState(mode, Normal, ["within risk thresholds"], false, NoReason)
  }

  // ----- What an answer means, in the numbers of each mode -----

  /** Nothing about the candidate is past these limits, and both wallets that pay keep their reserve. */
  ghost predicate Passes(c: Candidate, spread: real, latency: real, drawdown: real, reserve: real) {
    && c.sessionPnl >= -drawdown && c.grossBps <= spread && c.latencyBps <= latency
    && c.quoteBalance > 0.0 && c.quoteAfter >= c.quoteBalance * reserve
    && c.baseBalance > 0.0 && c.baseAfter >= c.baseBalance * reserve
  }

  ghost predicate Acceptable(r: RiskState, c: Candidate) {
    && !r.open
    && if r.mode == "conservative" then Passes(c, 75.0, 6.0, 50.0, 0.05)
       else if r.mode == "aggressive" then Passes(c, 250.0, 20.0, 250.0, 0.01)
       else Passes(c, 150.0, 12.0, 100.0, 0.03)
  }

  /** The session's loss is past the drawdown limit of the mode. */
  ghost predicate PastDrawdown(mode: string, c: Candidate) {
    c.sessionPnl < (if mode == "conservative" then -50.0 else if mode == "aggressive" then -250.0 else -100.0)
  }

  lemma AllowedIff(r: RiskState, c: Candidate)
    ensures Judged(r, c).allowed <==> Acceptable(r, c)
    ensures Evaluated(r, c).open <==> r.open || PastDrawdown(r.mode, c)
  {
  }

  class Controller {
    var mode: string
    var status: Status
    var reasons: seq<string>
    var open: bool
    var openReason: ReasonCode

    function State(): RiskState
      reads this
    {
      RiskState(mode, status, reasons, open, openReason)
    }

    constructor (stored: string)
      ensures State() == Started(stored)
    {
      mode, status, reasons := stored, Normal, ["within risk thresholds"];
      open, openReason := false, NoReason;
    }

    /** `saved` says whether the mode store accepted the mode; the mode text is kept as given. */
    method SetMode(newMode: string, saved: bool) returns (ok: bool)
      modifies this
      ensures ok == (ParseMode(newMode).Some? && saved)
      ensures State() == WithMode(old(State()), newMode, saved)
    {
      if ParseMode(newMode).None? || !saved {
        return false;
      }
      mode := newMode;
      if open {
        status := Halted;
        reasons := ["risk mode updated while circuit remains open", "manual reset required"];
      } else {
        status := Normal;
        reasons := ["risk mode updated"];
      }
      return true;
    }

    method Reset()
      modifies this
      ensures State() == AfterReset(old(State()))
    {
      open, openReason, status := false, NoReason, Normal;
      reasons := ["circuit reset manually"];
    }

    method Halt(reason: ReasonCode, why: seq<string>)
      modifies this
      ensures State() == Opened(old(State()), reason, why)
    {
      open := true;
      openReason := if reason == NoReason then RiskCircuitOpen else reason;
      status := Halted;
      reasons := (if why == [] then ["circuit breaker opened"] else why) + ["manual reset required"];
    }

    method Evaluate(c: Candidate) returns (verdict: Verdict)
      modifies this
      ensures verdict == Judged(old(State()), c)
      ensures State() == Evaluated(old(State()), c)
      ensures verdict.allowed <==> old(Acceptable(State(), c))
      ensures open <==> old(open) || PastDrawdown(old(mode), c)
    {
      AllowedIff(State(), c);
      if open {
        return OpenVerdict(State());
      }
      verdict := Assess(c, ThresholdsFor(mode));
      if verdict.status == Halted {
        Halt(verdict.reason, verdict.reasons);
        return;
      }
      status := verdict.status;
      reasons := verdict.reasons;
    }

    method Preview(c: Candidate) returns (verdict: Verdict)
      ensures verdict == Judged(State(), c)
      ensures verdict.allowed <==> Acceptable(State(), c)
    {
      AllowedIff(State(), c);
      if open {
        return OpenVerdict(State());
      }
      verdict := Assess(c, ThresholdsFor(mode));
    }
  }
}
