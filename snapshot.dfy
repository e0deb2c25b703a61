/** The reporting loop: once per poll period it drains the pulse counter,
    decides from the tap level, the flow and the bypass flag whether water is
    leaking (tolerating one excess sample through the `ALLOWANCE` counter),
    reports to the server and applies the command the server answers with. */
module Snapshot {
  import opened Shared
  import opened Valve
  import Flow

  /** Ticks per period above which a closed tap means a leak candidate. */
  const LEAK_THRESHOLD: int := 10

  /** The server's answer to a report. */
  datatype Command = None | Open | Close

  /** What `ping` gives back: a command, or a transport/protocol failure. */
  datatype Reply = Answered(command: Command) | Failed

  /** The body of a `Ping` (the device address is left out). */
  datatype Report = Report(leak: bool, flow: int)

  datatype Transmission = NotSent | Sent(report: Report)

  /** What the loop does to the valve. */
  datatype Action = Keep | Start | Stop

  datatype Decision = Decision(leak: bool, allowance: int, action: Action)

  /** The tap is closed and yet more than the threshold has flowed. */
  predicate Excess(tapClosed: bool, flow: int) {
    tapClosed && flow > LEAK_THRESHOLD
  }

  /** The leak decision of one period, with the allowance it leaves behind
      and what it does to the valve. */
  function Decide(tapClosed: bool, flow: int, bypassed: bool, allowance: int): (d: Decision)
    requires 0 <= allowance < U8
    ensures 0 <= d.allowance < U8
    ensures d.leak <==> Excess(tapClosed, flow) && (bypassed || allowance > 0)
    ensures d.action == Start <==> Excess(tapClosed, flow) && bypassed
    ensures d.action == Stop <==> Excess(tapClosed, flow) && !bypassed && allowance > 0
    ensures !tapClosed ==> d.allowance == 0
    ensures tapClosed && !(Excess(tapClosed, flow) && !bypassed) ==> d.allowance == allowance
    ensures Excess(tapClosed, flow) && !bypassed ==> d.allowance % U8 == (allowance + 1) % U8
  {
    if tapClosed then
      if flow > LEAK_THRESHOLD then
        if bypassed then Decision(true, allowance, Start)
        else if allowance > 0 then Decision(true, WrappingInc(allowance, U8), Stop)
        else Decision(false, WrappingInc(allowance, U8), Keep)
      else Decision(false, allowance, Keep)
    else Decision(false, 0, Keep)
  }

  /** Ticks per second over a period of `pollSecs` seconds, truncated. */
  function Rate(ticks: int, pollSecs: int): (r: int)
    requires 0 <= ticks && pollSecs > 0
    ensures 0 <= r <= ticks
    ensures r * pollSecs <= ticks < (r + 1) * pollSecs
  {
    var r := ticks / pollSecs;
    assert r * pollSecs <= r * pollSecs + ticks % pollSecs;
    assert r <= r * pollSecs;
    r
  }

  /** The valve call a decision makes, if any: `start_flow()?` for `Start`,
      `stop_flow()?` for `Stop`, nothing for `Keep`. */
  function Perform(o: Outputs, a: Action, f: Faults): (r: Driven)
    ensures a == Keep ==> r == Driven(o, Ok)
    ensures r.status == Err <==> a != Keep && (f.controlFails || f.ledFails)
    ensures r.status == Ok && a == Start ==> r.outputs == Flowing
    ensures r.status == Ok && a == Stop ==> r.outputs == Shut
    ensures a != Keep && !f.controlFails ==> r.outputs.control == (a == Start)
    ensures f.controlFails ==> r.outputs == o
  {
    match a
    case Keep => Driven(o, Ok)
    case Start => Drive(o, true, f)
    case Stop => Drive(o, false, f)
  }

  /** The state the loop reads and writes: the pulse counter, `ALLOWANCE`,
      the shared bypass flag and the valve outputs. */
  datatype LoopState = LoopState(ticks: int, allowance: int, bypass: bool, valve: Outputs)

  predicate Bounded(s: LoopState) {
    0 <= s.ticks < U16 && 0 <= s.allowance < U8
  }

  /** A server command applied to the state, with the actuation's status. */
  function ApplyCommand(s: LoopState, cmd: Command, f: Faults): (r: (LoopState, Status))
    requires Bounded(s)
    ensures Bounded(r.0) && r.0.ticks == s.ticks
    ensures cmd == None ==> r == (s, Ok)
    ensures cmd != None ==> r.0.allowance == 0
    ensures r.0.bypass == (s.bypass || cmd == Open)
    ensures cmd == Open ==> r.1 == Drive(s.valve, true, f).status && r.0.valve == Drive(s.valve, true, f).outputs
    ensures cmd == Close ==> r.1 == Drive(s.valve, false, f).status && r.0.valve == Drive(s.valve, false, f).outputs
  {
    match cmd
    case None => (s, Ok)
    case Open =>
      var d := Drive(s.valve, true, f);
      (s.(bypass := true, allowance := 0, valve := d.outputs), d.status)
    case Close =>
      var d := Drive(s.valve, false, f);
      (s.(allowance := 0, valve := d.outputs), d.status)
  }

  /** `Command::None` changes nothing. */
  lemma NoneChangesNothing(s: LoopState, f: Faults)
    requires Bounded(s)
    ensures ApplyCommand(s, None, f) == (s, Ok)
  {
  }

  /** A successful remote open grants bypass, clears the allowance and lets
      water flow. */
  lemma OpenGrantsBypass(s: LoopState)
    requires Bounded(s)
    ensures ApplyCommand(s, Open, NoFaults) == (s.(bypass := true, allowance := 0, valve := Flowing), Ok)
  {
  }

  /** A successful remote close clears the allowance and shuts the valve but
      keeps the bypass flag, and a second close changes nothing more. */
  lemma CloseIdempotent(s: LoopState)
    requires Bounded(s)
    ensures ApplyCommand(s, Close, NoFaults) == (s.(allowance := 0, valve := Shut), Ok)
    ensures ApplyCommand(ApplyCommand(s, Close, NoFaults).0, Close, NoFaults) == ApplyCommand(s, Close, NoFaults)
  {
  }

  datatype Outcome = Outcome(state: LoopState, sent: Transmission, status: Status)

  /** One iteration of the loop body. `first` and `second` are the faults of
      the actuation the leak decision makes and of the one the command makes.
      An error ends the loop (and the task). */
  function Iterate(s: LoopState, pollSecs: int, tapLow: bool, reply: Reply, first: Faults, second: Faults): (o: Outcome)
    requires Bounded(s) && pollSecs > 0
    ensures Bounded(o.state) && o.state.ticks == 0
    ensures o.sent.Sent? ==> o.sent.report == Report(Decide(tapLow, s.ticks, s.bypass, s.allowance).leak, Rate(s.ticks, pollSecs))
    ensures o.status == Ok ==> o.sent.Sent? && reply.Answered?
    ensures first == NoFaults && second == NoFaults && reply.Answered? ==> o.status == Ok
    ensures o.state.bypass == (s.bypass || (o.sent.Sent? && reply == Answered(Open)))
    ensures o.status == Ok && reply.Answered? && reply.command != None ==>
      o.state.allowance == 0 && o.state.valve == (if reply.command == Open then Flowing else Shut)
  {
    var d := Decide(tapLow, s.ticks, s.bypass, s.allowance);
    var dv := Perform(s.valve, d.action, first);
    var decided := LoopState(0, d.allowance, s.bypass, dv.outputs);
    if dv.status == Err then Outcome(decided, NotSent, Err)
    else
      var report := Sent(Report(d.leak, Rate(s.ticks, pollSecs)));
      match reply
      case Failed => Outcome(decided, report, Err)
      case Answered(cmd) =>
        var (after, status) := ApplyCommand(decided, cmd, second);
        Outcome(after, report, status)
  }

  /** An open tap: no leak, and the allowance is back to 0, however long the
      streak before it. */
  lemma OpenTapResets(s: LoopState, pollSecs: int, first: Faults, second: Faults)
    requires Bounded(s) && pollSecs > 0
    ensures var o := Iterate(s, pollSecs, false, Answered(None), first, second);
      o == Outcome(s.(ticks := 0, allowance := 0), Sent(Report(false, Rate(s.ticks, pollSecs))), Ok)
  {
  }

  /** A closed tap with little flow: no leak, allowance and valve untouched. */
  lemma LowFlowKeepsState(s: LoopState, pollSecs: int, first: Faults, second: Faults)
    requires Bounded(s) && pollSecs > 0 && s.ticks <= LEAK_THRESHOLD
    ensures var o := Iterate(s, pollSecs, true, Answered(None), first, second);
      o == Outcome(s.(ticks := 0), Sent(Report(false, Rate(s.ticks, pollSecs))), Ok)
  {
  }

  /** Excess flow while bypassed: a leak is reported, the valve is driven to
      flowing and the allowance is kept. */
  lemma BypassedExcessFlows(s: LoopState, pollSecs: int, second: Faults)
    requires Bounded(s) && pollSecs > 0 && s.ticks > LEAK_THRESHOLD && s.bypass
    ensures var o := Iterate(s, pollSecs, true, Answered(None), NoFaults, second);
      o == Outcome(s.(ticks := 0, valve := Flowing), Sent(Report(true, Rate(s.ticks, pollSecs))), Ok)
  {
  }

  /** Excess flow without bypass: the allowance grows by one (wrapping), and
      the valve is shut and a leak reported exactly when it was already
      positive. */
  lemma UnbypassedExcessCounts(s: LoopState, pollSecs: int, second: Faults)
    requires Bounded(s) && pollSecs > 0 && s.ticks > LEAK_THRESHOLD && !s.bypass
    ensures var o := Iterate(s, pollSecs, true, Answered(None), NoFaults, second);
      o.status == Ok &&
      o.state == s.(ticks := 0, allowance := WrappingInc(s.allowance, U8),
                    valve := if s.allowance > 0 then Shut else s.valve) &&
      o.sent == Sent(Report(s.allowance > 0, Rate(s.ticks, pollSecs)))
  {
  }

  /** A control write that fails during the leak decision ends the loop before
      anything is reported, with the valve as it was. */
  lemma DecisionFaultIsFatal(s: LoopState, pollSecs: int, tapLow: bool, reply: Reply, first: Faults, second: Faults)
    requires Bounded(s) && pollSecs > 0 && Decide(tapLow, s.ticks, s.bypass, s.allowance).action != Keep
    requires first.controlFails
    ensures var o := Iterate(s, pollSecs, tapLow, reply, first, second);
      o.status == Err && o.sent == NotSent && o.state.valve == s.valve
  {
  }

  /** A successful open from the server has the last word in a pass: whatever
      the leak check decided, the pass ends bypassed, flowing and with a clear
      allowance. */
  lemma OpenCommandHasLastWord(s: LoopState, pollSecs: int, tapLow: bool)
    requires Bounded(s) && pollSecs > 0
    ensures var o := Iterate(s, pollSecs, tapLow, Answered(Open), NoFaults, NoFaults);
      o.status == Ok && o.state == LoopState(0, 0, true, Flowing) &&
      o.sent == Sent(Report(Decide(tapLow, s.ticks, s.bypass, s.allowance).leak, Rate(s.ticks, pollSecs)))
  {
  }

  /** Likewise a successful close: the pass ends shut with a clear allowance,
      and the bypass flag is what it was. */
  lemma CloseCommandHasLastWord(s: LoopState, pollSecs: int, tapLow: bool)
    requires Bounded(s) && pollSecs > 0
    ensures var o := Iterate(s, pollSecs, tapLow, Answered(Close), NoFaults, NoFaults);
      o.status == Ok && o.state == LoopState(0, 0, s.bypass, Shut) &&
      o.sent == Sent(Report(Decide(tapLow, s.ticks, s.bypass, s.allowance).leak, Rate(s.ticks, pollSecs)))
  {
  }

  /** A failed LED write during the leak decision is just as fatal, but the
      control pin has already been driven to the requested level. */
  lemma DecisionLedFaultIsFatal(s: LoopState, pollSecs: int, tapLow: bool, reply: Reply, first: Faults, second: Faults)
    requires Bounded(s) && pollSecs > 0 && Decide(tapLow, s.ticks, s.bypass, s.allowance).action != Keep
    requires !first.controlFails && first.ledFails
    ensures var o := Iterate(s, pollSecs, tapLow, reply, first, second);
      o.status == Err && o.sent == NotSent &&
      o.state.valve == Outputs(Decide(tapLow, s.ticks, s.bypass, s.allowance).action == Start, s.valve.led)
  {
  }

  /** What happens between two iterations: `n` pulses reach the counter, one
      wrapping increment at a time. */
  function Accumulate(s: LoopState, n: nat): (r: LoopState)
    requires Bounded(s)
    ensures Bounded(r) && r == s.(ticks := (s.ticks + n) % U16)
  {
    Flow.AddTicksWraps(s.ticks, n);
    s.(ticks := Flow.AddTicks(s.ticks, n))
  }

  /** One poll period: the pulses counted during it and the inputs of the
      iteration that ends it. */
  datatype Period = Period(pulses: nat, tapLow: bool, reply: Reply, first: Faults, second: Faults)

  datatype RunOutcome = RunOutcome(state: LoopState, reports: seq<Report>, status: Status)

  /** The loop over a sequence of periods, stopping at the first error. */
  function Run(s: LoopState, pollSecs: int, ps: seq<Period>): (r: RunOutcome)
    requires Bounded(s) && pollSecs > 0
    ensures Bounded(r.state)
    ensures |r.reports| <= |ps|
    decreases |ps|
  {
    if ps == [] then RunOutcome(s, [], Ok)
    else
      var prev := Run(s, pollSecs, ps[..|ps| - 1]);
      if prev.status == Err then prev
      else
        var p := ps[|ps| - 1];
        var o := Iterate(Accumulate(prev.state, p.pulses), pollSecs, p.tapLow, p.reply, p.first, p.second);
        RunOutcome(o.state, prev.reports + (if o.sent.Sent? then [o.sent.report] else []), o.status)
  }

  /** Without hardware or network failures the loop never stops and sends
      exactly one report per period. */
  lemma {:induction false} OneReportPerPeriod(s: LoopState, pollSecs: int, ps: seq<Period>)
    requires Bounded(s) && pollSecs > 0
    requires forall i :: 0 <= i < |ps| ==> ps[i].reply.Answered? && ps[i].first == NoFaults && ps[i].second == NoFaults
    ensures Run(s, pollSecs, ps).status == Ok && |Run(s, pollSecs, ps).reports| == |ps|
    decreases |ps|
  {
    if ps != [] {
      OneReportPerPeriod(s, pollSecs, ps[..|ps| - 1]);
    }
  }

  /** A leak candidate with no bypass: closed tap, excess pulses, no command
      and no actuation fault. */
  predicate Candidate(p: Period) {
    p.tapLow && LEAK_THRESHOLD < p.pulses < U16 && p.reply == Answered(None) && p.first == NoFaults
  }

  lemma SmallTicks(n: int)
    requires 0 <= n < U16
    ensures (0 + n) % U16 == n
  {
  }

  lemma StreakCount(k: int)
    requires 1 <= k <= U8
    ensures (k - 1) % U8 == k - 1
    ensures WrappingInc(k - 1, U8) == k % U8
  {
  }

  /** From a zero allowance, a run of leak candidates (at most 256) is
      tolerated for the first period only: every later period reports a leak
      and leaves the valve shut, and the allowance counts the periods modulo
      256. */
  lemma {:induction false} StreakShutsValve(s: LoopState, pollSecs: int, ps: seq<Period>)
    requires Bounded(s) && pollSecs > 0 && s.ticks == 0 && s.allowance == 0 && !s.bypass
    requires 1 <= |ps| <= U8
    requires forall i :: 0 <= i < |ps| ==> Candidate(ps[i])
    ensures var r := Run(s, pollSecs, ps);
      r.status == Ok && |r.reports| == |ps| &&
      (forall i :: 0 <= i < |ps| ==> r.reports[i] == Report(i >= 1, Rate(ps[i].pulses, pollSecs))) &&
      r.state == LoopState(0, |ps| % U8, false, if |ps| >= 2 then Shut else s.valve)
    decreases |ps|
  {
    var last := ps[|ps| - 1];
    SmallTicks(last.pulses);
    if |ps| == 1 {
      assert ps[..0] == [];
    } else {
      var init := ps[..|ps| - 1];
      StreakShutsValve(s, pollSecs, init);
      var prev := Run(s, pollSecs, init);
      StreakCount(|ps|);
      assert prev.state.allowance == |ps| - 1;
      var o := Iterate(Accumulate(prev.state, last.pulses), pollSecs, true, Answered(None), NoFaults, last.second);
      UnbypassedExcessCounts(Accumulate(prev.state, last.pulses), pollSecs, last.second);
      assert o.state.allowance == WrappingInc(|ps| - 1, U8);
      assert Run(s, pollSecs, ps).reports == prev.reports + [Report(true, Rate(last.pulses, pollSecs))];
    }
  }

  /** The `u8` allowance wraps: after 256 candidates in a row it is back to
      0, so the 257th candidate is reported as no leak (the valve stays shut). */
  lemma AllowanceWrapForgivesOnePeriod(s: LoopState, pollSecs: int, ps: seq<Period>)
    requires Bounded(s) && pollSecs > 0 && s.ticks == 0 && s.allowance == 0 && !s.bypass
    requires |ps| == U8 + 1
    requires forall i :: 0 <= i < |ps| ==> Candidate(ps[i])
    ensures var r := Run(s, pollSecs, ps);
      r.status == Ok && |r.reports| == |ps| && r.reports[U8] == Report(false, Rate(ps[U8].pulses, pollSecs)) &&
      r.state.valve == Shut && r.state.allowance == 1
  {
    var init := ps[..U8];
    StreakShutsValve(s, pollSecs, init);
    SmallTicks(ps[U8].pulses);
    var prev := Run(s, pollSecs, init);
    UnbypassedExcessCounts(Accumulate(prev.state, ps[U8].pulses), pollSecs, ps[U8].second);
  }

  /** While bypass is granted, every excess period reports a leak and the
      valve stays (or is driven) flowing; the allowance never moves. */
  lemma {:induction false} BypassKeepsFlowing(s: LoopState, pollSecs: int, ps: seq<Period>)
    requires Bounded(s) && pollSecs > 0 && s.ticks == 0 && s.bypass
    requires 1 <= |ps|
    requires forall i :: 0 <= i < |ps| ==> ps[i].tapLow && LEAK_THRESHOLD < ps[i].pulses < U16 && ps[i].reply == Answered(None) && ps[i].first == NoFaults
    ensures var r := Run(s, pollSecs, ps);
      r.status == Ok && |r.reports| == |ps| &&
      (forall i :: 0 <= i < |ps| ==> r.reports[i].leak) &&
      r.state == LoopState(0, s.allowance, true, Flowing)
    decreases |ps|
  {
    var last := ps[|ps| - 1];
    SmallTicks(last.pulses);
    if |ps| == 1 {
      assert ps[..0] == [];
    } else {
      var init := ps[..|ps| - 1];
      BypassKeepsFlowing(s, pollSecs, init);
      var prev := Run(s, pollSecs, init);
      BypassedExcessFlows(Accumulate(prev.state, last.pulses), pollSecs, last.second);
    }
  }

  /** The `report` task's state: `ALLOWANCE` and the cells and outputs it
      shares or owns. */
  class Reporter {
    /** `POLL_QUANTUM.as_secs()`. */
    const pollSecs: nat
    var allowance: int
    const counter: Flow.FlowCounter
    const shouldBypass: AtomicFlag
    const valve: ValveSystem

    ghost predicate Valid()
      reads this, counter
    {
      pollSecs > 0 && 0 <= allowance < U8 && counter.Valid()
    }

    ghost function State(): LoopState
      reads this, counter, shouldBypass, valve
    {
      LoopState(counter.ticks, allowance, shouldBypass.value, valve.Levels())
    }

    constructor (pollSecs: nat, counter: Flow.FlowCounter, shouldBypass: AtomicFlag, valve: ValveSystem)
      requires pollSecs > 0 && counter.Valid()
      ensures Valid() && allowance == 0
      ensures this.pollSecs == pollSecs && this.counter == counter
      ensures this.shouldBypass == shouldBypass && this.valve == valve
    {
      this.pollSecs := pollSecs;
      this.allowance := 0;
      this.counter := counter;
      this.shouldBypass := shouldBypass;
      this.valve := valve;
    }

    /** One pass of the `report` loop after the timer fires. `tapLow` is the
        tap pin's level, `reply` what `ping` returns. */
    method Step(tapLow: bool, reply: Reply, first: Faults, second: Faults) returns (sent: Transmission, status: Status)
      requires Valid()
      modifies this, counter, shouldBypass, valve
      ensures Valid()
      ensures counter.history == old(counter.history) + [Flow.Take]
      ensures Outcome(State(), sent, status) == Iterate(old(State()), pollSecs, tapLow, reply, first, second)
    {
      var flow := counter.TakeTicks();
      var unit := Rate(flow, pollSecs);
      var leak;
      leak, status := CheckLeak(tapLow, flow, first);
      if status == Err {
        return NotSent, Err;
      }
      sent := Sent(Report(leak, unit));
      match reply
      case Failed =>
        status := Err;
      case Answered(command) =>
        status := Obey(command, second);
    }

    /** The leak check of one pass, on the ticks just drained. */
    method CheckLeak(tapLow: bool, flow: int, first: Faults) returns (leak: bool, status: Status)
      requires 0 <= allowance < U8
      modifies this, valve
      ensures var d := Decide(tapLow, flow, shouldBypass.value, old(allowance));
        leak == d.leak && allowance == d.allowance &&
        Driven(valve.Levels(), status) == Perform(old(valve.Levels()), d.action, first)
    {
      status := Ok;
      if tapLow {
        if flow > LEAK_THRESHOLD {
          if shouldBypass.Load() {
            status := valve.StartFlow(first);
            leak := true;
          } else {
            var previous := allowance;
            allowance := WrappingInc(allowance, U8);
            if previous > 0 {
              status := valve.StopFlow(first);
              leak := true;
            } else {
              leak := false;
            }
          }
        } else {
          leak := false;
        }
      } else {
        allowance := 0;
        leak := false;
      }
    }

    /** Carrying out the server's command. */
    method Obey(command: Command, second: Faults) returns (status: Status)
      requires 0 <= allowance < U8
      modifies this, shouldBypass, valve
      ensures var s := LoopState(0, old(allowance), old(shouldBypass.value), old(valve.Levels()));
        (LoopState(0, allowance, shouldBypass.value, valve.Levels()), status) == ApplyCommand(s, command, second)
    {
      match command
      case None =>
        status := Ok;
      case Open =>
        shouldBypass.Store(true);
        allowance := 0;
        status := valve.StartFlow(second);
      case Close =>
        allowance := 0;
        status := valve.StopFlow(second);
    }
  }
}
