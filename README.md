# metro-tap leak controller — a Dafny model

This project models the decision logic of the metro-tap water-valve
controller. The firmware runs on an ESP32. A flow sensor, a tap switch and a
bypass button feed it. It drives a shut-off valve and its LED, and it reports
to a server that can answer with a command.

The model covers five small state machines. They share a few cells.

- **Flow counter** (`Flow`, `src/flow.rs`). `TICKS` is a `u16`. The sensor
  task adds one per rising edge, wrapping on overflow. `take_ticks` drains it
  to zero and returns what it held. `FlowCounter` keeps a ghost history of
  pulses and drains. Its invariant ties the counter to `Replay` of that
  history. The lemmas prove that no pulse is lost or counted twice across
  drains, modulo 2^16.
- **Valve** (`Valve`, `src/valve.rs`). `start_flow` and `stop_flow` write the
  control pin first. They write the LED only if that write succeeded.
  Hardware write failures are parameters (`Faults`). A rejected write leaves
  the pin's level unchanged. `Drive` is the pure specification and the
  `ValveSystem` methods are proved against it.
- **Reporting loop** (`Snapshot`, `src/snapshot.rs`). One pass of the `report`
  loop does the following:
  - drain the counter;
  - compute the rate by truncating division by the poll period;
  - make the leak decision (`Decide`) from the tap pin, the threshold of 10
    raw ticks, the bypass flag and the `u8` `ALLOWANCE`;
  - report;
  - apply the server's `Command` (`ApplyCommand`).

  `Iterate` is that pass as a function. `Reporter.Step` is the same pass over
  the shared objects, and its `ensures` ties it to `Iterate`. `Run` chains
  periods, with the pulses counted between them, and stops at the first
  error. The lemmas about `Run` cover the leak streak, the bypass case and
  one report per period.
- **Bypass watcher** (`Button`, `src/button.rs`). On each button edge it swaps
  the shared flag to false. It sends the cancellation notice only if the flag
  was set. Its frame is the flag alone, so it cannot touch the valve or the
  loop's allowance.
- **Tap toggle** (`Tap`, `src/button/tap.rs`). `TAP` is seeded from the pin
  level and flipped with `fetch_xor(true)` on every rising edge. `is_on`
  reads it.

Atomics with `Relaxed` ordering are plain fields. Each task step runs to
completion before the next event is handled. `Shared.AtomicFlag` is the
`Arc<AtomicBool>` that `report` and `deactivate_bypass_mode` share.

Points of the code's behaviour that a reader might not expect, and which the
model keeps:

- When a closed tap sees excess flow under bypass, the loop still calls
  `start_flow()?` (src/snapshot.rs:39-40).
- The tolerance is one period: a leak is acted on when `ALLOWANCE` was already
  positive before its `fetch_add(1)` (src/snapshot.rs:44).
- The threshold of 10 is compared with the raw tick count `flow`, not with the
  per-second rate `unit` (src/snapshot.rs:38).
- A failed bypass-cancellation notice ends the watcher task through `?`
  (src/button.rs:20).
- `ALLOWANCE` is a `u8` and wraps. After 256 leak candidates in a row it is 0
  again, so the 257th is reported as no leak while the valve stays shut
  (`Snapshot.AllowanceWrapForgivesOnePeriod`).

## Model

| member | source | states |
|---|---|---|
| `Shared.WrappingInc` | src/flow.rs:14-18 | an unsigned `fetch_add(1)`: the result stays in range and is one more, except that the largest value wraps to 0 |
| `Shared.AtomicFlag.Swap` | src/button.rs:18 | returns the previous value and leaves the new one |
| `Shared.AtomicFlag.Load` | src/snapshot.rs:39 | reads the value the last store left |
| `Shared.AtomicFlag.Store` | src/snapshot.rs:72 | the flag holds the stored value |
| `Flow.Replay` | src/flow.rs:4-19 | the counter after any history of pulses and drains stays within the `u16` range |
| `Flow.NoPulseLost` | src/flow.rs:6-18 | the sum of all drained values plus the counter equals the number of pulses, modulo 2^16: nothing lost, nothing counted twice |
| `Flow.AddTicks` | src/flow.rs:14-18 | repeated wrapping increments never leave the `u16` range |
| `Flow.AddTicksWraps` | src/flow.rs:14-18 | n wrapping increments add n modulo 65536 |
| `Flow.ReplayBurst` | src/flow.rs:16-18 | n pulses after any history move only the counter, by n increments |
| `Flow.PulsesAccumulate` | src/flow.rs:14-18 | n pulses add n to the counter modulo 65536 and never fail or touch past drains |
| `Flow.DrainReturnsPulsesSinceLastDrain` | src/flow.rs:6-9 | a drain returns exactly the pulses since the previous drain (mod 2^16) and leaves 0 |
| `Flow.SecondDrainIsZero` | src/flow.rs:8 | two drains with no pulse between: the first returns the counter, the second 0 |
| `Flow.FlowCounter.constructor` | src/flow.rs:4 | the static starts at 0 with an empty history |
| `Flow.FlowCounter.RecordPulse` | src/flow.rs:16-18 | one rising edge adds one tick (wrapping) and keeps the counter consistent with its history |
| `Flow.FlowCounter.TakeTicks` | src/flow.rs:6-9 | returns the value before the call, leaves 0, and records exactly one drain |
| `Valve.Drive` | src/valve.rs:10-18 | success iff both writes succeed; on success the outputs are Flowing/Shut and the LED is the inverse of control; a failed control write leaves both pins untouched; a failed LED write leaves the control output driven |
| `Valve.DriveIdempotent` | src/valve.rs:10-18 | driving the valve the same way twice equals driving it once |
| `Valve.SuccessMirrors` | src/valve.rs:10-18 | after any successful actuation, control equals the requested level and the LED is its inverse |
| `Valve.ValveSystem.StartFlow` | src/valve.rs:10-13 | the pin levels and the status are those `Drive` gives for opening |
| `Valve.ValveSystem.StopFlow` | src/valve.rs:15-18 | the pin levels and the status are those `Drive` gives for closing |
| `Snapshot.Decide` | src/snapshot.rs:36-60 | leak iff the tap is closed, the flow exceeds 10 and (bypass or a positive allowance); the valve is started iff excess under bypass and stopped iff excess without bypass and a positive allowance; an open tap zeroes the allowance; excess without bypass adds one modulo 256; otherwise the allowance is unchanged |
| `Snapshot.Perform` | src/snapshot.rs:39-47 | no actuation succeeds and changes nothing; otherwise `start_flow()?`/`stop_flow()?` fails iff a write fails, leaves the valve flowing/shut on success, drives the control pin to the requested level unless its write fails, and changes nothing when it does |
| `Snapshot.Rate` | src/snapshot.rs:31-32 | the reported rate is the truncated quotient of ticks by the period and never exceeds the ticks |
| `Snapshot.ApplyCommand` | src/snapshot.rs:69-82 | `None` changes nothing; `Open` and `Close` zero the allowance; bypass becomes set only by `Open`; `Open` opens and `Close` shuts the valve through `Drive` |
| `Snapshot.NoneChangesNothing` | src/snapshot.rs:70 | `Command::None` leaves the state unchanged and succeeds |
| `Snapshot.OpenGrantsBypass` | src/snapshot.rs:71-76 | `Open` sets bypass, zeroes the allowance and leaves the valve flowing |
| `Snapshot.CloseIdempotent` | src/snapshot.rs:77-81 | `Close` zeroes the allowance and shuts the valve, keeps bypass, and applying it twice equals applying it once |
| `Snapshot.Iterate` | src/snapshot.rs:29-83 | one pass drains the counter, keeps the allowance in `u8`, reports the decided leak with the truncated rate, succeeds only if a report went out and the server answered, and always succeeds without hardware or network faults; bypass ends set iff it was set or a report went out and the server answered `Open`; a successful `Open` or `Close` leaves the allowance 0 and the valve flowing or shut |
| `Snapshot.OpenCommandHasLastWord` | src/snapshot.rs:71-76 | with no faults, a pass answered by `Open` ends bypassed, flowing, with allowance 0 and the counter drained, whatever the leak check decided |
| `Snapshot.CloseCommandHasLastWord` | src/snapshot.rs:77-81 | with no faults, a pass answered by `Close` ends shut, with allowance 0, the counter drained and bypass as before, whatever the leak check decided |
| `Snapshot.OpenTapResets` | src/snapshot.rs:56-59 | an open tap reports no leak and resets the allowance to 0 whatever the flow, bypass and prior streak |
| `Snapshot.LowFlowKeepsState` | src/snapshot.rs:36-55 | a closed tap with at most 10 ticks reports no leak and changes neither the allowance nor the valve |
| `Snapshot.BypassedExcessFlows` | src/snapshot.rs:39-42 | excess under bypass reports a leak, drives the valve to flowing and keeps the allowance |
| `Snapshot.UnbypassedExcessCounts` | src/snapshot.rs:43-51 | excess without bypass adds one to the allowance modulo 256, and reports a leak and shuts the valve exactly when the old allowance was positive, otherwise leaves the valve alone |
| `Snapshot.DecisionFaultIsFatal` | src/snapshot.rs:39-47 | a failed control write during the leak decision ends the loop with no report sent and the valve untouched |
| `Snapshot.DecisionLedFaultIsFatal` | src/snapshot.rs:39-47 | a failed LED write during the leak decision ends the loop with no report sent, the control pin at the requested level and the LED as before |
| `Snapshot.Accumulate` | src/flow.rs:14-18 | `n` pulses between two passes add `n` to the counter modulo 65536, by `Flow.AddTicksWraps`, which `Flow.PulsesAccumulate` ties to the counter's replay; the rest of the state is unchanged |
| `Snapshot.Run` | src/snapshot.rs:29-83 | over any sequence of periods the allowance stays in `u8`, the counter in `u16`, and there is at most one report per period |
| `Snapshot.OneReportPerPeriod` | src/snapshot.rs:63-66 | without hardware or network faults, the loop never stops and sends exactly one report per period |
| `Snapshot.StreakShutsValve` | src/snapshot.rs:44-47 | from allowance 0, a run of up to 256 leak candidates reports no leak on the first period and a leak on every later one; the valve is shut from the second on and the allowance is the period count mod 256 |
| `Snapshot.AllowanceWrapForgivesOnePeriod` | src/snapshot.rs:44-50 | after 256 candidates the `u8` allowance has wrapped, so the 257th reports no leak while the valve stays shut |
| `Snapshot.BypassKeepsFlowing` | src/snapshot.rs:39-42 | under bypass every excess period reports a leak, the valve ends flowing and the allowance never moves |
| `Snapshot.Reporter.constructor` | src/snapshot.rs:18-28 | `ALLOWANCE` starts at 0 and the loop holds the shared counter, flag and valve |
| `Snapshot.Reporter.Step` | src/snapshot.rs:29-82 | one loop pass over the shared objects drains the counter once and leaves exactly the state, transmission and status of `Iterate` |
| `Snapshot.Reporter.CheckLeak` | src/snapshot.rs:36-60 | the leak flag, the new `ALLOWANCE` and the valve levels and status are exactly those of `Decide` and the actuation it calls for |
| `Snapshot.Reporter.Obey` | src/snapshot.rs:69-82 | the allowance, the shared bypass flag, the valve levels and the status are exactly those of `ApplyCommand` |
| `Button.OnEdge` | src/button.rs:17-24 | after an edge bypass is false; the notice is sent iff bypass was set; the edge fails iff a sent notice failed, with the flag already cleared |
| `Button.SecondEdgeIsQuiet` | src/button.rs:18-23 | a second edge after any first one that did not end the task sends nothing and cannot fail (a first edge whose notice failed ends the task through `?`) |
| `Button.BypassWatcher.HandleEdge` | src/button.rs:16-25 | the swap and conditional notice give exactly `OnEdge`'s outcome and change only the shared flag |
| `Button.EdgeBesideReporter` | src/button.rs:10-15 | with the flag shared with the reporting loop, an edge clears it and leaves the loop's allowance, counter and valve outputs as they were |
| `Tap.Parity` | src/button/tap.rs:13-16 | after n edges the state is the seed if n is even and its inverse if odd |
| `Tap.TwoEdgesRestore` | src/button/tap.rs:16 | two more rising edges restore the state |
| `Tap.TapToggle.constructor` | src/button/tap.rs:6 | `TAP` starts false |
| `Tap.TapToggle.Seed` | src/button/tap.rs:13 | the state becomes the pin's high level |
| `Tap.TapToggle.OnRisingEdge` | src/button/tap.rs:15-17 | returns the state before the flip and inverts it |
| `Tap.TapToggle.IsOn` | src/button/tap.rs:26-28 | reads without changing anything and equals the seed or its inverse by the parity of edges seen |

## Left out

- Timer waits and their errors are left out: `POLL_QUANTUM` at src/snapshot.rs:30 and the 3-second debounce at src/button/tap.rs:19-21. `POLL_QUANTUM.as_secs()` is the positive constant `Reporter.pollSecs`. Its value is defined outside the shown files.
- The tap LED writes at src/snapshot.rs:37 and :57 and their errors are left out, because they are UI only. All logging is left out.
- The device address in `Ping` is left out. The `try_into().unwrap()` of the rate at src/snapshot.rs:64 is left out. The type of `Ping.flow` is defined in the `model` crate, which is not part of this model; the model assumes that the rate, at most the `u16` tick count, always fits it, so the `unwrap` never panics.
- `ping` and `bypass` are network calls defined outside the shown files. The server's reply (`Reply`) and the notice's failure are parameters.
- Hardware write failures are the `Faults` parameters. A failed write is assumed to leave the pin's level unchanged.
- Errors from waiting on pin edges are left out. These waits are at src/flow.rs:16, src/button.rs:17 and src/button/tap.rs:15.
- The `Mutex` around the HTTP client and the async executor are not modelled. Neither are interleavings inside a task step or memory ordering. Each task is a sequence of whole steps over shared fields.
- The registration handshake is not part of this model. Neither are Wi-Fi bring-up (src/main.rs, src/net.rs), the HTTP response loop (src/http.rs) or the task wiring in src/main.rs.
