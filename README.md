# SlowEcho test step, modelled in Dafny

SlowEcho is a ConTest test step. For each target that arrives on its input channel, it starts a goroutine. That goroutine waits a configured number of seconds, logs the step's `text` parameter, and forwards the target on the output channel. Two broadcast channels, `cancel` and `pause`, stop the step early. Once the dispatch loop has ended, `Run` waits for every goroutine on a `sync.WaitGroup` before it returns.

The model has four modules:

- `Wrappers` (`wrappers.dfy`): `Option`, `Result` and `Outcome`. These stand for Go's nil, `(value, error)` and `error` returns.
- `Decimal` (`decimal.dfy`): Go strings as byte sequences, and `strconv.Atoi` as the step uses it. Atoi accepts an optional `+`/`-` followed by at least one ASCII digit. Any other input gives a `NumError("Atoi", input, ErrSyntax)`. Atoi inverts the canonical formatter `Format`: `Atoi(Format(n)) == Success(n)`.
- `SlowEcho` (`slowecho.dfy`):
  - `sleepTime` as `SleepTime`, `ValidateParameters`, `CanResume` and `Resume`.
  - A parameter (`Param`) is seen only through its three accessors, `IsEmpty()`, `Raw()` and `String()`. They are kept as independent fields.
  - `StepParameters` holds what `GetOne("text")` and `GetOne("sleep")` return.
- `SlowEchoRun` (`run.dfy`): a sequential model of `Run`. A trace of events stands in for the scheduler:
  - `Item(t)` / `EndOfStream`: the coordinator reads a target, or nil.
  - `Cancel` / `Pause`: a signal fires. A fired signal stays fired.
  - `Wake(w, c)`: worker `w`'s first select takes its timer case or a signal case.
  - `Check(w)`: worker `w`'s second select.
  - An event that cannot happen in the current state changes nothing.
  - `Step` and `Replay` give the state after each event and after a whole trace. `Settle` gives the drain performed by `wg.Wait()`, and `RunState` the state `Run` ends in.
  - The class `Stage` holds one call's state: the signals, the wait-group counter `inFlight`, the dispatched targets with their workers' states, and the output channel's traffic. Its methods update that state event by event, and each method's `ensures` ties the new state to `Step`/`Replay`/`Settle`. The lemmas about those functions prove the run's properties.

`sleepTime` accepts any non-negative integer, but `ValidateParameters` rejects every raw `sleep` value whose length is not 1 (slowecho.go line 76), so only the ten single digits pass validation. A consequence: validation can never return the "seconds cannot be negative" error, because a one-byte string is never a negative number.

## Model

| member | source | states |
|---|---|---|
| `Decimal.Atoi` | plugins/teststeps/slowecho/slowecho.go:53 | every rejected string fails with a syntax error that names the input and the function "Atoi" |
| `Decimal.AtoiAccepts` | plugins/teststeps/slowecho/slowecho.go:53 | Atoi succeeds iff the text is a non-empty run of ASCII digits, optionally after one '+' or '-' (so the empty string, a lone sign and any other byte fail), in both directions |
| `Decimal.AtoiDigits` | plugins/teststeps/slowecho/slowecho.go:53 | a non-empty digit string parses to its decimal value, bare, after '+', and negated after '-' |
| `Decimal.DigitsValueLeadingZeros` | plugins/teststeps/slowecho/slowecho.go:53 | leading zeros do not change the value of a digit string |
| `Decimal.AtoiPadded` | plugins/teststeps/slowecho/slowecho.go:53 | non-canonical text parses as Go's `strconv.Atoi` does: any number of leading zeros and an explicit '+' are accepted, so "05" and "+05" give 5 and "-05" gives -5 |
| `Decimal.AtoiFormat` | plugins/teststeps/slowecho/slowecho.go:53 | the parser inverts decimal formatting: `Atoi(Format(n)) == Success(n)` for every integer n |
| `Decimal.AtoiSingleByte` | plugins/teststeps/slowecho/slowecho.go:76-79 | a one-byte string parses iff the byte is '0'..'9', and then to that digit's value |
| `SlowEcho.SleepTime` | plugins/teststeps/slowecho/slowecho.go:52-62 | a parse error is passed through unchanged; a negative parsed integer gives the negative-seconds error; success iff the parsed integer is >= 0; a successful duration is non-negative, a whole number of seconds, and its seconds are the parsed integer |
| `SlowEcho.SleepTimeOfFormat` | plugins/teststeps/slowecho/slowecho.go:52-62 | on the text of any integer n: the negative-seconds error if n < 0, otherwise n * 1_000_000_000 nanoseconds |
| `SlowEcho.ValidateParameters` | plugins/teststeps/slowecho/slowecho.go:66-84 | validation never fails with the negative-seconds error, nor with the resume error |
| `SlowEcho.ValidateAcceptsSingleDigit` | plugins/teststeps/slowecho/slowecho.go:66-84 | validation passes iff `text` is present, `sleep` is present, its raw value has length 1, and that byte is a digit (both directions) |
| `SlowEcho.ValidateFirstFailureWins` | plugins/teststeps/slowecho/slowecho.go:67-83 | the checks run in order (missing text, missing sleep, raw length not 1, the sleepTime error), and the first failing one is the error returned |
| `SlowEcho.ValidatedSleepIsShort` | plugins/teststeps/slowecho/slowecho.go:76-79 | after validation passes, sleepTime of the raw value succeeds with between 0 and 9 seconds |
| `SlowEcho.CanResume` | plugins/teststeps/slowecho/slowecho.go:142-144 | always false |
| `SlowEcho.Resume` | plugins/teststeps/slowecho/slowecho.go:148-150 | whatever its inputs, fails with ErrResumeNotSupported for step "SlowEcho" |
| `SlowEchoRun.FirstSelect` | plugins/teststeps/slowecho/slowecho.go:106-114 | the timer case leads to the second select; a signal case drops the target; a signal case cannot be taken while no signal has fired |
| `SlowEchoRun.SecondSelect` | plugins/teststeps/slowecho/slowecho.go:116-125 | the worker always terminates; it forwards iff no signal is active, and otherwise drops |
| `SlowEchoRun.Finish` | plugins/teststeps/slowecho/slowecho.go:104-124 | a running worker's one termination (deferred `wg.Done()`), into a terminal state: the counter drops by one, only that worker's state changes, and the output grows by its target exactly when it forwards (`ch.Out <- t`) |
| `SlowEchoRun.Step` | plugins/teststeps/slowecho/slowecho.go:95-133 | after one event of the coordinator's or a worker's select, a fired signal stays fired, an ended loop stays ended, and the dispatched list and the output never shrink; a worker's select never touches the signals, the loop or the dispatched list |
| `SlowEchoRun.StepExtends` | plugins/teststeps/slowecho/slowecho.go:95-133 | one event only moves the run forward: besides the above, the dispatched list, the output and its senders are only extended at the end, and a terminated worker stays as it ended |
| `SlowEchoRun.Replay` | plugins/teststeps/slowecho/slowecho.go:93-134 | after a whole trace of the loop, fired signals stay fired, an ended loop stays ended, and the dispatched list and the output never shrink |
| `SlowEchoRun.ReplayExtends` | plugins/teststeps/slowecho/slowecho.go:93-134 | a whole trace only moves the run forward, in the same sense as one event |
| `SlowEchoRun.ReplayWorkerEvents` | plugins/teststeps/slowecho/slowecho.go:104-125 | a trace of worker selects alone never fires a signal, ends the loop or dispatches a target |
| `SlowEchoRun.Settle` | plugins/teststeps/slowecho/slowecho.go:135-136 | `wg.Wait()` leaves the signals, the loop state and the dispatched targets unchanged |
| `SlowEchoRun.DrainWorkerFinishes` | plugins/teststeps/slowecho/slowecho.go:104-125 | a worker that gets its turn at both selects has terminated afterwards, whether or not a signal fired |
| `SlowEchoRun.RunState` | plugins/teststeps/slowecho/slowecho.go:87-138 | Run's final state has dispatched exactly the targets before the first nil/cancel/pause, and its loop is still reading iff no such event occurred |
| `SlowEchoRun.StopKeepsInv` | plugins/teststeps/slowecho/slowecho.go:97-132 | nil, cancel or pause ends the loop and keeps the bookkeeping invariant |
| `SlowEchoRun.CheckKeepsInv` | plugins/teststeps/slowecho/slowecho.go:116-125 | a worker's second select keeps the bookkeeping invariant |
| `SlowEchoRun.ItemKeepsInv` | plugins/teststeps/slowecho/slowecho.go:96-104 | dispatching a target (`wg.Add(1)` and a new sleeping worker) keeps the counter equal to the number of running workers |
| `SlowEchoRun.WakeKeepsInv` | plugins/teststeps/slowecho/slowecho.go:106-114 | a worker's first select keeps the bookkeeping invariant |
| `SlowEchoRun.FinishKeepsSenders` | plugins/teststeps/slowecho/slowecho.go:104-125 | when a running worker terminates, each output item stays its own distinct sender's target and every forwarding worker is a sender |
| `SlowEchoRun.FinishKeepsInv` | plugins/teststeps/slowecho/slowecho.go:104-125 | a worker terminating (deferred `wg.Done()`) decrements the counter; a forward adds that worker's target once; a drop happens only when a signal is active |
| `SlowEchoRun.StepKeepsInv` | plugins/teststeps/slowecho/slowecho.go:93-134 | every event keeps the invariant: counter = running workers; each output item is a distinct forwarding worker's target; no drop without a signal; a fired signal has ended the loop |
| `SlowEchoRun.ReplayKeepsInv` | plugins/teststeps/slowecho/slowecho.go:93-134 | every trace keeps that invariant |
| `SlowEchoRun.NoForwardAfterSignal` | plugins/teststeps/slowecho/slowecho.go:106-125 | once cancel or pause has fired it stays fired and no further target is ever forwarded |
| `SlowEchoRun.NoDispatchAfterStop` | plugins/teststeps/slowecho/slowecho.go:93-134 | once the dispatch loop has ended it stays ended and no further target is dispatched |
| `SlowEchoRun.ForwardOnlyFromQuietCheck` | plugins/teststeps/slowecho/slowecho.go:106-125 | output grows only at a worker's second select, only after its timer won the first select, only with no signal active, by exactly that worker's target, and never twice for one worker |
| `SlowEchoRun.DispatchedBeforeStop` | plugins/teststeps/slowecho/slowecho.go:93-134 | a run dispatches exactly the targets before the first nil/cancel/pause, and its loop has ended iff such an event occurred |
| `SlowEchoRun.DrainFinishes` | plugins/teststeps/slowecho/slowecho.go:135-137 | the drain terminates every worker and leaves the signals and the dispatched targets unchanged |
| `SlowEchoRun.SettleDrains` | plugins/teststeps/slowecho/slowecho.go:135-137 | after the drain no worker is running and the wait-group counter is 0 |
| `SlowEchoRun.RunDrains` | plugins/teststeps/slowecho/slowecho.go:93-138 | when the loop ends, Run's final state has counter 0 and every worker terminated: every `Add(1)` was matched by a `Done` |
| `SlowEchoRun.QuietRunForwardsAll` | plugins/teststeps/slowecho/slowecho.go:96-125 | with no cancel or pause, a run that reaches nil forwards every dispatched target exactly once: every index sends once, each output is its sender's target, and the output is as long as the dispatched list |
| `SlowEchoRun.SignalBeforeAnyForward` | plugins/teststeps/slowecho/slowecho.go:106-138 | if a signal fires before anything was forwarded, the run forwards nothing |
| `SlowEchoRun.ThreeQuietTargets` | plugins/teststeps/slowecho/slowecho.go:87-139 | three targets and then nil with no signal: all three are dispatched in order, the output has three items, each its sender's target, and a, b and c are all in it |
| `SlowEchoRun.CancelDuringDelay` | plugins/teststeps/slowecho/slowecho.go:87-139 | one target, then cancel during its delay: nothing is forwarded, the worker drops it, and the counter is back to 0 |
| `SlowEchoRun.Stage.constructor` | plugins/teststeps/slowecho/slowecho.go:92 | a fresh run: no signal, loop running, nothing dispatched or sent |
| `SlowEchoRun.Stage.Reset` | plugins/teststeps/slowecho/slowecho.go:92 | the state is that of a fresh run |
| `SlowEchoRun.Stage.Done` | plugins/teststeps/slowecho/slowecho.go:104-124 | for a running worker and a terminal outcome: the worker's state becomes that outcome, the counter drops by one, and a forwarded target is appended to the output |
| `SlowEchoRun.Stage.Apply` | plugins/teststeps/slowecho/slowecho.go:93-134 | the new state is the old one after the event, as `Step` defines it |
| `SlowEchoRun.Stage.Play` | plugins/teststeps/slowecho/slowecho.go:93-134 | the new state is the old one after the whole trace, as `Replay` defines it |
| `SlowEchoRun.Stage.WaitAll` | plugins/teststeps/slowecho/slowecho.go:135-137 | the new state is the drained state `Settle` of the old one |
| `SlowEchoRun.Stage.Run` | plugins/teststeps/slowecho/slowecho.go:87-139 | an unparsable `String()` of `sleep` returns that error and changes nothing. Otherwise the final state is `RunState(trace)`. Run returns nil iff the loop ended, and otherwise is still reading. When it returns nil the counter is 0 and every worker has terminated |

## Left out

- Real concurrency: goroutines, `time.After` timers and blocking on channels. The trace order stands in for scheduling, and only the wait-group's counter is modelled.
- Go `select`'s random choice at the coordinator: when a target is available and a signal has fired, Go may still read the target. In the model, a `Cancel` or `Pause` event ends the dispatch loop at once. The worker's first select does keep the choice: `Wake(w, TimerFired)` may happen after a signal has fired.
- The blocking send `ch.Out <- t` inside the `default` case: the model's output channel is unbounded. A worker that blocks forever on a full output channel (and so keeps `wg.Wait()` from returning) is not modelled.
- The drain after the trace assumes no further signal fires. Signals that fire during `wg.Wait()` are modelled only when they are part of the trace.
- Logging (`log.Infof`, `log.Debug*`, including the side observation of `text` after the delay) and the unused event emitter: side effects with no logic.
- `GetOne`, `IsEmpty`, `Raw` and `String` of the parameter types: that foreign code is not part of this model, so the accessors are independent fields. `Run` parses `String()`, validation checks `Raw()`, and the model keeps them apart. So validation passing does not imply that `Run`'s parse succeeds.
- Decimal.Atoi: no range error. Integers are unbounded, so int64 overflow in `strconv.Atoi` and in `time.Duration(seconds) * time.Second` is not modelled.
- The actual delay value: `Run` computes it, but timers are abstract, so it affects nothing downstream in the model.
- `New`, `Load`, `Name` and the `Events` list: registration constants.
- `pkg/storage/jobs.go` (`Emit`, `Fetch` and the constructors): forwarding to a storage backend that is not part of this model. It is I/O glue with no algorithm.
