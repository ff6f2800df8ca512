# CPU load monitor: sliding window and hysteresis alert, in Dafny

This project models the logic of the `CPULoadMonitor` React component of a
small CPU load dashboard. Every ten seconds the component fetches the
host's normalised load average (the 1-minute load divided by the number of
CPUs) and then does two independent things:

- **Sliding window.** The new load and its elapsed time are appended to two
  parallel arrays. The arrays hold at most 60 entries (ten minutes of
  polls). When they are full, the oldest entry of both is shifted off first.
- **Alert state machine.** The same load is checked against a threshold of
  1.0 with a 2-minute debounce. In normal mode, `load >= 1` starts or
  continues a candidate alert. In alert mode, `load < 1` starts or
  continues a candidate recovery. A candidate commits once it has been
  pending for at least 2 minutes. A commit flips the mode, records the
  time in the alerts or recoveries log, and clears the pending start. Any
  evaluation that breaks the condition clears the pending start.

Files and modules:

- `options.dfy` (`Options`): the `Option` type, used for the nullable pending start.
- `samples.dfy` (`Samples`): a load reading, either `Reading(value: real)` or
  `Unavailable` for a body whose `loadAverage` is missing (`undefined`). It
  also holds the two threshold comparisons. Both are false for `Unavailable`,
  as JavaScript comparisons with `undefined` are.
- `sample_window.dfy` (`SampleWindow`): the window update `Slide` and the
  reference definition `Window` ("the last `min(N, 60)` arrivals"). It also
  has `Replay`, which applies `Slide` to a whole stream, and the lemmas that
  connect these.
- `alert_state_machine.dfy` (`AlertStateMachine`): one evaluation as a pure
  function `Evaluate`, and runs of evaluations (`IsRun`, `Run`). The lemmas
  about runs cover alternation, log growth, continuity of the debounce, and
  the exact sustain boundary.
- `cpu_load_monitor.dfy` (`CpuLoadMonitor`): the component's state as a
  class `Monitor`. Its fields are the two window arrays, `alertMode`,
  `pendingSince` and the two event logs. `Append`, `Evaluate`, `Tick` and
  `Poll` update these fields in place, as the component does. Each method's
  postcondition ties the new state to the spec functions above. The object
  invariant `Valid()` says three things. The arrays are exactly the windows
  of the same (ghost) arrival stream. They therefore have equal length, at
  most 60, and are index-aligned. Transitions alternate.

Modelling choices:

- Time is an integer clock reading in milliseconds (`now: nat`), passed in
  as a parameter. "At least 2 minutes elapsed" becomes
  `now - pendingSince >= 120000`. The helper `getTimeElapsedInMinutes`
  (imported from `client/src/utils.ts`) is not part of this model: the
  shipped `utils.ts` does not contain it. The model follows its tests at
  `client/src/utils.test.ts:36-45`.
- The debounce start is tested for truthiness in the source. So `null` and a
  clock reading of exactly 0 both count as "unset". The model keeps this
  (`AlertStateMachine.IsSet`). That is why `SustainedStreakCommits` excludes
  a streak starting at time 0.
- The window is shifted only when it holds exactly 60 entries (`===`). The
  model checks `|s| == 60` the same way.
- One tick uses a single `now` for the window's elapsed time and for the
  state machine. Event-log entries record that `now`, not a locale string.
- A failed fetch: the fetch helper returns `undefined` on a transport
  error or a non-success status (`client/src/utils.ts:11-13`). The
  destructuring at `CPULoadMonitor.tsx:67` then throws, so that tick
  changes nothing: no sample is pushed into the window and the pending
  start is not cleared. `Monitor.Poll` models that. Only a body that lacks
  `loadAverage` becomes an `Unavailable` sample: it is pushed into the
  window and it clears the debounce.
- A `null` load: when `os.cpus().length` is 0 the server divides by zero
  (`server/index.js:12-14`), and `res.json` serialises the resulting NaN or
  Infinity as `null`. JavaScript compares `null` like 0 (`null >= 1` is
  false, `null < 1` is true), so for the state machine such a body is
  `Body(Reading(0.0))`: in alert mode it keeps a recovery candidacy going.

## Model

| member | source | states |
|---|---|---|
| `SampleWindow.Slide` | client/src/components/CPULoadMonitor.tsx:71-84 | One window update. From a window of at most 60 entries, the result has length `min(old + 1, 60)`. Its last entry is the new sample. The entries before it are the old window with the head dropped exactly when the window was full. |
| `SampleWindow.SlideKeepsWindow` | client/src/components/CPULoadMonitor.tsx:75-84 | Sliding a sample into the window of a stream gives the window (last `min(N, 60)` elements) of the extended stream. |
| `SampleWindow.WindowsAdvanceTogether` | client/src/components/CPULoadMonitor.tsx:71-84 | Two windows of equal-length arrival streams have equal length, `min(N, 60)`. Updating both with one arrival keeps each the window of its extended stream. |
| `SampleWindow.ReplayIsWindow` | client/src/components/CPULoadMonitor.tsx:69-88 | After N appends to an empty window, it holds exactly the last `min(N, 60)` samples in arrival order, so never more than 60. |
| `SampleWindow.ReplayKeepsArraysAligned` | client/src/components/CPULoadMonitor.tsx:75-84 | For streams of equal length, the `timestamps` and `loadAverages` windows have equal length. Their k-th entries come from the same arrival. |
| `SampleWindow.SlideKeepsOrder` | client/src/components/CPULoadMonitor.tsx:82-84 | If the window's elapsed times are non-decreasing and the new time is no earlier than the last one, they stay non-decreasing after the update. |
| `AlertStateMachine.Evaluate` | client/src/components/CPULoadMonitor.tsx:93-133 | One evaluation. A broken condition (`>= 1` in normal mode, `< 1` in alert mode, neither for `Unavailable`) clears only the pending start. A holding condition with nothing pending sets the pending start to `now` and changes nothing else. The mode flips if and only if the condition holds, a start is pending and `now - start >= 2 min`. A flip clears the pending start and appends `now` to the matching log only. Otherwise the state is unchanged. Alternation is preserved. |
| `AlertStateMachine.Run` | client/src/components/CPULoadMonitor.tsx:142-144 | The sequence of states visited by successive ticks. It starts at the given state, and each state is `Evaluate` of the previous one on that tick's sample. |
| `AlertStateMachine.RunAlternates` | client/src/components/CPULoadMonitor.tsx:59-61 | Along any run from a consistent state, such as the initial one, `alertEvents` has one more entry than `recoveryEvents` in alert mode and the same number otherwise. |
| `AlertStateMachine.RunLogsOnlyGrow` | client/src/components/CPULoadMonitor.tsx:104-124 | Along any run, each state's alert and recovery logs are prefixes of every later state's logs. |
| `AlertStateMachine.PendingStartedByStreak` | client/src/components/CPULoadMonitor.tsx:96-130 | In a run that starts with nothing pending, a pending start equals the time of an earlier evaluation j. Every evaluation from j on was in the current mode and satisfied its condition. |
| `AlertStateMachine.CommitFollowsSustainedStreak` | client/src/components/CPULoadMonitor.tsx:97-124 | Debounce requires continuity: a transition at evaluation n comes after an unbroken streak j..n in one mode, in which every evaluation satisfied the condition and which spans at least 2 minutes. |
| `AlertStateMachine.BreakRestartsDebounce` | client/src/components/CPULoadMonitor.tsx:110-130 | A single failing evaluation f resets progress to zero. With non-decreasing clock readings, a later transition needs 2 full minutes counted from the evaluation after f. |
| `AlertStateMachine.SustainedStreakCommits` | client/src/components/CPULoadMonitor.tsx:97-124 | The sustain boundary is inclusive and exact. A streak that starts from nothing pending at j, with the condition holding throughout, flips the mode at the first evaluation at least 2 minutes after j, and not earlier. |
| `AlertStateMachine.NoCandidacyNoChange` | client/src/components/CPULoadMonitor.tsx:94-131 | If no load ever satisfies the starting mode's condition, every later state is the start state with nothing pending: no event is logged and no pending start is set. |
| `CpuLoadMonitor.Monitor.constructor` | client/src/components/CPULoadMonitor.tsx:58-64 | On mount: empty window, not alerting, nothing pending, both logs empty, and the invariant holds. |
| `CpuLoadMonitor.Monitor.Append` | client/src/components/CPULoadMonitor.tsx:69-88 | The `setLoadData` updater in place. Each array becomes `Slide` of its old value, both with length `min(old + 1, 60)`. The arrival history grows by this sample, the invariant is kept, and the alert state is untouched. |
| `CpuLoadMonitor.Monitor.Evaluate` | client/src/components/CPULoadMonitor.tsx:93-133 | `checkIfUnderHighLoad` in place. The new alert state is `AlertStateMachine.Evaluate` of the old one, the window is untouched, and the invariant is kept. |
| `CpuLoadMonitor.Monitor.Tick` | client/src/components/CPULoadMonitor.tsx:142-144 | One tick with a body: window update, then evaluation of the same load, in that order. |
| `CpuLoadMonitor.Monitor.Poll` | client/src/components/CPULoadMonitor.tsx:66-67 | A failed fetch changes nothing, not even the arrival history. A body's load (possibly `Unavailable`) is appended to the window and to the arrival history, then evaluated. |

## Left out

- The HTTP fetch helper (`client/src/utils.ts:2-14`) and the Express endpoint (`server/index.js`): network I/O and `os` calls. A fetch becomes the `Response` parameter of `Monitor.Poll`.
- `getTimeElapsedInMinutes` is not part of this model. Its floating-point division is replaced by an integer comparison in milliseconds.
- The `setInterval` timer, its teardown, and React semantics. Ticks are sequential method calls. This leaves out `useState` batching, the `alertMode` captured by the `useCallback` closure, and the interval being re-created when `alertMode` changes.
- Separate clock reads: the source reads the clock once for the window's elapsed time and again inside the state machine. The model uses one `now` per tick.
- A `null` load in the window: the window would hold `null`, which the model writes as `Reading(0.0)`. The chart's treatment of `null` is not modelled.
- Floating point: loads are exact `real`s, so there is no NaN or rounding. The rounding of elapsed minutes to thousandths (`CPULoadMonitor.tsx:82-83`) is left out; the window stores raw elapsed milliseconds. The rounding of the displayed current load (`CPULoadMonitor.tsx:152`) is also left out.
- Event-log entries are `toLocaleString` strings in the source. They are clock readings here.
- All rendering: chart options, Highcharts, JSX, `App.tsx`, and the test files.
- `AlertStateMachine.BreakRestartsDebounce`: assumes clock readings never decrease from tick to tick. The source does not guarantee this. Without it, the lemma `CommitFollowsSustainedStreak` still gives the streak bound relative to its own start.
