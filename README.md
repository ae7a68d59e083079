# Pomodoro timer: session state machine, session policy, countdown engine, display

This project models the core of a Pomodoro timer web app in Dafny and proves
properties of the model.

- **The timer store** (`PomodoroStore`) is one mutable record: status (idle, running, paused),
  session type, completed work sessions, seconds left, the absolute end time
  `endAtMs`, and the settings. Its operations are `start`, `pause`, `resume`, `reset`,
  `tick(nowMs)`, `nextSession` and `updateSettings`. Remaining time is recomputed
  from the end time ("anti-drift") and never counted down. Each transition is
  a function on a `StoreState` value (`AfterStart`, …, `AfterUpdateSettings`).
  The class `PomodoroStore.Store` holds the same fields and updates them in place,
  and each of its methods is proved to produce that function's result. A command datatype
  and `Run` apply any sequence of operations. The invariant ("end time present exactly while
  running, countdown non-negative, settings within the panel's clamps") is proved
  along every run from the initial record.
- **The session policy** (`SessionRules`) holds `getNextSession` and `getSessionDuration`.
  The store has its own inlined copies of these rules, and the model proves that the two agree.
- **`TimerEngine`** (`TimerEngineModel`) is a second countdown object that rounds
  to the nearest second. Its `onTick`/`onEnd` callbacks are recorded as an event
  log. A ghost run counter proves that the `onEnd` calls never outnumber the runs
  started, and `TickAfterEndIsNoop` shows that ticks after the ending one report nothing.
- **The timer screen** (`TimerScreen`) covers `formatMMSS`, with a parser that reads the
  display back, the "Session i/every" index and the label fallback.

Time is an integer number of milliseconds, passed to every operation as `now`.
Durations are integer seconds. `Math.ceil(ms / 1000)` and `Math.round(ms / 1000)`
become exact integer ceiling and round-half-up divisions (`JsMath`).

A work session that completes on a tick leaves `secondsLeft` at the next
session's duration (300 with the defaults), not at 0: `tick` writes 0 and
`nextSession` overwrites it in the same call
(`PomodoroStore.DefaultWorkSessionScenario`). `updateSettings` while paused keeps
the status `paused` and reloads the current session's full duration
(usePomodoroStore.ts:173-178).

## Model

| member | source | states |
|---|---|---|
| `JsMath.CeilSeconds` | pomodoro-timer/src/store/usePomodoroStore.ts:76 | the result is the least whole number of seconds covering the millisecond distance |
| `JsMath.Max` | pomodoro-timer/src/store/usePomodoroStore.ts:76 | `Math.max` on integers: the result is at least both arguments and is one of them |
| `JsMath.RoundSeconds` | pomodoro-timer/src/domain/pomodoro/timerEngine.ts:32 | the result is the nearest whole second, with halves rounded up |
| `JsMath.CeilSecondsMonotonic` | pomodoro-timer/src/store/usePomodoroStore.ts:108 | a smaller distance never covers more seconds |
| `JsMath.RoundSecondsMonotonic` | pomodoro-timer/src/domain/pomodoro/timerEngine.ts:32 | rounding is monotonic |
| `JsMath.WholeSecondsExact` | pomodoro-timer/src/store/usePomodoroStore.ts:91 | a whole number of seconds in milliseconds converts back exactly under both rules |
| `JsMath.RoundWithinOneOfCeil` | pomodoro-timer/src/domain/pomodoro/timerEngine.ts:32 | the rounded value is at most the ceiling and at most one below it |
| `SessionRules.NextSession` | pomodoro-timer/src/domain/pomodoro/sessionRules.ts:3-15 | after work, a long break exactly when (completed+1) is a multiple of sessionsBeforeLongBreak, otherwise a short break; after a break, always work; after work, never work |
| `SessionRules.SessionDuration` | pomodoro-timer/src/domain/pomodoro/sessionRules.ts:17-31 | maps each session type to its own settings field; the result is positive under valid settings |
| `SessionRules.DefaultSettingsValid` | pomodoro-timer/src/shared/constants.ts:1-7 | `DEFAULT_SETTINGS` is 1500, 300 and 900 seconds, a long break every 4 sessions, job name "work", and is valid |
| `SessionRules.WorkAndBreaksAlternate` | pomodoro-timer/src/domain/pomodoro/sessionRules.ts:8-14 | the session two steps later is work exactly when the current one is work |
| `SessionRules.EveryBreakLongWhenOne` | pomodoro-timer/src/domain/pomodoro/sessionRules.ts:9 | with sessionsBeforeLongBreak = 1, every work completion leads to a long break |
| `SessionRules.LongBreakPeriodic` | pomodoro-timer/src/domain/pomodoro/sessionRules.ts:9 | the kind of break repeats when the count grows by sessionsBeforeLongBreak |
| `SessionRules.LongBreakOnlyAtBlockEnd` | pomodoro-timer/src/domain/pomodoro/sessionRules.ts:9-12 | within each block of k work sessions, only the last one earns the long break |
| `PomodoroStore.MergeSettings` | pomodoro-timer/src/store/usePomodoroStore.ts:167 | every field present in the patch replaces the current one and every absent field is kept; clamped patches keep settings valid |
| `PomodoroStore.SessionDurationSeconds` | pomodoro-timer/src/store/usePomodoroStore.ts:13-17 | the store's lookup agrees with the policy's `getSessionDuration` for every session type |
| `PomodoroStore.RemainingSeconds` | pomodoro-timer/src/store/usePomodoroStore.ts:76 | the seconds left are non-negative, zero exactly when the end time is reached, and otherwise within one second of the distance |
| `PomodoroStore.InitialState` | pomodoro-timer/src/store/usePomodoroStore.ts:43-52 | idle, work, count 0, the work duration, no end time; it satisfies the invariant |
| `PomodoroStore.AfterStart` | pomodoro-timer/src/store/usePomodoroStore.ts:54-69 | no-op while running; from idle loads the full duration, from paused keeps the seconds; then running with end time now + seconds*1000; keeps the invariant |
| `PomodoroStore.AfterPause` | pomodoro-timer/src/store/usePomodoroStore.ts:71-83 | no-op unless running with an end time; otherwise paused, end time cleared, seconds = max(0, ceil((end-now)/1000)) |
| `PomodoroStore.AfterResume` | pomodoro-timer/src/store/usePomodoroStore.ts:85-93 | only from paused: running with end time now + seconds*1000, seconds unchanged |
| `PomodoroStore.AfterReset` | pomodoro-timer/src/store/usePomodoroStore.ts:95-102 | from any status: idle, no end time, the current type's duration; type and count untouched |
| `PomodoroStore.AfterNextSession` | pomodoro-timer/src/store/usePomodoroStore.ts:120-163 | the next type equals the policy's `getNextSession`; the count rises exactly after work; always idle with the new type's duration and no end time |
| `PomodoroStore.AfterTick` | pomodoro-timer/src/store/usePomodoroStore.ts:104-118 | no-op unless running; before the end time only the seconds change (and stay at least 1); at or after it, idle with the advanced session, count and duration |
| `PomodoroStore.AfterUpdateSettings` | pomodoro-timer/src/store/usePomodoroStore.ts:165-179 | the settings become the merge; unless running, the seconds become the current type's new duration and the end time is cleared; while running, both are untouched |
| `PomodoroStore.Apply` | pomodoro-timer/src/store/usePomodoroStore.ts:54-179 | any single operation keeps the invariant |
| `PomodoroStore.Run` | pomodoro-timer/src/store/usePomodoroStore.ts:43-179 | any sequence of operations keeps the invariant |
| `PomodoroStore.InvariantFromInitialState` | pomodoro-timer/src/store/usePomodoroStore.ts:43-52 | after any sequence of UI operations from the initial record, the end time is present exactly while running |
| `PomodoroStore.StartTwiceKeepsFirst` | pomodoro-timer/src/store/usePomodoroStore.ts:56 | a second start leaves the state the first start set up |
| `PomodoroStore.TicksNeverIncrease` | pomodoro-timer/src/store/usePomodoroStore.ts:104-118 | with no other operation in between, a later tick never shows more seconds |
| `PomodoroStore.ResumeThenTickKeepsSeconds` | pomodoro-timer/src/store/usePomodoroStore.ts:86-92 | from any paused state with seconds left, resume keeps the seconds and a tick at the resume instant changes nothing |
| `PomodoroStore.PauseResumeTickKeepsSeconds` | pomodoro-timer/src/store/usePomodoroStore.ts:71-118 | pause then resume keeps the frozen seconds; a tick at the resume instant changes nothing when they are positive and completes the session when they are zero |
| `PomodoroStore.TickCompletesIffEndReached` | pomodoro-timer/src/store/usePomodoroStore.ts:108-114 | a tick returns the store to idle exactly when now is at or past the end time |
| `PomodoroStore.DefaultWorkSessionScenario` | pomodoro-timer/src/store/usePomodoroStore.ts:104-163 | default settings, start at 0, tick at 1500000 ms: idle short break of 300 s with count 1 |
| `PomodoroStore.FourthWorkSessionEarnsLongBreak` | pomodoro-timer/src/store/usePomodoroStore.ts:141-152 | with the defaults, the fourth work completion gives count 4 and a long break |
| `PomodoroStore.UpdateWhileIdleRetargets` | pomodoro-timer/src/store/usePomodoroStore.ts:173-178 | setting the work duration to 60 while idle in work shows 60 at once, with no end time |
| `PomodoroStore.Store.constructor` | pomodoro-timer/src/store/usePomodoroStore.ts:43-52 | the new store holds the initial record and no completion signal |
| `PomodoroStore.Store.Start` | pomodoro-timer/src/store/usePomodoroStore.ts:54-69 | the fields become `AfterStart` of the old fields |
| `PomodoroStore.Store.Pause` | pomodoro-timer/src/store/usePomodoroStore.ts:71-83 | the fields become `AfterPause` of the old fields |
| `PomodoroStore.Store.Resume` | pomodoro-timer/src/store/usePomodoroStore.ts:85-93 | the fields become `AfterResume` of the old fields |
| `PomodoroStore.Store.Reset` | pomodoro-timer/src/store/usePomodoroStore.ts:95-102 | the fields become `AfterReset` of the old fields |
| `PomodoroStore.Store.Tick` | pomodoro-timer/src/store/usePomodoroStore.ts:104-118 | the fields become `AfterTick` of the old fields; one completion signal exactly when the tick ends the run |
| `PomodoroStore.Store.NextSession` | pomodoro-timer/src/store/usePomodoroStore.ts:120-163 | the fields become `AfterNextSession` of the old fields; one completion signal |
| `PomodoroStore.Store.UpdateSettings` | pomodoro-timer/src/store/usePomodoroStore.ts:165-179 | the fields become `AfterUpdateSettings` of the old fields |
| `TimerEngineModel.EndCount` | pomodoro-timer/src/domain/pomodoro/timerEngine.ts:36 | counts the `onEnd` calls in a log, never more than its length |
| `TimerEngineModel.EndCountAppend` | pomodoro-timer/src/domain/pomodoro/timerEngine.ts:33-36 | the end count of a concatenated log is the sum of the two counts |
| `TimerEngineModel.SecondsLeftAt` | pomodoro-timer/src/domain/pomodoro/timerEngine.ts:32 | the reported value is non-negative, zero exactly when under 500 ms remain, and otherwise the nearest whole second |
| `TimerEngineModel.Initial` | pomodoro-timer/src/domain/pomodoro/timerEngine.ts:14-20 | the given duration, not running, nothing reported |
| `TimerEngineModel.AfterTick` | pomodoro-timer/src/domain/pomodoro/timerEngine.ts:29-40 | no-op unless running; reports the reading, and stops and reports the end exactly when it is 0; one end per stop |
| `TimerEngineModel.AfterStart` | pomodoro-timer/src/domain/pomodoro/timerEngine.ts:22-27 | end time now + duration*1000; the immediate tick reports max(0, duration) and ends at once exactly when duration <= 0 |
| `TimerEngineModel.AfterPause` | pomodoro-timer/src/domain/pomodoro/timerEngine.ts:42-47 | no-op unless running; otherwise stopped with the rounded, non-negative seconds left as duration |
| `TimerEngineModel.AfterResume` | pomodoro-timer/src/domain/pomodoro/timerEngine.ts:49-55 | no-op when running or duration <= 0; otherwise running with end time now + duration*1000 and a report of exactly duration |
| `TimerEngineModel.AfterReset` | pomodoro-timer/src/domain/pomodoro/timerEngine.ts:57-62 | duration d, stopped, and d reported |
| `TimerEngineModel.TickAfterEndIsNoop` | pomodoro-timer/src/domain/pomodoro/timerEngine.ts:30-37 | after the tick that ends the run, later ticks change nothing, so the end is reported once |
| `TimerEngineModel.TickReadingsNeverIncrease` | pomodoro-timer/src/domain/pomodoro/timerEngine.ts:32 | a later tick never reports more seconds |
| `TimerEngineModel.PauseResumeReportsPausedReading` | pomodoro-timer/src/domain/pomodoro/timerEngine.ts:42-55 | pause then resume reports the paused reading once more and keeps running |
| `TimerEngineModel.PausedAtZeroRefusesResume` | pomodoro-timer/src/domain/pomodoro/timerEngine.ts:46-50 | a pause that leaves nothing makes resume a no-op |
| `TimerEngineModel.EngineReadingVersusStore` | pomodoro-timer/src/domain/pomodoro/timerEngine.ts:32 | the engine's reading is at most the store's and at most one second below it |
| `TimerEngineModel.TimerEngine.constructor` | pomodoro-timer/src/domain/pomodoro/timerEngine.ts:14-20 | the new engine holds `Initial(duration)` and no runs |
| `TimerEngineModel.TimerEngine.Start` | pomodoro-timer/src/domain/pomodoro/timerEngine.ts:22-27 | the fields become `AfterStart` of the old fields; one more run |
| `TimerEngineModel.TimerEngine.Tick` | pomodoro-timer/src/domain/pomodoro/timerEngine.ts:29-40 | the fields become `AfterTick`; at most one end per run is kept invariant |
| `TimerEngineModel.TimerEngine.Pause` | pomodoro-timer/src/domain/pomodoro/timerEngine.ts:42-47 | the fields become `AfterPause` of the old fields |
| `TimerEngineModel.TimerEngine.Resume` | pomodoro-timer/src/domain/pomodoro/timerEngine.ts:49-55 | the fields become `AfterResume`; a run is counted exactly when it resumes |
| `TimerEngineModel.TimerEngine.Reset` | pomodoro-timer/src/domain/pomodoro/timerEngine.ts:57-62 | the fields become `AfterReset` of the old fields |
| `TimerScreen.DigitChar` | pomodoro-timer/src/features/timer/TimerScreen.tsx:6 | a digit character whose code is the digit's value |
| `TimerScreen.DigitValue` | pomodoro-timer/src/features/timer/TimerScreen.tsx:6 | inverse of `DigitChar` |
| `TimerScreen.DecimalString` | pomodoro-timer/src/features/timer/TimerScreen.tsx:6 | `String(n)` is non-empty decimal digits without leading zero, one digit below 10, two below 100, at least two from 10 |
| `TimerScreen.ParseDecimalString` | pomodoro-timer/src/features/timer/TimerScreen.tsx:6 | parsing `String(n)` gives back n |
| `TimerScreen.ParseIgnoresLeadingZeros` | pomodoro-timer/src/features/timer/TimerScreen.tsx:6 | zero padding does not change the parsed value |
| `TimerScreen.ParseZeros` | pomodoro-timer/src/features/timer/TimerScreen.tsx:6 | a string of pad zeros parses to 0 |
| `TimerScreen.Zeros` | pomodoro-timer/src/features/timer/TimerScreen.tsx:6 | exactly k pad characters '0' |
| `TimerScreen.PadTwo` | pomodoro-timer/src/features/timer/TimerScreen.tsx:6 | `padStart(2, "0")` gives zeros followed by the input, length max(2, len), never truncated |
| `TimerScreen.MinutesField` | pomodoro-timer/src/features/timer/TimerScreen.tsx:4-6 | the padded minutes are digits only, two characters below 10 minutes and otherwise exactly the minutes' digits |
| `TimerScreen.SecondsField` | pomodoro-timer/src/features/timer/TimerScreen.tsx:5-6 | the padded seconds are exactly two digits |
| `TimerScreen.FormatMMSS` | pomodoro-timer/src/features/timer/TimerScreen.tsx:3-7 | minutes field, ':' and a two-character seconds field; the minutes field is two characters below 10 minutes and otherwise exactly the minutes' digits |
| `TimerScreen.FormatShape` | pomodoro-timer/src/features/timer/TimerScreen.tsx:6 | exactly one ':', at least 5 characters, exactly 5 below 6000 seconds |
| `TimerScreen.FormatRoundTrip` | pomodoro-timer/src/features/timer/TimerScreen.tsx:3-7 | reading the display back gives floor(total/60) and total % 60, with seconds < 60 and 60*m + s == total |
| `TimerScreen.Occurrences` | pomodoro-timer/src/features/timer/TimerScreen.tsx:6 | counts a character, never more than the length |
| `TimerScreen.NoOccurrences` | pomodoro-timer/src/features/timer/TimerScreen.tsx:6 | a string without the character counts zero |
| `TimerScreen.OccurrencesAppend` | pomodoro-timer/src/features/timer/TimerScreen.tsx:6 | counts add over concatenation |
| `TimerScreen.IndexOf` | pomodoro-timer/src/features/timer/TimerScreen.tsx:6 | the first position of the character, or the length when absent |
| `TimerScreen.SessionIndex` | pomodoro-timer/src/features/timer/TimerScreen.tsx:27 | the index lies in [1, every] and is (workDone % every) + 1, so the `min` never takes effect |
| `TimerScreen.IndexAtEndOfBlockIffLongBreak` | pomodoro-timer/src/features/timer/TimerScreen.tsx:27 | the index shows `every` exactly when completing the current work session earns the long break |
| `TimerScreen.DisplayName` | pomodoro-timer/src/features/timer/TimerScreen.tsx:30-34 | each session type's name is non-empty |
| `TimerScreen.SessionLabel` | pomodoro-timer/src/features/timer/TimerScreen.tsx:29-35 | the job name when it is non-empty, otherwise the type's name; never empty |

## Left out

- Audio: the beep in `nextSession` (Web Audio plus `setTimeout`, with failures swallowed) is a ghost completion counter in `Store`. It increases by one per `nextSession`.
- Clock: `Date.now()` becomes the explicit `now` argument. In `TimerEngine.start` and `resume`, the immediate tick uses the same instant as the one that set the end time; in the code, it reads the clock again.
- Scheduling: `setInterval` in the ticker component, together with `setTimeout`, `clearTimeout` and `timerId` in the engine, is not modelled. Ticks are explicit calls.
- Persistence: the local storage adapter (`save`/`load`, JSON) and the `save` call in `updateSettings` are not modelled. The initial settings are a parameter; `DEFAULT_SETTINGS` is `SessionRules.DefaultSettings`.
- UI: the `showSettings` flag and `setShowSettings`, `accentClasses`, every component's JSX, and the settings panel are not modelled. The panel's clamp of every number to at least 1 (pomodoro-timer/src/features/settings/SettingsPanel.tsx:15, 22) becomes the predicates `SessionRules.ValidSettings` and `PomodoroStore.ClampedPatch`.
- SessionRules.NextSession: requires `sessionsBeforeLongBreak >= 1`. With 0, JavaScript's `x % 0` is NaN and the code picks a short break; that path is not modelled. The same holds for the store's inlined rule and for `SessionIndex`.
- PomodoroStore.Store.UpdateSettings: requires that the merged settings are valid (what the settings panel produces). Programmatic patches with non-positive values are not modelled.
- PomodoroStore.AfterPause: the `!endAtMs` guard in `pause` and `tick` also treats an end time of 0 as absent. The model uses an `Option` and ignores that instant.
- PomodoroStore.MergeSettings: a patch whose field is explicitly `undefined` would overwrite that field in the spread. The model counts it as absent.
- SessionRules.SessionDuration: the `default` branch of the switch cannot be reached for the three session types, so it is not modelled.
- Floating point: all arithmetic is over integers, so the rounding of `ms / 1000` for very large values is not modelled.
- TimerScreen.FormatMMSS: takes a non-negative total (the store's seconds are never negative). Negative inputs, whose `%` and `String` render a minus sign, are not modelled.
- The `PomodoroState` interface in the types file is unused by the code and is not modelled.
