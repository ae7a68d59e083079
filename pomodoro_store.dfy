/**
 * The timer store: one mutable record (status, session type, completed work
 * sessions, seconds left, absolute end time, settings) and the operations the
 * UI and the ticker call on it. Remaining time is always recomputed from the
 * absolute end time; the wall clock is an explicit `now` in milliseconds.
 *
 * The transitions are first given as functions on a `StoreState` value, where
 * their properties are proved; the class `Store` holds the same fields and its
 * methods update them in place, each proved to produce the function's result.
 */
module PomodoroStore {
  import opened Wrappers
  import opened JsMath
  import opened SessionRules

  /** `"idle" | "running" | "paused"`. */
  datatype Status = Idle | Running | Paused

  /** `Partial<PomodoroSettings>`: each field either replaces the current one or is absent. */
  datatype SettingsPatch = SettingsPatch(
    workDuration: Option<int>,
    shortBreakDuration: Option<int>,
    longBreakDuration: Option<int>,
    sessionsBeforeLongBreak: Option<int>,
    jobName: Option<string>)

  /** A patch whose numbers went through the settings panel's clamp to at least 1. */
  predicate ClampedPatch(p: SettingsPatch) {
    && (p.workDuration.Some? ==> p.workDuration.value >= 1)
    && (p.shortBreakDuration.Some? ==> p.shortBreakDuration.value >= 1)
    && (p.longBreakDuration.Some? ==> p.longBreakDuration.value >= 1)
    && (p.sessionsBeforeLongBreak.Some? ==> p.sessionsBeforeLongBreak.value >= 1)
  }

  /** `{ ...cur, ...patch }`: a field present in the patch wins, every other field is kept. */
  function MergeSettings(cur: Settings, patch: SettingsPatch): (r: Settings)
    ensures patch.workDuration.Some? ==> r.workDuration == patch.workDuration.value
    ensures patch.workDuration.None? ==> r.workDuration == cur.workDuration
    ensures patch.shortBreakDuration.Some? ==> r.shortBreakDuration == patch.shortBreakDuration.value
    ensures patch.shortBreakDuration.None? ==> r.shortBreakDuration == cur.shortBreakDuration
    ensures patch.longBreakDuration.Some? ==> r.longBreakDuration == patch.longBreakDuration.value
    ensures patch.longBreakDuration.None? ==> r.longBreakDuration == cur.longBreakDuration
    ensures patch.sessionsBeforeLongBreak.Some? ==> r.sessionsBeforeLongBreak == patch.sessionsBeforeLongBreak.value
    ensures patch.sessionsBeforeLongBreak.None? ==> r.sessionsBeforeLongBreak == cur.sessionsBeforeLongBreak
    ensures patch.jobName.Some? ==> r.jobName == patch.jobName.value
    ensures patch.jobName.None? ==> r.jobName == cur.jobName
    ensures ValidSettings(cur) && ClampedPatch(patch) ==> ValidSettings(r)
  {
    Settings(
      patch.workDuration.GetOr(cur.workDuration),
      patch.shortBreakDuration.GetOr(cur.shortBreakDuration),
      patch.longBreakDuration.GetOr(cur.longBreakDuration),
      patch.sessionsBeforeLongBreak.GetOr(cur.sessionsBeforeLongBreak),
      patch.jobName.GetOr(cur.jobName))
  }

  /**
   * `getSessionDurationSeconds`: the store's own lookup, written as an if-chain
   * whose last case covers the long break. It agrees with the session policy's
   * `getSessionDuration` on every session type.
   */
  function SessionDurationSeconds(t: SessionType, s: Settings): (r: int)
    ensures r == SessionDuration(t, s)
  {
    if t == Work then s.workDuration
    else if t == ShortBreak then s.shortBreakDuration
    else s.longBreakDuration
  }

  /**
   * `Math.max(0, Math.ceil((endAtMs - now) / 1000))`: whole seconds still to
   * go, zero exactly when the end time has been reached.
   */
  function RemainingSeconds(endAtMs: int, now: int): (r: int)
    ensures r >= 0
    ensures r == 0 <==> endAtMs <= now
    ensures r > 0 ==> MsPerSecond * (r - 1) < endAtMs - now <= MsPerSecond * r
  {
    Max(0, CeilSeconds(endAtMs - now))
  }

  /** The store's data fields (the UI flag `showSettings` is not modelled). */
  datatype StoreState = StoreState(
    status: Status,
    sessionType: SessionType,
    workSessionsCompleted: nat,
    secondsLeft: int,
    endAtMs: Option<int>,
    settings: Settings)

  /**
   * The store's invariant: settings within the panel's clamps, a non-negative
   * countdown, and an end time present exactly while running.
   */
  predicate Inv(st: StoreState) {
    && ValidSettings(st.settings)
    && st.secondsLeft >= 0
    && (st.endAtMs.Some? <==> st.status == Running)
  }

  /** The record the store is created with: idle, at the start of a work session. */
  function InitialState(settings: Settings): (r: StoreState)
    ensures r.status == Idle && r.sessionType == Work && r.workSessionsCompleted == 0
    ensures r.secondsLeft == settings.workDuration && r.endAtMs == None && r.settings == settings
    ensures ValidSettings(settings) ==> Inv(r)
  {
    StoreState(Idle, Work, 0, SessionDurationSeconds(Work, settings), None, settings)
  }

  /**
   * `start`: ignored while running. From idle the countdown is reloaded with the
   * current session's full duration; from paused the frozen value is kept. The
   * end time is then that many seconds after `now`.
   */
  function AfterStart(st: StoreState, now: int): (r: StoreState)
    ensures st.status == Running ==> r == st
    ensures st.status == Idle ==> r.secondsLeft == SessionDuration(st.sessionType, st.settings)
    ensures st.status == Paused ==> r.secondsLeft == st.secondsLeft
    ensures st.status != Running ==> r.status == Running && r.endAtMs == Some(now + r.secondsLeft * MsPerSecond)
    ensures r.sessionType == st.sessionType && r.workSessionsCompleted == st.workSessionsCompleted
    ensures r.settings == st.settings
    ensures Inv(st) ==> Inv(r)
  {
    if st.status == Running then st
    else
      var duration := SessionDurationSeconds(st.sessionType, st.settings);
      var initial := if st.status == Idle then duration else st.secondsLeft;
      st.(status := Running, secondsLeft := initial, endAtMs := Some(now + initial * MsPerSecond))
  }

  /**
   * `pause`: ignored unless running with an end time. Otherwise the countdown is
   * frozen at the whole seconds still to go and the end time is dropped.
   */
  function AfterPause(st: StoreState, now: int): (r: StoreState)
    ensures st.status != Running || st.endAtMs.None? ==> r == st
    ensures st.status == Running && st.endAtMs.Some? ==>
      && r.status == Paused && r.endAtMs == None
      && r.secondsLeft == RemainingSeconds(st.endAtMs.value, now)
    ensures r.sessionType == st.sessionType && r.workSessionsCompleted == st.workSessionsCompleted
    ensures r.settings == st.settings
    ensures Inv(st) ==> Inv(r)
  {
    if st.status != Running || st.endAtMs.None? then st
    else st.(status := Paused, secondsLeft := RemainingSeconds(st.endAtMs.value, now), endAtMs := None)
  }

  /**
   * `resume`: only from paused. The end time is set that many seconds after
   * `now`; the frozen countdown itself is not touched.
   */
  function AfterResume(st: StoreState, now: int): (r: StoreState)
    ensures st.status != Paused ==> r == st
    ensures st.status == Paused ==> r.status == Running && r.endAtMs == Some(now + st.secondsLeft * MsPerSecond)
    ensures r.secondsLeft == st.secondsLeft
    ensures r.sessionType == st.sessionType && r.workSessionsCompleted == st.workSessionsCompleted
    ensures r.settings == st.settings
    ensures Inv(st) ==> Inv(r)
  {
    if st.status != Paused then st
    else st.(status := Running, endAtMs := Some(now + st.secondsLeft * MsPerSecond))
  }

  /**
   * `reset`: from any status, back to idle with the current session's full
   * duration; the session type and the work count are kept.
   */
  function AfterReset(st: StoreState): (r: StoreState)
    ensures r.status == Idle && r.endAtMs == None
    ensures r.secondsLeft == SessionDuration(st.sessionType, st.settings)
    ensures r.sessionType == st.sessionType && r.workSessionsCompleted == st.workSessionsCompleted
    ensures r.settings == st.settings
    ensures Inv(st) ==> Inv(r)
  {
    st.(status := Idle, endAtMs := None, secondsLeft := SessionDurationSeconds(st.sessionType, st.settings))
  }

  /**
   * `nextSession`: the store's inlined long-break rule. A finished work session
   * raises the count and leads to a long break when the new count is a multiple
   * of `sessionsBeforeLongBreak`; a finished break leads to work. The result is
   * always idle and loaded with the new session's full duration, and the new
   * type is the one the session policy's `getNextSession` chooses.
   */
  function AfterNextSession(st: StoreState): (r: StoreState)
    requires st.settings.sessionsBeforeLongBreak >= 1
    ensures r.sessionType == NextSession(st.sessionType, st.workSessionsCompleted, st.settings)
    ensures st.sessionType == Work ==> r.workSessionsCompleted == st.workSessionsCompleted + 1
    ensures st.sessionType != Work ==> r.workSessionsCompleted == st.workSessionsCompleted
    ensures r.status == Idle && r.endAtMs == None
    ensures r.secondsLeft == SessionDuration(r.sessionType, st.settings)
    ensures r.settings == st.settings
    ensures ValidSettings(st.settings) ==> Inv(r)
  {
    if st.sessionType == Work then
      var nextWorkCount := st.workSessionsCompleted + 1;
      var goLong := nextWorkCount % st.settings.sessionsBeforeLongBreak == 0;
      var nextType := if goLong then LongBreak else ShortBreak;
      st.(workSessionsCompleted := nextWorkCount, sessionType := nextType,
          secondsLeft := SessionDurationSeconds(nextType, st.settings), status := Idle, endAtMs := None)
    else
      st.(sessionType := Work, secondsLeft := SessionDurationSeconds(Work, st.settings),
          status := Idle, endAtMs := None)
  }

  /**
   * `tick(nowMs)`: ignored unless running with an end time. Before the end time
   * only the countdown is refreshed; at or after it the session is complete:
   * the countdown is zeroed, the machine goes idle and `nextSession` advances to
   * the next session.
   */
  function AfterTick(st: StoreState, nowMs: int): (r: StoreState)
    requires st.settings.sessionsBeforeLongBreak >= 1
    ensures st.status != Running || st.endAtMs.None? ==> r == st
    ensures st.status == Running && st.endAtMs.Some? && nowMs < st.endAtMs.value ==>
      r == st.(secondsLeft := RemainingSeconds(st.endAtMs.value, nowMs)) && r.secondsLeft >= 1
    ensures st.status == Running && st.endAtMs.Some? && st.endAtMs.value <= nowMs ==>
      && r.status == Idle && r.endAtMs == None
      && r.sessionType == NextSession(st.sessionType, st.workSessionsCompleted, st.settings)
      && r.workSessionsCompleted == st.workSessionsCompleted + (if st.sessionType == Work then 1 else 0)
      && r.secondsLeft == SessionDuration(r.sessionType, st.settings)
      && r.settings == st.settings
    ensures Inv(st) ==> Inv(r)
  {
    if st.status != Running || st.endAtMs.None? then st
    else
      var left := RemainingSeconds(st.endAtMs.value, nowMs);
      if left <= 0 then AfterNextSession(st.(secondsLeft := 0, status := Idle, endAtMs := None))
      else st.(secondsLeft := left)
  }

  /**
   * `updateSettings(patch)`: the patch is merged over the settings. Unless the
   * timer is running, the countdown is retargeted to the current session's
   * full duration under the new settings and the end time is cleared; while
   * running the countdown in flight is left alone.
   */
  function AfterUpdateSettings(st: StoreState, patch: SettingsPatch): (r: StoreState)
    ensures r.settings == MergeSettings(st.settings, patch)
    ensures r.status == st.status && r.sessionType == st.sessionType
    ensures r.workSessionsCompleted == st.workSessionsCompleted
    ensures st.status == Running ==> r.secondsLeft == st.secondsLeft && r.endAtMs == st.endAtMs
    ensures st.status != Running ==>
      r.secondsLeft == SessionDuration(st.sessionType, r.settings) && r.endAtMs == None
    ensures Inv(st) && ValidSettings(r.settings) ==> Inv(r)
  {
    var next := MergeSettings(st.settings, patch);
    var updated := st.(settings := next);
    if st.status != Running then
      updated.(secondsLeft := SessionDurationSeconds(st.sessionType, next), endAtMs := None)
    else updated
  }

  /** One call into the store, with the instant the clock would have returned. */
  datatype Command =
    | StartCmd(now: int)
    | PauseCmd(now: int)
    | ResumeCmd(now: int)
    | ResetCmd
    | TickCmd(nowMs: int)
    | NextSessionCmd
    | UpdateSettingsCmd(patch: SettingsPatch)

  /** A command the UI can issue: settings patches come clamped from the settings panel. */
  predicate Admissible(c: Command) {
    c.UpdateSettingsCmd? ==> ClampedPatch(c.patch)
  }

  /** The state after one command. */
  function Apply(st: StoreState, c: Command): (r: StoreState)
    requires ValidSettings(st.settings) && Admissible(c)
    ensures Inv(st) ==> Inv(r)
  {
    match c
    case StartCmd(now) => AfterStart(st, now)
    case PauseCmd(now) => AfterPause(st, now)
    case ResumeCmd(now) => AfterResume(st, now)
    case ResetCmd => AfterReset(st)
    case TickCmd(nowMs) => AfterTick(st, nowMs)
    case NextSessionCmd => AfterNextSession(st)
    case UpdateSettingsCmd(patch) => AfterUpdateSettings(st, patch)
  }

  /**
   * The state after a sequence of commands, applied in order. Every state along
   * the way keeps the invariant, in particular "end time present exactly while
   * running".
   */
  function Run(st: StoreState, cmds: seq<Command>): (r: StoreState)
    requires Inv(st)
    requires forall i :: 0 <= i < |cmds| ==> Admissible(cmds[i])
    ensures Inv(r)
    decreases |cmds|
  {
    if cmds == [] then st else Run(Apply(st, cmds[0]), cmds[1..])
  }

  /** From the initial record, any sequence of UI commands keeps the invariant. */
  lemma {:induction false} InvariantFromInitialState(settings: Settings, cmds: seq<Command>)
    requires ValidSettings(settings)
    requires forall i :: 0 <= i < |cmds| ==> Admissible(cmds[i])
    ensures Inv(Run(InitialState(settings), cmds))
    ensures Run(InitialState(settings), cmds).endAtMs.Some? <==> Run(InitialState(settings), cmds).status == Running
  {
  }

  /** A second `start` does not disturb the countdown the first one set up. */
  lemma StartTwiceKeepsFirst(st: StoreState, now1: int, now2: int)
    ensures AfterStart(AfterStart(st, now1), now2) == AfterStart(st, now1)
  {
  }

  /**
   * While running with no other command in between, a later tick never shows
   * more seconds than an earlier one.
   */
  lemma TicksNeverIncrease(st: StoreState, now1: int, now2: int)
    requires Inv(st) && st.status == Running
    requires now1 <= now2
    ensures var t1 := AfterTick(st, now1);
      var t2 := AfterTick(t1, now2);
      t2.status == Running ==> t1.status == Running && t2.secondsLeft <= t1.secondsLeft
  {
    CeilSecondsMonotonic(st.endAtMs.value - now2, st.endAtMs.value - now1);
  }

  /**
   * Resuming from any paused state with seconds left, then ticking at the very
   * instant of the resume: the tick finds exactly the frozen seconds and
   * changes nothing. This covers a pause as well as a settings update while
   * paused.
   */
  lemma ResumeThenTickKeepsSeconds(st: StoreState, t: int)
    requires Inv(st) && st.status == Paused && st.secondsLeft > 0
    ensures AfterResume(st, t).secondsLeft == st.secondsLeft
    ensures AfterTick(AfterResume(st, t), t) == AfterResume(st, t)
  {
    WholeSecondsExact(st.secondsLeft);
  }

  /**
   * Pausing and then resuming keeps the frozen seconds; a tick at the resume
   * instant changes nothing unless the pause froze zero, in which case the
   * tick completes the session.
   */
  lemma PauseResumeTickKeepsSeconds(st: StoreState, pauseAt: int, resumeAt: int)
    requires Inv(st) && st.status == Running
    ensures var paused := AfterPause(st, pauseAt);
      var resumed := AfterResume(paused, resumeAt);
      && resumed.secondsLeft == paused.secondsLeft
      && (paused.secondsLeft > 0 ==> AfterTick(resumed, resumeAt) == resumed)
      && (paused.secondsLeft == 0 ==> AfterTick(resumed, resumeAt).status == Idle)
  {
    var paused := AfterPause(st, pauseAt);
    if paused.secondsLeft > 0 {
      ResumeThenTickKeepsSeconds(paused, resumeAt);
    }
  }

  /** A tick completes the running session exactly when the clock has reached the end time. */
  lemma TickCompletesIffEndReached(st: StoreState, nowMs: int)
    requires Inv(st) && st.status == Running
    ensures AfterTick(st, nowMs).status == Idle <==> st.endAtMs.value <= nowMs
    ensures AfterTick(st, nowMs).status == Running <==> nowMs < st.endAtMs.value
  {
  }

  /**
   * With the default settings, a work session started at time 0 and ticked at
   * 1500000 ms completes: the count becomes 1 and the store sits idle at the
   * start of a 300-second short break.
   */
  lemma DefaultWorkSessionScenario()
    ensures Run(InitialState(DefaultSettings), [StartCmd(0), TickCmd(1500000)])
         == StoreState(Idle, ShortBreak, 1, 300, None, DefaultSettings)
  {
    var s0 := InitialState(DefaultSettings);
    var s1 := AfterStart(s0, 0);
    assert Run(s0, [StartCmd(0), TickCmd(1500000)]) == Run(s1, [TickCmd(1500000)]);
    assert Run(s1, [TickCmd(1500000)]) == Run(AfterTick(s1, 1500000), []);
  }

  /** The fourth completed work session with the default settings earns the long break. */
  lemma FourthWorkSessionEarnsLongBreak(st: StoreState)
    requires st.sessionType == Work && st.workSessionsCompleted == 3 && st.settings == DefaultSettings
    ensures AfterNextSession(st).workSessionsCompleted == 4
    ensures AfterNextSession(st).sessionType == LongBreak
  {
  }

  /** Changing the work duration to 60 while idle in a work session shows 60 at once. */
  lemma UpdateWhileIdleRetargets(st: StoreState)
    requires st.status == Idle && st.sessionType == Work && st.endAtMs == None
    ensures var r := AfterUpdateSettings(st, SettingsPatch(Some(60), None, None, None, None));
      r.secondsLeft == 60 && r.endAtMs == None && r.status == Idle
  {
  }

  /**
   * The store record. Each method performs the same field updates as the
   * corresponding store operation and is proved to yield the transition
   * function's result. The completion beep is represented by a ghost counter.
   */
  class Store {
    var status: Status
    var sessionType: SessionType
    var workSessionsCompleted: nat
    var secondsLeft: int
    var endAtMs: Option<int>
    var settings: Settings
    /** How many completion signals (beeps) `NextSession` has emitted. */
    ghost var completionSignals: nat

    /** The fields as a value. */
    function State(): StoreState
      reads this
    {
      StoreState(status, sessionType, workSessionsCompleted, secondsLeft, endAtMs, settings)
    }

    ghost predicate Valid()
      reads this
    {
      Inv(State())
    }

    /** The store as created, from the loaded (or default) settings. */
    constructor (initialSettings: Settings)
      requires ValidSettings(initialSettings)
      ensures Valid() && State() == InitialState(initialSettings)
      ensures completionSignals == 0
    {
      status := Idle;
      sessionType := Work;
      workSessionsCompleted := 0;
      secondsLeft := SessionDurationSeconds(Work, initialSettings);
      endAtMs := None;
      settings := initialSettings;
      completionSignals := 0;
    }

    method Start(now: int)
      requires Valid()
      modifies this
      ensures Valid() && State() == AfterStart(old(State()), now)
      ensures completionSignals == old(completionSignals)
    {
      if status == Running {
        return;
      }
      var duration := SessionDurationSeconds(sessionType, settings);
      var initial := if status == Idle then duration else secondsLeft;
      var endAt := now + initial * MsPerSecond;
      status, secondsLeft, endAtMs := Running, initial, Some(endAt);
    }

    method Pause(now: int)
      requires Valid()
      modifies this
      ensures Valid() && State() == AfterPause(old(State()), now)
      ensures completionSignals == old(completionSignals)
    {
      if status != Running || endAtMs.None? {
        return;
      }
      var left := Max(0, CeilSeconds(endAtMs.value - now));
      status, secondsLeft, endAtMs := Paused, left, None;
    }

    method Resume(now: int)
      requires Valid()
      modifies this
      ensures Valid() && State() == AfterResume(old(State()), now)
      ensures completionSignals == old(completionSignals)
    {
      if status != Paused {
        return;
      }
      status, endAtMs := Running, Some(now + secondsLeft * MsPerSecond);
    }

    method Reset()
      requires Valid()
      modifies this
      ensures Valid() && State() == AfterReset(old(State()))
      ensures completionSignals == old(completionSignals)
    {
      status, endAtMs, secondsLeft := Idle, None, SessionDurationSeconds(sessionType, settings);
    }

    /** Zeroes the countdown first, then hands over to `NextSession` on completion. */
    method Tick(nowMs: int)
      requires Valid()
      modifies this
      ensures Valid() && State() == AfterTick(old(State()), nowMs)
      ensures completionSignals == old(completionSignals) + (if old(status) == Running && status != Running then 1 else 0)
    {
      if status != Running || endAtMs.None? {
        return;
      }
      var left := Max(0, CeilSeconds(endAtMs.value - nowMs));
      if left <= 0 {
        secondsLeft, status, endAtMs := 0, Idle, None;
        NextSession();
        return;
      }
      secondsLeft := left;
    }

    /** Signals the completion once, then moves to the next session. */
    method NextSession()
      requires Valid()
      modifies this
      ensures Valid() && State() == AfterNextSession(old(State()))
      ensures completionSignals == old(completionSignals) + 1
    {
      completionSignals := completionSignals + 1;
      if sessionType == Work {
        var nextWorkCount := workSessionsCompleted + 1;
        var goLong := nextWorkCount % settings.sessionsBeforeLongBreak == 0;
        var nextType := if goLong then LongBreak else ShortBreak;
        workSessionsCompleted, sessionType := nextWorkCount, nextType;
        secondsLeft, status, endAtMs := SessionDurationSeconds(nextType, settings), Idle, None;
        return;
      }
      sessionType, secondsLeft, status, endAtMs := Work, SessionDurationSeconds(Work, settings), Idle, None;
    }

    /** Two updates in sequence: the merged settings, then (unless running) the countdown. */
    method UpdateSettings(patch: SettingsPatch)
      requires Valid() && ValidSettings(MergeSettings(settings, patch))
      modifies this
      ensures Valid() && State() == AfterUpdateSettings(old(State()), patch)
      ensures completionSignals == old(completionSignals)
    {
      var next := MergeSettings(settings, patch);
      settings := next;
      if status != Running {
        secondsLeft, endAtMs := SessionDurationSeconds(sessionType, next), None;
      }
    }
  }
}
