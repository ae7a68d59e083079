/**
 * Session policy: which session follows the current one and how long a session
 * of each type lasts. Pure functions of their inputs.
 */
module SessionRules {
  /** `"work" | "short_break" | "long_break"`. */
  datatype SessionType = Work | ShortBreak | LongBreak

  /** `PomodoroSettings`; durations are whole seconds. */
  datatype Settings = Settings(
    workDuration: int,
    shortBreakDuration: int,
    longBreakDuration: int,
    sessionsBeforeLongBreak: int,
    jobName: string)

  /**
   * The settings the settings panel can produce: it clamps every number to at
   * least 1. The modulo in the long-break rule needs a nonzero divisor.
   */
  predicate ValidSettings(s: Settings) {
    && s.workDuration >= 1
    && s.shortBreakDuration >= 1
    && s.longBreakDuration >= 1
    && s.sessionsBeforeLongBreak >= 1
  }

  /** `DEFAULT_SETTINGS`: 25, 5 and 15 minutes, a long break every 4 work sessions. */
  const DefaultSettings: Settings := Settings(25 * 60, 5 * 60, 15 * 60, 4, "work")

  /** The defaults are 1500, 300 and 900 seconds, a long break every 4 sessions, and valid. */
  lemma DefaultSettingsValid()
    ensures DefaultSettings.workDuration == 1500 && DefaultSettings.shortBreakDuration == 300
    ensures DefaultSettings.longBreakDuration == 900 && DefaultSettings.sessionsBeforeLongBreak == 4
    ensures DefaultSettings.jobName == "work"
    ensures ValidSettings(DefaultSettings)
  {
  }

  /** True when the work session that brings the count to `completed + 1` earns a long break. */
  predicate EarnsLongBreak(completed: int, every: int)
    requires every >= 1
  {
    (completed + 1) % every == 0
  }

  /**
   * `getNextSession`: after work a long break when the new count is a multiple
   * of `sessionsBeforeLongBreak`, otherwise a short one; after any break, work.
   */
  function NextSession(current: SessionType, completedSessions: int, settings: Settings): (r: SessionType)
    requires settings.sessionsBeforeLongBreak >= 1
    ensures current == Work ==>
      (r == LongBreak <==> EarnsLongBreak(completedSessions, settings.sessionsBeforeLongBreak))
    ensures current == Work ==> r != Work
    ensures current != Work ==> r == Work
  {
    if current == Work then
      if (completedSessions + 1) % settings.sessionsBeforeLongBreak == 0 then LongBreak else ShortBreak
    else
      Work
  }

  /** `getSessionDuration`: the settings field that belongs to the session type. */
  function SessionDuration(session: SessionType, settings: Settings): (r: int)
    ensures session == Work ==> r == settings.workDuration
    ensures session == ShortBreak ==> r == settings.shortBreakDuration
    ensures session == LongBreak ==> r == settings.longBreakDuration
    ensures ValidSettings(settings) ==> r >= 1
  {
    match session
    case Work => settings.workDuration
    case ShortBreak => settings.shortBreakDuration
    case LongBreak => settings.longBreakDuration
  }

  /** Work and breaks alternate: the session after the next one has the current one's kind. */
  lemma WorkAndBreaksAlternate(current: SessionType, c1: int, c2: int, settings: Settings)
    requires settings.sessionsBeforeLongBreak >= 1
    ensures (NextSession(NextSession(current, c1, settings), c2, settings) == Work) <==> (current == Work)
  {
  }

  /** With one session before a long break, every break is a long one. */
  lemma EveryBreakLongWhenOne(completedSessions: int, settings: Settings)
    requires settings.sessionsBeforeLongBreak == 1
    ensures NextSession(Work, completedSessions, settings) == LongBreak
  {
  }

  /**
   * The long-break decision repeats with period `sessionsBeforeLongBreak`: the
   * count `k` sessions later gets the same kind of break.
   */
  lemma {:induction false} LongBreakPeriodic(completedSessions: int, settings: Settings)
    requires settings.sessionsBeforeLongBreak >= 1
    ensures NextSession(Work, completedSessions + settings.sessionsBeforeLongBreak, settings)
         == NextSession(Work, completedSessions, settings)
  {
    var k := settings.sessionsBeforeLongBreak;
    ModuloShift(completedSessions + 1, k);
  }

  /** Adding the divisor once does not change the remainder. */
  lemma ModuloShift(a: int, k: int)
    requires k >= 1
    ensures (a + k) % k == a % k
  {
    ModuloUnique(a + k, k, a / k + 1, a % k);
  }

  /** The remainder is the only `r` in `[0, k)` with `a == k * q + r`. */
  lemma ModuloUnique(a: int, k: int, q: int, r: int)
    requires k >= 1 && 0 <= r < k
    requires a == k * q + r
    ensures a % k == r
  {
    var q0, r0 := a / k, a % k;
    assert k * (q - q0) == r0 - r;
    MultipleOfDivisor(k, q - q0);
  }

  /** A nonzero multiple of `k` is at least `k` away from zero. */
  lemma MultipleOfDivisor(k: int, d: int)
    requires k >= 1
    ensures d >= 1 ==> k * d >= k
    ensures d <= -1 ==> k * d <= -k
  {
    if d >= 1 {
      assert k * d == k + k * (d - 1);
    } else if d <= -1 {
      assert k * d == -k + k * (d + 1);
    }
  }

  /**
   * Of `k` consecutive work completions exactly the last one of each block of
   * `k` earns a long break; in particular the one bringing the count to a
   * multiple of `k` does and the ones before it in that block do not.
   */
  lemma {:induction false} LongBreakOnlyAtBlockEnd(block: nat, i: nat, settings: Settings)
    requires settings.sessionsBeforeLongBreak >= 1
    requires i < settings.sessionsBeforeLongBreak
    ensures NextSession(Work, block * settings.sessionsBeforeLongBreak + i, settings) == LongBreak
        <==> i == settings.sessionsBeforeLongBreak - 1
  {
    var k := settings.sessionsBeforeLongBreak;
    var n := block * k + i + 1;
    if i == k - 1 {
      ModuloUnique(n, k, block + 1, 0);
    } else {
      ModuloUnique(n, k, block, i + 1);
    }
  }
}
