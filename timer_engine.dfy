/**
 * `TimerEngine`: a self-contained countdown object, separate from the store.
 * It rounds the remaining time to the nearest second (the store takes the
 * ceiling), reports every reading through `onTick` and the end through
 * `onEnd`. Here the callbacks are an appended event log and the clock is an
 * explicit `now` in milliseconds; a tick called with `now` stands for both the
 * immediate tick inside `start`/`resume` and each rescheduled one.
 */
module TimerEngineModel {
  import opened JsMath

  /** One callback invocation. */
  datatype Event = OnTick(secondsLeft: int) | OnEnd

  /** The engine's fields (`timerId` and the callbacks themselves are not modelled). */
  datatype EngineState = EngineState(
    duration: int,
    startTime: int,
    endTime: int,
    running: bool,
    events: seq<Event>)

  /** Number of `onEnd` calls in a log. */
  function EndCount(events: seq<Event>): (n: nat)
    ensures n <= |events|
  {
    if events == [] then 0
    else EndCount(events[..|events| - 1]) + (if events[|events| - 1] == OnEnd then 1 else 0)
  }

  /** The end count of a log extended at the back. */
  lemma {:induction false} EndCountAppend(a: seq<Event>, b: seq<Event>)
    ensures EndCount(a + b) == EndCount(a) + EndCount(b)
    decreases |b|
  {
    if b == [] {
      assert a + b == a;
    } else {
      var b' := b[..|b| - 1];
      assert (a + b)[..|a + b| - 1] == a + b';
      EndCountAppend(a, b');
    }
  }

  /** `Math.max(0, Math.round((endTime - now) / 1000))`: the reading a tick reports. */
  function SecondsLeftAt(endTime: int, now: int): (r: int)
    ensures r >= 0
    ensures r == 0 <==> endTime - now < 500
    ensures r > 0 ==> MsPerSecond * r - 500 <= endTime - now < MsPerSecond * r + 500
  {
    Max(0, RoundSeconds(endTime - now))
  }

  /** The engine as constructed: not running, nothing reported yet. */
  function Initial(duration: int): (r: EngineState)
    ensures r.duration == duration && !r.running && r.events == []
  {
    EngineState(duration, 0, 0, false, [])
  }

  /**
   * `tick`: ignored unless running. Reports the rounded seconds left; when that
   * is zero the engine stops and reports the end, otherwise it keeps running.
   */
  function AfterTick(e: EngineState, now: int): (r: EngineState)
    ensures !e.running ==> r == e
    ensures e.running ==>
      var left := SecondsLeftAt(e.endTime, now);
      && r.events == e.events + [OnTick(left)] + (if left == 0 then [OnEnd] else [])
      && (r.running <==> left > 0)
    ensures r.duration == e.duration && r.startTime == e.startTime && r.endTime == e.endTime
    ensures EndCount(r.events) == EndCount(e.events) + (if e.running && !r.running then 1 else 0)
  {
    if !e.running then e
    else
      var left := SecondsLeftAt(e.endTime, now);
      var ticked := e.(events := e.events + [OnTick(left)]);
      EndCountAppend(e.events, [OnTick(left)]);
      if left <= 0 then
        EndCountAppend(ticked.events, [OnEnd]);
        ticked.(running := false, events := ticked.events + [OnEnd])
      else ticked
  }

  /**
   * `start`: no guard, so a running engine restarts too. The end time is
   * `duration` seconds after `now` and the immediate tick reports the full
   * duration (zero if it is negative), ending at once when there is nothing to
   * count down.
   */
  function AfterStart(e: EngineState, now: int): (r: EngineState)
    ensures r.startTime == now && r.endTime == now + e.duration * MsPerSecond
    ensures r.duration == e.duration
    ensures r.events == e.events + [OnTick(Max(0, e.duration))] + (if e.duration <= 0 then [OnEnd] else [])
    ensures r.running <==> e.duration > 0
  {
    WholeSecondsExact(e.duration);
    AfterTick(e.(startTime := now, endTime := now + e.duration * MsPerSecond, running := true), now)
  }

  /**
   * `pause`: ignored unless running. Stops the engine and keeps the rounded
   * seconds left, never negative, as the new duration. Nothing is reported.
   */
  function AfterPause(e: EngineState, now: int): (r: EngineState)
    ensures !e.running ==> r == e
    ensures e.running ==> !r.running && r.duration == SecondsLeftAt(e.endTime, now) && r.duration >= 0
    ensures r.events == e.events && r.startTime == e.startTime && r.endTime == e.endTime
  {
    if !e.running then e
    else e.(running := false, duration := SecondsLeftAt(e.endTime, now))
  }

  /**
   * `resume`: ignored when running or when nothing is left (`duration <= 0`).
   * Otherwise the end time is `duration` seconds after `now` and the immediate
   * tick reports exactly `duration`, leaving the engine running.
   */
  function AfterResume(e: EngineState, now: int): (r: EngineState)
    ensures e.running || e.duration <= 0 ==> r == e
    ensures !e.running && e.duration > 0 ==>
      && r.running && r.startTime == now && r.endTime == now + e.duration * MsPerSecond
      && r.events == e.events + [OnTick(e.duration)]
    ensures r.duration == e.duration
  {
    if e.running || e.duration <= 0 then e
    else
      WholeSecondsExact(e.duration);
      AfterTick(e.(running := true, startTime := now, endTime := now + e.duration * MsPerSecond), now)
  }

  /** `reset(d)`: stops the engine with duration `d` and reports `d` as the reading. */
  function AfterReset(e: EngineState, d: int): (r: EngineState)
    ensures r.duration == d && !r.running
    ensures r.events == e.events + [OnTick(d)]
    ensures r.startTime == e.startTime && r.endTime == e.endTime
  {
    e.(duration := d, running := false, events := e.events + [OnTick(d)])
  }

  /** After the tick that reports the end, further ticks change nothing: `onEnd` fires once per run. */
  lemma TickAfterEndIsNoop(e: EngineState, now1: int, now2: int)
    requires e.running && SecondsLeftAt(e.endTime, now1) == 0
    ensures AfterTick(AfterTick(e, now1), now2) == AfterTick(e, now1)
    ensures EndCount(AfterTick(AfterTick(e, now1), now2).events) == EndCount(e.events) + 1
  {
  }

  /** While running, a later tick never reports more seconds than an earlier one. */
  lemma TickReadingsNeverIncrease(e: EngineState, now1: int, now2: int)
    requires now1 <= now2
    ensures SecondsLeftAt(e.endTime, now2) <= SecondsLeftAt(e.endTime, now1)
  {
    RoundSecondsMonotonic(e.endTime - now2, e.endTime - now1);
  }

  /**
   * Pausing and resuming at once reports the paused reading again, and keeps
   * the engine running, whenever that reading is positive.
   */
  lemma PauseResumeReportsPausedReading(e: EngineState, pauseAt: int, resumeAt: int)
    requires e.running
    requires SecondsLeftAt(e.endTime, pauseAt) > 0
    ensures var p := AfterPause(e, pauseAt);
      var r := AfterResume(p, resumeAt);
      r.running && r.events == e.events + [OnTick(SecondsLeftAt(e.endTime, pauseAt))]
  {
  }

  /** A pause that leaves nothing makes the engine refuse to resume. */
  lemma PausedAtZeroRefusesResume(e: EngineState, pauseAt: int, resumeAt: int)
    requires e.running && e.endTime - pauseAt < 500
    ensures AfterResume(AfterPause(e, pauseAt), resumeAt) == AfterPause(e, pauseAt)
  {
  }

  /**
   * The engine's rounded reading is never above the store's ceiling reading
   * for the same end time, and at most one second below it.
   */
  lemma EngineReadingVersusStore(endTime: int, now: int)
    ensures var ceil := Max(0, CeilSeconds(endTime - now));
      ceil - 1 <= SecondsLeftAt(endTime, now) <= ceil
  {
    RoundWithinOneOfCeil(endTime - now);
  }

  /**
   * The engine object. `runs` is a ghost count of the calls that set it
   * running; the invariant says the `onEnd` calls in the log, plus one for a
   * run still in progress, never exceed it.
   */
  class TimerEngine {
    var duration: int
    var startTime: int
    var endTime: int
    var running: bool
    /** Every `onTick` / `onEnd` call so far, in order. */
    var events: seq<Event>
    ghost var runs: nat

    function State(): EngineState
      reads this
    {
      EngineState(duration, startTime, endTime, running, events)
    }

    ghost predicate Valid()
      reads this
    {
      EndCount(events) + (if running then 1 else 0) <= runs
    }

    constructor (duration: int)
      ensures Valid() && State() == Initial(duration) && runs == 0
    {
      this.duration := duration;
      startTime := 0;
      endTime := 0;
      running := false;
      events := [];
      runs := 0;
    }

    method Start(now: int)
      requires Valid()
      modifies this
      ensures Valid() && State() == AfterStart(old(State()), now) && runs == old(runs) + 1
    {
      startTime := now;
      endTime := startTime + duration * MsPerSecond;
      running := true;
      runs := runs + 1;
      Tick(now);
    }

    method Tick(now: int)
      requires Valid()
      modifies this
      ensures Valid() && State() == AfterTick(old(State()), now) && runs == old(runs)
    {
      if !running {
        return;
      }
      ghost var before := State();
      var secondsLeft := Max(0, RoundSeconds(endTime - now));
      assert secondsLeft == SecondsLeftAt(endTime, now);
      events := events + [OnTick(secondsLeft)];
      if secondsLeft <= 0 {
        running := false;
        events := events + [OnEnd];
        assert State() == AfterTick(before, now);
        return;
      }
      assert State() == AfterTick(before, now);
    }

    method Pause(now: int)
      requires Valid()
      modifies this
      ensures Valid() && State() == AfterPause(old(State()), now) && runs == old(runs)
    {
      if !running {
        return;
      }
      running := false;
      duration := Max(0, RoundSeconds(endTime - now));
    }

    method Resume(now: int)
      requires Valid()
      modifies this
      ensures Valid() && State() == AfterResume(old(State()), now)
      ensures runs == old(runs) + (if old(running) || old(duration) <= 0 then 0 else 1)
    {
      if running || duration <= 0 {
        return;
      }
      running := true;
      runs := runs + 1;
      startTime := now;
      endTime := startTime + duration * MsPerSecond;
      Tick(now);
    }

    method Reset(d: int)
      requires Valid()
      modifies this
      ensures Valid() && State() == AfterReset(old(State()), d) && runs == old(runs)
    {
      duration := d;
      running := false;
      EndCountAppend(events, [OnTick(d)]);
      events := events + [OnTick(d)];
    }
  }
}
