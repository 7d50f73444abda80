/**
 * The engine's phase clock. It is started for a duration, reports the fraction
 * of the duration elapsed on every tick, and signals completion once; pausing
 * records the time and resuming shifts the start time by the pause's length.
 * The clock is the `now` parameter (milliseconds); the frame scheduler that
 * calls `Tick` again after every tick below completion is the caller.
 */
module BreathingTimerEngine {
  import opened Wrappers
  import opened ProfileTypes

  const AlreadyRunning := BreathingError(TimerSyncError, "Timer is already running")

  /** `Math.min(elapsed / duration, 1)`. */
  function ProgressAt(startTime: int, duration: real, now: int): (r: real)
    requires duration > 0.0
    ensures r <= 1.0
    ensures now >= startTime ==> r >= 0.0
    ensures r == 1.0 <==> (now - startTime) as real >= duration
    ensures r < 1.0 ==> r * duration == (now - startTime) as real
  {
    var p := (now - startTime) as real / duration;
    assert p * duration == (now - startTime) as real;
    if p < 1.0 then p else 1.0
  }

  /** For a clock that does not go back, progress never decreases. */
  lemma ProgressMonotone(startTime: int, duration: real, now1: int, now2: int)
    requires duration > 0.0 && now1 <= now2
    ensures ProgressAt(startTime, duration, now1) <= ProgressAt(startTime, duration, now2)
  {
    DivideMonotone((now1 - startTime) as real, (now2 - startTime) as real, duration);
  }

  lemma DivideMonotone(a: real, b: real, d: real)
    requires a <= b && d > 0.0
    ensures a / d <= b / d
  {
    var q := (b - a) / d;
    assert q * d == b - a;
    assert q >= 0.0;
    assert b / d == a / d + q;
  }

  /** What one tick delivered: nothing, or the progress passed to `onTick` and whether `onComplete` followed. */
  datatype TickReport = NotTicked | Ticked(progress: real, completed: bool)

  class BreathingTimer {
    var isActive: bool
    var startTime: int
    /** Unset is `None`; the TypeScript implementation tests it with `!pauseTime`, so a time of 0 counts as unset too. */
    var pauseTime: Option<int>
    var duration: real

    /** Whenever the timer may tick, the duration it divides by is positive. */
    ghost predicate Valid()
      reads this
    {
      duration > 0.0 || (!isActive && pauseTime == None)
    }

    constructor ()
      ensures Valid()
      ensures !isActive && startTime == 0 && pauseTime == None && duration == 0.0
    {
      isActive := false;
      startTime := 0;
      pauseTime := None;
      duration := 0.0;
    }

    /** `!!pauseTime`. */
    predicate IsPaused()
      reads this
    {
      pauseTime.Some? && pauseTime.value != 0
    }

    predicate IsRunning()
      reads this
    {
      isActive
    }

    /** Zero whenever the timer is not running, paused included. */
    function GetProgress(now: int): (r: real)
      reads this
      requires Valid()
      ensures !isActive ==> r == 0.0
      ensures isActive ==> r == ProgressAt(startTime, duration, now) && r <= 1.0
    {
      if !isActive then 0.0 else ProgressAt(startTime, duration, now)
    }

    /**
     * Starting a running timer fails before anything is touched. Otherwise the
     * timer records the duration and the start time, becomes active, and ticks
     * at once: progress 0, not complete.
     */
    method Start(newDuration: real, now: int) returns (r: Outcome<BreathingError>, report: TickReport)
      requires Valid() && newDuration > 0.0
      modifies this
      ensures Valid()
      ensures old(isActive) ==>
        && r == Fail(AlreadyRunning) && report == NotTicked
        && isActive && startTime == old(startTime) && duration == old(duration) && pauseTime == old(pauseTime)
      ensures !old(isActive) ==>
        && r == Pass && report == Ticked(0.0, false)
        && isActive && startTime == now && duration == newDuration && pauseTime == old(pauseTime)
    {
      if isActive {
        return Fail(AlreadyRunning), NotTicked;
      }
      duration := newDuration;
      startTime := now;
      isActive := true;
      r := Pass;
      report := Tick(now);
    }

    /**
     * An inactive timer does nothing. An active one reports its progress; below
     * 1 it stays active for the next frame, at 1 it becomes inactive before
     * signalling completion, so no later tick of this run can complete again.
     */
    method Tick(now: int) returns (report: TickReport)
      requires Valid()
      modifies this`isActive
      ensures Valid()
      ensures !old(isActive) ==> report == NotTicked && !isActive
      ensures old(isActive) ==>
        var p := ProgressAt(startTime, duration, now);
        report == Ticked(p, p == 1.0) && isActive == (p < 1.0)
    {
      if !isActive {
        return NotTicked;
      }
      var progress := ProgressAt(startTime, duration, now);
      if progress < 1.0 {
        report := Ticked(progress, false);
      } else {
        isActive := false;
        report := Ticked(progress, true);
      }
    }

    /** Pausing an inactive timer does nothing; otherwise it stops ticking and records the time. */
    method Pause(now: int)
      requires Valid()
      modifies this
      ensures Valid()
      ensures !isActive && startTime == old(startTime) && duration == old(duration)
      ensures pauseTime == if old(isActive) then Some(now) else old(pauseTime)
    {
      if !isActive {
        return;
      }
      isActive := false;
      pauseTime := Some(now);
    }

    /**
     * Resuming does nothing while active or without a recorded pause.
     * Otherwise the start time moves forward by the pause's length, so the
     * elapsed time, and the progress the immediate tick reports, are those of
     * the moment of pausing.
     */
    method Resume(now: int) returns (report: TickReport)
      requires Valid()
      modifies this
      ensures Valid() && duration == old(duration)
      ensures old(isActive) || !old(IsPaused()) ==>
        report == NotTicked && isActive == old(isActive) && startTime == old(startTime) && pauseTime == old(pauseTime)
      ensures !old(isActive) && old(IsPaused()) ==>
        && startTime == old(startTime) + (now - old(pauseTime).value)
        && now - startTime == old(pauseTime).value - old(startTime)
        && pauseTime == None
        && var p := ProgressAt(old(startTime), duration, old(pauseTime).value);
           report == Ticked(p, p == 1.0) && isActive == (p < 1.0)
    {
      if isActive || !IsPaused() {
        return NotTicked;
      }
      var pauseDuration := now - pauseTime.value;
      startTime := startTime + pauseDuration;
      pauseTime := None;
      isActive := true;
      report := Tick(now);
    }

    /** Stops ticking without touching the recorded pause, so a paused-then-stopped timer still reports paused and can be resumed. */
    method Stop()
      requires Valid()
      modifies this`isActive
      ensures Valid() && !isActive
    {
      isActive := false;
    }

    /**
     * The frame scheduler: one tick per clock reading. A running timer ticks at
     * the first reading and keeps ticking, each tick reporting the progress at
     * its reading, until a tick signals completion; after that, and for a
     * timer that was not running, every tick does nothing. For a clock that
     * does not go back, the reported progress never decreases.
     */
    method DriveTicks(clock: seq<int>) returns (reports: seq<TickReport>)
      requires Valid()
      requires forall i, j :: 0 <= i <= j < |clock| ==> clock[i] <= clock[j]
      modifies this`isActive
      ensures Valid() && |reports| == |clock|
      ensures forall i, j :: (0 <= i < j < |reports| && reports[i].Ticked? && reports[j].Ticked?
        ==> reports[i].progress <= reports[j].progress)
      ensures forall i, j :: (0 <= i < j < |reports| && reports[i].Ticked? && reports[i].completed
        ==> reports[j] == NotTicked)
      ensures forall i :: 0 <= i < |reports| && reports[i].Ticked? ==> reports[i].progress <= 1.0
      ensures forall k :: 0 <= k < |reports| && reports[k].Ticked? ==>
        && duration > 0.0 && reports[k].progress == ProgressAt(startTime, duration, clock[k])
        && (reports[k].completed <==> reports[k].progress == 1.0)
      ensures old(isActive) && |clock| > 0 ==> reports[0].Ticked?
      ensures forall k :: 0 < k < |reports| && reports[k - 1].Ticked? && !reports[k - 1].completed ==> reports[k].Ticked?
      ensures !old(isActive) ==> forall k :: 0 <= k < |reports| ==> reports[k] == NotTicked
      ensures isActive == if |reports| == 0 then old(isActive) else reports[|reports| - 1].Ticked? && !reports[|reports| - 1].completed
    {
      reports := [];
      var i := 0;
      while i < |clock|
        invariant 0 <= i <= |clock| && |reports| == i
        invariant Valid() && startTime == old(startTime) && duration == old(duration)
        invariant forall k :: 0 <= k < i && reports[k].Ticked? ==>
          && duration > 0.0 && reports[k].progress == ProgressAt(startTime, duration, clock[k])
          && (reports[k].completed <==> reports[k].progress == 1.0)
        invariant isActive == if i == 0 then old(isActive) else reports[i - 1].Ticked? && !reports[i - 1].completed
        invariant 0 < i ==> (reports[0].Ticked? <==> old(isActive))
        invariant !old(isActive) ==> forall k :: 0 <= k < i ==> reports[k] == NotTicked
        invariant forall k :: 0 < k < i ==> (reports[k].Ticked? <==> reports[k - 1].Ticked? && !reports[k - 1].completed)
        invariant forall k :: 0 <= k < i && reports[k].Ticked? && reports[k].completed ==>
          !isActive && forall m :: k < m < i ==> reports[m] == NotTicked
      {
        var report := Tick(clock[i]);
        reports := reports + [report];
        i := i + 1;
      }
      forall i, j | 0 <= i < j < |reports| && reports[i].Ticked? && reports[j].Ticked?
        ensures reports[i].progress <= reports[j].progress
      {
        ProgressMonotone(startTime, duration, clock[i], clock[j]);
      }
    }
  }
}
