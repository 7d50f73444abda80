/**
 * The hook that drives the app: phase durations, and the decision taken when a
 * phase's timeout fires, as the list of actions it dispatches. Folding that
 * list through the reducer gives the state after the firing. The timeout
 * itself (set when the phase starts, cleared on pause, stop or phase change)
 * is the caller.
 */
module UseBreathingTimer {
  import opened AppTypes
  import opened BreathingContext
  import Constants
  import WimHof

  /**
   * The hold duration for a round: a third of the target in the first third of
   * the rounds, two thirds in the second, the whole target after. With zero
   * rounds JavaScript divides to +Infinity, -Infinity or NaN, and only
   * -Infinity passes the first comparison.
   */
  function GetHoldTime(settings: BreathingSettings, round: int): (r: real)
    ensures var target := settings.breathHoldTarget;
      r == target / 3.0 || r == (target * 2.0) / 3.0 || r == target
  {
    var target := settings.breathHoldTarget;
    if settings.numberOfRounds == 0 then
      (if round < 0 then target / 3.0 else target)
    else
      var fraction := round as real / settings.numberOfRounds as real;
      if fraction <= 1.0 / 3.0 then target / 3.0
      else if fraction <= 2.0 / 3.0 then (target * 2.0) / 3.0
      else target
  }

  /** The hook's copy of the thirds rule agrees with the Wim Hof profile's on every input. */
  lemma HoldTimeRulesAgree(settings: BreathingSettings, round: int)
    ensures GetHoldTime(settings, round)
         == WimHof.HoldTimeProgression(round, settings.numberOfRounds, settings.breathHoldTarget)
  {
  }

  /** `phaseTimings[phase]`, in seconds. */
  function PhaseTiming(state: BreathingState, phase: BreathingPhase): real {
    match phase
    case Inhale => state.settings.inhaleExhaleTime
    case Exhale => state.settings.inhaleExhaleTime
    case Hold => GetHoldTime(state.settings, state.session.currentRound)
    case RecoveryInhale => state.settings.inhaleExhaleTime
    case RecoveryHold => Constants.RecoveryHoldTime
    case RecoveryExhale => state.settings.inhaleExhaleTime
  }

  /**
   * Breaths take the configured breath time, the recovery hold 15 seconds and
   * the hold the round's share of the target; with a positive breath time and
   * target every phase lasts a positive time.
   */
  lemma PhaseTimings(state: BreathingState, phase: BreathingPhase)
    ensures phase != Hold && phase != RecoveryHold ==> PhaseTiming(state, phase) == state.settings.inhaleExhaleTime
    ensures PhaseTiming(state, RecoveryHold) == 15.0
    ensures PhaseTiming(state, Hold) == WimHof.HoldTimeProgression(
      state.session.currentRound, state.settings.numberOfRounds, state.settings.breathHoldTarget)
    ensures state.settings.inhaleExhaleTime > 0.0 && state.settings.breathHoldTarget > 0.0
      ==> PhaseTiming(state, phase) > 0.0
  {
    HoldTimeRulesAgree(state.settings, state.session.currentRound);
  }

  /** A nine-second target over three rounds holds for 3, 6 and 9 seconds; over two rounds for 6 and 9. */
  lemma HoldTimeExamples(settings: BreathingSettings)
    requires settings.breathHoldTarget == 9.0
    ensures settings.numberOfRounds == 3 ==>
      GetHoldTime(settings, 1) == 3.0 && GetHoldTime(settings, 2) == 6.0 && GetHoldTime(settings, 3) == 9.0
    ensures settings.numberOfRounds == 2 ==>
      GetHoldTime(settings, 1) == 6.0 && GetHoldTime(settings, 2) == 9.0
  {
  }

  /** `Array.prototype.indexOf`: the first position of `p`, or -1. */
  function IndexOf(s: seq<BreathingPhase>, p: BreathingPhase): (r: int)
    ensures -1 <= r < |s|
    ensures r >= 0 ==> s[r] == p && p !in s[..r]
    ensures r == -1 <==> p !in s
    decreases |s|
  {
    if |s| == 0 then -1
    else if s[0] == p then 0
    else
      var i := IndexOf(s[1..], p);
      if i == -1 then -1
      else
        assert s[..i + 1] == [s[0]] + s[1..][..i];
        i + 1
  }

  /** The actions dispatched when the current phase's timeout fires, computed from the state it was set in. */
  function MoveToNextPhase(state: BreathingState): (actions: seq<Action>)
    ensures !state.session.isActive || state.session.isPaused ==> actions == []
    ensures |actions| <= 3
    ensures forall i :: 0 <= i < |actions| ==> !actions[i].UpdateSettings?
  {
    var s := state.session;
    if !s.isActive || s.isPaused then []
    else if !s.isInRecoveryPhase then
      if s.currentPhase == Inhale then
        [UpdatePhase(Exhale)]
      else if s.currentPhase == Exhale then
        [IncrementBreath]
        + if s.currentBreath < state.settings.breathsBeforeHold
          then [UpdatePhase(Inhale)]
          else [SetRecoveryPhase(true), UpdatePhase(Hold)]
      else []
    else
      var order := Constants.RecoveryPhaseOrder;
      var currentIndex := IndexOf(order, s.currentPhase);
      if currentIndex < |order| - 1 then
        [UpdatePhase(order[currentIndex + 1])]
      else if s.currentRound >= state.settings.numberOfRounds then
        [StopSession]
      else
        [UpdateRound(s.currentRound + 1), UpdatePhase(Inhale)]
  }

  /** The phase after `p` in recovery; a phase outside the recovery order (index -1) goes to the hold. */
  function RecoveryNext(p: BreathingPhase): BreathingPhase {
    match p
    case Hold => RecoveryInhale
    case RecoveryInhale => RecoveryHold
    case RecoveryHold => RecoveryExhale
    case _ => Hold
  }

  /** The state after a timeout fires: the dispatched actions applied in order. */
  function Fire(state: BreathingState): (r: BreathingState)
    ensures r.settings == state.settings
    ensures !state.session.isActive || state.session.isPaused ==> r == state
  {
    var actions := MoveToNextPhase(state);
    ReduceAllShort(state, actions);
    ReduceAll(state, actions)
  }

  /**
   * What one firing does to a running session: outside recovery an inhale
   * becomes an exhale, and an exhale counts the breath and goes back to inhale,
   * or into the hold and recovery once `breathsBeforeHold` breaths are reached;
   * in recovery the phases follow the recovery order, and the recovery exhale
   * starts the next round at its first inhale and breath 1, or stops the
   * session after the last round.
   */
  lemma {:induction false} FireEffect(state: BreathingState)
    requires state.session.isActive && !state.session.isPaused
    ensures var s := state.session;
      !s.isInRecoveryPhase ==>
        Fire(state).session == (
          if s.currentPhase == Inhale then s.(currentPhase := Exhale)
          else if s.currentPhase != Exhale then s
          else if s.currentBreath < state.settings.breathsBeforeHold
          then s.(currentPhase := Inhale, currentBreath := s.currentBreath + 1)
          else s.(currentPhase := Hold, currentBreath := s.currentBreath + 1, isInRecoveryPhase := true))
    ensures var s := state.session;
      s.isInRecoveryPhase ==>
        Fire(state).session == (
          if s.currentPhase != RecoveryExhale then s.(currentPhase := RecoveryNext(s.currentPhase))
          else if s.currentRound >= state.settings.numberOfRounds then InitialSession
          else s.(currentRound := s.currentRound + 1, currentBreath := 1, isInRecoveryPhase := false, currentPhase := Inhale))
  {
    ReduceAllShort(state, MoveToNextPhase(state));
  }

  /** Folding up to three actions, written out. */
  lemma ReduceAllShort(state: BreathingState, actions: seq<Action>)
    ensures |actions| == 0 ==> ReduceAll(state, actions) == state
    ensures |actions| == 1 ==> ReduceAll(state, actions) == Reduce(state, actions[0])
    ensures |actions| == 2 ==> ReduceAll(state, actions) == Reduce(Reduce(state, actions[0]), actions[1])
    ensures |actions| == 3 ==>
      ReduceAll(state, actions) == Reduce(Reduce(Reduce(state, actions[0]), actions[1]), actions[2])
  {
    if |actions| > 0 {
      var s1 := Reduce(state, actions[0]);
      assert ReduceAll(state, actions) == ReduceAll(s1, actions[1..]);
      if |actions| > 1 {
        var s2 := Reduce(s1, actions[1]);
        assert actions[1..][0] == actions[1] && actions[1..][1..] == actions[2..];
        assert ReduceAll(s1, actions[1..]) == ReduceAll(s2, actions[2..]);
        if |actions| > 2 {
          var s3 := Reduce(s2, actions[2]);
          assert actions[2..][0] == actions[2] && actions[2..][1..] == actions[3..];
          assert ReduceAll(s2, actions[2..]) == ReduceAll(s3, actions[3..]);
          if |actions| == 3 {
            assert actions[3..] == [];
          }
        } else {
          assert actions[2..] == [];
        }
      } else {
        assert actions[1..] == [];
      }
    }
  }

  /** `n` timeouts in a row, each set in the state the previous one left. */
  function Run(state: BreathingState, n: nat): BreathingState
    decreases n
  {
    if n == 0 then state else Run(Fire(state), n - 1)
  }

  lemma {:induction false} RunAdd(state: BreathingState, a: nat, b: nat)
    ensures Run(state, a + b) == Run(Run(state, a), b)
    decreases a
  {
    if a > 0 {
      RunAdd(Fire(state), a - 1, b);
    }
  }

  /** Running, not paused, outside recovery, at the inhale of breath `breath`. */
  predicate BreathingAt(state: BreathingState, breath: int) {
    var s := state.session;
    s.isActive && !s.isPaused && !s.isInRecoveryPhase && s.currentPhase == Inhale && s.currentBreath == breath
  }

  /**
   * From the inhale of breath `b <= breathsBeforeHold` the app inhales and
   * exhales `breathsBeforeHold - b + 1` more times and is then in the hold, in
   * recovery. From breath 1 that is exactly `breathsBeforeHold` exhales.
   */
  lemma {:induction false} BreathsBeforeHold(state: BreathingState)
    requires BreathingAt(state, state.session.currentBreath)
    requires state.session.currentBreath <= state.settings.breathsBeforeHold
    ensures var m := state.settings.breathsBeforeHold - state.session.currentBreath + 1;
      && Run(state, 2 * m).session == state.session.(
           currentPhase := Hold, currentBreath := state.settings.breathsBeforeHold + 1, isInRecoveryPhase := true)
      && Run(state, 2 * m).settings == state.settings
    decreases state.settings.breathsBeforeHold - state.session.currentBreath
  {
    var m := state.settings.breathsBeforeHold - state.session.currentBreath + 1;
    var t := Fire(state);
    FireEffect(state);
    FireEffect(t);
    var u := Fire(t);
    assert Run(state, 2) == u;
    if m > 1 {
      BreathsBeforeHold(u);
      RunAdd(state, 2, 2 * (m - 1));
    }
  }

  /** Before that last exhale the app only inhales and exhales, outside recovery. */
  lemma {:induction false} NoHoldBeforeLastExhale(state: BreathingState, k: nat)
    requires BreathingAt(state, state.session.currentBreath)
    requires k < 2 * (state.settings.breathsBeforeHold - state.session.currentBreath + 1)
    ensures !Run(state, k).session.isInRecoveryPhase
    ensures Run(state, k).session.currentPhase == Inhale || Run(state, k).session.currentPhase == Exhale
    decreases k
  {
    FireEffect(state);
    if k == 1 {
      assert Run(state, 1) == Fire(state);
    } else if k >= 2 {
      FireEffect(Fire(state));
      var u := Fire(Fire(state));
      assert Run(state, 2) == u;
      NoHoldBeforeLastExhale(u, k - 2);
      RunAdd(state, 2, k - 2);
    }
  }

  /**
   * From the hold: recovery inhale, recovery hold, recovery exhale, then either
   * the next round's first inhale at breath 1, or, after the last round, the
   * initial session.
   */
  lemma {:induction false} RecoverySequence(state: BreathingState)
    requires state.session.isActive && !state.session.isPaused
    requires state.session.isInRecoveryPhase && state.session.currentPhase == Hold
    ensures Run(state, 4).settings == state.settings
    ensures Run(state, 4).session ==
      if state.session.currentRound >= state.settings.numberOfRounds then InitialSession
      else state.session.(currentRound := state.session.currentRound + 1, currentBreath := 1,
                          isInRecoveryPhase := false, currentPhase := Inhale)
  {
    var a := Fire(state);
    FireEffect(state);
    var b := Fire(a);
    FireEffect(a);
    var c := Fire(b);
    FireEffect(b);
    FireEffect(c);
    assert Run(state, 4) == Fire(c);
  }

  /**
   * A whole round: from its first inhale at breath 1, `2 * breathsBeforeHold + 4`
   * timeouts reach the next round's first inhale, or the initial session after
   * the last round.
   */
  lemma {:induction false} RoundSequence(state: BreathingState)
    requires BreathingAt(state, 1) && state.settings.breathsBeforeHold >= 1
    ensures var n := 2 * state.settings.breathsBeforeHold + 4;
      && Run(state, n).settings == state.settings
      && Run(state, n).session ==
           if state.session.currentRound >= state.settings.numberOfRounds then InitialSession
           else state.session.(currentRound := state.session.currentRound + 1)
  {
    var n := 2 * state.settings.breathsBeforeHold;
    BreathsBeforeHold(state);
    var held := Run(state, n);
    assert held.settings == state.settings;
    assert held.session.isInRecoveryPhase && held.session.currentPhase == Hold;
    assert held.session.currentRound == state.session.currentRound;
    RecoverySequence(held);
    var after := Run(held, 4);
    RunAdd(state, n, 4);
    assert Run(state, n + 4) == after;
  }

  /**
   * Starting a session and letting every timeout fire: after
   * `numberOfRounds * (2 * breathsBeforeHold + 4)` timeouts the session has
   * stopped and is back to its initial values.
   */
  lemma {:induction false} SessionSequence(state: BreathingState, rounds: nat)
    requires BreathingAt(state, 1) && state.settings.breathsBeforeHold >= 1
    requires 1 <= state.session.currentRound <= state.settings.numberOfRounds
    requires rounds == state.settings.numberOfRounds - state.session.currentRound + 1
    ensures Run(state, rounds * (2 * state.settings.breathsBeforeHold + 4)).session == InitialSession
    decreases rounds
  {
    var n := 2 * state.settings.breathsBeforeHold + 4;
    RoundSequence(state);
    if state.session.currentRound < state.settings.numberOfRounds {
      var next := Run(state, n);
      SessionSequence(next, rounds - 1);
      RunAdd(state, n, (rounds - 1) * n);
      assert rounds * n == n + (rounds - 1) * n;
    } else {
      assert rounds == 1;
    }
  }

  lemma {:induction false} StartedSessionCompletes(state: BreathingState)
    requires state.settings.breathsBeforeHold >= 1 && state.settings.numberOfRounds >= 1
    ensures var n := state.settings.numberOfRounds * (2 * state.settings.breathsBeforeHold + 4);
      Run(Reduce(state, StartSession), n).session == InitialSession
  {
    SessionSequence(Reduce(state, StartSession), state.settings.numberOfRounds);
  }

  /** With at least one round configured, the round never exceeds the configured count once it does not. */
  lemma {:induction false} RoundStaysWithinTotal(state: BreathingState, n: nat)
    requires state.settings.numberOfRounds >= 1
    requires state.session.currentRound <= state.settings.numberOfRounds
    ensures Run(state, n).session.currentRound <= state.settings.numberOfRounds
    decreases n
  {
    if n > 0 {
      if state.session.isActive && !state.session.isPaused {
        FireEffect(state);
      }
      RoundStaysWithinTotal(Fire(state), n - 1);
    }
  }
}
