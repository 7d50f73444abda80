/**
 * The engine's state-machine step and its lung-volume interpolation. The
 * TypeScript `PhaseManager` object only holds the transition tables and two
 * callbacks, so both operations take the tables as a parameter; the update it
 * hands to `onStateChange`, or the error it hands to `onError` and rethrows,
 * is the result.
 */
module PhaseManager {
  import opened Wrappers
  import opened Text
  import opened ProfileTypes
  import StateValidator

  /** The partial state emitted for a step: phase and animation always, session and timing only when set. */
  datatype StateUpdate = StateUpdate(
    phase: PhaseState,
    animation: Animation,
    session: Option<Session>,
    timing: Option<Timing>)

  function NoTransitionDefined(kind: BreathingErrorType, p: BreathingPhase): BreathingError {
    BreathingError(kind, "No transition defined for phase " + PhaseName(p))
  }

  /** The step that ends a round: the recovery exhale while in recovery. */
  predicate EndsRound(s: BreathingState) {
    s.phase.isRecovery && s.phase.current == RecoveryExhale
  }

  /** The step that starts another round: the end of a round that is not the last. */
  predicate StartsNewRound(s: BreathingState) {
    EndsRound(s) && s.session.currentRound < s.session.totalRounds
  }

  /** The step that counts a breath: the exhale outside recovery. */
  predicate CountsBreath(s: BreathingState) {
    s.phase.current == Exhale && !s.phase.isRecovery
  }

  function MoveToNextPhase(s: BreathingState, seqs: PhaseSequences): (r: Result<StateUpdate, BreathingError>)
    // a phase missing from the selected table is the only failure
    ensures r.Failure? <==> s.phase.current !in TableFor(seqs, s.phase.isRecovery)
    ensures r.Failure? ==> r.error == NoTransitionDefined(InvalidPhaseTransition, s.phase.current)
    // an ordinary step: the table's next phase, evaluated on the state before the step
    ensures r.Success? && !StartsNewRound(s) ==>
      var t := TableFor(seqs, s.phase.isRecovery)[s.phase.current];
      && r.value.phase.current == NextPhase(t, s)
      && r.value.phase.maxBreaths == s.phase.maxBreaths
      && r.value.animation.progress == 0.0
      && r.value.animation.lungVolume == (if t.volume.Level? then t.volume.level else s.animation.lungVolume)
      && r.value.timing == None
    // the exhale outside recovery counts one breath and enters recovery at the maximum
    ensures r.Success? && CountsBreath(s) ==>
      && r.value.phase.breathCount == s.phase.breathCount + 1
      && r.value.phase.isRecovery == (s.phase.breathCount + 1 >= s.phase.maxBreaths)
    ensures r.Success? && !CountsBreath(s) && !StartsNewRound(s) ==>
      && r.value.phase.breathCount == s.phase.breathCount
      && r.value.phase.isRecovery == s.phase.isRecovery
    // the session is only touched at the end of a round
    ensures r.Success? && !EndsRound(s) ==> r.value.session == None
    ensures r.Success? && EndsRound(s) && !StartsNewRound(s) ==>
      r.value.session == Some(s.session.(isActive := false, isPaused := false))
    // a new round: next round number, first inhale, counters and lungs emptied, timing kept
    ensures r.Success? && StartsNewRound(s) ==>
      r.value == StateUpdate(
        PhaseState(Inhale, false, 0, s.phase.maxBreaths),
        Animation(0.0, 0.0),
        Some(s.session.(currentRound := s.session.currentRound + 1, isPaused := false)),
        Some(s.timing))
  {
    var phase := s.phase.current;
    var table := if s.phase.isRecovery then seqs.recovery else seqs.main;
    if phase !in table then
      Failure(NoTransitionDefined(InvalidPhaseTransition, phase))
    else
      var transition := table[phase];
      var nextPhase := NextPhase(transition, s);
      var check := StateValidator.ValidatePhaseTransition(phase, nextPhase, s, seqs);
      if check.Fail? then
        // the check evaluates the same rule on the same state, so it cannot fail
        assert false; Failure(NoTransitionDefined(InvalidPhaseTransition, phase))
      else
        var kept := PhaseState(nextPhase, s.phase.isRecovery, s.phase.breathCount, s.phase.maxBreaths);
        var counted :=
          if phase == Exhale && !s.phase.isRecovery then
            var newBreathCount := s.phase.breathCount + 1;
            PhaseState(nextPhase, newBreathCount >= s.phase.maxBreaths, newBreathCount, s.phase.maxBreaths)
          else kept;
        var session :=
          if s.phase.isRecovery && phase == RecoveryExhale then
            Some(if s.session.currentRound >= s.session.totalRounds
                 then s.session.(isActive := false, isPaused := false)
                 else s.session.(currentRound := s.session.currentRound + 1, isPaused := false))
          else None;
        if s.phase.isRecovery && phase == RecoveryExhale && s.session.currentRound < s.session.totalRounds then
          Success(StateUpdate(
            PhaseState(Inhale, false, 0, s.phase.maxBreaths),
            Animation(0.0, 0.0),
            session,
            Some(s.timing)))
        else
          var animation :=
            if transition.volume.Level?
            then Animation(transition.volume.level, 0.0)
            else Animation(s.animation.lungVolume, 0.0);
          Success(StateUpdate(counted, animation, session, None))
  }

  /**
   * The transition check inside the step never fails: it recomputes the same
   * next phase from the same state and tables.
   */
  lemma InternalCheckPasses(s: BreathingState, seqs: PhaseSequences)
    requires s.phase.current in TableFor(seqs, s.phase.isRecovery)
    ensures var t := TableFor(seqs, s.phase.isRecovery)[s.phase.current];
      StateValidator.ValidatePhaseTransition(s.phase.current, NextPhase(t, s), s, seqs) == Pass
  {
  }

  /** The lung volume a phase starts from: empty for a phase whose name contains "inhale", full otherwise. */
  function StartVolume(p: BreathingPhase): real {
    if Contains(PhaseName(p), "inhale") then 0.0 else 100.0
  }

  /** Only the two inhales start from empty lungs. */
  lemma StartVolumeOfPhases(p: BreathingPhase)
    ensures StartVolume(p) == (if p == Inhale || p == RecoveryInhale then 0.0 else 100.0)
  {
    if p == Inhale {
      assert StartsWith("inhale", "inhale");
    } else if p == RecoveryInhale {
      assert OccursAt("recovery_inhale", "inhale", 9);
      OccursAtContains("recovery_inhale", "inhale", 9);
    } else {
      assert 'n' !in PhaseName(p);
      ContainedCharsOccur(PhaseName(p), "inhale", 'n');
    }
  }

  /**
   * The lung volume at `progress` through the current phase: unchanged for a
   * `'maintain'` phase, otherwise the straight line from the phase's start
   * volume to its target.
   */
  function CalculatePhaseVolume(s: BreathingState, progress: real, seqs: PhaseSequences): (r: Result<real, BreathingError>)
    ensures r.Failure? <==> s.phase.current !in TableFor(seqs, s.phase.isRecovery)
    ensures r.Failure? ==> r.error == NoTransitionDefined(InvalidState, s.phase.current)
    ensures r.Success? ==>
      var t := TableFor(seqs, s.phase.isRecovery)[s.phase.current];
      && (t.volume == Maintain ==> r.value == s.animation.lungVolume)
      && (t.volume.Level? ==>
            r.value == StartVolume(s.phase.current) + (t.volume.level - StartVolume(s.phase.current)) * progress)
      && (t.volume.Level? && progress == 0.0 ==> r.value == StartVolume(s.phase.current))
      && (t.volume.Level? && progress == 1.0 ==> r.value == t.volume.level)
      && (t.volume.Level? && 0.0 <= progress <= 1.0 ==>
            Between(r.value, StartVolume(s.phase.current), t.volume.level))
  {
    var table := if s.phase.isRecovery then seqs.recovery else seqs.main;
    if s.phase.current !in table then
      Failure(NoTransitionDefined(InvalidState, s.phase.current))
    else
      var transition := table[s.phase.current];
      if transition.volume == Maintain then
        Success(s.animation.lungVolume)
      else
        var startVolume := StartVolume(s.phase.current);
        var endVolume := transition.volume.level;
        InterpolateBetween(startVolume, endVolume, progress);
        Success(startVolume + (endVolume - startVolume) * progress)
  }

  /** `x` lies between `a` and `b`, in whichever order they come. */
  predicate Between(x: real, a: real, b: real) {
    (a <= x <= b) || (b <= x <= a)
  }

  lemma InterpolateBetween(a: real, b: real, p: real)
    ensures 0.0 <= p <= 1.0 ==> Between(a + (b - a) * p, a, b)
  {
    if 0.0 <= p <= 1.0 {
      var d := b - a;
      var x := d * p;
      ScaledWithin(d, p);
      if a <= b {
        assert a <= a + x <= b;
      } else {
        assert b <= a + x <= a;
      }
    }
  }

  /** Scaling by a factor in [0, 1] keeps a number between 0 and itself. */
  lemma ScaledWithin(d: real, p: real)
    requires 0.0 <= p <= 1.0
    ensures Between(d * p, 0.0, d)
  {
    if d >= 0.0 {
      assert d * (1.0 - p) >= 0.0;
    } else {
      assert (-d) * p >= 0.0;
      assert (-d) * (1.0 - p) >= 0.0;
    }
  }

  /**
   * With every target of the tables in [0, 100], a progress in [0, 1] and a
   * current lung volume in [0, 100], the computed volume stays in [0, 100].
   */
  lemma VolumeWithinBounds(s: BreathingState, progress: real, seqs: PhaseSequences)
    requires LevelsWithin(seqs.main) && LevelsWithin(seqs.recovery)
    requires 0.0 <= progress <= 1.0 && 0.0 <= s.animation.lungVolume <= 100.0
    requires s.phase.current in TableFor(seqs, s.phase.isRecovery)
    ensures var r := CalculatePhaseVolume(s, progress, seqs);
      r.Success? && 0.0 <= r.value <= 100.0
  {
    var t := TableFor(seqs, s.phase.isRecovery)[s.phase.current];
    assert t.volume.Level? ==> 0.0 <= t.volume.level <= 100.0;
  }
}
