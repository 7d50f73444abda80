/**
 * Pure checks on an engine state and on a proposed change of state. Each check
 * either passes or reports the `BreathingError` the TypeScript implementation throws.
 */
module StateValidator {
  import opened Wrappers
  import opened ProfileTypes

  const RoundExceedsTotal := BreathingError(InvalidState, "Current round exceeds total rounds")
  const BreathCountExceedsMax := BreathingError(InvalidState, "Breath count exceeds maximum breaths")
  const InvalidTiming := BreathingError(InvalidState, "Invalid breathing timing values")
  const LungVolumeOutOfBounds := BreathingError(InvalidState, "Lung volume out of bounds")
  const ProgressOutOfBounds := BreathingError(InvalidState, "Progress value out of bounds")
  const InvalidRoundTransition := BreathingError(InvalidState, "Invalid round transition")
  const InvalidBreathCountTransition := BreathingError(InvalidState, "Invalid breath count transition")

  function NoTransitionFrom(from: BreathingPhase): BreathingError {
    BreathingError(InvalidPhaseTransition, "Invalid phase transition from " + PhaseName(from))
  }

  function UnexpectedTransition(from: BreathingPhase, to: BreathingPhase): BreathingError {
    BreathingError(InvalidPhaseTransition, "Invalid phase transition from " + PhaseName(from) + " to " + PhaseName(to))
  }

  /**
   * `to` is the phase the table that `state` is in (main or recovery, chosen by
   * the state's recovery flag, not by `from`) gives for `from` on `state`.
   */
  predicate AllowedTransition(from: BreathingPhase, to: BreathingPhase, state: BreathingState, seqs: PhaseSequences) {
    var table := TableFor(seqs, state.phase.isRecovery);
    from in table && NextPhase(table[from], state) == to
  }

  function ValidatePhaseTransition(from: BreathingPhase, to: BreathingPhase, state: BreathingState, seqs: PhaseSequences): (r: Outcome<BreathingError>)
    ensures r.Pass? <==> AllowedTransition(from, to, state, seqs)
    ensures r.Fail? ==> r.error.kind == InvalidPhaseTransition
    ensures from !in TableFor(seqs, state.phase.isRecovery) ==> r == Fail(NoTransitionFrom(from))
  {
    var table := if state.phase.isRecovery then seqs.recovery else seqs.main;
    if from !in table then
      Fail(NoTransitionFrom(from))
    else
      var nextPhase := NextPhase(table[from], state);
      if nextPhase != to then Fail(UnexpectedTransition(from, to)) else Pass
  }

  /**
   * What a state must satisfy: round within the total, breaths within the
   * maximum, positive inhale and exhale times, lung volume in [0, 100] and
   * progress in [0, 1]. Hold and recovery times and the lower bounds of round
   * and breath count are not part of it.
   */
  predicate ValidState(s: BreathingState) {
    && s.session.currentRound <= s.session.totalRounds
    && s.phase.breathCount <= s.phase.maxBreaths
    && s.timing.inhaleTime > 0.0
    && s.timing.exhaleTime > 0.0
    && 0.0 <= s.animation.lungVolume <= 100.0
    && 0.0 <= s.animation.progress <= 1.0
  }

  /** The checks run in the order round, breaths, timing, volume, progress; the first that fails is reported. */
  function ValidateBreathingState(s: BreathingState): (r: Outcome<BreathingError>)
    ensures r.Pass? <==> ValidState(s)
    ensures r.Fail? ==> r.error.kind == InvalidState
    ensures s.session.currentRound > s.session.totalRounds ==> r == Fail(RoundExceedsTotal)
    ensures s.session.currentRound <= s.session.totalRounds && s.phase.breathCount > s.phase.maxBreaths
      ==> r == Fail(BreathCountExceedsMax)
    ensures s.session.currentRound <= s.session.totalRounds && s.phase.breathCount <= s.phase.maxBreaths
      && (s.timing.inhaleTime <= 0.0 || s.timing.exhaleTime <= 0.0)
      ==> r == Fail(InvalidTiming)
    ensures r == Fail(LungVolumeOutOfBounds) <==>
      s.session.currentRound <= s.session.totalRounds && s.phase.breathCount <= s.phase.maxBreaths
      && s.timing.inhaleTime > 0.0 && s.timing.exhaleTime > 0.0
      && !(0.0 <= s.animation.lungVolume <= 100.0)
    ensures r == Fail(ProgressOutOfBounds) <==>
      ValidState(s.(animation := s.animation.(progress := 0.0))) && !(0.0 <= s.animation.progress <= 1.0)
  {
    if s.session.currentRound > s.session.totalRounds then Fail(RoundExceedsTotal)
    else if s.phase.breathCount > s.phase.maxBreaths then Fail(BreathCountExceedsMax)
    else if s.timing.inhaleTime <= 0.0 || s.timing.exhaleTime <= 0.0 then Fail(InvalidTiming)
    else if s.animation.lungVolume < 0.0 || s.animation.lungVolume > 100.0 then Fail(LungVolumeOutOfBounds)
    else if s.animation.progress < 0.0 || s.animation.progress > 1.0 then Fail(ProgressOutOfBounds)
    else Pass
  }

  /**
   * The validator looks at neither the hold time, nor the recovery time, nor
   * any lower bound on round and breath count: changing the times, or lowering
   * the round or the breath count, never makes a passing state fail.
   */
  lemma UncheckedFields(s: BreathingState, holdTime: real, recoveryTime: real, round: int, breaths: int)
    requires round <= s.session.currentRound && breaths <= s.phase.breathCount
    ensures var t := s.(timing := s.timing.(holdTime := holdTime, recoveryTime := recoveryTime),
                        session := s.session.(currentRound := round),
                        phase := s.phase.(breathCount := breaths));
      ValidateBreathingState(s).Pass? ==> ValidateBreathingState(t).Pass?
  {
  }

  /** A breath count that went down is only accepted when the new phase is the inhale or the new state is in recovery. */
  predicate BreathCountChangeAllowed(prev: BreathingState, next: BreathingState) {
    !(next.phase.breathCount < prev.phase.breathCount && next.phase.current != Inhale && !next.phase.isRecovery)
  }

  /**
   * The new state is checked first; the phase change, when there is one, is
   * then checked against the previous state; then the round and the breath count.
   */
  function ValidateStateTransition(prev: BreathingState, next: BreathingState, seqs: PhaseSequences): (r: Outcome<BreathingError>)
    ensures r.Pass? <==>
      && ValidState(next)
      && (prev.phase.current != next.phase.current ==> AllowedTransition(prev.phase.current, next.phase.current, prev, seqs))
      && BreathCountChangeAllowed(prev, next)
    ensures r.Fail? ==> r.error.kind in {InvalidState, InvalidPhaseTransition}
    ensures !ValidState(next) ==> r == ValidateBreathingState(next)
    ensures ValidState(next) && prev.phase.current != next.phase.current
      && !AllowedTransition(prev.phase.current, next.phase.current, prev, seqs)
      ==> r.Fail? && r.error.kind == InvalidPhaseTransition
  {
    var stateCheck := ValidateBreathingState(next);
    if stateCheck.Fail? then stateCheck
    else
      var phaseCheck :=
        if prev.phase.current != next.phase.current
        then ValidatePhaseTransition(prev.phase.current, next.phase.current, prev, seqs)
        else Pass;
      if phaseCheck.Fail? then phaseCheck
      else if next.session.currentRound > prev.session.currentRound
           && next.session.currentRound > next.session.totalRounds then Fail(InvalidRoundTransition)
      else if next.phase.breathCount < prev.phase.breathCount
           && next.phase.current != Inhale
           && !next.phase.isRecovery then Fail(InvalidBreathCountTransition)
      else Pass
  }

  /**
   * The round-increase check is redundant: once the new state has passed its
   * own validation its round is within the total, so the check can never fire.
   */
  lemma RoundTransitionCheckNeverFires(prev: BreathingState, next: BreathingState, seqs: PhaseSequences)
    ensures ValidateStateTransition(prev, next, seqs) != Fail(InvalidRoundTransition)
  {
    if ValidState(next) {
      assert !(next.session.currentRound > next.session.totalRounds);
    } else {
      assert ValidateStateTransition(prev, next, seqs) == ValidateBreathingState(next);
    }
  }
}
