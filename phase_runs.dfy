/**
 * Runs of the engine: a step's update merged into the state, repeated. The
 * code that receives the updates is not part of this model; merging replaces
 * each section the update carries and keeps the others.
 */
module PhaseRuns {
  import opened Wrappers
  import opened ProfileTypes
  import opened WimHof
  import opened PhaseManager
  import StateValidator

  function ApplyUpdate(s: BreathingState, u: StateUpdate): (r: BreathingState)
    ensures r.phase == u.phase && r.animation == u.animation
    ensures r.session == (if u.session.Some? then u.session.value else s.session)
    ensures r.timing == (if u.timing.Some? then u.timing.value else s.timing)
  {
    BreathingState(
      if u.session.Some? then u.session.value else s.session,
      u.phase,
      if u.timing.Some? then u.timing.value else s.timing,
      u.animation)
  }

  /** One completed phase: the step's update applied, or the step's error. */
  function Step(s: BreathingState, seqs: PhaseSequences): Result<BreathingState, BreathingError> {
    match MoveToNextPhase(s, seqs)
    case Success(u) => Success(ApplyUpdate(s, u))
    case Failure(e) => Failure(e)
  }

  /** `n` completed phases in a row, stopping at the first error. */
  function Advance(s: BreathingState, seqs: PhaseSequences, n: nat): Result<BreathingState, BreathingError>
    decreases n
  {
    if n == 0 then Success(s)
    else match Step(s, seqs)
      case Success(t) => Advance(t, seqs, n - 1)
      case Failure(e) => Failure(e)
  }

  lemma {:induction false} AdvanceAdd(s: BreathingState, seqs: PhaseSequences, a: nat, b: nat)
    requires Advance(s, seqs, a).Success?
    ensures Advance(s, seqs, a + b) == Advance(Advance(s, seqs, a).value, seqs, b)
    decreases a
  {
    if a > 0 {
      AdvanceAdd(Step(s, seqs).value, seqs, a - 1, b);
    }
  }

  // ---------------------------------------------------------------------------
  // The tables as written: the engine never reaches the hold

  /**
   * Breathing outside recovery below the maximum, or alternating inhale and
   * exhale in recovery.
   */
  predicate InBreathingLoop(s: BreathingState) {
    && (s.phase.current == Inhale || s.phase.current == Exhale)
    && (!s.phase.isRecovery ==> s.phase.breathCount < s.phase.maxBreaths)
  }

  lemma {:induction false} BreathingLoopStep(s: BreathingState)
    requires InBreathingLoop(s)
    ensures Step(s, Sequences).Success?
    ensures InBreathingLoop(Step(s, Sequences).value)
    ensures Step(s, Sequences).value.session == s.session
  {
    SequencesTotal();
    assert s.phase.current in TableFor(Sequences, s.phase.isRecovery);
  }

  /**
   * With the tables as written, the exhale that reaches the maximum picks the
   * next phase from the count before it (an inhale) while the step switches to
   * recovery from the count after it; the recovery table then alternates
   * inhale and exhale for ever. From the start of a round with at least one
   * breath, no number of steps reaches the hold or ends the session.
   */
  lemma {:induction false} AsWrittenNeverHolds(s: BreathingState, n: nat)
    requires InBreathingLoop(s)
    ensures Advance(s, Sequences, n).Success?
    ensures Advance(s, Sequences, n).value.phase.current in {Inhale, Exhale}
    ensures Advance(s, Sequences, n).value.session == s.session
    decreases n
  {
    if n > 0 {
      BreathingLoopStep(s);
      AsWrittenNeverHolds(Step(s, Sequences).value, n - 1);
    }
  }

  /** The state in which a round begins: first inhale, no breaths counted, not in recovery. */
  predicate RoundStart(s: BreathingState) {
    s.phase == PhaseState(Inhale, false, 0, s.phase.maxBreaths) && s.phase.maxBreaths >= 1
  }

  /** Concretely: one breath allowed; after the first exhale the engine is at the inhale, in recovery. */
  lemma {:induction false} AsWrittenOneBreathExample(s: BreathingState)
    requires RoundStart(s) && s.phase.maxBreaths == 1
    ensures Advance(s, Sequences, 2) == Success(s.(phase := PhaseState(Inhale, true, 1, 1), animation := Animation(0.0, 0.0)))
    ensures Advance(s, Sequences, 4) == Advance(s, Sequences, 2)
  {
    SequencesTotal();
    var s2 := s.(phase := PhaseState(Inhale, true, 1, 1), animation := Animation(0.0, 0.0));
    assert Advance(s, Sequences, 2) == Success(s2);
    AdvanceAdd(s, Sequences, 2, 2);
  }

  // ---------------------------------------------------------------------------
  // The corrected tables: every round runs to its end

  /** The state after the last exhale of a round: in the hold, in recovery, every breath counted. */
  function HoldEntered(s: BreathingState): BreathingState {
    s.(phase := PhaseState(Hold, true, s.phase.maxBreaths, s.phase.maxBreaths), animation := Animation(0.0, 0.0))
  }

  /** The first state of the next round. */
  function NextRound(s: BreathingState): BreathingState {
    s.(session := s.session.(currentRound := s.session.currentRound + 1, isPaused := false),
       phase := PhaseState(Inhale, false, 0, s.phase.maxBreaths),
       animation := Animation(0.0, 0.0))
  }

  /** The state after the last round: session over, lungs empty. */
  function SessionOver(s: BreathingState): BreathingState {
    s.(session := s.session.(isActive := false, isPaused := false),
       phase := PhaseState(Inhale, true, s.phase.maxBreaths, s.phase.maxBreaths),
       animation := Animation(0.0, 0.0))
  }

  /** Inhale and exhale `maxBreaths - breathCount` times, then the hold. */
  lemma {:induction false} CorrectedBreathing(s: BreathingState)
    requires s.phase.current == Inhale && !s.phase.isRecovery
    requires 0 <= s.phase.breathCount < s.phase.maxBreaths
    ensures Advance(s, CorrectedSequences, 2 * (s.phase.maxBreaths - s.phase.breathCount)) == Success(HoldEntered(s))
    decreases s.phase.maxBreaths - s.phase.breathCount
  {
    var k := s.phase.maxBreaths - s.phase.breathCount;
    var t := Step(s, CorrectedSequences).value;
    assert t == s.(phase := s.phase.(current := Exhale), animation := Animation(100.0, 0.0));
    var u := Step(t, CorrectedSequences).value;
    if k == 1 {
      assert u == HoldEntered(s);
    } else {
      assert u == s.(phase := s.phase.(breathCount := s.phase.breathCount + 1), animation := Animation(0.0, 0.0));
      CorrectedBreathing(u);
      assert HoldEntered(u) == HoldEntered(s);
      assert 2 * k == 2 + 2 * (k - 1);
    }
  }

  /** From the hold: recovery inhale, recovery hold, recovery exhale, then the next round or the end. */
  lemma {:induction false} CorrectedRecovery(s: BreathingState)
    requires s == HoldEntered(s)
    ensures Advance(s, CorrectedSequences, 4) ==
      Success(if s.session.currentRound < s.session.totalRounds then NextRound(s) else SessionOver(s))
  {
    var a := Step(s, CorrectedSequences).value;
    assert a == s.(phase := s.phase.(current := RecoveryInhale));
    var b := Step(a, CorrectedSequences).value;
    assert b == s.(phase := s.phase.(current := RecoveryHold), animation := Animation(100.0, 0.0));
    var c := Step(b, CorrectedSequences).value;
    assert c == s.(phase := s.phase.(current := RecoveryExhale), animation := Animation(100.0, 0.0));
    assert Advance(s, CorrectedSequences, 4) == Step(c, CorrectedSequences);
  }

  /**
   * With the corrected tables a round of `maxBreaths` breaths takes
   * `2 * maxBreaths + 4` steps and ends at the start of the next round, or,
   * after the last round, with the session inactive.
   */
  lemma {:induction false} CorrectedRoundCompletes(s: BreathingState)
    requires RoundStart(s)
    ensures Advance(s, CorrectedSequences, 2 * s.phase.maxBreaths + 4) ==
      Success(if s.session.currentRound < s.session.totalRounds then NextRound(s) else SessionOver(s))
  {
    var h := HoldEntered(s);
    CorrectedBreathing(s);
    HoldEnteredEnds(s);
    CorrectedRecovery(h);
    AdvanceThen(s, CorrectedSequences, 2 * s.phase.maxBreaths, h, 4);
  }

  /** A run that reaches `h` after `n` steps continues as a run from `h`. */
  lemma {:induction false} AdvanceThen(s: BreathingState, seqs: PhaseSequences, n: nat, h: BreathingState, m: nat)
    requires Advance(s, seqs, n) == Success(h)
    ensures Advance(s, seqs, n + m) == Advance(h, seqs, m)
  {
    AdvanceAdd(s, seqs, n, m);
  }

  /** Entering the hold leaves the session alone, so the round ends as it would have from the round start. */
  lemma {:induction false} HoldEnteredEnds(s: BreathingState)
    ensures HoldEntered(HoldEntered(s)) == HoldEntered(s)
    ensures NextRound(HoldEntered(s)) == NextRound(s)
    ensures SessionOver(HoldEntered(s)) == SessionOver(s)
  {
  }

  /**
   * A whole session: from the start of round `r` of `totalRounds`, running the
   * remaining rounds leaves the session inactive in the last round.
   */
  lemma {:induction false} CorrectedSessionCompletes(s: BreathingState)
    requires RoundStart(s) && 1 <= s.session.currentRound <= s.session.totalRounds
    ensures var n := (s.session.totalRounds - s.session.currentRound + 1) * (2 * s.phase.maxBreaths + 4);
      && Advance(s, CorrectedSequences, n).Success?
      && Advance(s, CorrectedSequences, n).value.session ==
           s.session.(currentRound := s.session.totalRounds, isActive := false, isPaused := false)
    decreases s.session.totalRounds - s.session.currentRound
  {
    var len := 2 * s.phase.maxBreaths + 4;
    var k := s.session.totalRounds - s.session.currentRound;
    CorrectedRoundCompletes(s);
    if k > 0 {
      var t := NextRound(s);
      CorrectedSessionCompletes(t);
      AdvanceAdd(s, CorrectedSequences, len, k * len);
      assert (k + 1) * len == len + k * len;
    }
  }

  /**
   * At the exhale that counts a breath, the corrected table enters the hold
   * exactly when the step enters recovery. The table as written disagrees at
   * the last breath: the step enters recovery while the table goes back to
   * inhale.
   */
  lemma {:induction false} ExhaleRulesAgainstRecovery(s: BreathingState)
    requires CountsBreath(s)
    ensures var r := MoveToNextPhase(s, CorrectedSequences);
      r.Success? && (r.value.phase.current == Hold <==> r.value.phase.isRecovery)
    ensures s.phase.breathCount + 1 == s.phase.maxBreaths ==>
      var r := MoveToNextPhase(s, Sequences);
      r.Success? && r.value.phase.current == Inhale && r.value.phase.isRecovery
  {
    SequencesTotal();
  }

  /** The states a run of the corrected tables passes through while the session is on. */
  predicate Conforming(s: BreathingState) {
    && StateValidator.ValidState(s)
    && 1 <= s.session.currentRound
    && s.phase.maxBreaths >= 1
    && (if s.phase.isRecovery
        then s.phase.current != Inhale && s.phase.current != Exhale && s.phase.breathCount == s.phase.maxBreaths
        else (s.phase.current == Inhale || s.phase.current == Exhale) && 0 <= s.phase.breathCount < s.phase.maxBreaths)
  }

  /**
   * Every step of the corrected engine from a conforming state succeeds, passes
   * the state-transition validator, and leads to a conforming state, except the
   * last step of the last round, which ends the session.
   */
  lemma {:induction false} CorrectedStepValidates(s: BreathingState)
    requires Conforming(s)
    ensures Step(s, CorrectedSequences).Success?
    ensures StateValidator.ValidateStateTransition(s, Step(s, CorrectedSequences).value, CorrectedSequences) == Pass
    ensures var t := Step(s, CorrectedSequences).value;
      Conforming(t) || (EndsRound(s) && !StartsNewRound(s) && !t.session.isActive)
  {
    assert s.phase.current in TableFor(CorrectedSequences, s.phase.isRecovery) by {
      SequencesTotal();
    }
    VolumeTargets(s.phase.current);
  }

  /**
   * Halfway through the inhale the lungs are half full; a hold keeps whatever
   * volume the lungs had, at any progress.
   */
  lemma {:induction false} VolumeExamples(s: BreathingState, progress: real)
    requires !s.phase.isRecovery
    ensures s.phase.current == Inhale ==> CalculatePhaseVolume(s, 0.5, Sequences) == Success(50.0)
    ensures s.phase.current == Hold ==> CalculatePhaseVolume(s, progress, Sequences) == Success(s.animation.lungVolume)
  {
    StartVolumeOfPhases(Inhale);
  }
}
