/** The Wim Hof profile: its default settings, the hold-time rule and its two transition tables. */
module WimHof {
  import opened ProfileTypes

  const DefaultSettings := BreathingSettings(30, 2.0, 90.0, 3)

  /**
   * Hold duration for a round: a third of the target in the first third of the
   * session, two thirds in the second, the full target after that. A zero
   * `total` gives `round / total` = +Infinity, -Infinity or NaN in JavaScript,
   * and only -Infinity passes the first comparison.
   */
  function HoldTimeProgression(round: int, total: int, target: real): (r: real)
    ensures r == target / 3.0 || r == (target * 2.0) / 3.0 || r == target
  {
    if total == 0 then
      (if round < 0 then target / 3.0 else target)
    else
      var fraction := round as real / total as real;
      if fraction <= 1.0 / 3.0 then target / 3.0
      else if fraction <= 2.0 / 3.0 then (target * 2.0) / 3.0
      else target
  }

  /** The thirds rule restated on whole numbers: `round / total <= k / 3` iff `3 * round <= k * total`. */
  lemma HoldTimeThirds(round: int, total: int, target: real)
    requires total > 0
    ensures 3 * round <= total ==> HoldTimeProgression(round, total, target) == target / 3.0
    ensures total < 3 * round <= 2 * total ==> HoldTimeProgression(round, total, target) == 2.0 * target / 3.0
    ensures 2 * total < 3 * round ==> HoldTimeProgression(round, total, target) == target
  {
    var fraction := round as real / total as real;
    assert fraction * total as real == round as real;
    FractionAtMost(round, total, 1);
    FractionAtMost(round, total, 2);
  }

  lemma FractionAtMost(round: int, total: int, k: int)
    requires total > 0
    ensures round as real / total as real <= k as real / 3.0 <==> 3 * round <= k * total
  {
    var f := round as real / total as real;
    assert f * total as real == round as real;
    if 3 * round <= k * total {
      assert f * (3 * total) as real <= (k * total) as real;
    }
    if f <= k as real / 3.0 {
      assert f * total as real <= k as real / 3.0 * total as real;
    }
  }

  /**
   * For a fixed positive round count and non-negative target the hold time
   * grows with the round, stays between a third of the target and the target,
   * and is the whole target in the last round.
   */
  lemma HoldTimeMonotone(r1: int, r2: int, total: int, target: real)
    requires total > 0 && target >= 0.0 && r1 <= r2
    ensures HoldTimeProgression(r1, total, target) <= HoldTimeProgression(r2, total, target)
    ensures target / 3.0 <= HoldTimeProgression(r2, total, target) <= target
    ensures HoldTimeProgression(total, total, target) == target
  {
    HoldTimeThirds(r1, total, target);
    HoldTimeThirds(r2, total, target);
    HoldTimeThirds(total, total, target);
  }

  /** The profile's defaults: 30 breaths a round, and holds of 30, 60 and 90 seconds over its three rounds. */
  lemma DefaultHoldTimes()
    ensures DefaultSettings.breathsBeforeHold == 30 && DefaultSettings.numberOfRounds == 3
    ensures var s := DefaultSettings;
      && HoldTimeProgression(1, s.numberOfRounds, s.breathHoldTarget) == 30.0
      && HoldTimeProgression(2, s.numberOfRounds, s.breathHoldTarget) == 60.0
      && HoldTimeProgression(3, s.numberOfRounds, s.breathHoldTarget) == 90.0
  {
    HoldTimeThirds(1, 3, 90.0);
    HoldTimeThirds(2, 3, 90.0);
    HoldTimeThirds(3, 3, 90.0);
  }

  /** The exhale rule of the main table: another breath while under the maximum, otherwise the hold. */
  function ExhaleRule(s: BreathingState): BreathingPhase {
    if s.phase.breathCount < s.phase.maxBreaths then Inhale else Hold
  }

  const MainTable: map<BreathingPhase, PhaseTransition> := map[
    Inhale := PhaseTransition(Fixed(Exhale), Level(100.0)),
    Exhale := PhaseTransition(Computed(ExhaleRule), Level(0.0)),
    Hold := PhaseTransition(Fixed(RecoveryInhale), Maintain),
    RecoveryInhale := PhaseTransition(Fixed(RecoveryHold), Level(100.0)),
    RecoveryHold := PhaseTransition(Fixed(RecoveryExhale), Maintain),
    RecoveryExhale := PhaseTransition(Fixed(Inhale), Level(0.0))
  ]

  const RecoveryTable: map<BreathingPhase, PhaseTransition> := map[
    Inhale := PhaseTransition(Fixed(Exhale), Level(100.0)),
    Exhale := PhaseTransition(Fixed(Inhale), Level(0.0)),
    Hold := PhaseTransition(Fixed(RecoveryInhale), Maintain),
    RecoveryInhale := PhaseTransition(Fixed(RecoveryHold), Level(100.0)),
    RecoveryHold := PhaseTransition(Fixed(RecoveryExhale), Maintain),
    RecoveryExhale := PhaseTransition(Fixed(Inhale), Level(0.0))
  ]

  const Sequences := PhaseSequences(MainTable, RecoveryTable)

  /** Both tables define a transition for each of the six phases. */
  lemma SequencesTotal()
    ensures Total(Sequences)
  {
    forall p: BreathingPhase ensures p in MainTable && p in RecoveryTable {
      match p
      case Inhale =>
      case Exhale =>
      case Hold =>
      case RecoveryInhale =>
      case RecoveryHold =>
      case RecoveryExhale =>
    }
  }

  /**
   * `'maintain'` is the volume of the two holds and only of them; the inhales
   * fill the lungs to 100 and the exhales empty them to 0, in both tables.
   */
  lemma {:induction false} VolumeTargets(p: BreathingPhase)
    ensures MainTable[p].volume == RecoveryTable[p].volume
    ensures MainTable[p].volume == Maintain <==> p == Hold || p == RecoveryHold
    ensures p == Inhale || p == RecoveryInhale ==> MainTable[p].volume == Level(100.0)
    ensures p == Exhale || p == RecoveryExhale ==> MainTable[p].volume == Level(0.0)
    ensures LevelsWithin(MainTable) && LevelsWithin(RecoveryTable)
  {
  }

  /**
   * Only the main table's exhale depends on the state: another inhale while
   * the breath count is under the maximum, the hold otherwise.
   */
  lemma MainNextRules(p: BreathingPhase, s: BreathingState)
    ensures p != Exhale <==> MainTable[p].next.Fixed?
    ensures NextPhase(MainTable[Exhale], s) == if s.phase.breathCount < s.phase.maxBreaths then Inhale else Hold
  {
  }

  /** After the hold the main table runs hold, recovery inhale, recovery hold, recovery exhale, inhale. */
  lemma MainTail(s: BreathingState)
    ensures NextPhase(MainTable[Inhale], s) == Exhale
    ensures NextPhase(MainTable[Hold], s) == RecoveryInhale
    ensures NextPhase(MainTable[RecoveryInhale], s) == RecoveryHold
    ensures NextPhase(MainTable[RecoveryHold], s) == RecoveryExhale
    ensures NextPhase(MainTable[RecoveryExhale], s) == Inhale
  {
  }

  /**
   * The recovery table is the main table except at the exhale, which always
   * returns to the inhale; so from the inhale or the exhale the recovery table
   * never leaves those two phases.
   */
  lemma RecoveryTableDiffersAtExhale(p: BreathingPhase, s: BreathingState)
    ensures p != Exhale ==> RecoveryTable[p].next == Fixed(NextPhase(MainTable[p], s))
    ensures RecoveryTable[Exhale].next == Fixed(Inhale)
    ensures p == Inhale || p == Exhale ==> NextPhase(RecoveryTable[p], s) in {Inhale, Exhale}
  {
  }

  /**
   * The corrected exhale rule: the breath just completed is counted before the
   * test. `PhaseRuns.ExhaleRulesAgainstRecovery` shows it agrees with the
   * step's test for entering recovery.
   */
  function CorrectedExhaleRule(s: BreathingState): (r: BreathingPhase)
    ensures r == Hold <==> s.phase.breathCount + 1 >= s.phase.maxBreaths
    ensures r == Inhale || r == Hold
  {
    if s.phase.breathCount + 1 < s.phase.maxBreaths then Inhale else Hold
  }

  const CorrectedMainTable := MainTable[Exhale := PhaseTransition(Computed(CorrectedExhaleRule), Level(0.0))]

  const CorrectedSequences := PhaseSequences(CorrectedMainTable, RecoveryTable)
}
