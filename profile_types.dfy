/**
 * The data model of the profile-driven breathing engine: the six phases, the
 * nested breathing state, phase transitions with their volume targets, the
 * two transition tables a profile supplies, and the engine's error kinds.
 */
module ProfileTypes {

  datatype BreathingPhase =
    | Inhale
    | Exhale
    | Hold
    | RecoveryInhale
    | RecoveryHold
    | RecoveryExhale

  /** The string literal the TypeScript implementation uses for each phase. */
  function PhaseName(p: BreathingPhase): string {
    match p
    case Inhale => "inhale"
    case Exhale => "exhale"
    case Hold => "hold"
    case RecoveryInhale => "recovery_inhale"
    case RecoveryHold => "recovery_hold"
    case RecoveryExhale => "recovery_exhale"
  }

  datatype BreathingSettings = BreathingSettings(
    breathsBeforeHold: int,
    inhaleExhaleTime: real,
    breathHoldTarget: real,
    numberOfRounds: int)

  datatype Session = Session(isActive: bool, isPaused: bool, currentRound: int, totalRounds: int)

  datatype PhaseState = PhaseState(current: BreathingPhase, isRecovery: bool, breathCount: int, maxBreaths: int)

  /** Durations in seconds. */
  datatype Timing = Timing(inhaleTime: real, exhaleTime: real, holdTime: real, recoveryTime: real)

  datatype Animation = Animation(lungVolume: real, progress: real)

  datatype BreathingState = BreathingState(
    session: Session,
    phase: PhaseState,
    timing: Timing,
    animation: Animation)

  /** The `next` of a transition: a constant phase, or a phase computed from the state. */
  datatype NextRule =
    | Fixed(phase: BreathingPhase)
    | Computed(rule: BreathingState -> BreathingPhase)

  /** The `volume` of a transition: a lung-volume target, or `'maintain'`. */
  datatype VolumeTarget = Level(level: real) | Maintain

  datatype PhaseTransition = PhaseTransition(next: NextRule, volume: VolumeTarget)

  /**
   * A profile's two transition tables. They are maps so that a phase without
   * an entry, which the engine checks for, can be expressed.
   */
  datatype PhaseSequences = PhaseSequences(
    main: map<BreathingPhase, PhaseTransition>,
    recovery: map<BreathingPhase, PhaseTransition>)

  /** Both tables define a transition for every phase. */
  predicate Total(seqs: PhaseSequences) {
    forall p: BreathingPhase :: p in seqs.main && p in seqs.recovery
  }

  /** Every numeric volume target of a table lies in [0, 100]. */
  predicate LevelsWithin(table: map<BreathingPhase, PhaseTransition>) {
    forall p :: p in table && table[p].volume.Level? ==> 0.0 <= table[p].volume.level <= 100.0
  }

  /** The table the engine consults: the recovery table while in recovery. */
  function TableFor(seqs: PhaseSequences, isRecovery: bool): map<BreathingPhase, PhaseTransition> {
    if isRecovery then seqs.recovery else seqs.main
  }

  /** `typeof next === 'function' ? next(state) : next`. */
  function NextPhase(t: PhaseTransition, s: BreathingState): BreathingPhase {
    match t.next
    case Fixed(p) => p
    case Computed(f) => f(s)
  }

  datatype BreathingErrorType =
    | InvalidPhaseTransition
    | TimerSyncError
    | InvalidState
    | AnimationError

  /** A thrown `BreathingError`: its type and its message (the `details` payload is not kept). */
  datatype BreathingError = BreathingError(kind: BreathingErrorType, message: string)
}
