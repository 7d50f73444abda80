/** The data model of the flat state machine the app runs: settings plus one flat session record. */
module AppTypes {

  datatype BreathingPhase =
    | Inhale
    | Exhale
    | Hold
    | RecoveryInhale
    | RecoveryHold
    | RecoveryExhale

  /** The string literal the TypeScript implementation uses for each phase. */
  function PhaseName(p: BreathingPhase): string {
    match p
    case Inhale => "inhale"
    case Exhale => "exhale"
    case Hold => "hold"
    case RecoveryInhale => "recovery_inhale"
    case RecoveryHold => "recovery_hold"
    case RecoveryExhale => "recovery_exhale"
  }

  /** Times in seconds. */
  datatype BreathingSettings = BreathingSettings(
    breathsBeforeHold: int,
    inhaleExhaleTime: real,
    breathHoldTarget: real,
    numberOfRounds: int)

  datatype SessionState = SessionState(
    currentRound: int,
    currentPhase: BreathingPhase,
    currentBreath: int,
    isActive: bool,
    isPaused: bool,
    isInRecoveryPhase: bool,
    lungVolume: real)

  datatype BreathingState = BreathingState(settings: BreathingSettings, session: SessionState)
}
