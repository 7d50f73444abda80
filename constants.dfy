/** The app's fixed settings and its recovery phase order. */
module Constants {
  import opened AppTypes

  /** Deliberately small defaults: one breath, one-second breaths and hold, one round. */
  const DefaultBreathingSettings := BreathingSettings(1, 1.0, 1.0, 1)

  /** The recovery hold always lasts 15 seconds. */
  const RecoveryHoldTime: real := 15.0

  const RecoveryPhaseOrder: seq<BreathingPhase> := [Hold, RecoveryInhale, RecoveryHold, RecoveryExhale]
}
