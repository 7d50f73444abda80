/**
 * The session store of the app: a reducer from the current state and one
 * action to the next state. It never changes its input; every action builds a
 * new state.
 */
module BreathingContext {
  import opened Wrappers
  import opened AppTypes
  import Constants

  const InitialSession := SessionState(1, Inhale, 1, false, false, false, 0.0)

  const InitialState := BreathingState(Constants.DefaultBreathingSettings, InitialSession)

  /** A `Partial<BreathingSettings>`: the fields that are present. */
  datatype SettingsPatch = SettingsPatch(
    breathsBeforeHold: Option<int>,
    inhaleExhaleTime: Option<real>,
    breathHoldTarget: Option<real>,
    numberOfRounds: Option<int>)

  datatype Action =
    | UpdateSettings(patch: SettingsPatch)
    | StartSession
    | PauseSession
    | ResumeSession
    | StopSession
    | UpdatePhase(phase: BreathingPhase)
    | UpdateRound(round: int)
    | IncrementBreath
    | ResetBreath
    | SetRecoveryPhase(inRecovery: bool)
    | SetLungVolume(volume: real)
      /** An action object of any other type, which the reducer's default case receives. */
    | Unrecognised(actionType: string)

  function Override<T>(present: Option<T>, current: T): T {
    if present.Some? then present.value else current
  }

  /** `Math.max(0, Math.min(100, v))`. */
  function Clamp(v: real): (r: real)
    ensures 0.0 <= r <= 100.0
    ensures 0.0 <= v <= 100.0 ==> r == v
    ensures v < 0.0 ==> r == 0.0
    ensures v > 100.0 ==> r == 100.0
  {
    var low := if 100.0 < v then 100.0 else v;
    if 0.0 < low then low else 0.0
  }

  function Reduce(state: BreathingState, action: Action): (r: BreathingState)
    // only UPDATE_SETTINGS touches the settings, and it touches nothing else
    ensures !action.UpdateSettings? ==> r.settings == state.settings
    ensures action.UpdateSettings? ==>
      var p := action.patch;
      && r.session == state.session
      && r.settings == BreathingSettings(
           Override(p.breathsBeforeHold, state.settings.breathsBeforeHold),
           Override(p.inhaleExhaleTime, state.settings.inhaleExhaleTime),
           Override(p.breathHoldTarget, state.settings.breathHoldTarget),
           Override(p.numberOfRounds, state.settings.numberOfRounds))
    // starting is the initial session made active; stopping is the initial session
    ensures action == StartSession ==> r.session == InitialSession.(isActive := true)
    ensures action == StopSession ==> r.session == InitialSession
    ensures action == PauseSession ==> r.session == state.session.(isPaused := true)
    ensures action == ResumeSession ==> r.session == state.session.(isPaused := false)
    ensures action.UpdatePhase? ==> r.session == state.session.(currentPhase := action.phase)
    // a new round starts at breath 1, outside recovery, in whatever phase and lung volume it had
    ensures action.UpdateRound? ==>
      r.session == state.session.(currentRound := action.round, currentBreath := 1, isInRecoveryPhase := false)
    ensures action == IncrementBreath ==> r.session == state.session.(currentBreath := state.session.currentBreath + 1)
    ensures action == ResetBreath ==> r.session == state.session.(currentBreath := 1)
    ensures action.SetRecoveryPhase? ==> r.session == state.session.(isInRecoveryPhase := action.inRecovery)
    // the stored lung volume is the requested one clamped to [0, 100]
    ensures action.SetLungVolume? ==> r.session == state.session.(lungVolume := Clamp(action.volume))
    ensures action.Unrecognised? ==> r == state
  {
    match action
    case UpdateSettings(p) =>
      state.(settings := BreathingSettings(
        Override(p.breathsBeforeHold, state.settings.breathsBeforeHold),
        Override(p.inhaleExhaleTime, state.settings.inhaleExhaleTime),
        Override(p.breathHoldTarget, state.settings.breathHoldTarget),
        Override(p.numberOfRounds, state.settings.numberOfRounds)))
    case StartSession =>
      state.(session := state.session.(
        isActive := true, isPaused := false, currentRound := 1, currentPhase := Inhale,
        currentBreath := 1, isInRecoveryPhase := false, lungVolume := 0.0))
    case PauseSession =>
      state.(session := state.session.(isPaused := true))
    case ResumeSession =>
      state.(session := state.session.(isPaused := false))
    case StopSession =>
      state.(session := state.session.(
        isActive := false, isPaused := false, currentRound := 1, currentPhase := Inhale,
        currentBreath := 1, isInRecoveryPhase := false, lungVolume := 0.0))
    case UpdatePhase(phase) =>
      state.(session := state.session.(currentPhase := phase))
    case UpdateRound(round) =>
      state.(session := state.session.(currentRound := round, currentBreath := 1, isInRecoveryPhase := false))
    case IncrementBreath =>
      state.(session := state.session.(currentBreath := state.session.currentBreath + 1))
    case ResetBreath =>
      state.(session := state.session.(currentBreath := 1))
    case SetRecoveryPhase(inRecovery) =>
      state.(session := state.session.(isInRecoveryPhase := inRecovery))
    case SetLungVolume(volume) =>
      state.(session := state.session.(lungVolume := Clamp(volume)))
    case Unrecognised(_) =>
      state
  }

  /** Pausing, resuming and setting the lung volume give the same state when repeated. */
  lemma IdempotentActions(state: BreathingState, v: real)
    ensures Reduce(Reduce(state, PauseSession), PauseSession) == Reduce(state, PauseSession)
    ensures Reduce(Reduce(state, ResumeSession), ResumeSession) == Reduce(state, ResumeSession)
    ensures Reduce(Reduce(state, SetLungVolume(v)), SetLungVolume(v)) == Reduce(state, SetLungVolume(v))
  {
  }

  /** The actions in order, each applied to the state the previous one produced (React's dispatch queue). */
  function ReduceAll(state: BreathingState, actions: seq<Action>): BreathingState
    decreases |actions|
  {
    if actions == [] then state else ReduceAll(Reduce(state, actions[0]), actions[1..])
  }

  /** Dispatching two batches one after the other is dispatching their concatenation. */
  lemma {:induction false} ReduceAllAppend(state: BreathingState, a: seq<Action>, b: seq<Action>)
    ensures ReduceAll(state, a + b) == ReduceAll(ReduceAll(state, a), b)
    decreases |a|
  {
    if a == [] {
      assert a + b == b;
    } else {
      assert (a + b)[0] == a[0] && (a + b)[1..] == a[1..] + b;
      ReduceAllAppend(Reduce(state, a[0]), a[1..], b);
    }
  }
}
