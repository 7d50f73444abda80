# Breathwork: a Dafny model of the two Wim Hof state machines

The breathwork app guides a Wim Hof session. Each round is a number of quick
breaths (inhale, exhale), then a hold on empty lungs, then a recovery breath
(recovery inhale, a 15-second recovery hold, recovery exhale). The hold grows
over the rounds in thirds of a target duration. The repository holds two
independent implementations of this cycle, and this model keeps them apart.

- **The profile-driven engine** (`src/core`):
  - A profile supplies a main and a recovery transition table (`WimHof`).
  - A pure validator checks states and transitions (`StateValidator`).
  - The phase manager steps the state through a table and interpolates the lung volume (`PhaseManager`, with repeated steps in `PhaseRuns`).
  - A frame-driven timer reports progress through each phase (`BreathingTimerEngine`).
  - The data types come from `ProfileTypes`.
- **The app's React machine**:
  - The session store is a reducer over actions (`BreathingContext`), with its own types (`AppTypes`) and constants (`Constants`).
  - The hook decides which actions to dispatch when a phase's timeout fires (`UseBreathingTimer`).
  - The breathing circle derives its heading and breath counter from the session (`BreathingCircle`).

`Wrappers` (Option, Result, Outcome) and `Text` (the string operations the
TypeScript code uses) are shared helpers. The two machines meet only at the
hold-time rule: `UseBreathingTimer.HoldTimeRulesAgree` proves the hook's copy
of the thirds rule equal to the profile's on every input, and
`UseBreathingTimer.PhaseTimings` states the hook's hold duration through the
profile's `WimHof.HoldTimeProgression`.

Thrown errors become `Failure`/`Fail` results that carry the error's type and
message. Callbacks become returned values:
- A phase step returns its state update or its error.
- A timer operation returns what its tick reported.
- The hook returns the list of actions it dispatches, and `Fire` folds that list through the reducer.

Time is a parameter (`now`, in milliseconds). Durations, volumes and progress
are reals.

Two behaviours of the code are easy to misread, and the model follows the code in both.
- Two rounds with a 9-second target hold for 6 s and then 9 s, not 3 s and 9 s: round 1 of 2 is the fraction 1/2, which is above 1/3. `UseBreathingTimer.HoldTimeExamples` states this.
- The profile-driven engine never reaches the hold after the last breath of a round; see Findings.

## Model

| member | source | states |
|---|---|---|
| `WimHof.HoldTimeProgression` | src/core/profiles/WimHof.ts:13-18 | The hold time is always a third, two thirds or the whole of the target; which one, by round, is stated by `HoldTimeThirds` |
| `WimHof.DefaultHoldTimes` | src/core/profiles/WimHof.ts:7-18 | The profile's defaults (30 breaths, 90 s target, 3 rounds) give holds of 30, 60 and 90 s |
| `WimHof.HoldTimeThirds` | src/core/profiles/WimHof.ts:13-18 | With a positive round count, the thirds rule in whole numbers: `3*round <= total` gives target/3, up to `2*total` gives 2·target/3, above that the target |
| `WimHof.HoldTimeMonotone` | src/core/profiles/WimHof.ts:13-18 | The hold time never decreases from round to round, stays between target/3 and the target, and is the full target in the last round |
| `WimHof.SequencesTotal` | src/core/profiles/WimHof.ts:19-73 | Both Wim Hof tables define a transition for each of the six phases |
| `WimHof.VolumeTargets` | src/core/profiles/WimHof.ts:20-72 | Both tables agree on volumes: inhales fill to 100, exhales empty to 0, and only the two holds keep the volume; every target is in [0, 100] |
| `WimHof.MainNextRules` | src/core/profiles/WimHof.ts:25-28 | Only the main table's exhale is state-dependent: inhale again while `breathCount < maxBreaths`, otherwise hold |
| `WimHof.MainTail` | src/core/profiles/WimHof.ts:21-46 | The main table's fixed successors: inhale→exhale, hold→recovery inhale→recovery hold→recovery exhale→inhale |
| `WimHof.RecoveryTableDiffersAtExhale` | src/core/profiles/WimHof.ts:47-72 | The recovery table matches the main table except that its exhale always returns to inhale, so from inhale or exhale it never leaves those two phases |
| `WimHof.CorrectedExhaleRule` | src/core/profiles/WimHof.ts:26-27 | The corrected definition of the main exhale's successor: hold once the breath just completed reaches the maximum (`breathCount + 1 >= maxBreaths`), otherwise inhale; its agreement with the step's recovery test is `PhaseRuns.ExhaleRulesAgainstRecovery` |
| `StateValidator.ValidatePhaseTransition` | src/core/state/StateValidator.ts:9-37 | Passes iff the table selected by the state's recovery flag has an entry for `from` whose next phase on that state is `to`; a missing entry gives the "from" message, and every failure is an invalid-phase-transition error |
| `StateValidator.ValidateBreathingState` | src/core/state/StateValidator.ts:39-83 | Passes iff round ≤ total, breaths ≤ maximum, both breath times positive, volume in [0, 100] and progress in [0, 1]; otherwise it returns the first failing check's invalid-state error, in that order |
| `StateValidator.UncheckedFields` | src/core/state/StateValidator.ts:39-83 | Hold time, recovery time and any lowering of round or breath count never make a valid state invalid |
| `StateValidator.ValidateStateTransition` | src/core/state/StateValidator.ts:85-124 | Passes iff the new state is valid, a changed phase is allowed from the previous state, and the breath count drops only into an inhale or into recovery; an invalid new state reports that state's own error |
| `StateValidator.RoundTransitionCheckNeverFires` | src/core/state/StateValidator.ts:103-112 | The round-increase check can never fail, because the new state's own validation already bounds the round |
| `PhaseManager.MoveToNextPhase` | src/core/state/PhaseManager.ts:27-128 | Fails iff the current phase has no entry in the selected table. Otherwise the next phase comes from the table on the pre-step state; the volume target or the kept volume, with progress 0; an exhale outside recovery counts a breath and enters recovery when the new count reaches the maximum; the session changes only at the recovery exhale, either to the next round's first inhale with the timing kept or to an inactive session |
| `PhaseManager.InternalCheckPasses` | src/core/state/PhaseManager.ts:43-53 | The transition check inside the step always passes, since it recomputes the same next phase |
| `PhaseManager.StartVolumeOfPhases` | src/core/state/PhaseManager.ts:152 | Only the two phases whose name contains "inhale" start from empty lungs; the other four start from 100 |
| `PhaseManager.CalculatePhaseVolume` | src/core/state/PhaseManager.ts:130-156 | Fails iff the phase has no entry. A `maintain` phase keeps the current volume; otherwise the volume is `start + (target − start)·progress` for any progress, so it is the start volume at 0, the target at 1, and between the two for progress in [0, 1] |
| `PhaseManager.VolumeWithinBounds` | src/core/state/PhaseManager.ts:130-156 | With targets and the current volume in [0, 100] and progress in [0, 1], the computed volume is in [0, 100] |
| `PhaseRuns.AsWrittenNeverHolds` | src/core/state/PhaseManager.ts:70-78 | With the tables as written, from any breathing state no number of steps reaches the hold or changes the session: the engine loops inhale/exhale forever |
| `PhaseRuns.AsWrittenOneBreathExample` | src/core/profiles/WimHof.ts:25-28 | With one breath allowed, two steps leave the engine at inhale in recovery mode with one breath counted, and two more steps return it there |
| `PhaseRuns.CorrectedBreathing` | src/core/state/PhaseManager.ts:70-78 | With the corrected rule, `maxBreaths - breathCount` inhale/exhale pairs reach the hold in recovery with every breath counted |
| `PhaseRuns.CorrectedRecovery` | src/core/state/PhaseManager.ts:80-111 | From the hold, four steps reach the next round's first inhale or, after the last round, an inactive session |
| `PhaseRuns.CorrectedRoundCompletes` | src/core/state/PhaseManager.ts:27-128 | With the corrected rule, a round of N breaths takes exactly 2N + 4 steps and ends at the next round or at the end of the session |
| `PhaseRuns.CorrectedSessionCompletes` | src/core/state/PhaseManager.ts:80-111 | Running the remaining rounds from any round start ends with the session inactive in the last round |
| `PhaseRuns.ExhaleRulesAgainstRecovery` | src/core/state/PhaseManager.ts:43-78 | At the exhale that counts a breath, a step with the corrected rule goes to the hold exactly when it enters recovery; with the table as written, the last breath's step enters recovery but goes back to inhale |
| `PhaseRuns.CorrectedStepValidates` | src/core/state/StateValidator.ts:85-124 | Every corrected step from a conforming state succeeds and passes `validateStateTransition`, and leads to a conforming state unless it ends the session |
| `PhaseRuns.VolumeExamples` | src/core/state/PhaseManager.ts:130-156 | Halfway through the inhale the lungs are at 50; a hold keeps the current volume at any progress |
| `BreathingTimerEngine.ProgressAt` | src/core/timing/BreathingTimer.ts:56-58 | Progress is at most 1 and never negative after the start; it is 1 iff the elapsed time has reached the duration, and otherwise it is elapsed/duration |
| `BreathingTimerEngine.ProgressMonotone` | src/core/timing/BreathingTimer.ts:111-117 | For a clock that does not go back, progress never decreases |
| `BreathingTimerEngine.BreathingTimer.constructor` | src/core/timing/BreathingTimer.ts:10-24 | A new timer is inactive, never paused, with start time and duration 0 |
| `BreathingTimerEngine.BreathingTimer.IsPaused` | src/core/timing/BreathingTimer.ts:123-125 | A predicate with no ensures of its own: a pause time is recorded and is not 0 (`!!pauseTime`); `Resume` states what it gates |
| `BreathingTimerEngine.BreathingTimer.IsRunning` | src/core/timing/BreathingTimer.ts:119-121 | A predicate with no ensures of its own: the timer is active; `Start`, `Tick`, `Pause`, `Resume` and `Stop` state how it changes |
| `BreathingTimerEngine.BreathingTimer.GetProgress` | src/core/timing/BreathingTimer.ts:111-117 | 0 when not running, the clamped elapsed fraction when running |
| `BreathingTimerEngine.BreathingTimer.Start` | src/core/timing/BreathingTimer.ts:26-50 | On a running timer it fails with the timer-sync error and changes nothing; otherwise it records duration and start, becomes active, and its first tick reports progress 0, not complete |
| `BreathingTimerEngine.BreathingTimer.Tick` | src/core/timing/BreathingTimer.ts:52-82 | An inactive timer reports nothing; an active one reports its progress, stays active below 1, and deactivates when it signals completion |
| `BreathingTimerEngine.BreathingTimer.Pause` | src/core/timing/BreathingTimer.ts:84-92 | Pausing an active timer stops it and records the time; on an inactive timer it does nothing |
| `BreathingTimerEngine.BreathingTimer.Resume` | src/core/timing/BreathingTimer.ts:94-102 | Does nothing while active or not paused (`isPaused`, lines 123-125). Otherwise it shifts the start by the pause length, clears the pause, and ticks the progress of the moment of pausing |
| `BreathingTimerEngine.BreathingTimer.Stop` | src/core/timing/BreathingTimer.ts:104-109 | The timer is no longer running (`isRunning`, lines 119-121), and the recorded pause is left as it was |
| `BreathingTimerEngine.BreathingTimer.DriveTicks` | src/core/timing/BreathingTimer.ts:53-67 | A running timer ticks at the first reading and at every reading after a tick below completion; each tick reports the progress at its reading and completes exactly at progress 1; a timer that was not running, or one that has completed, reports nothing; the timer is left running exactly when the last tick was below completion. Over a non-decreasing clock the reported progress never decreases |
| `BreathingContext.Clamp` | src/context/BreathingContext.tsx:118-125 | The stored lung volume is in [0, 100], is unchanged when already in range, and is pinned to the nearer bound otherwise |
| `BreathingContext.Reduce` | src/context/BreathingContext.tsx:34-129 | Per action: only the settings update touches settings, and it merges just the fields present; start gives the initial session made active; stop gives the initial session; a new round resets breath and recovery; the lung volume stored is the payload clamped to [0, 100] (`Clamp`); an unknown action leaves the state as is |
| `BreathingContext.IdempotentActions` | src/context/BreathingContext.tsx:55-64 | Pausing, resuming and setting the same lung volume twice give the same state as once |
| `BreathingContext.ReduceAllAppend` | src/context/BreathingContext.tsx:138-139 | Dispatching two batches in turn equals dispatching their concatenation |
| `UseBreathingTimer.GetHoldTime` | src/hooks/useBreathingTimer.ts:39-44 | The hold time is a third, two thirds or the whole of the target; `HoldTimeRulesAgree` ties it to the profile's rule |
| `UseBreathingTimer.PhaseTiming` | src/hooks/useBreathingTimer.ts:47-54 | A table lookup with no ensures of its own; `PhaseTimings` states its six entries |
| `UseBreathingTimer.HoldTimeRulesAgree` | src/hooks/useBreathingTimer.ts:39-44 | The hook's hold time equals the Wim Hof profile's `holdTimeProgression` for every round, round count and target |
| `UseBreathingTimer.PhaseTimings` | src/hooks/useBreathingTimer.ts:47-54 | Breaths last the configured breath time and the recovery hold 15 s; the hold follows the thirds rule; with positive settings every phase lasts a positive time |
| `UseBreathingTimer.HoldTimeExamples` | src/hooks/useBreathingTimer.ts:39-44 | A 9 s target over three rounds holds 3, 6 and 9 s; over two rounds 6 and 9 s |
| `UseBreathingTimer.IndexOf` | src/hooks/useBreathingTimer.ts:78 | The first position of the phase in the recovery order, or -1 exactly when the phase is absent |
| `UseBreathingTimer.MoveToNextPhase` | src/hooks/useBreathingTimer.ts:57-95 | Dispatches nothing while inactive or paused, at most three actions, and never a settings update |
| `UseBreathingTimer.Fire` | src/hooks/useBreathingTimer.ts:57-95 | Applying the dispatched actions never changes settings, and on an inactive or paused session changes nothing |
| `UseBreathingTimer.FireEffect` | src/hooks/useBreathingTimer.ts:60-95 | One firing on a running session. Outside recovery: inhale→exhale; an exhale counts the breath and goes back to inhale, or once `breathsBeforeHold` is reached into the hold and recovery. In recovery: the phases follow the recovery order, and the recovery exhale starts the next round at breath 1 or resets to the initial session after the last round |
| `UseBreathingTimer.BreathsBeforeHold` | src/hooks/useBreathingTimer.ts:64-74 | From breath b ≤ N, 2(N - b + 1) firings reach the hold in recovery with breath N + 1; from breath 1 that is exactly N exhales |
| `UseBreathingTimer.NoHoldBeforeLastExhale` | src/hooks/useBreathingTimer.ts:60-75 | Before that point every state is an inhale or an exhale outside recovery |
| `UseBreathingTimer.RecoverySequence` | src/hooks/useBreathingTimer.ts:76-95 | From the hold, four firings reach the next round's first inhale or, after the last round, the initial session |
| `UseBreathingTimer.RoundSequence` | src/hooks/useBreathingTimer.ts:57-95 | A round from its first inhale takes exactly 2N + 4 firings and reaches the next round's start or the initial session |
| `UseBreathingTimer.SessionSequence` | src/hooks/useBreathingTimer.ts:86-93 | From the start of round r, the remaining rounds' firings end in the initial session |
| `UseBreathingTimer.StartedSessionCompletes` | src/context/BreathingContext.tsx:41-54 | After starting a session, `numberOfRounds · (2N + 4)` firings end back in the initial session |
| `UseBreathingTimer.RoundStaysWithinTotal` | src/hooks/useBreathingTimer.ts:86-93 | With at least one round configured, a round number within the total stays within it for any number of firings |
| `BreathingCircle.PhaseLabel` | src/components/timer/BreathingCircle.tsx:57-64 | No ensures of its own; `PhaseLabels` states its value on every phase name |
| `BreathingCircle.Heading` | src/components/timer/BreathingCircle.tsx:133 | No ensures of its own; `HeadingShowsPause` states when it reads "Paused" |
| `BreathingCircle.ShowsBreathCounter` | src/components/timer/BreathingCircle.tsx:155 | A predicate with no ensures of its own; `BreathCounterShown` states exactly when it holds |
| `BreathingCircle.PhaseLabels` | src/components/timer/BreathingCircle.tsx:57-64 | The six labels (the recovery inhale and exhale read "Inhale" and "Exhale"); the recovery flag makes no difference |
| `BreathingCircle.HeadingShowsPause` | src/components/timer/BreathingCircle.tsx:133 | The heading reads "Paused" exactly when the session is paused |
| `BreathingCircle.BreathCounterShown` | src/components/timer/BreathingCircle.tsx:150-157 | The breath counter shows exactly when not paused, not in recovery, and in one of the four non-hold phases |
| `Text.ContainsIff` | src/components/timer/BreathingCircle.tsx:155 | `includes` holds iff the substring occurs at some position |
| `Text.TakeUntil` | src/components/timer/BreathingCircle.tsx:60-61 | The segment before the first separator: a prefix without the separator, followed by the separator when shorter |
| `Text.Capitalize` | src/components/timer/BreathingCircle.tsx:63 | Same length, first character upper-cased, rest unchanged |

## Left out

- The clock and the schedulers are out of the model. These are `Date.now`, `requestAnimationFrame`/`cancelAnimationFrame`, and the hook's `setTimeout`/`useEffect` that fires `moveToNextPhase` after each phase's duration. Time is a parameter, and repeated firing is `Run`/`DriveTicks`.
- Callback plumbing is replaced by returned values:
  - the timer's `onTick`/`onComplete`/`onError`;
  - the phase manager's `onStateChange`/`onError`;
  - merging callbacks in the timer's constructor and `start`;
  - the path where a callback throws inside `tick` (its "Error during timer tick" error).
- `PhaseRuns.ApplyUpdate`: the code that receives the phase manager's updates is not part of this model. Merging replaces each section the update carries and keeps the others; this is assumed, not taken from the TypeScript code.
- The `PhaseManager` object is modelled by functions that take the tables as a parameter, since the object only stores the tables and callbacks. Its catch-and-rethrow is the returned `Failure`.
- The React provider, the `useBreathing` guard, all rendering, `ProgressBar`, `AUDIO_FREQUENCIES` and the theme are out of the model. `PHASE_ORDER.main` is not modelled: no code reads it.
- `UseBreathingTimer.MoveToNextPhase` reads the state at the time its timeout was set, as the TypeScript callback closure does. Stale closures across renders are not modelled.
- `BreathingTimerEngine.BreathingTimer.Start` requires a positive duration, so two JavaScript behaviours are not represented. With a duration of 0 the first tick divides by zero: the progress is NaN (or 1 once time has passed), and the timer completes at once. With a negative duration the progress is never positive, stays below 1, and the timer never completes.
- `BreathingTimerEngine.BreathingTimer.Start` and `BreathingTimerEngine.BreathingTimer.Resume` take one `now`, while the TypeScript code reads `Date.now()` twice: once in the method (BreathingTimer.ts:36 and :97) and again in the immediate `tick` (:56). The model's "first tick reports progress 0" and "ticks the progress of the moment of pausing" hold in the program only when both readings fall in the same millisecond; otherwise the first tick reports the little time that passed between them.
- Floating point is modelled as exact reals: there is no rounding, NaN or Infinity. The one exception is the JavaScript division by zero in the thirds rule with zero rounds, which is written out.
- Timestamps are unbounded integers. A `pauseTime` of 0 counts as unset, as `!!pauseTime` does.
- `Text.UpperChar` upper-cases ASCII letters only. All phase names are ASCII.
- The `details` payload of `BreathingError` is dropped. A settings patch field that is present but explicitly `undefined` is treated as absent.
- The CSS `textTransform: capitalize` on the heading is rendering, not modelled.

## Findings

| source | as written | input that shows it | evidently intended | confidence | as-written member | corrected member |
|---|---|---|---|---|---|---|
| src/core/profiles/WimHof.ts:26-27 with src/core/state/PhaseManager.ts:70-78 | The exhale rule tests `breathCount < maxBreaths` on the count before the breath is counted, while the step sets `isRecovery` from the count after it. At the last breath the engine therefore goes to inhale in recovery mode, where the recovery table alternates inhale and exhale forever. The hold is never reached and the session never ends. | `maxBreaths = 1`, start of a round (inhale, `breathCount = 0`): after the first exhale the state is inhale, `isRecovery = true`, `breathCount = 1`, and so on forever | The exhale rule tests the counted breath, `breathCount + 1 < maxBreaths`, so the last exhale goes to the hold; every round then completes in 2N + 4 steps and every step passes `validateStateTransition` | not executed | `PhaseRuns.AsWrittenNeverHolds` | `PhaseRuns.CorrectedRoundCompletes` |
