/** What the breathing circle shows as its heading and whether it shows the breath counter. */
module BreathingCircle {
  import opened Text
  import opened AppTypes

  /**
   * The heading for a phase name: the two holds by name, a recovery phase by
   * the word after `recovery_` capitalised, any other phase capitalised. The
   * recovery flag is accepted and not consulted.
   */
  function PhaseLabel(phase: string, isRecovery: bool): string {
    if phase == "hold" then "Hold"
    else if phase == "recovery_hold" then "Recovery Hold"
    else if StartsWith(phase, "recovery_") then Capitalize(TakeUntil(phase[9..], '_'))
    else Capitalize(phase)
  }

  /**
   * The labels of the six phases. The recovery inhale and exhale read the same
   * as the main inhale and exhale, and the recovery flag makes no difference.
   */
  lemma {:induction false} PhaseLabels(p: BreathingPhase, isRecovery: bool)
    ensures PhaseLabel(PhaseName(p), isRecovery) == PhaseLabel(PhaseName(p), !isRecovery)
    ensures PhaseLabel(PhaseName(p), isRecovery) == match p
      case Inhale => "Inhale"
      case Exhale => "Exhale"
      case Hold => "Hold"
      case RecoveryInhale => "Inhale"
      case RecoveryHold => "Recovery Hold"
      case RecoveryExhale => "Exhale"
  {
    match p
    case Inhale => BreathLabels("inhale", "recovery_inhale", "Inhale", isRecovery);
    case RecoveryInhale => BreathLabels("inhale", "recovery_inhale", "Inhale", isRecovery);
    case Exhale => BreathLabels("exhale", "recovery_exhale", "Exhale", isRecovery);
    case RecoveryExhale => BreathLabels("exhale", "recovery_exhale", "Exhale", isRecovery);
    case Hold =>
    case RecoveryHold =>
  }

  /** A breath in either part of the round is labelled by the capitalised word. */
  lemma {:induction false} BreathLabels(word: string, name: string, shown: string, isRecovery: bool)
    requires (word == "inhale" && name == "recovery_inhale" && shown == "Inhale")
          || (word == "exhale" && name == "recovery_exhale" && shown == "Exhale")
    ensures PhaseLabel(word, isRecovery) == shown && PhaseLabel(word, !isRecovery) == shown
    ensures PhaseLabel(name, isRecovery) == shown && PhaseLabel(name, !isRecovery) == shown
  {
    assert [UpperChar(word[0])] + word[1..] == shown;
    assert name == "recovery_" + word;
    PlainLabel(word, isRecovery);
    PlainLabel(word, !isRecovery);
    RecoveryLabel(word, isRecovery);
    RecoveryLabel(word, !isRecovery);
  }

  /** A main phase's name is only capitalised. */
  lemma {:induction false} PlainLabel(name: string, isRecovery: bool)
    requires name == "inhale" || name == "exhale"
    ensures PhaseLabel(name, isRecovery) == [UpperChar(name[0])] + name[1..]
  {
    assert name[0] != 'r';
    assert !StartsWith(name, "recovery_");
  }

  /** A recovery phase other than the hold is labelled by the word after `recovery_`. */
  lemma {:induction false} RecoveryLabel(word: string, isRecovery: bool)
    requires word == "inhale" || word == "exhale"
    ensures PhaseLabel("recovery_" + word, isRecovery) == [UpperChar(word[0])] + word[1..]
  {
    var name := "recovery_" + word;
    assert name[..9] == "recovery_";
    assert name[9..] == word;
    assert name != "recovery_hold" by {
      assert name[9] == word[0];
    }
    assert '_' !in word;
    TakeUntilAbsent(word, '_');
  }

  /** The heading: "Paused" while paused, the phase's label otherwise. */
  function Heading(isPaused: bool, phase: BreathingPhase, isRecovery: bool): string {
    if isPaused then "Paused" else PhaseLabel(PhaseName(phase), isRecovery)
  }

  /** The heading reads "Paused" exactly when the session is paused: no phase is labelled so. */
  lemma {:induction false} HeadingShowsPause(isPaused: bool, phase: BreathingPhase, isRecovery: bool)
    ensures Heading(isPaused, phase, isRecovery) == "Paused" <==> isPaused
  {
    PhaseLabels(phase, isRecovery);
  }

  /** The breath counter is shown while running outside recovery in a phase whose name has no "hold". */
  predicate ShowsBreathCounter(isPaused: bool, isRecovery: bool, phase: BreathingPhase) {
    !isPaused && !isRecovery && !Contains(PhaseName(phase), "hold")
  }

  /** Exactly the four breathing phases, not paused and outside recovery, show the counter. */
  lemma {:induction false} BreathCounterShown(isPaused: bool, isRecovery: bool, phase: BreathingPhase)
    ensures ShowsBreathCounter(isPaused, isRecovery, phase)
        <==> !isPaused && !isRecovery && phase != Hold && phase != RecoveryHold
  {
    if phase == Hold || phase == RecoveryHold {
      HoldNamesSayHold(phase);
    } else {
      assert 'd' !in PhaseName(phase);
      ContainedCharsOccur(PhaseName(phase), "hold", 'd');
    }
  }

  lemma {:induction false} HoldNamesSayHold(phase: BreathingPhase)
    requires phase == Hold || phase == RecoveryHold
    ensures Contains(PhaseName(phase), "hold")
  {
    if phase == Hold {
      assert StartsWith("hold", "hold");
    } else {
      assert OccursAt("recovery_hold", "hold", 9);
      OccursAtContains("recovery_hold", "hold", 9);
    }
  }
}
