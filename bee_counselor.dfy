/**
 * The Bee Counselor panel: three exercises shown one after the other. On the
 * first one the user taps the bee to count breaths; the main button runs the
 * breathing tap on the first exercise and advances on the others, and on the
 * last exercise it asks the parent to close the panel (`onClose`).
 */
module BeeCounselor {

  datatype Exercise = Exercise(title: string, content: string)

  /** The `exercises` array, in display order. */
  const Exercises: seq<Exercise> := [
    Exercise("Deep Breathing", "Let's take a few deep breaths together. Inhale... hold... exhale..."),
    Exercise("Quick Reflection", "What's one small financial win you've had recently?"),
    Exercise("Gratitude", "Think of something you're grateful for today, no matter how small.")
  ]

  /** `exercises.length - 1`, the step whose button reads "Finish". */
  const LastStep: nat := |Exercises| - 1

  /** Breathing taps counted before a tap moves on (`breathCount < 3`). */
  const BreathLimit: nat := 3

  /** The total the on-screen prompt announces: "Tap the bee to continue (n/6)". */
  const PromptTotal: nat := 6

  /** The `currentStep` / `breathCount` pair. */
  datatype Counselor = Counselor(step: nat, breaths: nat)

  /** A newly opened panel. */
  function Fresh(): Counselor {
    Counselor(0, 0)
  }

  /** The step indexes `Exercises` and at most BreathLimit breaths are counted. */
  predicate InRange(c: Counselor) {
    c.step <= LastStep && c.breaths <= BreathLimit
  }

  /**
   * The states the user can reach: in range, and the panel leaves the first
   * exercise only once every breath was counted.
   */
  predicate WellFormed(c: Counselor) {
    InRange(c) && (c.step > 0 ==> c.breaths == BreathLimit)
  }

  /** The new state of a handler, and whether it called `onClose`. */
  datatype Outcome = Outcome(next: Counselor, closeRequested: bool)

  /** `handleNextStep`: advance while not on the last exercise, otherwise close. */
  function NextStep(c: Counselor): (o: Outcome)
    ensures o.closeRequested <==> c.step >= LastStep
    ensures o.next.breaths == c.breaths
    ensures o.closeRequested ==> o.next == c
    ensures !o.closeRequested ==> o.next.step == c.step + 1
  {
    if c.step < LastStep then Outcome(c.(step := c.step + 1), false)
    else Outcome(c, true)
  }

  /** `handleBreathingAnimation`: count a breath while below the limit, otherwise run Next. */
  function Breathe(c: Counselor): (o: Outcome)
    ensures c.breaths < BreathLimit ==> o == Outcome(c.(breaths := c.breaths + 1), false)
    ensures c.breaths >= BreathLimit ==> o == NextStep(c) && o.next.breaths == c.breaths
  {
    if c.breaths < BreathLimit then Outcome(c.(breaths := c.breaths + 1), false)
    else NextStep(c)
  }

  /** The main button: the breathing tap on the first exercise, Next on the others. */
  function PressMain(c: Counselor): (o: Outcome)
    ensures c.step == 0 ==> o == Breathe(c)
    ensures c.step != 0 ==> o == NextStep(c)
  {
    if c.step == 0 then Breathe(c) else NextStep(c)
  }

  /** The main button's label. */
  function ButtonLabel(step: nat): (caption: string)
    ensures caption == "Finish" <==> step == LastStep
    ensures caption == "Finish" || caption == "Next"
  {
    if step == LastStep then "Finish" else "Next"
  }

  /** The breathing hint under the bee. */
  function BreathLabel(breaths: nat): (caption: string)
    ensures caption == "Inhale..." <==> breaths % 2 == 0
    ensures caption == "Exhale..." <==> breaths % 2 == 1
  {
    if breaths % 2 == 0 then "Inhale..." else "Exhale..."
  }

  /** The user's actions on the panel. */
  datatype Event = TapBee | MainButton | CloseButton

  /**
   * One user action. The bee is rendered only on the first exercise, so a tap
   * elsewhere has nothing to land on; the X button calls `onClose` directly.
   */
  function Handle(c: Counselor, e: Event): (o: Outcome)
    ensures e == CloseButton ==> o == Outcome(c, true)
    ensures e == TapBee && c.step != 0 ==> o == Outcome(c, false)
    ensures e == MainButton ==> o == PressMain(c)
    ensures WellFormed(c) ==> WellFormed(o.next)
  {
    match e
    case TapBee => if c.step == 0 then Breathe(c) else Outcome(c, false)
    case MainButton => PressMain(c)
    case CloseButton => Outcome(c, true)
  }

  /** Runs `events` until one of them closes the panel. */
  function Run(c: Counselor, events: seq<Event>): Outcome
    decreases |events|
  {
    if events == [] then Outcome(c, false)
    else
      var o := Handle(c, events[0]);
      if o.closeRequested then o else Run(o.next, events[1..])
  }

  /** `n` presses of the main button. */
  function Presses(n: nat): (r: seq<Event>)
    ensures |r| == n && forall i :: 0 <= i < n ==> r[i] == MainButton
  {
    if n == 0 then [] else [MainButton] + Presses(n - 1)
  }

  /** Main-button presses from `c` up to and including the one that closes the panel. */
  function PressesToClose(c: Counselor): nat
    requires WellFormed(c)
  {
    if c.step == 0 then (BreathLimit - c.breaths) + 1 + LastStep
    else LastStep - c.step + 1
  }

  // ---------------------------------------------------------------------------
  // Properties
  // ---------------------------------------------------------------------------

  lemma FreshIsValid()
    ensures WellFormed(Fresh()) && Fresh().step == 0 && Fresh().breaths == 0
  {
  }

  /** Any sequence of actions keeps the panel valid: `exercises[currentStep]` stays in range and `breathCount` never passes 3. */
  lemma {:induction false} RunPreservesValid(c: Counselor, events: seq<Event>)
    requires WellFormed(c)
    ensures WellFormed(Run(c, events).next)
    ensures Run(c, events).next.step < |Exercises| && Run(c, events).next.breaths <= BreathLimit
    decreases |events|
  {
    if events != [] {
      RunPreservesValid(Handle(c, events[0]).next, events[1..]);
    }
  }

  /** The breath counter never reaches the total the prompt announces. */
  lemma BreathsStayBelowPrompt(events: seq<Event>)
    ensures Run(Fresh(), events).next.breaths < PromptTotal
  {
    RunPreservesValid(Fresh(), events);
  }

  /**
   * Pressing the main button `n` times from a valid state closes the panel
   * exactly when `n` reaches PressesToClose; a press never skips a step.
   */
  lemma {:induction false} PressesCloseExactly(c: Counselor, n: nat)
    requires WellFormed(c)
    ensures Run(c, Presses(n)).closeRequested <==> n >= PressesToClose(c)
    decreases n
  {
    if n > 0 {
      var o := PressMain(c);
      assert Presses(n)[0] == MainButton && Presses(n)[1..] == Presses(n - 1);
      if !o.closeRequested {
        assert PressesToClose(o.next) == PressesToClose(c) - 1;
        PressesCloseExactly(o.next, n - 1);
      }
    }
  }

  /** From a fresh panel the sixth press of the main button is the one that closes it. */
  lemma SixPressesFinish()
    ensures !Run(Fresh(), Presses(5)).closeRequested
    ensures Run(Fresh(), Presses(6)).closeRequested
  {
    PressesCloseExactly(Fresh(), 5);
    PressesCloseExactly(Fresh(), 6);
  }

  /** From a fresh panel, three bee taps count three breaths and the fourth moves to step 1. */
  lemma FourthTapAdvances()
    ensures Run(Fresh(), [TapBee, TapBee, TapBee]).next == Counselor(0, 3)
    ensures Run(Fresh(), [TapBee, TapBee, TapBee, TapBee]).next == Counselor(1, 3)
  {
    assert [TapBee, TapBee, TapBee][1..] == [TapBee, TapBee];
    assert [TapBee, TapBee, TapBee, TapBee][1..] == [TapBee, TapBee, TapBee];
  }

  // ---------------------------------------------------------------------------
  // The component
  // ---------------------------------------------------------------------------

  class BeeCounselorPanel {
    var currentStep: nat
    var breathCount: nat

    function State(): Counselor
      reads this
    {
      Counselor(currentStep, breathCount)
    }

    ghost predicate Valid()
      reads this
    {
      InRange(State())
    }

    constructor ()
      ensures State() == Fresh() && Valid()
    {
      currentStep, breathCount := 0, 0;
    }

    /** `handleNextStep`; `closeRequested` says whether `onClose` was called. */
    method HandleNextStep() returns (closeRequested: bool)
      requires Valid()
      modifies this
      ensures Valid()
      ensures Outcome(State(), closeRequested) == NextStep(old(State()))
    {
      if currentStep < |Exercises| - 1 {
        currentStep := currentStep + 1;
        closeRequested := false;
      } else {
        closeRequested := true;
      }
    }

    /** `handleBreathingAnimation`, which hands over to `handleNextStep` once three breaths are counted. */
    method HandleBreathingAnimation() returns (closeRequested: bool)
      requires Valid()
      modifies this
      ensures Valid()
      ensures Outcome(State(), closeRequested) == Breathe(old(State()))
    {
      if breathCount < 3 {
        breathCount := breathCount + 1;
        closeRequested := false;
      } else {
        closeRequested := HandleNextStep();
      }
    }

    /** The main button's `onClick`. */
    method OnMainButton() returns (closeRequested: bool)
      requires Valid()
      modifies this
      ensures Valid()
      ensures Outcome(State(), closeRequested) == PressMain(old(State()))
    {
      if currentStep == 0 {
        closeRequested := HandleBreathingAnimation();
      } else {
        closeRequested := HandleNextStep();
      }
    }

    /** The X button in the header calls `onClose` and changes no state. */
    method OnCloseButton() returns (closeRequested: bool)
      ensures closeRequested
    {
      closeRequested := true;
    }

    /** The exercise on screen, `exercises[currentStep]`, always in range. */
    function CurrentExercise(): (e: Exercise)
      reads this
      requires Valid()
      ensures e in Exercises
    {
      Exercises[currentStep]
    }

    /** The main button's label: "Finish" exactly on the last exercise. */
    function MainButtonLabel(): (caption: string)
      reads this
      ensures caption == "Finish" <==> currentStep == |Exercises| - 1
      ensures caption == "Finish" || caption == "Next"
    {
      ButtonLabel(currentStep)
    }
  }
}
