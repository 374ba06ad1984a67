/** The capacity assistant (components/CapacityWizard.tsx): a three-step wizard that records
    the decision in question, the five functional-test answers and, after a functional failure,
    the impairment (causative nexus) answer, and then reports whether the person lacks capacity
    together with a written rationale. An unanswered question is `None`. */
module CapacityWizard {
  import opened Types
  import Text

  /** The answers to "able to understand, retain, use, weigh, communicate". */
  datatype Functional = Functional(
    understand: Option<bool>,
    retain: Option<bool>,
    use: Option<bool>,
    weigh: Option<bool>,
    communicate: Option<bool>
  )

  const Unanswered := Functional(None, None, None, None, None)

  const DefaultDecision := "Where to live upon discharge and the care arrangements there."

  /** `isFunctionalFailure` (lines 26-31): some stage was answered No. */
  predicate IsFunctionalFailure(f: Functional): (r: bool)
    ensures r <==> exists s: Stage :: StageAnswer(f, s) == Some(false)
  {
    assert StageAnswer(f, Understand) == f.understand && StageAnswer(f, Retain) == f.retain;
    assert StageAnswer(f, Use) == f.use && StageAnswer(f, Weigh) == f.weigh;
    assert StageAnswer(f, Communicate) == f.communicate;
    f.understand == Some(false) || f.retain == Some(false) || f.use == Some(false)
    || f.weigh == Some(false) || f.communicate == Some(false)
  }

  /** The step-2 guard (line 152): every stage has an answer. */
  predicate AllAnswered(f: Functional)
  {
    f.understand.Some? && f.retain.Some? && f.use.Some? && f.weigh.Some? && f.communicate.Some?
  }

  /** `${x ? 'YES' : 'NO'}`: only an answer of Yes is truthy. */
  function YesNo(b: Option<bool>): string
  {
    if b == Some(true) then "YES" else "NO"
  }

  /** The decision and functional-test part of the rationale, which every outcome shares. */
  function Preamble(decision: string, f: Functional): string
  {
    "MCA 2005 s.3 CAPACITY ASSESSMENT\n"
    + "DECISION: " + decision + "\n\n"
    + "1. FUNCTIONAL TEST (5 Stages):\n"
    + "- Able to understand relevant info: " + YesNo(f.understand) + "\n"
    + "- Able to retain info: " + YesNo(f.retain) + "\n"
    + "- Able to use info: " + YesNo(f.use) + "\n"
    + "- Able to weigh info: " + YesNo(f.weigh) + "\n"
    + "- Able to communicate decision: " + YesNo(f.communicate) + "\n\n"
  }

  // The longer texts are written in pieces: the verifier reads the characters of short
  // literals only, and the proofs below compare first and last characters.

  const ImpairmentHeading := "2. " + "MENTAL IMPAIRMENT TEST (Causative Nexus):\n"

  const ImpairmentQuestion :=
    "Is this inability because of an impairment of, or a disturbance in the functioning of, the mind or brain? "

  const LacksConclusion :=
    "CONCLUSION: The person lacks capacity to make this decision. The functional inability is "
    + "caused by an impairment/disturbance of " + "the mind or brain."

  const NexusNotMetConclusion :=
    "CONCLUSION: The person has capacity. Although a functional inability was noted, it was not "
    + "established that this was caused by a mental impairment " + "(causative nexus not met)."

  const PresumedConclusion :=
    "CONCLUSION: " + "The person has capacity. All functional stages were met. The presumption "
    + "of capacity remains."

  datatype CapacityResult = CapacityResult(lacksCapacity: bool, rationale: string)

  /** What follows the preamble: the impairment section after a functional failure, then the
      conclusion. */
  function Findings(f: Functional, impairment: Option<bool>, lacks: bool): string
  {
    if IsFunctionalFailure(f) then ImpairmentSection(impairment) + ConclusionOf(f, lacks)
    else PresumedConclusion
  }

  /** The impairment question and its answer. */
  function ImpairmentSection(impairment: Option<bool>): string
  {
    ImpairmentHeading + ImpairmentQuestion + YesNo(impairment) + "\n\n"
  }

  /** The findings open with the impairment heading exactly after a functional failure. */
  lemma FindingsOpening(f: Functional, impairment: Option<bool>, lacks: bool)
    ensures |Findings(f, impairment, lacks)| > 0
    ensures Text.StartsWith(Findings(f, impairment, lacks), ImpairmentHeading)
            <==> IsFunctionalFailure(f)
  {
    if IsFunctionalFailure(f) {
      Text.StartsWithAppend(ImpairmentHeading, ImpairmentQuestion);
      Text.StartsWithExtend(ImpairmentHeading + ImpairmentQuestion, ImpairmentHeading,
                            YesNo(impairment));
      Text.StartsWithExtend(ImpairmentHeading + ImpairmentQuestion + YesNo(impairment),
                            ImpairmentHeading, "\n\n");
      Text.StartsWithExtend(ImpairmentSection(impairment), ImpairmentHeading,
                            ConclusionOf(f, lacks));
    } else {
      assert ImpairmentHeading[0] != PresumedConclusion[0];
      Text.StartsWithBoth(PresumedConclusion, PresumedConclusion, ImpairmentHeading, 0);
      assert PresumedConclusion[..|PresumedConclusion|] == PresumedConclusion;
    }
  }

  /** `determineCapacity` (lines 33-60). */
  function DetermineCapacity(decision: string, f: Functional, impairment: Option<bool>)
    : (r: CapacityResult)
    ensures r.lacksCapacity <==> IsFunctionalFailure(f) && impairment == Some(true)
  {
    var lacks := IsFunctionalFailure(f) && impairment == Some(true);
    CapacityResult(lacks, Preamble(decision, f) + Findings(f, impairment, lacks))
  }

  /** The rationale opens with the preamble, and the impairment section follows it exactly
      after a functional failure. */
  lemma RationaleOpening(decision: string, f: Functional, impairment: Option<bool>)
    ensures var r := DetermineCapacity(decision, f, impairment);
            |r.rationale| > |Preamble(decision, f)|
            && Text.StartsWith(r.rationale, Preamble(decision, f))
            && (Text.StartsWith(r.rationale[|Preamble(decision, f)|..], ImpairmentHeading)
                <==> IsFunctionalFailure(f))
  {
    var r := DetermineCapacity(decision, f, impairment);
    var pre := Preamble(decision, f);
    var tail := Findings(f, impairment, r.lacksCapacity);
    assert r.rationale == pre + tail;
    assert (pre + tail)[|pre|..] == tail;
    FindingsOpening(f, impairment, r.lacksCapacity);
    Text.StartsWithAppend(pre, tail);
  }

  /** The conclusion the findings close with. */
  function ConclusionOf(f: Functional, lacks: bool): string
  {
    if !IsFunctionalFailure(f) then PresumedConclusion
    else if lacks then LacksConclusion
    else NexusNotMetConclusion
  }

  lemma FindingsClosing(pre: string, f: Functional, impairment: Option<bool>, lacks: bool)
    ensures Text.EndsWith(pre + Findings(f, impairment, lacks), ConclusionOf(f, lacks))
  {
    var last := ConclusionOf(f, lacks);
    if IsFunctionalFailure(f) {
      Text.EndsWithAppend3(pre, ImpairmentSection(impairment), last);
    } else {
      Text.EndsWithAppend(pre, last);
    }
  }

  /** The rationale ends with the conclusion it reports: the "lacks capacity" sentence exactly
      when capacity is lacking, the causative-nexus sentence after a failure without impairment,
      and the presumption sentence when every stage was met. */
  lemma ConclusionMatchesResult(decision: string, f: Functional, impairment: Option<bool>)
    ensures var r := DetermineCapacity(decision, f, impairment);
            Text.EndsWith(r.rationale, LacksConclusion) <==> r.lacksCapacity
    ensures var r := DetermineCapacity(decision, f, impairment);
            Text.EndsWith(r.rationale, NexusNotMetConclusion)
            <==> IsFunctionalFailure(f) && impairment != Some(true)
    ensures var r := DetermineCapacity(decision, f, impairment);
            Text.EndsWith(r.rationale, PresumedConclusion) <==> !IsFunctionalFailure(f)
  {
    var r := DetermineCapacity(decision, f, impairment);
    FindingsClosing(Preamble(decision, f), f, impairment, r.lacksCapacity);
    ConclusionsDiffer(r.rationale);
  }

  /** No text ends with two of the three conclusions: their second-to-last characters
      differ. */
  lemma ConclusionsDiffer(t: string)
    ensures !(Text.EndsWith(t, LacksConclusion) && Text.EndsWith(t, NexusNotMetConclusion))
    ensures !(Text.EndsWith(t, LacksConclusion) && Text.EndsWith(t, PresumedConclusion))
    ensures !(Text.EndsWith(t, NexusNotMetConclusion) && Text.EndsWith(t, PresumedConclusion))
  {
    Text.EndsWithBoth(t, LacksConclusion, NexusNotMetConclusion, 2);
    Text.EndsWithBoth(t, LacksConclusion, PresumedConclusion, 2);
    Text.EndsWithBoth(t, NexusNotMetConclusion, PresumedConclusion, 2);
  }

  /** A functional failure with impairment answered No concludes that the person has
      capacity, and with every stage met the person has capacity whatever the impairment
      answer. */
  lemma CapacityUnlessNexus(decision: string, f: Functional, impairment: Option<bool>)
    requires !IsFunctionalFailure(f) || impairment == Some(false)
    ensures !DetermineCapacity(decision, f, impairment).lacksCapacity
  {
  }

  /** The wizard's pages: step 1, step 2 and step 3. */
  datatype Step = DecisionStep | FunctionalStep | ImpairmentStep

  /** Whether the wizard is still open, reported a result through `onComplete`, or was
      cancelled through `onCancel`. */
  datatype Outcome = Open | Completed(result: CapacityResult) | Cancelled

  datatype Stage = Understand | Retain | Use | Weigh | Communicate

  /** The answer recorded for one stage. */
  function StageAnswer(f: Functional, s: Stage): Option<bool>
  {
    match s
    case Understand => f.understand
    case Retain => f.retain
    case Use => f.use
    case Weigh => f.weigh
    case Communicate => f.communicate
  }

  /** The answer buttons of one stage: that stage records the answer, the others keep
      theirs. */
  function SetStage(f: Functional, s: Stage, b: bool): (r: Functional)
    ensures StageAnswer(r, s) == Some(b)
    ensures forall t :: t != s ==> StageAnswer(r, t) == StageAnswer(f, t)
  {
    match s
    case Understand => f.(understand := Some(b))
    case Retain => f.(retain := Some(b))
    case Use => f.(use := Some(b))
    case Weigh => f.(weigh := Some(b))
    case Communicate => f.(communicate := Some(b))
  }

  /** The Next button of step 2 (`handleNextFromFunctional`, lines 62-68) as a decision: go on
      to step 3, or conclude at once. */
  function NextFromFunctional(decision: string, f: Functional, impairment: Option<bool>)
    : (r: (Step, Outcome))
    ensures IsFunctionalFailure(f) ==> r == (ImpairmentStep, Open)
    ensures !IsFunctionalFailure(f) ==>
      r.0 == FunctionalStep && r.1.Completed? && !r.1.result.lacksCapacity
  {
    if IsFunctionalFailure(f) then (ImpairmentStep, Open)
    else (FunctionalStep, Completed(DetermineCapacity(decision, f, impairment)))
  }

  /** Answering every stage Yes can never reach step 3. */
  lemma AllYesConcludesAtOnce(decision: string, impairment: Option<bool>)
    ensures var f := Functional(Some(true), Some(true), Some(true), Some(true), Some(true));
            AllAnswered(f) && NextFromFunctional(decision, f, impairment).0 != ImpairmentStep
  {
  }

  class Wizard {
    var step: Step
    var decision: string
    var answers: Functional
    var impairment: Option<bool>
    var outcome: Outcome

    constructor ()
      ensures step == DecisionStep && decision == DefaultDecision
      ensures answers == Unanswered && impairment == None && outcome == Open
    {
      step := DecisionStep;
      decision := DefaultDecision;
      answers := Unanswered;
      impairment := None;
      outcome := Open;
    }

    /** Editing the decision text on step 1. */
    method EditDecision(text: string)
      requires step == DecisionStep && outcome == Open
      modifies this
      ensures decision == text
      ensures step == old(step) && answers == old(answers)
      ensures impairment == old(impairment) && outcome == old(outcome)
    {
      decision := text;
    }

    /** "Start Functional Test" (line 96). */
    method StartFunctionalTest()
      requires step == DecisionStep && outcome == Open
      modifies this
      ensures step == FunctionalStep
      ensures decision == old(decision) && answers == old(answers)
      ensures impairment == old(impairment) && outcome == old(outcome)
    {
      step := FunctionalStep;
    }

    /** A Yes or No button of step 2. */
    method Answer(s: Stage, b: bool)
      requires step == FunctionalStep && outcome == Open
      modifies this
      ensures answers == SetStage(old(answers), s, b)
      ensures step == old(step) && decision == old(decision)
      ensures impairment == old(impairment) && outcome == old(outcome)
    {
      answers := SetStage(answers, s, b);
    }

    /** The step-2 Next button; it is disabled until every stage is answered. */
    method NextFromFunctionalTest()
      requires step == FunctionalStep && outcome == Open && AllAnswered(answers)
      modifies this
      ensures (step, outcome) == NextFromFunctional(decision, answers, impairment)
      ensures decision == old(decision) && answers == old(answers)
      ensures impairment == old(impairment)
    {
      if IsFunctionalFailure(answers) {
        step := ImpairmentStep;
      } else {
        outcome := Completed(DetermineCapacity(decision, answers, impairment));
      }
    }

    /** A button of step 3. */
    method AnswerImpairment(b: bool)
      requires step == ImpairmentStep && outcome == Open
      modifies this
      ensures impairment == Some(b)
      ensures step == old(step) && decision == old(decision)
      ensures answers == old(answers) && outcome == old(outcome)
    {
      impairment := Some(b);
    }

    /** "Determine Capacity" on step 3; it is disabled until the impairment is answered. */
    method Conclude()
      requires step == ImpairmentStep && outcome == Open && impairment.Some?
      modifies this
      ensures outcome == Completed(DetermineCapacity(decision, answers, impairment))
      ensures step == old(step) && decision == old(decision)
      ensures answers == old(answers) && impairment == old(impairment)
    {
      outcome := Completed(DetermineCapacity(decision, answers, impairment));
    }

    /** "Cancel Assessment" (line 196), available on every step. */
    method Cancel()
      requires outcome == Open
      modifies this
      ensures outcome == Cancelled
      ensures step == old(step) && decision == old(decision)
      ensures answers == old(answers) && impairment == old(impairment)
    {
      outcome := Cancelled;
    }
  }
}
