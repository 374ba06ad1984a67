/** The nearest-relative wizard (components/NearestRelativeWizard.tsx): four steps of questions
    about the patient's relatives, then the relative the hierarchy selects, with the section of
    the Mental Health Act 1983 it rests on. An unanswered question is `None`. */
module NearestRelativeWizard {
  import opened Types

  /** `caringRelativeType`: '' until step 3 is answered, then one of the five buttons. */
  datatype CaringType = NotAsked | ChildCares | ParentCares | SiblingCares | OtherCares | NoneResides

  /** The six answers `determineNR` reads. */
  datatype Answers = Answers(
    hasPartner: Option<bool>,
    partnerEligible: Option<bool>,
    caring: CaringType,
    hasChildren: Option<bool>,
    hasParents: Option<bool>,
    hasSiblings: Option<bool>
  )

  const NoAnswers := Answers(None, None, NotAsked, None, None, None)

  /** The branch of `determineNR` that reports. */
  datatype Kind =
    | Spouse
    | CaringChild | CaringParent | CaringSibling | CaringOther
    | EldestChild | ElderParent | EldestSibling
    | FurtherRelative

  /** A field holding `true`: the JavaScript truthiness of a `boolean | null` answer. */
  predicate Yes(b: Option<bool>)
  {
    b == Some(true)
  }

  /** The caring types that displace the hierarchy: set and not 'none' (line 40). */
  predicate Displaces(c: CaringType)
  {
    c != NotAsked && c != NoneResides
  }

  /** The rank of each branch: the earlier a branch is tested, the lower its rank. */
  function Rank(k: Kind): nat
  {
    match k
    case Spouse => 0
    case CaringChild => 1
    case CaringParent => 1
    case CaringSibling => 1
    case CaringOther => 1
    case EldestChild => 2
    case ElderParent => 3
    case EldestSibling => 4
    case FurtherRelative => 5
  }

  /** When each branch's condition holds; the last one always does. */
  predicate Applies(k: Kind, a: Answers)
  {
    match k
    case Spouse => Yes(a.hasPartner) && Yes(a.partnerEligible)
    case CaringChild => a.caring == ChildCares
    case CaringParent => a.caring == ParentCares
    case CaringSibling => a.caring == SiblingCares
    case CaringOther => a.caring == OtherCares
    case EldestChild => Yes(a.hasChildren)
    case ElderParent => Yes(a.hasParents)
    case EldestSibling => Yes(a.hasSiblings)
    case FurtherRelative => true
  }

  /** The branch chain of `determineNR` (lines 24-78). */
  function DetermineKind(a: Answers): (k: Kind)
    ensures Applies(k, a)
  {
    if Yes(a.hasPartner) && Yes(a.partnerEligible) then Spouse
    else if Displaces(a.caring) then
      match a.caring
      case ChildCares => CaringChild
      case ParentCares => CaringParent
      case SiblingCares => CaringSibling
      case OtherCares => CaringOther
    else if Yes(a.hasChildren) then EldestChild
    else if Yes(a.hasParents) then ElderParent
    else if Yes(a.hasSiblings) then EldestSibling
    else FurtherRelative
  }

  /** The chain reports the first applicable branch: no branch of lower rank applies. */
  lemma FirstApplicableBranch(a: Answers)
    ensures forall j :: Rank(j) < Rank(DetermineKind(a)) ==> !Applies(j, a)
  {
  }

  /** An eligible spouse or partner is chosen whatever else was answered. */
  lemma SpouseTakesPrecedence(a: Answers)
    requires Yes(a.hasPartner) && Yes(a.partnerEligible)
    ensures DetermineKind(a) == Spouse
  {
  }

  /** Without one, a caring relative is chosen whatever the hierarchy answers are; and an
      unanswered step 3 behaves exactly like "No / Resides Alone". */
  lemma CaringDisplacesHierarchy(a: Answers, b: Answers)
    requires !(Yes(a.hasPartner) && Yes(a.partnerEligible)) && Displaces(a.caring)
    requires !(Yes(b.hasPartner) && Yes(b.partnerEligible)) && b.caring == a.caring
    ensures DetermineKind(a) == DetermineKind(b) && Rank(DetermineKind(a)) == 1
  {
  }

  /** The fallback is reported exactly when no other branch applies. */
  lemma FallbackIffNoneApplies(a: Answers)
    ensures DetermineKind(a) == FurtherRelative
            <==> forall j :: j != FurtherRelative ==> !Applies(j, a)
  {
    FirstApplicableBranch(a);
  }

  lemma UnaskedIsNone(a: Answers)
    requires a.caring == NotAsked
    ensures DetermineKind(a) == DetermineKind(a.(caring := NoneResides))
  {
  }

  /** The result shown for each branch. */
  function ResultText(k: Kind): string
  {
    match k
    case Spouse => "Husband / Wife / Civil Partner"
    case CaringChild => "Son or Daughter (Residing/Caring)"
    case CaringParent => "Parent (Residing/Caring)"
    case CaringSibling => "Sibling (Residing/Caring)"
    case CaringOther => "Other Relative (Residing/Caring)"
    case EldestChild => "Eldest Son or Daughter (18+)"
    case ElderParent => "Mother or Father (Eldest)"
    case EldestSibling => "Eldest Brother or Sister (Whole Blood)"
    case FurtherRelative => "Grandparent / Grandchild / Uncle / Aunt / Nephew / Niece"
  }

  /** Different branches show different results, so the result names the branch taken. */
  lemma ResultTextInjective(k: Kind, j: Kind)
    requires ResultText(k) == ResultText(j)
    ensures k == j
  {
  }

  /** The rationale recorded for each branch; the four caring branches share one. */
  function RationaleText(k: Kind): string
  {
    match k
    case Spouse =>
      "s.26(1)(a): Spouse/CP takes precedence. Includes co-habitees of >6 months (s.26(6)). Section 26(4) displacement does not apply to spouses/partners."
    case CaringChild => CaringRationale
    case CaringParent => CaringRationale
    case CaringSibling => CaringRationale
    case CaringOther => CaringRationale
    case EldestChild =>
      "s.26(1)(b): Eldest child (18+) takes precedence in the standard hierarchy."
    case ElderParent =>
      "s.26(1)(c): Elder parent takes precedence. Note: Unmarried fathers must have PR (s.26(2))."
    case EldestSibling => "s.26(1)(d): Whole blood preferred to half blood. Eldest preferred."
    case FurtherRelative =>
      "s.26(1)(e)-(h): Proceed down hierarchy. Apply 'Eldest' and 'Whole Blood' rules."
  }

  const CaringRationale :=
    "s.26(4) Displacement: The patient resides with or is cared for by this relative. This relative is preferred over anyone else in the hierarchy (except a spouse)."

  /** What `finalize` hands to `onComplete`. */
  datatype Determination = Determination(result: string, rationale: string)

  /** `determineNR`: one determination, from the first branch that applies. */
  function DetermineNR(a: Answers): (d: Determination)
    ensures d.result == ResultText(DetermineKind(a))
    ensures d.rationale == RationaleText(DetermineKind(a))
  {
    var k := DetermineKind(a);
    Determination(ResultText(k), RationaleText(k))
  }

  /** The wizard's four pages. */
  datatype Step = PartnerStep | EligibilityStep | CaringStep | HierarchyStep

  /** `Completed(k)`: `finalize` handed `onComplete` the determination of branch `k`, that
      is `DetermineNR(a)` for answers `a` with `DetermineKind(a) == k`. */
  datatype Outcome = Open | Completed(kind: Kind) | Cancelled

  /** The answers present on each page, given that no page has a Back button: what the user
      can have answered by the time the page shows. */
  predicate ReachableAnswers(step: Step, a: Answers)
  {
    match step
    case PartnerStep => a == NoAnswers
    case EligibilityStep => a == NoAnswers.(hasPartner := Some(true))
    case CaringStep =>
      a.caring == NotAsked && !(Yes(a.hasPartner) && Yes(a.partnerEligible))
      && a.hasChildren == None && a.hasParents == None && a.hasSiblings == None
    case HierarchyStep =>
      a.caring == NoneResides && !(Yes(a.hasPartner) && Yes(a.partnerEligible))
  }

  /** Whatever was answered before a step-2 or step-3 page shows, evaluating `determineNR` on
      those answers reports the further-relative fallback. */
  lemma {:induction false} StaleAnswersGiveFallback(step: Step, a: Answers)
    requires step == EligibilityStep || step == CaringStep
    requires ReachableAnswers(step, a)
    ensures DetermineKind(a) == FurtherRelative
  {
    if step == EligibilityStep {
      assert a.partnerEligible == None && a.caring == NotAsked;
      assert a.hasChildren == None && a.hasParents == None && a.hasSiblings == None;
    }
  }

  /** The wizard's state: the page, the six answers and whether it has reported. */
  class Wizard {
    var step: Step
    var hasPartner: Option<bool>
    var partnerEligible: Option<bool>
    var caring: CaringType
    var hasChildren: Option<bool>
    var hasParents: Option<bool>
    var hasSiblings: Option<bool>
    var outcome: Outcome

    function Current(): Answers
      reads this
    {
      Answers(hasPartner, partnerEligible, caring, hasChildren, hasParents, hasSiblings)
    }

    predicate Valid()
      reads this
    {
      outcome == Open ==> ReachableAnswers(step, Current())
    }

    constructor ()
      ensures Valid() && step == PartnerStep && Current() == NoAnswers && outcome == Open
    {
      step := PartnerStep;
      hasPartner, partnerEligible, caring := None, None, NotAsked;
      hasChildren, hasParents, hasSiblings := None, None, None;
      outcome := Open;
    }

    /** Step 1 (lines 99-100): Yes goes to step 2, No to step 3. */
    method AnswerPartner(yes: bool)
      requires Valid() && outcome == Open && step == PartnerStep
      modifies this
      ensures Valid() && outcome == Open
      ensures Current() == old(Current()).(hasPartner := Some(yes))
      ensures step == (if yes then EligibilityStep else CaringStep)
    {
      hasPartner := Some(yes);
      step := if yes then EligibilityStep else CaringStep;
    }

    /** Step 2 "No, separated/ineligible" (line 111): go to step 3. */
    method PartnerIneligible()
      requires Valid() && outcome == Open && step == EligibilityStep
      modifies this
      ensures Valid() && outcome == Open
      ensures Current() == old(Current()).(partnerEligible := Some(false)) && step == CaringStep
    {
      partnerEligible := Some(false);
      step := CaringStep;
    }

    /** Step 2 "Yes, eligible" as written (line 110): the setter's new value is not yet visible
        to `determineNR`, which evaluates the answers as they were before the click. */
    method PartnerEligibleAsWritten()
      requires Valid() && outcome == Open && step == EligibilityStep
      modifies this
      ensures Current() == old(Current()).(partnerEligible := Some(true)) && step == old(step)
      ensures outcome == Completed(DetermineKind(old(Current())))
      ensures outcome.kind == FurtherRelative
    {
      var before := Current();
      StaleAnswersGiveFallback(step, before);
      partnerEligible := Some(true);
      outcome := Completed(DetermineKind(before));
    }

    /** Step 2 "Yes, eligible" evaluated on the answers including the click. */
    method PartnerEligible()
      requires outcome == Open && step == EligibilityStep && hasPartner == Some(true)
      modifies this
      ensures Current() == old(Current()).(partnerEligible := Some(true)) && step == old(step)
      ensures outcome == Completed(DetermineKind(Current()))
      ensures outcome.kind == Spouse
    {
      partnerEligible := Some(true);
      SpouseTakesPrecedence(Current());
      outcome := Completed(DetermineKind(Current()));
    }

    /** Step 3 "No / Resides Alone" (line 129): go to step 4. */
    method NoCaringRelative()
      requires Valid() && outcome == Open && step == CaringStep
      modifies this
      ensures Valid() && outcome == Open
      ensures Current() == old(Current()).(caring := NoneResides) && step == HierarchyStep
    {
      caring := NoneResides;
      step := HierarchyStep;
    }

    /** A step-3 "Yes, a …" button as written (lines 125-128), with the same stale read. */
    method CaringRelativeAsWritten(c: CaringType)
      requires Valid() && outcome == Open && step == CaringStep && Displaces(c)
      modifies this
      ensures Current() == old(Current()).(caring := c) && step == old(step)
      ensures outcome == Completed(DetermineKind(old(Current())))
      ensures outcome.kind == FurtherRelative
    {
      var before := Current();
      StaleAnswersGiveFallback(step, before);
      caring := c;
      outcome := Completed(DetermineKind(before));
    }

    /** A step-3 "Yes, a …" button evaluated on the answers including the click. */
    method CaringRelative(c: CaringType)
      requires Valid() && outcome == Open && step == CaringStep && Displaces(c)
      modifies this
      ensures Current() == old(Current()).(caring := c) && step == old(step)
      ensures outcome == Completed(DetermineKind(Current()))
      ensures Rank(outcome.kind) == 1
    {
      caring := c;
      outcome := Completed(DetermineKind(Current()));
    }

    /** A step-4 checkbox: the answer becomes the box's new checked state. */
    method Tick(box: nat, checked: bool)
      requires Valid() && outcome == Open && step == HierarchyStep && box < 3
      modifies this
      ensures Valid() && outcome == Open && step == old(step)
      ensures box == 0 ==> Current() == old(Current()).(hasChildren := Some(checked))
      ensures box == 1 ==> Current() == old(Current()).(hasParents := Some(checked))
      ensures box == 2 ==> Current() == old(Current()).(hasSiblings := Some(checked))
    {
      if box == 0 {
        hasChildren := Some(checked);
      } else if box == 1 {
        hasParents := Some(checked);
      } else {
        hasSiblings := Some(checked);
      }
    }

    /** "Determine NR" on step 4 (line 154): every answer was set on an earlier render, so no
        read is stale; the result comes from the hierarchy flags. */
    method Determine()
      requires Valid() && outcome == Open && step == HierarchyStep
      modifies this
      ensures Current() == old(Current()) && step == old(step)
      ensures outcome == Completed(DetermineKind(Current()))
      ensures Rank(outcome.kind) >= 2
    {
      outcome := Completed(DetermineKind(Current()));
    }

    /** "Cancel Identification". */
    method Cancel()
      requires outcome == Open
      modifies this
      ensures outcome == Cancelled && Current() == old(Current()) && step == old(step)
    {
      outcome := Cancelled;
    }
  }
}
