/** The responsibility wizard (components/ResponsibilityWizard.tsx), opened either for the ICB
    or for the local authority. It asks whether this is a re-detention, then the GP's ICB
    (ICB) or the area of ordinary residence and the placement facts (LA), and reports the
    responsible body with a rationale. */
module ResponsibilityWizard {
  import opened Types
  import Text

  datatype Body = ICB | LA

  /** `placementType`. */
  datatype Placement = Specified | Independent | Unknown

  /** A field holding `true`: the truthiness of a `boolean | null` answer. */
  predicate Yes(b: Option<bool>)
  {
    b == Some(true)
  }

  /** `x || fallback` on a string: the empty string is falsy. */
  function OrElse(x: string, fallback: string): (r: string)
    ensures x != [] ==> r == x
    ensures x == [] ==> r == fallback
  {
    if x != [] then x else fallback
  }

  // ---------------------------------------------------------------------------------------
  // The ICB branch (lines 34-40).

  const ICBReasoning :=
    "REASONING: Under 'Who Pays? (August 2025)', the 'Originating ICB' (registered GP at initial detention) retains payment responsibility for detention and after-care until discharge from s117."

  const ICBRedetentionNote :=
    "\nNOTE: Re-detention under s.3/37/etc triggers a fresh 'Originating ICB' assessment based on the GP at the time of the NEW detention."

  function ICBHeading(gp: string): string
  {
    "[ICB RESPONSIBILITY]: " + gp + " ICB (Originating ICB).\n"
  }

  /** What the wizard hands to `onComplete`. */
  datatype Report = Report(result: string, rationale: string)

  function ICBReport(gp: string, isReDetention: Option<bool>): (r: Report)
    ensures r.result == gp
    ensures Text.StartsWith(r.rationale, ICBHeading(gp) + ICBReasoning)
  {
    var base := ICBHeading(gp) + ICBReasoning;
    Text.StartsWithAppend(base, ICBRedetentionNote);
    Report(gp, if Yes(isReDetention) then base + ICBRedetentionNote else base)
  }

  /** The ICB result is the originating ICB whatever the re-detention answer; the answer only
      adds the note to the rationale, and an unanswered question reads as No. */
  lemma ICBRedetentionOnlyAddsNote(gp: string)
    ensures ICBReport(gp, Some(true)).result == ICBReport(gp, Some(false)).result
    ensures ICBReport(gp, Some(true)).rationale
            == ICBReport(gp, Some(false)).rationale + ICBRedetentionNote
    ensures ICBReport(gp, None) == ICBReport(gp, Some(false))
  {
  }

  // ---------------------------------------------------------------------------------------
  // The local authority branch (lines 41-72).

  /** The facts the LA branch reads. */
  datatype LAFacts = LAFacts(
    isReDetention: Option<bool>,
    residenceBeforeDetention: string,
    placement: Placement,
    isOutOfArea: bool,
    targetArea: string,
    isSelfFunder: bool,
    hasDPA: bool,
    isLookedAfterChild: bool
  )

  /** The branch of the Care Act determination that applies. */
  datatype CareActRule = LookedAfterChild | NewlyAcquired | Deeming | NoDeeming | Local

  function CareActRuleOf(f: LAFacts): CareActRule
  {
    if f.isLookedAfterChild then LookedAfterChild
    else if f.isOutOfArea then
      if f.placement == Specified then
        if f.isSelfFunder && !f.hasDPA then NewlyAcquired else Deeming
      else NoDeeming
    else Local
  }

  /** The Care Act authority each branch names, which becomes `result`. */
  function CareActAuthority(f: LAFacts): (r: string)
    ensures r == f.residenceBeforeDetention || r == f.targetArea || r == "Host Authority"
  {
    match CareActRuleOf(f)
    case LookedAfterChild => f.residenceBeforeDetention
    case NewlyAcquired => OrElse(f.targetArea, "Host Authority")
    case Deeming => f.residenceBeforeDetention
    case NoDeeming => OrElse(f.targetArea, "Host Authority")
    case Local => f.residenceBeforeDetention
  }

  /** The text after "[CARE ACT RESPONSIBILITY]: "; note that the host fallback reads
      "Host Council" here but "Host Authority" in the result. */
  function CareActText(f: LAFacts): string
  {
    match CareActRuleOf(f)
    case LookedAfterChild => f.residenceBeforeDetention + " Council (Cornwall Judgment)."
    case NewlyAcquired => OrElse(f.targetArea, "Host") + " Council (New OR acquired)."
    case Deeming => f.residenceBeforeDetention + " Council (s.39 Deeming applies)."
    case NoDeeming => OrElse(f.targetArea, "Host") + " Council (No Deeming)."
    case Local => f.residenceBeforeDetention + " Council (Local)."
  }

  const RedetentionHeading := "[RE-DETENTION " + "IMPACT (Worcestershire Rule)]: \n"

  const WorcestershireNote :=
    "Under R (Worcestershire) [2023] UKSC 31, the previous s.117 duty has ENDED. A new duty is triggered upon the next discharge.\n"

  const PriorAreaLead :=
    "Responsibility is fixed to the area of ordinary residence immediately prior to this NEW detention: "

  /** The re-detention block: its heading, then the note naming the area. */
  function RedetentionBlock(residence: string): string
  {
    RedetentionHeading + RedetentionNote(residence)
  }

  function RedetentionNote(residence: string): string
  {
    WorcestershireNote + PriorAreaLead + residence + ".\n\n"
  }

  const S117Lead := "[s.117 LA RESPONSIBILITY]: "

  /** The line naming the s.117 authority. */
  function S117Line(residence: string): string
  {
    S117Lead + residence + " Council.\n"
  }

  const S117Reasoning :=
    "REASONING: Responsibility is fixed to the area of ordinary residence immediately prior to the relevant detention (MHA 1983 s.117(3)).\n\n"

  const CareActLead := "[CARE ACT RESPONSIBILITY]: "

  /** Where the s.117 line starts: after the re-detention block, if there is one. */
  function S117Offset(f: LAFacts): nat
  {
    if Yes(f.isReDetention) then |RedetentionBlock(f.residenceBeforeDetention)| else 0
  }

  /** Both duties the LA branch determines. The source reports only `careActAuthority` as
      its result; the s.117 authority appears in the rationale alone. */
  datatype LADetermination = LADetermination(
    s117Authority: string,
    careActAuthority: string,
    rationale: string
  )

  function LADetermine(f: LAFacts): (d: LADetermination)
    ensures d.s117Authority == f.residenceBeforeDetention
    ensures d.careActAuthority == CareActAuthority(f)
    ensures Text.StartsWith(d.rationale, RedetentionHeading) <==> Yes(f.isReDetention)
    ensures S117Offset(f) + |S117Line(f.residenceBeforeDetention)|
            <= |d.rationale| - |CareActPart(f)|
    ensures Text.OccursAt(d.rationale, S117Line(f.residenceBeforeDetention), S117Offset(f))
    ensures Text.EndsWith(d.rationale, CareActPart(f))
  {
    LARationaleShape(f);
    LADetermination(f.residenceBeforeDetention, CareActAuthority(f), LARationale(f))
  }

  /** The closing Care Act line. */
  function CareActPart(f: LAFacts): string
  {
    CareActLead + CareActText(f)
  }

  /** The rationale accumulated by the LA branch. */
  function LARationale(f: LAFacts): string
  {
    var res := f.residenceBeforeDetention;
    (if Yes(f.isReDetention) then RedetentionBlock(res) else [])
    + S117Line(res) + S117Reasoning + CareActPart(f)
  }

  /** Where the pieces of a four-part text sit. */
  lemma Layout(pre: string, line: string, mid: string, last: string)
    ensures var r := pre + line + mid + last;
            |pre| + |line| <= |r| - |last|
            && Text.OccursAt(r, line, |pre|)
            && Text.EndsWith(r, last) && Text.StartsWith(r, pre)
            && (pre == [] ==> Text.StartsWith(r, line))
  {
    var r := pre + line + mid + last;
    assert r == pre + (line + mid + last);
    Text.StartsWithAppend(pre, line + mid + last);
    Text.EndsWithAppend(pre + line + mid, last);
    assert r[|pre|..|pre| + |line|] == line;
    if pre == [] {
      assert r == line + (mid + last);
      Text.StartsWithAppend(line, mid + last);
    }
  }

  lemma LARationaleShape(f: LAFacts)
    ensures Text.StartsWith(LARationale(f), RedetentionHeading) <==> Yes(f.isReDetention)
    ensures S117Offset(f) + |S117Line(f.residenceBeforeDetention)|
            <= |LARationale(f)| - |CareActPart(f)|
    ensures Text.OccursAt(LARationale(f), S117Line(f.residenceBeforeDetention), S117Offset(f))
    ensures Text.EndsWith(LARationale(f), CareActPart(f))
  {
    var res := f.residenceBeforeDetention;
    var pre := if Yes(f.isReDetention) then RedetentionBlock(res) else [];
    assert LARationale(f) == pre + S117Line(res) + S117Reasoning + CareActPart(f);
    assert |pre| == S117Offset(f);
    Layout(pre, S117Line(res), S117Reasoning, CareActPart(f));
    StartsWithAppend3(S117Lead, res, " Council.\n");
    OpensWithHeading(pre, S117Line(res), S117Reasoning, CareActPart(f), res);
  }

  /** A text opens with the re-detention heading exactly when the re-detention block comes
      first; the s.117 line cannot open with it. */
  lemma OpensWithHeading(pre: string, line: string, mid: string, last: string, res: string)
    requires pre == [] || pre == RedetentionBlock(res)
    requires Text.StartsWith(line, S117Lead)
    ensures Text.StartsWith(pre + line + mid + last, RedetentionHeading) <==> pre != []
  {
    var rest := line + mid + last;
    assert pre + line + mid + last == pre + rest;
    assert rest == line + (mid + last);
    StartsWithTransitive(rest, line, S117Lead) by {
      Text.StartsWithAppend(line, mid + last);
    }
    if pre == [] {
      assert S117Lead[1] != RedetentionHeading[1];
      assert pre + rest == rest;
      Text.StartsWithBoth(rest, S117Lead, RedetentionHeading, 1);
    } else {
      RedetentionBlockHeading(res);
      Text.StartsWithAppend(pre, rest);
      StartsWithTransitive(pre + rest, pre, RedetentionHeading);
    }
  }

  lemma StartsWithAppend3(a: string, b: string, c: string)
    ensures Text.StartsWith(a + b + c, a)
  {
    assert a + b + c == a + (b + c);
    Text.StartsWithAppend(a, b + c);
  }

  lemma StartsWithTransitive(s: string, p: string, q: string)
    requires Text.StartsWith(s, p) && Text.StartsWith(p, q)
    ensures Text.StartsWith(s, q)
  {
    assert s[..|q|] == s[..|p|][..|q|];
  }

  lemma RedetentionBlockHeading(res: string)
    ensures Text.StartsWith(RedetentionBlock(res), RedetentionHeading)
  {
    Text.StartsWithAppend(RedetentionHeading, RedetentionNote(res));
  }

  /** A looked-after child, and a patient who is not moving out of area, stay with the area
      of ordinary residence. */
  lemma ResidenceKeepsCareAct(f: LAFacts)
    requires f.isLookedAfterChild || !f.isOutOfArea
    ensures LADetermine(f).careActAuthority == f.residenceBeforeDetention
    ensures LADetermine(f).careActAuthority == LADetermine(f).s117Authority
  {
  }

  /** A specified placement out of area moves the Care Act duty only for a self-funder
      without a deferred payment agreement. */
  lemma SpecifiedPlacement(f: LAFacts)
    requires !f.isLookedAfterChild && f.isOutOfArea && f.placement == Specified
    ensures f.isSelfFunder && !f.hasDPA ==>
      LADetermine(f).careActAuthority == OrElse(f.targetArea, "Host Authority")
    ensures !(f.isSelfFunder && !f.hasDPA) ==>
      LADetermine(f).careActAuthority == f.residenceBeforeDetention
  {
  }

  /** Any other placement out of area goes to the target area, or the host authority when no
      target is named. */
  lemma OtherPlacementOutOfArea(f: LAFacts)
    requires !f.isLookedAfterChild && f.isOutOfArea && f.placement != Specified
    ensures LADetermine(f).careActAuthority == OrElse(f.targetArea, "Host Authority")
  {
  }

  /** The s.117 authority does not depend on any placement fact or on the re-detention
      answer. */
  lemma S117AuthorityFixed(f: LAFacts, g: LAFacts)
    requires f.residenceBeforeDetention == g.residenceBeforeDetention
    ensures LADetermine(f).s117Authority == LADetermine(g).s117Authority
  {
  }

  /** `generateResult`: the report for the body the wizard was opened for. */
  function GenerateResult(body: Body, gp: string, f: LAFacts): (r: Report)
    ensures body == ICB ==> r == ICBReport(gp, f.isReDetention)
    ensures body == LA ==>
      r.result == CareActAuthority(f) && r.rationale == LADetermine(f).rationale
  {
    if body == ICB then ICBReport(gp, f.isReDetention)
    else
      var d := LADetermine(f);
      Report(d.careActAuthority, d.rationale)
  }

  // ---------------------------------------------------------------------------------------
  // The wizard's state.

  /** Step 1 asks about re-detention; step 2 takes the GP's ICB or the residence; step 3
      (LA only) takes the placement facts. */
  datatype Step = RedetentionStep | AreaStep | PlacementStep

  datatype Outcome = Open | Completed(report: Report) | Cancelled

  class Wizard {
    const body: Body
    var step: Step
    var isReDetention: Option<bool>
    var residenceBeforeDetention: string
    var placement: Placement
    var isOutOfArea: bool
    var targetArea: string
    var isSelfFunder: bool
    var hasDPA: bool
    var isLookedAfterChild: bool
    var gpBeforeDetention: string
    var outcome: Outcome

    function Facts(): LAFacts
      reads this
    {
      LAFacts(isReDetention, residenceBeforeDetention, placement, isOutOfArea, targetArea,
              isSelfFunder, hasDPA, isLookedAfterChild)
    }

    /** The form has no control for `isSelfFunder` or `hasDPA`, so both keep their initial
        `false`; only the LA wizard reaches step 3. */
    predicate Valid()
      reads this
    {
      !isSelfFunder && !hasDPA && (step == PlacementStep ==> body == LA)
    }

    constructor (b: Body)
      ensures Valid() && body == b && step == RedetentionStep && outcome == Open
      ensures Facts() == LAFacts(None, "", Unknown, false, "", false, false, false)
      ensures gpBeforeDetention == ""
    {
      body := b;
      step := RedetentionStep;
      isReDetention := None;
      residenceBeforeDetention := "";
      placement := Unknown;
      isOutOfArea := false;
      targetArea := "";
      isSelfFunder := false;
      hasDPA := false;
      isLookedAfterChild := false;
      gpBeforeDetention := "";
      outcome := Open;
    }

    /** Step 1 (lines 111-112): either answer moves to step 2. */
    method AnswerRedetention(yes: bool)
      requires Valid() && outcome == Open && step == RedetentionStep
      modifies this
      ensures Valid() && outcome == Open && step == AreaStep
      ensures Facts() == old(Facts()).(isReDetention := Some(yes))
      ensures gpBeforeDetention == old(gpBeforeDetention)
    {
      isReDetention := Some(yes);
      step := AreaStep;
    }

    /** Typing the GP's ICB (ICB) or the residence (LA) on step 2. */
    method EnterArea(text: string)
      requires Valid() && outcome == Open && step == AreaStep
      modifies this
      ensures Valid() && outcome == Open && step == AreaStep
      ensures body == ICB ==> gpBeforeDetention == text && Facts() == old(Facts())
      ensures body == LA ==>
        Facts() == old(Facts()).(residenceBeforeDetention := text)
        && gpBeforeDetention == old(gpBeforeDetention)
    {
      if body == ICB {
        gpBeforeDetention := text;
      } else {
        residenceBeforeDetention := text;
      }
    }

    /** Back on step 2 (lines 134, 157) or step 3 (line 208). */
    method Back()
      requires Valid() && outcome == Open && step != RedetentionStep
      modifies this
      ensures Valid() && outcome == Open
      ensures step == (if old(step) == PlacementStep then AreaStep else RedetentionStep)
      ensures Facts() == old(Facts()) && gpBeforeDetention == old(gpBeforeDetention)
    {
      step := if step == PlacementStep then AreaStep else RedetentionStep;
    }

    /** ICB Finish on step 2; the button is disabled while the GP field is empty (line 135). */
    method FinishICB()
      requires Valid() && outcome == Open && step == AreaStep && body == ICB
      requires gpBeforeDetention != []
      modifies this
      ensures outcome == Completed(ICBReport(gpBeforeDetention, isReDetention))
      ensures outcome.report.result == gpBeforeDetention
      ensures step == old(step) && Facts() == old(Facts())
      ensures gpBeforeDetention == old(gpBeforeDetention)
    {
      outcome := Completed(GenerateResult(body, gpBeforeDetention, Facts()));
    }

    /** LA Next on step 2; the button is disabled while the residence is empty (line 158). */
    method NextToPlacement()
      requires Valid() && outcome == Open && step == AreaStep && body == LA
      requires residenceBeforeDetention != []
      modifies this
      ensures Valid() && outcome == Open && step == PlacementStep
      ensures Facts() == old(Facts()) && gpBeforeDetention == old(gpBeforeDetention)
    {
      step := PlacementStep;
    }

    /** The step-3 inputs (lines 176-197); the out-of-area inputs only show for a patient who
        was not a looked-after child, and the target area and placement radios only for an
        out-of-area move. The radios choose `specified` or `independent`. */
    method SetLookedAfterChild(b: bool)
      requires Valid() && outcome == Open && step == PlacementStep
      modifies this
      ensures Valid() && outcome == Open && step == PlacementStep
      ensures Facts() == old(Facts()).(isLookedAfterChild := b)
      ensures gpBeforeDetention == old(gpBeforeDetention)
    {
      isLookedAfterChild := b;
    }

    method SetOutOfArea(b: bool)
      requires Valid() && outcome == Open && step == PlacementStep && !isLookedAfterChild
      modifies this
      ensures Valid() && outcome == Open && step == PlacementStep
      ensures Facts() == old(Facts()).(isOutOfArea := b)
      ensures gpBeforeDetention == old(gpBeforeDetention)
    {
      isOutOfArea := b;
    }

    method SetTarget(text: string)
      requires Valid() && outcome == Open && step == PlacementStep
      requires !isLookedAfterChild && isOutOfArea
      modifies this
      ensures Valid() && outcome == Open && step == PlacementStep
      ensures Facts() == old(Facts()).(targetArea := text)
      ensures gpBeforeDetention == old(gpBeforeDetention)
    {
      targetArea := text;
    }

    method ChoosePlacement(specified: bool)
      requires Valid() && outcome == Open && step == PlacementStep
      requires !isLookedAfterChild && isOutOfArea
      modifies this
      ensures Valid() && outcome == Open && step == PlacementStep
      ensures Facts() == old(Facts()).(placement := if specified then Specified else Independent)
      ensures gpBeforeDetention == old(gpBeforeDetention)
    {
      placement := if specified then Specified else Independent;
    }

    /** LA Finish on step 3 (line 209). Because the self-funder flag is never set, a specified
        placement always stays with the area of ordinary residence. */
    method FinishLA()
      requires Valid() && outcome == Open && step == PlacementStep
      modifies this
      ensures outcome == Completed(GenerateResult(body, gpBeforeDetention, old(Facts())))
      ensures outcome.report.result == CareActAuthority(Facts())
      ensures placement == Specified && !isLookedAfterChild && isOutOfArea ==>
        outcome.report.result == residenceBeforeDetention
      ensures step == old(step) && Facts() == old(Facts())
      ensures gpBeforeDetention == old(gpBeforeDetention)
    {
      outcome := Completed(GenerateResult(body, gpBeforeDetention, Facts()));
    }

    /** "Cancel Wizard" (line 216). */
    method Cancel()
      requires outcome == Open
      modifies this
      ensures outcome == Cancelled && step == old(step) && Facts() == old(Facts())
      ensures gpBeforeDetention == old(gpBeforeDetention)
    {
      outcome := Cancelled;
    }
  }
}
