/** The patient form (components/PatientForm.tsx): the handlers that write wizard results into
    the record, the accordion of form sections, and the advocacy triggers. Every write goes
    through `onChange(field, value)`, which the store applies as a functional update, so a
    sequence of writes is a composition of `Update`s. */
module PatientForm {
  import opened Types
  import Text
  import ResponsibilityWizard
  import NearestRelativeWizard
  import DoLChecker
  import SupportPlan

  /** `${current}${separator}${entry}` with the separator "\n\n" only after a non-empty
      text (lines 32-33 and 42-43). */
  function AppendEntry(current: string, entry: string): (r: string)
    ensures current == [] ==> r == entry
    ensures current != [] ==> |r| == |current| + 2 + |entry|
    ensures Text.StartsWith(r, current) && Text.EndsWith(r, entry)
  {
    var r := current + (if current != [] then "\n\n" else "") + entry;
    assert r == current + ((if current != [] then "\n\n" else "") + entry);
    Text.StartsWithAppend(current, (if current != [] then "\n\n" else "") + entry);
    Text.EndsWithAppend(current + (if current != [] then "\n\n" else ""), entry);
    r
  }

  /** The heading of a responsibility entry (line 34). */
  function RationaleHeader(b: ResponsibilityWizard.Body): string
  {
    match b
    case ICB => "--- ICB RATIONALE ---"
    case LA => "--- LOCAL AUTHORITY RATIONALE ---"
  }

  /** The two headings differ at their fifth character, so an entry shows which wizard
      wrote it. */
  lemma HeadersDiffer()
    ensures RationaleHeader(ResponsibilityWizard.ICB) != RationaleHeader(ResponsibilityWizard.LA)
  {
    assert RationaleHeader(ResponsibilityWizard.ICB)[4] != RationaleHeader(ResponsibilityWizard.LA)[4];
  }

  /** The field the wizard's result goes to. */
  function ResultField(b: ResponsibilityWizard.Body): TextField
  {
    match b
    case ICB => ResponsibleICB
    case LA => ResponsibleLA
  }

  /** `handleWizardComplete` (lines 25-38) for the wizard opened for body `b`: the result
      goes to the body's own field, the rationale is appended under the body's heading, and
      nothing else changes. */
  function WizardComplete(d: PatientDetails, b: ResponsibilityWizard.Body, result: string,
                          rationale: string): (r: PatientDetails)
    ensures r.text[ResultField(b)] == result
    ensures r.text[ResponsibilityRationale]
            == AppendEntry(d.text[ResponsibilityRationale], RationaleHeader(b) + "\n" + rationale)
    ensures Text.StartsWith(r.text[ResponsibilityRationale], d.text[ResponsibilityRationale])
    ensures forall g :: g != TextOf(ResultField(b)) && g != TextOf(ResponsibilityRationale)
                        ==> Get(r, g) == Get(d, g)
  {
    var e := Update(d, TextOf(ResultField(b)), Text(result));
    var entry := AppendEntry(d.text[ResponsibilityRationale], RationaleHeader(b) + "\n" + rationale);
    assert Get(e, TextOf(ResponsibilityRationale)) == Get(d, TextOf(ResponsibilityRationale));
    var r := Update(e, TextOf(ResponsibilityRationale), Text(entry));
    assert Get(r, TextOf(ResultField(b))) == Get(e, TextOf(ResultField(b)));
    r
  }

  /** An ICB result leaves the LA field alone and an LA result leaves the ICB field alone. */
  lemma WizardWritesOnlyOwnBody(d: PatientDetails, result: string, rationale: string)
    ensures WizardComplete(d, ResponsibilityWizard.ICB, result, rationale).text[ResponsibleLA]
            == d.text[ResponsibleLA]
    ensures WizardComplete(d, ResponsibilityWizard.LA, result, rationale).text[ResponsibleICB]
            == d.text[ResponsibleICB]
  {
    var r := WizardComplete(d, ResponsibilityWizard.ICB, result, rationale);
    assert Get(r, TextOf(ResponsibleLA)) == Get(d, TextOf(ResponsibleLA));
    var s := WizardComplete(d, ResponsibilityWizard.LA, result, rationale);
    assert Get(s, TextOf(ResponsibleICB)) == Get(d, TextOf(ResponsibleICB));
  }

  /** Running the ICB wizard and then the LA wizard fills both fields with the two results
      and keeps the first rationale entry in front of the second. */
  lemma BothWizardsAccumulate(d: PatientDetails, gp: string, icbRationale: string,
                              la: string, laRationale: string)
    ensures var e1 := WizardComplete(d, ResponsibilityWizard.ICB, gp, icbRationale);
            var e2 := WizardComplete(e1, ResponsibilityWizard.LA, la, laRationale);
            e2.text[ResponsibleICB] == gp && e2.text[ResponsibleLA] == la
            && Text.StartsWith(e2.text[ResponsibilityRationale], e1.text[ResponsibilityRationale])
            && Text.EndsWith(e2.text[ResponsibilityRationale],
                             RationaleHeader(ResponsibilityWizard.LA) + "\n" + laRationale)
  {
    var e1 := WizardComplete(d, ResponsibilityWizard.ICB, gp, icbRationale);
    var e2 := WizardComplete(e1, ResponsibilityWizard.LA, la, laRationale);
    assert Get(e2, TextOf(ResponsibleICB)) == Get(e1, TextOf(ResponsibleICB));
  }

  /** Completing the ICB wizard records the GP's ICB the wizard determined. */
  lemma ICBWizardRecordsGP(d: PatientDetails, gp: string, isReDetention: Option<bool>)
    ensures var rep := ResponsibilityWizard.ICBReport(gp, isReDetention);
            WizardComplete(d, ResponsibilityWizard.ICB, rep.result, rep.rationale)
              .text[ResponsibleICB] == gp
  {
  }

  const NRPrefix := "**NR Legal Identification:** "

  /** `handleNRComplete` (lines 40-46): the result becomes `nearestRelative` and the
      rationale is appended to `familyComments`; nothing else changes. */
  function NRComplete(d: PatientDetails, result: string, rationale: string): (r: PatientDetails)
    ensures r.text[NearestRelative] == result
    ensures r.text[FamilyComments] == AppendEntry(d.text[FamilyComments], NRPrefix + rationale)
    ensures Text.StartsWith(r.text[FamilyComments], d.text[FamilyComments])
    ensures forall g :: g != TextOf(NearestRelative) && g != TextOf(FamilyComments)
                        ==> Get(r, g) == Get(d, g)
  {
    var e := Update(d, TextOf(NearestRelative), Text(result));
    assert Get(e, TextOf(FamilyComments)) == Get(d, TextOf(FamilyComments));
    var r := Update(e, TextOf(FamilyComments), Text(AppendEntry(d.text[FamilyComments], NRPrefix + rationale)));
    assert Get(r, TextOf(NearestRelative)) == Get(e, TextOf(NearestRelative));
    r
  }

  /** Completing the nearest relative wizard records the relative its first applicable
      branch names. */
  lemma NRWizardRecordsDetermination(d: PatientDetails, a: NearestRelativeWizard.Answers)
    ensures var det := NearestRelativeWizard.DetermineNR(a);
            NRComplete(d, det.result, det.rationale).text[NearestRelative]
            == NearestRelativeWizard.ResultText(NearestRelativeWizard.DetermineKind(a))
  {
  }

  // ---------------------------------------------------------------------------------------
  // The advocacy triggers (lines 62-67).

  /** `imhaRequired`: a section is recorded and it is none of the three exempt ones. */
  predicate ImhaRequired(section: string)
  {
    section != [] && section != "Informal" && section != "s135/136" && section != "s5(2)"
  }

  /** `imcaRequired`. */
  predicate ImcaRequired(d: PatientDetails)
  {
    d.flag[DolCapacity] && d.flag[DolSupervision] && !d.flag[DolFreeToLeave]
  }

  /** Every section that carries s.117 entitlement also calls for an IMHA. */
  lemma EntitlementNeedsImha(code: string)
    ensures IsSectionEligible(code) ==> ImhaRequired(code)
  {
    SupportPlan.EmptySectionNotEntitled();
    ExemptSectionsIneligible();
  }

  /** The converse fails: section 2 calls for an IMHA without s.117 entitlement. */
  lemma ImhaWithoutEntitlement()
    ensures ImhaRequired("s2") && !IsSectionEligible("s2")
  {
    assert MhaSections[0].code == "s2";
  }

  /** The three sections exempt from the IMHA trigger carry no s.117 entitlement. */
  lemma ExemptSectionsIneligible()
    ensures !IsSectionEligible("Informal")
    ensures !IsSectionEligible("s135/136")
    ensures !IsSectionEligible("s5(2)")
  {
    InformalIneligible();
    PolicePowersIneligible();
    HoldingPowerIneligible();
  }

  lemma InformalIneligible()
    ensures !IsSectionEligible("Informal")
  {
    SupportPlan.SectionCodesUnique();
    FindSectionAt(MhaSections, 11);
  }

  lemma PolicePowersIneligible()
    ensures !IsSectionEligible("s135/136")
  {
    SupportPlan.SectionCodesUnique();
    FindSectionAt(MhaSections, 10);
  }

  lemma HoldingPowerIneligible()
    ensures !IsSectionEligible("s5(2)")
  {
    SupportPlan.SectionCodesUnique();
    FindSectionAt(MhaSections, 3);
  }

  /** An IMCA is required exactly when the checker sees a deprivation of a person who lacks
      capacity, so the checker then reports neither 'ok' nor the capacious-patient finding. */
  lemma ImcaIffIncapacitatedDeprivation(d: PatientDetails, age: DoLChecker.Age,
                                        s: DoLChecker.Setting)
    ensures var t := DoLChecker.AcidTestOf(d);
            ImcaRequired(d) <==> DoLChecker.IsDeprived(t) && t.lacksCapacity
    ensures ImcaRequired(d) <==>
      DoLChecker.Classify(DoLChecker.AcidTestOf(d), age, s)
        !in {DoLChecker.NoDeprivation, DoLChecker.CapaciousDeprivation}
  {
  }

  // ---------------------------------------------------------------------------------------
  // The form's own state.

  /** `toggleSection` (lines 48-50) as a function of the open section. */
  function Toggled(active: string, s: string): (r: string)
    ensures r == s <==> active != s || s == []
    ensures r != s ==> r == []
  {
    if active == s then [] else s
  }

  class Form {
    /** The open accordion section; the empty string closes them all. */
    var activeSection: string
    /** `wizardType`: the responsibility wizard on screen, if any. */
    var wizard: Option<ResponsibilityWizard.Body>
    var showNRWizard: bool

    constructor ()
      ensures activeSection == "demographics" && wizard == None && !showNRWizard
    {
      activeSection := "demographics";
      wizard := None;
      showNRWizard := false;
    }

    method ToggleSection(s: string)
      modifies this
      ensures activeSection == Toggled(old(activeSection), s)
      ensures wizard == old(wizard) && showNRWizard == old(showNRWizard)
    {
      activeSection := if activeSection == s then [] else s;
    }

    /** The "Run ICB Wizard" and "Run LA Wizard" buttons. */
    method OpenWizard(b: ResponsibilityWizard.Body)
      modifies this
      ensures wizard == Some(b)
      ensures activeSection == old(activeSection) && showNRWizard == old(showNRWizard)
    {
      wizard := Some(b);
    }

    method CancelWizard()
      modifies this
      ensures wizard == None
      ensures activeSection == old(activeSection) && showNRWizard == old(showNRWizard)
    {
      wizard := None;
    }

    /** The wizard's `onComplete`; the wizard is only on screen while `wizardType` is set.
        Returns the record after the writes. */
    method CompleteWizard(d: PatientDetails, result: string, rationale: string)
      returns (r: PatientDetails)
      requires wizard.Some?
      modifies this
      ensures r == WizardComplete(d, old(wizard).value, result, rationale)
      ensures wizard == None
      ensures activeSection == old(activeSection) && showNRWizard == old(showNRWizard)
    {
      r := WizardComplete(d, wizard.value, result, rationale);
      wizard := None;
    }

    method OpenNRWizard()
      modifies this
      ensures showNRWizard
      ensures activeSection == old(activeSection) && wizard == old(wizard)
    {
      showNRWizard := true;
    }

    method CancelNRWizard()
      modifies this
      ensures !showNRWizard
      ensures activeSection == old(activeSection) && wizard == old(wizard)
    {
      showNRWizard := false;
    }

    method CompleteNRWizard(d: PatientDetails, result: string, rationale: string)
      returns (r: PatientDetails)
      requires showNRWizard
      modifies this
      ensures r == NRComplete(d, result, rationale)
      ensures !showNRWizard
      ensures activeSection == old(activeSection) && wizard == old(wizard)
    {
      r := NRComplete(d, result, rationale);
      showNRWizard := false;
    }
  }
}
