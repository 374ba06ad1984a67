/** The needs identification module (components/NeedsAssessment.tsx): a draft need that the
    user fills in, a validated add onto the insertion-ordered needs list, remove-by-id, and the
    Care Act outcome selections from which an evidence-based description is built. */
module NeedsAssessment {
  import opened Types
  import Seqs
  import Text

  datatype WizardStep = CategoryStep | DetailsStep

  /** The partially filled `newNeed`. Every field the form reads is always present. */
  datatype NeedDraft = NeedDraft(
    description: string,
    category: NeedCategory,
    domain: NeedDomain,
    intervention: string,
    provider: string,
    severity: Severity,
    statutoryTestArises: bool,
    statutoryTestReducesRisk: bool
  )

  /** The draft the form starts with and returns to after every successful add. */
  const BlankDraft := NeedDraft("", S117, MentalHealth, "", "", Medium, false, false)

  /** What the add button does: adds the item, or rejects the draft with one of the two
      alerts. */
  datatype AddOutcome = Added(item: NeedItem) | MissingText | StatutoryTestsNotMet

  /** The checks and the item construction of `handleAddNeed` (lines 33-56). A field is
      missing when it is the empty string, JavaScript's falsy string. */
  function CheckDraft(d: NeedDraft, id: string): (r: AddOutcome)
    ensures r.MissingText? <==> d.description == [] || d.intervention == []
    ensures r.StatutoryTestsNotMet? <==>
      d.description != [] && d.intervention != [] && d.category == S117
      && !(d.statutoryTestArises && d.statutoryTestReducesRisk)
    ensures r.Added? ==>
      r.item.id == id && r.item.description == d.description && r.item.category == d.category
      && r.item.domain == d.domain && r.item.intervention == d.intervention
      && r.item.provider == d.provider && r.item.severity == d.severity
      && r.item.statutoryTestArises == d.statutoryTestArises
      && r.item.statutoryTestReducesRisk == d.statutoryTestReducesRisk
  {
    if d.description == [] || d.intervention == [] then MissingText
    else if d.category == S117 && !(d.statutoryTestArises && d.statutoryTestReducesRisk) then
      StatutoryTestsNotMet
    else
      Added(NeedItem(id, d.description, d.category, d.domain, d.intervention, d.provider,
                     d.severity, d.statutoryTestArises, d.statutoryTestReducesRisk))
  }

  predicate IdsUnique(needs: seq<NeedItem>)
  {
    forall i, j :: 0 <= i < j < |needs| ==> needs[i].id != needs[j].id
  }

  predicate IdFresh(needs: seq<NeedItem>, id: string)
  {
    forall i :: 0 <= i < |needs| ==> needs[i].id != id
  }

  /** The list after a successful add: old items untouched, the new one at the end. */
  lemma AppendFresh(needs: seq<NeedItem>, item: NeedItem)
    requires IdsUnique(needs) && IdFresh(needs, item.id)
    ensures IdsUnique(needs + [item])
    ensures |needs + [item]| == |needs| + 1 && (needs + [item])[..|needs|] == needs
  {
  }

  predicate HasOtherId(id: string, n: NeedItem)
  {
    n.id != id
  }

  /** `removeNeed` (lines 74-76): keep every need whose id differs. */
  function RemoveNeed(needs: seq<NeedItem>, id: string): (r: seq<NeedItem>)
    ensures forall n :: n in r <==> n in needs && n.id != id
  {
    Seqs.Filter(needs, n => HasOtherId(id, n))
  }

  /** After a removal no item carries the id, and the others keep their relative order. */
  lemma RemoveNeedProperties(needs: seq<NeedItem>, id: string)
    ensures forall i :: 0 <= i < |RemoveNeed(needs, id)| ==> RemoveNeed(needs, id)[i].id != id
    ensures Seqs.IsSubsequence(RemoveNeed(needs, id), needs)
  {
    Seqs.FilterAllSatisfy(needs, n => HasOtherId(id, n));
    Seqs.FilterIsSubsequence(needs, n => HasOtherId(id, n));
  }

  /** Removing an id no item carries changes nothing. */
  lemma RemoveAbsentId(needs: seq<NeedItem>, id: string)
    requires IdFresh(needs, id)
    ensures RemoveNeed(needs, id) == needs
  {
    Seqs.FilterKeepsAll(needs, n => HasOtherId(id, n));
  }

  /** Removing the id of exactly one item of the list shortens it by exactly one. */
  lemma {:induction false} RemoveUniqueId(needs: seq<NeedItem>, k: nat)
    requires k < |needs| && IdsUnique(needs)
    ensures |RemoveNeed(needs, needs[k].id)| == |needs| - 1
    decreases |needs|
  {
    var id := needs[k].id;
    var p := n => HasOtherId(id, n);
    if k == 0 {
      var t := needs[1..];
      assert IdFresh(t, id) by {
        forall i | 0 <= i < |t| ensures t[i].id != id {
          assert t[i] == needs[i + 1];
        }
      }
      RemoveAbsentId(t, id);
      assert RemoveNeed(needs, id) == Seqs.Filter(t, p);
    } else {
      var t := needs[1..];
      assert IdsUnique(t) by {
        forall i, j | 0 <= i < j < |t| ensures t[i].id != t[j].id {
          assert t[i] == needs[i + 1] && t[j] == needs[j + 1];
        }
      }
      assert t[k - 1] == needs[k];
      RemoveUniqueId(t, k - 1);
      assert needs[0].id != id;
      assert RemoveNeed(needs, id) == [needs[0]] + Seqs.Filter(t, p);
    }
  }

  /** A preset suggestion: `label` (here `labelText`) and `intervention`. */
  datatype Suggestion = Suggestion(labelText: string, intervention: string)

  /** The provider a suggestion fills in for the draft's category (lines 82). */
  function SuggestionProvider(c: NeedCategory): (r: string)
    ensures r == "NHS" <==> c == PhysicalHealth
    ensures r == "Local Authority" <==> c == CareAct
    ensures r == "Joint Funding" <==> c == S117
  {
    assert "Joint Funding"[0] != "NHS"[0] && "Joint Funding"[0] != "Local Authority"[0];
    match c
    case PhysicalHealth => "NHS"
    case CareAct => "Local Authority"
    case S117 => "Joint Funding"
  }

  /** `selectSuggestion` (lines 78-85) on the draft. */
  function SelectSuggestion(d: NeedDraft, s: Suggestion): (r: NeedDraft)
    ensures r.description == s.labelText && r.intervention == s.intervention
    ensures r.provider == SuggestionProvider(d.category)
    ensures r.category == d.category && r.domain == d.domain && r.severity == d.severity
    ensures r.statutoryTestArises == d.statutoryTestArises
    ensures r.statutoryTestReducesRisk == d.statutoryTestReducesRisk
  {
    d.(description := s.labelText, intervention := s.intervention,
       provider := SuggestionProvider(d.category))
  }

  // ---------------------------------------------------------------------------------------
  // Care Act outcome selections: an object whose keys keep their insertion order.

  /** The first of the "unable to achieve" criteria, the reason a newly ticked outcome gets. */
  const FirstCriterion := "Is unable to achieve it without assistance"

  datatype Selection = Selection(outcome: string, reason: string)

  predicate KeysUnique(sel: seq<Selection>)
  {
    forall i, j :: 0 <= i < j < |sel| ==> sel[i].outcome != sel[j].outcome
  }

  /** `careActSelections[outcome]`, `None` for `undefined`. */
  function Lookup(sel: seq<Selection>, outcome: string): (r: Option<string>)
    ensures r.None? <==> forall i :: 0 <= i < |sel| ==> sel[i].outcome != outcome
    ensures r.Some? ==> Selection(outcome, r.value) in sel
    decreases |sel|
  {
    if sel == [] then None
    else if sel[0].outcome == outcome then Some(sel[0].reason)
    else
      var r := Lookup(sel[1..], outcome);
      assert forall i :: 1 <= i < |sel| ==> sel[i] == sel[1..][i - 1];
      r
  }

  predicate HasOtherOutcome(outcome: string, s: Selection)
  {
    s.outcome != outcome
  }

  /** `delete next[outcome]`. */
  function Delete(sel: seq<Selection>, outcome: string): seq<Selection>
  {
    Seqs.Filter(sel, s => HasOtherOutcome(outcome, s))
  }

  /** `toggleOutcome` (lines 92-100). */
  function Toggle(sel: seq<Selection>, outcome: string): seq<Selection>
  {
    if Lookup(sel, outcome).Some? then Delete(sel, outcome)
    else sel + [Selection(outcome, FirstCriterion)]
  }

  /** `{ ...prev, [outcome]: reason }` (lines 102-104): an existing key keeps its position. */
  function SetReason(sel: seq<Selection>, outcome: string, reason: string): seq<Selection>
  {
    if Lookup(sel, outcome).Some? then Rewrite(sel, outcome, reason)
    else sel + [Selection(outcome, reason)]
  }

  /** The spread `{ ...sel, [outcome]: reason }` for a key already present: its entry is
      rewritten where it stands. */
  function Rewrite(sel: seq<Selection>, outcome: string, reason: string): seq<Selection>
  {
    seq(|sel|, i requires 0 <= i < |sel| =>
      if sel[i].outcome == outcome then Selection(outcome, reason) else sel[i])
  }

  lemma {:induction false} LookupUnique(sel: seq<Selection>, k: nat)
    requires KeysUnique(sel) && k < |sel|
    ensures Lookup(sel, sel[k].outcome) == Some(sel[k].reason)
    decreases |sel|
  {
    if k > 0 {
      var t := sel[1..];
      assert KeysUnique(t) by {
        forall i, j | 0 <= i < j < |t| ensures t[i].outcome != t[j].outcome {
          assert t[i] == sel[i + 1] && t[j] == sel[j + 1];
        }
      }
      assert t[k - 1] == sel[k];
      LookupUnique(t, k - 1);
    }
  }

  lemma LookupAppend(sel: seq<Selection>, e: Selection, outcome: string)
    ensures Lookup(sel + [e], outcome) ==
      if Lookup(sel, outcome).Some? then Lookup(sel, outcome)
      else if e.outcome == outcome then Some(e.reason) else None
    decreases |sel|
  {
    if sel != [] {
      assert (sel + [e])[1..] == sel[1..] + [e];
      LookupAppend(sel[1..], e, outcome);
    } else {
      assert [e][1..] == [];
    }
  }

  lemma {:induction false} LookupDelete(sel: seq<Selection>, outcome: string, other: string)
    ensures Lookup(Delete(sel, outcome), other) ==
      if other == outcome then None else Lookup(sel, other)
    decreases |sel|
  {
    if sel != [] {
      LookupDelete(sel[1..], outcome, other);
      var p := s => HasOtherOutcome(outcome, s);
      if p(sel[0]) {
        assert Delete(sel, outcome) == [sel[0]] + Delete(sel[1..], outcome);
        assert ([sel[0]] + Delete(sel[1..], outcome))[1..] == Delete(sel[1..], outcome);
      }
    }
  }

  lemma DeleteKeepsUnique(sel: seq<Selection>, outcome: string)
    requires KeysUnique(sel)
    ensures KeysUnique(Delete(sel, outcome))
  {
    var d := Delete(sel, outcome);
    forall i, j | 0 <= i < j < |d| ensures d[i].outcome != d[j].outcome {
      if d[i].outcome == d[j].outcome {
        DeleteIsSubsequence(sel, outcome);
        var ii, jj := SubsequencePositions(d, sel, i, j);
        assert false;
      }
    }
  }

  lemma DeleteIsSubsequence(sel: seq<Selection>, outcome: string)
    ensures Seqs.IsSubsequence(Delete(sel, outcome), sel)
  {
    Seqs.FilterIsSubsequence(sel, s => HasOtherOutcome(outcome, s));
  }

  /** Two positions of a subsequence come from two distinct positions, in the same order. */
  lemma {:induction false} SubsequencePositions<T>(a: seq<T>, b: seq<T>, i: nat, j: nat)
    returns (ii: nat, jj: nat)
    requires Seqs.IsSubsequence(a, b) && i < j < |a|
    ensures ii < jj < |b| && b[ii] == a[i] && b[jj] == a[j]
    decreases |b|
  {
    if a[0] == b[0] {
      if i == 0 {
        var k := SubsequenceIndex(a[1..], b[1..], j - 1);
        ii, jj := 0, k + 1;
      } else {
        var x, y := SubsequencePositions(a[1..], b[1..], i - 1, j - 1);
        ii, jj := x + 1, y + 1;
      }
    } else {
      var x, y := SubsequencePositions(a, b[1..], i, j);
      ii, jj := x + 1, y + 1;
    }
  }

  lemma {:induction false} SubsequenceIndex<T>(a: seq<T>, b: seq<T>, i: nat) returns (k: nat)
    requires Seqs.IsSubsequence(a, b) && i < |a|
    ensures k < |b| && b[k] == a[i]
    decreases |b|
  {
    if a[0] == b[0] {
      if i == 0 {
        k := 0;
      } else {
        var x := SubsequenceIndex(a[1..], b[1..], i - 1);
        k := x + 1;
      }
    } else {
      var x := SubsequenceIndex(a, b[1..], i);
      k := x + 1;
    }
  }

  /** Toggling keeps the keys distinct, flips the presence of the toggled outcome (a newly
      ticked one gets the first criterion) and leaves every other outcome as it was. */
  lemma ToggleProperties(sel: seq<Selection>, outcome: string)
    requires KeysUnique(sel)
    ensures KeysUnique(Toggle(sel, outcome))
    ensures Lookup(sel, outcome).Some? ==> Lookup(Toggle(sel, outcome), outcome).None?
    ensures Lookup(sel, outcome).None? ==>
      Lookup(Toggle(sel, outcome), outcome) == Some(FirstCriterion)
    ensures forall other :: other != outcome ==>
      Lookup(Toggle(sel, outcome), other) == Lookup(sel, other)
  {
    if Lookup(sel, outcome).Some? {
      DeleteKeepsUnique(sel, outcome);
      LookupDelete(sel, outcome, outcome);
      forall other | other != outcome
        ensures Lookup(Toggle(sel, outcome), other) == Lookup(sel, other)
      {
        LookupDelete(sel, outcome, other);
      }
    } else {
      var e := Selection(outcome, FirstCriterion);
      LookupAppend(sel, e, outcome);
      forall other | other != outcome
        ensures Lookup(Toggle(sel, outcome), other) == Lookup(sel, other)
      {
        LookupAppend(sel, e, other);
      }
    }
  }

  /** Ticking an unticked outcome and unticking it again restores the selections exactly. */
  lemma ToggleTwiceRestores(sel: seq<Selection>, outcome: string)
    requires Lookup(sel, outcome).None?
    ensures Toggle(Toggle(sel, outcome), outcome) == sel
  {
    var e := Selection(outcome, FirstCriterion);
    LookupAppend(sel, e, outcome);
    var p := s => HasOtherOutcome(outcome, s);
    Seqs.FilterAppend(sel, [e], p);
    Seqs.FilterKeepsAll(sel, p);
    assert Seqs.Filter([e], p) == [];
  }

  /** Setting a reason keeps the keys distinct, makes the outcome map to the reason and leaves
      every other outcome as it was. */
  lemma SetReasonProperties(sel: seq<Selection>, outcome: string, reason: string)
    requires KeysUnique(sel)
    ensures KeysUnique(SetReason(sel, outcome, reason))
    ensures Lookup(SetReason(sel, outcome, reason), outcome) == Some(reason)
    ensures forall other :: other != outcome ==>
      Lookup(SetReason(sel, outcome, reason), other) == Lookup(sel, other)
  {
    if Lookup(sel, outcome).Some? {
      ReplaceReason(sel, outcome, reason);
    } else {
      AppendReason(sel, outcome, reason);
    }
  }

  /** The ticked case: the entry is rewritten in place. */
  lemma ReplaceReason(sel: seq<Selection>, outcome: string, reason: string)
    requires KeysUnique(sel) && Lookup(sel, outcome).Some?
    ensures KeysUnique(SetReason(sel, outcome, reason))
    ensures Lookup(SetReason(sel, outcome, reason), outcome) == Some(reason)
    ensures forall other :: other != outcome ==>
      Lookup(SetReason(sel, outcome, reason), other) == Lookup(sel, other)
  {
    var r := Rewrite(sel, outcome, reason);
    assert SetReason(sel, outcome, reason) == r;
    var k :| 0 <= k < |sel| && sel[k].outcome == outcome;
    RewriteLookup(sel, outcome, reason, k);
    forall other | other != outcome ensures Lookup(r, other) == Lookup(sel, other) {
      if Lookup(sel, other).Some? {
        var m :| 0 <= m < |sel| && sel[m].outcome == other;
        RewriteLookup(sel, outcome, reason, m);
      } else {
        assert forall i :: 0 <= i < |r| ==> r[i].outcome != other;
      }
    }
  }

  /** The rewritten list keeps every key where it was: it stays key-unique, and the entry at
      each place holds the new reason exactly when its key is the rewritten one. */
  lemma RewriteLookup(sel: seq<Selection>, outcome: string, reason: string, m: nat)
    requires KeysUnique(sel) && m < |sel|
    ensures |Rewrite(sel, outcome, reason)| == |sel|
    ensures forall i :: 0 <= i < |sel| ==> Rewrite(sel, outcome, reason)[i].outcome == sel[i].outcome
    ensures KeysUnique(Rewrite(sel, outcome, reason))
    ensures Lookup(Rewrite(sel, outcome, reason), sel[m].outcome)
            == if sel[m].outcome == outcome then Some(reason) else Lookup(sel, sel[m].outcome)
  {
    var r := Rewrite(sel, outcome, reason);
    assert forall i :: 0 <= i < |r| ==> r[i].outcome == sel[i].outcome;
    LookupUnique(sel, m);
    LookupUnique(r, m);
  }

  /** The unticked case, where the handler would leave no entry: one is appended. */
  lemma AppendReason(sel: seq<Selection>, outcome: string, reason: string)
    requires KeysUnique(sel) && Lookup(sel, outcome).None?
    ensures KeysUnique(SetReason(sel, outcome, reason))
    ensures Lookup(SetReason(sel, outcome, reason), outcome) == Some(reason)
    ensures forall other :: other != outcome ==>
      Lookup(SetReason(sel, outcome, reason), other) == Lookup(sel, other)
  {
    var e := Selection(outcome, reason);
    LookupAppend(sel, e, outcome);
    forall other | other != outcome
      ensures Lookup(SetReason(sel, outcome, reason), other) == Lookup(sel, other)
    {
      LookupAppend(sel, e, other);
    }
  }

  // ---------------------------------------------------------------------------------------
  // The evidence-based Care Act description (lines 116-128).

  function Header(n: nat): string
  {
    "[Care Act Eligible] Unable to achieve " + Text.NatToString(n) + " outcome(s):\n"
  }

  /** The line for the selection at position `index`. */
  function Line(index: nat, s: Selection): string
  {
    Text.NatToString(index + 1) + ". " + s.outcome + " - " + s.reason + "\n"
  }

  /** Every selection's line, numbered from 1 in insertion order. */
  function Lines(sel: seq<Selection>): string
  {
    if sel == [] then [] else Lines(sel[..|sel| - 1]) + Line(|sel| - 1, sel[|sel| - 1])
  }

  const ImpactNote := "\nSignificant impact on wellbeing confirmed."

  /** The text accumulated by `desc` before it is trimmed. */
  function RawDescription(sel: seq<Selection>, significantImpact: bool): string
  {
    Header(|sel|) + Lines(sel) + (if significantImpact then ImpactNote else [])
  }

  /** `generateCareActDescription`: `None` when nothing is selected (the handler returns
      early), otherwise the trimmed description the draft receives. */
  method GenerateCareActDescription(sel: seq<Selection>, significantImpact: bool)
    returns (r: Option<string>)
    ensures sel == [] <==> r.None?
    ensures r.Some? ==> r.value == Text.Trim(RawDescription(sel, significantImpact))
  {
    if |sel| == 0 {
      return None;
    }
    var desc := Header(|sel|);
    var i := 0;
    while i < |sel|
      invariant 0 <= i <= |sel|
      invariant desc == Header(|sel|) + Lines(sel[..i])
    {
      assert sel[..i + 1][..i] == sel[..i];
      desc := desc + Line(i, sel[i]);
      i := i + 1;
    }
    assert sel[..i] == sel;
    if significantImpact {
      desc := desc + ImpactNote;
    } else {
      assert desc == desc + [];
    }
    assert desc == RawDescription(sel, significantImpact);
    return Some(Text.Trim(desc));
  }

  /** The generated description opens with the count line, whatever the selections say. */
  lemma DescriptionOpensWithCount(sel: seq<Selection>, significantImpact: bool)
    ensures var head := "[Care Act Eligible] Unable to achieve " + Text.NatToString(|sel|)
                      + " outcome(s):";
            var t := Text.Trim(RawDescription(sel, significantImpact));
            |t| >= |head| && t[..|head|] == head
  {
    var head := "[Care Act Eligible] Unable to achieve " + Text.NatToString(|sel|) + " outcome(s):";
    var rest := "\n" + Lines(sel) + (if significantImpact then ImpactNote else []);
    assert RawDescription(sel, significantImpact) == head + rest;
    Text.TrimKeepsPrefix(head, rest);
  }

  /** With significant impact confirmed nothing is trimmed, and the description ends with the
      wellbeing note. */
  lemma ImpactDescriptionUntrimmed(sel: seq<Selection>)
    ensures Text.Trim(RawDescription(sel, true)) == RawDescription(sel, true)
    ensures var t := RawDescription(sel, true);
            |t| >= |ImpactNote| && t[|t| - |ImpactNote|..] == ImpactNote
  {
    var t := RawDescription(sel, true);
    assert t[0] == '[';
    assert t[|t| - 1] == '.';
    assert Text.TrimStart(t) == t;
  }

  /** The build button (line 314): at least two outcomes and significant impact. */
  predicate BuildEnabled(sel: seq<Selection>, significantImpact: bool)
  {
    |sel| >= 2 && significantImpact
  }

  /** A build the button allows yields a description, and it ends with the wellbeing note. */
  lemma EnabledBuildConfirmsImpact(sel: seq<Selection>, significantImpact: bool)
    requires BuildEnabled(sel, significantImpact)
    ensures sel != []
    ensures var t := Text.Trim(RawDescription(sel, significantImpact));
            |t| >= |ImpactNote| && t[|t| - |ImpactNote|..] == ImpactNote
  {
    ImpactDescriptionUntrimmed(sel);
  }

  // ---------------------------------------------------------------------------------------
  // The component's state.

  /** The state of the needs form: the needs list it is given to edit, the draft, the outcome
      selections, the significant-impact box and the guided wizard's step. */
  class NeedsForm {
    var needs: seq<NeedItem>
    var draft: NeedDraft
    var selections: seq<Selection>
    var significantImpact: bool
    var wizardStep: WizardStep

    predicate Valid()
      reads this
    {
      IdsUnique(needs) && KeysUnique(selections)
    }

    constructor (needs0: seq<NeedItem>)
      requires IdsUnique(needs0)
      ensures Valid()
      ensures needs == needs0 && draft == BlankDraft && selections == []
      ensures !significantImpact && wizardStep == CategoryStep
    {
      needs := needs0;
      draft := BlankDraft;
      selections := [];
      significantImpact := false;
      wizardStep := CategoryStep;
    }

    /** `handleAddNeed`; `freshId` stands for `crypto.randomUUID()`. */
    method AddNeed(freshId: string) returns (outcome: AddOutcome)
      requires Valid() && IdFresh(needs, freshId)
      modifies this
      ensures Valid()
      ensures outcome == CheckDraft(old(draft), freshId)
      ensures outcome.Added? ==>
        needs == old(needs) + [outcome.item] && draft == BlankDraft && selections == []
        && !significantImpact && wizardStep == CategoryStep
      ensures !outcome.Added? ==>
        needs == old(needs) && draft == old(draft) && selections == old(selections)
        && significantImpact == old(significantImpact) && wizardStep == old(wizardStep)
    {
      outcome := CheckDraft(draft, freshId);
      if outcome.Added? {
        AppendFresh(needs, outcome.item);
        needs := needs + [outcome.item];
        draft := BlankDraft;
        selections := [];
        significantImpact := false;
        wizardStep := CategoryStep;
      }
    }

    /** `removeNeed`. */
    method Remove(id: string)
      requires Valid()
      modifies this
      ensures Valid()
      ensures needs == RemoveNeed(old(needs), id)
      ensures draft == old(draft) && selections == old(selections)
      ensures significantImpact == old(significantImpact) && wizardStep == old(wizardStep)
    {
      var before := needs;
      needs := RemoveNeed(needs, id);
      assert IdsUnique(needs) by {
        RemoveNeedProperties(before, id);
        forall i, j | 0 <= i < j < |needs| ensures needs[i].id != needs[j].id {
          if needs[i].id == needs[j].id {
            var ii, jj := SubsequencePositions(needs, before, i, j);
            assert false;
          }
        }
      }
    }

    /** `selectSuggestion`. */
    method ChooseSuggestion(s: Suggestion)
      modifies this
      ensures draft == SelectSuggestion(old(draft), s)
      ensures needs == old(needs) && selections == old(selections)
      ensures significantImpact == old(significantImpact) && wizardStep == old(wizardStep)
    {
      draft := SelectSuggestion(draft, s);
    }

    /** `setCategoryViaWizard`: the category is set and the wizard moves on to the details. */
    method ChooseCategory(c: NeedCategory)
      modifies this
      ensures draft == old(draft).(category := c) && wizardStep == DetailsStep
      ensures needs == old(needs) && selections == old(selections)
      ensures significantImpact == old(significantImpact)
    {
      draft := draft.(category := c);
      wizardStep := DetailsStep;
    }

    /** The wizard's Back button (line 208). */
    method BackToCategory()
      modifies this
      ensures wizardStep == CategoryStep
      ensures needs == old(needs) && draft == old(draft) && selections == old(selections)
      ensures significantImpact == old(significantImpact)
    {
      wizardStep := CategoryStep;
    }

    /** `toggleOutcome`: copy the selections, delete or add the key, store the copy. */
    method ToggleOutcome(outcome: string)
      requires Valid()
      modifies this
      ensures Valid()
      ensures selections == Toggle(old(selections), outcome)
      ensures needs == old(needs) && draft == old(draft)
      ensures significantImpact == old(significantImpact) && wizardStep == old(wizardStep)
    {
      ToggleProperties(selections, outcome);
      var next := selections;
      if Lookup(next, outcome).Some? {
        next := Delete(next, outcome);
      } else {
        next := next + [Selection(outcome, FirstCriterion)];
      }
      selections := next;
    }

    /** `updateOutcomeReason`. */
    method UpdateOutcomeReason(outcome: string, reason: string)
      requires Valid()
      modifies this
      ensures Valid()
      ensures selections == SetReason(old(selections), outcome, reason)
      ensures needs == old(needs) && draft == old(draft)
      ensures significantImpact == old(significantImpact) && wizardStep == old(wizardStep)
    {
      SetReasonProperties(selections, outcome, reason);
      selections := SetReason(selections, outcome, reason);
    }

    /** The significant-impact checkbox (line 311). */
    method SetSignificantImpact(b: bool)
      modifies this
      ensures significantImpact == b
      ensures needs == old(needs) && draft == old(draft) && selections == old(selections)
      ensures wizardStep == old(wizardStep)
    {
      significantImpact := b;
    }

    /** The Build button, enabled with at least two outcomes and significant impact ticked:
        the draft's description is replaced by the generated text, which ends with the
        wellbeing note. */
    method BuildDescription()
      requires BuildEnabled(selections, significantImpact)
      modifies this
      ensures draft == old(draft).(description := Text.Trim(RawDescription(selections, significantImpact)))
      ensures |draft.description| >= |ImpactNote|
              && draft.description[|draft.description| - |ImpactNote|..] == ImpactNote
      ensures needs == old(needs) && selections == old(selections)
      ensures significantImpact == old(significantImpact) && wizardStep == old(wizardStep)
    {
      EnabledBuildConfirmsImpact(selections, significantImpact);
      var r := GenerateCareActDescription(selections, significantImpact);
      draft := draft.(description := r.value);
    }
  }
}
