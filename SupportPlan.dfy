/** The printable support plan (components/SupportPlan.tsx): a projection of the patient
    record and the needs list. Needs are grouped by domain in the declared domain order,
    counted by legal category and labelled with their funder; the legal-basis, safeguards and
    statutory-purpose sections depend on the record. */
module SupportPlan {
  import opened Types
  import opened Seqs
  import DoLChecker

  /** `getFundingSource` (lines 15-19). */
  function FundingSource(c: NeedCategory): (r: string)
    ensures r == "ICB (NHS)" <==> c == PhysicalHealth
    ensures r == "Local Authority" <==> c == CareAct
    ensures r == "Joint (ICB & LA)" <==> c == S117
  {
    assert "ICB (NHS)"[0] != "Local Authority"[0] && "ICB (NHS)"[0] != "Joint (ICB & LA)"[0];
    assert "Local Authority"[0] != "Joint (ICB & LA)"[0];
    match c
    case PhysicalHealth => "ICB (NHS)"
    case CareAct => "Local Authority"
    case S117 => "Joint (ICB & LA)"
  }

  /** Different categories are labelled with different funders. */
  lemma FundingSourceInjective(c: NeedCategory, e: NeedCategory)
    requires FundingSource(c) == FundingSource(e)
    ensures c == e
  {
  }

  // ---------------------------------------------------------------------------------------
  // Grouping by domain (lines 21-26).

  /** `needs.filter(n => n.domain === domain)`. */
  function Group(needs: seq<NeedItem>, d: NeedDomain): seq<NeedItem>
  {
    Filter(needs, (n: NeedItem) => n.domain == d)
  }

  /** `groupedNeeds`: one entry per domain. */
  function GroupedNeeds(needs: seq<NeedItem>): (g: map<NeedDomain, seq<NeedItem>>)
    ensures forall d: NeedDomain :: d in g
    ensures forall d: NeedDomain :: IsSubsequence(g[d], needs)
    ensures forall d: NeedDomain, n :: n in g[d] <==> n in needs && n.domain == d
  {
    AllDomainsEnumerates();
    forall d: NeedDomain ensures IsSubsequence(Group(needs, d), needs) {
      FilterIsSubsequence(needs, (n: NeedItem) => n.domain == d);
    }
    map d | d in AllDomains :: Group(needs, d)
  }

  /** A need lies in the group of its own domain and in no other. */
  lemma EachNeedInOwnGroup(needs: seq<NeedItem>, n: NeedItem, d: NeedDomain)
    requires n in needs
    ensures n in GroupedNeeds(needs)[n.domain]
    ensures d != n.domain ==> n !in GroupedNeeds(needs)[d]
  {
  }

  /** The total size of the groups of the domains `ds`. */
  function GroupSizes(needs: seq<NeedItem>, ds: seq<NeedDomain>): nat
  {
    if ds == [] then 0 else |Group(needs, ds[0])| + GroupSizes(needs, ds[1..])
  }

  /** How often `d` occurs in `ds`. */
  function Occurrences(ds: seq<NeedDomain>, d: NeedDomain): nat
  {
    if ds == [] then 0 else (if ds[0] == d then 1 else 0) + Occurrences(ds[1..], d)
  }

  lemma {:induction false} GroupSizesCons(n: NeedItem, rest: seq<NeedItem>, ds: seq<NeedDomain>)
    ensures GroupSizes([n] + rest, ds) == GroupSizes(rest, ds) + Occurrences(ds, n.domain)
  {
    if ds != [] {
      assert ([n] + rest)[0] == n && ([n] + rest)[1..] == rest;
      GroupSizesCons(n, rest, ds[1..]);
    }
  }

  lemma {:induction false} AbsentNoOccurrences(ds: seq<NeedDomain>, d: NeedDomain)
    requires d !in ds
    ensures Occurrences(ds, d) == 0
  {
    if ds != [] {
      AbsentNoOccurrences(ds[1..], d);
    }
  }

  lemma {:induction false} DistinctOccursOnce(ds: seq<NeedDomain>, d: NeedDomain)
    requires d in ds
    requires forall i, j :: 0 <= i < j < |ds| ==> ds[i] != ds[j]
    ensures Occurrences(ds, d) == 1
  {
    if ds[0] == d {
      assert d !in ds[1..] by {
        forall k | 0 <= k < |ds[1..]| ensures ds[1..][k] != d {
          assert ds[1..][k] == ds[k + 1];
        }
      }
      AbsentNoOccurrences(ds[1..], d);
    } else {
      DistinctOccursOnce(ds[1..], d);
    }
  }

  /** The groups partition the needs list: their sizes add up to its length. */
  lemma {:induction false} GroupsPartitionNeeds(needs: seq<NeedItem>)
    ensures GroupSizes(needs, AllDomains) == |needs|
  {
    if needs == [] {
      ZeroGroups(AllDomains);
    } else {
      AllDomainsEnumerates();
      assert needs == [needs[0]] + needs[1..];
      GroupSizesCons(needs[0], needs[1..], AllDomains);
      DistinctOccursOnce(AllDomains, needs[0].domain);
      GroupsPartitionNeeds(needs[1..]);
    }
  }

  lemma {:induction false} ZeroGroups(ds: seq<NeedDomain>)
    ensures GroupSizes([], ds) == 0
  {
    if ds != [] {
      ZeroGroups(ds[1..]);
    }
  }

  /** `domainsWithNeeds`: the domains with a non-empty group, in declared order. */
  function DomainsWithNeeds(needs: seq<NeedItem>): (r: seq<NeedDomain>)
    ensures forall d: NeedDomain :: d in r <==> exists n :: n in needs && n.domain == d
    ensures IsSubsequence(r, AllDomains)
  {
    AllDomainsEnumerates();
    var g := GroupedNeeds(needs);
    var r := Filter(AllDomains, (d: NeedDomain) => g[d] != []);
    forall d: NeedDomain ensures d in r <==> exists n :: n in needs && n.domain == d {
      if d in r {
        assert g[d][0] in g[d];
      }
    }
    FilterIsSubsequence(AllDomains, (d: NeedDomain) => g[d] != []);
    r
  }

  /** The "No assessed needs found" placeholder shows exactly when there are no needs. */
  lemma NoDomainsIffNoNeeds(needs: seq<NeedItem>)
    ensures DomainsWithNeeds(needs) == [] <==> needs == []
  {
    var r := DomainsWithNeeds(needs);
    if needs != [] {
      assert needs[0] in needs;
      assert needs[0].domain in r;
    }
    EmptyIffNoMembers(r);
  }

  // ---------------------------------------------------------------------------------------
  // Category counts (lines 29-31).

  function CategoryCount(needs: seq<NeedItem>, c: NeedCategory): nat
  {
    Count(needs, (n: NeedItem) => n.category == c)
  }

  /** Every need is counted under exactly one of the three categories. */
  lemma {:induction false} CategoryCountsSum(needs: seq<NeedItem>)
    ensures CategoryCount(needs, S117) + CategoryCount(needs, CareAct)
            + CategoryCount(needs, PhysicalHealth) == |needs|
  {
    if needs != [] {
      CategoryCountsSum(needs[1..]);
    }
  }

  // ---------------------------------------------------------------------------------------
  // The legal basis (lines 27-28, 97).

  /** `isEntitled`, read as a boolean: the mental health act section of the record names an
      eligible entry of the table. */
  predicate IsEntitled(d: PatientDetails)
  {
    IsSectionEligible(d.text[MhaSection])
  }

  /** No two entries of the table share a code, so the first match is the only one. */
  lemma SectionCodesUnique()
    ensures forall i, j :: 0 <= i < j < |MhaSections| ==> MhaSections[i].code != MhaSections[j].code
  {
  }

  /** The patient is entitled exactly when some entry of the table carries the record's
      code and is marked eligible. */
  lemma EntitledIffEligibleEntry(code: string)
    ensures IsSectionEligible(code)
            <==> exists i :: 0 <= i < |MhaSections| && MhaSections[i].code == code
                             && MhaSections[i].eligible
  {
    SectionCodesUnique();
    forall i | 0 <= i < |MhaSections| && MhaSections[i].code == code
      ensures FindSectionIn(MhaSections, code) == Some(MhaSections[i])
    {
      FindSectionAt(MhaSections, i);
    }
  }

  /** Every entry has a non-empty code and a non-empty label. */
  lemma SectionEntriesNonEmpty()
    ensures forall i :: 0 <= i < |MhaSections| ==>
      MhaSections[i].code != [] && MhaSections[i].sectionLabel != []
  {
  }

  /** An empty section is not entitled. */
  lemma EmptySectionNotEntitled()
    ensures !IsSectionEligible("")
  {
    SectionEntriesNonEmpty();
  }

  /** `selectedSection?.label || 'Unknown'`: the table's label for a known code. */
  function SectionLabel(code: string): (r: string)
    ensures FindSectionIn(MhaSections, code).None? ==> r == "Unknown"
    ensures FindSectionIn(MhaSections, code).Some? ==>
      r == FindSectionIn(MhaSections, code).value.sectionLabel
  {
    SectionEntriesNonEmpty();
    match FindSectionIn(MhaSections, code)
    case None => "Unknown"
    case Some(e) => if e.sectionLabel != [] then e.sectionLabel else "Unknown"
  }

  /** The "s.117 Entitlement" row. */
  function EntitlementRow(code: string): string
  {
    (if IsSectionEligible(code) then "Entitled (Detention: " else "Not entitled (Detention: ")
    + SectionLabel(code) + ")"
  }

  // ---------------------------------------------------------------------------------------
  // The conditional sections.

  /** The statutory-purpose section renders when some need is an s.117 need (line 139). */
  predicate ShowsLimb2(needs: seq<NeedItem>)
  {
    exists n :: n in needs && n.category == S117
  }

  const Limb2Warning := "WARNING: No professional evidence provided for readmission prevention."

  /** `details.s117Limb2Evidence || warning` (line 147). */
  function Limb2Text(evidence: string): (r: string)
    ensures evidence == [] ==> r == Limb2Warning
    ensures evidence != [] ==> r == evidence
  {
    if evidence != [] then evidence else Limb2Warning
  }

  /** The section renders iff the s.117 count is positive. */
  lemma Limb2IffS117Counted(needs: seq<NeedItem>)
    ensures ShowsLimb2(needs) <==> CategoryCount(needs, S117) > 0
  {
    var f := Filter(needs, (n: NeedItem) => n.category == S117);
    if f != [] {
      assert f[0] in f;
    }
  }

  /** The "Deprivation of Liberty" safeguards row (line 125). */
  predicate ShowsDoLRow(d: PatientDetails)
  {
    d.flag[DolSupervision] && !d.flag[DolFreeToLeave]
  }

  /** The plan shows the row exactly when the checker's panel is not 'ok'. */
  lemma DoLRowMatchesChecker(d: PatientDetails, parsedDob: Option<DoLChecker.Date>,
                             today: DoLChecker.Date, setting: DoLChecker.Setting)
    ensures ShowsDoLRow(d) <==> DoLChecker.Check(d, parsedDob, today, setting).status != DoLChecker.Ok
  {
  }

  /** The "Mental Capacity Findings" row (lines 117-123): the recorded rationale, or a
      sentence from the capacity flag. */
  function CapacityFindings(d: PatientDetails): (r: string)
    ensures d.text[McaAssessmentRationale] != [] ==> r == d.text[McaAssessmentRationale]
    ensures d.text[McaAssessmentRationale] == [] && d.flag[DolCapacity] ==> r == LackingNote
    ensures d.text[McaAssessmentRationale] == [] && !d.flag[DolCapacity] ==> r == PresumedNote
  {
    if d.text[McaAssessmentRationale] != [] then d.text[McaAssessmentRationale]
    else if d.flag[DolCapacity] then LackingNote
    else PresumedNote
  }

  const LackingNote := "Assessed as lacking capacity for residence/care decisions."
  const PresumedNote := "Presumed to have capacity for relevant decisions."
}
