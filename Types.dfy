/** The data model of the application (types.ts) and the two tables of constants.ts that the
    modelled logic reads: the MHA section eligibility table and the initial patient record. */
module Types {

  datatype Option<T> = None | Some(value: T)

  /** `NeedCategory`: the three legal categories a need can be classified under. */
  datatype NeedCategory = S117 | CareAct | PhysicalHealth

  /** `NeedDomain`, in its declared order (the order the support plan lists domains in). */
  datatype NeedDomain =
    | Accommodation | Occupation | PhysicalHealthcare | Nutrition | PersonalCare | Finance
    | SocialCultural | Relationships | Parenting | Counselling | MentalHealth | Psychological
    | CoExisting | RiskSafety | SubstanceMisuse | AgeSpecific | Crisis

  /** `Object.values(NeedDomain)`: every domain once, in declaration order. */
  const AllDomains: seq<NeedDomain> :=
    [Accommodation, Occupation, PhysicalHealthcare, Nutrition, PersonalCare, Finance,
     SocialCultural, Relationships, Parenting, Counselling, MentalHealth, Psychological,
     CoExisting, RiskSafety, SubstanceMisuse, AgeSpecific, Crisis]

  /** `AllDomains` lists every domain, each exactly once. */
  lemma AllDomainsEnumerates()
    ensures forall d: NeedDomain :: d in AllDomains
    ensures forall i, j :: 0 <= i < j < |AllDomains| ==> AllDomains[i] != AllDomains[j]
  {
    forall d: NeedDomain ensures d in AllDomains {
      match d
      case Accommodation => case Occupation => case PhysicalHealthcare => case Nutrition =>
      case PersonalCare => case Finance => case SocialCultural => case Relationships =>
      case Parenting => case Counselling => case MentalHealth => case Psychological =>
      case CoExisting => case RiskSafety => case SubstanceMisuse => case AgeSpecific =>
      case Crisis =>
    }
  }

  datatype Severity = Low | Medium | High

  /** `NeedItem`: one identified need. The two statutory-test flags are optional in the
      interface; every item the needs form creates carries both, so they are booleans here. */
  datatype NeedItem = NeedItem(
    id: string,
    description: string,
    category: NeedCategory,
    domain: NeedDomain,
    intervention: string,
    provider: string,
    severity: Severity,
    statutoryTestArises: bool,
    statutoryTestReducesRisk: bool
  )

  datatype DisputeStatus = NoDispute | ActiveDispute
  datatype CaseStatus = Draft | InReview | Finalised

  /** The free-text fields of `PatientDetails`.  */
  datatype TextField =
    | Name | Address | Dob | NhsNumber | SocialCareId | LacStatus | FirstLanguage
    | MhaSection | MojCaseWorker | DetentionStartDate | ConditionsOfDischarge | Diagnoses
    | S117Rights | LegalFrameworks | S117Limb2Evidence | McaAssessmentRationale
    | BestInterestsRationale | ResponsibleLA | ResponsibleICB | ResponsibilityRationale
    | NearestRelative | FamilyMembers | VictimLiaisonOfficer | AdvocateContact
    | ConsultantName | CareCoordinator | SocialWorkerName | GpContact | OtherPros
    | Setting | CurrentArrangements | ConfidenceLevel | DecisionConfidenceNotes
    | StatutoryFunding | CompletedBy | Designation | CompletionDate | Version
    | NextReviewDate | ClinicianName | PersonComments | FamilyComments | AdvocateComments
    | NextSteps

  /** The boolean fields of `PatientDetails`. */
  datatype FlagField =
    | IsRestricted | IsInitialPlan | IsReviewPlan | DolSupervision | DolFreeToLeave
    | DolCapacity | ImhaReferralDone | ImcaReferralDone | IsEnding

  /** Every text field holds a value, as in the interface. */
  type TextRecord = m: map<TextField, string> | forall t :: t in m
    witness BlankText

  /** Every boolean field holds a value. */
  type FlagRecord = m: map<FlagField, bool> | forall b :: b in m
    witness AllFalse

  /** Every text field empty, every boolean field false. */
  const BlankText: map<TextField, string> := map t: TextField | true :: ""
  const AllFalse: map<FlagField, bool> := map b: FlagField | true :: false

  /** The patient record (`PatientDetails`): the text fields, the boolean fields, the numeric
      decision confidence and the two enumerated fields. */
  datatype PatientDetails = PatientDetails(
    text: TextRecord,
    flag: FlagRecord,
    decisionConfidence: int,
    disputeStatus: DisputeStatus,
    caseStatus: CaseStatus
  )

  /** The closed set of field names (`keyof PatientDetails`). */
  datatype Field =
    | TextOf(t: TextField)
    | FlagOf(b: FlagField)
    | DecisionConfidence
    | DisputeStatusField
    | CaseStatusField

  /** A value written into the record by `onChange(field, value)`. */
  datatype Value =
    | Text(s: string)
    | Flag(b: bool)
    | Number(n: int)
    | Dispute(dispute: DisputeStatus)
    | Status(status: CaseStatus)

  /** The value has the type the interface declares for the field. */
  predicate Fits(f: Field, v: Value)
  {
    match f
    case TextOf(_) => v.Text?
    case FlagOf(_) => v.Flag?
    case DecisionConfidence => v.Number?
    case DisputeStatusField => v.Dispute?
    case CaseStatusField => v.Status?
  }

  /** The value stored in field `f` of `d`. */
  function Get(d: PatientDetails, f: Field): (v: Value)
    ensures Fits(f, v)
  {
    match f
    case TextOf(t) => Text(d.text[t])
    case FlagOf(b) => Flag(d.flag[b])
    case DecisionConfidence => Number(d.decisionConfidence)
    case DisputeStatusField => Dispute(d.disputeStatus)
    case CaseStatusField => Status(d.caseStatus)
  }

  /** `{ ...d, [f]: v }`: the record with field `f` replaced by `v` and every other field kept. */
  function Update(d: PatientDetails, f: Field, v: Value): (r: PatientDetails)
    requires Fits(f, v)
    ensures Get(r, f) == v
    ensures forall g :: g != f ==> Get(r, g) == Get(d, g)
  {
    match f
    case TextOf(t) => d.(text := d.text[t := v.s])
    case FlagOf(b) => d.(flag := d.flag[b := v.b])
    case DecisionConfidence => d.(decisionConfidence := v.n)
    case DisputeStatusField => d.(disputeStatus := v.dispute)
    case CaseStatusField => d.(caseStatus := v.status)
  }

  /** Two records that agree on every field are the same record. */
  lemma FieldsDetermineRecord(d: PatientDetails, e: PatientDetails)
    requires forall f :: Get(d, f) == Get(e, f)
    ensures d == e
  {
    forall t ensures d.text[t] == e.text[t] { assert Get(d, TextOf(t)) == Get(e, TextOf(t)); }
    forall b ensures d.flag[b] == e.flag[b] { assert Get(d, FlagOf(b)) == Get(e, FlagOf(b)); }
    assert Get(d, DecisionConfidence) == Get(e, DecisionConfidence);
    assert Get(d, DisputeStatusField) == Get(e, DisputeStatusField);
    assert Get(d, CaseStatusField) == Get(e, CaseStatusField);
  }

  /** `INITIAL_PATIENT_DETAILS`. `completionDate` is the ISO date of the day the module was
      loaded, passed in as `today`. */
  function InitialPatientDetails(today: string): (d: PatientDetails)
    ensures d.text[CompletionDate] == today && d.text[Version] == "1.0"
    ensures d.flag[IsInitialPlan] && d.flag[DolFreeToLeave]
    ensures d.decisionConfidence == 70 && d.disputeStatus == NoDispute && d.caseStatus == Draft
  {
    PatientDetails(
      text := BlankText[CompletionDate := today][Version := "1.0"],
      flag := AllFalse[IsInitialPlan := true][DolFreeToLeave := true],
      decisionConfidence := 70,
      disputeStatus := NoDispute,
      caseStatus := Draft
    )
  }

  /** Every other text field of the initial record is empty. */
  lemma InitialTextBlank(today: string, t: TextField)
    requires t != CompletionDate && t != Version
    ensures InitialPatientDetails(today).text[t] == ""
  {
    assert t in BlankText && BlankText[t] == "";
  }

  /** Exactly `isInitialPlan` and `dolFreeToLeave` are set in the initial record. */
  lemma InitialFlagSet(today: string, b: FlagField)
    ensures InitialPatientDetails(today).flag[b] <==> b == IsInitialPlan || b == DolFreeToLeave
  {
    assert b in AllFalse && !AllFalse[b];
  }

  /** One entry of `MHA_SECTIONS`. */
  datatype SectionEntry = SectionEntry(code: string, sectionLabel: string, eligible: bool)

  const MhaSections: seq<SectionEntry> := [
    SectionEntry("s2", "Section 2 (Assessment)", false),
    SectionEntry("s3", "Section 3 (Treatment)", true),
    SectionEntry("s4", "Section 4 (Emergency)", false),
    SectionEntry("s5(2)", "Section 5(2) (Holding)", false),
    SectionEntry("s37", "Section 37 (Hospital Order)", true),
    SectionEntry("s37/41", "Section 37/41 (Restricted)", true),
    SectionEntry("s45A", "Section 45A (Hybrid Order)", true),
    SectionEntry("s47", "Section 47 (Prison Transfer)", true),
    SectionEntry("s47/49", "Section 47/49 (Restricted Transfer)", true),
    SectionEntry("s48", "Section 48 (Remand Transfer)", true),
    SectionEntry("s135/136", "Section 135/136 (Police Powers)", false),
    SectionEntry("Informal", "Informal / Voluntary", false),
    SectionEntry("CTO", "Community Treatment Order", true)
  ]

  /** `MHA_SECTIONS.find(s => s.code === code)` over a table. */
  function FindSectionIn(table: seq<SectionEntry>, code: string): (r: Option<SectionEntry>)
    ensures r.Some? ==> r.value in table && r.value.code == code
    ensures r.None? <==> forall i :: 0 <= i < |table| ==> table[i].code != code
    ensures r.Some? ==> exists i :: 0 <= i < |table| && table[i] == r.value
                                   && forall j :: 0 <= j < i ==> table[j].code != code
  {
    if table == [] then None
    else if table[0].code == code then Some(table[0])
    else FindSectionIn(table[1..], code)
  }

  /** The lookup finds an entry when no earlier entry carries its code. */
  lemma {:induction false} FindSectionAt(table: seq<SectionEntry>, i: nat)
    requires i < |table|
    requires forall j :: 0 <= j < i ==> table[j].code != table[i].code
    ensures FindSectionIn(table, table[i].code) == Some(table[i])
  {
    if i > 0 {
      FindSectionAt(table[1..], i - 1);
    }
  }

  /** `selectedSection?.eligible`, with a missing entry read as not eligible. */
  predicate IsSectionEligible(code: string)
  {
    var s := FindSectionIn(MhaSections, code);
    s.Some? && s.value.eligible
  }
}
