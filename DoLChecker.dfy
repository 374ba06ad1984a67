/** The deprivation-of-liberty checker (components/DoLChecker.tsx): the "acid test" read from
    the patient record, the patient's age in whole years, and the status, message and
    recommendation the panel shows. The only local state, the proposed setting type, is an
    input here. */
module DoLChecker {
  import opened Types
  import Text
  import CapacityWizard

  /** A calendar date as (year, month, day); only the differences of months and days are
      compared, so the month may be numbered from 0 as `getMonth` does or from 1. */
  datatype Date = Date(year: int, month: int, day: int)

  /** Dates in calendar order. */
  predicate Before(a: Date, b: Date)
  {
    a.year < b.year
    || (a.year == b.year && (a.month < b.month || (a.month == b.month && a.day < b.day)))
  }

  /** The `n`th anniversary of `birth`. */
  function Anniversary(birth: Date, n: int): Date
  {
    Date(birth.year + n, birth.month, birth.day)
  }

  /** The value `getAge` returns: a whole number of years, or `NaN` when the date of birth
      does not parse. */
  datatype Age = Years(n: int) | NotANumber

  /** `getAge` (lines 24-34). `parsed` is what `new Date(dob)` yields for a non-empty `dob`:
      `None` for an invalid date. An empty `dob` counts as 18. */
  function GetAge(dob: string, parsed: Option<Date>, today: Date): (r: Age)
    ensures dob == [] ==> r == Years(18)
    ensures dob != [] ==> (r == NotANumber <==> parsed.None?)
    ensures dob != [] && parsed.Some? ==>
      r.Years? && !Before(today, Anniversary(parsed.value, r.n))
      && Before(today, Anniversary(parsed.value, r.n + 1))
  {
    if dob == [] then Years(18)
    else match parsed
      case None => NotANumber
      case Some(birth) =>
        var m := today.month - birth.month;
        var age := today.year - birth.year;
        if m < 0 || (m == 0 && today.day < birth.day) then Years(age - 1) else Years(age)
  }

  /** The age is the number of anniversaries of the birth date that have been reached: the
      `n`th is not after today and the next one is. */
  lemma AgeCountsAnniversaries(dob: string, birth: Date, today: Date)
    requires dob != []
    ensures var a := GetAge(dob, Some(birth), today);
            a.Years? && !Before(today, Anniversary(birth, a.n))
            && Before(today, Anniversary(birth, a.n + 1))
  {
  }

  /** Only one number of years lies between consecutive anniversaries, so the age above is
      the only one. */
  lemma AnniversaryCountUnique(birth: Date, today: Date, n: int, k: int)
    requires !Before(today, Anniversary(birth, n)) && Before(today, Anniversary(birth, n + 1))
    requires !Before(today, Anniversary(birth, k)) && Before(today, Anniversary(birth, k + 1))
    ensures n == k
  {
  }

  /** `age < 18`; `NaN < 18` is false. */
  predicate IsChild(age: Age)
  {
    age.Years? && age.n < 18
  }

  /** `settingType`. */
  datatype Setting = Institutional | Community

  /** The three panel colours. */
  datatype Status = Ok | Warning | Critical

  /** Which of the six findings the panel reports. */
  datatype Verdict =
    | CapaciousDeprivation
    | MMConflict
    | ChildDeprivation(age: int)
    | DoLSRequired
    | CourtOfProtection
    | NoDeprivation

  /** What the classification reads from the record. */
  datatype AcidTest = AcidTest(
    supervision: bool,
    freeToLeave: bool,
    lacksCapacity: bool,
    mhaSection: string,
    isRestricted: bool
  )

  function AcidTestOf(d: PatientDetails): AcidTest
  {
    AcidTest(d.flag[DolSupervision], d.flag[DolFreeToLeave], d.flag[DolCapacity],
             d.text[MhaSection], d.flag[IsRestricted])
  }

  /** The objective element (line 22). */
  predicate IsDeprived(t: AcidTest)
  {
    t.supervision && !t.freeToLeave
  }

  /** The if/else cascade of lines 43-74. */
  function Classify(t: AcidTest, age: Age, setting: Setting): (v: Verdict)
    ensures v == NoDeprivation <==> !IsDeprived(t)
    ensures v == CapaciousDeprivation <==> IsDeprived(t) && !t.lacksCapacity
    ensures v == MMConflict <==>
      IsDeprived(t) && t.lacksCapacity && (t.mhaSection == "CTO" || t.isRestricted)
    ensures v.ChildDeprivation? <==>
      IsDeprived(t) && t.lacksCapacity && !(t.mhaSection == "CTO" || t.isRestricted)
      && IsChild(age)
    ensures v.ChildDeprivation? ==> age == Years(v.age)
    ensures v == DoLSRequired <==>
      IsDeprived(t) && t.lacksCapacity && !(t.mhaSection == "CTO" || t.isRestricted)
      && !IsChild(age) && setting == Institutional
    ensures v == CourtOfProtection <==>
      IsDeprived(t) && t.lacksCapacity && !(t.mhaSection == "CTO" || t.isRestricted)
      && !IsChild(age) && setting == Community
  {
    if IsDeprived(t) then
      if !t.lacksCapacity then CapaciousDeprivation
      else if t.mhaSection == "CTO" || t.isRestricted then MMConflict
      else if IsChild(age) then ChildDeprivation(age.n)
      else match setting
        case Institutional => DoLSRequired
        case Community => CourtOfProtection
    else NoDeprivation
  }

  /** The panel's colour: only the capacious and the restriction findings are critical, and
      only the absence of a deprivation is 'ok'. */
  function StatusOf(v: Verdict): (r: Status)
    ensures r == Ok <==> v == NoDeprivation
    ensures r == Critical <==> v == CapaciousDeprivation || v == MMConflict
    ensures r == Warning <==> v.ChildDeprivation? || v == DoLSRequired || v == CourtOfProtection
  {
    match v
    case CapaciousDeprivation => Critical
    case MMConflict => Critical
    case ChildDeprivation(_) => Warning
    case DoLSRequired => Warning
    case CourtOfProtection => Warning
    case NoDeprivation => Ok
  }

  function Message(v: Verdict): string
  {
    match v
    case CapaciousDeprivation => "Unlawful Deprivation of Liberty (Capacious Patient)."
    case MMConflict => "CRITICAL LEGAL RISK: 'MM' / 'PJ' Conflict."
    case ChildDeprivation(age) => "Deprivation of Liberty (Child aged " + Text.IntToString(age) + ")."
    case DoLSRequired => "DoLS Authorisation Required."
    case CourtOfProtection => "Court of Protection Order Required."
    case NoDeprivation => "No Deprivation of Liberty identified."
  }

  function Recommendation(v: Verdict): string
  {
    match v
    case CapaciousDeprivation =>
      "A person with capacity cannot 'consent' to a deprivation of liberty in a way that avoids the need for a legal framework if the MHA is relevant (MM judgment). If they are not detained under the MHA, and you are exercising complete supervision and they are not free to leave, this is legally high-risk."
    case MMConflict =>
      "The Supreme Court (in MM & PJ) ruled that neither a CTO nor a Conditional Discharge can authorise a deprivation of liberty. You must seek Court of Protection authorisation immediately."
    case ChildDeprivation(_) =>
      "DoLS applies to adults (18+) only. Consider s.25 Children Act or Inherent Jurisdiction of the High Court."
    case DoLSRequired =>
      "Apply for a DoLS authorisation to the 'Supervisory Body' (the Local Authority). Ensure the 'Acid Test' findings are clearly documented in the application."
    case CourtOfProtection =>
      "DoLS cannot be used in community settings (e.g. supported living). You must apply to the Court of Protection (likely via the 'Re X' streamlined procedure) to authorise this deprivation."
    case NoDeprivation =>
      "Based on the current assessment, the objective 'Acid Test' is not met. Ensure the care plan remains the least restrictive option and monitor for changes in supervision or freedom."
  }

  /** What the panel shows. */
  datatype Panel = Panel(status: Status, message: string, recommendation: string)

  /** The panel for a record, the parsed date of birth, today's date and the setting. */
  function Check(d: PatientDetails, parsedDob: Option<Date>, today: Date, setting: Setting)
    : (p: Panel)
    ensures p.status == Ok <==> !(d.flag[DolSupervision] && !d.flag[DolFreeToLeave])
    ensures p.status == Critical ==> !d.flag[DolCapacity] || d.text[MhaSection] == "CTO"
                                     || d.flag[IsRestricted]
  {
    var v := Classify(AcidTestOf(d), GetAge(d.text[Dob], parsedDob, today), setting);
    Panel(StatusOf(v), Message(v), Recommendation(v))
  }

  /** Without the objective element the status is 'ok' whatever capacity, section, age and
      setting are. */
  lemma NotDeprivedIsOk(t: AcidTest, age: Age, setting: Setting)
    requires !IsDeprived(t)
    ensures StatusOf(Classify(t, age, setting)) == Ok
    ensures Message(Classify(t, age, setting)) == "No Deprivation of Liberty identified."
  {
  }

  /** Depriving a person who has capacity is critical regardless of section, age or
      setting. */
  lemma CapaciousIsCritical(t: AcidTest, age: Age, age2: Age, s: Setting, s2: Setting)
    requires IsDeprived(t) && !t.lacksCapacity
    ensures StatusOf(Classify(t, age, s)) == Critical
    ensures Classify(t, age, s) == Classify(t.(mhaSection := "CTO", isRestricted := true), age2, s2)
  {
  }

  /** A CTO or a restriction is critical and takes precedence over the child check. */
  lemma RestrictionPrecedesChild(t: AcidTest, n: int, setting: Setting)
    requires IsDeprived(t) && t.lacksCapacity && (t.mhaSection == "CTO" || t.isRestricted)
    requires n < 18
    ensures Classify(t, Years(n), setting) == MMConflict
    ensures StatusOf(Classify(t, Years(n), setting)) == Critical
  {
  }

  /** Otherwise a child gets the warning naming the age, whatever the setting. */
  lemma ChildIgnoresSetting(t: AcidTest, n: int)
    requires IsDeprived(t) && t.lacksCapacity && !(t.mhaSection == "CTO" || t.isRestricted)
    requires n < 18
    ensures Classify(t, Years(n), Institutional) == Classify(t, Years(n), Community)
    ensures StatusOf(Classify(t, Years(n), Community)) == Warning
    ensures Message(Classify(t, Years(n), Community))
            == "Deprivation of Liberty (Child aged " + Text.IntToString(n) + ")."
  {
  }

  /** An adult, or a patient whose age is `NaN` or whose date of birth is empty, gets the
      DoLS message in an institution and the Court of Protection message in the
      community. */
  lemma AdultBySetting(t: AcidTest, age: Age)
    requires IsDeprived(t) && t.lacksCapacity && !(t.mhaSection == "CTO" || t.isRestricted)
    requires !IsChild(age)
    ensures Message(Classify(t, age, Institutional)) == "DoLS Authorisation Required."
    ensures Message(Classify(t, age, Community)) == "Court of Protection Order Required."
    ensures StatusOf(Classify(t, age, Institutional)) == Warning
    ensures StatusOf(Classify(t, age, Community)) == Warning
  {
  }

  /** An empty date of birth counts as 18, so never as a child, whatever was parsed. */
  lemma EmptyDobIsAdult(parsed: Option<Date>, today: Date)
    ensures GetAge("", parsed, today) == Years(18)
    ensures !IsChild(GetAge("", parsed, today))
  {
  }

  // ---------------------------------------------------------------------------------------
  // Writes into the record.

  /** The capacity wizard's `onComplete` (lines 85-88): its verdict becomes `dolCapacity` and
      its rationale `mcaAssessmentRationale`; nothing else changes. */
  function CompleteCapacity(d: PatientDetails, lacks: bool, rationale: string)
    : (r: PatientDetails)
    ensures r.flag[DolCapacity] == lacks && r.text[McaAssessmentRationale] == rationale
    ensures forall g :: g != FlagOf(DolCapacity) && g != TextOf(McaAssessmentRationale) ==>
      Get(r, g) == Get(d, g)
  {
    var e := Update(d, FlagOf(DolCapacity), Flag(lacks));
    var r := Update(e, TextOf(McaAssessmentRationale), Text(rationale));
    assert Get(r, FlagOf(DolCapacity)) == Get(e, FlagOf(DolCapacity));
    r
  }

  /** After the structured assessment, a deprived patient whom the assessment found to have
      capacity is reported as critical; a failed functional test with an impairment switches
      the checker to the lack-of-capacity branches. */
  lemma WizardDrivesVerdict(d: PatientDetails, decision: string, f: CapacityWizard.Functional,
                            impairment: Option<bool>, age: Age, setting: Setting)
    requires d.flag[DolSupervision] && !d.flag[DolFreeToLeave]
    ensures var c := CapacityWizard.DetermineCapacity(decision, f, impairment);
            var e := CompleteCapacity(d, c.lacksCapacity, c.rationale);
            (Classify(AcidTestOf(e), age, setting) == CapaciousDeprivation
             <==> !(CapacityWizard.IsFunctionalFailure(f) && impairment == Some(true)))
  {
    var c := CapacityWizard.DetermineCapacity(decision, f, impairment);
    CompletedVerdict(d, c.lacksCapacity, c.rationale, age, setting);
  }

  /** After a completed assessment of a deprived patient, the checker reports the
      capacious-patient finding exactly when the assessment found capacity. */
  lemma CompletedVerdict(d: PatientDetails, lacks: bool, rationale: string, age: Age,
                         setting: Setting)
    requires d.flag[DolSupervision] && !d.flag[DolFreeToLeave]
    ensures var e := CompleteCapacity(d, lacks, rationale);
            Classify(AcidTestOf(e), age, setting) == CapaciousDeprivation <==> !lacks
  {
    var e := CompleteCapacity(d, lacks, rationale);
    assert Get(e, FlagOf(DolSupervision)) == Get(d, FlagOf(DolSupervision));
    assert Get(e, FlagOf(DolFreeToLeave)) == Get(d, FlagOf(DolFreeToLeave));
  }

  /** A switch of the checker (lines 108, 124, 146) flips its field. */
  function ToggleFlag(d: PatientDetails, b: FlagField): (r: PatientDetails)
    ensures r.flag[b] == !d.flag[b]
    ensures forall g :: g != FlagOf(b) ==> Get(r, g) == Get(d, g)
  {
    Update(d, FlagOf(b), Flag(!d.flag[b]))
  }

  /** Flipping a switch twice restores the record. */
  lemma ToggleTwice(d: PatientDetails, b: FlagField)
    ensures ToggleFlag(ToggleFlag(d, b), b) == d
  {
    var r := ToggleFlag(ToggleFlag(d, b), b);
    forall g ensures Get(r, g) == Get(d, g) {
      if g == FlagOf(b) {
        assert Get(r, g) == Flag(r.flag[b]);
      }
    }
    FieldsDetermineRecord(r, d);
  }

  /** The best-interests text area (line 168). */
  function EditBestInterests(d: PatientDetails, text: string): (r: PatientDetails)
    ensures r.text[BestInterestsRationale] == text
    ensures forall g :: g != TextOf(BestInterestsRationale) ==> Get(r, g) == Get(d, g)
  {
    Update(d, TextOf(BestInterestsRationale), Text(text))
  }

  /** The setting selector shows only when the adult community/institution choice can
      matter (line 174). */
  predicate ShowsSettingChoice(t: AcidTest, age: Age)
  {
    IsDeprived(t) && t.lacksCapacity && !t.isRestricted && !IsChild(age)
  }

  /** Whenever the setting changes the panel, the selector is on screen. */
  lemma SettingMattersOnlyWhenShown(t: AcidTest, age: Age)
    requires Classify(t, age, Institutional) != Classify(t, age, Community)
    ensures ShowsSettingChoice(t, age)
  {
  }
}
