/** The application shell (App.tsx): the store holding the patient record and the needs list,
    the save/load/reset actions over the browser's storage slot, and the progress bar. The
    storage slot is a field of the store; what `JSON.parse` recovers from it is an input of
    type `Stored`. */
module App {
  import opened Types
  import opened Seqs
  import SupportPlan

  /** What the storage slot yields on `loadWork`: nothing, text that does not parse, or a
      parsed object whose `patientDetails` and `needs` members may each be missing. */
  datatype Stored =
    | NothingStored
    | Corrupt
    | Parsed(details: Option<PatientDetails>, needs: Option<seq<NeedItem>>)

  /** The toast each action shows. */
  datatype Notice =
    | SavedNotice | SaveFailedNotice | LoadedNotice | LoadFailedNotice | NothingSavedNotice
    | ResetNotice

  datatype NoticeType = Success | Error | Info

  function NoticeTypeOf(n: Notice): NoticeType
  {
    match n
    case SavedNotice => Success
    case SaveFailedNotice => Error
    case LoadedNotice => Success
    case LoadFailedNotice => Error
    case NothingSavedNotice => Info
    case ResetNotice => Info
  }

  /** `loadWork` (lines 85-99) as a function of the current state: each member present in
      the parsed object replaces its part of the state, a missing member keeps it. */
  function Load(d: PatientDetails, needs: seq<NeedItem>, s: Stored)
    : (r: (PatientDetails, seq<NeedItem>, Notice))
    ensures !s.Parsed? ==> r.0 == d && r.1 == needs
    ensures s.Parsed? ==> r.2 == LoadedNotice
    ensures s == NothingStored ==> r.2 == NothingSavedNotice
    ensures s == Corrupt ==> r.2 == LoadFailedNotice
    ensures s.Parsed? && s.details.Some? ==> r.0 == s.details.value
    ensures s.Parsed? && s.details.None? ==> r.0 == d
    ensures s.Parsed? && s.needs.Some? ==> r.1 == s.needs.value
    ensures s.Parsed? && s.needs.None? ==> r.1 == needs
  {
    match s
    case NothingStored => (d, needs, NothingSavedNotice)
    case Corrupt => (d, needs, LoadFailedNotice)
    case Parsed(pd, pn) =>
      (if pd.Some? then pd.value else d, if pn.Some? then pn.value else needs, LoadedNotice)
  }

  /** What `saveWork` (lines 55-67) leaves in the slot. */
  function Save(d: PatientDetails, needs: seq<NeedItem>): Stored
  {
    Parsed(Some(d), Some(needs))
  }

  /** Loading what was saved restores the saved state, whatever was edited in between. */
  lemma LoadAfterSave(d: PatientDetails, needs: seq<NeedItem>, d2: PatientDetails,
                      needs2: seq<NeedItem>)
    ensures Load(d2, needs2, Save(d, needs)) == (d, needs, LoadedNotice)
  {
  }

  /** Loading twice from the same slot is the same as loading once. */
  lemma LoadIdempotent(d: PatientDetails, needs: seq<NeedItem>, s: Stored)
    ensures var r := Load(d, needs, s);
            Load(r.0, r.1, s) == r
  {
  }

  // ---------------------------------------------------------------------------------------
  // Progress (lines 110-123).

  /** The five steps of the progress bar, in order. */
  datatype ProgressStep = Demographics | Responsibility | Needs | Funding | Completion

  const ProgressSteps := [Demographics, Responsibility, Needs, Funding, Completion]

  predicate Met(step: ProgressStep, d: PatientDetails, needs: seq<NeedItem>)
  {
    match step
    case Demographics => d.text[Name] != [] && d.text[MhaSection] != []
    case Responsibility => d.text[ResponsibleLA] != [] && d.text[ResponsibleICB] != []
    case Needs => |needs| > 0
    case Funding => exists n :: n in needs && n.category == S117
    case Completion => d.text[CompletedBy] != []
  }

  /** The step test as the predicate the list filter applies. */
  function MetIn(d: PatientDetails, needs: seq<NeedItem>): ProgressStep -> bool
  {
    s => Met(s, d, needs)
  }

  /** Where a step sits in `ProgressSteps`. */
  function StepIndex(s: ProgressStep): (i: nat)
    ensures i < |ProgressSteps| && ProgressSteps[i] == s
  {
    match s
    case Demographics => 0
    case Responsibility => 1
    case Needs => 2
    case Funding => 3
    case Completion => 4
  }

  /** The number of met steps among `steps`. */
  function MetCount(steps: seq<ProgressStep>, d: PatientDetails, needs: seq<NeedItem>)
    : (k: nat)
    ensures k == Count(steps, MetIn(d, needs))
    ensures k <= |steps|
    ensures k == |steps| <==> forall i :: 0 <= i < |steps| ==> Met(steps[i], d, needs)
    ensures k == 0 <==> forall i :: 0 <= i < |steps| ==> !Met(steps[i], d, needs)
  {
    if steps == [] then 0
    else (if Met(steps[0], d, needs) then 1 else 0) + MetCount(steps[1..], d, needs)
  }

  /** `progress.percent`: (met / 5) * 100, which for each of the six possible counts is the
      integer `20 * met`: twenty points per met step. */
  function Percent(d: PatientDetails, needs: seq<NeedItem>): (p: nat)
    ensures p == 20 * Count(ProgressSteps, MetIn(d, needs))
    ensures 0 <= p <= 100 && p % 20 == 0
    ensures p == 100 <==> forall s: ProgressStep :: Met(s, d, needs)
    ensures p == 0 <==> forall s: ProgressStep :: !Met(s, d, needs)
  {
    var k := MetCount(ProgressSteps, d, needs);
    StepsCover(d, needs);
    TwentyDivides(k);
    20 * k
  }

  lemma TwentyDivides(k: nat)
    ensures (20 * k) % 20 == 0
  {
  }

  /** A property holds of every listed step exactly when it holds of every step. */
  lemma StepsCover(d: PatientDetails, needs: seq<NeedItem>)
    ensures (forall i :: 0 <= i < |ProgressSteps| ==> Met(ProgressSteps[i], d, needs))
            <==> forall s: ProgressStep :: Met(s, d, needs)
    ensures (forall i :: 0 <= i < |ProgressSteps| ==> !Met(ProgressSteps[i], d, needs))
            <==> forall s: ProgressStep :: !Met(s, d, needs)
  {
    if forall i :: 0 <= i < |ProgressSteps| ==> Met(ProgressSteps[i], d, needs) {
      forall s: ProgressStep ensures Met(s, d, needs) {
        assert ProgressSteps[StepIndex(s)] == s;
      }
    }
    if forall i :: 0 <= i < |ProgressSteps| ==> !Met(ProgressSteps[i], d, needs) {
      forall s: ProgressStep ensures !Met(s, d, needs) {
        assert ProgressSteps[StepIndex(s)] == s;
      }
    }
  }

  /** The Funding step can only be met once the Needs step is. */
  lemma FundingImpliesNeeds(d: PatientDetails, needs: seq<NeedItem>)
    ensures Met(Funding, d, needs) ==> Met(Needs, d, needs)
  {
  }

  /** The Funding step is met exactly when the support plan shows its s.117 evidence
      section. */
  lemma FundingMatchesPlan(d: PatientDetails, needs: seq<NeedItem>)
    ensures Met(Funding, d, needs) <==> SupportPlan.ShowsLimb2(needs)
  {
  }

  /** A fresh case has made no progress. */
  lemma FreshCaseHasNoProgress(today: string)
    ensures Percent(InitialPatientDetails(today), []) == 0
  {
    InitialTextBlank(today, Name);
    InitialTextBlank(today, ResponsibleLA);
    InitialTextBlank(today, CompletedBy);
  }

  // ---------------------------------------------------------------------------------------
  // The store.

  class Store {
    /** The day the module was loaded: `INITIAL_PATIENT_DETAILS.completionDate`. */
    const loadDate: string
    var patientDetails: PatientDetails
    var needs: seq<NeedItem>
    /** The browser's storage slot. */
    var storage: Stored
    var notice: Option<Notice>

    constructor (today: string, slot: Stored)
      ensures loadDate == today && patientDetails == InitialPatientDetails(today)
      ensures needs == [] && storage == slot && notice == None
    {
      loadDate := today;
      patientDetails := InitialPatientDetails(today);
      needs := [];
      storage := slot;
      notice := None;
    }

    /** `handleDetailsChange` (lines 51-53): field `f` takes `v`, every other field keeps
        its value. */
    method HandleDetailsChange(f: Field, v: Value)
      requires Fits(f, v)
      modifies this
      ensures Get(patientDetails, f) == v
      ensures forall g :: g != f ==> Get(patientDetails, g) == Get(old(patientDetails), g)
      ensures patientDetails == Update(old(patientDetails), f, v)
      ensures needs == old(needs) && storage == old(storage) && notice == old(notice)
    {
      patientDetails := Update(patientDetails, f, v);
    }

    /** `setNeeds`, which the needs form calls with its new list. */
    method SetNeeds(list: seq<NeedItem>)
      modifies this
      ensures needs == list
      ensures patientDetails == old(patientDetails) && storage == old(storage)
      ensures notice == old(notice)
    {
      needs := list;
    }

    /** `saveWork`; `writable` is false when the browser refuses the write. */
    method SaveWork(writable: bool)
      modifies this
      ensures writable ==> storage == Save(patientDetails, needs) && notice == Some(SavedNotice)
      ensures !writable ==> storage == old(storage) && notice == Some(SaveFailedNotice)
      ensures patientDetails == old(patientDetails) && needs == old(needs)
    {
      if writable {
        storage := Save(patientDetails, needs);
        notice := Some(SavedNotice);
      } else {
        notice := Some(SaveFailedNotice);
      }
    }

    /** `loadWork`. */
    method LoadWork()
      modifies this
      ensures notice.Some? && storage == old(storage)
      ensures (patientDetails, needs, notice.value)
              == Load(old(patientDetails), old(needs), storage)
    {
      var r := Load(patientDetails, needs, storage);
      patientDetails := r.0;
      needs := r.1;
      notice := Some(r.2);
    }

    /** `resetWork` (lines 101-107); `confirmed` is the answer to the confirmation
        dialog. */
    method ResetWork(confirmed: bool)
      modifies this
      ensures confirmed ==> patientDetails == InitialPatientDetails(loadDate) && needs == []
                            && notice == Some(ResetNotice)
      ensures !confirmed ==> patientDetails == old(patientDetails) && needs == old(needs)
                             && notice == old(notice)
      ensures storage == old(storage)
    {
      if confirmed {
        patientDetails := InitialPatientDetails(loadDate);
        needs := [];
        notice := Some(ResetNotice);
      }
    }

    /** The toast's close button, and the timer that clears it. */
    method DismissNotice()
      modifies this
      ensures notice == None
      ensures patientDetails == old(patientDetails) && needs == old(needs)
      ensures storage == old(storage)
    {
      notice := None;
    }
  }
}
