# Aftercare toolkit: a Dafny model of its decision logic

The aftercare toolkit is a browser application for practitioners planning a patient's after-care
under section 117 of the Mental Health Act 1983. Most of it is forms and static legal text.
Spread through its components are small decision procedures and list operations, and this
project models them in Dafny and proves what they promise:

- **Funding split.** Every need gets a severity score and goes into one of three category
  buckets. The s.117 bucket is shared between the NHS integrated care board (ICB) and the local
  authority (LA) by a slider from 0 to 100, and percentages are derived with a guard against
  a zero total. The buckets are built by a loop, proved against a specification function.
- **Needs form.** There is a validated add onto the insertion-ordered needs list (text required,
  and an s.117 need must pass both statutory tests), remove-by-id, and the Care Act outcome
  selections with toggle semantics. A loop builds the evidence-based description text.
- **Four wizards.**
  - The mental capacity test: the five functional stages, then the impairment (causative nexus)
    question.
  - The nearest-relative hierarchy.
  - The LA/ICB responsibility determination.
  - The deprivation-of-liberty checker, which includes the age calculation.

  Each wizard is a pure decision function plus a class holding the wizard's step and answers.
  The class's methods are the buttons, each guarded as the screen guards it.
- **Support plan.** Needs are grouped by domain in declared order and counted by category, each
  category is labelled with its funder, and the plan works out s.117 entitlement from the
  section table and decides which conditional sections to show.
- **Application store.** It covers single-field record updates, save, load-merge, confirmed
  reset, the five-step progress bar, the append-only rationale trail the wizards write, and the
  two advocacy triggers. Those triggers are the two referrals: an independent mental health
  advocate (IMHA) and an independent mental capacity advocate (IMCA).
- **Knowledge search.** This covers `slugify`, the case-insensitive page and section filter, the
  scenarios for a page with their quiz feedback, and the hub's item search.

The patient record is a datatype. Its text and flag fields are total maps from field-name
enumerations, and `Get`/`Update` express JavaScript's `{ ...d, [field]: value }`. Dates of
birth and today's date are integer triples. JavaScript numbers in the funding split are exact
`real`s.

Three behaviours of the code worth knowing:

- The LA wizard reports the Care Act authority as its `result`. The s.117 authority, always the
  area of residence before detention, appears only in the rationale. `LADetermine` exposes
  both.
- The LA form has no control for the self-funder and deferred-payment flags. Through the form, an
  out-of-area specified placement therefore always stays with the area of residence
  (`ResponsibilityWizard.Wizard.FinishLA`).
- Two nearest-relative buttons evaluate the determination before their own answer is visible.
  See "Findings".

## Model

| member | source | states |
|---|---|---|
| Types.AllDomainsEnumerates | types.ts:8-26 | the domain list holds every `NeedDomain` exactly once, in declared order |
| Types.Get | types.ts:30-106 | the value read from a field has the field's declared type |
| Types.Update | App.tsx:51-53 | the updated field holds the new value and every other field keeps its old value |
| Types.FieldsDetermineRecord | types.ts:30-106 | two records agreeing on every field are equal |
| Types.InitialPatientDetails | constants.ts:822-879 | the initial record has today's completion date, version "1.0", `isInitialPlan` and `dolFreeToLeave` set, confidence 70, no dispute, status Draft |
| Types.InitialTextBlank | constants.ts:822-879 | every other text field of the initial record is empty |
| Types.InitialFlagSet | constants.ts:822-879 | in the initial record a flag is set exactly when it is `isInitialPlan` or `dolFreeToLeave` |
| Types.IsSectionEligible | components/SupportPlan.tsx:27-28 | the entitlement test; `SupportPlan.EntitledIffEligibleEntry` states it over the table |
| Types.FindSectionIn | components/SupportPlan.tsx:27 | `find` returns the first entry carrying the code, or none exactly when no entry carries it |
| Types.FindSectionAt | constants.ts:4-18 | an entry whose code no earlier entry carries is what `find` returns for that code |
| FundingCalculator.Score | components/FundingCalculator.tsx:21-29 | every score lies between 1 and 3 |
| FundingCalculator.ScoreTable | components/FundingCalculator.tsx:21-29 | count mode scores every need 1; weighted mode scores High 3, Medium 2, Low 1 |
| FundingCalculator.BucketTotals | components/FundingCalculator.tsx:32-41 | the `forEach` loop leaves each accumulator equal to the bucket total of its category |
| FundingCalculator.SplitFromBuckets | components/FundingCalculator.tsx:43-59 | the scores keep the buckets, the ICB and LA scores are at least their own buckets and add up to the total of the three buckets; with a positive total each percentage is 100 times its own score over the total, the two add up to 100 and lie in [0,100]; with a zero total both are 0 |
| FundingCalculator.PercentagesOfTotal | components/FundingCalculator.tsx:54-55 | each of two non-negative parts of a positive total, as a percentage, times the total is 100 times the part; the two lie in [0,100] and add up to 100 |
| FundingCalculator.PortionsShare | components/FundingCalculator.tsx:43-44 | the ICB and LA portions are non-negative and add up to the s.117 score |
| FundingCalculator.ComputeSplit | components/FundingCalculator.tsx:31-60 | the memoised split is the split of the loop's bucket totals |
| FundingCalculator.BucketsPartitionTotal | components/FundingCalculator.tsx:36-41 | the three buckets add up to the sum of all scores |
| FundingCalculator.TotalAtLeastCount | components/FundingCalculator.tsx:36-41 | the sum of scores is at least the number of needs |
| FundingCalculator.TotalZeroIffNoNeeds | components/FundingCalculator.tsx:189 | the total is zero, and the chart hidden, exactly when there are no needs |
| FundingCalculator.CountModeCountsNeeds | components/FundingCalculator.tsx:22 | in count mode a bucket holds the number of needs of its category |
| FundingCalculator.SliderMonotone | components/FundingCalculator.tsx:43-47 | raising the slider never lowers the ICB score and never raises the LA score |
| FundingCalculator.ScoresFromPortions | components/FundingCalculator.tsx:46-47 | the ICB score is physical plus the ICB portion, and the LA score is Care Act plus the LA portion |
| FundingCalculator.PortionsMonotone | components/FundingCalculator.tsx:43-44 | a larger slider gives a larger ICB portion and a smaller LA portion |
| FundingCalculator.CategorySumAppend | components/FundingCalculator.tsx:36-41 | the bucket of a concatenation is the sum of the buckets of the parts |
| FundingCalculator.RemoveOne | components/FundingCalculator.tsx:36-41 | removing one need removes its contribution from the bucket and one copy from the multiset |
| FundingCalculator.CategorySumPermutation | components/FundingCalculator.tsx:36-41 | reordering the needs leaves every bucket unchanged |
| FundingCalculator.SplitOrderIndependent | components/FundingCalculator.tsx:31-60 | reordering the needs leaves the whole split unchanged |
| FundingCalculator.WorkedExampleBuckets | components/FundingCalculator.tsx:36-41 | for s.117 High, s.117 Low and Care Act Medium, the weighted buckets are 4, 2 and 0 |
| FundingCalculator.WorkedExample | components/FundingCalculator.tsx:43-55 | the same needs at slider 50 give ICB 2, LA 4, total 6, with percentages 100/3 and 200/3 |
| NeedsAssessment.CheckDraft | components/NeedsAssessment.tsx:33-56 | missing text is rejected exactly when the description or intervention is empty; the statutory-test rejection happens exactly for a complete s.117 draft lacking either test; an accepted item copies every draft field and carries the fresh id |
| NeedsAssessment.AppendFresh | components/NeedsAssessment.tsx:57 | appending an item with a fresh id keeps ids unique, grows the list by one and leaves the old items as a prefix |
| NeedsAssessment.RemoveNeed | components/NeedsAssessment.tsx:74-76 | an item is kept exactly when it was in the list and carries another id |
| NeedsAssessment.RemoveNeedProperties | components/NeedsAssessment.tsx:74-76 | no kept item carries the id, and the kept items keep their relative order |
| NeedsAssessment.RemoveAbsentId | components/NeedsAssessment.tsx:74-76 | removing an id that no item carries changes nothing |
| NeedsAssessment.RemoveUniqueId | components/NeedsAssessment.tsx:74-76 | with unique ids, removing one item's id shortens the list by exactly one |
| NeedsAssessment.SuggestionProvider | components/NeedsAssessment.tsx:83 | the provider is "NHS" exactly for physical health, "Local Authority" exactly for Care Act and "Joint Funding" exactly for s.117 |
| NeedsAssessment.SelectSuggestion | components/NeedsAssessment.tsx:78-85 | the suggestion sets description, intervention and provider, and every other draft field is kept |
| NeedsAssessment.Lookup | components/NeedsAssessment.tsx:94 | an outcome is unselected exactly when no selection has it as its key, and a found reason belongs to a selection of that outcome |
| NeedsAssessment.LookupUnique | components/NeedsAssessment.tsx:94 | with distinct keys, the lookup of a selection's outcome gives its reason |
| NeedsAssessment.LookupAppend | components/NeedsAssessment.tsx:97 | adding a new key is found for that key and changes no other lookup |
| NeedsAssessment.LookupDelete | components/NeedsAssessment.tsx:95 | after `delete` the deleted key is absent and every other lookup is unchanged |
| NeedsAssessment.DeleteKeepsUnique | components/NeedsAssessment.tsx:93-95 | deleting keeps keys distinct |
| NeedsAssessment.DeleteIsSubsequence | components/NeedsAssessment.tsx:93-95 | deleting keeps the other selections in their order |
| NeedsAssessment.ToggleProperties | components/NeedsAssessment.tsx:92-100 | toggling keeps keys distinct, removes a selected outcome, adds an unselected one with the first criterion, and leaves other outcomes alone |
| NeedsAssessment.ToggleTwiceRestores | components/NeedsAssessment.tsx:92-100 | ticking and unticking an outcome restores the selections exactly |
| NeedsAssessment.SetReasonProperties | components/NeedsAssessment.tsx:102-104 | setting a reason keeps keys distinct, makes the outcome map to the reason, and leaves other outcomes alone |
| NeedsAssessment.ReplaceReason | components/NeedsAssessment.tsx:102-104 | the same for an outcome already selected, whose entry is rewritten in place |
| NeedsAssessment.AppendReason | components/NeedsAssessment.tsx:102-104 | the same for an outcome not selected, which gets a new entry |
| NeedsAssessment.GenerateCareActDescription | components/NeedsAssessment.tsx:116-128 | there is no description exactly when nothing is selected; otherwise the loop's text, trimmed, is the header, one numbered line per selection in order, and the impact note if confirmed |
| NeedsAssessment.DescriptionOpensWithCount | components/NeedsAssessment.tsx:120 | the description opens with the line counting the outcomes |
| NeedsAssessment.ImpactDescriptionUntrimmed | components/NeedsAssessment.tsx:124-127 | with impact confirmed, trimming removes nothing and the text ends with the wellbeing note |
| NeedsAssessment.EnabledBuildConfirmsImpact | components/NeedsAssessment.tsx:314 | a build the button allows has selections and ends with the wellbeing note |
| NeedsAssessment.NeedsForm.constructor | components/NeedsAssessment.tsx:15-29 | the form starts with the blank draft, no selections, impact unticked, on the category step |
| NeedsAssessment.NeedsForm.AddNeed | components/NeedsAssessment.tsx:32-72 | a rejected draft changes nothing; an accepted one appends the item, resets the draft, clears the selections and impact, and returns the wizard to the category step |
| NeedsAssessment.NeedsForm.Remove | components/NeedsAssessment.tsx:74-76 | the list becomes `RemoveNeed` of the old list and nothing else changes |
| NeedsAssessment.NeedsForm.ChooseSuggestion | components/NeedsAssessment.tsx:78-85 | the draft becomes `SelectSuggestion` of the old draft and nothing else changes |
| NeedsAssessment.NeedsForm.ChooseCategory | components/NeedsAssessment.tsx:87-90 | the draft takes the category and the wizard moves to the details step |
| NeedsAssessment.NeedsForm.BackToCategory | components/NeedsAssessment.tsx:208 | the wizard returns to the category step and nothing else changes |
| NeedsAssessment.NeedsForm.ToggleOutcome | components/NeedsAssessment.tsx:92-100 | the selections become `Toggle` of the old ones and stay key-unique |
| NeedsAssessment.NeedsForm.UpdateOutcomeReason | components/NeedsAssessment.tsx:102-104 | the selections become `SetReason` of the old ones and stay key-unique |
| NeedsAssessment.NeedsForm.SetSignificantImpact | components/NeedsAssessment.tsx:311 | only the impact box changes |
| NeedsAssessment.BuildEnabled | components/NeedsAssessment.tsx:314 | the button's enable condition; what it guarantees is stated by `EnabledBuildConfirmsImpact` |
| NeedsAssessment.NeedsForm.BuildDescription | components/NeedsAssessment.tsx:314 | enabled only as the button is; the draft's description becomes the trimmed generated text, which ends with the wellbeing note, and nothing else changes |
| CapacityWizard.IsFunctionalFailure | components/CapacityWizard.tsx:26-31 | a failure exactly when some stage is answered No |
| CapacityWizard.SetStage | components/CapacityWizard.tsx:116-145 | the answered stage holds the answer and every other stage keeps its own |
| CapacityWizard.FindingsOpening | components/CapacityWizard.tsx:46-57 | the findings open with the impairment heading exactly after a functional failure |
| CapacityWizard.DetermineCapacity | components/CapacityWizard.tsx:33-34 | capacity is lacking exactly when some stage failed and impairment is Yes |
| CapacityWizard.RationaleOpening | components/CapacityWizard.tsx:36-48 | the rationale opens with the preamble, and the impairment section follows it exactly after a functional failure |
| CapacityWizard.FindingsClosing | components/CapacityWizard.tsx:50-57 | the rationale ends with the conclusion for its branch |
| CapacityWizard.ConclusionMatchesResult | components/CapacityWizard.tsx:50-57 | the rationale ends with the lacks-capacity sentence exactly when capacity is lacking, with the nexus-not-met sentence exactly after a failure without impairment Yes, and with the presumption sentence exactly when every stage was met |
| CapacityWizard.ConclusionsDiffer | components/CapacityWizard.tsx:51-56 | no text ends with two of the three conclusions |
| CapacityWizard.CapacityUnlessNexus | components/CapacityWizard.tsx:50-56 | with every stage met, or impairment answered No, the person has capacity |
| CapacityWizard.NextFromFunctional | components/CapacityWizard.tsx:62-68 | a functional failure moves to step 3 with nothing reported; otherwise the wizard concludes at once with capacity |
| CapacityWizard.AllYesConcludesAtOnce | components/CapacityWizard.tsx:62-67 | five Yes answers never reach step 3 |
| CapacityWizard.Wizard.constructor | components/CapacityWizard.tsx:11-22 | the wizard starts on step 1 with the default decision and no answers |
| CapacityWizard.Wizard.EditDecision | components/CapacityWizard.tsx:93 | only the decision text changes |
| CapacityWizard.Wizard.StartFunctionalTest | components/CapacityWizard.tsx:96 | step 1 moves to step 2 |
| CapacityWizard.Wizard.Answer | components/CapacityWizard.tsx:116-145 | only the answered stage changes |
| CapacityWizard.Wizard.NextFromFunctionalTest | components/CapacityWizard.tsx:151-152 | enabled only with all five stages answered; the step and outcome become `NextFromFunctional` |
| CapacityWizard.Wizard.AnswerImpairment | components/CapacityWizard.tsx:171-177 | only the impairment answer changes |
| CapacityWizard.Wizard.Conclude | components/CapacityWizard.tsx:185-186 | enabled only once impairment is answered; reports `DetermineCapacity` of the answers |
| CapacityWizard.Wizard.Cancel | components/CapacityWizard.tsx:196 | the wizard reports cancellation and keeps its answers |
| NearestRelativeWizard.DetermineKind | components/NearestRelativeWizard.tsx:24-78 | the reported branch's condition holds |
| NearestRelativeWizard.FirstApplicableBranch | components/NearestRelativeWizard.tsx:24-78 | no branch tested earlier applies |
| NearestRelativeWizard.SpouseTakesPrecedence | components/NearestRelativeWizard.tsx:30-35 | an eligible spouse or partner is chosen whatever else was answered |
| NearestRelativeWizard.CaringDisplacesHierarchy | components/NearestRelativeWizard.tsx:40-51 | without one, a caring relative is chosen whatever the hierarchy answers are |
| NearestRelativeWizard.FallbackIffNoneApplies | components/NearestRelativeWizard.tsx:75-77 | the fallback is reported exactly when no other branch applies |
| NearestRelativeWizard.UnaskedIsNone | components/NearestRelativeWizard.tsx:40 | an unanswered caring question behaves like 'none' |
| NearestRelativeWizard.ResultTextInjective | components/NearestRelativeWizard.tsx:31-75 | different branches report different results |
| NearestRelativeWizard.DetermineNR | components/NearestRelativeWizard.tsx:24-82 | one determination, carrying the result and rationale of the first applicable branch |
| NearestRelativeWizard.StaleAnswersGiveFallback | components/NearestRelativeWizard.tsx:110 | on every answer set that can stand before step 2 or step 3, the determination is the fallback |
| NearestRelativeWizard.Wizard.constructor | components/NearestRelativeWizard.tsx:11-19 | the wizard starts on step 1 with no answers |
| NearestRelativeWizard.Wizard.AnswerPartner | components/NearestRelativeWizard.tsx:99-100 | Yes moves to step 2 and No to step 3 |
| NearestRelativeWizard.Wizard.PartnerIneligible | components/NearestRelativeWizard.tsx:111 | step 2 No moves to step 3 |
| NearestRelativeWizard.Wizard.PartnerEligibleAsWritten | components/NearestRelativeWizard.tsx:110 | as written, the determination is made on the answers before the click, which is always the fallback |
| NearestRelativeWizard.Wizard.PartnerEligible | components/NearestRelativeWizard.tsx:110 | evaluated on the answers including the click, the spouse is reported |
| NearestRelativeWizard.Wizard.NoCaringRelative | components/NearestRelativeWizard.tsx:129 | step 3 'none' moves to step 4 |
| NearestRelativeWizard.Wizard.CaringRelativeAsWritten | components/NearestRelativeWizard.tsx:125-128 | as written, the determination is made on the answers before the click, which is always the fallback |
| NearestRelativeWizard.Wizard.CaringRelative | components/NearestRelativeWizard.tsx:125-128 | evaluated on the answers including the click, a caring relative is reported |
| NearestRelativeWizard.Wizard.Tick | components/NearestRelativeWizard.tsx:141-149 | a checkbox sets only its own answer |
| NearestRelativeWizard.Wizard.Determine | components/NearestRelativeWizard.tsx:154 | step 4 reports a hierarchy branch or the fallback, never the spouse or a caring relative |
| NearestRelativeWizard.Wizard.Cancel | components/NearestRelativeWizard.tsx:162 | the wizard reports cancellation and keeps its answers |
| ResponsibilityWizard.OrElse | components/ResponsibilityWizard.tsx:59 | `x \|\| fallback` is `x` unless `x` is empty |
| ResponsibilityWizard.ICBReport | components/ResponsibilityWizard.tsx:34-40 | the result is the GP's ICB and the rationale opens with its heading and reasoning |
| ResponsibilityWizard.ICBRedetentionOnlyAddsNote | components/ResponsibilityWizard.tsx:38-40 | the re-detention answer leaves the result alone and only appends the note; unanswered reads as No |
| ResponsibilityWizard.CareActAuthority | components/ResponsibilityWizard.tsx:53-72 | the result is always the residence, the target area or 'Host Authority' |
| ResponsibilityWizard.LADetermine | components/ResponsibilityWizard.tsx:43-72 | the s.117 authority is the residence; the rationale opens with the re-detention heading exactly on re-detention, names the residence as s.117 authority before the Care Act line, and ends with the Care Act line |
| ResponsibilityWizard.LARationaleShape | components/ResponsibilityWizard.tsx:43-72 | where the re-detention block, the s.117 line and the Care Act line sit in the rationale |
| ResponsibilityWizard.RedetentionBlockHeading | components/ResponsibilityWizard.tsx:44-46 | the re-detention block opens with its heading |
| ResponsibilityWizard.ResidenceKeepsCareAct | components/ResponsibilityWizard.tsx:53-55 | a looked-after child, or a patient not moving out of area, keeps both duties with the residence |
| ResponsibilityWizard.SpecifiedPlacement | components/ResponsibilityWizard.tsx:57-64 | a specified placement out of area goes to the target (or 'Host Authority') only for a self-funder without a deferred payment agreement, otherwise stays with the residence |
| ResponsibilityWizard.OtherPlacementOutOfArea | components/ResponsibilityWizard.tsx:65-67 | any other placement out of area goes to the target, or 'Host Authority' |
| ResponsibilityWizard.S117AuthorityFixed | components/ResponsibilityWizard.tsx:49 | the s.117 authority depends on the residence alone |
| ResponsibilityWizard.GenerateResult | components/ResponsibilityWizard.tsx:30-76 | the ICB wizard reports the ICB report; the LA wizard reports the Care Act authority with the LA rationale |
| ResponsibilityWizard.Wizard.constructor | components/ResponsibilityWizard.tsx:13-28 | the wizard starts on step 1 with every field at its initial value |
| ResponsibilityWizard.Wizard.AnswerRedetention | components/ResponsibilityWizard.tsx:111-112 | either answer moves to step 2 |
| ResponsibilityWizard.Wizard.EnterArea | components/ResponsibilityWizard.tsx:131 | step 2 text goes to the GP field (ICB) or the residence (LA) |
| ResponsibilityWizard.Wizard.Back | components/ResponsibilityWizard.tsx:134 | Back goes from step 3 to 2 and from step 2 to 1, keeping every answer |
| ResponsibilityWizard.Wizard.FinishICB | components/ResponsibilityWizard.tsx:135 | enabled only with a GP entered; reports the ICB report, whose result is the GP's ICB |
| ResponsibilityWizard.Wizard.NextToPlacement | components/ResponsibilityWizard.tsx:158 | enabled only with a residence; moves to step 3 |
| ResponsibilityWizard.Wizard.SetLookedAfterChild | components/ResponsibilityWizard.tsx:176 | only the looked-after flag changes |
| ResponsibilityWizard.Wizard.SetOutOfArea | components/ResponsibilityWizard.tsx:184 | only the out-of-area flag changes |
| ResponsibilityWizard.Wizard.SetTarget | components/ResponsibilityWizard.tsx:190 | only the target area changes |
| ResponsibilityWizard.Wizard.ChoosePlacement | components/ResponsibilityWizard.tsx:193-197 | the radio sets a specified or independent placement |
| ResponsibilityWizard.Wizard.FinishLA | components/ResponsibilityWizard.tsx:209 | reports the LA determination, whose result is the Care Act authority; with no self-funder control, a specified out-of-area placement stays with the residence |
| ResponsibilityWizard.Wizard.Cancel | components/ResponsibilityWizard.tsx:216 | the wizard reports cancellation and keeps its answers |
| DoLChecker.GetAge | components/DoLChecker.tsx:24-34 | 18 for an empty date of birth, `NaN` exactly for one that does not parse, otherwise the number of birthdays reached: that anniversary is not after today and the next one is |
| DoLChecker.AgeCountsAnniversaries | components/DoLChecker.tsx:24-34 | for a non-empty date of birth the age is the number of birthdays reached: that anniversary is not after today and the next one is |
| DoLChecker.AnniversaryCountUnique | components/DoLChecker.tsx:28-32 | only one number of years lies between consecutive anniversaries |
| DoLChecker.EmptyDobIsAdult | components/DoLChecker.tsx:25 | an empty date of birth gives 18, never a child |
| DoLChecker.IsDeprived | components/DoLChecker.tsx:22 | the acid test's objective element; `NotDeprivedIsOk` states that without it the panel is 'ok' |
| DoLChecker.StatusOf | components/DoLChecker.tsx:44-74 | 'ok' exactly for no deprivation, 'critical' exactly for the capacious and restriction findings, 'warning' exactly for the other three |
| DoLChecker.Classify | components/DoLChecker.tsx:43-74 | each of the six findings holds exactly under its own conditions, and the child finding carries the age |
| DoLChecker.Check | components/DoLChecker.tsx:17-22 | the status is 'ok' exactly without supervision-and-not-free-to-leave; 'critical' needs capacity, a CTO or a restriction |
| DoLChecker.NotDeprivedIsOk | components/DoLChecker.tsx:70-74 | without deprivation the status is 'ok' whatever the other inputs |
| DoLChecker.CapaciousIsCritical | components/DoLChecker.tsx:44-48 | depriving a person with capacity is critical regardless of section, age or setting |
| DoLChecker.RestrictionPrecedesChild | components/DoLChecker.tsx:51-54 | a CTO or a restriction is critical and comes before the child check |
| DoLChecker.ChildIgnoresSetting | components/DoLChecker.tsx:55-58 | otherwise a child gets the warning naming the age, whatever the setting |
| DoLChecker.AdultBySetting | components/DoLChecker.tsx:59-67 | otherwise an adult gets the DoLS message in an institution and the Court of Protection message in the community |
| DoLChecker.CompleteCapacity | components/DoLChecker.tsx:85-88 | the wizard's verdict goes to `dolCapacity`, its rationale to `mcaAssessmentRationale`, and nothing else changes |
| DoLChecker.WizardDrivesVerdict | components/DoLChecker.tsx:85-88 | after the assessment, a deprived patient gets the capacious-patient finding exactly when the capacity test did not find both a failure and an impairment |
| DoLChecker.CompletedVerdict | components/DoLChecker.tsx:43-48 | after a completed assessment of a deprived patient, the capacious-patient finding appears exactly when capacity was found |
| DoLChecker.ToggleFlag | components/DoLChecker.tsx:108 | a switch flips its own flag and nothing else |
| DoLChecker.ToggleTwice | components/DoLChecker.tsx:124 | flipping a switch twice restores the record |
| DoLChecker.EditBestInterests | components/DoLChecker.tsx:168 | only the best-interests text changes |
| DoLChecker.SettingMattersOnlyWhenShown | components/DoLChecker.tsx:174 | whenever the setting changes the finding, the setting selector is shown |
| SupportPlan.FundingSource | components/SupportPlan.tsx:15-19 | "ICB (NHS)" exactly for physical health, "Local Authority" exactly for Care Act, "Joint (ICB & LA)" exactly for s.117 |
| SupportPlan.FundingSourceInjective | components/SupportPlan.tsx:15-19 | different categories get different funders |
| SupportPlan.GroupedNeeds | components/SupportPlan.tsx:21-24 | every domain has a group, each group keeps list order, and a need is in a group exactly when it has that domain |
| SupportPlan.EachNeedInOwnGroup | components/SupportPlan.tsx:21-24 | a need lies in its own domain's group and in no other |
| SupportPlan.GroupsPartitionNeeds | components/SupportPlan.tsx:21-24 | the group sizes add up to the number of needs |
| SupportPlan.DomainsWithNeeds | components/SupportPlan.tsx:26 | exactly the domains with a need, in declared order |
| SupportPlan.NoDomainsIffNoNeeds | components/SupportPlan.tsx:26 | no domain is listed exactly when there are no needs |
| SupportPlan.CategoryCountsSum | components/SupportPlan.tsx:29-31 | the three category counts add up to the number of needs |
| SupportPlan.SectionCodesUnique | constants.ts:4-18 | no two entries of the section table share a code |
| SupportPlan.EntitledIffEligibleEntry | components/SupportPlan.tsx:27-28 | entitled exactly when some table entry carries the code and is eligible |
| SupportPlan.SectionEntriesNonEmpty | constants.ts:4-18 | every entry has a non-empty code and label |
| SupportPlan.EmptySectionNotEntitled | components/SupportPlan.tsx:28 | an empty section is not entitled |
| SupportPlan.SectionLabel | components/SupportPlan.tsx:97 | the label of the table entry, or "Unknown" for an unknown code |
| SupportPlan.Limb2Text | components/SupportPlan.tsx:147 | empty evidence shows the warning, otherwise the evidence |
| SupportPlan.Limb2IffS117Counted | components/SupportPlan.tsx:139 | the statutory-purpose section shows exactly when the s.117 count is positive |
| SupportPlan.DoLRowMatchesChecker | components/SupportPlan.tsx:125 | the deprivation row shows exactly when the checker's status is not 'ok' |
| SupportPlan.CapacityFindings | components/SupportPlan.tsx:117-123 | the recorded rationale when there is one, otherwise the lacking or presumed sentence by the capacity flag |
| PatientForm.AppendEntry | components/PatientForm.tsx:32-36 | the old text is a prefix and the entry a suffix, with the two-character separator only after non-empty text |
| PatientForm.HeadersDiffer | components/PatientForm.tsx:34 | the ICB and LA headings differ |
| PatientForm.WizardComplete | components/PatientForm.tsx:25-38 | the result goes to the wizard's own field, the rationale is appended under its heading, the old rationale stays a prefix, and nothing else changes |
| PatientForm.WizardWritesOnlyOwnBody | components/PatientForm.tsx:26-30 | an ICB result leaves the LA field alone, and the reverse |
| PatientForm.BothWizardsAccumulate | components/PatientForm.tsx:25-38 | running both wizards fills both fields and keeps the first entry before the second |
| PatientForm.ICBWizardRecordsGP | components/PatientForm.tsx:27 | the ICB wizard's completion records the GP's ICB |
| PatientForm.NRComplete | components/PatientForm.tsx:40-46 | the result becomes `nearestRelative`, the rationale is appended to `familyComments` keeping the old text as a prefix, and nothing else changes |
| PatientForm.NRWizardRecordsDetermination | components/PatientForm.tsx:41 | the recorded nearest relative is the first applicable branch's result |
| PatientForm.ImhaRequired | components/PatientForm.tsx:66 | the IMHA trigger; `EntitlementNeedsImha`, `ImhaWithoutEntitlement` and `ExemptSectionsIneligible` state how it relates to entitlement |
| PatientForm.ImcaRequired | components/PatientForm.tsx:67 | the IMCA trigger; `ImcaIffIncapacitatedDeprivation` ties it to the checker |
| PatientForm.EntitlementNeedsImha | components/PatientForm.tsx:66 | every s.117-entitled section also calls for an IMHA |
| PatientForm.ImhaWithoutEntitlement | components/PatientForm.tsx:66 | section 2 calls for an IMHA without entitlement |
| PatientForm.ExemptSectionsIneligible | components/PatientForm.tsx:66 | the three IMHA-exempt sections carry no entitlement |
| PatientForm.InformalIneligible | constants.ts:16 | informal admission carries no entitlement |
| PatientForm.PolicePowersIneligible | constants.ts:15 | s135/136 carries no entitlement |
| PatientForm.HoldingPowerIneligible | constants.ts:8 | s5(2) carries no entitlement |
| PatientForm.ImcaIffIncapacitatedDeprivation | components/PatientForm.tsx:67 | an IMCA is required exactly when the checker sees a deprivation of a person lacking capacity, that is when it reports neither 'ok' nor the capacious finding |
| PatientForm.Toggled | components/PatientForm.tsx:48-50 | the section opens exactly when it was not open, and otherwise all close |
| PatientForm.Form.constructor | components/PatientForm.tsx:15-17 | no wizard open and the demographics section active |
| PatientForm.Form.ToggleSection | components/PatientForm.tsx:48-50 | the active section becomes `Toggled` of the old one |
| PatientForm.Form.OpenWizard | components/PatientForm.tsx:256 | the chosen wizard opens |
| PatientForm.Form.CancelWizard | components/PatientForm.tsx:107 | the wizard closes |
| PatientForm.Form.CompleteWizard | components/PatientForm.tsx:25-38 | the record becomes `WizardComplete` for the open wizard, and the wizard closes |
| PatientForm.Form.OpenNRWizard | components/PatientForm.tsx:307 | the nearest relative wizard opens |
| PatientForm.Form.CancelNRWizard | components/PatientForm.tsx:114 | the nearest relative wizard closes |
| PatientForm.Form.CompleteNRWizard | components/PatientForm.tsx:40-46 | the record becomes `NRComplete`, and the wizard closes |
| App.Load | App.tsx:85-99 | nothing or corrupt data changes no state; a parsed member replaces its part and a missing one keeps it; the notice matches the case |
| App.LoadAfterSave | App.tsx:55-99 | loading what was saved restores it, whatever was edited in between |
| App.LoadIdempotent | App.tsx:85-99 | loading twice is loading once |
| App.StepIndex | App.tsx:111-117 | every progress step has its place in the list |
| App.Met | App.tsx:112-116 | the five step conditions; their consequences are stated by `Percent`, `FundingImpliesNeeds` and `FundingMatchesPlan` |
| App.MetCount | App.tsx:118 | the count is the number of listed steps the filter keeps as met; it is at most the number of steps, full exactly when all are met and zero exactly when none is |
| App.Percent | App.tsx:119-121 | the percent is 20 times the number of met steps, so a multiple of 20 in [0,100], 100 exactly when every step is met and 0 exactly when none is |
| App.StepsCover | App.tsx:111-117 | the list covers every step |
| App.FundingImpliesNeeds | App.tsx:114-115 | the Funding step is met only when the Needs step is |
| App.FundingMatchesPlan | App.tsx:115 | the Funding step is met exactly when the plan shows its s.117 evidence section |
| App.FreshCaseHasNoProgress | App.tsx:110-123 | the initial record with no needs makes 0% progress |
| App.Store.constructor | App.tsx:24-26 | the store starts with the initial record, no needs and no notice |
| App.Store.HandleDetailsChange | App.tsx:51-53 | field `f` takes the value, every other field is kept, and nothing else changes |
| App.Store.SetNeeds | App.tsx:25 | only the needs list changes |
| App.Store.SaveWork | App.tsx:55-67 | a writable slot receives the state with the saved notice; otherwise the slot is kept and the failure notice shows |
| App.Store.LoadWork | App.tsx:85-99 | the state and notice become `Load` of the old state and the slot |
| App.Store.ResetWork | App.tsx:101-107 | a confirmed reset restores the initial record and empty needs with the reset notice; otherwise nothing changes |
| App.Store.DismissNotice | App.tsx:141 | the notice clears and nothing else changes |
| KnowledgePages.Slugify | components/KnowledgePages.tsx:9-10 | `slugify`; `SlugifyIsSlug`, `SlugFixedPoint` and `SlugifyIdempotent` state its shape and idempotence |
| KnowledgePages.Dashify | components/KnowledgePages.tsx:10 | the output holds only `[a-z0-9]` and '-' |
| KnowledgePages.DashifyNoDoubleDash | components/KnowledgePages.tsx:10 | a run of other characters never yields two adjacent dashes |
| KnowledgePages.SlugifyIsSlug | components/KnowledgePages.tsx:9-10 | a slug has only `[a-z0-9-]`, no "--" and no dash at either end |
| KnowledgePages.DashifyKeepsSlug | components/KnowledgePages.tsx:10 | the replacement leaves a text of slug shape unchanged |
| KnowledgePages.SlugFixedPoint | components/KnowledgePages.tsx:9-10 | a slug is its own slug |
| KnowledgePages.SlugifyIdempotent | components/KnowledgePages.tsx:9-10 | applying `slugify` twice is applying it once |
| KnowledgePages.Restrict | components/KnowledgePages.tsx:15-23 | the page keeps id, title and summary, and its sections become exactly the matching ones, in order |
| KnowledgePages.RestrictAll | components/KnowledgePages.tsx:15-23 | every page is restricted, in order |
| KnowledgePages.FilteredPages | components/KnowledgePages.tsx:12-25 | a blank query returns the pages unchanged; otherwise every kept page has a section |
| KnowledgePages.BlankQueryShowsAllPages | components/KnowledgePages.tsx:13 | a whitespace-only query returns every page |
| KnowledgePages.PageSearchResults | components/KnowledgePages.tsx:14-24 | every kept section matches the lowercased query, every kept page has a section, the kept pages are restrictions of the originals in order, and every matching section is shown under its own page |
| KnowledgePages.MatchingSectionShown | components/KnowledgePages.tsx:14-24 | a section matching the lowercased query is shown, under a kept page with its page's id |
| KnowledgePages.FindPage | components/KnowledgePages.tsx:27 | a found page is in the list with that id, and none is found exactly when no page has the id |
| KnowledgePages.ScenariosFor | components/KnowledgePages.tsx:28-30 | the scenarios keep bank order, and a scenario is listed exactly when the tab is a page and its tags include it |
| KnowledgePages.HubHasNoScenarios | components/KnowledgePages.tsx:7 | the hub tab lists no scenarios |
| KnowledgePages.Feedback | components/KnowledgePages.tsx:242-244 | feedback shows exactly when the scenario has a correct index and an answer is stored, and "Correct" exactly when they are equal |
| KnowledgePages.ChoiceAffectsOnlyItsScenario | components/KnowledgePages.tsx:236 | choosing an answer decides its own scenario's feedback and leaves the others unchanged |
| KnowledgePages.View.constructor | components/KnowledgePages.tsx:5-7 | empty query, no answers, the hub tab |
| KnowledgePages.View.SetQuery | components/KnowledgePages.tsx:66 | only the query changes |
| KnowledgePages.View.SelectTab | components/KnowledgePages.tsx:55 | only the tab changes |
| KnowledgePages.View.Choose | components/KnowledgePages.tsx:236 | only the scenario's own answer changes |
| KnowledgeHub.Narrow | components/KnowledgeHub.tsx:23-25 | the section keeps id and title, and its items become exactly the matching ones, in order |
| KnowledgeHub.NarrowAll | components/KnowledgeHub.tsx:23-25 | every section is narrowed, in order |
| KnowledgeHub.Filtered | components/KnowledgeHub.tsx:15-27 | a blank query returns the catalogue; otherwise every shown section has an item |
| KnowledgeHub.BlankQueryShowsAll | components/KnowledgeHub.tsx:16-18 | a whitespace-only query shows the whole catalogue |
| KnowledgeHub.SearchResults | components/KnowledgeHub.tsx:19-26 | every shown item matches the lowercased query, every shown section has an item, and the sections shown are narrowings in catalogue order |
| KnowledgeHub.MatchingItemShown | components/KnowledgeHub.tsx:19-26 | a matching item is shown, in its own section |
| KnowledgeHub.SearchNeverGrows | components/KnowledgeHub.tsx:23-26 | the search never shows more items than the catalogue holds |
| KnowledgeHub.NarrowedTotal | components/KnowledgeHub.tsx:23-25 | narrowing never adds items |
| KnowledgeHub.DroppingKeepsTotal | components/KnowledgeHub.tsx:26 | dropping empty sections removes no item |

## Left out

- Browser storage, `JSON.parse`/`JSON.stringify`, the `savedAt` time stamp and its display, and the JSON export download. The store's `storage` field holds what loading would recover.
- `window.confirm` and `alert`. The confirmation is a parameter of `ResetWork`, and each alert of the add button is an `AddOutcome` rejection.
- Clipboard copying and the print button.
- The notification timer. `DismissNotice` stands for both the timer and the close button.
- The online/offline listeners, the tab and mobile-preview state of the shell, and `Header.tsx`.
- `PlanCompletion.tsx`, which only wires fields to the checker and is not part of this model.
- All rendering: layout, icons, the pie chart, and the display rounding with `toFixed(1)`.
- JavaScript's floating-point numbers: percentages are exact reals.
- JavaScript `Date` parsing and time zones. The parsed date of birth and today's date are inputs of `GetAge`, and the completion date is a parameter of `InitialPatientDetails`.
- `crypto.randomUUID`: the fresh id is a parameter, and a precondition requires it to be fresh.
- Unicode case mapping: lowercasing is modelled on ASCII letters only.
- The URL parser in the hub's `getDomain`.
- The static content. Knowledge pages, hub sections, the scenario bank and the suggestion lists are parameters. Of the "unable to achieve" criteria, only the first is used (a newly ticked outcome gets it).
- Editing the draft need's own fields, the suggestions panel visibility and the domain help toggle of the needs form.
- Types.InitialPatientDetails: its contract names the fields that are not blank. That the other text fields are empty and the other flags clear is stated field by field, by `InitialTextBlank` and `InitialFlagSet`.
- KnowledgePages.FilteredPages: its own contract states the blank-query case and that kept pages have sections; that every matching section is shown is proved beside it, by `MatchingSectionShown` and `PageSearchResults`.
- NearestRelativeWizard.DetermineNR: the wizard's outcome records the branch taken. `DetermineNR` maps that branch to the two strings `onComplete` receives.
- ResponsibilityWizard.Wizard.Valid: the form has no control for `isSelfFunder` or `hasDPA`, so the class keeps both false. The pure functions take them as inputs.
- DoLChecker.Recommendation: the recommendation texts carry no contract beyond their definition.
- The outcome selections are an insertion-ordered list of keys. JavaScript orders integer-like object keys first; outcome labels are never integer-like.

## Findings

| source | as written | input that shows it | evidently intended | confidence | as-written member | corrected member |
|---|---|---|---|---|---|---|
| components/NearestRelativeWizard.tsx:110 | the "Yes, eligible" handler calls the setter and then `determineNR`, which still reads the previous `partnerEligible` (null) | step 1 Yes, step 2 "Yes, eligible": the fallback "Grandparent / …" is recorded instead of the spouse | the spouse or partner is recorded | not executed | NearestRelativeWizard.Wizard.PartnerEligibleAsWritten | NearestRelativeWizard.Wizard.PartnerEligible |
| components/NearestRelativeWizard.tsx:125-128 | each caring button calls the setter and then `determineNR`, which still reads `caringRelativeType` as '' | step 1 No, step 3 "Yes, a Parent": the fallback is recorded instead of "Parent (Residing/Caring)" | the caring relative is recorded | not executed | NearestRelativeWizard.Wizard.CaringRelativeAsWritten | NearestRelativeWizard.Wizard.CaringRelative |
