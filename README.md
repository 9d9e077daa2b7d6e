# Student engagement dashboard — a Dafny model of its logic

The dashboard is a React application that keeps a roster of student records.
It shows each student's week of engagement and academic metrics, asks an AI
service for an "insight" on the active student, and scores academic risk with
a fixed weighted sum. This project models the parts of it that compute or
change state, and proves properties of them:

- **Risk scorer** (`MlEngine`). The weighted sum of five metrics, the label
  at the threshold 25, and the probability normalised by 60 and capped at 1.
  JavaScript numbers are modelled as exact reals.
- **Seed generator** (`DataGenerator`). Every `Math.random()` draw is a
  parameter in [0,1), taken in the source's order. `toFixed(1)` and
  `toFixed(2)` are modelled as rounding half away from zero.
- **Records** (`Types`). The student record and the partial record
  (`Partial<Student>`) that an update spreads over it.
- **Shell state** (`AppState`, `Navigation`). A class `App` holds:
  - the role, the roster, the active id, the current view and the loading flag;
  - the queue of forced insight refreshes that `setTimeout` has scheduled.

  The AI answer is a parameter: `Some(insight)` when it answers, `None` when
  it throws. Its invariant is that the current view is one the role can see
  and that no request is in flight between two operations.

  The seven navigation items are written as the declared order of views plus
  a title and a role list per view. The role filter, the "Viewing:" caption
  and the "next phase" button work over that list.
- **Teacher panel** (`TeacherPortal`). The registration box (trimmed names),
  the edit form, the metric edits and the patch a save sends.
- **Guardian report** (`ParentPortal`). The averages, the chart, the
  status/advice bands and the text fallbacks.
- **Response matrix** (`NextSteps`) and **progress table** (`ProgressPortal`).

The model follows the code, which:
- has no operation that deletes a student;
- does not check that the id of a selected student exists;
- has no emoji field in the student record;
- does not clamp the risk probability below 0;
- does not reset the insight to null on an update: the old insight stays
  until the forced refresh answers.

## Model

| member | source | states |
|---|---|---|
| `Types.InsightPatch` | App.tsx:76 | The patch merged with an AI result carries only the insight. |
| `Types.ApplyPatch` | App.tsx:92 | `{ ...s, ...p }`: no contract of its own; `ApplyPatchKeepsId`, `ApplyPatchIdempotent`, `EmptyPatchIsIdentity` and `InsightPatchOnlySetsInsight` state what the spread does. |
| `Types.EmptyPatchIsIdentity` | App.tsx:92 | Spreading a patch with no fields leaves the record unchanged. |
| `Types.ApplyPatchIdempotent` | App.tsx:92 | Spreading the same patch twice equals spreading it once. |
| `Types.ApplyPatchKeepsId` | App.tsx:92 | A merge keeps the record's id exactly when the patch has no id or the same id. |
| `Types.InsightPatchOnlySetsInsight` | App.tsx:76 | Merging an AI result changes only the record's insight. |
| `MlEngine.PredictStudentRisk` | utils/mlEngine.ts:24-59 | The score is the weighted sum. The label is 1 iff score >= 25. Help is required iff the label is 1. The probability is at most 1, equals 1 iff score >= 60, and is score/60 below that. |
| `MlEngine.RiskScore` | utils/mlEngine.ts:40-46 | With all five scored metrics non-negative, the score is non-negative. The weights are stated by `RiskScoreClosedForm`, the monotonicity by `PredictionMonotone`. |
| `MlEngine.RiskScoreClosedForm` | utils/mlEngine.ts:40-46 | In simplified form: the late ratio weighs 20 and each missed assignment adds 1 point. |
| `MlEngine.NegativeScoreNegativeProbability` | utils/mlEngine.ts:49-51 | A negative score gives a negative probability, label 0 and "No", because there is no lower clamp. |
| `MlEngine.PredictionMonotone` | utils/mlEngine.ts:40-50 | Raising any of the five scored metrics never lowers the score, the probability or the label. |
| `MlEngine.MarksImprovementLowersScore` | utils/mlEngine.ts:40-46 | A negative marks drop (an improvement) scores below a zero drop. |
| `MlEngine.UnscoredMetricsIgnored` | utils/mlEngine.ts:25-37 | The submission count and the attendance trend affect no output. |
| `MlEngine.ZeroMetricsNoRisk` | utils/mlEngine.ts:40-51 | All scored metrics zero gives score 0, probability 0, label 0 and "No". |
| `MlEngine.WorkedExample` | utils/mlEngine.ts:40-51 | Inputs (50, 10, 0.5, 5, 2) give score 29.5, label 1 and "Yes". |
| `DataGenerator.GenerateSyntheticData` | utils/dataGenerator.ts:4-12 | Seven points labelled Mon…Sun in order. Consistency is in [60,100), depth in [40,90), focus in [50,100). |
| `DataGenerator.RoundHalfAway` | utils/dataGenerator.ts:18-22 | The rounding keeps the sign of its input. Nearness and order are stated by `RoundHalfAwayNearest` and `RoundHalfAwayMonotone`. |
| `DataGenerator.ToFixed1` | utils/dataGenerator.ts:18-22 | `parseFloat(x.toFixed(1))` is a multiple of 0.1. Nearness is stated by `ToFixedNearest` and `ToFixed1Between`. |
| `DataGenerator.ToFixed2` | utils/dataGenerator.ts:20 | `parseFloat(x.toFixed(2))` is a multiple of 0.01. Nearness is stated by `ToFixedNearest`, `ToFixed2Between` and `ToFixed2Idempotent`. |
| `DataGenerator.RoundHalfAwayMonotone` | utils/dataGenerator.ts:18-22 | The rounding behind `toFixed` preserves order. |
| `DataGenerator.RoundHalfAwayNearest` | utils/dataGenerator.ts:18-22 | Rounding moves a value by at most one half. |
| `DataGenerator.ToFixedNearest` | utils/dataGenerator.ts:18-22 | `toFixed(1)` is within 0.05 of its input and `toFixed(2)` within 0.005. |
| `DataGenerator.ToFixed1Between` | utils/dataGenerator.ts:18-22 | A value between two multiples of 0.1 rounds to a value between them. |
| `DataGenerator.ToFixed2Between` | utils/dataGenerator.ts:20 | A value between two multiples of 0.01 rounds to a value between them. |
| `DataGenerator.ToFixed2Idempotent` | utils/dataGenerator.ts:20 | A value already rounded to hundredths rounds to itself. |
| `DataGenerator.TrendIndex` | utils/dataGenerator.ts:21 | floor(3r) for r in [0,1) indexes one of the three trends. |
| `DataGenerator.GenerateAcademicMetrics` | utils/dataGenerator.ts:14-25 | Submissions are in [15,34], attendance drop in [0,15], marks drop in [-2,8], late ratio in [0,1], variance in [0,5], streak in [0,3]. |
| `Navigation.FilterMembers` | App.tsx:130 | The visible items are exactly the declared items that list the role. |
| `Navigation.AllNavItems` | App.tsx:120-128 | Seven items with the dashboard first, each carrying its view's title and declared roles. |
| `Navigation.FilterByRole` | App.tsx:130 | The `filter`: no contract of its own; `FilterMembers`, `FilterKeepsOrder` and `FilterKeepsDistinctIds` state what it keeps. |
| `Navigation.VisibleNavItems` | App.tsx:130 | No contract of its own; `VisibleIffListed`, `VisibleNavItemsShape` and `VisibleNavItemsByRole` state which items a role gets. |
| `Navigation.FilterKeepsOrder` | App.tsx:130 | Filtering keeps declaration order. |
| `Navigation.FilterKeepsDistinctIds` | App.tsx:130 | Filtering a list that names each view once gives a list that names each view once. |
| `Navigation.AllNavItemsDistinct` | App.tsx:120-128 | The declared list names each view once, and each item carries its view's declared roles. |
| `Navigation.EveryViewDeclared` | App.tsx:120-128 | Every view has an item in the declared list. |
| `Navigation.ListedIffDeclared` | App.tsx:130 | In a list whose items carry their views' declared roles, a view present in the list survives the filter iff it is declared for the role. |
| `Navigation.VisibleIffListed` | App.tsx:120-130 | A role sees a view (the view's item lists the role) iff the view is among the role's filtered items. |
| `Navigation.VisibleNavItemsByRole` | App.tsx:120-130 | The views a role sees are exactly: for a student, dashboard, insights, intelligence and progress; for a teacher, all seven; for a parent, dashboard, intelligence, progress and the parent portal. |
| `Navigation.ExpectedViewsDeclared` | App.tsx:120-128 | The per-role view lists agree with the roles declared on each item. |
| `Navigation.VisibleNavItemsShape` | App.tsx:120-130 | Every role's list is non-empty, starts at the dashboard and names each view at most once. |
| `Navigation.ShortcutViewsVisible` | App.tsx:274-280 | The dashboard and intelligence views are visible to all roles. The teacher's and the parent's shortcut targets are visible to those roles. |
| `Navigation.FindIndex` | App.tsx:133 | The first index holding the view, or -1 when no item holds it. |
| `Navigation.FindIndexFinds` | App.tsx:133 | The search succeeds exactly when the view is in the list. |
| `Navigation.NextInSteps` | App.tsx:132-139 | In a list starting at the dashboard with no repeated view: item k steps to item k+1. The last item and any absent view step to the dashboard. |
| `Navigation.NextIn` | App.tsx:132-139 | The next view is the dashboard or one of the list's views. |
| `Navigation.NextView` | App.tsx:132-139 | No contract of its own; `NextViewSteps`, `NextViewIsVisible` and `WalkFromDashboard` state where the button leads. |
| `Navigation.NextViewSteps` | App.tsx:132-139 | The same steps over the role's visible items. |
| `Navigation.NextInListed` | App.tsx:132-139 | Over a list that starts at the dashboard, the next view is always one of the list's views. |
| `Navigation.NextViewIsVisible` | App.tsx:132-139 | The next view is always visible to the role. |
| `Navigation.WalkInFromDashboard` | App.tsx:132-139 | In any list starting at the dashboard with no repeats: k presses from the dashboard reach item k, and one press past the last item returns to the dashboard. |
| `Navigation.WalkFromDashboard` | App.tsx:132-139 | From the dashboard, k presses reach the k-th visible view, and one press past the last returns to the dashboard. |
| `Navigation.ViewingCaption` | App.tsx:344 | The caption is the current view's title or "Overview". |
| `Navigation.ViewingCaptionOfVisible` | App.tsx:344 | A visible view is captioned with its item's title, which is the view's own title; any other view is captioned "Overview". |
| `AppState.FirstWithId` | App.tsx:56 | An index no larger than the roster length; when inside the roster, it holds a record with the id. |
| `AppState.FirstWithIdIsFirst` | App.tsx:56 | No record before that index has the id. |
| `AppState.FindById` | App.tsx:93 | Whatever is found has the id. |
| `AppState.FindByIdFirstMatch` | App.tsx:93 | Finds nothing iff no record has the id; otherwise finds a roster record with no earlier record holding the id. |
| `AppState.ActiveOf` | App.tsx:55-57 | Nothing only for an empty roster. |
| `AppState.ActiveOfPrefersMatch` | App.tsx:55-57 | The active record is always a roster record. When some record has the active id, it is the first such record (what `find` returns); otherwise it is the first record of the roster. |
| `AppState.ActiveFoundByOwnId` | App.tsx:55-57 | Searching the roster for the active record's own id finds the active record, so a save through it patches that record. |
| `AppState.App.ActiveStudent` | App.tsx:55-57 | No contract of its own: it is `ActiveOf` on the current roster and active id, whose meaning `ActiveOf` and `ActiveOfPrefersMatch` state. |
| `AppState.MergeById` | App.tsx:92 | The roster keeps its length. |
| `AppState.MergeByIdAt` | App.tsx:92 | Position by position, records with the id are patched and the others are unchanged. |
| `AppState.MergeKeepsIds` | App.tsx:92 | An update whose patch keeps the id keeps every id in place. |
| `AppState.MergeUnknownIdNoop` | App.tsx:92 | Updating an id no record has changes nothing. |
| `AppState.FindAfterMerge` | App.tsx:92-96 | With an id-keeping patch, the refresh is scheduled for the patched first record with the id, or for nothing when there was none. |
| `AppState.MergeRenamingLosesId` | App.tsx:92-96 | A patch that renames the id leaves nothing under the old id, so no refresh is scheduled. |
| `AppState.MergeKeepsUniqueIds` | App.tsx:92 | An id-keeping update keeps ids unique. |
| `AppState.InsightMergeOnlySetsInsight` | App.tsx:76 | An AI result sets the insight of the records with the id and changes nothing else. |
| `AppState.InsightMergeReachesActive` | App.tsx:84-88 | A result merged under the active record's id lands on the active record. |
| `AppState.SingleRosterActive` | App.tsx:31-57 | In a one-record roster, the record is active under its own id. |
| `AppState.InitialStudent` | App.tsx:34-44 | The seeded record. No contract of its own; the constructor and `SingleRosterActive` state its role. |
| `AppState.NewStudent` | App.tsx:101-108 | The record `addStudent` appends. No contract of its own; `FindFreshAppended` and `App.AddStudent` state what appending it does. |
| `AppState.FindFreshAppended` | App.tsx:101-112 | A record appended under a fresh id is what that id finds and what becomes active. |
| `AppState.AppendFreshKeepsUniqueIds` | App.tsx:101-112 | Appending under a fresh id keeps ids unique. |
| `AppState.App.constructor` | App.tsx:27-53 | Saved values are used when present; an empty saved id counts as absent. The defaults are one seeded record, the active id "default-01" and the teacher role. The view starts at the dashboard. With nothing saved, the seeded record is active. |
| `AppState.App.InitInsight` | App.tsx:67-82 | Skipped iff an insight exists and the call is not forced. Otherwise an answer is merged by id, a failure leaves the roster alone, and loading ends false. |
| `AppState.App.InsightEffect` | App.tsx:84-88 | Requests exactly when the active record has no insight. An answer is merged under the active record's id into every record with that id, the rest of the roster is unchanged, and the answer becomes the active record's insight. Without a request or an answer the roster is unchanged. |
| `AppState.App.UpdateStudent` | App.tsx:90-99 | The roster is merged by id. One refresh is queued for the first record still holding the id, and none if there is no such record. |
| `AppState.App.UpdateActiveStudent` | App.tsx:178 | A save merges into the active record's id and queues the merged record found under the old active id, if any: the active record patched when the id is kept, nothing when the patch renames it. |
| `AppState.App.FireRefresh` | App.tsx:95 | The oldest queued refresh runs forced: it leaves the queue, and its answer is merged under its id. |
| `AppState.App.AddStudent` | App.tsx:101-112 | One new record is appended and its id becomes active. Under a fresh id it is the active student and ids stay unique. |
| `AppState.App.SelectStudent` | App.tsx:316 | Sets the active id without checking it. |
| `AppState.App.HandleRoleChange` | App.tsx:114-118 | Sets the role and returns to the dashboard, which keeps the view visible. |
| `AppState.App.SetView` | App.tsx:297 | Moves to a view the role sees. |
| `AppState.App.HandleNextView` | App.tsx:132-139 | Moves to the next visible view and keeps the view visible. |
| `TeacherPortal.TrimStart` | components/Sections/TeacherPortal.tsx:85-86 | Cuts a leading run of white space and stops at the first other character. |
| `TeacherPortal.TrimEnd` | components/Sections/TeacherPortal.tsx:85-86 | Cuts a trailing run of white space and stops at the last other character. |
| `TeacherPortal.Trim` | components/Sections/TeacherPortal.tsx:85-86 | `trim()`: no contract of its own; `TrimBounds`, `TrimIsInfix`, `TrimEmptyIffWhitespace` and `TrimIdempotent` state what it cuts. |
| `TeacherPortal.TrimBounds` | components/Sections/TeacherPortal.tsx:85-86 | The trimmed name is a slice of the input with only white space on either side. |
| `TeacherPortal.TrimIsInfix` | components/Sections/TeacherPortal.tsx:85-86 | The trimmed name is a middle part of the input and neither starts nor ends with white space. |
| `TeacherPortal.TrimEmptyIffWhitespace` | components/Sections/TeacherPortal.tsx:85 | The trimmed name is empty exactly when the input is all white space. |
| `TeacherPortal.TrimIdempotent` | components/Sections/TeacherPortal.tsx:85-86 | Trimming twice is trimming once. |
| `TeacherPortal.OrEmpty` | components/Sections/TeacherPortal.tsx:64-67 | A missing optional field becomes the empty string. |
| `TeacherPortal.FormFor` | components/Sections/TeacherPortal.tsx:62-81 | The form filled from a record. No contract of its own; `SaveThenReopen` and `UneditedSaveIsIdentity` state how it relates to the patch a save sends. |
| `TeacherPortal.ApplyMetricEdit` | components/Sections/TeacherPortal.tsx:95-103 | Only the edited metric takes the new value; the other six are kept. |
| `TeacherPortal.MetricEditLastWins` | components/Sections/TeacherPortal.tsx:95-103 | A later edit of the same metric overrides an earlier one. |
| `TeacherPortal.MetricEditsCommute` | components/Sections/TeacherPortal.tsx:95-103 | Edits of different metrics commute. |
| `TeacherPortal.SavePatch` | components/Sections/TeacherPortal.tsx:91-93 | The save patch never carries an id, engagement data or an insight. |
| `TeacherPortal.SaveThenReopen` | components/Sections/TeacherPortal.tsx:62-93 | Saving a form and refilling the form from the saved record gives the same form back. |
| `TeacherPortal.SaveKeepsIdentity` | components/Sections/TeacherPortal.tsx:91-93 | A save keeps the record's id, data and insight. |
| `TeacherPortal.UneditedSaveIsIdentity` | components/Sections/TeacherPortal.tsx:62-93 | Saving an unedited form leaves the record unchanged iff age, grade and focus area are present. |
| `TeacherPortal.TeacherForm.constructor` | components/Sections/TeacherPortal.tsx:62-71 | The form is filled from the record and the registration box is empty. |
| `TeacherPortal.TeacherForm.Resync` | components/Sections/TeacherPortal.tsx:73-82 | The form is refilled from the record and the box is left alone. |
| `TeacherPortal.TeacherForm.SetNewStudentName` | components/Sections/TeacherPortal.tsx:119 | Typing sets the registration box only. |
| `TeacherPortal.TeacherForm.HandleAdd` | components/Sections/TeacherPortal.tsx:84-89 | A name with non-blank text is passed on trimmed and non-empty, and the box is cleared. Otherwise nothing happens. |
| `TeacherPortal.TeacherForm.UpdateMetric` | components/Sections/TeacherPortal.tsx:95-103 | Only that metric of the form changes. |
| `TeacherPortal.TeacherForm.SetName` | components/Sections/TeacherPortal.tsx:155 | Only the form's name changes. |
| `TeacherPortal.TeacherForm.SetGrade` | components/Sections/TeacherPortal.tsx:214 | Only the form's grade changes. |
| `TeacherPortal.TeacherForm.SetRemarks` | components/Sections/TeacherPortal.tsx:222 | Only the form's remarks change. |
| `TeacherPortal.TeacherForm.HandleSave` | components/Sections/TeacherPortal.tsx:91-93 | Returns the form's patch, which cannot change any record's id. |
| `ParentPortal.SumOf` | components/Sections/ParentPortal.tsx:13-15 | The `reduce` sum. No contract of its own; `SumWithin` bounds it and `Average` divides it. |
| `ParentPortal.Average` | components/Sections/ParentPortal.tsx:13-15 | 0 for an empty week, otherwise average × length equals the sum. |
| `ParentPortal.SumWithin` | components/Sections/ParentPortal.tsx:13-15 | A sum of n values in [lo,hi) lies in [n·lo, n·hi). |
| `ParentPortal.AverageWithin` | components/Sections/ParentPortal.tsx:13-15 | The average of values in [lo,hi) lies in [lo,hi). |
| `ParentPortal.GeneratedAveragesWithin` | components/Sections/ParentPortal.tsx:13-15 | A generated week averages within the generator's ranges. |
| `ParentPortal.ChartData` | components/Sections/ParentPortal.tsx:17-21 | Three entries: the consistency, depth and focus averages, in that order, with distinct names and colours. |
| `ParentPortal.Band` | components/Sections/ParentPortal.tsx:23-28 | The number of cut points 50, 70 and 85 that the score is strictly above. |
| `ParentPortal.BandMonotone` | components/Sections/ParentPortal.tsx:23-28 | A higher score is never in a lower band. |
| `ParentPortal.GetSyncStatus` | components/Sections/ParentPortal.tsx:23-28 | The status is the one for the score's band. |
| `ParentPortal.GetParentAdvice` | components/Sections/ParentPortal.tsx:33-38 | The advice is the one for the score's band. |
| `ParentPortal.StatusAndAdviceAgree` | components/Sections/ParentPortal.tsx:23-38 | Two scores share a status iff they share advice iff they share a band. |
| `ParentPortal.CutPointsAreStrict` | components/Sections/ParentPortal.tsx:24-27 | 85 is FLOW_ACTIVE, 70 is OBSERVING and 50 is ALIGNMENT_REQ. |
| `ParentPortal.DisplayedScore` | components/Sections/ParentPortal.tsx:30 | The insight's score, or 0 without an insight. |
| `ParentPortal.NoInsightLowestBand` | components/Sections/ParentPortal.tsx:30-38 | Without an insight the report shows the lowest status and advice. |
| `ParentPortal.ObservationText` | components/Sections/ParentPortal.tsx:126 | Never empty: the observation, or the placeholder when it is missing or empty. |
| `ParentPortal.Suggestions` | components/Sections/ParentPortal.tsx:135 | The single placeholder without an insight, otherwise the suggestions as they are, even an empty list. |
| `ParentPortal.OrFallback` | components/Sections/ParentPortal.tsx:45-47 | A missing or empty text falls back. |
| `ParentPortal.ProfileCards` | components/Sections/ParentPortal.tsx:43-48 | Four cards titled Student, Academic Level, Chronological Age and Primary Focus, showing the name, the grade or "Unassigned", the age followed by " yrs" or "N/A", and the focus area or "Holistic" (absent and empty both fall back); the last three are never blank. |
| `ParentPortal.RemarksText` | components/Sections/ParentPortal.tsx:159 | Never empty. Remarks are shown quoted, and unquoting gives them back; no remarks shows the placeholder. |
| `NextSteps.DigitChar` | components/Sections/NextSteps.tsx:34 | The decimal digit character of 0..9. |
| `NextSteps.DecimalString` | components/Sections/NextSteps.tsx:34 | A number renders as a non-empty string of digits. |
| `NextSteps.DecimalRoundTrip` | components/Sections/NextSteps.tsx:34 | Reading back a rendered number gives the number. |
| `NextSteps.DecimalStringInjective` | components/Sections/NextSteps.tsx:34 | Different numbers render differently. |
| `NextSteps.StrategyTitle` | components/Sections/NextSteps.tsx:34 | The title is "STRATEGY_0" followed by decimal digits that read back as the action number i + 1. |
| `NextSteps.StyleFor` | components/Sections/NextSteps.tsx:36 | Cyan at index 0, magenta at index 1, stone from index 2 on. |
| `NextSteps.Actions` | components/Sections/NextSteps.tsx:33-37 | The four defaults without system actions. Otherwise one action per system action: its text, "STRATEGY_0" + (i+1), and the style for i. |
| `NextSteps.ShowsPlaceholder` | components/Sections/NextSteps.tsx:69 | No contract of its own; `PlaceholderIffDefaults` ties the banner to the default actions. |
| `NextSteps.ActionTitlesDistinct` | components/Sections/NextSteps.tsx:33-37 | No two actions on screen share a title. |
| `NextSteps.PlaceholderIffDefaults` | components/Sections/NextSteps.tsx:69 | The banner shows exactly when the defaults do; a present list, even empty, never equals the defaults. |
| `ProgressPortal.ToUpper` | components/Sections/ProgressPortal.tsx:25 | Same length; lower-case ASCII letters are raised and the rest are kept. |
| `ProgressPortal.SystemStatus` | components/Sections/ProgressPortal.tsx:33 | "ALERT" iff the streak exceeds 1, otherwise "NOMINAL". |
| `ProgressPortal.DataColumns` | components/Sections/ProgressPortal.tsx:12-37 | Three columns, ACADEMICS, ATTENDANCE and RISK PROFILE, with three items each. |
| `ProgressPortal.RiskProfileCells` | components/Sections/ProgressPortal.tsx:32-34 | The status cell reads ALERT iff streak > 1 and NOMINAL otherwise. Data Integrity always reads VERIFIED. The streak is shown raw. |
| `ProgressPortal.TrendCell` | components/Sections/ProgressPortal.tsx:25 | The trend cell reads RISING, FALLING or STABLE, matching the stored trend. |
| `ProgressPortal.LateRatioCellNearest` | components/Sections/ProgressPortal.tsx:18 | The late-ratio cell is within 0.005 of the stored ratio. |
| `ProgressPortal.GeneratedLateRatioShownExactly` | components/Sections/ProgressPortal.tsx:18 | A generated late ratio is shown exactly. |

## Left out

- Persistence is not modelled: the localStorage reads and writes, `JSON.parse`/`JSON.stringify`, and the purge-and-reload button. The saved roster, active id and role are constructor parameters.
- A saved role string is cast without a check. Only the three roles, or no saved role, are modelled.
- Asynchrony is not modelled:
  - An AI request completes within the operation that makes it. The loading flag is set and reset inside it, and overlapping requests cannot race.
  - The 100 ms `setTimeout` becomes the `pendingRefresh` queue, fired oldest first by `FireRefresh`.
- The AI service (services/geminiService.ts) is not part of this model. Its answer, or its failure, is a parameter.
- Ids come from `Date.now()`. The new id is a parameter, and its freshness is a hypothesis of the lemmas, because the source does not enforce it.
- `Math.random()` is not modelled; its draws are parameters in [0,1).
- JavaScript numbers are modelled as exact reals: no IEEE-754 rounding, NaN or infinities.
  - The form inputs' `parseInt`/`parseFloat` are left out, so metric edits carry parsed values.
  - How a number is printed is not modelled: progress cells keep the number itself.
- `toFixed` is modelled for 1 and 2 digits only, the two the generator and the progress table use.
- Trimming uses the ECMAScript white-space and line-terminator set; no other Unicode behaviour is modelled.
- `AppState.App.ActiveStudent` is `None` on an empty roster. The source then fails while rendering the header (App.tsx:339); rendering is not modelled.
- Not part of this model: model.py (offline training), the image tile, the clock, and the purely presentational sections (EngagementPatterns, DriftIndicators, AwarenessEntry, MomentSupport).
- JSX markup, CSS and charts are left out, beyond the data the chart and the tables are built from.
