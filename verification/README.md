# Climate Tech readiness self-assessment — a Dafny model

This project models the questionnaire engine of the Climate Tech readiness
self-assessment. The app is a single-page React application. A visitor fills in a
company profile, answers eighteen questions in six sections, and gets a score out of 100,
a readiness tier, and an action plan requested from a language model.

The model covers the following, each in its own module:

- **QuestionBank, Readiness, IndustryContent** (`constants.dfy`): the six sections
  with every question, option text and point value; the five-tier readiness
  classifier; the industry list and the technology examples for each industry. The
  lemmas prove that the bank is internally consistent:
  - every declared maximum is what its options can award;
  - question and section ids are distinct;
  - the section maxima sum to exactly 100.
- **AnswerStore** (`answers.dfy`): recording an answer in its section's list, keyed by
  question id, plus the lookups on that list.
- **Navigation** (`navigation.dfy`): the (section, question) cursor and its next/prev
  moves.
- **Scoring** (`scoring.dfy`): the per-section and total scores, with `Math.round`
  computed exactly as round-half-up. Answers the controls can record never push a
  section above its maximum.
- **QuestionnaireSection** (`questionnaire.dfy`): how radio and checkbox clicks become
  answers, and the industry-specific help text of question q4_1.
- **Assessment** (`assessment.dfy`): the "answered" test and the Back / Next /
  "View My Results" gating.
- **WelcomeScreen** (`welcome.dfy`): profile validation, including the unanchored
  email pattern `\S+@\S+\.\S+`, which is proved equal to a direct scan. Also field
  edits that clear their own error.
- **ProgressBar** (`progress.dfy`): the clamp into [0, 100].
- **GeminiService** (`gemini.dfy`): the two fixed fallback plans, the score summary and
  total line put into the prompt, and the "Error" marker tested by the dashboard
  banner.
- **App** (`app.dfy`): the application state and its handlers. User actions are routed
  by screen and gated by the enabled state of their controls.
  - The invariant `Inv` holds in every state a session reaches: everything before the
    cursor is answered, the stored answers are ones the controls can produce, and the
    results screen appears only with every question answered and a validated profile.
  - From `Inv`, every score lies in range, the total is out of exactly 100, and the
    progress value never needs clamping.

`Strings` (`strings.dfy`) holds the JavaScript string operations the model needs:
`includes`, `indexOf`, `replace` of the first occurrence, `join`, and number-to-text.
`Optional` (`optional.dfy`) is an option type. `Types` (`types.dfy`) mirrors `types.ts`.

The handlers that read the question bank take it as a parameter, `bank`. They require
of it only what the shipped bank satisfies (`QuestionBank.BankValid`, proved by
`QuestionBank.BankIsValid`). The session-level results fix `bank` to the shipped
`QuestionBank.Sections`.

## Model

| member | source | states |
|---|---|---|
| QuestionBank.Q6_2Consistent | constants.ts:294-308 | q6_2 has seven options, each worth the same non-negative points, and its maximum of 7 is their sum |
| QuestionBank.Section1Consistent | constants.ts:40-84 | section1 is non-empty, its question ids are distinct, each question's maximum is its best option, and 8 + 6 + 6 is its declared 20 |
| QuestionBank.Section2Consistent | constants.ts:85-128 | section2 is consistent in the same sense, with 5 + 5 + 5 = 15 |
| QuestionBank.Section3Consistent | constants.ts:129-194 | section3 is consistent in the same sense, with five questions of 4 summing to 20 |
| QuestionBank.Section4Consistent | constants.ts:195-239 | section4 is consistent in the same sense, with 6 + 5 + 4 = 15 |
| QuestionBank.Section5Consistent | constants.ts:240-273 | section5 is consistent in the same sense, with 7 + 8 = 15 |
| QuestionBank.Section6Consistent | constants.ts:274-310 | section6 is consistent in the same sense, with the single-select 8 plus the checkbox question's 7 = 15 |
| QuestionBank.BankMaxIs100 | constants.ts:39-311 | the six section maxima sum to exactly 100 |
| QuestionBank.QuestionIdsOfBank | constants.ts:39-311 | the bank's question ids, in order, are q1_1 … q6_2 |
| QuestionBank.QuestionIdsDistinct | constants.ts:39-311 | no question id occurs twice in the bank |
| QuestionBank.SectionIdsDistinct | constants.ts:39-311 | the six section ids are distinct |
| QuestionBank.SectionsConsistent | constants.ts:39-311 | every section of the bank is consistent |
| QuestionBank.BankIsValid | constants.ts:39-311 | the bank is non-empty, consistent, has distinct section and question ids, and its maxima sum to 100 |
| Readiness.GetReadinessLevel | constants.ts:313-319 | Leader iff score ≥ 90; Adopter iff 70 ≤ score < 90; Emerging iff 50 ≤ score < 70; Developing iff 30 ≤ score < 50; Starter iff score < 30, negatives included; the result is always one of the five tiers |
| Readiness.ClassifierCountsThresholds | constants.ts:313-319 | the tier chosen is the number of thresholds 30, 50, 70, 90 the score reaches, so every score gets exactly one tier |
| Readiness.ReadinessMonotone | constants.ts:313-319 | a higher score never gets a lower tier |
| Readiness.TierLabelsDistinct | constants.ts:313-319 | the five tier labels are distinct |
| IndustryContent.EveryIndustryOptionHasContent | constants.ts:321-333 | every industry offered on the welcome screen has an entry of technology examples |
| AnswerStore.FindIndex | App.tsx:30 | the result is the first index holding the question id, or -1 exactly when none does |
| AnswerStore.Upsert | App.tsx:30-37 | an existing entry for the question is replaced at its index with every other entry unchanged; otherwise the answer is appended at the end |
| AnswerStore.UpsertReplacesInPlace | App.tsx:33-34 | with unique ids, replacing keeps the length and changes exactly the entry for that question |
| AnswerStore.UpsertKeepsIdsUnique | App.tsx:29-38 | question ids stay unique within a section |
| AnswerStore.UpsertKeepsAnswered | App.tsx:30-37 | the recorded answer is the one found for its question, and no answered question becomes unanswered |
| AnswerStore.UpsertAddsOnly | App.tsx:30-37 | every entry afterwards is the new answer or was already there |
| AnswerStore.SumPointsUpsert | App.tsx:30-37 | a replacement trades the old points for the new ones; an append adds the new points |
| AnswerStore.RecordAnswer | App.tsx:27-40 | the same sections remain, only the answered section's list changes, and it becomes the upsert of the answer |
| AnswerStore.FindAnswer | components/Assessment.tsx:32 | an answer is found exactly when some entry carries the question id, and what is found is the first such entry |
| Navigation.MoveNext | App.tsx:47-55 | next stays in the section or goes to the first question of the following section |
| Navigation.MovePrev | App.tsx:56-66 | prev stays in the section or goes to the last question of the previous section |
| Navigation.Navigate | App.tsx:42-68 | the direction selects the forward or the backward move |
| Navigation.MovesStayInBounds | App.tsx:42-68 | with no empty section, both moves keep the cursor on an existing question |
| Navigation.NextIsNoOpOnlyAtEnd | App.tsx:47-55 | next leaves the cursor where it is exactly on the last question of the last section |
| Navigation.PrevIsNoOpOnlyAtStart | App.tsx:56-66 | prev leaves the cursor where it is exactly at (0, 0) |
| Navigation.PrevUndoesNext | App.tsx:42-68 | prev after next returns to the start, except from the final question |
| Navigation.NextUndoesPrev | App.tsx:42-68 | next after prev returns to the start, except from (0, 0) |
| Navigation.MovesStepPosition | App.tsx:42-68 | each move changes the section-major position by exactly one |
| Navigation.PositionBelowTotal | App.tsx:42-68 | an in-bounds cursor's position is below the number of questions |
| Scoring.Percentage | App.tsx:102 | 0 when the maximum is not positive; in [0, 100] whenever 0 ≤ raw ≤ max |
| Scoring.PercentageRounds | App.tsx:102 | the percentage is the integer nearest to 100·raw/max, with halves rounded up |
| Scoring.PercentageExamples | App.tsx:102 | 7/20 gives 35, 1/8 gives 13, 1/3 gives 33, 2/3 gives 67, and 0/0 gives 0 |
| Scoring.PercentageOutOfHundred | App.tsx:112 | out of a maximum of 100, the percentage is the raw score |
| Scoring.ScoreSection | App.tsx:93-103 | a section's maximum is its declared maximum, whatever the answers |
| Scoring.ComputeScores | App.tsx:88-115 | each section gets its id, the sum of its answers' points (0 without a key), its declared maximum and the percentage; the total is the sum of the section raws over the sum of the declared maxima; with no answers every raw score and percentage is 0 |
| Scoring.TotalsWithinMax | App.tsx:96-97 | if every section's raw score lies in [0, max], so does the total's |
| Scoring.AnswersWithinMax | App.tsx:92-103 | answers with distinct ids, each fitting one of the questions, number at most the questions and score between 0 and the sum of the questions' maxima |
| Scoring.FittingAnswersWithinMax | App.tsx:92-103 | in a consistent bank, fitting answers keep each section's raw score in [0, max] |
| QuestionnaireSection.SingleSelect | components/QuestionnaireSection.tsx:29-35 | a radio answer carries the question id and the chosen option's points and text |
| QuestionnaireSection.RemoveAll | components/QuestionnaireSection.tsx:43 | the text is gone and every other text keeps its multiplicity |
| QuestionnaireSection.RemoveAllConcat | components/QuestionnaireSection.tsx:43 | removal distributes over concatenation, so the surviving selections keep their order as `filter` keeps it |
| QuestionnaireSection.RemoveAllSingle | components/QuestionnaireSection.tsx:43 | a single selection survives exactly when it is not the unchecked text |
| QuestionnaireSection.MultiSelectChange | components/QuestionnaireSection.tsx:37-53 | the question id is kept; checking appends the text at the end; unchecking removes it and keeps every other selection; points = selection size × first option's points |
| QuestionnaireSection.ToggleOption | components/QuestionnaireSection.tsx:70-77 | a checkbox click produces a checkbox answer in which the clicked box is checked (`IsChecked`: its text is in the selection) exactly when it was shown unchecked |
| QuestionnaireSection.ThreeOfSevenOnePointBoxes | components/QuestionnaireSection.tsx:46 | three distinct boxes of a seven-option one-point question give 3 points |
| QuestionnaireSection.CheckThenUncheckRestores | components/QuestionnaireSection.tsx:37-53 | checking an unselected box and unchecking it restores the original selection and points |
| QuestionnaireSection.ToggleKeepsSelectionValid | components/QuestionnaireSection.tsx:37-53 | clicking a box keeps the selection free of repeats and drawn from the option texts |
| QuestionnaireSection.MultiPointsBounded | components/QuestionnaireSection.tsx:40-46 | a valid selection scores at most the option count × the first option's points |
| QuestionnaireSection.AnswerPointsBounded | components/QuestionnaireSection.tsx:29-53 | an answer the controls can record scores between 0 and its question's maximum |
| QuestionnaireSection.SingleSelectFits | components/QuestionnaireSection.tsx:29-35 | a radio click on an option yields an answer the question can hold |
| QuestionnaireSection.ToggleFits | components/QuestionnaireSection.tsx:37-53 | a checkbox click keeps a fitting answer fitting, and a fitting stored answer is a checkbox answer |
| QuestionnaireSection.HelpText | components/QuestionnaireSection.tsx:55-57 | other questions keep their help text; q4_1's begins with it, is longer, and ends with '.' |
| QuestionnaireSection.HelpTextMentionsExamples | components/QuestionnaireSection.tsx:55-57 | q4_1's help text contains every industry example |
| Assessment.CurrentAnswer | components/Assessment.tsx:29-32 | an answer is shown exactly when the current section's list (empty without a key) holds an entry for the current question, and the one shown is the first such entry |
| Assessment.AnsweredMeansEntryPresent | components/Assessment.tsx:31-33 | a question is answered (`IsQuestionAnswered`; `ForwardDisabled` is its negation, the Next and "View My Results" disabled test) iff its section has a key whose list holds an entry with its id |
| Assessment.ForwardButtonShown | components/Assessment.tsx:91-108 | "View My Results" replaces Next exactly at the final question |
| Assessment.BackDisabledIffPrevIsNoOp | components/Assessment.tsx:85 | Back is disabled (`BackDisabled`: section 0, question 0) exactly where prev would not move |
| Assessment.ViewResultsIffNextIsNoOp | components/Assessment.tsx:41 | "View My Results" is shown exactly where next would not move |
| Assessment.ClearedSelectionStillAnswered | components/Assessment.tsx:33 | a checkbox answer with every box unchecked still counts as answered |
| WelcomeScreen.SetField | components/WelcomeScreen.tsx:50 | the edited field takes the new value and no other field changes |
| WelcomeScreen.EmailPatternIsRegexTest | components/WelcomeScreen.tsx:30 | the email test (`EmailPattern`) accepts exactly when some substring is non-whitespace+ '@' non-whitespace+ '.' non-whitespace+ |
| WelcomeScreen.ValidationErrors | components/WelcomeScreen.tsx:26-36 | each of the seven plain required fields has an error iff it is empty; an empty email gets "A valid work email is required."; a non-empty one failing the pattern gets "Email is invalid."; role, phone and initiatives never get an error |
| WelcomeScreen.ValidateIffComplete | components/WelcomeScreen.tsx:37-38 | validation (`Validate`) succeeds iff every required field is non-empty and the email passes the pattern |
| WelcomeScreen.HandleSubmit | components/WelcomeScreen.tsx:41-46 | the profile is forwarded iff it validates, and unchanged |
| WelcomeScreen.HandleChange | components/WelcomeScreen.tsx:48-54 | only the edited field changes, its error is cleared, and every other error is kept |
| ProgressBar.Clamp | components/ProgressBar.tsx:10 | the result lies in [0, 100]; values inside are kept, values below give 0 and values above give 100 |
| ProgressBar.ClampIdempotent | components/ProgressBar.tsx:10 | clamping twice is clamping once |
| ProgressBar.ClampMonotone | components/ProgressBar.tsx:10 | the clamp preserves order |
| GeminiService.GenerateActionPlan | services/geminiService.ts:48-116 | without a key the result is the missing-key plan; otherwise it is the generated plan, or the error plan when the call or the parse throws |
| GeminiService.FallbacksLeaveFourListsEmpty | services/geminiService.ts:52-59 | both fallbacks have one priority area and one immediate action with the other four lists empty, and their priority areas differ |
| GeminiService.OnlyErrorPlanIsMarked | services/geminiService.ts:108-110 | the error plan's priority area contains "Error" and the missing-key plan's does not |
| GeminiService.ShowsErrorBanner | components/ResultsDashboard.tsx:325 | no plan shows no banner; a plan without priority areas makes the test throw; otherwise the banner shows iff loading is over and the first priority area contains "Error" |
| GeminiService.BannerIffRuntimeFailure | components/ResultsDashboard.tsx:325 | after loading, if a generated plan is unmarked, the banner shows exactly when a key is set and the request failed |
| GeminiService.EmptyPriorityAreasThrow | components/ResultsDashboard.tsx:325 | a plan with an empty priority-area list makes the banner test throw |
| GeminiService.ShowsErrorBannerGuarded | components/ResultsDashboard.tsx:325 | the guarded banner test is defined for every plan and shows iff loading is over and a first priority area exists and contains "Error" |
| GeminiService.GuardedBannerAgrees | components/ResultsDashboard.tsx:325 | wherever the test as written does not throw, the guarded test gives the same answer |
| GeminiService.GuardedBannerIffRuntimeFailure | components/ResultsDashboard.tsx:325 | with the guarded test, the banner shows exactly on a runtime failure, whatever the shape of an unmarked generated plan |
| GeminiService.ScoreEntries | services/geminiService.ts:62 | the scores object's entries are the sections, in order, then `total` last |
| GeminiService.DropTotal | services/geminiService.ts:63 | no kept entry is `total`; every entry whose key is not `total` is kept, and nothing else; a list without `total` is kept whole |
| GeminiService.DropTotalConcat | services/geminiService.ts:63 | dropping distributes over concatenation, so the kept entries keep their order as `filter` keeps it |
| GeminiService.DropTotalSingle | services/geminiService.ts:63 | a single entry is kept exactly when its key is not `total` |
| GeminiService.ScoreSummary | services/geminiService.ts:62-65 | the line of every section whose key is not `total` occurs in the summary |
| GeminiService.SummaryOmitsTotal | services/geminiService.ts:62-65 | the summary is one line per section entry, in order, joined with newlines, with no line for the total |
| GeminiService.SummaryLine | services/geminiService.ts:64 | a key beginning with "section" has that word made "Section ", a key without it is kept, and ": raw/max points" follows |
| GeminiService.SummaryLineFormat | services/geminiService.ts:64 | every key `section<d>` gives "Section <d>: raw/max points" |
| GeminiService.SummaryLineExample | services/geminiService.ts:64 | section3 with 7 of 20 is written "Section 3: 7/20 points" |
| GeminiService.TotalScoreLine | services/geminiService.ts:83 | the line is "Total Score: ", the decimal total raw score, then a literal "/100"; for a non-negative score the digits read back as that score |
| GeminiService.TotalLineIgnoresMax | services/geminiService.ts:83 | the total line depends only on the total's raw score and starts "Total Score: " |
| Strings.Includes | components/ResultsDashboard.tsx:325 | `includes` is true iff the pattern occurs at some position of the string |
| Strings.IndexOf | services/geminiService.ts:64 | the result is the first position where the pattern occurs, or -1 exactly when it occurs nowhere |
| Strings.ReplaceFirst | services/geminiService.ts:64 | a string-pattern `replace` changes only the first occurrence, keeping the text before and after it; with no occurrence the string is unchanged |
| Strings.Join | services/geminiService.ts:65 | the empty list joins to "", one element to itself; the result is as long as the elements plus one separator per adjacent pair, and begins with the first element and ends with the last |
| Strings.JoinMentionsEach | components/QuestionnaireSection.tsx:56 | every element occurs in the joined string |
| Strings.IntToString | services/geminiService.ts:64 | a number prints as the digits of its magnitude, without leading zeros, after a '-' when negative; the digits read back as the magnitude |
| App.InitialAnswers | App.tsx:9-12 | every section id maps to an empty list, and there is no other key |
| App.Init | App.tsx:15-19 | the app starts on the profile screen with no profile, cursor (0, 0) and no answers |
| App.HandleProfileSubmit | App.tsx:22-25 | the profile is kept and the assessment screen shown; answers and cursor do not change |
| App.HandleAnswer | App.tsx:27-40 | the answer becomes the one found for its question; answered questions stay answered; other sections, screen, profile and cursor do not change |
| App.HandleNavigation | App.tsx:42-68 | only the cursor moves, by next or prev |
| App.HandleComplete | App.tsx:70-72 | the results screen is shown and nothing else changes |
| App.HandleRestart | App.tsx:74-80 | the state returns to the initial one: profile screen, no profile, cursor (0, 0), every section empty |
| App.IndustryExamples | App.tsx:117-119 | an offered industry gets its own examples; no profile or an unknown industry gets those of "Other"; the result is always one of the entries |
| App.ClickOptionOn | components/QuestionnaireSection.tsx:29-53 | a click never changes the screen, the profile, the cursor, the set of sections or any other section's answers; a click beyond the options changes nothing; a radio click makes the chosen option the answer shown; a checkbox click flips the shown state of the clicked box |
| App.Step | components/Assessment.tsx:82-108 | on the profile screen only a validating submit changes anything; results are reached only by the enabled "View My Results" on the answered final question; the cursor moves only by Next from an answered question, by Back, or by restarting; the results screen changes only on restart |
| App.CheckboxAnswerIsMulti | components/QuestionnaireSection.tsx:38-41 | a checkbox question never has a radio answer stored, so the click that would throw cannot happen |
| App.InitSatisfiesInv | App.tsx:9-19 | the initial state satisfies the invariant |
| App.CurrentAnswerFits | components/Assessment.tsx:29-33 | the stored answer of the current question is one that question's controls can produce |
| App.RecordKeepsFit | App.tsx:27-40 | recording a fitting answer keeps every section's answers fitting and unique |
| App.RecordKeepsAnswered | App.tsx:30-37 | recording never makes an answered question unanswered |
| App.RecordKeepsInv | App.tsx:27-40 | recording a fitting answer keeps the invariant |
| App.ClickKeepsInv | components/QuestionnaireSection.tsx:29-53 | a click on any option keeps the invariant |
| App.NextKeepsAnsweredBefore | components/Assessment.tsx:93-94 | moving forward from an answered question leaves everything before the new cursor answered |
| App.PrevKeepsAnsweredBefore | App.tsx:56-66 | moving back leaves everything before the new cursor answered |
| App.FinalAnsweredMeansAll | components/Assessment.tsx:103-104 | with everything before the final question answered, and the final question itself, every question is answered |
| App.NextKeepsInv | components/Assessment.tsx:93-94 | Next from an answered, non-final question keeps the invariant |
| App.PrevKeepsInv | components/Assessment.tsx:85 | Back keeps the invariant |
| App.CompleteKeepsInv | components/Assessment.tsx:103-104 | completing from the answered final question keeps the invariant |
| App.StepKeepsInv | App.tsx:22-80 | every user action keeps the invariant |
| App.Run | App.tsx:14-80 | every state reached by a sequence of actions satisfies the invariant |
| App.Session | App.tsx:14-19 | every state a session reaches over the shipped bank satisfies the invariant |
| App.ResultsOnlyWhenComplete | components/Assessment.tsx:100-107 | the results screen is reached only with every question answered and a validated profile |
| App.BankScoreKeysDistinct | App.tsx:99-113 | the shipped section ids are distinct and none of them is `total`, so no score entry overwrites another |
| App.FittingScores | App.tsx:88-115 | with fitting answers in a valid bank, every section's raw score lies in [0, max], every percentage in [0, 100], and the total is out of 100 with percentage equal to raw |
| App.SessionScores | services/geminiService.ts:83 | after any session the total is out of exactly 100, so the prompt's "/100" and the tier thresholds apply to a score in [0, 100] |
| App.TotalProgress | App.tsx:82-86 | 0 for a bank without questions; otherwise the stored answers as a percentage share of the questions: never negative, at most 100 while answers do not outnumber questions, and 100 when they are equal |
| App.AnsweredCountBounded | App.tsx:83-84 | stored answers never outnumber the questions |
| App.ProgressWithinBar | App.tsx:82-86 | with fitting answers the progress lies in [0, 100], so the bar's clamp never changes it |

## Left out

- Rendering: JSX markup, styling, tooltips, icons and the logo carry no logic.
- The request to the language model: the prompt prose, the response schema and `JSON.parse` of the reply. Their outcome is the parameter `generated` of `GeminiService.GenerateActionPlan` (`None` when the call or the parse throws). The API key from the environment is the parameter `apiKey`.
- Results dashboard I/O: the PDF export and its page-fit arithmetic, the chart, the circular gauge, the `mailto:` hand-off, and the asynchronous loading effect. The dashboard appears only through its tier lookup and its warning banner.
- Floating point: `Math.round(raw / max * 100)` is modelled as exact round-half-up on integers. `totalProgress` is an exact `real` quotient. The rounded progress label shown above the bar is not modelled.
- React runtime: state batching, effects, and `useCallback` closures. Each handler acts on the current state.
- Whitespace: `\S` is modelled as the complement of ECMAScript's concrete `\s` character set, not as an uninterpreted predicate.
- The welcome screen's error map: clearing an error removes the key. The source sets it to `undefined`, and only its truthiness is ever read.
- The welcome form's drop-down option lists (sizes, goals, timeframes, scopes). Validation only tests that a field is non-empty.
- The welcome screen's error map is local to that screen, so a rejected submit leaves the application state unchanged.
- `renderStep`'s unknown-step branch and its "results without a profile" branch are not modelled. `Inv` shows the second cannot occur, and the step type has only three values.
- App.TotalProgress: counts the stored answers under the bank's section ids, not under every key of the answers object. Under `Inv` the keys are exactly the section ids, so the two counts agree.
- QuestionnaireSection.MultiSelectChange: requires a stored answer that is absent or a checkbox answer, and at least one option. The source throws otherwise. The app-level click leaves the state unchanged on that path, and `App.CheckboxAnswerIsMulti` shows the path is unreachable.
- QuestionnaireSection.HelpText: states the prefix, the length and the final '.'. `HelpTextMentionsExamples` adds that each example appears. The exact composed sentence is not restated.
- Scores are an ordered list of (id, score) pairs plus the total, not an object. Section ids are not integer-like, so JavaScript keeps them in insertion order, and `App.BankScoreKeysDistinct` shows no key collides.

## Findings

| source | as written | input that shows it | evidently intended | confidence | as-written member | corrected member |
|---|---|---|---|---|---|---|
| components/ResultsDashboard.tsx:325 | `actionPlan?.priorityAreas[0].includes("Error")` guards a missing plan but not a missing first priority area | a generated plan whose `priorityAreas` is `[]` (the response schema does not demand a non-empty list): `undefined.includes` throws while the results screen renders | treat a plan with no priority areas as unmarked and show no banner | medium, not executed | GeminiService.EmptyPriorityAreasThrow | GeminiService.ShowsErrorBannerGuarded |
