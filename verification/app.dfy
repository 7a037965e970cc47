/**
 * The application shell (App.tsx): the screen being shown, the submitted profile, the
 * answers and the question cursor, the handlers that change them, and the values derived
 * from them (progress, industry examples). A user action is dispatched to the handler
 * the current screen wires it to, and only while its control is enabled; every state a
 * session can reach satisfies `Inv`.
 */
module App {
  import opened Types
  import opened Optional
  import opened AnswerStore
  import opened Navigation
  import opened Assessment
  import opened QuestionnaireSection
  import opened Scoring
  import QuestionBank
  import WelcomeScreen
  import IndustryContent
  import ProgressBar

  datatype AppState = AppState(step: AppStep, companyProfile: Option<CompanyProfile>, answers: Answers, cursor: Cursor)

  /** The ids of the bank's sections. */
  function SectionIds(bank: seq<AssessmentSection>): set<string> {
    set i | 0 <= i < |bank| :: bank[i].id
  }

  /** `initialAnswers`: an empty list under every section id and no other key. */
  function InitialAnswers(bank: seq<AssessmentSection>): (r: Answers)
    ensures r.Keys == SectionIds(bank)
    ensures forall i :: 0 <= i < |bank| ==> r[bank[i].id] == []
    ensures NoAnswers(bank, r)
  {
    map id | id in SectionIds(bank) :: []
  }

  /** The state the app starts in and returns to on restart. */
  function Init(bank: seq<AssessmentSection>): (r: AppState)
    ensures r.step == ProfileStep && r.companyProfile.None? && r.cursor == Cursor(0, 0)
    ensures r.answers.Keys == SectionIds(bank) && NoAnswers(bank, r.answers)
  {
    AppState(ProfileStep, None, InitialAnswers(bank), Cursor(0, 0))
  }

  /** `handleProfileSubmit`: keep the profile and move on to the assessment. */
  function HandleProfileSubmit(s: AppState, profile: CompanyProfile): (r: AppState)
    ensures r.step == AssessmentStep && r.companyProfile == Some(profile)
    ensures r.answers == s.answers && r.cursor == s.cursor
  {
    s.(companyProfile := Some(profile), step := AssessmentStep)
  }

  /**
   * `handleAnswer`: record `a` in its section's list. The new answer is the one found for
   * its question, every question answered before still is, no other section changes, and
   * neither the screen, the profile nor the cursor moves.
   */
  function HandleAnswer(s: AppState, sectionId: string, a: Answer): (r: AppState)
    requires sectionId in s.answers
    ensures r.step == s.step && r.companyProfile == s.companyProfile && r.cursor == s.cursor
    ensures r.answers.Keys == s.answers.Keys
    ensures FindAnswer(r.answers[sectionId], a.questionId) == Some(a)
    ensures forall qid :: FindAnswer(s.answers[sectionId], qid).Some? ==> FindAnswer(r.answers[sectionId], qid).Some?
    ensures forall id :: id in s.answers && id != sectionId ==> r.answers[id] == s.answers[id]
  {
    UpsertKeepsAnsweredAll(s.answers[sectionId], a);
    s.(answers := RecordAnswer(s.answers, sectionId, a))
  }

  lemma UpsertKeepsAnsweredAll(xs: seq<Answer>, a: Answer)
    ensures FindAnswer(Upsert(xs, a), a.questionId) == Some(a)
    ensures forall qid :: FindAnswer(xs, qid).Some? ==> FindAnswer(Upsert(xs, a), qid).Some?
  {
    UpsertKeepsAnswered(xs, a, a.questionId);
    forall qid | FindAnswer(xs, qid).Some?
      ensures FindAnswer(Upsert(xs, a), qid).Some?
    {
      UpsertKeepsAnswered(xs, a, qid);
    }
  }

  /** `handleNavigation(direction)`: only the cursor moves. */
  function HandleNavigation(bank: seq<AssessmentSection>, s: AppState, d: Direction): (r: AppState)
    requires 0 <= s.cursor.section < |bank|
    ensures r.step == s.step && r.companyProfile == s.companyProfile && r.answers == s.answers
    ensures d == Next ==> r.cursor == MoveNext(bank, s.cursor)
    ensures d == Prev ==> r.cursor == MovePrev(bank, s.cursor)
  {
    s.(cursor := Navigate(bank, s.cursor, d))
  }

  /** `handleComplete`: show the results, keeping everything else. */
  function HandleComplete(s: AppState): (r: AppState)
    ensures r.step == ResultsStep
    ensures r.companyProfile == s.companyProfile && r.answers == s.answers && r.cursor == s.cursor
  {
    s.(step := ResultsStep)
  }

  /** `handleRestart`: every piece of state goes back to its initial value. */
  function HandleRestart(bank: seq<AssessmentSection>, s: AppState): (r: AppState)
    ensures r == Init(bank)
    ensures r.step == ProfileStep && r.companyProfile.None? && r.cursor == Cursor(0, 0)
    ensures NoAnswers(bank, r.answers)
  {
    AppState(ProfileStep, None, InitialAnswers(bank), Cursor(0, 0))
  }

  /**
   * `industryExamples`: the examples of the profile's industry, or those of "Other" when
   * there is no profile, the industry is empty, or it has no entry.
   */
  function IndustryExamples(profile: Option<CompanyProfile>): (r: seq<string>)
    ensures r in IndustryContent.IndustrySpecificContent.Values
    ensures profile.Some? && profile.value.industry in IndustryContent.IndustryOptions ==>
      r == IndustryContent.IndustrySpecificContent[profile.value.industry]
    ensures profile.None? || profile.value.industry !in IndustryContent.IndustrySpecificContent ==>
      r == IndustryContent.IndustrySpecificContent["Other"]
  {
    IndustryContent.EveryIndustryOptionHasContent();
    var content := IndustryContent.IndustrySpecificContent;
    if profile.Some? && profile.value.industry != "" && profile.value.industry in content then
      content[profile.value.industry]
    else
      content["Other"]
  }

  /** Number of stored answers in the sections `bank[..n]`. */
  function AnsweredCount(bank: seq<AssessmentSection>, answers: Answers, n: nat): nat
    requires n <= |bank|
  {
    if n == 0 then 0 else AnsweredCount(bank, answers, n - 1) + |SectionAnswers(answers, bank[n - 1].id)|
  }

  /** `totalProgress`: stored answers over questions, as a percentage; 0 for an empty bank. */
  function TotalProgress(bank: seq<AssessmentSection>, answers: Answers): (r: real)
    ensures QuestionsBefore(bank, |bank|) == 0 ==> r == 0.0
    ensures QuestionsBefore(bank, |bank|) > 0 ==>
      r * QuestionsBefore(bank, |bank|) as real == AnsweredCount(bank, answers, |bank|) as real * 100.0
    ensures 0.0 <= r
    ensures AnsweredCount(bank, answers, |bank|) <= QuestionsBefore(bank, |bank|) ==> r <= 100.0
    ensures 0 < QuestionsBefore(bank, |bank|) == AnsweredCount(bank, answers, |bank|) ==> r == 100.0
  {
    var total := QuestionsBefore(bank, |bank|);
    var count := AnsweredCount(bank, answers, |bank|);
    if total > 0 then
      ShareAtMostWhole(count, total);
      (count as real / total as real) * 100.0
    else 0.0
  }

  /** Every question strictly before the cursor, in section-major order, is answered. */
  predicate AnsweredBefore(bank: seq<AssessmentSection>, answers: Answers, c: Cursor) {
    forall sec, q ::
      0 <= sec < |bank| && 0 <= q < |bank[sec].questions| && (sec < c.section || (sec == c.section && q < c.question))
      ==> IsQuestionAnswered(bank, answers, Cursor(sec, q))
  }

  /** Every question of the bank is answered. */
  predicate AllAnswered(bank: seq<AssessmentSection>, answers: Answers) {
    forall sec, q :: 0 <= sec < |bank| && 0 <= q < |bank[sec].questions| ==>
      IsQuestionAnswered(bank, answers, Cursor(sec, q))
  }

  /**
   * What holds in every state a session reaches: the cursor names a question, the answers
   * are keyed by exactly the section ids and are ones the controls can record, everything
   * before the cursor is answered, the profile screen shows a fresh state, the later
   * screens carry a profile that passed validation, and the results screen is shown only
   * with every question answered.
   */
  predicate Inv(bank: seq<AssessmentSection>, s: AppState) {
    && InBounds(bank, s.cursor)
    && s.answers.Keys == SectionIds(bank)
    && AnswersFitBank(bank, s.answers)
    && AnsweredBefore(bank, s.answers, s.cursor)
    && (s.step == ProfileStep ==> s.answers == InitialAnswers(bank) && s.cursor == Cursor(0, 0) && s.companyProfile.None?)
    && (s.step != ProfileStep ==> s.companyProfile.Some? && WelcomeScreen.Validate(s.companyProfile.value))
    && (s.step == ResultsStep ==> AllAnswered(bank, s.answers))
  }

  /** The state a handler needs to index the current question and its section's answers. */
  predicate Addressable(bank: seq<AssessmentSection>, s: AppState) {
    InBounds(bank, s.cursor) && bank[s.cursor.section].id in s.answers
  }

  /** What a user can do: on the welcome screen, the assessment screen, or the results screen. */
  datatype UserAction =
    | SubmitProfileForm(profile: CompanyProfile)
    | ClickOption(index: nat)
    | PressBack
    | PressNext
    | PressViewResults
    | PressStartNew

  /**
   * A click on option `k` of the question shown: a radio click records that option, a
   * checkbox click toggles it. A checkbox click over a stored radio answer makes the source
   * throw before anything is recorded, so the state stays as it was.
   */
  function ClickOptionOn(bank: seq<AssessmentSection>, s: AppState, k: nat): (r: AppState)
    requires Addressable(bank, s)
    ensures r.step == s.step && r.companyProfile == s.companyProfile && r.cursor == s.cursor
    ensures r.answers.Keys == s.answers.Keys
    ensures forall id :: id in s.answers && id != bank[s.cursor.section].id ==> r.answers[id] == s.answers[id]
    ensures var q := bank[s.cursor.section].questions[s.cursor.question];
      k >= |q.options| ==> r == s
    ensures var q := bank[s.cursor.section].questions[s.cursor.question];
      k < |q.options| && !q.isMultiSelect ==> CurrentAnswer(bank, r.answers, r.cursor) == Some(SingleSelect(q, q.options[k]))
    ensures var q := bank[s.cursor.section].questions[s.cursor.question];
      var before := CurrentAnswer(bank, s.answers, s.cursor);
      var after := CurrentAnswer(bank, r.answers, r.cursor);
      k < |q.options| && q.isMultiSelect && !(before.Some? && before.value.Single?) ==>
        after.Some? && after.value.Multi? && IsChecked(after, q.options[k]) == !IsChecked(before, q.options[k])
  {
    var q := bank[s.cursor.section].questions[s.cursor.question];
    var sectionId := bank[s.cursor.section].id;
    if k >= |q.options| then s
    else if !q.isMultiSelect then HandleAnswer(s, sectionId, SingleSelect(q, q.options[k]))
    else
      var current := CurrentAnswer(bank, s.answers, s.cursor);
      if current.Some? && current.value.Single? then s
      else HandleAnswer(s, sectionId, ToggleOption(q, current, q.options[k]))
  }

  /**
   * One user action, routed as the rendered screen routes it: the welcome form submits
   * only a profile that validates; Back, Next and View My Results act only when shown and
   * enabled; Start New Assessment restarts. Actions with no control on the current screen
   * change nothing.
   */
  function Step(bank: seq<AssessmentSection>, s: AppState, action: UserAction): (r: AppState)
    requires Addressable(bank, s)
    ensures s.step == ProfileStep && r != s ==>
      action.SubmitProfileForm? && WelcomeScreen.Validate(action.profile) && r.companyProfile == Some(action.profile)
    ensures s.step != ResultsStep && r.step == ResultsStep ==>
      action == PressViewResults && AtFinalQuestion(bank, s.cursor) && IsQuestionAnswered(bank, s.answers, s.cursor)
    ensures r.cursor != s.cursor ==>
      (action == PressNext && IsQuestionAnswered(bank, s.answers, s.cursor)) || action == PressBack || action == PressStartNew
    ensures r.step == ResultsStep && s.step == ResultsStep ==> r == s
  {
    match s.step
    case ProfileStep =>
      if action.SubmitProfileForm? && WelcomeScreen.HandleSubmit(action.profile).1.Some? then
        HandleProfileSubmit(s, action.profile)
      else s
    case AssessmentStep =>
      (match action
       case ClickOption(k) => ClickOptionOn(bank, s, k)
       case PressBack =>
         if BackDisabled(s.cursor) then s else HandleNavigation(bank, s, Prev)
       case PressNext =>
         if ForwardButtonShown(bank, s.cursor) == NextButton && !ForwardDisabled(bank, s.answers, s.cursor)
         then HandleNavigation(bank, s, Next) else s
       case PressViewResults =>
         if ForwardButtonShown(bank, s.cursor) == ViewResultsButton && !ForwardDisabled(bank, s.answers, s.cursor)
         then HandleComplete(s) else s
       case _ => s)
    case ResultsStep =>
      if action == PressStartNew then HandleRestart(bank, s) else s
  }

  /** Distinct section ids, stated pairwise. */
  lemma SectionIdsPairwiseDistinct(bank: seq<AssessmentSection>)
    requires QuestionBank.BankValid(bank)
    ensures forall i, j :: 0 <= i < |bank| && 0 <= j < |bank| && i != j ==> bank[i].id != bank[j].id
  {
    var ids := seq(|bank|, i requires 0 <= i < |bank| => bank[i].id);
    forall i, j | 0 <= i < |bank| && 0 <= j < |bank| && i != j
      ensures bank[i].id != bank[j].id
    {
      assert ids[i] == bank[i].id && ids[j] == bank[j].id;
    }
  }

  lemma InitSatisfiesInv(bank: seq<AssessmentSection>)
    requires QuestionBank.BankValid(bank)
    ensures Inv(bank, Init(bank))
  {
    assert QuestionBank.SectionConsistent(bank[0]);
  }

  /** The stored answer of the question under the cursor, if any, fits that question. */
  lemma CurrentAnswerFits(bank: seq<AssessmentSection>, answers: Answers, c: Cursor)
    requires InBounds(bank, c) && QuestionBank.SectionConsistent(bank[c.section])
    requires AnswersFitBank(bank, answers)
    ensures var current := CurrentAnswer(bank, answers, c);
      current.Some? ==> AnswerFits(bank[c.section].questions[c.question], current.value)
  {
    var section := bank[c.section];
    var current := CurrentAnswer(bank, answers, c);
    if current.Some? {
      var xs := SectionAnswers(answers, section.id);
      var k :| 0 <= k < |xs| && xs[k] == current.value;
      assert FitsSomeQuestion(section.questions, xs[k]);
      var m :| 0 <= m < |section.questions| && AnswerFits(section.questions[m], xs[k]);
      assert section.questions[m].id == section.questions[c.question].id;
    }
  }

  /** Recording an answer that fits the current question keeps every section's answers fitting. */
  lemma RecordKeepsFit(bank: seq<AssessmentSection>, answers: Answers, c: Cursor, a: Answer)
    requires InBounds(bank, c) && bank[c.section].id in answers
    requires forall i, j :: 0 <= i < |bank| && 0 <= j < |bank| && i != j ==> bank[i].id != bank[j].id
    requires AnswersFitBank(bank, answers)
    requires AnswerFits(bank[c.section].questions[c.question], a)
    ensures AnswersFitBank(bank, RecordAnswer(answers, bank[c.section].id, a))
  {
    var sid := bank[c.section].id;
    var after := RecordAnswer(answers, sid, a);
    forall i | 0 <= i < |bank|
      ensures UniqueIds(SectionAnswers(after, bank[i].id))
      ensures forall k :: 0 <= k < |SectionAnswers(after, bank[i].id)| ==>
        FitsSomeQuestion(bank[i].questions, SectionAnswers(after, bank[i].id)[k])
    {
      if i == c.section {
        var xs := answers[sid];
        var ys := Upsert(xs, a);
        assert SectionAnswers(after, sid) == ys;
        UpsertKeepsIdsUnique(xs, a);
        UpsertAddsOnly(xs, a);
        forall k | 0 <= k < |ys|
          ensures FitsSomeQuestion(bank[i].questions, ys[k])
        {
          if ys[k] != a {
            var m :| 0 <= m < |xs| && xs[m] == ys[k];
            assert SectionAnswers(answers, sid)[m] == ys[k];
          }
        }
      } else {
        assert SectionAnswers(after, bank[i].id) == SectionAnswers(answers, bank[i].id);
      }
    }
  }

  /** Recording never un-answers a question. */
  lemma RecordKeepsAnswered(bank: seq<AssessmentSection>, answers: Answers, sid: string, a: Answer, c: Cursor)
    requires sid in answers && InBounds(bank, c)
    requires IsQuestionAnswered(bank, answers, c)
    ensures IsQuestionAnswered(bank, RecordAnswer(answers, sid, a), c)
  {
    var after := RecordAnswer(answers, sid, a);
    var id := bank[c.section].id;
    if id == sid {
      UpsertKeepsAnswered(answers[sid], a, bank[c.section].questions[c.question].id);
    } else {
      assert SectionAnswers(after, id) == SectionAnswers(answers, id);
    }
  }

  lemma RecordKeepsAnsweredBefore(bank: seq<AssessmentSection>, answers: Answers, sid: string, a: Answer, c: Cursor)
    requires sid in answers
    requires AnsweredBefore(bank, answers, c)
    ensures AnsweredBefore(bank, RecordAnswer(answers, sid, a), c)
  {
    forall sec, q | 0 <= sec < |bank| && 0 <= q < |bank[sec].questions| && (sec < c.section || (sec == c.section && q < c.question))
      ensures IsQuestionAnswered(bank, RecordAnswer(answers, sid, a), Cursor(sec, q))
    {
      RecordKeepsAnswered(bank, answers, sid, a, Cursor(sec, q));
    }
  }

  /** Recording an answer that fits the current question keeps the invariant. */
  lemma RecordKeepsInv(bank: seq<AssessmentSection>, s: AppState, a: Answer)
    requires QuestionBank.BankValid(bank) && Inv(bank, s) && s.step == AssessmentStep
    requires AnswerFits(bank[s.cursor.section].questions[s.cursor.question], a)
    ensures Inv(bank, HandleAnswer(s, bank[s.cursor.section].id, a))
  {
    var sid := bank[s.cursor.section].id;
    SectionIdsPairwiseDistinct(bank);
    RecordKeepsFit(bank, s.answers, s.cursor, a);
    RecordKeepsAnsweredBefore(bank, s.answers, sid, a, s.cursor);
  }

  /** A checkbox question never has a radio answer stored, so the click that would throw never happens. */
  lemma CheckboxAnswerIsMulti(bank: seq<AssessmentSection>, s: AppState)
    requires QuestionBank.BankValid(bank) && Inv(bank, s)
    ensures var q := bank[s.cursor.section].questions[s.cursor.question];
      var current := CurrentAnswer(bank, s.answers, s.cursor);
      q.isMultiSelect ==> current.None? || current.value.Multi?
  {
    assert QuestionBank.SectionConsistent(bank[s.cursor.section]);
    CurrentAnswerFits(bank, s.answers, s.cursor);
  }

  /** A click on an option keeps the invariant. */
  lemma ClickKeepsInv(bank: seq<AssessmentSection>, s: AppState, k: nat)
    requires QuestionBank.BankValid(bank) && Inv(bank, s) && s.step == AssessmentStep
    ensures Inv(bank, ClickOptionOn(bank, s, k))
  {
    var q := bank[s.cursor.section].questions[s.cursor.question];
    var sid := bank[s.cursor.section].id;
    var current := CurrentAnswer(bank, s.answers, s.cursor);
    assert QuestionBank.SectionConsistent(bank[s.cursor.section]);
    CurrentAnswerFits(bank, s.answers, s.cursor);
    if k < |q.options| {
      if !q.isMultiSelect {
        var a := SingleSelect(q, q.options[k]);
        SingleSelectFits(q, k);
        RecordKeepsInv(bank, s, a);
        assert ClickOptionOn(bank, s, k) == HandleAnswer(s, sid, a);
      } else {
        assert current.None? || current.value.Multi?;
        var a := ToggleOption(q, current, q.options[k]);
        ToggleFits(q, current, k);
        RecordKeepsInv(bank, s, a);
        assert ClickOptionOn(bank, s, k) == HandleAnswer(s, sid, a);
      }
    } else {
      assert ClickOptionOn(bank, s, k) == s;
    }
  }

  /** Moving forward from an answered question leaves everything behind the new cursor answered. */
  lemma NextKeepsAnsweredBefore(bank: seq<AssessmentSection>, answers: Answers, c: Cursor)
    requires InBounds(bank, c) && AnsweredBefore(bank, answers, c) && IsQuestionAnswered(bank, answers, c)
    ensures AnsweredBefore(bank, answers, MoveNext(bank, c))
  {
  }

  /** Moving back leaves everything behind the new cursor answered. */
  lemma PrevKeepsAnsweredBefore(bank: seq<AssessmentSection>, answers: Answers, c: Cursor)
    requires InBounds(bank, c) && AnsweredBefore(bank, answers, c)
    ensures AnsweredBefore(bank, answers, MovePrev(bank, c))
  {
  }

  /** Everything before the final question, and the final question itself, is everything. */
  lemma FinalAnsweredMeansAll(bank: seq<AssessmentSection>, answers: Answers, c: Cursor)
    requires InBounds(bank, c) && AtFinalQuestion(bank, c)
    requires AnsweredBefore(bank, answers, c) && IsQuestionAnswered(bank, answers, c)
    ensures AllAnswered(bank, answers)
  {
  }

  /** Next, taken from an answered question that is not the last, keeps the invariant. */
  lemma NextKeepsInv(bank: seq<AssessmentSection>, s: AppState)
    requires QuestionBank.BankValid(bank) && Inv(bank, s) && s.step == AssessmentStep
    requires !AtFinalQuestion(bank, s.cursor) && IsQuestionAnswered(bank, s.answers, s.cursor)
    ensures Inv(bank, HandleNavigation(bank, s, Next))
  {
    MovesStayInBounds(bank, s.cursor);
    NextKeepsAnsweredBefore(bank, s.answers, s.cursor);
  }

  /** Back keeps the invariant: it only ever moves to a question already behind the cursor. */
  lemma PrevKeepsInv(bank: seq<AssessmentSection>, s: AppState)
    requires QuestionBank.BankValid(bank) && Inv(bank, s) && s.step == AssessmentStep
    ensures Inv(bank, HandleNavigation(bank, s, Prev))
  {
    MovesStayInBounds(bank, s.cursor);
    PrevKeepsAnsweredBefore(bank, s.answers, s.cursor);
  }

  /** Completing from the answered final question leaves every question answered. */
  lemma CompleteKeepsInv(bank: seq<AssessmentSection>, s: AppState)
    requires QuestionBank.BankValid(bank) && Inv(bank, s) && s.step == AssessmentStep
    requires AtFinalQuestion(bank, s.cursor) && IsQuestionAnswered(bank, s.answers, s.cursor)
    ensures Inv(bank, HandleComplete(s))
  {
    FinalAnsweredMeansAll(bank, s.answers, s.cursor);
  }

  /** Every action keeps the invariant. */
  lemma StepKeepsInv(bank: seq<AssessmentSection>, s: AppState, action: UserAction)
    requires QuestionBank.BankValid(bank) && Inv(bank, s)
    ensures Inv(bank, Step(bank, s, action))
  {
    match s.step
    case ProfileStep =>
    case AssessmentStep =>
      match action {
        case ClickOption(k) => ClickKeepsInv(bank, s, k);
        case PressBack => PrevKeepsInv(bank, s);
        case PressNext =>
          if ForwardButtonShown(bank, s.cursor) == NextButton && !ForwardDisabled(bank, s.answers, s.cursor) {
            NextKeepsInv(bank, s);
          }
        case PressViewResults =>
          if ForwardButtonShown(bank, s.cursor) == ViewResultsButton && !ForwardDisabled(bank, s.answers, s.cursor) {
            CompleteKeepsInv(bank, s);
          }
        case _ =>
      }
    case ResultsStep =>
      InitSatisfiesInv(bank);
  }

  /** The state after a sequence of actions. */
  function Run(bank: seq<AssessmentSection>, s: AppState, actions: seq<UserAction>): (r: AppState)
    requires QuestionBank.BankValid(bank) && Inv(bank, s)
    ensures Inv(bank, r)
    decreases |actions|
  {
    if |actions| == 0 then s
    else
      StepKeepsInv(bank, s, actions[0]);
      Run(bank, Step(bank, s, actions[0]), actions[1..])
  }

  /** A session: the actions a user takes from the initial state, over the shipped bank. */
  function Session(actions: seq<UserAction>): (r: AppState)
    ensures Inv(QuestionBank.Sections, r)
  {
    QuestionBank.BankIsValid();
    InitSatisfiesInv(QuestionBank.Sections);
    Run(QuestionBank.Sections, Init(QuestionBank.Sections), actions)
  }

  /**
   * The results screen is reached only with every question answered and a profile that
   * passed the welcome screen's validation, whatever the user clicked on the way.
   */
  lemma ResultsOnlyWhenComplete(actions: seq<UserAction>)
    ensures var s := Session(actions);
      s.step == ResultsStep ==>
        && AllAnswered(QuestionBank.Sections, s.answers)
        && s.companyProfile.Some? && WelcomeScreen.Validate(s.companyProfile.value)
  {
  }

  /** The section ids of the shipped bank can all be keys of the scores object. */
  lemma BankScoreKeysDistinct()
    ensures ScoreKeysDistinct(QuestionBank.Sections)
  {
    var bank := QuestionBank.Sections;
    QuestionBank.SectionIdsDistinct();
    var ids := seq(|bank|, i requires 0 <= i < |bank| => bank[i].id);
    assert ids == ["section1", "section2", "section3", "section4", "section5", "section6"];
    forall i | 0 <= i < |bank|
      ensures bank[i].id != "total"
    {
      assert ids[i] == bank[i].id;
    }
    forall i, j | 0 <= i < j < |bank|
      ensures bank[i].id != bank[j].id
    {
      assert ids[i] == bank[i].id && ids[j] == bank[j].id;
    }
  }

  /**
   * The scores computed from answers that fit a valid bank: every section's raw score lies
   * between zero and its maximum and its percentage in [0, 100]; the total is out of exactly
   * 100, so its percentage equals its raw score.
   */
  method FittingScores(bank: seq<AssessmentSection>, answers: Answers) returns (scores: Scores)
    requires QuestionBank.BankValid(bank) && ScoreKeysDistinct(bank) && AnswersFitBank(bank, answers)
    ensures |scores.sections| == |bank|
    ensures forall i :: 0 <= i < |scores.sections| ==>
      && 0 <= scores.sections[i].1.rawScore <= scores.sections[i].1.maxScore
      && 0 <= scores.sections[i].1.percentage <= 100
    ensures scores.total.maxScore == 100
    ensures 0 <= scores.total.rawScore == scores.total.percentage <= 100
  {
    scores := ComputeScores(bank, answers);
    FittingAnswersWithinMax(bank, answers);
    TotalsWithinMax(scores.sections);
    PercentageOutOfHundred(scores.total.rawScore);
  }

  /**
   * The scores the results screen is given after any session over the shipped bank; the
   * prompt's "/100" is therefore right.
   */
  method SessionScores(actions: seq<UserAction>) returns (scores: Scores)
    ensures |scores.sections| == 6
    ensures forall i :: 0 <= i < |scores.sections| ==>
      && 0 <= scores.sections[i].1.rawScore <= scores.sections[i].1.maxScore
      && 0 <= scores.sections[i].1.percentage <= 100
    ensures scores.total.maxScore == 100
    ensures 0 <= scores.total.rawScore == scores.total.percentage <= 100
  {
    var s := Session(actions);
    QuestionBank.BankIsValid();
    BankScoreKeysDistinct();
    scores := FittingScores(QuestionBank.Sections, s.answers);
  }

  /** Stored answers never outnumber the questions of the sections they were counted over. */
  lemma {:induction false} AnsweredCountBounded(bank: seq<AssessmentSection>, answers: Answers, n: nat)
    requires n <= |bank|
    requires forall i :: 0 <= i < |bank| ==> |SectionAnswers(answers, bank[i].id)| <= |bank[i].questions|
    ensures AnsweredCount(bank, answers, n) <= QuestionsBefore(bank, n)
  {
    if n > 0 {
      AnsweredCountBounded(bank, answers, n - 1);
    }
  }

  /** In every reachable state the progress value already lies in the bar's [0, 100] range. */
  lemma ProgressWithinBar(bank: seq<AssessmentSection>, answers: Answers)
    requires forall i :: 0 <= i < |bank| ==> QuestionBank.SectionConsistent(bank[i])
    requires AnswersFitBank(bank, answers)
    ensures 0.0 <= TotalProgress(bank, answers) <= 100.0
    ensures ProgressBar.Clamp(TotalProgress(bank, answers)) == TotalProgress(bank, answers)
  {
    FittingAnswersWithinMax(bank, answers);
    AnsweredCountBounded(bank, answers, |bank|);
    var total := QuestionsBefore(bank, |bank|);
    if total > 0 {
      ShareAtMostWhole(AnsweredCount(bank, answers, |bank|), total);
    }
  }

  /** A share of a positive whole, as a percentage: never negative, at most 100 for a part, 100 for the whole. */
  lemma ShareAtMostWhole(part: nat, whole: nat)
    requires 0 < whole
    ensures (part as real / whole as real) * 100.0 * whole as real == part as real * 100.0
    ensures 0.0 <= (part as real / whole as real) * 100.0
    ensures part <= whole ==> (part as real / whole as real) * 100.0 <= 100.0
    ensures part == whole ==> (part as real / whole as real) * 100.0 == 100.0
  {
    var frac := part as real / whole as real;
    assert frac * whole as real == part as real;
  }
}
