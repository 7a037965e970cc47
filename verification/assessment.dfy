/**
 * The assessment screen (components/Assessment.tsx): which answer is shown for the
 * current question, and when Back, Next and "View My Results" are offered and enabled.
 */
module Assessment {
  import opened Types
  import opened Optional
  import opened AnswerStore
  import opened Navigation

  /**
   * `currentAnswer`: the first answer stored for the question under the cursor in its
   * section's list (an absent key reads as an empty list), if any.
   */
  function CurrentAnswer(bank: seq<AssessmentSection>, answers: Answers, c: Cursor): (r: Option<Answer>)
    requires InBounds(bank, c)
    ensures var xs := SectionAnswers(answers, bank[c.section].id);
      var qid := bank[c.section].questions[c.question].id;
      r.Some? <==> exists k :: 0 <= k < |xs| && xs[k].questionId == qid
    ensures r.Some? ==> r.value.questionId == bank[c.section].questions[c.question].id
    ensures r.Some? ==> r.value in SectionAnswers(answers, bank[c.section].id)
    ensures var xs := SectionAnswers(answers, bank[c.section].id);
      var qid := bank[c.section].questions[c.question].id;
      r.Some? ==> exists k :: 0 <= k < |xs| && xs[k] == r.value && forall j :: 0 <= j < k ==> xs[j].questionId != qid
  {
    FindAnswer(SectionAnswers(answers, bank[c.section].id), bank[c.section].questions[c.question].id)
  }

  /** `isQuestionAnswered`. */
  predicate IsQuestionAnswered(bank: seq<AssessmentSection>, answers: Answers, c: Cursor)
    requires InBounds(bank, c)
  {
    CurrentAnswer(bank, answers, c).Some?
  }

  /** The answered test in terms of the section's list: some entry carries the question's id. */
  lemma AnsweredMeansEntryPresent(bank: seq<AssessmentSection>, answers: Answers, c: Cursor)
    requires InBounds(bank, c)
    ensures IsQuestionAnswered(bank, answers, c) <==>
      bank[c.section].id in answers &&
      exists k :: 0 <= k < |answers[bank[c.section].id]| &&
        answers[bank[c.section].id][k].questionId == bank[c.section].questions[c.question].id
  {
  }

  /** The Back button is disabled on the first question of the first section. */
  predicate BackDisabled(c: Cursor) {
    c.section == 0 && c.question == 0
  }

  datatype ForwardButton = NextButton | ViewResultsButton

  /** "View My Results" replaces Next on the last question of the assessment. */
  function ForwardButtonShown(bank: seq<AssessmentSection>, c: Cursor): (b: ForwardButton)
    requires 0 <= c.section < |bank|
    ensures b == ViewResultsButton <==> AtFinalQuestion(bank, c)
  {
    if AtFinalQuestion(bank, c) then ViewResultsButton else NextButton
  }

  /** Next and View My Results are both disabled while the question is unanswered. */
  predicate ForwardDisabled(bank: seq<AssessmentSection>, answers: Answers, c: Cursor)
    requires InBounds(bank, c)
  {
    !IsQuestionAnswered(bank, answers, c)
  }

  /** Back is disabled exactly where `prev` would not move. */
  lemma BackDisabledIffPrevIsNoOp(bank: seq<AssessmentSection>, c: Cursor)
    requires NonEmptySections(bank) && InBounds(bank, c)
    ensures BackDisabled(c) <==> MovePrev(bank, c) == c
  {
    PrevIsNoOpOnlyAtStart(bank, c);
  }

  /** "View My Results" is shown exactly where `next` would not move. */
  lemma ViewResultsIffNextIsNoOp(bank: seq<AssessmentSection>, c: Cursor)
    requires InBounds(bank, c)
    ensures ForwardButtonShown(bank, c) == ViewResultsButton <==> MoveNext(bank, c) == c
  {
    NextIsNoOpOnlyAtEnd(bank, c);
  }

  /** A checkbox answer whose boxes were all cleared is still an answer: the question stays answered. */
  lemma ClearedSelectionStillAnswered(bank: seq<AssessmentSection>, answers: Answers, c: Cursor)
    requires InBounds(bank, c) && bank[c.section].id in answers
    ensures var a := Multi(bank[c.section].questions[c.question].id, 0, []);
      IsQuestionAnswered(bank, RecordAnswer(answers, bank[c.section].id, a), c)
  {
    var a := Multi(bank[c.section].questions[c.question].id, 0, []);
    UpsertKeepsAnswered(answers[bank[c.section].id], a, a.questionId);
  }
}
