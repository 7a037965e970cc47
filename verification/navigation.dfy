/**
 * The two-level (section, question) cursor and `handleNavigation` (App.tsx), which
 * moves it one question forward or back in section-major order.
 */
module Navigation {
  import opened Types

  datatype Cursor = Cursor(section: int, question: int)

  datatype Direction = Next | Prev

  /** Every section has at least one question, so "the last question" is defined. */
  predicate NonEmptySections(bank: seq<AssessmentSection>) {
    forall i :: 0 <= i < |bank| ==> |bank[i].questions| > 0
  }

  /** The cursor names an existing question. */
  predicate InBounds(bank: seq<AssessmentSection>, c: Cursor) {
    0 <= c.section < |bank| && 0 <= c.question < |bank[c.section].questions|
  }

  /** Forward move: next question of the section, else first question of the next section, else stay. */
  function MoveNext(bank: seq<AssessmentSection>, c: Cursor): (r: Cursor)
    requires 0 <= c.section < |bank|
    ensures r.section == c.section || r == Cursor(c.section + 1, 0)
  {
    if c.question == |bank[c.section].questions| - 1 then
      if c.section < |bank| - 1 then Cursor(c.section + 1, 0) else c
    else
      Cursor(c.section, c.question + 1)
  }

  /** Backward move: previous question of the section, else last question of the previous section, else stay. */
  function MovePrev(bank: seq<AssessmentSection>, c: Cursor): (r: Cursor)
    requires 0 <= c.section < |bank|
    ensures r.section == c.section || (0 < c.section && r == Cursor(c.section - 1, |bank[c.section - 1].questions| - 1))
  {
    if c.question == 0 then
      if c.section > 0 then Cursor(c.section - 1, |bank[c.section - 1].questions| - 1) else c
    else
      Cursor(c.section, c.question - 1)
  }

  /** `handleNavigation(direction)`. */
  function Navigate(bank: seq<AssessmentSection>, c: Cursor, d: Direction): (r: Cursor)
    requires 0 <= c.section < |bank|
    ensures d == Next ==> r == MoveNext(bank, c)
    ensures d == Prev ==> r == MovePrev(bank, c)
  {
    match d
    case Next => MoveNext(bank, c)
    case Prev => MovePrev(bank, c)
  }

  /** Number of questions in `bank[..s]`. */
  function QuestionsBefore(bank: seq<AssessmentSection>, s: nat): nat
    requires s <= |bank|
  {
    if s == 0 then 0 else QuestionsBefore(bank, s - 1) + |bank[s - 1].questions|
  }

  /** Section-major position of an in-bounds cursor. */
  function Position(bank: seq<AssessmentSection>, c: Cursor): nat
    requires InBounds(bank, c)
  {
    QuestionsBefore(bank, c.section) + c.question
  }

  /** The cursor is on the last question of the last section. */
  predicate AtFinalQuestion(bank: seq<AssessmentSection>, c: Cursor)
    requires 0 <= c.section < |bank|
  {
    c.section == |bank| - 1 && c.question == |bank[c.section].questions| - 1
  }

  /** Both moves keep an in-bounds cursor in bounds when no section is empty. */
  lemma MovesStayInBounds(bank: seq<AssessmentSection>, c: Cursor)
    requires NonEmptySections(bank) && InBounds(bank, c)
    ensures InBounds(bank, MoveNext(bank, c))
    ensures InBounds(bank, MovePrev(bank, c))
  {
  }

  /** `next` is a no-op exactly at the final question. */
  lemma NextIsNoOpOnlyAtEnd(bank: seq<AssessmentSection>, c: Cursor)
    requires InBounds(bank, c)
    ensures MoveNext(bank, c) == c <==> AtFinalQuestion(bank, c)
  {
  }

  /** `prev` is a no-op exactly at the first question of the first section. */
  lemma PrevIsNoOpOnlyAtStart(bank: seq<AssessmentSection>, c: Cursor)
    requires NonEmptySections(bank) && InBounds(bank, c)
    ensures MovePrev(bank, c) == c <==> c == Cursor(0, 0)
  {
  }

  /** `prev` undoes `next` everywhere but at the final question. */
  lemma PrevUndoesNext(bank: seq<AssessmentSection>, c: Cursor)
    requires NonEmptySections(bank) && InBounds(bank, c) && !AtFinalQuestion(bank, c)
    ensures MovePrev(bank, MoveNext(bank, c)) == c
  {
  }

  /** `next` undoes `prev` everywhere but at the very first question. */
  lemma NextUndoesPrev(bank: seq<AssessmentSection>, c: Cursor)
    requires NonEmptySections(bank) && InBounds(bank, c) && c != Cursor(0, 0)
    ensures MoveNext(bank, MovePrev(bank, c)) == c
  {
  }

  /** `next` moves exactly one step forward in section-major order, `prev` one step back. */
  lemma MovesStepPosition(bank: seq<AssessmentSection>, c: Cursor)
    requires NonEmptySections(bank) && InBounds(bank, c)
    ensures !AtFinalQuestion(bank, c) ==> InBounds(bank, MoveNext(bank, c)) && Position(bank, MoveNext(bank, c)) == Position(bank, c) + 1
    ensures c != Cursor(0, 0) ==> InBounds(bank, MovePrev(bank, c)) && Position(bank, MovePrev(bank, c)) + 1 == Position(bank, c)
  {
  }

  /** Positions of in-bounds cursors are below the total number of questions. */
  lemma {:induction false} PositionBelowTotal(bank: seq<AssessmentSection>, c: Cursor)
    requires InBounds(bank, c)
    ensures Position(bank, c) < QuestionsBefore(bank, |bank|)
  {
    QuestionsBeforeMonotone(bank, c.section + 1, |bank|);
  }

  lemma {:induction false} QuestionsBeforeMonotone(bank: seq<AssessmentSection>, s: nat, t: nat)
    requires s <= t <= |bank|
    ensures QuestionsBefore(bank, s) <= QuestionsBefore(bank, t)
    decreases t - s
  {
    if s < t {
      QuestionsBeforeMonotone(bank, s, t - 1);
    }
  }
}
