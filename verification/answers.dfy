/**
 * The answer store: `handleAnswer` (App.tsx) records an answer in its section's list,
 * replacing the entry for the same question in place or appending a new one; and the
 * lookups the assessment screen makes in it (components/Assessment.tsx).
 */
module AnswerStore {
  import opened Types
  import opened Optional

  /** `findIndex` on question ids: the first entry for `questionId`, or -1. */
  function FindIndex(xs: seq<Answer>, questionId: string): (r: int)
    ensures -1 <= r < |xs|
    ensures r >= 0 ==> xs[r].questionId == questionId && forall k :: 0 <= k < r ==> xs[k].questionId != questionId
    ensures r == -1 <==> forall k :: 0 <= k < |xs| ==> xs[k].questionId != questionId
  {
    if |xs| == 0 then -1
    else
      var k := FindIndex(xs[..|xs| - 1], questionId);
      if k >= 0 then k
      else if xs[|xs| - 1].questionId == questionId then |xs| - 1
      else -1
  }

  /** Upsert of one answer into a section's list, keyed by question id. */
  function Upsert(xs: seq<Answer>, a: Answer): (r: seq<Answer>)
    ensures FindIndex(xs, a.questionId) >= 0 ==>
      |r| == |xs| && r[FindIndex(xs, a.questionId)] == a &&
      forall k :: 0 <= k < |xs| && k != FindIndex(xs, a.questionId) ==> r[k] == xs[k]
    ensures FindIndex(xs, a.questionId) == -1 ==>
      |r| == |xs| + 1 && r[|xs|] == a && r[..|xs|] == xs
  {
    var i := FindIndex(xs, a.questionId);
    if i > -1 then xs[i := a] else xs + [a]
  }

  /** Recording adds `a` and nothing else: every entry afterwards is `a` or was there before. */
  lemma UpsertAddsOnly(xs: seq<Answer>, a: Answer)
    ensures forall k :: 0 <= k < |Upsert(xs, a)| ==> Upsert(xs, a)[k] == a || Upsert(xs, a)[k] in xs
  {
    var r := Upsert(xs, a);
    var i := FindIndex(xs, a.questionId);
    forall k | 0 <= k < |r|
      ensures r[k] == a || r[k] in xs
    {
      if i >= 0 && k != i {
        assert r[k] == xs[k];
      } else if i == -1 && k < |xs| {
        assert r[k] == r[..|xs|][k];
      }
    }
  }

  /** At most one entry per question id. */
  predicate UniqueIds(xs: seq<Answer>) {
    forall i, j :: 0 <= i < j < |xs| ==> xs[i].questionId != xs[j].questionId
  }

  /** `answers[sectionId] || []`: a section with no key reads as no answers. */
  function SectionAnswers(answers: Answers, sectionId: string): seq<Answer> {
    if sectionId in answers then answers[sectionId] else []
  }

  /**
   * `handleAnswer`. The source indexes the section's list without a fallback, so the
   * section must already have a key; the initial store gives every section one.
   */
  function RecordAnswer(answers: Answers, sectionId: string, a: Answer): (r: Answers)
    requires sectionId in answers
    ensures r.Keys == answers.Keys
    ensures forall s :: s in answers && s != sectionId ==> r[s] == answers[s]
    ensures r[sectionId] == Upsert(answers[sectionId], a)
  {
    answers[sectionId := Upsert(answers[sectionId], a)]
  }

  /** `find` on question ids: the first stored answer for a question, if any. */
  function FindAnswer(xs: seq<Answer>, questionId: string): (r: Option<Answer>)
    ensures r.Some? <==> exists k :: 0 <= k < |xs| && xs[k].questionId == questionId
    ensures r.Some? ==> r.value in xs && r.value.questionId == questionId
    ensures r.Some? ==>
      exists k :: 0 <= k < |xs| && xs[k] == r.value && forall j :: 0 <= j < k ==> xs[j].questionId != questionId
  {
    var i := FindIndex(xs, questionId);
    if i >= 0 then Some(xs[i]) else None
  }

  /** `isQuestionAnswered`: the section's list holds an entry for the question. */
  predicate IsAnswered(answers: Answers, sectionId: string, questionId: string) {
    FindAnswer(SectionAnswers(answers, sectionId), questionId).Some?
  }

  /** Re-recording an answered question replaces it: the list does not grow. */
  lemma UpsertReplacesInPlace(xs: seq<Answer>, a: Answer, i: nat)
    requires i < |xs| && xs[i].questionId == a.questionId
    requires UniqueIds(xs)
    ensures |Upsert(xs, a)| == |xs|
    ensures Upsert(xs, a) == xs[i := a]
  {
  }

  /** Recording keeps question ids unique within a section. */
  lemma UpsertKeepsIdsUnique(xs: seq<Answer>, a: Answer)
    requires UniqueIds(xs)
    ensures UniqueIds(Upsert(xs, a))
  {
  }

  /** Recording never forgets a question: whatever was answered stays answered, and so is the new one. */
  lemma UpsertKeepsAnswered(xs: seq<Answer>, a: Answer, questionId: string)
    ensures FindAnswer(Upsert(xs, a), a.questionId) == Some(a)
    ensures FindAnswer(xs, questionId).Some? ==> FindAnswer(Upsert(xs, a), questionId).Some?
  {
    var r := Upsert(xs, a);
    var i := FindIndex(xs, a.questionId);
    if i >= 0 {
      assert FindIndex(r, a.questionId) == i;
    } else {
      assert FindIndex(r, a.questionId) == |xs|;
    }
    if FindAnswer(xs, questionId).Some? {
      var k := FindIndex(xs, questionId);
      if i >= 0 && k == i {
        assert r[k].questionId == questionId;
      } else {
        assert r[k].questionId == questionId;
      }
    }
  }

  /** Sum of the points of a list of answers. */
  function SumPoints(xs: seq<Answer>): int {
    if |xs| == 0 then 0 else SumPoints(xs[..|xs| - 1]) + xs[|xs| - 1].points
  }

  /** Changing one entry changes the sum by the difference of the points. */
  lemma {:induction false} SumPointsUpdate(xs: seq<Answer>, i: nat, a: Answer)
    requires i < |xs|
    ensures SumPoints(xs[i := a]) == SumPoints(xs) - xs[i].points + a.points
  {
    var ys := xs[i := a];
    if i == |xs| - 1 {
      assert ys[..|ys| - 1] == xs[..|xs| - 1];
    } else {
      assert ys[..|ys| - 1] == xs[..|xs| - 1][i := a];
      SumPointsUpdate(xs[..|xs| - 1], i, a);
    }
  }

  /**
   * Effect of recording on a section's raw score: a replaced answer's points are
   * traded for the new ones, an appended answer adds its points.
   */
  lemma SumPointsUpsert(xs: seq<Answer>, a: Answer)
    ensures var i := FindIndex(xs, a.questionId);
      SumPoints(Upsert(xs, a)) == SumPoints(xs) + a.points - (if i >= 0 then xs[i].points else 0)
  {
    var i := FindIndex(xs, a.questionId);
    if i >= 0 {
      SumPointsUpdate(xs, i, a);
    } else {
      assert (xs + [a])[..|xs|] == xs;
    }
  }
}
