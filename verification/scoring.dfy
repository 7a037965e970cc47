/** The `scores` memo of App.tsx: per-section raw score, maximum and percentage, plus the total. */
module Scoring {
  import opened Types
  import opened AnswerStore
  import QuestionBank
  import QuestionnaireSection

  /**
   * `Math.round(raw / max * 100)` computed exactly: the integer nearest to 100·raw/max,
   * halves rounded up; 0 when the maximum is not positive.
   */
  function Percentage(raw: int, max: int): (p: int)
    ensures max <= 0 ==> p == 0
    ensures max > 0 && 0 <= raw <= max ==> 0 <= p <= 100
  {
    if max > 0 then
      var p := (200 * raw + max) / (2 * max);
      PercentageBounds(raw, max, p);
      p
    else 0
  }

  /**
   * The percentage is the integer nearest to 100·raw/max, halves rounded up:
   * p - 1/2 <= 100·raw/max < p + 1/2.
   */
  lemma PercentageRounds(raw: int, max: int)
    requires max > 0
    ensures var p := Percentage(raw, max); 2 * max * p - max <= 200 * raw < 2 * max * p + max
  {
    PercentageBounds(raw, max, Percentage(raw, max));
  }

  lemma PercentageOfNothing(max: int)
    ensures Percentage(0, max) == 0
  {
    if max > 0 {
      assert 200 * 0 + max < 2 * max;
    }
  }

  /** Out of a maximum of 100 the percentage is the raw score itself. */
  lemma PercentageOutOfHundred(raw: int)
    ensures Percentage(raw, 100) == raw
  {
    assert 200 * raw + 100 == 200 * raw + 100 % 200;
  }

  /** Floor division characterises the rounding, and keeps a fraction in [0, 1] within [0, 100]. */
  lemma PercentageBounds(raw: int, max: int, p: int)
    requires max > 0 && p == (200 * raw + max) / (2 * max)
    ensures 2 * max * p - max <= 200 * raw < 2 * max * p + max
    ensures 0 <= raw <= max ==> 0 <= p <= 100
  {
    var d := 2 * max;
    var n := 200 * raw + max;
    var dp := d * p;
    assert n == dp + n % d;
    assert 2 * max * p == dp;
    if 0 <= raw <= max {
      if p > 100 {
        MulMonotone(d, 101, p);
      }
      if p < 0 {
        MulMonotone(d, p, -1);
      }
    }
  }

  lemma MulMonotone(d: int, a: int, b: int)
    requires d > 0 && a <= b
    ensures d * a <= d * b
  {
    assert d * b - d * a == d * (b - a);
  }

  /** Percentage of exact shares; for example 7 of 20 is 35 and 1 of 8 rounds 12.5 up to 13. */
  lemma PercentageExamples()
    ensures Percentage(7, 20) == 35
    ensures Percentage(1, 8) == 13
    ensures Percentage(1, 3) == 33 && Percentage(2, 3) == 67
    ensures Percentage(0, 0) == 0 && Percentage(62, 100) == 62
  {
  }

  /** One section's entry: the points of its recorded answers over its declared maximum. */
  function ScoreSection(section: AssessmentSection, answers: Answers): (r: SectionScore)
    ensures r.maxScore == section.maxPoints
  {
    var raw := SumPoints(SectionAnswers(answers, section.id));
    SectionScore(raw, section.maxPoints, Percentage(raw, section.maxPoints))
  }

  /** Sum of the raw scores of a list of entries. */
  function TotalRaw(entries: seq<(string, SectionScore)>): int {
    if |entries| == 0 then 0 else TotalRaw(entries[..|entries| - 1]) + entries[|entries| - 1].1.rawScore
  }

  /** Sum of the maxima of a list of entries. */
  function TotalMax(entries: seq<(string, SectionScore)>): int {
    if |entries| == 0 then 0 else TotalMax(entries[..|entries| - 1]) + entries[|entries| - 1].1.maxScore
  }

  /** Section ids are keys of one object: distinct, and none collides with `total`. */
  predicate ScoreKeysDistinct(bank: seq<AssessmentSection>) {
    && (forall i, j :: 0 <= i < j < |bank| ==> bank[i].id != bank[j].id)
    && (forall i :: 0 <= i < |bank| ==> bank[i].id != "total")
  }

  /** No section has a recorded answer, as right after a start or a restart. */
  predicate NoAnswers(bank: seq<AssessmentSection>, answers: Answers) {
    forall i :: 0 <= i < |bank| ==> SectionAnswers(answers, bank[i].id) == []
  }

  lemma {:induction false} ZeroTotals(entries: seq<(string, SectionScore)>)
    requires forall k :: 0 <= k < |entries| ==> entries[k].1.rawScore == 0
    ensures TotalRaw(entries) == 0
  {
    if |entries| > 0 {
      ZeroTotals(entries[..|entries| - 1]);
    }
  }

  lemma {:induction false} TotalsWithinMax(entries: seq<(string, SectionScore)>)
    requires forall k :: 0 <= k < |entries| ==> 0 <= entries[k].1.rawScore <= entries[k].1.maxScore
    ensures 0 <= TotalRaw(entries) <= TotalMax(entries)
  {
    if |entries| > 0 {
      TotalsWithinMax(entries[..|entries| - 1]);
    }
  }

  /** The maxima of the first `k` entries plus those of `bank[k..]` make the bank's total. */
  lemma {:induction false} TotalMaxIsBankMax(bank: seq<AssessmentSection>, entries: seq<(string, SectionScore)>, k: nat)
    requires |entries| == |bank| && k <= |bank|
    requires forall i :: 0 <= i < |bank| ==> entries[i].1.maxScore == bank[i].maxPoints
    ensures TotalMax(entries[..k]) + QuestionBank.BankMax(bank, k) == QuestionBank.BankMax(bank)
  {
    if k > 0 {
      TotalMaxIsBankMax(bank, entries, k - 1);
      assert entries[..k][..k - 1] == entries[..k - 1];
    }
  }

  /**
   * The `scores` memo: one pass over the sections that records each section's entry and
   * accumulates the grand totals.
   */
  method ComputeScores(bank: seq<AssessmentSection>, answers: Answers) returns (scores: Scores)
    requires ScoreKeysDistinct(bank)
    ensures |scores.sections| == |bank|
    ensures forall i :: 0 <= i < |bank| ==>
      && scores.sections[i].0 == bank[i].id
      && scores.sections[i].1.rawScore == SumPoints(SectionAnswers(answers, bank[i].id))
      && scores.sections[i].1.maxScore == bank[i].maxPoints
      && scores.sections[i].1.percentage == Percentage(scores.sections[i].1.rawScore, bank[i].maxPoints)
    ensures scores.total.rawScore == TotalRaw(scores.sections)
    ensures scores.total.maxScore == TotalMax(scores.sections) == QuestionBank.BankMax(bank)
    ensures scores.total.percentage == Percentage(scores.total.rawScore, scores.total.maxScore)
    ensures NoAnswers(bank, answers) ==>
      scores.total.rawScore == 0 && scores.total.percentage == 0 &&
      forall i :: 0 <= i < |bank| ==> scores.sections[i].1.rawScore == 0 && scores.sections[i].1.percentage == 0
  {
    var grandTotalRaw := 0;
    var grandTotalMax := 0;
    var entries: seq<(string, SectionScore)> := [];
    var i := 0;
    while i < |bank|
      invariant 0 <= i <= |bank|
      invariant |entries| == i
      invariant forall k :: 0 <= k < i ==> entries[k] == (bank[k].id, ScoreSection(bank[k], answers))
      invariant grandTotalRaw == TotalRaw(entries)
      invariant grandTotalMax == TotalMax(entries)
    {
      var section := bank[i];
      var entry := ScoreSection(section, answers);
      grandTotalRaw := grandTotalRaw + entry.rawScore;
      grandTotalMax := grandTotalMax + entry.maxScore;
      assert (entries + [(section.id, entry)])[..|entries|] == entries;
      entries := entries + [(section.id, entry)];
      i := i + 1;
    }
    TotalMaxIsBankMax(bank, entries, |bank|);
    assert entries[..|bank|] == entries;
    if NoAnswers(bank, answers) {
      forall k | 0 <= k < |entries|
        ensures entries[k].1.rawScore == 0 && entries[k].1.percentage == 0
      {
        assert SectionAnswers(answers, bank[k].id) == [];
        PercentageOfNothing(bank[k].maxPoints);
      }
      ZeroTotals(entries);
      PercentageOfNothing(grandTotalMax);
    }

    scores := Scores(entries, SectionScore(grandTotalRaw, grandTotalMax, Percentage(grandTotalRaw, grandTotalMax)));
  }

  /** Every section's raw score lies between zero and the section's declared maximum. */
  predicate SectionsWithinMax(bank: seq<AssessmentSection>, answers: Answers) {
    forall i :: 0 <= i < |bank| ==> 0 <= SumPoints(SectionAnswers(answers, bank[i].id)) <= bank[i].maxPoints
  }

  /** `a` answers one of the questions `qs`, as that question's controls would record it. */
  predicate FitsSomeQuestion(qs: seq<Question>, a: Answer) {
    exists j :: 0 <= j < |qs| && QuestionnaireSection.AnswerFits(qs[j], a)
  }

  /**
   * The answers stored under each section are what the questionnaire can record there:
   * at most one per question id, each one a fitting answer to a question of that section.
   */
  predicate AnswersFitBank(bank: seq<AssessmentSection>, answers: Answers) {
    forall i :: 0 <= i < |bank| ==>
      && UniqueIds(SectionAnswers(answers, bank[i].id))
      && forall k :: 0 <= k < |SectionAnswers(answers, bank[i].id)| ==>
           FitsSomeQuestion(bank[i].questions, SectionAnswers(answers, bank[i].id)[k])
  }

  lemma {:induction false} SumQuestionMaxShift(a: seq<Question>, b: seq<Question>, m: nat)
    requires m <= |b|
    ensures QuestionBank.SumQuestionMax(a + b, |a| + m) == QuestionBank.SumQuestionMax(b, m)
    decreases |b| - m
  {
    if m < |b| {
      assert (a + b)[|a| + m] == b[m];
      SumQuestionMaxShift(a, b, m + 1);
    }
  }

  lemma {:induction false} SumQuestionMaxConcat(a: seq<Question>, b: seq<Question>, k: nat)
    requires k <= |a|
    ensures QuestionBank.SumQuestionMax(a + b, k) == QuestionBank.SumQuestionMax(a, k) + QuestionBank.SumQuestionMax(b)
    decreases |a| - k
  {
    if k == |a| {
      SumQuestionMaxShift(a, b, 0);
    } else {
      assert (a + b)[k] == a[k];
      SumQuestionMaxConcat(a, b, k + 1);
    }
  }

  /** Taking question `j` out of a list takes its maximum out of the sum. */
  lemma SumQuestionMaxRemove(qs: seq<Question>, j: nat)
    requires j < |qs|
    ensures QuestionBank.SumQuestionMax(qs) == QuestionBank.SumQuestionMax(qs[..j] + qs[j + 1..]) + qs[j].maxPoints
  {
    assert qs == qs[..j] + ([qs[j]] + qs[j + 1..]);
    SumQuestionMaxConcat(qs[..j], [qs[j]] + qs[j + 1..], 0);
    SumQuestionMaxConcat([qs[j]], qs[j + 1..], 0);
    SumQuestionMaxConcat(qs[..j], qs[j + 1..], 0);
    assert QuestionBank.SumQuestionMax([qs[j]], 1) == 0;
  }

  lemma {:induction false} SumQuestionMaxNonNegative(qs: seq<Question>, i: nat)
    requires forall j :: 0 <= j < |qs| ==> QuestionBank.QuestionConsistent(qs[j])
    ensures QuestionBank.SumQuestionMax(qs, i) >= 0
    decreases |qs| - i
  {
    if i < |qs| {
      var q := qs[i];
      assert QuestionBank.SumQuestionMax(qs, i) == q.maxPoints + QuestionBank.SumQuestionMax(qs, i + 1);
      QuestionnaireSection.MaxPointsNonNegative(q);
      SumQuestionMaxNonNegative(qs, i + 1);
    }
  }

  /** Answers other than the last still fit once the last one's question is taken out. */
  lemma FitsAfterRemoval(qs: seq<Question>, j: nat, xs: seq<Answer>)
    requires j < |qs| && 0 < |xs| && UniqueIds(xs)
    requires QuestionnaireSection.AnswerFits(qs[j], xs[|xs| - 1])
    requires forall k :: 0 <= k < |xs| ==> FitsSomeQuestion(qs, xs[k])
    ensures forall k :: 0 <= k < |xs| - 1 ==> FitsSomeQuestion(qs[..j] + qs[j + 1..], xs[k])
  {
    var rest := qs[..j] + qs[j + 1..];
    forall k | 0 <= k < |xs| - 1
      ensures FitsSomeQuestion(rest, xs[k])
    {
      var m :| 0 <= m < |qs| && QuestionnaireSection.AnswerFits(qs[m], xs[k]);
      assert xs[k].questionId != xs[|xs| - 1].questionId;
      if m < j {
        assert rest[m] == qs[m];
      } else {
        assert rest[m - 1] == qs[m];
      }
    }
  }

  lemma ConsistentAfterRemoval(qs: seq<Question>, j: nat, rest: seq<Question>)
    requires j < |qs| && rest == qs[..j] + qs[j + 1..]
    requires forall m :: 0 <= m < |qs| ==> QuestionBank.QuestionConsistent(qs[m])
    ensures forall m :: 0 <= m < |rest| ==> QuestionBank.QuestionConsistent(rest[m])
  {
    forall m | 0 <= m < |rest|
      ensures QuestionBank.QuestionConsistent(rest[m])
    {
      if m < j {
        assert rest[m] == qs[m];
      } else {
        assert rest[m] == qs[m + 1];
      }
    }
  }

  /**
   * Answers with distinct question ids, each fitting one of `qs`, are no more numerous
   * than the questions and score between zero and the sum of the questions' maxima.
   */
  lemma {:induction false} AnswersWithinMax(qs: seq<Question>, xs: seq<Answer>)
    requires forall j :: 0 <= j < |qs| ==> QuestionBank.QuestionConsistent(qs[j])
    requires UniqueIds(xs)
    requires forall k :: 0 <= k < |xs| ==> FitsSomeQuestion(qs, xs[k])
    ensures 0 <= SumPoints(xs) <= QuestionBank.SumQuestionMax(qs)
    ensures |xs| <= |qs|
    decreases |xs|
  {
    if |xs| > 0 {
      var n := |xs| - 1;
      var init := xs[..n];
      var j :| 0 <= j < |qs| && QuestionnaireSection.AnswerFits(qs[j], xs[n]);
      QuestionnaireSection.AnswerPointsBounded(qs[j], xs[n]);
      var rest := qs[..j] + qs[j + 1..];
      FitsAfterRemoval(qs, j, xs);
      ConsistentAfterRemoval(qs, j, rest);
      assert UniqueIds(init);
      AnswersWithinMax(rest, init);
      SumQuestionMaxRemove(qs, j);
      assert SumPoints(xs) == SumPoints(init) + xs[n].points;
    } else {
      SumQuestionMaxNonNegative(qs, 0);
    }
  }

  /** In a consistent bank, answers that fit keep every section within its maximum. */
  lemma FittingAnswersWithinMax(bank: seq<AssessmentSection>, answers: Answers)
    requires forall i :: 0 <= i < |bank| ==> QuestionBank.SectionConsistent(bank[i])
    requires AnswersFitBank(bank, answers)
    ensures SectionsWithinMax(bank, answers)
    ensures forall i :: 0 <= i < |bank| ==> |SectionAnswers(answers, bank[i].id)| <= |bank[i].questions|
  {
    forall i | 0 <= i < |bank|
      ensures 0 <= SumPoints(SectionAnswers(answers, bank[i].id)) <= bank[i].maxPoints
      ensures |SectionAnswers(answers, bank[i].id)| <= |bank[i].questions|
    {
      AnswersWithinMax(bank[i].questions, SectionAnswers(answers, bank[i].id));
    }
  }
}
