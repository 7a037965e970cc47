/**
 * Building answers from option clicks and the help text of a question
 * (components/QuestionnaireSection.tsx).
 */
module QuestionnaireSection {
  import opened Types
  import opened Optional
  import opened Strings
  import QuestionBank

  /** `handleSingleSelectChange`: a radio click answers with the chosen option. */
  function SingleSelect(q: Question, option: QuestionOption): (r: Answer)
    ensures r.Single? && r.questionId == q.id
    ensures r.points == option.points && r.selectedOptionText == option.text
  {
    Single(q.id, option.points, option.text)
  }

  /** `selectedOptions.filter(opt => opt !== text)`. */
  function RemoveAll(xs: seq<string>, text: string): (r: seq<string>)
    ensures text !in r
    ensures forall y :: y != text ==> multiset(r)[y] == multiset(xs)[y]
    ensures |r| <= |xs|
  {
    if |xs| == 0 then []
    else
      var init := RemoveAll(xs[..|xs| - 1], text);
      assert xs == xs[..|xs| - 1] + [xs[|xs| - 1]];
      if xs[|xs| - 1] == text then init else init + [xs[|xs| - 1]]
  }

  /** Removing a text that is absent changes nothing. */
  lemma {:induction false} RemoveAbsent(xs: seq<string>, text: string)
    requires text !in xs
    ensures RemoveAll(xs, text) == xs
  {
    if |xs| > 0 {
      RemoveAbsent(xs[..|xs| - 1], text);
      assert xs == xs[..|xs| - 1] + [xs[|xs| - 1]];
    }
  }

  /**
   * `RemoveAll` is `filter`: it distributes over concatenation, and (`RemoveAllSingle`)
   * keeps a single text exactly when it differs from the one removed; so the survivors
   * keep their order.
   */
  lemma {:induction false} RemoveAllConcat(a: seq<string>, b: seq<string>, text: string)
    ensures RemoveAll(a + b, text) == RemoveAll(a, text) + RemoveAll(b, text)
    decreases |b|
  {
    if |b| == 0 {
      assert a + b == a;
    } else {
      var init := b[..|b| - 1];
      RemoveAllConcat(a, init, text);
      assert (a + b)[..|a + b| - 1] == a + init;
      assert (a + b)[|a + b| - 1] == b[|b| - 1];
    }
  }

  /** A single text survives exactly when it is not the one removed. */
  lemma RemoveAllSingle(x: string, text: string)
    ensures RemoveAll([x], text) == (if x == text then [] else [x])
  {
  }

  /** Filtering a list without repeats leaves a list without repeats. */
  lemma {:induction false} RemoveAllKeepsDistinct(xs: seq<string>, text: string)
    requires forall i, j :: 0 <= i < j < |xs| ==> xs[i] != xs[j]
    ensures forall i, j :: 0 <= i < j < |RemoveAll(xs, text)| ==> RemoveAll(xs, text)[i] != RemoveAll(xs, text)[j]
  {
    if |xs| > 0 {
      var init := xs[..|xs| - 1];
      var last := xs[|xs| - 1];
      RemoveAllKeepsDistinct(init, text);
      if last != text {
        assert last !in init;
        assert multiset(RemoveAll(init, text))[last] == multiset(init)[last] == 0;
        assert last !in RemoveAll(init, text);
      }
    }
  }

  /** The answer a checkbox click starts from: the stored one, or an empty selection. */
  function BaseAnswer(q: Question, current: Option<Answer>): (r: Answer)
    requires current.None? || current.value.Multi?
    ensures r.Multi?
  {
    match current
    case Some(a) => a
    case None => Multi(q.id, 0, [])
  }

  /**
   * `handleMultiSelectChange`: a checked box appends its text, an unchecked box removes
   * every copy of it; the points are the selection size times the first option's points.
   * The source reads the stored answer as a checkbox answer and reads `options[0]`.
   */
  function MultiSelectChange(q: Question, current: Option<Answer>, option: QuestionOption, isChecked: bool): (r: Answer)
    requires current.None? || current.value.Multi?
    requires |q.options| > 0
    ensures r.Multi?
    ensures r.questionId == (if current.Some? then current.value.questionId else q.id)
    ensures isChecked ==> r.selectedOptions == BaseAnswer(q, current).selectedOptions + [option.text]
    ensures !isChecked ==> option.text !in r.selectedOptions
    ensures !isChecked ==> forall t :: t != option.text ==>
      multiset(r.selectedOptions)[t] == multiset(BaseAnswer(q, current).selectedOptions)[t]
    ensures r.points == |r.selectedOptions| * q.options[0].points
  {
    var base := BaseAnswer(q, current);
    var selected := if isChecked then base.selectedOptions + [option.text] else RemoveAll(base.selectedOptions, option.text);
    base.(selectedOptions := selected, points := |selected| * q.options[0].points)
  }

  /** The box is shown checked when the stored selection contains its text. */
  predicate IsChecked(current: Option<Answer>, option: QuestionOption) {
    current.Some? && current.value.Multi? && option.text in current.value.selectedOptions
  }

  /** A click on a checkbox: the browser reports the state opposite to the one shown. */
  function ToggleOption(q: Question, current: Option<Answer>, option: QuestionOption): (r: Answer)
    requires current.None? || current.value.Multi?
    requires |q.options| > 0
    ensures r.Multi?
    ensures IsChecked(Some(r), option) == !IsChecked(current, option)
  {
    MultiSelectChange(q, current, option, !IsChecked(current, option))
  }

  /** The stored points agree with the selection. */
  predicate PointsMatchSelection(q: Question, a: Answer)
    requires |q.options| > 0
  {
    a.Multi? && a.points == |a.selectedOptions| * q.options[0].points
  }

  /** Three of the seven one-point boxes of a question like q6_2 give three points. */
  lemma ThreeOfSevenOnePointBoxes(q: Question, o1: QuestionOption, o2: QuestionOption, o3: QuestionOption)
    requires |q.options| == 7 && q.options[0].points == 1
    requires o1.text != o2.text && o2.text != o3.text && o1.text != o3.text
    ensures MultiSelectChange(q, Some(MultiSelectChange(q, Some(MultiSelectChange(q, None, o1, true)), o2, true)), o3, true).points == 3
  {
  }

  /** Checking a box that was clear and clearing it again restores the selection and the points. */
  lemma CheckThenUncheckRestores(q: Question, current: Option<Answer>, option: QuestionOption)
    requires current.None? || current.value.Multi?
    requires |q.options| > 0
    requires option.text !in BaseAnswer(q, current).selectedOptions
    requires PointsMatchSelection(q, BaseAnswer(q, current))
    ensures MultiSelectChange(q, Some(MultiSelectChange(q, current, option, true)), option, false) == BaseAnswer(q, current)
  {
    var base := BaseAnswer(q, current);
    var checked := MultiSelectChange(q, current, option, true);
    RemoveAbsent(base.selectedOptions, option.text);
    assert RemoveAll(base.selectedOptions + [option.text], option.text) == RemoveAll(base.selectedOptions, option.text) by {
      assert (base.selectedOptions + [option.text])[..|base.selectedOptions|] == base.selectedOptions;
    }
  }

  /** A selection with no repeats, drawn from the question's option texts. */
  predicate ValidSelection(q: Question, selected: seq<string>) {
    && (forall i, j :: 0 <= i < j < |selected| ==> selected[i] != selected[j])
    && (forall i :: 0 <= i < |selected| ==> exists k :: 0 <= k < |q.options| && q.options[k].text == selected[i])
  }

  /** Clicking one of the question's boxes keeps the selection valid. */
  lemma ToggleKeepsSelectionValid(q: Question, current: Option<Answer>, k: nat)
    requires current.None? || current.value.Multi?
    requires k < |q.options|
    requires ValidSelection(q, BaseAnswer(q, current).selectedOptions)
    ensures ValidSelection(q, ToggleOption(q, current, q.options[k]).selectedOptions)
  {
    var base := BaseAnswer(q, current).selectedOptions;
    var option := q.options[k];
    var r := ToggleOption(q, current, option).selectedOptions;
    if IsChecked(current, option) {
      forall i | 0 <= i < |r|
        ensures exists m :: 0 <= m < |q.options| && q.options[m].text == r[i]
      {
        assert r[i] in multiset(r);
        assert r[i] in multiset(base);
        var p :| 0 <= p < |base| && base[p] == r[i];
      }
      RemoveAllKeepsDistinct(base, option.text);
    } else {
      assert option.text !in base;
    }
  }

  /** A list without repeats drawn from a set is no longer than the set. */
  lemma {:induction false} DistinctSubsetLength(xs: seq<string>, s: set<string>)
    requires forall i, j :: 0 <= i < j < |xs| ==> xs[i] != xs[j]
    requires forall i :: 0 <= i < |xs| ==> xs[i] in s
    ensures |xs| <= |s|
  {
    if |xs| > 0 {
      var last := xs[|xs| - 1];
      DistinctSubsetLength(xs[..|xs| - 1], s - {last});
    }
  }

  /** The set of texts of a list of options. */
  function OptionTexts(os: seq<QuestionOption>): (r: set<string>)
    ensures |r| <= |os|
    ensures forall k :: 0 <= k < |os| ==> os[k].text in r
    ensures forall t :: t in r ==> exists k :: 0 <= k < |os| && os[k].text == t
  {
    if |os| == 0 then {}
    else
      var init := OptionTexts(os[..|os| - 1]);
      assert forall k :: 0 <= k < |os| - 1 ==> os[..|os| - 1][k] == os[k];
      init + {os[|os| - 1].text}
  }

  /**
   * With a valid selection the checkbox points never exceed `options.length` times the
   * first option's points — for q6_2, seven one-point options, its declared maximum 7.
   */
  lemma MultiPointsBounded(q: Question, a: Answer)
    requires |q.options| > 0 && q.options[0].points >= 0
    requires PointsMatchSelection(q, a) && ValidSelection(q, a.selectedOptions)
    ensures a.points <= |q.options| * q.options[0].points
  {
    var texts := OptionTexts(q.options);
    var sel := a.selectedOptions;
    forall i | 0 <= i < |sel|
      ensures sel[i] in texts
    {
      var k :| 0 <= k < |q.options| && q.options[k].text == sel[i];
    }
    DistinctSubsetLength(sel, texts);
    ScaleMonotone(|sel|, |q.options|, q.options[0].points);
  }

  lemma ScaleMonotone(m: nat, n: nat, p: int)
    requires m <= n && 0 <= p
    ensures m * p <= n * p
  {
    assert n * p - m * p == (n - m) * p;
  }

  /** The text shown under the help icon: q4_1 also lists the industry's examples. */
  function HelpText(q: Question, industryExamples: seq<string>): (r: string)
    ensures q.id != "q4_1" ==> r == q.helpText
    ensures q.id == "q4_1" ==> StartsWith(r, q.helpText) && |r| > |q.helpText| && r[|r| - 1] == '.'
  {
    if q.id == "q4_1" then
      q.helpText + " For your industry, this could include: " + Join(industryExamples, ", ") + "."
    else
      q.helpText
  }

  /** The q4_1 help text names every technology example of the industry. */
  lemma HelpTextMentionsExamples(q: Question, industryExamples: seq<string>, i: nat)
    requires q.id == "q4_1" && i < |industryExamples|
    ensures Includes(HelpText(q, industryExamples), industryExamples[i])
  {
    var prefix := q.helpText + " For your industry, this could include: ";
    var joined := Join(industryExamples, ", ");
    var r := HelpText(q, industryExamples);
    assert r == prefix + joined + ".";
    JoinMentionsEach(industryExamples, ", ", i);
    var e := industryExamples[i];
    var k :| 0 <= k <= |joined| - |e| && OccursAt(joined, e, k);
    assert r[|prefix| + k..|prefix| + k + |e|] == joined[k..k + |e|];
    assert OccursAt(r, e, |prefix| + k);
  }

  /** `a` is an answer the controls of `q` can produce. */
  predicate AnswerFits(q: Question, a: Answer) {
    && a.questionId == q.id
    && if q.isMultiSelect then
         a.Multi? && |q.options| > 0 && PointsMatchSelection(q, a) && ValidSelection(q, a.selectedOptions)
       else
         a.Single? && exists k :: 0 <= k < |q.options| && a.points == q.options[k].points && a.selectedOptionText == q.options[k].text
  }

  /** A radio click on one of the question's options produces a fitting answer. */
  lemma SingleSelectFits(q: Question, k: nat)
    requires !q.isMultiSelect && k < |q.options|
    ensures AnswerFits(q, SingleSelect(q, q.options[k]))
  {
  }

  /** A checkbox click on one of the question's options keeps a fitting answer fitting. */
  lemma ToggleFits(q: Question, current: Option<Answer>, k: nat)
    requires q.isMultiSelect && k < |q.options|
    requires current.None? || AnswerFits(q, current.value)
    ensures current.None? || current.value.Multi?
    ensures AnswerFits(q, ToggleOption(q, current, q.options[k]))
  {
    ToggleKeepsSelectionValid(q, current, k);
  }

  /** All options worth the same: the sum is their count times the first one's points. */
  lemma {:induction false} UniformSum(os: seq<QuestionOption>, i: nat)
    requires 0 < |os| && i <= |os|
    requires forall k :: 0 <= k < |os| ==> os[k].points == os[0].points
    ensures QuestionBank.SumOptionPoints(os, i) == (|os| - i) * os[0].points
    decreases |os| - i
  {
    if i < |os| {
      UniformSum(os, i + 1);
    }
  }

  /** A consistent question's maximum is not negative. */
  lemma MaxPointsNonNegative(q: Question)
    requires QuestionBank.QuestionConsistent(q)
    ensures q.maxPoints >= 0
  {
    if q.isMultiSelect {
      UniformSum(q.options, 0);
    }
  }

  /** A fitting answer never scores above its question's declared maximum, nor below zero. */
  lemma AnswerPointsBounded(q: Question, a: Answer)
    requires QuestionBank.QuestionConsistent(q) && AnswerFits(q, a)
    ensures 0 <= a.points <= q.maxPoints
  {
    if q.isMultiSelect {
      MultiPointsBounded(q, a);
      UniformSum(q.options, 0);
    } else {
      var k :| 0 <= k < |q.options| && a.points == q.options[k].points;
    }
  }
}
