/**
 * The deterministic parts of the plan requester (services/geminiService.ts): the two
 * fallback plans, the score summary and total line put into the prompt, and the
 * "Error" marker the results dashboard looks for (components/ResultsDashboard.tsx).
 */
module GeminiService {
  import opened Types
  import opened Optional
  import opened Strings

  /** The plan returned when no API key is configured; no request is made. */
  const MissingKeyPlan: ActionPlan := ActionPlan(
    ["Configure the API_KEY environment variable to enable AI-powered recommendations."],
    [], [],
    ["Action Plan Generation requires API Key"],
    [], [])

  /** The plan returned when the request or the parsing of its answer throws. */
  const ErrorPlan: ActionPlan := ActionPlan(
    ["The AI-powered recommendation engine encountered an error. Please check your API key and network connection. You can still use the scores above to manually create a plan."],
    [], [],
    ["Error generating AI plan"],
    [], [])

  /**
   * `generateActionPlan`. The environment's API key is a parameter ("" when unset) and
   * the outcome of the remote call and `JSON.parse` is another: `None` when either throws.
   */
  function GenerateActionPlan(apiKey: string, generated: Option<ActionPlan>): (r: ActionPlan)
    ensures apiKey == "" ==> r == MissingKeyPlan
    ensures apiKey != "" ==> r == generated.GetOr(ErrorPlan)
  {
    if apiKey == "" then MissingKeyPlan
    else
      match generated
      case Some(plan) => plan
      case None => ErrorPlan
  }

  /** A fallback plan: only the priority areas and one immediate action, the other four lists empty. */
  predicate IsFallbackShape(plan: ActionPlan) {
    && |plan.priorityAreas| == 1 && |plan.immediateActions| == 1
    && plan.shortTermActions == [] && plan.longTermActions == []
    && plan.industrySpecificRecommendations == [] && plan.goalSpecificRecommendations == []
  }

  /**
   * The dashboard's warning banner: `actionPlan?.priorityAreas[0].includes("Error") && !isLoading`.
   * No plan means no banner; a plan with no priority areas makes the expression throw (`None`).
   */
  function ShowsErrorBanner(plan: Option<ActionPlan>, isLoading: bool): (r: Option<bool>)
    ensures plan.None? ==> r == Some(false)
    ensures plan.Some? && |plan.value.priorityAreas| == 0 ==> r.None?
    ensures plan.Some? && |plan.value.priorityAreas| > 0 ==>
      r == Some(!isLoading && exists i :: 0 <= i <= |plan.value.priorityAreas[0]| - 5 && OccursAt(plan.value.priorityAreas[0], "Error", i))
  {
    match plan
    case None => Some(false)
    case Some(p) =>
      if |p.priorityAreas| == 0 then None
      else Some(Includes(p.priorityAreas[0], "Error") && !isLoading)
  }

  /** Neither fallback fills more than two of the six lists. */
  lemma FallbacksLeaveFourListsEmpty()
    ensures IsFallbackShape(MissingKeyPlan) && IsFallbackShape(ErrorPlan)
    ensures MissingKeyPlan.priorityAreas[0] != ErrorPlan.priorityAreas[0]
  {
  }

  /** Only the runtime-error fallback carries the "Error" marker. */
  lemma OnlyErrorPlanIsMarked()
    ensures Includes(ErrorPlan.priorityAreas[0], "Error")
    ensures !Includes(MissingKeyPlan.priorityAreas[0], "Error")
  {
    assert OccursAt(ErrorPlan.priorityAreas[0], "Error", 0);
    FirstCharAbsent(MissingKeyPlan.priorityAreas[0], "Error");
  }

  /** A pattern whose first character never occurs is not included. */
  lemma FirstCharAbsent(s: string, pat: string)
    requires |pat| > 0 && pat[0] !in s
    ensures !Includes(s, pat)
  {
    forall i | 0 <= i <= |s| - |pat|
      ensures !OccursAt(s, pat, i)
    {
      assert s[i..i + |pat|][0] == s[i];
    }
  }

  /**
   * Once loading is over, the banner is shown exactly when the request failed at run
   * time, provided a genuine plan does not itself start with a marked priority area.
   * A missing key therefore shows no banner.
   */
  lemma BannerIffRuntimeFailure(apiKey: string, generated: Option<ActionPlan>)
    requires generated.Some? ==>
      |generated.value.priorityAreas| > 0 && !Includes(generated.value.priorityAreas[0], "Error")
    ensures ShowsErrorBanner(Some(GenerateActionPlan(apiKey, generated)), false) ==
      Some(apiKey != "" && generated.None?)
  {
    OnlyErrorPlanIsMarked();
  }

  /** A parsed plan with an empty priority-area list makes the banner expression throw. */
  lemma EmptyPriorityAreasThrow()
    ensures ShowsErrorBanner(Some(ActionPlan([], [], [], [], [], [])), false).None?
  {
  }

  /**
   * The banner test as evidently intended, `priorityAreas[0]?.includes("Error")`: defined for
   * every plan, false when there is no first priority area.
   */
  function ShowsErrorBannerGuarded(plan: Option<ActionPlan>, isLoading: bool): (r: bool)
    ensures r <==> (
      && plan.Some? && |plan.value.priorityAreas| > 0 && !isLoading
      && exists i :: 0 <= i <= |plan.value.priorityAreas[0]| - 5 && OccursAt(plan.value.priorityAreas[0], "Error", i))
  {
    plan.Some? && |plan.value.priorityAreas| > 0 && Includes(plan.value.priorityAreas[0], "Error") && !isLoading
  }

  /** Wherever the banner test as written does not throw, the guarded one agrees with it. */
  lemma GuardedBannerAgrees(plan: Option<ActionPlan>, isLoading: bool)
    ensures ShowsErrorBanner(plan, isLoading).Some? ==>
      ShowsErrorBanner(plan, isLoading) == Some(ShowsErrorBannerGuarded(plan, isLoading))
  {
  }

  /**
   * With the guarded test the banner is shown, once loading is over, exactly when the request
   * failed at run time, whatever the shape of a genuine plan that carries no marker.
   */
  lemma GuardedBannerIffRuntimeFailure(apiKey: string, generated: Option<ActionPlan>)
    requires generated.Some? && |generated.value.priorityAreas| > 0 ==>
      !Includes(generated.value.priorityAreas[0], "Error")
    ensures ShowsErrorBannerGuarded(Some(GenerateActionPlan(apiKey, generated)), false) <==>
      apiKey != "" && generated.None?
  {
    OnlyErrorPlanIsMarked();
  }

  /** The entries of the scores object in key order: the sections, then `total`. */
  function ScoreEntries(scores: Scores): (r: seq<(string, SectionScore)>)
    ensures |r| == |scores.sections| + 1 && r[|r| - 1] == ("total", scores.total)
    ensures r[..|scores.sections|] == scores.sections
  {
    scores.sections + [("total", scores.total)]
  }

  /** `.filter(([key]) => key !== 'total')`. */
  function DropTotal(entries: seq<(string, SectionScore)>): (r: seq<(string, SectionScore)>)
    ensures forall i :: 0 <= i < |r| ==> r[i].0 != "total"
    ensures (forall i :: 0 <= i < |entries| ==> entries[i].0 != "total") ==> r == entries
    ensures forall e :: e in entries && e.0 != "total" ==> e in r
    ensures forall e :: e in r ==> e in entries
  {
    if |entries| == 0 then []
    else
      var init := DropTotal(entries[..|entries| - 1]);
      assert entries == entries[..|entries| - 1] + [entries[|entries| - 1]];
      if entries[|entries| - 1].0 == "total" then init else init + [entries[|entries| - 1]]
  }

  /**
   * `DropTotal` is `filter`: it distributes over concatenation, and (`DropTotalSingle`)
   * keeps a single entry exactly when its key is not `total`; so the kept entries keep
   * their order.
   */
  lemma {:induction false} DropTotalConcat(a: seq<(string, SectionScore)>, b: seq<(string, SectionScore)>)
    ensures DropTotal(a + b) == DropTotal(a) + DropTotal(b)
    decreases |b|
  {
    if |b| == 0 {
      assert a + b == a;
    } else {
      var init := b[..|b| - 1];
      DropTotalConcat(a, init);
      assert (a + b)[..|a + b| - 1] == a + init;
      assert (a + b)[|a + b| - 1] == b[|b| - 1];
    }
  }

  /** A single entry is kept exactly when its key is not `total`. */
  lemma DropTotalSingle(e: (string, SectionScore))
    ensures DropTotal([e]) == (if e.0 == "total" then [] else [e])
  {
  }

  /** The line of one score entry: its key, with a leading "section" made "Section ", then ": raw/max points". */
  function SummaryLine(entry: (string, SectionScore)): (r: string)
    ensures StartsWith(entry.0, "section") ==>
      r == "Section " + entry.0[7..] + ": " + IntToString(entry.1.rawScore) + "/" + IntToString(entry.1.maxScore) + " points"
    ensures !Includes(entry.0, "section") ==>
      r == entry.0 + ": " + IntToString(entry.1.rawScore) + "/" + IntToString(entry.1.maxScore) + " points"
  {
    var key := ReplaceFirst(entry.0, "section", "Section ");
    assert StartsWith(entry.0, "section") ==> IndexOf(entry.0, "section") == 0 && key == "Section " + entry.0[7..];
    assert !Includes(entry.0, "section") ==> IndexOf(entry.0, "section") == -1;
    key + ": " + IntToString(entry.1.rawScore) + "/" + IntToString(entry.1.maxScore) + " points"
  }

  /** Every key of the form `section<d>` gives the line "Section <d>: raw/max points". */
  lemma SummaryLineFormat(d: string, score: SectionScore)
    ensures SummaryLine(("section" + d, score)) ==
      "Section " + d + ": " + IntToString(score.rawScore) + "/" + IntToString(score.maxScore) + " points"
  {
    var k := "section" + d;
    assert StartsWith(k, "section");
    assert k[7..] == d;
  }

  /** The summary lines of a list of entries, one per entry, in order. */
  function SummaryLines(entries: seq<(string, SectionScore)>): (r: seq<string>)
    ensures |r| == |entries| && forall i :: 0 <= i < |entries| ==> r[i] == SummaryLine(entries[i])
  {
    seq(|entries|, i requires 0 <= i < |entries| => SummaryLine(entries[i]))
  }

  /** The joined summary mentions the line of every entry. */
  lemma SummaryMentionsAll(entries: seq<(string, SectionScore)>)
    ensures forall e :: e in entries ==> Includes(Join(SummaryLines(entries), "\n"), SummaryLine(e))
  {
    forall e | e in entries
      ensures Includes(Join(SummaryLines(entries), "\n"), SummaryLine(e))
    {
      var k :| 0 <= k < |entries| && entries[k] == e;
      JoinMentionsEach(SummaryLines(entries), "\n", k);
    }
  }

  /** Every section whose key is not `total` survives the filter. */
  lemma SectionsKept(scores: Scores)
    ensures forall i :: 0 <= i < |scores.sections| && scores.sections[i].0 != "total" ==>
      scores.sections[i] in DropTotal(ScoreEntries(scores))
  {
    var entries := ScoreEntries(scores);
    forall i | 0 <= i < |scores.sections| && scores.sections[i].0 != "total"
      ensures scores.sections[i] in DropTotal(entries)
    {
      assert entries[i] == scores.sections[i];
    }
  }

  /** The `scoreSummary` of the prompt: one line per non-total entry, joined with newlines. */
  function ScoreSummary(scores: Scores): (r: string)
    ensures forall i :: 0 <= i < |scores.sections| && scores.sections[i].0 != "total" ==>
      Includes(r, SummaryLine(scores.sections[i]))
  {
    var entries := DropTotal(ScoreEntries(scores));
    SectionsKept(scores);
    SummaryMentionsAll(entries);
    Join(SummaryLines(entries), "\n")
  }

  /** With section keys other than `total`, the summary has exactly one line per section, in order. */
  lemma SummaryOmitsTotal(scores: Scores)
    requires forall i :: 0 <= i < |scores.sections| ==> scores.sections[i].0 != "total"
    ensures ScoreSummary(scores) == Join(SummaryLines(scores.sections), "\n")
  {
    var entries := ScoreEntries(scores);
    assert entries[..|entries| - 1] == scores.sections;
    assert DropTotal(entries) == DropTotal(entries[..|entries| - 1]);
  }

  /** The summary line of the third section with 7 of 20 points. */
  lemma SummaryLineExample()
    ensures SummaryLine(("section3", SectionScore(7, 20, 35))) == "Section 3: 7/20 points"
  {
    assert IndexOf("section3", "section") == 0 by {
      assert StartsWith("section3", "section");
    }
  }

  /** The prompt's total line: the total raw score over a literal 100. */
  function TotalScoreLine(scores: Scores): (r: string)
    ensures |r| > 17 && r[..13] == "Total Score: " && r[|r| - 4..] == "/100"
    ensures r[13..|r| - 4] == IntToString(scores.total.rawScore)
    ensures scores.total.rawScore >= 0 ==> IsDigits(r[13..|r| - 4]) && DigitsValue(r[13..|r| - 4]) == scores.total.rawScore
  {
    var r := "Total Score: " + IntToString(scores.total.rawScore) + "/100";
    assert r[13..|r| - 4] == IntToString(scores.total.rawScore);
    r
  }

  /** The total line ignores the computed maximum: scores differing only there give the same line. */
  lemma TotalLineIgnoresMax(a: Scores, b: Scores)
    requires a.total.rawScore == b.total.rawScore
    ensures TotalScoreLine(a) == TotalScoreLine(b)
    ensures TotalScoreLine(a)[..13] == "Total Score: "
  {
  }
}
