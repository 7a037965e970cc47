/**
 * The fixed question bank: six scored sections of questions with their option
 * point values and declared maxima (constants.ts).
 */
module QuestionBank {
  import opened Types

  const Q1_1: Question := Question(
    "q1_1",
    "How many climate technology patents, research publications, or innovation projects has your company filed/completed in the past 3 years?",
    [
      QuestionOption("None", 0),
      QuestionOption("1 patent/publication", 2),
      QuestionOption("2-4", 4),
      QuestionOption("5-14", 6),
      QuestionOption("15+", 8)
    ],
    "Include patents in renewable energy, energy efficiency, carbon capture, sustainable materials, etc.",
    8,
    false)

  const Q1_2: Question := Question(
    "q1_2",
    "What best describes your company's climate technology research capabilities?",
    [
      QuestionOption("No dedicated research infrastructure", 0),
      QuestionOption("Limited internal R&D with some external partnerships", 2),
      QuestionOption("Specialized R&D capabilities across locations with climate focus", 4),
      QuestionOption("Dedicated physical R&D facility or extensive strategic research partnerships", 6)
    ],
    "Consider both in-house facilities and formal partnerships with research institutions.",
    6,
    false)

  const Q1_3: Question := Question(
    "q1_3",
    "How does your company disclose climate technology R&D investments?",
    [
      QuestionOption("No separate disclosure", 0),
      QuestionOption("References climate innovation without financial details", 2),
      QuestionOption("Discloses significant investment but not separated from broader R&D", 4),
      QuestionOption("Provides specific climate tech R&D expenditure disclosure (\U{2265}20% of total R&D)", 6)
    ],
    "This refers to public disclosures in annual reports, sustainability reports, or investor briefings.",
    6,
    false)

  const Section1: AssessmentSection := AssessmentSection(
    "section1",
    "Research & Development Capacity",
    "This section evaluates your organization's ability to innovate and develop new climate technologies, a crucial driver for long-term competitive advantage.",
    20,
    [Q1_1, Q1_2, Q1_3])

  const Q2_1: Question := Question(
    "q2_1",
    "How is climate technology organized within your company?",
    [
      QuestionOption("No formal structure", 0),
      QuestionOption("Project-based initiatives without formal structure", 2),
      QuestionOption("Integrated teams within existing operations", 4),
      QuestionOption("Formal dedicated division/unit with independent governance", 5)
    ],
    "Consider how accountability and resources for climate tech are structured.",
    5,
    false)

  const Q2_2: Question := Question(
    "q2_2",
    "What level of executive leadership exists for climate technology?",
    [
      QuestionOption("No executive leadership", 0),
      QuestionOption("Distributed responsibilities without clear accountability", 1),
      QuestionOption("Integrated into existing executive roles (e.g., CTO, COO)", 3),
      QuestionOption("C-suite role with explicit climate tech responsibility (e.g., Chief Sustainability Officer)", 5)
    ],
    "This assesses the level of strategic importance assigned to climate tech.",
    5,
    false)

  const Q2_3: Question := Question(
    "q2_3",
    "What climate technology skill development programs does your company offer?",
    [
      QuestionOption("No systematic programs", 0),
      QuestionOption("Limited or ad hoc training activities", 1),
      QuestionOption("Broad programs integrating climate topics into general training", 3),
      QuestionOption("Formal, structured, recurring climate tech training programs for relevant staff", 5)
    ],
    "Includes internal training, external courses, and certification programs.",
    5,
    false)

  const Section2: AssessmentSection := AssessmentSection(
    "section2",
    "Human Capital & Leadership",
    "Assesses the organizational structure, leadership commitment, and internal expertise dedicated to climate technology, which are essential for successful strategy execution.",
    15,
    [Q2_1, Q2_2, Q2_3])

  const Q3_1: Question := Question(
    "q3_1",
    "What is your company's involvement in climate technology industry consortia?",
    [
      QuestionOption("No participation", 0),
      QuestionOption("Minimal/symbolic memberships", 1),
      QuestionOption("Active participant in major consortia", 3),
      QuestionOption("Founding member or leadership role in multiple consortia", 4)
    ],
    "Consortia are groups of companies working together on shared challenges.",
    4,
    false)

  const Q3_2: Question := Question(
    "q3_2",
    "How extensive are your university/research institution partnerships for climate technology?",
    [
      QuestionOption("No partnerships", 0),
      QuestionOption("Informal or project-specific collaborations", 1),
      QuestionOption("One formal long-term partnership or multiple smaller ones", 3),
      QuestionOption("Multiple formal, long-term strategic research partnerships", 4)
    ],
    "Formal partnerships often involve multi-year funding and shared research goals.",
    4,
    false)

  const Q3_3: Question := Question(
    "q3_3",
    "How many formal joint ventures focused on climate technology solutions does your company have?",
    [
      QuestionOption("None", 0),
      QuestionOption("1-2 JVs", 2),
      QuestionOption("3+ JVs", 4)
    ],
    "A joint venture is a business arrangement where two or more parties agree to pool their resources for the purpose of accomplishing a specific task.",
    4,
    false)

  const Q3_4: Question := Question(
    "q3_4",
    "How many climate tech startups has your company invested in through corporate venture or strategic programs?",
    [
      QuestionOption("None", 0),
      QuestionOption("1-3", 1),
      QuestionOption("4-6", 3),
      QuestionOption("7+", 4)
    ],
    "Consider direct equity investments made by your company or its CVC arm.",
    4,
    false)

  const Q3_5: Question := Question(
    "q3_5",
    "How many climate tech companies has your company acquired in the last 3 years?",
    [
      QuestionOption("None", 0),
      QuestionOption("1 acquisition", 2),
      QuestionOption("2+ acquisitions", 4)
    ],
    "An acquisition is the purchase of one company by another.",
    4,
    false)

  const Section3: AssessmentSection := AssessmentSection(
    "section3",
    "Collaborative Ecosystem",
    "Measures your company's engagement with external partners, including industry consortia, universities, and startups, to leverage collective intelligence and resources.",
    20,
    [Q3_1, Q3_2, Q3_3, Q3_4, Q3_5])

  const Q4_1: Question := Question(
    "q4_1",
    "How many major climate technology implementations does your company have operational or in advanced development?",
    [
      QuestionOption("None", 0),
      QuestionOption("1-2 in development/pilot stage", 2),
      QuestionOption("2-3 with at least one fully operational", 4),
      QuestionOption("4+ operational or in advanced development", 6)
    ],
    "Examples: Energy efficiency systems, waste heat recovery, sustainable materials, circular economy processes. (Industry-specific examples will be shown).",
    6,
    false)

  const Q4_2: Question := Question(
    "q4_2",
    "What renewable energy projects does your company have?",
    [
      QuestionOption("None", 0),
      QuestionOption("Pilot-scale projects only", 1),
      QuestionOption("1-2 projects operational or confirmed", 3),
      QuestionOption("Multiple projects operational or at Final Investment Decision (FID)", 5)
    ],
    "Includes on-site generation (e.g., solar panels) and off-site Power Purchase Agreements (PPAs).",
    5,
    false)

  const Q4_3: Question := Question(
    "q4_3",
    "How extensively has your company deployed digital technologies for emissions reduction?",
    [
      QuestionOption("No deployment", 0),
      QuestionOption("Pilot-only without operational integration", 1),
      QuestionOption("Partial deployment with indirect benefits for emissions", 2),
      QuestionOption("Substantial deployment in certain segments (e.g., supply chain optimization)", 3),
      QuestionOption("Full deployment across multiple facilities/operations with direct emissions tracking", 4)
    ],
    "Examples include IoT sensors for energy management, AI for process optimization, or blockchain for supply chain transparency.",
    4,
    false)

  const Section4: AssessmentSection := AssessmentSection(
    "section4",
    "Technology Implementation",
    "Examines the extent to which your company has deployed and operationalized climate technologies across its assets and value chain.",
    15,
    [Q4_1, Q4_2, Q4_3])

  const Q5_1: Question := Question(
    "q5_1",
    "How engaged is your company in climate policy and advocacy?",
    [
      QuestionOption("No public policy positions on climate", 0),
      QuestionOption("Minimal climate policy statements, largely reactive", 1),
      QuestionOption("Publicly supports high-level climate action (e.g., Paris Agreement)", 3),
      QuestionOption("Has broad policy positions but lacks transparency on lobbying", 5),
      QuestionOption("Publishes detailed policy positions with governance oversight and transparent lobbying", 7)
    ],
    "Reflects your company's proactive stance in shaping climate-related regulations.",
    7,
    false)

  const Q5_2: Question := Question(
    "q5_2",
    "How comprehensive is your company's climate risk management and disclosure?",
    [
      QuestionOption("No meaningful disclosure on climate risk", 0),
      QuestionOption("High-level commentary without a structured framework", 1),
      QuestionOption("General disclosure with partial alignment to a framework (e.g., TCFD)", 3),
      QuestionOption("Structured disclosure aligned with TCFD, including qualitative scenario analysis", 6),
      QuestionOption("Full structured disclosure (TCFD) with quantitative financial impacts from scenario analysis", 8)
    ],
    "TCFD (Task Force on Climate-related Financial Disclosures) is the leading framework for climate risk reporting.",
    8,
    false)

  const Section5: AssessmentSection := AssessmentSection(
    "section5",
    "Regulatory & Risk Management",
    "Evaluates your company's proactiveness in shaping climate policy and the maturity of its processes for managing and disclosing climate-related risks.",
    15,
    [Q5_1, Q5_2])

  const Q6_1: Question := Question(
    "q6_1",
    "How central are climate technologies to your company's corporate strategy?",
    [
      QuestionOption("No integration, climate is seen as a compliance issue", 0),
      QuestionOption("Symbolic mentions in reports with no clear strategic link", 1),
      QuestionOption("Acknowledged as a strategic area with minimal capital allocation (<10% of capex)", 3),
      QuestionOption("Well-integrated with significant capital allocation (\U{2265}10% of capex) to climate tech", 6),
      QuestionOption("Central to corporate strategy with \U{2265}20% capital allocation and dedicated business units", 8)
    ],
    "Capex (Capital Expenditure) is funds used by a company to acquire, upgrade, and maintain physical assets.",
    8,
    false)

  const Q6_2: Question := Question(
    "q6_2",
    "Which of the following does your company have for climate technology? (Select all that apply)",
    [
      QuestionOption("Named business unit or dedicated division", 1),
      QuestionOption("Covers multiple climate technology domains (e.g., renewables, efficiency)", 1),
      QuestionOption("Dedicated leadership reporting to senior management", 1),
      QuestionOption("Project or financial segmentation with disclosed metrics", 1),
      QuestionOption("Strategic partnerships or external investment structure", 1),
      QuestionOption("Integration in corporate strategy and investor communications", 1),
      QuestionOption("Standalone targets, KPIs, or performance metrics", 1)
    ],
    "This question assesses the maturity of your business structure around climate tech.",
    7,
    true)

  const Section6: AssessmentSection := AssessmentSection(
    "section6",
    "Business Model Innovation",
    "Focuses on how deeply climate technology is integrated into your core corporate strategy, capital allocation, and business structure to create new value.",
    15,
    [Q6_1, Q6_2])

  /** The bank in presentation order. */
  const Sections: seq<AssessmentSection> := [Section1, Section2, Section3, Section4, Section5, Section6]

  /** Sum of the declared maxima of `qs[i..]`. */
  function SumQuestionMax(qs: seq<Question>, i: nat := 0): int
    decreases |qs| - i
  {
    if i >= |qs| then 0 else qs[i].maxPoints + SumQuestionMax(qs, i + 1)
  }

  /** Sum of the point values of `os[i..]`. */
  function SumOptionPoints(os: seq<QuestionOption>, i: nat := 0): int
    decreases |os| - i
  {
    if i >= |os| then 0 else os[i].points + SumOptionPoints(os, i + 1)
  }

  /** The largest point value among `os[i..]`. */
  function MaxOptionPoints(os: seq<QuestionOption>, i: nat := 0): (r: int)
    requires i < |os|
    ensures exists k :: i <= k < |os| && os[k].points == r
    ensures forall k :: i <= k < |os| ==> os[k].points <= r
    decreases |os| - i
  {
    if i == |os| - 1 then os[i].points
    else
      var m := MaxOptionPoints(os, i + 1);
      if os[i].points > m then os[i].points else m
  }

  /**
   * The declared maximum of a question is what it can actually award: the best single
   * option of a radio question, every option of a checkbox question together. No
   * option is worth a negative number of points, and the options of a checkbox
   * question are all worth the same (the scoring of a checkbox answer relies on it).
   */
  predicate QuestionConsistent(q: Question) {
    && |q.options| > 0
    && (forall i :: 0 <= i < |q.options| ==> q.options[i].points >= 0)
    && (q.isMultiSelect ==> forall i :: 0 <= i < |q.options| ==> q.options[i].points == q.options[0].points)
    && q.maxPoints == (if q.isMultiSelect then SumOptionPoints(q.options) else MaxOptionPoints(q.options))
  }

  /**
   * A section is non-empty, its question ids are distinct, its questions are consistent
   * and its maximum is their sum.
   */
  predicate SectionConsistent(s: AssessmentSection) {
    && |s.questions| > 0
    && (forall j, k :: 0 <= j < k < |s.questions| ==> s.questions[j].id != s.questions[k].id)
    && (forall i :: 0 <= i < |s.questions| ==> QuestionConsistent(s.questions[i]))
    && s.maxPoints == SumQuestionMax(s.questions)
  }

  /** Sum of the declared maxima of `bank[i..]`: the total's `maxScore`. */
  function BankMax(bank: seq<AssessmentSection>, i: nat := 0): int
    decreases |bank| - i
  {
    if i >= |bank| then 0 else bank[i].maxPoints + BankMax(bank, i + 1)
  }

  /** Every question id of the bank, section by section. */
  function QuestionIds(bank: seq<AssessmentSection>, i: nat := 0): seq<string>
    decreases |bank| - i
  {
    if i >= |bank| then []
    else seq(|bank[i].questions|, k requires 0 <= k < |bank[i].questions| => bank[i].questions[k].id) + QuestionIds(bank, i + 1)
  }

  predicate Distinct<T(==)>(xs: seq<T>) {
    forall i, j :: 0 <= i < j < |xs| ==> xs[i] != xs[j]
  }

  /** The invariants the rest of the questionnaire relies on. */
  predicate BankValid(bank: seq<AssessmentSection>) {
    && |bank| > 0
    && (forall i :: 0 <= i < |bank| ==> SectionConsistent(bank[i]))
    && Distinct(seq(|bank|, i requires 0 <= i < |bank| => bank[i].id))
    && Distinct(QuestionIds(bank))
    && BankMax(bank) == 100
  }

  lemma Q1_1Consistent() ensures QuestionConsistent(Q1_1) {}
  lemma Q1_2Consistent() ensures QuestionConsistent(Q1_2) {}
  lemma Q1_3Consistent() ensures QuestionConsistent(Q1_3) {}
  lemma Q2_1Consistent() ensures QuestionConsistent(Q2_1) {}
  lemma Q2_2Consistent() ensures QuestionConsistent(Q2_2) {}
  lemma Q2_3Consistent() ensures QuestionConsistent(Q2_3) {}
  lemma Q3_1Consistent() ensures QuestionConsistent(Q3_1) {}
  lemma Q3_2Consistent() ensures QuestionConsistent(Q3_2) {}
  lemma Q3_3Consistent() ensures QuestionConsistent(Q3_3) {}
  lemma Q3_4Consistent() ensures QuestionConsistent(Q3_4) {}
  lemma Q3_5Consistent() ensures QuestionConsistent(Q3_5) {}
  lemma Q4_1Consistent() ensures QuestionConsistent(Q4_1) {}
  lemma Q4_2Consistent() ensures QuestionConsistent(Q4_2) {}
  lemma Q4_3Consistent() ensures QuestionConsistent(Q4_3) {}
  lemma Q5_1Consistent() ensures QuestionConsistent(Q5_1) {}
  lemma Q5_2Consistent() ensures QuestionConsistent(Q5_2) {}
  lemma Q6_1Consistent() ensures QuestionConsistent(Q6_1) {}
  lemma Q6_2Consistent() ensures QuestionConsistent(Q6_2) {}

  lemma Section1Consistent()
    ensures SectionConsistent(Section1)
  {
    Section1Ids();
    Q1_1Consistent(); Q1_2Consistent(); Q1_3Consistent();
    assert SumQuestionMax(Section1.questions, 2) == 6;
    assert SumQuestionMax(Section1.questions, 1) == 12;
    assert SumQuestionMax(Section1.questions, 0) == 20;
  }

  lemma Section2Consistent()
    ensures SectionConsistent(Section2)
  {
    Section2Ids();
    Q2_1Consistent(); Q2_2Consistent(); Q2_3Consistent();
    assert SumQuestionMax(Section2.questions, 2) == 5;
    assert SumQuestionMax(Section2.questions, 1) == 10;
    assert SumQuestionMax(Section2.questions, 0) == 15;
  }

  lemma Section3Consistent()
    ensures SectionConsistent(Section3)
  {
    Section3Ids();
    Q3_1Consistent(); Q3_2Consistent(); Q3_3Consistent(); Q3_4Consistent(); Q3_5Consistent();
    assert SumQuestionMax(Section3.questions, 4) == 4;
    assert SumQuestionMax(Section3.questions, 3) == 8;
    assert SumQuestionMax(Section3.questions, 2) == 12;
    assert SumQuestionMax(Section3.questions, 1) == 16;
    assert SumQuestionMax(Section3.questions, 0) == 20;
  }

  lemma Section4Consistent()
    ensures SectionConsistent(Section4)
  {
    Section4Ids();
    Q4_1Consistent(); Q4_2Consistent(); Q4_3Consistent();
    assert SumQuestionMax(Section4.questions, 2) == 4;
    assert SumQuestionMax(Section4.questions, 1) == 9;
    assert SumQuestionMax(Section4.questions, 0) == 15;
  }

  lemma Section5Consistent()
    ensures SectionConsistent(Section5)
  {
    Section5Ids();
    Q5_1Consistent(); Q5_2Consistent();
    assert SumQuestionMax(Section5.questions, 1) == 8;
    assert SumQuestionMax(Section5.questions, 0) == 15;
  }

  lemma Section6Consistent()
    ensures SectionConsistent(Section6)
  {
    Section6Ids();
    Q6_1Consistent(); Q6_2Consistent();
    assert SumQuestionMax(Section6.questions, 1) == 7;
    assert SumQuestionMax(Section6.questions, 0) == 15;
  }


  /** The six section maxima (20, 15, 20, 15, 15, 15) sum to exactly 100. */
  lemma BankMaxIs100()
    ensures BankMax(Sections) == 100
  {
    assert BankMax(Sections, 5) == 15;
    assert BankMax(Sections, 4) == 30;
    assert BankMax(Sections, 3) == 45;
    assert BankMax(Sections, 2) == 65;
    assert BankMax(Sections, 1) == 80;
    assert BankMax(Sections, 0) == 100;
  }

  lemma Section1Ids()
    ensures seq(|Section1.questions|, i requires 0 <= i < |Section1.questions| => Section1.questions[i].id) == ["q1_1", "q1_2", "q1_3"]
  {
  }

  lemma Section2Ids()
    ensures seq(|Section2.questions|, i requires 0 <= i < |Section2.questions| => Section2.questions[i].id) == ["q2_1", "q2_2", "q2_3"]
  {
  }

  lemma Section3Ids()
    ensures seq(|Section3.questions|, i requires 0 <= i < |Section3.questions| => Section3.questions[i].id) == ["q3_1", "q3_2", "q3_3", "q3_4", "q3_5"]
  {
  }

  lemma Section4Ids()
    ensures seq(|Section4.questions|, i requires 0 <= i < |Section4.questions| => Section4.questions[i].id) == ["q4_1", "q4_2", "q4_3"]
  {
  }

  lemma Section5Ids()
    ensures seq(|Section5.questions|, i requires 0 <= i < |Section5.questions| => Section5.questions[i].id) == ["q5_1", "q5_2"]
  {
  }

  lemma Section6Ids()
    ensures seq(|Section6.questions|, i requires 0 <= i < |Section6.questions| => Section6.questions[i].id) == ["q6_1", "q6_2"]
  {
  }

  /** The question ids of the bank, in order. */
  lemma QuestionIdsOfBank()
    ensures QuestionIds(Sections) == ["q1_1", "q1_2", "q1_3", "q2_1", "q2_2", "q2_3", "q3_1", "q3_2", "q3_3", "q3_4", "q3_5", "q4_1", "q4_2", "q4_3", "q5_1", "q5_2", "q6_1", "q6_2"]
  {
    Section6Ids();
    assert QuestionIds(Sections, 5) == ["q6_1", "q6_2"] + QuestionIds(Sections, 6);
    Section5Ids();
    assert QuestionIds(Sections, 4) == ["q5_1", "q5_2"] + QuestionIds(Sections, 5);
    Section4Ids();
    assert QuestionIds(Sections, 3) == ["q4_1", "q4_2", "q4_3"] + QuestionIds(Sections, 4);
    Section3Ids();
    assert QuestionIds(Sections, 2) == ["q3_1", "q3_2", "q3_3", "q3_4", "q3_5"] + QuestionIds(Sections, 3);
    Section2Ids();
    assert QuestionIds(Sections, 1) == ["q2_1", "q2_2", "q2_3"] + QuestionIds(Sections, 2);
    Section1Ids();
    assert QuestionIds(Sections, 0) == ["q1_1", "q1_2", "q1_3"] + QuestionIds(Sections, 1);
  }

  /** No two questions of the bank share an id. */
  lemma QuestionIdsDistinct()
    ensures Distinct(QuestionIds(Sections))
  {
    QuestionIdsOfBank();
  }

  /** No two sections of the bank share an id. */
  lemma SectionIdsDistinct()
    ensures Distinct(seq(|Sections|, i requires 0 <= i < |Sections| => Sections[i].id))
  {
    assert seq(|Sections|, i requires 0 <= i < |Sections| => Sections[i].id) == ["section1", "section2", "section3", "section4", "section5", "section6"];
  }

  /** Every section of the bank is non-empty and its declared maximum is right. */
  lemma SectionsConsistent()
    ensures forall i :: 0 <= i < |Sections| ==> SectionConsistent(Sections[i])
  {
    forall i | 0 <= i < |Sections|
      ensures SectionConsistent(Sections[i])
    {
      if i == 0 { Section1Consistent(); }
      else if i == 1 { Section2Consistent(); }
      else if i == 2 { Section3Consistent(); }
      else if i == 3 { Section4Consistent(); }
      else if i == 4 { Section5Consistent(); }
      else { Section6Consistent(); }
    }
  }

  /** The shipped bank satisfies every invariant the questionnaire relies on. */
  lemma BankIsValid()
    ensures BankValid(Sections)
  {
    SectionsConsistent();
    BankMaxIs100();
    QuestionIdsDistinct();
    SectionIdsDistinct();
  }
}

/** The five readiness tiers and the threshold classifier on the total raw score (constants.ts). */
module Readiness {
  import opened Types

  const LeaderLevel: ReadinessLevel := ReadinessLevel(
    "Climate Tech Leader", "bg-[#52E5A3]", "text-[#52E5A3]",
    "Your organization demonstrates exceptional readiness, positioning it to lead in the climate technology landscape. You have robust capabilities across all key areas.")

  const AdopterLevel: ReadinessLevel := ReadinessLevel(
    "Climate Tech Adopter", "bg-[#47C78F]", "text-[#47C78F]",
    "Your organization has a strong foundation and is actively adopting climate technologies. There are targeted areas for improvement to achieve leadership status.")

  const EmergingLevel: ReadinessLevel := ReadinessLevel(
    "Climate Tech Emerging", "bg-[#3BAA7A]", "text-[#3BAA7A]",
    "Your company shows moderate readiness but requires a more strategic and focused approach to unlock its full potential in climate tech.")

  const DevelopingLevel: ReadinessLevel := ReadinessLevel(
    "Climate Tech Developing", "bg-[#2F8C66]", "text-[#2F8C66]",
    "Your organization is in the early stages of its climate tech journey. Significant investment and foundational work are required.")

  const StarterLevel: ReadinessLevel := ReadinessLevel(
    "Climate Tech Starter", "bg-[#236E51]", "text-[#236E51]",
    "Your organization is at the very beginning. Foundational work is needed across all areas to build climate tech readiness.")
  /** The tiers from lowest to highest. */
  const Tiers: seq<ReadinessLevel> := [StarterLevel, DevelopingLevel, EmergingLevel, AdopterLevel, LeaderLevel]

  /** The inclusive lower bounds of the four upper tiers, ascending. */
  const Thresholds: seq<int> := [30, 50, 70, 90]

  /**
   * `getReadinessLevel`: the thresholds are tried from the highest down and each is an
   * inclusive lower bound; everything below 30, negative scores included, is a Starter.
   */
  function GetReadinessLevel(totalScore: int): (r: ReadinessLevel)
    ensures r.level == "Climate Tech Leader" <==> totalScore >= 90
    ensures r.level == "Climate Tech Adopter" <==> 70 <= totalScore < 90
    ensures r.level == "Climate Tech Emerging" <==> 50 <= totalScore < 70
    ensures r.level == "Climate Tech Developing" <==> 30 <= totalScore < 50
    ensures r.level == "Climate Tech Starter" <==> totalScore < 30
    ensures r in Tiers
  {
    if totalScore >= 90 then LeaderLevel
    else if totalScore >= 70 then AdopterLevel
    else if totalScore >= 50 then EmergingLevel
    else if totalScore >= 30 then DevelopingLevel
    else StarterLevel
  }

  /** How many of `Thresholds[i..]` the score reaches. */
  function ThresholdsReached(score: int, i: nat := 0): (n: nat)
    requires i <= |Thresholds|
    ensures n <= |Thresholds| - i
    decreases |Thresholds| - i
  {
    if i == |Thresholds| then 0
    else (if score >= Thresholds[i] then 1 else 0) + ThresholdsReached(score, i + 1)
  }

  /** Reaching more thresholds is monotone in the score. */
  lemma {:induction false} ThresholdsReachedMonotone(lo: int, hi: int, i: nat)
    requires lo <= hi && i <= |Thresholds|
    ensures ThresholdsReached(lo, i) <= ThresholdsReached(hi, i)
    decreases |Thresholds| - i
  {
    if i < |Thresholds| {
      ThresholdsReachedMonotone(lo, hi, i + 1);
    }
  }

  /**
   * The classifier agrees with an independent definition: the tier's rank is the number
   * of thresholds the score reaches.
   */
  lemma ClassifierCountsThresholds(score: int)
    ensures GetReadinessLevel(score) == Tiers[ThresholdsReached(score)]
  {
    assert ThresholdsReached(score, 4) == 0;
    assert ThresholdsReached(score, 3) == (if score >= 90 then 1 else 0);
    assert ThresholdsReached(score, 2) == (if score >= 70 then 1 else 0) + (if score >= 90 then 1 else 0);
  }

  /** A higher score never yields a lower tier. */
  lemma ReadinessMonotone(lo: int, hi: int)
    requires lo <= hi
    ensures exists i, j :: 0 <= i <= j < |Tiers| && GetReadinessLevel(lo) == Tiers[i] && GetReadinessLevel(hi) == Tiers[j]
  {
    ClassifierCountsThresholds(lo);
    ClassifierCountsThresholds(hi);
    ThresholdsReachedMonotone(lo, hi, 0);
    assert GetReadinessLevel(lo) == Tiers[ThresholdsReached(lo)];
  }

  /** The five tiers carry five different labels, so every score has exactly one tier. */
  lemma TierLabelsDistinct()
    ensures forall i, j :: 0 <= i < j < |Tiers| ==> Tiers[i].level != Tiers[j].level
  {
  }
}

/** The industry choices and the technology examples shown for each (constants.ts). */
module IndustryContent {

  /** The industries offered on the welcome screen. */
  const IndustryOptions: seq<string> := [
    "Manufacturing & Industrial",
    "Technology & Software",
    "Financial Services & Insurance",
    "Retail & Consumer Goods",
    "Healthcare & Pharmaceuticals",
    "Transportation & Logistics",
    "Energy & Utilities",
    "Construction & Real Estate",
    "Agriculture & Food",
    "Professional Services",
    "Other"
  ]

  /** Technology examples per industry; "Other" doubles as the fallback entry. */
  const IndustrySpecificContent: map<string, seq<string>> := map[
    "Manufacturing & Industrial" := ["Energy efficiency systems", "Waste heat recovery", "Sustainable materials", "Circular processes"],
    "Technology & Software" := ["Green IT infrastructure", "Sustainable data centers", "Renewable energy procurement", "AI for energy optimization"],
    "Financial Services & Insurance" := ["Green bonds issuance platforms", "Climate risk analysis software", "Sustainable investment portfolio tools", "Parametric insurance for climate events"],
    "Retail & Consumer Goods" := ["Sustainable packaging solutions", "Supply chain transparency software", "Reverse logistics for circular economy", "Energy-efficient store lighting"],
    "Healthcare & Pharmaceuticals" := ["Green chemistry processes", "Energy-efficient lab equipment", "Sustainable medical device manufacturing", "Telehealth to reduce travel emissions"],
    "Transportation & Logistics" := ["Electric vehicle fleet", "Route optimization software", "Sustainable aviation fuel (SAF)", "Intermodal freight solutions"],
    "Energy & Utilities" := ["Smart grid technology", "Utility-scale battery storage", "Green hydrogen production", "Advanced metering infrastructure"],
    "Construction & Real Estate" := ["Low-carbon concrete", "Building energy management systems (BEMS)", "Prefabricated sustainable housing", "Geothermal heating/cooling"],
    "Agriculture & Food" := ["Precision agriculture sensors", "Alternative proteins", "Biofertilizers and biopesticides", "Agroforestry systems"],
    "Professional Services" := ["ESG reporting software", "Carbon accounting platforms", "Remote collaboration tools", "Sustainable business travel solutions"],
    "Other" := ["General energy efficiency", "Renewable energy procurement", "Waste reduction programs", "Sustainable supply chain management"]
  ]
  /** Every industry that can be chosen on the welcome screen has its own examples. */
  lemma EveryIndustryOptionHasContent()
    ensures forall i :: 0 <= i < |IndustryOptions| ==> IndustryOptions[i] in IndustrySpecificContent
  {
  }
}
