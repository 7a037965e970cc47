/** The records shared by every part of the questionnaire (the interfaces of types.ts). */
module Types {

  /** The company profile captured on the welcome screen. */
  datatype CompanyProfile = CompanyProfile(
    userName: string,
    userRole: string,
    userPhone: string,
    userEmail: string,
    companyName: string,
    industry: string,
    companySize: string,
    primaryGoal: string,
    currentClimateInitiatives: string,
    timeframe: string,
    geographicScope: string)

  /** One selectable answer of a question and the points it is worth. */
  datatype QuestionOption = QuestionOption(text: string, points: int)

  datatype Question = Question(
    id: string,
    questionText: string,
    options: seq<QuestionOption>,
    helpText: string,
    maxPoints: int,
    isMultiSelect: bool)

  datatype AssessmentSection = AssessmentSection(
    id: string,
    title: string,
    description: string,
    maxPoints: int,
    questions: seq<Question>)

  /**
   * A recorded answer. `Answer | MultiSelectAnswer` of the sources becomes a tagged
   * variant: a radio-button answer names one option, a checkbox answer a list of them.
   */
  datatype Answer =
    | Single(questionId: string, points: int, selectedOptionText: string)
    | Multi(questionId: string, points: int, selectedOptions: seq<string>)

  /** The answers recorded so far, keyed by section id; each list is in insertion order. */
  type Answers = map<string, seq<Answer>>

  datatype SectionScore = SectionScore(rawScore: int, maxScore: int, percentage: int)

  /**
   * The derived scores: one entry per section, in question-bank order, followed by the
   * synthetic `total` entry (the insertion order of the keys of the source's object).
   */
  datatype Scores = Scores(sections: seq<(string, SectionScore)>, total: SectionScore)

  /** The screens of the application. */
  datatype AppStep = ProfileStep | AssessmentStep | ResultsStep

  /** A readiness tier: its label, two presentation colours and a description. */
  datatype ReadinessLevel = ReadinessLevel(level: string, color: string, textColor: string, description: string)

  datatype ActionPlan = ActionPlan(
    immediateActions: seq<string>,
    shortTermActions: seq<string>,
    longTermActions: seq<string>,
    priorityAreas: seq<string>,
    industrySpecificRecommendations: seq<string>,
    goalSpecificRecommendations: seq<string>)
}
