/**
 * The data model of the career-readiness assessment: questions, responses
 * and the results record the scoring engine produces.
 */
module Types {

  datatype Option<T> = None | Some(value: T)

  /** The four answer kinds a question may declare. */
  datatype QuestionType = MultipleChoice | Likert | Scenario | Ranking

  /** The three top-level categories used for weighting. */
  datatype Category = Psychometric | Technical | Wiscar

  /** A respondent's answer: a number, a string, or an array of strings. */
  datatype Answer = Num(n: int) | Str(s: string) | Arr(items: seq<string>)

  /** A designated correct answer is a string or a number. */
  datatype CorrectAnswer = CorrectStr(s: string) | CorrectNum(n: int)

  /**
   * One question of the bank: the fields the engine and the answer controls
   * read. Optional fields of the record are `Option`s; `weight` is an exact
   * real (the bank uses 1.0, 1.1, 1.2, 1.3). The displayed `question` text and
   * `scenario` are held apart, in a `Wording` per question.
   */
  datatype Question = Question(
    id: string,
    kind: QuestionType,
    category: Category,
    subcategory: Option<string>,
    options: Option<seq<string>>,
    correctAnswer: Option<CorrectAnswer>,
    weight: Option<real>)

  /** The text a question shows: its `question` and, for scenario questions, its `scenario`. */
  datatype Wording = Wording(id: string, question: string, scenario: Option<string>)

  /** One recorded answer for a question identifier. */
  datatype Response = Response(questionId: string, answer: Answer)

  /** The six WISCAR sub-scores. */
  datatype WiscarScores = WiscarScores(
    will: int, interest: int, skill: int, cognitive: int, ability: int, realWorld: int)

  /** The three recommendation tiers: 'yes', 'maybe' and 'no'. */
  datatype Recommendation = Yes | Maybe | No

  /** The strings generated from the scores. */
  datatype Insights = Insights(
    strengths: seq<string>,
    improvements: seq<string>,
    nextSteps: seq<string>,
    careerPaths: seq<string>)

  /** Everything the engine computes for one collection of responses. */
  datatype Results = Results(
    psychometricScore: int,
    technicalScore: int,
    wiscarScores: WiscarScores,
    overallScore: int,
    recommendation: Recommendation,
    strengths: seq<string>,
    improvements: seq<string>,
    nextSteps: seq<string>,
    careerPaths: seq<string>)
}
