# Change-readiness navigator: scoring engine, question bank and wizard

This project is a Dafny model of the computational core of the change-readiness
navigator. The navigator is a client-side quiz that asks whether someone is suited to
become a change-management advisor. The model has three parts:

- **The question bank** (`questions.dfy`, module `Questions`). It holds the fourteen
  questions as a constant `seq<Question>`, in presentation order: five psychometric,
  three technical and six WISCAR questions (will, interest, skill, cognitive, ability,
  real world). It also holds their wording and the five-point Likert scale.
  Lemmas state facts about the bank's contents.
- **The scoring engine** (`scoring.dfy`, `insights.dfy` and `bank_scoring.dfy`).
  - A response list is folded into a map in which the last response for an id wins.
  - Each category score is a rounded weighted mean of per-question raw scores. Unanswered
    questions are skipped. JavaScript's `weight || 1` and the truthiness test on
    `correctAnswer` are kept.
  - There are six WISCAR sub-scores, each computed over the WISCAR questions of one
    subcategory.
  - The overall score blends the scores with weights 0.3/0.3/0.4, and a three-tier
    recommendation is derived from it.
  - Four lists come from a threshold rule table: strengths, improvements, next steps and
    career paths.
  - `calculateCategoryScore` and `generateInsights` accumulate step by step in the source.
    They are methods with loops or pushes, proved against specification functions.
    `calculateWISCARSubcategory` and `calculateAssessmentResults` are methods too,
    each proved equal to the specification function it computes; the filters, the
    blend, the tier and the rule tables are functions. The engine is written over a
    `bank` parameter. `BankScoring` instantiates it on the constant bank the source is
    hard-wired to.
- **The assessment wizard** (`wizard.dfy`, module `Wizard`). The state of the
  `Assessment` page is a class with fields `currentStep`, `responses`, `isComplete` and
  `savedResponses`.
  - Its methods are the answer, next, previous and complete handlers, and the
  Next button gated by `canProceed`.
  - The step arithmetic, the replace-semantics update of the response list, and the
  current-answer lookup are functions with lemmas.
  - `question_card.dfy` (module `QuestionCard`) models only which answers the question
  card lets a user choose, which the wizard needs for its finding below.

Arithmetic is exact: scores are `real`, and `Math.round` is `Round(x) = Floor(x + 0.5)`.
Answers are `Num(int) | Str(string) | Arr(seq<string>)`. Strict equality `===` between an
answer and a correct answer needs the same type and the same value; arrays never match.

The model keeps these JavaScript behaviours of the code:

- A declared weight of 0 counts as 1 (`weight || 1`). It is not used as a weight of 0.
- A correct answer that is `""` or `0` leaves the question ungraded. Such a question is
  then scored 75.
- `completeAssessment` never updates the React state. It writes `isComplete: true` and
  the responses only to persisted storage. The model keeps that persisted copy as the
  fields `isComplete` and `savedResponses`.

## Model

| member | source | states |
|---|---|---|
| Questions.BankShape | src/data/questions.ts:3-162 | the bank has 14 questions, with exactly these identifiers in this order |
| Questions.BankIdsDistinct | src/data/questions.ts:5-161 | no two questions of the bank share an identifier |
| Questions.WordingsMatchBank | src/data/questions.ts:5-161 | the wording table has one entry per question, with the same identifier, in the same order |
| Questions.ScenariosOfScenarioQuestions | src/data/questions.ts:66-161 | a question carries a scenario text if and only if it is a scenario question |
| Questions.Psych1NotWiscar | src/data/questions.ts:5-12 | entry 0 is psych-1, a psychometric question with subcategory interest, and no WISCAR question has the identifier psych-1 |
| Questions.SkillQuestion | src/data/questions.ts:111-123 | entry 10 is wiscar-skill-1, a multiple-choice question with no correct answer and no weight |
| Questions.GradedQuestions | src/data/questions.ts:53-161 | a question has a correct answer if and only if it is tech-1, tech-2, tech-3, wiscar-cognitive-1 or wiscar-real-world-1 |
| Questions.CorrectAnswersAreOptions | src/data/questions.ts:53-161 | every correct answer is a string listed among that question's options |
| Questions.UngradedOptionQuestions | src/data/questions.ts:29-123 | among multiple-choice and scenario questions, exactly psych-4 and wiscar-skill-1 have no correct answer |
| Questions.BankWellFormed | src/data/questions.ts:11-145 | every explicit weight is positive, Likert questions list no options, and no question is a ranking question |
| Questions.WiscarSubcategoriesOfBank | src/data/questions.ts:95-161 | every WISCAR question has one of the six WISCAR dimensions as its subcategory |
| Questions.LikertScale | src/data/questions.ts:164-169 | the Likert scale has five points, valued 1 to 5 in increasing order |
| Scoring.ResponseMap | src/utils/assessment-scoring.ts:5 | an id is a key exactly when some response carries it, and each key maps to a response with that id |
| Scoring.LastResponseWins | src/utils/assessment-scoring.ts:5 | a response with no later response for the same id is the one the map keeps |
| Scoring.ResponseMapAppend | src/utils/assessment-scoring.ts:5 | the map of a concatenation is the first map overridden by the second |
| Scoring.LaterResponseWins | src/utils/assessment-scoring.ts:5 | of two consecutive responses for one id, only the later one matters |
| Scoring.OtherResponseIgnored | src/utils/assessment-scoring.ts:5 | inserting a response leaves the entry of every other id unchanged |
| Scoring.Round | src/utils/assessment-scoring.ts:85 | the result is the integer nearest the input, with halves rounded up (as Math.round rounds) |
| Scoring.EffectiveWeight | src/utils/assessment-scoring.ts:67 | the weight used is exactly 1 when the weight is absent or declared 0, and the declared weight unchanged otherwise; it is never 0, and positive for a non-negative declared weight |
| Scoring.RawScore | src/utils/assessment-scoring.ts:68-79 | a Likert answer n scores 20·n, unclamped; a graded option question scores 100 iff the answer strictly equals the correct answer and 0 otherwise; an ungraded one scores 75; every other kind scores 0 |
| Scoring.FalsyCorrectAnswerUngraded | src/utils/assessment-scoring.ts:72-76 | a multiple-choice or scenario question whose correct answer is "" or 0 is not graded and scores 75 for any answer, as the truthiness test on correctAnswer makes it |
| Scoring.CalculateCategoryScore | src/utils/assessment-scoring.ts:59-86 | the accumulating loop returns CategoryScore, the closed form: Round(TotalScore / TotalWeight), the rounded weighted mean over answered questions, or 0 when the weights sum to 0 or less; the loop invariants tie its accumulators to TotalScore and TotalWeight of the prefix done |
| Scoring.TotalsAppend | src/utils/assessment-scoring.ts:63-83 | both accumulators are additive over concatenation of question lists |
| Scoring.UnansweredTotalsZero | src/utils/assessment-scoring.ts:63-83 | with no question answered, both accumulators stay 0 |
| Scoring.UnansweredCategoryScoresZero | src/utils/assessment-scoring.ts:85 | with no question answered, the category score is exactly 0 |
| Scoring.UnansweredQuestionIsSkipped | src/utils/assessment-scoring.ts:64-65 | an unanswered question, wherever it stands, adds nothing to the numerator, the denominator or the score |
| Scoring.TermBounded | src/utils/assessment-scoring.ts:68-82 | with Likert answers in 1..5 and a non-negative weight, one question's term lies in [0, 100 × its weight] |
| Scoring.TotalsBounded | src/utils/assessment-scoring.ts:63-83 | with Likert answers in 1..5 and no negative declared weight, TotalWeight is at least 0 and TotalScore lies between 0 and 100 times TotalWeight |
| Scoring.CategoryScoreInRange | src/utils/assessment-scoring.ts:63-85 | with Likert answers in 1..5 and non-negative weights, a category score lies in [0, 100] |
| Scoring.SingleQuestionScore | src/utils/assessment-scoring.ts:59-86 | for a question whose declared weight, if any, is not negative, a category of that one question scores the rounded raw score of its answer, or 0 when unanswered (a negative weight is not covered: the source then returns 0 through `totalWeight > 0`) |
| Scoring.SameTermsSameTotals | src/utils/assessment-scoring.ts:63-85 | two lists whose questions contribute equal terms position by position have equal totals and equal scores |
| Scoring.ZeroWeightCountsAsOne | src/utils/assessment-scoring.ts:67 | declaring one question's weight 0, leaving it out, or declaring 1 all give the same category score |
| Scoring.ReweightSameScore | src/utils/assessment-scoring.ts:67 | replacing one question's weight by another with the same effective weight keeps the category score |
| Scoring.DoubleWeightCountsTwice | src/utils/assessment-scoring.ts:67-82 | for a question of effective weight 1 (declared 1, declared 0 or absent) at any position in the list, redeclaring it with weight 2.0 gives the same category score as listing it twice in that place |
| Scoring.RankingQuestionDilutes | src/utils/assessment-scoring.ts:68-82 | an answered ranking question adds 0 to the numerator but its weight to the denominator |
| Scoring.CategoryScoreLocal | src/utils/assessment-scoring.ts:63-65 | two response maps that agree on the answers of a list's questions give the list the same totals and score |
| Scoring.ByCategoryMembers | src/utils/assessment-scoring.ts:8 | ByCategory, the category filter of lines 8 and 12, keeps exactly the questions of that category |
| Scoring.BySubcategoryMembers | src/utils/assessment-scoring.ts:89-91 | BySubcategory, the dimension filter, keeps exactly the WISCAR questions with that subcategory |
| Scoring.NoDimensionQuestion | src/utils/assessment-scoring.ts:89-91 | with no question in a dimension, the filter is empty |
| Scoring.SingleDimensionQuestion | src/utils/assessment-scoring.ts:89-91 | with exactly one question in a dimension, the filter holds exactly that question |
| Scoring.CalculateWiscarSubcategory | src/utils/assessment-scoring.ts:88-94 | the method returns WiscarSubscore: the category score of the WISCAR questions of that subcategory |
| Scoring.WiscarSubscoreLocal | src/utils/assessment-scoring.ts:88-94 | a sub-score depends only on the answers to the questions of its own dimension |
| Scoring.SoleQuestionSubscore | src/utils/assessment-scoring.ts:88-94 | a dimension of one question scores that question's rounded raw score when answered, and 0 when not |
| Scoring.UngradedSoleSubscore | src/utils/assessment-scoring.ts:76-78 | a dimension whose only question is ungraded and unweighted scores 75 when answered and 0 when not |
| Scoring.NonWiscarResponseIgnored | src/utils/assessment-scoring.ts:89-91 | a response for an id no WISCAR question carries moves no sub-score, whatever that question's subcategory |
| Scoring.NonWiscarResponseKeepsWiscarScores | src/utils/assessment-scoring.ts:16-23 | such a response leaves all six WISCAR scores unchanged |
| Scoring.OverallScore | src/utils/assessment-scoring.ts:26-29 | the result is within one half of 0.3·psych + 0.3·tech + 0.4·(WISCAR sum / 6), and lies in [0, 100] when its inputs do |
| Scoring.Recommend | src/utils/assessment-scoring.ts:32-35 | yes iff overall ≥ 75, maybe iff 55 ≤ overall < 75, no iff overall < 55 |
| Scoring.RecommendMonotone | src/utils/assessment-scoring.ts:32-35 | a higher overall score never gives a lower tier |
| Scoring.ResultsInsightsIff | src/utils/assessment-scoring.ts:114-152 | in ResultsFromScores, each strength is listed iff its score is at least 75, each improvement iff its score is below 60, the next steps are the overall score's tier's, and the career paths are the fixed five |
| Scoring.CalculateAssessmentResults | src/utils/assessment-scoring.ts:4-57 | the method returns ScoreResponses of the last-wins response map: the scores of ScoresOf, completed by ResultsFromScores with the overall score, tier and lists |
| Scoring.ScoresLocal | src/utils/assessment-scoring.ts:5-23 | response maps that agree on the bank's questions give the same scores |
| Scoring.WiscarScoresLocal | src/utils/assessment-scoring.ts:16-23 | response maps that agree on the bank's questions give the same WISCAR scores |
| Scoring.ResultsLocal | src/utils/assessment-scoring.ts:4-57 | response maps that agree on the bank's questions give the same results |
| Scoring.ResponseToUnknownIdIgnored | src/utils/assessment-scoring.ts:5-13 | inserting a response for an id outside the bank, anywhere in the list, changes no result |
| Scoring.SoleSkillQuestionImprovementIff | src/utils/assessment-scoring.ts:135-137 | when the skill dimension has one ungraded, unweighted question, the communication improvement is listed iff that question is unanswered |
| Scoring.SkillScoreDecidesCommunication | src/utils/assessment-scoring.ts:135-137 | a skill score of 75 when answered and 0 when not lists the communication improvement exactly when unanswered |
| Scoring.ResultsInRange | src/utils/assessment-scoring.ts:4-57 | with Likert answers in 1..5 and non-negative weights, every score of the results lies in [0, 100] |
| Scoring.SelectionInRange | src/utils/assessment-scoring.ts:8-13 | under the same conditions, a category score lies in [0, 100] |
| Scoring.SubscoreInRange | src/utils/assessment-scoring.ts:88-94 | under the same conditions, a WISCAR sub-score lies in [0, 100] |
| Scoring.NoResponsesScoresZero | src/utils/assessment-scoring.ts:4-23 | with no responses, every category and WISCAR score is 0 |
| Scoring.ZeroScoresResults | src/utils/assessment-scoring.ts:26-44 | all-zero scores give overall 0, tier no, no strengths, all three improvements and the third tier's steps |
| Scoring.NoResponsesResults | src/utils/assessment-scoring.ts:4-57 | the results of an empty response list, field by field |
| Insights.FiredTexts | src/utils/assessment-scoring.ts:114-137 | the emitted texts number at most the rules, and each belongs to a rule that fires |
| Insights.GenerateInsights | src/utils/assessment-scoring.ts:96-155 | the built lists are the fired strength rules, the fired improvement rules, the tier's steps and the five career paths |
| Insights.PushStrengths | src/utils/assessment-scoring.ts:114-126 | the pushes produce exactly the fired strength rules, in table order |
| Insights.PushImprovements | src/utils/assessment-scoring.ts:128-137 | the pushes produce exactly the fired improvement rules, in table order |
| Insights.PushNextSteps | src/utils/assessment-scoring.ts:139-152 | the pushes produce exactly NextStepsFor the recommendation, the three steps of its tier |
| Insights.StrengthTable | src/utils/assessment-scoring.ts:114-126 | the strengths are the four rules' outputs, concatenated in that fixed order |
| Insights.ImprovementTable | src/utils/assessment-scoring.ts:128-137 | the improvements are the three rules' outputs, concatenated in that fixed order |
| Insights.FiredTextsComplete | src/utils/assessment-scoring.ts:114-137 | every rule that fires has its text emitted |
| Insights.FiredTextsIff | src/utils/assessment-scoring.ts:114-137 | in a table with distinct texts, a rule's text is emitted iff the rule fires |
| Insights.StrengthsIff | src/utils/assessment-scoring.ts:114-126 | each strength is listed iff its own score is at least 75 |
| Insights.ImprovementsIff | src/utils/assessment-scoring.ts:128-137 | each improvement is listed iff its own score is below 60 |
| Insights.CommunicationImprovementOfSkill | src/utils/assessment-scoring.ts:135-137 | a skill score of 75 or 0 lists the communication improvement exactly for 0 |
| Insights.MiddleBandIsQuiet | src/utils/assessment-scoring.ts:114-137 | with all rule scores in [60, 74], both lists are empty |
| Insights.LowScoresInsights | src/utils/assessment-scoring.ts:114-137 | with low scores, there are no strengths and all three improvements appear, in order |
| Insights.NextStepsDetermineTier | src/utils/assessment-scoring.ts:139-152 | NextStepsFor gives every tier three steps, and the steps of two tiers are equal iff the tiers are |
| BankScoring.WiscarDimensionQuestion | src/data/questions.ts:95-161 | each WISCAR question of the bank is the only question of its dimension |
| BankScoring.WiscarDimensionNames | src/data/questions.ts:95-161 | entries 8 to 13, and only those, are WISCAR, with dimensions will, interest, skill, cognitive, ability, realWorld |
| BankScoring.SkillQuestionOnly | src/data/questions.ts:111-123 | the skill dimension is scored on wiscar-skill-1 alone |
| BankScoring.SkillSubscore | src/utils/assessment-scoring.ts:76-78 | on the bank, the skill sub-score is 75 when wiscar-skill-1 is answered and 0 when not |
| BankScoring.CommunicationImprovementIff | src/utils/assessment-scoring.ts:135-137 | on the bank, the communication improvement is listed iff wiscar-skill-1 is unanswered |
| BankScoring.Psych1LeavesWiscarAlone | src/utils/assessment-scoring.ts:89-91 | an answer to psych-1 (subcategory interest, as Questions.Psych1NotWiscar states) never moves a WISCAR score |
| BankScoring.UnknownResponseIgnored | src/utils/assessment-scoring.ts:5-13 | a response for an id outside the bank, inserted anywhere, changes no AssessmentResults (the results of a response list scored against the bank) |
| BankScoring.LaterAnswerWins | src/utils/assessment-scoring.ts:5 | two consecutive answers to one question score as the later one alone |
| BankScoring.BankResultsInRange | src/utils/assessment-scoring.ts:4-57 | on the bank, with Likert answers in 1..5, every score of the results lies in [0, 100] |
| QuestionCard.LikertAnswers | src/components/assessment/QuestionCard.tsx:39-58 | a Likert question offers exactly the numbers 1, 2, 3, 4, 5, in that order |
| QuestionCard.OptionAnswers | src/components/assessment/QuestionCard.tsx:61-81 | an option question offers one string answer per option, in order, and an answer is offered iff it is one of the option strings |
| QuestionCard.ScenarioQuestionsOfferNothing | src/components/assessment/QuestionCard.tsx:38-84 | OfferedAsWritten, the card as written, offers a scenario question no answer; Offered, the card as intended, offers one per option |
| QuestionCard.EveryBankQuestionAnswerable | src/components/assessment/QuestionCard.tsx:38-84 | with Offered, the intended card, every bank question offers at least one answer, and none is an array |
| Wizard.StepTransitions | src/pages/Assessment.tsx:47-64 | NextStep (handleNext) and PreviousStep (handlePrevious) keep the step in 1..N+1; NextCompletes holds exactly at N+1, and otherwise NextStep moves one step; QuestionAt (the `currentQuestion` indexing of line 22) shows no question only at step 1 |
| Wizard.PreviousUndoesNext | src/pages/Assessment.tsx:47-64 | Previous undoes a Next that moved, and Next undoes a Previous that moved |
| Wizard.AdvanceFromIntroduction | src/pages/Assessment.tsx:22 | k presses of Next from the introduction reach step k+1 and show question k-1, so each question is shown once, in order |
| Wizard.WithoutId | src/pages/Assessment.tsx:41 | the filter keeps exactly the responses for other ids and never lengthens the list |
| Wizard.WithoutIdAppend | src/pages/Assessment.tsx:41 | the filter distributes over concatenation, so relative order is kept |
| Wizard.WithoutAbsentId | src/pages/Assessment.tsx:41 | filtering an id that does not occur leaves the list as it was |
| Wizard.WithoutIdKeepsUnique | src/pages/Assessment.tsx:41 | filtering keeps ids unique |
| Wizard.AnsweredShape | src/pages/Assessment.tsx:38-44 | after Answered, the filter-then-append update of handleAnswer, the new response is last, no earlier entry has its id, and the other entries are kept |
| Wizard.AnsweredKeepsUnique | src/pages/Assessment.tsx:38-44 | answering keeps every id at most once |
| Wizard.AnswerTwiceKeepsLast | src/pages/Assessment.tsx:38-44 | answering a question twice equals answering it once with the later answer |
| Wizard.WithoutIdMap | src/pages/Assessment.tsx:41 | the scoring map of the filtered list is the old map without that id |
| Wizard.AnsweredMap | src/pages/Assessment.tsx:38-44 | the scoring map after answering is the old map updated at that id |
| Wizard.FindAnswer | src/pages/Assessment.tsx:81 | finds nothing iff no response has the id, and otherwise the answer of the first one that does |
| Wizard.FindAgreesWithMap | src/pages/Assessment.tsx:81 | with unique ids, the first match is the entry the scoring map keeps |
| Wizard.FindSkipsOthers | src/pages/Assessment.tsx:81 | responses for other ids in front do not change what is found |
| Wizard.CanProceedIff | src/pages/Assessment.tsx:79-92 | for a valid step and responses with distinct question ids, CanProceed (canProceed), reading CurrentAnswer (getCurrentAnswer), holds iff the step is 1 or some response for the current question has a non-array answer |
| Wizard.AnswerEnablesNext | src/pages/Assessment.tsx:29-45 | after answering the current question with a non-array answer, CurrentAnswer gives that answer and CanProceed holds |
| Wizard.WrittenCardBlocksStep8 | src/components/assessment/QuestionCard.tsx:61 | with the card as written, step 8 shows scenario question tech-2, and Next stays disabled there |
| Wizard.Assessment.constructor | src/pages/Assessment.tsx:14-19 | the initial state is step 1, no responses and not complete |
| Wizard.Assessment.HandleAnswer | src/pages/Assessment.tsx:29-45 | a no-op without a current question; otherwise the responses become the old ones with that id replaced by the new answer, placed last; the other fields are unchanged |
| Wizard.Assessment.ChooseOption | src/pages/Assessment.tsx:29-45 | choosing an answer the intended card offers records it and enables Next |
| Wizard.Assessment.HandleNext | src/pages/Assessment.tsx:47-58 | the step moves as NextStep says, and at the last step the assessment completes with the current responses |
| Wizard.Assessment.HandlePrevious | src/pages/Assessment.tsx:60-64 | the step moves back one, except at step 1; nothing else changes |
| Wizard.Assessment.CompleteAssessment | src/pages/Assessment.tsx:66-69 | sets the completion flag and saves exactly the current responses; step and responses are unchanged |
| Wizard.Assessment.ClickNext | src/pages/Assessment.tsx:191-196 | pressing Next does nothing while it is disabled; completion happens only from step N+1 with the last question answered |

## Left out

- Clock values are left out because they are never scored: `timeStarted`, `timeSpent` and `Date.now()`.
- `localStorage`, `JSON.stringify`/`JSON.parse`, the toast and the navigation to the results page are left out because they are I/O. The persisted copy written at completion is kept, as the fields `isComplete` and `savedResponses`.
- Scoring.RawScore: the model requires every answer to a Likert question to be a number (`Num`, through `LikertAnswersNumeric`). The source converts any answer with `Number(answer)`. This leaves out numeric strings such as "4", one-element arrays such as ["3"], and the empty string or array (which convert to 0), all of which the source scores. It also leaves out the answers that convert to NaN. The question card only ever records the numbers 1 to 5 for Likert questions.
- Scoring.Round: rounding and the decimal weights are exact real arithmetic. IEEE-754 double rounding is not modelled, so results may differ from the source's floats by representation error.
- Rendering is not modelled: the JSX of the pages and of the question card, the progress indicator, the radar chart and the results page. The results page recomputes the WISCAR average and maps the tier to text and colours; these copies are not modelled either.
- The "15 Questions" marketing text of the landing page is not modelled; the bank has 14.
- The question card's own `selectedAnswer` state is not modelled. Only the set of answers it offers is, as far as the wizard needs it.
- Answers are immutable values here, so the aliasing that JavaScript objects allow does not arise.
- Question prompts and scenario texts are in a separate `Wordings` table, matched to the bank by identifier (`WordingsMatchBank`), because the engine never reads them.
- The engine takes the question bank as a parameter rather than importing it; `BankScoring` instantiates it on the constant bank.

## Findings

| source | as written | input that shows it | evidently intended | confidence | as-written member | corrected member |
|---|---|---|---|---|---|---|
| src/components/assessment/QuestionCard.tsx:61 | answer controls are rendered only for Likert questions and for multiple-choice questions with options; a scenario question gets none, so no answer to it can be recorded | the session at step 8, showing scenario question tech-2: while the card is the only source of answers, `canProceed` stays false there and the assessment can never complete | scenario questions are offered their options like multiple-choice questions | not executed | QuestionCard.OfferedAsWritten, Wizard.WrittenCardBlocksStep8 | QuestionCard.Offered, QuestionCard.EveryBankQuestionAnswerable, Wizard.Assessment.ChooseOption |
