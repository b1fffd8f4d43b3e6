/**
 * The constant question bank the scoring engine is hard-wired to, the
 * wording shown with each question, and the five-point Likert scale the
 * question card offers for Likert questions.
 */
module Questions {
  import opened Types

  /** The bank, in presentation order: five psychometric, three technical and six WISCAR questions. */
  const Bank: seq<Question> := [
    Question("psych-1", Likert, Psychometric, Some("interest"), None, None, Some(1.2)),
    Question("psych-2", Likert, Psychometric, Some("personality"), None, None, Some(1.1)),
    Question("psych-3", Likert, Psychometric, Some("motivation"), None, None, Some(1.0)),
    Question("psych-4", MultipleChoice, Psychometric, Some("working-style"),
      Some([
        "Detailed planning with clear timelines and milestones",
        "Flexible approach that adapts based on team feedback",
        "Strong communication focus with frequent check-ins",
        "Data-driven approach with metrics and analysis"]),
      None, None),
    Question("psych-5", Likert, Psychometric, Some("empathy"), None, None, Some(1.3)),
    Question("tech-1", MultipleChoice, Technical, None,
      Some([
        "Awareness of the need for change",
        "Analysis of market conditions",
        "Assessment of technical capabilities",
        "Allocation of financial resources"]),
      Some(CorrectStr("Awareness of the need for change")), Some(1.0)),
    Question("tech-2", Scenario, Technical, None,
      Some([
        "Mandate attendance at training sessions",
        "Investigate the root causes of avoidance",
        "Offer incentives for training completion",
        "Replace resistant employees with new hires"]),
      Some(CorrectStr("Investigate the root causes of avoidance")), None),
    Question("tech-3", MultipleChoice, Technical, None,
      Some([
        "Someone with high influence but low support for the change",
        "Someone with low influence but high support for the change",
        "Someone with high influence and high support for the change",
        "Someone with low influence and low support for the change"]),
      Some(CorrectStr("Someone with high influence and high support for the change")), None),
    Question("wiscar-will-1", Likert, Wiscar, Some("will"), None, None, Some(1.2)),
    Question("wiscar-interest-1", Likert, Wiscar, Some("interest"), None, None, Some(1.1)),
    Question("wiscar-skill-1", MultipleChoice, Wiscar, Some("skill"),
      Some([
        "Excellent - I can handle any challenging conversation",
        "Good - I can manage most difficult situations",
        "Fair - I sometimes struggle but can get through it",
        "Poor - I tend to avoid difficult conversations"]),
      None, None),
    Question("wiscar-cognitive-1", Scenario, Wiscar, Some("cognitive"),
      Some([
        "Push the team harder to meet leadership expectations",
        "Request a deadline extension without team input",
        "Analyze workload, assess team capacity, and propose realistic alternatives",
        "Focus only on the most critical deliverables"]),
      Some(CorrectStr("Analyze workload, assess team capacity, and propose realistic alternatives")), None),
    Question("wiscar-ability-1", Likert, Wiscar, Some("ability"), None, None, Some(1.1)),
    Question("wiscar-real-world-1", Scenario, Wiscar, Some("realWorld"),
      Some([
        "Present data showing the benefits of lean processes",
        "Build relationships and understand their concerns",
        "Work with management to enforce compliance",
        "Find quick wins to demonstrate value"]),
      Some(CorrectStr("Build relationships and understand their concerns")), None)
  ]

  /** What each question shows, in bank order: its `question` text and its optional `scenario`. */
  const Wordings: seq<Wording> := [
    Wording("psych-1",
      "I find it energizing to help organizations navigate through periods of change.", None),
    Wording("psych-2",
      "I remain calm and composed when facing unexpected challenges or resistance.", None),
    Wording("psych-3",
      "I prefer working on long-term projects that may take months to show results.", None),
    Wording("psych-4",
      "When leading a team through change, which approach do you naturally gravitate toward?", None),
    Wording("psych-5",
      "I can easily understand why people might resist organizational changes.", None),
    Wording("tech-1",
      "Which of the following is a key component of the ADKAR change management model?", None),
    Wording("tech-2",
      "What would be your primary approach to address this resistance?",
      Some("A department is implementing new software, but 60% of employees are avoiding training sessions.")),
    Wording("tech-3",
      "In stakeholder analysis, who would typically be classified as a \"Champion\"?", None),
    Wording("wiscar-will-1",
      "I am willing to invest significant time and effort to develop expertise in change management.", None),
    Wording("wiscar-interest-1",
      "I actively seek out articles, books, or courses about organizational behavior and change.", None),
    Wording("wiscar-skill-1",
      "How would you rate your current communication skills in difficult conversations?", None),
    Wording("wiscar-cognitive-1",
      "How would you analyze and address this situation?",
      Some("Your change initiative is behind schedule. Leadership is pressuring for faster results, but your team is showing signs of burnout.")),
    Wording("wiscar-ability-1",
      "I actively seek feedback on my performance and use it to improve my approach.", None),
    Wording("wiscar-real-world-1",
      "What would be your first priority?",
      Some("You are consulting for a manufacturing company implementing lean processes. The floor supervisors are openly skeptical."))
  ]

  /** One point of the Likert scale: the numeric value a choice records and its caption (the `label` of the source). */
  datatype LikertOption = LikertOption(value: int, caption: string)

  const LikertOptions: seq<LikertOption> := [
    LikertOption(1, "Strongly Disagree"),
    LikertOption(2, "Disagree"),
    LikertOption(3, "Neutral"),
    LikertOption(4, "Agree"),
    LikertOption(5, "Strongly Agree")
  ]

  /** The identifiers of the bank, in bank order. */
  function BankIds(): (ids: seq<string>)
    ensures |ids| == |Bank|
    ensures forall i :: 0 <= i < |Bank| ==> ids[i] == Bank[i].id
  {
    seq(|Bank|, i requires 0 <= i < |Bank| => Bank[i].id)
  }

  /** True when some question of the bank carries identifier `id`. */
  predicate InBank(id: string) {
    exists i :: 0 <= i < |Bank| && Bank[i].id == id
  }

  /** The bank holds fourteen questions, and these are their identifiers. */
  lemma BankShape()
    ensures |Bank| == 14
    ensures BankIds() == [
      "psych-1", "psych-2", "psych-3", "psych-4", "psych-5",
      "tech-1", "tech-2", "tech-3",
      "wiscar-will-1", "wiscar-interest-1", "wiscar-skill-1",
      "wiscar-cognitive-1", "wiscar-ability-1", "wiscar-real-world-1"]
  {
  }

  /** No two questions of the bank share an identifier. */
  lemma BankIdsDistinct()
    ensures forall i, j :: 0 <= i < j < |Bank| ==> Bank[i].id != Bank[j].id
  {
  }

  /** The wording table lines up with the bank, entry by entry. */
  lemma WordingsMatchBank()
    ensures |Wordings| == |Bank|
    ensures forall i :: 0 <= i < |Bank| ==> Wordings[i].id == Bank[i].id
  {
  }

  /** Exactly the scenario questions carry a scenario. */
  lemma ScenariosOfScenarioQuestions()
    ensures |Wordings| == |Bank|
    ensures forall i :: 0 <= i < |Bank| ==> (Wordings[i].scenario.Some? <==> Bank[i].kind == Scenario)
  {
  }

  /**
   * psych-1, entry 0 of the bank, is a psychometric question whose subcategory
   * is "interest"; no WISCAR question shares its identifier.
   */
  lemma Psych1NotWiscar()
    ensures |Bank| == 14 && Bank[0].id == "psych-1" && Bank[0].category == Psychometric
    ensures Bank[0].subcategory == Some("interest")
    ensures forall i :: 0 <= i < |Bank| && Bank[i].category == Wiscar ==> Bank[i].id != "psych-1"
  {
  }

  /** wiscar-skill-1, entry 10 of the bank, is an ungraded multiple-choice question without a weight. */
  lemma SkillQuestion()
    ensures |Bank| == 14 && Bank[10].id == "wiscar-skill-1" && Bank[10].kind == MultipleChoice
    ensures Bank[10].correctAnswer.None? && Bank[10].weight.None?
  {
  }

  /** Exactly tech-1, tech-2, tech-3, wiscar-cognitive-1 and wiscar-real-world-1 carry a correct answer. */
  lemma GradedQuestions()
    ensures forall i :: 0 <= i < |Bank| ==>
      (Bank[i].correctAnswer.Some? <==>
        Bank[i].id in ["tech-1", "tech-2", "tech-3", "wiscar-cognitive-1", "wiscar-real-world-1"])
  {
  }

  /** Every correct answer is a string listed among the question's options. */
  lemma CorrectAnswersAreOptions()
    ensures forall i :: 0 <= i < |Bank| && Bank[i].correctAnswer.Some? ==>
      Bank[i].correctAnswer.value.CorrectStr? && Bank[i].options.Some? &&
      Bank[i].correctAnswer.value.s in Bank[i].options.value
  {
  }

  /** psych-4 and wiscar-skill-1 are the only option questions without a correct answer. */
  lemma UngradedOptionQuestions()
    ensures forall i :: 0 <= i < |Bank| ==>
      ((Bank[i].kind == MultipleChoice || Bank[i].kind == Scenario) && Bank[i].correctAnswer.None? <==>
        Bank[i].id in ["psych-4", "wiscar-skill-1"])
  {
  }

  /**
   * Every explicit weight is positive, Likert questions list no options, and the
   * bank has no ranking question.
   */
  lemma BankWellFormed()
    ensures forall i :: 0 <= i < |Bank| && Bank[i].weight.Some? ==> Bank[i].weight.value > 0.0
    ensures forall i :: 0 <= i < |Bank| && Bank[i].kind == Likert ==> Bank[i].options.None?
    ensures forall i :: 0 <= i < |Bank| ==> Bank[i].kind != Ranking
  {
  }

  /** Every WISCAR question names one of the six WISCAR dimensions as its subcategory. */
  lemma WiscarSubcategoriesOfBank()
    ensures forall i :: 0 <= i < |Bank| && Bank[i].category == Wiscar ==>
      Bank[i].subcategory.Some? &&
      Bank[i].subcategory.value in ["will", "interest", "skill", "cognitive", "ability", "realWorld"]
  {
  }

  /** The Likert scale records the values 1 to 5, in increasing order. */
  lemma LikertScale()
    ensures |LikertOptions| == 5
    ensures forall k :: 0 <= k < |LikertOptions| ==> LikertOptions[k].value == k + 1
  {
  }
}
