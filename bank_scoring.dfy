/**
 * The scoring engine instantiated on the constant question bank, as the
 * source hard-wires it, and the facts that follow from the bank's contents.
 */
module BankScoring {
  import opened Types
  import opened Questions
  import opened Insights
  import opened Scoring

  /** The results of a response collection, scored against the bank. */
  function AssessmentResults(rs: seq<Response>): (r: Results)
    requires LikertAnswersNumeric(Bank, ResponseMap(rs))
  {
    ScoreResponses(Bank, ResponseMap(rs))
  }

  /** Each WISCAR question of the bank is the only question of its dimension. */
  lemma WiscarDimensionQuestion(k: nat)
    requires 8 <= k < |Bank|
    ensures Bank[k].category == Wiscar && Bank[k].subcategory.Some?
    ensures BySubcategory(Bank, Bank[k].subcategory.value) == [Bank[k]]
  {
    SingleDimensionQuestion(Bank, Bank[k].subcategory.value, k);
  }

  /** The six WISCAR dimensions are the subcategories of bank entries 8 to 13, in that order. */
  lemma WiscarDimensionNames()
    ensures forall k :: 8 <= k < |Bank| ==> Bank[k].category == Wiscar
    ensures [Bank[8].subcategory, Bank[9].subcategory, Bank[10].subcategory,
             Bank[11].subcategory, Bank[12].subcategory, Bank[13].subcategory] ==
            [Some("will"), Some("interest"), Some("skill"), Some("cognitive"), Some("ability"), Some("realWorld")]
    ensures forall k :: 0 <= k < 8 ==> Bank[k].category != Wiscar
  {
  }

  /** The skill dimension is scored on wiscar-skill-1 alone. */
  lemma SkillQuestionOnly()
    ensures BySubcategory(Bank, "skill") == [Bank[10]]
  {
    SingleDimensionQuestion(Bank, "skill", 10);
  }

  /**
   * wiscar-skill-1 is an ungraded question without a weight, so the skill
   * score is 75 when it is answered and 0 when it is not.
   */
  lemma SkillSubscore(rm: map<string, Response>)
    requires LikertAnswersNumeric(Bank, rm)
    ensures WiscarSubscore(Bank, "skill", rm) == if "wiscar-skill-1" in rm then 75 else 0
  {
    var q := Bank[10];
    SkillQuestionOnly();
    SkillQuestion();
    assert q.id == "wiscar-skill-1";
    UngradedSoleSubscore(Bank, "skill", rm, q);
  }

  /**
   * Any answer at all to wiscar-skill-1 clears the communication improvement
   * area; without one, the area is always listed.
   */
  lemma CommunicationImprovementIff(rm: map<string, Response>)
    requires LikertAnswersNumeric(Bank, rm)
    ensures PracticeCommunication in ScoreResponses(Bank, rm).improvements <==> "wiscar-skill-1" !in rm
  {
    SkillSubscore(rm);
    SkillScoreDecidesCommunication(Bank, rm, "wiscar-skill-1");
  }

  /**
   * psych-1 carries the subcategory "interest" but is a psychometric
   * question, so its answer never moves the WISCAR interest score.
   */
  lemma Psych1LeavesWiscarAlone(rm: map<string, Response>, r: Response)
    requires LikertAnswersNumeric(Bank, rm) && LikertAnswersNumeric(Bank, rm["psych-1" := r])
    ensures WiscarScoresOf(Bank, rm["psych-1" := r]) == WiscarScoresOf(Bank, rm)
  {
    Psych1NotWiscar();
    NonWiscarResponseKeepsWiscarScores(Bank, rm, "psych-1", r);
  }

  /** A response for an identifier outside the bank changes no result. */
  lemma UnknownResponseIgnored(a: seq<Response>, r: Response, b: seq<Response>)
    requires !InBank(r.questionId)
    requires LikertAnswersNumeric(Bank, ResponseMap(a + b))
    ensures LikertAnswersNumeric(Bank, ResponseMap(a + [r] + b))
    ensures AssessmentResults(a + [r] + b) == AssessmentResults(a + b)
  {
    forall q | q in Bank
      ensures q.id != r.questionId
    {
      var i :| 0 <= i < |Bank| && Bank[i] == q;
    }
    ResponseToUnknownIdIgnored(Bank, a, r, b);
  }

  /** Answering a question twice in a row scores as answering it once, with the later answer. */
  lemma LaterAnswerWins(rs: seq<Response>, r1: Response, r2: Response)
    requires r1.questionId == r2.questionId
    requires LikertAnswersNumeric(Bank, ResponseMap(rs + [r2]))
    ensures LikertAnswersNumeric(Bank, ResponseMap(rs + [r1, r2]))
    ensures AssessmentResults(rs + [r1, r2]) == AssessmentResults(rs + [r2])
  {
    LaterResponseWins(rs, r1, r2);
  }

  /**
   * Scored against the bank, with every Likert answer on the five-point
   * scale, every score of the results lies in [0, 100].
   */
  lemma BankResultsInRange(rs: seq<Response>)
    requires LikertAnswersOnScale(Bank, ResponseMap(rs))
    ensures LikertAnswersNumeric(Bank, ResponseMap(rs))
    ensures InPercentRange(AssessmentResults(rs).psychometricScore)
    ensures InPercentRange(AssessmentResults(rs).technicalScore)
    ensures WiscarInRange(AssessmentResults(rs).wiscarScores)
    ensures InPercentRange(AssessmentResults(rs).overallScore)
  {
    BankWeightsNonNegative();
    ResultsInRange(Bank, ResponseMap(rs));
  }

  /** The bank meets the weight condition of the range lemma. */
  lemma BankWeightsNonNegative()
    ensures NonNegativeWeights(Bank)
  {
    BankWellFormed();
    forall q | q in Bank && q.weight.Some?
      ensures q.weight.value >= 0.0
    {
      var i :| 0 <= i < |Bank| && Bank[i] == q;
    }
  }
}
