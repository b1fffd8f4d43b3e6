/**
 * The insight generator: a fixed rule table that maps category scores to
 * canned strengths and improvement areas, the three next-step lists chosen
 * by the recommendation tier, and the constant list of career paths.
 */
module Insights {
  import opened Types

  // The strings the generator can emit.
  const PersonalityFit: string := "Strong personality fit for change management roles"
  const FrameworkFoundation: string := "Solid foundation in change management frameworks"
  const HighMotivation: string := "High motivation and commitment to the field"
  const AnalyticalAbility: string := "Excellent analytical and problem-solving abilities"

  const DevelopEmotionalIntelligence: string := "Develop emotional intelligence and stress management skills"
  const StudyFrameworks: string := "Study change management frameworks (ADKAR, Kotter's 8 Steps)"
  const PracticeCommunication: string := "Practice communication and conflict resolution skills"

  const YesSteps: seq<string> := [
    "Consider pursuing change management certification (Prosci, CCMP)",
    "Seek opportunities to lead change initiatives in your current role",
    "Network with change management professionals"]
  const MaybeSteps: seq<string> := [
    "Focus on developing identified improvement areas",
    "Gain experience in project management or team leadership",
    "Take introductory courses in organizational behavior"]
  const NoSteps: seq<string> := [
    "Consider building foundational skills in communication and leadership",
    "Explore related fields like HR, project management, or training",
    "Reassess after gaining more professional experience"]

  const CareerPaths: seq<string> := [
    "Change Management Advisor",
    "Organizational Development Specialist",
    "Business Transformation Consultant",
    "HR Change Agent",
    "Project Manager with Change Focus"]

  /** The scores a rule may look at. */
  datatype Scores = Scores(psychometric: int, technical: int, wiscar: WiscarScores)

  datatype Metric = PsychometricMetric | TechnicalMetric | WillMetric | CognitiveMetric | SkillMetric

  /** A threshold rule: emit `text` when the metric is at least, or strictly below, `bound`. */
  datatype Rule = AtLeast(metric: Metric, bound: int, text: string) | Below(metric: Metric, bound: int, text: string)

  function Value(m: Metric, s: Scores): (r: int) {
    match m
    case PsychometricMetric => s.psychometric
    case TechnicalMetric => s.technical
    case WillMetric => s.wiscar.will
    case CognitiveMetric => s.wiscar.cognitive
    case SkillMetric => s.wiscar.skill
  }

  predicate Fires(rule: Rule, s: Scores) {
    match rule
    case AtLeast(m, b, _) => Value(m, s) >= b
    case Below(m, b, _) => Value(m, s) < b
  }

  // The rules one by one, then as the two ordered tables.
  const PsychometricStrength: Rule := AtLeast(PsychometricMetric, 75, PersonalityFit)
  const TechnicalStrength: Rule := AtLeast(TechnicalMetric, 75, FrameworkFoundation)
  const WillStrength: Rule := AtLeast(WillMetric, 75, HighMotivation)
  const CognitiveStrength: Rule := AtLeast(CognitiveMetric, 75, AnalyticalAbility)
  const PsychometricImprovement: Rule := Below(PsychometricMetric, 60, DevelopEmotionalIntelligence)
  const TechnicalImprovement: Rule := Below(TechnicalMetric, 60, StudyFrameworks)
  const SkillImprovement: Rule := Below(SkillMetric, 60, PracticeCommunication)

  const StrengthRules: seq<Rule> := [PsychometricStrength, TechnicalStrength, WillStrength, CognitiveStrength]
  const ImprovementRules: seq<Rule> := [PsychometricImprovement, TechnicalImprovement, SkillImprovement]

  /** What one rule contributes: its text when it fires, nothing otherwise. */
  function Emit(rule: Rule, s: Scores): (r: seq<string>) {
    if Fires(rule, s) then [rule.text] else []
  }

  /**
   * The texts of the rules that fire, in table order. Every emitted text
   * belongs to a rule that fires.
   */
  function FiredTexts(rules: seq<Rule>, s: Scores): (r: seq<string>)
    ensures |r| <= |rules|
    ensures forall x :: x in r ==> exists k :: 0 <= k < |rules| && rules[k].text == x && Fires(rules[k], s)
  {
    if rules == [] then []
    else Emit(rules[0], s) + FiredTexts(rules[1..], s)
  }

  /** The next-step list selected, wholesale, by the recommendation tier. */
  function NextStepsFor(rec: Recommendation): (r: seq<string>) {
    match rec
    case Yes => YesSteps
    case Maybe => MaybeSteps
    case No => NoSteps
  }

  /**
   * Builds the four lists by testing each threshold in turn and appending
   * to the lists, as the generator does. The overall score is accepted and
   * not consulted.
   */
  method GenerateInsights(psychometricScore: int, technicalScore: int, wiscarScores: WiscarScores,
                          overallScore: int, recommendation: Recommendation)
    returns (ins: Insights)
    ensures ins.strengths == FiredTexts(StrengthRules, Scores(psychometricScore, technicalScore, wiscarScores))
    ensures ins.improvements == FiredTexts(ImprovementRules, Scores(psychometricScore, technicalScore, wiscarScores))
    ensures ins.nextSteps == NextStepsFor(recommendation)
    ensures ins.careerPaths == CareerPaths
  {
    var strengths := PushStrengths(psychometricScore, technicalScore, wiscarScores);
    var improvements := PushImprovements(psychometricScore, technicalScore, wiscarScores);
    var nextSteps := PushNextSteps(recommendation);
    var careerPaths := CareerPaths;
    ins := Insights(strengths, improvements, nextSteps, careerPaths);
  }

  /** The strength pass of the generator: one threshold test and push per strength. */
  method PushStrengths(psychometricScore: int, technicalScore: int, wiscarScores: WiscarScores)
    returns (strengths: seq<string>)
    ensures strengths == FiredTexts(StrengthRules, Scores(psychometricScore, technicalScore, wiscarScores))
  {
    ghost var s := Scores(psychometricScore, technicalScore, wiscarScores);
    strengths := [];
    if psychometricScore >= 75 {
      strengths := strengths + [PersonalityFit];
    }
    assert strengths == Emit(PsychometricStrength, s);
    if technicalScore >= 75 {
      strengths := strengths + [FrameworkFoundation];
    }
    assert strengths == Emit(PsychometricStrength, s) + Emit(TechnicalStrength, s);
    if wiscarScores.will >= 75 {
      strengths := strengths + [HighMotivation];
    }
    assert strengths == Emit(PsychometricStrength, s) + Emit(TechnicalStrength, s) + Emit(WillStrength, s);
    if wiscarScores.cognitive >= 75 {
      strengths := strengths + [AnalyticalAbility];
    }
    StrengthTable(s);
  }

  /** The improvement pass of the generator: one threshold test and push per improvement area. */
  method PushImprovements(psychometricScore: int, technicalScore: int, wiscarScores: WiscarScores)
    returns (improvements: seq<string>)
    ensures improvements == FiredTexts(ImprovementRules, Scores(psychometricScore, technicalScore, wiscarScores))
  {
    ghost var s := Scores(psychometricScore, technicalScore, wiscarScores);
    improvements := [];
    if psychometricScore < 60 {
      improvements := improvements + [DevelopEmotionalIntelligence];
    }
    assert improvements == Emit(PsychometricImprovement, s);
    if technicalScore < 60 {
      improvements := improvements + [StudyFrameworks];
    }
    assert improvements == Emit(PsychometricImprovement, s) + Emit(TechnicalImprovement, s);
    if wiscarScores.skill < 60 {
      improvements := improvements + [PracticeCommunication];
    }
    ImprovementTable(s);
  }

  /** The next-step pass of the generator: three pushes from the list of the recommendation's tier. */
  method PushNextSteps(recommendation: Recommendation) returns (nextSteps: seq<string>)
    ensures nextSteps == NextStepsFor(recommendation)
  {
    nextSteps := [];
    if recommendation == Yes {
      nextSteps := nextSteps + [YesSteps[0]];
      nextSteps := nextSteps + [YesSteps[1]];
      nextSteps := nextSteps + [YesSteps[2]];
    } else if recommendation == Maybe {
      nextSteps := nextSteps + [MaybeSteps[0]];
      nextSteps := nextSteps + [MaybeSteps[1]];
      nextSteps := nextSteps + [MaybeSteps[2]];
    } else {
      nextSteps := nextSteps + [NoSteps[0]];
      nextSteps := nextSteps + [NoSteps[1]];
      nextSteps := nextSteps + [NoSteps[2]];
    }
  }

  /** The strength table, unfolded: each rule contributes its text, in order, exactly when it fires. */
  lemma StrengthTable(s: Scores)
    ensures FiredTexts(StrengthRules, s) ==
      Emit(PsychometricStrength, s) + Emit(TechnicalStrength, s) + Emit(WillStrength, s) + Emit(CognitiveStrength, s)
  {
    var rs := StrengthRules;
    assert rs[1..][1..][1..][1..] == [];
    assert FiredTexts(rs[1..][1..][1..], s) == Emit(CognitiveStrength, s);
    assert FiredTexts(rs[1..][1..], s) == Emit(WillStrength, s) + Emit(CognitiveStrength, s);
    assert FiredTexts(rs[1..], s) == Emit(TechnicalStrength, s) + (Emit(WillStrength, s) + Emit(CognitiveStrength, s));
  }

  /** The improvement table, unfolded. */
  lemma ImprovementTable(s: Scores)
    ensures FiredTexts(ImprovementRules, s) ==
      Emit(PsychometricImprovement, s) + Emit(TechnicalImprovement, s) + Emit(SkillImprovement, s)
  {
    var rs := ImprovementRules;
    assert rs[1..][1..][1..] == [];
    assert FiredTexts(rs[1..][1..], s) == Emit(SkillImprovement, s);
    assert FiredTexts(rs[1..], s) == Emit(TechnicalImprovement, s) + Emit(SkillImprovement, s);
  }

  /** A rule that fires always contributes its text. */
  lemma {:induction false} FiredTextsComplete(rules: seq<Rule>, s: Scores, k: nat)
    requires k < |rules| && Fires(rules[k], s)
    ensures rules[k].text in FiredTexts(rules, s)
  {
    if k > 0 {
      FiredTextsComplete(rules[1..], s, k - 1);
    }
  }

  /** The texts of a rule table are pairwise distinct. */
  predicate DistinctTexts(rules: seq<Rule>) {
    forall i, j :: 0 <= i < j < |rules| ==> rules[i].text != rules[j].text
  }

  /** With distinct texts, a rule's text is emitted if and only if the rule fires. */
  lemma FiredTextsIff(rules: seq<Rule>, s: Scores, k: nat)
    requires k < |rules| && DistinctTexts(rules)
    ensures rules[k].text in FiredTexts(rules, s) <==> Fires(rules[k], s)
  {
    if Fires(rules[k], s) {
      FiredTextsComplete(rules, s, k);
    }
  }

  /** Each strength fires independently of the others, at 75 or more of its own score. */
  lemma StrengthsIff(s: Scores)
    ensures PersonalityFit in FiredTexts(StrengthRules, s) <==> s.psychometric >= 75
    ensures FrameworkFoundation in FiredTexts(StrengthRules, s) <==> s.technical >= 75
    ensures HighMotivation in FiredTexts(StrengthRules, s) <==> s.wiscar.will >= 75
    ensures AnalyticalAbility in FiredTexts(StrengthRules, s) <==> s.wiscar.cognitive >= 75
  {
    assert DistinctTexts(StrengthRules);
    FiredTextsIff(StrengthRules, s, 0);
    FiredTextsIff(StrengthRules, s, 1);
    FiredTextsIff(StrengthRules, s, 2);
    FiredTextsIff(StrengthRules, s, 3);
  }

  /** Each improvement fires independently of the others, below 60 of its own score. */
  lemma ImprovementsIff(s: Scores)
    ensures DevelopEmotionalIntelligence in FiredTexts(ImprovementRules, s) <==> s.psychometric < 60
    ensures StudyFrameworks in FiredTexts(ImprovementRules, s) <==> s.technical < 60
    ensures PracticeCommunication in FiredTexts(ImprovementRules, s) <==> s.wiscar.skill < 60
  {
    assert DistinctTexts(ImprovementRules);
    FiredTextsIff(ImprovementRules, s, 0);
    FiredTextsIff(ImprovementRules, s, 1);
    FiredTextsIff(ImprovementRules, s, 2);
  }

  /** With the skill score 75 for an answered skill question and 0 otherwise, the communication area is listed exactly when it is unanswered. */
  lemma CommunicationImprovementOfSkill(s: Scores, answered: bool)
    requires s.wiscar.skill == if answered then 75 else 0
    ensures PracticeCommunication in FiredTexts(ImprovementRules, s) <==> !answered
  {
    ImprovementsIff(s);
  }

  /** When every score the rules consult lies in [60, 74], no strength and no improvement is emitted. */
  lemma MiddleBandIsQuiet(s: Scores)
    requires 60 <= s.psychometric <= 74 && 60 <= s.technical <= 74
    requires 60 <= s.wiscar.will <= 74 && 60 <= s.wiscar.cognitive <= 74 && 60 <= s.wiscar.skill <= 74
    ensures FiredTexts(StrengthRules, s) == []
    ensures FiredTexts(ImprovementRules, s) == []
  {
    StrengthTable(s);
    ImprovementTable(s);
  }

  /**
   * With every consulted score low (the scores of an assessment without
   * answers, for one), no strength is found and all three improvement areas
   * are listed, in table order.
   */
  lemma LowScoresInsights(s: Scores)
    requires s.psychometric < 60 && s.technical < 60 && s.wiscar.skill < 60
    requires s.wiscar.will < 75 && s.wiscar.cognitive < 75
    ensures FiredTexts(StrengthRules, s) == []
    ensures FiredTexts(ImprovementRules, s) == [DevelopEmotionalIntelligence, StudyFrameworks, PracticeCommunication]
  {
    StrengthTable(s);
    ImprovementTable(s);
  }

  /**
   * The next-step list always has three entries and determines the tier:
   * different tiers never share a list.
   */
  lemma NextStepsDetermineTier(r1: Recommendation, r2: Recommendation)
    ensures |NextStepsFor(r1)| == 3
    ensures NextStepsFor(r1) == NextStepsFor(r2) <==> r1 == r2
  {
    if r1 != r2 {
      assert NextStepsFor(r1)[0] != NextStepsFor(r2)[0];
    }
  }
}
