/**
 * The scoring engine: folds the responses into a map in which the last
 * response for an identifier wins, takes a weighted mean of per-question raw
 * scores per category and per WISCAR dimension, blends them into an overall
 * score, picks a recommendation tier and attaches the generated insights.
 * The question list the engine filters is a parameter, `bank`; the module
 * BankScoring instantiates it with the constant bank.
 */
module Scoring {
  import opened Types
  import opened Insights

  // ---------------------------------------------------------------------
  // The response map
  // ---------------------------------------------------------------------

  /**
   * The map built from the responses in order, each entry overwriting any
   * earlier entry for the same identifier.
   */
  function ResponseMap(rs: seq<Response>): (m: map<string, Response>)
    ensures forall id :: id in m <==> exists i :: 0 <= i < |rs| && rs[i].questionId == id
    ensures forall id :: id in m ==> m[id].questionId == id
  {
    if rs == [] then map[]
    else
      var prefix := rs[..|rs| - 1];
      assert forall i :: 0 <= i < |prefix| ==> prefix[i] == rs[i];
      ResponseMap(prefix)[rs[|rs| - 1].questionId := rs[|rs| - 1]]
  }

  /** The map keeps, for each identifier, the last response that carries it. */
  lemma {:induction false} LastResponseWins(rs: seq<Response>, i: nat)
    requires i < |rs|
    requires forall j :: i < j < |rs| ==> rs[j].questionId != rs[i].questionId
    ensures rs[i].questionId in ResponseMap(rs) && ResponseMap(rs)[rs[i].questionId] == rs[i]
  {
    if i < |rs| - 1 {
      var prefix := rs[..|rs| - 1];
      LastResponseWins(prefix, i);
    }
  }

  /** Building the map of a concatenation is the right-biased union of the two maps. */
  lemma {:induction false} ResponseMapAppend(a: seq<Response>, b: seq<Response>)
    ensures ResponseMap(a + b) == ResponseMap(a) + ResponseMap(b)
    decreases |b|
  {
    if b == [] {
      assert a + b == a;
    } else {
      var b' := b[..|b| - 1];
      var last := b[|b| - 1];
      assert (a + b)[..|a + b| - 1] == a + b';
      assert (a + b)[|a + b| - 1] == last;
      calc {
        ResponseMap(a + b);
        ResponseMap(a + b')[last.questionId := last];
        { ResponseMapAppend(a, b'); }
        (ResponseMap(a) + ResponseMap(b'))[last.questionId := last];
        { UnionThenUpdate(ResponseMap(a), ResponseMap(b'), last.questionId, last); }
        ResponseMap(a) + ResponseMap(b')[last.questionId := last];
        ResponseMap(a) + ResponseMap(b);
      }
    }
  }

  lemma UnionThenUpdate<K, V>(m1: map<K, V>, m2: map<K, V>, k: K, v: V)
    ensures (m1 + m2)[k := v] == m1 + m2[k := v]
  {
  }

  /** Of two consecutive responses for the same identifier, only the later one survives. */
  lemma LaterResponseWins(rs: seq<Response>, r1: Response, r2: Response)
    requires r1.questionId == r2.questionId
    ensures ResponseMap(rs + [r1, r2]) == ResponseMap(rs + [r2])
  {
    assert (rs + [r1, r2])[..|rs| + 1] == rs + [r1];
    assert (rs + [r1])[..|rs|] == rs;
    assert (rs + [r2])[..|rs|] == rs;
  }

  /** A response for identifier `r.questionId` leaves every other identifier's entry as it was. */
  lemma OtherResponseIgnored(a: seq<Response>, r: Response, b: seq<Response>, id: string)
    requires id != r.questionId
    ensures id in ResponseMap(a + [r] + b) <==> id in ResponseMap(a + b)
    ensures id in ResponseMap(a + b) ==> ResponseMap(a + [r] + b)[id] == ResponseMap(a + b)[id]
  {
    ResponseMapAppend(a + [r], b);
    ResponseMapAppend(a, [r]);
    ResponseMapAppend(a, b);
    assert [r][..0] == [];
  }

  // ---------------------------------------------------------------------
  // Per-question scoring
  // ---------------------------------------------------------------------

  /** Math.round: the nearest integer, halves rounded up. */
  function Round(x: real): (r: int)
    ensures r as real - 0.5 <= x < r as real + 0.5
  {
    (x + 0.5).Floor
  }

  /** `weight || 1`: an absent weight and a weight of zero both count as 1. */
  function EffectiveWeight(q: Question): (w: real)
    ensures w != 0.0
    ensures q.weight.Some? && q.weight.value >= 0.0 ==> w > 0.0
    ensures q.weight.None? ==> w == 1.0
    ensures q.weight == Some(0.0) ==> w == 1.0
    ensures q.weight.Some? && q.weight.value != 0.0 ==> w == q.weight.value
  {
    match q.weight
    case Some(v) => if v != 0.0 then v else 1.0
    case None => 1.0
  }

  /** JavaScript truthiness of an optional correct answer: absent, "" and 0 are falsy. */
  predicate Truthy(c: Option<CorrectAnswer>) {
    match c
    case None => false
    case Some(CorrectStr(s)) => s != ""
    case Some(CorrectNum(n)) => n != 0
  }

  /** `===` between an answer and a correct answer: same type and same value (arrays never match). */
  predicate StrictEquals(a: Answer, c: CorrectAnswer) {
    match (a, c)
    case (Str(s), CorrectStr(t)) => s == t
    case (Num(n), CorrectNum(m)) => n == m
    case _ => false
  }

  /** An option question whose correct answer is truthy is graded right or wrong. */
  predicate Graded(q: Question) {
    (q.kind == MultipleChoice || q.kind == Scenario) && Truthy(q.correctAnswer)
  }

  /**
   * The raw score of one answered question: a Likert answer scaled to 100
   * (not clamped), 100 or 0 for a graded option question, 75 for an
   * ungraded one, and 0 for any other kind.
   */
  function RawScore(q: Question, a: Answer): (s: real)
    requires q.kind == Likert ==> a.Num?
    ensures q.kind == Likert ==> s == 20.0 * a.n as real
    ensures q.kind != Likert ==> (s == 100.0 <==> Graded(q) && StrictEquals(a, q.correctAnswer.value))
    ensures q.kind != Likert ==> (s == 75.0 <==> q.kind != Ranking && !Graded(q))
    ensures q.kind != Likert ==> (s == 0.0 <==> q.kind == Ranking || (Graded(q) && !StrictEquals(a, q.correctAnswer.value)))
  {
    match q.kind
    case Likert => (a.n as real / 5.0) * 100.0
    case MultipleChoice | Scenario =>
      if Truthy(q.correctAnswer) then
        (if StrictEquals(a, q.correctAnswer.value) then 100.0 else 0.0)
      else 75.0
    case Ranking => 0.0
  }

  /**
   * A correct answer of "" or 0 is falsy, so the question is not graded:
   * whatever the answer, an option question carrying it scores 75.
   */
  lemma FalsyCorrectAnswerUngraded(q: Question, a: Answer)
    requires q.kind == MultipleChoice || q.kind == Scenario
    requires q.correctAnswer == Some(CorrectStr("")) || q.correctAnswer == Some(CorrectNum(0))
    ensures !Graded(q)
    ensures RawScore(q, a) == 75.0
  {
  }

  // ---------------------------------------------------------------------
  // Category scores
  // ---------------------------------------------------------------------

  /** Every answered Likert question among `qs` has a numeric answer. */
  predicate LikertAnswersNumeric(qs: seq<Question>, rm: map<string, Response>) {
    forall q :: q in qs && q.kind == Likert && q.id in rm ==> rm[q.id].answer.Num?
  }

  /** Every answered Likert question among `qs` has an answer on the 1..5 scale. */
  predicate LikertAnswersOnScale(qs: seq<Question>, rm: map<string, Response>) {
    forall q :: q in qs && q.kind == Likert && q.id in rm ==> rm[q.id].answer.Num? && 1 <= rm[q.id].answer.n <= 5
  }

  /** No question among `qs` declares a negative weight. */
  predicate NonNegativeWeights(qs: seq<Question>) {
    forall q :: q in qs && q.weight.Some? ==> q.weight.value >= 0.0
  }

  /** What an answered question adds to the numerator: raw score times weight. */
  function ScoreTerm(q: Question, rm: map<string, Response>): (r: real)
    requires q.kind == Likert && q.id in rm ==> rm[q.id].answer.Num?
  {
    if q.id in rm then RawScore(q, rm[q.id].answer) * EffectiveWeight(q) else 0.0
  }

  /** What an answered question adds to the denominator: its weight. */
  function WeightTerm(q: Question, rm: map<string, Response>): (r: real) {
    if q.id in rm then EffectiveWeight(q) else 0.0
  }

  /** The weighted sum of the raw scores of the answered questions. */
  function TotalScore(qs: seq<Question>, rm: map<string, Response>): (r: real)
    requires LikertAnswersNumeric(qs, rm)
    decreases |qs|
  {
    if qs == [] then 0.0
    else
      var prefix := qs[..|qs| - 1];
      assert forall q :: q in prefix ==> q in qs;
      TotalScore(prefix, rm) + ScoreTerm(qs[|qs| - 1], rm)
  }

  /** The sum of the weights of the answered questions. */
  function TotalWeight(qs: seq<Question>, rm: map<string, Response>): (r: real)
    decreases |qs|
  {
    if qs == [] then 0.0 else TotalWeight(qs[..|qs| - 1], rm) + WeightTerm(qs[|qs| - 1], rm)
  }

  /** The rounded weighted mean over the answered questions, and 0 when nothing weighs in. */
  function CategoryScore(qs: seq<Question>, rm: map<string, Response>): (r: int)
    requires LikertAnswersNumeric(qs, rm)
  {
    var w := TotalWeight(qs, rm);
    if w > 0.0 then Round(TotalScore(qs, rm) / w) else 0
  }

  /**
   * The accumulation loop: for each question in order, skip it when it has
   * no response, otherwise add raw score times weight and the weight.
   */
  method CalculateCategoryScore(questions: seq<Question>, responseMap: map<string, Response>)
    returns (score: int)
    requires LikertAnswersNumeric(questions, responseMap)
    ensures score == CategoryScore(questions, responseMap)
  {
    var totalScore := 0.0;
    var totalWeight := 0.0;
    for i := 0 to |questions|
      invariant LikertAnswersNumeric(questions[..i], responseMap)
      invariant totalScore == TotalScore(questions[..i], responseMap)
      invariant totalWeight == TotalWeight(questions[..i], responseMap)
    {
      var question := questions[i];
      assert questions[..i + 1][..i] == questions[..i];
      assert questions[..i + 1][i] == question;
      assert forall q :: q in questions[..i + 1] ==> q in questions;
      if question.id !in responseMap {
        continue;
      }
      var response := responseMap[question.id];
      var weight := EffectiveWeight(question);
      var s := RawScore(question, response.answer);
      totalScore := totalScore + s * weight;
      totalWeight := totalWeight + weight;
    }
    assert questions[..|questions|] == questions;
    score := if totalWeight > 0.0 then Round(totalScore / totalWeight) else 0;
  }

  /** Sums over a concatenation split into the sums over the parts. */
  lemma {:induction false} TotalsAppend(a: seq<Question>, b: seq<Question>, rm: map<string, Response>)
    requires LikertAnswersNumeric(a + b, rm)
    ensures LikertAnswersNumeric(a, rm) && LikertAnswersNumeric(b, rm)
    ensures TotalScore(a + b, rm) == TotalScore(a, rm) + TotalScore(b, rm)
    ensures TotalWeight(a + b, rm) == TotalWeight(a, rm) + TotalWeight(b, rm)
    decreases |b|
  {
    assert forall q :: q in a ==> q in a + b;
    assert forall q :: q in b ==> q in a + b;
    if b == [] {
      assert a + b == a;
    } else {
      var b' := b[..|b| - 1];
      assert (a + b)[..|a + b| - 1] == a + b';
      assert (a + b)[|a + b| - 1] == b[|b| - 1];
      assert forall q :: q in a + b' ==> q in a + b;
      TotalsAppend(a, b', rm);
    }
  }

  /** When no question of the list has a response, both sums are zero. */
  lemma {:induction false} UnansweredTotalsZero(qs: seq<Question>, rm: map<string, Response>)
    requires forall q :: q in qs ==> q.id !in rm
    ensures LikertAnswersNumeric(qs, rm)
    ensures TotalScore(qs, rm) == 0.0 && TotalWeight(qs, rm) == 0.0
    decreases |qs|
  {
    if qs != [] {
      var prefix := qs[..|qs| - 1];
      assert forall q :: q in prefix ==> q in qs;
      UnansweredTotalsZero(prefix, rm);
    }
  }

  /** A category in which no question was answered scores exactly 0. */
  lemma UnansweredCategoryScoresZero(qs: seq<Question>, rm: map<string, Response>)
    requires forall q :: q in qs ==> q.id !in rm
    ensures LikertAnswersNumeric(qs, rm) && CategoryScore(qs, rm) == 0
  {
    UnansweredTotalsZero(qs, rm);
  }

  /** An unanswered question adds nothing to the numerator or the denominator, wherever it stands. */
  lemma UnansweredQuestionIsSkipped(a: seq<Question>, q: Question, b: seq<Question>, rm: map<string, Response>)
    requires q.id !in rm
    requires LikertAnswersNumeric(a + b, rm)
    ensures LikertAnswersNumeric(a + [q] + b, rm)
    ensures TotalScore(a + [q] + b, rm) == TotalScore(a + b, rm)
    ensures TotalWeight(a + [q] + b, rm) == TotalWeight(a + b, rm)
    ensures CategoryScore(a + [q] + b, rm) == CategoryScore(a + b, rm)
  {
    assert forall x :: x in a + [q] + b ==> x == q || x in a + b;
    TotalsAppend(a, b, rm);
    TotalsAppend(a + [q], b, rm);
    TotalsAppend(a, [q], rm);
    assert [q][..0] == [];
  }

  /** Products of a score in [0, 100] and a positive weight stay between 0 and 100 times the weight. */
  lemma ProductBounds(r: real, w: real)
    requires 0.0 <= r <= 100.0 && w > 0.0
    ensures 0.0 <= r * w <= 100.0 * w
  {
    assert (100.0 - r) * w >= 0.0;
  }

  /** A quotient of a total by a positive weight it is bounded by lies in [0, 100]. */
  lemma QuotientBounds(s: real, w: real)
    requires w > 0.0 && 0.0 <= s <= 100.0 * w
    ensures 0.0 <= s / w <= 100.0
  {
    assert s / w * w == s;
  }

  /** One question's contributions, for an answer on the scale and a weight that is not negative. */
  lemma TermBounded(q: Question, rm: map<string, Response>)
    requires q.kind == Likert && q.id in rm ==> rm[q.id].answer.Num? && 1 <= rm[q.id].answer.n <= 5
    requires q.weight.Some? ==> q.weight.value >= 0.0
    ensures 0.0 <= WeightTerm(q, rm)
    ensures 0.0 <= ScoreTerm(q, rm) <= 100.0 * WeightTerm(q, rm)
  {
    if q.id in rm {
      var r, w := RawScore(q, rm[q.id].answer), EffectiveWeight(q);
      assert ScoreTerm(q, rm) == r * w && WeightTerm(q, rm) == w;
      ProductBounds(r, w);
    }
  }

  /** Within the shown range of answers and weights, both sums stay in range. */
  lemma {:induction false} TotalsBounded(qs: seq<Question>, rm: map<string, Response>)
    requires LikertAnswersOnScale(qs, rm) && NonNegativeWeights(qs)
    ensures LikertAnswersNumeric(qs, rm)
    ensures 0.0 <= TotalWeight(qs, rm)
    ensures 0.0 <= TotalScore(qs, rm) <= 100.0 * TotalWeight(qs, rm)
    decreases |qs|
  {
    if qs != [] {
      var prefix := qs[..|qs| - 1];
      var q := qs[|qs| - 1];
      assert forall x :: x in prefix ==> x in qs;
      assert q in qs;
      TotalsBounded(prefix, rm);
      TermBounded(q, rm);
    }
  }

  /**
   * With Likert answers on the 1..5 scale and no negative weight, a category
   * score is a rounded weighted mean of values in [0, 100], so it lies in [0, 100].
   */
  lemma CategoryScoreInRange(qs: seq<Question>, rm: map<string, Response>)
    requires LikertAnswersOnScale(qs, rm) && NonNegativeWeights(qs)
    ensures LikertAnswersNumeric(qs, rm)
    ensures 0 <= CategoryScore(qs, rm) <= 100
  {
    TotalsBounded(qs, rm);
    var w := TotalWeight(qs, rm);
    if w > 0.0 {
      QuotientBounds(TotalScore(qs, rm), w);
    }
  }

  /** A category of one question scores that question's rounded raw score, or 0 when unanswered. */
  lemma SingleQuestionScore(q: Question, rm: map<string, Response>)
    requires q.kind == Likert && q.id in rm ==> rm[q.id].answer.Num?
    requires q.weight.Some? ==> q.weight.value >= 0.0
    ensures LikertAnswersNumeric([q], rm)
    ensures CategoryScore([q], rm) == if q.id in rm then Round(RawScore(q, rm[q.id].answer)) else 0
  {
    assert [q][..0] == [];
    assert TotalScore([q], rm) == ScoreTerm(q, rm);
    assert TotalWeight([q], rm) == WeightTerm(q, rm);
    if q.id in rm {
      MulDivCancel(RawScore(q, rm[q.id].answer), EffectiveWeight(q));
    }
  }

  lemma MulDivCancel(r: real, w: real)
    requires w != 0.0
    ensures r * w / w == r
  {
    var x := r * w / w;
    assert x * w == r * w;
    assert (x - r) * w == 0.0;
  }

  /** Dropping the last question keeps the Likert answers numeric. */
  lemma PrefixNumeric(qs: seq<Question>, rm: map<string, Response>)
    requires qs != [] && LikertAnswersNumeric(qs, rm)
    ensures LikertAnswersNumeric(qs[..|qs| - 1], rm)
  {
    assert forall q :: q in qs[..|qs| - 1] ==> q in qs;
  }

  /** Two lists whose questions contribute the same terms, position by position, have the same sums. */
  lemma {:induction false} SameTermsSameTotals(a: seq<Question>, b: seq<Question>, rm: map<string, Response>)
    requires |a| == |b| && LikertAnswersNumeric(a, rm) && LikertAnswersNumeric(b, rm)
    requires forall i :: 0 <= i < |a| ==> ScoreTerm(a[i], rm) == ScoreTerm(b[i], rm) && WeightTerm(a[i], rm) == WeightTerm(b[i], rm)
    ensures TotalScore(a, rm) == TotalScore(b, rm) && TotalWeight(a, rm) == TotalWeight(b, rm)
    ensures CategoryScore(a, rm) == CategoryScore(b, rm)
    decreases |a|
  {
    if a != [] {
      var a', b' := a[..|a| - 1], b[..|b| - 1];
      PrefixNumeric(a, rm);
      PrefixNumeric(b, rm);
      assert forall i :: 0 <= i < |a'| ==> a'[i] == a[i] && b'[i] == b[i];
      SameTermsSameTotals(a', b', rm);
      assert TotalScore(a, rm) == TotalScore(a', rm) + ScoreTerm(a[|a| - 1], rm);
      assert TotalScore(b, rm) == TotalScore(b', rm) + ScoreTerm(b[|b| - 1], rm);
    }
  }

  /** A declared weight of 0, an absent weight and a weight of 1 are scored alike, wherever the question stands. */
  lemma ZeroWeightCountsAsOne(qs: seq<Question>, k: nat, rm: map<string, Response>)
    requires k < |qs| && LikertAnswersNumeric(qs, rm)
    ensures LikertAnswersNumeric(qs[k := qs[k].(weight := Some(0.0))], rm)
    ensures LikertAnswersNumeric(qs[k := qs[k].(weight := None)], rm)
    ensures LikertAnswersNumeric(qs[k := qs[k].(weight := Some(1.0))], rm)
    ensures CategoryScore(qs[k := qs[k].(weight := Some(0.0))], rm) == CategoryScore(qs[k := qs[k].(weight := Some(1.0))], rm)
    ensures CategoryScore(qs[k := qs[k].(weight := None)], rm) == CategoryScore(qs[k := qs[k].(weight := Some(1.0))], rm)
  {
    ReweightNumeric(qs, k, Some(1.0), rm);
    ReweightSameScore(qs, k, Some(0.0), Some(1.0), rm);
    ReweightSameScore(qs, k, None, Some(1.0), rm);
  }

  /** Changing one question's weight keeps the Likert answers numeric. */
  lemma ReweightNumeric(qs: seq<Question>, k: nat, w: Option<real>, rm: map<string, Response>)
    requires k < |qs| && LikertAnswersNumeric(qs, rm)
    ensures LikertAnswersNumeric(qs[k := qs[k].(weight := w)], rm)
  {
    assert forall x :: x in qs[k := qs[k].(weight := w)] ==> x in qs || x == qs[k].(weight := w);
  }

  /** Two weights of the same effective value give the same category score. */
  lemma ReweightSameScore(qs: seq<Question>, k: nat, w1: Option<real>, w2: Option<real>, rm: map<string, Response>)
    requires k < |qs| && LikertAnswersNumeric(qs, rm)
    requires EffectiveWeight(qs[k].(weight := w1)) == EffectiveWeight(qs[k].(weight := w2))
    ensures LikertAnswersNumeric(qs[k := qs[k].(weight := w1)], rm)
    ensures LikertAnswersNumeric(qs[k := qs[k].(weight := w2)], rm)
    ensures CategoryScore(qs[k := qs[k].(weight := w1)], rm) == CategoryScore(qs[k := qs[k].(weight := w2)], rm)
  {
    ReweightNumeric(qs, k, w1, rm);
    ReweightNumeric(qs, k, w2, rm);
    SameTermsSameTotals(qs[k := qs[k].(weight := w1)], qs[k := qs[k].(weight := w2)], rm);
  }

  /**
   * A question of weight 2 counts as much as the same question of weight 1
   * listed twice, wherever it stands; a question with no weight, or a
   * declared weight of 0, counts as weight 1 here too.
   */
  lemma DoubleWeightCountsTwice(a: seq<Question>, q: Question, b: seq<Question>, rm: map<string, Response>)
    requires EffectiveWeight(q) == 1.0
    requires LikertAnswersNumeric(a + [q] + b, rm)
    ensures LikertAnswersNumeric(a + [q.(weight := Some(2.0))] + b, rm)
    ensures LikertAnswersNumeric(a + [q, q] + b, rm)
    ensures CategoryScore(a + [q.(weight := Some(2.0))] + b, rm) == CategoryScore(a + [q, q] + b, rm)
  {
    TotalsOfThree(a, [q], b, rm);
    assert q in [q];
    DoubleWeightTerms(q, rm);
    TotalsOfThree(a, [q.(weight := Some(2.0))], b, rm);
    TotalsOfThree(a, [q, q], b, rm);
  }

  /** The totals of a list split in three are the sums of the three parts' totals. */
  lemma TotalsOfThree(a: seq<Question>, m: seq<Question>, b: seq<Question>, rm: map<string, Response>)
    requires LikertAnswersNumeric(a + m + b, rm) || (LikertAnswersNumeric(a, rm) && LikertAnswersNumeric(m, rm) && LikertAnswersNumeric(b, rm))
    ensures LikertAnswersNumeric(a, rm) && LikertAnswersNumeric(m, rm) && LikertAnswersNumeric(b, rm)
    ensures LikertAnswersNumeric(a + m + b, rm)
    ensures TotalScore(a + m + b, rm) == TotalScore(a, rm) + TotalScore(m, rm) + TotalScore(b, rm)
    ensures TotalWeight(a + m + b, rm) == TotalWeight(a, rm) + TotalWeight(m, rm) + TotalWeight(b, rm)
  {
    assert forall x :: x in a + m + b ==> x in a || x in m || x in b;
    assert forall x :: x in a || x in m || x in b ==> x in a + m + b;
    TotalsAppend(a + m, b, rm);
    TotalsAppend(a, m, rm);
  }

  /** On its own, the weight-2 question and the weight-1 question listed twice give the same sums. */
  lemma DoubleWeightTerms(q: Question, rm: map<string, Response>)
    requires EffectiveWeight(q) == 1.0
    requires q.kind == Likert && q.id in rm ==> rm[q.id].answer.Num?
    ensures LikertAnswersNumeric([q.(weight := Some(2.0))], rm) && LikertAnswersNumeric([q, q], rm)
    ensures TotalScore([q.(weight := Some(2.0))], rm) == TotalScore([q, q], rm)
    ensures TotalWeight([q.(weight := Some(2.0))], rm) == TotalWeight([q, q], rm)
  {
    var q2 := q.(weight := Some(2.0));
    assert [q2][..0] == [] && [q, q][..1] == [q] && [q][..0] == [];
    assert TotalScore([q], rm) == TotalScore([], rm) + ScoreTerm(q, rm);
    assert TotalWeight([q], rm) == TotalWeight([], rm) + WeightTerm(q, rm);
    assert TotalScore([q, q], rm) == TotalScore([q], rm) + ScoreTerm(q, rm);
    assert TotalWeight([q, q], rm) == TotalWeight([q], rm) + WeightTerm(q, rm);
  }

  /** An answered ranking question adds nothing to the numerator but still adds its weight to the denominator. */
  lemma RankingQuestionDilutes(a: seq<Question>, q: Question, rm: map<string, Response>)
    requires q.kind == Ranking && q.id in rm
    requires LikertAnswersNumeric(a, rm)
    ensures LikertAnswersNumeric(a + [q], rm)
    ensures TotalScore(a + [q], rm) == TotalScore(a, rm)
    ensures TotalWeight(a + [q], rm) == TotalWeight(a, rm) + EffectiveWeight(q)
  {
    assert forall x :: x in a + [q] ==> x == q || x in a;
    assert (a + [q])[..|a|] == a;
  }

  /** Two maps that agree on the identifiers of `qs` give the same sums, and so the same score. */
  predicate AgreeOn(qs: seq<Question>, rm1: map<string, Response>, rm2: map<string, Response>) {
    forall q :: q in qs ==> (q.id in rm1 <==> q.id in rm2) && (q.id in rm1 ==> rm1[q.id].answer == rm2[q.id].answer)
  }

  lemma {:induction false} CategoryScoreLocal(qs: seq<Question>, rm1: map<string, Response>, rm2: map<string, Response>)
    requires AgreeOn(qs, rm1, rm2) && LikertAnswersNumeric(qs, rm1)
    ensures LikertAnswersNumeric(qs, rm2)
    ensures TotalScore(qs, rm1) == TotalScore(qs, rm2) && TotalWeight(qs, rm1) == TotalWeight(qs, rm2)
    ensures CategoryScore(qs, rm1) == CategoryScore(qs, rm2)
    decreases |qs|
  {
    if qs != [] {
      var prefix := qs[..|qs| - 1];
      assert forall q :: q in prefix ==> q in qs;
      assert qs[|qs| - 1] in qs;
      CategoryScoreLocal(prefix, rm1, rm2);
    }
  }

  // ---------------------------------------------------------------------
  // Selecting the questions of a category or a WISCAR dimension
  // ---------------------------------------------------------------------

  /** The questions of category `c`, in bank order. */
  function ByCategory(qs: seq<Question>, c: Category): (r: seq<Question>) {
    if qs == [] then []
    else (if qs[0].category == c then [qs[0]] else []) + ByCategory(qs[1..], c)
  }

  /** The questions a WISCAR dimension is scored on. */
  predicate InDimension(q: Question, sub: string) {
    q.category == Wiscar && q.subcategory == Some(sub)
  }

  /** The WISCAR questions whose subcategory is `sub`, in bank order. */
  function BySubcategory(qs: seq<Question>, sub: string): (r: seq<Question>) {
    if qs == [] then []
    else (if InDimension(qs[0], sub) then [qs[0]] else []) + BySubcategory(qs[1..], sub)
  }

  /** A question is selected exactly when it is in the list and belongs to the category. */
  lemma {:induction false} ByCategoryMembers(qs: seq<Question>, c: Category)
    ensures forall q :: q in ByCategory(qs, c) <==> q in qs && q.category == c
  {
    if qs != [] {
      ByCategoryMembers(qs[1..], c);
      assert forall q :: q in qs <==> q == qs[0] || q in qs[1..];
    }
  }

  /** A question is selected exactly when it is in the list and belongs to the dimension. */
  lemma {:induction false} BySubcategoryMembers(qs: seq<Question>, sub: string)
    ensures forall q :: q in BySubcategory(qs, sub) <==> q in qs && InDimension(q, sub)
  {
    if qs != [] {
      BySubcategoryMembers(qs[1..], sub);
      assert forall q :: q in qs <==> q == qs[0] || q in qs[1..];
    }
  }

  /** Selecting questions keeps every per-question precondition of the selection. */
  lemma SelectionKeepsNumeric(qs: seq<Question>, rm: map<string, Response>)
    requires LikertAnswersNumeric(qs, rm)
    ensures forall c :: LikertAnswersNumeric(ByCategory(qs, c), rm)
    ensures forall sub :: LikertAnswersNumeric(BySubcategory(qs, sub), rm)
  {
    forall c ensures LikertAnswersNumeric(ByCategory(qs, c), rm) {
      ByCategoryMembers(qs, c);
    }
    forall sub ensures LikertAnswersNumeric(BySubcategory(qs, sub), rm) {
      BySubcategoryMembers(qs, sub);
    }
  }

  lemma SelectionKeepsRanges(qs: seq<Question>, rm: map<string, Response>)
    requires LikertAnswersOnScale(qs, rm) && NonNegativeWeights(qs)
    ensures forall c :: LikertAnswersOnScale(ByCategory(qs, c), rm) && NonNegativeWeights(ByCategory(qs, c))
    ensures forall sub :: LikertAnswersOnScale(BySubcategory(qs, sub), rm) && NonNegativeWeights(BySubcategory(qs, sub))
  {
    forall c ensures LikertAnswersOnScale(ByCategory(qs, c), rm) && NonNegativeWeights(ByCategory(qs, c)) {
      ByCategoryMembers(qs, c);
    }
    forall sub ensures LikertAnswersOnScale(BySubcategory(qs, sub), rm) && NonNegativeWeights(BySubcategory(qs, sub)) {
      BySubcategoryMembers(qs, sub);
    }
  }

  lemma SelectionKeepsAgreement(qs: seq<Question>, rm1: map<string, Response>, rm2: map<string, Response>)
    requires AgreeOn(qs, rm1, rm2)
    ensures forall c :: AgreeOn(ByCategory(qs, c), rm1, rm2)
    ensures forall sub :: AgreeOn(BySubcategory(qs, sub), rm1, rm2)
  {
    forall c ensures AgreeOn(ByCategory(qs, c), rm1, rm2) {
      ByCategoryMembers(qs, c);
    }
    forall sub ensures AgreeOn(BySubcategory(qs, sub), rm1, rm2) {
      BySubcategoryMembers(qs, sub);
    }
  }

  /** When no question of the list belongs to the dimension, the selection is empty. */
  lemma {:induction false} NoDimensionQuestion(qs: seq<Question>, sub: string)
    requires forall j :: 0 <= j < |qs| ==> !InDimension(qs[j], sub)
    ensures BySubcategory(qs, sub) == []
    decreases |qs|
  {
    if qs != [] {
      NoDimensionQuestion(qs[1..], sub);
    }
  }

  /** When exactly one question of the list belongs to the dimension, the selection is that question. */
  lemma {:induction false} SingleDimensionQuestion(qs: seq<Question>, sub: string, k: nat)
    requires k < |qs| && InDimension(qs[k], sub)
    requires forall j :: 0 <= j < |qs| && j != k ==> !InDimension(qs[j], sub)
    ensures BySubcategory(qs, sub) == [qs[k]]
    decreases |qs|
  {
    if k == 0 {
      NoDimensionQuestion(qs[1..], sub);
    } else {
      SingleDimensionQuestion(qs[1..], sub, k - 1);
    }
  }

  // ---------------------------------------------------------------------
  // Results
  // ---------------------------------------------------------------------

  /** The score of one WISCAR dimension: the category score of its questions alone. */
  function WiscarSubscore(bank: seq<Question>, sub: string, rm: map<string, Response>): (r: int)
    requires LikertAnswersNumeric(bank, rm)
  {
    SelectionKeepsNumeric(bank, rm);
    CategoryScore(BySubcategory(bank, sub), rm)
  }

  /** Filters the WISCAR questions of the dimension and scores them with the category loop. */
  method CalculateWiscarSubcategory(bank: seq<Question>, subcategory: string, responseMap: map<string, Response>)
    returns (score: int)
    requires LikertAnswersNumeric(bank, responseMap)
    ensures score == WiscarSubscore(bank, subcategory, responseMap)
  {
    SelectionKeepsNumeric(bank, responseMap);
    var questions := BySubcategory(bank, subcategory);
    score := CalculateCategoryScore(questions, responseMap);
  }

  /** A dimension's score depends only on the responses to that dimension's questions. */
  lemma WiscarSubscoreLocal(bank: seq<Question>, sub: string, rm1: map<string, Response>, rm2: map<string, Response>)
    requires AgreeOn(BySubcategory(bank, sub), rm1, rm2)
    requires LikertAnswersNumeric(bank, rm1) && LikertAnswersNumeric(bank, rm2)
    ensures WiscarSubscore(bank, sub, rm1) == WiscarSubscore(bank, sub, rm2)
  {
    SelectionKeepsNumeric(bank, rm1);
    CategoryScoreLocal(BySubcategory(bank, sub), rm1, rm2);
  }

  /** A dimension with a single question scores exactly that question's rounded raw score, or 0 when it is unanswered. */
  lemma SoleQuestionSubscore(bank: seq<Question>, sub: string, rm: map<string, Response>, q: Question)
    requires LikertAnswersNumeric(bank, rm)
    requires q in bank && BySubcategory(bank, sub) == [q]
    requires q.weight.Some? ==> q.weight.value >= 0.0
    ensures q.kind == Likert && q.id in rm ==> rm[q.id].answer.Num?
    ensures WiscarSubscore(bank, sub, rm) == if q.id in rm then Round(RawScore(q, rm[q.id].answer)) else 0
  {
    SingleQuestionScore(q, rm);
  }

  /** A dimension whose single question is an ungraded choice question scores 75 once it is answered. */
  lemma UngradedSoleSubscore(bank: seq<Question>, sub: string, rm: map<string, Response>, q: Question)
    requires LikertAnswersNumeric(bank, rm)
    requires q in bank && BySubcategory(bank, sub) == [q]
    requires q.kind == MultipleChoice || q.kind == Scenario
    requires q.correctAnswer.None? && q.weight.None?
    ensures WiscarSubscore(bank, sub, rm) == if q.id in rm then 75 else 0
  {
    SoleQuestionSubscore(bank, sub, rm, q);
  }

  /**
   * A response for an identifier that no WISCAR question carries moves no
   * WISCAR score, whatever that identifier's own subcategory is.
   */
  lemma NonWiscarResponseIgnored(bank: seq<Question>, sub: string, rm: map<string, Response>, id: string, r: Response)
    requires forall i :: 0 <= i < |bank| && bank[i].category == Wiscar ==> bank[i].id != id
    requires LikertAnswersNumeric(bank, rm) && LikertAnswersNumeric(bank, rm[id := r])
    ensures WiscarSubscore(bank, sub, rm[id := r]) == WiscarSubscore(bank, sub, rm)
  {
    BySubcategoryMembers(bank, sub);
    assert AgreeOn(BySubcategory(bank, sub), rm, rm[id := r]);
    WiscarSubscoreLocal(bank, sub, rm, rm[id := r]);
  }

  /** The same, for all six WISCAR scores at once. */
  lemma NonWiscarResponseKeepsWiscarScores(bank: seq<Question>, rm: map<string, Response>, id: string, r: Response)
    requires forall i :: 0 <= i < |bank| && bank[i].category == Wiscar ==> bank[i].id != id
    requires LikertAnswersNumeric(bank, rm) && LikertAnswersNumeric(bank, rm[id := r])
    ensures WiscarScoresOf(bank, rm[id := r]) == WiscarScoresOf(bank, rm)
  {
    NonWiscarResponseIgnored(bank, "will", rm, id, r);
    NonWiscarResponseIgnored(bank, "interest", rm, id, r);
    NonWiscarResponseIgnored(bank, "skill", rm, id, r);
    NonWiscarResponseIgnored(bank, "cognitive", rm, id, r);
    NonWiscarResponseIgnored(bank, "ability", rm, id, r);
    NonWiscarResponseIgnored(bank, "realWorld", rm, id, r);
  }

  /** The six WISCAR scores, one per dimension, in the order the results record them. */
  function WiscarScoresOf(bank: seq<Question>, rm: map<string, Response>): (r: WiscarScores)
    requires LikertAnswersNumeric(bank, rm)
  {
    WiscarScores(
      WiscarSubscore(bank, "will", rm), WiscarSubscore(bank, "interest", rm), WiscarSubscore(bank, "skill", rm),
      WiscarSubscore(bank, "cognitive", rm), WiscarSubscore(bank, "ability", rm), WiscarSubscore(bank, "realWorld", rm))
  }

  function WiscarSum(w: WiscarScores): (r: int) {
    w.will + w.interest + w.skill + w.cognitive + w.ability + w.realWorld
  }

  predicate InPercentRange(x: int) {
    0 <= x <= 100
  }

  predicate WiscarInRange(w: WiscarScores) {
    InPercentRange(w.will) && InPercentRange(w.interest) && InPercentRange(w.skill) &&
    InPercentRange(w.cognitive) && InPercentRange(w.ability) && InPercentRange(w.realWorld)
  }

  /**
   * The overall score: 30% psychometric, 30% technical and 40% of the mean
   * of the six WISCAR scores, rounded. It stays in [0, 100] when its inputs do,
   * and it lies within half a point of the exact blend.
   */
  function OverallScore(psychometric: int, technical: int, w: WiscarScores): (r: int)
    ensures var exact := 0.3 * psychometric as real + 0.3 * technical as real + 0.4 * (WiscarSum(w) as real / 6.0);
      exact - 0.5 < r as real <= exact + 0.5
    ensures InPercentRange(psychometric) && InPercentRange(technical) && WiscarInRange(w) ==> InPercentRange(r)
  {
    Round(psychometric as real * 0.3 + technical as real * 0.3 + WiscarSum(w) as real / 6.0 * 0.4)
  }

  /** The three tiers, with thresholds inclusive on the lower bound. */
  function Recommend(overall: int): (r: Recommendation)
    ensures r == Yes <==> overall >= 75
    ensures r == Maybe <==> 55 <= overall < 75
    ensures r == No <==> overall < 55
  {
    if overall >= 75 then Yes
    else if overall >= 55 then Maybe
    else No
  }

  function TierRank(r: Recommendation): (t: nat) {
    match r
    case No => 0
    case Maybe => 1
    case Yes => 2
  }

  /** A higher overall score never yields a lower tier. */
  lemma RecommendMonotone(o1: int, o2: int)
    requires o1 <= o2
    ensures TierRank(Recommend(o1)) <= TierRank(Recommend(o2))
  {
  }

  /** The two category scores and the six WISCAR scores of a response map. */
  function ScoresOf(bank: seq<Question>, rm: map<string, Response>): (r: Scores)
    requires LikertAnswersNumeric(bank, rm)
  {
    SelectionKeepsNumeric(bank, rm);
    Scores(CategoryScore(ByCategory(bank, Psychometric), rm), CategoryScore(ByCategory(bank, Technical), rm),
      WiscarScoresOf(bank, rm))
  }

  /** Everything that follows from the scores: the blend, the tier and the insights. */
  function ResultsFromScores(s: Scores): (r: Results) {
    var o := OverallScore(s.psychometric, s.technical, s.wiscar);
    var rec := Recommend(o);
    Results(s.psychometric, s.technical, s.wiscar, o, rec,
      FiredTexts(StrengthRules, s), FiredTexts(ImprovementRules, s), NextStepsFor(rec), CareerPaths)
  }

  /** The four lists of the results come from the rule tables, the tier and the constant career paths. */
  lemma ResultsLists(s: Scores)
    ensures ResultsFromScores(s).strengths == FiredTexts(StrengthRules, s)
    ensures ResultsFromScores(s).improvements == FiredTexts(ImprovementRules, s)
    ensures ResultsFromScores(s).nextSteps == NextStepsFor(ResultsFromScores(s).recommendation)
    ensures ResultsFromScores(s).careerPaths == CareerPaths
  {
  }

  /**
   * Read off the results: each strength is listed exactly when its score is
   * at least 75, each improvement exactly when its score is below 60, the
   * next steps are those of the tier of the overall score, and the career
   * paths never vary.
   */
  lemma ResultsInsightsIff(s: Scores)
    ensures PersonalityFit in ResultsFromScores(s).strengths <==> s.psychometric >= 75
    ensures FrameworkFoundation in ResultsFromScores(s).strengths <==> s.technical >= 75
    ensures HighMotivation in ResultsFromScores(s).strengths <==> s.wiscar.will >= 75
    ensures AnalyticalAbility in ResultsFromScores(s).strengths <==> s.wiscar.cognitive >= 75
    ensures DevelopEmotionalIntelligence in ResultsFromScores(s).improvements <==> s.psychometric < 60
    ensures StudyFrameworks in ResultsFromScores(s).improvements <==> s.technical < 60
    ensures PracticeCommunication in ResultsFromScores(s).improvements <==> s.wiscar.skill < 60
    ensures ResultsFromScores(s).nextSteps == NextStepsFor(Recommend(ResultsFromScores(s).overallScore))
    ensures ResultsFromScores(s).careerPaths == CareerPaths
  {
    ResultsLists(s);
    StrengthsIff(s);
    ImprovementsIff(s);
  }

  /** The results computed from a response map over a question list. */
  function ScoreResponses(bank: seq<Question>, rm: map<string, Response>): (r: Results)
    requires LikertAnswersNumeric(bank, rm)
  {
    ResultsFromScores(ScoresOf(bank, rm))
  }

  /**
   * The engine as the source runs it: build the map, score the two
   * categories and the six dimensions, blend, pick the tier and generate
   * the insights.
   */
  method CalculateAssessmentResults(bank: seq<Question>, responses: seq<Response>) returns (results: Results)
    requires LikertAnswersNumeric(bank, ResponseMap(responses))
    ensures results == ScoreResponses(bank, ResponseMap(responses))
  {
    var responseMap := ResponseMap(responses);
    SelectionKeepsNumeric(bank, responseMap);

    var psychometricQuestions := ByCategory(bank, Psychometric);
    var psychometricScore := CalculateCategoryScore(psychometricQuestions, responseMap);

    var technicalQuestions := ByCategory(bank, Technical);
    var technicalScore := CalculateCategoryScore(technicalQuestions, responseMap);

    var will := CalculateWiscarSubcategory(bank, "will", responseMap);
    var interest := CalculateWiscarSubcategory(bank, "interest", responseMap);
    var skill := CalculateWiscarSubcategory(bank, "skill", responseMap);
    var cognitive := CalculateWiscarSubcategory(bank, "cognitive", responseMap);
    var ability := CalculateWiscarSubcategory(bank, "ability", responseMap);
    var realWorld := CalculateWiscarSubcategory(bank, "realWorld", responseMap);
    var wiscarScores := WiscarScores(will, interest, skill, cognitive, ability, realWorld);

    var overallScore := OverallScore(psychometricScore, technicalScore, wiscarScores);

    var recommendation: Recommendation;
    if overallScore >= 75 {
      recommendation := Yes;
    } else if overallScore >= 55 {
      recommendation := Maybe;
    } else {
      recommendation := No;
    }

    var ins := GenerateInsights(psychometricScore, technicalScore, wiscarScores, overallScore, recommendation);
    results := Results(psychometricScore, technicalScore, wiscarScores, overallScore, recommendation,
      ins.strengths, ins.improvements, ins.nextSteps, ins.careerPaths);
  }

  /** Agreement carries the numeric-answer precondition from one map to the other. */
  lemma AgreementKeepsNumeric(qs: seq<Question>, rm1: map<string, Response>, rm2: map<string, Response>)
    requires AgreeOn(qs, rm1, rm2) && LikertAnswersNumeric(qs, rm1)
    ensures LikertAnswersNumeric(qs, rm2)
  {
  }

  /** Two maps that give the same answers to every question of the list give the same scores. */
  lemma ScoresLocal(bank: seq<Question>, rm1: map<string, Response>, rm2: map<string, Response>)
    requires AgreeOn(bank, rm1, rm2) && LikertAnswersNumeric(bank, rm1) && LikertAnswersNumeric(bank, rm2)
    ensures ScoresOf(bank, rm1) == ScoresOf(bank, rm2)
  {
    SelectionKeepsNumeric(bank, rm1);
    SelectionKeepsAgreement(bank, rm1, rm2);
    CategoryScoreLocal(ByCategory(bank, Psychometric), rm1, rm2);
    CategoryScoreLocal(ByCategory(bank, Technical), rm1, rm2);
    WiscarScoresLocal(bank, rm1, rm2);
  }

  /** The same holds for the six WISCAR scores. */
  lemma WiscarScoresLocal(bank: seq<Question>, rm1: map<string, Response>, rm2: map<string, Response>)
    requires AgreeOn(bank, rm1, rm2) && LikertAnswersNumeric(bank, rm1) && LikertAnswersNumeric(bank, rm2)
    ensures WiscarScoresOf(bank, rm1) == WiscarScoresOf(bank, rm2)
  {
    SubscoreAgrees(bank, "will", rm1, rm2);
    SubscoreAgrees(bank, "interest", rm1, rm2);
    SubscoreAgrees(bank, "skill", rm1, rm2);
    SubscoreAgrees(bank, "cognitive", rm1, rm2);
    SubscoreAgrees(bank, "ability", rm1, rm2);
    SubscoreAgrees(bank, "realWorld", rm1, rm2);
  }

  /** One dimension's score, for two maps that agree on the whole list. */
  lemma SubscoreAgrees(bank: seq<Question>, sub: string, rm1: map<string, Response>, rm2: map<string, Response>)
    requires AgreeOn(bank, rm1, rm2) && LikertAnswersNumeric(bank, rm1) && LikertAnswersNumeric(bank, rm2)
    ensures WiscarSubscore(bank, sub, rm1) == WiscarSubscore(bank, sub, rm2)
  {
    SelectionKeepsAgreement(bank, rm1, rm2);
    WiscarSubscoreLocal(bank, sub, rm1, rm2);
  }

  /** Two maps that give the same answers to every question of the list give the same results. */
  lemma ResultsLocal(bank: seq<Question>, rm1: map<string, Response>, rm2: map<string, Response>)
    requires AgreeOn(bank, rm1, rm2) && LikertAnswersNumeric(bank, rm1)
    ensures LikertAnswersNumeric(bank, rm2)
    ensures ScoreResponses(bank, rm1) == ScoreResponses(bank, rm2)
  {
    AgreementKeepsNumeric(bank, rm1, rm2);
    ScoresLocal(bank, rm1, rm2);
  }

  /** A response whose identifier no question of the list carries changes no result, wherever it stands. */
  lemma ResponseToUnknownIdIgnored(bank: seq<Question>, a: seq<Response>, r: Response, b: seq<Response>)
    requires forall q :: q in bank ==> q.id != r.questionId
    requires LikertAnswersNumeric(bank, ResponseMap(a + b))
    ensures LikertAnswersNumeric(bank, ResponseMap(a + [r] + b))
    ensures ScoreResponses(bank, ResponseMap(a + [r] + b)) == ScoreResponses(bank, ResponseMap(a + b))
  {
    var without, with := ResponseMap(a + b), ResponseMap(a + [r] + b);
    forall q | q in bank
      ensures (q.id in without <==> q.id in with) && (q.id in without ==> without[q.id] == with[q.id])
    {
      OtherResponseIgnored(a, r, b, q.id);
    }
    assert AgreeOn(bank, without, with);
    ResultsLocal(bank, without, with);
  }

  /**
   * When the skill dimension is one ungraded choice question, the
   * communication improvement area is listed exactly when that question is
   * unanswered: any answer scores 75.
   */
  lemma SoleSkillQuestionImprovementIff(bank: seq<Question>, rm: map<string, Response>, q: Question)
    requires LikertAnswersNumeric(bank, rm)
    requires q in bank && BySubcategory(bank, "skill") == [q]
    requires q.kind == MultipleChoice || q.kind == Scenario
    requires q.correctAnswer.None? && q.weight.None?
    ensures PracticeCommunication in ScoreResponses(bank, rm).improvements <==> q.id !in rm
  {
    UngradedSoleSubscore(bank, "skill", rm, q);
    SkillScoreDecidesCommunication(bank, rm, q.id);
  }

  /** When the skill score is 75 or 0 by whether `id` is answered, so is the communication area listed. */
  lemma SkillScoreDecidesCommunication(bank: seq<Question>, rm: map<string, Response>, id: string)
    requires LikertAnswersNumeric(bank, rm)
    requires WiscarSubscore(bank, "skill", rm) == if id in rm then 75 else 0
    ensures PracticeCommunication in ScoreResponses(bank, rm).improvements <==> id !in rm
  {
    var s := ScoresOf(bank, rm);
    assert s.wiscar.skill == WiscarSubscore(bank, "skill", rm);
    ResultsLists(s);
    CommunicationImprovementOfSkill(s, id in rm);
  }

  /**
   * With every answered Likert value in [1, 5] and no negative weight, the
   * category scores, the six WISCAR scores and the overall score all lie in [0, 100].
   */
  lemma ResultsInRange(bank: seq<Question>, rm: map<string, Response>)
    requires LikertAnswersOnScale(bank, rm) && NonNegativeWeights(bank)
    ensures LikertAnswersNumeric(bank, rm)
    ensures InPercentRange(ScoreResponses(bank, rm).psychometricScore)
    ensures InPercentRange(ScoreResponses(bank, rm).technicalScore)
    ensures WiscarInRange(ScoreResponses(bank, rm).wiscarScores)
    ensures InPercentRange(ScoreResponses(bank, rm).overallScore)
  {
    SelectionInRange(bank, Psychometric, rm);
    SelectionInRange(bank, Technical, rm);
    SubscoreInRange(bank, "will", rm);
    SubscoreInRange(bank, "interest", rm);
    SubscoreInRange(bank, "skill", rm);
    SubscoreInRange(bank, "cognitive", rm);
    SubscoreInRange(bank, "ability", rm);
    SubscoreInRange(bank, "realWorld", rm);
  }

  /** One category's score lies in [0, 100]. */
  lemma SelectionInRange(bank: seq<Question>, c: Category, rm: map<string, Response>)
    requires LikertAnswersOnScale(bank, rm) && NonNegativeWeights(bank)
    ensures LikertAnswersNumeric(ByCategory(bank, c), rm)
    ensures InPercentRange(CategoryScore(ByCategory(bank, c), rm))
  {
    SelectionKeepsRanges(bank, rm);
    CategoryScoreInRange(ByCategory(bank, c), rm);
  }

  /** One WISCAR dimension's score lies in [0, 100]. */
  lemma SubscoreInRange(bank: seq<Question>, sub: string, rm: map<string, Response>)
    requires LikertAnswersOnScale(bank, rm) && NonNegativeWeights(bank)
    ensures LikertAnswersNumeric(bank, rm)
    ensures InPercentRange(WiscarSubscore(bank, sub, rm))
  {
    SelectionKeepsRanges(bank, rm);
    CategoryScoreInRange(BySubcategory(bank, sub), rm);
  }

  /** With no responses both category scores and all six WISCAR scores are 0. */
  lemma NoResponsesScoresZero(bank: seq<Question>)
    ensures LikertAnswersNumeric(bank, map[])
    ensures ScoresOf(bank, map[]) == Scores(0, 0, WiscarScores(0, 0, 0, 0, 0, 0))
  {
    var none: map<string, Response> := map[];
    UnansweredCategoryScoresZero(ByCategory(bank, Psychometric), none);
    UnansweredCategoryScoresZero(ByCategory(bank, Technical), none);
    UnansweredCategoryScoresZero(BySubcategory(bank, "will"), none);
    UnansweredCategoryScoresZero(BySubcategory(bank, "interest"), none);
    UnansweredCategoryScoresZero(BySubcategory(bank, "skill"), none);
    UnansweredCategoryScoresZero(BySubcategory(bank, "cognitive"), none);
    UnansweredCategoryScoresZero(BySubcategory(bank, "ability"), none);
    UnansweredCategoryScoresZero(BySubcategory(bank, "realWorld"), none);
  }

  /**
   * Scores below every threshold give overall 0 when all are 0, the tier
   * 'no', no strength and all three improvement areas.
   */
  lemma ZeroScoresResults(s: Scores)
    requires s == Scores(0, 0, WiscarScores(0, 0, 0, 0, 0, 0))
    ensures ResultsFromScores(s).overallScore == 0 && ResultsFromScores(s).recommendation == No
    ensures ResultsFromScores(s).strengths == []
    ensures ResultsFromScores(s).improvements == [DevelopEmotionalIntelligence, StudyFrameworks, PracticeCommunication]
    ensures ResultsFromScores(s).nextSteps == NoSteps
  {
    LowScoresInsights(s);
  }

  /**
   * With no responses every score is 0, the tier is 'no', no strength is
   * found and all three improvement areas are listed.
   */
  lemma NoResponsesResults(bank: seq<Question>)
    ensures LikertAnswersNumeric(bank, map[])
    ensures ScoreResponses(bank, map[]) == Results(0, 0, WiscarScores(0, 0, 0, 0, 0, 0), 0, No,
      [], [DevelopEmotionalIntelligence, StudyFrameworks, PracticeCommunication], NoSteps, CareerPaths)
  {
    NoResponsesScoresZero(bank);
    ZeroScoresResults(ScoresOf(bank, map[]));
  }
}
