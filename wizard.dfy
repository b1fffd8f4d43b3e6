/**
 * The assessment wizard: an introduction step followed by one step per
 * question of the bank, a response list that keeps one answer per question,
 * and the Next and Previous transitions. Step `s` shows question `s - 2`,
 * so step 1 shows none and step |Bank| + 1 shows the last one.
 */
module Wizard {
  import opened Types
  import opened Questions
  import opened Scoring
  import opened QuestionCard

  // ---------------------------------------------------------------------
  // Steps
  // ---------------------------------------------------------------------

  /** The question a step shows: the bank entry at index `step - 2`, when there is one. */
  function QuestionAt(step: int): (r: Option<Question>) {
    if 0 <= step - 2 < |Bank| then Some(Bank[step - 2]) else None
  }

  /** The step Next moves to; at the last step it stays put and completes instead. */
  function NextStep(step: int): (r: int) {
    if step == 1 then 2
    else if step - 1 < |Bank| then step + 1
    else step
  }

  /** Next completes the assessment rather than moving. */
  predicate NextCompletes(step: int) {
    step != 1 && step - 1 >= |Bank|
  }

  /** The step Previous moves to; it never goes below the introduction. */
  function PreviousStep(step: int): (r: int) {
    if step > 1 then step - 1 else step
  }

  /** The steps of a session run from the introduction to the last question. */
  predicate ValidStep(step: int) {
    1 <= step <= |Bank| + 1
  }

  /**
   * Next and Previous keep the step valid; Next completes exactly at the last
   * step and moves otherwise; the introduction shows no question and every
   * other step shows one.
   */
  lemma StepTransitions(step: int)
    requires ValidStep(step)
    ensures ValidStep(NextStep(step)) && ValidStep(PreviousStep(step))
    ensures NextCompletes(step) <==> step == |Bank| + 1
    ensures !NextCompletes(step) ==> NextStep(step) == step + 1
    ensures QuestionAt(step).None? <==> step == 1
  {
  }

  /** Previous undoes Next before the last step, and Next undoes Previous after the introduction. */
  lemma PreviousUndoesNext(step: int)
    requires ValidStep(step)
    ensures step <= |Bank| ==> PreviousStep(NextStep(step)) == step
    ensures step >= 2 ==> NextStep(PreviousStep(step)) == step
  {
  }

  /** The step reached by pressing Next `k` times from `step`. */
  function Advance(step: int, k: nat): (r: int) {
    if k == 0 then step else NextStep(Advance(step, k - 1))
  }

  /**
   * From the introduction, `k` presses of Next reach step `k + 1` for every
   * `k` up to the bank size, so the questions are shown once each, in bank
   * order; later presses stay on the last step.
   */
  lemma {:induction false} AdvanceFromIntroduction(k: nat)
    ensures Advance(1, k) == if k <= |Bank| then k + 1 else |Bank| + 1
    ensures 1 <= k <= |Bank| ==> QuestionAt(Advance(1, k)) == Some(Bank[k - 1])
  {
    if k > 0 {
      AdvanceFromIntroduction(k - 1);
    }
  }

  // ---------------------------------------------------------------------
  // Responses
  // ---------------------------------------------------------------------

  /** No two responses of the list carry the same identifier. */
  predicate UniqueIds(rs: seq<Response>) {
    forall i, j :: 0 <= i < j < |rs| ==> rs[i].questionId != rs[j].questionId
  }

  /** The list with every response for `id` filtered out, the others kept in order. */
  function WithoutId(rs: seq<Response>, id: string): (r: seq<Response>)
    ensures forall x :: x in r <==> x in rs && x.questionId != id
    ensures |r| <= |rs|
  {
    if rs == [] then []
    else
      var prefix, last := rs[..|rs| - 1], rs[|rs| - 1];
      assert rs == prefix + [last];
      WithoutId(prefix, id) + (if last.questionId != id then [last] else [])
  }

  /** The answer handler's update: drop the question's earlier response and append the new one. */
  function Answered(rs: seq<Response>, id: string, a: Answer): (r: seq<Response>) {
    WithoutId(rs, id) + [Response(id, a)]
  }

  /** Filtering distributes over concatenation: relative order is kept. */
  lemma {:induction false} WithoutIdAppend(a: seq<Response>, b: seq<Response>, id: string)
    ensures WithoutId(a + b, id) == WithoutId(a, id) + WithoutId(b, id)
    decreases |b|
  {
    if b == [] {
      assert a + b == a;
    } else {
      var b', last := b[..|b| - 1], b[|b| - 1];
      assert (a + b)[..|a + b| - 1] == a + b';
      assert (a + b)[|a + b| - 1] == last;
      WithoutIdAppend(a, b', id);
    }
  }

  /** A list without a response for `id` is left as it is. */
  lemma {:induction false} WithoutAbsentId(rs: seq<Response>, id: string)
    requires forall x :: x in rs ==> x.questionId != id
    ensures WithoutId(rs, id) == rs
  {
    if rs != [] {
      var prefix := rs[..|rs| - 1];
      assert rs == prefix + [rs[|rs| - 1]];
      WithoutAbsentId(prefix, id);
    }
  }

  /** Filtering keeps identifiers unique. */
  lemma {:induction false} WithoutIdKeepsUnique(rs: seq<Response>, id: string)
    requires UniqueIds(rs)
    ensures UniqueIds(WithoutId(rs, id))
  {
    if rs != [] {
      var prefix, last := rs[..|rs| - 1], rs[|rs| - 1];
      assert rs == prefix + [last];
      WithoutIdKeepsUnique(prefix, id);
      var w := WithoutId(prefix, id);
      forall x | x in w
        ensures x.questionId != last.questionId
      {
        var i :| 0 <= i < |prefix| && prefix[i] == x;
        assert rs[i] == x;
      }
    }
  }

  /**
   * After an answer the list holds exactly one response for the question,
   * placed last and carrying the new answer; every other response stays.
   */
  lemma AnsweredShape(rs: seq<Response>, id: string, a: Answer)
    ensures var r := Answered(rs, id, a);
      |r| > 0 && r[|r| - 1] == Response(id, a) &&
      (forall i :: 0 <= i < |r| - 1 ==> r[i].questionId != id) &&
      (forall x :: x in r <==> x == Response(id, a) || (x in rs && x.questionId != id))
  {
    var w := WithoutId(rs, id);
    assert forall i :: 0 <= i < |w| ==> w[i] in w;
  }

  /** Answering keeps identifiers unique, so no question ever has two responses. */
  lemma AnsweredKeepsUnique(rs: seq<Response>, id: string, a: Answer)
    requires UniqueIds(rs)
    ensures UniqueIds(Answered(rs, id, a))
  {
    WithoutIdKeepsUnique(rs, id);
    AnsweredShape(rs, id, a);
  }

  /** Answering the same question twice leaves only the second answer. */
  lemma AnswerTwiceKeepsLast(rs: seq<Response>, id: string, a: Answer, b: Answer)
    ensures Answered(Answered(rs, id, a), id, b) == Answered(rs, id, b)
  {
    WithoutIdAppend(WithoutId(rs, id), [Response(id, a)], id);
    WithoutAbsentId(WithoutId(rs, id), id);
    assert WithoutId([Response(id, a)], id) == [];
  }

  /** The map built from a filtered list is the original map without the identifier. */
  lemma {:induction false} WithoutIdMap(rs: seq<Response>, id: string)
    ensures ResponseMap(WithoutId(rs, id)) == ResponseMap(rs) - {id}
  {
    if rs != [] {
      var prefix, last := rs[..|rs| - 1], rs[|rs| - 1];
      var w := WithoutId(prefix, id);
      if last.questionId != id {
        calc {
          ResponseMap(WithoutId(rs, id));
          ResponseMap(w + [last]);
          { MapOfSnoc(w, last); }
          ResponseMap(w)[last.questionId := last];
          { WithoutIdMap(prefix, id); }
          (ResponseMap(prefix) - {id})[last.questionId := last];
          { RemoveThenUpdate(ResponseMap(prefix), id, last.questionId, last); }
          ResponseMap(prefix)[last.questionId := last] - {id};
          ResponseMap(rs) - {id};
        }
      } else {
        calc {
          ResponseMap(WithoutId(rs, id));
          { assert WithoutId(rs, id) == w + [] == w; }
          ResponseMap(w);
          { WithoutIdMap(prefix, id); }
          ResponseMap(prefix) - {id};
          { UpdateThenRemove(ResponseMap(prefix), id, last); }
          ResponseMap(prefix)[id := last] - {id};
          ResponseMap(rs) - {id};
        }
      }
    }
  }

  lemma RemoveThenUpdate<K, V>(m: map<K, V>, j: K, k: K, v: V)
    requires j != k
    ensures (m - {j})[k := v] == m[k := v] - {j}
  {
  }

  lemma UpdateThenRemove<K, V>(m: map<K, V>, j: K, v: V)
    ensures m - {j} == m[j := v] - {j}
  {
  }

  lemma RemoveThenSet<K, V>(m: map<K, V>, j: K, v: V)
    ensures (m - {j})[j := v] == m[j := v]
  {
  }

  /** Appending one response updates the map at its identifier. */
  lemma MapOfSnoc(rs: seq<Response>, r: Response)
    ensures ResponseMap(rs + [r]) == ResponseMap(rs)[r.questionId := r]
  {
    assert (rs + [r])[..|rs|] == rs;
  }

  /** As far as scoring is concerned, answering a question sets its map entry and nothing else. */
  lemma AnsweredMap(rs: seq<Response>, id: string, a: Answer)
    ensures ResponseMap(Answered(rs, id, a)) == ResponseMap(rs)[id := Response(id, a)]
  {
    WithoutIdMap(rs, id);
    MapOfSnoc(WithoutId(rs, id), Response(id, a));
    RemoveThenSet(ResponseMap(rs), id, Response(id, a));
  }

  // ---------------------------------------------------------------------
  // The current answer and the Next button
  // ---------------------------------------------------------------------

  /** The answer of the first response for `id`, as `Array.prototype.find` returns it. */
  function FindAnswer(rs: seq<Response>, id: string): (r: Option<Answer>)
    ensures r.None? <==> forall i :: 0 <= i < |rs| ==> rs[i].questionId != id
    ensures r.Some? ==> exists i :: (0 <= i < |rs| && rs[i].questionId == id && rs[i].answer == r.value &&
      forall j :: 0 <= j < i ==> rs[j].questionId != id)
  {
    if rs == [] then None
    else if rs[0].questionId == id then Some(rs[0].answer)
    else
      var r := FindAnswer(rs[1..], id);
      assert forall i :: 0 < i < |rs| ==> rs[i] == rs[1..][i - 1];
      r
  }

  /** With unique identifiers the first response found is the one the scoring map keeps. */
  lemma FindAgreesWithMap(rs: seq<Response>, id: string)
    requires UniqueIds(rs)
    ensures FindAnswer(rs, id).Some? <==> id in ResponseMap(rs)
    ensures FindAnswer(rs, id).Some? ==> FindAnswer(rs, id).value == ResponseMap(rs)[id].answer
  {
    if FindAnswer(rs, id).Some? {
      var i :| 0 <= i < |rs| && rs[i].questionId == id && rs[i].answer == FindAnswer(rs, id).value;
      LastResponseWins(rs, i);
    }
  }

  /** Responses placed before any response for `id` do not affect the search for it. */
  lemma {:induction false} FindSkipsOthers(a: seq<Response>, b: seq<Response>, id: string)
    requires forall x :: x in a ==> x.questionId != id
    ensures FindAnswer(a + b, id) == FindAnswer(b, id)
  {
    if a == [] {
      assert a + b == b;
    } else {
      assert (a + b)[0] == a[0] && (a + b)[1..] == a[1..] + b;
      assert a[0] in a;
      assert forall x :: x in a[1..] ==> x in a;
      calc {
        FindAnswer(a + b, id);
        FindAnswer((a + b)[1..], id);
        FindAnswer(a[1..] + b, id);
        { FindSkipsOthers(a[1..], b, id); }
        FindAnswer(b, id);
      }
    }
  }

  /** The answer the card shows for the current question: none for arrays, none without a question. */
  function CurrentAnswer(rs: seq<Response>, step: int): (r: Option<Answer>) {
    match QuestionAt(step)
    case None => None
    case Some(q) =>
      match FindAnswer(rs, q.id)
      case None => None
      case Some(a) => if a.Arr? then None else Some(a)
  }

  /** Whether the Next button is enabled. */
  predicate CanProceed(step: int, rs: seq<Response>) {
    step == 1 || CurrentAnswer(rs, step).Some?
  }

  /**
   * With unique identifiers, Next is enabled exactly at the introduction or
   * when the current question has a response whose answer is not an array.
   */
  lemma CanProceedIff(step: int, rs: seq<Response>)
    requires ValidStep(step) && UniqueIds(rs)
    ensures CanProceed(step, rs) <==> (step == 1 ||
      exists i :: 0 <= i < |rs| && rs[i].questionId == Bank[step - 2].id && !rs[i].answer.Arr?)
  {
    if step != 1 {
      var id := Bank[step - 2].id;
      if i :| 0 <= i < |rs| && rs[i].questionId == id && !rs[i].answer.Arr? {
        var j :| 0 <= j < |rs| && rs[j].questionId == id && rs[j].answer == FindAnswer(rs, id).value;
        assert i == j;
      }
    }
  }

  /** Answering the current question with a string or a number enables Next and shows that answer. */
  lemma AnswerEnablesNext(rs: seq<Response>, step: int, a: Answer)
    requires 2 <= step <= |Bank| + 1 && !a.Arr?
    ensures CurrentAnswer(Answered(rs, Bank[step - 2].id, a), step) == Some(a)
    ensures CanProceed(step, Answered(rs, Bank[step - 2].id, a))
  {
    var id := Bank[step - 2].id;
    FindSkipsOthers(WithoutId(rs, id), [Response(id, a)], id);
  }

  /** Every recorded answer is one the card as written offers for its question. */
  predicate RecordedByWrittenCard(rs: seq<Response>) {
    forall i, k :: 0 <= i < |rs| && 0 <= k < |Bank| && Bank[k].id == rs[i].questionId ==>
      rs[i].answer in OfferedAsWritten(Bank[k])
  }

  /**
   * With the card as written, step 8 shows the scenario question tech-2,
   * for which no answer can be recorded, so Next stays disabled there
   * and the session can never reach completion.
   */
  lemma WrittenCardBlocksStep8(rs: seq<Response>)
    requires RecordedByWrittenCard(rs)
    ensures QuestionAt(8) == Some(Bank[6]) && Bank[6].id == "tech-2" && Bank[6].kind == Scenario
    ensures !CanProceed(8, rs)
  {
    ScenarioQuestionsOfferNothing(Bank[6]);
  }

  // ---------------------------------------------------------------------
  // The session
  // ---------------------------------------------------------------------

  /**
   * The state of one session. `isComplete` and `savedResponses` are the
   * finalised copy that completion hands on to the results page.
   */
  class Assessment {
    var currentStep: int
    var responses: seq<Response>
    var isComplete: bool
    var savedResponses: seq<Response>

    /** The step is in range, each question has at most one response, and no answer is an array. */
    ghost predicate Valid()
      reads this
    {
      ValidStep(currentStep) && UniqueIds(responses) && forall r :: r in responses ==> !r.answer.Arr?
    }

    /** A fresh session: the introduction, no responses, not complete. */
    constructor()
      ensures Valid()
      ensures currentStep == 1 && responses == [] && !isComplete && savedResponses == []
    {
      currentStep := 1;
      responses := [];
      isComplete := false;
      savedResponses := [];
    }

    /** Records an answer for the current question; does nothing at a step without a question. */
    method HandleAnswer(answer: Answer)
      requires Valid() && !answer.Arr?
      modifies this
      ensures Valid()
      ensures QuestionAt(old(currentStep)).None? ==> responses == old(responses)
      ensures QuestionAt(old(currentStep)).Some? ==>
        responses == Answered(old(responses), QuestionAt(old(currentStep)).value.id, answer)
      ensures currentStep == old(currentStep) && isComplete == old(isComplete)
      ensures savedResponses == old(savedResponses)
    {
      var currentQuestion := QuestionAt(currentStep);
      if currentQuestion.None? {
        return;
      }
      var id := currentQuestion.value.id;
      AnsweredKeepsUnique(responses, id, answer);
      AnsweredShape(responses, id, answer);
      responses := Answered(responses, id, answer);
    }

    /** The answer control of the card at position `k`, chosen for the current question. */
    method ChooseOption(k: nat)
      requires Valid() && 2 <= currentStep <= |Bank| + 1
      requires k < |Offered(Bank[currentStep - 2])|
      modifies this
      ensures Valid()
      ensures responses == Answered(old(responses), Bank[old(currentStep) - 2].id, Offered(Bank[old(currentStep) - 2])[k])
      ensures CanProceed(currentStep, responses)
      ensures currentStep == old(currentStep) && isComplete == old(isComplete)
      ensures savedResponses == old(savedResponses)
    {
      EveryBankQuestionAnswerable(currentStep - 2);
      var answer := Offered(Bank[currentStep - 2])[k];
      AnswerEnablesNext(responses, currentStep, answer);
      HandleAnswer(answer);
    }

    /** Moves to the next step, or completes at the last one. */
    method HandleNext()
      requires Valid()
      modifies this
      ensures Valid()
      ensures currentStep == NextStep(old(currentStep))
      ensures responses == old(responses)
      ensures isComplete == (old(isComplete) || NextCompletes(old(currentStep)))
      ensures savedResponses == if NextCompletes(old(currentStep)) then old(responses) else old(savedResponses)
    {
      if currentStep == 1 {
        currentStep := 2;
      } else if currentStep - 1 < |Bank| {
        currentStep := currentStep + 1;
      } else {
        CompleteAssessment();
      }
    }

    /** Moves back one step, except at the introduction. */
    method HandlePrevious()
      requires Valid()
      modifies this
      ensures Valid()
      ensures currentStep == PreviousStep(old(currentStep))
      ensures responses == old(responses) && isComplete == old(isComplete)
      ensures savedResponses == old(savedResponses)
    {
      if currentStep > 1 {
        currentStep := currentStep - 1;
      }
    }

    /** Marks the session complete and finalises exactly the current responses. */
    method CompleteAssessment()
      requires Valid()
      modifies this
      ensures Valid()
      ensures isComplete && savedResponses == old(responses)
      ensures currentStep == old(currentStep) && responses == old(responses)
    {
      isComplete := true;
      savedResponses := responses;
    }

    /**
     * A press of the Next button, which is disabled while the current
     * question has no answer. A session only becomes complete from the last
     * step, with the last question answered.
     */
    method ClickNext()
      requires Valid()
      modifies this
      ensures Valid()
      ensures CanProceed(old(currentStep), old(responses)) ==>
        currentStep == NextStep(old(currentStep)) &&
        isComplete == (old(isComplete) || NextCompletes(old(currentStep))) &&
        savedResponses == (if NextCompletes(old(currentStep)) then old(responses) else old(savedResponses))
      ensures !CanProceed(old(currentStep), old(responses)) ==>
        currentStep == old(currentStep) && isComplete == old(isComplete) && savedResponses == old(savedResponses)
      ensures responses == old(responses)
      ensures isComplete && !old(isComplete) ==>
        old(currentStep) == |Bank| + 1 && CurrentAnswer(responses, |Bank| + 1).Some?
    {
      if CanProceed(currentStep, responses) {
        StepTransitions(currentStep);
        HandleNext();
      }
    }
  }
}
