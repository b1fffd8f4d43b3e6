/**
 * The answer controls the question card offers for a question. The card is
 * the only caller of the wizard's answer handler, so the answers it offers
 * are the only answers a session can record.
 */
module QuestionCard {
  import opened Types
  import opened Questions

  /** The five values of the Likert scale, as the answers its radio buttons record. */
  function LikertAnswers(): (r: seq<Answer>)
    ensures |r| == |LikertOptions|
    ensures forall k :: 0 <= k < |r| ==> r[k] == Num(LikertOptions[k].value)
    ensures r == [Num(1), Num(2), Num(3), Num(4), Num(5)]
  {
    seq(|LikertOptions|, k requires 0 <= k < |LikertOptions| => Num(LikertOptions[k].value))
  }

  /** Each listed option string, as the answer its radio button records. */
  function OptionAnswers(options: seq<string>): (r: seq<Answer>)
    ensures |r| == |options|
    ensures forall k :: 0 <= k < |r| ==> r[k] == Str(options[k])
    ensures forall a :: a in r <==> a.Str? && a.s in options
  {
    seq(|options|, k requires 0 <= k < |options| => Str(options[k]))
  }

  /**
   * The card as written: radio buttons for a Likert question and for a
   * multiple-choice question with options, and no control otherwise.
   */
  function OfferedAsWritten(q: Question): (r: seq<Answer>) {
    if q.kind == Likert then LikertAnswers()
    else if q.kind == MultipleChoice && q.options.Some? then OptionAnswers(q.options.value)
    else []
  }

  /** The card as intended: scenario questions are offered their options like multiple-choice ones. */
  function Offered(q: Question): (r: seq<Answer>) {
    if q.kind == Likert then LikertAnswers()
    else if (q.kind == MultipleChoice || q.kind == Scenario) && q.options.Some? then OptionAnswers(q.options.value)
    else []
  }

  /** As written, a scenario question gets no answer control at all, whatever options it lists. */
  lemma ScenarioQuestionsOfferNothing(q: Question)
    requires q.kind == Scenario
    ensures OfferedAsWritten(q) == []
    ensures q.options.Some? ==> |Offered(q)| == |q.options.value|
  {
  }

  /** The intended card offers every question of the bank at least one answer, and never an array. */
  lemma EveryBankQuestionAnswerable(k: nat)
    requires k < |Bank|
    ensures |Offered(Bank[k])| > 0
    ensures forall a :: a in Offered(Bank[k]) ==> !a.Arr?
  {
    LikertScale();
    BankWellFormed();
    assert Bank[k].kind != Likert ==> Bank[k].options.Some? && |Bank[k].options.value| == 4;
  }
}
