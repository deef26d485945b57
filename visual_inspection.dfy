/** The legacy visual-inspection list: one question card per question,
    each looking up its answer under the key "visual-<order>" and routing
    the card's answer to the screen, tagged with the section name
    "visual_inspection" and the question's order. */
module VisualInspection {
  import opened Answers
  import opened Keys
  import opened Document
  import QuestionCard

  const KeyPrefix := "visual-"
  const SectionName := "visual_inspection"

  /** `` `visual-${order}` ``: the prefix, then the order's text. */
  function QuestionKey(order: Key): (k: string)
    ensures |k| == |KeyPrefix| + |KeyText(order)|
    ensures k[..|KeyPrefix|] == KeyPrefix && k[|KeyPrefix|..] == KeyText(order)
  {
    KeyPrefix + KeyText(order)
  }

  /** The arguments of `onAnswerUpdate`. */
  datatype AnswerUpdate = AnswerUpdate(questionKey: string, answer: Answer, sectionName: string, questionOrder: Key)

  /** `handleQuestionAnswer`: passes the answer on unchanged. */
  function HandleQuestionAnswer(questionOrder: Key, answer: Answer): (u: AnswerUpdate)
    ensures u.questionKey == QuestionKey(questionOrder)
    ensures u.sectionName == SectionName
    ensures u.questionOrder == questionOrder
    ensures u.answer == answer
  {
    AnswerUpdate(QuestionKey(questionOrder), answer, SectionName, questionOrder)
  }

  /** `answers[questionKey]`; an absent key is shown as unanswered. */
  function Lookup(answers: map<string, Answer>, key: string): Answer
  {
    if key in answers then answers[key] else Unanswered
  }

  /** The props of one rendered card; `order` is the order its
      `onAnswerChange` closure captured. */
  datatype Card = Card(questionText: string, questionKey: string, currentAnswer: Answer, order: Key)

  /** `questions.map(...)`: one card per question, in order. */
  function RenderCards(questions: seq<Question>, answers: map<string, Answer>): (cards: seq<Card>)
    ensures |cards| == |questions|
    ensures forall i :: 0 <= i < |questions| ==>
              cards[i] == Card(questions[i].name, QuestionKey(questions[i].order),
                               Lookup(answers, QuestionKey(questions[i].order)), questions[i].order)
  {
    seq(|questions|, i requires 0 <= i < |questions| =>
      var key := QuestionKey(questions[i].order);
      Card(questions[i].name, key, Lookup(answers, key), questions[i].order))
  }

  /** A press on a card: the card toggles its current answer, and the list
      forwards the result. */
  function PressCard(card: Card, b: Button): AnswerUpdate
  {
    HandleQuestionAnswer(card.order, QuestionCard.HandlePress(card.currentAnswer, b))
  }

  /** The legacy screen's `handleAnswerUpdate` merge of an update into the
      answers record. */
  function Merge(answers: map<string, Answer>, u: AnswerUpdate): map<string, Answer>
  {
    answers[u.questionKey := u.answer]
  }

  /** Keys of two orders coincide exactly when their texts do. */
  lemma QuestionKeyInjective(a: Key, b: Key)
    ensures QuestionKey(a) == QuestionKey(b) <==> KeyText(a) == KeyText(b)
  {
  }

  /** Pressing a card sends an update keyed by the very key the card reads
      its answer from, for section "visual_inspection", with the question's
      order unchanged and the answer toggled once by the card. */
  lemma PressCardRouting(questions: seq<Question>, answers: map<string, Answer>, i: nat, b: Button)
    requires i < |questions|
    ensures var card := RenderCards(questions, answers)[i];
            var u := PressCard(card, b);
            && u.questionKey == card.questionKey
            && u.sectionName == SectionName
            && u.questionOrder == questions[i].order
            && u.answer == Toggle(card.currentAnswer, b)
  {
  }

  /** Once the screen merges a card's update, the next render shows that
      card with the new answer, and every card whose order has a different
      text keeps its answer. */
  lemma PressThenRender(questions: seq<Question>, answers: map<string, Answer>, i: nat, b: Button)
    requires i < |questions|
    ensures var u := PressCard(RenderCards(questions, answers)[i], b);
            var after := RenderCards(questions, Merge(answers, u));
            && after[i].currentAnswer == u.answer
            && forall j :: 0 <= j < |questions| && KeyText(questions[j].order) != KeyText(questions[i].order) ==>
                 after[j].currentAnswer == RenderCards(questions, answers)[j].currentAnswer
  {
  }
}
