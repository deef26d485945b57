/** The functional-test list of the current screens: it keeps its own
    record of answers, keyed by question id, toggles an entry on each
    press and reports the new answer to the screen. */
module FunctionalTest {
  import opened Wrappers
  import opened Answers
  import opened Keys

  /** `Record<string, "yes" | "no" | null>`. A numeric id is stored under
      its decimal text, as JavaScript does with property names. */
  type AnswerRecord = map<string, Answer>

  /** `answers[id]`; `None` is `undefined`, an id never pressed. */
  function Stored(answers: AnswerRecord, id: Key): Option<Answer>
  {
    if KeyText(id) in answers then Some(answers[KeyText(id)]) else None
  }

  /** The decision inside `handleButtonPress`: null when the stored answer
      equals the pressed button, the button's value otherwise. */
  function NextAnswer(current: Option<Answer>, pressed: Button): (r: Answer)
    ensures current.None? ==> r == AnswerOf(pressed)
    ensures r == Toggle(current.GetOr(Unanswered), pressed)
  {
    if current == Some(AnswerOf(pressed)) then Unanswered else AnswerOf(pressed)
  }

  /** What `onAnswerChange` is called with. */
  datatype Notification = Notification(questionId: Key, answer: Answer)

  /** The highlight of the two buttons of one question. */
  datatype Highlight = Highlight(yes: bool, no: bool)

  /** `currentAnswer === "yes"` and `currentAnswer === "no"`. */
  function HighlightOf(answers: AnswerRecord, id: Key): (h: Highlight)
    ensures !(h.yes && h.no)
  {
    Highlight(Stored(answers, id) == Some(Yes), Stored(answers, id) == Some(No))
  }

  /** The record after a press of `pressed` on question `id`. */
  function Pressed(answers: AnswerRecord, id: Key, pressed: Button): AnswerRecord
  {
    answers[KeyText(id) := NextAnswer(Stored(answers, id), pressed)]
  }

  class FunctionalTestState {
    /** `answers` state. */
    var answers: AnswerRecord
    /** Whether the optional `onAnswerChange` prop was given. */
    const hasCallback: bool

    constructor (hasCallback: bool)
      ensures answers == map[] && this.hasCallback == hasCallback
    {
      answers := map[];
      this.hasCallback := hasCallback;
    }

    /** `handleButtonPress`: stores the toggled answer under the question's
        key, keeps every other entry, and hands exactly the stored value to
        the callback when there is one. */
    method HandleButtonPress(questionId: Key, pressed: Button) returns (notified: Option<Notification>)
      modifies this
      ensures answers == Pressed(old(answers), questionId, pressed)
      ensures notified == if hasCallback then Some(Notification(questionId, answers[KeyText(questionId)])) else None
    {
      var newAnswer := NextAnswer(Stored(answers, questionId), pressed);
      notified := if hasCallback then Some(Notification(questionId, newAnswer)) else None;
      answers := answers[KeyText(questionId) := newAnswer];
    }
  }

  /** A press on an unanswered question records the button's value; a
      press on the button equal to the stored answer records null; a press
      on the other button records the pressed value. */
  lemma PressOutcome(answers: AnswerRecord, id: Key, pressed: Button)
    ensures var after := Pressed(answers, id, pressed);
            && Stored(after, id).Some?
            && (Stored(answers, id).None? ==> Stored(after, id) == Some(AnswerOf(pressed)))
            && (Stored(answers, id) == Some(AnswerOf(pressed)) ==> Stored(after, id) == Some(Unanswered))
            && (Stored(answers, id) != Some(AnswerOf(pressed)) ==> Stored(after, id) == Some(AnswerOf(pressed)))
  {
  }

  /** A press changes only the entry of the pressed question: any question
      whose key text differs keeps its stored answer and its highlight. */
  lemma PressKeepsOtherEntries(answers: AnswerRecord, id: Key, other: Key, pressed: Button)
    requires KeyText(other) != KeyText(id)
    ensures Stored(Pressed(answers, id, pressed), other) == Stored(answers, other)
    ensures HighlightOf(Pressed(answers, id, pressed), other) == HighlightOf(answers, other)
  {
  }

  /** After a press the pressed button is highlighted exactly when it was
      not before, and the other button is not highlighted. */
  lemma PressHighlight(answers: AnswerRecord, id: Key, pressed: Button)
    ensures var before := HighlightOf(answers, id);
            var after := HighlightOf(Pressed(answers, id, pressed), id);
            (if pressed == YesButton then after.yes == !before.yes && !after.no
             else after.no == !before.no && !after.yes)
  {
  }

  /** The record is keyed by text, so the number 1 and the string "1" are
      one entry: a press on either is seen by both. */
  lemma NumericAndTextIdsShareEntry(answers: AnswerRecord, n: int, pressed: Button)
    ensures Stored(Pressed(answers, Int(n), pressed), Str(IntText(n)))
         == Stored(Pressed(answers, Int(n), pressed), Int(n))
  {
  }
}
