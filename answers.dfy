/** The yes/no answer of an inspection question and the rule that a
    button press applies to it. The screens re-implement this rule in
    several places; each re-implementation is proved equal to `Toggle`. */
module Answers {

  /** "yes", "no", or null (no answer recorded, or deselected). */
  datatype Answer = Yes | No | Unanswered

  /** The two buttons shown under a question. */
  datatype Button = YesButton | NoButton

  /** The answer a button stands for. */
  function AnswerOf(b: Button): (a: Answer)
    ensures a != Unanswered
    ensures a == Yes <==> b == YesButton
  {
    match b
    case YesButton => Yes
    case NoButton => No
  }

  /** The button next to `b`. */
  function Other(b: Button): (o: Button)
    ensures o != b
  {
    match b
    case YesButton => NoButton
    case NoButton => YesButton
  }

  /** Pressing the button that is already selected clears the answer;
      pressing any other button selects it. */
  function Toggle(current: Answer, pressed: Button): (r: Answer)
    ensures r == Unanswered <==> current == AnswerOf(pressed)
    ensures r != Unanswered ==> r == AnswerOf(pressed)
    ensures r != AnswerOf(Other(pressed))
  {
    if current == AnswerOf(pressed) then Unanswered else AnswerOf(pressed)
  }

  /** A button is drawn selected exactly when the answer equals its value. */
  predicate Highlighted(current: Answer, b: Button)
  {
    current == AnswerOf(b)
  }

  /** Selection is derived from one value, so at most one button is lit. */
  lemma AtMostOneHighlighted(current: Answer)
    ensures !(Highlighted(current, YesButton) && Highlighted(current, NoButton))
  {
  }

  /** Pressing a button flips its own highlight and switches the other off. */
  lemma ToggleFlipsHighlight(current: Answer, b: Button)
    ensures Highlighted(Toggle(current, b), b) <==> !Highlighted(current, b)
    ensures !Highlighted(Toggle(current, b), Other(b))
  {
  }

  /** Two presses of the same button from no answer return to no answer. */
  lemma TogglePressTwiceFromUnanswered(b: Button)
    ensures Toggle(Unanswered, b) == AnswerOf(b)
    ensures Toggle(Toggle(Unanswered, b), b) == Unanswered
  {
  }

  /** Two presses of one button undo each other exactly when the starting
      answer was not the other button's value. */
  lemma TogglePressTwice(current: Answer, b: Button)
    ensures Toggle(Toggle(current, b), b) == current <==> current != AnswerOf(Other(b))
  {
  }
}
