/** The yes/no card used by the legacy visual inspection: two button
    handlers that compute the next answer and pass it upward, and the
    selection state of the two buttons. */
module QuestionCard {
  import opened Answers

  /** `handleYesPress`: `currentAnswer === "yes" ? null : "yes"`. */
  function HandleYesPress(currentAnswer: Answer): (newAnswer: Answer)
    ensures newAnswer == Toggle(currentAnswer, YesButton)
  {
    if currentAnswer == Yes then Unanswered else Yes
  }

  /** `handleNoPress`: `currentAnswer === "no" ? null : "no"`. */
  function HandleNoPress(currentAnswer: Answer): (newAnswer: Answer)
    ensures newAnswer == Toggle(currentAnswer, NoButton)
  {
    if currentAnswer == No then Unanswered else No
  }

  /** The handler wired to a button. */
  function HandlePress(currentAnswer: Answer, b: Button): Answer
  {
    match b
    case YesButton => HandleYesPress(currentAnswer)
    case NoButton => HandleNoPress(currentAnswer)
  }

  /** The `isSelected` flags of the Yes and the No button. */
  datatype Selection = Selection(yesSelected: bool, noSelected: bool)

  function SelectionOf(currentAnswer: Answer): (s: Selection)
    ensures !(s.yesSelected && s.noSelected)
    ensures s.yesSelected == Highlighted(currentAnswer, YesButton)
    ensures s.noSelected == Highlighted(currentAnswer, NoButton)
  {
    Selection(currentAnswer == Yes, currentAnswer == No)
  }

  /** Both card handlers are the shared toggle rule; Yes never yields "no"
      and No never yields "yes". */
  lemma CardHandlersAreToggle(currentAnswer: Answer, b: Button)
    ensures HandlePress(currentAnswer, b) == Toggle(currentAnswer, b)
    ensures HandleYesPress(currentAnswer) != No && HandleNoPress(currentAnswer) != Yes
  {
  }

  /** After a press the pressed button is selected exactly when it was not
      selected before, and the other button is not selected. */
  lemma PressUpdatesSelection(currentAnswer: Answer, b: Button)
    ensures var s := SelectionOf(HandlePress(currentAnswer, b));
            (if b == YesButton then s.yesSelected else s.noSelected)
              == !Highlighted(currentAnswer, b)
    ensures var s := SelectionOf(HandlePress(currentAnswer, b));
            !(if b == YesButton then s.noSelected else s.yesSelected)
  {
  }
}
