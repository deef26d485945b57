/** The legacy inspection screen (screens/InspectionScreen.tsx). It loads
    the bundled static document into the inspection store when the store
    is empty, keeps its own record of answers for button highlighting, and
    writes each answer into the question of the document whose order
    equals the question number under `Number()` coercion. */
module LegacyInspectionScreen {
  import opened Wrappers
  import opened Answers
  import opened Keys
  import opened Document
  import opened InspectionContext
  import VisualInspection

  /** `inspectionData[sectionName].questions`; `None` where JavaScript
      would throw a TypeError (no such section, or a section with no
      question list). */
  function QuestionsOf(d: Document, sectionName: string): Option<seq<Question>>
  {
    if sectionName in d.extra && d.extra[sectionName].QuestionList? then
      Some(d.extra[sectionName].questions)
    else
      None
  }

  /** The index of the first question whose order equals `questionNumber`
      under `Number()` coercion. */
  function FirstLooseMatch(questions: seq<Question>, questionNumber: Key): (r: Option<nat>)
    ensures r.Some? ==> r.value < |questions| && LooseEquals(questions[r.value].order, questionNumber)
    ensures r.Some? ==> forall j :: 0 <= j < r.value ==> !LooseEquals(questions[j].order, questionNumber)
    ensures r.None? ==> forall j :: 0 <= j < |questions| ==> !LooseEquals(questions[j].order, questionNumber)
  {
    if questions == [] then None
    else if LooseEquals(questions[0].order, questionNumber) then Some(0)
    else match FirstLooseMatch(questions[1..], questionNumber)
      case None => None
      case Some(k) => Some(k + 1)
  }

  /** The document with the `value` of question `i` of `sectionName` set. */
  function WithQuestionValue(d: Document, sectionName: string, i: nat, answer: Answer): (r: Document)
    requires QuestionsOf(d, sectionName).Some? && i < |QuestionsOf(d, sectionName).value|
  {
    var qs := QuestionsOf(d, sectionName).value;
    d.(extra := d.extra[sectionName := QuestionList(d.extra[sectionName].title, qs[i := qs[i].(value := answer)])])
  }

  /** How `updateQuestionValue` ends. */
  datatype Outcome = Updated(index: nat) | NotFound | TypeError

  /** The outcome of `updateQuestionValue` and the document it leaves. */
  datatype Step = Step(outcome: Outcome, doc: Document)

  function UpdateStep(d: Document, sectionName: string, questionNumber: Key, answer: Answer): Step
  {
    match QuestionsOf(d, sectionName)
    case None => Step(TypeError, d)
    case Some(qs) =>
      match FirstLooseMatch(qs, questionNumber)
      case None => Step(NotFound, d)
      case Some(i) => Step(Updated(i), WithQuestionValue(d, sectionName, i, answer))
  }

  /** The static document is loaded only into the empty record. */
  function ShouldLoadStatic(current: Document): (load: bool)
    ensures load <==> current == Empty
  {
    NoKeysIffEmpty(current);
    KeyCount(current) == 0
  }

  class LegacyScreen {
    /** `answers`: per question key, for button highlighting. */
    var answers: map<string, Answer>
    /** `isMeasured`: set once the Measure button is pressed. */
    var isMeasured: bool
    /** The inspection store the screen reads and writes. */
    const store: InspectionStore

    constructor (store: InspectionStore)
      ensures this.store == store
      ensures answers == map[] && !isMeasured
    {
      this.store := store;
      answers := map[];
      isMeasured := false;
    }

    /** The mount effect: loads `staticDocument` only when the store holds
        no keys, so an existing document is never overwritten. */
    method LoadInitialData(staticDocument: Document)
      modifies store
      ensures ShouldLoadStatic(old(store.data)) ==>
                store.data == staticDocument && store.version == old(store.version) + 1
      ensures !ShouldLoadStatic(old(store.data)) ==>
                store.data == old(store.data) && store.version == old(store.version)
    {
      if KeyCount(store.data) == 0 {
        store.SetInspectionData(Replace(staticDocument));
      }
    }

    /** `updateQuestionValue`: scans the section's questions in order, sets
        the value of the first whose order matches and publishes; with no
        match nothing changes and nothing is published. */
    method UpdateQuestionValue(sectionName: string, questionNumber: Key, answer: Answer) returns (outcome: Outcome)
      modifies store
      ensures outcome == UpdateStep(old(store.data), sectionName, questionNumber, answer).outcome
      ensures store.data == UpdateStep(old(store.data), sectionName, questionNumber, answer).doc
      ensures store.version == old(store.version) + (if outcome.Updated? then 1 else 0)
    {
      var section := QuestionsOf(store.data, sectionName);
      if section.None? {
        return TypeError;
      }
      var questionList := section.value;
      var i := 0;
      while i < |questionList|
        invariant 0 <= i <= |questionList|
        invariant forall j :: 0 <= j < i ==> !LooseEquals(questionList[j].order, questionNumber)
        invariant store.data == old(store.data) && store.version == old(store.version)
      {
        if LooseEquals(questionList[i].order, questionNumber) {
          store.SetInspectionData(Replace(WithQuestionValue(store.data, sectionName, i, answer)));
          return Updated(i);
        }
        i := i + 1;
      }
      return NotFound;
    }

    /** `handleAnswerUpdate`: records the answer under `questionKey`,
        keeping every other key, then writes it into the document. */
    method HandleAnswerUpdate(questionKey: string, answer: Answer, sectionName: string, questionOrder: Key)
      returns (outcome: Outcome)
      modifies this`answers, store
      ensures answers == VisualInspection.Merge(old(answers),
                VisualInspection.AnswerUpdate(questionKey, answer, sectionName, questionOrder))
      ensures outcome == UpdateStep(old(store.data), sectionName, questionOrder, answer).outcome
      ensures store.data == UpdateStep(old(store.data), sectionName, questionOrder, answer).doc
      ensures store.version == old(store.version) + (if outcome.Updated? then 1 else 0)
    {
      answers := VisualInspection.Merge(answers,
        VisualInspection.AnswerUpdate(questionKey, answer, sectionName, questionOrder));
      outcome := UpdateQuestionValue(sectionName, questionOrder, answer);
    }

    /** The Measure button: `isMeasured` becomes true and stays true. */
    method MarkMeasured()
      modifies this`isMeasured
      ensures isMeasured
    {
      isMeasured := true;
    }
  }

  /** On a match, the first matching question gets the answer, every other
      question of the section (a later one with the same order included),
      every other property and every other section stay as they were. */
  lemma UpdateChangesOnlyFirstMatch(d: Document, sectionName: string, questionNumber: Key, answer: Answer)
    requires UpdateStep(d, sectionName, questionNumber, answer).outcome.Updated?
    ensures var s := UpdateStep(d, sectionName, questionNumber, answer);
            var qs := QuestionsOf(d, sectionName).value;
            var i := s.outcome.index;
            && i < |qs| && LooseEquals(qs[i].order, questionNumber)
            && (forall j :: 0 <= j < i ==> !LooseEquals(qs[j].order, questionNumber))
            && QuestionsOf(s.doc, sectionName) == Some(qs[i := qs[i].(value := answer)])
            && s.doc.extra.Keys == d.extra.Keys
            && (forall other :: other in d.extra && other != sectionName ==> s.doc.extra[other] == d.extra[other])
            && s.doc.(extra := d.extra) == d
  {
  }

  /** Without a match, or when the section is missing, the document is
      left exactly as it was. */
  lemma UpdateWithoutMatchKeepsDocument(d: Document, sectionName: string, questionNumber: Key, answer: Answer)
    ensures var s := UpdateStep(d, sectionName, questionNumber, answer);
            !s.outcome.Updated? ==> s.doc == d
    ensures var s := UpdateStep(d, sectionName, questionNumber, answer);
            s.outcome == NotFound <==>
              QuestionsOf(d, sectionName).Some?
              && forall j :: 0 <= j < |QuestionsOf(d, sectionName).value| ==>
                   !LooseEquals(QuestionsOf(d, sectionName).value[j].order, questionNumber)
  {
  }

  /** Writing the same answer twice leaves the document as one write does. */
  lemma {:induction false} UpdateIdempotent(d: Document, sectionName: string, questionNumber: Key, answer: Answer)
    ensures var once := UpdateStep(d, sectionName, questionNumber, answer);
            var twice := UpdateStep(once.doc, sectionName, questionNumber, answer);
            twice.doc == once.doc && twice.outcome == once.outcome
  {
    var once := UpdateStep(d, sectionName, questionNumber, answer);
    if once.outcome.Updated? {
      var qs := QuestionsOf(d, sectionName).value;
      var i := once.outcome.index;
      var qs' := qs[i := qs[i].(value := answer)];
      assert QuestionsOf(once.doc, sectionName) == Some(qs');
      SameOrdersSameMatch(qs, qs', questionNumber);
      assert qs'[i := qs'[i].(value := answer)] == qs';
      assert once.doc.extra[sectionName := QuestionList(once.doc.extra[sectionName].title, qs')] == once.doc.extra;
    }
  }

  /** The search depends on the orders only: the first match is unique. */
  lemma SameOrdersSameMatch(a: seq<Question>, b: seq<Question>, questionNumber: Key)
    requires |a| == |b| && forall j :: 0 <= j < |a| ==> a[j].order == b[j].order
    ensures FirstLooseMatch(a, questionNumber) == FirstLooseMatch(b, questionNumber)
  {
  }

  /** The empty record has no sections: an update there throws and changes
      nothing; this is the state after `clearInspectionData`. */
  lemma UpdateOnEmptyThrows(sectionName: string, questionNumber: Key, answer: Answer)
    ensures UpdateStep(Empty, sectionName, questionNumber, answer) == Step(TypeError, Empty)
  {
  }

  /** Under `Number()` coercion the question number "2" finds the question
      with order 2, while a question whose order is not numeric is never
      found, even by its own order. */
  lemma CoercedLookupExamples(name: string)
    ensures var qs := [Question(Int(1), name, Unanswered), Question(Int(2), name, Unanswered)];
            FirstLooseMatch(qs, Str("2")) == Some(1)
    ensures FirstLooseMatch([Question(Str("abc"), name, Unanswered)], Str("abc")) == None
  {
    Keys.NumberTextLooselyEqual(2);
    Keys.CoercionExamples();
    assert IntText(2) == "2";
    assert !LooseEquals(Int(1), Str("2"));
  }
}
