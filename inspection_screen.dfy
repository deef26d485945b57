/** The current inspection screen (src/screens/InspectionScreen.tsx). It
    copies the analysis result into the empty inspection store, derives
    the question lists it passes to the three section components (with
    placeholders for missing sections and defaults for electrical items),
    and writes each answer into the first item of the visual or functional
    section whose `execution_order` is strictly equal to the question id. */
module InspectionScreen {
  import opened Wrappers
  import opened Answers
  import opened Keys
  import opened Document
  import opened InspectionContext
  import opened ImageContext

  /** `"visual_inspection" | "functional_inspection"`. */
  datatype TestType = VisualInspectionTest | FunctionalInspectionTest

  function SectionOf(t: Tests, tt: TestType): Option<Section>
  {
    match tt
    case VisualInspectionTest => t.visual
    case FunctionalInspectionTest => t.functional
  }

  function WithSection(t: Tests, tt: TestType, s: Section): Tests
  {
    match tt
    case VisualInspectionTest => t.(visual := Some(s))
    case FunctionalInspectionTest => t.(functional := Some(s))
  }

  /** `inspectionData?.tests?.[testType]?.items`. */
  function ItemsOf(d: Document, tt: TestType): Option<seq<Item>>
  {
    if d.tests.Some? && SectionOf(d.tests.value, tt).Some? then SectionOf(d.tests.value, tt).value.items
    else None
  }

  /** `items.find(item => item.execution_order === questionId)`, as an index. */
  function FirstStrictMatch(items: seq<Item>, questionId: Key): (r: Option<nat>)
    ensures r.Some? ==> r.value < |items| && StrictEquals(items[r.value].order, questionId)
    ensures r.Some? ==> forall j :: 0 <= j < r.value ==> !StrictEquals(items[j].order, questionId)
    ensures r.None? ==> forall j :: 0 <= j < |items| ==> !StrictEquals(items[j].order, questionId)
  {
    if items == [] then None
    else if StrictEquals(items[0].order, questionId) then Some(0)
    else match FirstStrictMatch(items[1..], questionId)
      case None => None
      case Some(k) => Some(k + 1)
  }

  /** The document with `user_response` of item `i` of section `tt` set. */
  function WithResponse(d: Document, tt: TestType, i: nat, answer: Answer): Document
    requires ItemsOf(d, tt).Some? && i < |ItemsOf(d, tt).value|
  {
    var items := ItemsOf(d, tt).value;
    var s := SectionOf(d.tests.value, tt).value;
    d.(tests := Some(WithSection(d.tests.value, tt, s.(items := Some(items[i := items[i].(response := answer)])))))
  }

  /** The document `handleAnswerChange` publishes, or `None` when it
      returns without changing or publishing anything. */
  function AnswerChange(d: Document, tt: TestType, questionId: Key, answer: Answer): Option<Document>
  {
    match ItemsOf(d, tt)
    case None => None
    case Some(items) =>
      match FirstStrictMatch(items, questionId)
      case None => None
      case Some(i) => Some(WithResponse(d, tt, i, answer))
  }

  /** The analysis result is copied only when there is one and the store
      holds the empty record. */
  function ShouldLoadAnalysis(analysisResult: Option<Document>, current: Document): (load: bool)
    ensures load <==> analysisResult.Some? && current == Empty
  {
    NoKeysIffEmpty(current);
    analysisResult.Some? && KeyCount(current) == 0
  }

  class Screen {
    /** `isMeasured`. */
    var isMeasured: bool
    const store: InspectionStore
    const images: ImageStore

    constructor (store: InspectionStore, images: ImageStore)
      ensures this.store == store && this.images == images
      ensures !isMeasured
    {
      this.store := store;
      this.images := images;
      isMeasured := false;
    }

    /** The loading effect. */
    method LoadAnalysisResult()
      modifies store
      ensures ShouldLoadAnalysis(images.analysisResult, old(store.data)) ==>
                store.data == images.analysisResult.value && store.version == old(store.version) + 1
      ensures !ShouldLoadAnalysis(images.analysisResult, old(store.data)) ==>
                store.data == old(store.data) && store.version == old(store.version)
    {
      if images.analysisResult.Some? && KeyCount(store.data) == 0 {
        store.SetInspectionData(Replace(images.analysisResult.value));
      }
    }

    /** `handleAnswerChange`: with no items or no strictly equal
        `execution_order` it returns; otherwise it sets the item's
        `user_response` and publishes. */
    method HandleAnswerChange(testType: TestType, questionId: Key, answer: Answer)
      modifies store
      ensures AnswerChange(old(store.data), testType, questionId, answer).None? ==>
                store.data == old(store.data) && store.version == old(store.version)
      ensures AnswerChange(old(store.data), testType, questionId, answer).Some? ==>
                store.data == AnswerChange(old(store.data), testType, questionId, answer).value
                && store.version == old(store.version) + 1
    {
      var testItems := ItemsOf(store.data, testType);
      if testItems.None? {
        return;
      }
      var found := FirstStrictMatch(testItems.value, questionId);
      if found.Some? {
        store.SetInspectionData(Replace(WithResponse(store.data, testType, found.value, answer)));
      }
    }

    /** The `onAnswerChange` callback given to the visual section: the
        same steps as `handleAnswerChange` for "visual_inspection". */
    method OnVisualAnswerChange(questionId: Key, answer: Answer)
      modifies store
      ensures AnswerChange(old(store.data), VisualInspectionTest, questionId, answer).None? ==>
                store.data == old(store.data) && store.version == old(store.version)
      ensures AnswerChange(old(store.data), VisualInspectionTest, questionId, answer).Some? ==>
                store.data == AnswerChange(old(store.data), VisualInspectionTest, questionId, answer).value
                && store.version == old(store.version) + 1
    {
      HandleAnswerChange(VisualInspectionTest, questionId, answer);
    }

    /** The `onAnswerChange` callback given to the functional section: the
        same steps as `handleAnswerChange` for "functional_inspection". */
    method OnFunctionalAnswerChange(questionId: Key, answer: Answer)
      modifies store
      ensures AnswerChange(old(store.data), FunctionalInspectionTest, questionId, answer).None? ==>
                store.data == old(store.data) && store.version == old(store.version)
      ensures AnswerChange(old(store.data), FunctionalInspectionTest, questionId, answer).Some? ==>
                store.data == AnswerChange(old(store.data), FunctionalInspectionTest, questionId, answer).value
                && store.version == old(store.version) + 1
    {
      HandleAnswerChange(FunctionalInspectionTest, questionId, answer);
    }

    /** The Measure button: `isMeasured` becomes true and stays true. */
    method MarkMeasured()
      modifies this`isMeasured
      ensures isMeasured
    {
      isMeasured := true;
    }
  }

  /** With no item list an answer changes nothing; otherwise it changes
      something exactly when some item's `execution_order` is strictly equal
      to the id. */
  lemma AnswerChangeNoOp(d: Document, tt: TestType, questionId: Key, answer: Answer)
    ensures ItemsOf(d, tt).None? ==> AnswerChange(d, tt, questionId, answer).None?
    ensures ItemsOf(d, tt).Some? ==>
              (AnswerChange(d, tt, questionId, answer).None? <==>
                 forall j :: 0 <= j < |ItemsOf(d, tt).value| ==> ItemsOf(d, tt).value[j].order != questionId)
  {
  }

  /** A published change sets the response of the first strictly matching
      item and of no other item; the other answerable section, the
      electrical section, the section's `display_order` and every
      top-level property stay as they were. */
  lemma AnswerChangeTouchesOnlyFirstMatch(d: Document, tt: TestType, questionId: Key, answer: Answer)
    requires AnswerChange(d, tt, questionId, answer).Some?
    ensures var r := AnswerChange(d, tt, questionId, answer).value;
            var items := ItemsOf(d, tt).value;
            exists i :: 0 <= i < |items|
              && items[i].order == questionId
              && (forall j :: 0 <= j < i ==> items[j].order != questionId)
              && ItemsOf(r, tt) == Some(items[i := items[i].(response := answer)])
    ensures var r := AnswerChange(d, tt, questionId, answer).value;
            var other := if tt == VisualInspectionTest then FunctionalInspectionTest else VisualInspectionTest;
            && r.tests.Some?
            && SectionOf(r.tests.value, other) == SectionOf(d.tests.value, other)
            && r.tests.value.electrical == d.tests.value.electrical
            && SectionOf(r.tests.value, tt).value.displayOrder == SectionOf(d.tests.value, tt).value.displayOrder
            && r.(tests := d.tests) == d
  {
  }

  /** Publishing the same answer again yields the same document. */
  lemma {:induction false} AnswerChangeIdempotent(d: Document, tt: TestType, questionId: Key, answer: Answer)
    requires AnswerChange(d, tt, questionId, answer).Some?
    ensures var r := AnswerChange(d, tt, questionId, answer).value;
            AnswerChange(r, tt, questionId, answer) == Some(r)
  {
    var items := ItemsOf(d, tt).value;
    var i := FirstStrictMatch(items, questionId).value;
    var items' := items[i := items[i].(response := answer)];
    var r := WithResponse(d, tt, i, answer);
    assert ItemsOf(r, tt) == Some(items');
    SameOrdersSameMatch(items, items', questionId);
    assert items'[i := items'[i].(response := answer)] == items';
    var s' := SectionOf(r.tests.value, tt).value;
    assert s'.(items := Some(items')) == s';
    assert WithSection(r.tests.value, tt, s') == r.tests.value;
  }

  /** The search depends on the orders only: the first match is unique. */
  lemma SameOrdersSameMatch(a: seq<Item>, b: seq<Item>, questionId: Key)
    requires |a| == |b| && forall j :: 0 <= j < |a| ==> a[j].order == b[j].order
    ensures FirstStrictMatch(a, questionId) == FirstStrictMatch(b, questionId)
  {
  }

  /** Strict equality keeps numbers and strings apart: the id "1" does not
      reach an item whose `execution_order` is the number 1. */
  lemma TextIdMissesNumericOrder(d: Document, tt: TestType, n: int, answer: Answer)
    requires ItemsOf(d, tt).Some?
    requires forall j :: 0 <= j < |ItemsOf(d, tt).value| ==> ItemsOf(d, tt).value[j].order.Int?
    ensures AnswerChange(d, tt, Str(IntText(n)), answer).None?
  {
  }

  /** After `clearInspectionData` no answer reaches the document. */
  lemma AnswerChangeOnEmpty(tt: TestType, questionId: Key, answer: Answer)
    ensures AnswerChange(Empty, tt, questionId, answer).None?
  {
  }

  // ---------------------------------------------------------------------
  // Question lists handed to the section components

  /** The list shown when a section is missing. */
  const Placeholder := Item(Int(1), "question", None, None, None, None, Unanswered)

  /** The electrical list shown when that section is missing. */
  const ElectricalPlaceholder := Item(Int(1), "question", Some(""), Some(""), Some(Num(0.0)), Some(Num(0.0)), Unanswered)

  /** JavaScript falsiness of a limit: 0 and the empty string. */
  predicate FalsyLimit(l: Limit)
  {
    l == Num(0.0) || l == Text("")
  }

  /** `x || ""` for an optional string. */
  function OrEmpty(s: Option<string>): string
  {
    if s.Some? && s.value != "" then s.value else ""
  }

  /** `x || 0` for an optional limit. */
  function OrZero(l: Option<Limit>): Limit
  {
    if l.Some? && !FalsyLimit(l.value) then l.value else Num(0.0)
  }

  /** The `map` over electrical items: missing or falsy description and
      measure become "", missing or falsy limits become 0, and the other
      fields are kept. */
  function NormaliseElectrical(item: Item): (r: Item)
    ensures r.order == item.order && r.name == item.name && r.response == item.response
    ensures r.description == Some(item.description.GetOr(""))
    ensures r.measure == Some(item.measure.GetOr(""))
    ensures r.lowerLimits.Some? && r.upperLimits.Some?
    ensures item.lowerLimits.None? || FalsyLimit(item.lowerLimits.value) ==> r.lowerLimits == Some(Num(0.0))
    ensures item.lowerLimits.Some? && !FalsyLimit(item.lowerLimits.value) ==> r.lowerLimits == item.lowerLimits
    ensures item.upperLimits.None? || FalsyLimit(item.upperLimits.value) ==> r.upperLimits == Some(Num(0.0))
    ensures item.upperLimits.Some? && !FalsyLimit(item.upperLimits.value) ==> r.upperLimits == item.upperLimits
  {
    item.(description := Some(OrEmpty(item.description)),
          measure := Some(OrEmpty(item.measure)),
          lowerLimits := Some(OrZero(item.lowerLimits)),
          upperLimits := Some(OrZero(item.upperLimits)))
  }

  /** Normalising twice is normalising once; the placeholder is already
      normal. An empty-string limit becomes the number 0. */
  lemma NormaliseIdempotent(item: Item)
    ensures NormaliseElectrical(NormaliseElectrical(item)) == NormaliseElectrical(item)
    ensures NormaliseElectrical(ElectricalPlaceholder) == ElectricalPlaceholder
    ensures NormaliseElectrical(item.(lowerLimits := Some(Text("")))).lowerLimits == Some(Num(0.0))
  {
  }

  function ElectricalItems(d: Document): Option<seq<Item>>
  {
    if d.tests.Some? && d.tests.value.electrical.Some? then d.tests.value.electrical.value.items else None
  }

  /** `tests?.visual_inspection?.items || [placeholder]`; an empty list is
      kept, since an array is never falsy. */
  function VisualQuestions(d: Document): (qs: seq<Item>)
    ensures ItemsOf(d, VisualInspectionTest).None? ==> qs == [Placeholder]
    ensures ItemsOf(d, VisualInspectionTest).Some? ==> qs == ItemsOf(d, VisualInspectionTest).value
  {
    ItemsOf(d, VisualInspectionTest).GetOr([Placeholder])
  }

  function FunctionalQuestions(d: Document): (qs: seq<Item>)
    ensures ItemsOf(d, FunctionalInspectionTest).None? ==> qs == [Placeholder]
    ensures ItemsOf(d, FunctionalInspectionTest).Some? ==> qs == ItemsOf(d, FunctionalInspectionTest).value
  {
    ItemsOf(d, FunctionalInspectionTest).GetOr([Placeholder])
  }

  /** The electrical list: every item normalised, or the placeholder. */
  function ElectricalQuestions(d: Document): (qs: seq<Item>)
    ensures ElectricalItems(d).None? ==> qs == [ElectricalPlaceholder]
    ensures ElectricalItems(d).Some? ==> |qs| == |ElectricalItems(d).value|
    ensures ElectricalItems(d).Some? ==>
              forall i :: 0 <= i < |qs| ==> qs[i] == NormaliseElectrical(ElectricalItems(d).value[i])
  {
    match ElectricalItems(d)
    case None => [ElectricalPlaceholder]
    case Some(items) => seq(|items|, i requires 0 <= i < |items| => NormaliseElectrical(items[i]))
  }

  /** Every row the electrical component receives has all four display
      fields present and is left alone by normalisation; the placeholder
      lists have one item with `execution_order` 1. */
  lemma QuestionListsWellFormed(d: Document)
    ensures forall q :: q in ElectricalQuestions(d) ==>
              q.description.Some? && q.measure.Some? && q.lowerLimits.Some? && q.upperLimits.Some?
              && NormaliseElectrical(q) == q
    ensures ItemsOf(d, VisualInspectionTest).None? ==> |VisualQuestions(d)| == 1 && VisualQuestions(d)[0].order == Int(1)
    ensures ItemsOf(d, FunctionalInspectionTest).None? ==>
              |FunctionalQuestions(d)| == 1 && FunctionalQuestions(d)[0].order == Int(1)
    ensures ElectricalItems(d).None? ==> |ElectricalQuestions(d)| == 1 && ElectricalQuestions(d)[0].order == Int(1)
  {
  }

  // ---------------------------------------------------------------------
  // Header and device fallbacks

  /** The texts the header and the device panel show. */
  datatype Header = Header(inspectionClass: string, identifier: string, device: string,
                           model: string, voltage: string, serialNumber: string)

  /** `x || "--"`. */
  function OrDashes(s: Option<string>): (r: string)
    ensures r != ""
    ensures s.Some? && s.value != "" ==> r == s.value
    ensures s.None? || s.value == "" ==> r == "--"
  {
    if s.Some? && s.value != "" then s.value else "--"
  }

  /** The protection class uses `?? "--"`, which keeps an empty string; the
      other fields use `|| "--"`, which replaces it. */
  function HeaderOf(d: Document): (h: Header)
    ensures h.identifier == OrDashes(d.sessionId) && h.device == OrDashes(d.device)
    ensures d.technicalData.Some? ==>
              && h.model == OrDashes(d.technicalData.value.modelNumber)
              && h.voltage == OrDashes(d.technicalData.value.voltage)
              && h.serialNumber == OrDashes(d.technicalData.value.serialNumber)
    ensures d.technicalData.None? ==> h.model == "--" && h.voltage == "--" && h.serialNumber == "--"
    ensures d.classification.Some? && d.classification.value.protectionClass.Some? ==>
              h.inspectionClass == d.classification.value.protectionClass.value
    ensures d.classification.None? || d.classification.value.protectionClass.None? ==> h.inspectionClass == "--"
  {
    var td := d.technicalData;
    Header(
      if d.classification.Some? then d.classification.value.protectionClass.GetOr("--") else "--",
      OrDashes(d.sessionId),
      OrDashes(d.device),
      OrDashes(if td.Some? then td.value.modelNumber else None),
      OrDashes(if td.Some? then td.value.voltage else None),
      OrDashes(if td.Some? then td.value.serialNumber else None))
  }
}
