/** The inspection document held by the inspection store: the analysis
    service's result (session, device, classification, technical data and
    the three test sections) plus any further top-level properties, among
    them the sections of the bundled static document used by the legacy
    screen. */
module Document {
  import opened Wrappers
  import opened Answers
  import opened Keys

  /** A limit value from the service: a number or a string. */
  datatype Limit = Num(r: real) | Text(s: string)

  /** One test item. `response` is `user_response`; a missing property and
      `null` are both `Unanswered`. */
  datatype Item = Item(
    order: Key,
    name: string,
    description: Option<string>,
    measure: Option<string>,
    lowerLimits: Option<Limit>,
    upperLimits: Option<Limit>,
    response: Answer)

  /** A test section: `items` and `display_order`, both optional. */
  datatype Section = Section(items: Option<seq<Item>>, displayOrder: Option<int>)

  /** `tests`: the three known categories. */
  datatype Tests = Tests(
    visual: Option<Section>,
    electrical: Option<Section>,
    functional: Option<Section>)

  datatype Classification = Classification(protectionClass: Option<string>)

  datatype TechnicalData = TechnicalData(
    modelNumber: Option<string>,
    voltage: Option<string>,
    serialNumber: Option<string>)

  /** A question of the bundled static document (`order`, `name`, `value`). */
  datatype Question = Question(order: Key, name: string, value: Answer)

  /** Any other top-level property: a static-document section with a title
      and a question list, or a value the model does not look into. */
  datatype Extra = QuestionList(title: string, questions: seq<Question>) | Opaque(text: string)

  datatype Document = Document(
    sessionId: Option<string>,
    device: Option<string>,
    classification: Option<Classification>,
    technicalData: Option<TechnicalData>,
    tests: Option<Tests>,
    // The other top-level properties; `WellFormed` keeps the typed names out.
    extra: map<string, Extra>)

  /** The empty record `{}`. */
  const Empty: Document := Document(None, None, None, None, None, map[])

  function Present<T>(o: Option<T>): nat
  {
    if o.Some? then 1 else 0
  }

  /** `Object.keys(doc).length`. */
  function KeyCount(d: Document): nat
  {
    Present(d.sessionId) + Present(d.device) + Present(d.classification)
    + Present(d.technicalData) + Present(d.tests) + |d.extra|
  }

  /** The property names the typed fields stand for. */
  const TypedKeys: set<string> :=
    {"session_id", "device", "appliance_classification", "technical_data", "tests"}

  /** The typed property names of `d` that are present. */
  function PresentTypedKeys(d: Document): (ks: set<string>)
    ensures ks <= TypedKeys
  {
    NameIf(d.tests.Some?, "tests")
    + NameIf(d.device.Some?, "device")
    + NameIf(d.sessionId.Some?, "session_id")
    + NameIf(d.technicalData.Some?, "technical_data")
    + NameIf(d.classification.Some?, "appliance_classification")
  }

  function NameIf(present: bool, name: string): (ks: set<string>)
    ensures |ks| == if present then 1 else 0
    ensures ks <= {name}
  {
    if present then {name} else {}
  }

  /** One JavaScript object has one representation: a typed property
      lives in its field, never in `extra`. */
  predicate WellFormed(d: Document)
  {
    forall k :: k in d.extra ==> k !in TypedKeys
  }

  /** Adding a name longer than every member adds one element, if any. */
  lemma AddName(ks: set<string>, present: bool, name: string)
    requires forall k :: k in ks ==> |k| < |name|
    ensures |ks + NameIf(present, name)| == |ks| + (if present then 1 else 0)
    ensures forall k :: k in ks + NameIf(present, name) ==> |k| <= |name|
  {
    assert name !in ks;
    assert ks * NameIf(present, name) == {};
  }

  /** The five typed names have the distinct lengths 5, 6, 10, 14 and 24,
      so each present field adds one name. */
  lemma TypedKeyCount(d: Document)
    ensures |PresentTypedKeys(d)| == Present(d.sessionId) + Present(d.device)
      + Present(d.classification) + Present(d.technicalData) + Present(d.tests)
  {
    var a := NameIf(d.tests.Some?, "tests");
    AddName(a, d.device.Some?, "device");
    var b := a + NameIf(d.device.Some?, "device");
    AddName(b, d.sessionId.Some?, "session_id");
    var c := b + NameIf(d.sessionId.Some?, "session_id");
    AddName(c, d.technicalData.Some?, "technical_data");
    var e := c + NameIf(d.technicalData.Some?, "technical_data");
    AddName(e, d.classification.Some?, "appliance_classification");
  }

  /** On a well-formed document `KeyCount` is the number of distinct
      property names, `Object.keys(doc).length`. */
  lemma KeyCountCountsNames(d: Document)
    requires WellFormed(d)
    ensures KeyCount(d) == |PresentTypedKeys(d) + d.extra.Keys|
  {
    TypedKeyCount(d);
    assert PresentTypedKeys(d) * d.extra.Keys == {};
  }

  /** A document has no keys exactly when it is the empty record. */
  lemma NoKeysIffEmpty(d: Document)
    ensures KeyCount(d) == 0 <==> d == Empty
  {
  }
}
