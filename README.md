# Inspection answer state: a Dafny model

This project models the state logic of a mobile power-tool inspection app.
A photo goes to an external analysis service, which returns an inspection
document. The document has visual, electrical and functional test items.
The user answers the yes/no questions and presses "Measure" for the
electrical tests. The app keeps the document in a shared store and passes
it between screens.

The repository has two generations of the inspection screen:

- the **legacy** one (`screens/`, `components/`), which works on a
  bundled static document;
- the **current** one (`src/`), which works on the analysis result.

The model covers:

- **The toggle rule** (`Answers`). Pressing the selected button clears
  the answer to null. Pressing any other button selects it. Each place
  the source re-implements the rule is proved equal to `Answers.Toggle`:
  the legacy question card (`QuestionCard`) and the current
  functional-test list (`FunctionalTest`).
- **Question keys** (`Keys`). An `execution_order` is a string or a
  number. The legacy screen compares keys with `Number(a) === Number(b)`;
  the model gives `Number()` as a partial decimal parse, where NaN
  (`None`) equals nothing. The current screen compares keys with strict
  `===`. JavaScript also turns a key into text, both in the template
  `visual-${order}` and when a key names a record property.
- **The inspection document** (`Document`) and its two stores. The
  inspection store (`InspectionContext`) holds one document, starts at the
  empty record, can be replaced or given an updater, and can be cleared.
  The image store (`ImageContext`) holds two independent nullable fields.
  Both have a hook that fails outside its provider.
- **The legacy screen** (`LegacyInspectionScreen`, `VisualInspection`).
  On mount it loads the static document, but only into an empty store.
  The visual list keys each answer as `"visual-" + order` and routes it
  to section `"visual_inspection"`. The screen merges the answer into its
  own record. Then an index loop with `break` sets the `value` of the
  first question whose order matches under `Number()` coercion.
- **The current screen** (`InspectionScreen`). It copies the analysis
  result into the store, but only when the store is empty. Answer
  callbacks set `user_response` on the first item whose `execution_order`
  is strictly equal to the id. The screen also builds the question lists
  for the three section components, with placeholders and electrical
  defaults, and the header's `"--"` fallbacks. Its `isMeasured` flag can
  only ever be set.

Each store is a `class`. Its methods state the new value of every field
they change and keep everything else unchanged. A method "publishes a new
version" by incrementing `version`. The document is a datatype value. The
source changes an item object in place and then publishes a shallow copy.
The model instead replaces the document with one that differs only in that
item, in the same step. Pure logic is written as functions, with lemmas
for the properties that relate several calls: first match only,
everything else unchanged, idempotence, not found means no change, key
routing, and normalisation as a fixed point. The one loop in the source,
legacy `updateQuestionValue`, is a `while` loop with invariants, proved
against the function `FirstLooseMatch`.

The model follows the code in three places:

- An answer for an unknown question is a silent no-op with no
  notification, not a "not found" error. The legacy model reports
  `NotFound` only as its internal outcome.
- The document store does not apply the toggle rule itself. The
  components toggle against their own answer records: the legacy screen's
  `answers`, and the functional list's `answers` state. The store then
  writes whatever answer it is given.
- The legacy `updateQuestionValue` throws a TypeError, rather than
  returning, when the section is missing. This includes the empty record.

`src/screens/InspectionScreen.tsx` imports `src/context/InspectionContext`.
That file is not part of this model, so the store modelled is the one in
`context/InspectionContext.tsx`. The `src` visual component's file is not
modelled: the current screen receives its answers only through
`InspectionScreen.Screen.OnVisualAnswerChange`. The `src` functional list
is modelled in `FunctionalTest`, but its notification is not composed with
`InspectionScreen.Screen.OnFunctionalAnswerChange`.

## Model

| member | source | states |
|---|---|---|
| Answers.Toggle | components/inspection/QuestionCard.tsx:21-29 | the result is null exactly when the pressed value was already the answer; otherwise it is the pressed value; it is never the other button's value |
| Answers.AtMostOneHighlighted | components/inspection/QuestionCard.tsx:40-46 | selection is derived from one value, so Yes and No are never both selected |
| Answers.ToggleFlipsHighlight | components/inspection/QuestionCard.tsx:19-47 | after a press the pressed button is selected exactly when it was not before, and the other button is not selected |
| Answers.TogglePressTwiceFromUnanswered | components/inspection/QuestionCard.tsx:21-31 | from no answer, one press selects the button and a second press of the same button returns to no answer |
| Answers.TogglePressTwice | components/inspection/QuestionCard.tsx:21-31 | two presses of one button restore the starting answer exactly when it was not the other button's value |
| QuestionCard.HandleYesPress | components/inspection/QuestionCard.tsx:19-24 | the Yes handler's `currentAnswer === "yes" ? null : "yes"` is the shared toggle rule for the Yes button |
| QuestionCard.HandleNoPress | components/inspection/QuestionCard.tsx:27-32 | the No handler's `currentAnswer === "no" ? null : "no"` is the shared toggle rule for the No button |
| QuestionCard.SelectionOf | components/inspection/QuestionCard.tsx:38-49 | the two `isSelected` flags are never both true, and each is lit exactly when the answer is that button's value |
| QuestionCard.CardHandlersAreToggle | components/inspection/QuestionCard.tsx:21-29 | the handler wired to either button equals the toggle rule; Yes never yields "no" and No never yields "yes" |
| QuestionCard.PressUpdatesSelection | components/inspection/QuestionCard.tsx:19-47 | after a card press the pressed button shows selected exactly when it was not selected before, and the other button shows unselected |
| Keys.NumberTextLooselyEqual | screens/InspectionScreen.tsx:110 | `Number()` of an integer's decimal text is that integer, so the text and the number match under coercion; under strict equality they differ |
| Keys.IntTextInjective | components/inspection/VisualInspection.tsx:34 | distinct integer orders have distinct texts |
| Keys.LooseReflexiveIffNumeric | screens/InspectionScreen.tsx:110 | a key matches itself under coercion exactly when its `Number()` is not NaN |
| Keys.StrictImpliesLoose | screens/InspectionScreen.tsx:110 | strictly equal numeric keys also match under coercion |
| Keys.CoercionExamples | screens/InspectionScreen.tsx:110 | "abc" is NaN and never matches, not even "abc"; "" matches 0; " 2 " matches 2 |
| Document.NoKeysIffEmpty | context/InspectionContext.tsx:46-55 | `Object.keys(doc).length === 0` holds exactly for the empty record |
| Document.KeyCountCountsNames | context/InspectionContext.tsx:45-54 | when no extra property reuses a typed name (`session_id`, `device`, `appliance_classification`, `technical_data`, `tests`), the key count is the number of distinct property names, so no property is counted twice |
| InspectionContext.Applied | context/InspectionContext.tsx:60-62 | a replacement value becomes the document; an updater is applied to the previous document |
| InspectionContext.InspectionStore.constructor | context/InspectionContext.tsx:80 | the store starts with the empty record and nothing published |
| InspectionContext.InspectionStore.SetInspectionData | context/InspectionContext.tsx:60-62 | the new document is the replacement, or the updater applied to the old document; one new version is published |
| InspectionContext.InspectionStore.ClearInspectionData | context/InspectionContext.tsx:82-84 | the document becomes the empty record whatever it was; one new version is published |
| InspectionContext.UseInspectionContext | context/InspectionContext.tsx:100-108 | fails with the provider-missing message exactly when there is no provider; otherwise returns that provider |
| ImageContext.ImageStore.constructor | src/context/ImageContext.tsx:33-38 | the captured image and the analysis result both start null |
| ImageContext.ImageStore.SetCapturedImage | src/context/ImageContext.tsx:33-35 | sets the captured image and leaves the analysis result unchanged |
| ImageContext.ImageStore.SetAnalysisResult | src/context/ImageContext.tsx:36-38 | sets the analysis result and leaves the captured image unchanged |
| ImageContext.ImageStore.ClearImage | src/context/ImageContext.tsx:40-42 | the captured image becomes null; the analysis result is unchanged |
| ImageContext.ImageStore.ClearAll | src/context/ImageContext.tsx:44-47 | both fields become null |
| ImageContext.UseImageContext | src/context/ImageContext.tsx:66-72 | fails with the provider-missing message exactly when there is no provider; otherwise returns that provider |
| FunctionalTest.NextAnswer | src/components/inspection/FunctionalTest.tsx:25-32 | a never-pressed question gets the pressed value; in every case the decision equals the shared toggle rule, with undefined treated as null |
| FunctionalTest.HighlightOf | src/components/inspection/FunctionalTest.tsx:47-87 | Yes and No are never both highlighted |
| FunctionalTest.FunctionalTestState.constructor | src/components/inspection/FunctionalTest.tsx:16-18 | the answer record starts empty |
| FunctionalTest.FunctionalTestState.HandleButtonPress | src/components/inspection/FunctionalTest.tsx:20-40 | the record gets the toggled answer under the question's key, with all other entries kept; the callback, when given, receives the id and exactly the value now stored |
| FunctionalTest.PressOutcome | src/components/inspection/FunctionalTest.tsx:25-38 | the first press stores the pressed value; pressing the stored answer stores null; pressing the other button stores the pressed value |
| FunctionalTest.PressKeepsOtherEntries | src/components/inspection/FunctionalTest.tsx:38 | questions whose key text differs keep their stored answer and their highlight |
| FunctionalTest.PressHighlight | src/components/inspection/FunctionalTest.tsx:47-87 | after a press the pressed button is highlighted exactly when it was not before, and the other button is not highlighted |
| FunctionalTest.NumericAndTextIdsShareEntry | src/components/inspection/FunctionalTest.tsx:38-47 | the number n and the string of its digits name the same record entry |
| VisualInspection.QuestionKey | components/inspection/VisualInspection.tsx:34 | the key is the prefix "visual-" followed by the order's text |
| VisualInspection.HandleQuestionAnswer | components/inspection/VisualInspection.tsx:30-36 | the update goes to section "visual_inspection", under the order's key, with the order and the answer passed through unchanged |
| VisualInspection.RenderCards | components/inspection/VisualInspection.tsx:42-55 | one card per question, in order; each card's key is the question's key and its answer is the record's entry under that key |
| VisualInspection.QuestionKeyInjective | components/inspection/VisualInspection.tsx:34-43 | two orders have the same key exactly when they have the same text |
| VisualInspection.PressCardRouting | components/inspection/VisualInspection.tsx:34-52 | a pressed card's update uses the key the card reads from, goes to "visual_inspection" with the question's order, and carries the card's single toggle, not re-toggled |
| VisualInspection.PressThenRender | components/inspection/VisualInspection.tsx:43-52 | once the update is merged, the next render shows the new answer on that card and keeps it on cards with other keys |
| LegacyInspectionScreen.FirstLooseMatch | screens/InspectionScreen.tsx:108-122 | the index found is the first question whose order matches under coercion; none is found only when no question matches |
| LegacyInspectionScreen.ShouldLoadStatic | screens/InspectionScreen.tsx:73-76 | the static document is loaded exactly when the store holds the empty record |
| LegacyInspectionScreen.LegacyScreen.constructor | screens/InspectionScreen.tsx:60-63 | the answers record starts empty and `isMeasured` starts false |
| LegacyInspectionScreen.LegacyScreen.LoadInitialData | screens/InspectionScreen.tsx:71-77 | an empty store receives the static document and publishes; a non-empty store is not changed |
| LegacyInspectionScreen.LegacyScreen.UpdateQuestionValue | screens/InspectionScreen.tsx:89-124 | the loop finds the first match; it sets that question's value and publishes once; no match means no change and no publish; a missing section throws |
| LegacyInspectionScreen.LegacyScreen.HandleAnswerUpdate | screens/InspectionScreen.tsx:137-153 | the record becomes `VisualInspection.Merge` of the card's update, so `VisualInspection.PressThenRender` applies to the screen's own record; the document and outcome are those of `updateQuestionValue`, and the store publishes once on a match and not otherwise |
| LegacyInspectionScreen.LegacyScreen.MarkMeasured | screens/InspectionScreen.tsx:211-214 | `isMeasured` becomes true; no method sets it false |
| LegacyInspectionScreen.UpdateChangesOnlyFirstMatch | screens/InspectionScreen.tsx:105-122 | on a match only the first matching question changes; later questions with the same order, other sections and other properties are unchanged |
| LegacyInspectionScreen.UpdateWithoutMatchKeepsDocument | screens/InspectionScreen.tsx:104-123 | without an update the document is unchanged; the outcome is "not found" exactly when the section exists and no order matches |
| LegacyInspectionScreen.UpdateIdempotent | screens/InspectionScreen.tsx:108-114 | writing the same answer twice gives the same document and outcome as writing it once |
| LegacyInspectionScreen.UpdateOnEmptyThrows | screens/InspectionScreen.tsx:105 | on the empty record an update throws and changes nothing |
| LegacyInspectionScreen.CoercedLookupExamples | screens/InspectionScreen.tsx:110 | the number "2" finds the question with order 2; a question with order "abc" is never found, even by "abc" |
| InspectionScreen.FirstStrictMatch | src/screens/InspectionScreen.tsx:79-81 | the index found is the first item whose `execution_order` is strictly equal to the id; none is found only when no item is |
| InspectionScreen.ShouldLoadAnalysis | src/screens/InspectionScreen.tsx:50-58 | the analysis result is copied exactly when there is one and the store holds the empty record, so an existing document is never overwritten |
| InspectionScreen.Screen.constructor | src/screens/InspectionScreen.tsx:42 | `isMeasured` starts false |
| InspectionScreen.Screen.LoadAnalysisResult | src/screens/InspectionScreen.tsx:50-58 | the store receives the analysis result and publishes when the guard holds; otherwise nothing changes |
| InspectionScreen.Screen.HandleAnswerChange | src/screens/InspectionScreen.tsx:71-91 | with no item list or no strict match the store is unchanged and nothing is published; otherwise the changed document is published once |
| InspectionScreen.Screen.OnVisualAnswerChange | src/screens/InspectionScreen.tsx:118-142 | the same as `handleAnswerChange` for "visual_inspection" |
| InspectionScreen.Screen.OnFunctionalAnswerChange | src/screens/InspectionScreen.tsx:178-202 | the same as `handleAnswerChange` for "functional_inspection" |
| InspectionScreen.Screen.MarkMeasured | src/screens/InspectionScreen.tsx:166-168 | `isMeasured` becomes true; no method sets it false |
| InspectionScreen.AnswerChangeNoOp | src/screens/InspectionScreen.tsx:76-90 | no item list means no change; otherwise no change happens exactly when no item's order is strictly equal to the id |
| InspectionScreen.AnswerChangeTouchesOnlyFirstMatch | src/screens/InspectionScreen.tsx:79-89 | only the first strictly matching item gets the response; the other items, the other answerable section, the electrical section, `display_order` and all top-level fields are unchanged |
| InspectionScreen.AnswerChangeIdempotent | src/screens/InspectionScreen.tsx:79-84 | publishing the same answer again leaves the published document as it is |
| InspectionScreen.TextIdMissesNumericOrder | src/screens/InspectionScreen.tsx:80 | when every order is a number, the id "n" as a string reaches no item |
| InspectionScreen.AnswerChangeOnEmpty | src/screens/InspectionScreen.tsx:76-77 | after the store is cleared, no answer changes the document |
| InspectionScreen.NormaliseElectrical | src/screens/InspectionScreen.tsx:147-152 | a missing description or measure becomes "", a missing or falsy limit becomes 0, a truthy limit is kept, and order, name and response are kept |
| InspectionScreen.NormaliseIdempotent | src/screens/InspectionScreen.tsx:147-162 | normalising twice is normalising once; the placeholder row is already normal; a "" limit becomes the number 0 |
| InspectionScreen.VisualQuestions | src/screens/InspectionScreen.tsx:112-116 | a missing visual item list becomes the one-item placeholder; an existing list, even an empty one, is passed as it is |
| InspectionScreen.FunctionalQuestions | src/screens/InspectionScreen.tsx:172-176 | a missing functional item list becomes the one-item placeholder; an existing list is passed as it is |
| InspectionScreen.ElectricalQuestions | src/screens/InspectionScreen.tsx:146-163 | each electrical item is normalised, in order; a missing list becomes the normalised placeholder |
| InspectionScreen.QuestionListsWellFormed | src/screens/InspectionScreen.tsx:112-176 | every electrical row has all four display fields and is a fixed point of normalisation; the visual, functional and electrical placeholder lists each have one item with order 1 |
| InspectionScreen.OrDashes | src/screens/InspectionScreen.tsx:99 | `x \|\| "--"` shows a present non-empty text itself and "--" for a missing or empty one, so it is never empty |
| InspectionScreen.HeaderOf | src/screens/InspectionScreen.tsx:95-109 | identifier, device, model, voltage and serial number show their document value when it is present and non-empty, and "--" otherwise (`\|\| "--"`); the protection class keeps any present value, "" included (`?? "--"`) |

## Left out

- `FunctionalTest.HighlightOf`: its contract says only that Yes and No are never both lit. That Yes is lit when the stored answer is "yes" is the function's definition, and `FunctionalTest.PressHighlight` uses it.
- The legacy `!inspectionData` guard (screens/InspectionScreen.tsx:95-98) is not modelled. The store starts at `{}` and its setter takes a document, so the model has no null document. The empty record, which is the model's "no data", makes the update throw. `LegacyInspectionScreen.UpdateOnEmptyThrows` states this.
- `Number()` is modelled only for blank strings and optionally signed decimals (digits with at most one point). Hex, binary and octal literals, exponents, `Infinity`, and white space other than space, tab, newline and carriage return are treated as NaN, although JavaScript parses them. The model's value is the exact decimal, whereas JavaScript rounds the text to the nearest double. So texts that differ only beyond double precision, such as "1.0000000000000001" and "1", compare equal in JavaScript but unequal in the model.
- Numeric keys are unbounded integers. Fractional or NaN `execution_order` numbers are not modelled, and neither is the text JavaScript makes of a fractional number. JavaScript numbers hold integers exactly only up to 2^53. From 10^21 on, `String(n)` writes exponent text such as "1e+21", whereas `Keys.IntText` and `Keys.KeyText` always write plain digits. So the coercion lemmas and the `visual-${order}` keys hold in JavaScript only for integers below 2^53 in magnitude. Limits are reals.
- The `[key: string]: any` extension bags are open-ended. Only the document's top level keeps its extra properties (`Document.extra`). Extra fields on items, tests, classification and technical data are not represented. So "all other fields are kept" by the electrical normalisation covers order, name and response.
- In-place mutation and aliasing are not modelled. The source mutates the item object shared by the store (and, in the legacy screen, by the static import). The model replaces the document with an updated value in the same step as the publish. One alias matters in the current screen. `setInspectionData(analysisResult)` (src/screens/InspectionScreen.tsx:56) makes the store's document the image store's own `analysisResult` object. Every later `questionItem.user_response = answer` (src/screens/InspectionScreen.tsx:84, :130, :190) therefore also changes `analysisResult`. In the model, `InspectionScreen.Screen.HandleAnswerChange`, `InspectionScreen.Screen.OnVisualAnswerChange` and `InspectionScreen.Screen.OnFunctionalAnswerChange` modify only the document store, so `images.analysisResult` keeps its old answers. The model does not capture that `analysisResult` follows the answers.
- React semantics are not modelled: render identity, bail-out on an unchanged value, stale closures over `inspectionData`, the scheduling of `useEffect` and of queued updaters, and double invocation of updaters in strict mode. Publishing is a `version` counter that every setter call increments.
- `useInspectionContext` and `useImageContext` take the provider as an explicit parameter, because React's context lookup is framework code.
- Camera, permission, HTTP and JWT flows are left out as I/O against external services. This includes the error payload that the legacy camera screen writes into the document. Navigation, rendering, styling, the `display_order || n` re-render keys and the debug logging are left out as view code.
- `components/inspection/FunctionalTest.tsx` has no handlers, `context/InspectionContext.js` is a subset of the modelled store, and `src/screens/LabelScreen.tsx` calls an operation that the image store does not define. None of the three is modelled.
