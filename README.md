# Text annotation session — a Dafny model

This project models the state of the `App` component of a small React text-annotation page.
The user creates named, coloured tags. They type a text and submit it. Then they mark passages of
the text with the selected tag, and the page lists every annotation under the text.

The model has four modules:

- `JsString` (`strings.dfy`) models the two JavaScript string methods the component relies on.
  `Trim` is `String.prototype.trim`, with the full ECMAScript whitespace and line-terminator set.
  `Slice` is `String.prototype.slice`, with negative positions counted from the end and clamping.
- `Annotations` (`annotations.dfy`) holds the annotation record and the `getSpan` callback.
  It also holds the annotation listing (the "Annotations" card) and the background colour of a mark.
- `Session` (`session.dfy`) holds the component state as a record and one function per handler.
  Each handler is one atomic update. The module also defines user events, the events the page offers in
  each state (`Offered`), and runs of events. Lemmas prove what holds over any run.
- `AppComponent` (`app.dfy`) holds the component as a class `App` whose fields the handler methods
  update in place. Each method's postcondition equates the new state with the `Session` function of the
  same name applied to the old state, and keeps the invariant `Valid()`. `HelloWorld` walks one session
  through the class: submit "hello world", add the tag "GREETING", annotate the first five characters, and
  list `("GREETING", "#ffcc00", "hello")`.

The invariant `Session.Valid` says three things:

- no tag has the empty name;
- the selected tag is empty or a tag of the map;
- the selected tag is empty exactly while there are no tags;
- the annotation list is empty until the text is submitted.

Two source facts establish it. The tag select offers only the tags of the map
(src/index.js:84-97). The annotator, the only caller of `handleChange`, is drawn only after
submission (src/index.js:122-125). `Offered` records both facts. It also records that
"Submit Text" is disabled while the text is blank (src/index.js:115).

The model follows what the code does, which is looser than a cautious design might be:

- A span is never rejected. The code records any span the annotator reports, even with no tag
  selected. In that case the annotation gets the tag `""` and no colour, and its mark is drawn in
  the fallback green. By the invariant this happens only before the first tag is added.
- Selecting a tag has no guard in the handler. Only the select's options restrict it.
- The session has no stage enumeration. `isTextSubmitted` is a boolean that never goes back to
  false, and the text stays editable after submission. Editing the text keeps the annotations, so
  their offsets may then point past the end of the new text; `slice` clamps them.
- The tag list has no separate listing operation. The select lists `Object.entries(tags)`.

## Model

| member | source | states |
|---|---|---|
| JsString.TrimStart | src/index.js:54 | the result is a suffix of the text that is empty or starts with a non-whitespace character, and every dropped character is whitespace |
| JsString.TrimEnd | src/index.js:54 | the result is a prefix of the text that is empty or ends with a non-whitespace character, and every dropped character is whitespace |
| JsString.Trim | src/index.js:54 | `text.trim()` is empty (falsy) exactly when the text is blank, and otherwise starts and ends with non-whitespace |
| JsString.SliceIndex | src/index.js:181 | a `slice` position lies within the string, equals the argument when in range, counts back from the end when negative, and is clamped to the length past the end and to 0 before the start |
| JsString.Slice | src/index.js:181 | `text.slice(start, end)` is `text[start..end]` for in-range positions, runs to the end of the text when the end lies past it, is empty when the end is not after the start or the start lies past the end, takes the last characters for a negative start, and is always a contiguous piece of the text |
| Annotations.GetSpan | src/index.js:134-138 | the annotation keeps the span's offsets, records the selected tag, and has a colour exactly when that tag is in the map (then the tag's colour at that moment) |
| Annotations.Listing | src/index.js:171-181 | one line per annotation in list order, each with the annotation's tag, its colour and `text.slice(start, end)` |
| Annotations.ListingAppend | src/index.js:171-181 | the listing of a concatenation is the concatenation of the listings |
| Annotations.AnnotationsCard | src/index.js:168-181 | the card is absent exactly when the list is empty, and otherwise has one line per annotation with its tag, colour and sliced passage |
| Annotations.CardOfOne | src/index.js:168-181 | a one-annotation list is drawn as a card with exactly that annotation's line |
| Annotations.MarkBackground | src/index.js:148 | a mark is never drawn without a background: its own colour when non-empty, `#a6e22d` when it has none or an empty one |
| Annotations.MarkOfSpan | src/index.js:134-148 | a span annotated under a coloured tag is marked in that tag's colour, and one annotated under no tag of the map is marked `#a6e22d` |
| Annotations.SpanListedAsSelected | src/index.js:134-138 | an in-bounds span annotated under a selected tag is listed as that tag, its colour and exactly the selected characters |
| Session.Init | src/index.js:23-31 | the session starts valid, with no tags, no selection, no annotations, an unsubmitted empty text and the colour input at `#ffcc00` |
| Session.HandleChange | src/index.js:33-35 | the list becomes exactly the argument (no merge), no other field changes, and validity is kept once the text is submitted |
| Session.HandleTagChange | src/index.js:37-39 | the selection becomes the chosen name, no other field changes, and validity is kept when the name is a tag |
| Session.HandleAddTag | src/index.js:41-51 | a new non-empty name is inserted with the chosen colour, becomes the selection, and both inputs reset to `""` and `#ffcc00`; otherwise nothing changes; old tags keep their colours, the map grows by exactly one or zero, and validity is kept |
| Session.HandleTextSubmit | src/index.js:53-57 | blank text changes nothing; otherwise the text is submitted and the annotations cleared with everything else, the text included, unchanged; submission is never undone and validity is kept |
| Session.SetNewTagName | src/index.js:72 | only the tag-name input changes |
| Session.SetNewTagColor | src/index.js:78 | only the tag-colour input changes |
| Session.SetText | src/index.js:110 | only the text changes, also after submission |
| Session.StepValid | src/index.js:33-57 | every handler keeps the state valid when the page offers its event |
| Session.RunValid | src/index.js:84-125 | over any run of offered events the selection stays empty or a tag of the map, it is empty only while there are no tags, and there are no annotations before submission |
| Session.StepTagsGrow | src/index.js:41-51 | no handler removes or recolours a tag |
| Session.RunTagsGrow | src/index.js:45 | over any run of events every tag keeps its colour |
| Session.RunKeepsSubmitted | src/index.js:53-57 | once the text is submitted it stays submitted over any run |
| Session.SnapshotStaysCurrent | src/index.js:134-138 | the colour copied into an annotation stays equal to its tag's colour in every later state |
| Session.UntaggedOnlyWithoutTags | src/index.js:41-51 | in a valid state a span gets no tag and no colour exactly while no tag exists |
| Session.ShortenTextListing | src/index.js:110 | editing the text down to a prefix keeps the annotations, and each listed passage is cut at the new end, or empty when it starts at or past it |
| Session.AnnotateThenList | src/index.js:125-181 | appending the annotation of an in-bounds span lists the old lines plus one line with the selected tag, its colour and the selected passage |
| Session.ResubmitClears | src/index.js:53-57 | typing a non-blank text and submitting it empties the list and hides the card, whatever was annotated before |
| AppComponent.App.constructor | src/index.js:23-31 | the object starts in `Session.Init()` |
| AppComponent.App.HandleChange | src/index.js:33-35 | the fields change as `Session.HandleChange` says, keeping `Valid()` |
| AppComponent.App.HandleTagChange | src/index.js:37-39 | the fields change as `Session.HandleTagChange` says, keeping `Valid()` |
| AppComponent.App.HandleAddTag | src/index.js:41-51 | the fields change as `Session.HandleAddTag` says, keeping `Valid()`, and the tag map only grows |
| AppComponent.App.HandleTextSubmit | src/index.js:53-57 | the fields change as `Session.HandleTextSubmit` says, keeping `Valid()`, and submission is never undone |
| AppComponent.App.SetNewTagName | src/index.js:72 | the fields change as `Session.SetNewTagName` says |
| AppComponent.App.SetNewTagColor | src/index.js:78 | the fields change as `Session.SetNewTagColor` says |
| AppComponent.App.SetText | src/index.js:110 | the fields change as `Session.SetText` says |

## Left out

- Session.HandleAddTag: the guard `!tags[newTagName]` is modelled as "the name is not a key of the map". In JavaScript it also rejects names inherited from `Object.prototype` (such as `"constructor"`). It tests the truthiness of the stored colour, so a tag stored with an empty colour could be added again and recoloured. The colour input never yields an empty value.
- JsString.Slice: positions count characters (Unicode scalar values), not UTF-16 code units. The two differ only for text with characters outside the Basic Multilingual Plane. Non-integer or missing offsets are not modelled.
- Annotations.GetSpan: a span carries only `start` and `end`. Any other field the annotator attaches is copied unchanged by the spread at src/index.js:135 and is not modelled.
- The annotator (`TextAnnotator` of `react-text-annotate`) is a foreign library. The model does not capture how it detects selections, how it computes the new annotation list, or how it splits the text into marks. The list reaches `handleChange` as an arbitrary argument.
- The order in which the select lists the tags (`Object.entries` insertion order) is not modelled, because the tag map is unordered.
- React's asynchronous, batched `setState` is not modelled. Each handler is one atomic update.
- Page layout, the `Card` wrapper, Bootstrap and CSS styling, and `ReactDOM.render` (src/index.js:1-20, 62-186, 191-192) are presentation only.
