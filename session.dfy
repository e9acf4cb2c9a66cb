/** The annotation session: the state record of the `App` component, one
    function per handler giving the state after it runs as one atomic
    update, and what holds over any sequence of user events the page
    offers. */
module Session {
  import opened JsString
  import opened Annotations

  /** Colour the "new tag" colour input starts at and is reset to. */
  const DefaultTagColor := "#ffcc00"

  /** The component state: the annotation list, the selected tag, the tag
      map (name to colour), the two "new tag" inputs, the text, and whether
      the text has been submitted. */
  datatype State = State(
    value: seq<Annotation>,
    tag: string,
    tags: map<string, string>,
    newTagName: string,
    newTagColor: string,
    text: string,
    isTextSubmitted: bool)

  /** What every handler keeps: no tag has the empty name, the selection is
      empty or a tag of the map, it is empty only while there are no tags,
      and there are no annotations before the text is submitted. */
  predicate Valid(s: State) {
    && "" !in s.tags
    && (s.tag == "" || s.tag in s.tags)
    && (s.tag == "" <==> s.tags == map[])
    && (!s.isTextSubmitted ==> s.value == [])
  }

  /** `b` keeps every tag of `a` with its colour. */
  predicate TagsExtend(a: map<string, string>, b: map<string, string>) {
    forall name :: name in a ==> name in b && b[name] == a[name]
  }

  /** The state the component starts in. */
  function Init(): (s: State)
    ensures Valid(s)
    ensures s.value == [] && s.tags == map[] && s.tag == "" && !s.isTextSubmitted
    ensures s.newTagName == "" && s.newTagColor == DefaultTagColor && s.text == ""
  {
    State([], "", map[], "", DefaultTagColor, "", false)
  }

  /** `handleChange`: the annotator's new list replaces the old one
      wholesale; nothing else changes. */
  function HandleChange(s: State, value: seq<Annotation>): (t: State)
    ensures t.value == value
    ensures t.(value := s.value) == s
    ensures Valid(s) && s.isTextSubmitted ==> Valid(t)
  {
    s.(value := value)
  }

  /** `handleTagChange`: selects the named tag; nothing else changes. */
  function HandleTagChange(s: State, name: string): (t: State)
    ensures t.tag == name
    ensures t.(tag := s.tag) == s
    ensures Valid(s) && name in s.tags ==> Valid(t)
  {
    s.(tag := name)
  }

  /** The guard of `handleAddTag`: a non-empty name that is not a tag yet. */
  predicate CanAddTag(s: State) {
    s.newTagName != "" && s.newTagName !in s.tags
  }

  /** `handleAddTag`: when the name is new and non-empty, inserts it with
      the chosen colour, selects it and resets both inputs; otherwise
      nothing changes. The tags only ever grow. */
  function HandleAddTag(s: State): (t: State)
    ensures CanAddTag(s) ==>
              && t.tags.Keys == s.tags.Keys + {s.newTagName}
              && t.tags[s.newTagName] == s.newTagColor
              && t.tag == s.newTagName
              && t.newTagName == "" && t.newTagColor == DefaultTagColor
              && t.value == s.value && t.text == s.text && t.isTextSubmitted == s.isTextSubmitted
    ensures !CanAddTag(s) ==> t == s
    ensures TagsExtend(s.tags, t.tags)
    ensures |t.tags| == if CanAddTag(s) then |s.tags| + 1 else |s.tags|
    ensures Valid(s) ==> Valid(t)
  {
    if CanAddTag(s) then
      s.(tags := s.tags[s.newTagName := s.newTagColor],
         newTagName := "",
         newTagColor := DefaultTagColor,
         tag := s.newTagName)
    else
      s
  }

  /** The guard of `handleTextSubmit`, which also enables "Submit Text":
      `text.trim()` is non-empty. */
  predicate CanSubmitText(s: State) {
    Trim(s.text) != ""
  }

  /** `handleTextSubmit`: blank text changes nothing; otherwise the text is
      marked submitted and the annotations are cleared, the text itself is
      kept. */
  function HandleTextSubmit(s: State): (t: State)
    ensures IsBlank(s.text) ==> t == s
    ensures !IsBlank(s.text) ==> t.isTextSubmitted && t.value == [] && t.(isTextSubmitted := s.isTextSubmitted, value := s.value) == s
    ensures s.isTextSubmitted ==> t.isTextSubmitted
    ensures Valid(s) ==> Valid(t)
  {
    if CanSubmitText(s) then s.(isTextSubmitted := true, value := []) else s
  }

  /** Typing in the tag-name input. */
  function SetNewTagName(s: State, name: string): (t: State)
    ensures t.newTagName == name && t.(newTagName := s.newTagName) == s
    ensures Valid(s) ==> Valid(t)
  {
    s.(newTagName := name)
  }

  /** Picking in the tag-colour input. */
  function SetNewTagColor(s: State, color: string): (t: State)
    ensures t.newTagColor == color && t.(newTagColor := s.newTagColor) == s
    ensures Valid(s) ==> Valid(t)
  {
    s.(newTagColor := color)
  }

  /** Typing in the text area; it stays editable after submission. */
  function SetText(s: State, text: string): (t: State)
    ensures t.text == text && t.(text := s.text) == s
    ensures Valid(s) ==> Valid(t)
  {
    s.(text := text)
  }

  /** A user event on the page, with the handler it triggers. */
  datatype Event =
    | Annotate(value: seq<Annotation>)  // the annotator reports a new list
    | SelectTag(name: string)           // an option of the tag select is chosen
    | ClickAddTag                       // "Add Tag"
    | ClickSubmitText                   // "Submit Text"
    | EnterTagName(name: string)
    | PickTagColor(color: string)
    | EnterText(text: string)

  /** Whether the page lets the user raise `e` in state `s`: the annotator
      is drawn only once the text is submitted, the select offers only the
      tags of the map, and "Submit Text" is disabled while the text is blank. */
  predicate Offered(s: State, e: Event) {
    match e
    case Annotate(_) => s.isTextSubmitted
    case SelectTag(name) => name in s.tags
    case ClickSubmitText => CanSubmitText(s)
    case _ => true
  }

  /** The state after the handler of `e` runs. */
  function Step(s: State, e: Event): State {
    match e
    case Annotate(value) => HandleChange(s, value)
    case SelectTag(name) => HandleTagChange(s, name)
    case ClickAddTag => HandleAddTag(s)
    case ClickSubmitText => HandleTextSubmit(s)
    case EnterTagName(name) => SetNewTagName(s, name)
    case PickTagColor(color) => SetNewTagColor(s, color)
    case EnterText(text) => SetText(s, text)
  }

  /** Every handler keeps the state valid when its event is offered. */
  lemma StepValid(s: State, e: Event)
    requires Valid(s) && Offered(s, e)
    ensures Valid(Step(s, e))
  {
  }

  /** The state after a sequence of events, one handler after another. */
  function Run(s: State, events: seq<Event>): State
    decreases |events|
  {
    if events == [] then s else Run(Step(s, events[0]), events[1..])
  }

  /** Each event of the sequence is offered in the state it is raised in. */
  predicate Playable(s: State, events: seq<Event>)
    decreases |events|
  {
    events == [] || (Offered(s, events[0]) && Playable(Step(s, events[0]), events[1..]))
  }

  /** Any sequence of offered events keeps the state valid: in particular
      the selected tag is always empty or a tag of the map. */
  lemma {:induction false} RunValid(s: State, events: seq<Event>)
    requires Valid(s) && Playable(s, events)
    ensures Valid(Run(s, events))
    decreases |events|
  {
    if events != [] {
      StepValid(s, events[0]);
      RunValid(Step(s, events[0]), events[1..]);
    }
  }

  lemma TagsExtendTransitive(a: map<string, string>, b: map<string, string>, c: map<string, string>)
    requires TagsExtend(a, b) && TagsExtend(b, c)
    ensures TagsExtend(a, c)
  {
  }

  /** No handler removes or recolours a tag. */
  lemma StepTagsGrow(s: State, e: Event)
    ensures TagsExtend(s.tags, Step(s, e).tags)
  {
  }

  /** So over any sequence of events the tags only grow. */
  lemma {:induction false} RunTagsGrow(s: State, events: seq<Event>)
    ensures TagsExtend(s.tags, Run(s, events).tags)
    decreases |events|
  {
    if events != [] {
      var t := Step(s, events[0]);
      StepTagsGrow(s, events[0]);
      RunTagsGrow(t, events[1..]);
      TagsExtendTransitive(s.tags, t.tags, Run(t, events[1..]).tags);
    }
  }

  /** Once submitted, the text stays submitted. */
  lemma {:induction false} RunKeepsSubmitted(s: State, events: seq<Event>)
    requires s.isTextSubmitted
    ensures Run(s, events).isTextSubmitted
    decreases |events|
  {
    if events != [] {
      var t := Step(s, events[0]);
      assert t.isTextSubmitted by {
        match events[0]
        case Annotate(value) =>
        case SelectTag(name) =>
        case ClickAddTag =>
        case ClickSubmitText =>
        case EnterTagName(name) =>
        case PickTagColor(color) =>
        case EnterText(text) =>
      }
      RunKeepsSubmitted(t, events[1..]);
    }
  }

  /** The colour `getSpan` copies into an annotation stays the colour of its
      tag whatever happens afterwards: the copy never goes stale, because no
      handler recolours or removes a tag. */
  lemma SnapshotStaysCurrent(s: State, span: Span, events: seq<Event>)
    requires s.tag in s.tags
    ensures var a, t := GetSpan(span, s.tag, s.tags), Run(s, events);
            a.tag in t.tags && a.color == Some(t.tags[a.tag])
  {
    RunTagsGrow(s, events);
  }

  /** In a valid state a span gets no tag and no colour exactly while no
      tag exists yet; once one exists, every span is annotated with a tag
      of the map and its colour. */
  lemma UntaggedOnlyWithoutTags(s: State, span: Span)
    requires Valid(s)
    ensures var a := GetSpan(span, s.tag, s.tags);
            (a.color.None? <==> s.tags == map[]) &&
            (a.tag == "" <==> s.tags == map[])
  {
  }

  /** Editing the text after annotating keeps the annotations. When the new
      text is a prefix of the old one, each listed passage is cut at the new
      end, and is empty when the annotation starts at or beyond it. */
  lemma {:induction false} ShortenTextListing(s: State, n: nat)
    requires n <= |s.text|
    requires forall i :: 0 <= i < |s.value| ==> 0 <= s.value[i].start <= s.value[i].end
    ensures var t := Step(s, EnterText(s.text[..n]));
            t.value == s.value &&
            forall i :: 0 <= i < |s.value| ==>
              Listing(t.value, t.text)[i].passage ==
                if s.value[i].start >= n then []
                else s.text[s.value[i].start..if s.value[i].end < n then s.value[i].end else n]
  {
    var text := s.text[..n];
    forall i | 0 <= i < |s.value|
      ensures Listing(s.value, text)[i].passage ==
                if s.value[i].start >= n then []
                else s.text[s.value[i].start..if s.value[i].end < n then s.value[i].end else n]
    {
      var a := s.value[i];
      if a.start < n {
        var e := if a.end < n then a.end else n;
        assert Slice(text, a.start, a.end) == text[a.start..e];
        assert text[a.start..e] == s.text[a.start..e];
      }
    }
  }

  /** The annotator's usual report after a selection: the old list with the
      new span's annotation appended. The card then lists the old lines and
      one more with the selected tag, its colour and the selected passage. */
  lemma AnnotateThenList(s: State, span: Span)
    requires Valid(s) && s.isTextSubmitted && s.tag in s.tags
    requires 0 <= span.start <= span.end <= |s.text|
    ensures var t := Step(s, Annotate(s.value + [GetSpan(span, s.tag, s.tags)]));
            Valid(t) &&
            AnnotationsCard(t.value, t.text) ==
              Some(Listing(s.value, s.text) + [Entry(s.tag, Some(s.tags[s.tag]), s.text[span.start..span.end])])
  {
    var a := GetSpan(span, s.tag, s.tags);
    ListingAppend(s.value, [a], s.text);
    assert Listing([a], s.text) == [EntryOf(a, s.text)];
    SpanListedAsSelected(span, s.tag, s.tags, s.text);
  }

  /** Submitting a non-blank text clears the annotations whatever was there
      before, and keeps the text as typed. */
  lemma ResubmitClears(s: State, text: string)
    requires !IsBlank(text)
    ensures var t := Run(s, [EnterText(text), ClickSubmitText]);
            t.value == [] && t.text == text && t.isTextSubmitted &&
            AnnotationsCard(t.value, t.text).None?
  {
    var u := Step(s, EnterText(text));
    assert Run(s, [EnterText(text), ClickSubmitText]) == Run(u, [ClickSubmitText]);
    assert Run(u, [ClickSubmitText]) == Run(Step(u, ClickSubmitText), []);
  }
}
