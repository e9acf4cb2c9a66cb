/** Annotations and the pure views over them: turning a span the annotator
    reports into an annotation (`getSpan`), the annotation listing drawn
    under the annotator, and the background colour of a mark. */
module Annotations {
  import opened JsString

  datatype Option<T> = None | Some(value: T)

  /** Background of a mark whose annotation has no (or an empty) colour. */
  const FallbackMarkColor := "#a6e22d"

  /** A selection the annotator reports: character offsets into the text.
      Nothing bounds or orders them; the annotator is trusted for that. */
  datatype Span = Span(start: int, end: int)

  /** One element of the annotation list: the span's offsets, the tag name
      and the tag's colour, which is absent when the tag named no entry of
      the tag map (the JavaScript `undefined`). */
  datatype Annotation = Annotation(start: int, end: int, tag: string, color: Option<string>)

  /** One line of the annotation listing: the tag name in bold, the colour
      as the line's background, and the annotated passage of the text. */
  datatype Entry = Entry(tag: string, color: Option<string>, passage: string)

  /** The `getSpan` callback: keeps the span's offsets and records the tag
      selected and that tag's colour as they are when the span is made. */
  function GetSpan(span: Span, tag: string, tags: map<string, string>): (a: Annotation)
    ensures a.start == span.start && a.end == span.end && a.tag == tag
    ensures a.color.Some? <==> tag in tags
    ensures a.color.Some? ==> a.color.value == tags[tag]
  {
    Annotation(span.start, span.end, tag, if tag in tags then Some(tags[tag]) else None)
  }

  /** The listing line for one annotation: its passage is `text.slice(start, end)`. */
  function EntryOf(a: Annotation, text: string): Entry {
    Entry(a.tag, a.color, Slice(text, a.start, a.end))
  }

  /** `value.map(...)`: one line per annotation, in list order. */
  function Listing(value: seq<Annotation>, text: string): (entries: seq<Entry>)
    ensures |entries| == |value|
    ensures forall i :: 0 <= i < |value| ==> entries[i] == EntryOf(value[i], text)
  {
    if value == [] then [] else [EntryOf(value[0], text)] + Listing(value[1..], text)
  }

  /** Listing a concatenation lists each part in turn. */
  lemma ListingAppend(v: seq<Annotation>, w: seq<Annotation>, text: string)
    ensures Listing(v + w, text) == Listing(v, text) + Listing(w, text)
  {
  }

  /** The "Annotations" card: drawn only when the list is non-empty, and
      then holding the listing of every annotation. */
  function AnnotationsCard(value: seq<Annotation>, text: string): (card: Option<seq<Entry>>)
    ensures card.None? <==> value == []
    ensures card.Some? ==> |card.value| == |value|
    ensures forall i :: card.Some? && 0 <= i < |value| ==>
              card.value[i].tag == value[i].tag &&
              card.value[i].color == value[i].color &&
              card.value[i].passage == Slice(text, value[i].start, value[i].end)
  {
    if |value| > 0 then Some(Listing(value, text)) else None
  }

  /** A list of one annotation is drawn as a card of one line. */
  lemma CardOfOne(a: Annotation, text: string)
    ensures AnnotationsCard([a], text) == Some([EntryOf(a, text)])
  {
    assert Listing([a], text) == [EntryOf(a, text)];
  }

  /** `renderMark`'s background: the annotation's colour when it has a
      non-empty one, the fallback green otherwise. */
  function MarkBackground(color: Option<string>): (bg: string)
    ensures bg != []
    ensures color.Some? && color.value != [] ==> bg == color.value
    ensures color.None? ==> bg == FallbackMarkColor
    ensures color.Some? && color.value == [] ==> bg == FallbackMarkColor
  {
    match color
    case Some(c) => if c != [] then c else FallbackMarkColor
    case None => FallbackMarkColor
  }

  /** A span made while a tag with a colour is selected is marked in that
      colour; one made while no entry is selected is marked in the fallback. */
  lemma MarkOfSpan(span: Span, tag: string, tags: map<string, string>)
    ensures tag in tags && tags[tag] != [] ==> MarkBackground(GetSpan(span, tag, tags).color) == tags[tag]
    ensures tag !in tags ==> MarkBackground(GetSpan(span, tag, tags).color) == FallbackMarkColor
  {
  }

  /** Annotating a span in bounds and listing it yields the selected tag,
      its colour and exactly the selected characters of the text. */
  lemma SpanListedAsSelected(span: Span, tag: string, tags: map<string, string>, text: string)
    requires 0 <= span.start <= span.end <= |text|
    requires tag in tags
    ensures EntryOf(GetSpan(span, tag, tags), text) == Entry(tag, Some(tags[tag]), text[span.start..span.end])
  {
  }
}
