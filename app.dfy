/** The `App` component as an object: its state fields, updated in place
    by one method per handler. Each method is specified by the function of
    the same name in `Session`, whose properties are proved there. */
module AppComponent {
  import opened JsString
  import opened Annotations
  import Session

  class App {
    var value: seq<Annotation>
    var tag: string
    var tags: map<string, string>
    var newTagName: string
    var newTagColor: string
    var text: string
    var isTextSubmitted: bool

    /** The fields as one state record. */
    function Snapshot(): Session.State
      reads this
    {
      Session.State(value, tag, tags, newTagName, newTagColor, text, isTextSubmitted)
    }

    ghost predicate Valid()
      reads this
    {
      Session.Valid(Snapshot())
    }

    /** The initial `state` of the component. */
    constructor ()
      ensures Valid() && Snapshot() == Session.Init()
    {
      value := [];
      tag := "";
      tags := map[];
      newTagName := "";
      newTagColor := Session.DefaultTagColor;
      text := "";
      isTextSubmitted := false;
    }

    /** `handleChange`, called only by the annotator, which is drawn once the
        text is submitted. */
    method HandleChange(newValue: seq<Annotation>)
      requires Valid() && isTextSubmitted
      modifies this
      ensures Valid() && Snapshot() == Session.HandleChange(old(Snapshot()), newValue)
    {
      value := newValue;
    }

    /** `handleTagChange`, called only by the tag select, whose options are
        the tags of the map. */
    method HandleTagChange(name: string)
      requires Valid() && name in tags
      modifies this
      ensures Valid() && Snapshot() == Session.HandleTagChange(old(Snapshot()), name)
    {
      tag := name;
    }

    /** `handleAddTag`. */
    method HandleAddTag()
      requires Valid()
      modifies this
      ensures Valid() && Snapshot() == Session.HandleAddTag(old(Snapshot()))
      ensures Session.TagsExtend(old(tags), tags)
    {
      if Session.CanAddTag(Snapshot()) {
        tags := tags[newTagName := newTagColor];
        tag := newTagName;
        newTagName := "";
        newTagColor := Session.DefaultTagColor;
      }
    }

    /** `handleTextSubmit`. */
    method HandleTextSubmit()
      requires Valid()
      modifies this
      ensures Valid() && Snapshot() == Session.HandleTextSubmit(old(Snapshot()))
      ensures old(isTextSubmitted) ==> isTextSubmitted
    {
      if Session.CanSubmitText(Snapshot()) {
        isTextSubmitted := true;
        value := [];
      }
    }

    /** The `onChange` of the tag-name input. */
    method SetNewTagName(name: string)
      requires Valid()
      modifies this
      ensures Valid() && Snapshot() == Session.SetNewTagName(old(Snapshot()), name)
    {
      newTagName := name;
    }

    /** The `onChange` of the tag-colour input. */
    method SetNewTagColor(color: string)
      requires Valid()
      modifies this
      ensures Valid() && Snapshot() == Session.SetNewTagColor(old(Snapshot()), color)
    {
      newTagColor := color;
    }

    /** The `onChange` of the text area. */
    method SetText(newText: string)
      requires Valid()
      modifies this
      ensures Valid() && Snapshot() == Session.SetText(old(Snapshot()), newText)
    {
      text := newText;
    }
  }

  /** A session on the page: type a text, submit it, create a tag, select
      the first five characters, and read the listing. */
  method HelloWorld() {
    var app := new App();
    app.SetText("hello world");
    assert !IsWhitespace("hello world"[0]);
    app.HandleTextSubmit();
    assert app.isTextSubmitted;
    app.SetNewTagName("GREETING");
    app.HandleAddTag();
    assert app.tag == "GREETING" && app.tags["GREETING"] == "#ffcc00";
    var a := GetSpan(Span(0, 5), app.tag, app.tags);
    assert a == Annotation(0, 5, "GREETING", Some("#ffcc00"));
    app.HandleChange(app.value + [a]);
    assert app.value == [a] && app.text == "hello world";
    CardOfOne(a, app.text);
    assert Slice("hello world", 0, 5) == "hello";
    assert AnnotationsCard(app.value, app.text) == Some([Entry("GREETING", Some("#ffcc00"), "hello")]);
  }
}
