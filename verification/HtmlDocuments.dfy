/** HTML input as a tree: what the parser with its stack accepts, and what it makes of it. */
module HtmlDocuments {
  import opened Text
  import opened MarkupResult
  import opened MarkupHtml

  datatype Html =
    | Nothing
    | Words(text: string, rest: Html)
    | Break(attributes: Attributes, rest: Html)
    | Element(tag: string, attributes: Attributes, body: Html, rest: Html)

  /** The tags of a document in the order in which it is written. */
  function Spelled(doc: Html): seq<Event> {
    match doc
    case Nothing => []
    case Words(text, rest) => [Data(text)] + Spelled(rest)
    case Break(attributes, rest) => [StartTag("br", attributes)] + Spelled(rest)
    case Element(tag, attributes, body, rest) =>
      [StartTag(tag, attributes)] + (Spelled(body) + ([EndTag(tag)] + Spelled(rest)))
  }

  const ELEMENTS: map<string, Kind> := map[
    "b" := Bold, "strong" := Bold, "i" := Italic, "em" := Italic, "u" := Underline, "ins" := Underline,
    "s" := Strikethrough, "strike" := Strikethrough, "del" := Strikethrough, "span" := Spoiler, "tg-spoiler" := Spoiler,
    "code" := Code, "pre" := Pre(""), "blockquote" := Blockquote]

  function Value(attributes: Attributes, name: string): string {
    if name in attributes then attributes[name] else ""
  }

  /** The language named last by a `code` directly in a `pre`. */
  function Language(doc: Html, named: string): string {
    match doc
    case Nothing => named
    case Words(_, rest) => Language(rest, named)
    case Break(_, rest) => Language(rest, named)
    case Element(tag, attributes, _, rest) =>
      var name := Value(attributes, "class");
      Language(rest, if tag == "code" && "language-" <= name then name[9..] else named)
  }

  /**
   What an element marks, if anything: a `code` directly in a `pre` marks nothing. Nothing at all if it is refused.
   */
  function Marks(lib: Library, doc: Html, inPre: bool): Option<Option<Kind>>
    requires doc.Element?
  {
    var tag, attributes := doc.tag, doc.attributes;
    if tag == "a" then Linked(LinkEntity(lib, Value(attributes, "href"), false))
    else if tag == "tg-emoji" then Linked(LinkEntity(lib, "tg://emoji?id=" + Value(attributes, "emoji-id"), true))
    else if tag == "tg-time" then
      Linked(LinkEntity(lib, "tg://time?unix=" + Value(attributes, "unix") + "&format=" + Value(attributes, "format"),
                        true))
    else if tag == "pre" then Some(Some(Pre(Language(doc.body, ""))))
    else if tag == "code" && inPre then Some(None)
    else if tag == "blockquote" && "expandable" in attributes then Some(Some(ExpandableBlockquote))
    else if tag == "span" && Value(attributes, "class") != "tg-spoiler" then None
    else if tag in ELEMENTS then Some(Some(ELEMENTS[tag]))
    else None
  }

  function Linked(link: Result<Kind, Error>): Option<Option<Kind>> {
    if link.Ok? then Some(Some(link.value)) else None
  }

  /**
   The end of an element that marks what was written since its start, if that is anything. A custom emoji must have an
   emoji for contents, which is remembered.
   */
  function Ends(lib: Library, before: Built, after: Built, kind: Option<Kind>): Option<Built>
    requires before.text <= after.text
  {
    var contents := after.text[|before.text|..];
    if kind == None then Some(after)
    else if kind.value.CustomEmoji? && !lib.isEmoji(contents) then None
    else
      var entity := Entity(kind.value, Utf16Length(before.text), Utf16Length(contents));
      Some(after.(entities := after.entities + if contents == "" then [] else [entity],
                  used := if kind.value.CustomEmoji? then after.used[kind.value.id := contents] else after.used))
  }

  /**
   What a document adds to what was written, or nothing if it is refused. Inside `pre`, `code` and `tg-emoji` text is
   literal, elsewhere its shortcuts are resolved; 65 elements may be open.
   */
  function Shows(lib: Library, doc: Html, b: Built, literal: bool, inPre: bool, depth: nat): (r: Option<Built>)
    ensures r.Some? ==> b.text <= r.value.text
  {
    match doc
    case Nothing => Some(b)
    case Words(text, rest) =>
      var added := if literal then Ok(Emit(b, text)) else AddWithIds(lib, text, 0, 0, b);
      if added.Err? then None
      else
        AddsText(lib, text, b);
        Shows(lib, rest, added.value, literal, inPre, depth)
    case Break(_, rest) => Shows(lib, rest, Emit(b, "\n"), literal, inPre, depth)
    case Element(tag, _, body, rest) =>
      var kind := Marks(lib, doc, inPre);
      if tag == "br" || kind == None || depth > 64 then None
      else
        var contents := Shows(lib, body, b, literal || tag in {"pre", "code", "tg-emoji"}, tag == "pre", depth + 1);
        if contents == None then None
        else
          var ended := Ends(lib, b, contents.value, kind.value);
          if ended == None then None else Shows(lib, rest, ended.value, literal, inPre, depth)
  }

  lemma AddsText(lib: Library, text: string, b: Built)
    ensures AddWithIds(lib, text, 0, 0, b).Ok? ==> b.text <= AddWithIds(lib, text, 0, 0, b).value.text
  {
    if AddWithIds(lib, text, 0, 0, b).Ok? { AddWithIdsGrows(lib, text, 0, 0, b); }
  }

  // ---------------------------------------------------------------- the stack

  /** The stack after a document: an open `pre` on top knows the language that was named. */
  function Named(stack: seq<OpenTag>, doc: Html): seq<OpenTag> {
    if InPre(stack) then
      var top := stack[|stack| - 1];
      stack[|stack| - 1 := top.(kind := Some(Pre(Language(doc, top.kind.value.language))))]
    else stack
  }

  function Alone(doc: Html): Html
    requires doc.Element?
  {
    Element(doc.tag, doc.attributes, doc.body, Nothing)
  }

  /** A tag marks what its element does; a `pre` learns its language later. */
  lemma TagMarks(lib: Library, doc: Html, inPre: bool)
    requires doc.Element? && doc.tag != "br"
    ensures var marks, kind := Marks(lib, doc, inPre), TagKind(lib, doc.tag, doc.attributes, inPre);
      && (kind.Ok? <==> marks.Some?)
      && (kind.Ok? ==> kind.value == if doc.tag == "pre" then Some(Pre("")) else marks.value)
  {
    hide LinkEntity;
    if doc.tag in LINKS { hide SimpleKind; } else { TagListed(doc.tag); hide SimpleKind; }
  }

  lemma TagListed(tag: string)
    ensures SimpleKind(tag) == (if tag in ELEMENTS then Some(ELEMENTS[tag]) else None)
  {
  }

  /** The language of a `code` in a `pre` is handed to it. */
  lemma TagNames(stack: seq<OpenTag>, tag: string, attributes: Attributes, body: Html)
    ensures WithLanguage(stack, tag, attributes) == Named(stack, Element(tag, attributes, body, Nothing))
  {
    if InPre(stack) {
      var n, name := |stack| - 1, Value(attributes, "class");
      var top := stack[n];
      var language := top.kind.value.language;
      assert Language(Element(tag, attributes, body, Nothing), language)
        == if tag == "code" && "language-" <= name then name[9..] else language;
      assert top.(kind := Some(Pre(language))) == top && stack[n := top] == stack;
    }
  }

  lemma {:induction false} FeedErr(lib: Library, s: State, before: seq<Event>, after: seq<Event>)
    requires Feed(lib, s, before).Err?
    ensures Feed(lib, s, before + after).Err?
    decreases |before|
  {
    hide Handle;
    assert (before + after)[1..] == before[1..] + after && (before + after)[0] == before[0];
    if Handle(lib, s, before[0]).Ok? { FeedErr(lib, Handle(lib, s, before[0]).value, before[1..], after); }
  }

  /** Closing an element does what its end means. */
  lemma TagEnds(lib: Library, before: Built, after: Built, stack: seq<OpenTag>, tag: string, kind: Option<Kind>)
    requires before.text <= after.text
    ensures var ended := Ends(lib, before, after, kind);
      var closed := Handle(lib, State(after, stack + [OpenTag(tag, kind, before.Offset())]), EndTag(tag));
      if ended == None then closed.Err? else closed == Ok(State(ended.value, stack))
  {
    var contents := after.text[|before.text|..];
    assert after.text == before.text + contents;
    TextFromIsAdded(before.text, contents);
    LengthAppend(before.text, contents);
    if contents != "" { LengthPositive(contents); }
    assert (stack + [OpenTag(tag, kind, before.Offset())])[..|stack|] == stack;
    assert after.entities + [] == after.entities;
  }

  lemma NamedKeeps(stack: seq<OpenTag>, doc: Html)
    ensures Literal(Named(stack, doc)) == Literal(stack) && InPre(Named(stack, doc)) == InPre(stack)
    ensures |Named(stack, doc)| == |stack| && (NoBreaks(stack) ==> NoBreaks(Named(stack, doc)))
  {
    var named := Named(stack, doc);
    assert forall k :: 0 <= k < |stack| ==> named[k].tag == stack[k].tag;
  }

  lemma NamedTwice(stack: seq<OpenTag>, tag: string, attributes: Attributes, body: Html, rest: Html)
    ensures Named(Named(stack, Element(tag, attributes, body, Nothing)), rest)
      == Named(stack, Element(tag, attributes, body, rest))
  {
    if InPre(stack) {
      var language := stack[|stack| - 1].kind.value.language;
      assert Language(rest, Language(Element(tag, attributes, body, Nothing), language))
        == Language(Element(tag, attributes, body, rest), language);
    }
  }

  /** What is open inside an element; a `pre` learns its language later. */
  function Inside(stack: seq<OpenTag>, doc: Html, marks: Option<Kind>, start: nat): seq<OpenTag>
    requires doc.Element?
  {
    Named(stack, Alone(doc)) + [OpenTag(doc.tag, if doc.tag == "pre" then Some(Pre("")) else marks, start)]
  }

  lemma InsideIs(lib: Library, stack: seq<OpenTag>, doc: Html, start: nat)
    requires doc.Element? && doc.tag != "br" && Marks(lib, doc, InPre(stack)).Some?
    ensures var marks := Marks(lib, doc, InPre(stack)).value; var inside := Inside(stack, doc, marks, start);
      && (Literal(inside) <==> Literal(stack) || doc.tag in {"pre", "code", "tg-emoji"})
      && (InPre(inside) <==> doc.tag == "pre") && |inside| == |stack| + 1 && (NoBreaks(stack) ==> NoBreaks(inside))
      && Named(inside, doc.body) == Named(stack, Alone(doc)) + [OpenTag(doc.tag, marks, start)]
  {
    hide LinkEntity;
    var marks := Marks(lib, doc, InPre(stack)).value;
    MarksNoPre(lib, doc, InPre(stack));
    var outer := Named(stack, Alone(doc));
    NamedKeeps(stack, Alone(doc));
    var top := OpenTag(doc.tag, if doc.tag == "pre" then Some(Pre("")) else marks, start);
    LiteralOn(outer, top);
    hide Marks;
  }

  lemma StartOpens(lib: Library, s: State, doc: Html)
    requires doc.Element? && doc.tag != "br"
    ensures var marks, handled := Marks(lib, doc, InPre(s.stack)), Handle(lib, s, StartTag(doc.tag, doc.attributes));
      if marks == None || |s.stack| > 64 then handled.Err?
      else handled == Ok(State(s.built, Inside(s.stack, doc, marks.value, s.built.Offset())))
  {
    TagMarks(lib, doc, InPre(s.stack));
    TagNames(s.stack, doc.tag, doc.attributes, doc.body);
    hide Marks, TagKind, WithLanguage, Named;
  }

  lemma MarksNoPre(lib: Library, doc: Html, inPre: bool)
    requires doc.Element? && Marks(lib, doc, inPre).Some?
    ensures doc.tag == "pre" ==> Marks(lib, doc, inPre).value == Some(Pre(Language(doc.body, "")))
    ensures doc.tag != "pre" && Marks(lib, doc, inPre).value.Some? ==> !Marks(lib, doc, inPre).value.value.Pre?
  {
  }

  lemma LiteralOn(stack: seq<OpenTag>, top: OpenTag)
    ensures Literal(stack + [top]) <==> Literal(stack) || top.tag in {"pre", "code", "tg-emoji"}
  {
    if k :| 0 <= k < |stack| && stack[k].tag in {"pre", "code", "tg-emoji"} {
      assert (stack + [top])[k].tag in {"pre", "code", "tg-emoji"};
    }
    assert (stack + [top])[|stack|] == top;
  }

  ghost predicate NoBreaks(stack: seq<OpenTag>) {
    forall k :: 0 <= k < |stack| ==> stack[k].tag != "br"
  }

  /** The parser shows a document as the tree does, whatever is open around it. */
  lemma {:induction false} FeedShows(lib: Library, s: State, doc: Html)
    requires NoBreaks(s.stack)
    ensures var shown, fed :=
      Shows(lib, doc, s.built, Literal(s.stack), InPre(s.stack), |s.stack|), Feed(lib, s, Spelled(doc));
      if shown == None then fed.Err? else fed == Ok(State(shown.value, Named(s.stack, doc)))
    decreases doc, 1
  {
    match doc
    case Nothing => assert InPre(s.stack) ==> Named(s.stack, doc) == s.stack by { NamedNothing(s.stack); }
    case Words(text, rest) =>
      assert Spelled(doc)[1..] == Spelled(rest);
      var next := Handle(lib, s, Data(text));
      if next.Ok? { FeedShows(lib, next.value, rest); }
      hide AddWithIds, Literal;
    case Break(attributes, rest) =>
      assert Spelled(doc)[1..] == Spelled(rest);
      FeedShows(lib, s.(built := Emit(s.built, "\n")), rest);
    case Element(tag, attributes, body, rest) =>
      if tag == "br" { FeedBreak(lib, s, doc); } else { FeedInside(lib, s, doc); }
  }

  lemma NamedNothing(stack: seq<OpenTag>)
    ensures Named(stack, Nothing) == stack
  {
    if InPre(stack) {
      var top := stack[|stack| - 1];
      assert top.(kind := Some(Pre(top.kind.value.language))) == top && stack[|stack| - 1 := top] == stack;
    }
  }

  /** An element read part by part. */
  lemma FeedParts(lib: Library, s: State, open: Event, inner: seq<Event>, close: Event, more: seq<Event>)
    ensures var fed := Feed(lib, s, [open] + (inner + ([close] + more)));
      match Handle(lib, s, open)
      case Err(_) => fed.Err?
      case Ok(s1) =>
        match Feed(lib, s1, inner)
        case Err(_) => fed.Err?
        case Ok(s2) => (match Handle(lib, s2, close)
          case Err(_) => fed.Err?
          case Ok(s3) => fed == Feed(lib, s3, more))
  {
    hide Handle;
    var events := [open] + (inner + ([close] + more));
    assert events[1..] == inner + ([close] + more) && ([close] + more)[1..] == more;
    if Handle(lib, s, open).Ok? {
      var s1 := Handle(lib, s, open).value;
      if Feed(lib, s1, inner).Ok? {
        FeedAppend(lib, s1, inner, [close] + more);
      } else {
        FeedErr(lib, s1, inner, [close] + more);
      }
    }
  }

  /** `br` has no contents: its end has nothing to close. */
  lemma {:induction false} FeedBreak(lib: Library, s: State, doc: Html)
    requires NoBreaks(s.stack) && doc.Element? && doc.tag == "br"
    ensures Feed(lib, s, Spelled(doc)).Err?
    decreases doc, 0
  {
    var next := s.(built := Emit(s.built, "\n"));
    FeedParts(lib, s, StartTag("br", doc.attributes), Spelled(doc.body), EndTag("br"), Spelled(doc.rest));
    assert Handle(lib, s, StartTag("br", doc.attributes)) == Ok(next);
    FeedShows(lib, next, doc.body);
    NamedKeeps(s.stack, doc.body);
    hide Shows, Feed;
  }

  lemma {:induction false} FeedInside(lib: Library, s: State, doc: Html)
    requires NoBreaks(s.stack) && doc.Element? && doc.tag != "br"
    ensures var shown, fed :=
      Shows(lib, doc, s.built, Literal(s.stack), InPre(s.stack), |s.stack|), Feed(lib, s, Spelled(doc));
      if shown == None then fed.Err? else fed == Ok(State(shown.value, Named(s.stack, doc)))
    decreases doc, 0
  {
    var marks := Marks(lib, doc, InPre(s.stack));
    FeedParts(lib, s, StartTag(doc.tag, doc.attributes), Spelled(doc.body), EndTag(doc.tag), Spelled(doc.rest));
    StartOpens(lib, s, doc);
    if marks.Some? && |s.stack| <= 64 {
      var inside := Inside(s.stack, doc, marks.value, s.built.Offset());
      InsideIs(lib, s.stack, doc, s.built.Offset());
      FeedShows(lib, State(s.built, inside), doc.body);
      var contents := Shows(lib, doc.body, s.built, Literal(inside), InPre(inside), |inside|);
      if contents.Some? { FeedAfter(lib, s, doc, contents.value, marks.value); }
    }
    hide Feed, Handle, Marks, Ends, Literal, InPre, Named, NoBreaks, Inside;
  }

  /** The end of an element and what follows it. */
  lemma {:induction false} FeedAfter(lib: Library, s: State, doc: Html, contents: Built, marks: Option<Kind>)
    requires NoBreaks(s.stack) && doc.Element? && s.built.text <= contents.text
    ensures var ended := Ends(lib, s.built, contents, marks);
      var end := Handle(lib, State(contents, Named(s.stack, Alone(doc)) + [OpenTag(doc.tag, marks, s.built.Offset())]),
                        EndTag(doc.tag));
      if ended == None then end.Err?
      else
        && end.Ok?
        && var shown := Shows(lib, doc.rest, ended.value, Literal(s.stack), InPre(s.stack), |s.stack|);
           if shown == None then Feed(lib, end.value, Spelled(doc.rest)).Err?
           else Feed(lib, end.value, Spelled(doc.rest)) == Ok(State(shown.value, Named(s.stack, doc)))
    decreases doc.rest, 2
  {
    var outer, ended := Named(s.stack, Alone(doc)), Ends(lib, s.built, contents, marks);
    NamedKeeps(s.stack, Alone(doc));
    TagEnds(lib, s.built, contents, outer, doc.tag, marks);
    if ended.Some? {
      FeedShows(lib, State(ended.value, outer), doc.rest);
      NamedTwice(s.stack, doc.tag, doc.attributes, doc.body, doc.rest);
    }
    hide Feed, Handle, Shows, Ends, Literal, InPre, Named, NoBreaks;
  }

  // ---------------------------------------------------------------- what is accepted

  function Tags(stack: seq<OpenTag>): seq<string> {
    seq(|stack|, k requires 0 <= k < |stack| => stack[k].tag)
  }

  /** What is still to come while tags are open: the rest of the innermost element and its end, and so on outwards. */
  function Unwound(docs: seq<Html>, tags: seq<string>): seq<Event>
    requires |docs| == |tags| + 1
  {
    var n := |tags|;
    Spelled(docs[n]) + if n == 0 then [] else [EndTag(tags[n - 1])] + Unwound(docs[..n], tags[..n - 1])
  }

  lemma UnwoundFirst(docs: seq<Html>, tags: seq<string>, first: Html, event: Event)
    requires |docs| == |tags| + 1 && Spelled(first) == [event] + Spelled(docs[|tags|])
    ensures Unwound(docs[|tags| := first], tags) == [event] + Unwound(docs, tags)
  {
    var n := |tags|;
    assert docs[n := first][..n] == docs[..n];
  }

  /** Events that are accepted until nothing is open are documents, closed one after another. */
  lemma {:induction false} AcceptedUnwinds(lib: Library, s: State, events: seq<Event>) returns (docs: seq<Html>)
    requires Feed(lib, s, events).Ok? && Feed(lib, s, events).value.stack == []
    ensures |docs| == |s.stack| + 1 && events == Unwound(docs, Tags(s.stack))
    decreases |events|
  {
    var n := |s.stack|;
    if events == [] {
      return [Nothing];
    }
    var s' := Handle(lib, s, events[0]).value;
    assert events == [events[0]] + events[1..];
    docs := AcceptedUnwinds(lib, s', events[1..]);
    TagsAfter(lib, s, events[0]);
    hide Feed, Handle, Unwound;
    var tags := Tags(s.stack);
    match events[0]
    case Data(text) =>
      UnwoundFirst(docs, tags, Words(text, docs[n]), events[0]);
      docs := docs[n := Words(text, docs[n])];
    case EndTag(tag) =>
      EndFirst(docs, tags);
      docs := docs + [Nothing];
    case StartTag(tag, attributes) =>
      if tag == "br" {
        UnwoundFirst(docs, tags, Break(attributes, docs[n]), events[0]);
        docs := docs[n := Break(attributes, docs[n])];
      } else {
        StartFirst(docs, tags, tag, attributes);
        docs := docs[..n] + [Element(tag, attributes, docs[n + 1], docs[n])];
      }
  }

  lemma EndFirst(docs: seq<Html>, tags: seq<string>)
    requires |docs| == |tags| > 0
    ensures Unwound(docs + [Nothing], tags) == [EndTag(tags[|tags| - 1])] + Unwound(docs, tags[..|tags| - 1])
  {
    assert (docs + [Nothing])[..|tags|] == docs;
  }

  lemma StartFirst(docs: seq<Html>, tags: seq<string>, tag: string, attributes: Attributes)
    requires |docs| == |tags| + 2
    ensures var n := |tags|;
      Unwound(docs[..n] + [Element(tag, attributes, docs[n + 1], docs[n])], tags)
        == [StartTag(tag, attributes)] + Unwound(docs, tags + [tag])
  {
    var n := |tags|;
    var element := Element(tag, attributes, docs[n + 1], docs[n]);
    var start, inner, end, after := [StartTag(tag, attributes)], Spelled(docs[n + 1]), [EndTag(tag)], Spelled(docs[n]);
    var more := if n == 0 then [] else [EndTag(tags[n - 1])] + Unwound(docs[..n], tags[..n - 1]);
    InnerUnwound(docs, tags, tag);
    assert (docs[..n] + [element])[..n] == docs[..n];
    assert Unwound(docs[..n] + [element], tags) == (start + (inner + (end + after))) + more;
    hide Unwound, Spelled;
    Regroup(start, inner, end, after, more);
  }

  lemma InnerUnwound(docs: seq<Html>, tags: seq<string>, tag: string)
    requires |docs| == |tags| + 2
    ensures var n := |tags|; var more := if n == 0 then []
                                         else [EndTag(tags[n - 1])] + Unwound(docs[..n], tags[..n - 1]);
      Unwound(docs, tags + [tag]) == Spelled(docs[n + 1]) + ([EndTag(tag)] + (Spelled(docs[n]) + more))
  {
    var n := |tags|;
    assert (tags + [tag])[..n] == tags && docs[..n + 1][..n] == docs[..n];
    var more := if n == 0 then [] else [EndTag(tags[n - 1])] + Unwound(docs[..n], tags[..n - 1]);
    assert Unwound(docs[..n + 1], tags) == Spelled(docs[n]) + more;
    hide Spelled;
  }

  lemma Regroup<T>(a: seq<T>, b: seq<T>, c: seq<T>, d: seq<T>, e: seq<T>)
    ensures (a + (b + (c + d))) + e == a + (b + (c + (d + e)))
  {
  }

  /** The tags open after an event. */
  lemma TagsAfter(lib: Library, s: State, event: Event)
    requires Handle(lib, s, event).Ok?
    ensures var n, tags := |s.stack|, Tags(Handle(lib, s, event).value.stack);
      match event
      case StartTag(tag, _) => tags == if tag == "br" then Tags(s.stack) else Tags(s.stack) + [tag]
      case EndTag(tag) => n > 0 && tags == Tags(s.stack)[..n - 1] && Tags(s.stack)[n - 1] == tag
      case Data(_) => tags == Tags(s.stack)
      case Remark => false
  {
    hide AddWithIds, TagKind;
  }

  /**
   The parser accepts exactly the tags of documents that can be shown, and makes of them what is shown: well nested,
   every element known, with a usable address or emoji where it needs one, and at most 65 deep.
   */
  lemma HtmlExactly(lib: Library, events: seq<Event>, b: Built)
    ensures ParseEvents(lib, events, b).Ok? <==>
      exists doc :: events == Spelled(doc) && Shows(lib, doc, b, false, false, 0).Some?
    ensures forall doc | events == Spelled(doc) && ParseEvents(lib, events, b).Ok? ::
      Shows(lib, doc, b, false, false, 0) == Some(ParseEvents(lib, events, b).value)
  {
    var s := State(b, []);
    assert !Literal(s.stack) && !InPre(s.stack);
    forall doc | events == Spelled(doc)
      ensures var shown := Shows(lib, doc, b, false, false, 0);
        if shown == None then ParseEvents(lib, events, b).Err? else ParseEvents(lib, events, b) == Ok(shown.value)
    {
      FeedShows(lib, s, doc);
    }
    if ParseEvents(lib, events, b).Ok? {
      var docs := AcceptedUnwinds(lib, s, events);
      assert events == Spelled(docs[0]);
    }
    hide Feed, Shows;
  }
}
