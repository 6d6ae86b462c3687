/**
 Telegram's HTML style: the handlers of the tag-stack parser over the events that the HTML tokenizer
 delivers, first as a function on values, then as the class that keeps a stack and writes into a builder.
 */
module MarkupHtml {
  import opened Text
  import opened MarkupResult
  import opened PreviewReading
  import opened MarkupFinish
  import opened MarkupMarkdown
  import Printed = PrintedMarkdown
  import MarkdownRoundTrip

  type Attributes = map<string, string>

  datatype Event = StartTag(tag: string, attributes: Attributes) | EndTag(tag: string) | Data(text: string) | Remark

  /** An open tag: what it will mark, if anything, and where it opened. */
  datatype OpenTag = OpenTag(tag: string, kind: Option<Kind>, start: nat)

  datatype State = State(built: Built, stack: seq<OpenTag>)

  const MAX_OPEN := 64

  /** The value of an attribute, empty when it is missing. */
  function Attribute(attributes: Attributes, name: string): string {
    if name in attributes then attributes[name] else ""
  }

  function SimpleKind(tag: string): Option<Kind> {
    if tag in {"b", "strong"} then Some(Bold)
    else if tag in {"i", "em"} then Some(Italic)
    else if tag in {"u", "ins"} then Some(Underline)
    else if tag in {"s", "strike", "del"} then Some(Strikethrough)
    else if tag in {"span", "tg-spoiler"} then Some(Spoiler)
    else if tag == "code" then Some(Code)
    else if tag == "pre" then Some(Pre(""))
    else if tag == "blockquote" then Some(Blockquote)
    else None
  }

  const LINKS: set<string> := {"a", "tg-emoji", "tg-time"}

  /** The entity of a tag that carries a link, taken from its attributes. */
  function LinkedKind(lib: Library, tag: string, attributes: Attributes): Result<Kind, Error> {
    if tag == "a" then LinkEntity(lib, Attribute(attributes, "href"), false)
    else if tag == "tg-emoji" then LinkEntity(lib, "tg://emoji?id=" + Attribute(attributes, "emoji-id"), true)
    else
      LinkEntity(lib, "tg://time?unix=" + Attribute(attributes, "unix") + "&format=" + Attribute(attributes, "format"),
                 true)
  }

  /** What a start tag will mark. `InPre` tells apart the `code` directly inside `pre`, which marks nothing itself. */
  function TagKind(lib: Library, tag: string, attributes: Attributes, inPre: bool): Result<Option<Kind>, Error> {
    if tag !in LINKS && SimpleKind(tag) == None then Err(UnsupportedTag)
    else if tag == "span" && Attribute(attributes, "class") != "tg-spoiler" then Err(UnsupportedSpan)
    else if tag in LINKS then
      match LinkedKind(lib, tag, attributes)
      case Err(e) => Err(e)
      case Ok(kind) => Ok(Some(kind))
    else if tag == "blockquote" && "expandable" in attributes then Ok(Some(ExpandableBlockquote))
    else if tag == "code" && inPre then Ok(None)
    else Ok(SimpleKind(tag))
  }

  predicate InPre(stack: seq<OpenTag>) {
    stack != [] && stack[|stack| - 1].kind.Some? && stack[|stack| - 1].kind.value.Pre?
  }

  const LANGUAGE := "language-"

  /** A `code` directly inside `pre` hands its language to it. */
  function WithLanguage(stack: seq<OpenTag>, tag: string, attributes: Attributes): (r: seq<OpenTag>)
    ensures |r| == |stack|
    ensures forall k :: 0 <= k < |stack| ==> r[k].tag == stack[k].tag && r[k].start == stack[k].start
  {
    var name := Attribute(attributes, "class");
    if tag == "code" && InPre(stack) && LANGUAGE <= name then
      stack[|stack| - 1 := stack[|stack| - 1].(kind := Some(Pre(name[|LANGUAGE|..])))]
    else stack
  }

  function Opened(lib: Library, s: State, tag: string, attributes: Attributes): Result<State, Error> {
    if tag == "br" then Ok(s.(built := Emit(s.built, "\n")))
    else
      match TagKind(lib, tag, attributes, InPre(s.stack))
      case Err(e) => Err(e)
      case Ok(kind) =>
        if |s.stack| > MAX_OPEN then Err(TooDeep)
        else Ok(s.(stack := WithLanguage(s.stack, tag, attributes) + [OpenTag(tag, kind, s.built.Offset())]))
  }

  /** The text from a UTF-16 offset on. */
  function TextFrom(text: string, offset: nat): string {
    if text == "" || offset == 0 then text
    else TextFrom(text[1..], if offset > |EncodeChar(text[0])| then offset - |EncodeChar(text[0])| else 0)
  }

  function Closed(lib: Library, s: State, tag: string): Result<State, Error> {
    var n := |s.stack|;
    if n == 0 || s.stack[n - 1].tag != tag then Err(TagOrder)
    else
      match Finished(lib, s.built, s.stack[n - 1])
      case Err(e) => Err(e)
      case Ok(built) => Ok(State(built, s.stack[..n - 1]))
  }

  /** What closing a tag does to the builder: a custom emoji is checked and recorded, any kind is marked. */
  function Finished(lib: Library, b: Built, open: OpenTag): Result<Built, Error> {
    if open.kind == None then Ok(b)
    else
      var kind := open.kind.value;
      if kind.CustomEmoji? then
        var contents := TextFrom(b.text, open.start);
        if lib.isEmoji(contents) then Ok(Mark(b.(used := b.used[kind.id := contents]), kind, open.start))
        else Err(InvalidFallback)
      else Ok(Mark(b, kind, open.start))
  }

  /** The `[ID]` shortcut at a position, with or without an emoji before it. */
  function Shortcut(lib: Library, data: string, position: nat): (m: Option<EmojiMatch>)
    ensures m.Some? ==> position < m.value.end <= |data|
  {
    var legacy := MatchLegacy(lib, data, position);
    if legacy.Some? then legacy else MatchId(data, position)
  }

  /** Adds data whose text before `start` is already added and whose shortcuts before `position` are passed. */
  function AddWithIds(lib: Library, data: string, start: nat, position: nat, b: Built): Result<Built, Error>
    requires start <= position <= |data|
    decreases |data| - position
  {
    if position == |data| then Ok(Emit(b, data[start..]))
    else
      match Shortcut(lib, data, position)
      case None => AddWithIds(lib, data, start, position + 1, b)
      case Some(m) =>
        match EmitEmoji(lib, Emit(b, data[start..position]), m.id, m.emoji)
        case Err(e) => Err(e)
        case Ok(b') => AddWithIds(lib, data, m.end, m.end, b')
  }

  predicate Literal(stack: seq<OpenTag>) {
    exists k :: 0 <= k < |stack| && stack[k].tag in {"pre", "code", "tg-emoji"}
  }

  function Shown(lib: Library, s: State, data: string): Result<State, Error> {
    if Literal(s.stack) then Ok(s.(built := Emit(s.built, data)))
    else
      match AddWithIds(lib, data, 0, 0, s.built)
      case Err(e) => Err(e)
      case Ok(built) => Ok(s.(built := built))
  }

  function Handle(lib: Library, s: State, event: Event): Result<State, Error> {
    match event
    case StartTag(tag, attributes) => Opened(lib, s, tag, attributes)
    case EndTag(tag) => Closed(lib, s, tag)
    case Data(text) => Shown(lib, s, text)
    case Remark => Err(Comment)
  }

  function Feed(lib: Library, s: State, events: seq<Event>): Result<State, Error>
    decreases |events|
  {
    if events == [] then Ok(s)
    else
      match Handle(lib, s, events[0])
      case Err(e) => Err(e)
      case Ok(s') => Feed(lib, s', events[1..])
  }

  function ParseEvents(lib: Library, events: seq<Event>, b: Built): Result<Built, Error> {
    match Feed(lib, State(b, []), events)
    case Err(e) => Err(e)
    case Ok(s) => if s.stack == [] then Ok(s.built) else Err(UnclosedTag)
  }

  // ---------------------------------------------------------------- well nested output

  /** No entity straddles the start of an open tag. */
  ghost predicate Clear(es: seq<Entity>, start: nat) {
    forall e <- es :: e.End() <= start || start <= e.offset
  }

  ghost predicate Tidy(s: State) {
    && WellFormed(s.built)
    && (forall o <- s.stack ::
        o.start <= s.built.Offset() && Boundary(s.built.text, o.start) && Clear(s.built.entities, o.start))
    && (forall i, j :: 0 <= i < j < |s.stack| ==> s.stack[i].start <= s.stack[j].start)
  }

  lemma WellFormedGrows(b: Built, b': Built)
    requires WellFormed(b) && Grows(b, b')
    ensures WellFormed(b')
  {
    var old_, new_ := b.entities, b'.entities[|b.entities|..];
    assert b'.entities == old_ + new_;
    forall e | e in old_ ensures Placed(b'.text, e) { PlacedExtend(b.text, b'.text, e); }
    forall i, j | 0 <= i < j < |b'.entities| ensures Compatible(b'.entities[i], b'.entities[j]) {
      if i < |old_| <= j {
        assert b'.entities[i] in old_ && b'.entities[j] in new_;
      } else if j < |old_| {
        assert Compatible(old_[i], old_[j]);
      } else {
        assert Compatible(new_[i - |old_|], new_[j - |old_|]);
      }
    }
  }

  lemma TidyGrows(s: State, b': Built)
    requires Tidy(s) && Grows(s.built, b')
    ensures Tidy(s.(built := b'))
  {
    WellFormedGrows(s.built, b');
    var new_ := b'.entities[|s.built.entities|..];
    assert b'.entities == s.built.entities + new_;
    forall o | o in s.stack
      ensures o.start <= b'.Offset() && Boundary(b'.text, o.start) && Clear(b'.entities, o.start)
    {
      assert b'.text == s.built.text + b'.text[|s.built.text|..];
      BoundaryExtend(s.built.text, b'.text[|s.built.text|..], o.start);
    }
  }

  lemma {:induction false} AddWithIdsGrows(lib: Library, data: string, start: nat, position: nat, b: Built)
    requires start <= position <= |data| && AddWithIds(lib, data, start, position, b).Ok?
    ensures Grows(b, AddWithIds(lib, data, start, position, b).value)
    decreases |data| - position
  {
    hide Grows, EmitEmoji, Shortcut;
    if position == |data| {
      GrowsEmit(b, data[start..]);
    } else if Shortcut(lib, data, position) == None {
      AddWithIdsGrows(lib, data, start, position + 1, b);
    } else {
      var m := Shortcut(lib, data, position).value;
      var added := Emit(b, data[start..position]);
      GrowsEmit(b, data[start..position]);
      GrowsEmoji(lib, added, m.id, m.emoji);
      var b' := EmitEmoji(lib, added, m.id, m.emoji).value;
      GrowsTrans(b, added, b');
      AddWithIdsGrows(lib, data, m.end, m.end, b');
      GrowsTrans(b, b', AddWithIds(lib, data, m.end, m.end, b').value);
    }
  }

  /** Marking from the start of the innermost open tag nests or separates it from everything marked before. */
  lemma TidyMark(s: State, kind: Kind, used: map<string, string>)
    requires Tidy(s) && s.stack != []
    ensures var n := |s.stack| - 1;
      Tidy(State(Mark(s.built.(used := used), kind, s.stack[n].start), s.stack[..n]))
  {
    var n := |s.stack| - 1;
    var start := s.stack[n].start;
    var b := Mark(s.built.(used := used), kind, start);
    if s.built.Offset() > start {
      var e := Entity(kind, start, s.built.Offset() - start);
      assert b.entities == s.built.entities + [e];
      assert Clear(s.built.entities, start);
      BoundaryEnd(b.text);
      assert Placed(b.text, e);
      CompatibleAll(s.built, e);
      hide Compatible, Placed;
    }
  }

  /** What ends with the text is compatible with everything placed before that keeps clear of its start. */
  lemma CompatibleAll(b: Built, e: Entity)
    requires WellFormed(b) && Clear(b.entities, e.offset) && e.End() == b.Offset()
    ensures forall x <- b.entities :: Compatible(x, e)
  {
    forall x | x in b.entities ensures Compatible(x, e) {
      assert Placed(b.text, x);
    }
  }

  lemma HandleTidy(lib: Library, s: State, event: Event)
    requires Tidy(s) && Handle(lib, s, event).Ok?
    ensures Tidy(Handle(lib, s, event).value)
  {
    match event
    case StartTag(tag, attributes) =>
      if tag == "br" {
        GrowsEmit(s.built, "\n");
        TidyGrows(s, Emit(s.built, "\n"));
      } else {
        OpenedTidy(lib, s, tag, attributes);
      }
    case EndTag(tag) => ClosedTidy(lib, s, tag);
    case Data(text) =>
      if Literal(s.stack) {
        GrowsEmit(s.built, text);
        TidyGrows(s, Emit(s.built, text));
      } else {
        AddWithIdsGrows(lib, text, 0, 0, s.built);
        TidyGrows(s, AddWithIds(lib, text, 0, 0, s.built).value);
      }
  }

  lemma OpenedTidy(lib: Library, s: State, tag: string, attributes: Attributes)
    requires Tidy(s) && tag != "br" && Opened(lib, s, tag, attributes).Ok?
    ensures Tidy(Opened(lib, s, tag, attributes).value)
  {
    hide TagKind, WellFormed, Boundary;
    var stack := WithLanguage(s.stack, tag, attributes);
    var s' := Opened(lib, s, tag, attributes).value;
    BoundaryEnd(s.built.text);
    forall k | 0 <= k < |s'.stack|
      ensures s'.stack[k].start <= s.built.Offset()
      ensures Boundary(s.built.text, s'.stack[k].start) && Clear(s.built.entities, s'.stack[k].start)
    {
      if k < |stack| {
        assert s.stack[k] in s.stack;
      } else {
        forall e | e in s.built.entities ensures e.End() <= s.built.Offset() { PlacedWithin(s.built, e); }
      }
    }
  }

  lemma PlacedWithin(b: Built, e: Entity)
    requires WellFormed(b) && e in b.entities
    ensures e.End() <= b.Offset()
  {
    assert Placed(b.text, e);
  }

  lemma ClosedTidy(lib: Library, s: State, tag: string)
    requires Tidy(s) && Closed(lib, s, tag).Ok?
    ensures Tidy(Closed(lib, s, tag).value)
  {
    var n := |s.stack| - 1;
    var kind := s.stack[n].kind;
    if kind.Some? {
      TidyMark(s, kind.value, Closed(lib, s, tag).value.built.used);
    }
  }

  lemma {:induction false} FeedTidy(lib: Library, s: State, events: seq<Event>)
    requires Tidy(s) && Feed(lib, s, events).Ok?
    ensures Tidy(Feed(lib, s, events).value)
    decreases |events|
  {
    hide Handle, Tidy;
    if events != [] {
      HandleTidy(lib, s, events[0]);
      FeedTidy(lib, Handle(lib, s, events[0]).value, events[1..]);
    }
  }

  /** Every accepted event sequence leaves a fresh builder well formed. */
  lemma ParseWellFormed(lib: Library, events: seq<Event>, fallbacks: map<string, string>)
    requires ParseEvents(lib, events, Built("", [], fallbacks, map[])).Ok?
    ensures WellFormed(ParseEvents(lib, events, Built("", [], fallbacks, map[])).value)
  {
    FeedTidy(lib, State(Built("", [], fallbacks, map[]), []), events);
  }

  // ---------------------------------------------------------------- the same document in both styles

  function FormatTag(format: Printed.Format): string {
    match format
    case Stars | DoubleStars => "b"
    case Underscore => "i"
    case DoubleUnderscore => "u"
    case Bars => "tg-spoiler"
    case Tilde | DoubleTilde => "s"
  }

  /** The events of a document written in HTML. */
  function Events(doc: Printed.Doc): seq<Event> {
    match doc
    case End => []
    case Plain(text, rest) => [Data(text)] + Events(rest)
    case Bare(text, rest) => [Data(text)] + Events(rest)
    case Styled(format, body, rest) =>
      [StartTag(FormatTag(format), map[])] + (Events(body) + ([EndTag(FormatTag(format))] + Events(rest)))
    case Hyperlink(url, body, rest) =>
      [StartTag("a", map["href" := url])] + (Events(body) + ([EndTag("a")] + Events(rest)))
  }

  /** No plain text of the document holds an emoji shortcut, and its links are acceptable. */
  ghost predicate Expressible(lib: Library, doc: Printed.Doc) {
    match doc
    case End => true
    case Plain(text, rest) => (forall k :: 0 <= k < |text| ==> Shortcut(lib, text, k) == None) && Expressible(lib, rest)
    case Bare(text, rest) => (forall k :: 0 <= k < |text| ==> Shortcut(lib, text, k) == None) && Expressible(lib, rest)
    case Styled(_, body, rest) => Expressible(lib, body) && Expressible(lib, rest)
    case Hyperlink(url, body, rest) =>
      LinkEntity(lib, url, false).Ok? && Expressible(lib, body) && Expressible(lib, rest)
  }

  lemma {:induction false} FeedAppend(lib: Library, s: State, before: seq<Event>, after: seq<Event>)
    requires Feed(lib, s, before).Ok?
    ensures Feed(lib, s, before + after) == Feed(lib, Feed(lib, s, before).value, after)
    decreases |before|
  {
    hide Handle;
    if before == [] {
      assert before + after == after;
    } else {
      assert (before + after)[1..] == before[1..] + after;
      FeedAppend(lib, Handle(lib, s, before[0]).value, before[1..], after);
    }
  }

  lemma {:induction false} AddPlain(lib: Library, data: string, position: nat, b: Built)
    requires position <= |data| && forall k :: 0 <= k < |data| ==> Shortcut(lib, data, k) == None
    ensures AddWithIds(lib, data, 0, position, b) == Ok(Emit(b, data))
    decreases |data| - position
  {
    hide Shortcut;
    if position < |data| { AddPlain(lib, data, position + 1, b); }
  }

  lemma FormatOpens(lib: Library, s: State, format: Printed.Format)
    requires |s.stack| <= MAX_OPEN
    ensures Handle(lib, s, StartTag(FormatTag(format), map[]))
      == Ok(s.(stack := s.stack + [OpenTag(FormatTag(format), Some(format.Kind()), s.built.Offset())]))
    ensures FormatTag(format) !in {"pre", "code", "tg-emoji", "br"}
  {
  }

  lemma LinkOpens(lib: Library, s: State, url: string)
    requires |s.stack| <= MAX_OPEN && LinkEntity(lib, url, false).Ok?
    ensures Handle(lib, s, StartTag("a", map["href" := url]))
      == Ok(s.(stack := s.stack + [OpenTag("a", Some(TextLink(url)), s.built.Offset())]))
  {
    hide LinkEntity;
    var attributes := map["href" := url];
    assert Attribute(attributes, "href") == url;
    assert LinkEntity(lib, url, false).value == TextLink(url);
  }

  lemma TagCloses(lib: Library, stack: seq<OpenTag>, b: Built, tag: string, kind: Kind, start: nat)
    requires !kind.CustomEmoji?
    ensures Handle(lib, State(b, stack + [OpenTag(tag, Some(kind), start)]), EndTag(tag))
      == Ok(State(Mark(b, kind, start), stack))
  {
    hide Mark;
    assert (stack + [OpenTag(tag, Some(kind), start)])[..|stack|] == stack;
  }

  /** An element around a document: open, contents, close, and whatever follows. */
  lemma FeedElement(lib: Library, s: State, open: Event, kind: Kind, body: Printed.Doc, more: seq<Event>)
    requires open.StartTag? && !kind.CustomEmoji?
    requires var top := OpenTag(open.tag, Some(kind), s.built.Offset());
      && Handle(lib, s, open) == Ok(s.(stack := s.stack + [top]))
      && Feed(lib, s.(stack := s.stack + [top]), Events(body))
        == Ok(State(Printed.Written(s.built, body), s.stack + [top]))
    ensures Feed(lib, s, [open] + (Events(body) + ([EndTag(open.tag)] + more)))
      == Feed(lib, State(Mark(Printed.Written(s.built, body), kind, s.built.Offset()), s.stack), more)
  {
    hide Handle, Events, Mark;
    hide Printed.Written;
    var top := OpenTag(open.tag, Some(kind), s.built.Offset());
    var close := EndTag(open.tag);
    assert ([open] + (Events(body) + ([close] + more)))[1..] == Events(body) + ([close] + more);
    FeedAppend(lib, s.(stack := s.stack + [top]), Events(body), [close] + more);
    TagCloses(lib, s.stack, Printed.Written(s.built, body), open.tag, kind, s.built.Offset());
    assert ([close] + more)[1..] == more;
  }

  /** Feeding the events of a document writes the document and leaves the stack as it was. */
  lemma {:induction false} FeedDocument(lib: Library, s: State, doc: Printed.Doc)
    requires Expressible(lib, doc) && !Literal(s.stack) && |s.stack| + Printed.Depth(doc) <= MAX_OPEN + 1
    ensures Feed(lib, s, Events(doc)) == Ok(State(Printed.Written(s.built, doc), s.stack))
    decreases doc
  {
    hide Handle, Mark, LinkEntity, Shortcut;
    match doc
    case End =>
    case Plain(text, rest) =>
      ShowPlain(lib, s, text);
      assert Events(doc)[1..] == Events(rest);
      FeedDocument(lib, s.(built := Emit(s.built, text)), rest);
    case Bare(text, rest) =>
      ShowPlain(lib, s, text);
      assert Events(doc)[1..] == Events(rest);
      FeedDocument(lib, s.(built := Emit(s.built, text)), rest);
    case Styled(format, body, rest) =>
      var top := OpenTag(FormatTag(format), Some(format.Kind()), s.built.Offset());
      FormatOpens(lib, s, format);
      StillPlain(s.stack, top);
      FeedDocument(lib, s.(stack := s.stack + [top]), body);
      FeedElement(lib, s, StartTag(FormatTag(format), map[]), format.Kind(), body, Events(rest));
      FeedDocument(lib, State(Mark(Printed.Written(s.built, body), format.Kind(), s.built.Offset()), s.stack), rest);
    case Hyperlink(url, body, rest) =>
      var top := OpenTag("a", Some(TextLink(url)), s.built.Offset());
      LinkOpens(lib, s, url);
      StillPlain(s.stack, top);
      FeedDocument(lib, s.(stack := s.stack + [top]), body);
      FeedElement(lib, s, StartTag("a", map["href" := url]), TextLink(url), body, Events(rest));
      FeedDocument(lib, State(Mark(Printed.Written(s.built, body), TextLink(url), s.built.Offset()), s.stack), rest);
  }

  lemma StillPlain(stack: seq<OpenTag>, top: OpenTag)
    requires !Literal(stack) && top.tag !in {"pre", "code", "tg-emoji"}
    ensures !Literal(stack + [top])
  {
  }

  lemma ShowPlain(lib: Library, s: State, text: string)
    requires !Literal(s.stack) && forall k :: 0 <= k < |text| ==> Shortcut(lib, text, k) == None
    ensures Handle(lib, s, Data(text)) == Ok(s.(built := Emit(s.built, text)))
  {
    AddPlain(lib, text, 0, s.built);
  }

  /** A document means the same in both styles: same text, same entities, in the same order. */
  lemma StylesAgree(lib: Library, doc: Printed.Doc, blocks: bool, fallbacks: map<string, string>)
    requires Printed.Printable(lib, doc, {}, None) && Printed.Depth(doc) <= 64 && Expressible(lib, doc)
    ensures var b := Built("", [], fallbacks, map[]);
      && ParseEvents(lib, Events(doc), b) == MarkupMarkdown.Parse(lib, Printed.Print(doc), 0, blocks, b)
      && ParseEvents(lib, Events(doc), b)
        == Ok(Built(Printed.TextOf(doc), Printed.EntitiesOf(doc, 0), fallbacks, map[]))
  {
    var b := Built("", [], fallbacks, map[]);
    FeedDocument(lib, State(b, []), doc);
    MarkdownRoundTrip.RoundTrip(lib, doc, blocks, fallbacks);
    MarkdownRoundTrip.WrittenIs(lib, b, doc, {}, None);
    assert "" + Printed.TextOf(doc) == Printed.TextOf(doc)
      && [] + Printed.EntitiesOf(doc, 0) == Printed.EntitiesOf(doc, 0);
  }

  /** The text from an offset reached earlier is exactly what was added since. */
  lemma {:induction false} TextFromIsAdded(before: string, added: string)
    ensures TextFrom(before + added, Utf16Length(before)) == added
  {
    if before == "" {
      assert before + added == added;
    } else {
      LengthPositive(before);
      assert Encode(before) == EncodeChar(before[0]) + Encode(before[1..]);
      assert (before + added)[1..] == before[1..] + added;
      TextFromIsAdded(before[1..], added);
    }
  }

  // ---------------------------------------------------------------- the parser as a class

  class TelegramHTMLParser {
    const lib: Library
    const builder: MarkupBuilder
    var stack: seq<OpenTag>

    constructor (builder: MarkupBuilder, lib: Library)
      requires builder.Valid()
      ensures this.builder == builder && this.lib == lib && stack == []
    {
      this.builder, this.lib, stack := builder, lib, [];
    }

    function View(): State
      reads this, builder
    {
      State(builder.View(), stack)
    }

    method HandleStartTag(tag: string, attributes: Attributes) returns (error: Option<Error>)
      requires builder.Valid()
      modifies this, builder
      ensures builder.Valid()
      ensures match error
        case Some(e) => Opened(lib, old(View()), tag, attributes) == Err(e)
        case None => Opened(lib, old(View()), tag, attributes) == Ok(View())
    {
      if tag == "br" {
        builder.Add("\n");
        return None;
      }
      var kind := TagKind(lib, tag, attributes, InPre(stack));
      if kind.Err? { return Some(kind.error); }
      if |stack| > MAX_OPEN { return Some(TooDeep); }
      stack := WithLanguage(stack, tag, attributes) + [OpenTag(tag, kind.value, builder.offset)];
      return None;
    }

    method HandleEndTag(tag: string) returns (error: Option<Error>)
      requires builder.Valid()
      modifies this, builder
      ensures builder.Valid()
      ensures match error
        case Some(e) => Closed(lib, old(View()), tag) == Err(e)
        case None => Closed(lib, old(View()), tag) == Ok(View())
    {
      if stack == [] || stack[|stack| - 1].tag != tag { return Some(TagOrder); }
      var open := stack[|stack| - 1];
      stack := stack[..|stack| - 1];
      if open.kind.Some? && open.kind.value.CustomEmoji? {
        var contents := TextFrom(Join(builder.chunks), open.start);
        if !lib.isEmoji(contents) { return Some(InvalidFallback); }
        builder.usedFallbacks := builder.usedFallbacks[open.kind.value.id := contents];
      }
      if open.kind.Some? {
        builder.AddEntity(open.kind.value, open.start);
      }
      return None;
    }

    method HandleData(data: string) returns (error: Option<Error>)
      requires builder.Valid()
      modifies builder
      ensures builder.Valid()
      ensures match error
        case Some(e) => Shown(lib, old(View()), data) == Err(e)
        case None => Shown(lib, old(View()), data) == Ok(View())
    {
      if exists k :: 0 <= k < |stack| && stack[k].tag in {"pre", "code", "tg-emoji"} {
        builder.Add(data);
        return None;
      }
      error := AddText(data);
    }

    /** Adds text and resolves the shortcuts found in it from left to right. */
    method AddText(data: string) returns (error: Option<Error>)
      requires builder.Valid()
      modifies builder
      ensures builder.Valid()
      ensures match error
        case Some(e) => AddWithIds(lib, data, 0, 0, old(builder.View())) == Err(e)
        case None => AddWithIds(lib, data, 0, 0, old(builder.View())) == Ok(builder.View())
    {
      hide Shortcut;
      var start, position := 0, 0;
      while position < |data|
        invariant 0 <= start <= position <= |data| && builder.Valid()
        invariant AddWithIds(lib, data, start, position, builder.View())
          == AddWithIds(lib, data, 0, 0, old(builder.View()))
      {
        var found := Shortcut(lib, data, position);
        if found.None? {
          position := position + 1;
        } else {
          builder.Add(data[start..position]);
          error := builder.Emoji(lib, found.value.id, found.value.emoji);
          if error.Some? { return; }
          start, position := found.value.end, found.value.end;
        }
      }
      builder.Add(data[start..]);
      return None;
    }

    /** The tokenizer calls the handler of each event. */
    method HandleEvent(event: Event) returns (error: Option<Error>)
      requires builder.Valid()
      modifies this, builder
      ensures builder.Valid()
      ensures match error
        case Some(e) => Handle(lib, old(View()), event) == Err(e)
        case None => Handle(lib, old(View()), event) == Ok(View())
    {
      match event
      case StartTag(tag, attributes) => error := HandleStartTag(tag, attributes);
      case EndTag(tag) => error := HandleEndTag(tag);
      case Data(text) => error := HandleData(text);
      case Remark => return Some(Comment);
    }

    method Parse(events: seq<Event>) returns (error: Option<Error>)
      requires builder.Valid() && stack == []
      modifies this, builder
      ensures builder.Valid()
      ensures match error
        case Some(e) => ParseEvents(lib, events, old(builder.View())) == Err(e)
        case None => ParseEvents(lib, events, old(builder.View())) == Ok(builder.View())
    {
      hide Handle;
      var i := 0;
      while i < |events|
        invariant 0 <= i <= |events| && builder.Valid()
        invariant Feed(lib, View(), events[i..]) == Feed(lib, State(old(builder.View()), []), events)
        decreases |events| - i
      {
        assert events[i..][1..] == events[i + 1..];
        error := HandleEvent(events[i]);
        if error.Some? { return; }
        i := i + 1;
      }
      error := if stack != [] then Some(UnclosedTag) else None;
    }
  }

  /** Nothing marked or about to be marked is an emoji whose number HTML would read as its own. */
  ghost predicate HarmlessState(s: State) {
    AllHarmless(s.built.entities) && forall o <- s.stack :: o.kind.Some? ==> Harmless(o.kind.value)
  }

  lemma {:induction false} IdsHarmless(lib: Library, data: string, start: nat, position: nat, b: Built)
    requires NumbersHarmless(lib) && AllHarmless(b.entities) && start <= position <= |data|
    requires AddWithIds(lib, data, start, position, b).Ok?
    ensures AllHarmless(AddWithIds(lib, data, start, position, b).value.entities)
    decreases |data| - position
  {
    if position < |data| {
      match Shortcut(lib, data, position)
      case None => IdsHarmless(lib, data, start, position + 1, b);
      case Some(m) =>
        IdsHarmless(lib, data, m.end, m.end, EmitEmoji(lib, Emit(b, data[start..position]), m.id, m.emoji).value);
    }
  }

  lemma HandleHarmless(lib: Library, s: State, event: Event)
    requires NumbersHarmless(lib) && HarmlessState(s) && Handle(lib, s, event).Ok?
    ensures HarmlessState(Handle(lib, s, event).value)
  {
    hide Shortcut;
    match event
    case StartTag(tag, attributes) => OpenedHarmless(lib, s, tag, attributes);
    case EndTag(tag) => hide TextFrom;
    case Data(text) => if !Literal(s.stack) { IdsHarmless(lib, text, 0, 0, s.built); }
    case Remark =>
  }

  lemma OpenedHarmless(lib: Library, s: State, tag: string, attributes: Attributes)
    requires NumbersHarmless(lib) && HarmlessState(s) && Opened(lib, s, tag, attributes).Ok?
    ensures HarmlessState(Opened(lib, s, tag, attributes).value)
  {
    if tag != "br" {
      var kind := TagKind(lib, tag, attributes, InPre(s.stack)).value;
      assert kind.Some? ==> Harmless(kind.value);
      hide TagKind, NumbersHarmless;
      var stack := WithLanguage(s.stack, tag, attributes);
      forall o | o in stack ensures o.kind.Some? ==> Harmless(o.kind.value) {
        if o !in s.stack { assert o.kind.value.Pre?; }
      }
    }
  }

  lemma {:induction false} FeedHarmless(lib: Library, s: State, events: seq<Event>)
    requires NumbersHarmless(lib) && HarmlessState(s) && Feed(lib, s, events).Ok?
    ensures HarmlessState(Feed(lib, s, events).value)
    decreases |events|
  {
    hide Handle, HarmlessState, NumbersHarmless;
    if events != [] {
      HandleHarmless(lib, s, events[0]);
      FeedHarmless(lib, Handle(lib, s, events[0]).value, events[1..]);
    }
  }

  /**
   Parsing and finishing HTML: afterwards only unsupported nesting can be objected to, and the preview is faithful.
   */
  method RenderHtml(lib: Library, events: seq<Event>, fallbacks: map<string, string>)
    returns (r: Result<Rendered, Error>)
    ensures match ParseEvents(lib, events, Built("", [], fallbacks, map[]))
      case Err(e) => r == Err(e)
      case Ok(b) =>
        && WellFormed(b)
        && (r.Ok? <==> Accepted(SortEntities(b.entities)))
        && (r.Err? ==> r.error == UnsupportedNesting)
        && (r.Ok? ==> Renders(b, r.value))
        && (r.Ok? && NumbersHarmless(lib) ==> FaithfulHtml(r.value.text, r.value.entities, r.value.html))
  {
    var builder := new MarkupBuilder(fallbacks);
    var parser := new TelegramHTMLParser(builder, lib);
    var error := parser.Parse(events);
    if error.Some? {
      return Err(error.value);
    }
    ParseWellFormed(lib, events, fallbacks);
    if NumbersHarmless(lib) { FeedHarmless(lib, State(Built("", [], fallbacks, map[]), []), events); }
    r := Finish(builder);
  }
}
