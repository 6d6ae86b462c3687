/** The parser as it runs: loops that move positions, and a builder written in place. */
module MarkdownParser {
  import opened Text
  import opened MarkupResult
  import opened PreviewReading
  import opened MarkupFinish
  import opened MarkupMarkdown

  method FindClosing(text: string, marker: string, start: nat) returns (r: Result<int, Error>)
    requires |marker| > 0
    ensures r == ClosingPosition(text, marker, start)
    decreases if start < |text| then |text| - start else 0, 1
  {
    var position := start;
    while position < |text|
      invariant start <= position
      invariant ClosingPosition(text, marker, position) == ClosingPosition(text, marker, start)
      decreases |text| - position
    {
      if text[position] == '\\' {
        position := position + 2;
        continue;
      }
      if AtDoubled(text, marker, position) {
        position := position + 2;
        continue;
      }
      if StartsWith(text, marker, position) {
        return Ok(position);
      }
      if IsCodeMarker(marker) {
        position := position + 1;
        continue;
      }
      var next := SkipAhead(text, position);
      if next.Err? {
        return Err(next.error);
      }
      position := next.value;
    }
    return Ok(-1);
  }

  /** Past a link, past code, or one character on. */
  method SkipAhead(text: string, position: nat) returns (next: Result<nat, Error>)
    requires position < |text|
    ensures next == SkipConstruct(text, position)
    decreases |text| - position, 0
  {
    var link := ScanLink(text, position);
    if link.Err? {
      return Err(link.error);
    }
    if link.value.Some? {
      return Ok(link.value.value.end);
    }
    if text[position] == '`' {
      var code := CodeMarker(text, position);
      var end := FindClosing(text, code, position + |code|);
      if end.value >= 0 {
        return Ok(end.value + |code|);
      }
    }
    return Ok(position + 1);
  }

  method ScanBalance(text: string, start: nat, open: char, close: char) returns (cursor: nat, depth: nat)
    requires open != close
    ensures cursor == Balance(text, start, 1, open, close).0 && depth == Balance(text, start, 1, open, close).1
  {
    cursor, depth := start, 1;
    while cursor < |text| && depth != 0
      invariant Balance(text, cursor, depth, open, close) == Balance(text, start, 1, open, close)
      decreases |text| - cursor
    {
      if text[cursor] == '\\' {
        cursor := cursor + 2;
        continue;
      }
      if text[cursor] == open {
        depth := depth + 1;
      } else if text[cursor] == close {
        depth := depth - 1;
      }
      cursor := cursor + 1;
    }
  }

  method ScanLink(text: string, start: nat) returns (r: Result<Option<Link>, Error>)
    ensures r == ReadLink(text, start)
  {
    var image := At(text, '!', start) && At(text, '[', start + 1);
    var left := if image then start + 1 else start;
    if !At(text, '[', left) {
      return Ok(None);
    }
    var cursor, depth := ScanBalance(text, left + 1, '[', ']');
    if depth != 0 || !At(text, '(', cursor) {
      return Ok(None);
    }
    r := ScanTarget(text, left, cursor, image);
  }

  method ScanTarget(text: string, left: nat, cursor: nat, image: bool) returns (r: Result<Option<Link>, Error>)
    requires left + 2 <= cursor < |text|
    ensures r == ReadTarget(text, left, cursor, image)
  {
    var right, depth := ScanBalance(text, cursor + 1, '(', ')');
    if depth != 0 {
      return Err(UnclosedUrl);
    }
    return Ok(Some(Link(text[left + 1..cursor - 1], Unescape(text[cursor + 1..right - 1]), right, image)));
  }

  method CollectQuote(text: string, start: nat) returns (lines: seq<string>, position: nat)
    requires start < |text|
    ensures lines == QuoteLines(text, start, []).0 && position == QuoteLines(text, start, []).1
  {
    position, lines := start, [];
    while position < |text|
      invariant position <= |text| + 1
      invariant QuoteLines(text, position, lines) == QuoteLines(text, start, [])
      decreases |text| + 1 - position
    {
      if !QuoteContinues(text, position, lines == []) {
        break;
      }
      lines := lines + [QuoteLine(text, position)];
      position := QuoteLineEnd(text, position) + 1;
    }
  }

  /** Running one token on a builder: the error it raises, or the builder after it and the position to go on from. */
  ghost predicate Performed(lib: Library, token: Result<Token, Error>, depth: nat, before: Built, after: Built,
                            error: Option<Error>, next: nat)
  {
    match token
    case Err(e) => error == Some(e)
    case Ok(t) =>
      match Apply(lib, t, depth, before)
      case Err(e) => error == Some(e)
      case Ok(b) => error == None && after == b && next == t.next
  }

  /** The same for a branch that may not apply: then nothing has changed. */
  ghost predicate PerformedIfAny(lib: Library, token: Result<Option<Token>, Error>, depth: nat, before: Built,
                                 after: Built,
                                 error: Option<Error>, end: Option<nat>)
  {
    match token
    case Err(e) => error == Some(e)
    case Ok(None) => error == None && end == None && after == before
    case Ok(Some(t)) =>
      && Performed(lib, Ok(t), depth, before, after, error, t.next)
      && (error.None? ==> end == Some(t.next))
  }

  class TelegramMarkdownParser {
    const builder: MarkupBuilder
    const lib: Library

    constructor (builder: MarkupBuilder, lib: Library)
      ensures this.builder == builder && this.lib == lib
    {
      this.builder, this.lib := builder, lib;
    }

    /** Parses a text into the builder; an error is raised exactly where the parse function has one. */
    method Parse(text: string, depth: nat, blocks: bool) returns (error: Option<Error>)
      requires builder.Valid()
      modifies builder
      ensures builder.Valid()
      ensures MarkupMarkdown.Parse(lib, text, depth, blocks, old(builder.View())) ==
        (if error.Some? then Err(error.value) else Ok(builder.View()))
      decreases |text|, 3, 0
    {
      if depth > MAX_DEPTH {
        return Some(TooDeep);
      }
      var position := 0;
      while position < |text|
        invariant builder.Valid()
        invariant ParseFrom(lib, text, position, depth, blocks, builder.View())
          == ParseFrom(lib, text, 0, depth, blocks, old(builder.View()))
        decreases |text| - position
      {
        error, position := Construct(text, position, depth, blocks);
        if error.Some? {
          return;
        }
      }
      return None;
    }

    /** One round of the loop: the branches in order. */
    method Construct(text: string, position: nat, depth: nat, blocks: bool) returns (error: Option<Error>, next: nat)
      requires builder.Valid() && position < |text|
      modifies builder
      ensures builder.Valid()
      ensures Performed(lib, NextToken(lib, text, position, blocks), depth, old(builder.View()), builder.View(), error,
                        next)
      decreases |text|, 2, 0
    {
      if AtEscape(text, position) {
        builder.Add([text[position + 1]]);
        return None, position + 2;
      }
      if blocks && AtLineStart(text, position) {
        var end;
        error, end := Quote(text, position, depth);
        if error.Some? {
          return error, position;
        }
        if end.Some? {
          return None, end.value;
        }
      }
      if text[position] == '`' {
        var end := CodeBlock(text, position);
        if end.Some? {
          return None, end.value;
        }
      }
      var legacy := MatchLegacy(lib, text, position);
      if legacy.Some? {
        error := builder.Emoji(lib, legacy.value.id, legacy.value.emoji);
        return error, legacy.value.end;
      }
      error, next := Inline(text, position, depth);
    }

    /** The later branches: links, emoji numbers, separators, formats, bare URLs and free text. */
    method Inline(text: string, position: nat, depth: nat) returns (error: Option<Error>, next: nat)
      requires builder.Valid() && position < |text|
      modifies builder
      ensures builder.Valid()
      ensures Performed(lib, TokenAfterEmoji(lib, text, position), depth, old(builder.View()), builder.View(), error,
                        next)
      decreases |text|, 1, 0
    {
      var link := ScanLink(text, position);
      if link.Err? {
        return Some(link.error), position;
      }
      if link.value.Some? {
        error := Hyperlink(link.value.value, depth);
        return error, link.value.value.end;
      }
      var id := MatchId(text, position);
      if id.Some? {
        error := builder.Emoji(lib, id.value.id, "");
        return error, id.value.end;
      }
      if AtSeparator(text, position) {
        return None, position + 2;
      }
      var end;
      error, end := Format(text, position, depth, FORMATS);
      if error.Some? {
        return error, position;
      }
      if end.Some? {
        return None, end.value;
      }
      var url := MatchUrl(text, position);
      if url.Some? {
        builder.Add(Unescape(text[position..url.value]));
        return None, url.value;
      }
      builder.Add([text[position]]);
      return None, position + 1;
    }

    /** The first format whose marker stands here and is closed. */
    method Format(text: string, position: nat, depth: nat, formats: seq<(string, Kind)>)
      returns (error: Option<Error>, end: Option<nat>)
      requires builder.Valid() && position < |text| && MarkersNonEmpty(formats)
      modifies builder
      ensures builder.Valid()
      ensures PerformedIfAny(lib, FormatToken(text, position, formats), depth, old(builder.View()), builder.View(),
                             error, end)
      decreases |text|, 0, 1
    {
      var i := 0;
      assert formats[0..] == formats;
      while i < |formats|
        invariant i <= |formats|
        invariant builder.View() == old(builder.View()) && builder.Valid()
        invariant FormatToken(text, position, formats[i..]) == FormatToken(text, position, formats)
      {
        assert formats[i..][1..] == formats[i + 1..];
        error, end := Span(text, position, depth, formats[i].0, formats[i].1);
        if error.Some? || end.Some? {
          return;
        }
        i := i + 1;
      }
      return None, None;
    }

    /** Parses a construct's contents and marks what they produced. */
    method Enclose(contents: string, kind: Kind, newline: bool, depth: nat, ghost next: nat)
      returns (error: Option<Error>)
      requires builder.Valid()
      modifies builder
      ensures builder.Valid()
      ensures Performed(lib, Ok(Wrapped(contents, kind, newline, next)), depth, old(builder.View()), builder.View(),
                        error, next)
      decreases |contents|, 4, 0
    {
      var start := builder.offset;
      error := Parse(contents, depth + 1, false);
      if error.None? {
        builder.AddEntity(kind, start);
        if newline {
          builder.Add("\n");
        }
      }
    }

    method Span(text: string, position: nat, depth: nat, marker: string, kind: Kind)
      returns (error: Option<Error>, end: Option<nat>)
      requires builder.Valid() && position < |text| && |marker| > 0
      modifies builder
      ensures builder.Valid()
      ensures PerformedIfAny(lib, TryFormat(text, position, marker, kind), depth, old(builder.View()), builder.View(),
                             error, end)
      decreases |text|, 0, 0
    {
      if !StartsWith(text, marker, position) {
        return None, None;
      }
      var close := FindClosing(text, marker, position + |marker|);
      if close.Err? {
        return Some(close.error), None;
      }
      if close.value < 0 {
        return None, None;
      }
      error := Enclose(text[position + |marker|..close.value], kind, false, depth, close.value + |marker|);
      return error, Some(close.value + |marker|);
    }

    method Hyperlink(link: Link, depth: nat) returns (error: Option<Error>)
      requires builder.Valid()
      modifies builder
      ensures builder.Valid()
      ensures Performed(lib, LinkToken(lib, link), depth, old(builder.View()), builder.View(), error, link.end)
      decreases |link.caption|, 5, 0
    {
      var kind := LinkEntity(lib, link.url, link.image);
      if kind.Err? {
        return Some(kind.error);
      }
      if kind.value.CustomEmoji? {
        error := builder.Emoji(lib, kind.value.id, Unescape(link.caption));
      } else {
        error := Enclose(link.caption, kind.value, false, depth, link.end);
      }
    }

    method CodeBlock(text: string, position: nat) returns (end: Option<nat>)
      requires builder.Valid() && position < |text|
      modifies builder
      ensures builder.Valid()
      ensures PerformedIfAny(lib, Ok(CodeToken(text, position)), 0, old(builder.View()), builder.View(), None, end)
    {
      var marker := CodeMarker(text, position);
      var close := FindClosing(text, marker, position + |marker|);
      if close.value < 0 {
        return None;
      }
      var contents := text[position + |marker|..close.value];
      var start := builder.offset;
      var fenced := Fenced(text, position);
      builder.Add(CodeText(fenced, contents));
      builder.AddEntity(CodeKind(fenced, contents), start);
      return Some(close.value + |marker|);
    }

    method Quote(text: string, position: nat, depth: nat) returns (error: Option<Error>, end: Option<nat>)
      requires builder.Valid() && position < |text|
      modifies builder
      ensures builder.Valid()
      ensures PerformedIfAny(lib, Ok(QuoteToken(text, position)), depth, old(builder.View()), builder.View(), error,
                             end)
      decreases |text|, 1, 0
    {
      var lines, after := CollectQuote(text, position);
      if lines == [] {
        return None, None;
      }
      JoinLength(lines);
      var contents := JoinLines(lines);
      var expandable := IsExpandable(contents);
      if expandable {
        contents := contents[..|contents| - 2];
      }
      var kind := if expandable then ExpandableBlockquote else Blockquote;
      error := Enclose(contents, kind, after <= |text|, depth, after);
      return error, Some(after);
    }
  }

  /** The contents of a format, a link, a quote or code are never marked as an emoji. */
  lemma TokenKinds(lib: Library, text: string, position: nat, blocks: bool)
    requires position < |text| && NextToken(lib, text, position, blocks).Ok?
    ensures var t := NextToken(lib, text, position, blocks).value; t.Wrapped? || t.Verbatim? ==> !t.kind.CustomEmoji?
  {
    hide QuoteLines, ReadLink, MatchLegacy, MatchId, MatchUrl, ClosingPosition, LinkEntity;
    FormatKinds(text, position, FORMATS);
    hide FormatToken;
  }

  lemma {:induction false} FormatKinds(text: string, position: nat, formats: seq<(string, Kind)>)
    requires position < |text| && MarkersNonEmpty(formats) && forall f <- formats :: !f.1.CustomEmoji?
    ensures FormatToken(text, position, formats).Ok? && FormatToken(text, position, formats).value.Some? ==>
      var t := FormatToken(text, position, formats).value.value; t.Wrapped? && !t.kind.CustomEmoji?
  {
    hide ClosingPosition;
    if formats != [] {
      assert formats[0] in formats && forall f <- formats[1..] :: f in formats;
      FormatKinds(text, position, formats[1..]);
    }
  }

  lemma {:induction false} ApplyHarmless(lib: Library, t: Token, depth: nat, b: Built)
    requires NumbersHarmless(lib) && AllHarmless(b.entities) && Apply(lib, t, depth, b).Ok?
    requires t.Wrapped? || t.Verbatim? ==> !t.kind.CustomEmoji?
    ensures AllHarmless(Apply(lib, t, depth, b).value.entities)
    decreases if t.Wrapped? then |t.contents| else 0, 4, 0
  {
    if t.Wrapped? { ParseHarmless(lib, t.contents, 0, depth + 1, false, b); }
  }

  /** Parsing adds no emoji whose number HTML would read as its own. */
  lemma {:induction false} ParseHarmless(lib: Library, text: string, position: nat, depth: nat, blocks: bool, b: Built)
    requires NumbersHarmless(lib) && AllHarmless(b.entities) && ParseFrom(lib, text, position, depth, blocks, b).Ok?
    ensures AllHarmless(ParseFrom(lib, text, position, depth, blocks, b).value.entities)
    decreases |text|, 2, if position < |text| then |text| - position else 0
  {
    if position < |text| {
      var t := NextToken(lib, text, position, blocks).value;
      TokenKinds(lib, text, position, blocks);
      hide NextToken, AllHarmless, NumbersHarmless;
      ApplyHarmless(lib, t, depth, b);
      ParseHarmless(lib, text, t.next, depth, blocks, Apply(lib, t, depth, b).value);
    }
  }

  /**
   Parsing and finishing a text: only unsupported nesting can be objected to afterwards, and the preview is faithful.
   */
  method RenderMarkdown(lib: Library, text: string, fallbacks: map<string, string>) returns (r: Result<Rendered, Error>)
    ensures match MarkupMarkdown.Parse(lib, text, 0, true, Built("", [], fallbacks, map[]))
      case Err(e) => r == Err(e)
      case Ok(b) =>
        && WellFormed(b)
        && (r.Ok? <==> Accepted(SortEntities(b.entities)))
        && (r.Err? ==> r.error == UnsupportedNesting)
        && (r.Ok? ==> Renders(b, r.value))
        && (r.Ok? && NumbersHarmless(lib) ==> FaithfulHtml(r.value.text, r.value.entities, r.value.html))
  {
    var builder := new MarkupBuilder(fallbacks);
    var parser := new TelegramMarkdownParser(builder, lib);
    var error := parser.Parse(text, 0, true);
    if error.Some? {
      return Err(error.value);
    }
    ParseWellFormed(lib, text, true, fallbacks);
    if NumbersHarmless(lib) { ParseHarmless(lib, text, 0, 0, true, Built("", [], fallbacks, map[])); }
    r := Finish(builder);
  }
}
