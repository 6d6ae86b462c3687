/** Printed documents that are nested too deeply are refused. */
module MarkdownDepth {
  import opened Text
  import opened MarkupResult
  import opened MarkupMarkdown
  import opened PrintedMarkdown
  import opened PrintedScans
  import opened MarkdownRoundTrip

  lemma PartTooDeep(lib: Library, text: string, p: nat, contents: string, kind: Kind, next: nat, depth: nat,
                    blocks: bool, b: Built)
    requires p < |text| && NextToken(lib, text, p, blocks) == Ok(Wrapped(contents, kind, false, next))
    requires Parse(lib, contents, depth + 1, false, b) == Err(TooDeep)
    ensures ParseFrom(lib, text, p, depth, blocks, b) == Err(TooDeep)
  {
    hide NextToken, Parse;
  }

  lemma Deeper(lib: Library, contents: string, depth: nat, b: Built)
    requires depth == 64 || (depth < 64 && ParseFrom(lib, contents, 0, depth + 1, false, b) == Err(TooDeep))
    ensures Parse(lib, contents, depth + 1, false, b) == Err(TooDeep)
  {
    hide ParseFrom;
  }

  ghost predicate DeepAt(lib: Library, text: string, p: nat, doc: Doc, depth: nat, banned: set<char>,
                         previous: Option<char>) {
    && Reads(text, p, doc) && p + Width(doc) == |text| && Guarded(text)
    && Printable(lib, doc, banned, previous) && Symbols(banned, previous) && depth <= 64 < depth + Depth(doc)
  }

  /** From where a document stands that is too deep the parse ends with that error. */
  lemma {:induction false} ParseDeep(lib: Library, text: string, p: nat, doc: Doc, depth: nat, blocks: bool, b: Built,
                                     banned: set<char>, previous: Option<char>)
    requires DeepAt(lib, text, p, doc, depth, banned, previous)
    ensures ParseFrom(lib, text, p, depth, blocks, b) == Err(TooDeep)
    decreases doc, 1
  {
    hide NextToken, Apply, ParseFrom, LinkEntity, EscapedAt, Guarded, Reads, Width, Inert, NoNumbers, Contained;
    match doc
    case Plain(s, rest) =>
      ReadsPlain(text, p, s, rest);
      ParseEscaped(lib, text, p, s, depth, blocks, b);
      ParseDeep(lib, text, p + EscapeWidth(s), rest, depth, blocks, Emit(b, s), banned, None);
    case Bare(s, rest) =>
      ReadsPlain(text, p, s, rest);
      BareStretch(lib, text, p, s, rest, banned);
      ParseBare(lib, text, p, p + |s|, depth, blocks, b);
      ParseDeep(lib, text, p + |s|, rest, depth, blocks, Emit(b, s), banned, None);
    case Styled(format, body, rest) => StyledDeep(lib, text, p, format, body, rest, depth, blocks, b, banned, previous);
    case Hyperlink(url, body, rest) => LinkDeep(lib, text, p, url, body, rest, depth, blocks, b, banned, previous);
  }

  lemma {:induction false} StyledDeep(lib: Library, text: string, p: nat, format: Format, body: Doc, rest: Doc,
                                      depth: nat,
                                      blocks: bool, b: Built, banned: set<char>, previous: Option<char>)
    requires DeepAt(lib, text, p, Styled(format, body, rest), depth, banned, previous)
    ensures ParseFrom(lib, text, p, depth, blocks, b) == Err(TooDeep)
    decreases Styled(format, body, rest), 0
  {
    hide NextToken, Apply, ParseFrom, Reads, Guarded, Mark, Printable, WellBare, Written, Width, Size;
    PrintableStyled(lib, format, body, rest, banned, previous);
    PrintableIsWellBare(lib, body, banned + {format.Symbol()}, None);
    ReadsStyled(text, p, format, body, rest);
    var start, stop := p + Size(format), StyleStop(p, format, body);
    var after := stop + Size(format);
    AfterStyled(lib, text, after, format, rest, banned);
    StyledPrintedToken(lib, text, p, format, body, rest, banned, previous, blocks);
    BodyReads(text, start, stop, body);
    if depth + 1 + Depth(body) > 64 {
      if depth < 64 { ParseDeep(lib, text[start..stop], 0, body, depth + 1, false, b, banned + {format.Symbol()},
                                None); }
      Deeper(lib, text[start..stop], depth, b);
      PartTooDeep(lib, text, p, text[start..stop], format.Kind(), after, depth, blocks, b);
    } else {
      ParsePrinted(lib, text[start..stop], 0, body, depth + 1, false, b, banned + {format.Symbol()}, None);
      ParsePart(lib, text, p, text[start..stop], format.Kind(), after, depth, blocks, b, Written(b, body));
      ParseDeep(lib, text, after, rest, depth, blocks, Mark(Written(b, body), format.Kind(), b.Offset()), banned,
                Some(format.Symbol()));
    }
  }

  lemma {:induction false} LinkDeep(lib: Library, text: string, p: nat, url: string, body: Doc, rest: Doc, depth: nat,
                                    blocks: bool, b: Built, banned: set<char>, previous: Option<char>)
    requires DeepAt(lib, text, p, Hyperlink(url, body, rest), depth, banned, previous)
    ensures ParseFrom(lib, text, p, depth, blocks, b) == Err(TooDeep)
    decreases Hyperlink(url, body, rest), 0
  {
    hide NextToken, Apply, ParseFrom, Reads, Guarded, Mark, LinkEntity, Printable, WellBare, Written, Width;
    PrintableLink(lib, url, body, rest, banned, previous);
    PrintableIsWellBare(lib, body, {}, None);
    ReadsLink(text, p, url, body, rest);
    var start, stop := p + 1, CaptionStop(p, body);
    var after := UrlStop(p, url, body) + 1;
    LinkPrintedToken(lib, text, p, url, body, rest, blocks);
    BodyReads(text, start, stop, body);
    if depth + 1 + Depth(body) > 64 {
      if depth < 64 { ParseDeep(lib, text[start..stop], 0, body, depth + 1, false, b, {}, None); }
      Deeper(lib, text[start..stop], depth, b);
      PartTooDeep(lib, text, p, text[start..stop], TextLink(url), after, depth, blocks, b);
    } else {
      ParsePrinted(lib, text[start..stop], 0, body, depth + 1, false, b, {}, None);
      ParsePart(lib, text, p, text[start..stop], TextLink(url), after, depth, blocks, b, Written(b, body));
      ParseDeep(lib, text, after, rest, depth, blocks, Mark(Written(b, body), TextLink(url), b.Offset()), banned, None);
    }
  }

  /** A printed document is parsed exactly when its parts are nested at most 64 deep. */
  lemma DepthExactly(lib: Library, doc: Doc, blocks: bool, fallbacks: map<string, string>)
    requires Printable(lib, doc, {}, None)
    ensures var r := Parse(lib, Print(doc), 0, blocks, Built("", [], fallbacks, map[]));
      r == if Depth(doc) <= 64 then Ok(Built(TextOf(doc), EntitiesOf(doc, 0), fallbacks, map[])) else Err(TooDeep)
  {
    if Depth(doc) <= 64 {
      RoundTrip(lib, doc, blocks, fallbacks);
    } else {
      PrintReads("", doc);
      PrintableIsWellBare(lib, doc, {}, None);
      PrintedGuards(Print(doc), 0, doc);
      GuardedBelow(Print(doc), Width(doc));
      ParseDeep(lib, Print(doc), 0, doc, 0, blocks, Built("", [], fallbacks, map[]), {}, None);
    }
  }
}
