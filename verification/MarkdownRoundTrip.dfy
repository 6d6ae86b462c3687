/** Printing a formatted document and parsing it back. */
module MarkdownRoundTrip {
  import opened Text
  import opened MarkupResult
  import opened MarkupMarkdown
  import opened PrintedMarkdown
  import opened PrintedScans

  lemma FirstMarker(lib: Library, text: string, position: nat, format: Format, body: Doc, banned: set<char>)
    requires MarkerAt(text, position, format) && Reads(text, position + Size(format), body)
    requires Printable(lib, body, banned + {format.Symbol()}, None) && body != End
    requires forall c <- banned :: c in "*_|~"
    ensures Size(format) == 1 ==> !At(text, format.Symbol(), position + 1)
    ensures var c := text[position + Size(format)]; (Opens(c) || Ordinary(c)) && c != format.Symbol()
    ensures position + Size(format) < |text|
  {
    FirstCharacter(lib, text, position + Size(format), body, banned + {format.Symbol()}, None);
  }

  /** Formats whose marker begins with another symbol, or with a doubled one, do not apply. */
  lemma SkipFormat(text: string, position: nat, formats: seq<(string, Kind)>)
    requires position < |text| && MarkersNonEmpty(formats) && formats != []
    requires formats[0].0[0] != text[position] || (|formats[0].0| == 2 && !At(text, formats[0].0[1], position + 1))
    ensures FormatToken(text, position, formats) == FormatToken(text, position, formats[1..])
  {
    var marker := formats[0].0;
    if marker[0] == text[position] {
      assert marker[1..][0] == marker[1];
      assert !StartsWith(text, marker[1..], position + 1);
    }
    assert !StartsWith(text, marker, position);
  }

  function Entry(format: Format): (string, Kind) {
    (format.Marker(), format.Kind())
  }

  function FormatList(formats: seq<Format>): (r: seq<(string, Kind)>)
    ensures |r| == |formats|
  {
    if formats == [] then [] else [Entry(formats[0])] + FormatList(formats[1..])
  }

  const ORDER: seq<Format> := [DoubleStars, DoubleUnderscore, Bars, DoubleTilde, Stars, Underscore, Tilde]

  lemma OrderIsFormats()
    ensures FormatList(ORDER) == FORMATS
  {
    assert ORDER[1..] == [DoubleUnderscore, Bars, DoubleTilde, Stars, Underscore, Tilde];
    assert ORDER[2..] == [Bars, DoubleTilde, Stars, Underscore, Tilde];
    assert ORDER[3..] == [DoubleTilde, Stars, Underscore, Tilde];
    assert ORDER[4..] == [Stars, Underscore, Tilde];
    assert ORDER[5..] == [Underscore, Tilde];
    assert ORDER[6..] == [Tilde];
    assert ORDER[7..] == [];
    assert forall i :: 0 <= i < 7 ==> ORDER[i..] == [ORDER[i]] + ORDER[i + 1..];
    assert FormatList(ORDER[7..]) == [];
    assert FormatList(ORDER[6..]) == [Entry(Tilde)] + FormatList(ORDER[6..][1..]);
  }

  /** No format tried before `format` can apply where its marker stands. */
  predicate Reached(order: seq<Format>, format: Format) {
    order != [] && (order[0] == format ||
      ((order[0].Symbol() != format.Symbol() || (Size(order[0]) == 2 && Size(format) == 1))
       && Reached(order[1..], format)))
  }

  lemma EveryFormatReached(format: Format)
    ensures Reached(ORDER, format)
  {
    assert ORDER[1..] == [DoubleUnderscore, Bars, DoubleTilde, Stars, Underscore, Tilde];
    assert ORDER[1..][1..] == [Bars, DoubleTilde, Stars, Underscore, Tilde];
    assert ORDER[1..][1..][1..] == [DoubleTilde, Stars, Underscore, Tilde];
    assert ORDER[1..][1..][1..][1..] == [Stars, Underscore, Tilde];
    assert ORDER[1..][1..][1..][1..][1..] == [Underscore, Tilde];
    assert ORDER[1..][1..][1..][1..][1..][1..] == [Tilde];
  }

  lemma {:induction false} ListMarkers(order: seq<Format>)
    ensures MarkersNonEmpty(FormatList(order))
  {
    if order != [] {
      ListMarkers(order[1..]);
      MarkerShape(order[0]);
    }
  }

  lemma {:induction false} FormatReached(text: string, position: nat, format: Format, order: seq<Format>, t: Token)
    requires position < |text| && MarkerAt(text, position, format) && MarkersNonEmpty(FormatList(order))
    requires Size(format) == 1 ==> !At(text, format.Symbol(), position + 1)
    requires Reached(order, format)
    requires |format.Marker()| > 0 && TryFormat(text, position, format.Marker(), format.Kind()) == Ok(Some(t))
    ensures FormatToken(text, position, FormatList(order)) == Ok(Some(t))
  {
    var list := FormatList(order);
    assert list[0] == Entry(order[0]) && list[1..] == FormatList(order[1..]);
    if order[0] != format {
      ListMarkers(order[1..]);
      MarkerShape(order[0]);
      SkipFormat(text, position, list);
      FormatReached(text, position, format, order[1..], t);
    }
  }

  /** The marker that closes a formatted part is the first one of its format after the opening one. */
  lemma StyledCloses(lib: Library, text: string, position: nat, format: Format, body: Doc, rest: Doc, banned: set<char>)
    requires Reads(text, position, Styled(format, body, rest))
    requires forall c <- banned :: c in "*_|~"
    requires Printable(lib, body, banned + {format.Symbol()}, None) && body != End
    requires var after := StyleStop(position, format, body) + Size(format); !At(text, format.Symbol(), after)
    ensures Closing(text, format, position + Size(format)) == Ok(StyleStop(position, format, body))
  {
    hide Reads, Printable, Closing;
    ReadsStyled(text, position, format, body, rest);
    ClosingDoc(lib, text, format, position + Size(format), body, banned + {format.Symbol()}, None);
    ClosingHere(text, format, StyleStop(position, format, body));
  }

  /** A formatted part is recognised by its own format, up to its closing marker. */
  lemma StyledPrintedFormat(lib: Library, text: string, position: nat, format: Format, body: Doc, rest: Doc,
                            banned: set<char>)
    requires Reads(text, position, Styled(format, body, rest))
    requires forall c <- banned :: c in "*_|~"
    requires Printable(lib, body, banned + {format.Symbol()}, None) && body != End
    requires var after := StyleStop(position, format, body) + Size(format); !At(text, format.Symbol(), after)
    ensures position < |text| && StyleStop(position, format, body) <= |text|
    ensures FormatToken(text, position, FORMATS)
      == Ok(Some(Wrapped(text[position + Size(format)..StyleStop(position, format, body)],
      format.Kind(), false, StyleStop(position, format, body) + Size(format))))
  {
    hide Reads, Printable, FormatToken, Reached, Closing, TryFormat;
    ReadsStyled(text, position, format, body, rest);
    var stop := StyleStop(position, format, body);
    FirstMarker(lib, text, position, format, body, banned);
    StyledCloses(lib, text, position, format, body, rest, banned);
    FormatTried(text, position, format, stop);
    OrderIsFormats();
    ListMarkers(ORDER);
    EveryFormatReached(format);
    hide ORDER, FORMATS, FormatList;
    FormatReached(text, position, format, ORDER,
                  Wrapped(text[position + Size(format)..stop], format.Kind(), false, stop + Size(format)));
  }

  lemma FormatTried(text: string, position: nat, format: Format, stop: nat)
    requires MarkerAt(text, position, format) && MarkerAt(text, stop, format) && position + Size(format) <= stop
    requires Closing(text, format, position + Size(format)) == Ok(stop)
    ensures |format.Marker()| > 0 && TryFormat(text, position, format.Marker(), format.Kind())
      == Ok(Some(Wrapped(text[position + Size(format)..stop], format.Kind(), false, stop + Size(format))))
  {
    MarkerShape(format);
    StartsHere(text, format, position);
    hide ClosingPosition, StartsWith;
  }

  /** A document does not begin with a symbol if it begins with bare text. */
  lemma NotBare(text: string, position: nat, doc: Doc, c: char)
    requires Reads(text, position, doc) && WellBare(doc) && At(text, c, position) && !Ordinary(c)
    ensures !doc.Bare?
  {
    if doc.Bare? { BareRest(text, position, doc.text, 0); }
  }

  /** A document that does not begin with an underline does not begin with its marker. */
  lemma NoUnderline(lib: Library, text: string, position: nat, doc: Doc, banned: set<char>)
    requires Reads(text, position, doc) && Printable(lib, doc, banned, None) && doc != End && WellBare(doc)
    requires !(doc.Styled? && doc.format == DoubleUnderscore) && forall c <- banned :: c in "*_|~"
    ensures !(At(text, '_', position) && At(text, '_', position + 1))
  {
    if At(text, '_', position) {
      NotBare(text, position, doc, '_');
      if doc.Styled? && doc.format == Underscore { FirstMarker(lib, text, position, doc.format, doc.body, banned); }
    }
  }

  /** `**` followed by `>` or `__` is a separator; a printed part never is. */
  lemma NoSeparator(lib: Library, text: string, position: nat, format: Format, body: Doc, banned: set<char>)
    requires MarkerAt(text, position, format) && Reads(text, position + Size(format), body) && Guarded(text)
    requires Printable(lib, body, banned + {format.Symbol()}, None) && body != End
    requires !(format == DoubleStars && body.Styled? && body.format == DoubleUnderscore)
    requires forall c <- banned :: c in "*_|~"
    ensures !AtSeparator(text, position)
  {
    FirstMarker(lib, text, position, format, body, banned);
    PrintableIsWellBare(lib, body, banned + {format.Symbol()}, None);
    if StartsWith(text, "**", position) {
      assert "**"[1..][0] == '*';
      assert format == DoubleStars;
      assert !StartsWith(text, ">", position + 2);
      if StartsWith(text, "__", position + 2) {
        assert "__"[1..][0] == '_';
        assert At(text, '_', position + 2) && At(text, '_', position + 3);
        NoUnderline(lib, text, position + 2, body, banned + {'*'});
      }
    }
  }

  lemma PrintableStyled(lib: Library, format: Format, body: Doc, rest: Doc, banned: set<char>, previous: Option<char>)
    requires Printable(lib, Styled(format, body, rest), banned, previous)
    ensures body != End && !(format == DoubleStars && body.Styled? && body.format == DoubleUnderscore)
    ensures Printable(lib, body, banned + {format.Symbol()}, None)
    ensures Printable(lib, rest, banned, Some(format.Symbol()))
  {
  }

  lemma PrintableLink(lib: Library, url: string, body: Doc, rest: Doc, banned: set<char>, previous: Option<char>)
    requires Printable(lib, Hyperlink(url, body, rest), banned, previous)
    ensures LinkEntity(lib, url, false).Ok? && Printable(lib, body, {}, None) && Printable(lib, rest, banned, None)
  {
  }

  lemma StyledParts(b: Built, format: Format, body: Doc, rest: Doc)
    ensures var doc := Styled(format, body, rest);
      && Written(b, doc) == Written(Mark(Written(b, body), format.Kind(), b.Offset()), rest)
      && Depth(body) < Depth(doc) && Depth(rest) <= Depth(doc)
  {
    hide Mark;
  }

  lemma LinkParts(b: Built, url: string, body: Doc, rest: Doc)
    ensures var doc := Hyperlink(url, body, rest);
      && Written(b, doc) == Written(Mark(Written(b, body), TextLink(url), b.Offset()), rest)
      && Depth(body) < Depth(doc) && Depth(rest) <= Depth(doc)
  {
    hide Mark;
  }

  lemma MarkerOpens(text: string, position: nat, format: Format)
    requires MarkerAt(text, position, format)
    ensures position < |text| && Opens(text[position]) && text[position] == format.Symbol()
    ensures ReadLink(text, position) == Ok(None) && !AtEscape(text, position)
  {
  }

  lemma StyledPrintedToken(lib: Library, text: string, position: nat, format: Format, body: Doc, rest: Doc,
                           banned: set<char>, previous: Option<char>, blocks: bool)
    requires Reads(text, position, Styled(format, body, rest)) && Guarded(text)
    requires Printable(lib, Styled(format, body, rest), banned, previous)
    requires forall c <- banned :: c in "*_|~"
    requires !At(text, format.Symbol(), StyleStop(position, format, body) + Size(format))
    ensures position < |text| && StyleStop(position, format, body) <= |text|
    ensures NextToken(lib, text, position, blocks)
      == Ok(Wrapped(text[position + Size(format)..StyleStop(position, format, body)],
      format.Kind(), false, StyleStop(position, format, body) + Size(format)))
  {
    hide FormatToken, NextToken, ReadLink, Reads, AtSeparator, Printable, MatchLegacy, MatchId, QuoteToken;
    hide Width, MarkerAt, AtEscape, Guarded;
    NothingElse(lib, text, position, format, body, rest, banned, previous);
    PrintableStyled(lib, format, body, rest, banned, previous);
    StyledPrintedFormat(lib, text, position, format, body, rest, banned);
    var stop := StyleStop(position, format, body);
    TokenIsFormat(lib, text, position, blocks,
                  Wrapped(text[position + Size(format)..stop], format.Kind(), false, stop + Size(format)));
  }

  /** Where a formatted part is printed no branch before the formats applies. */
  lemma NothingElse(lib: Library, text: string, position: nat, format: Format, body: Doc, rest: Doc,
                    banned: set<char>, previous: Option<char>)
    requires Reads(text, position, Styled(format, body, rest)) && Guarded(text)
    requires Printable(lib, Styled(format, body, rest), banned, previous) && forall c <- banned :: c in "*_|~"
    ensures position < |text| && !AtEscape(text, position) && text[position] != '`'
    ensures QuoteToken(text, position) == None && MatchLegacy(lib, text, position) == None
    ensures ReadLink(text, position) == Ok(None) && MatchId(text, position) == None && !AtSeparator(text, position)
  {
    hide ReadLink, Reads, AtSeparator, Printable, MatchLegacy, MatchId, QuoteToken, Width, MarkerAt, AtEscape, Guarded;
    ReadsStyled(text, position, format, body, rest);
    PrintableStyled(lib, format, body, rest, banned, previous);
    MarkerOpens(text, position, format);
    NoShortcut(lib, text, position);
    NoQuote(text, position);
    NoSeparator(lib, text, position, format, body, banned);
  }

  // ---------------------------------------------------------------- the theorem

  /** The contents of a part, cut out of the text, read as its body. */
  lemma BodyReads(text: string, start: nat, stop: nat, body: Doc)
    requires Reads(text, start, body) && stop == start + Width(body) <= |text| && WellBare(body)
    ensures |text[start..stop]| == Width(body) && Reads(text[start..stop], 0, body) && Guarded(text[start..stop])
  {
    hide Reads, Width, Same, GuardedRange;
    SameSlice(text, start, stop, start, Width(body));
    ReadsElsewhere(text, start, body, text[start..stop], 0);
    PrintedGuards(text[start..stop], 0, body);
    GuardedBelow(text[start..stop], Width(body));
  }

  lemma ApplyWrapped(lib: Library, contents: string, kind: Kind, next: nat, depth: nat, b: Built, inner: Built)
    requires depth < MAX_DEPTH && ParseFrom(lib, contents, 0, depth + 1, false, b) == Ok(inner)
    ensures Apply(lib, Wrapped(contents, kind, false, next), depth, b) == Ok(Mark(inner, kind, b.Offset()))
  {
    hide ParseFrom;
  }

  /** A part is parsed by parsing its contents, marking them, and going on after it. */
  lemma ParsePart(lib: Library, text: string, position: nat, contents: string, kind: Kind, next: nat, depth: nat,
                  blocks: bool,
                  b: Built, inner: Built)
    requires position < |text| && NextToken(lib, text, position, blocks) == Ok(Wrapped(contents, kind, false, next))
    requires depth < MAX_DEPTH && ParseFrom(lib, contents, 0, depth + 1, false, b) == Ok(inner)
    ensures ParseFrom(lib, text, position, depth, blocks, b)
      == ParseFrom(lib, text, next, depth, blocks, Mark(inner, kind, b.Offset()))
  {
    hide NextToken, Apply, ParseFrom, Mark;
    ApplyWrapped(lib, contents, kind, next, depth, b, inner);
    ParseStep(lib, text, position, depth, blocks, b, Wrapped(contents, kind, false, next),
              Mark(inner, kind, b.Offset()));
  }

  ghost predicate Symbols(banned: set<char>, previous: Option<char>) {
    (forall c <- banned :: c in "*_|~") && (previous.Some? ==> previous.value in "*_|~")
  }

  lemma GuardedNumbers(text: string)
    requires Guarded(text)
    ensures NoNumbers(text)
  {
  }

  /** Bare text of a document meets what bare text must meet to be read as itself. */
  lemma BareStretch(lib: Library, text: string, position: nat, s: string, rest: Doc, banned: set<char>)
    requires BareAt(text, position, s) && Reads(text, position + |s|, rest) && Guarded(text)
    requires Printable(lib, Doc.Bare(s, rest), banned, None) && position + |s| + Width(rest) == |text|
    requires forall c <- banned :: c in "*_|~"
    ensures NoNumbers(text) && Contained(text, position, position + |s|) && text[position..position + |s|] == s
    ensures forall k :: position <= k < position + |s| ==> Inert(text[k]) && text[k] != '>'
    ensures forall k :: position <= k < position + |s| && text[k] == '!' ==> !At(text, '[', k + 1)
  {
    GuardedNumbers(text);
    BareCharacters(text, position, s);
    hide Reads, Guarded, Inert, Ordinary, NoAddress;
    if rest == End {
      ReadsPlain(text, position + |s|, "", rest);
    } else if !IsSpace(s[|s| - 1]) {
      BareContained(lib, text, position, s, rest, banned);
    } else {
      assert text[position + |s| - 1] == text[position..position + |s|][|s| - 1];
    }
  }

  lemma BareCharacters(text: string, position: nat, s: string)
    requires BareAt(text, position, s) && (forall c <- s :: Ordinary(c)) && s != "" && s[|s| - 1] != '!'
    ensures forall k :: position <= k < position + |s| ==> Inert(text[k]) && text[k] != '>'
    ensures forall k :: position <= k < position + |s| && text[k] == '!' ==> !At(text, '[', k + 1)
  {
    forall k | position <= k < position + |s| ensures text[k] == s[k - position] && Ordinary(text[k]) {
      assert text[position..position + |s|][k - position] in s;
    }
  }

  /** No address begins in bare text without one: what follows it does not continue the beginning of one. */
  lemma BareContained(lib: Library, text: string, position: nat, s: string, rest: Doc, banned: set<char>)
    requires BareAt(text, position, s) && Reads(text, position + |s|, rest) && NoAddress(s) && rest != End
      && !rest.Bare?
    requires Printable(lib, rest, banned, None) && forall c <- banned :: c in "*_|~"
    ensures Contained(text, position, position + |s|)
  {
    var end := position + |s|;
    FirstCharacter(lib, text, end, rest, banned, None);
    forall k, i | position <= k < end && 0 <= i < |URL_PREFIXES| ensures !StartsWith(text, URL_PREFIXES[i], k) {
      RestOpens(lib, text, end, rest, banned);
      PrefixInside(text, position, s, k, i);
    }
  }

  /** The beginning of an address lies inside bare text, or what follows the text does not continue it. */
  lemma PrefixInside(text: string, position: nat, s: string, k: nat, i: nat)
    requires BareAt(text, position, s) && NoAddress(s) && position <= k < position + |s| && i < |URL_PREFIXES|
    requires position + |s| < |text| && Opens(text[position + |s|])
    ensures !StartsWith(text, URL_PREFIXES[i], k)
  {
    var prefix, end := URL_PREFIXES[i], position + |s|;
    assert !StartsWith(s, URL_PREFIXES[i], k - position);
    if k + |prefix| > end { PrefixCharacters(i, end - k); }
    hide URL_PREFIXES, NoAddress, Opens, StartsWith;
    if StartsWith(text, prefix, k) { WordInside(text, position, s, prefix, k); }
  }

  /** A word that stands in the text stands in the stretch, or has the character after the stretch in it. */
  lemma WordInside(text: string, position: nat, s: string, word: string, k: nat)
    requires BareAt(text, position, s) && position <= k < position + |s| < |text| && StartsWith(text, word, k)
    ensures k + |word| <= position + |s| ==> StartsWith(s, word, k - position)
    ensures k + |word| > position + |s| ==> text[position + |s|] == word[position + |s| - k]
  {
    StartsWithAt(text, word, k);
    StartsWithAt(s, word, k - position);
    var end := position + |s|;
    if k + |word| <= end {
      assert text[k..k + |word|] == text[position..end][k - position..k - position + |word|];
    } else {
      assert text[k..k + |word|][end - k] == text[end];
    }
  }

  lemma RestOpens(lib: Library, text: string, position: nat, doc: Doc, banned: set<char>)
    requires Reads(text, position, doc) && Printable(lib, doc, banned, None) && doc != End && !doc.Bare?
    ensures position < |text| && Opens(text[position])
  {
  }

  lemma PrefixCharacters(i: nat, k: nat)
    requires i < |URL_PREFIXES| && k < |URL_PREFIXES[i]|
    ensures !Opens(URL_PREFIXES[i][k])
  {
  }

  /** Parsing printed text from where a document stands to the end of the text writes the document. */
  lemma {:induction false} ParsePrinted(lib: Library, text: string, position: nat, doc: Doc, depth: nat, blocks: bool,
                                        b: Built,
                                        banned: set<char>, previous: Option<char>)
    requires Reads(text, position, doc) && position + Width(doc) == |text| && Guarded(text)
    requires Printable(lib, doc, banned, previous) && Symbols(banned, previous) && depth + Depth(doc) <= MAX_DEPTH
    ensures ParseFrom(lib, text, position, depth, blocks, b) == Ok(Written(b, doc))
    decreases doc, 1
  {
    hide NextToken, Apply, LinkEntity, EscapedAt, Guarded, Reads, Width;
    match doc
    case End => ReadsPlain(text, position, "", End);
    case Plain(s, rest) =>
      ReadsPlain(text, position, s, rest);
      ParseEscaped(lib, text, position, s, depth, blocks, b);
      ParsePrinted(lib, text, position + EscapeWidth(s), rest, depth, blocks, Emit(b, s), banned, None);
    case Bare(s, rest) => ParseBarePart(lib, text, position, s, rest, depth, blocks, b, banned, previous);
    case Styled(format, body, rest) =>
      ParseStyled(lib, text, position, format, body, rest, depth, blocks, b, banned, previous);
    case Hyperlink(url, body, rest) =>
      ParseLink(lib, text, position, url, body, rest, depth, blocks, b, banned, previous);
  }

  lemma {:induction false} ParseBarePart(lib: Library, text: string, position: nat, s: string, rest: Doc, depth: nat,
                                         blocks: bool, b: Built, banned: set<char>, previous: Option<char>)
    requires var doc := Doc.Bare(s, rest);
      && Reads(text, position, doc) && position + Width(doc) == |text| && Guarded(text)
      && Printable(lib, doc, banned, previous) && Symbols(banned, previous) && depth + Depth(doc) <= MAX_DEPTH
    ensures ParseFrom(lib, text, position, depth, blocks, b) == Ok(Written(b, Doc.Bare(s, rest)))
    decreases Doc.Bare(s, rest), 0
  {
    hide ParseFrom, Reads, Guarded, Inert, NoNumbers, Contained;
    ReadsPlain(text, position, s, rest);
    BareStretch(lib, text, position, s, rest, banned);
    ParseBare(lib, text, position, position + |s|, depth, blocks, b);
    ParsePrinted(lib, text, position + |s|, rest, depth, blocks, Emit(b, s), banned, None);
  }

  lemma {:induction false} ParseStyled(lib: Library, text: string, position: nat, format: Format, body: Doc, rest: Doc,
                                       depth: nat, blocks: bool, b: Built, banned: set<char>, previous: Option<char>)
    requires var doc := Styled(format, body, rest);
      && Reads(text, position, doc) && position + Width(doc) == |text| && Guarded(text)
      && Printable(lib, doc, banned, previous) && Symbols(banned, previous) && depth + Depth(doc) <= MAX_DEPTH
    ensures ParseFrom(lib, text, position, depth, blocks, b) == Ok(Written(b, Styled(format, body, rest)))
    decreases Styled(format, body, rest), 0
  {
    hide NextToken, Apply, ParseFrom, Reads, Guarded, Mark, Printable, WellBare, Written, Depth, Width, Size;
    PrintableStyled(lib, format, body, rest, banned, previous);
    PrintableIsWellBare(lib, body, banned + {format.Symbol()}, None);
    StyledParts(b, format, body, rest);
    ReadsStyled(text, position, format, body, rest);
    var start, stop := position + Size(format), StyleStop(position, format, body);
    var after := stop + Size(format);
    AfterStyled(lib, text, after, format, rest, banned);
    StyledPrintedToken(lib, text, position, format, body, rest, banned, previous, blocks);
    BodyReads(text, start, stop, body);
    ParsePrinted(lib, text[start..stop], 0, body, depth + 1, false, b, banned + {format.Symbol()}, None);
    ParsePart(lib, text, position, text[start..stop], format.Kind(), after, depth, blocks, b, Written(b, body));
    ParsePrinted(lib, text, after, rest, depth, blocks, Mark(Written(b, body), format.Kind(), b.Offset()), banned,
                 Some(format.Symbol()));
  }

  lemma AfterStyled(lib: Library, text: string, after: nat, format: Format, rest: Doc, banned: set<char>)
    requires Reads(text, after, rest) && after + Width(rest) == |text|
    requires Printable(lib, rest, banned, Some(format.Symbol())) && forall c <- banned :: c in "*_|~"
    ensures !At(text, format.Symbol(), after)
  {
    if rest != End { FirstCharacter(lib, text, after, rest, banned, Some(format.Symbol())); }
  }

  lemma {:induction false} ParseLink(lib: Library, text: string, position: nat, url: string, body: Doc, rest: Doc,
                                     depth: nat, blocks: bool, b: Built, banned: set<char>, previous: Option<char>)
    requires var doc := Hyperlink(url, body, rest);
      && Reads(text, position, doc) && position + Width(doc) == |text| && Guarded(text)
      && Printable(lib, doc, banned, previous) && Symbols(banned, previous) && depth + Depth(doc) <= MAX_DEPTH
    ensures ParseFrom(lib, text, position, depth, blocks, b) == Ok(Written(b, Hyperlink(url, body, rest)))
    decreases Hyperlink(url, body, rest), 0
  {
    hide NextToken, Apply, ParseFrom, Reads, Guarded, Mark, LinkEntity, Printable, WellBare, Written, Depth, Width;
    PrintableLink(lib, url, body, rest, banned, previous);
    PrintableIsWellBare(lib, body, {}, None);
    LinkParts(b, url, body, rest);
    ReadsLink(text, position, url, body, rest);
    var start, stop := position + 1, CaptionStop(position, body);
    var after := UrlStop(position, url, body) + 1;
    LinkPrintedToken(lib, text, position, url, body, rest, blocks);
    BodyReads(text, start, stop, body);
    ParsePrinted(lib, text[start..stop], 0, body, depth + 1, false, b, {}, None);
    ParsePart(lib, text, position, text[start..stop], TextLink(url), after, depth, blocks, b, Written(b, body));
    ParsePrinted(lib, text, after, rest, depth, blocks, Mark(Written(b, body), TextLink(url), b.Offset()), banned,
                 None);
  }

  // ---------------------------------------------------------------- the meaning spelled out

  lemma {:induction false} TextPositive(lib: Library, doc: Doc, banned: set<char>, previous: Option<char>)
    requires Printable(lib, doc, banned, previous) && doc != End
    ensures TextOf(doc) != ""
  {
    match doc
    case Plain(_, _) =>
    case Bare(_, _) =>
    case Styled(format, body, _) => TextPositive(lib, body, banned + {format.Symbol()}, None);
    case Hyperlink(_, body, _) => TextPositive(lib, body, {}, None);
  }

  lemma WrittenPart(b: Built, inner: Built, text: string, es: seq<Entity>, kind: Kind)
    requires inner == b.(text := b.text + text, entities := b.entities + es) && text != ""
    ensures Mark(inner, kind, b.Offset())
      == b.(text := b.text + text, entities := b.entities + (es + [Entity(kind, b.Offset(), Utf16Length(text))]))
  {
    LengthAppend(b.text, text);
    LengthPositive(text);
    Associative(b.entities, es, [Entity(kind, b.Offset(), Utf16Length(text))]);
  }

  /** The first part of a document: text, a formatted part, or a link. */
  lemma TextPart(b: Built, doc: Doc)
    requires doc.Plain? || doc.Bare?
    ensures TextOf(doc) == doc.text + TextOf(doc.rest) && Written(b, doc) == Written(Emit(b, doc.text), doc.rest)
    ensures EntitiesOf(doc, b.Offset()) == EntitiesOf(doc.rest, b.Offset() + Utf16Length(doc.text))
  {
    hide Utf16Length;
  }

  lemma StyledPart(offset: nat, format: Format, body: Doc, rest: Doc)
    ensures var doc, length := Styled(format, body, rest), Utf16Length(TextOf(body));
      && TextOf(doc) == TextOf(body) + TextOf(rest)
      && EntitiesOf(doc, offset)
           == EntitiesOf(body, offset) + [Entity(format.Kind(), offset, length)] + EntitiesOf(rest, offset + length)
  {
    hide Utf16Length;
  }

  lemma LinkPart(offset: nat, url: string, body: Doc, rest: Doc)
    ensures var doc, length := Hyperlink(url, body, rest), Utf16Length(TextOf(body));
      && TextOf(doc) == TextOf(body) + TextOf(rest)
      && EntitiesOf(doc, offset)
           == EntitiesOf(body, offset) + [Entity(TextLink(url), offset, length)] + EntitiesOf(rest, offset + length)
  {
    hide Utf16Length;
  }

  /** Writing a document adds exactly its text and its entities. */
  lemma {:induction false} WrittenIs(lib: Library, b: Built, doc: Doc, banned: set<char>, previous: Option<char>)
    requires Printable(lib, doc, banned, previous)
    ensures Written(b, doc) == b.(text := b.text + TextOf(doc), entities := b.entities + EntitiesOf(doc, b.Offset()))
    decreases doc
  {
    hide LinkEntity, Mark, Utf16Length, Encode, Depth, Print, TextOf, EntitiesOf, Written, MayStandBare;
    match doc
    case End => WrittenNothing(b);
    case Plain(text, rest) =>
      WrittenIs(lib, Emit(b, text), rest, banned, None);
      WrittenText(b, text, rest);
      TextPart(b, doc);
    case Bare(text, rest) =>
      WrittenIs(lib, Emit(b, text), rest, banned, None);
      WrittenText(b, text, rest);
      TextPart(b, doc);
    case Styled(format, body, rest) =>
      WrittenIs(lib, b, body, banned + {format.Symbol()}, None);
      TextPositive(lib, body, banned + {format.Symbol()}, None);
      WrittenIs(lib, Mark(Written(b, body), format.Kind(), b.Offset()), rest, banned, Some(format.Symbol()));
      WrittenEnclosed(b, format.Kind(), body, rest);
      StyledPart(b.Offset(), format, body, rest);
      StyledParts(b, format, body, rest);
    case Hyperlink(url, body, rest) =>
      WrittenIs(lib, b, body, {}, None);
      TextPositive(lib, body, {}, None);
      WrittenIs(lib, Mark(Written(b, body), TextLink(url), b.Offset()), rest, banned, None);
      WrittenEnclosed(b, TextLink(url), body, rest);
      LinkPart(b.Offset(), url, body, rest);
      LinkParts(b, url, body, rest);
  }

  lemma WrittenNothing(b: Built)
    ensures Written(b, End) == b.(text := b.text + TextOf(End), entities := b.entities + EntitiesOf(End, b.Offset()))
  {
    assert b.text + "" == b.text && b.entities + [] == b.entities;
  }

  lemma WrittenEnclosed(b: Built, kind: MarkupResult.Kind, body: Doc, rest: Doc)
    requires Written(b, body)
      == b.(text := b.text + TextOf(body), entities := b.entities + EntitiesOf(body, b.Offset()))
    requires var b' := Mark(Written(b, body), kind, b.Offset());
      Written(b', rest) == b'.(text := b'.text + TextOf(rest), entities := b'.entities + EntitiesOf(rest, b'.Offset()))
    requires TextOf(body) != ""
    ensures var b', length := Mark(Written(b, body), kind, b.Offset()), Utf16Length(TextOf(body));
      Written(b', rest) == b.(text := b.text + (TextOf(body) + TextOf(rest)), entities := b.entities
        + (EntitiesOf(body, b.Offset()) + [Entity(kind, b.Offset(), length)] + EntitiesOf(rest, b.Offset() + length)))
  {
    hide TextOf, EntitiesOf, Written;
    var b', es := Mark(Written(b, body), kind, b.Offset()), EntitiesOf(body, b.Offset());
    WrittenPart(b, Written(b, body), TextOf(body), es, kind);
    WrittenRest(b, b', TextOf(body), es + [Entity(kind, b.Offset(), Utf16Length(TextOf(body)))], rest);
  }

  lemma WrittenText(b: Built, text: string, rest: Doc)
    ensures var b' := Emit(b, text);
      b'.(text := b'.text + TextOf(rest), entities := b'.entities + EntitiesOf(rest, b'.Offset()))
        == b.(text := b.text + (text + TextOf(rest)),
              entities := b.entities + EntitiesOf(rest, b.Offset() + Utf16Length(text)))
  {
    LengthAppend(b.text, text);
    Associative(b.text, text, TextOf(rest));
  }

  lemma WrittenRest(b: Built, b': Built, text: string, es: seq<Entity>, rest: Doc)
    requires b' == b.(text := b.text + text, entities := b.entities + es)
    ensures b'.text + TextOf(rest) == b.text + (text + TextOf(rest))
    ensures b'.entities + EntitiesOf(rest, b'.Offset())
      == b.entities + (es + EntitiesOf(rest, b.Offset() + Utf16Length(text)))
  {
    LengthAppend(b.text, text);
    Associative(b.text, text, TextOf(rest));
    Associative(b.entities, es, EntitiesOf(rest, b'.Offset()));
  }

  /** Parsing the printed form of a document gives back exactly its text and its entities. */
  lemma RoundTrip(lib: Library, doc: Doc, blocks: bool, fallbacks: map<string, string>)
    requires Printable(lib, doc, {}, None) && Depth(doc) <= 64
    ensures Parse(lib, Print(doc), 0, blocks, Built("", [], fallbacks, map[]))
      == Ok(Built(TextOf(doc), EntitiesOf(doc, 0), fallbacks, map[]))
  {
    var b := Built("", [], fallbacks, map[]);
    PrintReads("", doc);
    PrintableIsWellBare(lib, doc, {}, None);
    PrintedGuards(Print(doc), 0, doc);
    GuardedBelow(Print(doc), Width(doc));
    ParsePrinted(lib, Print(doc), 0, doc, 0, blocks, b, {}, None);
    WrittenIs(lib, b, doc, {}, None);
    assert "" + TextOf(doc) == TextOf(doc) && [] + EntitiesOf(doc, 0) == EntitiesOf(doc, 0);
  }

  /**
   Ordinary text is read as itself, without entities: no backslash, backtick, bracket or symbol of a format, and no
   `>` where a line begins. Addresses are part of it.
   */
  lemma BareTextIsItself(lib: Library, text: string, blocks: bool, fallbacks: map<string, string>)
    requires forall c <- text :: c !in "\\`[]*_~|"
    requires blocks ==> forall k :: 0 <= k < |text| && text[k] == '>' ==> k > 0 && text[k - 1] != '\n'
    ensures Parse(lib, text, 0, blocks, Built("", [], fallbacks, map[])) == Ok(Built(text, [], fallbacks, map[]))
  {
    assert forall k :: 0 <= k < |text| ==> text[k] in text;
    ParseBare(lib, text, 0, |text|, 0, blocks, Built("", [], fallbacks, map[]));
    assert "" + text[0..|text|] == text;
  }

  /** Text with every character from 1 to 126 escaped parses to itself, without entities. */
  lemma EscapedTextIsItself(lib: Library, s: string, blocks: bool, fallbacks: map<string, string>)
    ensures Parse(lib, EscapeOnto("", s), 0, blocks, Built("", [], fallbacks, map[]))
      == Ok(Built(s, [], fallbacks, map[]))
  {
    var doc := if s == "" then End else Plain(s, End);
    assert PrintOnto(EscapeOnto("", s), End) == EscapeOnto("", s) == Print(doc);
    assert TextOf(doc) == s + "" == s;
    assert EntitiesOf(doc, 0) == [];
    assert Depth(doc) == 0;
    RoundTrip(lib, doc, blocks, fallbacks);
  }
}
