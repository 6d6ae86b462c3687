/**
 Documents of plain text, the seven formats and links: how they are printed, what they mean, and what stands at each
 position of a printed text. A document is read at positions, so that a text may be cut, moved and extended without
 reading it again.
 */
module PrintedMarkdown {
  import opened Text
  import opened MarkupResult
  import opened MarkupMarkdown

  datatype Format = Stars | DoubleStars | Underscore | DoubleUnderscore | Bars | Tilde | DoubleTilde {
    function Marker(): string {
      match this
      case Stars => "*"
      case DoubleStars => "**"
      case Underscore => "_"
      case DoubleUnderscore => "__"
      case Bars => "||"
      case Tilde => "~"
      case DoubleTilde => "~~"
    }

    function Symbol(): char {
      match this
      case Stars => '*'
      case DoubleStars => '*'
      case Underscore => '_'
      case DoubleUnderscore => '_'
      case Bars => '|'
      case Tilde => '~'
      case DoubleTilde => '~'
    }

    function Kind(): MarkupResult.Kind {
      match this
      case Stars => Bold
      case DoubleStars => Bold
      case Underscore => Italic
      case DoubleUnderscore => Underline
      case Bars => Spoiler
      case Tilde => Strikethrough
      case DoubleTilde => Strikethrough
    }
  }

  /** Escaped text, bare text, formatted parts and links, nested at will. */
  datatype Doc =
    | End
    | Plain(text: string, rest: Doc)
    | Bare(text: string, rest: Doc)
    | Styled(format: Format, body: Doc, rest: Doc)
    | Hyperlink(url: string, body: Doc, rest: Doc)

  // ---------------------------------------------------------------- printing

  function EscapeCharacter(c: char): string {
    if 1 <= c as int <= 126 then ['\\', c] else [c]
  }

  /** Writes the escaped form of `s` after what is already printed. */
  function EscapeOnto(printed: string, s: string): string
    decreases |s|
  {
    if s == [] then printed else EscapeOnto(printed + EscapeCharacter(s[0]), s[1..])
  }

  function PrintOnto(printed: string, doc: Doc): string
    decreases doc
  {
    match doc
    case End => printed
    case Plain(text, rest) => PrintOnto(EscapeOnto(printed, text), rest)
    case Bare(text, rest) => PrintOnto(printed + text, rest)
    case Styled(format, body, rest) =>
      PrintOnto(PrintOnto(printed + format.Marker(), body) + format.Marker(), rest)
    case Hyperlink(url, body, rest) =>
      PrintOnto(EscapeOnto(PrintOnto(printed + "[", body) + "](", url) + ")", rest)
  }

  function Print(doc: Doc): string {
    PrintOnto("", doc)
  }

  // ---------------------------------------------------------------- meaning

  function TextOf(doc: Doc): string {
    match doc
    case End => ""
    case Plain(text, rest) => text + TextOf(rest)
    case Bare(text, rest) => text + TextOf(rest)
    case Styled(_, body, rest) => TextOf(body) + TextOf(rest)
    case Hyperlink(_, body, rest) => TextOf(body) + TextOf(rest)
  }

  /** What a builder holds after the document: the text, and one entity per formatted part and link. */
  function Written(b: Built, doc: Doc): Built
    decreases doc
  {
    match doc
    case End => b
    case Plain(text, rest) => Written(Emit(b, text), rest)
    case Bare(text, rest) => Written(Emit(b, text), rest)
    case Styled(format, body, rest) => Written(Mark(Written(b, body), format.Kind(), b.Offset()), rest)
    case Hyperlink(url, body, rest) => Written(Mark(Written(b, body), TextLink(url), b.Offset()), rest)
  }

  /** The entities of a document that starts at an offset: inner ones before outer ones. */
  function EntitiesOf(doc: Doc, offset: nat): seq<Entity> {
    match doc
    case End => []
    case Plain(text, rest) => EntitiesOf(rest, offset + Utf16Length(text))
    case Bare(text, rest) => EntitiesOf(rest, offset + Utf16Length(text))
    case Styled(format, body, rest) =>
      var length := Utf16Length(TextOf(body));
      EntitiesOf(body, offset) + [Entity(format.Kind(), offset, length)] + EntitiesOf(rest, offset + length)
    case Hyperlink(url, body, rest) =>
      var length := Utf16Length(TextOf(body));
      EntitiesOf(body, offset) + [Entity(TextLink(url), offset, length)] + EntitiesOf(rest, offset + length)
  }

  function Depth(doc: Doc): nat {
    match doc
    case End => 0
    case Plain(_, rest) => Depth(rest)
    case Bare(_, rest) => Depth(rest)
    case Styled(_, body, rest) => if Depth(rest) > Depth(body) + 1 then Depth(rest) else Depth(body) + 1
    case Hyperlink(_, body, rest) => if Depth(rest) > Depth(body) + 1 then Depth(rest) else Depth(body) + 1
  }

  /** The characters that may stand bare in a document, wherever they stand. */
  predicate Ordinary(c: char) {
    c !in "\\`[]*_~|>"
  }

  /** No address begins in the text. */
  ghost predicate NoAddress(s: string) {
    forall k, i :: 0 <= k < |s| && 0 <= i < |URL_PREFIXES| ==> !StartsWith(s, URL_PREFIXES[i], k)
  }

  /**
   Bare text: ordinary characters, no digit first, no exclamation mark last; an address in it ends with it or at a
   space, so that it does not reach into what follows.
   */
  ghost predicate MayStandBare(s: string, last: bool) {
    && s != "" && (forall c <- s :: Ordinary(c)) && !IsDigit(s[0]) && s[|s| - 1] != '!'
    && (last || IsSpace(s[|s| - 1]) || NoAddress(s))
  }

  /**
   What can be printed: parts are not empty, a symbol is not reused inside its own part (outside link captions)
   nor right after it, `**` does not open on `__`, and link targets are acceptable.
   */
  ghost predicate Printable(lib: Library, doc: Doc, banned: set<char>, previous: Option<char>) {
    match doc
    case End => true
    case Plain(text, rest) => text != "" && Printable(lib, rest, banned, None)
    case Bare(text, rest) => MayStandBare(text, rest == End) && !rest.Bare? && Printable(lib, rest, banned, None)
    case Styled(format, body, rest) =>
      && format.Symbol() !in banned && previous != Some(format.Symbol())
      && body != End && !(format == DoubleStars && body.Styled? && body.format == DoubleUnderscore)
      && Printable(lib, body, banned + {format.Symbol()}, None)
      && Printable(lib, rest, banned, Some(format.Symbol()))
    case Hyperlink(url, body, rest) =>
      && body != End && LinkEntity(lib, url, false).Ok?
      && Printable(lib, body, {}, None)
      && Printable(lib, rest, banned, None)
  }

  // ---------------------------------------------------------------- printed text, position by position

  function EscapeWidth(s: string): nat {
    if s == [] then 0 else (if 1 <= s[0] as int <= 126 then 2 else 1) + EscapeWidth(s[1..])
  }

  function Size(format: Format): nat {
    match format
    case Stars | Underscore | Tilde => 1
    case _ => 2
  }

  function Width(doc: Doc): nat {
    match doc
    case End => 0
    case Plain(text, rest) => EscapeWidth(text) + Width(rest)
    case Bare(text, rest) => |text| + Width(rest)
    case Styled(format, body, rest) => Size(format) + Width(body) + Size(format) + Width(rest)
    case Hyperlink(url, body, rest) => 1 + Width(body) + 2 + EscapeWidth(url) + 1 + Width(rest)
  }

  /** The escaped form of `s` stands in the text at a position. */
  predicate EscapedAt(text: string, position: nat, s: string)
    decreases |s|
  {
    if s == [] then position <= |text|
    else if 1 <= s[0] as int <= 126 then
      At(text, '\\', position) && At(text, s[0], position + 1) && EscapedAt(text, position + 2, s[1..])
    else At(text, s[0], position) && EscapedAt(text, position + 1, s[1..])
  }

  predicate BareAt(text: string, position: nat, s: string) {
    position + |s| <= |text| && text[position..position + |s|] == s
  }

  predicate MarkerAt(text: string, position: nat, format: Format) {
    At(text, format.Symbol(), position) && (Size(format) == 2 ==> At(text, format.Symbol(), position + 1))
  }

  /** The positions inside a printed link. */
  function CaptionStop(position: nat, body: Doc): nat { position + 1 + Width(body) }

  function UrlStop(position: nat, url: string, body: Doc): nat { CaptionStop(position, body) + 2 + EscapeWidth(url) }

  /** The positions inside a printed formatted part. */
  function StyleStop(position: nat, format: Format, body: Doc): nat { position + Size(format) + Width(body) }

  /** The printed form of a document stands in the text at a position. */
  predicate Reads(text: string, position: nat, doc: Doc)
    decreases doc
  {
    match doc
    case End => position <= |text|
    case Plain(s, rest) => EscapedAt(text, position, s) && Reads(text, position + EscapeWidth(s), rest)
    case Bare(s, rest) => BareAt(text, position, s) && Reads(text, position + |s|, rest)
    case Styled(format, body, rest) =>
      var stop := StyleStop(position, format, body);
      && MarkerAt(text, position, format) && Reads(text, position + Size(format), body)
      && MarkerAt(text, stop, format) && Reads(text, stop + Size(format), rest)
    case Hyperlink(url, body, rest) =>
      var stop, end := CaptionStop(position, body), UrlStop(position, url, body);
      && At(text, '[', position) && Reads(text, position + 1, body)
      && At(text, ']', stop) && At(text, '(', stop + 1) && EscapedAt(text, stop + 2, url)
      && At(text, ')', end) && Reads(text, end + 1, rest)
  }

  /** The parts of a printed formatted part, and of a printed link. */
  lemma ReadsStyled(text: string, p: nat, format: Format, body: Doc, rest: Doc)
    ensures var stop := StyleStop(p, format, body);
      Reads(text, p, Styled(format, body, rest)) <==>
        && MarkerAt(text, p, format) && Reads(text, p + Size(format), body)
        && MarkerAt(text, stop, format) && Reads(text, stop + Size(format), rest)
    ensures p + Width(Styled(format, body, rest)) == StyleStop(p, format, body) + Size(format) + Width(rest)
  {
  }

  lemma ReadsLink(text: string, p: nat, url: string, body: Doc, rest: Doc)
    ensures var stop, end := CaptionStop(p, body), UrlStop(p, url, body);
      Reads(text, p, Hyperlink(url, body, rest)) <==>
        && At(text, '[', p) && Reads(text, p + 1, body)
        && At(text, ']', stop) && At(text, '(', stop + 1) && EscapedAt(text, stop + 2, url)
        && At(text, ')', end) && Reads(text, end + 1, rest)
    ensures p + Width(Hyperlink(url, body, rest)) == UrlStop(p, url, body) + 1 + Width(rest)
  {
  }

  /** Where nothing or plain text is printed. */
  lemma ReadsPlain(text: string, p: nat, s: string, rest: Doc)
    ensures Reads(text, p, End) <==> p <= |text|
    ensures Width(End) == 0
    ensures Reads(text, p, Plain(s, rest)) <==> EscapedAt(text, p, s) && Reads(text, p + EscapeWidth(s), rest)
    ensures Width(Plain(s, rest)) == EscapeWidth(s) + Width(rest)
    ensures Reads(text, p, Doc.Bare(s, rest)) <==> BareAt(text, p, s) && Reads(text, p + |s|, rest)
    ensures Width(Doc.Bare(s, rest)) == |s| + Width(rest)
  {
  }

  /** The `n` characters from `p` in one text are those from `q` in another. */
  predicate Same(text: string, p: nat, other: string, q: nat, n: nat)
    decreases n
  {
    n == 0 || (p < |text| && q < |other| && text[p] == other[q] && Same(text, p + 1, other, q + 1, n - 1))
  }

  lemma {:induction false} SameSplit(text: string, p: nat, other: string, q: nat, m: nat, n: nat)
    ensures Same(text, p, other, q, m + n) <==> Same(text, p, other, q, m) && Same(text, p + m, other, q + m, n)
    decreases m
  {
    if m > 0 && p < |text| && q < |other| { SameSplit(text, p + 1, other, q + 1, m - 1, n); }
  }

  lemma {:induction false} SameSlice(text: string, lo: nat, hi: nat, p: nat, n: nat)
    requires lo <= p && p + n <= hi <= |text|
    ensures Same(text, p, text[lo..hi], p - lo, n)
    decreases n
  {
    if n > 0 {
      assert text[lo..hi][p - lo] == text[p];
      SameSlice(text, lo, hi, p + 1, n - 1);
    }
  }

  lemma {:induction false} SameAppend(text: string, more: string, p: nat, n: nat)
    requires p + n <= |text|
    ensures Same(text, p, text + more, p, n)
    decreases n
  {
    if n > 0 {
      assert (text + more)[p] == text[p];
      SameAppend(text, more, p + 1, n - 1);
    }
  }

  lemma {:induction false} SameTrans(a: string, p: nat, b: string, q: nat, c: string, r: nat, n: nat)
    requires Same(a, p, b, q, n) && Same(b, q, c, r, n)
    ensures Same(a, p, c, r, n)
    decreases n
  {
    if n > 0 { SameTrans(a, p + 1, b, q + 1, c, r + 1, n - 1); }
  }

  /** Escaped and printed text keeps its reading wherever the same characters stand. */
  lemma {:induction false} EscapedElsewhere(text: string, p: nat, s: string, other: string, q: nat)
    requires EscapedAt(text, p, s) && q + EscapeWidth(s) <= |other| && Same(text, p, other, q, EscapeWidth(s))
    ensures EscapedAt(other, q, s)
    decreases |s|
  {
    if s != "" {
      var step := if 1 <= s[0] as int <= 126 then 2 else 1;
      SameSplit(text, p, other, q, step, EscapeWidth(s[1..]));
      EscapedElsewhere(text, p + step, s[1..], other, q + step);
    }
  }

  lemma {:induction false} SameStretch(text: string, p: nat, other: string, q: nat, n: nat)
    requires p + n <= |text| && q + n <= |other| && Same(text, p, other, q, n)
    ensures text[p..p + n] == other[q..q + n]
    decreases n
  {
    if n > 0 {
      SameStretch(text, p + 1, other, q + 1, n - 1);
      assert text[p..p + n] == [text[p]] + text[p + 1..p + n] && other[q..q + n] == [other[q]] + other[q + 1..q + n];
    }
  }

  lemma MarkerElsewhere(text: string, p: nat, format: Format, other: string, q: nat)
    requires MarkerAt(text, p, format) && Same(text, p, other, q, Size(format))
    ensures MarkerAt(other, q, format)
  {
  }

  lemma {:induction false} ReadsElsewhere(text: string, p: nat, doc: Doc, other: string, q: nat)
    requires Reads(text, p, doc) && q + Width(doc) <= |other| && Same(text, p, other, q, Width(doc))
    ensures Reads(other, q, doc)
    decreases doc, 1
  {
    hide Same, Reads, Width, EscapedAt;
    match doc
    case End =>
      ReadsPlain(text, p, "", End);
      ReadsPlain(other, q, "", End);
    case Plain(s, rest) =>
      ReadsPlain(text, p, s, rest);
      ReadsPlain(other, q, s, rest);
      var n := EscapeWidth(s);
      SameSplit(text, p, other, q, n, Width(rest));
      EscapedElsewhere(text, p, s, other, q);
      ReadsElsewhere(text, p + n, rest, other, q + n);
    case Bare(s, rest) =>
      ReadsPlain(text, p, s, rest);
      ReadsPlain(other, q, s, rest);
      SameSplit(text, p, other, q, |s|, Width(rest));
      SameStretch(text, p, other, q, |s|);
      ReadsElsewhere(text, p + |s|, rest, other, q + |s|);
    case Styled(format, body, rest) => StyledElsewhere(text, p, format, body, rest, other, q);
    case Hyperlink(url, body, rest) => LinkElsewhere(text, p, url, body, rest, other, q);
  }

  lemma {:induction false} StyledElsewhere(text: string, p: nat, format: Format, body: Doc, rest: Doc, other: string,
                                           q: nat)
    requires var doc := Styled(format, body, rest);
      Reads(text, p, doc) && q + Width(doc) <= |other| && Same(text, p, other, q, Width(doc))
    ensures Reads(other, q, Styled(format, body, rest))
    decreases Styled(format, body, rest), 0
  {
    hide Reads;
    ReadsStyled(other, q, format, body, rest);
    ReadsStyled(text, p, format, body, rest);
    hide Size;
    hide MarkerAt;
    hide Same;
    var m, w, r := Size(format), Width(body), Width(rest);
    var stop, stop' := StyleStop(p, format, body), StyleStop(q, format, body);
    SameSplit(text, p, other, q, m, w + m + r);
    SameSplit(text, p + m, other, q + m, w, m + r);
    SameSplit(text, stop, other, stop', m, r);
    MarkerElsewhere(text, p, format, other, q);
    ReadsElsewhere(text, p + m, body, other, q + m);
    MarkerElsewhere(text, stop, format, other, stop');
    ReadsElsewhere(text, stop + m, rest, other, stop' + m);
  }

  lemma CharElsewhere(text: string, p: nat, c: char, other: string, q: nat)
    requires At(text, c, p) && Same(text, p, other, q, 1)
    ensures At(other, c, q)
  {
  }

  lemma {:induction false} LinkElsewhere(text: string, p: nat, url: string, body: Doc, rest: Doc, other: string, q: nat)
    requires var doc := Hyperlink(url, body, rest);
      Reads(text, p, doc) && q + Width(doc) <= |other| && Same(text, p, other, q, Width(doc))
    ensures Reads(other, q, Hyperlink(url, body, rest))
    decreases Hyperlink(url, body, rest), 0
  {
    hide Reads;
    ReadsLink(other, q, url, body, rest);
    ReadsLink(text, p, url, body, rest);
    hide Same;
    var w, u, r := Width(body), EscapeWidth(url), Width(rest);
    SameSplit(text, p, other, q, 1, w + 2 + u + 1 + r);
    SameSplit(text, p + 1, other, q + 1, w, 2 + u + 1 + r);
    SameSplit(text, p + 1 + w, other, q + 1 + w, 1, 1 + u + 1 + r);
    SameSplit(text, p + 2 + w, other, q + 2 + w, 1, u + 1 + r);
    SameSplit(text, p + 3 + w, other, q + 3 + w, u, 1 + r);
    SameSplit(text, p + 3 + w + u, other, q + 3 + w + u, 1, r);
    CharElsewhere(text, p, '[', other, q);
    ReadsElsewhere(text, p + 1, body, other, q + 1);
    CharElsewhere(text, p + 1 + w, ']', other, q + 1 + w);
    CharElsewhere(text, p + 2 + w, '(', other, q + 2 + w);
    EscapedElsewhere(text, p + 3 + w, url, other, q + 3 + w);
    CharElsewhere(text, p + 3 + w + u, ')', other, q + 3 + w + u);
    ReadsElsewhere(text, p + 4 + w + u, rest, other, q + 4 + w + u);
  }

  predicate Extends(text: string, longer: string) {
    |text| <= |longer| && Same(text, 0, longer, 0, |text|)
  }

  lemma ExtendsAppend(text: string, more: string)
    ensures Extends(text, text + more)
  {
    SameAppend(text, more, 0, |text|);
  }

  lemma ExtendsTrans(a: string, b: string, c: string)
    requires Extends(a, b) && Extends(b, c)
    ensures Extends(a, c)
  {
    SameSplit(b, 0, c, 0, |a|, |b| - |a|);
    SameTrans(a, 0, b, 0, c, 0, |a|);
  }

  lemma SameWithin(text: string, longer: string, p: nat, n: nat)
    requires Extends(text, longer) && p + n <= |text|
    ensures Same(text, p, longer, p, n)
  {
    hide Same;
    SameSplit(text, 0, longer, 0, p, |text| - p);
    SameSplit(text, p, longer, p, n, |text| - p - n);
  }

  lemma ReadsExtended(text: string, p: nat, doc: Doc, longer: string)
    requires Reads(text, p, doc) && p + Width(doc) <= |text| && Extends(text, longer)
    ensures Reads(longer, p, doc)
  {
    hide Same;
    SameWithin(text, longer, p, Width(doc));
    ReadsElsewhere(text, p, doc, longer, p);
  }

  lemma EscapedExtended(text: string, p: nat, s: string, longer: string)
    requires EscapedAt(text, p, s) && p + EscapeWidth(s) <= |text| && Extends(text, longer)
    ensures EscapedAt(longer, p, s)
  {
    hide Same;
    SameWithin(text, longer, p, EscapeWidth(s));
    EscapedElsewhere(text, p, s, longer, p);
  }

  lemma MarkerExtended(text: string, p: nat, format: Format, longer: string)
    requires MarkerAt(text, p, format) && Extends(text, longer)
    ensures MarkerAt(longer, p, format)
  {
    SameWithin(text, longer, p, Size(format));
  }

  lemma CharExtended(text: string, p: nat, c: char, longer: string)
    requires At(text, c, p) && Extends(text, longer)
    ensures At(longer, c, p)
  {
    SameWithin(text, longer, p, 1);
  }

  lemma {:induction false} EscapeReads(printed: string, s: string)
    ensures var all := EscapeOnto(printed, s);
      |all| == |printed| + EscapeWidth(s) && Extends(printed, all) && EscapedAt(all, |printed|, s)
    decreases |s|
  {
    if s == "" {
      SameAppend(printed, "", 0, |printed|);
      assert printed + "" == printed;
    } else {
      var head := EscapeCharacter(s[0]);
      var next, all := printed + head, EscapeOnto(printed, s);
      EscapeReads(next, s[1..]);
      ExtendsAppend(printed, head);
      ExtendsTrans(printed, next, all);
      assert next[|printed|] == head[0];
      CharExtended(next, |printed|, head[0], all);
      if |head| == 2 {
        assert next[|printed| + 1] == head[1];
        CharExtended(next, |printed| + 1, head[1], all);
      }
    }
  }

  lemma MarkerShape(format: Format)
    ensures format.Marker() == if Size(format) == 1 then [format.Symbol()] else [format.Symbol(), format.Symbol()]
    ensures |format.Marker()| == Size(format) && format.Marker()[0] == format.Symbol()
    ensures !IsCodeMarker(format.Marker())
  {
  }

  lemma MarkerAppended(text: string, format: Format)
    ensures MarkerAt(text + format.Marker(), |text|, format) && |text + format.Marker()| == |text| + Size(format)
  {
    MarkerShape(format);
    var m := format.Marker();
    assert (text + m)[|text|] == m[0];
    if Size(format) == 2 { assert (text + m)[|text| + 1] == m[1]; }
  }

  lemma BareExtended(printed: string, s: string, all: string)
    requires Extends(printed + s, all)
    ensures BareAt(all, |printed|, s)
  {
    SameStretch(printed + s, 0, all, 0, |printed + s|);
    assert all[..|printed + s|] == printed + s;
  }

  /** What is printed reads as the document, after what stood there before. */
  lemma {:induction false} PrintReads(printed: string, doc: Doc)
    ensures var all := PrintOnto(printed, doc);
      |all| == |printed| + Width(doc) && Extends(printed, all) && Reads(all, |printed|, doc)
    decreases doc, 1
  {
    hide Same, Reads, Width, EscapedAt, EscapeOnto, EscapeWidth, Extends;
    match doc
    case End =>
      ExtendsAppend(printed, "");
      assert printed + "" == printed;
      ReadsPlain(printed, |printed|, "", End);
    case Plain(s, rest) =>
      var escaped, all := EscapeOnto(printed, s), PrintOnto(printed, doc);
      ReadsPlain(all, |printed|, s, rest);
      EscapeReads(printed, s);
      PrintReads(escaped, rest);
      ExtendsTrans(printed, escaped, all);
      EscapedExtended(escaped, |printed|, s, all);
    case Bare(s, rest) =>
      var next, all := printed + s, PrintOnto(printed, doc);
      ReadsPlain(all, |printed|, s, rest);
      ExtendsAppend(printed, s);
      PrintReads(next, rest);
      ExtendsTrans(printed, next, all);
      BareExtended(printed, s, all);
    case Styled(format, body, rest) => StyledReads(printed, format, body, rest);
    case Hyperlink(url, body, rest) => LinkReads(printed, url, body, rest);
  }

  lemma {:induction false} StyledReads(printed: string, format: Format, body: Doc, rest: Doc)
    ensures var doc := Styled(format, body, rest);
      var all := PrintOnto(printed, doc);
      |all| == |printed| + Width(doc) && Extends(printed, all) && Reads(all, |printed|, doc)
    decreases Styled(format, body, rest), 0
  {
    hide Reads;
    ReadsStyled(PrintOnto(printed, Styled(format, body, rest)), |printed|, format, body, rest);
    hide Size;
    hide MarkerAt;
    hide Same;
    var m := format.Marker();
    var t1 := printed + m;
    var t2 := PrintOnto(t1, body);
    var t3 := t2 + m;
    var all := PrintOnto(t3, rest);
    MarkerAppended(printed, format);
    ExtendsAppend(printed, m);
    PrintReads(t1, body);
    MarkerAppended(t2, format);
    ExtendsAppend(t2, m);
    PrintReads(t3, rest);
    ExtendsTrans(t2, t3, all);
    ExtendsTrans(t1, t2, all);
    ExtendsTrans(printed, t1, all);
    MarkerExtended(t1, |printed|, format, all);
    ReadsExtended(t2, |t1|, body, all);
    MarkerExtended(t3, |t2|, format, all);
  }

  lemma CharAppended(text: string, c: char)
    ensures At(text + [c], c, |text|) && Extends(text, text + [c])
  {
    ExtendsAppend(text, [c]);
  }

  lemma {:induction false} LinkReads(printed: string, url: string, body: Doc, rest: Doc)
    ensures var doc := Hyperlink(url, body, rest);
      var all := PrintOnto(printed, doc);
      |all| == |printed| + Width(doc) && Extends(printed, all) && Reads(all, |printed|, doc)
    decreases Hyperlink(url, body, rest), 0
  {
    hide Reads;
    ReadsLink(PrintOnto(printed, Hyperlink(url, body, rest)), |printed|, url, body, rest);
    hide Same;
    var t1 := printed + "[";
    var t2 := PrintOnto(t1, body);
    var t3 := t2 + "](";
    var t4 := EscapeOnto(t3, url);
    var t5 := t4 + ")";
    var all := PrintOnto(t5, rest);
    CharAppended(printed, '[');
    PrintReads(t1, body);
    ExtendsAppend(t2, "](");
    assert At(t3, ']', |t2|) && At(t3, '(', |t2| + 1);
    EscapeReads(t3, url);
    CharAppended(t4, ')');
    PrintReads(t5, rest);
    ExtendsTrans(t4, t5, all);
    ExtendsTrans(t3, t4, all);
    ExtendsTrans(t2, t3, all);
    ExtendsTrans(t1, t2, all);
    ExtendsTrans(printed, t1, all);
    CharExtended(t1, |printed|, '[', all);
    ReadsExtended(t2, |t1|, body, all);
    CharExtended(t3, |t2|, ']', all);
    CharExtended(t3, |t2| + 1, '(', all);
    EscapedExtended(t4, |t3|, url, all);
    CharExtended(t5, |t4|, ')', all);
  }

  lemma {:induction false} UnescapeAt(text: string, position: nat, end: nat, s: string)
    requires EscapedAt(text, position, s) && end == position + EscapeWidth(s) <= |text|
    ensures Unescape(text[position..end]) == s
    decreases |s|
  {
    var e := text[position..end];
    if s != "" {
      var step := if 1 <= s[0] as int <= 126 then 2 else 1;
      UnescapeAt(text, position + step, end, s[1..]);
      assert e[step..] == text[position + step..end];
      assert e[0] == text[position];
      if step == 2 { assert e[1] == text[position + 1]; }
      assert s == [s[0]] + s[1..];
    }
  }
}
