/**
 The parser's scans over printed text: the search for the closing marker and the search for the end of a link pass
 everything a document prints inside them, what stands right after a marker or a digit never starts another token,
 and each printed character is read as the token it was printed for.
 */
module PrintedScans {
  import opened Text
  import opened MarkupResult
  import opened MarkupMarkdown
  import opened PrintedMarkdown

  lemma {:induction false} BalanceEscaped(text: string, cursor: nat, depth: nat, open: char, close: char, s: string)
    requires EscapedAt(text, cursor, s) && depth > 0 && open != close
    requires 0 < open as int <= 126 && 0 < close as int <= 126
    ensures Balance(text, cursor, depth, open, close) == Balance(text, cursor + EscapeWidth(s), depth, open, close)
    decreases |s|
  {
    if s != "" {
      BalanceEscaped(text, cursor + (if 1 <= s[0] as int <= 126 then 2 else 1), depth, open, close, s[1..]);
    }
  }

  lemma BalanceOne(text: string, cursor: nat, depth: nat, c: char)
    requires At(text, c, cursor) && depth > 0 && c != '\\'
    ensures Balance(text, cursor, depth, '[', ']') ==
      Balance(text, cursor + 1, if c == '[' then depth + 1 else if c == ']' then depth - 1 else depth, '[', ']')
  {
  }

  lemma BalanceMarker(text: string, cursor: nat, depth: nat, format: Format)
    requires MarkerAt(text, cursor, format) && depth > 0
    ensures Balance(text, cursor, depth, '[', ']') == Balance(text, cursor + Size(format), depth, '[', ']')
  {
    BalanceOne(text, cursor, depth, format.Symbol());
    if Size(format) == 2 { BalanceOne(text, cursor + 1, depth, format.Symbol()); }
  }

  lemma BalanceStyled(text: string, cursor: nat, depth: nat, format: Format, stop: nat)
    requires MarkerAt(text, cursor, format) && MarkerAt(text, stop, format) && depth > 0
    requires Balance(text, cursor + Size(format), depth, '[', ']') == Balance(text, stop, depth, '[', ']')
    ensures Balance(text, cursor, depth, '[', ']') == Balance(text, stop + Size(format), depth, '[', ']')
  {
    hide Balance;
    BalanceMarker(text, cursor, depth, format);
    BalanceMarker(text, stop, depth, format);
  }

  lemma BalanceLink(text: string, cursor: nat, depth: nat, stop: nat, url: string)
    requires At(text, '[', cursor) && At(text, ']', stop) && At(text, '(', stop + 1) && depth > 0
    requires EscapedAt(text, stop + 2, url) && At(text, ')', stop + 2 + EscapeWidth(url))
    requires Balance(text, cursor + 1, depth + 1, '[', ']') == Balance(text, stop, depth + 1, '[', ']')
    ensures Balance(text, cursor, depth, '[', ']') == Balance(text, stop + 2 + EscapeWidth(url) + 1, depth, '[', ']')
  {
    hide Balance;
    BalanceOne(text, cursor, depth, '[');
    BalanceOne(text, stop, depth + 1, ']');
    BalanceOne(text, stop + 1, depth, '(');
    BalanceEscaped(text, stop + 2, depth, '[', ']', url);
    BalanceOne(text, stop + 2 + EscapeWidth(url), depth, ')');
  }

  /** The bare texts of the document are of ordinary characters and begin with no digit. */
  predicate WellBare(doc: Doc) {
    match doc
    case End => true
    case Plain(_, rest) => WellBare(rest)
    case Bare(s, rest) => s != "" && (forall c <- s :: Ordinary(c)) && !IsDigit(s[0]) && WellBare(rest)
    case Styled(_, body, rest) => WellBare(body) && WellBare(rest)
    case Hyperlink(_, body, rest) => WellBare(body) && WellBare(rest)
  }

  lemma {:induction false} PrintableIsWellBare(lib: Library, doc: Doc, banned: set<char>, previous: Option<char>)
    requires Printable(lib, doc, banned, previous)
    ensures WellBare(doc)
  {
    match doc
    case End =>
    case Plain(_, rest) => PrintableIsWellBare(lib, rest, banned, None);
    case Bare(_, rest) => PrintableIsWellBare(lib, rest, banned, None);
    case Styled(format, body, rest) =>
      PrintableIsWellBare(lib, body, banned + {format.Symbol()}, None);
      PrintableIsWellBare(lib, rest, banned, Some(format.Symbol()));
    case Hyperlink(_, body, rest) =>
      PrintableIsWellBare(lib, body, {}, None);
      PrintableIsWellBare(lib, rest, banned, None);
  }

  lemma {:induction false} BalanceBare(text: string, cursor: nat, depth: nat, s: string)
    requires BareAt(text, cursor, s) && depth > 0 && forall c <- s :: Ordinary(c)
    ensures Balance(text, cursor, depth, '[', ']') == Balance(text, cursor + |s|, depth, '[', ']')
    decreases |s|
  {
    if s != "" {
      BareRest(text, cursor, s, 1);
      BalanceOne(text, cursor, depth, s[0]);
      BalanceBare(text, cursor + 1, depth, s[1..]);
    }
  }

  lemma BareRest(text: string, p: nat, s: string, n: nat)
    requires BareAt(text, p, s) && n <= |s|
    ensures BareAt(text, p + n, s[n..]) && (forall c <- s[n..] :: c in s)
    ensures forall k :: 0 <= k < |s| ==> text[p + k] == s[k] && s[k] in s
  {
    assert forall k :: 0 <= k < |s| ==> text[p..p + |s|][k] == s[k];
  }

  /** The scan for the end of a caption passes a printed document at the same depth. */
  lemma {:induction false} BalanceDoc(text: string, cursor: nat, depth: nat, doc: Doc)
    requires Reads(text, cursor, doc) && depth > 0 && WellBare(doc)
    ensures Balance(text, cursor, depth, '[', ']') == Balance(text, cursor + Width(doc), depth, '[', ']')
    decreases doc, 1
  {
    hide Balance, Reads, Width, EscapedAt;
    match doc
    case End => ReadsPlain(text, cursor, "", End);
    case Plain(s, rest) =>
      ReadsPlain(text, cursor, s, rest);
      BalanceEscaped(text, cursor, depth, '[', ']', s);
      BalanceDoc(text, cursor + EscapeWidth(s), depth, rest);
    case Bare(s, rest) =>
      ReadsPlain(text, cursor, s, rest);
      BalanceBare(text, cursor, depth, s);
      BalanceDoc(text, cursor + |s|, depth, rest);
    case Styled(format, body, rest) => BalanceDocStyled(text, cursor, depth, format, body, rest);
    case Hyperlink(url, body, rest) => BalanceDocLink(text, cursor, depth, url, body, rest);
  }

  lemma {:induction false} BalanceDocStyled(text: string, cursor: nat, depth: nat, format: Format, body: Doc, rest: Doc)
    requires Reads(text, cursor, Styled(format, body, rest)) && depth > 0 && WellBare(Styled(format, body, rest))
    ensures Balance(text, cursor, depth, '[', ']')
      == Balance(text, cursor + Width(Styled(format, body, rest)), depth, '[', ']')
    decreases Styled(format, body, rest), 0
  {
    hide Reads;
    ReadsStyled(text, cursor, format, body, rest);
    hide Size;
    hide MarkerAt;
    hide Balance;
    var stop := StyleStop(cursor, format, body);
    BalanceDoc(text, cursor + Size(format), depth, body);
    BalanceStyled(text, cursor, depth, format, stop);
    BalanceDoc(text, stop + Size(format), depth, rest);
  }

  lemma {:induction false} BalanceDocLink(text: string, cursor: nat, depth: nat, url: string, body: Doc, rest: Doc)
    requires Reads(text, cursor, Hyperlink(url, body, rest)) && depth > 0 && WellBare(Hyperlink(url, body, rest))
    ensures Balance(text, cursor, depth, '[', ']')
      == Balance(text, cursor + Width(Hyperlink(url, body, rest)), depth, '[', ']')
    decreases Hyperlink(url, body, rest), 0
  {
    hide Reads;
    ReadsLink(text, cursor, url, body, rest);
    hide Balance;
    BalanceDoc(text, cursor + 1, depth + 1, body);
    BalanceLink(text, cursor, depth, CaptionStop(cursor, body), url);
    BalanceDoc(text, UrlStop(cursor, url, body) + 1, depth, rest);
  }

  lemma TargetPrinted(text: string, left: nat, cursor: nat, url: string)
    requires left + 2 <= cursor < |text| && EscapedAt(text, cursor + 1, url)
      && At(text, ')', cursor + 1 + EscapeWidth(url))
    ensures ReadTarget(text, left, cursor, false)
      == Ok(Some(Link(text[left + 1..cursor - 1], url, cursor + 1 + EscapeWidth(url) + 1, false)))
  {
    BalanceEscaped(text, cursor + 1, 1, '(', ')', url);
    assert Balance(text, cursor + 1, 1, '(', ')') == (cursor + 1 + EscapeWidth(url) + 1, 0);
    EscapedInRange(text, cursor + 1, url);
    UnescapeAt(text, cursor + 1, cursor + 1 + EscapeWidth(url), url);
  }

  lemma {:induction false} EscapedInRange(text: string, position: nat, s: string)
    requires EscapedAt(text, position, s)
    ensures position + EscapeWidth(s) <= |text|
    decreases |s|
  {
    if s != "" { EscapedInRange(text, position + (if 1 <= s[0] as int <= 126 then 2 else 1), s[1..]); }
  }

  lemma CaptionPrinted(text: string, position: nat, body: Doc)
    requires Reads(text, position + 1, body) && At(text, ']', position + 1 + Width(body))
      && At(text, '(', position + 2 + Width(body)) && WellBare(body)
    ensures CaptionEnd(text, position) == Some(position + 2 + Width(body))
  {
    hide Balance, Reads, Width;
    BalanceDoc(text, position + 1, 1, body);
    BalanceOne(text, position + 1 + Width(body), 1, ']');
    BalanceDone(text, position + 2 + Width(body));
  }

  lemma BalanceDone(text: string, cursor: nat)
    ensures Balance(text, cursor, 0, '[', ']') == (cursor, 0)
  {
  }

  /** A printed link is read back: its caption, its target and its end. */
  lemma ReadPrinted(text: string, position: nat, url: string, body: Doc, rest: Doc)
    requires Reads(text, position, Hyperlink(url, body, rest)) && WellBare(body)
    ensures CaptionStop(position, body) < |text|
    ensures ReadLink(text, position)
      == Ok(Some(Link(text[position + 1..CaptionStop(position, body)], url, UrlStop(position, url, body) + 1, false)))
  {
    hide Reads, CaptionEnd, ReadTarget;
    ReadsLink(text, position, url, body, rest);
    CaptionPrinted(text, position, body);
    TargetPrinted(text, position, CaptionStop(position, body) + 1, url);
  }

  function Closing(text: string, marker: Format, position: nat): Result<int, Error> {
    MarkerShape(marker);
    ClosingPosition(text, marker.Marker(), position)
  }

  lemma ClosingOne(text: string, marker: Format, position: nat)
    requires position < |text| && text[position] !in "\\[`" && text[position] != marker.Symbol()
    requires text[position] == '!' ==> !At(text, '[', position + 1)
    ensures Closing(text, marker, position) == Closing(text, marker, position + 1)
  {
    MarkerShape(marker);
    assert !AtDoubled(text, marker.Marker(), position);
    assert !StartsWith(text, marker.Marker(), position);
    assert ReadLink(text, position) == Ok(None);
  }

  lemma ClosingEscape(text: string, marker: Format, position: nat)
    requires At(text, '\\', position)
    ensures Closing(text, marker, position) == Closing(text, marker, position + 2)
  {
    MarkerShape(marker);
  }

  lemma {:induction false} ClosingEscaped(text: string, marker: Format, position: nat, s: string)
    requires EscapedAt(text, position, s)
    ensures Closing(text, marker, position) == Closing(text, marker, position + EscapeWidth(s))
    decreases |s|
  {
    if s != "" {
      if 1 <= s[0] as int <= 126 {
        ClosingEscape(text, marker, position);
        ClosingEscaped(text, marker, position + 2, s[1..]);
      } else {
        ClosingOne(text, marker, position);
        ClosingEscaped(text, marker, position + 1, s[1..]);
      }
    }
  }

  lemma {:induction false} ClosingBare(text: string, marker: Format, position: nat, s: string)
    requires BareAt(text, position, s) && (forall c <- s :: Ordinary(c)) && (s != "" ==> s[|s| - 1] != '!')
    ensures Closing(text, marker, position) == Closing(text, marker, position + |s|)
    decreases |s|
  {
    hide Closing;
    if s != "" {
      BareRest(text, position, s, 1);
      assert Ordinary(s[0]) && text[position] == s[0];
      if s[0] == '!' { assert text[position + 1] == s[1] && Ordinary(s[1]); }
      ClosingOne(text, marker, position);
      ClosingBare(text, marker, position + 1, s[1..]);
    }
  }

  lemma ClosingMarker(text: string, marker: Format, position: nat, format: Format)
    requires MarkerAt(text, position, format) && format.Symbol() != marker.Symbol()
    ensures Closing(text, marker, position) == Closing(text, marker, position + Size(format))
  {
    ClosingOne(text, marker, position);
    if Size(format) == 2 { ClosingOne(text, marker, position + 1); }
  }

  lemma ClosingStyled(text: string, marker: Format, position: nat, format: Format, stop: nat)
    requires MarkerAt(text, position, format) && MarkerAt(text, stop, format) && format.Symbol() != marker.Symbol()
    requires Closing(text, marker, position + Size(format)) == Closing(text, marker, stop)
    ensures Closing(text, marker, position) == Closing(text, marker, stop + Size(format))
  {
    hide Closing;
    ClosingMarker(text, marker, position, format);
    ClosingMarker(text, marker, stop, format);
  }

  lemma ClosingLink(text: string, marker: Format, position: nat, url: string, body: Doc, rest: Doc)
    requires Reads(text, position, Hyperlink(url, body, rest)) && WellBare(body)
    ensures Closing(text, marker, position)
      == Closing(text, marker, UrlStop(position, url, body) + 1)
  {
    MarkerShape(marker);
    ReadPrinted(text, position, url, body, rest);
    assert !AtDoubled(text, marker.Marker(), position);
    assert !StartsWith(text, marker.Marker(), position);
  }

  /** The scan for a closing marker passes a printed document that does not use its symbol. */
  lemma {:induction false} ClosingDoc(lib: Library, text: string, marker: Format, position: nat, doc: Doc,
                                      banned: set<char>, previous: Option<char>)
    requires Reads(text, position, doc) && Printable(lib, doc, banned, previous) && marker.Symbol() in banned
    ensures Closing(text, marker, position) == Closing(text, marker, position + Width(doc))
    decreases doc, 1
  {
    hide Closing, EscapedAt, MarkerAt, LinkEntity, Reads, Width;
    match doc
    case End => ReadsPlain(text, position, "", End);
    case Plain(s, rest) =>
      ReadsPlain(text, position, s, rest);
      ClosingEscaped(text, marker, position, s);
      ClosingDoc(lib, text, marker, position + EscapeWidth(s), rest, banned, None);
    case Bare(s, rest) =>
      ReadsPlain(text, position, s, rest);
      ClosingBare(text, marker, position, s);
      ClosingDoc(lib, text, marker, position + |s|, rest, banned, None);
    case Styled(format, body, rest) =>
      ClosingDocStyled(lib, text, marker, position, format, body, rest, banned, previous);
    case Hyperlink(url, body, rest) => ClosingDocLink(lib, text, marker, position, url, body, rest, banned, previous);
  }

  lemma {:induction false} ClosingDocLink(lib: Library, text: string, marker: Format, position: nat,
                                          url: string, body: Doc, rest: Doc, banned: set<char>, previous: Option<char>)
    requires Reads(text, position, Hyperlink(url, body, rest)) && marker.Symbol() in banned
    requires Printable(lib, Hyperlink(url, body, rest), banned, previous)
    ensures Closing(text, marker, position) == Closing(text, marker, position + Width(Hyperlink(url, body, rest)))
    decreases Hyperlink(url, body, rest), 0
  {
    hide Reads, Closing, WellBare, Width, EscapeWidth, EscapedAt, MarkerAt, LinkEntity;
    ReadsLink(text, position, url, body, rest);
    PrintableIsWellBare(lib, body, {}, None);
    ClosingLink(text, marker, position, url, body, rest);
    ClosingDoc(lib, text, marker, UrlStop(position, url, body) + 1, rest, banned, None);
  }

  lemma {:induction false} ClosingDocStyled(lib: Library, text: string, marker: Format, position: nat,
                                            format: Format, body: Doc, rest: Doc, banned: set<char>,
                                            previous: Option<char>)
    requires Reads(text, position, Styled(format, body, rest)) && marker.Symbol() in banned
    requires Printable(lib, Styled(format, body, rest), banned, previous)
    ensures Closing(text, marker, position) == Closing(text, marker, position + Width(Styled(format, body, rest)))
    decreases Styled(format, body, rest), 0
  {
    hide Reads;
    ReadsStyled(text, position, format, body, rest);
    hide Size;
    hide MarkerAt;
    hide Closing;
    var stop := StyleStop(position, format, body);
    ClosingDoc(lib, text, marker, position + Size(format), body, banned + {format.Symbol()}, None);
    ClosingStyled(text, marker, position, format, stop);
    ClosingDoc(lib, text, marker, stop + Size(format), rest, banned, Some(format.Symbol()));
  }

  // ---------------------------------------------------------------- what stands at a position of printed text

  /** Whether a character may stand after another: `>` only after a backslash, a digit never after a bracket. */
  predicate MayFollow(before: char, c: char) {
    (c == '>' ==> before == '\\') && (IsDigit(c) ==> before != '[')
  }

  predicate Special(c: char) { IsDigit(c) || c == '>' }

  /** In a stretch of text every special character follows, within the stretch, one that it may follow. */
  predicate GuardedRange(text: string, a: nat, b: nat)
    requires b <= |text|
    decreases b
  {
    a == b || (a < b && (Special(text[b - 1]) ==> b - 1 > a && MayFollow(text[b - 2], text[b - 1]))
               && GuardedRange(text, a, b - 1))
  }

  lemma {:induction false} JoinGuards(text: string, a: nat, b: nat, c: nat)
    requires b <= c <= |text| && GuardedRange(text, a, b) && GuardedRange(text, b, c)
    ensures GuardedRange(text, a, c)
    decreases c
  {
    if b < c { JoinGuards(text, a, b, c - 1); }
  }

  lemma {:induction false} EscapedGuards(text: string, position: nat, s: string)
    requires EscapedAt(text, position, s)
    ensures position + EscapeWidth(s) <= |text| && GuardedRange(text, position, position + EscapeWidth(s))
    decreases |s|
  {
    if s != "" {
      var step := if 1 <= s[0] as int <= 126 then 2 else 1;
      EscapedGuards(text, position + step, s[1..]);
      assert GuardedRange(text, position, position + step) by {
        assert GuardedRange(text, position, position + 1);
      }
      JoinGuards(text, position, position + step, position + EscapeWidth(s));
    }
  }

  lemma NothingGuards(text: string, position: nat)
    requires position <= |text|
    ensures GuardedRange(text, position, position)
  {
  }

  lemma OrdinaryGuards(text: string, position: nat)
    requires position < |text| && !Special(text[position])
    ensures GuardedRange(text, position, position + 1)
  {
  }

  lemma MarkerGuards(text: string, position: nat, format: Format)
    requires MarkerAt(text, position, format)
    ensures position + Size(format) <= |text| && GuardedRange(text, position, position + Size(format))
  {
    assert GuardedRange(text, position, position + 1);
  }

  lemma {:induction false} BareGuards(text: string, position: nat, s: string, n: nat)
    requires BareAt(text, position, s) && n <= |s| && (forall c <- s :: Ordinary(c)) && (s != "" ==> !IsDigit(s[0]))
    ensures GuardedRange(text, position, position + n)
  {
    if n > 0 {
      BareRest(text, position, s, n);
      BareGuards(text, position, s, n - 1);
      assert Ordinary(s[n - 1]) && text[position + n - 1] == s[n - 1];
      if n > 1 { assert Ordinary(s[n - 2]) && text[position + n - 2] == s[n - 2]; }
    }
  }

  /** Digits are never printed after a bracket, and `>` only after a backslash. */
  lemma {:induction false} PrintedGuards(text: string, position: nat, doc: Doc)
    requires Reads(text, position, doc) && WellBare(doc)
    ensures position + Width(doc) <= |text| && GuardedRange(text, position, position + Width(doc))
    decreases doc, 1
  {
    hide EscapedAt, GuardedRange, Reads, Width;
    match doc
    case End =>
      ReadsPlain(text, position, "", End);
      NothingGuards(text, position);
    case Plain(s, rest) =>
      ReadsPlain(text, position, s, rest);
      var middle := position + EscapeWidth(s);
      EscapedGuards(text, position, s);
      PrintedGuards(text, middle, rest);
      JoinGuards(text, position, middle, middle + Width(rest));
    case Bare(s, rest) =>
      ReadsPlain(text, position, s, rest);
      BareGuards(text, position, s, |s|);
      PrintedGuards(text, position + |s|, rest);
      JoinGuards(text, position, position + |s|, position + |s| + Width(rest));
    case Styled(format, body, rest) => StyledGuards(text, position, format, body, rest);
    case Hyperlink(url, body, rest) => LinkGuards(text, position, url, body, rest);
  }

  lemma {:induction false} StyledGuards(text: string, position: nat, format: Format, body: Doc, rest: Doc)
    requires Reads(text, position, Styled(format, body, rest)) && WellBare(Styled(format, body, rest))
    ensures position + Width(Styled(format, body, rest)) <= |text|
    ensures GuardedRange(text, position, position + Width(Styled(format, body, rest)))
    decreases Styled(format, body, rest), 0
  {
    hide Reads;
    ReadsStyled(text, position, format, body, rest);
    hide Size;
    hide MarkerAt;
    hide GuardedRange;
    var start, stop := position + Size(format), StyleStop(position, format, body);
    MarkerGuards(text, position, format);
    PrintedGuards(text, start, body);
    MarkerGuards(text, stop, format);
    PrintedGuards(text, stop + Size(format), rest);
    JoinGuards(text, position, start, stop);
    JoinGuards(text, position, stop, stop + Size(format));
    JoinGuards(text, position, stop + Size(format), stop + Size(format) + Width(rest));
  }

  lemma {:induction false} LinkGuards(text: string, position: nat, url: string, body: Doc, rest: Doc)
    requires Reads(text, position, Hyperlink(url, body, rest)) && WellBare(Hyperlink(url, body, rest))
    ensures position + Width(Hyperlink(url, body, rest)) <= |text|
    ensures GuardedRange(text, position, position + Width(Hyperlink(url, body, rest)))
    decreases Hyperlink(url, body, rest), 0
  {
    hide Reads;
    ReadsLink(text, position, url, body, rest);
    hide GuardedRange;
    var stop, end := CaptionStop(position, body), UrlStop(position, url, body);
    PrintedGuards(text, position + 1, body);
    EscapedGuards(text, stop + 2, url);
    PrintedGuards(text, end + 1, rest);
    OrdinaryGuards(text, position);
    OrdinaryGuards(text, stop);
    OrdinaryGuards(text, stop + 1);
    OrdinaryGuards(text, end);
    JoinGuards(text, stop, stop + 1, stop + 2);
    JoinGuards(text, position, position + 1, stop);
    JoinGuards(text, position, stop, stop + 2);
    JoinGuards(text, position, stop + 2, end);
    JoinGuards(text, position, end, end + 1);
    JoinGuards(text, position, end + 1, end + 1 + Width(rest));
  }

  ghost predicate Guarded(text: string) {
    forall k :: 0 <= k < |text| && Special(text[k]) ==> k > 0 && MayFollow(text[k - 1], text[k])
  }

  lemma {:induction false} GuardedBelow(text: string, b: nat)
    requires b <= |text| && GuardedRange(text, 0, b)
    ensures forall k :: 0 <= k < b && Special(text[k]) ==> k > 0 && MayFollow(text[k - 1], text[k])
  {
    if b > 0 { GuardedBelow(text, b - 1); }
  }

  /** The characters that begin the tokens of a printed document other than bare text. */
  predicate Opens(c: char) {
    c == '\\' || c as int == 0 || c as int > 126 || c in "*_|~["
  }

  lemma FirstCharacter(lib: Library, text: string, position: nat, doc: Doc, banned: set<char>, previous: Option<char>)
    requires Reads(text, position, doc) && Printable(lib, doc, banned, previous) && doc != End
    requires forall c <- banned :: c in "*_|~"
    requires previous.Some? ==> previous.value in "*_|~"
    ensures position < |text| && (Opens(text[position]) || Ordinary(text[position]))
    ensures text[position] !in banned && Some(text[position]) != previous
  {
    if doc.Bare? { BareRest(text, position, doc.text, 0); }
  }

  lemma NoFormat(text: string, position: nat, formats: seq<(string, Kind)>)
    requires position < |text| && MarkersNonEmpty(formats)
    requires forall f <- formats :: f.0[0] != text[position]
    ensures FormatToken(text, position, formats) == Ok(None)
  {
    if formats != [] {
      assert formats[0] in formats;
      assert !StartsWith(text, formats[0].0, position);
      NoFormat(text, position, formats[1..]);
    }
  }

  /** No shortcut for an emoji or a URL begins in printed text. */
  lemma NoShortcut(lib: Library, text: string, position: nat)
    requires position < |text| && Guarded(text) && Opens(text[position])
    ensures MatchLegacy(lib, text, position) == None
    ensures MatchId(text, position) == None
    ensures MatchUrl(text, position) == None
    ensures text[position] != '`'
  {
  }

  lemma NoQuote(text: string, position: nat)
    requires position < |text| && Guarded(text) && Opens(text[position])
    ensures QuoteToken(text, position) == None
  {
    assert !QuoteContinues(text, position, true);
  }

  lemma EscapedToken(lib: Library, text: string, position: nat, c: char, blocks: bool)
    requires At(text, '\\', position) && At(text, c, position + 1) && c as int <= 126
    ensures NextToken(lib, text, position, blocks) == Ok(Literal([c], position + 2))
  {
  }

  lemma RawToken(lib: Library, text: string, position: nat, c: char, blocks: bool)
    requires At(text, c, position) && Guarded(text) && (c as int == 0 || c as int > 126)
    ensures NextToken(lib, text, position, blocks) == Ok(Literal([c], position + 1))
  {
    NoShortcut(lib, text, position);
    NoQuote(text, position);
    NoFormat(text, position, FORMATS);
    assert ReadLink(text, position) == Ok(None);
    assert !AtSeparator(text, position);
  }

  /** One round of the parse. */
  lemma ParseStep(lib: Library, text: string, position: nat, depth: nat, blocks: bool, b: Built, t: Token, b': Built)
    requires position < |text| && NextToken(lib, text, position, blocks) == Ok(t) && Apply(lib, t, depth, b) == Ok(b')
    ensures ParseFrom(lib, text, position, depth, blocks, b) == ParseFrom(lib, text, t.next, depth, blocks, b')
  {
  }

  lemma ParseCharacter(lib: Library, text: string, position: nat, s: string, depth: nat, blocks: bool, b: Built)
    requires EscapedAt(text, position, s) && s != "" && Guarded(text)
    ensures var next := position + if 1 <= s[0] as int <= 126 then 2 else 1;
      && EscapedAt(text, next, s[1..])
      && ParseFrom(lib, text, position, depth, blocks, b) == ParseFrom(lib, text, next, depth, blocks, Emit(b, [s[0]]))
  {
    var next := position + if 1 <= s[0] as int <= 126 then 2 else 1;
    if 1 <= s[0] as int <= 126 {
      EscapedToken(lib, text, position, s[0], blocks);
    } else {
      RawToken(lib, text, position, s[0], blocks);
    }
    ParseStep(lib, text, position, depth, blocks, b, Literal([s[0]], next), Emit(b, [s[0]]));
  }

  lemma EmitCharacter(b: Built, s: string)
    requires s != ""
    ensures Emit(Emit(b, [s[0]]), s[1..]) == Emit(b, s)
  {
    Associative(b.text, [s[0]], s[1..]);
    assert [s[0]] + s[1..] == s;
  }

  lemma {:induction false} ParseEscaped(lib: Library, text: string, position: nat, s: string, depth: nat, blocks: bool,
                                        b: Built)
    requires EscapedAt(text, position, s) && Guarded(text)
    ensures ParseFrom(lib, text, position, depth, blocks, b)
      == ParseFrom(lib, text, position + EscapeWidth(s), depth, blocks, Emit(b, s))
    decreases |s|
  {
    hide NextToken;
    if s == "" {
      assert b.text + s == b.text;
    } else {
      ParseCharacter(lib, text, position, s, depth, blocks, b);
      EmitCharacter(b, s);
      ParseEscaped(lib, text, position + (if 1 <= s[0] as int <= 126 then 2 else 1), s[1..], depth, blocks,
                   Emit(b, [s[0]]));
    }
  }

  // ---------------------------------------------------------------- bare text

  /** No number stands in brackets, so that no emoji shortcut is read. */
  ghost predicate NoNumbers(text: string) {
    forall k :: 0 <= k < |text| - 1 ==> text[k] == '[' ==> !IsDigit(text[k + 1])
  }

  /** Characters that begin no escape, code, link, number or format. */
  predicate Inert(c: char) {
    c !in "\\`[*_~|"
  }

  lemma {:induction false} UnescapeNothing(s: string)
    requires '\\' !in s
    ensures Unescape(s) == s
  {
    if s != "" {
      assert s[0] in s && forall c <- s[1..] :: c in s;
      UnescapeNothing(s[1..]);
      assert s == [s[0]] + s[1..];
    }
  }

  lemma {:induction false} UrlRunStops(text: string, position: nat, space: nat)
    requires position <= space < |text| && IsSpace(text[space])
    ensures UrlRun(text, position) <= space
    decreases space - position
  {
    if position < space { UrlRunStops(text, position + 1, space); }
  }

  /** An address that begins before a space ends by it. */
  lemma {:induction false} AddressStops(text: string, position: nat, space: nat, i: nat)
    requires position <= space < |text| && IsSpace(text[space]) && i <= |URL_PREFIXES|
    ensures MatchUrlFrom(text, position, i).Some? ==> MatchUrlFrom(text, position, i).value <= space
    decreases |URL_PREFIXES| - i
  {
    if i < |URL_PREFIXES| {
      var prefix := URL_PREFIXES[i];
      if StartsWith(text, prefix, position) {
        StartsWithAt(text, prefix, position);
        PrefixesHaveNoSpace(i);
        SpaceIsOutside(text, position, prefix, space);
        hide UrlRun, StartsWith;
        UrlRunStops(text, position + |prefix|, space);
      } else {
        AddressStops(text, position, space, i + 1);
      }
    }
  }

  lemma SpaceIsOutside(text: string, position: nat, word: string, space: nat)
    requires position + |word| <= |text| && text[position..position + |word|] == word
    requires forall k :: 0 <= k < |word| ==> !IsSpace(word[k])
    requires position <= space < |text| && IsSpace(text[space])
    ensures position + |word| <= space
  {
    if space < position + |word| { WordCharacter(text, position, word, space - position); }
  }

  lemma WordCharacter(text: string, position: nat, word: string, k: nat)
    requires position + |word| <= |text| && text[position..position + |word|] == word && k < |word|
    ensures text[position + k] == word[k]
  {
    assert text[position..position + |word|][k] == word[k];
  }

  lemma PrefixesHaveNoSpace(i: nat)
    requires i < |URL_PREFIXES|
    ensures forall k :: 0 <= k < |URL_PREFIXES[i]| ==> !IsSpace(URL_PREFIXES[i][k])
  {
  }

  lemma {:induction false} NoAddressHere(text: string, position: nat, i: nat)
    requires i <= |URL_PREFIXES| && forall j :: i <= j < |URL_PREFIXES| ==> !StartsWith(text, URL_PREFIXES[j], position)
    ensures MatchUrlFrom(text, position, i) == None
    decreases |URL_PREFIXES| - i
  {
    if i < |URL_PREFIXES| { NoAddressHere(text, position, i + 1); }
  }

  /** A stretch of bare text from whose addresses none leads out. */
  ghost predicate Contained(text: string, p: nat, end: nat) {
    end <= |text| && (p >= end || end == |text| || IsSpace(text[end - 1])
      || forall k, i :: p <= k < end && 0 <= i < |URL_PREFIXES| ==> !StartsWith(text, URL_PREFIXES[i], k))
  }

  /** What is read at an inert character: an address, or the character itself. */
  lemma BareToken(lib: Library, text: string, p: nat, end: nat, blocks: bool)
    requires p < end <= |text| && NoNumbers(text) && Contained(text, p, end)
    requires forall k :: p <= k < end ==> Inert(text[k])
    requires At(text, '!', p) ==> !At(text, '[', p + 1)
    requires blocks && AtLineStart(text, p) ==> text[p] != '>'
    ensures exists next :: p < next <= end && NextToken(lib, text, p, blocks) == Ok(Literal(text[p..next], next))
  {
    hide QuoteToken, FormatToken, ReadLink, MatchLegacy, MatchId, AtSeparator, Unescape, NextToken, AtEscape;
    if text[p] != '>' { NotQuoted(text, p); }
    NotShortcut(lib, text, p);
    NoFormat(text, p, FORMATS);
    var url := MatchUrl(text, p);
    if url.Some? {
      AddressEnds(text, p, end);
      UnescapeNothing(text[p..url.value]);
    }
    OnlyLiteral(lib, text, p, blocks);
    var next := if url.Some? then url.value else p + 1;
    assert text[p..p + 1] == [text[p]];
  }

  lemma AddressEnds(text: string, p: nat, end: nat)
    requires p < end && Contained(text, p, end) && MatchUrl(text, p).Some?
    ensures MatchUrl(text, p).value <= end
  {
    if end < |text| {
      if IsSpace(text[end - 1]) { AddressStops(text, p, end - 1, 0); } else { NoAddressHere(text, p, 0); }
    }
  }

  /** Where no other branch applies, an address is read, or one character. */
  lemma OnlyLiteral(lib: Library, text: string, p: nat, blocks: bool)
    requires p < |text| && !AtEscape(text, p) && text[p] != '`' && !AtSeparator(text, p)
    requires (blocks && AtLineStart(text, p) ==> QuoteToken(text, p) == None) && MatchLegacy(lib, text, p) == None
    requires ReadLink(text, p) == Ok(None) && MatchId(text, p) == None && FormatToken(text, p, FORMATS) == Ok(None)
    ensures NextToken(lib, text, p, blocks) == match MatchUrl(text, p)
      case Some(end) => Ok(Literal(Unescape(text[p..end]), end))
      case None => Ok(Literal([text[p]], p + 1))
  {
    hide QuoteToken, FormatToken, ReadLink, MatchLegacy, MatchId, AtSeparator, Unescape, AtEscape, MatchUrl;
  }

  lemma NotQuoted(text: string, p: nat)
    requires p < |text| && Inert(text[p]) && text[p] != '>'
    ensures QuoteToken(text, p) == None
  {
    assert !QuoteContinues(text, p, true);
  }

  lemma NotShortcut(lib: Library, text: string, p: nat)
    requires p < |text| && NoNumbers(text) && Inert(text[p]) && (At(text, '!', p) ==> !At(text, '[', p + 1))
    ensures MatchLegacy(lib, text, p) == None && MatchId(text, p) == None && ReadLink(text, p) == Ok(None)
    ensures !AtSeparator(text, p) && !AtEscape(text, p) && text[p] != '`'
  {
  }

  /** Bare text is read as itself, addresses included. */
  lemma {:induction false} ParseBare(lib: Library, text: string, p: nat, end: nat, depth: nat, blocks: bool, b: Built)
    requires p <= end <= |text| && NoNumbers(text) && Contained(text, p, end)
    requires forall k :: p <= k < end ==> Inert(text[k])
    requires forall k :: p <= k < end && text[k] == '!' ==> !At(text, '[', k + 1)
    requires blocks ==> forall k :: p <= k < end && AtLineStart(text, k) ==> text[k] != '>'
    ensures ParseFrom(lib, text, p, depth, blocks, b) == ParseFrom(lib, text, end, depth, blocks, Emit(b, text[p..end]))
    decreases end - p
  {
    if p == end {
      assert b.text + text[p..end] == b.text;
    } else {
      BareToken(lib, text, p, end, blocks);
      hide NextToken, Inert, NoNumbers, ParseFrom, Apply, Contained, Emit;
      var next :| p < next <= end && NextToken(lib, text, p, blocks) == Ok(Literal(text[p..next], next));
      ApplyLiteral(lib, text[p..next], next, depth, b);
      ParseStep(lib, text, p, depth, blocks, b, Literal(text[p..next], next), Emit(b, text[p..next]));
      ContainedRest(text, p, next, end);
      ParseBare(lib, text, next, end, depth, blocks, Emit(b, text[p..next]));
      EmitStretch(b, text, p, next, end);
    }
  }

  lemma ApplyLiteral(lib: Library, literal: string, next: nat, depth: nat, b: Built)
    ensures Apply(lib, Literal(literal, next), depth, b) == Ok(Emit(b, literal))
  {
  }

  lemma ContainedRest(text: string, p: nat, next: nat, end: nat)
    requires Contained(text, p, end) && p <= next <= end
    ensures Contained(text, next, end)
  {
  }

  lemma EmitStretch(b: Built, text: string, p: nat, next: nat, end: nat)
    requires p <= next <= end <= |text|
    ensures Emit(Emit(b, text[p..next]), text[next..end]) == Emit(b, text[p..end])
  {
    Associative(b.text, text[p..next], text[next..end]);
    assert text[p..next] + text[next..end] == text[p..end];
  }

  lemma TokenIsFormat(lib: Library, text: string, position: nat, blocks: bool, t: Token)
    requires position < |text| && !AtEscape(text, position) && text[position] != '`'
    requires QuoteToken(text, position) == None && MatchLegacy(lib, text, position) == None
    requires ReadLink(text, position) == Ok(None) && MatchId(text, position) == None && !AtSeparator(text, position)
    requires FormatToken(text, position, FORMATS) == Ok(Some(t))
    ensures NextToken(lib, text, position, blocks) == Ok(t)
  {
    hide AtEscape, QuoteToken, MatchLegacy, ReadLink, MatchId, AtSeparator, FormatToken, CodeToken;
  }

  lemma TokenIsLink(lib: Library, text: string, position: nat, blocks: bool, link: Link)
    requires position < |text| && !AtEscape(text, position) && text[position] != '`'
    requires QuoteToken(text, position) == None && MatchLegacy(lib, text, position) == None
    requires ReadLink(text, position) == Ok(Some(link))
    ensures NextToken(lib, text, position, blocks) == LinkToken(lib, link)
  {
    hide AtEscape, QuoteToken, MatchLegacy, ReadLink, CodeToken, LinkToken;
  }

  lemma LinkPrintedToken(lib: Library, text: string, position: nat, url: string, body: Doc, rest: Doc, blocks: bool)
    requires Reads(text, position, Hyperlink(url, body, rest)) && Guarded(text) && LinkEntity(lib, url, false).Ok?
    requires WellBare(body)
    ensures NextToken(lib, text, position, blocks)
      == Ok(Wrapped(Caption(text, position, body), TextLink(url), false, UrlStop(position, url, body) + 1))
  {
    hide NextToken, ReadLink, MatchLegacy, MatchId, QuoteToken, LinkEntity, Reads, Width, EscapeWidth;
    ReadsLink(text, position, url, body, rest);
    NoShortcut(lib, text, position);
    NoQuote(text, position);
    ReadPrinted(text, position, url, body, rest);
    TokenIsLink(lib, text, position, blocks,
                Link(Caption(text, position, body), url, UrlStop(position, url, body) + 1, false));
  }

  function Caption(text: string, position: nat, body: Doc): string {
    if CaptionStop(position, body) <= |text| then text[position + 1..CaptionStop(position, body)] else ""
  }

  lemma NotDoubled(text: string, c: char, position: nat)
    requires !At(text, c, position + 1)
    ensures !StartsWith(text, [c] + [c], position)
  {
    var m := [c] + [c];
    assert m[0] == c && m[1..] == [c];
  }

  lemma StartsHere(text: string, marker: Format, position: nat)
    ensures StartsWith(text, marker.Marker(), position) <==> MarkerAt(text, position, marker)
  {
    MarkerShape(marker);
    var m := marker.Marker();
    if Size(marker) == 1 {
      assert m[1..] == "";
    } else {
      assert m[1..] == [marker.Symbol()];
      assert StartsWith(text, [marker.Symbol()], position + 1) <==> At(text, marker.Symbol(), position + 1) by {
        assert [marker.Symbol()][1..] == "";
      }
    }
  }

  lemma ClosingHere(text: string, marker: Format, position: nat)
    requires MarkerAt(text, position, marker)
    requires Size(marker) == 1 ==> !At(text, marker.Symbol(), position + 1)
    ensures Closing(text, marker, position) == Ok(position)
  {
    MarkerShape(marker);
    StartsHere(text, marker, position);
    if Size(marker) == 1 { NotDoubled(text, marker.Symbol(), position); }
  }
}
