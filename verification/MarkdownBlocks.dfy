/** Inline code and quotes, printed and parsed back. */
module MarkdownBlocks {
  import opened Text
  import opened MarkupResult
  import opened MarkupMarkdown
  import opened PrintedMarkdown
  import opened PrintedScans
  import opened MarkdownRoundTrip

  // ---------------------------------------------------------------- inline code

  /** Inside code only a backtick and a backslash need a backslash. */
  function EscapeCode(s: string): string {
    if s == "" then "" else (if s[0] in "`\\" then ['\\', s[0]] else [s[0]]) + EscapeCode(s[1..])
  }

  function PrintCode(s: string): string {
    "`" + EscapeCode(s) + "`"
  }

  lemma {:induction false} UnescapeEscaped(s: string)
    ensures UnescapeCode(EscapeCode(s)) == s
  {
    if s != "" {
      UnescapeEscaped(s[1..]);
      assert s == [s[0]] + s[1..];
      var rest := EscapeCode(s[1..]);
      if s[0] in "`\\" {
        var e := ['\\', s[0]] + rest;
        assert e[0] == '\\' && e[1] == s[0] && e[2..] == rest;
      } else {
        var e := [s[0]] + rest;
        assert e[0] == s[0] && e[1..] == rest;
      }
    }
  }

  /** The scan for the closing backticks passes escaped code. */
  lemma {:induction false} ClosingAfterCode(text: string, marker: string, position: nat, s: string)
    requires IsCodeMarker(marker) && position + |EscapeCode(s)| < |text|
    requires text[position..position + |EscapeCode(s)|] == EscapeCode(s)
      && StartsWith(text, marker, position + |EscapeCode(s)|)
    ensures CodeClosing(text, marker, position) == position + |EscapeCode(s)|
    decreases |s|
  {
    if s == "" {
      assert position + |EscapeCode(s)| == position && text[position] == '`';
    } else {
      var e, rest := EscapeCode(s), EscapeCode(s[1..]);
      assert text[position] == text[position..position + |e|][0] == e[0];
      if s[0] in "`\\" {
        assert e[2..] == rest && text[position + 2..position + |e|] == text[position..position + |e|][2..] == rest;
        ClosingAfterCode(text, marker, position + 2, s[1..]);
      } else {
        assert e[1..] == rest && text[position + 1..position + |e|] == text[position..position + |e|][1..] == rest;
        assert !StartsWith(text, marker, position);
        ClosingAfterCode(text, marker, position + 1, s[1..]);
      }
    }
  }

  lemma PrintedCodeToken(s: string)
    requires s != ""
    ensures var text := PrintCode(s); text[0] == '`' && CodeToken(text, 0) == Some(Verbatim(s, Code, |text|))
  {
    var text, e := PrintCode(s), EscapeCode(s);
    assert text[1..1 + |e|] == e && text[1 + |e|] == '`' && |text| == |e| + 2;
    assert !Fenced(text, 0) by { assert text[1] == e[0]; }
    ClosingAfterCode(text, "`", 1, s);
    UnescapeEscaped(s);
  }

  /** Printed inline code parses back to its text and one code entity over all of it. */
  lemma CodeRoundTrip(lib: Library, s: string, blocks: bool, fallbacks: map<string, string>)
    requires s != ""
    ensures Parse(lib, PrintCode(s), 0, blocks, Built("", [], fallbacks, map[]))
      == Ok(Built(s, [Entity(Code, 0, Utf16Length(s))], fallbacks, map[]))
  {
    var text, b := PrintCode(s), Built("", [], fallbacks, map[]);
    PrintedCodeToken(s);
    NoQuoteHere(text);
    assert NextToken(lib, text, 0, blocks) == Ok(Verbatim(s, Code, |text|));
    LengthPositive(s);
    assert "" + s == s && b.entities + [Entity(Code, 0, Utf16Length(s))] == [Entity(Code, 0, Utf16Length(s))];
    hide NextToken, EscapeCode;
    ParseStep(lib, text, 0, 0, blocks, b, Verbatim(s, Code, |text|), Mark(Emit(b, s), Code, 0));
  }

  lemma NoQuoteHere(text: string)
    requires text != "" && text[0] == '`'
    ensures QuoteToken(text, 0) == None
  {
    assert !QuoteContinues(text, 0, true);
  }

  // ---------------------------------------------------------------- quotes

  /** The lines after the first, each with its mark. */
  function MarkLines(s: string): string {
    if s == "" then "" else (if s[0] == '\n' then "\n>" else [s[0]]) + MarkLines(s[1..])
  }

  /** A text as a quote: a mark before every line. */
  function Quoted(s: string): string {
    ">" + MarkLines(s)
  }

  lemma {:induction false} MarkFirstLine(s: string, end: nat)
    requires end <= |s| && '\n' !in s[..end] && (end < |s| ==> s[end] == '\n')
    ensures MarkLines(s) == s[..end] + if end < |s| then "\n" + Quoted(s[end + 1..]) else ""
  {
    if end > 0 {
      assert s[..end][0] != '\n' && s[1..][..end - 1] == s[1..end];
      assert forall c <- s[1..end] :: c in s[..end];
      MarkFirstLine(s[1..], end - 1);
      assert s[..end] == [s[0]] + s[1..end];
      if end < |s| { assert s[1..][end..] == s[end + 1..]; }
    } else if s != "" {
      assert "\n>" + MarkLines(s[1..]) == "\n" + Quoted(s[1..]);
    }
  }

  /** What may follow a quote: nothing, or a line that does not belong to it. */
  predicate After(tail: string) {
    tail == "" || (tail[0] == '\n' && (|tail| == 1 || tail[1] != '>'))
  }

  /** A quoted text stands at a position, its first line with either mark. */
  predicate QuoteAt(text: string, position: nat, mark: string, s: string, tail: string) {
    position <= |text| && text[position..] == (mark + MarkLines(s)) + tail
  }

  /** The first line of a quoted text that stands at a position. */
  lemma QuotedLine(text: string, position: nat, mark: string, s: string, tail: string, first: bool) returns (end: nat)
    requires QuoteAt(text, position, mark, s, tail) && After(tail) && (mark == ">" || (first && mark == "**>"))
    ensures QuoteContinues(text, position, first) && end <= |s| && QuoteLine(text, position) == s[..end]
    ensures QuoteLineEnd(text, position) == position + |mark| + end <= |text|
    ensures if end < |s| then s[end] == '\n' && QuoteAt(text, position + |mark| + end + 1, ">", s[end + 1..], tail)
      else text[position + |mark| + end..] == tail
  {
    end := QuoteSplits(text, position, mark, s, tail);
    hide MarkLines, Find, QuoteContinues, QuoteAt;
    MarkStands(text, position, mark, first);
    LineFound(text, position, position + |mark|, position + |mark| + end, s[..end]);
  }

  /** The first line and what follows it. */
  lemma QuoteSplits(text: string, position: nat, mark: string, s: string, tail: string) returns (end: nat)
    requires QuoteAt(text, position, mark, s, tail) && After(tail)
    ensures var start, stop := position + |mark|, position + |mark| + end;
      && end <= |s| && stop <= |text| && '\n' !in s[..end]
      && text[position..start] == mark && text[start..stop] == s[..end] && (stop < |text| ==> text[stop] == '\n')
      && if end < |s| then s[end] == '\n' && QuoteAt(text, stop + 1, ">", s[end + 1..], tail) else text[stop..] == tail
  {
    end := Find(s, '\n', 0);
    MarkFirstLine(s, end);
    var line, more, stop := s[..end], if end < |s| then "\n" + Quoted(s[end + 1..]) else "", position + |mark| + end;
    hide MarkLines;
    LineStands(text, position, mark, line, more, tail);
    if end < |s| { NextLine(text, stop, Quoted(s[end + 1..]), tail); } else { assert more + tail == tail; }
  }

  lemma NextLine(text: string, stop: nat, rest: string, tail: string)
    requires stop <= |text| && text[stop..] == ("\n" + rest) + tail
    ensures stop < |text| && text[stop] == '\n' && text[stop + 1..] == rest + tail
  {
    assert text[stop + 1..] == text[stop..][1..];
  }

  lemma LineFound(text: string, position: nat, start: nat, stop: nat, line: string)
    requires position <= start <= stop <= |text| && '\n' !in line && text[start..stop] == line
    requires '\n' !in text[position..start] && (stop < |text| ==> text[stop] == '\n')
    ensures Find(text, '\n', position) == stop
  {
    forall k | position <= k < stop ensures text[k] != '\n' {
      if k < start {
        assert text[k] == text[position..start][k - position];
      } else {
        assert text[k] == line[k - start];
      }
    }
  }

  lemma LineStands(text: string, position: nat, mark: string, line: string, more: string, tail: string)
    requires position <= |text| && text[position..] == (mark + (line + more)) + tail
    ensures var start, stop := position + |mark|, position + |mark| + |line|;
      && stop <= |text| && text[position..start] == mark && text[start..stop] == line && text[stop..] == more + tail
      && (stop < |text| ==> text[stop] == (more + tail)[0])
  {
    var all := text[position..];
    assert all[..|mark|] == mark && all[|mark|..|mark| + |line|] == line && all[|mark| + |line|..] == more + tail;
  }

  /** The mark of a line is the one that stands there. */
  lemma MarkStands(text: string, position: nat, mark: string, first: bool)
    requires position + |mark| <= |text| && text[position..position + |mark|] == mark
      && (mark == ">" || (first && mark == "**>"))
    ensures QuoteContinues(text, position, first) && PrefixLength(text, position) == |mark|
  {
    var here := text[position..position + |mark|];
    assert text[position] == here[0];
    if mark == "**>" { assert text[position + 1] == here[1] && text[position + 2] == here[2]; }
  }

  /** What lines already read put before the next one. */
  function Before(lines: seq<string>): string {
    if lines == [] then "" else JoinLines(lines) + "\n"
  }

  lemma JoinMore(lines: seq<string>, line: string)
    ensures JoinLines(lines + [line]) == Before(lines) + line
    ensures Before(lines + [line]) == (Before(lines) + line) + "\n"
  {
    assert (lines + [line])[..|lines|] == lines;
    assert "" + line == line;
  }

  lemma LineFirst(s: string, end: nat, before: string)
    requires end < |s| && s[end] == '\n'
    ensures ((before + s[..end]) + "\n") + s[end + 1..] == before + s
  {
    assert s == s[..end] + ("\n" + s[end + 1..]);
  }

  lemma QuoteLinesStep(text: string, position: nat, lines: seq<string>)
    requires position <= |text| && QuoteContinues(text, position, lines == [])
    ensures QuoteLines(text, position, lines)
      == QuoteLines(text, QuoteLineEnd(text, position) + 1, lines + [QuoteLine(text, position)])
  {
  }

  lemma QuoteLinesEnd(text: string, position: nat, tail: string, lines: seq<string>)
    requires position <= |text| && text[position..] == tail && After(tail) && lines != []
    ensures QuoteLines(text, position + 1, lines) == (lines, position + 1)
  {
    if |tail| > 1 { assert text[position + 1] == tail[1]; }
  }

  /** Reading the lines of a quoted text and joining them gives back the text. */
  lemma {:induction false} QuotedLines(text: string, position: nat, mark: string, lines: seq<string>, s: string,
                                       tail: string)
    requires QuoteAt(text, position, mark, s, tail) && After(tail) && (mark == ">" || (lines == [] && mark == "**>"))
    ensures var r := QuoteLines(text, position, lines);
      r.0 != [] && r.1 + |tail| == |text| + 1 && JoinLines(r.0) == Before(lines) + s
    decreases |s|
  {
    hide QuoteContinues, QuoteLine, QuoteLineEnd, QuoteLines, JoinLines, MarkLines, Quoted, Before, QuoteAt, After;
    var end := QuotedLine(text, position, mark, s, tail, lines == []);
    var next := position + |mark| + end;
    JoinMore(lines, s[..end]);
    QuoteLinesStep(text, position, lines);
    if end < |s| {
      QuotedLines(text, next + 1, ">", lines + [s[..end]], s[end + 1..], tail);
      LineFirst(s, end, Before(lines));
    } else {
      assert s[..end] == s;
      QuoteLinesEnd(text, next, tail, lines + [s]);
    }
  }

  /** A quoted text is read as one quote, up to and with the end of its last line. */
  lemma QuotedToken(text: string, position: nat, mark: string, s: string, tail: string, contents: string,
                    expandable: bool)
    requires position < |text| && QuoteAt(text, position, mark, s, tail) && After(tail)
      && (mark == ">" || mark == "**>")
    requires s == contents + (if expandable then "||" else "") && IsExpandable(s) == expandable
    ensures QuoteToken(text, position)
      == Some(Wrapped(contents, if expandable then ExpandableBlockquote else Blockquote, tail != "",
                      |text| - |tail| + 1))
  {
    hide QuoteLines, IsExpandable, MarkLines, QuoteAt, After;
    QuotedLines(text, position, mark, [], s, tail);
    assert "" + s == s;
    assert if expandable then s[..|s| - 2] == contents else s == contents;
  }

  /** Two bars at the end make a quote expandable exactly when no backslash stands before them. */
  lemma BarsExpand(s: string)
    ensures IsExpandable(s + "||") <==> s == "" || s[|s| - 1] != '\\'
    ensures IsExpandable(s) ==> |s| >= 2 && s[|s| - 2..] == "||"
  {
  }

  /** What is quoted for a document: an expandable quote ends with two bars. */
  function QuoteBody(printed: string, expandable: bool): string {
    printed + if expandable then "||" else ""
  }

  /**
   The quote must be seen as it was written: bars after a backslash would not count, and bars that close a spoiler
   would.
   */
  ghost predicate BarsRight(printed: string, expandable: bool) {
    if expandable then printed == "" || printed[|printed| - 1] != '\\' else !IsExpandable(printed)
  }

  function QuoteMade(b: Built, doc: Doc, expandable: bool): Built {
    Mark(Written(b, doc), if expandable then ExpandableBlockquote else Blockquote, b.Offset())
  }

  /**
   A quoted document at the start of a line, of any number of lines, adds the document and one quote around it; if more
   follows, a new line, and the parse goes on there.
   */
  lemma QuoteStep(lib: Library, text: string, p: nat, mark: string, doc: Doc, expandable: bool, tail: string,
                  depth: nat, b: Built)
    requires p < |text| && (p == 0 || text[p - 1] == '\n') && (mark == ">" || mark == "**>")
    requires QuoteAt(text, p, mark, QuoteBody(Print(doc), expandable), tail) && After(tail)
    requires Printable(lib, doc, {}, None) && depth + Depth(doc) < 64 && BarsRight(Print(doc), expandable)
    ensures ParseFrom(lib, text, p, depth, true, b)
      == if tail == "" then Ok(QuoteMade(b, doc, expandable))
         else ParseFrom(lib, text, |text| - |tail| + 1, depth, true, Emit(QuoteMade(b, doc, expandable), "\n"))
  {
    hide NextToken, Apply, Parse, ParseFrom, Printable, Print, QuoteToken, MarkLines, IsExpandable, Mark;
    var contents, kind, next := Print(doc), if expandable then ExpandableBlockquote
                                            else Blockquote, |text| - |tail| + 1;
    BarsExpand(contents);
    assert contents + "" == contents;
    QuotedToken(text, p, mark, QuoteBody(contents, expandable), tail, contents, expandable);
    QuoteFirst(text, p, mark, QuoteBody(contents, expandable), tail);
    var t := Wrapped(contents, kind, tail != "", next);
    QuoteComesFirst(lib, text, p, t);
    ParsePrintedInside(lib, doc, depth, b);
    QuoteApplied(lib, contents, kind, tail != "", next, depth, b, Written(b, doc));
    ParseStep(lib, text, p, depth, true, b, t, Finished(Mark(Written(b, doc), kind, b.Offset()), tail != ""));
    if tail == "" { PastTheEnd(lib, text, next, depth, QuoteMade(b, doc, expandable)); }
  }

  lemma QuoteFirst(text: string, p: nat, mark: string, s: string, tail: string)
    requires p < |text| && QuoteAt(text, p, mark, s, tail) && (mark == ">" || mark == "**>")
    ensures text[p] == '>' || text[p] == '*'
  {
    assert text[p] == text[p..][0] == mark[0];
  }

  lemma QuoteComesFirst(lib: Library, text: string, p: nat, t: Token)
    requires p < |text| && (p == 0 || text[p - 1] == '\n') && (text[p] == '>' || text[p] == '*')
      && QuoteToken(text, p) == Some(t)
    ensures NextToken(lib, text, p, true) == Ok(t)
  {
    hide QuoteToken;
  }

  lemma QuoteApplied(lib: Library, contents: string, kind: Kind, newline: bool, next: nat, depth: nat, b: Built,
                     inner: Built)
    requires depth < 64 && ParseFrom(lib, contents, 0, depth + 1, false, b) == Ok(inner)
    ensures Apply(lib, Wrapped(contents, kind, newline, next), depth, b)
      == Ok(Finished(Mark(inner, kind, b.Offset()), newline))
  {
    hide ParseFrom;
  }

  lemma PastTheEnd(lib: Library, text: string, next: nat, depth: nat, b: Built)
    requires next >= |text|
    ensures ParseFrom(lib, text, next, depth, true, b) == Ok(b)
  {
  }

  lemma ParsePrintedInside(lib: Library, doc: Doc, depth: nat, b: Built)
    requires Printable(lib, doc, {}, None) && depth + Depth(doc) < 64
    ensures ParseFrom(lib, Print(doc), 0, depth + 1, false, b) == Ok(Written(b, doc))
  {
    PrintReads("", doc);
    PrintableIsWellBare(lib, doc, {}, None);
    PrintedGuards(Print(doc), 0, doc);
    GuardedBelow(Print(doc), Width(doc));
    ParsePrinted(lib, Print(doc), 0, doc, depth + 1, false, b, {}, None);
  }

  /** A quoted document parses to the document with one quote around it. */
  lemma QuoteRoundTrip(lib: Library, doc: Doc, expandable: bool, fallbacks: map<string, string>)
    requires doc != End && Printable(lib, doc, {}, None) && Depth(doc) < 64 && BarsRight(Print(doc), expandable)
    ensures Parse(lib, Quoted(QuoteBody(Print(doc), expandable)), 0, true, Built("", [], fallbacks, map[]))
      == Ok(Built(TextOf(doc), EntitiesOf(doc, 0)
           + [Entity(if expandable then ExpandableBlockquote else Blockquote, 0, Utf16Length(TextOf(doc)))], fallbacks,
           map[]))
  {
    hide NextToken, Apply, Printable, EntitiesOf, TextOf, Print, MarkLines, BarsRight;
    var b, text := Built("", [], fallbacks, map[]), Quoted(QuoteBody(Print(doc), expandable));
    assert text[0..] == text == Quoted(QuoteBody(Print(doc), expandable)) + "";
    QuoteStep(lib, text, 0, ">", doc, expandable, "", 0, b);
    WrittenIs(lib, b, doc, {}, None);
    TextPositive(lib, doc, {}, None);
    assert "" + TextOf(doc) == TextOf(doc) && [] + EntitiesOf(doc, 0) == EntitiesOf(doc, 0);
    LengthPositive(TextOf(doc));
  }
}
