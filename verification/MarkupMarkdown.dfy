/**
 Telegram's MarkdownV2 style with the editor shortcuts: the parser as a function on values,
 and as the class whose loops move positions and write into a builder.
 */
module MarkupMarkdown {
  import opened Text
  import opened MarkupResult

  // ---------------------------------------------------------------- lexical helpers

  /** A backslash removes itself before a character from 1 to 126. */
  function Unescape(s: string): string {
    if s == [] then ""
    else if s[0] == '\\' && |s| > 1 && 1 <= s[1] as int <= 126 then [s[1]] + Unescape(s[2..])
    else [s[0]] + Unescape(s[1..])
  }

  /** Inside code a backslash escapes only a backtick and itself. */
  function UnescapeCode(s: string): string {
    if s == [] then ""
    else if s[0] == '\\' && |s| > 1 && s[1] in "`\\" then [s[1]] + UnescapeCode(s[2..])
    else [s[0]] + UnescapeCode(s[1..])
  }

  predicate At(text: string, c: char, position: nat) {
    position < |text| && text[position] == c
  }

  /** The first position from `position` on that holds `c`, or the end of the text. */
  function Find(text: string, c: char, position: nat): (end: nat)
    requires position <= |text|
    ensures position <= end <= |text|
    ensures end < |text| ==> text[end] == c
    ensures forall k :: position <= k < end ==> text[k] != c
    decreases |text| - position
  {
    if position == |text| || text[position] == c then position else Find(text, c, position + 1)
  }

  function DigitRun(text: string, position: nat): (end: nat)
    requires position <= |text|
    ensures position <= end <= |text|
    ensures forall k :: position <= k < end ==> IsDigit(text[k])
    decreases |text| - position
  {
    if position < |text| && IsDigit(text[position]) then DigitRun(text, position + 1) else position
  }

  function UrlRun(text: string, position: nat): (end: nat)
    requires position <= |text|
    ensures position <= end <= |text|
    decreases |text| - position
  {
    if position < |text| && !IsSpace(text[position]) && text[position] !in "<>" then UrlRun(text, position + 1)
    else position
  }

  predicate IsLanguageCharacter(c: char) {
    'a' <= c <= 'z' || 'A' <= c <= 'Z' || IsDigit(c) || c in "_+.-"
  }

  function LanguageRun(text: string, position: nat): (end: nat)
    requires position <= |text|
    ensures position <= end <= |text|
    decreases |text| - position
  {
    if position < |text| && IsLanguageCharacter(text[position]) then LanguageRun(text, position + 1) else position
  }

  predicate IsCodeMarker(marker: string) {
    marker == "`" || marker == "```"
  }

  predicate Fenced(text: string, position: nat) {
    At(text, '`', position) && At(text, '`', position + 1) && At(text, '`', position + 2)
  }

  function CodeMarker(text: string, position: nat): string {
    if Fenced(text, position) then "```" else "`"
  }

  // ---------------------------------------------------------------- shortcuts for emoji and bare URLs

  datatype EmojiMatch = EmojiMatch(id: string, emoji: string, end: nat)

  /** `[digits]` at a position. */
  function MatchId(text: string, position: nat): (m: Option<EmojiMatch>)
    ensures m.Some? ==> position + 2 < m.value.end <= |text| && text[position] == '[' && IsDigit(text[position + 1])
  {
    if position < |text| && text[position] == '[' then
      var end := DigitRun(text, position + 1);
      if end > position + 1 && end < |text| && text[end] == ']' then
        Some(EmojiMatch(text[position + 1..end], "", end + 1))
      else None
    else None
  }

  /** An emoji immediately followed by `[digits]`; no emoji contains a bracket, so the first one ends it. */
  function MatchLegacy(lib: Library, text: string, position: nat): (m: Option<EmojiMatch>)
    ensures m.Some? ==> position < m.value.end <= |text|
    ensures m.Some? ==> exists k :: position < k < |text| - 1 && text[k] == '[' && IsDigit(text[k + 1])
  {
    if position >= |text| then None
    else
      var bracket := Find(text, '[', position);
      if bracket == position || !lib.isEmoji(text[position..bracket]) then None
      else match MatchId(text, bracket)
        case None => None
        case Some(m) => Some(EmojiMatch(m.id, text[position..bracket], m.end))
  }

  const URL_PREFIXES: seq<string> := ["https://", "http://", "tg://", "mailto:", "tel:"]

  function MatchUrlFrom(text: string, position: nat, i: nat): (end: Option<nat>)
    requires i <= |URL_PREFIXES|
    ensures end.Some? ==> position < end.value <= |text| && text[position] in "htm"
    decreases |URL_PREFIXES| - i
  {
    if i == |URL_PREFIXES| then None
    else if StartsWith(text, URL_PREFIXES[i], position) then
      var start := position + |URL_PREFIXES[i]|;
      if UrlRun(text, start) > start then Some(UrlRun(text, start)) else None
    else MatchUrlFrom(text, position, i + 1)
  }

  function MatchUrl(text: string, position: nat): (end: Option<nat>)
    ensures end.Some? ==> position < end.value <= |text| && text[position] in "htm"
  {
    MatchUrlFrom(text, position, 0)
  }

  // ---------------------------------------------------------------- links

  datatype Link = Link(caption: string, url: string, end: nat, image: bool)

  /** Where the scan for the closing bracket stops, and the depth left there. */
  function Balance(text: string, cursor: nat, depth: nat, open: char, close: char): (r: (nat, nat))
    requires open != close
    ensures r.0 >= cursor
    ensures depth > 0 && r.1 == 0 ==> cursor < r.0 <= |text| && text[r.0 - 1] == close
    ensures r.1 != 0 ==> r.0 >= |text|
    decreases if cursor < |text| then |text| - cursor else 0
  {
    if cursor >= |text| || depth == 0 then (cursor, depth)
    else if text[cursor] == '\\' then Balance(text, cursor + 2, depth, open, close)
    else Balance(text, cursor + 1,
                 if text[cursor] == open then depth + 1 else if text[cursor] == close then depth - 1
                 else depth, open, close)
  }

  function ReadLink(text: string, start: nat): (r: Result<Option<Link>, Error>)
    ensures r.Ok? && r.value.Some? ==>
      && start < |text| && start + 3 < r.value.value.end <= |text| && |r.value.value.caption| < |text|
      && (text[start] == '[' || text[start] == '!') && text[r.value.value.end - 1] == ')'
    ensures r.Err? ==> r.error == UnclosedUrl && start < |text| && (text[start] == '[' || text[start] == '!')
  {
    var image := At(text, '!', start) && At(text, '[', start + 1);
    var left := if image then start + 1 else start;
    if !At(text, '[', left) then Ok(None)
    else match CaptionEnd(text, left)
      case None => Ok(None)
      case Some(cursor) => ReadTarget(text, left, cursor, image)
  }

  /** The position of the parenthesis right after a balanced caption. */
  function CaptionEnd(text: string, left: nat): (end: Option<nat>)
    ensures end.Some? ==> left + 2 <= end.value < |text|
  {
    var (cursor, depth) := Balance(text, left + 1, 1, '[', ']');
    if depth != 0 || !At(text, '(', cursor) then None else Some(cursor)
  }

  /** A balanced destination after the caption; once the parenthesis is open it must be closed. */
  function ReadTarget(text: string, left: nat, cursor: nat, image: bool): (r: Result<Option<Link>, Error>)
    requires left + 2 <= cursor < |text|
    ensures r.Ok? ==> r.value.Some? && cursor + 1 < r.value.value.end <= |text| && |r.value.value.caption| < |text|
    ensures r.Ok? ==> text[r.value.value.end - 1] == ')'
    ensures r.Err? ==> r.error == UnclosedUrl
  {
    var (right, depth) := Balance(text, cursor + 1, 1, '(', ')');
    if depth != 0 then Err(UnclosedUrl)
    else Ok(Some(Link(text[left + 1..cursor - 1], Unescape(text[cursor + 1..right - 1]), right, image)))
  }

  // ---------------------------------------------------------------- closing markers

  /** The position of the marker that closes code, or -1; only escapes are skipped. */
  function CodeClosing(text: string, marker: string, position: nat): (r: int)
    ensures r == -1 || (position <= r && StartsWith(text, marker, r))
    decreases if position < |text| then |text| - position else 0
  {
    if position >= |text| then -1
    else if text[position] == '\\' then CodeClosing(text, marker, position + 2)
    else if StartsWith(text, marker, position) then position
    else CodeClosing(text, marker, position + 1)
  }

  /** Where the scan for a closing marker goes on from an ordinary character: past a link, past code, or one on. */
  function SkipConstruct(text: string, position: nat): (r: Result<nat, Error>)
    requires position < |text|
    ensures r.Ok? ==> position < r.value
  {
    match ReadLink(text, position)
    case Err(e) => Err(e)
    case Ok(Some(link)) => Ok(link.end)
    case Ok(None) =>
      if text[position] == '`' then
        var code := CodeMarker(text, position);
        var end := CodeClosing(text, code, position + |code|);
        Ok(if end >= 0 then end + |code| else position + 1)
      else Ok(position + 1)
  }

  predicate AtDoubled(text: string, marker: string, position: nat) {
    |marker| == 1 && marker[0] in "*_~" && StartsWith(text, marker + marker, position)
  }

  /** The position of the marker that closes a format, or -1. Escapes, doubled markers, links and code are skipped. */
  function ClosingPosition(text: string, marker: string, position: nat): (r: Result<int, Error>)
    requires |marker| > 0
    ensures r.Ok? ==> r.value == -1 || (position <= r.value && StartsWith(text, marker, r.value))
    ensures IsCodeMarker(marker) ==> r.Ok?
    decreases if position < |text| then |text| - position else 0
  {
    if IsCodeMarker(marker) then Ok(CodeClosing(text, marker, position))
    else if position >= |text| then Ok(-1)
    else if text[position] == '\\' || AtDoubled(text, marker, position) then ClosingPosition(text, marker, position + 2)
    else if StartsWith(text, marker, position) then Ok(position)
    else match SkipConstruct(text, position)
      case Err(e) => Err(e)
      case Ok(next) => ClosingPosition(text, marker, next)
  }

  // ---------------------------------------------------------------- quotes

  function JoinLines(lines: seq<string>): string {
    var n := |lines|;
    if n == 0 then "" else if n == 1 then lines[0] else JoinLines(lines[..n - 1]) + "\n" + lines[n - 1]
  }

  function LineWeight(lines: seq<string>): nat {
    var n := |lines|;
    if n == 0 then 0 else LineWeight(lines[..n - 1]) + |lines[n - 1]| + 1
  }

  lemma WeightSnoc(lines: seq<string>, line: string)
    ensures LineWeight(lines + [line]) == LineWeight(lines) + |line| + 1
  {
    assert (lines + [line])[..|lines|] == lines;
  }

  /** The prefix `**>` of a quote that starts collapsed; the other prefix is `>`. */
  predicate CollapsedPrefix(text: string, position: nat) {
    At(text, '*', position) && At(text, '*', position + 1) && At(text, '>', position + 2)
  }

  function PrefixLength(text: string, position: nat): nat {
    if CollapsedPrefix(text, position) then 3 else 1
  }

  /** Whether the text at a line start belongs to a quote; a second `**>` starts another one. */
  predicate QuoteContinues(text: string, position: nat, first: bool) {
    if CollapsedPrefix(text, position) then first else At(text, '>', position)
  }

  /** The end of the quoted line that starts at a position. */
  function QuoteLineEnd(text: string, position: nat): (end: nat)
    requires QuoteContinues(text, position, true)
    ensures position + PrefixLength(text, position) <= end <= |text|
  {
    Find(text, '\n', position)
  }

  function QuoteLine(text: string, position: nat): (line: string)
    requires QuoteContinues(text, position, true)
    ensures position + 1 + |line| <= QuoteLineEnd(text, position)
  {
    text[position + PrefixLength(text, position)..QuoteLineEnd(text, position)]
  }

  /** Adds the lines of a quote from `position` on; also the position after them. */
  function QuoteLines(text: string, position: nat, lines: seq<string>): (r: (seq<string>, nat))
    requires position <= |text| + 1
    ensures position <= r.1 <= |text| + 1
    ensures LineWeight(r.0) + |r.0| + position <= LineWeight(lines) + |lines| + r.1
    ensures r.0 == [] ==> lines == [] && r.1 == position
    ensures r.0 != lines ==> position < r.1
    decreases |text| + 1 - position
  {
    if !QuoteContinues(text, position, lines == []) then (lines, position)
    else
      var lines' := lines + [QuoteLine(text, position)];
      WeightSnoc(lines, QuoteLine(text, position));
      QuoteLines(text, QuoteLineEnd(text, position) + 1, lines')
  }

  lemma {:induction false} JoinLength(lines: seq<string>)
    requires lines != []
    ensures |JoinLines(lines)| + 1 == LineWeight(lines)
  {
    if |lines| > 1 { JoinLength(lines[..|lines| - 1]); }
  }

  predicate IsExpandable(contents: string) {
    var n := |contents|;
    n >= 2 && contents[n - 1] == '|' && contents[n - 2] == '|' && !(n >= 3 && contents[n - 3] == '\\')
  }

  function QuoteContents(lines: seq<string>): string {
    var contents := JoinLines(lines);
    if IsExpandable(contents) then contents[..|contents| - 2] else contents
  }

  function QuoteKind(lines: seq<string>): Kind {
    if IsExpandable(JoinLines(lines)) then ExpandableBlockquote else Blockquote
  }

  // ---------------------------------------------------------------- one construct at a time

  /** What stands at a position. `next` is where parsing goes on. */
  datatype Token =
    | Literal(text: string, next: nat)
    | Emoji(id: string, fallback: string, next: nat)
    | Skip(next: nat)
    | Verbatim(text: string, kind: Kind, next: nat)
    | Wrapped(contents: string, kind: Kind, newline: bool, next: nat)

  const FORMATS: seq<(string, Kind)> := [
    ("**", Bold), ("__", Underline), ("||", Spoiler), ("~~", Strikethrough), ("*", Bold), ("_", Italic),
    ("~", Strikethrough)]

  /** The end of the language name on the first line of a fenced block, if there is such a line. */
  function LanguageEnd(contents: string): (end: Option<nat>)
    ensures end.Some? ==> end.value < |contents|
  {
    var end := LanguageRun(contents, 0);
    if At(contents, '\n', end) then Some(end) else None
  }

  function CodeKind(fenced: bool, contents: string): Kind {
    if !fenced then Code
    else match LanguageEnd(contents)
      case None => Pre("")
      case Some(end) => Pre(contents[..end])
  }

  function CodeText(fenced: bool, contents: string): string {
    match LanguageEnd(contents)
    case None => UnescapeCode(contents)
    case Some(end) => UnescapeCode(if fenced then contents[end + 1..] else contents)
  }

  function CodeToken(text: string, position: nat): (t: Option<Token>)
    requires position < |text|
    ensures t.Some? ==> t.value.Verbatim? && position < t.value.next <= |text|
  {
    var marker := CodeMarker(text, position);
    var end := ClosingPosition(text, marker, position + |marker|).value;
    if end < 0 then None
    else
      var contents := text[position + |marker|..end];
      var fenced := Fenced(text, position);
      Some(Verbatim(CodeText(fenced, contents), CodeKind(fenced, contents), end + |marker|))
  }

  function QuoteToken(text: string, position: nat): (t: Option<Token>)
    requires position < |text|
    ensures t.Some? ==> t.value.Wrapped? && position < t.value.next <= |text| + 1 && |t.value.contents| < |text|
  {
    var (lines, after) := QuoteLines(text, position, []);
    if lines == [] then None
    else
      JoinLength(lines);
      Some(Wrapped(QuoteContents(lines), QuoteKind(lines), after <= |text|, after))
  }

  /** One format: its marker stands here and is closed later. */
  function TryFormat(text: string, position: nat, marker: string, kind: Kind): (r: Result<Option<Token>, Error>)
    requires position < |text| && |marker| > 0
    ensures r.Ok? && r.value.Some? ==>
      var t := r.value.value; t.Wrapped? && position < t.next <= |text| && |t.contents| < |text|
  {
    if !StartsWith(text, marker, position) then Ok(None)
    else match ClosingPosition(text, marker, position + |marker|)
      case Err(e) => Err(e)
      case Ok(end) =>
        if end < 0 then Ok(None)
        else Ok(Some(Wrapped(text[position + |marker|..end], kind, false, end + |marker|)))
  }

  ghost predicate MarkersNonEmpty(formats: seq<(string, Kind)>) {
    forall f <- formats :: |f.0| > 0
  }

  /** The first format that applies. */
  function FormatToken(text: string, position: nat, formats: seq<(string, Kind)>): (r: Result<Option<Token>, Error>)
    requires position < |text| && MarkersNonEmpty(formats)
    ensures r.Ok? && r.value.Some? ==>
      var t := r.value.value; t.Wrapped? && position < t.next <= |text| && |t.contents| < |text|
  {
    if formats == [] then Ok(None)
    else
      var r := TryFormat(text, position, formats[0].0, formats[0].1);
      if r == Ok(None) then FormatToken(text, position, formats[1..]) else r
  }

  function LinkToken(lib: Library, link: Link): (r: Result<Token, Error>)
    ensures r.Ok? ==> r.value.next == link.end
    ensures r.Ok? ==> r.value.Emoji? || (r.value.Wrapped? && r.value.contents == link.caption)
  {
    match LinkEntity(lib, link.url, link.image)
    case Err(e) => Err(e)
    case Ok(CustomEmoji(id)) => Ok(Emoji(id, Unescape(link.caption), link.end))
    case Ok(kind) => Ok(Wrapped(link.caption, kind, false, link.end))
  }

  predicate AtEscape(text: string, position: nat)
    requires position < |text|
  {
    text[position] == '\\' && position + 1 < |text| && text[position + 1] as int <= 126
  }

  predicate AtLineStart(text: string, position: nat)
    requires position < |text|
  {
    position == 0 || text[position - 1] == '\n'
  }

  predicate AtSeparator(text: string, position: nat) {
    StartsWith(text, "**", position) && (StartsWith(text, ">", position + 2) || StartsWith(text, "__", position + 2))
  }

  function NextToken(lib: Library, text: string, position: nat, blocks: bool): (r: Result<Token, Error>)
    requires position < |text|
    ensures r.Ok? ==> position < r.value.next <= |text| + 1
    ensures r.Ok? && r.value.Wrapped? ==> |r.value.contents| < |text|
  {
    if AtEscape(text, position) then Ok(Literal([text[position + 1]], position + 2))
    else
      var quote := if blocks && AtLineStart(text, position) then QuoteToken(text, position) else None;
      if quote.Some? then Ok(quote.value)
      else
        var code := if text[position] == '`' then CodeToken(text, position) else None;
        if code.Some? then Ok(code.value)
        else
          var legacy := MatchLegacy(lib, text, position);
          if legacy.Some? then Ok(Emoji(legacy.value.id, legacy.value.emoji, legacy.value.end))
          else TokenAfterEmoji(lib, text, position)
  }

  /** The branches after the emoji shortcut. */
  function TokenAfterEmoji(lib: Library, text: string, position: nat): (r: Result<Token, Error>)
    requires position < |text|
    ensures r.Ok? ==> position < r.value.next <= |text| + 1
    ensures r.Ok? && r.value.Wrapped? ==> |r.value.contents| < |text|
  {
    var link := ReadLink(text, position);
    if link.Err? then Err(link.error)
    else if link.value.Some? then LinkToken(lib, link.value.value)
    else
      var id := MatchId(text, position);
      if id.Some? then Ok(Emoji(id.value.id, "", id.value.end))
      else if AtSeparator(text, position) then Ok(Skip(position + 2))
      else
        var format := FormatToken(text, position, FORMATS);
        if format.Err? then Err(format.error)
        else if format.value.Some? then Ok(format.value.value)
        else
          var url := MatchUrl(text, position);
          if url.Some? then Ok(Literal(Unescape(text[position..url.value]), url.value))
          else Ok(Literal([text[position]], position + 1))
  }

  // ---------------------------------------------------------------- the parser

  const MAX_DEPTH := 64

  function Parse(lib: Library, text: string, depth: nat, blocks: bool, b: Built): Result<Built, Error>
    decreases |text|, 3, 0
  {
    if depth > MAX_DEPTH then Err(TooDeep) else ParseFrom(lib, text, 0, depth, blocks, b)
  }

  function ParseFrom(lib: Library, text: string, position: nat, depth: nat, blocks: bool,
                     b: Built): Result<Built, Error>
    decreases |text|, 2, if position < |text| then |text| - position else 0
  {
    if position >= |text| then Ok(b)
    else match NextToken(lib, text, position, blocks)
      case Err(e) => Err(e)
      case Ok(t) =>
        match Apply(lib, t, depth, b)
        case Err(e) => Err(e)
        case Ok(b') => ParseFrom(lib, text, t.next, depth, blocks, b')
  }

  function Apply(lib: Library, t: Token, depth: nat, b: Built): Result<Built, Error>
    decreases if t.Wrapped? then |t.contents| else 0, 4, 0
  {
    match t
    case Literal(text, _) => Ok(Emit(b, text))
    case Emoji(id, fallback, _) => EmitEmoji(lib, b, id, fallback)
    case Skip(_) => Ok(b)
    case Verbatim(text, kind, _) => Ok(Mark(Emit(b, text), kind, b.Offset()))
    case Wrapped(contents, kind, newline, _) =>
      match Parse(lib, contents, depth + 1, false, b)
      case Err(e) => Err(e)
      case Ok(b') => Ok(Finished(Mark(b', kind, b.Offset()), newline))
  }

  function Finished(b: Built, newline: bool): Built {
    if newline then Emit(b, "\n") else b
  }

  // ---------------------------------------------------------------- well nested output

  lemma {:induction false} ApplyGrows(lib: Library, t: Token, depth: nat, b: Built)
    requires Apply(lib, t, depth, b).Ok?
    ensures Grows(b, Apply(lib, t, depth, b).value)
    decreases if t.Wrapped? then |t.contents| else 0, 4, 0
  {
    match t
    case Literal(text, _) => GrowsEmit(b, text);
    case Emoji(id, fallback, _) => GrowsEmoji(lib, b, id, fallback);
    case Skip(_) => assert b.entities[|b.entities|..] == [];
    case Verbatim(text, kind, _) =>
      GrowsEmit(b, text);
      GrowsMark(b, Emit(b, text), kind);
    case Wrapped(contents, kind, newline, _) =>
      ParseGrows(lib, contents, 0, depth + 1, false, b);
      var inner := Parse(lib, contents, depth + 1, false, b).value;
      GrowsMark(b, inner, kind);
      if newline {
        GrowsEmit(Mark(inner, kind, b.Offset()), "\n");
        GrowsTrans(b, Mark(inner, kind, b.Offset()), Finished(Mark(inner, kind, b.Offset()), newline));
      }
  }

  /** A parse only adds: new text, and new entities that are placed in it and pairwise nested or disjoint. */
  lemma {:induction false} ParseGrows(lib: Library, text: string, position: nat, depth: nat, blocks: bool, b: Built)
    requires ParseFrom(lib, text, position, depth, blocks, b).Ok?
    ensures Grows(b, ParseFrom(lib, text, position, depth, blocks, b).value)
    decreases |text|, 2, if position < |text| then |text| - position else 0
  {
    if position >= |text| {
      assert b.entities[|b.entities|..] == [];
    } else {
      var t := NextToken(lib, text, position, blocks).value;
      var b' := Apply(lib, t, depth, b).value;
      ApplyGrows(lib, t, depth, b);
      ParseGrows(lib, text, t.next, depth, blocks, b');
      GrowsTrans(b, b', ParseFrom(lib, text, t.next, depth, blocks, b').value);
    }
  }

  /** Whatever the input, a parse into a fresh builder leaves it well formed. */
  lemma ParseWellFormed(lib: Library, text: string, blocks: bool, fallbacks: map<string, string>)
    requires Parse(lib, text, 0, blocks, Built("", [], fallbacks, map[])).Ok?
    ensures WellFormed(Parse(lib, text, 0, blocks, Built("", [], fallbacks, map[])).value)
  {
    var b := Built("", [], fallbacks, map[]);
    ParseGrows(lib, text, 0, 0, blocks, b);
    var b' := Parse(lib, text, 0, blocks, b).value;
    assert b'.entities[0..] == b'.entities;
  }
}
