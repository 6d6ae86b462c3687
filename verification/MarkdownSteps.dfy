/**
 One step of the Markdown parser for each construct that is not part of printed documents: what stands at a position,
 and with what the parse goes on after it.
 */
module MarkdownSteps {
  import opened Text
  import opened MarkupResult
  import opened MarkupMarkdown
  import opened PrintedMarkdown
  import opened PrintedScans
  import opened MarkdownBlocks
  import Shortcuts = MarkupShortcuts

  /** The parse goes on at a position with what a construct made, or ends with its error. */
  function GoesOn(lib: Library, text: string, next: nat, depth: nat, blocks: bool,
                  made: Result<Built, Error>): Result<Built, Error> {
    match made
    case Err(e) => Err(e)
    case Ok(b) => ParseFrom(lib, text, next, depth, blocks, b)
  }

  predicate Stands(text: string, p: nat, s: string) {
    p + |s| <= |text| && text[p..p + |s|] == s
  }

  /** No quote begins at a position. */
  predicate Unquoted(text: string, p: nat, blocks: bool) {
    blocks && (p == 0 || (p <= |text| && text[p - 1] == '\n')) ==> !Stands(text, p, ">") && !Stands(text, p, "**>")
  }

  lemma StepMade(lib: Library, text: string, p: nat, depth: nat, blocks: bool, b: Built, t: Token)
    requires p < |text| && NextToken(lib, text, p, blocks) == Ok(t)
    ensures ParseFrom(lib, text, p, depth, blocks, b)
      == GoesOn(lib, text, t.next, depth, blocks, Apply(lib, t, depth, b))
  {
    hide NextToken, Apply;
  }

  lemma StandsAt(text: string, p: nat, s: string, k: nat)
    requires Stands(text, p, s) && k < |s|
    ensures text[p + k] == s[k]
  {
    assert text[p..p + |s|][k] == s[k];
  }

  lemma NoQuoteAt(text: string, p: nat, blocks: bool)
    requires p < |text| && Unquoted(text, p, blocks)
    ensures blocks && AtLineStart(text, p) ==> QuoteToken(text, p) == None
  {
    MarkStands(text, p);
    hide Stands, Unquoted;
  }

  lemma MarkStands(text: string, p: nat)
    requires p < |text|
    ensures QuoteContinues(text, p, true) ==> Stands(text, p, ">") || Stands(text, p, "**>")
  {
    if QuoteContinues(text, p, true) {
      if CollapsedPrefix(text, p) { assert text[p..p + 3] == "**>"; } else { assert text[p..p + 1] == ">"; }
    }
  }

  // ---------------------------------------------------------------- custom emoji by number

  lemma {:induction false} BalanceDigits(text: string, p: nat, end: nat)
    requires p <= end < |text| && text[end] == ']' && forall k :: p <= k < end ==> IsDigit(text[k])
    ensures Balance(text, p, 1, '[', ']') == (end + 1, 0)
    decreases end - p
  {
    if p < end { BalanceDigits(text, p + 1, end); }
  }

  /** A number in brackets is a custom emoji, unless a parenthesis follows that makes it a link. */
  lemma NumberStep(lib: Library, text: string, p: nat, id: string, depth: nat, blocks: bool, b: Built)
    requires Stands(text, p, "[" + id + "]") && Shortcuts.Digits(id) && !At(text, '(', p + |id| + 2)
    ensures ParseFrom(lib, text, p, depth, blocks, b)
      == GoesOn(lib, text, p + |id| + 2, depth, blocks, EmitEmoji(lib, b, id, ""))
  {
    var s := "[" + id + "]";
    StandsAt(text, p, s, 0);
    StandsAt(text, p, s, |id| + 1);
    forall k | p + 1 <= k < p + 1 + |id| ensures IsDigit(text[k]) { StandsAt(text, p, s, k - p); }
    BalanceDigits(text, p + 1, p + 1 + |id|);
    assert ReadLink(text, p) == Ok(None);
    Shortcuts.IdStands(text, p, id);
    hide NextToken, ParseFrom, Parse, ReadLink, MatchId, EmitEmoji, Balance, IsDigit;
    NumberToken(lib, text, p, id, blocks);
    StepMade(lib, text, p, depth, blocks, b, Emoji(id, "", p + |id| + 2));
  }

  lemma NumberToken(lib: Library, text: string, p: nat, id: string, blocks: bool)
    requires p < |text| && text[p] == '[' && ReadLink(text, p) == Ok(None)
    requires MatchId(text, p) == Some(EmojiMatch(id, "", p + |id| + 2))
    ensures NextToken(lib, text, p, blocks) == Ok(Emoji(id, "", p + |id| + 2))
  {
    hide ReadLink, MatchId, CodeToken;
    assert !QuoteContinues(text, p, true);
  }

  /** With an emoji before it, that emoji stands for it. */
  lemma EmojiStep(lib: Library, text: string, p: nat, emoji: string, id: string, depth: nat, blocks: bool, b: Built)
    requires Stands(text, p, emoji + ("[" + id + "]")) && Shortcuts.Digits(id) && Unquoted(text, p, blocks)
    requires emoji != "" && lib.isEmoji(emoji) && Shortcuts.Unbracketed(emoji) && emoji[0] != '\\' && emoji[0] != '`'
    ensures ParseFrom(lib, text, p, depth, blocks, b)
      == GoesOn(lib, text, p + |emoji| + |id| + 2, depth, blocks, EmitEmoji(lib, b, id, emoji))
  {
    var end := p + |emoji| + |id| + 2;
    EmojiHere(lib, text, p, emoji, id);
    NoQuoteAt(text, p, blocks);
    hide NextToken, ParseFrom, Parse, Shortcuts.MarkupHtml.Shortcut, QuoteToken, Stands, EmitEmoji, Shortcuts.Digits;
    EmojiToken(lib, text, p, id, emoji, end, blocks);
    StepMade(lib, text, p, depth, blocks, b, Emoji(id, emoji, end));
  }

  lemma EmojiHere(lib: Library, text: string, p: nat, emoji: string, id: string)
    requires Stands(text, p, emoji + ("[" + id + "]")) && Shortcuts.Digits(id)
    requires emoji != "" && lib.isEmoji(emoji) && Shortcuts.Unbracketed(emoji)
    ensures p < |text| && text[p] == emoji[0]
    ensures Shortcuts.MarkupHtml.Shortcut(lib, text, p) == Some(EmojiMatch(id, emoji, p + |emoji| + |id| + 2))
  {
    var number := Shortcuts.InBrackets(id);
    var more := text[p + |emoji + number|..];
    hide Shortcuts.InBrackets, Shortcuts.Unbracketed, Shortcuts.Digits;
    StandsAt(text, p, emoji + number, 0);
    StandsBefore(text, p, emoji, number);
    Shortcuts.IdHere(lib, text, p, emoji, id, more);
  }

  lemma StandsBefore(text: string, p: nat, a: string, b: string)
    requires Stands(text, p, a + b)
    ensures p + |a + b| <= |text| && text[p..] == a + (b + text[p + |a + b|..])
  {
    var more := text[p + |a + b|..];
    assert text[p..] == text[p..p + |a + b|] + more;
    Associative(a, b, more);
  }

  lemma EmojiToken(lib: Library, text: string, p: nat, id: string, emoji: string, end: nat, blocks: bool)
    requires p < |text| && text[p] != '\\' && text[p] != '`' && emoji != ""
    requires Shortcuts.MarkupHtml.Shortcut(lib, text, p) == Some(EmojiMatch(id, emoji, end))
    requires blocks && AtLineStart(text, p) ==> QuoteToken(text, p) == None
    ensures NextToken(lib, text, p, blocks) == Ok(Emoji(id, emoji, end))
  {
    hide QuoteToken, CodeToken, Find;
  }

  // ---------------------------------------------------------------- images

  lemma ImageRead(text: string, p: nat, caption: string, url: string, end: nat)
    requires At(text, '!', p) && ReadLink(text, p + 1) == Ok(Some(Link(caption, url, end, false)))
      && At(text, '[', p + 1)
    ensures ReadLink(text, p) == Ok(Some(Link(caption, url, end, true)))
  {
    hide Balance;
  }

  /** A printed image: an exclamation mark before what would be a link. */
  ghost predicate ImageAt(lib: Library, text: string, p: nat, url: string, body: Doc) {
    At(text, '!', p) && Reads(text, p + 1, Hyperlink(url, body, End)) && WellBare(body) && !lib.isEmoji("!")
  }

  lemma ImageToken(lib: Library, text: string, p: nat, url: string, body: Doc, blocks: bool)
    requires ImageAt(lib, text, p, url, body)
    ensures CaptionStop(p + 1, body) < |text|
    ensures NextToken(lib, text, p, blocks)
      == LinkToken(lib, Link(text[p + 2..CaptionStop(p + 1, body)], url, UrlStop(p + 1, url, body) + 1, true))
  {
    ImageReadHere(lib, text, p, url, body);
    MarkAlone(lib, text, p);
    hide ReadLink, Reads, LinkToken, NextToken, WellBare, MatchLegacy, QuoteToken;
    TokenIsLink(lib, text, p, blocks,
                Link(text[p + 2..CaptionStop(p + 1, body)], url, UrlStop(p + 1, url, body) + 1, true));
  }

  lemma ImageReadHere(lib: Library, text: string, p: nat, url: string, body: Doc)
    requires ImageAt(lib, text, p, url, body)
    ensures At(text, '[', p + 1) && CaptionStop(p + 1, body) < |text|
    ensures ReadLink(text, p)
      == Ok(Some(Link(text[p + 2..CaptionStop(p + 1, body)], url, UrlStop(p + 1, url, body) + 1, true)))
  {
    hide ReadLink, Reads, WellBare, Width, EscapeWidth;
    ReadPrinted(text, p + 1, url, body, End);
    ReadsLink(text, p + 1, url, body, End);
    ImageRead(text, p, text[p + 2..CaptionStop(p + 1, body)], url, UrlStop(p + 1, url, body) + 1);
  }

  lemma MarkAlone(lib: Library, text: string, p: nat)
    requires At(text, '!', p) && At(text, '[', p + 1) && !lib.isEmoji("!")
    ensures MatchLegacy(lib, text, p) == None && QuoteToken(text, p) == None
  {
    assert Find(text, '[', p) == p + 1 && text[p..p + 1] == "!";
    assert !QuoteContinues(text, p, true);
  }

  /** The image of a custom emoji is that emoji, shown by the text in its brackets. */
  lemma ImageStep(lib: Library, text: string, p: nat, url: string, id: string, shown: string, depth: nat, blocks: bool,
                  b: Built)
    requires ImageAt(lib, text, p, url, Plain(shown, End)) && LinkEntity(lib, url, true) == Ok(CustomEmoji(id))
    ensures ParseFrom(lib, text, p, depth, blocks, b)
      == GoesOn(lib, text, UrlStop(p + 1, url, Plain(shown, End)) + 1, depth, blocks, EmitEmoji(lib, b, id, shown))
  {
    ImageIsEmoji(lib, text, p, url, id, shown, blocks);
    StepMade(lib, text, p, depth, blocks, b, Emoji(id, shown, UrlStop(p + 1, url, Plain(shown, End)) + 1));
    hide NextToken, LinkEntity, Reads, EmitEmoji, ParseFrom, Parse;
  }

  lemma ImageIsEmoji(lib: Library, text: string, p: nat, url: string, id: string, shown: string, blocks: bool)
    requires ImageAt(lib, text, p, url, Plain(shown, End)) && LinkEntity(lib, url, true) == Ok(CustomEmoji(id))
    ensures NextToken(lib, text, p, blocks) == Ok(Emoji(id, shown, UrlStop(p + 1, url, Plain(shown, End)) + 1))
  {
    ImageToken(lib, text, p, url, Plain(shown, End), blocks);
    CaptionText(text, p + 1, url, shown);
    hide NextToken, LinkEntity, Reads, Unescape, ImageAt, CaptionStop, UrlStop;
  }

  lemma CaptionText(text: string, p: nat, url: string, shown: string)
    requires Reads(text, p, Hyperlink(url, Plain(shown, End), End))
    ensures CaptionStop(p, Plain(shown, End)) <= |text|
    ensures Unescape(text[p + 1..CaptionStop(p, Plain(shown, End))]) == shown
  {
    ReadsLink(text, p, url, Plain(shown, End), End);
    ReadsPlain(text, p + 1, shown, End);
    hide Reads;
    UnescapeAt(text, p + 1, CaptionStop(p, Plain(shown, End)), shown);
  }

  /** The image of a date marks what its brackets contain with it. */
  lemma DateStep(lib: Library, text: string, p: nat, url: string, unix: nat, format: string, body: Doc, depth: nat,
                 blocks: bool,
                 b: Built)
    requires ImageAt(lib, text, p, url, body) && LinkEntity(lib, url, true) == Ok(DateTime(unix, format))
    ensures CaptionStop(p + 1, body) < |text|
    ensures ParseFrom(lib, text, p, depth, blocks, b)
      == match Parse(lib, text[p + 2..CaptionStop(p + 1, body)], depth + 1, false, b)
         case Err(e) => Err(e)
         case Ok(inner) =>
           ParseFrom(lib, text, UrlStop(p + 1, url, body) + 1, depth, blocks,
                     Mark(inner, DateTime(unix, format), b.Offset()))
  {
    ImageToken(lib, text, p, url, body, blocks);
    var caption, end := text[p + 2..CaptionStop(p + 1, body)], UrlStop(p + 1, url, body) + 1;
    StepMade(lib, text, p, depth, blocks, b, Wrapped(caption, DateTime(unix, format), false, end));
    hide NextToken, LinkEntity, Reads, Parse, ParseFrom, Mark;
  }

  // ---------------------------------------------------------------- separators

  /** No emoji that stands at a position has a number after it. */
  ghost predicate NoEmojiAt(lib: Library, text: string, p: nat)
    requires p <= |text|
  {
    forall k :: p < k < |text| && text[k] == '[' ==> !lib.isEmoji(text[p..k])
  }

  lemma NoLegacy(lib: Library, text: string, p: nat)
    requires p < |text| && NoEmojiAt(lib, text, p)
    ensures MatchLegacy(lib, text, p) == None
  {
  }

  /** Two stars before an underline, or before a quote's mark where no quote begins, vanish. */
  lemma SeparatorStep(lib: Library, text: string, p: nat, depth: nat, blocks: bool, b: Built)
    requires Stands(text, p, "**>") || Stands(text, p, "**__")
    requires Unquoted(text, p, blocks) && NoEmojiAt(lib, text, p)
    ensures ParseFrom(lib, text, p, depth, blocks, b) == ParseFrom(lib, text, p + 2, depth, blocks, b)
  {
    hide NextToken, ParseFrom, Parse, QuoteToken, MatchLegacy;
    NoLegacy(lib, text, p);
    NoQuoteAt(text, p, blocks);
    var s := if Stands(text, p, "**>") then "**>" else "**__";
    StandsAt(text, p, s, 0);
    StandsAt(text, p, s, 1);
    StandsAt(text, p, s, 2);
    if s == "**__" { StandsAt(text, p, s, 3); }
    SeparatorHere(text, p);
    SeparatorToken(lib, text, p, blocks);
    StepMade(lib, text, p, depth, blocks, b, Skip(p + 2));
    hide NextToken;
  }

  lemma SeparatorHere(text: string, p: nat)
    requires At(text, '*', p) && At(text, '*', p + 1)
    requires At(text, '>', p + 2) || (At(text, '_', p + 2) && At(text, '_', p + 3))
    ensures AtSeparator(text, p)
  {
    assert "**"[1..] == "*" && "*"[1..] == "" && "__"[1..] == "_" && "_"[1..] == "" && ">"[1..] == "";
  }

  lemma SeparatorToken(lib: Library, text: string, p: nat, blocks: bool)
    requires At(text, '*', p) && AtSeparator(text, p) && MatchLegacy(lib, text, p) == None
    requires blocks && AtLineStart(text, p) ==> QuoteToken(text, p) == None
    ensures NextToken(lib, text, p, blocks) == Ok(Skip(p + 2))
  {
    hide AtSeparator, MatchLegacy, QuoteToken;
  }

  // ---------------------------------------------------------------- code

  /** Escaped code between its marks. */
  ghost predicate CodeAt(text: string, p: nat, marker: string, s: string) {
    Stands(text, p, marker + EscapeCode(s) + marker)
  }

  lemma CodeParts(text: string, p: nat, marker: string, s: string)
    requires IsCodeMarker(marker) && CodeAt(text, p, marker, s)
    ensures var start, end := p + |marker|, p + |marker| + |EscapeCode(s)|;
      && end + |marker| <= |text| && text[start..end] == EscapeCode(s) && StartsWith(text, marker, p)
      && StartsWith(text, marker, end)
  {
    ThreeParts(text, p, marker, EscapeCode(s), marker);
    StartsWithAt(text, marker, p);
    StartsWithAt(text, marker, p + |marker| + |EscapeCode(s)|);
    hide EscapeCode, StartsWith;
  }

  lemma ThreeParts(text: string, p: nat, a: string, b: string, c: string)
    requires Stands(text, p, a + b + c)
    ensures var start, end := p + |a|, p + |a| + |b|;
      end + |c| <= |text| && text[p..start] == a && text[start..end] == b && text[end..end + |c|] == c
  {
    TwoParts(text, p, a + b, c);
    TwoParts(text, p, a, b);
  }

  lemma TwoParts(text: string, p: nat, a: string, b: string)
    requires Stands(text, p, a + b)
    ensures Stands(text, p, a) && Stands(text, p + |a|, b)
  {
    var all := text[p..p + |a + b|];
    assert text[p..p + |a|] == all[..|a|];
    assert text[p + |a|..p + |a| + |b|] == all[|a|..];
  }

  lemma CodeCloses(text: string, p: nat, marker: string, s: string)
    requires IsCodeMarker(marker) && CodeAt(text, p, marker, s)
    ensures p + |marker| + |EscapeCode(s)| + |marker| <= |text|
      && text[p + |marker|..p + |marker| + |EscapeCode(s)|] == EscapeCode(s)
    ensures ClosingPosition(text, marker, p + |marker|) == Ok(p + |marker| + |EscapeCode(s)|)
    ensures StartsWith(text, marker, p)
  {
    CodeParts(text, p, marker, s);
    ClosingAfterCode(text, marker, p + |marker|, s);
    hide EscapeCode;
  }

  lemma CodeFirst(lib: Library, text: string, p: nat, blocks: bool, t: Token)
    requires p < |text| && text[p] == '`' && CodeToken(text, p) == Some(t)
    ensures NextToken(lib, text, p, blocks) == Ok(t)
  {
    hide CodeToken;
    assert !QuoteContinues(text, p, true);
  }

  /** Code between backticks is added as it is and marked. */
  lemma CodeStep(lib: Library, text: string, p: nat, s: string, depth: nat, blocks: bool, b: Built)
    requires s != "" && CodeAt(text, p, "`", s)
    ensures ParseFrom(lib, text, p, depth, blocks, b)
      == ParseFrom(lib, text, p + |EscapeCode(s)| + 2, depth, blocks, Mark(Emit(b, s), Code, b.Offset()))
  {
    var end := p + |EscapeCode(s)| + 2;
    hide NextToken, ParseFrom, Parse, Mark, EscapeCode, CodeToken, CodeAt;
    InlineToken(text, p, s);
    CodeFirst(lib, text, p, blocks, Verbatim(s, Code, end));
    StepMade(lib, text, p, depth, blocks, b, Verbatim(s, Code, end));
  }

  lemma InlineToken(text: string, p: nat, s: string)
    requires s != "" && CodeAt(text, p, "`", s)
    ensures p < |text| && text[p] == '`' && CodeToken(text, p) == Some(Verbatim(s, Code, p + |EscapeCode(s)| + 2))
  {
    hide EscapeCode, ClosingPosition, Fenced, CodeText, CodeKind, CodeAt, StartsWith;
    CodeCloses(text, p, "`", s);
    CodeBegins(text, p);
    NotFenced(text, p, s);
    InlineCode(s);
    CodeIs(text, p, "`", EscapeCode(s));
  }

  lemma CodeBegins(text: string, p: nat)
    requires StartsWith(text, "`", p)
    ensures p < |text| && text[p] == '`'
  {
  }

  lemma InlineCode(s: string)
    ensures CodeText(false, EscapeCode(s)) == s && CodeKind(false, EscapeCode(s)) == Code
  {
    UnescapeEscaped(s);
  }

  lemma CodeIs(text: string, p: nat, marker: string, e: string)
    requires CodeMarker(text, p) == marker && p + |marker| + |e| <= |text|
      && text[p + |marker|..p + |marker| + |e|] == e
    requires p < |text| && ClosingPosition(text, marker, p + |marker|) == Ok(p + |marker| + |e|)
    ensures CodeToken(text, p)
      == Some(Verbatim(CodeText(Fenced(text, p), e), CodeKind(Fenced(text, p), e), p + |marker| + |e| + |marker|))
  {
    hide ClosingPosition, Fenced, CodeText, CodeKind;
  }

  lemma NotFenced(text: string, p: nat, s: string)
    requires s != "" && p + 1 + |EscapeCode(s)| <= |text| && text[p + 1..p + 1 + |EscapeCode(s)|] == EscapeCode(s)
    ensures !Fenced(text, p)
  {
    assert text[p + 1] == text[p + 1..p + 1 + |EscapeCode(s)|][0] == EscapeCode(s)[0];
  }

  /** The name of a language. */
  ghost predicate Names(language: string) {
    forall c <- language ::
      'a' <= c <= 'z' || 'A' <= c <= 'Z' || '0' <= c <= '9' || c == '_' || c == '+' || c == '.' || c == '-'
  }

  lemma {:induction false} NameRun(s: string, from: nat, language: string)
    requires from <= |language| < |s| && language == s[..|language|] && Names(language) && s[|language|] == '\n'
    ensures LanguageRun(s, from) == |language|
    decreases |language| - from
  {
    if from < |language| {
      assert s[from] == language[from] && language[from] in language;
      NameRun(s, from + 1, language);
    }
  }

  lemma {:induction false} EscapeName(language: string, s: string)
    requires Names(language)
    ensures EscapeCode(language + "\n" + s) == language + "\n" + EscapeCode(s)
  {
    if language == "" {
      assert language + "\n" + s == ['\n'] + s && (['\n'] + s)[1..] == s;
    } else {
      assert language[0] in language && forall c <- language[1..] :: c in language;
      EscapeName(language[1..], s);
      assert (language + "\n" + s)[1..] == language[1..] + "\n" + s;
      assert language == [language[0]] + language[1..];
    }
  }

  lemma FencedToken(text: string, p: nat, contents: string)
    requires CodeAt(text, p, "```", contents)
    ensures p < |text| && text[p] == '`'
    ensures CodeToken(text, p)
      == Some(Verbatim(CodeText(true, EscapeCode(contents)), CodeKind(true, EscapeCode(contents)),
                       p + |EscapeCode(contents)| + 6))
  {
    CodeCloses(text, p, "```", contents);
    assert "```"[1..] == "``" && "``"[1..] == "`";
    assert Fenced(text, p);
    hide EscapeCode, ClosingPosition, CodeText, CodeKind, Fenced, CodeAt;
    CodeIs(text, p, "```", EscapeCode(contents));
  }

  /** A block of code is added without its first line, which names its language. */
  lemma FenceStep(lib: Library, text: string, p: nat, language: string, s: string, depth: nat, blocks: bool, b: Built)
    requires Names(language) && CodeAt(text, p, "```", language + "\n" + s)
    ensures ParseFrom(lib, text, p, depth, blocks, b)
      == ParseFrom(lib, text, p + |language| + |EscapeCode(s)| + 7, depth, blocks,
                   Mark(Emit(b, s), Pre(language), b.Offset()))
  {
    var end := p + |language| + |EscapeCode(s)| + 7;
    hide NextToken, ParseFrom, Parse, Mark, EscapeCode, CodeToken, CodeAt, Names;
    FenceToken(text, p, language, s);
    CodeFirst(lib, text, p, blocks, Verbatim(s, Pre(language), end));
    StepMade(lib, text, p, depth, blocks, b, Verbatim(s, Pre(language), end));
  }

  lemma FenceToken(text: string, p: nat, language: string, s: string)
    requires Names(language) && CodeAt(text, p, "```", language + "\n" + s)
    ensures p < |text| && text[p] == '`'
    ensures CodeToken(text, p) == Some(Verbatim(s, Pre(language), p + |language| + |EscapeCode(s)| + 7))
  {
    hide EscapeCode, CodeToken, CodeAt, Names, CodeText, CodeKind;
    FencedToken(text, p, language + "\n" + s);
    NamedCode(language, s);
  }

  lemma NamedCode(language: string, s: string)
    requires Names(language)
    ensures var e := EscapeCode(language + "\n" + s);
      CodeText(true, e) == s && CodeKind(true, e) == Pre(language) && |e| == |language| + 1 + |EscapeCode(s)|
  {
    EscapeName(language, s);
    var e := language + "\n" + EscapeCode(s);
    assert e[..|language|] == language && e[|language| + 1..] == EscapeCode(s) && e[|language|] == '\n';
    NameRun(e, 0, language);
    UnescapeEscaped(s);
    hide EscapeCode, LanguageRun;
  }

  /** A block whose first line names no language is added whole. */
  lemma UnnamedFenceStep(lib: Library, text: string, p: nat, s: string, depth: nat, blocks: bool, b: Built)
    requires CodeAt(text, p, "```", s) && forall n :: 0 <= n < |s| && s[n] == '\n' ==> !Names(s[..n])
    ensures ParseFrom(lib, text, p, depth, blocks, b)
      == ParseFrom(lib, text, p + |EscapeCode(s)| + 6, depth, blocks, Mark(Emit(b, s), Pre(""), b.Offset()))
  {
    UnnamedCode(s);
    hide NextToken, ParseFrom, Parse, Mark, EscapeCode, CodeToken, CodeText, CodeKind, CodeAt, Names;
    FencedToken(text, p, s);
    var end := p + |EscapeCode(s)| + 6;
    CodeFirst(lib, text, p, blocks, Verbatim(s, Pre(""), end));
    StepMade(lib, text, p, depth, blocks, b, Verbatim(s, Pre(""), end));
  }

  lemma {:induction false} RunNames(s: string, from: nat)
    requires from <= |s| && Names(s[..from])
    ensures Names(s[..LanguageRun(s, from)])
    decreases |s| - from
  {
    if from < |s| && IsLanguageCharacter(s[from]) {
      assert s[..from + 1] == s[..from] + [s[from]];
      RunNames(s, from + 1);
    }
  }

  lemma NamesTail(language: string)
    requires Names(language) && language != ""
    ensures Names(language[1..])
  {
    assert forall c <- language[1..] :: c in language;
  }

  /** Up to the first character that escaping changes, code and escaped code are the same. */
  lemma {:induction false} EscapeKeepsNames(s: string, n: nat)
    requires n <= |EscapeCode(s)| && Names(EscapeCode(s)[..n])
    ensures n <= |s| && s[..n] == EscapeCode(s)[..n]
    ensures n < |EscapeCode(s)| && EscapeCode(s)[n] == '\n' ==> n < |s| && s[n] == '\n'
    decreases n
  {
    if n > 0 {
      var e := EscapeCode(s);
      assert e[..n][0] in e[..n] && e[0] != '\\';
      assert e[1..] == EscapeCode(s[1..]) && e[1..][..n - 1] == e[..n][1..];
      NamesTail(e[..n]);
      EscapeKeepsNames(s[1..], n - 1);
      assert s[..n] == [s[0]] + s[1..][..n - 1] && e[..n] == [e[0]] + e[1..][..n - 1];
      if n < |e| { assert e[1..][n - 1] == e[n]; }
    }
  }

  lemma UnnamedCode(s: string)
    requires forall n :: 0 <= n < |s| && s[n] == '\n' ==> !Names(s[..n])
    ensures CodeText(true, EscapeCode(s)) == s && CodeKind(true, EscapeCode(s)) == Pre("")
  {
    var e := EscapeCode(s);
    RunNames(e, 0);
    EscapeKeepsNames(s, LanguageRun(e, 0));
    UnescapeEscaped(s);
  }

  // ---------------------------------------------------------------- what nothing closes

  /** After a position nothing closes, opens or escapes. */
  ghost predicate NothingAfter(text: string, p: nat) {
    forall k :: p < k < |text| ==> text[k] !in "*_|~[]`\\"
  }

  lemma {:induction false} CodeNeverCloses(text: string, p: nat, k: nat)
    requires NothingAfter(text, p) && p < k
    ensures CodeClosing(text, "`", k) == -1
    decreases |text| - k
  {
    if k < |text| { CodeNeverCloses(text, p, k + 1); }
  }

  lemma {:induction false} FormatNeverCloses(text: string, p: nat, k: nat, c: char)
    requires NothingAfter(text, p) && p < k && c in "*_~"
    ensures ClosingPosition(text, [c], k) == Ok(-1)
    decreases |text| - k
  {
    if k < |text| {
      assert SkipConstruct(text, k) == Ok(k + 1);
      FormatNeverCloses(text, p, k + 1, c);
    }
  }

  lemma {:induction false} BracketNeverCloses(text: string, p: nat, k: nat, depth: nat)
    requires NothingAfter(text, p) && p < k && depth > 0
    ensures Balance(text, k, depth, '[', ']').1 != 0
    decreases |text| - k
  {
    if k < |text| { BracketNeverCloses(text, p, k + 1, depth); }
  }

  lemma NoFormatHere(text: string, p: nat, marker: string, kind: Kind)
    requires p < |text| && NothingAfter(text, p) && marker in ["**", "__", "||", "~~", "*", "_", "~"]
    ensures TryFormat(text, p, marker, kind) == Ok(None)
  {
    if |marker| == 2 {
      assert marker[1..] != "" && marker[1..][0] == marker[1];
    } else {
      assert marker == [marker[0]];
      FormatNeverCloses(text, p, p + 1, marker[0]);
    }
  }

  lemma {:induction false} NoFormats(text: string, p: nat, formats: seq<(string, Kind)>)
    requires p < |text| && NothingAfter(text, p) && MarkersNonEmpty(formats)
    requires forall f <- formats :: f.0 in ["**", "__", "||", "~~", "*", "_", "~"]
    ensures FormatToken(text, p, formats) == Ok(None)
  {
    if formats != [] {
      assert formats[0] in formats;
      NoFormatHere(text, p, formats[0].0, formats[0].1);
      NoFormats(text, p, formats[1..]);
    }
  }

  /** A symbol, a bracket, a backtick or a backslash that nothing closes stands for itself. */
  lemma LoneStep(lib: Library, text: string, p: nat, depth: nat, blocks: bool, b: Built)
    requires p < |text| && text[p] in "*_|~[`\\" && NothingAfter(text, p)
    requires text[p] == '\\' && p + 1 < |text| ==> text[p + 1] as int > 126
    ensures ParseFrom(lib, text, p, depth, blocks, b) == ParseFrom(lib, text, p + 1, depth, blocks, Emit(b, [text[p]]))
  {
    hide NextToken, ParseFrom, Parse, FormatToken, ReadLink;
    NoFormats(text, p, FORMATS);
    if text[p] == '[' { BracketNeverCloses(text, p, p + 1, 1); }
    LoneReads(lib, text, p);
    if text[p] == '`' {
      CodeNeverCloses(text, p, p + 1);
      LoneCode(lib, text, p, blocks);
    } else {
      OnlyLiteral(lib, text, p, blocks);
    }
    StepMade(lib, text, p, depth, blocks, b, MarkupMarkdown.Literal([text[p]], p + 1));
  }

  lemma LoneReads(lib: Library, text: string, p: nat)
    requires p < |text| && text[p] in "*_|~[`\\" && NothingAfter(text, p)
    requires text[p] == '[' ==> Balance(text, p + 1, 1, '[', ']').1 != 0
    requires text[p] == '\\' && p + 1 < |text| ==> text[p + 1] as int > 126
    ensures !AtEscape(text, p) && !AtSeparator(text, p) && QuoteToken(text, p) == None
      && MatchLegacy(lib, text, p) == None
    ensures ReadLink(text, p) == Ok(None) && MatchId(text, p) == None && MatchUrl(text, p) == None
  {
    assert !QuoteContinues(text, p, true);
    hide Balance;
  }

  lemma LoneCode(lib: Library, text: string, p: nat, blocks: bool)
    requires p < |text| && text[p] == '`' && NothingAfter(text, p) && CodeClosing(text, "`", p + 1) == -1
    requires !AtEscape(text, p) && !AtSeparator(text, p) && QuoteToken(text, p) == None
      && MatchLegacy(lib, text, p) == None
    requires ReadLink(text, p) == Ok(None) && MatchId(text, p) == None && FormatToken(text, p, FORMATS) == Ok(None)
    requires MatchUrl(text, p) == None
    ensures NextToken(lib, text, p, blocks) == Ok(MarkupMarkdown.Literal([text[p]], p + 1))
  {
    assert CodeToken(text, p) == None;
    hide QuoteToken, FormatToken, ReadLink, MatchLegacy, MatchId, AtSeparator, AtEscape, MatchUrl, CodeToken;
  }

  // ---------------------------------------------------------------- addresses

  /** An address: a prefix and at least one character, up to white space or an angle bracket. */
  ghost predicate AddressAt(text: string, p: nat, prefix: string, end: nat) {
    && prefix in ["https://", "http://", "tg://", "mailto:", "tel:"]
    && Stands(text, p, prefix) && p + |prefix| < end <= |text|
    && (forall k :: p + |prefix| <= k < end ==> !IsSpace(text[k]) && text[k] != '<' && text[k] != '>')
    && (end < |text| ==> IsSpace(text[end]) || text[end] == '<' || text[end] == '>')
  }

  lemma {:induction false} RunEnds(text: string, k: nat, end: nat)
    requires k <= end <= |text| && (forall i :: k <= i < end ==> !IsSpace(text[i]) && text[i] != '<' && text[i] != '>')
    requires end < |text| ==> IsSpace(text[end]) || text[end] == '<' || text[end] == '>'
    ensures UrlRun(text, k) == end
    decreases end - k
  {
    if k < end { RunEnds(text, k + 1, end); }
  }

  /** Of the prefixes only the one that stands there is found. */
  lemma PrefixFound(text: string, p: nat, prefix: string, i: nat)
    requires prefix in ["https://", "http://", "tg://", "mailto:", "tel:"] && Stands(text, p, prefix)
      && i < |URL_PREFIXES|
    ensures StartsWith(text, URL_PREFIXES[i], p) <==> URL_PREFIXES[i] == prefix
  {
    StartsWithAt(text, URL_PREFIXES[i], p);
    hide StartsWith;
    if StartsWith(text, URL_PREFIXES[i], p) {
      assert Stands(text, p, URL_PREFIXES[i]);
      hide Stands;
      OnePrefix(text, p, prefix, URL_PREFIXES[i]);
    }
  }

  lemma OnePrefix(text: string, p: nat, a: string, b: string)
    requires a in ["https://", "http://", "tg://", "mailto:", "tel:"]
      && b in ["https://", "http://", "tg://", "mailto:", "tel:"]
    requires Stands(text, p, a) && Stands(text, p, b)
    ensures a == b
  {
    StandsAt(text, p, a, 0);
    StandsAt(text, p, b, 0);
    StandsAt(text, p, a, 1);
    StandsAt(text, p, b, 1);
    if |a| > 4 { StandsAt(text, p, a, 4); }
    if |b| > 4 { StandsAt(text, p, b, 4); }
    hide Stands;
  }

  lemma {:induction false} AddressFound(text: string, p: nat, prefix: string, end: nat, i: nat)
    requires AddressAt(text, p, prefix, end) && i < |URL_PREFIXES| && prefix in URL_PREFIXES[i..]
    ensures MatchUrlFrom(text, p, i) == Some(end)
    decreases |URL_PREFIXES| - i
  {
    hide IsSpace, StartsWith, Stands;
    PrefixFound(text, p, prefix, i);
    if URL_PREFIXES[i] == prefix {
      RunEnds(text, p + |prefix|, end);
    } else {
      assert i + 1 < |URL_PREFIXES| && prefix in URL_PREFIXES[i + 1..];
      AddressFound(text, p, prefix, end, i + 1);
    }
  }

  /** An address is kept whole: nothing in it formats, links or quotes. */
  lemma AddressStep(lib: Library, text: string, p: nat, prefix: string, end: nat, depth: nat, blocks: bool, b: Built)
    requires AddressAt(text, p, prefix, end) && NoEmojiAt(lib, text, p)
    ensures ParseFrom(lib, text, p, depth, blocks, b)
      == ParseFrom(lib, text, end, depth, blocks, Emit(b, Unescape(text[p..end])))
  {
    hide NextToken, ParseFrom, Parse, FormatToken, Unescape, MatchUrlFrom, IsSpace;
    StandsAt(text, p, prefix, 0);
    assert URL_PREFIXES[0..] == URL_PREFIXES;
    AddressFound(text, p, prefix, end, 0);
    NoLegacy(lib, text, p);
    NoFormat(text, p, FORMATS);
    LetterOpens(text, p);
    OnlyLiteral(lib, text, p, blocks);
    StepMade(lib, text, p, depth, blocks, b, MarkupMarkdown.Literal(Unescape(text[p..end]), end));
  }

  lemma LetterOpens(text: string, p: nat)
    requires p < |text| && text[p] in "htm"
    ensures !AtEscape(text, p) && !AtSeparator(text, p) && QuoteToken(text, p) == None
    ensures ReadLink(text, p) == Ok(None) && MatchId(text, p) == None
  {
    assert !QuoteContinues(text, p, true);
  }

  // ---------------------------------------------------------------- refusals

  /** A printed link whose address is not accepted ends the parse with the reason. */
  lemma BadLinkStep(lib: Library, text: string, p: nat, url: string, body: Doc, depth: nat, blocks: bool, b: Built)
    requires Reads(text, p, Hyperlink(url, body, End)) && WellBare(body) && LinkEntity(lib, url, false).Err?
    ensures ParseFrom(lib, text, p, depth, blocks, b) == Err(LinkEntity(lib, url, false).error)
  {
    hide NextToken, ParseFrom, Parse, Reads, WellBare, LinkEntity;
    ReadPrinted(text, p, url, body, End);
    ReadsLink(text, p, url, body, End);
    BracketOpens(lib, text, p);
    TokenIsLink(lib, text, p, blocks, Link(text[p + 1..CaptionStop(p, body)], url, UrlStop(p, url, body) + 1, false));
    StepFails(lib, text, p, depth, blocks, b);
  }

  lemma BracketOpens(lib: Library, text: string, p: nat)
    requires At(text, '[', p)
    ensures MatchLegacy(lib, text, p) == None && QuoteToken(text, p) == None
  {
    assert !QuoteContinues(text, p, true);
  }

  lemma StepFails(lib: Library, text: string, p: nat, depth: nat, blocks: bool, b: Built)
    requires p < |text| && NextToken(lib, text, p, blocks).Err?
    ensures ParseFrom(lib, text, p, depth, blocks, b) == Err(NextToken(lib, text, p, blocks).error)
  {
    hide NextToken;
  }

  /** A caption with a parenthesis that nothing closes ends the parse. */
  lemma UnclosedStep(lib: Library, text: string, p: nat, body: Doc, depth: nat, blocks: bool, b: Built)
    requires At(text, '[', p) && Reads(text, p + 1, body) && WellBare(body)
    requires At(text, ']', CaptionStop(p, body)) && At(text, '(', CaptionStop(p, body) + 1)
    requires forall k :: CaptionStop(p, body) + 1 < k < |text| ==> text[k] != ')'
    ensures ParseFrom(lib, text, p, depth, blocks, b) == Err(UnclosedUrl)
  {
    hide NextToken, ParseFrom, Parse, Reads, WellBare, Balance, CaptionEnd;
    CaptionPrinted(text, p, body);
    ParenthesisNeverCloses(text, CaptionStop(p, body) + 2, 1);
    assert ReadTarget(text, p, CaptionStop(p, body) + 1, false) == Err(UnclosedUrl);
    BracketOpens(lib, text, p);
    assert ReadLink(text, p) == Err(UnclosedUrl);
    TokenIsRefused(lib, text, p, blocks);
    StepFails(lib, text, p, depth, blocks, b);
  }

  lemma {:induction false} ParenthesisNeverCloses(text: string, k: nat, depth: nat)
    requires depth > 0 && forall i :: k <= i < |text| ==> text[i] != ')'
    ensures Balance(text, k, depth, '(', ')').1 != 0
    decreases if k < |text| then |text| - k else 0
  {
    if k < |text| {
      if text[k] == '\\' {
        ParenthesisNeverCloses(text, k + 2, depth);
      } else {
        ParenthesisNeverCloses(text, k + 1, if text[k] == '(' then depth + 1 else depth);
      }
    }
  }

  lemma TokenIsRefused(lib: Library, text: string, p: nat, blocks: bool)
    requires At(text, '[', p) && MatchLegacy(lib, text, p) == None && QuoteToken(text, p) == None
      && ReadLink(text, p).Err?
    ensures NextToken(lib, text, p, blocks) == Err(ReadLink(text, p).error)
  {
    hide MatchLegacy, QuoteToken, ReadLink;
  }
}
