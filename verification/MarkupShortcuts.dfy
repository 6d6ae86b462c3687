/**
 The parts that both markup styles share: addresses, custom emoji and their `[ID]` shortcuts, and the order of
 entities.
 */
module MarkupShortcuts {
  import opened Text
  import opened MarkupResult
  import opened MarkupMarkdown
  import opened MarkupHtml

  // ---------------------------------------------------------------- addresses

  /** An address can be linked: a known scheme, none of the excluded characters, a host where the scheme needs one. */
  ghost predicate Linkable(lib: Library, url: string) {
    && lib.splitUrl(url).Some?
    && (forall c <- url :: c != '\r' && c != '\n' && c != '\t' && c != '<' && c != '>' && c != '"')
    && match lib.splitUrl(url).value.scheme
       case "mailto" => true
       case "tel" => true
       case "http" => lib.splitUrl(url).value.host != ""
       case "https" => lib.splitUrl(url).value.host != ""
       case "tg" => lib.splitUrl(url).value.host != ""
       case _ => false
  }

  /**
   An image is a custom emoji with a positive number or a date with a number and a format; any other address a link.
   */
  lemma LinkExactly(lib: Library, url: string, image: bool)
    ensures var r, parts := LinkEntity(lib, url, image), lib.splitUrl(url);
      && (!image ==> (r.Ok? <==> Linkable(lib, url)) && (r.Ok? ==> r.value == TextLink(url)))
      && (image ==>
            var emoji := Linkable(lib, url) && parts.value.scheme == "tg" && parts.value.host == "emoji";
            var time := Linkable(lib, url) && parts.value.scheme == "tg" && parts.value.host == "time";
            && (r.Ok? <==> (emoji && lib.isNumber(parts.value.id) && lib.number(parts.value.id) != 0)
                           || (time && lib.isNumber(parts.value.unix) && lib.isDateFormat(parts.value.format)))
            && (r.Ok? ==> r.value == if emoji then CustomEmoji(parts.value.id)
                                     else DateTime(lib.number(parts.value.unix), parts.value.format)))
  {
    assert forall c <- url ::
        (c in "\r\n\t<>\"" <==> c == '\r' || c == '\n' || c == '\t' || c == '<' || c == '>' || c == '"');
  }

  // ---------------------------------------------------------------- custom emoji

  /**
   What shows a custom emoji: the one written beside it, or the one given for its number, or the one that is looked
   up.
   */
  ghost predicate ShownAs(lib: Library, b: Built, id: string, beside: string, shown: string) {
    if beside != "" then shown == beside
    else if id in b.fallbacks && b.fallbacks[id] != "" then shown == b.fallbacks[id]
    else lib.resolveEmoji(id) == Ok(shown)
  }

  /** A custom emoji has a positive number and is shown by an emoji; that is added, marked and remembered. */
  lemma EmojiExactly(lib: Library, b: Built, id: string, beside: string)
    ensures var r := EmitEmoji(lib, b, id, beside);
      && (r.Ok? <==> lib.isNumber(id) && lib.number(id) > 0 && exists shown | ShownAs(lib, b, id, beside, shown) ::
          lib.isEmoji(shown))
      && (r.Ok? ==> exists shown ::
            && ShownAs(lib, b, id, beside, shown) && r.value.text == b.text + shown
            && r.value.used == b.used[id := shown]
            && r.value.fallbacks == b.fallbacks
            && r.value.entities == b.entities
                 + if shown == "" then [] else [Entity(CustomEmoji(id), Utf16Length(b.text), Utf16Length(shown))])
  {
    var chosen := ChooseFallback(lib, b, id, beside);
    if chosen.Ok? {
      var shown := chosen.value;
      assert ShownAs(lib, b, id, beside, shown);
      LengthAppend(b.text, shown);
      if shown != "" { LengthPositive(shown); }
      assert b.entities + [] == b.entities;
    }
  }

  // ---------------------------------------------------------------- nesting and order

  /** Code nests with nothing, a quote not with a quote, and links, emoji and dates only with styles and quotes. */
  lemma NestingExactly(outer: Kind, inner: Kind)
    ensures Unsupported(outer, inner) <==>
      || outer.Code? || outer.Pre? || inner.Code? || inner.Pre?
      || (outer in {Blockquote, ExpandableBlockquote} && inner in {Blockquote, ExpandableBlockquote})
      || ((outer.TextLink? || outer.CustomEmoji? || outer.DateTime? || outer.PlainUrl?)
          && (inner.TextLink? || inner.CustomEmoji? || inner.DateTime? || inner.PlainUrl?))
  {
  }

  /** Entities come by offset, the longest of an offset first, and a link before others of its length. */
  lemma OrderExactly(es: seq<Entity>, i: nat, j: nat)
    requires i < j < |SortEntities(es)|
    ensures var a, b := SortEntities(es)[i], SortEntities(es)[j];
      a.offset < b.offset
      || (a.offset == b.offset
          && (b.length < a.length || (a.length == b.length && (b.kind.TextLink? ==> a.kind.TextLink?))))
  {
    SortCorrect(es, SortEntities(es)[i]);
  }

  // ---------------------------------------------------------------- shortcuts in text

  /** Text without a bracket, and numbers of custom emoji in brackets with or without an emoji before them. */
  datatype Parts = Stop | Piece(text: string, rest: Parts) | Id(emoji: string, id: string, rest: Parts)

  function Spell(parts: Parts): string {
    match parts
    case Stop => ""
    case Piece(text, rest) => text + Spell(rest)
    case Id(emoji, id, rest) => emoji + (InBrackets(id) + Spell(rest))
  }

  function InBrackets(id: string): string {
    "[" + id + "]"
  }

  ghost predicate Unbracketed(s: string) {
    forall k :: 0 <= k < |s| ==> s[k] != '['
  }

  /** A piece ends the text or stands before a number, where nothing that ends it goes on to be an emoji. */
  ghost predicate Readable(lib: Library, parts: Parts) {
    match parts
    case Stop => true
    case Id(emoji, id, rest) =>
      && Readable(lib, rest)
      && Unbracketed(emoji) && (emoji != "" ==> lib.isEmoji(emoji)) && Digits(id)
    case Piece(text, rest) =>
      && Readable(lib, rest) && Unbracketed(text) && !rest.Piece?
      && (rest.Id? ==> NoneBegins(lib, text, rest.emoji))
  }

  ghost predicate Digits(id: string) {
    id != "" && forall k :: 0 <= k < |id| ==> IsDigit(id[k])
  }

  ghost predicate NoneBegins(lib: Library, text: string, emoji: string) {
    forall k :: 0 <= k < |text| ==> !lib.isEmoji(text[k..] + emoji)
  }

  /** What the parts add: the pieces as they are, and the custom emoji. */
  ghost function Added(lib: Library, parts: Parts, b: Built): Result<Built, Error> {
    match parts
    case Stop => Ok(b)
    case Piece(text, rest) => Added(lib, rest, b.(text := b.text + text))
    case Id(emoji, id, rest) =>
      match EmitEmoji(lib, b, id, emoji)
      case Err(e) => Err(e)
      case Ok(b') => Added(lib, rest, b')
  }

  lemma {:induction false} DigitsEnd(s: string, position: nat, end: nat)
    requires position <= end < |s| && !IsDigit(s[end]) && forall k :: position <= k < end ==> IsDigit(s[k])
    ensures DigitRun(s, position) == end
    decreases end - position
  {
    if position < end { DigitsEnd(s, position + 1, end); }
  }

  /** Where a number in brackets stands. */
  lemma IdStands(data: string, at: nat, id: string)
    requires at + |id| + 2 <= |data| && data[at..at + |id| + 2] == InBrackets(id)
    requires Digits(id)
    ensures MatchId(data, at) == Some(EmojiMatch(id, "", at + |id| + 2))
  {
    var spelled := InBrackets(id);
    var part := data[at..at + |spelled|];
    assert data[at] == part[0] == '[' && data[at + |id| + 1] == part[|id| + 1] == spelled[|id| + 1] == ']';
    forall k | at + 1 <= k < at + 1 + |id| ensures data[k] == id[k - at - 1] {
      assert data[k] == part[k - at] == spelled[k - at];
    }
    DigitsEnd(data, at + 1, at + 1 + |id|);
    assert data[at + 1..at + 1 + |id|] == id;
  }

  /** Up to the first bracket there is no shortcut that an emoji before it does not begin. */
  lemma NoShortcut(lib: Library, data: string, at: nat, end: nat)
    requires at < end <= |data| && Unbracketed(data[at..end])
      && (end < |data| ==> data[end] == '[' && !lib.isEmoji(data[at..end]))
    ensures Shortcut(lib, data, at) == None
  {
    BracketAt(data, at, end);
    assert data[at] == data[at..end][0];
  }

  lemma BracketAt(data: string, at: nat, end: nat)
    requires at <= end <= |data| && Unbracketed(data[at..end]) && (end < |data| ==> data[end] == '[')
    ensures Find(data, '[', at) == end
  {
    forall k | at <= k < end ensures data[k] != '[' { assert data[k] == data[at..end][k - at]; }
  }

  lemma {:induction false} PassPiece(lib: Library, data: string, start: nat, position: nat, end: nat, b: Built)
    requires start <= position <= end <= |data| && forall k :: position <= k < end ==> Shortcut(lib, data, k) == None
    ensures AddWithIds(lib, data, start, position, b) == AddWithIds(lib, data, start, end, b)
    decreases end - position
  {
    hide Shortcut, EmitEmoji;
    if position < end { PassPiece(lib, data, start, position + 1, end, b); }
  }

  lemma Slices(data: string, at: nat, a: string, b: string)
    requires at <= |data| && data[at..] == a + b
    ensures at + |a| <= |data| && data[at..at + |a|] == a && data[at + |a|..] == b
    ensures a != "" ==> data[at] == a[0]
  {
    assert data[at..at + |a|] == data[at..][..|a|] && data[at + |a|..] == data[at..][|a|..];
  }

  lemma IdHere(lib: Library, data: string, at: nat, emoji: string, id: string, more: string)
    requires at <= |data| && data[at..] == emoji + (InBrackets(id) + more)
    requires Unbracketed(emoji) && (emoji != "" ==> lib.isEmoji(emoji)) && Digits(id)
    ensures at + |emoji| + |id| + 2 <= |data| && data[at + |emoji| + |id| + 2..] == more
    ensures Shortcut(lib, data, at) == Some(EmojiMatch(id, emoji, at + |emoji| + |id| + 2))
  {
    var bracket := at + |emoji|;
    IdSlices(data, at, emoji, id, more);
    hide InBrackets, Find, MatchId, Unbracketed, Digits, Shortcut;
    IdStands(data, bracket, id);
    BracketAt(data, at, bracket);
    ShortcutIs(lib, data, at, bracket, id);
  }

  lemma IdSlices(data: string, at: nat, emoji: string, id: string, more: string)
    requires at <= |data| && data[at..] == emoji + (InBrackets(id) + more)
    ensures var bracket, end := at + |emoji|, at + |emoji| + |id| + 2;
      && end <= |data| && data[at..bracket] == emoji && data[bracket] == '[' && data[bracket..end] == InBrackets(id)
      && data[end..] == more
  {
    var number := InBrackets(id);
    assert |number| == |id| + 2 && number[0] == '[';
    hide InBrackets;
    Slices(data, at, emoji, number + more);
    Slices(data, at + |emoji|, number, more);
  }

  lemma ShortcutIs(lib: Library, data: string, at: nat, bracket: nat, id: string)
    requires at <= bracket < |data| && Find(data, '[', at) == bracket
      && (bracket == at || lib.isEmoji(data[at..bracket]))
    requires MatchId(data, bracket) == Some(EmojiMatch(id, "", bracket + |id| + 2))
    ensures Shortcut(lib, data, at) == Some(EmojiMatch(id, data[at..bracket], bracket + |id| + 2))
  {
    assert bracket == at ==> data[at..bracket] == "";
    hide Find, MatchId;
  }

  /** The bracket of the number that follows a piece, or the end. */
  lemma AfterPiece(lib: Library, data: string, mid: nat, rest: Parts) returns (end: nat)
    requires mid <= |data| && data[mid..] == Spell(rest) && Readable(lib, rest) && !rest.Piece?
    ensures mid <= end <= |data| && Unbracketed(data[mid..end])
    ensures data[mid..end] == if rest.Id? then rest.emoji else ""
    ensures end < |data| ==> rest.Id? && data[end] == '['
  {
    end := mid;
    if rest.Id? {
      var number, more := InBrackets(rest.id), Spell(rest.rest);
      assert number != "" && number[0] == '[';
      Slices(data, mid, rest.emoji, number + more);
      Slices(data, mid + |rest.emoji|, number, more);
      end := mid + |rest.emoji|;
    }
  }

  /** A piece is passed without a shortcut. */
  lemma PiecePassed(lib: Library, data: string, at: nat, text: string, rest: Parts, b: Built)
    requires at <= |data| && data[at..] == text + Spell(rest) && Readable(lib, Piece(text, rest))
    ensures at + |text| <= |data| && data[at..at + |text|] == text && data[at + |text|..] == Spell(rest)
    ensures AddWithIds(lib, data, at, at, b) == AddWithIds(lib, data, at, at + |text|, b)
  {
    var mid := at + |text|;
    Slices(data, at, text, Spell(rest));
    var end := AfterPiece(lib, data, mid, rest);
    hide Spell, Shortcut, AddWithIds, InBrackets, NoneBegins, Unbracketed;
    forall k | at <= k < mid ensures Shortcut(lib, data, k) == None { InPiece(lib, data, at, k, mid, end); }
    PassPiece(lib, data, at, at, mid, b);
  }

  lemma InPiece(lib: Library, data: string, at: nat, k: nat, mid: nat, end: nat)
    requires at <= k < mid <= end <= |data| && Unbracketed(data[at..mid]) && Unbracketed(data[mid..end])
    requires end < |data| ==> data[end] == '[' && NoneBegins(lib, data[at..mid], data[mid..end])
    ensures Shortcut(lib, data, k) == None
  {
    Halves(data, at, k, mid, end);
    UnbracketedParts(data[at..mid], k - at, data[mid..end]);
    NoShortcut(lib, data, k, end);
    hide Shortcut, Unbracketed;
  }

  lemma Halves(data: string, at: nat, k: nat, mid: nat, end: nat)
    requires at <= k <= mid <= end <= |data|
    ensures data[k..end] == data[at..mid][k - at..] + data[mid..end]
  {
  }

  lemma UnbracketedParts(text: string, k: nat, next: string)
    requires k <= |text| && Unbracketed(text) && Unbracketed(next)
    ensures Unbracketed(text[k..] + next)
  {
  }

  /** Text is added with all its shortcuts resolved. */
  lemma {:induction false} PartsAreAdded(lib: Library, data: string, at: nat, parts: Parts, b: Built)
    requires at <= |data| && data[at..] == Spell(parts) && Readable(lib, parts)
    ensures AddWithIds(lib, data, at, at, b) == Added(lib, parts, b)
    decreases parts, 1
  {
    hide Shortcut, EmitEmoji;
    match parts
    case Stop => assert at == |data| && data[at..] == "" && b.text + "" == b.text;
    case Id(_, _, _) =>
      IdAdded(lib, data, at, at, parts, b);
      assert data[at..at] == "" && b.text + "" == b.text;
      hide AddWithIds, Added, Spell;
    case Piece(text, rest) =>
      PiecePassed(lib, data, at, text, rest, b);
      if rest.Id? {
        IdAdded(lib, data, at, at + |text|, rest, b);
      } else {
        assert at + |text| == |data| && data[at..] == text;
      }
      hide Spell, Readable;
  }

  /** A shortcut at a position whose text before it is still to be added. */
  lemma {:induction false} IdAdded(lib: Library, data: string, start: nat, at: nat, parts: Parts, b: Built)
    requires start <= at <= |data| && data[at..] == Spell(parts) && Readable(lib, parts) && parts.Id?
    ensures AddWithIds(lib, data, start, at, b) == Added(lib, parts, b.(text := b.text + data[start..at]))
    decreases parts, 0
  {
    var emoji, id, rest := parts.emoji, parts.id, parts.rest;
    IdHere(lib, data, at, emoji, id, Spell(rest));
    var end := at + |emoji| + |id| + 2;
    AfterId(lib, data, start, at, end, emoji, id, b);
    var emitted := EmitEmoji(lib, Emit(b, data[start..at]), id, emoji);
    if emitted.Ok? { PartsAreAdded(lib, data, end, rest, emitted.value); }
    hide Shortcut, EmitEmoji, Spell, Readable, AddWithIds;
  }

  lemma AfterId(lib: Library, data: string, start: nat, at: nat, end: nat, emoji: string, id: string, b: Built)
    requires start <= at < end <= |data| && Shortcut(lib, data, at) == Some(EmojiMatch(id, emoji, end))
    ensures var emitted := EmitEmoji(lib, Emit(b, data[start..at]), id, emoji);
      AddWithIds(lib, data, start, at, b) == if emitted.Ok? then AddWithIds(lib, data, end, end, emitted.value)
                                             else Err(emitted.error)
  {
    hide Shortcut, EmitEmoji;
  }

  /** Outside literal elements text is added with its shortcuts resolved from left to right. */
  lemma TextIsAdded(lib: Library, parts: Parts, b: Built)
    requires Readable(lib, parts)
    ensures AddWithIds(lib, Spell(parts), 0, 0, b) == Added(lib, parts, b)
  {
    assert Spell(parts)[0..] == Spell(parts);
    PartsAreAdded(lib, Spell(parts), 0, parts, b);
  }
}
