/**
 The builder shared by the two Telegram markup parsers, the check of its entities
 and the browser preview made from them.
 */
module MarkupResult {
  import opened Text
  import Sorting

  datatype Error =
    | TooDeep | UnclosedUrl | InvalidUrl | UnsupportedScheme | MissingHost
    | InvalidEmojiId | InvalidDate | UnsupportedImage | InvalidFallback | EmojiLookupFailed
    | CrossingEntities | UnsupportedNesting
    | UnsupportedTag | UnsupportedSpan | UnclosedTag | TagOrder | Comment

  datatype Kind =
    | Bold | Italic | Underline | Strikethrough | Spoiler
    | Code | Pre(language: string)
    | Blockquote | ExpandableBlockquote
    | TextLink(url: string) | CustomEmoji(id: string) | DateTime(unix: nat, format: string)
    | PlainUrl
  {
    predicate IsStyle() { Bold? || Italic? || Underline? || Strikethrough? || Spoiler? }
    predicate IsQuote() { Blockquote? || ExpandableBlockquote? }
    predicate IsCode() { Code? || Pre? }
  }

  datatype Entity = Entity(kind: Kind, offset: nat, length: nat) {
    function End(): nat { offset + length }
  }

  /** The part of a split URL that matters here; query values are the first of each name. */
  datatype UrlParts = UrlParts(scheme: string, host: string, id: string, unix: string, format: string)

  /** The library calls of the program: URL splitting, digit tests, the emoji tables and the lookup. */
  datatype Library = Library(
    isEmoji: string -> bool,
    resolveEmoji: string -> Result<string, Error>,
    splitUrl: string -> Option<UrlParts>,
    isNumber: string -> bool,
    number: string -> nat,
    isDateFormat: string -> bool)

  const SCHEMES: set<string> := {"http", "https", "tg", "mailto", "tel"}

  function LinkEntity(lib: Library, url: string, image: bool): (r: Result<Kind, Error>)
    ensures r.Ok? && !image ==> r.value == TextLink(url)
    ensures r.Ok? && image ==> r.value.CustomEmoji? || r.value.DateTime?
  {
    match lib.splitUrl(url)
    case None => Err(InvalidUrl)
    case Some(parts) =>
      if parts.scheme !in SCHEMES || exists c | c in url :: c in "\r\n\t<>\"" then Err(UnsupportedScheme)
      else if parts.scheme in {"http", "https", "tg"} && parts.host == "" then Err(MissingHost)
      else if image && parts.scheme == "tg" && parts.host == "emoji" then
        if !lib.isNumber(parts.id) || lib.number(parts.id) == 0 then Err(InvalidEmojiId)
        else Ok(CustomEmoji(parts.id))
      else if image && parts.scheme == "tg" && parts.host == "time" then
        if !lib.isNumber(parts.unix) || !lib.isDateFormat(parts.format) then Err(InvalidDate)
        else Ok(DateTime(lib.number(parts.unix), parts.format))
      else if image then Err(UnsupportedImage)
      else Ok(TextLink(url))
  }

  // ---------------------------------------------------------------- the builder

  /** What a builder has produced so far. */
  datatype Built = Built(text: string, entities: seq<Entity>, fallbacks: map<string, string>,
                         used: map<string, string>) {
    function Offset(): nat { Utf16Length(text) }
  }

  function Emit(b: Built, text: string): Built {
    b.(text := b.text + text)
  }

  function Mark(b: Built, kind: Kind, start: nat): Built {
    if b.Offset() > start then b.(entities := b.entities + [Entity(kind, start, b.Offset() - start)]) else b
  }

  function ChooseFallback(lib: Library, b: Built, id: string, fallback: string): Result<string, Error> {
    if fallback != "" then Ok(fallback)
    else if id in b.fallbacks && b.fallbacks[id] != "" then Ok(b.fallbacks[id])
    else lib.resolveEmoji(id)
  }

  function EmitEmoji(lib: Library, b: Built, id: string, fallback: string): Result<Built, Error> {
    if !lib.isNumber(id) || lib.number(id) == 0 then Err(InvalidEmojiId)
    else match ChooseFallback(lib, b, id, fallback)
      case Err(e) => Err(e)
      case Ok(shown) =>
        if !lib.isEmoji(shown) then Err(InvalidFallback)
        else
          var marked := Mark(Emit(b, shown), CustomEmoji(id), b.Offset());
          Ok(marked.(used := marked.used[id := shown]))
  }

  class MarkupBuilder {
    var chunks: seq<string>
    var entities: seq<Entity>
    var offset: nat
    var fallbacks: map<string, string>
    var usedFallbacks: map<string, string>

    ghost predicate Valid()
      reads this
    {
      offset == Utf16Length(Join(chunks))
    }

    function View(): Built
      reads this
    {
      Built(Join(chunks), entities, fallbacks, usedFallbacks)
    }

    constructor (emojiFallbacks: map<string, string>)
      ensures Valid() && View() == Built("", [], emojiFallbacks, map[])
    {
      chunks, entities, offset, fallbacks, usedFallbacks := [], [], 0, emojiFallbacks, map[];
    }

    method Add(text: string)
      requires Valid()
      modifies this`chunks, this`offset
      ensures Valid() && View() == Emit(old(View()), text)
    {
      JoinAppend(chunks, text);
      LengthAppend(Join(chunks), text);
      chunks := chunks + [text];
      offset := offset + Utf16Length(text);
    }

    method AddEntity(kind: Kind, start: nat)
      requires Valid()
      modifies this`entities
      ensures Valid() && View() == Mark(old(View()), kind, start)
    {
      if offset > start {
        entities := entities + [Entity(kind, start, offset - start)];
      }
    }

    method Emoji(lib: Library, id: string, fallback: string) returns (error: Option<Error>)
      requires Valid()
      modifies this
      ensures Valid()
      ensures error.Some? ==> EmitEmoji(lib, old(View()), id, fallback) == Err(error.value) && View() == old(View())
      ensures error.None? ==> EmitEmoji(lib, old(View()), id, fallback) == Ok(View())
    {
      if !lib.isNumber(id) || lib.number(id) == 0 { return Some(InvalidEmojiId); }
      var shown := ChooseFallback(lib, View(), id, fallback);
      if shown.Err? { return Some(shown.error); }
      if !lib.isEmoji(shown.value) { return Some(InvalidFallback); }
      var start := offset;
      Add(shown.value);
      AddEntity(CustomEmoji(id), start);
      usedFallbacks := usedFallbacks[id := shown.value];
      return None;
    }
  }

  // ---------------------------------------------------------------- well nested entities

  predicate Compatible(a: Entity, b: Entity) {
    || a.End() <= b.offset
    || b.End() <= a.offset
    || (a.offset <= b.offset && b.End() <= a.End())
    || (b.offset <= a.offset && a.End() <= b.End())
  }

  /** Any two entities are nested or disjoint. */
  ghost predicate Laminar(es: seq<Entity>) {
    forall i, j :: 0 <= i < j < |es| ==> Compatible(es[i], es[j])
  }

  /** A positive length, ends on characters of the text. */
  ghost predicate Placed(text: string, e: Entity) {
    e.length > 0 && Boundary(text, e.offset) && Boundary(text, e.End()) && e.End() <= Utf16Length(text)
  }

  ghost predicate WellFormed(b: Built) {
    Laminar(b.entities) && forall e <- b.entities :: Placed(b.text, e)
  }

  /** `b` grew into `b'`: old output kept, all new entities placed in the new text and laminar. */
  ghost predicate Grows(b: Built, b': Built) {
    && b.text <= b'.text
    && b.entities <= b'.entities
    && b.Offset() <= b'.Offset()
    && var new_ := b'.entities[|b.entities|..];
       Laminar(new_) && forall e <- new_ :: Placed(b'.text, e) && b.Offset() <= e.offset
  }

  lemma PlacedExtend(text: string, text': string, e: Entity)
    requires Placed(text, e) && text <= text'
    ensures Placed(text', e)
  {
    assert text' == text + text'[|text|..];
    BoundaryExtend(text, text'[|text|..], e.offset);
    BoundaryExtend(text, text'[|text|..], e.End());
    LengthAppend(text, text'[|text|..]);
  }

  lemma GrowsEmit(b: Built, text: string)
    ensures Grows(b, Emit(b, text))
  {
    LengthAppend(b.text, text);
  }

  lemma GrowsTrans(a: Built, b: Built, c: Built)
    requires Grows(a, b) && Grows(b, c)
    ensures Grows(a, c)
  {
    var ab, bc, ac := b.entities[|a.entities|..], c.entities[|b.entities|..], c.entities[|a.entities|..];
    assert ac == ab + bc;
    forall e | e in ac ensures Placed(c.text, e) && a.Offset() <= e.offset {
      if e in ab { PlacedExtend(b.text, c.text, e); }
    }
    forall i, j | 0 <= i < j < |ac| ensures Compatible(ac[i], ac[j]) {
      if i < |ab| <= j {
        assert ac[i] == ab[i] && ac[j] == bc[j - |ab|];
        assert ac[i] in ab && ac[j] in bc;
        assert Placed(b.text, ac[i]) && b.Offset() <= ac[j].offset;
      }
    }
  }

  lemma GrowsMark(b: Built, b': Built, kind: Kind)
    requires Grows(b, b')
    ensures Grows(b, Mark(b', kind, b.Offset()))
  {
    var c := Mark(b', kind, b.Offset());
    if c != b' {
      var e := c.entities[|b'.entities|];
      var was, new_ := b'.entities[|b.entities|..], c.entities[|b.entities|..];
      assert new_ == was + [e];
      BoundaryEnd(b'.text);
      BoundaryEnd(b.text);
      assert b'.text == b.text + b'.text[|b.text|..];
      BoundaryExtend(b.text, b'.text[|b.text|..], b.Offset());
      assert Placed(b'.text, e);
      forall i, j | 0 <= i < j < |new_| ensures Compatible(new_[i], new_[j]) {
        assert new_[i] == was[i] && was[i] in was;
        if j < |was| { assert new_[j] == was[j]; }
      }
    }
  }

  lemma GrowsEmoji(lib: Library, b: Built, id: string, fallback: string)
    requires EmitEmoji(lib, b, id, fallback).Ok?
    ensures Grows(b, EmitEmoji(lib, b, id, fallback).value)
  {
    var shown := ChooseFallback(lib, b, id, fallback).value;
    GrowsEmit(b, shown);
    GrowsMark(b, Emit(b, shown), CustomEmoji(id));
  }

  // ---------------------------------------------------------------- sorting

  /** The builder's sort key: offset, then the longest first, then links first. */
  predicate Precedes(a: Entity, b: Entity) {
    || a.offset < b.offset
    || (a.offset == b.offset
        && (a.length > b.length || (a.length == b.length && (a.kind.TextLink? || !b.kind.TextLink?))))
  }

  ghost predicate Sorted(es: seq<Entity>) {
    Sorting.Sorted(Precedes, es)
  }

  function SortEntities(es: seq<Entity>): seq<Entity> {
    Sorting.Sort(Precedes, es)
  }

  lemma PrecedesIsOrder()
    ensures Sorting.TotalPreorder(Precedes)
  {
  }

  /** The sort is a stable sort: ordered, a permutation, equal keys in their first order. */
  lemma SortCorrect(es: seq<Entity>, x: Entity)
    ensures Sorted(SortEntities(es))
    ensures multiset(SortEntities(es)) == multiset(es)
    ensures Sorting.Ties(Precedes, SortEntities(es), x) == Sorting.Ties(Precedes, es, x)
  {
    PrecedesIsOrder();
    Sorting.SortCorrect(Precedes, es, x);
  }

  lemma {:induction false} InsertLaminar(e: Entity, es: seq<Entity>)
    requires Laminar(es) && forall x <- es :: Compatible(e, x)
    ensures Laminar(Sorting.Insert(Precedes, e, es))
  {
    if es == [] || Precedes(e, es[0]) {
    } else {
      InsertLaminar(e, es[1..]);
      Sorting.InsertMembers(Precedes, e, es[1..]);
      var rest := Sorting.Insert(Precedes, e, es[1..]);
      assert es[0] in es && Compatible(e, es[0]);
      forall k | 0 <= k < |rest| ensures Compatible(es[0], rest[k]) {
        assert rest[k] in multiset(rest);
        if rest[k] != e {
          assert rest[k] in es[1..];
        }
      }
    }
  }

  lemma {:induction false} SortLaminar(es: seq<Entity>)
    requires Laminar(es)
    ensures Laminar(SortEntities(es))
    ensures forall x :: x in SortEntities(es) <==> x in es
  {
    Sorting.SortMembers(Precedes, es);
    if es != [] {
      SortLaminar(es[1..]);
      forall x | x in SortEntities(es[1..]) ensures Compatible(es[0], x) {
        var k :| 0 <= k < |es[1..]| && es[1..][k] == x;
        assert es[k + 1] == x;
      }
      InsertLaminar(es[0], SortEntities(es[1..]));
    }
  }

  // ---------------------------------------------------------------- validation

  predicate Unsupported(outer: Kind, inner: Kind) {
    || outer.IsCode() || inner.IsCode()
    || (outer.IsQuote() && inner.IsQuote())
    || !(outer.IsStyle() || inner.IsStyle() || outer.IsQuote() || inner.IsQuote())
  }

  predicate Overlaps(outer: Entity, inner: Entity) {
    inner.offset < outer.End()
  }

  predicate Nests(outer: Entity, inner: Entity) {
    inner.End() <= outer.End() && !Unsupported(outer.kind, inner.kind)
  }

  /** Every later entity that starts inside an earlier one ends inside it, in a supported combination. */
  ghost predicate Accepted(es: seq<Entity>) {
    forall i, j :: 0 <= i < j < |es| && Overlaps(es[i], es[j]) ==> Nests(es[i], es[j])
  }

  function Objection(outer: Entity, inner: Entity): Error {
    if inner.End() > outer.End() then CrossingEntities else UnsupportedNesting
  }

  method ValidateEntities(es: seq<Entity>) returns (error: Option<Error>)
    ensures Accepted(es) ==> error.None?
    ensures Sorted(es) && error.None? ==> Accepted(es)
    ensures error.Some? ==>
        exists i, j :: 0 <= i < j < |es| && Overlaps(es[i], es[j]) && !Nests(es[i], es[j])
          && error.value == Objection(es[i], es[j])
  {
    var i := 0;
    while i < |es|
      invariant 0 <= i <= |es|
      invariant Sorted(es) ==> forall a, b ::
        0 <= a < i && a < b < |es| && Overlaps(es[a], es[b]) ==> Nests(es[a], es[b])
    {
      var j := i + 1;
      while j < |es|
        invariant i < j <= |es|
        invariant forall b :: i < b < j && Overlaps(es[i], es[b]) ==> Nests(es[i], es[b])
      {
        if es[j].offset >= es[i].End() {
          assert Sorted(es) ==> forall b :: j <= b < |es| ==> es[j].offset <= es[b].offset;
          break;
        }
        if es[j].End() > es[i].End() {
          assert Overlaps(es[i], es[j]) && !Nests(es[i], es[j]);
          return Some(CrossingEntities);
        }
        if Unsupported(es[i].kind, es[j].kind) {
          assert Overlaps(es[i], es[j]) && !Nests(es[i], es[j]);
          return Some(UnsupportedNesting);
        }
        j := j + 1;
      }
      i := i + 1;
    }
    return None;
  }

  /** On laminar entities of positive length the crossing error cannot arise. */
  lemma LaminarNeverCrosses(es: seq<Entity>, i: nat, j: nat)
    requires Sorted(es) && Laminar(es) && i < j < |es|
    requires es[i].length > 0 && es[j].length > 0
    requires Overlaps(es[i], es[j])
    ensures es[j].End() <= es[i].End()
  {
    assert Precedes(es[i], es[j]) && Compatible(es[i], es[j]);
  }
}
