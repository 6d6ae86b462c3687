/** The browser preview of a text and its entities: its tag sequence, and the stack of tags that are open. */
module MarkupPreview {
  import opened Text
  import opened MarkupResult

  // ---------------------------------------------------------------- HTML strings

  function EscapeHtml(s: string): string {
    FlatMap(EscapeCharacter, s)
  }

  function EscapeCharacter(c: char): string {
    match c
    case '&' => "&amp;"
    case '<' => "&lt;"
    case '>' => "&gt;"
    case '"' => "&quot;"
    case '\'' => "&#x27;"
    case _ => [c]
  }

  function Decimal(n: nat): string {
    (if n < 10 then "" else Decimal(n / 10)) + ["0123456789"[n % 10]]
  }

  /** A link opens outside the preview. */
  const LINK_ATTRIBUTES := " target=\"_blank\"" + " rel=\"noopener" + " noreferrer\""

  function Opening(e: Entity): string {
    match e.kind
    case Bold => "<strong>"
    case Italic => "<em>"
    case Underline => "<u>"
    case Strikethrough => "<s>"
    case Spoiler => "<span class=\"tg-spoiler\">"
    case Code => "<code>"
    case Pre(_) => "<pre><code>"
    case Blockquote => "<blockquote>"
    case ExpandableBlockquote => "<blockquote expandable>"
    case TextLink(url) => "<a href=\"" + EscapeHtml(url) + (("\"" + LINK_ATTRIBUTES) + ">")
    case CustomEmoji(id) => "<span title=\"ID " + id + "\">"
    case DateTime(unix, _) => "<time data-unix=\"" + Decimal(unix) + "\">"
    case PlainUrl => ""
  }

  function Closing(e: Entity): string {
    match e.kind
    case Bold => "</strong>"
    case Italic => "</em>"
    case Underline => "</u>"
    case Strikethrough => "</s>"
    case Spoiler => "</span>"
    case Code => "</code>"
    case Pre(_) => "</code></pre>"
    case Blockquote => "</blockquote>"
    case ExpandableBlockquote => "</blockquote>"
    case TextLink(_) => "</a>"
    case CustomEmoji(_) => "</span>"
    case DateTime(_, _) => "</time>"
    case PlainUrl => ""
  }

  function ShowCharacter(c: char): string {
    if c == '\n' then "<br>" else EscapeCharacter(c)
  }

  // ---------------------------------------------------------------- the tag sequence

  datatype Piece = Open(entity: Entity) | Close(entity: Entity) | Content(html: string)

  function ShowPiece(piece: Piece): string {
    match piece
    case Open(e) => Opening(e)
    case Close(e) => Closing(e)
    case Content(html) => html
  }

  function Html(pieces: seq<Piece>): string {
    FlatMap(ShowPiece, pieces)
  }

  /** The entities that start at an offset, in list order. */
  function Opens(es: seq<Entity>, at: nat): seq<Piece> {
    if es == [] then [] else (if es[0].offset == at then [Open(es[0])] else []) + Opens(es[1..], at)
  }

  /** The entities that end at an offset, last in the list first. */
  function Closes(es: seq<Entity>, at: nat): seq<Piece> {
    if es == [] then [] else Closes(es[1..], at) + (if es[0].End() == at then [Close(es[0])] else [])
  }

  /** What the loop has produced after the first `k` characters. */
  function Emitted(text: string, es: seq<Entity>, k: nat): seq<Piece>
    requires k <= |text|
    decreases k, 0
  {
    if k == 0 then []
    else TagsBefore(text, es, k - 1) + [Content(ShowCharacter(text[k - 1]))]
  }

  /** What stands before the content of character `k`. */
  function TagsBefore(text: string, es: seq<Entity>, k: nat): seq<Piece>
    requires k < |text|
    decreases k, 1
  {
    var at := Utf16Length(text[..k]);
    Emitted(text, es, k) + Closes(es, at) + Opens(es, at)
  }

  function Preview(text: string, es: seq<Entity>): seq<Piece> {
    Emitted(text, es, |text|) + Closes(es, Utf16Length(text))
  }

  function Get(table: map<nat, seq<Piece>>, at: nat): seq<Piece> {
    if at in table then table[at] else []
  }

  lemma {:induction false} OpensAppend(es: seq<Entity>, e: Entity, at: nat)
    ensures Opens(es + [e], at) == Opens(es, at) + (if e.offset == at then [Open(e)] else [])
  {
    if es == [] {
      assert es + [e] == [e] && [e][1..] == [];
    } else {
      OpensAppend(es[1..], e, at);
      assert (es + [e])[1..] == es[1..] + [e];
    }
  }

  lemma {:induction false} ClosesAppend(es: seq<Entity>, e: Entity, at: nat)
    ensures Closes(es + [e], at) == (if e.End() == at then [Close(e)] else []) + Closes(es, at)
  {
    if es == [] {
      assert es + [e] == [e] && [e][1..] == [];
    } else {
      ClosesAppend(es[1..], e, at);
      assert (es + [e])[1..] == es[1..] + [e];
    }
  }

  function AddOpen(opens: map<nat, seq<Piece>>, e: Entity): map<nat, seq<Piece>> {
    opens[e.offset := Get(opens, e.offset) + [Open(e)]]
  }

  function AddClose(closes: map<nat, seq<Piece>>, e: Entity): map<nat, seq<Piece>> {
    closes[e.End() := [Close(e)] + Get(closes, e.End())]
  }

  function OpenTable(es: seq<Entity>): map<nat, seq<Piece>> {
    if es == [] then map[] else AddOpen(OpenTable(es[..|es| - 1]), es[|es| - 1])
  }

  function CloseTable(es: seq<Entity>): map<nat, seq<Piece>> {
    if es == [] then map[] else AddClose(CloseTable(es[..|es| - 1]), es[|es| - 1])
  }

  /** Looking an offset up in the tables gives the tags that belong there. */
  lemma {:induction false} TableLookup(es: seq<Entity>, at: nat)
    ensures Get(OpenTable(es), at) == Opens(es, at)
    ensures Get(CloseTable(es), at) == Closes(es, at)
  {
    if es != [] {
      var init, e := es[..|es| - 1], es[|es| - 1];
      assert es == init + [e];
      TableLookup(init, at);
      OpensAppend(init, e, at);
      ClosesAppend(init, e, at);
    }
  }

  // ---------------------------------------------------------------- balance

  /** Runs a tag sequence on a stack of open entities; a closing tag must match the innermost one. */
  function Run(pieces: seq<Piece>, stack: seq<Entity>): Option<seq<Entity>> {
    if pieces == [] then Some(stack)
    else match pieces[0]
      case Content(_) => Run(pieces[1..], stack)
      case Open(e) => Run(pieces[1..], stack + [e])
      case Close(e) => if stack == [] || stack[|stack| - 1] != e then None else Run(pieces[1..], stack[..|stack| - 1])
  }

  /** The visible content of a tag sequence. */
  function Contents(pieces: seq<Piece>): string {
    FlatMap(PieceContent, pieces)
  }

  function PieceContent(piece: Piece): string {
    if piece.Content? then piece.html else ""
  }

  /** The entities covering an offset, in list order: outermost first. */
  function Covering(es: seq<Entity>, at: nat): seq<Entity> {
    if es == [] then [] else (if es[0].offset <= at < es[0].End() then [es[0]] else []) + Covering(es[1..], at)
  }

  /** Those that started before `at` and have not ended before it. */
  function Reaching(es: seq<Entity>, at: nat): seq<Entity> {
    if es == [] then [] else (if es[0].offset < at <= es[0].End() then [es[0]] else []) + Reaching(es[1..], at)
  }

  /** Those that started before `at` and go on past it. */
  function Passing(es: seq<Entity>, at: nat): seq<Entity> {
    if es == [] then [] else (if es[0].offset < at < es[0].End() then [es[0]] else []) + Passing(es[1..], at)
  }

  lemma {:induction false} RunAppend(a: seq<Piece>, b: seq<Piece>, stack: seq<Entity>)
    requires Run(a, stack).Some?
    ensures Run(a + b, stack) == Run(b, Run(a, stack).value)
  {
    if a == [] {
      assert a + b == b;
    } else {
      assert (a + b)[1..] == a[1..] + b;
      match a[0]
      case Content(_) => RunAppend(a[1..], b, stack);
      case Open(e) => RunAppend(a[1..], b, stack + [e]);
      case Close(e) => RunAppend(a[1..], b, stack[..|stack| - 1]);
    }
  }

  /** Runs put one after the other. */
  lemma RunThree(a: seq<Piece>, b: seq<Piece>, c: seq<Piece>, s0: seq<Entity>, s1: seq<Entity>, s2: seq<Entity>)
    requires Run(a, s0) == Some(s1) && Run(b, s1) == Some(s2)
    ensures Run(a + b, s0) == Some(s2)
    ensures Run(a + b + c, s0) == Run(c, s2)
  {
    RunAppend(a, b, s0);
    RunAppend(a + b, c, s0);
  }

  lemma ContentsAppend(a: seq<Piece>, b: seq<Piece>)
    ensures Contents(a + b) == Contents(a) + Contents(b)
  {
    FlatMapAppend(PieceContent, a, b);
  }

  lemma ContentsOfTags(a: seq<Piece>, b: seq<Piece>, c: seq<Piece>, html: string)
    requires Contents(b) == "" && Contents(c) == ""
    ensures Contents(a + b) == Contents(a)
    ensures Contents(a + b + c + [Content(html)]) == Contents(a) + html
  {
    ContentsAppend(a, b);
    ContentsAppend(a + b, c);
    ContentsAppend(a + b + c, [Content(html)]);
    FlatMapOne(PieceContent, Content(html));
  }

  lemma {:induction false} TagsHaveNoContent(es: seq<Entity>, at: nat)
    ensures Contents(Opens(es, at)) == "" && Contents(Closes(es, at)) == ""
  {
    if es != [] {
      TagsHaveNoContent(es[1..], at);
      var o, c := (if es[0].offset == at then [Open(es[0])] else []), if es[0].End() == at then [Close(es[0])] else [];
      FlatMapOne(PieceContent, Open(es[0]));
      FlatMapOne(PieceContent, Close(es[0]));
      ContentsAppend(o, Opens(es[1..], at));
      ContentsAppend(Closes(es[1..], at), c);
    }
  }

  ghost predicate Positive(es: seq<Entity>) {
    forall e <- es :: e.length > 0
  }

  /** Nothing later in a sorted accepted list passes the end of an earlier, overlapping entity. */
  lemma {:induction false} NonePasses(es: seq<Entity>, outer: Entity, at: nat)
    requires outer.End() == at
    requires forall e <- es :: Overlaps(outer, e) ==> e.End() <= at
    ensures Passing(es, at) == []
  {
    if es != [] { NonePasses(es[1..], outer, at); }
  }

  lemma TailAccepted(es: seq<Entity>)
    requires es != [] && Sorted(es) && Accepted(es) && Positive(es)
    ensures Sorted(es[1..]) && Accepted(es[1..]) && Positive(es[1..])
    ensures forall e <- es[1..] :: Precedes(es[0], e) && (Overlaps(es[0], e) ==> Nests(es[0], e))
  {
    var t := es[1..];
    forall i, j | 0 <= i < j < |t| && Overlaps(t[i], t[j]) ensures Nests(t[i], t[j]) {
      assert t[i] == es[i + 1] && t[j] == es[j + 1];
    }
    forall e | e in t ensures Precedes(es[0], e) && (Overlaps(es[0], e) ==> Nests(es[0], e)) {
      var k :| 0 <= k < |t| && t[k] == e;
      assert es[k + 1] == e;
    }
  }

  lemma PopLast(pieces: seq<Piece>, e: Entity, before: seq<Entity>, base: seq<Entity>)
    requires Run(pieces, before) == Some(base + [e])
    ensures Run(pieces + [Close(e)], before) == Some(base)
  {
    RunAppend(pieces, [Close(e)], before);
    var stack := base + [e];
    assert stack[..|stack| - 1] == base;
    assert Run([Close(e)], stack) == Run([Close(e)][1..], base);
  }

  /** Closing all entities that end here pops exactly them, innermost first. */
  lemma {:induction false} RunCloses(es: seq<Entity>, at: nat, base: seq<Entity>)
    requires Sorted(es) && Accepted(es) && Positive(es)
    ensures Run(Closes(es, at), base + Reaching(es, at)) == Some(base + Passing(es, at))
  {
    if es != [] {
      TailAccepted(es);
      var e, rest := es[0], es[1..];
      assert e in es;
      var own := if e.offset < at <= e.End() then [e] else [];
      RunCloses(rest, at, base + own);
      Associative(base, own, Reaching(rest, at));
      if e.End() == at {
        NonePasses(rest, e, at);
        assert base + [e] + [] == base + [e];
        assert base + Passing(es, at) == base;
        PopLast(Closes(rest, at), e, base + Reaching(es, at), base);
      } else {
        Associative(base, own, Passing(rest, at));
        assert Closes(rest, at) + [] == Closes(rest, at);
      }
    }
  }

  lemma {:induction false} PassingNone(es: seq<Entity>, at: nat)
    requires forall e <- es :: e.offset >= at
    ensures Passing(es, at) == []
  {
    if es != [] { PassingNone(es[1..], at); }
  }

  function Starting(es: seq<Entity>, at: nat): seq<Entity> {
    if es == [] then [] else (if es[0].offset == at then [es[0]] else []) + Starting(es[1..], at)
  }

  lemma {:induction false} RunOpens(es: seq<Entity>, at: nat, base: seq<Entity>)
    ensures Run(Opens(es, at), base) == Some(base + Starting(es, at))
  {
    if es == [] {
      assert base + [] == base;
    } else if es[0].offset == at {
      RunOpens(es[1..], at, base + [es[0]]);
      assert Opens(es, at)[1..] == Opens(es[1..], at);
      assert base + Starting(es, at) == base + [es[0]] + Starting(es[1..], at);
    } else {
      RunOpens(es[1..], at, base);
      assert Opens(es, at) == Opens(es[1..], at);
      assert Starting(es, at) == Starting(es[1..], at);
    }
  }

  /** Those that go on and those that start make up those that cover, in list order. */
  lemma {:induction false} PassingThenStarting(es: seq<Entity>, at: nat)
    requires Sorted(es) && Accepted(es) && Positive(es)
    ensures Passing(es, at) + Starting(es, at) == Covering(es, at)
  {
    if es != [] {
      TailAccepted(es);
      var rest := es[1..];
      PassingThenStarting(rest, at);
      assert es[0] in es;
      if es[0].offset == at {
        PassingNone(rest, at);
        assert Passing(es, at) == [];
        assert [] + Starting(rest, at) == Starting(rest, at);
        assert [] + Starting(es, at) == Starting(es, at);
      } else {
        var own := if es[0].offset < at < es[0].End() then [es[0]] else [];
        Associative(own, Passing(rest, at), Starting(rest, at));
        assert [] + Starting(rest, at) == Starting(rest, at);
      }
    }
  }

  /** Between two neighbouring characters no entity starts or ends. */
  lemma {:induction false} CoveringReaches(es: seq<Entity>, text: string, k: nat)
    requires k < |text|
    requires forall e <- es :: Boundary(text, e.offset) && Boundary(text, e.End())
    ensures Covering(es, Utf16Length(text[..k])) == Reaching(es, Utf16Length(text[..k + 1]))
  {
    if es != [] {
      CoveringReaches(es[1..], text, k);
      LengthSnoc(text, k);
      assert es[0] in es;
      NoBoundaryInside(text, k, es[0].offset);
      NoBoundaryInside(text, k, es[0].End());
    }
  }

  lemma NoBoundaryInside(text: string, k: nat, offset: nat)
    requires k < |text| && Boundary(text, offset)
    ensures offset <= Utf16Length(text[..k]) || Utf16Length(text[..k + 1]) <= offset
  {
    var m :| 0 <= m <= |text| && Utf16Length(text[..m]) == offset;
    if m <= k { PrefixLength(text, m, k); } else { PrefixLength(text, k + 1, m); }
  }

  lemma PrefixLength(text: string, m: nat, k: nat)
    requires m <= k <= |text|
    ensures Utf16Length(text[..m]) <= Utf16Length(text[..k])
  {
    assert text[..k] == text[..m] + text[m..k];
    LengthAppend(text[..m], text[m..k]);
  }

  lemma {:induction false} NoneReaches(es: seq<Entity>)
    ensures Reaching(es, 0) == []
  {
    if es != [] { NoneReaches(es[1..]); }
  }

  lemma {:induction false} AllEnded(es: seq<Entity>, at: nat)
    requires forall e <- es :: e.End() <= at
    ensures Passing(es, at) == []
  {
    if es != [] { AllEnded(es[1..], at); }
  }

  ghost predicate Previewable(text: string, es: seq<Entity>) {
    Sorted(es) && Accepted(es) && forall e <- es :: Placed(text, e)
  }

  lemma RunContent(a: seq<Piece>, html: string, stack: seq<Entity>)
    requires Run(a, stack).Some?
    ensures Run(a + [Content(html)], stack) == Run(a, stack)
  {
    RunAppend(a, [Content(html)], stack);
    assert Run([Content(html)], Run(a, stack).value) == Run([Content(html)][1..], Run(a, stack).value);
  }

  /** After `k` characters the open tags are the entities that reach that offset. */
  lemma {:induction false} EmittedStack(text: string, es: seq<Entity>, k: nat)
    requires Previewable(text, es) && k <= |text|
    ensures Run(Emitted(text, es, k), []) == Some(Reaching(es, Utf16Length(text[..k])))
    decreases k, 0
  {
    if k == 0 {
      NoneReaches(es);
      assert text[..0] == "";
    } else {
      StackCovers(text, es, k - 1);
      CoveringReaches(es, text, k - 1);
      RunContent(TagsBefore(text, es, k - 1), ShowCharacter(text[k - 1]), []);
    }
  }

  /** At every character the stack of open tags is the list of entities covering it, outermost first. */
  lemma {:induction false} StackCovers(text: string, es: seq<Entity>, k: nat)
    requires Previewable(text, es) && k < |text|
    ensures Run(TagsBefore(text, es, k), []) == Some(Covering(es, Utf16Length(text[..k])))
    decreases k, 1
  {
    var at := Utf16Length(text[..k]);
    EmittedStack(text, es, k);
    RunClosesAll(es, at);
    RunOpens(es, at, Passing(es, at));
    PassingThenStarting(es, at);
    RunThree(Emitted(text, es, k), Closes(es, at), Opens(es, at), [], Reaching(es, at), Passing(es, at));
  }

  lemma RunClosesAll(es: seq<Entity>, at: nat)
    requires Sorted(es) && Accepted(es) && Positive(es)
    ensures Run(Closes(es, at), Reaching(es, at)) == Some(Passing(es, at))
  {
    RunCloses(es, at, []);
    assert [] + Reaching(es, at) == Reaching(es, at);
    assert [] + Passing(es, at) == Passing(es, at);
  }

  /** The preview closes every tag it opens, in order. */
  lemma {:induction false} PreviewBalanced(text: string, es: seq<Entity>)
    requires Previewable(text, es)
    ensures Run(Preview(text, es), []) == Some([])
  {
    var at := Utf16Length(text);
    assert text[..|text|] == text;
    EmittedStack(text, es, |text|);
    RunClosesAll(es, at);
    AllEnded(es, at);
    RunThree(Emitted(text, es, |text|), Closes(es, at), [], [], Reaching(es, at), []);
  }

  function ShowText(s: string): string {
    FlatMap(ShowCharacter, s)
  }

  lemma ShowSnoc(text: string, k: nat)
    requires k < |text|
    ensures ShowText(text[..k + 1]) == ShowText(text[..k]) + ShowCharacter(text[k])
  {
    assert text[..k + 1] == text[..k] + [text[k]];
    FlatMapAppend(ShowCharacter, text[..k], [text[k]]);
    FlatMapOne(ShowCharacter, text[k]);
  }

  lemma {:induction false} EmittedContents(text: string, es: seq<Entity>, k: nat)
    requires k <= |text|
    ensures Contents(Emitted(text, es, k)) == ShowText(text[..k])
  {
    if k > 0 {
      var at := Utf16Length(text[..k - 1]);
      EmittedContents(text, es, k - 1);
      TagsHaveNoContent(es, at);
      ContentsOfTags(Emitted(text, es, k - 1), Closes(es, at), Opens(es, at), ShowCharacter(text[k - 1]));
      ShowSnoc(text, k - 1);
    }
  }

  /** Without its tags the preview is exactly the escaped text, whatever the entities. */
  lemma PreviewContents(text: string, es: seq<Entity>)
    ensures Contents(Preview(text, es)) == ShowText(text)
  {
    EmittedContents(text, es, |text|);
    assert text[..|text|] == text;
    TagsHaveNoContent(es, Utf16Length(text));
    ContentsOfTags(Emitted(text, es, |text|), Closes(es, Utf16Length(text)), [], "");
  }
}
