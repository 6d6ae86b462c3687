/** The last step of a rendering: the entities are sorted and checked, and the preview is written. */
module MarkupFinish {
  import opened Text
  import opened MarkupResult
  import opened MarkupPreview
  import opened PreviewReading

  /** Per offset, the opening tags and, in reverse, the closing tags. */
  method CollectTags(es: seq<Entity>) returns (opens: map<nat, seq<Piece>>, closes: map<nat, seq<Piece>>)
    ensures opens == OpenTable(es) && closes == CloseTable(es)
  {
    opens, closes := map[], map[];
    var i := 0;
    while i < |es|
      invariant i <= |es|
      invariant opens == OpenTable(es[..i]) && closes == CloseTable(es[..i])
    {
      opens, closes := AddOpen(opens, es[i]), AddClose(closes, es[i]);
      i := i + 1;
      assert es[..i][..i - 1] == es[..i - 1];
    }
    assert es[..i] == es;
  }

  method PreviewHtml(text: string, es: seq<Entity>) returns (html: string)
    ensures html == Html(Preview(text, es))
    ensures Previewable(text, es) && AllHarmless(es) ==> FaithfulHtml(text, es, html)
  {
    var opens, closes := CollectTags(es);
    var result, offset := [], 0;
    for k := 0 to |text|
      invariant offset == Utf16Length(text[..k])
      invariant result == Emitted(text, es, k)
    {
      LengthSnoc(text, k);
      TableLookup(es, offset);
      result := result + Get(closes, offset) + Get(opens, offset);
      result := result + [Content(ShowCharacter(text[k]))];
      offset := offset + Utf16Length([text[k]]);
    }
    assert text[..|text|] == text;
    TableLookup(es, offset);
    html := Html(result + Get(closes, offset));
    if Previewable(text, es) && AllHarmless(es) { HtmlReads(text, es); }
  }

  // ---------------------------------------------------------------- finishing a rendering

  datatype Rendered = Rendered(text: string, entities: seq<Entity>, html: string, fallbacks: map<string, string>)

  /** Sorting keeps a well-formed builder well formed, so acceptance makes it previewable. */
  lemma SortedPlaced(b: Built, es: seq<Entity>)
    requires WellFormed(b) && es == SortEntities(b.entities)
    ensures Sorted(es) && Laminar(es)
    ensures forall e <- es :: Placed(b.text, e)
  {
    SortLaminar(b.entities);
    if b.entities != [] { SortCorrect(b.entities, b.entities[0]); }
  }

  lemma NothingCrosses(b: Built, es: seq<Entity>)
    requires WellFormed(b) && es == SortEntities(b.entities)
    ensures forall i, j :: 0 <= i < j < |es| && Overlaps(es[i], es[j]) ==> Objection(es[i], es[j]) != CrossingEntities
  {
    SortedPlaced(b, es);
    forall i, j | 0 <= i < j < |es| && Overlaps(es[i], es[j]) ensures Objection(es[i], es[j]) != CrossingEntities {
      assert es[i] in es && es[j] in es;
      LaminarNeverCrosses(es, i, j);
    }
  }

  /** What `finish` returns for a builder: its text, sorted entities, preview and fallbacks. */
  ghost predicate Renders(b: Built, r: Rendered) {
    && r.text == b.text
    && r.entities == SortEntities(b.entities)
    && r.html == Html(Preview(b.text, r.entities))
    && r.fallbacks == b.used
  }

  lemma SortSorted(es: seq<Entity>)
    ensures Sorted(SortEntities(es))
  {
    if SortEntities(es) != [] { SortCorrect(es, SortEntities(es)[0]); }
  }

  lemma BuiltPreviewable(b: Built, es: seq<Entity>)
    requires WellFormed(b) && es == SortEntities(b.entities) && Accepted(es)
    ensures Previewable(b.text, es) && (AllHarmless(b.entities) ==> AllHarmless(es))
  {
    SortedPlaced(b, es);
    SortLaminar(b.entities);
  }

  /** What is said against a well-formed builder is never that entities cross. */
  lemma OnlyUnsupported(b: Built, es: seq<Entity>, error: Error)
    requires WellFormed(b) && es == SortEntities(b.entities)
    requires exists i, j ::
      0 <= i < j < |es| && Overlaps(es[i], es[j]) && !Nests(es[i], es[j]) && error == Objection(es[i], es[j])
    ensures error == UnsupportedNesting
  {
    NothingCrosses(b, es);
  }

  /**
   Sorts, validates and previews what a builder holds. From a well-formed builder the crossing error
   never comes, and the preview of an accepted result shows exactly its text and its entities.
   */
  method Finish(builder: MarkupBuilder) returns (r: Result<Rendered, Error>)
    requires builder.Valid()
    ensures r.Ok? ==> Renders(builder.View(), r.value)
    ensures r.Ok? <==> Accepted(SortEntities(builder.View().entities))
    ensures WellFormed(builder.View()) && r.Err? ==> r.error == UnsupportedNesting
    ensures WellFormed(builder.View()) && AllHarmless(builder.View().entities) && r.Ok? ==>
      FaithfulHtml(r.value.text, r.value.entities, r.value.html)
  {
    hide FaithfulHtml, AllHarmless, WellFormed, Previewable, Accepted, Objection;
    var text := Join(builder.chunks);
    var es := SortEntities(builder.entities);
    SortSorted(builder.entities);
    var error := ValidateEntities(es);
    if error.Some? {
      if WellFormed(builder.View()) { OnlyUnsupported(builder.View(), es, error.value); }
      return Err(error.value);
    }
    if WellFormed(builder.View()) { BuiltPreviewable(builder.View(), es); }
    var html := PreviewHtml(text, es);
    return Ok(Rendered(text, es, html, builder.usedFallbacks));
  }
}
