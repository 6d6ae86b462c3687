/** Advertising copy appended to a post, and the room that posts must leave for it. Lengths are UTF-16 units. */
module Formatting {
  import opened Text
  import opened MarkupResult
  import opened MarkupFinish

  const SEPARATOR := "\n\n"
  const MESSAGE_LIMIT := 4096
  const PREFIX := "Рекомендация: "
  const HEADING := "Рекомендация:\n"

  /** A campaign's advertisement: a body already rendered, or a message followed by a linked label. */
  datatype Copy = Body(text: string, entities: seq<Entity>) | Line(message: string, caption: string, url: string)

  datatype Advert = Advert(text: string, entities: seq<Entity>)

  function LeftStrip(s: string): string {
    if s != "" && IsSpace(s[0]) then LeftStrip(s[1..]) else s
  }

  function RightStrip(s: string): string {
    if s != "" && IsSpace(s[|s| - 1]) then RightStrip(s[..|s| - 1]) else s
  }

  function Strip(s: string): string {
    RightStrip(LeftStrip(s))
  }

  function LineLead(copy: Copy): string
    requires copy.Line?
  {
    PREFIX + Strip(copy.message) + " "
  }

  /** The text in which the advertisement's own entities are counted. */
  function Core(copy: Copy): string {
    if copy.Body? then copy.text else LineLead(copy) + Strip(copy.caption)
  }

  function CoreEntities(copy: Copy): seq<Entity> {
    if copy.Body? then copy.entities
    else [Entity(TextLink(copy.url), Utf16Length(LineLead(copy)), Utf16Length(Strip(copy.caption)))]
  }

  /** What precedes the core in the block. */
  function Heading(copy: Copy): string {
    if copy.Body? then HEADING else ""
  }

  function Block(copy: Copy): string {
    Heading(copy) + Core(copy)
  }

  /** Entities that a rendered body has, and a label that is not blank. */
  ghost predicate Sound(copy: Copy) {
    match copy
    case Body(text, entities) => Laminar(entities) && forall e <- entities :: Placed(text, e)
    case Line(_, caption, _) => Strip(caption) != ""
  }

  /** The units that an entity covers. */
  function Covered(text: string, e: Entity): seq<nat>
    requires e.End() <= Utf16Length(text)
  {
    Encode(text)[e.offset..e.End()]
  }

  function Shift(e: Entity, distance: nat): Entity {
    e.(offset := e.offset + distance)
  }

  /** The last place where a pattern occurs in a text, or -1. */
  function LastFrom(text: string, pattern: string, position: int): (found: int)
    requires -1 <= position
    ensures -1 <= found <= position
    ensures found >= 0 ==> StartsWith(text, pattern, found)
    ensures forall k :: found < k <= position ==> !StartsWith(text, pattern, k)
    decreases position + 1
  {
    if position < 0 || StartsWith(text, pattern, position) then position else LastFrom(text, pattern, position - 1)
  }

  function RFind(text: string, pattern: string): (found: int)
    ensures found >= 0 ==> StartsWith(text, pattern, found)
    ensures forall k: nat :: found < k ==> !StartsWith(text, pattern, k)
  {
    LastFrom(text, pattern, |text|)
  }

  /** The entity of the source address, if the address occurs in the post. */
  function SourceEntities(post: string, url: string): seq<Entity> {
    var found := if url == "" then -1 else RFind(post, url);
    if found < 0 then []
    else
      StartsWithAt(post, url, found);
      [Entity(PlainUrl, Utf16Length(post[..found]), Utf16Length(url))]
  }

  // ---------------------------------------------------------------- entities after a prefix

  /** Text put in front of a core moves an entity and leaves what it covers. */
  lemma ShiftCovers(lead: string, core: string, e: Entity)
    requires e.End() <= Utf16Length(core)
    ensures Shift(e, Utf16Length(lead)).End() <= Utf16Length(lead + core)
    ensures Covered(lead + core, Shift(e, Utf16Length(lead))) == Covered(core, e)
  {
    EncodeAppend(lead, core);
  }

  lemma ShiftPlaced(lead: string, core: string, e: Entity)
    requires Placed(core, e)
    ensures Placed(lead + core, Shift(e, Utf16Length(lead)))
  {
    BoundaryShift(lead, core, e.offset);
    BoundaryShift(lead, core, e.End());
    LengthAppend(lead, core);
  }

  lemma BoundaryShift(lead: string, core: string, offset: nat)
    requires Boundary(core, offset)
    ensures Boundary(lead + core, Utf16Length(lead) + offset)
  {
    var k :| 0 <= k <= |core| && Utf16Length(core[..k]) == offset;
    assert (lead + core)[..|lead| + k] == lead + core[..k];
    LengthAppend(lead, core[..k]);
  }

  /** Every entity of an advertisement lies in its core. */
  lemma CoreCovers(copy: Copy, e: Entity)
    requires Sound(copy) && e in CoreEntities(copy)
    ensures Placed(Core(copy), e)
    ensures copy.Line? ==> Covered(Core(copy), e) == Encode(Strip(copy.caption))
  {
    if copy.Line? {
      var lead, shown := LineLead(copy), Strip(copy.caption);
      EncodeAppend(lead, shown);
      LengthPositive(shown);
      BoundaryEnd(lead);
      BoundaryExtend(lead, shown, Utf16Length(lead));
      BoundaryEnd(lead + shown);
    }
  }

  /** The source entity covers exactly the address, at its last occurrence. */
  lemma SourceCovers(post: string, url: string, more: string, e: Entity)
    requires e in SourceEntities(post, url)
    ensures e.kind == PlainUrl && Placed(post, e) && e.End() <= Utf16Length(post + more)
    ensures Covered(post + more, e) == Encode(url)
  {
    var found := RFind(post, url);
    StartsWithAt(post, url, found);
    var before, after := post[..found], post[found + |url|..];
    assert post[..found + |url|] == before + url;
    assert post == (before + url) + after;
    assert post + more == (before + url) + (after + more);
    EncodeAppend(before, url);
    EncodeAppend(before + url, after);
    EncodeAppend(before + url, after + more);
    LengthPositive(url);
    assert Boundary(post, Utf16Length(before));
    assert Boundary(post, Utf16Length(before + url));
  }

  // ---------------------------------------------------------------- what a reader sees

  ghost predicate AllSpace(s: string) {
    forall c <- s :: IsSpace(c)
  }

  lemma {:induction false} LeftStripExact(s: string) returns (before: string)
    ensures s == before + LeftStrip(s) && AllSpace(before) && (LeftStrip(s) != "" ==> !IsSpace(LeftStrip(s)[0]))
  {
    if s != "" && IsSpace(s[0]) {
      var rest := LeftStripExact(s[1..]);
      before := [s[0]] + rest;
      assert s == [s[0]] + s[1..];
    } else {
      before := "";
      assert s == "" + s;
    }
  }

  lemma {:induction false} RightStripExact(s: string) returns (after: string)
    ensures s == RightStrip(s) + after && AllSpace(after)
    ensures RightStrip(s) != "" ==> !IsSpace(RightStrip(s)[|RightStrip(s)| - 1]) && s[0] == RightStrip(s)[0]
  {
    if s != "" && IsSpace(s[|s| - 1]) {
      var rest := RightStripExact(s[..|s| - 1]);
      after := rest + [s[|s| - 1]];
      assert s == s[..|s| - 1] + [s[|s| - 1]];
      assert RightStrip(s) + rest + [s[|s| - 1]] == RightStrip(s) + after;
    } else {
      after := "";
      assert s == s + "";
    }
  }

  /** Stripping removes the space around a text and nothing else. */
  lemma StripExact(s: string) returns (before: string, after: string)
    ensures s == before + Strip(s) + after && AllSpace(before) && AllSpace(after)
    ensures Strip(s) != "" ==> !IsSpace(Strip(s)[0]) && !IsSpace(Strip(s)[|Strip(s)| - 1])
  {
    before := LeftStripExact(s);
    after := RightStripExact(LeftStrip(s));
    assert before + (Strip(s) + after) == before + Strip(s) + after;
  }

  /** The message as its reader sees it: the post, an empty line, the heading, and the campaign's own words. */
  lemma AdvertisementReads(post: string, message: string, caption: string, url: string, text: string, es: seq<Entity>)
    ensures Message(post, Line(message, caption, url))
      == post + "\n\n" + ("Рекомендация: " + Strip(message) + " " + Strip(caption))
    ensures CoreEntities(Line(message, caption, url)) == [Entity(TextLink(url),
      Utf16Length("Рекомендация: " + Strip(message) + " "), Utf16Length(Strip(caption)))]
    ensures Message(post, Body(text, es)) == post + "\n\n" + ("Рекомендация:\n" + text)
      && CoreEntities(Body(text, es)) == es
  {
    var line := Line(message, caption, url);
    assert Block(line) == "" + Core(line) == Core(line);
  }

  ghost predicate Occurs(pattern: string, text: string, k: nat) {
    k + |pattern| <= |text| && text[k..k + |pattern|] == pattern
  }

  ghost predicate LastOccurs(pattern: string, text: string, k: nat) {
    Occurs(pattern, text, k) && forall m: nat :: Occurs(pattern, text, m) ==> m <= k
  }

  /** The source entity is there exactly when the address occurs in the post, and stands at its last occurrence. */
  lemma SourceExactly(post: string, url: string)
    ensures SourceEntities(post, url) != [] <==> url != "" && exists k :: Occurs(url, post, k)
    ensures forall e <- SourceEntities(post, url) :: exists k: nat ::
      LastOccurs(url, post, k) && e == Entity(PlainUrl, Utf16Length(post[..k]), Utf16Length(url))
  {
    forall k: nat ensures StartsWith(post, url, k) <==> Occurs(url, post, k) { StartsWithAt(post, url, k); }
    var found := RFind(post, url);
    if found >= 0 {
      assert LastOccurs(url, post, found);
    }
  }

  // ---------------------------------------------------------------- appending

  /** Where the core of the advertisement starts in the message. */
  function CoreOffset(post: string, copy: Copy): nat {
    Utf16Length(post + SEPARATOR) + Utf16Length(Heading(copy))
  }

  function Shifted(es: seq<Entity>, distance: nat): seq<Entity> {
    seq(|es|, k requires 0 <= k < |es| => Shift(es[k], distance))
  }

  lemma ShiftedSnoc(es: seq<Entity>, k: nat, distance: nat)
    requires k < |es|
    ensures Shifted(es[..k + 1], distance) == Shifted(es[..k], distance) + [Shift(es[k], distance)]
  {
  }

  lemma NoHeading(copy: Copy)
    ensures copy.Line? ==> Utf16Length(Heading(copy)) == 0
  {
  }

  /** The entities of the message: the source address, then the advertisement's own. */
  function Appended(post: string, copy: Copy, sourceUrl: string): seq<Entity> {
    SourceEntities(post, sourceUrl) + Shifted(CoreEntities(copy), CoreOffset(post, copy))
  }

  function Message(post: string, copy: Copy): string {
    post + SEPARATOR + Block(copy)
  }

  /** The message is the post, the separator with the heading, and the core. */
  lemma MessageParts(post: string, copy: Copy)
    ensures Message(post, copy) == (post + SEPARATOR + Heading(copy)) + Core(copy)
    ensures Utf16Length(post + SEPARATOR + Heading(copy)) == CoreOffset(post, copy)
    ensures Message(post, copy) == post + (SEPARATOR + Block(copy))
    ensures Utf16Length(post) <= CoreOffset(post, copy)
  {
    LengthAppend(post + SEPARATOR, Heading(copy));
    LengthAppend(post, SEPARATOR);
    Associative(post + SEPARATOR, Heading(copy), Core(copy));
    Associative(post, SEPARATOR, Block(copy));
  }

  /**
   Appends an advertisement to a post. The message is never longer than the limit and nothing is cut: the text is
   refused instead. Each entity of the advertisement covers the same units as before, and the source entity the address.
   */
  method AppendAdvertising(post: string, copy: Copy, sourceUrl: string) returns (r: Option<Advert>)
    ensures r.None? <==> Utf16Length(Message(post, copy)) > 4096
    ensures r.Some? ==> r.value == Advert(Message(post, copy), Appended(post, copy, sourceUrl))
  {
    hide RFind, StartsWith, Utf16Length, Block, CoreEntities;
    NoHeading(copy);
    var block := Block(copy);
    if Utf16Length(post + SEPARATOR + block) > MESSAGE_LIMIT {
      return None;
    }
    var offset := Utf16Length(post + SEPARATOR);
    var entities := [];
    var found := if sourceUrl != "" then RFind(post, sourceUrl) else -1;
    if found >= 0 {
      StartsWithAt(post, sourceUrl, found);
      entities := entities + [Entity(PlainUrl, Utf16Length(post[..found]), Utf16Length(sourceUrl))];
    }
    assert entities == SourceEntities(post, sourceUrl);
    if copy.Body? {
      offset := offset + Utf16Length(Heading(copy));
    }
    var own := CoreEntities(copy);
    for k := 0 to |own|
      invariant entities == SourceEntities(post, sourceUrl) + Shifted(own[..k], offset)
    {
      ShiftedSnoc(own, k, offset);
      entities := entities + [Shift(own[k], offset)];
    }
    assert own[..|own|] == own;
    assert offset == CoreOffset(post, copy);
    return Some(Advert(post + SEPARATOR + block, entities));
  }

  /** Advertising keeps its meaning: the k-th entity of the copy covers in the message what it covered in the copy. */
  lemma AdvertisingKeepsMeaning(post: string, copy: Copy, sourceUrl: string, k: nat)
    requires Sound(copy) && k < |CoreEntities(copy)|
    ensures var text, own := Message(post, copy), CoreEntities(copy)[k];
      var e := Appended(post, copy, sourceUrl)[|SourceEntities(post, sourceUrl)| + k];
      && e.kind == own.kind && Placed(text, e) && Placed(Core(copy), own) && Utf16Length(post) < e.offset
      && Covered(text, e) == Covered(Core(copy), own)
  {
    hide CoreEntities, Placed, SourceEntities, Utf16Length;
    var own := CoreEntities(copy)[k];
    var lead := post + SEPARATOR + Heading(copy);
    MessageParts(post, copy);
    CoreCovers(copy, own);
    ShiftCovers(lead, Core(copy), own);
    ShiftPlaced(lead, Core(copy), own);
    LengthAppend(post, SEPARATOR);
    LengthPositive(SEPARATOR);
  }

  lemma OwnLaminar(copy: Copy)
    requires Sound(copy)
    ensures Laminar(CoreEntities(copy))
  {
  }

  lemma OneSource(post: string, url: string)
    ensures |SourceEntities(post, url)| <= 1
  {
  }

  /** All entities of the message lie on its characters and are nested or disjoint. */
  lemma AdvertisingWellNested(post: string, copy: Copy, sourceUrl: string)
    requires Sound(copy)
    ensures Laminar(Appended(post, copy, sourceUrl))
    ensures forall e <- Appended(post, copy, sourceUrl) :: Placed(Message(post, copy), e)
  {
    hide CoreEntities, Placed, SourceEntities, Utf16Length;
    var source, own := SourceEntities(post, sourceUrl), CoreEntities(copy);
    var all, n := Appended(post, copy, sourceUrl), |SourceEntities(post, sourceUrl)|;
    MessageParts(post, copy);
    OneSource(post, sourceUrl);
    forall k | 0 <= k < n ensures Placed(Message(post, copy), all[k]) && all[k].End() <= Utf16Length(post) {
      SourceCovers(post, sourceUrl, SEPARATOR + Block(copy), source[k]);
      PlacedExtend(post, Message(post, copy), source[k]);
    }
    forall k | n <= k < |all| ensures Placed(Message(post, copy), all[k]) && Utf16Length(post) < all[k].offset {
      AdvertisingKeepsMeaning(post, copy, sourceUrl, k - n);
    }
    forall i, j | 0 <= i < j < |all| ensures Compatible(all[i], all[j]) {
      if i >= n {
        OwnLaminar(copy);
        assert Compatible(own[i - n], own[j - n]);
      }
    }
  }

  /** The body of a campaign is what rendering it gave: the text and the sorted entities of a well-formed builder. */
  ghost predicate IsRendered(copy: Copy) {
    copy.Body? && exists b :: WellFormed(b) && copy == Body(b.text, SortEntities(b.entities))
  }

  lemma RenderedIsSound(copy: Copy)
    requires IsRendered(copy)
    ensures Sound(copy)
  {
    var b :| WellFormed(b) && copy == Body(b.text, SortEntities(b.entities));
    SortLaminar(b.entities);
  }

  /**
   From rendering to the message: every entity of a rendered body covers in the message what it covered in the body.
   */
  lemma RenderedKeepsMeaning(b: Built, r: Rendered, post: string, sourceUrl: string, k: nat)
    requires WellFormed(b) && Renders(b, r) && k < |r.entities|
    ensures var copy := Body(r.text, r.entities);
      var e := Appended(post, copy, sourceUrl)[|SourceEntities(post, sourceUrl)| + k];
      && e.kind == r.entities[k].kind && Placed(Message(post, copy), e) && Placed(r.text, r.entities[k])
      && Covered(Message(post, copy), e) == Covered(r.text, r.entities[k])
    ensures Laminar(Appended(post, Body(r.text, r.entities), sourceUrl))
  {
    var copy := Body(r.text, r.entities);
    RenderedIsSound(copy);
    AdvertisingKeepsMeaning(post, copy, sourceUrl, k);
    AdvertisingWellNested(post, copy, sourceUrl);
  }

  // ---------------------------------------------------------------- checking a campaign's own copy

  /** Library calls: whether a text contains an address, and whether an address is valid. */
  datatype CopyRules = CopyRules(namesAddress: string -> bool, validUrl: string -> bool)

  datatype CopyError = NotOneLine | AddressInText | BadUrl | TooLong

  /** The copy as it is saved: message, label and address without surrounding blanks. */
  function Cleaned(copy: Copy): Copy {
    match copy
    case Body(_, _) => copy
    case Line(message, caption, url) => Line(Strip(message), Strip(caption), Strip(url))
  }

  /** Not blank, without a line break and without an address. */
  predicate PlainLine(rules: CopyRules, value: string) {
    Strip(value) != "" && '\r' !in value && '\n' !in value && !rules.namesAddress(value)
  }

  predicate Approved(rules: CopyRules, copy: Copy) {
    && (copy.Line? ==> PlainLine(rules, copy.message) && PlainLine(rules, copy.caption) && rules.validUrl(copy.url))
    && Utf16Length(Block(copy)) <= 4096
  }

  method ValidateCopy(rules: CopyRules, copy: Copy) returns (error: Option<CopyError>)
    ensures error.None? <==> Approved(rules, copy)
    ensures error == Some(TooLong) ==> Utf16Length(Block(copy)) > 4096
    ensures error == Some(BadUrl) ==> copy.Line? && !rules.validUrl(copy.url)
  {
    if copy.Line? {
      var fields := [copy.message, copy.caption];
      for k := 0 to |fields|
        invariant forall i :: 0 <= i < k ==> PlainLine(rules, fields[i])
      {
        var value := fields[k];
        assert value == copy.message || value == copy.caption;
        if Strip(value) == "" || '\r' in value || '\n' in value {
          return Some(NotOneLine);
        }
        if rules.namesAddress(value) {
          return Some(AddressInText);
        }
      }
      assert PlainLine(rules, fields[0]) && PlainLine(rules, fields[1]);
      if !rules.validUrl(copy.url) {
        return Some(BadUrl);
      }
    }
    if Utf16Length(Block(copy)) > MESSAGE_LIMIT {
      return Some(TooLong);
    }
    return None;
  }

  /** Copy that was approved has a label to link, or entities that fit its text. */
  lemma ApprovedIsSound(rules: CopyRules, copy: Copy)
    requires Approved(rules, Cleaned(copy)) && (copy.Body? ==> IsRendered(copy))
    ensures Sound(Cleaned(copy))
  {
    if copy.Body? { RenderedIsSound(copy); }
  }

  // ---------------------------------------------------------------- room for advertising

  function Reserve(copy: Copy): nat {
    Utf16Length(Block(copy)) + Utf16Length(SEPARATOR)
  }

  /** The largest reserve of the counted campaigns, 0 without any. */
  function LargestReserve(active: seq<Copy>): nat {
    if active == [] then 0
    else if Reserve(active[0]) > LargestReserve(active[1..]) then Reserve(active[0])
    else LargestReserve(active[1..])
  }

  function QuotaMessageLimit(active: seq<Copy>): (limit: nat)
    ensures limit <= 4096
  {
    if LargestReserve(active) > MESSAGE_LIMIT then 0 else MESSAGE_LIMIT - LargestReserve(active)
  }

  lemma MessageLength(post: string, copy: Copy)
    ensures Utf16Length(Message(post, copy)) == Utf16Length(post) + Reserve(copy)
  {
    LengthAppend(post, SEPARATOR);
    LengthAppend(post + SEPARATOR, Block(copy));
  }

  lemma {:induction false} ReserveIsLargest(active: seq<Copy>, room: nat)
    ensures LargestReserve(active) <= room <==> forall copy <- active :: Reserve(copy) <= room
  {
    if active != [] {
      ReserveIsLargest(active[1..], room);
      assert active == [active[0]] + active[1..];
    }
  }

  /** A post that is not empty is within the limit exactly when it fits with every counted campaign. */
  lemma QuotaLimitExact(post: string, active: seq<Copy>)
    requires post != ""
    ensures Utf16Length(post) <= QuotaMessageLimit(active) <==>
      Utf16Length(post) <= 4096 && forall copy <- active :: Utf16Length(Message(post, copy)) <= 4096
  {
    LengthPositive(post);
    forall copy ensures Utf16Length(Message(post, copy)) == Utf16Length(post) + Reserve(copy) {
      MessageLength(post, copy);
    }
    if Utf16Length(post) <= MESSAGE_LIMIT {
      ReserveIsLargest(active, MESSAGE_LIMIT - Utf16Length(post));
    }
  }

  /** The empty post is always within the limit; it fits with a campaign exactly when the block itself leaves room. */
  lemma EmptyPostFits(active: seq<Copy>)
    ensures Utf16Length("") <= QuotaMessageLimit(active)
    ensures (forall copy <- active :: Utf16Length(Message("", copy)) <= 4096)
      <==> LargestReserve(active) <= 4096
  {
    forall copy ensures Utf16Length(Message("", copy)) == Reserve(copy) { MessageLength("", copy); }
    ReserveIsLargest(active, MESSAGE_LIMIT);
  }
}
