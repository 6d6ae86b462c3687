/** The preview read back as HTML: which characters it shows, and which elements are open at each of them. */
module PreviewReading {
  import opened Text
  import opened MarkupResult
  import opened MarkupPreview

  // ---------------------------------------------------------------- reading HTML

  /** A start tag is read with its first attribute; a `br` is the character of a line break. */
  datatype HtmlToken = Start(name: string, attribute: string, value: string) | Stop(name: string) | Char(c: char)

  /** How many characters precede the first `c`. */
  function Until(s: string, c: char): (n: nat)
    ensures n <= |s| && c !in s[..n]
    ensures n < |s| ==> s[n] == c
  {
    if s == "" || s[0] == c then 0 else 1 + Until(s[1..], c)
  }

  /** The character reference at the beginning of a text: its character and its width. */
  function Reference(s: string): (r: Option<(char, nat)>)
    ensures r.Some? ==> 0 < r.value.1 <= |s|
  {
    if "&amp;" <= s then Some(('&', 5))
    else if "&lt;" <= s then Some(('<', 4))
    else if "&gt;" <= s then Some(('>', 4))
    else if "&quot;" <= s then Some(('"', 6))
    else if "&#x27;" <= s then Some(('\'', 6))
    else None
  }

  /** Text without tags: references stand for their characters, and no special character stands for itself. */
  function Plain(s: string): Option<string>
    decreases |s|
  {
    if s == "" then Some("")
    else if s[0] == '&' then
      match Reference(s)
      case None => None
      case Some((c, n)) => if Plain(s[n..]).Some? then Some([c] + Plain(s[n..]).value) else None
    else if s[0] in "<>\"'" then None
    else if Plain(s[1..]).Some? then Some([s[0]] + Plain(s[1..]).value)
    else None
  }

  /** The inside of a tag. */
  function ReadTag(inner: string): Option<HtmlToken> {
    if inner == "br" then Some(Char('\n'))
    else if inner != "" && inner[0] == '/' then Some(Stop(inner[1..]))
    else
      var n := Until(inner, ' ');
      if n == |inner| then Some(Start(inner, "", ""))
      else ReadAttribute(inner[..n], inner[n + 1..])
  }

  /** `name="value"`, with the value decoded, or a bare name. */
  function ReadAttribute(tag: string, s: string): Option<HtmlToken> {
    var n := Until(s, '=');
    if n == |s| then Some(Start(tag, s, ""))
    else if n + 1 == |s| || s[n + 1] != '"' then None
    else
      var value := s[n + 2..];
      match Plain(value[..Until(value, '"')])
      case None => None
      case Some(v) => if Until(value, '"') == |value| then None else Some(Start(tag, s[..n], v))
  }

  function Read(html: string): Option<seq<HtmlToken>>
    decreases |html|
  {
    if html == "" then Some([])
    else if html[0] == '<' then
      var end := Until(html, '>');
      if end == |html| then None
      else Joined(ReadTag(html[1..end]), Read(html[end + 1..]))
    else if html[0] == '&' then
      match Reference(html)
      case None => None
      case Some((c, n)) => Joined(Some(Char(c)), Read(html[n..]))
    else if html[0] in ">\"'" then None
    else Joined(Some(Char(html[0])), Read(html[1..]))
  }

  function Joined(first: Option<HtmlToken>, rest: Option<seq<HtmlToken>>): Option<seq<HtmlToken>> {
    if first.Some? && rest.Some? then Some([first.value] + rest.value) else None
  }

  function Characters(tokens: seq<HtmlToken>): string {
    if tokens == [] then ""
    else (if tokens[0].Char? then [tokens[0].c] else "") + Characters(tokens[1..])
  }

  /** Opens and closes elements; an end tag must name the innermost open element. */
  function Play(tokens: seq<HtmlToken>, stack: seq<HtmlToken>): Option<seq<HtmlToken>>
    requires forall t <- stack :: t.Start?
  {
    if tokens == [] then Some(stack)
    else
      match tokens[0]
      case Char(_) => Play(tokens[1..], stack)
      case Start(_, _, _) => Play(tokens[1..], stack + [tokens[0]])
      case Stop(name) =>
        if stack == [] || stack[|stack| - 1].name != name then None else Play(tokens[1..], stack[..|stack| - 1])
  }

  /** The elements open where the k-th character is read. */
  function OpenAt(tokens: seq<HtmlToken>, k: nat, stack: seq<HtmlToken>): Option<seq<HtmlToken>>
    requires forall t <- stack :: t.Start?
  {
    if tokens == [] then None
    else
      match tokens[0]
      case Char(_) => if k == 0 then Some(stack) else OpenAt(tokens[1..], k - 1, stack)
      case Start(_, _, _) => OpenAt(tokens[1..], k, stack + [tokens[0]])
      case Stop(name) =>
        if stack == [] || stack[|stack| - 1].name != name then None else OpenAt(tokens[1..], k, stack[..|stack| - 1])
  }

  // ---------------------------------------------------------------- what an entity looks like

  /** The elements that show an entity, outermost first. */
  function Elements(kind: Kind): (r: seq<HtmlToken>)
    ensures forall t <- r :: t.Start?
  {
    match kind
    case Bold => [Start("strong", "", "")]
    case Italic => [Start("em", "", "")]
    case Underline => [Start("u", "", "")]
    case Strikethrough => [Start("s", "", "")]
    case Spoiler => [Start("span", "class", "tg-spoiler")]
    case Code => [Start("code", "", "")]
    case Pre(_) => [Start("pre", "", ""), Start("code", "", "")]
    case Blockquote => [Start("blockquote", "", "")]
    case ExpandableBlockquote => [Start("blockquote", "expandable", "")]
    case TextLink(url) => [Start("a", "href", url)]
    case CustomEmoji(id) => [Start("span", "title", "ID " + id)]
    case DateTime(unix, _) => [Start("time", "data-unix", Decimal(unix))]
    case PlainUrl => []
  }

  function ElementsOf(es: seq<Entity>): (r: seq<HtmlToken>)
    ensures forall t <- r :: t.Start?
  {
    if es == [] then [] else ElementsOf(es[..|es| - 1]) + Elements(es[|es| - 1].kind)
  }

  /** An emoji number has nothing that HTML would read as its own. */
  predicate Harmless(kind: Kind) {
    kind.CustomEmoji? ==> forall c <- kind.id :: c !in "&<>\"'"
  }

  /** What counts as a number is written in digits, of whatever script. */
  ghost predicate NumbersHarmless(lib: Library) {
    forall s :: lib.isNumber(s) ==> Harmless(CustomEmoji(s))
  }

  ghost predicate AllHarmless(es: seq<Entity>) {
    forall e <- es :: Harmless(e.kind)
  }

  /** The preview shows exactly the text, is balanced, and at each character exactly its entities are open. */
  ghost predicate FaithfulHtml(text: string, es: seq<Entity>, html: string) {
    && Read(html).Some?
    && Characters(Read(html).value) == text
    && Play(Read(html).value, []) == Some([])
    && forall k :: 0 <= k < |text| ==>
         OpenAt(Read(html).value, k, []) == Some(ElementsOf(Covering(es, Utf16Length(text[..k]))))
  }

  // ---------------------------------------------------------------- reading back single pieces

  lemma UntilIs(s: string, c: char, n: nat)
    requires n <= |s| && c !in s[..n] && (n < |s| ==> s[n] == c)
    ensures Until(s, c) == n
  {
  }

  /** A tag at the beginning: its inside is read, and then the rest. */
  lemma ReadTagFirst(tag: string, inner: string, rest: string)
    requires tag == "<" + inner + ">" && '>' !in inner
    ensures Read(tag + rest) == Joined(ReadTag(inner), Read(rest))
  {
    var html, n := tag + rest, |inner| + 1;
    assert html[..n] == "<" + inner && html[n] == '>' && html[n + 1..] == rest;
    UntilIs(html, '>', n);
    assert html[1..n] == inner;
  }

  lemma ReadName(name: string)
    requires ' ' !in name && name != "" && name[0] != '/' && name != "br"
    ensures ReadTag(name) == Some(Start(name, "", ""))
    ensures ReadTag("/" + name) == Some(Stop(name))
  {
    assert name[..|name|] == name;
    UntilIs(name, ' ', |name|);
    assert ("/" + name)[1..] == name;
  }

  lemma {:induction false} PlainEscaped(s: string)
    ensures Plain(EscapeHtml(s)) == Some(s)
    ensures forall c <- EscapeHtml(s) :: c !in "<>\"'"
  {
    if s != "" {
      PlainEscaped(s[1..]);
      var first, rest := EscapeCharacter(s[0]), EscapeHtml(s[1..]);
      assert EscapeHtml(s) == first + rest && (first + rest)[|first|..] == rest;
      PlainFirst(s[0], rest);
      assert s == [s[0]] + s[1..];
      forall c | c in EscapeHtml(s) ensures c !in "<>\"'" {
        assert c in first || c in rest;
        EscapedIsSafe(s[0]);
      }
    }
  }

  lemma EscapedIsSafe(c: char)
    ensures forall x <- EscapeCharacter(c) :: x !in "<>\"'"
  {
  }

  lemma PlainFirst(c: char, rest: string)
    requires Plain(rest).Some?
    ensures Plain(EscapeCharacter(c) + rest) == Some([c] + Plain(rest).value)
  {
    var s, n := EscapeCharacter(c) + rest, |EscapeCharacter(c)|;
    assert s[n..] == rest && s[..n] == EscapeCharacter(c);
    if c in "&<>\"'" { ReferenceFirst(c, rest); }
  }

  lemma ReferenceFirst(c: char, rest: string)
    requires c in "&<>\"'"
    ensures EscapeCharacter(c) + rest != "" && (EscapeCharacter(c) + rest)[0] == '&'
    ensures Reference(EscapeCharacter(c) + rest) == Some((c, |EscapeCharacter(c)|))
  {
    var s := EscapeCharacter(c) + rest;
    match c
    case '&' => assert "&amp;" <= s;
    case '<' => assert "&lt;" <= s && s[1] == 'l';
    case '>' => assert "&gt;" <= s && s[1] == 'g';
    case '"' => assert "&quot;" <= s && s[1] == 'q';
    case '\'' => assert "&#x27;" <= s && s[1] == '#';
  }

  /** A shown character is read back as itself. */
  lemma ReadShown(c: char, rest: string)
    ensures Read(ShowCharacter(c) + rest) == Joined(Some(Char(c)), Read(rest))
  {
    if c == '\n' {
      ReadTagFirst("<br>", "br", rest);
    } else {
      var s, n := EscapeCharacter(c) + rest, |EscapeCharacter(c)|;
      assert s[n..] == rest;
      if c in "&<>\"'" { ReferenceFirst(c, rest); }
    }
  }

  /** The inside of a tag with a quoted attribute, and perhaps more after it. */
  lemma ReadQuoted(tag: string, attribute: string, value: string, plain: string, more: string)
    requires ' ' !in tag && tag != "" && tag[0] != '/' && '=' !in attribute
    requires Plain(value) == Some(plain) && '"' !in value
    ensures ReadTag(tag + (" " + (attribute + ("=\"" + (value + ("\"" + more)))))) == Some(Start(tag, attribute, plain))
  {
    var v := value + ("\"" + more);
    var s := attribute + ("=\"" + v);
    QuotedAttribute(tag, attribute, value, plain, more);
    hide ReadAttribute, Plain;
    SpaceAfter(tag, s);
  }

  /** A space ends the name of a tag. */
  lemma SpaceAfter(tag: string, s: string)
    requires ' ' !in tag && tag != "" && tag[0] != '/'
    ensures ReadTag(tag + (" " + s)) == ReadAttribute(tag, s)
  {
    hide ReadAttribute;
    var inner := tag + (" " + s);
    assert inner[..|tag|] == tag && inner[|tag|] == ' ' && inner[|tag| + 1..] == s && inner[0] == tag[0];
    UntilIs(inner, ' ', |tag|);
    assert inner != "br";
  }

  lemma QuotedAttribute(tag: string, attribute: string, value: string, plain: string, more: string)
    requires '=' !in attribute && Plain(value) == Some(plain) && '"' !in value
    ensures ReadAttribute(tag, attribute + ("=\"" + (value + ("\"" + more)))) == Some(Start(tag, attribute, plain))
  {
    hide Plain;
    var v := value + ("\"" + more);
    var s, n := attribute + ("=\"" + v), |attribute|;
    assert s[..n] == attribute && s[n] == '=' && s[n + 1] == '"' && s[n + 2..] == v;
    UntilIs(s, '=', n);
    assert v[..|value|] == value && v[|value|] == '"';
    UntilIs(v, '"', |value|);
  }

  // ---------------------------------------------------------------- reading back whole tags

  function Stops(elements: seq<HtmlToken>): seq<HtmlToken>
    requires forall t <- elements :: t.Start?
  {
    if elements == [] then [] else Stops(elements[1..]) + [Stop(elements[0].name)]
  }

  function After(tokens: seq<HtmlToken>, rest: Option<seq<HtmlToken>>): Option<seq<HtmlToken>> {
    if rest.Some? then Some(tokens + rest.value) else None
  }

  lemma ReadOne(tag: string, inner: string, token: HtmlToken, rest: string)
    requires tag == "<" + inner + ">" && '>' !in inner && ReadTag(inner) == Some(token)
    ensures Read(tag + rest) == After([token], Read(rest))
  {
    hide ReadTag;
    ReadTagFirst(tag, inner, rest);
    hide Read;
  }

  predicate Simple(name: string) {
    name in {"strong", "em", "u", "s", "code", "pre", "blockquote", "a", "span", "time"}
  }

  lemma SimpleNames(name: string)
    requires Simple(name)
    ensures ' ' !in name && '>' !in name && name != "" && name[0] != '/' && name != "br"
  {
  }

  lemma ReadSimple(tag: string, name: string, rest: string)
    requires tag == "<" + name + ">" && Simple(name)
    ensures Read(tag + rest) == After([Start(name, "", "")], Read(rest))
  {
    hide Read, ReadTag, Simple;
    SimpleNames(name);
    ReadName(name);
    ReadOne(tag, name, Start(name, "", ""), rest);
  }

  lemma ReadStop(tag: string, name: string, rest: string)
    requires tag == "<" + ("/" + name) + ">" && Simple(name)
    ensures Read(tag + rest) == After([Stop(name)], Read(rest))
  {
    hide Read, ReadTag, Simple;
    SimpleNames(name);
    ReadName(name);
    ReadOne(tag, "/" + name, Stop(name), rest);
  }

  lemma ReadSpecial(html: string, tag: string, attribute: string, value: string, plain: string, more: string,
                    rest: string)
    requires html == "<" + (tag + (" " + (attribute + ("=\"" + (value + ("\"" + more)))))) + ">"
    requires Simple(tag) && '>' !in attribute && '=' !in attribute
    requires Plain(value) == Some(plain) && '"' !in value && '>' !in value && '>' !in more
    ensures Read(html + rest) == After([Start(tag, attribute, plain)], Read(rest))
  {
    hide Read, ReadTag, Plain, Simple;
    SimpleNames(tag);
    ReadQuoted(tag, attribute, value, plain, more);
    ReadOne(html, tag + (" " + (attribute + ("=\"" + (value + ("\"" + more))))), Start(tag, attribute, plain), rest);
  }

  lemma {:induction false} PlainIsItself(s: string)
    requires forall c <- s :: c !in "&<>\"'"
    ensures Plain(s) == Some(s)
  {
    if s != "" {
      assert s == [s[0]] + s[1..] && s[0] in s && forall c <- s[1..] :: c in s;
      PlainIsItself(s[1..]);
    }
  }

  lemma DigitOf(k: nat)
    requires k < 10
    ensures "0123456789"[k] as int == '0' as int + k
  {
  }

  lemma {:induction false} DecimalDigits(n: nat)
    ensures Decimal(n) != "" && (forall c <- Decimal(n) :: '0' <= c <= '9')
    ensures DecimalValue(Decimal(n)) == n
  {
    var last := "0123456789"[n % 10];
    DigitOf(n % 10);
    if n < 10 {
      assert Decimal(n) == [last] && [last][..0] == "";
    } else {
      DecimalDigits(n / 10);
      DecimalSnoc(Decimal(n / 10), last);
      assert Decimal(n) == Decimal(n / 10) + [last];
    }
  }

  lemma DecimalSnoc(s: string, c: char)
    ensures DecimalValue(s + [c]) == 10 * DecimalValue(s) + (c as int - '0' as int)
  {
    assert (s + [c])[..|s|] == s;
  }

  /** The number that digits write. */
  function DecimalValue(s: string): int {
    if s == "" then 0 else 10 * DecimalValue(s[..|s| - 1]) + (s[|s| - 1] as int - '0' as int)
  }

  /** Opening tags are read as the elements of their kind. */
  lemma ReadOpening(e: Entity, rest: string)
    requires Harmless(e.kind)
    ensures Read(Opening(e) + rest) == After(Elements(e.kind), Read(rest))
  {
    hide Read;
    match e.kind
    case Bold => ReadSimple("<strong>", "strong", rest);
    case Italic => ReadSimple("<em>", "em", rest);
    case Underline => ReadSimple("<u>", "u", rest);
    case Strikethrough => ReadSimple("<s>", "s", rest);
    case Code => ReadSimple("<code>", "code", rest);
    case Blockquote => ReadSimple("<blockquote>", "blockquote", rest);
    case Pre(_) => ReadPre(rest);
    case ExpandableBlockquote => ReadExpandable(rest);
    case Spoiler => ReadSpoiler(rest);
    case TextLink(url) => ReadLinkTag(url, rest);
    case CustomEmoji(id) => ReadEmoji(id, rest);
    case DateTime(unix, _) => ReadTime(unix, rest);
    case PlainUrl => ReadNothing(rest);
  }

  lemma ReadNothing(rest: string)
    ensures Read("" + rest) == After([], Read(rest))
  {
    assert "" + rest == rest;
    if Read(rest).Some? { assert [] + Read(rest).value == Read(rest).value; }
  }

  lemma AfterTwo(a: HtmlToken, b: HtmlToken, rest: Option<seq<HtmlToken>>)
    ensures After([a], After([b], rest)) == After([a, b], rest)
  {
    if rest.Some? { assert [a] + ([b] + rest.value) == [a, b] + rest.value; }
  }

  lemma ReadPre(rest: string)
    ensures Read("<pre><code>" + rest) == After([Start("pre", "", ""), Start("code", "", "")], Read(rest))
    ensures Read("</code></pre>" + rest) == After([Stop("code"), Stop("pre")], Read(rest))
  {
    hide Read;
    ReadSimple("<pre>", "pre", "<code>" + rest);
    ReadSimple("<code>", "code", rest);
    AfterTwo(Start("pre", "", ""), Start("code", "", ""), Read(rest));
    ReadStop("</code>", "code", "</pre>" + rest);
    ReadStop("</pre>", "pre", rest);
    AfterTwo(Stop("code"), Stop("pre"), Read(rest));
    Associative("<pre>", "<code>", rest);
    Associative("</code>", "</pre>", rest);
    assert "<pre>" + "<code>" == "<pre><code>" && "</code>" + "</pre>" == "</code></pre>";
  }

  /** A tag with a bare attribute. */
  lemma ReadBare(tag: string, attribute: string)
    requires ' ' !in tag && tag != "" && tag[0] != '/' && '=' !in attribute && tag != "br"
    ensures ReadTag(tag + (" " + attribute)) == Some(Start(tag, attribute, ""))
  {
    var inner := tag + (" " + attribute);
    assert inner[..|tag|] == tag && inner[|tag|] == ' ' && inner[|tag| + 1..] == attribute && inner[0] == tag[0];
    UntilIs(inner, ' ', |tag|);
    assert attribute[..|attribute|] == attribute;
    UntilIs(attribute, '=', |attribute|);
  }

  lemma ReadExpandable(rest: string)
    ensures Read("<blockquote expandable>" + rest) == After([Start("blockquote", "expandable", "")], Read(rest))
  {
    hide Read, ReadTag;
    ReadBare("blockquote", "expandable");
    ReadOne("<blockquote expandable>", "blockquote" + (" " + "expandable"), Start("blockquote", "expandable", ""),
            rest);
  }

  lemma ReadSpoiler(rest: string)
    ensures Read("<span class=\"tg-spoiler\">" + rest) == After([Start("span", "class", "tg-spoiler")], Read(rest))
  {
    hide Read, Plain;
    var v := "tg-spoiler";
    PlainIsItself(v);
    AttributeTags();
    Frame("<", "span", "class", v, "", "<span class=\"", "\">");
    ReadSpecial("<span class=\"" + v + "\">", "span", "class", v, v, "", rest);
    assert "<span class=\"" + v + "\">" == "<span class=\"tg-spoiler\">";
  }

  lemma LinkAttributesAreInside()
    ensures '>' !in LINK_ATTRIBUTES
  {
  }

  lemma ReadLinkTag(url: string, rest: string)
    ensures Read(Opening(Entity(TextLink(url), 0, 0)) + rest) == After([Start("a", "href", url)], Read(rest))
  {
    hide Read, Plain, EscapeHtml;
    var v := EscapeHtml(url);
    PlainEscaped(url);
    LinkAttributesAreInside();
    hide LINK_ATTRIBUTES;
    Frame("<", "a", "href", v, LINK_ATTRIBUTES, "<a href=\"", ("\"" + LINK_ATTRIBUTES) + ">");
    ReadSpecial("<a href=\"" + v + (("\"" + LINK_ATTRIBUTES) + ">"), "a", "href", v, url, LINK_ATTRIBUTES, rest);
  }

  lemma AttributeTags()
    ensures "<span title=\"" == "<" + ("span" + (" " + ("title" + "=\"")))
    ensures "<span class=\"" == "<" + ("span" + (" " + ("class" + "=\"")))
    ensures "<time data-unix=\"" == "<" + ("time" + (" " + ("data-unix" + "=\"")))
    ensures "\">" == ("\"" + "") + ">"
  {
  }

  lemma ReadEmoji(id: string, rest: string)
    requires Harmless(CustomEmoji(id))
    ensures Read(Opening(Entity(CustomEmoji(id), 0, 0)) + rest)
      == After([Start("span", "title", "ID " + id)], Read(rest))
  {
    hide Read, Plain;
    var v := "ID " + id;
    PlainIsItself(v);
    AttributeTags();
    Frame("<", "span", "title", v, "", "<span title=\"", "\">");
    ReadSpecial("<span title=\"" + v + "\">", "span", "title", v, v, "", rest);
    assert "<span title=\"" + v + "\">" == "<span title=\"ID " + id + "\">";
  }

  lemma ReadTime(unix: nat, rest: string)
    ensures Read(Opening(Entity(DateTime(unix, ""), 0, 0)) + rest)
      == After([Start("time", "data-unix", Decimal(unix))], Read(rest))
  {
    hide Read, Plain, Decimal;
    var v := Decimal(unix);
    DecimalDigits(unix);
    PlainIsItself(v);
    AttributeTags();
    Frame("<", "time", "data-unix", v, "", "<time data-unix=\"", "\">");
    ReadSpecial("<time data-unix=\"" + v + "\">", "time", "data-unix", v, v, "", rest);
  }

  /** A tag put together from its parts. */
  lemma Frame(open: string, tag: string, attribute: string, value: string, more: string, before: string, after: string)
    requires before == open + (tag + (" " + (attribute + "=\""))) && after == ("\"" + more) + ">"
    ensures before + value + after == open + (tag + (" " + (attribute + ("=\"" + (value + ("\"" + more)))))) + ">"
  {
    var v := value + ("\"" + more);
    Associative(attribute, "=\"", v);
    Associative(" ", attribute + "=\"", v);
    Associative(tag, " " + (attribute + "=\""), v);
    Associative(open, tag + (" " + (attribute + "=\"")), v);
    Associative(before, value, after);
    Associative(value, "\"" + more, ">");
    Associative(before, v, ">");
  }

  /** Closing tags are read as the ends of the same elements, innermost first. */
  lemma ReadClosing(e: Entity, rest: string)
    ensures Read(Closing(e) + rest) == After(Stops(Elements(e.kind)), Read(rest))
  {
    StopsOf(e.kind);
    hide Read, Stops;
    match e.kind
    case Pre(_) => ReadPre(rest);
    case PlainUrl => ReadNothing(rest);
    case _ =>
      ClosingName(e);
      ReadStop(Closing(e), Elements(e.kind)[0].name, rest);
  }

  lemma ClosingName(e: Entity)
    requires !e.kind.Pre? && !e.kind.PlainUrl?
    ensures Closing(e) == "<" + ("/" + Elements(e.kind)[0].name) + ">" && Simple(Elements(e.kind)[0].name)
  {
  }

  lemma StopsOf(kind: Kind)
    ensures var elements := Elements(kind);
      Stops(elements) == if kind.PlainUrl? then [] else if kind.Pre? then [Stop("code"), Stop("pre")]
                         else [Stop(elements[0].name)]
  {
    var elements := Elements(kind);
    if kind.Pre? {
      assert elements[1..] == [Start("code", "", "")] && elements[1..][1..] == [];
      assert Stops(elements[1..]) == [] + [Stop("code")];
    } else if !kind.PlainUrl? {
      assert elements[1..] == [];
    }
  }

  /** Different kinds look different, but for what a preview does not show. */
  lemma ElementsTellKinds(a: Kind, b: Kind)
    requires Elements(a) == Elements(b)
    ensures a == b || (a.Pre? && b.Pre?) || (a.DateTime? && b.DateTime? && a.unix == b.unix)
  {
    if a.CustomEmoji? && b.CustomEmoji? {
      assert ("ID " + a.id)[3..] == a.id && ("ID " + b.id)[3..] == b.id;
    }
    if a.DateTime? && b.DateTime? {
      DecimalDigits(a.unix);
      DecimalDigits(b.unix);
    }
  }

  // ---------------------------------------------------------------- reading back a preview

  /** What a piece is read as. */
  function Tokens(piece: Piece): seq<HtmlToken> {
    match piece
    case Open(e) => Elements(e.kind)
    case Close(e) => Stops(Elements(e.kind))
    case Content(html) => if Read(html).Some? then Read(html).value else []
  }

  function AllTokens(pieces: seq<Piece>): seq<HtmlToken> {
    FlatMap(Tokens, pieces)
  }

  /** A tag of a harmless entity, or one shown character. */
  ghost predicate Proper(piece: Piece) {
    match piece
    case Open(e) => Harmless(e.kind)
    case Close(e) => Harmless(e.kind)
    case Content(html) => exists c :: html == ShowCharacter(c)
  }

  lemma ShownToken(c: char)
    ensures Tokens(Content(ShowCharacter(c))) == [Char(c)]
  {
    ReadShown(c, "");
    assert ShowCharacter(c) + "" == ShowCharacter(c) && [Char(c)] + [] == [Char(c)];
  }

  lemma {:induction false} ReadHtml(pieces: seq<Piece>)
    requires forall p <- pieces :: Proper(p)
    ensures Read(Html(pieces)) == Some(AllTokens(pieces))
  {
    if pieces != [] {
      var rest := Html(pieces[1..]);
      ReadHtml(pieces[1..]);
      assert pieces[0] in pieces && Html(pieces) == ShowPiece(pieces[0]) + rest;
      assert AllTokens(pieces) == Tokens(pieces[0]) + AllTokens(pieces[1..]);
      match pieces[0]
      case Open(e) => ReadOpening(e, rest);
      case Close(e) => ReadClosing(e, rest);
      case Content(html) =>
        var c :| html == ShowCharacter(c);
        ReadShown(c, rest);
        ShownToken(c);
    }
  }

  lemma {:induction false} CharactersAppend(a: seq<HtmlToken>, b: seq<HtmlToken>)
    ensures Characters(a + b) == Characters(a) + Characters(b)
  {
    if a == [] {
      assert a + b == b;
    } else {
      assert (a + b)[1..] == a[1..] + b && (a + b)[0] == a[0];
      CharactersAppend(a[1..], b);
      Associative(if a[0].Char? then [a[0].c] else "", Characters(a[1..]), Characters(b));
    }
  }

  lemma {:induction false} StopsShowNothing(elements: seq<HtmlToken>)
    requires forall t <- elements :: t.Start?
    ensures Characters(elements) == "" && Characters(Stops(elements)) == ""
  {
    if elements != [] {
      StopsShowNothing(elements[1..]);
      CharactersAppend(Stops(elements[1..]), [Stop(elements[0].name)]);
    }
  }

  lemma {:induction false} PlayAppend(a: seq<HtmlToken>, b: seq<HtmlToken>, stack: seq<HtmlToken>, k: nat)
    requires (forall t <- stack :: t.Start?) && Play(a, stack).Some?
    ensures forall t <- Play(a, stack).value :: t.Start?
    ensures Play(a + b, stack) == Play(b, Play(a, stack).value)
    ensures |Characters(a)| <= k ==> OpenAt(a + b, k, stack) == OpenAt(b, k - |Characters(a)|, Play(a, stack).value)
  {
    if a == [] {
      assert a + b == b;
    } else {
      assert (a + b)[1..] == a[1..] + b;
      match a[0]
      case Char(_) => PlayAppend(a[1..], b, stack, if k == 0 then 0 else k - 1);
      case Start(_, _, _) => PlayAppend(a[1..], b, stack + [a[0]], k);
      case Stop(_) => PlayAppend(a[1..], b, stack[..|stack| - 1], k);
    }
  }

  lemma {:induction false} PlayElements(elements: seq<HtmlToken>, stack: seq<HtmlToken>)
    requires (forall t <- elements :: t.Start?) && forall t <- stack :: t.Start?
    ensures Play(elements, stack) == Some(stack + elements)
    ensures Play(Stops(elements), stack + elements) == Some(stack)
  {
    if elements == [] {
      assert stack + elements == stack;
    } else {
      var more := stack + [elements[0]];
      PlayElements(elements[1..], more);
      assert more + elements[1..] == stack + elements;
      PlayAppend(Stops(elements[1..]), [Stop(elements[0].name)], stack + elements, 0);
      assert more[..|more| - 1] == stack;
      assert Play([Stop(elements[0].name)], more) == Play([Stop(elements[0].name)][1..], stack);
    }
  }

  lemma ShownSnoc(es: seq<Entity>, e: Entity)
    ensures ElementsOf(es + [e]) == ElementsOf(es) + Elements(e.kind)
  {
    assert (es + [e])[..|es|] == es;
  }

  /** The tags of a preview open and close the elements of the entities that they open and close. */
  lemma {:induction false} PlayPieces(pieces: seq<Piece>, stack: seq<Entity>)
    requires Run(pieces, stack).Some? && forall p <- pieces :: Proper(p)
    ensures Play(AllTokens(pieces), ElementsOf(stack)) == Some(ElementsOf(Run(pieces, stack).value))
  {
    if pieces != [] {
      var p, rest := pieces[0], AllTokens(pieces[1..]);
      assert p in pieces && AllTokens(pieces) == Tokens(p) + rest;
      match p
      case Open(e) =>
        PlayPieces(pieces[1..], stack + [e]);
        PlayElements(Elements(e.kind), ElementsOf(stack));
        ShownSnoc(stack, e);
        PlayAppend(Elements(e.kind), rest, ElementsOf(stack), 0);
      case Close(e) =>
        var below := stack[..|stack| - 1];
        assert stack == below + [e];
        PlayPieces(pieces[1..], below);
        PlayElements(Elements(e.kind), ElementsOf(below));
        ShownSnoc(below, e);
        PlayAppend(Stops(Elements(e.kind)), rest, ElementsOf(stack), 0);
      case Content(html) =>
        var c :| html == ShowCharacter(c);
        ShownToken(c);
        PlayPieces(pieces[1..], stack);
        assert ([Char(c)] + rest)[1..] == rest;
    }
  }

  lemma AllTokensAppend(a: seq<Piece>, b: seq<Piece>)
    ensures AllTokens(a + b) == AllTokens(a) + AllTokens(b)
  {
    FlatMapAppend(Tokens, a, b);
  }

  lemma {:induction false} TagsAreProper(es: seq<Entity>, at: nat)
    requires AllHarmless(es)
    ensures (forall p <- Opens(es, at) :: Proper(p)) && (forall p <- Closes(es, at) :: Proper(p))
  {
    if es != [] {
      assert es[0] in es && forall e <- es[1..] :: e in es;
      TagsAreProper(es[1..], at);
    }
  }

  lemma {:induction false} TagsAreSilent(es: seq<Entity>, at: nat)
    ensures Characters(AllTokens(Opens(es, at))) == "" && Characters(AllTokens(Closes(es, at))) == ""
  {
    if es != [] {
      TagsAreSilent(es[1..], at);
      StopsShowNothing(Elements(es[0].kind));
      FlatMapOne(Tokens, Open(es[0]));
      FlatMapOne(Tokens, Close(es[0]));
      Silent(if es[0].offset == at then [Open(es[0])] else [], Opens(es[1..], at));
      Silent(Closes(es[1..], at), if es[0].End() == at then [Close(es[0])] else []);
    }
  }

  lemma Silent(a: seq<Piece>, b: seq<Piece>)
    requires Characters(AllTokens(a)) == "" && Characters(AllTokens(b)) == ""
    ensures Characters(AllTokens(a + b)) == ""
  {
    AllTokensAppend(a, b);
    CharactersAppend(AllTokens(a), AllTokens(b));
  }

  lemma {:induction false} EmittedReads(text: string, es: seq<Entity>, k: nat)
    requires AllHarmless(es) && k <= |text|
    ensures forall p <- Emitted(text, es, k) :: Proper(p)
    ensures Characters(AllTokens(Emitted(text, es, k))) == text[..k]
    decreases k, 0
  {
    if k > 0 {
      TagsRead(text, es, k - 1);
      var tags, content := TagsBefore(text, es, k - 1), Content(ShowCharacter(text[k - 1]));
      ShownToken(text[k - 1]);
      FlatMapOne(Tokens, content);
      AllTokensAppend(tags, [content]);
      CharactersAppend(AllTokens(tags), [Char(text[k - 1])]);
      assert Characters([Char(text[k - 1])]) == [text[k - 1]] + Characters([]);
      assert text[..k] == text[..k - 1] + [text[k - 1]];
    }
  }

  lemma {:induction false} TagsRead(text: string, es: seq<Entity>, k: nat)
    requires AllHarmless(es) && k < |text|
    ensures forall p <- TagsBefore(text, es, k) :: Proper(p)
    ensures Characters(AllTokens(TagsBefore(text, es, k))) == text[..k]
    decreases k, 1
  {
    EmittedReads(text, es, k);
    TagsShowNothing(Emitted(text, es, k), es, Utf16Length(text[..k]));
  }

  lemma TagsShowNothing(before: seq<Piece>, es: seq<Entity>, at: nat)
    requires AllHarmless(es) && forall p <- before :: Proper(p)
    ensures forall p <- before + Closes(es, at) + Opens(es, at) :: Proper(p)
    ensures Characters(AllTokens(before + Closes(es, at) + Opens(es, at))) == Characters(AllTokens(before))
    ensures Characters(AllTokens(before + Closes(es, at))) == Characters(AllTokens(before))
  {
    TagsAreProper(es, at);
    TagsAreSilent(es, at);
    AllTokensAppend(before, Closes(es, at));
    AllTokensAppend(before + Closes(es, at), Opens(es, at));
    CharactersAppend(AllTokens(before), AllTokens(Closes(es, at)));
    CharactersAppend(AllTokens(before + Closes(es, at)), AllTokens(Opens(es, at)));
  }

  /** The preview begins with the tags before a character and that character. */
  lemma {:induction false} EmittedGrows(text: string, es: seq<Entity>, k: nat, m: nat) returns (more: seq<Piece>)
    requires k <= m <= |text|
    ensures Emitted(text, es, m) == Emitted(text, es, k) + more
  {
    if k == m {
      more := [];
    } else {
      var at := Utf16Length(text[..m - 1]);
      var before := EmittedGrows(text, es, k, m - 1);
      var tags, content := Closes(es, at) + Opens(es, at), [Content(ShowCharacter(text[m - 1]))];
      more := before + (tags + content);
      hide Closes, Opens, Emitted, ShowCharacter;
      EmittedStep(text, es, m);
      Associative(Emitted(text, es, k), before, tags + content);
    }
  }

  lemma EmittedStep(text: string, es: seq<Entity>, m: nat)
    requires 0 < m <= |text|
    ensures var at := Utf16Length(text[..m - 1]);
      Emitted(text, es, m)
        == Emitted(text, es, m - 1) + (Closes(es, at) + Opens(es, at) + [Content(ShowCharacter(text[m - 1]))])
  {
    var at := Utf16Length(text[..m - 1]);
    var before, content := Emitted(text, es, m - 1), [Content(ShowCharacter(text[m - 1]))];
    Associative(before, Closes(es, at), Opens(es, at));
    Associative(before, Closes(es, at) + Opens(es, at), content);
  }

  /** A preview, around its k-th character. */
  lemma PreviewAround(text: string, es: seq<Entity>, k: nat) returns (rest: seq<Piece>)
    requires k < |text|
    ensures Preview(text, es) == TagsBefore(text, es, k) + ([Content(ShowCharacter(text[k]))] + rest)
  {
    var tags, content := TagsBefore(text, es, k), [Content(ShowCharacter(text[k]))];
    var more := EmittedGrows(text, es, k + 1, |text|);
    rest := more + Closes(es, Utf16Length(text));
    hide TagsBefore, Closes, ShowCharacter;
    assert Emitted(text, es, k + 1) == tags + content;
    Associative(tags + content, more, Closes(es, Utf16Length(text)));
    Associative(tags, content, rest);
  }

  /** The elements open at a character are those of the entities covering it, outermost first. */
  lemma OpenAtCharacter(text: string, es: seq<Entity>, k: nat)
    requires Previewable(text, es) && AllHarmless(es) && k < |text|
    ensures OpenAt(AllTokens(Preview(text, es)), k, []) == Some(ElementsOf(Covering(es, Utf16Length(text[..k]))))
  {
    var tags, content := TagsBefore(text, es, k), Content(ShowCharacter(text[k]));
    var rest := PreviewAround(text, es, k);
    TagsRead(text, es, k);
    StackCovers(text, es, k);
    ShownToken(text[k]);
    hide TagsBefore, Preview, Covering, ShowCharacter, Tokens, Proper, Run, Previewable;
    PlayPieces(tags, []);
    assert ElementsOf([]) == [];
    AllTokensAppend(tags, [content] + rest);
    AllTokensAppend([content], rest);
    FlatMapOne(Tokens, content);
    PlayAppend(AllTokens(tags), AllTokens([content] + rest), [], k);
  }

  /** The preview, read as HTML, shows exactly the text and opens exactly the elements of the entities. */
  lemma HtmlReads(text: string, es: seq<Entity>)
    requires Previewable(text, es) && AllHarmless(es)
    ensures FaithfulHtml(text, es, Html(Preview(text, es)))
  {
    var n := |text|;
    assert text[..n] == text;
    EmittedReads(text, es, n);
    TagsShowNothing(Emitted(text, es, n), es, Utf16Length(text));
    ReadHtml(Preview(text, es));
    PreviewBalanced(text, es);
    PlayPieces(Preview(text, es), []);
    forall k | 0 <= k < n { OpenAtCharacter(text, es, k); }
  }

  /** A text as tokens. */
  function Spelled(text: string): seq<HtmlToken> {
    if text == "" then [] else [Char(text[0])] + Spelled(text[1..])
  }

  /** Whatever the entities, what the preview contains is read as exactly the text, character by character. */
  lemma ContentsRead(text: string, es: seq<Entity>)
    ensures Read(Contents(Preview(text, es))) == Some(Spelled(text))
  {
    PreviewContents(text, es);
    ReadText(text);
  }

  lemma {:induction false} ReadText(text: string)
    ensures Read(ShowText(text)) == Some(Spelled(text))
  {
    if text != "" {
      ReadText(text[1..]);
      ReadShown(text[0], ShowText(text[1..]));
    }
  }
}
