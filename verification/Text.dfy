/**
 Strings of Unicode scalar values and their UTF-16 form (section 2.1 of RFC 2781): a character below 0x10000 is one
 code unit, any other a surrogate pair, so that a length in code units is at least the number of characters. Also
 what every other module uses: options, results, and joining the results of a function over a sequence.
 */
module Text {

  datatype Option<+T> = None | Some(value: T)

  datatype Result<+T, +E> = Ok(value: T) | Err(error: E)

  /** The UTF-16 code units of one character: a surrogate pair from 0x10000 on. */
  function EncodeChar(c: char): (units: seq<nat>)
    ensures |units| == 1 || |units| == 2
  {
    var v := c as int;
    if v < 0x10000 then [v]
    else [0xD800 + (v - 0x10000) / 0x400, 0xDC00 + (v - 0x10000) % 0x400]
  }

  /** The units of a character give it back. */
  lemma UnitsExactly(c: char)
    ensures var u := EncodeChar(c);
      if c as int < 65536 then u == [c as int]
      else
        && |u| == 2 && 0xD800 <= u[0] < 0xDC00 <= u[1] < 0xE000
        && c as int == 65536 + (u[0] - 0xD800) * 1024 + (u[1] - 0xDC00)
  {
  }

  /** Applies a function to every element and joins the results. */
  function FlatMap<T, U>(f: T -> seq<U>, s: seq<T>): seq<U> {
    if s == [] then [] else f(s[0]) + FlatMap(f, s[1..])
  }

  lemma Associative<T>(a: seq<T>, b: seq<T>, c: seq<T>)
    ensures a + (b + c) == (a + b) + c
  {
  }

  lemma {:induction false} FlatMapAppend<T, U>(f: T -> seq<U>, a: seq<T>, b: seq<T>)
    ensures FlatMap(f, a + b) == FlatMap(f, a) + FlatMap(f, b)
  {
    if a == [] {
      assert a + b == b;
    } else {
      FlatMapAppend(f, a[1..], b);
      assert (a + b)[1..] == a[1..] + b;
      Associative(f(a[0]), FlatMap(f, a[1..]), FlatMap(f, b));
    }
  }

  lemma FlatMapOne<T, U>(f: T -> seq<U>, x: T)
    ensures FlatMap(f, [x]) == f(x)
  {
    assert FlatMap(f, [x]) == f(x) + FlatMap(f, [x][1..]);
  }

  function Encode(s: string): seq<nat> {
    FlatMap(EncodeChar, s)
  }

  /** The unit in which Telegram counts offsets and lengths. */
  function Utf16Length(s: string): nat {
    |Encode(s)|
  }

  lemma EncodeAppend(a: string, b: string)
    ensures Encode(a + b) == Encode(a) + Encode(b)
  {
    FlatMapAppend(EncodeChar, a, b);
  }

  lemma LengthAppend(a: string, b: string)
    ensures Utf16Length(a + b) == Utf16Length(a) + Utf16Length(b)
  {
    EncodeAppend(a, b);
  }

  lemma LengthSnoc(text: string, k: nat)
    requires k < |text|
    ensures Utf16Length(text[..k + 1]) == Utf16Length(text[..k]) + Utf16Length([text[k]])
    ensures Utf16Length([text[k]]) >= 1
  {
    assert text[..k + 1] == text[..k] + [text[k]];
    LengthAppend(text[..k], [text[k]]);
    LengthPositive([text[k]]);
  }

  lemma {:induction false} LengthPositive(s: string)
    ensures Utf16Length(s) >= |s|
  {
    if s != [] {
      LengthPositive(s[1..]);
      assert Encode(s) == EncodeChar(s[0]) + Encode(s[1..]);
    }
  }

  /** An offset that does not split a surrogate pair of `text`. */
  ghost predicate Boundary(text: string, offset: nat) {
    exists k :: 0 <= k <= |text| && Utf16Length(text[..k]) == offset
  }

  lemma BoundaryEnd(text: string)
    ensures Boundary(text, Utf16Length(text))
  {
    assert text[..|text|] == text;
  }

  lemma BoundaryExtend(text: string, more: string, offset: nat)
    requires Boundary(text, offset)
    ensures Boundary(text + more, offset)
  {
    var k :| 0 <= k <= |text| && Utf16Length(text[..k]) == offset;
    assert (text + more)[..k] == text[..k];
  }

  predicate StartsWith(text: string, marker: string, position: nat)
    decreases |marker|
  {
    position + |marker| <= |text| &&
    (marker == "" || (text[position] == marker[0] && StartsWith(text, marker[1..], position + 1)))
  }

  lemma {:induction false} StartsWithAt(text: string, marker: string, position: nat)
    ensures StartsWith(text, marker, position)
      <==> position + |marker| <= |text| && text[position..position + |marker|] == marker
  {
    if marker != "" && position + |marker| <= |text| {
      StartsWithAt(text, marker[1..], position + 1);
      assert marker == [marker[0]] + marker[1..];
      assert text[position..position + |marker|] == [text[position]] + text[position + 1..position + |marker|];
    }
  }

  predicate IsDigit(c: char) {
    '0' <= c <= '9'
  }

  /** White space as Python's string methods and patterns see it. */
  predicate IsSpace(c: char) {
    var v := c as int;
    || 9 <= v <= 13 || 28 <= v <= 32 || v == 0x85 || v == 0xA0 || v == 0x1680 || 0x2000 <= v <= 0x200A
    || v == 0x2028 || v == 0x2029 || v == 0x202F || v == 0x205F || v == 0x3000
  }

  function Join(chunks: seq<string>): string {
    FlatMap((chunk: string) => chunk, chunks)
  }

  lemma JoinAppend(chunks: seq<string>, chunk: string)
    ensures Join(chunks + [chunk]) == Join(chunks) + chunk
  {
    FlatMapAppend((s: string) => s, chunks, [chunk]);
    FlatMapOne((s: string) => s, chunk);
  }
}
