/**
  Truncation of close reasons on a UTF-8 boundary (uni_protocol/closecode.go). Valid text is defined
  by the syntax in section 4 of RFC 3629 and, independently, by the encoding in its section 3.
 */
module Utf8 {
  // ----- the syntax -----

  predicate Tail(c: char) {
    '\U{80}' <= c <= '\U{BF}'
  }

  /** The length that a first byte announces; 0 if no character starts with it. */
  function Width(c: char): (n: nat)
    ensures n <= 4
  {
    if c <= '\U{7F}' then 1
    else if '\U{C2}' <= c <= '\U{DF}' then 2
    else if '\U{E0}' <= c <= '\U{EF}' then 3
    else if '\U{F0}' <= c <= '\U{F4}' then 4
    else 0
  }

  /** One encoded character: UTF8-1 to UTF8-4 of the grammar. */
  predicate IsChar(s: string) {
    && s != [] && |s| == Width(s[0])
    && (forall i :: 1 <= i < |s| ==> Tail(s[i]))
    && (s[0] == '\U{E0}' ==> '\U{A0}' <= s[1])
    && (s[0] == '\U{ED}' ==> s[1] <= '\U{9F}')
    && (s[0] == '\U{F0}' ==> '\U{90}' <= s[1])
    && (s[0] == '\U{F4}' ==> s[1] <= '\U{8F}')
  }

  /** `utf8.Valid`. */
  predicate Valid(s: string) {
    s == [] || (0 < Width(s[0]) <= |s| && IsChar(s[..Width(s[0])]) && Valid(s[Width(s[0])..]))
  }

  // ----- the encoding -----

  predicate Scalar(u: int) {
    0 <= u < 0xD800 || 0xE000 <= u <= 0x10FFFF
  }

  function Continuation(bits: nat): char {
    (0x80 + bits % 64) as char
  }

  function Encode(u: int): (s: string)
    requires Scalar(u)
    ensures s != []
  {
    if u < 0x80 then [u as char]
    else if u < 0x800 then [(0xC0 + u / 64) as char, Continuation(u)]
    else if u < 0x10000 then [(0xE0 + u / 64 / 64) as char, Continuation(u / 64), Continuation(u)]
    else [(0xF0 + u / 64 / 64 / 64) as char, Continuation(u / 64 / 64), Continuation(u / 64), Continuation(u)]
  }

  predicate Scalars(text: seq<int>) {
    forall i :: 0 <= i < |text| ==> Scalar(text[i])
  }

  function EncodeAll(text: seq<int>): string
    requires Scalars(text)
  {
    if text == [] then [] else Encode(text[0]) + EncodeAll(text[1..])
  }

  /** The payload of a first byte, then six bits from each further one. */
  function Decode(s: string): int
    requires IsChar(s)
  {
    if |s| == 1 then s[0] as int
    else if |s| == 2 then Six(s[0] as int - 0xC0, s[1])
    else if |s| == 3 then Six(Six(s[0] as int - 0xE0, s[1]), s[2])
    else Six(Six(Six(s[0] as int - 0xF0, s[1]), s[2]), s[3])
  }

  function Six(high: int, c: char): int {
    high * 64 + (c as int - 0x80)
  }

  lemma SixOfContinuation(u: nat)
    ensures Six(u / 64, Continuation(u)) == u && Tail(Continuation(u))
  {
  }

  lemma ContinuationOfSix(high: nat, c: char)
    requires Tail(c)
    ensures Six(high, c) >= 0 && Six(high, c) / 64 == high && Continuation(Six(high, c)) == c
  {
  }

  lemma EncodedIsChar(u: int)
    requires Scalar(u)
    ensures IsChar(Encode(u)) && Decode(Encode(u)) == u
  {
    hide Six, Continuation, Tail;
    SixOfContinuation(u);
    SixOfContinuation(u / 64);
    SixOfContinuation(u / 64 / 64);
    SecondByte(u / 64);
    SecondByte(u / 64 / 64);
  }

  lemma SecondByte(u: nat)
    ensures Continuation(u) as int == 0x80 + u - u / 64 * 64
  {
  }

  lemma CharIsEncoded(s: string)
    requires IsChar(s)
    ensures Scalar(Decode(s)) && Encode(Decode(s)) == s
  {
    hide Continuation;
    if |s| == 2 {
      ContinuationOfSix(s[0] as int - 0xC0, s[1]);
    } else if |s| == 3 {
      var high := s[0] as int - 0xE0;
      ContinuationOfSix(high, s[1]);
      ContinuationOfSix(Six(high, s[1]), s[2]);
    } else if |s| == 4 {
      var high := s[0] as int - 0xF0;
      ContinuationOfSix(high, s[1]);
      ContinuationOfSix(Six(high, s[1]), s[2]);
      ContinuationOfSix(Six(Six(high, s[1]), s[2]), s[3]);
    }
  }

  lemma {:induction false} EncodedIsValid(text: seq<int>)
    requires Scalars(text)
    ensures Valid(EncodeAll(text))
  {
    if text != [] {
      EncodedIsValid(text[1..]);
      EncodedIsChar(text[0]);
      PrependChar(Encode(text[0]), EncodeAll(text[1..]));
    }
  }

  lemma PrependChar(c: string, s: string)
    requires IsChar(c)
    ensures Valid(c + s) <==> Valid(s)
  {
    assert (c + s)[..|c|] == c && (c + s)[|c|..] == s;
  }

  /** The characters of valid text. */
  function DecodeAll(s: string): (text: seq<int>)
    requires Valid(s)
  {
    if s == [] then [] else [Decode(s[..Width(s[0])])] + DecodeAll(s[Width(s[0])..])
  }

  lemma EncodeCons(u: int, text: seq<int>)
    requires Scalar(u) && Scalars(text)
    ensures Scalars([u] + text) && EncodeAll([u] + text) == Encode(u) + EncodeAll(text)
  {
    assert ([u] + text)[1..] == text;
  }

  /** Text that satisfies the syntax is the encoding of exactly one sequence of characters. */
  lemma {:induction false} ValidIsEncoded(s: string)
    requires Valid(s)
    ensures Scalars(DecodeAll(s)) && EncodeAll(DecodeAll(s)) == s
  {
    assert EncodeAll([]) == [];
    hide Encode, Decode, IsChar, EncodeAll, Scalar, Width;
    if s != [] {
      var n := Width(s[0]);
      var u, rest := Decode(s[..n]), s[n..];
      CharIsEncoded(s[..n]);
      ValidIsEncoded(rest);
      EncodeCons(u, DecodeAll(rest));
      assert s == s[..n] + rest;
    }
  }

  lemma {:induction false} EncodingDecodes(text: seq<int>)
    requires Scalars(text)
    ensures Valid(EncodeAll(text)) && DecodeAll(EncodeAll(text)) == text
  {
    EncodedIsValid(text);
    if text != [] {
      EncodingDecodes(text[1..]);
      EncodedIsChar(text[0]);
      var c, s := Encode(text[0]), EncodeAll(text[1..]);
      assert (c + s)[..|c|] == c && (c + s)[|c|..] == s;
    }
  }

  // ----- truncation -----

  /** A position of valid text is at most three bytes after a character boundary. */
  lemma {:induction false} BoundaryNear(s: string, k: nat) returns (n: nat)
    requires Valid(s) && k <= |s|
    ensures n <= k <= n + 3 && Valid(s[..n])
  {
    if s == [] || k < Width(s[0]) {
      n := 0;
    } else {
      var w := Width(s[0]);
      n := BoundaryNear(s[w..], k - w);
      assert s[..w + n] == s[..w] + s[w..][..n];
      PrependChar(s[..w], s[w..][..n]);
      n := w + n;
    }
  }

  /**
    `truncateUTF8`. Within the limit the text is returned as it is, valid or not. Beyond it the
    result is the longest prefix within the limit that is valid; of valid text at most three bytes of
    the limit are given up.
   */
  method TruncateUTF8(s: string, maxBytes: nat) returns (r: string)
    ensures |s| <= maxBytes ==> r == s
    ensures |s| > maxBytes ==> r <= s && |r| <= maxBytes && Valid(r)
    ensures |s| > maxBytes ==> forall n :: |r| < n <= maxBytes ==> !Valid(s[..n])
    ensures |s| > maxBytes && Valid(s) ==> maxBytes <= |r| + 3
    ensures Valid(r) <==> |s| > maxBytes || Valid(s)
  {
    if |s| <= maxBytes {
      return s;
    }
    var b := s[..maxBytes];
    while |b| > 0 && !Valid(b)
      invariant |b| <= maxBytes && b == s[..|b|]
      invariant forall n :: |b| < n <= maxBytes ==> !Valid(s[..n])
    {
      b := b[..|b| - 1];
    }
    if Valid(s) {
      var n := BoundaryNear(s, maxBytes);
      assert n <= |b|;
    }
    r := b;
  }

  /** A valid prefix of valid text consists of its first characters: none is split. */
  lemma {:induction false} PrefixOfText(p: string, s: string)
    requires Valid(p) && Valid(s) && p <= s
    ensures DecodeAll(p) <= DecodeAll(s)
  {
    if p != [] {
      var w := Width(p[0]);
      assert s[..w] == p[..w];
      PrefixOfText(p[w..], s[w..]);
    }
  }

  /** There is text within every positive limit that is not valid, and so stays invalid. */
  lemma InvalidWithinLimit(maxBytes: nat) returns (s: string)
    requires maxBytes > 0
    ensures |s| <= maxBytes && !Valid(s)
  {
    s := ['\U{80}'];
  }

  /** Three bytes can be needed: one four-byte character, cut after three. */
  lemma ThreeGivenUp()
    ensures var s := Encode(0x1F600); Valid(s) && |s| == 4 && !Valid(s[..3]) && !Valid(s[..2]) && !Valid(s[..1])
  {
    EncodedIsValid([0x1F600]);
    assert EncodeAll([0x1F600]) == Encode(0x1F600);
  }
}
