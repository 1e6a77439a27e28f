/** UTF-8 as section 4 of RFC 3629 defines it, over absolute byte offsets. */
module Utf8 {

  import opened Octets

  predicate Continuation(b: byte) {
    0x80 <= b < 0xC0
  }

  /** The length of the character a lead byte announces; 0 when it announces none. */
  function CharLength(lead: byte): (n: nat)
    ensures n <= 4
  {
    if lead < 0x80 then 1
    else if 0xC2 <= lead <= 0xDF then 2
    else if 0xE0 <= lead <= 0xEF then 3
    else if 0xF0 <= lead <= 0xF4 then 4
    else 0
  }

  /** The second byte excludes overlong forms, surrogates and values above U+10FFFF. */
  predicate SecondOk(lead: byte, second: byte) {
    && Continuation(second)
    && (lead == 0xE0 ==> second >= 0xA0) && (lead == 0xED ==> second < 0xA0)
    && (lead == 0xF0 ==> second >= 0x90) && (lead == 0xF4 ==> second < 0x90)
  }

  predicate CharAt(s: Bytes, i: nat) {
    && i < |s|
    && var n := CharLength(s[i]);
       && n > 0 && i + n <= |s|
       && (n > 1 ==> SecondOk(s[i], s[i + 1]))
       && (n > 2 ==> Continuation(s[i + 2]))
       && (n > 3 ==> Continuation(s[i + 3]))
  }

  predicate ValidFrom(s: Bytes, i: nat)
    decreases |s| - i
  {
    i == |s| || (CharAt(s, i) && ValidFrom(s, i + CharLength(s[i])))
  }

  predicate Valid(s: Bytes) {
    ValidFrom(s, 0)
  }

  /** The test Rust makes on one byte; on valid text it finds exactly the character boundaries. */
  predicate IsBoundary(s: Bytes, i: nat) {
    i == |s| || (i < |s| && !Continuation(s[i]))
  }

  lemma {:induction false} ReachBoundary(s: Bytes, from: nat, i: nat)
    requires ValidFrom(s, from) && from <= i && IsBoundary(s, i)
    ensures ValidFrom(s, i)
    decreases |s| - from
  {
    if from < i { ReachBoundary(s, from + CharLength(s[from]), i); }
  }

  /** Every boundary starts a well-formed character, and the next boundary follows it. */
  lemma BoundaryStartsChar(s: Bytes, i: nat)
    requires Valid(s) && IsBoundary(s, i) && i < |s|
    ensures CharAt(s, i) && IsBoundary(s, i + CharLength(s[i]))
    ensures forall k | i < k < i + CharLength(s[i]) :: !IsBoundary(s, k)
  {
    ReachBoundary(s, 0, i);
    assert ValidFrom(s, i + CharLength(s[i]));
  }

  /** Four consecutive positions hold a boundary. */
  lemma {:induction false} BoundaryWithinFour(s: Bytes, from: nat, i: nat)
    requires ValidFrom(s, from) && from + 3 <= i <= |s|
    ensures IsBoundary(s, i) || IsBoundary(s, i - 1) || IsBoundary(s, i - 2) || IsBoundary(s, i - 3)
    decreases |s| - from
  {
    var next := from + CharLength(s[from]);
    if next + 3 <= i {
      BoundaryWithinFour(s, next, i);
    } else {
      assert ValidFrom(s, next);
      assert IsBoundary(s, next);
      if next > i { assert IsBoundary(s, i - 3); }
    }
  }

  /** Strictly between the first byte of some character and the end of that character. */
  ghost predicate InsideChar(s: Bytes, p: nat) {
    exists k: nat :: k < |s| && ValidFrom(s, k) && k < p < k + CharLength(s[k])
  }

  lemma {:induction false} InsideOrStart(s: Bytes, from: nat, p: nat)
    requires ValidFrom(s, from) && from <= p <= |s|
    ensures ValidFrom(s, p) || InsideChar(s, p)
    decreases |s| - from
  {
    if from < p {
      var next := from + CharLength(s[from]);
      if next <= p { InsideOrStart(s, next, p); }
    }
  }

  /** The one-byte test rejects exactly the offsets inside a character. */
  lemma BoundaryIsNotInside(s: Bytes, p: nat)
    requires Valid(s) && p <= |s|
    ensures IsBoundary(s, p) <==> !InsideChar(s, p)
  {
    if IsBoundary(s, p) {
      if InsideChar(s, p) {
        var k: nat :| k < |s| && ValidFrom(s, k) && k < p < k + CharLength(s[k]);
        BoundaryStartsChar(s, k);
        assert false;
      }
    } else {
      InsideOrStart(s, 0, p);
    }
  }

  // ---------------------------------------------------------------------------------------------
  // The encoding of section 3 of RFC 3629

  /** A Unicode scalar value: a code point that is no surrogate. */
  predicate Scalar(c: nat) {
    c < 0xD800 || 0xE000 <= c <= 0x10_FFFF
  }

  function Encode(c: nat): (s: Bytes)
    requires Scalar(c)
    ensures 1 <= |s| <= 4
  {
    if c < 0x80 then [c]
    else if c < 0x800 then [0xC0 + c / 64, 0x80 + c % 64]
    else if c < 0x1_0000 then [0xE0 + c / 64 / 64, 0x80 + c / 64 % 64, 0x80 + c % 64]
    else [0xF0 + c / 64 / 64 / 64, 0x80 + c / 64 / 64 % 64, 0x80 + c / 64 % 64, 0x80 + c % 64]
  }

  predicate EncodedAt(s: Bytes, i: nat, c: nat) {
    Scalar(c) && i + |Encode(c)| <= |s| && s[i..i + |Encode(c)|] == Encode(c)
  }

  /** The bytes of a scalar value are a character. */
  lemma EncodedIsChar(s: Bytes, i: nat, c: nat)
    requires EncodedAt(s, i, c)
    ensures CharAt(s, i) && CharLength(s[i]) == |Encode(c)|
  {
    var e := Encode(c);
    assert forall k | 0 <= k < |e| :: s[i + k] == e[k];
  }

  /** Every character is the encoding of a scalar value. */
  lemma CharIsEncoded(s: Bytes, i: nat) returns (c: nat)
    requires CharAt(s, i)
    ensures EncodedAt(s, i, c) && CharLength(s[i]) == |Encode(c)|
  {
    hide Encode, Scalar;
    if CharLength(s[i]) == 1 { OneByte(s[i]); }
    var n := CharLength(s[i]);
    if n == 1 {
      c := s[i];
      assert s[i..i + 1] == [s[i]];
    } else if n == 2 {
      c := TwoBytes(s[i], s[i + 1]);
      assert s[i..i + 2] == [s[i], s[i + 1]];
    } else if n == 3 {
      c := ThreeBytes(s[i], s[i + 1], s[i + 2]);
      assert s[i..i + 3] == [s[i], s[i + 1], s[i + 2]];
    } else {
      c := FourBytes(s[i], s[i + 1], s[i + 2], s[i + 3]);
      assert s[i..i + 4] == [s[i], s[i + 1], s[i + 2], s[i + 3]];
    }
  }

  lemma OneByte(c: nat)
    requires c < 0x80
    ensures Scalar(c) && Encode(c) == [c]
  {}

  lemma TwoBytes(lead: int, second: int) returns (c: nat)
    requires 0xC2 <= lead <= 0xDF && 0x80 <= second < 0xC0
    ensures Scalar(c) && Encode(c) == [lead, second]
  {
    c := More(lead - 0xC0, second - 0x80);
  }

  lemma ThreeBytes(lead: int, second: int, third: int) returns (c: nat)
    requires 0xE0 <= lead <= 0xEF && 0x80 <= second < 0xC0 && 0x80 <= third < 0xC0
    requires (lead == 0xE0 ==> second >= 0xA0) && (lead == 0xED ==> second < 0xA0)
    ensures Scalar(c) && Encode(c) == [lead, second, third]
  {
    c := More(More(lead - 0xE0, second - 0x80), third - 0x80);
  }

  lemma FourBytes(lead: int, second: int, third: int, fourth: int) returns (c: nat)
    requires 0xF0 <= lead <= 0xF4 && 0x80 <= second < 0xC0 && 0x80 <= third < 0xC0 && 0x80 <= fourth < 0xC0
    requires (lead == 0xF0 ==> second >= 0x90) && (lead == 0xF4 ==> second < 0x90)
    ensures Scalar(c) && Encode(c) == [lead, second, third, fourth]
  {
    c := More(More(More(lead - 0xF0, second - 0x80), third - 0x80), fourth - 0x80);
  }

  /** Six more bits. */
  function More(high: nat, low: nat): (c: nat)
    requires low < 64
    ensures c / 64 == high && c % 64 == low && c == high * 64 + low
  {
    high * 64 + low
  }

  function Encoded(text: seq<nat>): Bytes
    requires forall c | c in text :: Scalar(c)
  {
    if text == [] then [] else Encode(text[0]) + Encoded(text[1..])
  }

  /** Valid bytes are exactly the encodings of texts. */
  lemma {:induction false} ValidIsEncoded(s: Bytes, i: nat) returns (text: seq<nat>)
    requires ValidFrom(s, i) && i <= |s|
    ensures (forall c | c in text :: Scalar(c)) && s[i..] == Encoded(text)
    decreases |s| - i
  {
    if i == |s| {
      text := [];
    } else {
      var c := CharIsEncoded(s, i);
      var next := i + CharLength(s[i]);
      var rest := ValidIsEncoded(s, next);
      text := [c] + rest;
      assert text[1..] == rest && s[i..] == s[i..next] + s[next..];
    }
  }

  lemma FirstInPlace(s: Bytes, i: nat, first: Bytes, rest: Bytes)
    requires i <= |s| && s[i..] == first + rest
    ensures i + |first| <= |s| && s[i..i + |first|] == first && s[i + |first|..] == rest
  {
    assert s[i..][..|first|] == first && s[i..][|first|..] == rest;
  }

  lemma {:induction false} EncodedIsValid(s: Bytes, i: nat, text: seq<nat>)
    requires (forall c | c in text :: Scalar(c)) && i <= |s| && s[i..] == Encoded(text)
    ensures ValidFrom(s, i)
    decreases |text|
  {
    hide Encode, Scalar, CharAt, CharLength;
    if text != [] {
      FirstInPlace(s, i, Encode(text[0]), Encoded(text[1..]));
      EncodedIsChar(s, i, text[0]);
      EncodedIsValid(s, i + |Encode(text[0])|, text[1..]);
    }
  }
}
