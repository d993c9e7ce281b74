/** UTF-8 as defined by RFC 3629: the byte sequences of section 4 and the characters of section 3. */
module Utf8 {
  type byte = b: int | 0 <= b < 256
  type bytes = seq<byte>
  type CodePoint = nat

  /** A continuation byte: its two highest bits are 10. */
  predicate IsTail(b: byte) {
    b / 64 == 2
  }

  /** The number of bytes of the character at the front, or 0 when no well-formed character starts there. */
  function CharLength(s: bytes): (n: nat)
    ensures n <= |s| && n <= 4
  {
    if |s| >= 1 && s[0] <= 0x7F then 1
    else if |s| >= 2 && 0xC2 <= s[0] <= 0xDF && IsTail(s[1]) then 2
    else if |s| >= 3 && IsTail(s[1]) && IsTail(s[2])
            && ((s[0] == 0xE0 && s[1] >= 0xA0) || 0xE1 <= s[0] <= 0xEC || (s[0] == 0xED && s[1] <= 0x9F)
                || 0xEE <= s[0] <= 0xEF) then 3
    else if |s| >= 4 && IsTail(s[1]) && IsTail(s[2]) && IsTail(s[3])
            && ((s[0] == 0xF0 && s[1] >= 0x90) || 0xF1 <= s[0] <= 0xF3 || (s[0] == 0xF4 && s[1] <= 0x8F)) then 4
    else 0
  }

  /** A character starts with a byte that is no continuation and goes on with continuation bytes only. */
  lemma CharShape(s: bytes, k: nat)
    requires k < CharLength(s)
    ensures IsTail(s[k]) <==> k > 0
  {}

  /** The low bits of a byte: its value modulo a power of two. */
  function Low(b: byte, m: nat): nat
    requires m > 0
  {
    b % m
  }

  /** The value of the character at the front. */
  function CharValue(s: bytes): CodePoint
    requires CharLength(s) > 0
  {
    match CharLength(s)
    case 1 => s[0]
    case 2 => Low(s[0], 32) * 64 + Low(s[1], 64)
    case 3 => (Low(s[0], 16) * 64 + Low(s[1], 64)) * 64 + Low(s[2], 64)
    case _ => ((Low(s[0], 8) * 64 + Low(s[1], 64)) * 64 + Low(s[2], 64)) * 64 + Low(s[3], 64)
  }

  /** A sequence of well-formed characters. */
  predicate WellFormed(s: bytes) {
    s == [] || (CharLength(s) > 0 && WellFormed(s[CharLength(s)..]))
  }

  function Decode(s: bytes): seq<CodePoint>
    requires WellFormed(s)
  {
    if s == [] then [] else [CharValue(s)] + Decode(s[CharLength(s)..])
  }

  /** A position at which a character starts, or the end. */
  predicate IsBoundary(s: bytes, p: nat)
    requires p <= |s|
  {
    p < |s| ==> !IsTail(s[p])
  }

  /** One well-formed character and nothing else. */
  predicate IsChar(c: bytes) {
    c != [] && CharLength(c) == |c|
  }

  /** The character at the front depends on nothing behind it. */
  lemma FirstChar(s: bytes)
    requires CharLength(s) > 0
    ensures var c := s[..CharLength(s)];
            IsChar(c) && CharValue(c) == CharValue(s)
  {}

  lemma CharInFront(c: bytes, rest: bytes)
    requires IsChar(c)
    ensures CharLength(c + rest) == |c| && CharValue(c + rest) == CharValue(c)
  {}

  /** Putting a character in front of well-formed text. */
  lemma Prepend(c: bytes, rest: bytes)
    requires IsChar(c) && WellFormed(rest)
    ensures WellFormed(c + rest) && Decode(c + rest) == [CharValue(c)] + Decode(rest)
  {
    CharInFront(c, rest);
    assert (c + rest)[|c|..] == rest;
    assert c + rest != [];
  }

  /** Text that is not empty starts with a character. */
  lemma Uncons(s: bytes) returns (c: bytes, rest: bytes)
    requires WellFormed(s) && s != []
    ensures IsChar(c) && WellFormed(rest) && s == c + rest
    ensures |c| == CharLength(s) && Decode(s) == [CharValue(c)] + Decode(rest)
  {
    FirstChar(s);
    c, rest := s[..CharLength(s)], s[CharLength(s)..];
  }

  lemma Reassociate<T>(a: seq<T>, b: seq<T>, c: seq<T>)
    ensures a + b + c == a + (b + c)
  {}

  lemma PrependTo(c: bytes, rest: bytes, text: bytes)
    requires IsChar(c) && WellFormed(rest) && text == c + rest
    ensures WellFormed(text) && Decode(text) == [CharValue(c)] + Decode(rest)
  {
    Prepend(c, rest);
  }

  /** Well-formed texts concatenate, and so do their characters. */
  lemma {:induction false} JoinWellFormed(a: bytes, b: bytes)
    requires WellFormed(a) && WellFormed(b)
    ensures WellFormed(a + b) && Decode(a + b) == Decode(a) + Decode(b)
    decreases |a|
  {
    if a == [] {
      assert a + b == b;
    } else {
      var c, rest := Uncons(a);
      JoinWellFormed(rest, b);
      Reassociate(c, rest, b);
      PrependTo(c, rest + b, a + b);
      Reassociate([CharValue(c)], Decode(rest), Decode(b));
    }
  }

  /** Cutting behind the first character leaves what cutting the rest leaves, with the character in front. */
  lemma CutBehind(c: bytes, rest: bytes, q: nat)
    requires q <= |rest|
    ensures (c + rest)[..|c| + q] == c + rest[..q] && (c + rest)[|c| + q..] == rest[q..]
  {}

  lemma BoundaryBehind(c: bytes, rest: bytes, p: nat)
    requires IsChar(c) && 0 < p <= |c + rest| && IsBoundary(c + rest, p)
    ensures |c| <= p && IsBoundary(rest, p - |c|)
  {
    CharInFront(c, rest);
    if p < |c| {
      CharShape(c + rest, p);
    }
  }

  /** Cutting well-formed text at a boundary leaves two well-formed texts. */
  lemma {:induction false} CutAtBoundary(s: bytes, p: nat)
    requires WellFormed(s) && p <= |s| && IsBoundary(s, p)
    ensures WellFormed(s[..p]) && WellFormed(s[p..])
    decreases |s|
  {
    if p == 0 {
      assert s[..p] == [] && s[p..] == s;
    } else {
      var c, rest := Uncons(s);
      BoundaryBehind(c, rest, p);
      var q := p - |c|;
      CutAtBoundary(rest, q);
      CutBehind(c, rest, q);
      Prepend(c, rest[..q]);
    }
  }

  /** A boundary is never more than three bytes back. */
  lemma {:induction false} BoundaryNearby(s: bytes, p: nat) returns (q: nat)
    requires WellFormed(s) && p <= |s|
    ensures q <= p <= q + 3 && IsBoundary(s, q)
  {
    if p == 0 {
      q := 0;
    } else {
      var n := CharLength(s);
      CharShape(s, 0);
      if p < n {
        q := 0;
      } else {
        var r := BoundaryNearby(s[n..], p - n);
        q := n + r;
      }
    }
  }

  // ---------------------------------------------------------------- encoding

  /** A character number that UTF-8 can encode: up to 0x10FFFF and no surrogate. */
  predicate IsScalar(c: CodePoint) {
    c < 0xD800 || 0xE000 <= c <= 0x10FFFF
  }

  /** The bytes of a character (section 3 of RFC 3629). */
  function EncodeChar(c: CodePoint): bytes
    requires IsScalar(c)
  {
    if c < 0x80 then [c]
    else if c < 0x800 then [0xC0 + c / 64, 0x80 + c % 64]
    else if c < 0x10000 then [0xE0 + c / 64 / 64, 0x80 + c / 64 % 64, 0x80 + c % 64]
    else [0xF0 + c / 64 / 64 / 64, 0x80 + c / 64 / 64 % 64, 0x80 + c / 64 % 64, 0x80 + c % 64]
  }

  lemma Digits(high: nat, low: nat)
    requires low < 64
    ensures (high * 64 + low) / 64 == high && (high * 64 + low) % 64 == low
  {}

  lemma EncodedCharIsChar(c: CodePoint)
    requires IsScalar(c)
    ensures IsChar(EncodeChar(c)) && CharValue(EncodeChar(c)) == c
  {
    var s := EncodeChar(c);
    if 0x80 <= c < 0x800 {
      EncodedLows(s[0], c / 64, 32, 0xC0);
    } else if 0x800 <= c < 0x10000 {
      EncodedLows(s[0], c / 64 / 64, 16, 0xE0);
    } else if c >= 0x10000 {
      EncodedLows(s[0], c / 64 / 64 / 64, 8, 0xF0);
    }
  }

  lemma EncodedLows(b: byte, high: nat, m: nat, mark: nat)
    requires (m == 32 && mark == 0xC0) || (m == 16 && mark == 0xE0) || (m == 8 && mark == 0xF0)
    requires high < m && b == mark + high
    ensures Low(b, m) == high
  {}

  lemma FrontOfTwo(s: bytes)
    requires CharLength(s) == 2
    ensures IsScalar(CharValue(s)) && EncodeChar(CharValue(s)) == s[..2]
  {
    Digits(Low(s[0], 32), Low(s[1], 64));
  }

  lemma FrontOfThree(s: bytes)
    requires CharLength(s) == 3
    ensures IsScalar(CharValue(s)) && EncodeChar(CharValue(s)) == s[..3]
  {
    Digits(Low(s[0], 16), Low(s[1], 64));
    Digits(Low(s[0], 16) * 64 + Low(s[1], 64), Low(s[2], 64));
  }

  lemma FrontOfFour(s: bytes)
    requires CharLength(s) == 4
    ensures IsScalar(CharValue(s)) && EncodeChar(CharValue(s)) == s[..4]
  {
    Digits(Low(s[0], 8), Low(s[1], 64));
    Digits(Low(s[0], 8) * 64 + Low(s[1], 64), Low(s[2], 64));
    Digits((Low(s[0], 8) * 64 + Low(s[1], 64)) * 64 + Low(s[2], 64), Low(s[3], 64));
  }

  /** Every character at the front of a text is the encoding of its value: there are no overlong forms. */
  lemma FrontIsEncoded(s: bytes)
    requires CharLength(s) > 0
    ensures IsScalar(CharValue(s)) && EncodeChar(CharValue(s)) == s[..CharLength(s)]
  {
    match CharLength(s) {
      case 1 =>
      case 2 => FrontOfTwo(s);
      case 3 => FrontOfThree(s);
      case _ => FrontOfFour(s);
    }
  }

  function Encode(cs: seq<CodePoint>): bytes
    requires forall i :: 0 <= i < |cs| ==> IsScalar(cs[i])
  {
    if cs == [] then [] else EncodeChar(cs[0]) + Encode(cs[1..])
  }

  /** Decoding undoes encoding. */
  lemma {:induction false} DecodeEncoded(cs: seq<CodePoint>)
    requires forall i :: 0 <= i < |cs| ==> IsScalar(cs[i])
    ensures WellFormed(Encode(cs)) && Decode(Encode(cs)) == cs
  {
    if cs != [] {
      DecodeEncoded(cs[1..]);
      EncodedCharIsChar(cs[0]);
      Prepend(EncodeChar(cs[0]), Encode(cs[1..]));
    }
  }

  lemma EncodeFront(c: CodePoint, cs: seq<CodePoint>)
    requires IsScalar(c) && forall i :: 0 <= i < |cs| ==> IsScalar(cs[i])
    ensures forall i :: 0 <= i < |[c] + cs| ==> IsScalar(([c] + cs)[i])
    ensures Encode([c] + cs) == EncodeChar(c) + Encode(cs)
  {
    assert ([c] + cs)[1..] == cs;
  }

  /** Encoding undoes decoding, so the well-formed texts are exactly the encodings. */
  lemma {:induction false} EncodeDecoded(s: bytes)
    requires WellFormed(s)
    ensures forall i :: 0 <= i < |Decode(s)| ==> IsScalar(Decode(s)[i])
    ensures Encode(Decode(s)) == s
    decreases |s|
  {
    if s != [] {
      var c, rest := Uncons(s);
      FrontIsEncoded(c);
      assert c[..|c|] == c;
      EncodeDecoded(rest);
      EncodeFront(CharValue(c), Decode(rest));
    }
  }
}
