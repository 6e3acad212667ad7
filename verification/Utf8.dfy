/** Well-formed UTF-8 (The Unicode Standard, section 3.9, table 3-7), which is what Python's strict decoder accepts. */
module Utf8 {
  import opened Bytes

  /** The bytes that follow the first byte of a character. */
  predicate Tail(b: int) { 0x80 <= b <= 0xBF }

  /** The second byte of a character of three bytes: no overlong form and no surrogate. */
  predicate Second3(a: int, b: int) {
    if a == 0xE0 then 0xA0 <= b <= 0xBF else if a == 0xED then 0x80 <= b <= 0x9F else Tail(b)
  }

  /** The second byte of a character of four bytes: no overlong form and nothing beyond U+10FFFF. */
  predicate Second4(a: int, b: int) {
    if a == 0xF0 then 0x90 <= b <= 0xBF else if a == 0xF4 then 0x80 <= b <= 0x8F else Tail(b)
  }

  /** Byte k of s as a number, or -1 behind its end. */
  function At(s: seq<byte>, k: nat): (x: int)
    ensures x < 256
  {
    if k < |s| then FromByte(s[k]) else -1
  }

  /** The number of bytes of the character at the start of s, or 0 if there is none. */
  function CharLen(s: seq<byte>): (n: nat)
    ensures n <= |s|
  {
    if s == [] then 0
    else if At(s, 0) <= 0x7F then 1
    else if 0xC2 <= At(s, 0) <= 0xDF && Tail(At(s, 1)) then 2
    else if 0xE0 <= At(s, 0) <= 0xEF && Second3(At(s, 0), At(s, 1)) && Tail(At(s, 2)) then 3
    else if 0xF0 <= At(s, 0) <= 0xF4 && Second4(At(s, 0), At(s, 1)) && Tail(At(s, 2)) && Tail(At(s, 3)) then 4
    else 0
  }

  /** Is the whole of s a sequence of characters? */
  predicate Decodes(s: seq<byte>) {
    s == [] || (CharLen(s) > 0 && Decodes(s[CharLen(s)..]))
  }

  // ---- the characters --------------------------------------------------------------------------------

  /** The code points that have an encoding: all but the surrogates. */
  type Scalar = c: int | 0 <= c < 0xD800 || 0xE000 <= c <= 0x10_FFFF

  /** The bytes of a code point, as numbers. */
  function Codes(c: Scalar): (bs: seq<int>)
    ensures 0 < |bs| <= 4 && forall k :: 0 <= k < |bs| ==> 0 <= bs[k] < 256
  {
    if c < 0x80 then [c]
    else if c < 0x800 then [0xC0 + c / 0x40, 0x80 + c % 0x40]
    else if c < 0x1_0000 then [0xE0 + c / 0x1000, 0x80 + c / 0x40 % 0x40, 0x80 + c % 0x40]
    else [0xF0 + c / 0x4_0000, 0x80 + c / 0x1000 % 0x40, 0x80 + c / 0x40 % 0x40, 0x80 + c % 0x40]
  }

  /** The encoding of a code point. */
  function Encode(c: Scalar): (s: seq<byte>)
    ensures |s| == |Codes(c)| && forall k :: 0 <= k < |s| ==> FromByte(s[k]) == Codes(c)[k]
  {
    var bs := Codes(c);
    var s := seq(|bs|, k requires 0 <= k < |bs| => ToByte(bs[k]));
    assert forall k :: 0 <= k < |s| ==> FromByte(s[k]) == bs[k] by {
      forall k | 0 <= k < |s| ensures FromByte(s[k]) == bs[k] { ByteRoundTrip(bs[k]); }
    }
    s
  }

  /** The encoding of a text. */
  function EncodeAll(cs: seq<Scalar>): seq<byte> {
    if cs == [] then [] else Encode(cs[0]) + EncodeAll(cs[1..])
  }

  /** The encoding of a code point, and whatever follows it, starts with that character. */
  lemma EncodedChar(c: Scalar, rest: seq<byte>)
    ensures CharLen(Encode(c) + rest) == |Encode(c)|
  {
    hide FromByte, ToByte, Encode;
    var s := Encode(c) + rest;
    forall k: nat | k < |Encode(c)| ensures At(s, k) == Codes(c)[k] { assert s[k] == Encode(c)[k]; }
  }

  /** The code point of the character at the start of s. */
  function CodeOf(s: seq<byte>): int
    requires CharLen(s) > 0
  {
    var n := CharLen(s);
    if n == 1 then At(s, 0)
    else if n == 2 then (At(s, 0) - 0xC0) * 0x40 + At(s, 1) - 0x80
    else if n == 3 then (At(s, 0) - 0xE0) * 0x1000 + (At(s, 1) - 0x80) * 0x40 + At(s, 2) - 0x80
    else (At(s, 0) - 0xF0) * 0x4_0000 + (At(s, 1) - 0x80) * 0x1000 + (At(s, 2) - 0x80) * 0x40 + At(s, 3) - 0x80
  }

  /** A character at the start of s is the encoding of a code point. */
  lemma CharEncoded(s: seq<byte>) returns (c: Scalar)
    requires CharLen(s) > 0
    ensures s[..CharLen(s)] == Encode(c)
  {
    hide FromByte, ToByte, Encode;
    var n := CharLen(s);
    CodeBytes(s);
    c := CodeOf(s);
    forall k | 0 <= k < n
      ensures s[k] == Encode(c)[k]
    {
      FromByteUnique(s[k], Encode(c)[k]);
    }
  }

  lemma Split64(x: nat, y: nat)
    requires y < 0x40
    ensures (x * 0x40 + y) / 0x40 == x && (x * 0x40 + y) % 0x40 == y
  {
  }

  lemma TwoBytes(a: int, b: int)
    requires 0xC2 <= a <= 0xDF && Tail(b)
    ensures var c := (a - 0xC0) * 0x40 + b - 0x80; 0x80 <= c < 0x800 && Codes(c) == [a, b]
  {
    Split64(a - 0xC0, b - 0x80);
  }

  lemma ThreeBytes(a: int, b: int, d: int)
    requires 0xE0 <= a <= 0xEF && Second3(a, b) && Tail(d)
    ensures var c := (a - 0xE0) * 0x1000 + (b - 0x80) * 0x40 + d - 0x80;
      0x800 <= c < 0x1_0000 && (c < 0xD800 || 0xE000 <= c) && Codes(c) == [a, b, d]
  {
    var x := (a - 0xE0) * 0x40 + b - 0x80;
    Split64(a - 0xE0, b - 0x80);
    Split64(x, d - 0x80);
    var c := x * 0x40 + d - 0x80;
    assert c / 0x1000 == c / 0x40 / 0x40;
  }

  lemma FourBytes(a: int, b: int, d: int, e: int)
    requires 0xF0 <= a <= 0xF4 && Second4(a, b) && Tail(d) && Tail(e)
    ensures var c := (a - 0xF0) * 0x4_0000 + (b - 0x80) * 0x1000 + (d - 0x80) * 0x40 + e - 0x80;
      0x1_0000 <= c <= 0x10_FFFF && Codes(c) == [a, b, d, e]
  {
    var x := (a - 0xF0) * 0x40 + b - 0x80;
    var y := x * 0x40 + d - 0x80;
    Split64(a - 0xF0, b - 0x80);
    Split64(x, d - 0x80);
    Split64(y, e - 0x80);
    var c := y * 0x40 + e - 0x80;
    assert c / 0x1000 == c / 0x40 / 0x40 && c / 0x4_0000 == c / 0x40 / 0x40 / 0x40;
  }

  lemma CodeBytes(s: seq<byte>)
    requires CharLen(s) > 0
    ensures var c := CodeOf(s); (0 <= c < 0xD800 || 0xE000 <= c <= 0x10_FFFF) && |Codes(c)| == CharLen(s)
    ensures forall k :: 0 <= k < CharLen(s) ==> Codes(CodeOf(s))[k] == FromByte(s[k])
  {
    hide FromByte, Codes;
    var n, a, b, d, e := CharLen(s), At(s, 0), At(s, 1), At(s, 2), At(s, 3);
    if n == 1 { OneByte(a); }
    if n == 2 { TwoBytes(a, b); }
    if n == 3 { ThreeBytes(a, b, d); }
    if n == 4 { FourBytes(a, b, d, e); }
  }

  lemma OneByte(a: int)
    requires 0 <= a <= 0x7F
    ensures Codes(a) == [a]
  {
  }

  /** What the decoder accepts is what some text encodes to. */
  lemma {:induction false} DecodesEncoded(s: seq<byte>) returns (cs: seq<Scalar>)
    requires Decodes(s)
    ensures EncodeAll(cs) == s
    decreases |s|
  {
    hide Encode, CharLen, Codes;
    cs := [];
    if s != [] {
      var n := CharLen(s);
      var c := CharEncoded(s);
      cs := DecodesEncoded(s[n..]);
      assert ([c] + cs)[1..] == cs && s == s[..n] + s[n..];
      cs := [c] + cs;
    }
  }

  lemma {:induction false} EncodedDecodes(cs: seq<Scalar>)
    ensures Decodes(EncodeAll(cs))
  {
    hide Encode, CharLen;
    if cs != [] {
      var rest := EncodeAll(cs[1..]);
      EncodedDecodes(cs[1..]);
      EncodedChar(cs[0], rest);
      assert (Encode(cs[0]) + rest)[|Encode(cs[0])|..] == rest;
      NotEmpty(cs[0]);
    }
  }

  lemma NotEmpty(c: Scalar)
    ensures |Encode(c)| > 0
  {
  }

  /** The bytes that the decoder accepts are exactly the encodings of texts. */
  lemma DecodesIff(s: seq<byte>)
    ensures Decodes(s) <==> exists cs: seq<Scalar> :: EncodeAll(cs) == s
  {
    hide Decodes, EncodeAll;
    if Decodes(s) { var cs := DecodesEncoded(s); }
    forall cs: seq<Scalar> | EncodeAll(cs) == s ensures Decodes(s) { EncodedDecodes(cs); }
  }

  // ---- two simple cases ---------------------------------------------------------------------------------

  /** Plain ASCII is well formed, zero bytes included. */
  lemma {:induction false} AsciiDecodes(s: seq<byte>)
    requires forall i :: 0 <= i < |s| ==> FromByte(s[i]) <= 0x7F
    ensures Decodes(s)
  {
    hide FromByte;
    if s != [] { AsciiDecodes(s[1..]); }
  }

  /** A byte that starts no character, after plain ASCII, is not. */
  lemma {:induction false} StrayByte(s: seq<byte>, k: nat)
    requires k < |s| && (forall i :: 0 <= i < k ==> FromByte(s[i]) <= 0x7F) && CharLen(s[k..]) == 0
    ensures !Decodes(s)
    decreases k
  {
    hide FromByte;
    if k > 0 {
      assert s[1..][k - 1..] == s[k..];
      StrayByte(s[1..], k - 1);
    } else {
      assert s[0..] == s;
    }
  }
}
