/** Which chunks have their usage numbers looked at (src/localgateway/streaming.py:92-100): those that are
    UTF-8 as RFC 3629 encodes it, and mention usage. */
module Utf8Laws {
  import opened Sequences
  import opened Sse
  import opened ReasoningStream
  import opened ReasoningLaws
  import opened UsageShift

  /** What UTF-8 encodes: a code point that is no surrogate. */
  predicate Scalar(cp: int) {
    0 <= cp < 0xD800 || 0xE000 <= cp < 0x110000
  }

  predicate Scalars(cps: seq<int>) {
    forall i :: 0 <= i < |cps| ==> Scalar(cps[i])
  }

  /** Section 3 of RFC 3629. */
  function Encoded(cp: int): Bytes
    requires Scalar(cp)
  {
    if cp < 0x80 then [cp as byte]
    else if cp < 0x800 then [(0xC0 + cp / 0x40) as byte, (0x80 + cp % 0x40) as byte]
    else if cp < 0x10000 then
      [(0xE0 + cp / 0x1000) as byte, (0x80 + cp / 0x40 % 0x40) as byte, (0x80 + cp % 0x40) as byte]
    else
      [(0xF0 + cp / 0x40000) as byte, (0x80 + cp / 0x1000 % 0x40) as byte, (0x80 + cp / 0x40 % 0x40) as byte,
       (0x80 + cp % 0x40) as byte]
  }

  function EncodedAll(cps: seq<int>): Bytes
    requires Scalars(cps)
  {
    if cps == [] then [] else Encoded(cps[0]) + EncodedAll(cps[1..])
  }

  lemma EncodedHasLength(cp: int, rest: Bytes)
    requires Scalar(cp)
    ensures CharLength(Encoded(cp) + rest) == |Encoded(cp)|
  {
    var s := Encoded(cp) + rest;
    if cp < 0x80 {
      assert s[0] < 0x80;
    } else if cp < 0x800 {
      assert 0xC2 <= s[0] < 0xE0 && Continuation(s[1]);
    } else if cp < 0x10000 {
      assert 0xE0 <= s[0] < 0xF0 && Continuation(s[1]) && Continuation(s[2]);
    } else {
      assert 0xF0 <= s[0] < 0xF5 && Continuation(s[1]) && Continuation(s[2]) && Continuation(s[3]);
    }
  }

  lemma {:induction false} EncodedIsUtf8(cps: seq<int>)
    requires Scalars(cps)
    ensures Utf8(EncodedAll(cps))
  {
    if cps == [] {
    } else {
      var head, rest := Encoded(cps[0]), EncodedAll(cps[1..]);
      EncodedIsUtf8(cps[1..]);
      EncodedHasLength(cps[0], rest);
      assert (head + rest)[|head|..] == rest;
    }
  }

  /** The code point of the first character. */
  function Decoded(s: Bytes): int
    requires CharLength(s) > 0
  {
    match CharLength(s)
    case 1 => s[0] as int
    case 2 => (s[0] as int - 0xC0) * 0x40 + (s[1] as int - 0x80)
    case 3 => (s[0] as int - 0xE0) * 0x1000 + (s[1] as int - 0x80) * 0x40 + (s[2] as int - 0x80)
    case _ =>
      (s[0] as int - 0xF0) * 0x40000 + (s[1] as int - 0x80) * 0x1000
      + (s[2] as int - 0x80) * 0x40 + (s[3] as int - 0x80)
  }

  /** The digits of a number to the base of 64. */
  lemma Digits(a: int, b: int, c: int, d: int)
    requires 0 <= b < 0x40 && 0 <= c < 0x40 && 0 <= d < 0x40
    ensures var x := a * 0x40 + b; x / 0x40 == a && x % 0x40 == b
    ensures var x := a * 0x1000 + b * 0x40 + c; x / 0x1000 == a && x / 0x40 % 0x40 == b && x % 0x40 == c
    ensures var x := a * 0x40000 + b * 0x1000 + c * 0x40 + d;
      x / 0x40000 == a && x / 0x1000 % 0x40 == b && x / 0x40 % 0x40 == c && x % 0x40 == d
  {
  }

  lemma DecodedIsScalar(s: Bytes)
    requires CharLength(s) > 0
    ensures var cp := Decoded(s);
      && Scalar(cp)
      && match CharLength(s)
         case 1 => cp < 0x80
         case 2 => 0x80 <= cp < 0x800
         case 3 => 0x800 <= cp < 0x10000
         case _ => 0x10000 <= cp
  {
  }

  lemma DecodedEncodes(s: Bytes)
    requires CharLength(s) > 0
    ensures Scalar(Decoded(s)) && Encoded(Decoded(s)) == s[..CharLength(s)]
  {
    DecodedIsScalar(s);
    match CharLength(s) {
      case 1 =>
      case 2 => Digits(s[0] as int - 0xC0, s[1] as int - 0x80, 0, 0);
      case 3 => Digits(s[0] as int - 0xE0, s[1] as int - 0x80, s[2] as int - 0x80, 0);
      case _ => Digits(s[0] as int - 0xF0, s[1] as int - 0x80, s[2] as int - 0x80, s[3] as int - 0x80);
    }
  }

  lemma EncodedCons(cp: int, cps: seq<int>)
    requires Scalar(cp) && Scalars(cps)
    ensures Scalars([cp] + cps) && EncodedAll([cp] + cps) == Encoded(cp) + EncodedAll(cps)
  {
    assert ([cp] + cps)[1..] == cps;
  }

  lemma FirstCharacter(s: Bytes) returns (cp: int, n: nat)
    requires Utf8(s) && s != []
    ensures 0 < n <= |s| && Scalar(cp) && Utf8(s[n..]) && s == Encoded(cp) + s[n..]
  {
    n, cp := CharLength(s), Decoded(s);
    DecodedEncodes(s);
    assert s == s[..n] + s[n..];
  }

  lemma {:induction false} Utf8IsEncoded(s: Bytes) returns (cps: seq<int>)
    requires Utf8(s)
    ensures Scalars(cps) && EncodedAll(cps) == s
    decreases |s|
  {
    cps := [];
    if s != [] {
      var cp, n := FirstCharacter(s);
      cps := Utf8IsEncoded(s[n..]);
      EncodedCons(cp, cps);
      cps := [cp] + cps;
    }
  }

  /** Some code points are encoded as these bytes. */
  ghost predicate WellFormed(s: Bytes) {
    exists cps :: Scalars(cps) && EncodedAll(cps) == s
  }

  /** A chunk is decoded exactly when it encodes some code points, surrogates excepted. */
  lemma Utf8Exactly(s: Bytes)
    ensures Utf8(s) <==> WellFormed(s)
  {
    if Utf8(s) {
      var cps := Utf8IsEncoded(s);
    }
    if WellFormed(s) {
      var cps :| Scalars(cps) && EncodedAll(cps) == s;
      EncodedIsUtf8(cps);
    }
  }

  /** And it is looked at exactly when, besides, it holds the bytes of `"usage"`, quotes and all. */
  lemma InspectedExactly(chunk: Bytes)
    ensures Inspected(chunk)
      <==> WellFormed(chunk) && exists i :: StandsAt(chunk, [34, 117, 115, 97, 103, 101, 34], i)
  {
    Utf8Exactly(chunk);
    ContainsExactly(chunk, USAGE);
  }
}
