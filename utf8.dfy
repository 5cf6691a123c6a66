/** UTF-8 as defined in section 3 of RFC 3629: the byte form that
    `Buffer.from(string)` and `encodeURIComponent` give a text. A Dafny
    `char` is a Unicode scalar value, so every text has an encoding. */
module Utf8 {
  import opened Wrappers

  type Byte = b: int | 0 <= b < 256

  /** The continuation byte carrying the six bits `x % 64`. */
  function Cont(x: int): Byte
    requires x >= 0
  {
    0x80 + x % 64
  }

  /** The one to four bytes of one scalar value. */
  function EncodeChar(c: char): (r: seq<Byte>)
    ensures 1 <= |r| <= 4
    ensures |r| == 1 <==> (c as int) < 0x80
  {
    var v := c as int;
    if v < 0x80 then [v]
    else if v < 0x800 then [0xC0 + v / 64, Cont(v)]
    else if v < 0x10000 then [0xE0 + v / 4096, Cont(v / 64), Cont(v)]
    else [0xF0 + v / 262144, Cont(v / 4096), Cont(v / 64), Cont(v)]
  }

  /** The encoding of a text: the encodings of its characters in order. */
  function Encode(s: string): (r: seq<Byte>)
    ensures |r| >= |s|
  {
    if s == [] then [] else EncodeChar(s[0]) + Encode(s[1..])
  }

  lemma {:induction false} EncodeAppend(a: string, b: string)
    ensures Encode(a + b) == Encode(a) + Encode(b)
  {
    if a != [] {
      assert (a + b)[0] == a[0] && (a + b)[1..] == a[1..] + b;
      EncodeAppend(a[1..], b);
      assert Encode(a + b) == EncodeChar(a[0]) + (Encode(a[1..]) + Encode(b));
    } else {
      assert a + b == b;
    }
  }

  /** ASCII text is its own encoding. */
  lemma {:induction false} EncodeAscii(s: string)
    requires forall i :: 0 <= i < |s| ==> (s[i] as int) < 0x80
    ensures |Encode(s)| == |s|
    ensures forall i :: 0 <= i < |s| ==> Encode(s)[i] == s[i] as int
  {
    if s != [] {
      EncodeAscii(s[1..]);
      assert Encode(s) == EncodeChar(s[0]) + Encode(s[1..]);
      assert |EncodeChar(s[0])| == 1;
    }
  }

  predicate IsCont(b: Byte) {
    0x80 <= b < 0xC0
  }

  /** A scalar value: not a surrogate, at most U+10FFFF. */
  predicate IsScalar(v: int) {
    0 <= v < 0xD800 || 0xE000 <= v < 0x110000
  }

  /** The scalar value that starts at `b[i]` and the number of its bytes, for
      a well-formed sequence: no overlong form, no surrogate, nothing past
      U+10FFFF. */
  function DecodeAt(b: seq<Byte>, i: nat): (r: Option<(char, nat)>)
    requires i < |b|
    ensures r.Some? ==> 1 <= r.value.1 && i + r.value.1 <= |b|
  {
    var b0: int := b[i];
    if b0 < 0x80 then Some((b0 as char, 1))
    else if 0xC2 <= b0 < 0xE0 && i + 1 < |b| && IsCont(b[i + 1]) then
      var b1: int := b[i + 1];
      Some((((b0 - 0xC0) * 64 + (b1 - 0x80)) as char, 2))
    else if 0xE0 <= b0 < 0xF0 && i + 2 < |b| && IsCont(b[i + 1]) && IsCont(b[i + 2]) then
      var b1: int, b2: int := b[i + 1], b[i + 2];
      var v := (b0 - 0xE0) * 4096 + (b1 - 0x80) * 64 + (b2 - 0x80);
      if 0x800 <= v && IsScalar(v) then Some((v as char, 3)) else None
    else if 0xF0 <= b0 < 0xF5 && i + 3 < |b| && IsCont(b[i + 1]) && IsCont(b[i + 2]) && IsCont(b[i + 3]) then
      var b1: int, b2: int, b3: int := b[i + 1], b[i + 2], b[i + 3];
      var v := (b0 - 0xF0) * 262144 + (b1 - 0x80) * 4096 + (b2 - 0x80) * 64 + (b3 - 0x80);
      if 0x10000 <= v < 0x110000 then Some((v as char, 4)) else None
    else None
  }

  /** The text a well-formed byte sequence encodes, from `b[i]` on. */
  function DecodeFrom(b: seq<Byte>, i: nat): Option<string>
    requires i <= |b|
    decreases |b| - i
  {
    if i == |b| then Some([])
    else match DecodeAt(b, i)
      case None => None
      case Some((c, n)) =>
        match DecodeFrom(b, i + n)
        case None => None
        case Some(rest) => Some([c] + rest)
  }

  function Decode(b: seq<Byte>): Option<string> {
    DecodeFrom(b, 0)
  }

  /** One character's bytes, followed by anything, decode back to it. */
  lemma DecodeEncodedChar(c: char, rest: seq<Byte>)
    ensures DecodeAt(EncodeChar(c) + rest, 0) == Some((c, |EncodeChar(c)|))
  {
    var v := c as int;
    if v < 0x80 {
    } else if v < 0x800 {
      DecodeTwo(c, rest);
    } else if v < 0x10000 {
      DecodeThree(c, rest);
    } else {
      DecodeFour(c, rest);
    }
  }

  lemma DecodeTwo(c: char, rest: seq<Byte>)
    requires 0x80 <= c as int < 0x800
    ensures DecodeAt(EncodeChar(c) + rest, 0) == Some((c, 2))
  {
    var v := c as int;
    var b := EncodeChar(c) + rest;
    var b0: int, b1: int := b[0], b[1];
    assert b0 == 0xC0 + v / 64 && b1 == 0x80 + v % 64;
    assert (b0 - 0xC0) * 64 + (b1 - 0x80) == v;
  }

  lemma DecodeThree(c: char, rest: seq<Byte>)
    requires 0x800 <= c as int < 0x10000
    ensures DecodeAt(EncodeChar(c) + rest, 0) == Some((c, 3))
  {
    var v := c as int;
    var b := EncodeChar(c) + rest;
    var b0: int, b1: int, b2: int := b[0], b[1], b[2];
    var hi, mid, lo := v / 4096, (v / 64) % 64, v % 64;
    assert b0 == 0xE0 + hi && b1 == 0x80 + mid && b2 == 0x80 + lo;
    Digits3(v);
    assert (b0 - 0xE0) * 4096 + (b1 - 0x80) * 64 + (b2 - 0x80) == v;
  }

  lemma DecodeFour(c: char, rest: seq<Byte>)
    requires 0x10000 <= c as int
    ensures DecodeAt(EncodeChar(c) + rest, 0) == Some((c, 4))
  {
    var v := c as int;
    var b := EncodeChar(c) + rest;
    var b0: int, b1: int, b2: int, b3: int := b[0], b[1], b[2], b[3];
    assert b0 == 0xF0 + v / 262144 && b1 == 0x80 + (v / 4096) % 64;
    assert b2 == 0x80 + (v / 64) % 64 && b3 == 0x80 + v % 64;
    Digits4(v);
    assert (b0 - 0xF0) * 262144 + (b1 - 0x80) * 4096 + (b2 - 0x80) * 64 + (b3 - 0x80) == v;
  }

  /** A number below 2^18 is its three base-64 digits. */
  lemma Digits3(v: nat)
    ensures (v / 4096) * 4096 + ((v / 64) % 64) * 64 + v % 64 == v
  {
    var q := v / 64;
    assert v == q * 64 + v % 64;
    assert q == (q / 64) * 64 + q % 64;
    assert q / 64 == v / 4096;
  }

  /** A number is its four base-64 digits above the top one. */
  lemma Digits4(v: nat)
    ensures (v / 262144) * 262144 + ((v / 4096) % 64) * 4096 + ((v / 64) % 64) * 64 + v % 64 == v
  {
    var q := v / 4096;
    Digits3(v);
    assert q == (q / 64) * 64 + q % 64;
    assert q / 64 == v / 262144;
  }

  /** Decoding does not look at the bytes before `i`. */
  lemma {:induction false} DecodeFromShift(pre: seq<Byte>, b: seq<Byte>, i: nat)
    requires i <= |b|
    ensures DecodeFrom(pre + b, |pre| + i) == DecodeFrom(b, i)
    decreases |b| - i
  {
    if i < |b| {
      assert DecodeAt(pre + b, |pre| + i) == DecodeAt(b, i) by {
        assert forall k :: i <= k < |b| ==> (pre + b)[|pre| + k] == b[k];
      }
      match DecodeAt(b, i)
      case None =>
      case Some((c, n)) =>
        DecodeFromShift(pre, b, i + n);
    }
  }

  /** Decoding undoes encoding. */
  lemma {:induction false} DecodeEncode(s: string)
    ensures Decode(Encode(s)) == Some(s)
  {
    if s != [] {
      var e := EncodeChar(s[0]);
      var rest := Encode(s[1..]);
      DecodeEncodedChar(s[0], rest);
      DecodeEncode(s[1..]);
      DecodeFromShift(e, rest, 0);
      DecodeFromCons(e + rest, s[0], |e|, s[1..]);
      assert Encode(s) == e + rest;
      assert s == [s[0]] + s[1..];
    }
  }

  /** A character at the front, then a well-formed rest. */
  lemma DecodeFromCons(b: seq<Byte>, c: char, n: nat, t: string)
    requires b != [] && DecodeAt(b, 0) == Some((c, n)) && n <= |b| && DecodeFrom(b, n) == Some(t)
    ensures DecodeFrom(b, 0) == Some([c] + t)
  {
  }

  /** Distinct texts have distinct encodings. */
  lemma EncodeInjective(a: string, b: string)
    requires Encode(a) == Encode(b)
    ensures a == b
  {
    DecodeEncode(a);
    DecodeEncode(b);
  }
}
