/** Base64 as defined in section 4 of RFC 4648: each group of three bytes
    becomes four characters of the 64-character alphabet, and a final group
    of one or two bytes is completed with `=`. This is what Node's
    `Buffer.toString('base64')` produces. */
module Base64 {
  import opened Wrappers
  import opened Utf8

  /** A character of the alphabet: `A`-`Z`, `a`-`z`, `0`-`9`, `+`, `/`. */
  predicate IsAlphabetChar(c: char) {
    ('A' <= c <= 'Z') || ('a' <= c <= 'z') || ('0' <= c <= '9') || c == '+' || c == '/'
  }

  /** The character for the six-bit value `i` (Table 1 of RFC 4648). */
  function Sextet(i: int): (c: char)
    requires 0 <= i < 64
    ensures IsAlphabetChar(c)
  {
    if i < 26 then ('A' as int + i) as char
    else if i < 52 then ('a' as int + (i - 26)) as char
    else if i < 62 then ('0' as int + (i - 52)) as char
    else if i == 62 then '+'
    else '/'
  }

  /** The six-bit value of an alphabet character; `=` and everything else
      outside the alphabet have none. */
  function SextetValue(c: char): (r: Option<nat>)
    ensures r.Some? <==> IsAlphabetChar(c)
    ensures r.Some? ==> r.value < 64
  {
    if 'A' <= c <= 'Z' then Some(c as int - 'A' as int)
    else if 'a' <= c <= 'z' then Some(c as int - 'a' as int + 26)
    else if '0' <= c <= '9' then Some(c as int - '0' as int + 52)
    else if c == '+' then Some(62)
    else if c == '/' then Some(63)
    else None
  }

  /** Every alphabet character is the character of its value. */
  lemma SextetValueInverse(c: char)
    requires IsAlphabetChar(c)
    ensures SextetValue(c).Some? && Sextet(SextetValue(c).value) == c
  {
  }

  /** Every six-bit value is read back from its character. */
  lemma SextetRoundTrip(i: int)
    requires 0 <= i < 64
    ensures SextetValue(Sextet(i)) == Some(i)
  {
  }

  /** The four characters of a full group of three bytes. */
  function Group(b0: Byte, b1: Byte, b2: Byte): (g: string)
    ensures |g| == 4 && forall k :: 0 <= k < 4 ==> IsAlphabetChar(g[k])
  {
    [Sextet(b0 / 4), Sextet((b0 % 4) * 16 + b1 / 16), Sextet((b1 % 16) * 4 + b2 / 64), Sextet(b2 % 64)]
  }

  /** The encoding of the bytes `b`. */
  function Encode(b: seq<Byte>): string {
    if b == [] then []
    else if |b| == 1 then
      [Sextet(b[0] / 4), Sextet((b[0] % 4) * 16), '=', '=']
    else if |b| == 2 then
      [Sextet(b[0] / 4), Sextet((b[0] % 4) * 16 + b[1] / 16), Sextet((b[1] % 16) * 4), '=']
    else
      Group(b[0], b[1], b[2]) + Encode(b[3..])
  }

  /** The number of groups of four characters for `n` bytes: one for every
      started group of three. */
  function Groups(n: nat): nat {
    if n == 0 then 0 else if n <= 3 then 1 else 1 + Groups(n - 3)
  }

  /** `Groups(n)` is `n` divided by three, rounded up. */
  lemma {:induction false} GroupsIsCeiling(n: nat)
    ensures Groups(n) == (n + 2) / 3
  {
    if n > 3 {
      GroupsIsCeiling(n - 3);
    }
  }

  lemma {:induction false} EncodeGroups(b: seq<Byte>)
    ensures |Encode(b)| == 4 * Groups(|b|)
  {
    if |b| >= 3 {
      EncodeGroups(b[3..]);
    }
  }

  /** Four characters for every started group of three bytes. */
  lemma EncodeLength(b: seq<Byte>)
    ensures |Encode(b)| == 4 * ((|b| + 2) / 3)
  {
    EncodeGroups(b);
    GroupsIsCeiling(|b|);
  }

  /** The encoding uses only the alphabet, and `=` only in its last two
      places. */
  lemma {:induction false} EncodeCharset(b: seq<Byte>)
    ensures forall k :: 0 <= k < |Encode(b)| ==> IsAlphabetChar(Encode(b)[k]) || Encode(b)[k] == '='
    ensures forall k :: 0 <= k < |Encode(b)| && Encode(b)[k] == '=' ==> |Encode(b)| - 2 <= k
  {
    if |b| >= 3 {
      EncodeCharset(b[3..]);
      var r := Encode(b);
      forall k | 0 <= k < |r|
        ensures (IsAlphabetChar(r[k]) || r[k] == '=') && (r[k] == '=' ==> |r| - 2 <= k)
      {
        if k >= 4 {
          assert r[k] == Encode(b[3..])[k - 4];
        }
      }
    }
  }

  /** The bytes of one group of four characters; `last` says whether the
      group ends the text, the only place where padding may appear. */
  function DecodeGroup(c0: char, c1: char, c2: char, c3: char, last: bool): (r: Option<seq<Byte>>)
    ensures r.Some? ==> 1 <= |r.value| <= 3
  {
    var i0, i1 := SextetValue(c0), SextetValue(c1);
    if i0.None? || i1.None? then None
    else if c2 == '=' && c3 == '=' then
      if last then Some([i0.value * 4 + i1.value / 16]) else None
    else
      var i2 := SextetValue(c2);
      if i2.None? then None
      else if c3 == '=' then
        if last then Some([i0.value * 4 + i1.value / 16, (i1.value % 16) * 16 + i2.value / 4]) else None
      else
        var i3 := SextetValue(c3);
        if i3.None? then None
        else Some([i0.value * 4 + i1.value / 16, (i1.value % 16) * 16 + i2.value / 4, (i2.value % 4) * 64 + i3.value])
  }

  /** The bytes a base64 text stands for, or nothing when it is not a
      sequence of well-formed groups of four. */
  function Decode(s: string): Option<seq<Byte>>
    decreases |s|
  {
    if s == [] then Some([])
    else if |s| < 4 then None
    else
      match DecodeGroup(s[0], s[1], s[2], s[3], |s| == 4)
      case None => None
      case Some(g) =>
        match Decode(s[4..])
        case None => None
        case Some(rest) => Some(g + rest)
  }

  /** Four characters of the alphabet decode to the three bytes their 24
      bits spell. */
  lemma DecodeSextets(i0: int, i1: int, i2: int, i3: int, last: bool, x0: Byte, x1: Byte, x2: Byte)
    requires 0 <= i0 < 64 && 0 <= i1 < 64 && 0 <= i2 < 64 && 0 <= i3 < 64
    requires x0 == i0 * 4 + i1 / 16 && x1 == (i1 % 16) * 16 + i2 / 4 && x2 == (i2 % 4) * 64 + i3
    ensures DecodeGroup(Sextet(i0), Sextet(i1), Sextet(i2), Sextet(i3), last) == Some([x0, x1, x2])
  {
    SextetRoundTrip(i0);
    SextetRoundTrip(i1);
    SextetRoundTrip(i2);
    SextetRoundTrip(i3);
  }

  /** Three bytes cut into four six-bit values and put back together. */
  lemma RegroupThree(b0: Byte, b1: Byte, b2: Byte)
    ensures var i0, i1, i2, i3 := b0 / 4, (b0 % 4) * 16 + b1 / 16, (b1 % 16) * 4 + b2 / 64, b2 % 64;
      i0 * 4 + i1 / 16 == b0 && (i1 % 16) * 16 + i2 / 4 == b1 && (i2 % 4) * 64 + i3 == b2
  {
  }

  /** A full group of four decodes to the three bytes it was made from. */
  lemma DecodeFullGroup(b0: Byte, b1: Byte, b2: Byte, last: bool)
    ensures var g := Group(b0, b1, b2);
      DecodeGroup(g[0], g[1], g[2], g[3], last) == Some([b0, b1, b2])
  {
    var i0, i1, i2, i3 := b0 / 4, (b0 % 4) * 16 + b1 / 16, (b1 % 16) * 4 + b2 / 64, b2 % 64;
    RegroupThree(b0, b1, b2);
    DecodeSextets(i0, i1, i2, i3, last, b0, b1, b2);
    var g := Group(b0, b1, b2);
    assert g == [Sextet(i0), Sextet(i1), Sextet(i2), Sextet(i3)];
  }

  /** A final group with one `=` decodes to its two bytes. */
  lemma DecodeTwoGroup(b0: Byte, b1: Byte)
    ensures DecodeGroup(Sextet(b0 / 4), Sextet((b0 % 4) * 16 + b1 / 16), Sextet((b1 % 16) * 4), '=', true)
            == Some([b0, b1])
  {
    var s1, s2 := (b0 % 4) * 16 + b1 / 16, (b1 % 16) * 4;
    SextetRoundTrip(b0 / 4);
    SextetRoundTrip(s1);
    SextetRoundTrip(s2);
    assert s1 / 16 == b0 % 4 && s1 % 16 == b1 / 16;
    assert s2 / 4 == b1 % 16;
  }

  /** A final group with two `=` decodes to its one byte. */
  lemma DecodeOneGroup(b0: Byte)
    ensures DecodeGroup(Sextet(b0 / 4), Sextet((b0 % 4) * 16), '=', '=', true) == Some([b0])
  {
    SextetRoundTrip(b0 / 4);
    SextetRoundTrip((b0 % 4) * 16);
  }

  /** A last group decodes on its own. */
  lemma DecodeLastGroup(g: string, bytes: seq<Byte>)
    requires |g| == 4 && DecodeGroup(g[0], g[1], g[2], g[3], true) == Some(bytes)
    ensures Decode(g) == Some(bytes)
  {
    assert g[4..] == [];
    assert bytes + [] == bytes;
  }

  /** Decoding a text that starts with a full group: that group's bytes
      followed by the decoding of the rest. */
  lemma DecodeAfterGroup(g: string, rest: string, bytes: seq<Byte>, t: seq<Byte>)
    requires |g| == 4 && DecodeGroup(g[0], g[1], g[2], g[3], rest == []) == Some(bytes)
    requires Decode(rest) == Some(t)
    ensures Decode(g + rest) == Some(bytes + t)
  {
    var s := g + rest;
    assert s[0] == g[0] && s[1] == g[1] && s[2] == g[2] && s[3] == g[3];
    assert s[4..] == rest;
  }

  /** One byte: a group with two `=`. */
  lemma DecodeEncodeOne(b: seq<Byte>)
    requires |b| == 1
    ensures Decode(Encode(b)) == Some(b)
  {
    var b0 := b[0];
    var e := [Sextet(b0 / 4), Sextet((b0 % 4) * 16), '=', '='];
    assert Encode(b) == e;
    DecodeOneGroup(b0);
    DecodeLastGroup(e, [b0]);
    assert [b0] == b;
  }

  /** Two bytes: a group with one `=`. */
  lemma DecodeEncodeTwo(b: seq<Byte>)
    requires |b| == 2
    ensures Decode(Encode(b)) == Some(b)
  {
    var b0, b1 := b[0], b[1];
    var e := [Sextet(b0 / 4), Sextet((b0 % 4) * 16 + b1 / 16), Sextet((b1 % 16) * 4), '='];
    assert Encode(b) == e;
    DecodeTwoGroup(b0, b1);
    DecodeLastGroup(e, [b0, b1]);
    assert [b0, b1] == b;
  }

  /** A text that starts with the group of three bytes decodes to those
      bytes followed by the decoding of the rest. */
  lemma DecodeAfterFullGroup(b0: Byte, b1: Byte, b2: Byte, rest: string, t: seq<Byte>)
    requires Decode(rest) == Some(t)
    ensures Decode(Group(b0, b1, b2) + rest) == Some([b0, b1, b2] + t)
  {
    DecodeFullGroup(b0, b1, b2, rest == []);
    DecodeAfterGroup(Group(b0, b1, b2), rest, [b0, b1, b2], t);
  }

  /** The encoding of three bytes or more: a full group, then the rest. */
  lemma EncodeCons(b: seq<Byte>)
    requires |b| >= 3
    ensures Encode(b) == Group(b[0], b[1], b[2]) + Encode(b[3..])
  {
  }

  /** Three bytes or more: a full group, then the rest. */
  lemma DecodeEncodeCons(b: seq<Byte>)
    requires |b| >= 3 && Decode(Encode(b[3..])) == Some(b[3..])
    ensures Decode(Encode(b)) == Some(b)
  {
    EncodeCons(b);
    DecodeAfterFullGroup(b[0], b[1], b[2], Encode(b[3..]), b[3..]);
    SplitThree(b);
  }

  lemma SplitThree(b: seq<Byte>)
    requires |b| >= 3
    ensures [b[0], b[1], b[2]] + b[3..] == b
  {
  }

  /** Decoding gives back the bytes that were encoded. */
  lemma {:induction false} DecodeEncode(b: seq<Byte>)
    ensures Decode(Encode(b)) == Some(b)
    decreases |b|
  {
    if b == [] {
    } else if |b| == 1 {
      DecodeEncodeOne(b);
    } else if |b| == 2 {
      DecodeEncodeTwo(b);
    } else {
      DecodeEncode(b[3..]);
      DecodeEncodeCons(b);
    }
  }

  /** Different byte sequences have different encodings. */
  lemma EncodeInjective(a: seq<Byte>, b: seq<Byte>)
    requires Encode(a) == Encode(b)
    ensures a == b
  {
    DecodeEncode(a);
    DecodeEncode(b);
  }
}
