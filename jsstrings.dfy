/** The JavaScript string operations the modelled programs use, written out
    over `seq<char>`: `trim`, `toLowerCase` (ASCII letters), `startsWith`,
    `endsWith`, `includes`, `indexOf`, `replace` with a string pattern,
    `split` on one character, and the two regular-expression shapes the
    programs match headers with. */
module JsStrings {
  import opened Wrappers
  import Seqs

  /** The characters of `\s` in a JavaScript regular expression, which are
      also the characters `String.prototype.trim` removes (WhiteSpace and
      LineTerminator of ECMA-262). */
  predicate IsSpace(c: char) {
    ('\U{0009}' <= c <= '\U{000D}') || c == ' ' || c == '\U{00A0}' || c == '\U{1680}'
    || ('\U{2000}' <= c <= '\U{200A}') || c == '\U{2028}' || c == '\U{2029}'
    || c == '\U{202F}' || c == '\U{205F}' || c == '\U{3000}' || c == '\U{FEFF}'
  }

  /** The characters `.` does not match and after/before which `^`/`$` match
      in multiline mode. */
  predicate IsLineTerminator(c: char) {
    c == '\n' || c == '\r' || c == '\U{2028}' || c == '\U{2029}'
  }

  lemma LineTerminatorIsSpace(c: char)
    ensures IsLineTerminator(c) ==> IsSpace(c)
  {
  }

  /** Index just past the whitespace that ends at `e`, not going below `lo`. */
  function SpaceBack(s: string, lo: nat, e: nat): (r: nat)
    requires lo <= e <= |s|
    ensures lo <= r <= e
    ensures forall k :: r <= k < e ==> IsSpace(s[k])
    ensures r > lo ==> !IsSpace(s[r - 1])
    decreases e
  {
    if e == lo || !IsSpace(s[e - 1]) then e else SpaceBack(s, lo, e - 1)
  }

  /** `s.trim()`: the infix of `s` left after removing leading and trailing
      whitespace. */
  function Trim(s: string): (r: string)
    ensures r == [] || (!IsSpace(r[0]) && !IsSpace(r[|r| - 1]))
    ensures exists i, j :: 0 <= i <= j <= |s| && r == s[i..j] && AllSpace(s, 0, i) && AllSpace(s, j, |s|)
  {
    var i := SpaceEnd(s, 0);
    s[i..SpaceBack(s, i, |s|)]
  }

  /** Every character of `s[lo..hi]` is whitespace. */
  predicate AllSpace(s: string, lo: nat, hi: nat)
    requires lo <= hi <= |s|
  {
    forall k :: lo <= k < hi ==> IsSpace(s[k])
  }

  /** `s[i..j]` is the trim of `s` when everything around it is whitespace
      and it neither starts nor ends with whitespace: the trim removes the
      surrounding whitespace and nothing else. */
  lemma TrimIs(s: string, i: nat, j: nat)
    requires i <= j <= |s| && AllSpace(s, 0, i) && AllSpace(s, j, |s|)
    requires i == j || (!IsSpace(s[i]) && !IsSpace(s[j - 1]))
    ensures Trim(s) == s[i..j]
  {
    var i0 := SpaceEnd(s, 0);
    if i == j {
      assert forall k :: 0 <= k < |s| ==> IsSpace(s[k]) by {
        forall k | 0 <= k < |s|
          ensures IsSpace(s[k])
        {
          if k < i {
            assert AllSpace(s, 0, i);
          } else {
            assert AllSpace(s, j, |s|);
          }
        }
      }
      assert i0 == |s|;
    } else {
      assert AllSpace(s, 0, i) && AllSpace(s, j, |s|);
    }
  }

  /** A string with no whitespace at either end is its own trim. */
  lemma TrimNoop(s: string)
    requires s == [] || (!IsSpace(s[0]) && !IsSpace(s[|s| - 1]))
    ensures Trim(s) == s
  {
  }

  /** `toLowerCase` on one character; only the ASCII letters are mapped. */
  function LowerChar(c: char): (d: char)
    ensures 'A' <= c <= 'Z' ==> 'a' <= d <= 'z'
    ensures !('A' <= c <= 'Z') ==> d == c
  {
    if 'A' <= c <= 'Z' then (c as int + 32) as char else c
  }

  function ToLower(s: string): (r: string)
    ensures |r| == |s|
    ensures forall i :: 0 <= i < |s| ==> r[i] == LowerChar(s[i])
  {
    if s == [] then [] else [LowerChar(s[0])] + ToLower(s[1..])
  }

  predicate StartsWith(s: string, p: string) {
    |p| <= |s| && s[..|p|] == p
  }

  predicate EndsWith(s: string, p: string) {
    |p| <= |s| && s[|s| - |p|..] == p
  }

  /** `p` occurs in `s` starting at index `k`. */
  predicate OccursAt(s: string, p: string, k: nat) {
    k + |p| <= |s| && s[k..k + |p|] == p
  }

  /** `s.indexOf(p, from)`, with `None` for -1. */
  function IndexOf(s: string, p: string, from: nat): (r: Option<nat>)
    ensures r.Some? ==> from <= r.value && OccursAt(s, p, r.value)
    ensures r.Some? ==> forall k :: from <= k < r.value ==> !OccursAt(s, p, k)
    ensures r.None? ==> forall k :: from <= k ==> !OccursAt(s, p, k)
    decreases |s| - from
  {
    if from + |p| > |s| then None
    else if OccursAt(s, p, from) then Some(from)
    else IndexOf(s, p, from + 1)
  }

  /** `s.includes(p)`. */
  predicate Includes(s: string, p: string) {
    IndexOf(s, p, 0).Some?
  }

  /** `s.replace(p, r)` with a string pattern: only the first occurrence is
      replaced. */
  function ReplaceFirst(s: string, p: string, r: string): (t: string)
    ensures IndexOf(s, p, 0).None? ==> t == s
    ensures IndexOf(s, p, 0).Some? ==>
      var k := IndexOf(s, p, 0).value; t == s[..k] + r + s[k + |p|..]
  {
    match IndexOf(s, p, 0)
    case None => s
    case Some(k) => s[..k] + r + s[k + |p|..]
  }

  /** `s.split(c)` for a one-character separator. */
  function SplitOn(s: string, c: char): (parts: seq<string>)
    ensures |parts| >= 1
    ensures forall i :: 0 <= i < |parts| ==> c !in parts[i]
  {
    if s == [] then [""]
    else
      var rest := SplitOn(s[1..], c);
      if s[0] == c then [""] + rest else [[s[0]] + rest[0]] + rest[1..]
  }

  /** Splitting and joining back with the same separator gives the input. */
  lemma {:induction false} SplitJoin(s: string, c: char)
    ensures Seqs.Join(SplitOn(s, c), [c]) == s
  {
    if s != [] {
      var rest := SplitOn(s[1..], c);
      SplitJoin(s[1..], c);
      if s[0] == c {
        assert SplitOn(s, c) == [""] + rest;
        assert ([""] + rest)[1..] == rest;
      } else {
        var parts := [[s[0]] + rest[0]] + rest[1..];
        assert SplitOn(s, c) == parts;
        if |rest| == 1 {
          assert rest == [rest[0]];
        } else {
          assert parts[1..] == rest[1..];
          assert Seqs.Join(rest, [c]) == rest[0] + [c] + Seqs.Join(rest[1..], [c]);
        }
      }
    }
  }

  /** The first segment of `s.split(c)` is the part of `s` before the first `c`. */
  lemma {:induction false} SplitFirst(s: string, c: char)
    ensures SplitOn(s, c)[0] <= s
    ensures |SplitOn(s, c)| >= 2 ==> |SplitOn(s, c)[0]| < |s| && s[|SplitOn(s, c)[0]|] == c
  {
    if s != [] {
      SplitFirst(s[1..], c);
    }
  }

  /** The last part of a split is what follows the last separator. */
  lemma {:induction false} SplitLast(stem: string, last: string, c: char)
    requires c !in last
    ensures var parts := SplitOn(stem + [c] + last, c);
      |parts| >= 2 && parts[|parts| - 1] == last
  {
    var s := stem + [c] + last;
    if stem == [] {
      assert s[1..] == last;
      SplitWithout(last, c);
    } else {
      assert s[1..] == stem[1..] + [c] + last;
      SplitLast(stem[1..], last, c);
    }
  }

  /** A string without `c` splits into itself alone. */
  lemma {:induction false} SplitWithout(s: string, c: char)
    requires c !in s
    ensures SplitOn(s, c) == [s]
  {
    if s != [] {
      SplitWithout(s[1..], c);
      assert s == [s[0]] + s[1..];
    }
  }

  /** A first separator after a `c`-free prefix ends the first part. */
  lemma {:induction false} SplitAt(a: string, c: char, b: string)
    requires c !in a
    ensures SplitOn(a + [c] + b, c) == [a] + SplitOn(b, c)
  {
    var s := a + [c] + b;
    if a == [] {
      assert s == [c] + b && s[1..] == b;
    } else {
      assert s[0] == a[0] && s[1..] == a[1..] + [c] + b;
      SplitAt(a[1..], c, b);
      assert [a[0]] + a[1..] == a;
    }
  }

  function DigitChar(d: nat): char
    requires d < 10
  {
    ('0' as int + d) as char
  }

  /** The number a string of decimal digits denotes. */
  function DecimalValue(s: string): int {
    if s == [] then 0 else 10 * DecimalValue(s[..|s| - 1]) + (s[|s| - 1] as int - '0' as int)
  }

  /** The decimal text of `n`, as a template literal prints an integer:
      digits only, denoting `n`, with no leading zero. */
  function NatToString(n: nat): (s: string)
    ensures |s| >= 1
    ensures forall i :: 0 <= i < |s| ==> '0' <= s[i] <= '9'
    ensures DecimalValue(s) == n
    ensures s[0] == '0' <==> n == 0
  {
    if n < 10 then [DigitChar(n)]
    else
      var t := NatToString(n / 10);
      assert (t + [DigitChar(n % 10)])[..|t|] == t;
      t + [DigitChar(n % 10)]
  }

  /** Index of the first line terminator at or after `i` (or `|s|`). */
  function RunEnd(s: string, i: nat): (e: nat)
    requires i <= |s|
    ensures i <= e <= |s|
    ensures forall k :: i <= k < e ==> !IsLineTerminator(s[k])
    ensures e < |s| ==> IsLineTerminator(s[e])
    decreases |s| - i
  {
    if i == |s| || IsLineTerminator(s[i]) then i else RunEnd(s, i + 1)
  }

  /** Index just past the run of whitespace that starts at `i`. */
  function SpaceEnd(s: string, i: nat): (e: nat)
    requires i <= |s|
    ensures i <= e <= |s|
    ensures forall k :: i <= k < e ==> IsSpace(s[k])
    ensures e < |s| ==> !IsSpace(s[e])
    decreases |s| - i
  {
    if i == |s| || !IsSpace(s[i]) then i else SpaceEnd(s, i + 1)
  }

  /** The backtracking of `\s*(.+)$` (multiline): `\s*` is tried from its
      longest extent `pos` down to `lo`; the first position where `.+` can
      start gives the capture, which then runs to the next line terminator. */
  function CaptureBack(s: string, lo: nat, pos: nat): (r: Option<string>)
    requires lo <= pos <= |s|
    ensures r.Some? ==> r.value != [] && forall k :: 0 <= k < |r.value| ==> !IsLineTerminator(r.value[k])
    decreases pos - lo
  {
    if pos < |s| && !IsLineTerminator(s[pos]) then Some(s[pos..RunEnd(s, pos)])
    else if pos == lo then None
    else CaptureBack(s, lo, pos - 1)
  }

  /** The capture fails exactly when every position of `[lo, pos]` is a line
      terminator (or the end); otherwise it starts at the last position that
      is not, and runs to the end of that line. */
  lemma {:induction false} CaptureBackMeaning(s: string, lo: nat, pos: nat) returns (p: nat)
    requires lo <= pos <= |s|
    ensures CaptureBack(s, lo, pos).None? <==> forall q :: lo <= q <= pos && q < |s| ==> IsLineTerminator(s[q])
    ensures CaptureBack(s, lo, pos).Some? ==>
              lo <= p <= pos && p < |s| && !IsLineTerminator(s[p])
              && CaptureBack(s, lo, pos).value == s[p..RunEnd(s, p)]
              && forall q :: p < q <= pos && q < |s| ==> IsLineTerminator(s[q])
    decreases pos - lo
  {
    if pos < |s| && !IsLineTerminator(s[pos]) {
      p := pos;
    } else if pos == lo {
      p := pos;
    } else {
      p := CaptureBackMeaning(s, lo, pos - 1);
    }
  }

  /** `^` in multiline mode matches at index `i`. */
  predicate IsLineStart(s: string, i: nat)
    requires i <= |s|
  {
    i == 0 || IsLineTerminator(s[i - 1])
  }

  /** Match of `key\s*(.+)$` at index `at`, giving group 1. */
  function CaptureAt(s: string, key: string, at: nat): Option<string>
    requires at <= |s|
  {
    if OccursAt(s, key, at) then CaptureBack(s, at + |key|, SpaceEnd(s, at + |key|)) else None
  }

  /** `/^key\s*(.+)$/m` matches at index `i`. */
  predicate LineMatches(s: string, key: string, i: nat) {
    i <= |s| && IsLineStart(s, i) && CaptureAt(s, key, i).Some?
  }

  /** Group 1 of the first match of `/^key\s*(.+)$/m` searched from `from`;
      `key` is `name:` or `description:`. */
  function KeyLineFrom(s: string, key: string, from: nat): (r: Option<string>)
    requires from <= |s| + 1
    ensures r.Some? ==> r.value != [] && forall k :: 0 <= k < |r.value| ==> !IsLineTerminator(r.value[k])
    decreases |s| + 1 - from
  {
    if from > |s| then None
    else if LineMatches(s, key, from) then CaptureAt(s, key, from)
    else KeyLineFrom(s, key, from + 1)
  }

  /** The search finds a match exactly when some line from `from` on matches. */
  lemma {:induction false} KeyLineFound(s: string, key: string, from: nat)
    requires from <= |s| + 1
    ensures KeyLineFrom(s, key, from).None? <==> forall i :: from <= i ==> !LineMatches(s, key, i)
    decreases |s| + 1 - from
  {
    if from <= |s| && !LineMatches(s, key, from) {
      KeyLineFound(s, key, from + 1);
    }
  }

  /** A match found is the capture of the first matching line from `from` on. */
  lemma {:induction false} KeyLineFirst(s: string, key: string, from: nat) returns (i: nat)
    requires from <= |s| + 1 && KeyLineFrom(s, key, from).Some?
    ensures from <= i && LineMatches(s, key, i) && KeyLineFrom(s, key, from) == CaptureAt(s, key, i)
    ensures forall j :: from <= j < i ==> !LineMatches(s, key, j)
    decreases |s| + 1 - from
  {
    if LineMatches(s, key, from) {
      i := from;
    } else {
      assert KeyLineFrom(s, key, from) == KeyLineFrom(s, key, from + 1);
      i := KeyLineFirst(s, key, from + 1);
    }
  }

  function KeyLine(s: string, key: string): Option<string> {
    KeyLineFrom(s, key, 0)
  }

  /** A line `key` + one space + `v` at the start of `s`, where `v` is
      non-empty, has no whitespace and ends at a line terminator or at the
      end, is the first match and captures exactly `v`. */
  lemma KeyLineAtStart(s: string, key: string, v: string)
    requires v != [] && forall k :: 0 <= k < |v| ==> !IsSpace(v[k])
    requires StartsWith(s, key + " " + v)
    requires |s| == |key| + 1 + |v| || IsLineTerminator(s[|key| + 1 + |v|])
    ensures KeyLine(s, key) == Some(v)
  {
    var a := |key|;
    assert s[..a] == key;
    assert OccursAt(s, key, 0);
    assert s[a] == ' ';
    assert SpaceEnd(s, a + 1) == a + 1 by {
      assert s[a + 1] == v[0];
    }
    assert SpaceEnd(s, a) == a + 1;
    var e := a + 1 + |v|;
    assert forall k :: a + 1 <= k < e ==> s[k] == v[k - a - 1];
    assert RunEnd(s, a + 1) == e by {
      RunEndIs(s, a + 1, e);
    }
    assert s[a + 1..e] == v;
  }

  lemma RunEndIs(s: string, i: nat, e: nat)
    requires i <= e <= |s|
    requires forall k :: i <= k < e ==> !IsLineTerminator(s[k])
    requires e == |s| || IsLineTerminator(s[e])
    ensures RunEnd(s, i) == e
    decreases e - i
  {
    if i < e {
      RunEndIs(s, i + 1, e);
    }
  }

  /** The `^---\s*\n([\s\S]*?)\n---` header of a SKILL.md file: group 1,
      or `None` when the expression does not match. */
  function Frontmatter(content: string): Option<string> {
    if StartsWith(content, "---") then FrontmatterBack(content, SpaceEnd(content, 3)) else None
  }

  /** The body can start at `b`: a newline ends at `b` and a `\n---`
      follows at or after it. */
  predicate BodyOpensAt(content: string, b: nat) {
    1 <= b <= |content| && content[b - 1] == '\n' && IndexOf(content, "\n---", b).Some?
  }

  /** Backtracking over the extent of `\s*`: the newline that ends it sits at
      `k - 1`; the lazy body ends at the first `\n---` from `k` on. */
  function FrontmatterBack(content: string, k: nat): (r: Option<string>)
    requires 3 <= k <= |content|
    ensures r.Some? ==> exists b, j :: 4 <= b <= k && content[b - 1] == '\n' && b <= j
                          && OccursAt(content, "\n---", j) && r.value == content[b..j]
    decreases k
  {
    if k <= 3 then None
    else if BodyOpensAt(content, k) then
      Some(content[k..IndexOf(content, "\n---", k).value])
    else FrontmatterBack(content, k - 1)
  }

  /** The header is found exactly when the body can open somewhere in
      `[4, k]`. */
  lemma {:induction false} FrontmatterBackFound(content: string, k: nat)
    requires 3 <= k <= |content|
    ensures FrontmatterBack(content, k).None? <==> forall b :: 4 <= b <= k ==> !BodyOpensAt(content, b)
    decreases k
  {
    if k > 3 && !BodyOpensAt(content, k) {
      FrontmatterBackFound(content, k - 1);
      assert FrontmatterBack(content, k) == FrontmatterBack(content, k - 1);
    }
  }

  /** When found, the body opens at the last place in `[4, k]` where it can
      (the longest `\s*`) and ends at the first `\n---` from there (the
      lazy `*?`). */
  lemma {:induction false} FrontmatterBackLazy(content: string, k: nat) returns (b: nat)
    requires 3 <= k <= |content| && FrontmatterBack(content, k).Some?
    ensures 4 <= b <= k && BodyOpensAt(content, b)
    ensures FrontmatterBack(content, k).value == content[b..IndexOf(content, "\n---", b).value]
    ensures forall b' :: b < b' <= k ==> !BodyOpensAt(content, b')
    decreases k
  {
    if BodyOpensAt(content, k) {
      b := k;
    } else {
      b := FrontmatterBackLazy(content, k - 1);
      forall b' | b < b' <= k
        ensures !BodyOpensAt(content, b')
      {
        if b' == k {
        }
      }
    }
  }

}
