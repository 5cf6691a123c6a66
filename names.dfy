/** Character-level transforms shared by the inspector's proposed name and
    the installer's default name: lower-casing is `JsStrings.ToLower`, then
    every character outside `[a-z0-9-]` becomes `-`, and the inspector also
    collapses each run of hyphens into one. */
module SkillNames {
  import opened JsStrings

  predicate IsNameChar(c: char) {
    ('a' <= c <= 'z') || ('0' <= c <= '9') || c == '-'
  }

  /** `.replace(/[^a-z0-9-]/g, '-')`. */
  function ReplaceInvalid(s: string): (r: string)
    ensures |r| == |s|
    ensures forall i :: 0 <= i < |s| ==> r[i] == if IsNameChar(s[i]) then s[i] else '-'
  {
    if s == [] then [] else [if IsNameChar(s[0]) then s[0] else '-'] + ReplaceInvalid(s[1..])
  }

  /** `.replace(/-+/g, '-')`: every run of hyphens becomes one. */
  function CollapseHyphens(s: string): (r: string)
    ensures |r| <= |s|
    ensures forall c :: c in r ==> c in s
    ensures s != [] && s[0] == '-' ==> r != [] && r[0] == '-'
  {
    if |s| < 2 then s
    else if s[0] == '-' && s[1] == '-' then CollapseHyphens(s[1..])
    else [s[0]] + CollapseHyphens(s[1..])
  }

  /** Position `i` of `s` survives the collapse: it is not a hyphen that
      directly follows another. */
  predicate Survives(s: string, i: nat)
    requires i < |s|
  {
    !(i > 0 && s[i] == '-' && s[i - 1] == '-')
  }

  /** The characters of `s[i..]` at surviving positions, in order. */
  function Survivors(s: string, i: nat): string
    decreases |s| - i
  {
    if i >= |s| then []
    else (if Survives(s, i) then [s[i]] else []) + Survivors(s, i + 1)
  }

  /** The suffix `s[i..]` collapses to its first character followed by the
      survivors after it (its first character always survives on its own). */
  lemma {:induction false} CollapseSuffix(s: string, i: nat)
    requires i < |s|
    ensures CollapseHyphens(s[i..]) == [s[i]] + Survivors(s, i + 1)
    decreases |s| - i
  {
    var t := s[i..];
    if i + 1 == |s| {
      assert t == [s[i]];
    } else {
      assert t[0] == s[i] && t[1] == s[i + 1] && t[1..] == s[i + 1..];
      CollapseSuffix(s, i + 1);
      var tail := Survivors(s, i + 2);
      assert CollapseHyphens(t[1..]) == [s[i + 1]] + tail;
      if s[i] == '-' && s[i + 1] == '-' {
        assert Survivors(s, i + 1) == tail;
      } else {
        assert Survivors(s, i + 1) == [s[i + 1]] + tail;
        assert CollapseHyphens(t) == [s[i]] + CollapseHyphens(t[1..]);
      }
    }
  }

  /** `CollapseHyphens(s)` is `s` with every hyphen that directly follows
      another hyphen removed, and nothing else removed or reordered. */
  lemma CollapseDropsRepeats(s: string)
    ensures CollapseHyphens(s) == Survivors(s, 0)
  {
    if s != [] {
      assert s[0..] == s;
      CollapseSuffix(s, 0);
    }
  }

  predicate NoDoubleHyphen(s: string) {
    forall i :: 0 <= i < |s| - 1 ==> !(s[i] == '-' && s[i + 1] == '-')
  }

  lemma {:induction false} CollapseNoDouble(s: string)
    ensures NoDoubleHyphen(CollapseHyphens(s))
  {
    if |s| >= 2 {
      CollapseNoDouble(s[1..]);
      if !(s[0] == '-' && s[1] == '-') {
        var t := CollapseHyphens(s[1..]);
        CollapseHead(s[1..]);
        assert ([s[0]] + t)[1..] == t;
      }
    }
  }

  /** The collapsed string starts with the same character. */
  lemma {:induction false} CollapseHead(s: string)
    requires s != []
    ensures CollapseHyphens(s) != [] && CollapseHyphens(s)[0] == s[0]
  {
    if |s| >= 2 && s[0] == '-' && s[1] == '-' {
      CollapseHead(s[1..]);
    }
  }

  lemma {:induction false} CollapseNoop(s: string)
    requires NoDoubleHyphen(s)
    ensures CollapseHyphens(s) == s
  {
    if |s| >= 2 {
      assert !(s[0] == '-' && s[1] == '-');
      CollapseNoop(s[1..]);
      assert s == [s[0]] + s[1..];
    }
  }

  lemma ReplaceInvalidNoop(s: string)
    requires forall i :: 0 <= i < |s| ==> IsNameChar(s[i])
    ensures ReplaceInvalid(s) == s
  {
  }

  lemma ToLowerNoop(s: string)
    requires forall i :: 0 <= i < |s| ==> IsNameChar(s[i])
    ensures ToLower(s) == s
  {
  }

  lemma PrefixNoDouble(n: string, t: string)
    requires n <= t && NoDoubleHyphen(t)
    ensures NoDoubleHyphen(n)
  {
    forall i | 0 <= i < |n| - 1
      ensures !(n[i] == '-' && n[i + 1] == '-')
    {
      assert n[i] == t[i] && n[i + 1] == t[i + 1];
    }
  }
}
