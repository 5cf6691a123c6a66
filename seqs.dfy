/** Sequence helpers shared by the model: the JavaScript `filter`, `slice`,
    `join` and the first-occurrence de-duplication of `new Set(...)`. */
module Seqs {

  /** `s.filter(p)`. */
  function Filter<T>(p: T -> bool, s: seq<T>): (r: seq<T>)
    ensures |r| <= |s|
    ensures forall x :: x in r ==> x in s && p(x)
    ensures forall x :: x in s && p(x) ==> x in r
  {
    if s == [] then []
    else if p(s[0]) then [s[0]] + Filter(p, s[1..])
    else Filter(p, s[1..])
  }

  lemma {:induction false} FilterAppend<T>(p: T -> bool, a: seq<T>, b: seq<T>)
    ensures Filter(p, a + b) == Filter(p, a) + Filter(p, b)
  {
    if a == [] {
      assert a + b == b;
    } else {
      assert (a + b)[1..] == a[1..] + b;
      FilterAppend(p, a[1..], b);
    }
  }

  /** One more element of a prefix: the filter grows by it exactly when it
      passes the test. */
  lemma FilterStep<T>(p: T -> bool, s: seq<T>, i: nat)
    requires i < |s|
    ensures Filter(p, s[..i + 1]) == Filter(p, s[..i]) + (if p(s[i]) then [s[i]] else [])
  {
    assert s[..i + 1] == s[..i] + [s[i]];
    FilterAppend(p, s[..i], [s[i]]);
    assert [s[i]][1..] == [];
  }

  /** `a` is obtained from `b` by deleting elements: it keeps their order. */
  ghost predicate IsSubseq<T>(a: seq<T>, b: seq<T>)
    decreases |b|
  {
    if a == [] then true
    else if b == [] then false
    else if a[0] == b[0] then IsSubseq(a[1..], b[1..])
    else IsSubseq(a, b[1..])
  }

  lemma {:induction false} FilterIsSubseq<T>(p: T -> bool, s: seq<T>)
    ensures IsSubseq(Filter(p, s), s)
  {
    if s != [] {
      FilterIsSubseq(p, s[1..]);
    }
  }

  /** `s.slice(0, n)`. */
  function Take<T>(s: seq<T>, n: nat): (r: seq<T>)
    ensures |r| == if |s| < n then |s| else n
    ensures r <= s
  {
    if |s| <= n then s else s[..n]
  }

  /** The number of elements of `s` that satisfy `p`. */
  function Count<T>(p: T -> bool, s: seq<T>): (n: nat)
    ensures n <= |s|
  {
    if s == [] then 0 else (if p(s[0]) then 1 else 0) + Count(p, s[1..])
  }

  lemma {:induction false} CountIsFilterLength<T>(p: T -> bool, s: seq<T>)
    ensures Count(p, s) == |Filter(p, s)|
  {
    if s != [] {
      CountIsFilterLength(p, s[1..]);
    }
  }

  /** `parts.join(sep)`. */
  function Join(parts: seq<string>, sep: string): string {
    if parts == [] then ""
    else if |parts| == 1 then parts[0]
    else parts[0] + sep + Join(parts[1..], sep)
  }

  /** No two elements share a key. */
  ghost predicate UniqueBy<T, K>(s: seq<T>, key: T -> K) {
    forall i, j :: 0 <= i < j < |s| ==> key(s[i]) != key(s[j])
  }

  /** Keeps the first element for each key not yet in `seen`, in order: the
      `seen`-set loop of the search merge, and `[...new Set(xs)]` when `key` is
      the identity. */
  function DedupBy<T, K>(s: seq<T>, key: T -> K, seen: set<K>): (r: seq<T>)
    ensures |r| <= |s|
    ensures forall x :: x in r ==> x in s && key(x) !in seen
  {
    if s == [] then []
    else if key(s[0]) in seen then DedupBy(s[1..], key, seen)
    else [s[0]] + DedupBy(s[1..], key, seen + {key(s[0])})
  }

  lemma {:induction false} DedupByUnique<T, K>(s: seq<T>, key: T -> K, seen: set<K>)
    ensures UniqueBy(DedupBy(s, key, seen), key)
  {
    if s != [] {
      DedupByUnique(s[1..], key, seen + {key(s[0])});
      DedupByUnique(s[1..], key, seen);
    }
  }

  lemma {:induction false} DedupByIsSubseq<T, K>(s: seq<T>, key: T -> K, seen: set<K>)
    ensures IsSubseq(DedupBy(s, key, seen), s)
  {
    if s != [] {
      if key(s[0]) in seen {
        DedupByIsSubseq(s[1..], key, seen);
        SubseqDropHead(DedupBy(s[1..], key, seen), s);
      } else {
        DedupByIsSubseq(s[1..], key, seen + {key(s[0])});
      }
    }
  }

  lemma {:induction false} SubseqDropHead<T>(a: seq<T>, b: seq<T>)
    requires b != [] && IsSubseq(a, b[1..])
    ensures IsSubseq(a, b)
    decreases |b|, 0
  {
    if a != [] && a[0] == b[0] {
      SubseqTail(a, b[1..]);
    }
  }

  lemma {:induction false} SubseqTail<T>(a: seq<T>, b: seq<T>)
    requires a != [] && IsSubseq(a, b)
    ensures IsSubseq(a[1..], b)
    decreases |b|, 1
  {
    if a[0] == b[0] {
      SubseqDropHead(a[1..], b);
    } else {
      SubseqTail(a, b[1..]);
      SubseqDropHead(a[1..], b);
    }
  }

  /** Every key that occurs in `s` and is not in `seen` is kept, and the element
      kept for it is the first one of `s` with that key. */
  lemma {:induction false} DedupByKeepsFirst<T, K>(s: seq<T>, key: T -> K, seen: set<K>, i: nat)
    requires i < |s| && key(s[i]) !in seen
    requires forall j :: 0 <= j < i ==> key(s[j]) != key(s[i])
    ensures s[i] in DedupBy(s, key, seen)
  {
    if i == 0 {
    } else if key(s[0]) in seen {
      DedupByKeepsFirst(s[1..], key, seen, i - 1);
    } else {
      DedupByKeepsFirst(s[1..], key, seen + {key(s[0])}, i - 1);
    }
  }

  lemma {:induction false} DedupByKeys<T, K>(s: seq<T>, key: T -> K, seen: set<K>, x: T)
    requires x in s && key(x) !in seen
    ensures exists y :: y in DedupBy(s, key, seen) && key(y) == key(x)
  {
    if s[0] == x {
    } else if key(s[0]) in seen {
      DedupByKeys(s[1..], key, seen, x);
    } else if key(s[0]) == key(x) {
      assert s[0] in DedupBy(s, key, seen);
    } else {
      DedupByKeys(s[1..], key, seen + {key(s[0])}, x);
    }
  }

  lemma {:induction false} DedupByAppend<T, K>(a: seq<T>, b: seq<T>, key: T -> K, seen: set<K>)
    ensures DedupBy(a + b, key, seen) == DedupBy(a, key, seen) + DedupBy(b, key, seen + KeysOf(a, key))
  {
    if a == [] {
      assert a + b == b;
      assert KeysOf(a, key) == {};
      assert seen + {} == seen;
    } else {
      assert (a + b)[1..] == a[1..] + b;
      if key(a[0]) in seen {
        DedupByAppend(a[1..], b, key, seen);
        assert seen + KeysOf(a, key) == seen + KeysOf(a[1..], key);
      } else {
        DedupByAppend(a[1..], b, key, seen + {key(a[0])});
        assert seen + KeysOf(a, key) == seen + {key(a[0])} + KeysOf(a[1..], key);
      }
    }
  }

  function KeysOf<T, K>(s: seq<T>, key: T -> K): set<K> {
    if s == [] then {} else {key(s[0])} + KeysOf(s[1..], key)
  }
}
