/** The `owner/repo` identifier check that the inspector and the installer
    both make before any network access. */
module RepoId {
  import opened Wrappers
  import opened JsStrings

  const InvalidRepoFormat := "Invalid repo format. Use \"owner/repo\""

  /** `const [owner, repo] = id.split('/')`, rejected when either part is
      empty or missing; segments past the second are ignored. */
  function SplitRepoId(id: string): (r: Option<(string, string)>)
    ensures r.Some? ==> r.value.0 != "" && r.value.1 != "" && '/' !in r.value.0 && '/' !in r.value.1
  {
    var parts := SplitOn(id, '/');
    if |parts| >= 2 && parts[0] != "" && parts[1] != "" then Some((parts[0], parts[1])) else None
  }

  /** An accepted id begins with `owner/repo`, and that is all of it unless
      another `/` follows. */
  lemma SplitRepoIdPrefix(id: string)
    requires SplitRepoId(id).Some?
    ensures var (o, r) := SplitRepoId(id).value;
      o + "/" + r <= id && (|o + "/" + r| == |id| || id[|o + "/" + r|] == '/')
  {
    var parts := SplitOn(id, '/');
    SplitJoin(id, '/');
    assert Seqs.Join(parts, "/") == parts[0] + "/" + Seqs.Join(parts[1..], "/");
    assert parts[1..][0] == parts[1];
    if |parts| == 2 {
      assert parts[1..] == [parts[1]];
    } else {
      assert Seqs.Join(parts[1..], "/") == parts[1] + "/" + Seqs.Join(parts[2..], "/");
    }
  }

  /** Conversely, every `owner/repo` with non-empty, slash-free parts is
      accepted as exactly that pair, whatever further segments follow. */
  lemma SplitRepoIdAccepts(o: string, r: string, rest: string)
    requires o != "" && r != "" && '/' !in o && '/' !in r
    requires rest == "" || rest[0] == '/'
    ensures SplitRepoId(o + "/" + r + rest) == Some((o, r))
  {
    var id := o + "/" + r + rest;
    assert id == o + ['/'] + (r + rest);
    SplitAt(o, '/', r + rest);
    if rest == "" {
      assert r + rest == r;
      SplitWithout(r, '/');
    } else {
      assert r + rest == r + ['/'] + rest[1..];
      SplitAt(r, '/', rest[1..]);
    }
  }

  /** Without a `/` the id is rejected. */
  lemma NoSlashRejected(id: string)
    requires '/' !in id
    ensures SplitRepoId(id).None?
  {
    SplitWithout(id, '/');
  }

  /** `a/b/c` is accepted as owner `a`, repo `b`. */
  lemma ExtraSegmentsAccepted()
    ensures SplitRepoId("a/b/c") == Some(("a", "b"))
  {
    assert SplitOn("", '/') == [""];
    assert "c"[1..] == "" && "c"[0] == 'c' && ['c'] + "" == "c";
    assert SplitOn("c", '/') == ["c"];
    assert "/c"[1..] == "c";
    assert SplitOn("/c", '/') == ["", "c"];
    assert "b/c"[1..] == "/c" && "b/c"[0] == 'b' && ['b'] + "" == "b";
    assert SplitOn("b/c", '/') == ["b", "c"];
    assert "/b/c"[1..] == "b/c";
    assert SplitOn("/b/c", '/') == ["", "b", "c"];
    assert "a/b/c"[1..] == "/b/c" && "a/b/c"[0] == 'a' && ['a'] + "" == "a";
    assert SplitOn("a/b/c", '/') == ["a", "b", "c"];
  }
}
