/** The search program: it expands a natural-language query with synonyms,
    asks GitHub's code search for `SKILL.md` files and its repository search
    for matching repositories, merges the two result lists without repeating
    a repository, ranks them, and keeps the answer in a cache file for ten
    minutes.

    The two GitHub searches are oracles from the query text to a `Response`;
    the cache directory is a map from file paths to contents, `JSON.parse`
    of a cache file is an oracle, and the clock is the integer `now`. */
module Search {
  import opened Wrappers
  import opened JsStrings
  import opened Seqs
  import Cli
  import Paths
  import Utf8
  import Base64

  // ---------------------------------------------------------------
  // Command line
  // ---------------------------------------------------------------

  const Keywords: set<string> := {"search"}
  const FlagNames: set<string> := {"--query", "--pat", "--cache-dir"}

  /** `parseArgs`: the command is always `search`, and each flag takes the
      following non-empty argument. */
  method ParseArgs(args: seq<string>) returns (p: Cli.Parsed)
    ensures p.command == Some("search")
    ensures p.flags.Keys <= FlagNames
    ensures forall f :: f in p.flags ==>
              (p.flags[f] != "" && exists k :: 0 <= k && k + 1 < |args| && args[k] == f && args[k + 1] == p.flags[f])
  {
    p := Cli.Parse(args, Keywords, FlagNames, Some("search"));
    Cli.CommandIsKeyword(args, Keywords, FlagNames, Some("search"));
    forall f | f in p.flags
      ensures f in FlagNames && p.flags[f] != "" &&
              (exists k :: 0 <= k && k + 1 < |args| && args[k] == f && args[k + 1] == p.flags[f])
    {
      Cli.FlagFollowsFlag(args, Keywords, FlagNames, Some("search"), f);
    }
  }

  /** What `main` passes to `search`. */
  datatype Request = Request(query: string, pat: Option<string>, cacheDir: Option<string>)

  const MissingQuery := "Missing --query argument"

  /** `main`'s check: a query is required, the token and the cache directory
      are optional. */
  function CheckArgs(p: Cli.Parsed): (r: Result<Request>)
    ensures r.Failure? <==> !("--query" in p.flags && p.flags["--query"] != "")
    ensures r.Failure? ==> r.error == MissingQuery
    ensures r.Success? ==>
              r.value == Request(p.flags["--query"], p.Flag("--pat"), p.Flag("--cache-dir"))
  {
    match p.Flag("--query")
    case Some(q) =>
      if q == "" then Failure(MissingQuery) else Success(Request(q, p.Flag("--pat"), p.Flag("--cache-dir")))
    case None => Failure(MissingQuery)
  }

  // ---------------------------------------------------------------
  // Query expansion
  // ---------------------------------------------------------------

  /** The `EXPANSIONS` table: a key phrase and its synonyms, in table order. */
  const Expansions: seq<(string, seq<string>)> := [
    ("text to speech", ["tts", "text-to-speech", "speech-synthesis", "voice"]),
    ("speech to text", ["stt", "speech-to-text", "transcription", "whisper"]),
    ("code review", ["code-analysis", "linting", "static-analysis", "code-quality"]),
    ("web scraping", ["web-scraper", "crawler", "html-parser", "scraper"]),
    ("pdf", ["pdf-parser", "pdf-to-text", "document"]),
    ("image", ["image-processing", "vision", "ocr", "computer-vision"]),
    ("database", ["sql", "database-query", "data-access"]),
    ("api", ["rest-api", "http-client", "api-client"]),
    ("file", ["file-system", "file-manager", "fs"]),
    ("git", ["github", "version-control", "git-operations"]),
    ("test", ["testing", "unit-test", "test-runner"]),
    ("deploy", ["deployment", "ci-cd", "devops"]),
    ("convert", ["converter", "transformation", "format"]),
    ("search", ["finder", "lookup", "query"]),
    ("generate", ["generator", "create", "build"]),
    ("analyze", ["analyzer", "analysis", "parser"])
  ]

  /** The synonyms of every key of `table` that occurs in `lower`, key by key
      in table order. */
  function Synonyms(lower: string, table: seq<(string, seq<string>)>): seq<string> {
    if table == [] then []
    else
      var last := table[|table| - 1];
      Synonyms(lower, table[..|table| - 1]) + (if Includes(lower, last.0) then last.1 else [])
  }

  /** The text the keys are looked for in. */
  function Lowered(query: string): string {
    Trim(ToLower(query))
  }

  /** The query followed by the synonyms, before de-duplication. */
  function RawTerms(query: string): seq<string> {
    [query] + Synonyms(Lowered(query), Expansions)
  }

  function Id(s: string): string {
    s
  }

  /** `[...new Set(expanded)]`. */
  function ExpandedTerms(query: string): seq<string> {
    DedupBy(RawTerms(query), Id, {})
  }

  function CodeSearchQuery(query: string): string {
    Join(RawTerms(query), " OR ") + " filename:SKILL.md"
  }

  function RepoSearchQuery(query: string): string {
    Join(RawTerms(query), " OR ") + " topic:agent-skills OR \"SKILL.md\" in:readme"
  }

  datatype Expansion = Expansion(original: string, expanded: seq<string>,
                                 codeSearchQuery: string, repoSearchQuery: string)

  lemma SynonymsStep(lower: string, table: seq<(string, seq<string>)>, i: nat)
    requires i < |table|
    ensures Synonyms(lower, table[..i + 1]) ==
            Synonyms(lower, table[..i]) + (if Includes(lower, table[i].0) then table[i].1 else [])
  {
    assert table[..i + 1][..i] == table[..i];
  }

  /** The loop of `expandQuery`: the synonyms of each key of `table` that
      occurs in `lower` are appended in table order. */
  method CollectSynonyms(lower: string, table: seq<(string, seq<string>)>) returns (synonyms: seq<string>)
    ensures synonyms == Synonyms(lower, table)
  {
    synonyms := [];
    var i := 0;
    while i < |table|
      invariant i <= |table|
      invariant synonyms == Synonyms(lower, table[..i])
    {
      SynonymsStep(lower, table, i);
      if Includes(lower, table[i].0) {
        synonyms := synonyms + table[i].1;
      }
      i := i + 1;
    }
    assert table[..i] == table;
  }

  /** `expandQuery`. */
  method ExpandQuery(query: string) returns (e: Expansion)
    ensures e.original == query
    ensures e.expanded == ExpandedTerms(query)
    ensures e.codeSearchQuery == CodeSearchQuery(query)
    ensures e.repoSearchQuery == RepoSearchQuery(query)
  {
    var synonyms := CollectSynonyms(Trim(ToLower(query)), Expansions);
    var raw := [query] + synonyms;
    e := Expansion(query, DedupBy(raw, Id, {}), Join(raw, " OR ") + " filename:SKILL.md",
                   Join(raw, " OR ") + " topic:agent-skills OR \"SKILL.md\" in:readme");
  }

  /** Every synonym of a key that occurs is collected. */
  lemma {:induction false} SynonymsContain(lower: string, table: seq<(string, seq<string>)>, j: nat, k: nat)
    requires j < |table| && Includes(lower, table[j].0) && k < |table[j].1|
    ensures table[j].1[k] in Synonyms(lower, table)
  {
    var n := |table| - 1;
    if j < n {
      assert table[..n][j] == table[j];
      SynonymsContain(lower, table[..n], j, k);
    }
  }

  /** Nothing but such synonyms is collected. */
  lemma {:induction false} SynonymsFrom(lower: string, table: seq<(string, seq<string>)>, x: string)
    requires x in Synonyms(lower, table)
    ensures exists j, k :: 0 <= j < |table| && Includes(lower, table[j].0) && 0 <= k < |table[j].1| && table[j].1[k] == x
  {
    var n := |table| - 1;
    var last := table[n];
    if x in Synonyms(lower, table[..n]) {
      SynonymsFrom(lower, table[..n], x);
      var j, k :| 0 <= j < n && Includes(lower, table[..n][j].0) && 0 <= k < |table[..n][j].1| && table[..n][j].1[k] == x;
      assert table[..n][j] == table[j];
    } else {
      assert Includes(lower, last.0) && x in last.1;
      var k :| 0 <= k < |last.1| && last.1[k] == x;
      assert table[n].1[k] == x;
    }
  }

  /** `expanded` starts with the query, repeats nothing, keeps the order of
      first occurrences, and holds exactly the query and the synonyms of the
      keys found in the lower-cased, trimmed query. */
  lemma ExpandedShape(query: string)
    ensures var ex := ExpandedTerms(query);
      ex != [] && ex[0] == query
      && (forall i, j :: 0 <= i < j < |ex| ==> ex[i] != ex[j])
      && IsSubseq(ex, RawTerms(query))
      && (forall x :: x in ex <==> x in RawTerms(query))
  {
    var raw := RawTerms(query);
    var ex := ExpandedTerms(query);
    DedupByUnique(raw, Id, {});
    DedupByIsSubseq(raw, Id, {});
    forall x | x in raw
      ensures x in ex
    {
      DedupByKeys(raw, Id, {}, x);
    }
  }

  /** The synonyms of every key found are among the expanded terms. */
  lemma ExpandedHasSynonyms(query: string, j: nat, k: nat)
    requires j < |Expansions| && Includes(Lowered(query), Expansions[j].0) && k < |Expansions[j].1|
    ensures Expansions[j].1[k] in ExpandedTerms(query)
  {
    SynonymsContain(Lowered(query), Expansions, j, k);
    ExpandedShape(query);
  }

  /** Every expanded term is the query or a synonym of a key found. */
  lemma ExpandedOnlySynonyms(query: string, x: string)
    requires x in ExpandedTerms(query)
    ensures x == query || exists j, k :: 0 <= j < |Expansions| && Includes(Lowered(query), Expansions[j].0)
                                        && 0 <= k < |Expansions[j].1| && Expansions[j].1[k] == x
  {
    ExpandedShape(query);
    if x != query {
      SynonymsFrom(Lowered(query), Expansions, x);
    }
  }

  /** A query that is itself a synonym of a key it contains (such as
      `testing`) appears twice in the list the search texts are joined from,
      but once in `expanded`. */
  lemma QueryAlsoSynonym(query: string)
    requires query in Synonyms(Lowered(query), Expansions)
    ensures exists k :: 1 <= k < |RawTerms(query)| && RawTerms(query)[k] == query && RawTerms(query)[0] == query
    ensures forall k :: 0 < k < |ExpandedTerms(query)| ==> ExpandedTerms(query)[k] != query
  {
    var syn := Synonyms(Lowered(query), Expansions);
    assert RawTerms(query) == [query] + syn;
    HeadRepeated(query, syn);
    FirstNotRepeated(query);
  }

  lemma HeadRepeated(query: string, syn: seq<string>)
    requires query in syn
    ensures exists k :: 1 <= k < |[query] + syn| && ([query] + syn)[k] == query && ([query] + syn)[0] == query
  {
    var k :| 0 <= k < |syn| && syn[k] == query;
    assert ([query] + syn)[k + 1] == query;
  }

  lemma FirstNotRepeated(query: string)
    ensures forall k :: 0 < k < |ExpandedTerms(query)| ==> ExpandedTerms(query)[k] != query
  {
    ExpandedShape(query);
    var ex := ExpandedTerms(query);
    forall k | 0 < k < |ex|
      ensures ex[k] != query
    {
      assert ex[0] != ex[k];
    }
  }


  // ---------------------------------------------------------------
  // Search results
  // ---------------------------------------------------------------

  /** A result as the program passes it on. Fields the code search does not
      fill are `None`. */
  datatype Item = Item(
    id: string,
    name: string,
    owner: string,
    description: string,
    path: Option<string>,
    source: string,
    hasSkillMd: bool,
    skillPaths: seq<string>,
    stars: Option<int>,
    forks: Option<int>,
    lastUpdated: Option<string>,
    license: Option<string>)

  /** One hit of the code search: the file path and its repository. */
  datatype CodeHit = CodeHit(repoFullName: string, repoName: string, ownerLogin: string,
                             repoDescription: Option<string>, path: string)

  /** One hit of the repository search; `licenseSpdx` is
      `item.license?.spdx_id`. */
  datatype RepoHit = RepoHit(fullName: string, name: string, ownerLogin: string, description: Option<string>,
                             stargazersCount: int, forksCount: int, updatedAt: Option<string>,
                             licenseSpdx: Option<string>)

  /** A JavaScript string value that is present and non-empty. */
  predicate Truthy(s: Option<string>) {
    s.Some? && s.value != ""
  }

  /** The item made from a code-search hit: it has a `SKILL.md`, whose
      folder is its only skill path, and no stars, date or licence. */
  function FromCodeHit(h: CodeHit): (it: Item)
    ensures it.id == h.repoFullName && it.hasSkillMd && it.source == "github-code-search"
    ensures it.skillPaths == [ReplaceFirst(h.path, "/SKILL.md", "")]
    ensures it.stars.None? && it.forks.None? && it.lastUpdated.None? && it.license.None?
    ensures it.name == h.repoName && it.owner == h.ownerLogin && it.path == Some(h.path)
    ensures it.description == if h.repoDescription.Some? then h.repoDescription.value else ""
  {
    Item(h.repoFullName, h.repoName, h.ownerLogin, h.repoDescription.GetOr(""), Some(h.path),
         "github-code-search", true, [ReplaceFirst(h.path, "/SKILL.md", "")], None, None, None, None)
  }

  /** The item made from a repository hit: no `SKILL.md` is known, and an
      empty licence id counts as none. */
  function FromRepoHit(h: RepoHit): (it: Item)
    ensures it.id == h.fullName && !it.hasSkillMd && it.source == "github-repo-search" && it.skillPaths == []
    ensures it.stars == Some(h.stargazersCount) && it.lastUpdated == h.updatedAt
    ensures it.license.Some? <==> Truthy(h.licenseSpdx)
    ensures it.license == if Truthy(h.licenseSpdx) then h.licenseSpdx else None
    ensures it.name == h.name && it.owner == h.ownerLogin && it.path.None? && it.forks == Some(h.forksCount)
    ensures it.description == if h.description.Some? then h.description.value else ""
  {
    Item(h.fullName, h.name, h.ownerLogin, h.description.GetOr(""), None, "github-repo-search", false, [],
         Some(h.stargazersCount), Some(h.forksCount), h.updatedAt,
         if Truthy(h.licenseSpdx) then h.licenseSpdx else None)
  }

  /** What a GitHub search request gives: the status, the `items` field of
      the body (if any) and the `x-ratelimit-remaining` header read as a
      number (0 when absent), or a failure of the request or of its JSON. */
  datatype Response<T> = Response(status: int, items: Option<seq<T>>, remaining: int) | Failed

  /** A search's items and remaining rate limit. */
  datatype Outcome = Outcome(items: seq<Item>, remaining: int)

  function MapCodeHits(hits: seq<CodeHit>): (r: seq<Item>)
    ensures |r| == |hits| && forall i :: 0 <= i < |hits| ==> r[i] == FromCodeHit(hits[i])
  {
    if hits == [] then [] else [FromCodeHit(hits[0])] + MapCodeHits(hits[1..])
  }

  function MapRepoHits(hits: seq<RepoHit>): (r: seq<Item>)
    ensures |r| == |hits| && forall i :: 0 <= i < |hits| ==> r[i] == FromRepoHit(hits[i])
  {
    if hits == [] then [] else [FromRepoHit(hits[0])] + MapRepoHits(hits[1..])
  }

  /** `searchCodeForSkillMd` after the request: no items unless the status
      is 200, and a remaining limit of 0 when the request failed. */
  function CodeOutcome(resp: Response<CodeHit>): (o: Outcome)
    ensures resp.Failed? ==> o == Outcome([], 0)
    ensures resp.Response? && resp.status != 200 ==> o == Outcome([], resp.remaining)
    ensures resp.Response? && resp.status == 200 ==>
              o.remaining == resp.remaining && |o.items| == |resp.items.GetOr([])|
              && forall i :: 0 <= i < |o.items| ==> o.items[i].hasSkillMd
    ensures resp.Response? && resp.status == 200 ==>
              forall i :: 0 <= i < |o.items| ==> o.items[i] == FromCodeHit(resp.items.GetOr([])[i])
  {
    match resp
    case Failed => Outcome([], 0)
    case Response(status, items, remaining) =>
      if status != 200 then Outcome([], remaining) else Outcome(MapCodeHits(items.GetOr([])), remaining)
  }

  /** `searchRepos` after the request. */
  function RepoOutcome(resp: Response<RepoHit>): (o: Outcome)
    ensures resp.Failed? ==> o == Outcome([], 0)
    ensures resp.Response? && resp.status != 200 ==> o == Outcome([], resp.remaining)
    ensures resp.Response? && resp.status == 200 ==>
              o.remaining == resp.remaining && |o.items| == |resp.items.GetOr([])|
              && forall i :: 0 <= i < |o.items| ==> !o.items[i].hasSkillMd
    ensures resp.Response? && resp.status == 200 ==>
              forall i :: 0 <= i < |o.items| ==> o.items[i] == FromRepoHit(resp.items.GetOr([])[i])
  {
    match resp
    case Failed => Outcome([], 0)
    case Response(status, items, remaining) =>
      if status != 200 then Outcome([], remaining) else Outcome(MapRepoHits(items.GetOr([])), remaining)
  }

  // ---------------------------------------------------------------
  // Merging
  // ---------------------------------------------------------------

  function ItemId(it: Item): string {
    it.id
  }

  /** The merge loop of `search`: an item is kept when no earlier item had
      its id. */
  method Merge(items: seq<Item>) returns (merged: seq<Item>)
    ensures merged == DedupBy(items, ItemId, {})
  {
    var seen: set<string> := {};
    merged := [];
    var i := 0;
    while i < |items|
      invariant i <= |items|
      invariant merged + DedupBy(items[i..], ItemId, seen) == DedupBy(items, ItemId, {})
    {
      var item := items[i];
      assert items[i..][1..] == items[i + 1..];
      if item.id !in seen {
        seen := seen + {item.id};
        merged := merged + [item];
      }
      i := i + 1;
    }
  }

  /** The merged list has unique ids, keeps the order of the input, keeps
      the first item of every id, and puts the code-search items before the
      repository-search items. */
  lemma MergeProperties(code: seq<Item>, repo: seq<Item>)
    ensures var m := DedupBy(code + repo, ItemId, {});
      UniqueBy(m, ItemId) && IsSubseq(m, code + repo)
      && m == DedupBy(code, ItemId, {}) + DedupBy(repo, ItemId, KeysOf(code, ItemId))
  {
    DedupByUnique(code + repo, ItemId, {});
    DedupByIsSubseq(code + repo, ItemId, {});
    DedupByAppend(code, repo, ItemId, {});
    assert {} + KeysOf(code, ItemId) == KeysOf(code, ItemId);
  }

  /** The item kept for an id is the first one with that id. */
  lemma MergeKeepsFirst(items: seq<Item>, i: nat)
    requires i < |items| && forall j :: 0 <= j < i ==> items[j].id != items[i].id
    ensures items[i] in DedupBy(items, ItemId, {})
  {
    DedupByKeepsFirst(items, ItemId, {}, i);
  }

  /** `Math.min` of the two remaining limits, each 0 read as 100. */
  function Or100(x: int): int {
    if x == 0 then 100 else x
  }

  function RateLimitRemaining(code: int, repo: int): (r: int)
    ensures r == Or100(code) || r == Or100(repo)
    ensures r <= Or100(code) && r <= Or100(repo)
    ensures r != 0
  {
    if Or100(code) <= Or100(repo) then Or100(code) else Or100(repo)
  }

  // ---------------------------------------------------------------
  // Ranking
  // ---------------------------------------------------------------

  /** An item with its score, the rounded points divided by 100. */
  datatype Ranked = Ranked(item: Item, score: real)

  const Day: int := 1000 * 60 * 60 * 24
  const BoostedLicenses: seq<string> := ["MIT", "Apache-2.0", "BSD-3-Clause", "ISC"]

  /** The star bonus: `log10x10(n)` is `Math.log10(n + 1) * 10` rounded,
      capped at 30; nothing for no stars. */
  function StarPoints(stars: Option<int>, log10x10: int -> nat): (r: nat)
    ensures r <= 30
    ensures stars.None? || stars.value == 0 ==> r == 0
  {
    if stars.Some? && stars.value != 0 then
      if log10x10(stars.value) < 30 then log10x10(stars.value) else 30
    else 0
  }

  /** 10 for an update less than 30 days ago, 5 for less than 180 days;
      `ageMs` gives the milliseconds since a date, `None` for a date that
      does not parse. */
  function RecencyPoints(lastUpdated: Option<string>, ageMs: string -> Option<int>): (r: nat)
    ensures r == 0 || r == 5 || r == 10
    ensures r == 10 <==> Truthy(lastUpdated) && ageMs(lastUpdated.value).Some? && ageMs(lastUpdated.value).value < 30 * Day
    ensures r == 5 <==> Truthy(lastUpdated) && ageMs(lastUpdated.value).Some?
                        && 30 * Day <= ageMs(lastUpdated.value).value < 180 * Day
  {
    if !Truthy(lastUpdated) then 0
    else match ageMs(lastUpdated.value)
      case None => 0
      case Some(age) => if age < 30 * Day then 10 else if age < 180 * Day then 5 else 0
  }

  function LicensePoints(license: Option<string>): (r: nat)
    ensures r == 5 <==> Truthy(license) && license.value in BoostedLicenses
    ensures r == 0 || r == 5
  {
    if Truthy(license) && license.value in BoostedLicenses then 5 else 0
  }

  /** The points of an item: a `SKILL.md` outweighs everything else. */
  function Points(it: Item, log10x10: int -> nat, ageMs: string -> Option<int>): (r: nat)
    ensures it.hasSkillMd ==> 50 <= r <= 95
    ensures !it.hasSkillMd ==> r <= 45
  {
    (if it.hasSkillMd then 50 else 0) + StarPoints(it.stars, log10x10)
      + RecencyPoints(it.lastUpdated, ageMs) + LicensePoints(it.license)
  }

  /** Items that mark their `SKILL.md` have a score of at least 0.5, the
      others at most 0.45. */
  predicate ScoreBand(r: Ranked) {
    (r.item.hasSkillMd ==> r.score >= 0.5) && (!r.item.hasSkillMd ==> r.score <= 0.45)
  }

  function Scored(it: Item, log10x10: int -> nat, ageMs: string -> Option<int>): (r: Ranked)
    ensures r.item == it && ScoreBand(r)
  {
    Ranked(it, Points(it, log10x10, ageMs) as real / 100.0)
  }

  function ScoreAll(items: seq<Item>, log10x10: int -> nat, ageMs: string -> Option<int>): (r: seq<Ranked>)
    ensures |r| == |items|
    ensures forall i :: 0 <= i < |items| ==> r[i] == Scored(items[i], log10x10, ageMs)
  {
    if items == [] then [] else [Scored(items[0], log10x10, ageMs)] + ScoreAll(items[1..], log10x10, ageMs)
  }

  /** Higher scores first. */
  ghost predicate SortedDesc(s: seq<Ranked>) {
    forall i, j :: 0 <= i < j < |s| ==> s[i].score >= s[j].score
  }

  /** Puts `x` before the first element whose score is not higher. */
  function Insert(x: Ranked, t: seq<Ranked>): (r: seq<Ranked>)
    ensures multiset(r) == multiset(t) + multiset{x}
  {
    if t == [] then [x]
    else if t[0].score <= x.score then [x] + t
    else
      assert t == [t[0]] + t[1..];
      [t[0]] + Insert(x, t[1..])
  }

  /** A head that scores at least as high as every element keeps a sorted
      list sorted. */
  lemma SortedCons(h: Ranked, rest: seq<Ranked>)
    requires SortedDesc(rest)
    requires forall k :: 0 <= k < |rest| ==> h.score >= rest[k].score
    ensures SortedDesc([h] + rest)
  {
    var s := [h] + rest;
    forall i, j | 0 <= i < j < |s|
      ensures s[i].score >= s[j].score
    {
      assert s[j] == rest[j - 1];
      if i > 0 {
        assert s[i] == rest[i - 1];
      }
    }
  }

  /** Inserting into a sorted list keeps it sorted. */
  lemma {:induction false} InsertSorted(x: Ranked, t: seq<Ranked>)
    requires SortedDesc(t)
    ensures SortedDesc(Insert(x, t))
  {
    if t != [] && t[0].score > x.score {
      var tail := t[1..];
      var rest := Insert(x, tail);
      assert SortedDesc(tail) by {
        forall i, j | 0 <= i < j < |tail|
          ensures tail[i].score >= tail[j].score
        {
          assert tail[i] == t[i + 1] && tail[j] == t[j + 1];
        }
      }
      InsertSorted(x, tail);
      forall k | 0 <= k < |rest|
        ensures t[0].score >= rest[k].score
      {
        var y := rest[k];
        assert y in multiset(rest);
        if y != x {
          assert y in multiset(tail);
          var m :| 0 <= m < |tail| && tail[m] == y;
          assert t[m + 1] == y;
        }
      }
      SortedCons(t[0], rest);
    }
  }

  /** `sort((a, b) => b.score - a.score)`; the sort of JavaScript is stable,
      and so is this insertion sort. */
  function SortDesc(s: seq<Ranked>): (r: seq<Ranked>)
    ensures multiset(r) == multiset(s)
    ensures SortedDesc(r)
  {
    if s == [] then [] else
      assert s == [s[0]] + s[1..];
      InsertSorted(s[0], SortDesc(s[1..]));
      Insert(s[0], SortDesc(s[1..]))
  }

  /** `rankResults`. */
  function Rank(items: seq<Item>, log10x10: int -> nat, ageMs: string -> Option<int>): (r: seq<Ranked>)
    ensures multiset(r) == multiset(ScoreAll(items, log10x10, ageMs))
    ensures forall i, j :: 0 <= i < j < |r| ==> r[i].score >= r[j].score
  {
    SortDesc(ScoreAll(items, log10x10, ageMs))
  }

  /** The elements of `s` that have score `v`, in order. */
  function WithScore(s: seq<Ranked>, v: real): seq<Ranked> {
    if s == [] then [] else (if s[0].score == v then [s[0]] else []) + WithScore(s[1..], v)
  }

  lemma {:induction false} InsertWithScore(x: Ranked, t: seq<Ranked>, v: real)
    ensures WithScore(Insert(x, t), v) == if x.score == v then [x] + WithScore(t, v) else WithScore(t, v)
  {
    if t == [] {
    } else if t[0].score <= x.score {
      assert ([x] + t)[1..] == t;
    } else {
      InsertWithScore(x, t[1..], v);
      assert ([t[0]] + Insert(x, t[1..]))[1..] == Insert(x, t[1..]);
    }
  }

  /** The sort is stable: the items of one score keep their order. */
  lemma {:induction false} SortStable(s: seq<Ranked>, v: real)
    ensures WithScore(SortDesc(s), v) == WithScore(s, v)
  {
    if s != [] {
      SortStable(s[1..], v);
      InsertWithScore(s[0], SortDesc(s[1..]), v);
    }
  }

  /** After ranking, every item that has a `SKILL.md` precedes every item
      that does not. */
  lemma SkillReadyFirst(items: seq<Item>, log10x10: int -> nat, ageMs: string -> Option<int>)
    ensures var r := Rank(items, log10x10, ageMs);
      forall i, j :: 0 <= i < j < |r| && r[j].item.hasSkillMd ==> r[i].item.hasSkillMd
  {
    var scored := ScoreAll(items, log10x10, ageMs);
    var r := Rank(items, log10x10, ageMs);
    forall y | y in r
      ensures ScoreBand(y)
    {
      assert y in multiset(scored);
    }
    forall i, j | 0 <= i < j < |r| && r[j].item.hasSkillMd
      ensures r[i].item.hasSkillMd
    {
      assert r[i] in r && r[j] in r;
    }
  }

  // ---------------------------------------------------------------
  // Cache
  // ---------------------------------------------------------------

  predicate IsKeyChar(c: char) {
    ('A' <= c <= 'Z') || ('a' <= c <= 'z') || ('0' <= c <= '9') || c == '_'
  }

  /** `.replace(/[/+=]/g, '_')`. */
  function ReplaceUnsafe(s: string): (r: string)
    ensures |r| == |s|
    ensures forall i :: 0 <= i < |s| ==> r[i] == if s[i] in "/+=" then '_' else s[i]
  {
    if s == [] then [] else [if s[0] in "/+=" then '_' else s[0]] + ReplaceUnsafe(s[1..])
  }

  /** `getCacheKey`: the base64 form of the query's UTF-8 bytes, with the
      three characters a file name should not hold replaced by `_`. The key
      is made of letters, digits and `_`, four characters for every
      (started) three bytes of the query. */
  function CacheKey(query: string): (key: string)
    ensures |key| == 4 * ((|Utf8.Encode(query)| + 2) / 3)
    ensures forall i :: 0 <= i < |key| ==> IsKeyChar(key[i])
  {
    var b := Utf8.Encode(query);
    var e := Base64.Encode(b);
    Base64.EncodeLength(b);
    Base64.EncodeCharset(b);
    assert forall i :: 0 <= i < |e| ==> Base64.IsAlphabetChar(e[i]) || e[i] == '=';
    ReplaceUnsafeKeyChars(e);
    ReplaceUnsafe(e)
  }

  lemma ReplaceUnsafeKeyChars(e: string)
    requires forall i :: 0 <= i < |e| ==> Base64.IsAlphabetChar(e[i]) || e[i] == '='
    ensures forall i :: 0 <= i < |e| ==> IsKeyChar(ReplaceUnsafe(e)[i])
  {
    var key := ReplaceUnsafe(e);
    forall i | 0 <= i < |e|
      ensures IsKeyChar(key[i])
    {
      assert Base64.IsAlphabetChar(e[i]) || e[i] == '=';
    }
  }

  /** Two different queries can share a cache key, since `+` and `/` both
      become `_`: `ab>` encodes to `YWI+` and `ab?` to `YWI/`. */
  lemma CacheKeyCollision()
    ensures "ab>" != "ab?" && CacheKey("ab>") == CacheKey("ab?")
  {
    var bp := AsciiThree("ab>");
    var bq := AsciiThree("ab?");
    var ep := EncodeThree(bp);
    var eq := EncodeThree(bq);
    GroupKeysCollide();
  }

  /** The UTF-8 bytes of three ASCII characters are their code points. */
  lemma AsciiThree(s: string) returns (b: seq<Utf8.Byte>)
    requires |s| == 3 && forall i :: 0 <= i < 3 ==> (s[i] as int) < 0x80
    ensures b == Utf8.Encode(s) && b == [s[0] as int, s[1] as int, s[2] as int]
  {
    Utf8.EncodeAscii(s);
    b := Utf8.Encode(s);
  }

  /** The groups for `ab>` and `ab?` differ only in a last character that
      both become `_` in a cache key. */
  lemma GroupKeysCollide()
    ensures ReplaceUnsafe(Base64.Group(97, 98, 62)) == ReplaceUnsafe(Base64.Group(97, 98, 63))
  {
    var ep, eq := Base64.Group(97, 98, 62), Base64.Group(97, 98, 63);
    GroupSharesHead(97, 98, 62, 63);
    assert ep[3] == Base64.Sextet(62) == '+';
    assert eq[3] == Base64.Sextet(63) == '/';
    var kp, kq := ReplaceUnsafe(ep), ReplaceUnsafe(eq);
    forall i | 0 <= i < 4
      ensures kp[i] == kq[i]
    {
      if i < 3 {
        assert ep[i] == eq[i];
      }
    }
  }

  /** Two groups whose third bytes agree in their top two bits share their
      first three characters. */
  lemma GroupSharesHead(b0: Utf8.Byte, b1: Utf8.Byte, x: Utf8.Byte, y: Utf8.Byte)
    requires x / 64 == y / 64
    ensures Base64.Group(b0, b1, x)[..3] == Base64.Group(b0, b1, y)[..3]
  {
  }



  /** Three bytes encode to one full group. */
  lemma EncodeThree(b: seq<Utf8.Byte>) returns (e: string)
    requires |b| == 3
    ensures e == Base64.Encode(b) == Base64.Group(b[0], b[1], b[2])
  {
    Base64.EncodeCons(b);
    assert b[3..] == [];
    e := Base64.Encode(b);
  }


  /** What `search` returns, and what a cache file holds as `data`. */
  datatype SearchResult = SearchResult(results: seq<Ranked>, rateLimitRemaining: int, cached: bool,
                                       query: string, expandedTerms: seq<string>)

  /** A parsed cache file; a missing `timestamp` is `None`. */
  datatype CacheRecord = CacheRecord(timestamp: Option<int>, data: SearchResult)

  /** Ten minutes, in milliseconds. */
  const MaxCacheAge: int := 10 * 60 * 1000

  function CacheFilePath(cacheDir: string, query: string): string {
    Paths.Join(cacheDir, CacheKey(query) + ".json")
  }

  /** `checkCache`: a hit needs a cache directory, a cache file for the
      query that parses, and a timestamp less than ten minutes old; a hit
      gives the stored result marked as cached. */
  function CheckCache(cacheDir: Option<string>, query: string, files: map<string, string>,
                      parseCache: string -> Option<CacheRecord>, now: int): (r: Option<SearchResult>)
    ensures !Truthy(cacheDir) ==> r.None?
    ensures r.Some? <==>
              (Truthy(cacheDir) && CacheFilePath(cacheDir.value, query) in files
               && parseCache(files[CacheFilePath(cacheDir.value, query)]).Some?
               && parseCache(files[CacheFilePath(cacheDir.value, query)]).value.timestamp.Some?
               && now - parseCache(files[CacheFilePath(cacheDir.value, query)]).value.timestamp.value < MaxCacheAge)
    ensures r.Some? ==>
              r.value == parseCache(files[CacheFilePath(cacheDir.value, query)]).value.data.(cached := true)
  {
    if !Truthy(cacheDir) then None
    else
      var path := CacheFilePath(cacheDir.value, query);
      if path !in files then None
      else match parseCache(files[path])
        case None => None
        case Some(record) =>
          if record.timestamp.Some? && now - record.timestamp.value < MaxCacheAge
          then Some(record.data.(cached := true))
          else None
  }

  // ---------------------------------------------------------------
  // search
  // ---------------------------------------------------------------

  /** The fresh result of `search` when the cache has no answer. */
  function FreshResult(query: string, code: Outcome, repo: Outcome,
                       log10x10: int -> nat, ageMs: string -> Option<int>): SearchResult {
    SearchResult(Rank(DedupBy(code.items + repo.items, ItemId, {}), log10x10, ageMs),
                 RateLimitRemaining(code.remaining, repo.remaining), false, query, ExpandedTerms(query))
  }

  /** `search`: a cache hit is returned as it is; otherwise both searches
      run on the expanded query texts and their items are merged and
      ranked. */
  method Search(query: string, cacheDir: Option<string>, files: map<string, string>,
                parseCache: string -> Option<CacheRecord>, now: int,
                codeSearch: string -> Response<CodeHit>, repoSearch: string -> Response<RepoHit>,
                log10x10: int -> nat, ageMs: string -> Option<int>)
    returns (r: SearchResult)
    ensures CheckCache(cacheDir, query, files, parseCache, now).Some? ==>
              r == CheckCache(cacheDir, query, files, parseCache, now).value && r.cached
    ensures CheckCache(cacheDir, query, files, parseCache, now).None? ==>
              r == FreshResult(query, CodeOutcome(codeSearch(CodeSearchQuery(query))),
                               RepoOutcome(repoSearch(RepoSearchQuery(query))), log10x10, ageMs)
              && !r.cached && r.rateLimitRemaining != 0
  {
    var hit := CheckCache(cacheDir, query, files, parseCache, now);
    if hit.Some? {
      return hit.value;
    }
    var expanded := ExpandQuery(query);
    var code := CodeOutcome(codeSearch(expanded.codeSearchQuery));
    var repo := RepoOutcome(repoSearch(expanded.repoSearchQuery));
    var merged := Merge(code.items + repo.items);
    r := SearchResult(Rank(merged, log10x10, ageMs), RateLimitRemaining(code.remaining, repo.remaining),
                      false, expanded.original, expanded.expanded);
  }
}
