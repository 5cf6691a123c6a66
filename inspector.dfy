/** The repository inspector: it locates SKILL.md files in a repository's
    file tree and parses their headers, scans the tree for binaries, scripts,
    suspicious script content and package lifecycle hooks, classifies the
    repository as A (already a skill), B (convertible) or C (not suitable),
    and for B drafts a conversion plan.

    The GitHub API is replaced by oracles: `fetch(path)` is the decoded
    content of a file (`None` for every failure), the two JSON requests are
    `Reply` values, `parseScripts` gives the `scripts` object of a parsed
    `package.json`, and `matches(content, k)` says whether the k-th
    suspicious-pattern regular expression matches. */
module Inspector {
  import opened Wrappers
  import opened JsStrings
  import opened SkillNames
  import Seqs
  import Cli
  import RepoId

  // ---------------------------------------------------------------
  // Data model
  // ---------------------------------------------------------------

  /** A located skill: `path` is its folder, `name`/`description` come from
      its header and may be missing. */
  datatype SkillInfo = SkillInfo(path: string, name: Option<string>, description: Option<string>)

  datatype RiskLevel = Low | Medium | High

  datatype Category = A | B | C

  datatype Classification = Classification(category: Category, confidence: int, explanation: string)

  datatype SuspiciousMatch = SuspiciousMatch(file: string, pattern: string)

  datatype ConversionPlan = ConversionPlan(
    proposedName: string,
    keep: seq<string>,
    ignore: seq<string>,
    dependencies: seq<string>,
    skillMdProposal: string)

  datatype RiskReport = RiskReport(
    level: RiskLevel,
    binaries: seq<string>,
    scripts: seq<string>,
    suspiciousPatterns: seq<string>,
    npmHooks: seq<string>)

  /** The `license` field of the repository metadata: JSON `null`, absent,
      or an object whose `spdx_id` may be missing. */
  datatype License = LicenseNull | LicenseUndefined | LicenseObject(spdxId: Option<string>)

  /** The repository metadata fields the inspector reads. */
  datatype RepoInfo = RepoInfo(
    defaultBranch: Option<string>,
    stars: Option<int>,
    license: License,
    updatedAt: Option<string>,
    description: Option<string>)

  /** A GitHub API answer: an HTTP status with its parsed body, or the
      rejection (network or JSON error) with its message. */
  datatype Reply<T> = Reply(status: int, data: T) | Rejected(message: string)

  datatype RepoSummary = RepoSummary(stars: Option<int>, license: Option<string>, lastUpdated: Option<string>)

  datatype InspectionResult = InspectionResult(
    id: string,
    category: Category,
    confidence: int,
    explanation: string,
    skills: seq<SkillInfo>,
    conversionPlan: Option<ConversionPlan>,
    riskReport: RiskReport,
    repoInfo: RepoSummary)

  // ---------------------------------------------------------------
  // Command line
  // ---------------------------------------------------------------

  const Keywords: set<string> := {"inspect"}
  const FlagNames: set<string> := {"--repo", "--pat"}

  /** `parseArgs`: the command is always `inspect`; `--repo` and `--pat`
      take the following non-empty argument. */
  method ParseArgs(args: seq<string>) returns (p: Cli.Parsed)
    ensures p.command == Some("inspect")
    ensures p.flags.Keys <= FlagNames
    ensures forall f :: f in p.flags ==>
              (p.flags[f] != "" && exists k :: 0 <= k && k + 1 < |args| && args[k] == f && args[k + 1] == p.flags[f])
    ensures "--repo" !in args ==> p.Flag("--repo").None?
  {
    p := Cli.Parse(args, Keywords, FlagNames, Some("inspect"));
    Cli.CommandIsKeyword(args, Keywords, FlagNames, Some("inspect"));
    forall f | f in p.flags
      ensures f in FlagNames && p.flags[f] != "" &&
              (exists k :: 0 <= k && k + 1 < |args| && args[k] == f && args[k + 1] == p.flags[f])
    {
      Cli.FlagFollowsFlag(args, Keywords, FlagNames, Some("inspect"), f);
    }
  }

  /** `main`'s check before inspecting. */
  function RequireRepo(p: Cli.Parsed): (r: Result<string>)
    ensures r.Success? <==> "--repo" in p.flags
    ensures r.Failure? ==> r.error == "Missing --repo argument"
    ensures r.Success? ==> r.value == p.flags["--repo"]
  {
    if "--repo" in p.flags then Success(p.flags["--repo"]) else Failure("Missing --repo argument")
  }

  // ---------------------------------------------------------------
  // SKILL.md detection
  // ---------------------------------------------------------------

  /** `filePath.replace('/SKILL.md', '') || '.'`: only the first occurrence is
      removed, and a root `SKILL.md` keeps its own name. */
  function SkillPath(filePath: string): string {
    var r := ReplaceFirst(filePath, "/SKILL.md", "");
    if r == "" then "." else r
  }

  /** `parseSkillMd`: `None` unless the content has a front-matter block;
      otherwise the trimmed captures of its first `name:` and `description:`
      lines. */
  function ParseSkillMd(content: string, filePath: string): (r: Option<SkillInfo>)
    ensures r.Some? <==> Frontmatter(content).Some?
    ensures r.Some? ==> r.value.path == SkillPath(filePath)
    ensures r.Some? && r.value.name.Some? ==>
              KeyLine(Frontmatter(content).value, "name:").Some? &&
              r.value.name.value == Trim(KeyLine(Frontmatter(content).value, "name:").value)
    ensures r.Some? && r.value.name.None? ==> KeyLine(Frontmatter(content).value, "name:").None?
    ensures r.Some? && r.value.description.Some? ==>
              KeyLine(Frontmatter(content).value, "description:").Some? &&
              r.value.description.value == Trim(KeyLine(Frontmatter(content).value, "description:").value)
    ensures r.Some? && r.value.description.None? ==> KeyLine(Frontmatter(content).value, "description:").None?
  {
    match Frontmatter(content)
    case None => None
    case Some(fm) =>
      var name := KeyLine(fm, "name:");
      var desc := KeyLine(fm, "description:");
      Some(SkillInfo(
        SkillPath(filePath),
        if name.Some? then Some(Trim(name.value)) else None,
        if desc.Some? then Some(Trim(desc.value)) else None))
  }

  /** A header is found only in content that starts with `---` and has a
      later `\n---`. */
  lemma FrontmatterNeedsDelimiters(content: string)
    requires Frontmatter(content).Some?
    ensures StartsWith(content, "---")
    ensures exists j :: 4 <= j && OccursAt(content, "\n---", j)
  {
  }

  /** Conversely, content that starts with a `---` line and has a `\n---`
      after that line always has a header. */
  lemma FrontmatterFound(content: string, j: nat)
    requires StartsWith(content, "---\n")
    requires 4 <= j && OccursAt(content, "\n---", j)
    ensures Frontmatter(content).Some?
  {
    assert content[..3] == "---";
    assert content[3] == '\n';
    FrontmatterBackFinds(content, SpaceEnd(content, 3), j);
  }

  lemma {:induction false} FrontmatterBackFinds(content: string, k: nat, j: nat)
    requires 4 <= k <= |content| && content[3] == '\n'
    requires 4 <= j && OccursAt(content, "\n---", j)
    ensures FrontmatterBack(content, k).Some?
    decreases k
  {
    if k == 4 {
      assert IndexOf(content, "\n---", 4).Some?;
    } else if !(content[k - 1] == '\n' && IndexOf(content, "\n---", k).Some?) {
      FrontmatterBackFinds(content, k - 1, j);
    }
  }

  /** The root `SKILL.md` keeps the path `SKILL.md`, not `.`. */
  lemma RootSkillPath()
    ensures SkillPath("SKILL.md") == "SKILL.md"
  {
    assert forall k :: 0 <= k ==> !OccursAt("SKILL.md", "/SKILL.md", k);
  }

  /** A nested `dir/SKILL.md` (no `/SKILL.md` inside `dir`) gets the path `dir`. */
  lemma NestedSkillPath(dir: string)
    requires dir != "" && IndexOf(dir, "/SKILL.md", 0).None?
    ensures SkillPath(dir + "/SKILL.md") == dir
  {
    var s := dir + "/SKILL.md";
    assert OccursAt(s, "/SKILL.md", |dir|);
    forall k | 0 <= k < |dir|
      ensures !OccursAt(s, "/SKILL.md", k)
    {
      if k + 9 <= |dir| {
        assert !OccursAt(dir, "/SKILL.md", k);
        assert s[k..k + 9] == dir[k..k + 9];
      } else if k + 9 <= |s| {
        var d := |dir| - k;
        assert s[|dir|] == '/';
        assert s[k..k + 9][d] == s[|dir|];
        assert "/SKILL.md"[d] != '/';
      }
    }
    assert IndexOf(s, "/SKILL.md", 0) == Some(|dir|);
    assert s[..|dir|] == dir;
    assert s[|dir| + 9..] == "";
  }

  /** The tree entries `findSkillMd` turns into descriptors: paths ending in
      `SKILL.md` (so also `MYSKILL.md`) whose content is non-empty and has a
      header. */
  predicate IsSkillEntry(path: string, fetch: string -> Option<string>) {
    EndsWith(path, "SKILL.md") && fetch(path).Some? && fetch(path).value != ""
    && ParseSkillMd(fetch(path).value, path).Some?
  }

  /** `IsSkillEntry` for a fixed oracle, as a value for `Seqs.Count`. */
  function SkillEntryTest(fetch: string -> Option<string>): string -> bool {
    p => IsSkillEntry(p, fetch)
  }

  /** What one tree entry contributes: its descriptor, or nothing. */
  function SkillOf(path: string, fetch: string -> Option<string>): (r: seq<SkillInfo>)
    ensures |r| == if IsSkillEntry(path, fetch) then 1 else 0
  {
    if IsSkillEntry(path, fetch) then [ParseSkillMd(fetch(path).value, path).value] else []
  }

  /** The descriptors of `tree`, in tree order. */
  function FoundSkills(tree: seq<string>, fetch: string -> Option<string>): (r: seq<SkillInfo>)
    ensures |r| == Seqs.Count(SkillEntryTest(fetch), tree)
    decreases |tree|
  {
    if tree == [] then []
    else
      var init := tree[..|tree| - 1];
      var p := tree[|tree| - 1];
      assert tree == init + [p];
      CountSnoc(init, p, SkillEntryTest(fetch));
      FoundSkills(init, fetch) + SkillOf(p, fetch)
  }

  lemma {:induction false} CountSnoc(init: seq<string>, p: string, test: string -> bool)
    ensures Seqs.Count(test, init + [p]) == Seqs.Count(test, init) + (if test(p) then 1 else 0)
  {
    if init == [] {
      assert init + [p] == [p];
    } else {
      assert (init + [p])[1..] == init[1..] + [p];
      CountSnoc(init[1..], p, test);
    }
  }

  lemma FoundSkillsSnoc(init: seq<string>, p: string, fetch: string -> Option<string>)
    ensures FoundSkills(init + [p], fetch) == FoundSkills(init, fetch) + SkillOf(p, fetch)
  {
    assert (init + [p])[..|init|] == init;
  }

  lemma FoundSkillsStep(tree: seq<string>, i: nat, fetch: string -> Option<string>)
    requires i < |tree|
    ensures FoundSkills(tree[..i + 1], fetch) == FoundSkills(tree[..i], fetch) + SkillOf(tree[i], fetch)
  {
    assert tree[..i + 1] == tree[..i] + [tree[i]];
    FoundSkillsSnoc(tree[..i], tree[i], fetch);
  }

  /** Every descriptor comes from a tree entry ending in `SKILL.md` with
      non-empty content whose header parses to exactly that descriptor. */
  lemma {:induction false} FoundSkillsSource(tree: seq<string>, fetch: string -> Option<string>, s: SkillInfo)
    requires s in FoundSkills(tree, fetch)
    ensures exists p :: p in tree && EndsWith(p, "SKILL.md") && fetch(p).Some? && fetch(p).value != ""
                        && ParseSkillMd(fetch(p).value, p) == Some(s)
    decreases |tree|
  {
    var init := tree[..|tree| - 1];
    var p := tree[|tree| - 1];
    if s in FoundSkills(init, fetch) {
      FoundSkillsSource(init, fetch, s);
      var q :| q in init && EndsWith(q, "SKILL.md") && fetch(q).Some? && fetch(q).value != ""
                && ParseSkillMd(fetch(q).value, q) == Some(s);
      assert q in tree;
    } else {
      assert s in SkillOf(p, fetch);
    }
  }

  /** At most one descriptor per entry whose path ends in `SKILL.md`. */
  lemma {:induction false} FoundSkillsBound(tree: seq<string>, fetch: string -> Option<string>)
    ensures |FoundSkills(tree, fetch)| <= Seqs.Count(p => EndsWith(p, "SKILL.md"), tree)
  {
    CountMono(tree, SkillEntryTest(fetch), p => EndsWith(p, "SKILL.md"));
  }

  lemma {:induction false} CountMono(tree: seq<string>, t1: string -> bool, t2: string -> bool)
    requires forall p :: t1(p) ==> t2(p)
    ensures Seqs.Count(t1, tree) <= Seqs.Count(t2, tree)
  {
    if tree != [] {
      CountMono(tree[1..], t1, t2);
    }
  }

  /** The body of `findSkillMd`'s loop for one entry. */
  method SkillAt(path: string, fetch: string -> Option<string>) returns (found: seq<SkillInfo>)
    ensures found == SkillOf(path, fetch)
  {
    found := [];
    if EndsWith(path, "SKILL.md") {
      var content := fetch(path);
      if content.Some? && content.value != "" {
        var info := ParseSkillMd(content.value, path);
        if info.Some? {
          found := [info.value];
        }
      }
    }
  }

  /** `findSkillMd`: one pass over the tree, fetching each `SKILL.md`. */
  method FindSkillMd(tree: seq<string>, fetch: string -> Option<string>) returns (skills: seq<SkillInfo>)
    ensures skills == FoundSkills(tree, fetch)
  {
    skills := [];
    var i := 0;
    while i < |tree|
      invariant i <= |tree|
      invariant skills == FoundSkills(tree[..i], fetch)
    {
      FoundSkillsStep(tree, i, fetch);
      var found := SkillAt(tree[i], fetch);
      skills := skills + found;
      i := i + 1;
    }
    assert tree[..i] == tree;
  }

  // ---------------------------------------------------------------
  // Risk scanning
  // ---------------------------------------------------------------

  const BinaryExtensions: seq<string> := [".exe", ".dll", ".so", ".dylib", ".bin", ".app", ".msi", ".pkg"]
  const ScriptExtensions: seq<string> := [".sh", ".bash", ".ps1", ".bat", ".cmd"]

  /** The `toString()` of the seven suspicious-content regular expressions,
      in the order they are tried. */
  const PatternTexts: seq<string> := [
    "/curl\\s+.*\\|\\s*(bash|sh)/i",
    "/wget\\s+.*\\|\\s*(bash|sh)/i",
    "/powershell.*-enc/i",
    "/base64.*\\|\\s*(bash|sh)/i",
    "/eval\\s*\\(/i",
    "/\\$\\(curl/i",
    "/\\$\\(wget/i"
  ]

  const DangerousHooks: seq<string> := ["preinstall", "postinstall", "preuninstall", "postuninstall"]

  /** `'.' + path.split('.').pop().toLowerCase()`: everything after the last
      dot, or the whole path when it has no dot. */
  function Extension(path: string): string {
    var parts := SplitOn(path, '.');
    "." + ToLower(parts[|parts| - 1])
  }

  predicate IsBinaryPath(path: string) {
    Extension(path) in BinaryExtensions
  }

  predicate IsScriptPath(path: string) {
    Extension(path) in ScriptExtensions
  }

  /** The extension is the lower-cased text after the last dot. */
  lemma ExtensionAfterLastDot(stem: string, ext: string)
    requires '.' !in ext
    ensures Extension(stem + "." + ext) == "." + ToLower(ext)
  {
    SplitLast(stem, ext, '.');
  }

  /** A path without a dot is its own extension: `bin` reads as `.bin`. */
  lemma ExtensionOfDotless(path: string)
    requires '.' !in path
    ensures Extension(path) == "." + ToLower(path)
  {
    SplitWithout(path, '.');
  }

  /** A root entry named `bin`, with no dot at all, is flagged as a binary. */
  lemma DotlessBinary()
    ensures IsBinaryPath("bin")
  {
    ExtensionOfDotless("bin");
    var low := ToLower("bin");
    assert low[0] == 'b' && low[1] == 'i' && low[2] == 'n';
    assert "." + low == BinaryExtensions[4];
  }

  /** The extension test ignores case. */
  lemma ExtensionIgnoresCase()
    ensures IsBinaryPath("setup.EXE")
  {
    ExtensionAfterLastDot("setup", "EXE");
    assert "setup" + "." + "EXE" == "setup.EXE";
    var low := ToLower("EXE");
    assert low[0] == LowerChar('E') == 'e';
    assert low[1] == LowerChar('X') == 'x';
    assert low[2] == 'e';
    assert "." + low == BinaryExtensions[0];
  }

  /** No path is both a binary and a script: the extension lists are disjoint. */
  lemma BinaryNotScript(path: string)
    ensures !(IsBinaryPath(path) && IsScriptPath(path))
  {
  }

  /** `scanTree`: the binary and the script paths, each in tree order. */
  method ScanTree(tree: seq<string>) returns (binaries: seq<string>, scripts: seq<string>)
    ensures binaries == Seqs.Filter(IsBinaryPath, tree)
    ensures scripts == Seqs.Filter(IsScriptPath, tree)
  {
    binaries, scripts := [], [];
    var i := 0;
    while i < |tree|
      invariant i <= |tree|
      invariant binaries == Seqs.Filter(IsBinaryPath, tree[..i])
      invariant scripts == Seqs.Filter(IsScriptPath, tree[..i])
    {
      var path := tree[i];
      var ext := Extension(path);
      Seqs.FilterStep(IsBinaryPath, tree, i);
      Seqs.FilterStep(IsScriptPath, tree, i);
      if ext in BinaryExtensions {
        binaries := binaries + [path];
      }
      if ext in ScriptExtensions {
        scripts := scripts + [path];
      }
      i := i + 1;
    }
    assert tree[..i] == tree;
  }

  /** The two lists keep tree order and never share an entry. */
  lemma ScanTreeLists(tree: seq<string>)
    ensures Seqs.IsSubseq(Seqs.Filter(IsBinaryPath, tree), tree)
    ensures Seqs.IsSubseq(Seqs.Filter(IsScriptPath, tree), tree)
    ensures forall p :: p in Seqs.Filter(IsBinaryPath, tree) ==> p !in Seqs.Filter(IsScriptPath, tree)
  {
    Seqs.FilterIsSubseq(IsBinaryPath, tree);
    Seqs.FilterIsSubseq(IsScriptPath, tree);
  }

  /** The `package.json` hooks reported: those of the four dangerous ones
      whose value is non-empty, in that fixed order; nothing when the file is
      missing or empty or its `scripts` cannot be read. */
  function NpmHooks(content: Option<string>, parseScripts: string -> Option<map<string, string>>): (hooks: seq<string>)
    ensures forall h :: h in hooks <==>
      h in DangerousHooks && content.Some? && content.value != "" && parseScripts(content.value).Some?
      && h in parseScripts(content.value).value && parseScripts(content.value).value[h] != ""
    ensures Seqs.IsSubseq(hooks, DangerousHooks)
  {
    if content.None? || content.value == "" then []
    else match parseScripts(content.value)
      case None => []
      case Some(m) =>
        Seqs.FilterIsSubseq(h => h in m && m[h] != "", DangerousHooks);
        Seqs.Filter(h => h in m && m[h] != "", DangerousHooks)
  }

  /** `scanPackageJson`: the loop over the four hook names. */
  method ScanPackageJson(content: Option<string>, parseScripts: string -> Option<map<string, string>>)
    returns (hooks: seq<string>)
    ensures hooks == NpmHooks(content, parseScripts)
  {
    if content.None? || content.value == "" {
      return [];
    }
    var scripts := parseScripts(content.value);
    if scripts.None? {
      return [];
    }
    var m := scripts.value;
    ghost var truthy := h => h in m && m[h] != "";
    hooks := [];
    var i := 0;
    while i < |DangerousHooks|
      invariant i <= |DangerousHooks|
      invariant hooks == Seqs.Filter(truthy, DangerousHooks[..i])
    {
      var hook := DangerousHooks[i];
      Seqs.FilterStep(truthy, DangerousHooks, i);
      if hook in m && m[hook] != "" {
        hooks := hooks + [hook];
      }
      i := i + 1;
    }
    assert DangerousHooks[..i] == DangerousHooks;
  }

  /** The first pattern index from `k` on that matches `content`. */
  function FirstPattern(content: string, matches: (string, nat) -> bool, k: nat): (r: Option<nat>)
    requires k <= |PatternTexts|
    ensures r.Some? ==> k <= r.value < |PatternTexts| && matches(content, r.value)
    ensures r.Some? ==> forall j :: k <= j < r.value ==> !matches(content, j)
    ensures r.None? ==> forall j :: k <= j < |PatternTexts| ==> !matches(content, j)
    decreases |PatternTexts| - k
  {
    if k == |PatternTexts| then None
    else if matches(content, k) then Some(k)
    else FirstPattern(content, matches, k + 1)
  }

  /** What one script contributes: nothing when its content is missing or
      empty or matches no pattern, otherwise its first matching pattern. */
  function ScriptFlag(path: string, fetch: string -> Option<string>, matches: (string, nat) -> bool): (r: seq<SuspiciousMatch>)
    ensures |r| <= 1
    ensures r != [] ==> r[0].file == path && r[0].pattern in PatternTexts
    ensures r != [] <==> fetch(path).Some? && fetch(path).value != ""
                         && exists k :: 0 <= k < |PatternTexts| && matches(fetch(path).value, k)
    ensures r != [] ==> FirstPattern(fetch(path).value, matches, 0).Some?
                        && r == [SuspiciousMatch(path, PatternTexts[FirstPattern(fetch(path).value, matches, 0).value])]
  {
    var content := fetch(path);
    if content.None? || content.value == "" then []
    else match FirstPattern(content.value, matches, 0)
      case None => []
      case Some(k) => [SuspiciousMatch(path, PatternTexts[k])]
  }

  /** The findings for `scripts`, in script order. */
  function Suspicious(scripts: seq<string>, fetch: string -> Option<string>, matches: (string, nat) -> bool): (r: seq<SuspiciousMatch>)
    ensures |r| <= |scripts|
    ensures forall m :: m in r ==> m.file in scripts && m.pattern in PatternTexts
    decreases |scripts|
  {
    if scripts == [] then []
    else
      var init := scripts[..|scripts| - 1];
      Suspicious(init, fetch, matches) + ScriptFlag(scripts[|scripts| - 1], fetch, matches)
  }

  /** Every finding is the flag of a script of the list: its file's first
      matching pattern. */
  lemma {:induction false} SuspiciousFlagged(s: seq<string>, fetch: string -> Option<string>, matches: (string, nat) -> bool)
    ensures forall m :: m in Suspicious(s, fetch, matches) ==> m.file in s && ScriptFlag(m.file, fetch, matches) == [m]
    decreases |s|
  {
    if s != [] {
      var init := s[..|s| - 1];
      var last := s[|s| - 1];
      SuspiciousFlagged(init, fetch, matches);
      assert forall p :: p in init ==> p in s;
      var f := ScriptFlag(last, fetch, matches);
      assert Suspicious(s, fetch, matches) == Suspicious(init, fetch, matches) + f;
      forall m | m in f
        ensures m.file in s && ScriptFlag(m.file, fetch, matches) == [m]
      {
        assert f == [f[0]] && m == f[0];
      }
    }
  }

  /** Every script of the list whose flag is not empty has its finding
      reported. */
  lemma {:induction false} SuspiciousComplete(s: seq<string>, fetch: string -> Option<string>, matches: (string, nat) -> bool)
    ensures forall i :: 0 <= i < |s| && ScriptFlag(s[i], fetch, matches) != [] ==>
              ScriptFlag(s[i], fetch, matches)[0] in Suspicious(s, fetch, matches)
    decreases |s|
  {
    if s != [] {
      var init := s[..|s| - 1];
      SuspiciousComplete(init, fetch, matches);
      var f := ScriptFlag(s[|s| - 1], fetch, matches);
      assert Suspicious(s, fetch, matches) == Suspicious(init, fetch, matches) + f;
      forall i | 0 <= i < |s| && ScriptFlag(s[i], fetch, matches) != []
        ensures ScriptFlag(s[i], fetch, matches)[0] in Suspicious(s, fetch, matches)
      {
        if i < |s| - 1 {
          assert s[i] == init[i];
        }
      }
    }
  }

  lemma SuspiciousSnoc(init: seq<string>, p: string, fetch: string -> Option<string>, matches: (string, nat) -> bool)
    ensures Suspicious(init + [p], fetch, matches) == Suspicious(init, fetch, matches) + ScriptFlag(p, fetch, matches)
  {
    assert (init + [p])[..|init|] == init;
  }

  lemma SuspiciousStep(s: seq<string>, i: nat, fetch: string -> Option<string>, matches: (string, nat) -> bool)
    requires i < |s|
    ensures Suspicious(s[..i + 1], fetch, matches) == Suspicious(s[..i], fetch, matches) + ScriptFlag(s[i], fetch, matches)
  {
    assert s[..i + 1] == s[..i] + [s[i]];
    SuspiciousSnoc(s[..i], s[i], fetch, matches);
  }

  /** The inner loop of `scanForPatterns`: try the patterns in order and stop
      at the first that matches. */
  method FirstMatchingPattern(content: string, matches: (string, nat) -> bool) returns (r: Option<nat>)
    ensures r == FirstPattern(content, matches, 0)
  {
    var k := 0;
    while k < |PatternTexts|
      invariant k <= |PatternTexts|
      invariant FirstPattern(content, matches, k) == FirstPattern(content, matches, 0)
    {
      if matches(content, k) {
        return Some(k);
      }
      k := k + 1;
    }
    return None;
  }

  /** The body of `scanForPatterns`'s loop for one script. */
  method ScriptAt(path: string, fetch: string -> Option<string>, matches: (string, nat) -> bool)
    returns (flag: seq<SuspiciousMatch>)
    ensures flag == ScriptFlag(path, fetch, matches)
  {
    flag := [];
    var content := fetch(path);
    if content.Some? && content.value != "" {
      var k := FirstMatchingPattern(content.value, matches);
      if k.Some? {
        flag := [SuspiciousMatch(path, PatternTexts[k.value])];
      }
    }
  }

  /** `scanForPatterns`: only the first five scripts are fetched; a script
      stops at its first matching pattern. */
  method ScanForPatterns(scripts: seq<string>, fetch: string -> Option<string>, matches: (string, nat) -> bool)
    returns (found: seq<SuspiciousMatch>)
    ensures found == Suspicious(Seqs.Take(scripts, 5), fetch, matches)
    ensures |found| <= 5
    ensures forall m :: m in found ==> m.file in Seqs.Take(scripts, 5) && ScriptFlag(m.file, fetch, matches) == [m]
    ensures forall i :: 0 <= i < |Seqs.Take(scripts, 5)| && ScriptFlag(Seqs.Take(scripts, 5)[i], fetch, matches) != [] ==>
              ScriptFlag(Seqs.Take(scripts, 5)[i], fetch, matches)[0] in found
  {
    var sample := Seqs.Take(scripts, 5);
    found := [];
    var i := 0;
    while i < |sample|
      invariant i <= |sample|
      invariant found == Suspicious(sample[..i], fetch, matches)
    {
      var path := sample[i];
      SuspiciousStep(sample, i, fetch, matches);
      var flag := ScriptAt(path, fetch, matches);
      found := found + flag;
      i := i + 1;
    }
    assert sample[..i] == sample;
    SuspiciousFlagged(sample, fetch, matches);
    SuspiciousComplete(sample, fetch, matches);
  }

  /** `calculateRiskLevel`. */
  function CalculateRiskLevel(binaries: seq<string>, scripts: seq<string>, suspicious: seq<SuspiciousMatch>, hooks: seq<string>): (r: RiskLevel)
    ensures r == High <==> binaries != [] || suspicious != []
    ensures r == Medium <==> binaries == [] && suspicious == [] && (scripts != [] || hooks != [])
    ensures r == Low <==> binaries == [] && suspicious == [] && scripts == [] && hooks == []
  {
    if |binaries| > 0 || |suspicious| > 0 then High
    else if |scripts| > 0 || |hooks| > 0 then Medium
    else Low
  }

  function Severity(l: RiskLevel): nat {
    match l
    case Low => 0
    case Medium => 1
    case High => 2
  }

  /** Adding a binary makes the level high, so it never lowers it. */
  lemma AddingBinaryNeverLowers(binaries: seq<string>, b: string, scripts: seq<string>, suspicious: seq<SuspiciousMatch>, hooks: seq<string>)
    ensures CalculateRiskLevel(binaries + [b], scripts, suspicious, hooks) == High
    ensures Severity(CalculateRiskLevel(binaries, scripts, suspicious, hooks))
         <= Severity(CalculateRiskLevel(binaries + [b], scripts, suspicious, hooks))
  {
  }

  // ---------------------------------------------------------------
  // Classification
  // ---------------------------------------------------------------

  /** `hasCode`: some path ends in `.js`, `.ts`, `.py` or `.sh` (case-sensitive). */
  predicate HasCode(tree: seq<string>) {
    exists p :: p in tree && (EndsWith(p, ".js") || EndsWith(p, ".ts") || EndsWith(p, ".py") || EndsWith(p, ".sh"))
  }

  /** `license !== null`: an absent license field counts as a license. */
  predicate HasLicense(license: License) {
    license != LicenseNull
  }

  /** `classify`: A whenever a skill was found; B with a README and some code;
      C otherwise. */
  function Classify(tree: seq<string>, skills: seq<SkillInfo>, readme: Option<string>, license: License): (c: Classification)
    ensures c.category == A <==> skills != []
    ensures c.category == B <==> skills == [] && readme.Some? && HasCode(tree)
    ensures c.category == C <==> skills == [] && !(readme.Some? && HasCode(tree))
    ensures c.category == A ==> c.confidence == 95
    ensures c.category == B ==> c.confidence == 60 + (if HasLicense(license) then 15 else 0) + (if |tree| < 100 then 10 else 0)
    ensures c.category == C ==> c.confidence == 70
  {
    if |skills| > 0 then
      Classification(A, 95, "Repository contains " + NatToString(|skills|) + " valid SKILL.md file(s)")
    else if readme.Some? && HasCode(tree) then
      var confidence := 60 + (if HasLicense(license) then 15 else 0) + (if |tree| < 100 then 10 else 0);
      Classification(B, if confidence < 90 then confidence else 90, WrappableReason)
    else
      Classification(C, 70, UnclearReason)
  }

  const WrappableReason := "Repository has README, code, and can be wrapped as a skill"
  const UnclearReason := "Repository lacks documentation or clear purpose for skill conversion"

  /** The cap of 90 never binds: a B confidence is at most 85. */
  lemma ConfidenceBounds(tree: seq<string>, skills: seq<SkillInfo>, readme: Option<string>, license: License)
    ensures var c := Classify(tree, skills, readme, license);
      60 <= c.confidence <= 95 && (c.category == B ==> c.confidence <= 85)
  {
  }

  // ---------------------------------------------------------------
  // Conversion plan
  // ---------------------------------------------------------------

  /** The proposed skill folder name: it uses only `[a-z0-9-]`, has at most
      64 characters, never two hyphens in a row, and is empty only for an
      empty repository name. */
  function ProposedName(repo: string): (n: string)
    ensures forall c :: c in n ==> IsNameChar(c)
    ensures |n| <= 64 && NoDoubleHyphen(n)
    ensures repo != "" <==> n != ""
  {
    var t := CollapseHyphens(ReplaceInvalid(ToLower(repo)));
    CollapseNoDouble(ReplaceInvalid(ToLower(repo)));
    assert forall c :: c in ReplaceInvalid(ToLower(repo)) ==> IsNameChar(c);
    assert repo != "" ==> t != [] by {
      if repo != "" {
        CollapseHead(ReplaceInvalid(ToLower(repo)));
      }
    }
    PrefixNoDouble(Seqs.Take(t, 64), t);
    Seqs.Take(t, 64)
  }

  /** Computing the name again from a proposed name changes nothing. */
  lemma ProposedNameIdempotent(repo: string)
    ensures ProposedName(ProposedName(repo)) == ProposedName(repo)
  {
    var n := ProposedName(repo);
    ToLowerNoop(n);
    ReplaceInvalidNoop(n);
    CollapseNoop(n);
  }

  const IgnoreList: seq<string> := [".github/", ".git/", "tests/", "test/", "__tests__/", "node_modules/", ".vscode/"]

  /** The keep-list filter: `.js`, `.ts`, `.py` (no `.sh`, unlike `hasCode`). */
  predicate IsSourcePath(p: string) {
    EndsWith(p, ".js") || EndsWith(p, ".ts") || EndsWith(p, ".py")
  }

  /** `README.md` followed by the first ten source files in tree order. */
  function KeepList(tree: seq<string>): (keep: seq<string>)
    ensures 1 <= |keep| <= 11 && keep[0] == "README.md"
    ensures keep[1..] <= Seqs.Filter(IsSourcePath, tree)
    ensures |keep| == 1 + (if |Seqs.Filter(IsSourcePath, tree)| < 10 then |Seqs.Filter(IsSourcePath, tree)| else 10)
  {
    var src := Seqs.Take(Seqs.Filter(IsSourcePath, tree), 10);
    assert (["README.md"] + src)[1..] == src;
    ["README.md"] + src
  }

  function Dependencies(tree: seq<string>): (deps: seq<string>)
    ensures "node" in deps <==> "package.json" in tree
    ensures "python" in deps <==> "requirements.txt" in tree || "setup.py" in tree
    ensures |deps| <= 2 && (|deps| == 2 ==> deps == ["node", "python"])
    ensures forall d :: d in deps ==> d == "node" || d == "python"
  {
    (if "package.json" in tree then ["node"] else [])
    + (if "requirements.txt" in tree || "setup.py" in tree then ["python"] else [])
  }

  /** The Markdown list of dependencies in the draft. */
  function DependencyLines(deps: seq<string>): string {
    if deps == [] then "- None"
    else if |deps| == 1 then "- " + deps[0]
    else "- " + deps[0] + "\n" + DependencyLines(deps[1..])
  }

  /** The draft's YAML header: the proposed name and at most 200 characters
      of the description. */
  function DraftHeader(name: string, description: string): string {
    "---\n" + "name: " + name + "\ndescription: " + Seqs.Take(description, 200) + "\n---\n"
  }

  /** The draft SKILL.md text: the header, then the Markdown body. */
  function SkillMdProposal(owner: string, repo: string, name: string, description: string, deps: seq<string>): string {
    DraftHeader(name, description) + DraftBody(owner, repo, description, deps)
  }

  /** The draft's Markdown body. */
  function DraftBody(owner: string, repo: string, description: string, deps: seq<string>): string {
    "\n# " + repo + "\n\n" + description + WhenToUseHeading + repo + HowToRunSection
    + DependenciesHeading + DependencyLines(deps) + SourceHeading + owner + "/" + repo + "\n"
  }

  const WhenToUseHeading := "\n\n## When to Use\n\nUse this skill when you need functionality from the "
  const HowToRunSection := " repository.\n\n## How to Run\n\nSee the original repository for usage instructions.\n\n"
  const DependenciesHeading := "## Dependencies\n\n"
  const SourceHeading := "\n\n## Source\n\nConverted from: https://github.com/"

  /** The repository's description, or a fallback naming it. */
  function PlanDescription(owner: string, repo: string, info: RepoInfo): string {
    if info.description.Some? && info.description.value != "" then info.description.value
    else "Converted skill from " + owner + "/" + repo
  }

  /** `generateConversionPlan`. */
  function GenerateConversionPlan(owner: string, repo: string, tree: seq<string>, info: RepoInfo): (plan: ConversionPlan)
    ensures 1 <= |plan.keep| <= 11 && plan.keep[0] == "README.md"
    ensures plan.keep[1..] <= Seqs.Filter(IsSourcePath, tree)
    ensures |plan.keep| == 1 + (if |Seqs.Filter(IsSourcePath, tree)| < 10 then |Seqs.Filter(IsSourcePath, tree)| else 10)
    ensures plan.ignore == IgnoreList
    ensures plan.proposedName == ProposedName(repo)
    ensures "node" in plan.dependencies <==> "package.json" in tree
    ensures "python" in plan.dependencies <==> "requirements.txt" in tree || "setup.py" in tree
    ensures |plan.dependencies| <= 2 && (|plan.dependencies| == 2 ==> plan.dependencies == ["node", "python"])
    ensures forall d :: d in plan.dependencies ==> d == "node" || d == "python"
  {
    var name := ProposedName(repo);
    var keep := KeepList(tree);
    var deps := Dependencies(tree);
    var description := PlanDescription(owner, repo, info);
    ConversionPlan(name, keep, IgnoreList, deps, SkillMdProposal(owner, repo, name, description, deps))
  }

  /** With no newline in `[4, p)`, the first `\n---` from 4 lies at or past `p`. */
  lemma DelimiterPast(content: string, p: nat, q: nat)
    requires 4 <= p <= q && OccursAt(content, "\n---", q)
    requires forall k :: 4 <= k < p ==> content[k] != '\n'
    ensures IndexOf(content, "\n---", 4).Some?
    ensures IndexOf(content, "\n---", 4).value >= p
  {
    forall k | 4 <= k < p
      ensures !OccursAt(content, "\n---", k)
    {
      if k + 4 <= |content| {
        assert content[k..k + 4][0] == content[k];
      }
    }
  }

  /** `name: ` holds no newline. */
  lemma NameKeyHasNoNewline()
    ensures forall k :: 0 <= k < 6 ==> "name: "[k] != '\n'
  {
    var key := "name: ";
    assert key[0] == 'n' && key[1] == 'a' && key[2] == 'm' && key[3] == 'e' && key[4] == ':' && key[5] == ' ';
  }

  /** The header found in `---\nname: <name>\n...` starts with the name line. */
  lemma HeaderStartsWithName(content: string, name: string, q: nat)
    requires 10 + |name| <= q && OccursAt(content, "\n---", q)
    requires content[..4] == "---\n" && content[4..10 + |name|] == "name: " + name
    requires content[10 + |name|] == '\n'
    requires forall k :: 0 <= k < |name| ==> IsNameChar(name[k])
    ensures Frontmatter(content).Some?
    ensures StartsWith(Frontmatter(content).value, "name: " + name)
    ensures |Frontmatter(content).value| == 6 + |name| || Frontmatter(content).value[6 + |name|] == '\n'
  {
    var n := |name|;
    assert content[3] == content[..4][3];
    assert content[4] == content[4..10 + n][0];
    assert content[..3] == content[..4][..3];
    assert SpaceEnd(content, 4) == 4;
    assert SpaceEnd(content, 3) == 4;
    NameKeyHasNoNewline();
    forall k | 4 <= k < 10 + n
      ensures content[k] != '\n'
    {
      assert content[k] == ("name: " + name)[k - 4];
    }
    DelimiterPast(content, 10 + n, q);
    var j := IndexOf(content, "\n---", 4).value;
    assert Frontmatter(content) == Some(content[4..j]);
    assert content[4..j][..6 + n] == content[4..10 + n];
  }

  /** A header `---\nname: <name>` followed by a later `\n---` reads back
      that name, when the name is a non-empty run of `[a-z0-9-]`. */
  lemma HeaderNameReadsBack(content: string, name: string, q: nat, filePath: string)
    requires 10 + |name| <= q && OccursAt(content, "\n---", q)
    requires content[..4] == "---\n" && content[4..10 + |name|] == "name: " + name
    requires content[10 + |name|] == '\n'
    requires name != [] && forall k :: 0 <= k < |name| ==> IsNameChar(name[k])
    ensures ParseSkillMd(content, filePath).Some?
    ensures ParseSkillMd(content, filePath).value.name == Some(name)
  {
    HeaderStartsWithName(content, name, q);
    var fm := Frontmatter(content).value;
    NameKeySplit(name);
    NameHasNoSpace(name);
    KeyLineAtStart(fm, "name:", name);
    TrimNoop(name);
  }

  lemma NameKeySplit(name: string)
    ensures "name:" + " " + name == "name: " + name
  {
    assert "name:" + " " == "name: ";
  }

  lemma NameHasNoSpace(name: string)
    requires forall k :: 0 <= k < |name| ==> IsNameChar(name[k])
    ensures forall k :: 0 <= k < |name| ==> !IsSpace(name[k])
  {
  }

  /** Where the pieces of the draft's header sit. */
  lemma DraftHeaderLayout(name: string, description: string, rest: string)
    ensures var c := DraftHeader(name, description) + rest;
      var q := 10 + |name| + 14 + |Seqs.Take(description, 200)|;
      q + 4 <= |c| && c[..4] == "---\n" && c[4..10 + |name|] == "name: " + name
      && c[10 + |name|] == '\n' && c[q..q + 4] == "\n---"
  {
  }

  /** The draft SKILL.md of a plan reads back, through `parseSkillMd`, with
      the proposed name. */
  lemma DraftNameRoundTrip(owner: string, repo: string, tree: seq<string>, info: RepoInfo, filePath: string)
    requires repo != ""
    ensures var plan := GenerateConversionPlan(owner, repo, tree, info);
      ParseSkillMd(plan.skillMdProposal, filePath).Some?
      && ParseSkillMd(plan.skillMdProposal, filePath).value.name == Some(plan.proposedName)
  {
    var name := ProposedName(repo);
    var description := PlanDescription(owner, repo, info);
    var deps := Dependencies(tree);
    var plan := GenerateConversionPlan(owner, repo, tree, info);
    assert plan.proposedName == name && plan.skillMdProposal == SkillMdProposal(owner, repo, name, description, deps);
    ProposedNameChars(repo);
    ProposalReadsBack(owner, repo, name, description, deps, filePath);
  }

  /** The proposed name is a non-empty run of `[a-z0-9-]`. */
  lemma ProposedNameChars(repo: string)
    requires repo != ""
    ensures var name := ProposedName(repo);
      name != [] && forall k :: 0 <= k < |name| ==> IsNameChar(name[k])
  {
    var name := ProposedName(repo);
    forall k | 0 <= k < |name|
      ensures IsNameChar(name[k])
    {
      assert name[k] in name;
    }
  }

  /** A draft whose name is a non-empty run of `[a-z0-9-]` reads back with
      that name. */
  lemma ProposalReadsBack(owner: string, repo: string, name: string, description: string, deps: seq<string>,
                          filePath: string)
    requires name != [] && forall k :: 0 <= k < |name| ==> IsNameChar(name[k])
    ensures var c := SkillMdProposal(owner, repo, name, description, deps);
      ParseSkillMd(c, filePath).Some? && ParseSkillMd(c, filePath).value.name == Some(name)
  {
    var c := SkillMdProposal(owner, repo, name, description, deps);
    var q := 10 + |name| + 14 + |Seqs.Take(description, 200)|;
    DraftHeaderLayout(name, description, DraftBody(owner, repo, description, deps));
    assert OccursAt(c, "\n---", q);
    HeaderNameReadsBack(c, name, q, filePath);
  }

  // ---------------------------------------------------------------
  // inspect
  // ---------------------------------------------------------------

  function Branch(info: RepoInfo): string {
    if info.defaultBranch.Some? && info.defaultBranch.value != "" then info.defaultBranch.value else "main"
  }

  /** `repoInfo.license?.spdx_id || null`. */
  function LicenseId(license: License): Option<string> {
    match license
    case LicenseObject(Some(id)) => if id != "" then Some(id) else None
    case _ => None
  }

  /** The tree used: the listing of a 200 reply, else empty. */
  function TreeOf(reply: Reply<Option<seq<string>>>): seq<string>
    requires reply.Reply?
  {
    if reply.status == 200 && reply.data.Some? then reply.data.value else []
  }

  /** The steps after the tree is known. */
  function Assemble(id: string, owner: string, repo: string, info: RepoInfo, tree: seq<string>,
                    fetch: string -> Option<string>,
                    parseScripts: string -> Option<map<string, string>>,
                    matches: (string, nat) -> bool): InspectionResult
  {
    var skills := FoundSkills(tree, fetch);
    var readme := fetch("README.md");
    var binaries := Seqs.Filter(IsBinaryPath, tree);
    var scripts := Seqs.Filter(IsScriptPath, tree);
    var hooks := NpmHooks(fetch("package.json"), parseScripts);
    var suspicious := Suspicious(Seqs.Take(scripts, 5), fetch, matches);
    var level := CalculateRiskLevel(binaries, scripts, suspicious, hooks);
    var c := Classify(tree, skills, readme, info.license);
    var plan := if c.category == B then Some(GenerateConversionPlan(owner, repo, tree, info)) else None;
    InspectionResult(
      id, c.category, c.confidence, c.explanation, skills, plan,
      RiskReport(level, binaries, scripts, SuspiciousLines(suspicious), hooks),
      RepoSummary(info.stars, LicenseId(info.license), info.updatedAt))
  }

  /** `suspiciousPatterns.map(p => p.file + ': ' + p.pattern)`. */
  function SuspiciousLines(found: seq<SuspiciousMatch>): (r: seq<string>)
    ensures |r| == |found|
    ensures forall i :: 0 <= i < |found| ==> r[i] == found[i].file + ": " + found[i].pattern
  {
    if found == [] then [] else [found[0].file + ": " + found[0].pattern] + SuspiciousLines(found[1..])
  }

  /** `inspect`: invalid ids fail before any request; a failed metadata
      request is fatal; a non-200 tree reply counts as an empty tree. */
  function Inspect(id: string, repoReply: Reply<RepoInfo>,
                   treeReply: string -> Reply<Option<seq<string>>>,
                   fetch: string -> Option<string>,
                   parseScripts: string -> Option<map<string, string>>,
                   matches: (string, nat) -> bool): (r: Result<InspectionResult>)
    ensures RepoId.SplitRepoId(id).None? ==> r == Failure(RepoId.InvalidRepoFormat)
    ensures RepoId.SplitRepoId(id).Some? && repoReply.Reply? && repoReply.status != 200 ==>
              r == Failure("Repository not found: " + id)
    ensures RepoId.SplitRepoId(id).Some? && repoReply.Rejected? ==> r == Failure(repoReply.message)
    ensures r.Success? ==> RepoId.SplitRepoId(id).Some? && repoReply.Reply? && repoReply.status == 200
    ensures r.Success? ==> r.value.id == id
    ensures r.Success? ==> (r.value.conversionPlan.Some? <==> r.value.category == B)
    ensures r.Success? ==> (r.value.category == A <==> r.value.skills != [])
  {
    match RepoId.SplitRepoId(id)
    case None => Failure(RepoId.InvalidRepoFormat)
    case Some((owner, repo)) =>
      match repoReply
      case Rejected(m) => Failure(m)
      case Reply(status, info) =>
        if status != 200 then Failure("Repository not found: " + id)
        else match treeReply(Branch(info))
          case Rejected(m) => Failure(m)
          case Reply(_, _) =>
            Success(Assemble(id, owner, repo, info, TreeOf(treeReply(Branch(info))), fetch, parseScripts, matches))
  }

  /** A tree listing that does not answer 200 is read as an empty tree:
      no descriptors, no binaries or scripts, category C and no plan. */
  lemma TreeFallback(id: string, info: RepoInfo,
                     treeReply: string -> Reply<Option<seq<string>>>,
                     fetch: string -> Option<string>,
                     parseScripts: string -> Option<map<string, string>>,
                     matches: (string, nat) -> bool)
    requires RepoId.SplitRepoId(id).Some?
    requires treeReply(Branch(info)).Reply? && treeReply(Branch(info)).status != 200
    ensures var r := Inspect(id, Reply(200, info), treeReply, fetch, parseScripts, matches);
      r.Success? && r.value.skills == [] && r.value.category == C && r.value.confidence == 70
      && r.value.conversionPlan.None? && r.value.riskReport.binaries == [] && r.value.riskReport.scripts == []
      && r.value.riskReport.suspiciousPatterns == []
  {
    var tree := TreeOf(treeReply(Branch(info)));
    assert tree == [];
    assert !HasCode(tree);
  }
}
