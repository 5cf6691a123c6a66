# Kingsman skill tooling, modelled in Dafny

Kingsman is a VS Code extension that finds, inspects and installs "skills". A
skill is a folder whose `SKILL.md` starts with a YAML header giving its `name`
and `description`. This project models the deterministic core of the tools
that ship with it, and proves properties of the model:

- **The repository inspector** (`kingsman-inspector`):
  - It reads the file tree of a GitHub repository.
  - It locates and parses `SKILL.md` files.
  - It scans for binaries, shell scripts, suspicious script content and npm lifecycle hooks.
  - It computes a risk level and classifies the repository as A (already a skill), B (convertible) or C (not suitable).
  - For B it drafts a conversion plan, including a draft `SKILL.md`.
- **The installer** (`kingsman-installer`):
  - It parses the command line and checks each command's arguments.
  - `stage` derives the skill name for a downloaded repository.
  - `install`, `uninstall` and `list` read and update the registry of installed skills.
  - `cleanup` removes stale staging folders.
- **The search tool** (`kingsman-search`):
  - It expands a natural-language query with synonyms.
  - It merges the code-search and repository-search results without repeating a repository.
  - It ranks the results.
  - It keeps a ten-minute cache keyed by the base64 form of the query (section 4 of RFC 4648).
- **The extension's path helpers** (`Paths.ts`): the skill and data directories, and the skill folder name rule `isValidSkillName`.
- **The MCP server's `google_search_url` tool**:
  - the search URL it builds with `encodeURIComponent`;
  - its two request handlers.

### How the world outside the code is modelled

Everything outside the code is a parameter:

- GitHub replies are `Reply`/`Response` values, and file fetches are oracles `string -> Option<string>`.
- The file system is a map from existing paths to their contents, or a set of existing paths.
- `JSON.parse` is an oracle that returns `None` where it would throw.
- The suspicious-content regular expressions are an oracle `(content, index) -> bool`.
- The clock is an integer `now`, or the age of a date.

The loops of the source are Dafny methods. Each is proved equal to a specification function, and the properties are proved about that function. The registry that `install` and `uninstall` change is a `Registry` object whose entry list the methods reassign.

### Modules

Each module is one file:

- `Wrappers`: `Option` and `Result`.
- `Seqs`: filter, de-duplication by key, subsequences.
- `JsStrings`: the JavaScript string operations used, including the two regular-expression shapes of the header parser.
- `Cli`: the argument parser the three programs share.
- `RepoId`: the `owner/repo` check.
- `SkillNames`: the name transforms.
- `Utf8` and `Base64`.
- `Paths`.
- `Inspector`.
- `Installer`.
- `Search`.
- `Mcp`.
- `NameChecks`: lemmas that relate the names the inspector and the installer derive to `isValidSkillName`.

### Where the model follows the code rather than the description

- A `SKILL.md` at the root of a repository gets the path `SKILL.md`, not `.`. Removing `/SKILL.md` does not change it, so the `|| '.'` fallback never applies (`Inspector.RootSkillPath`).
- Entries without any dot are flagged by the extension test. `split('.').pop()` yields the whole path, so a root entry named `bin` is reported as a binary (`Inspector.DotlessBinary`).
- The search texts sent to GitHub are joined from the expanded list *before* de-duplication. Only the `expandedTerms` field is de-duplicated (`Search.QueryAlsoSynonym`).

## Model

| member | source | states |
|---|---|---|
| Cli.Parse | bundled-skills/kingsman-installer/index.js:17-34 | the `parseArgs` loop computes the one-pass parse: a command word sets the command, a flag followed by a non-empty argument stores it and skips it, anything else is ignored |
| Cli.FlagFollowsFlag | bundled-skills/kingsman-installer/index.js:23-31 | every stored key is a flag name, and its value is a non-empty argument that directly follows that flag in the arguments |
| Cli.CommandIsKeyword | bundled-skills/kingsman-installer/index.js:18-22 | the command is the default or a command word that occurs in the arguments |
| Cli.KeywordFreeTail | bundled-skills/kingsman-installer/index.js:19-22 | arguments that hold no command word, appended after the others, never change the command |
| Cli.LastKeywordWins | bundled-skills/kingsman-installer/index.js:21-22 | a command word that does not follow a flag becomes the command, whatever came before |
| Cli.LastFlagWins | bundled-skills/kingsman-installer/index.js:23-31 | a flag followed by a non-empty value at the end of the arguments stores that value, whatever came before, unless the flag is itself the value of a flag before it |
| Inspector.ParseArgs | bundled-skills/kingsman-inspector/index.js:12-20 | the command is always `inspect`; `--repo` and `--pat` are set only from a following non-empty argument; no `--repo` argument means no repository |
| Inspector.RequireRepo | bundled-skills/kingsman-inspector/index.js:362-365 | fails with `Missing --repo argument` exactly when no repository was given, otherwise yields it |
| Inspector.ParseSkillMd | bundled-skills/kingsman-inspector/index.js:93-107 | `None` exactly when the content has no `---` header; otherwise the path is the file path with its first `/SKILL.md` removed, and name and description are the trimmed captures of the header's first `name:`/`description:` lines, or `None` when there is no such line |
| Inspector.FrontmatterNeedsDelimiters | bundled-skills/kingsman-inspector/index.js:95-96 | a header is found only in content that starts with `---` and has a later `\n---` |
| Inspector.FrontmatterFound | bundled-skills/kingsman-inspector/index.js:95-96 | content that starts with a `---` line and has a `\n---` after it always has a header |
| Inspector.RootSkillPath | bundled-skills/kingsman-inspector/index.js:103 | a root `SKILL.md` keeps the path `SKILL.md` |
| Inspector.NestedSkillPath | bundled-skills/kingsman-inspector/index.js:103 | `dir/SKILL.md` gets the path `dir` |
| Inspector.SkillOf | bundled-skills/kingsman-inspector/index.js:81-86 | one tree entry yields one descriptor when it passes the test (ends in `SKILL.md`, non-empty content, parsable header), else none |
| Inspector.FoundSkills | bundled-skills/kingsman-inspector/index.js:80-88 | the number of descriptors is the number of tree entries that pass the test |
| Inspector.FoundSkillsSource | bundled-skills/kingsman-inspector/index.js:81-85 | every descriptor is the parse of the non-empty content of a tree entry ending in `SKILL.md` |
| Inspector.FoundSkillsBound | bundled-skills/kingsman-inspector/index.js:81 | there are never more descriptors than entries ending in `SKILL.md` (a suffix test, so `MYSKILL.md` counts) |
| Inspector.SkillAt | bundled-skills/kingsman-inspector/index.js:81-86 | the loop body for one entry yields exactly that entry's descriptor, if any |
| Inspector.FindSkillMd | bundled-skills/kingsman-inspector/index.js:77-91 | the loop returns the descriptors of the whole tree in tree order |
| Inspector.ExtensionAfterLastDot | bundled-skills/kingsman-inspector/index.js:129 | the extension is `.` followed by the lower-cased text after the last dot |
| Inspector.ExtensionOfDotless | bundled-skills/kingsman-inspector/index.js:129 | a path without a dot is its own extension |
| Inspector.DotlessBinary | bundled-skills/kingsman-inspector/index.js:129-133 | a root entry named `bin` is flagged as a binary |
| Inspector.ExtensionIgnoresCase | bundled-skills/kingsman-inspector/index.js:129-131 | `setup.EXE` is flagged as a binary |
| Inspector.BinaryNotScript | bundled-skills/kingsman-inspector/index.js:112-113 | no path is both a binary and a script |
| Inspector.ScanTree | bundled-skills/kingsman-inspector/index.js:124-140 | the loop returns the binary paths and the script paths of the tree, each filtered in tree order |
| Inspector.ScanTreeLists | bundled-skills/kingsman-inspector/index.js:128-139 | both lists are subsequences of the tree and they share no entry |
| Inspector.NpmHooks | bundled-skills/kingsman-inspector/index.js:142-161 | a hook is reported exactly when it is one of the four lifecycle hooks and `package.json` is present, non-empty and parsable, with a non-empty script for it; the report keeps the fixed hook order |
| Inspector.ScanPackageJson | bundled-skills/kingsman-inspector/index.js:148-157 | the loop over the four hook names returns exactly those hooks |
| Inspector.FirstPattern | bundled-skills/kingsman-inspector/index.js:169-176 | the index found matches and no earlier pattern does; `None` means no pattern matches |
| Inspector.FirstMatchingPattern | bundled-skills/kingsman-inspector/index.js:169-177 | the inner loop with its `break` returns the first matching pattern |
| Inspector.ScriptFlag | bundled-skills/kingsman-inspector/index.js:167-178 | a script adds a finding iff its content is present, non-empty and matches some pattern; the finding names the script and its first matching pattern |
| Inspector.ScriptAt | bundled-skills/kingsman-inspector/index.js:167-178 | the outer loop body yields that script's finding |
| Inspector.Suspicious | bundled-skills/kingsman-inspector/index.js:166-179 | at most one finding per script; each names a scanned script and a pattern |
| Inspector.SuspiciousFlagged | bundled-skills/kingsman-inspector/index.js:166-179 | every finding is its script's flag: the script is in the list and the pattern is its first match |
| Inspector.SuspiciousComplete | bundled-skills/kingsman-inspector/index.js:166-179 | every script of the list whose content matches a pattern has its finding reported |
| Inspector.ScanForPatterns | bundled-skills/kingsman-inspector/index.js:163-182 | the loop scans only the first five scripts, in order, and returns at most five findings: exactly one per script among them with present, non-empty content matching a pattern, naming its first matching pattern |
| Inspector.CalculateRiskLevel | bundled-skills/kingsman-inspector/index.js:184-188 | high iff there are binaries or findings; medium iff not high and there are scripts or hooks; low iff all four lists are empty |
| Inspector.AddingBinaryNeverLowers | bundled-skills/kingsman-inspector/index.js:185 | one more binary makes the level high, so it never lowers it |
| Inspector.Classify | bundled-skills/kingsman-inspector/index.js:193-229 | A with 95 iff skills were found; B iff no skills, a README and a path ending in `.js`/`.ts`/`.py`/`.sh`, with 60 + 15 for a licence field that is not `null` + 10 for fewer than 100 entries; C with 70 otherwise |
| Inspector.ConfidenceBounds | bundled-skills/kingsman-inspector/index.js:215-218 | a B confidence is at most 85, so the cap of 90 never binds; every confidence lies in 60..95 |
| Inspector.ProposedName | bundled-skills/kingsman-inspector/index.js:236-239 | the proposed name uses only `[a-z0-9-]`, has at most 64 characters and no two hyphens in a row, and is non-empty iff the repository name is |
| Inspector.ProposedNameIdempotent | bundled-skills/kingsman-inspector/index.js:236-239 | proposing a name from a proposed name gives it back unchanged |
| Inspector.KeepList | bundled-skills/kingsman-inspector/index.js:242-251 | `README.md` followed by the first ten `.js`/`.ts`/`.py` paths (no `.sh`) in tree order |
| Inspector.Dependencies | bundled-skills/kingsman-inspector/index.js:254-256 | `node` iff the exact path `package.json` is in the tree, `python` iff `requirements.txt` or `setup.py` is, nothing else, `node` first |
| Inspector.GenerateConversionPlan | bundled-skills/kingsman-inspector/index.js:234-293 | the plan's proposed name is the repository's proposed name, with its keep list (`README.md`, then the first ten source files of the tree), the fixed ignore list, and dependencies that are exactly `node` and `python` under the conditions above |
| Inspector.HeaderNameReadsBack | bundled-skills/kingsman-inspector/index.js:95-104 | a `---` header whose first line is `name: n`, for a non-empty `[a-z0-9-]` name `n`, parses with name `n` |
| Inspector.DraftNameRoundTrip | bundled-skills/kingsman-inspector/index.js:260-263 | the draft `SKILL.md` of a plan parses back, through `parseSkillMd`, with the proposed name |
| Inspector.SuspiciousLines | bundled-skills/kingsman-inspector/index.js:345 | each finding becomes `file: pattern`, in order |
| Inspector.Inspect | bundled-skills/kingsman-inspector/index.js:298-354 | an invalid id fails before any request; a failed or non-200 metadata request fails with its message or `Repository not found`; on success the id is kept, there is a plan iff the category is B, and the category is A iff skills were found |
| Inspector.TreeFallback | bundled-skills/kingsman-inspector/index.js:313-314 | a tree reply other than 200 is an empty tree: no skills, binaries, scripts or findings, category C with 70, no plan |
| RepoId.SplitRepoId | bundled-skills/kingsman-inspector/index.js:299-302 | an accepted id gives a non-empty owner and repository without `/` |
| RepoId.SplitRepoIdAccepts | bundled-skills/kingsman-inspector/index.js:299-302 | conversely, `owner/repo` with non-empty parts without `/`, followed by nothing or by `/...`, is accepted as exactly that owner and repository |
| RepoId.SplitRepoIdPrefix | bundled-skills/kingsman-installer/index.js:147-150 | an accepted id starts with `owner/repo` and continues only after another `/` |
| RepoId.NoSlashRejected | bundled-skills/kingsman-installer/index.js:147-150 | an id without `/` is rejected |
| RepoId.ExtraSegmentsAccepted | bundled-skills/kingsman-inspector/index.js:299-302 | `a/b/c` is accepted as owner `a`, repository `b` |
| SkillNames.ReplaceInvalid | bundled-skills/kingsman-inspector/index.js:237 | same length; each character outside `[a-z0-9-]` becomes `-` and the others stay |
| SkillNames.CollapseHyphens | bundled-skills/kingsman-inspector/index.js:238 | never longer, adds no new character, and keeps a leading `-` |
| SkillNames.CollapseDropsRepeats | bundled-skills/kingsman-inspector/index.js:238 | the collapse is the input with every `-` that directly follows a `-` removed, nothing else removed and nothing reordered |
| SkillNames.CollapseNoDouble | bundled-skills/kingsman-inspector/index.js:238 | the result has no two hyphens in a row |
| SkillNames.CollapseNoop | bundled-skills/kingsman-inspector/index.js:238 | a text without two hyphens in a row is left as it is |
| JsStrings.Trim | bundled-skills/kingsman-inspector/index.js:104 | the result is what remains after removing whitespace at the two ends only: an infix preceded and followed only by whitespace, with no whitespace at either of its ends |
| JsStrings.TrimIs | bundled-skills/kingsman-inspector/index.js:104 | conversely, the infix between whitespace-only ends that has no whitespace at its own ends is the trim |
| JsStrings.TrimNoop | bundled-skills/kingsman-inspector/index.js:104 | a text without whitespace at its ends is its own trim |
| JsStrings.ToLower | bundled-skills/kingsman-search/index.js:49 | same length; ASCII capitals are lowered and every other character kept |
| JsStrings.IndexOf | bundled-skills/kingsman-search/index.js:53 | the index found is an occurrence with none before it from the start index; `None` means there is no occurrence |
| JsStrings.ReplaceFirst | bundled-skills/kingsman-inspector/index.js:103 | only the first occurrence is replaced; without one the text is unchanged |
| JsStrings.SplitOn | bundled-skills/kingsman-inspector/index.js:129 | at least one part, and no part holds the separator |
| JsStrings.SplitJoin | bundled-skills/kingsman-inspector/index.js:299 | joining the parts with the separator gives the input back |
| JsStrings.SplitLast | bundled-skills/kingsman-inspector/index.js:129 | the last part is what follows the last separator |
| JsStrings.SplitWithout | bundled-skills/kingsman-inspector/index.js:299 | a text without the separator splits into itself alone |
| JsStrings.SplitAt | bundled-skills/kingsman-inspector/index.js:299 | a separator after a separator-free prefix ends the first part, and the rest splits on its own |
| JsStrings.NatToString | bundled-skills/kingsman-inspector/index.js:199 | a non-empty string of decimal digits whose value is the number, with a leading `0` only for zero |
| JsStrings.KeyLineFrom | bundled-skills/kingsman-inspector/index.js:99-100 | a capture of `^key\s*(.+)$` is non-empty and holds no line terminator |
| JsStrings.KeyLineFound | bundled-skills/kingsman-inspector/index.js:99-100 | no capture iff no line start from the given index on matches `key\s*(.+)$` |
| JsStrings.KeyLineFirst | bundled-skills/kingsman-inspector/index.js:99-100 | a capture comes from the first matching line start, and no line start before it matches |
| JsStrings.CaptureBackMeaning | bundled-skills/kingsman-inspector/index.js:99-100 | the `\s*(.+)$` tail fails iff every position in its range is a line terminator; otherwise it captures from the last position that is not, to the end of that line |
| JsStrings.KeyLineAtStart | bundled-skills/kingsman-inspector/index.js:99 | a first line `key v`, with `v` free of whitespace, captures exactly `v` |
| JsStrings.FrontmatterBack | bundled-skills/kingsman-inspector/index.js:95 | a header found lies between a newline after the opening `---` and a later `\n---` |
| JsStrings.FrontmatterBackFound | bundled-skills/kingsman-inspector/index.js:95 | no header iff no position can open the body (a newline before it and a `\n---` after it) |
| JsStrings.FrontmatterBackLazy | bundled-skills/kingsman-inspector/index.js:95 | a header opens at the last position that can open it (the greedy `\s*`) and ends at the first `\n---` after that (the lazy `*?`) |
| Seqs.DedupBy | bundled-skills/kingsman-search/index.js:246-254 | never longer than the input |
| Seqs.DedupByUnique | bundled-skills/kingsman-search/index.js:246-254 | no two kept items share a key |
| Seqs.DedupByIsSubseq | bundled-skills/kingsman-search/index.js:246-254 | the kept items are a subsequence of the input |
| Seqs.DedupByKeepsFirst | bundled-skills/kingsman-search/index.js:250-252 | the first item with a key is kept |
| Seqs.DedupByKeys | bundled-skills/kingsman-search/index.js:250-252 | every key of the input that was not already seen is the key of a kept item |
| Seqs.DedupByAppend | bundled-skills/kingsman-search/index.js:249 | de-duplicating `a + b` de-duplicates `a`, then `b` against the keys of `a` |
| Seqs.FilterAppend | bundled-skills/kingsman-inspector/index.js:128-137 | filtering distributes over concatenation |
| Seqs.FilterIsSubseq | bundled-skills/kingsman-inspector/index.js:128-137 | a filter keeps a subsequence |
| Seqs.Take | bundled-skills/kingsman-inspector/index.js:166 | `slice(0, n)`: a prefix of length min(n, length) |
| Utf8.EncodeChar | bundled-skills/kingsman-search/index.js:200 | one to four bytes; one byte exactly for code points below 0x80 |
| Utf8.DecodeEncode | bundled-skills/kingsman-search/index.js:200 | decoding the UTF-8 bytes of a text gives the text back |
| Utf8.EncodeInjective | bundled-skills/kingsman-search/index.js:200 | different texts have different UTF-8 bytes |
| Utf8.EncodeAscii | bundled-skills/kingsman-search/index.js:200 | an ASCII text is its own byte sequence |
| Base64.SextetRoundTrip | bundled-skills/kingsman-search/index.js:200 | each six-bit value is read back from its alphabet character |
| Base64.EncodeLength | bundled-skills/kingsman-search/index.js:200 | four characters for every started group of three bytes |
| Base64.EncodeCharset | bundled-skills/kingsman-search/index.js:200 | only alphabet characters and `=`, with `=` only in the last two places |
| Base64.DecodeEncode | bundled-skills/kingsman-search/index.js:200 | decoding the encoding gives the bytes back |
| Base64.EncodeInjective | bundled-skills/kingsman-search/index.js:200 | different byte sequences have different encodings |
| Search.ParseArgs | bundled-skills/kingsman-search/index.js:15-24 | the command is always `search`; `--query`, `--pat` and `--cache-dir` are set only from a following non-empty argument |
| Search.CheckArgs | bundled-skills/kingsman-search/index.js:281-284 | fails with `Missing --query argument` exactly when no query was given; otherwise passes query, token and cache directory on |
| Search.CollectSynonyms | bundled-skills/kingsman-search/index.js:52-56 | the loop appends the synonyms of each key found, in table order |
| Search.ExpandQuery | bundled-skills/kingsman-search/index.js:48-65 | `original`, `expanded` and the two search texts are those of the query |
| Search.SynonymsContain | bundled-skills/kingsman-search/index.js:52-56 | every synonym of a key found is collected |
| Search.SynonymsFrom | bundled-skills/kingsman-search/index.js:52-56 | only synonyms of keys found are collected |
| Search.ExpandedShape | bundled-skills/kingsman-search/index.js:50-61 | `expanded` starts with the query, repeats nothing, keeps first-occurrence order, and holds exactly the query and the collected synonyms |
| Search.ExpandedHasSynonyms | bundled-skills/kingsman-search/index.js:49-61 | every synonym of a key contained in the lower-cased, trimmed query is in `expanded` |
| Search.ExpandedOnlySynonyms | bundled-skills/kingsman-search/index.js:49-61 | every term of `expanded` is the query or a synonym of such a key |
| Search.QueryAlsoSynonym | bundled-skills/kingsman-search/index.js:50-63 | a query that is itself a collected synonym occurs twice in the list the search texts are joined from, but once in `expanded` |
| Search.FromCodeHit | bundled-skills/kingsman-search/index.js:122-130 | a code hit gives an item with the repository's full name as id, its name, owner, description (empty when missing) and file path, a `SKILL.md`, the hit's folder as its only skill path, and no stars, forks, date or licence |
| Search.FromRepoHit | bundled-skills/kingsman-search/index.js:147-159 | a repository hit gives an item with the repository's full name as id, its name, owner and description (empty when missing), no path, `SKILL.md` or skill paths, its stars, forks and date, and the SPDX id as licence when that is non-empty, else none |
| Search.MapCodeHits | bundled-skills/kingsman-search/index.js:122-131 | one item per hit, in order |
| Search.MapRepoHits | bundled-skills/kingsman-search/index.js:147-159 | one item per hit, in order |
| Search.CodeOutcome | bundled-skills/kingsman-search/index.js:114-137 | a failed request gives no items and limit 0; a status other than 200 gives no items and the reported limit; a 200 gives, with the reported limit, one `SKILL.md` item per hit, in order, each the hit's conversion |
| Search.RepoOutcome | bundled-skills/kingsman-search/index.js:139-165 | as above, with the repository hits' conversions, which have no `SKILL.md` |
| Search.Merge | bundled-skills/kingsman-search/index.js:246-254 | the loop over `seen` and `merged` keeps each item whose id has not been seen |
| Search.MergeProperties | bundled-skills/kingsman-search/index.js:246-254 | unique ids, input order kept, and the code-search items first, then the repository items whose ids are new |
| Search.MergeKeepsFirst | bundled-skills/kingsman-search/index.js:250-252 | the first item with an id is the one kept |
| Search.RateLimitRemaining | bundled-skills/kingsman-search/index.js:260-263 | the smaller of the two limits, each 0 read as 100; never 0 |
| Search.StarPoints | bundled-skills/kingsman-search/index.js:178 | at most 30, and 0 without stars or with 0 stars |
| Search.RecencyPoints | bundled-skills/kingsman-search/index.js:181-185 | 10 iff the date parses and is less than 30 days old, 5 iff it is 30 to 180 days old, else 0 |
| Search.LicensePoints | bundled-skills/kingsman-search/index.js:188-190 | 5 iff the licence is MIT, Apache-2.0, BSD-3-Clause or ISC, else 0 |
| Search.Points | bundled-skills/kingsman-search/index.js:172-190 | 50 to 95 points with a `SKILL.md`, at most 45 without |
| Search.Scored | bundled-skills/kingsman-search/index.js:192 | the score is at least 0.5 with a `SKILL.md` and at most 0.45 without |
| Search.ScoreAll | bundled-skills/kingsman-search/index.js:171-192 | each item is scored, in order |
| Search.Insert | bundled-skills/kingsman-search/index.js:193 | insertion adds exactly the one element |
| Search.InsertSorted | bundled-skills/kingsman-search/index.js:193 | insertion keeps a list sorted by falling score |
| Search.SortDesc | bundled-skills/kingsman-search/index.js:193 | the sort is a permutation, sorted by falling score |
| Search.Rank | bundled-skills/kingsman-search/index.js:170-194 | the ranked list is the scored items, reordered by falling score |
| Search.SortStable | bundled-skills/kingsman-search/index.js:193 | the items of one score keep their order |
| Search.SkillReadyFirst | bundled-skills/kingsman-search/index.js:170-194 | after ranking every item with a `SKILL.md` precedes every item without |
| Search.ReplaceUnsafe | bundled-skills/kingsman-search/index.js:200 | `/`, `+` and `=` become `_`, everything else stays |
| Search.CacheKey | bundled-skills/kingsman-search/index.js:199-201 | the key uses only `[A-Za-z0-9_]` and has four characters for every started three bytes of the query's UTF-8 form |
| Search.ReplaceUnsafeKeyChars | bundled-skills/kingsman-search/index.js:200 | a base64 text becomes a text of key characters |
| Search.CacheKeyCollision | bundled-skills/kingsman-search/index.js:200 | `ab>` and `ab?` share the key `YWI_`, so two queries can share a cache file |
| Search.CheckCache | bundled-skills/kingsman-search/index.js:203-216 | no hit without a cache directory; a hit iff the file exists, parses and has a timestamp less than ten minutes old, and it is the stored data marked `cached` |
| Search.Search | bundled-skills/kingsman-search/index.js:232-273 | a cache hit is returned as stored; otherwise both searches run on the expanded texts, and the merged, ranked items come back with the combined limit and `cached` false |
| Paths.GlobalSkillsPath | src/backend/Paths.ts:27-38 | the configured path when set and existing, else the home directory joined with `.gemini/antigravity/skills` |
| Paths.WorkspaceSkillsPath | src/backend/Paths.ts:44-51 | `None` iff there is no workspace folder, else the first folder joined with `.agent/skills` |
| Paths.DataLayout | src/backend/Paths.ts:57-78 | staging, cache, registry and logs paths are the data path joined with `staging`, `cache`, `registry.json` and `logs`, all distinct |
| Paths.BundledSkillsPath | src/backend/Paths.ts:83-85 | the extension directory, a `/`, then `bundled-skills`: the folder of that name directly inside it |
| Paths.SkillPath | src/backend/Paths.ts:114-121 | never `None` for the global target; for the workspace target `None` iff there is no workspace folder |
| Paths.NotInstalledWithoutWorkspace | src/backend/Paths.ts:126-129 | without a workspace folder no skill is installed in the workspace |
| Paths.InstalledGlobally | src/backend/Paths.ts:126-129 | installed globally iff the skill's folder in the global skills directory exists |
| Paths.InstalledInWorkspace | src/backend/Paths.ts:126-129 | with a workspace folder, installed there iff the skill's folder in the first folder's skills directory exists |
| Paths.MatchTailIff | src/backend/Paths.ts:136 | the tail `[a-z0-9-]{0,63}$` matches iff the rest fits the count and uses only those characters |
| Paths.ValidSkillNameIff | src/backend/Paths.ts:135-137 | valid iff 1 to 64 characters, all in `[a-z0-9-]`, the first not `-` |
| Paths.HyphenPlacement | src/backend/Paths.ts:136 | `a-` and `a--` are valid; `-a` and the empty name are not |
| Installer.ParseArgs | bundled-skills/kingsman-installer/index.js:17-34 | no command unless a command word occurs, and then the command is one; flags are set only from a following non-empty argument |
| Installer.CheckArgs | bundled-skills/kingsman-installer/index.js:367-422 | `Missing command` without a command; each command succeeds exactly when its required flags are given, and fails with its own message otherwise |
| Installer.NoUnknownCommand | bundled-skills/kingsman-installer/index.js:420-421 | the parser never yields a command outside the five, so `Unknown command` cannot occur |
| Installer.LastCommandWins | bundled-skills/kingsman-installer/index.js:21-22 | the last command word that is not a flag's value is the command |
| Installer.DefaultSkillName | bundled-skills/kingsman-installer/index.js:190 | the repository name lower-cased, each character outside `[a-z0-9-]` turned into `-` with no collapsing, cut to 64 |
| Installer.FindExtracted | bundled-skills/kingsman-installer/index.js:174-181 | the first listed folder other than `repo.zip`, or `None` when there is none |
| Installer.SkillMdName | bundled-skills/kingsman-installer/index.js:192-198 | the trimmed capture of the first `name:` line anywhere in the file, or `None` |
| Installer.StageRepo | bundled-skills/kingsman-installer/index.js:146-215 | an invalid id fails first; no extracted folder fails; otherwise the info records the id, the repository, the source path, whether `SKILL.md` exists, and the `SKILL.md` name or else the default name |
| Installer.Without | bundled-skills/kingsman-installer/index.js:269 | exactly the entries with another name |
| Installer.WithoutIsSubseq | bundled-skills/kingsman-installer/index.js:328 | the remaining entries keep their order |
| Installer.WithoutAbsent | bundled-skills/kingsman-installer/index.js:328 | removing an absent name changes nothing |
| Installer.WithoutAppend | bundled-skills/kingsman-installer/index.js:269 | removal distributes over concatenation |
| Installer.WithoutCommutes | bundled-skills/kingsman-installer/index.js:328 | removals by two names commute |
| Installer.Upserted | bundled-skills/kingsman-installer/index.js:268-278 | the new entry is last, no other entry has its name, and every entry of another name stays |
| Installer.UpsertThenRemove | bundled-skills/kingsman-installer/index.js:268-278 | removing the name again leaves what the upsert kept |
| Installer.UpsertKeepsOthers | bundled-skills/kingsman-installer/index.js:268-278 | the entries of every other name keep their order |
| Installer.UpsertIdempotent | bundled-skills/kingsman-installer/index.js:268-278 | upserting the same entry twice equals upserting it once |
| Installer.FindByName | bundled-skills/kingsman-installer/index.js:316 | `None` iff no entry has the name, else an entry with it |
| Installer.FindByNameFirst | bundled-skills/kingsman-installer/index.js:316 | the entry found is the first one with the name |
| Installer.Registry.constructor | bundled-skills/kingsman-installer/index.js:266 | the registry holds the loaded entries |
| Installer.Registry.Upsert | bundled-skills/kingsman-installer/index.js:269-278 | the entries become the upsert of the old ones |
| Installer.Registry.RemoveByName | bundled-skills/kingsman-installer/index.js:328 | the entries become the old ones without the name |
| Installer.LoadRegistry | bundled-skills/kingsman-installer/index.js:74-81 | the parsed entries, or none when the file is missing or does not parse |
| Installer.SkillMdToWrite | bundled-skills/kingsman-installer/index.js:231-248 | nothing is written with a `SKILL.md` or without a plan; otherwise the plan's `skillMdProposal` when non-empty, else the fallback text, goes to the source folder's `SKILL.md`; a malformed plan, and only that, fails with the JSON error |
| Installer.InstallSkill | bundled-skills/kingsman-installer/index.js:220-291 | fails without `staging-info.json`, and with the JSON error when the info or the plan does not parse, with the registry unchanged; succeeds exactly when the info parses and the `SKILL.md` to write is decided; on success the entry for the skill is upserted and the result names the destination folder |
| Installer.ListInstalled | bundled-skills/kingsman-installer/index.js:296-308 | exactly the entries whose `installPath` is set and exists |
| Installer.ListInstalledIsSubseq | bundled-skills/kingsman-installer/index.js:300-305 | they keep registry order |
| Installer.UninstallSkill | bundled-skills/kingsman-installer/index.js:313-332 | fails iff no entry has the name, leaving the registry alone; otherwise every entry with it is removed and the folder is the first such entry's `installPath` or the default folder |
| Installer.StaleEntries | bundled-skills/kingsman-installer/index.js:342-356 | exactly the entries whose staging info is more than 24 hours old |
| Installer.ScanEnd | bundled-skills/kingsman-installer/index.js:346-347 | the first entry with a malformed staging info, or the end of the listing |
| Installer.CleanupStaging | bundled-skills/kingsman-installer/index.js:337-362 | nothing without the staging folder; otherwise the stale folders before the first malformed staging info are removed and counted, and a malformed one ends the command with an error |
| Installer.StaleBoundary | bundled-skills/kingsman-installer/index.js:349-352 | a folder exactly 24 hours old is kept, one a millisecond older is removed |
| Mcp.HexDigit | skills/kingsman-mcp/index.js:29 | an upper-case hexadecimal digit |
| Mcp.HexValue | skills/kingsman-mcp/index.js:29 | the value of an upper-case hexadecimal digit, inverse of `HexDigit` |
| Mcp.PercentAll | skills/kingsman-mcp/index.js:29 | three characters per byte |
| Mcp.PercentByteDecode | skills/kingsman-mcp/index.js:29 | `%XY` reads back as its byte |
| Mcp.EncodeUriComponentDecode | skills/kingsman-mcp/index.js:29 | decoding `encodeURIComponent` of a text gives the text's UTF-8 bytes |
| Mcp.EncodeUriComponentInjective | skills/kingsman-mcp/index.js:29 | different texts encode differently |
| Mcp.EncodedCharset | skills/kingsman-mcp/index.js:29 | the encoding uses only unreserved characters, `%` and upper-case hexadecimal digits |
| Mcp.UnreservedUnchanged | skills/kingsman-mcp/index.js:29 | a text of unreserved characters is left as it is |
| Mcp.GenerateSearchUrl | skills/kingsman-mcp/index.js:28-31 | the URL is the base followed by a part that decodes to the UTF-8 bytes of the trimmed query |
| Mcp.SearchUrlDeterminesQuery | skills/kingsman-mcp/index.js:28-31 | with the same base, equal URLs come from queries equal once trimmed |
| Mcp.BaseUrlOrDefault | skills/kingsman-mcp/index.js:78 | the given base URL when non-empty, else the default |
| Mcp.CallTool | skills/kingsman-mcp/index.js:73-118 | an unknown tool and a missing, non-string or blank query give error replies; otherwise the reply holds the URL, the query and the source, and is not an error |
| Mcp.CallToolUrl | skills/kingsman-mcp/index.js:92-106 | a non-blank query yields a reply that keeps the query and whose URL is the base in effect followed by a part that decodes to the UTF-8 bytes of the trimmed query |
| Mcp.ListTools | skills/kingsman-mcp/index.js:47-70 | exactly one tool is listed, and `query` is its only required field |
| Mcp.ListToolsSchema | skills/kingsman-mcp/index.js:47-70 | the tool listed is `google_search_url`, and every field it requires is declared as a string property |
| NameChecks.ProposedNameValidIff | bundled-skills/kingsman-inspector/index.js:236-239 | the proposed name satisfies `isValidSkillName` iff the repository name starts with an ASCII letter or digit |
| NameChecks.DefaultNameValidIff | bundled-skills/kingsman-installer/index.js:190 | the same for the installer's default name |
| NameChecks.DotfilesRejected | bundled-skills/kingsman-installer/index.js:190 | for `.dotfiles` both names start with `-` and are rejected |
| NameChecks.NamesDiffer | bundled-skills/kingsman-inspector/index.js:238 | from `a..b` the inspector proposes `a-b` and the installer derives `a--b` |
| NameChecks.DotDotNameRead | bundled-skills/kingsman-installer/index.js:194-196 | the line `name: ../x` gives the name `../x` |
| NameChecks.UncheckedSkillMdName | bundled-skills/kingsman-installer/index.js:192-198 | a staged repository whose `SKILL.md` says `name: ../x` gets that name, which `isValidSkillName` rejects and `installSkill` joins to the skills directory |

## Left out

- HTTP: `githubRequest`, `downloadFile` and the base64 decoding of fetched file contents are oracles. A failed request's message is not carried into the search outcome.
- The `main`/`master` download fallback of `stageRepo` and the PowerShell archive extraction are not modelled: the model starts from the listing of the staging folder.
- Shell and file-system effects are not modelled:
  - copying and deleting folders;
  - writing `staging-info.json`, `SKILL.md`, the registry and the cache file;
  - `ensureDirectory` and `ensureAllDirectories`.
  - `InstallSkill` returns the `SKILL.md` it writes instead of writing it, and `UninstallSkill` and `CleanupStaging` return the folders they delete.
- `JSON.parse` and `JSON.stringify` are oracles and datatypes. `MalformedJson` stands for the engine's own error message.
- The regular-expression engine is not modelled. The seven suspicious-content patterns are an oracle. The two header expressions are written out by hand.
- Search.StarPoints: `Math.log10(stars + 1) * 10` is an oracle giving the already rounded value. The floating-point logarithm is not modelled.
- Scores are exact rationals rather than doubles. Points are whole numbers, so the order is the same.
- `Date.now`, `new Date(...)` and `toISOString` are not modelled. They become the parameters `now`, `ageMs`, `stagedAt` and `installedAt`.
- `generateId` uses randomness; the staged id is a parameter.
- The two searches that `Promise.all` runs in parallel are modelled one after the other.
- `path.join` does no normalisation in the model: `Join(a, b)` is always `a + "/" + b`.
- `toLowerCase` maps only the ASCII letters.
- Strings are sequences of Unicode scalar values, not UTF-16 code units. This has the consequences below and the one on the next line:
  - `slice(0, 200)` counts characters, not code units;
  - a lone surrogate, which makes `encodeURIComponent` throw, cannot occur.
- Installer.DefaultSkillName: the replacement at bundled-skills/kingsman-installer/index.js:190 has no `u` flag and no collapsing, so a character outside the Basic Multilingual Plane (U+1F600, say) becomes `--` in JavaScript but one `-` in the model, and the 64-character cut counts UTF-16 units where the model counts characters. The inspector's name is not affected: `/-+/g` collapses such a run before its cut, and every character left is ASCII.
- A `baseUrl` argument that is truthy but not a string is not modelled.
- A registry file that parses but has no `skills` list is not modelled.
- The MCP SDK setup and the reply's `timestamp` field are not modelled.
- The extension's user interface is not modelled:
  - `StorePanel`;
  - the view provider;
  - `extension.ts`;
  - `GitHubAuth`;
  - `SkillRunner`;
  - `Bootstrap`.
