/** The installer program: `stage` unpacks a repository into a staging
    folder and records a `staging-info.json`, `install` copies a staged
    skill into the skills directory and records it in the registry, `list`
    shows the registered skills whose folders still exist, `uninstall`
    removes one, and `cleanup` removes stale staging folders.

    The file system is a map from the paths of existing files to their
    contents (plus, where only existence matters, a set of existing paths);
    `JSON.parse` is an oracle returning `None` where it would throw. The
    registry is a `Registry` object whose entry list the commands reassign. */
module Installer {
  import opened Wrappers
  import opened JsStrings
  import opened SkillNames
  import Seqs
  import Cli
  import RepoId
  import Paths

  // ---------------------------------------------------------------
  // Command line
  // ---------------------------------------------------------------

  const Keywords: set<string> := {"stage", "install", "list", "uninstall", "cleanup"}
  const FlagNames: set<string> := {"--repo", "--staged-id", "--staging-dir", "--skills-dir",
                                   "--registry-path", "--target", "--name", "--pat", "--conversion-plan"}

  /** `parseArgs`: no command unless a command word occurs; each flag takes
      the following non-empty argument. */
  method ParseArgs(args: seq<string>) returns (p: Cli.Parsed)
    ensures p.command.None? || (p.command.value in Keywords && p.command.value in args)
    ensures p.flags.Keys <= FlagNames
    ensures forall f :: f in p.flags ==>
              (p.flags[f] != "" && exists k :: 0 <= k && k + 1 < |args| && args[k] == f && args[k + 1] == p.flags[f])
    ensures (forall a :: a in args ==> a !in Keywords) ==> p.command.None?
  {
    p := Cli.Parse(args, Keywords, FlagNames, None);
    Cli.CommandIsKeyword(args, Keywords, FlagNames, None);
    forall f | f in p.flags
      ensures f in FlagNames && p.flags[f] != "" &&
              (exists k :: 0 <= k && k + 1 < |args| && args[k] == f && args[k + 1] == p.flags[f])
    {
      Cli.FlagFollowsFlag(args, Keywords, FlagNames, None, f);
    }
  }

  /** A validated command with the arguments it needs. */
  datatype Command =
    | Stage(repo: string, stagingDir: string)
    | Install(stagedId: string, stagingDir: string, skillsDir: string, registryPath: string,
              conversionPlan: Option<string>)
    | List(registryPath: string)
    | Uninstall(name: string, skillsDir: string, registryPath: string)
    | Cleanup(stagingDir: string)

  const MissingCommand := "Missing command. Use: stage, install, list, uninstall, cleanup"

  /** A flag given with a non-empty value (`args.x` is truthy). */
  predicate Given(p: Cli.Parsed, flag: string) {
    flag in p.flags && p.flags[flag] != ""
  }

  /** `main`'s checks: the command must be present and known, and each
      command needs its own flags. */
  function CheckArgs(p: Cli.Parsed): (r: Result<Command>)
    ensures p.command.None? ==> r == Failure(MissingCommand)
    ensures p.command == Some("stage") ==>
              (r.Success? <==> Given(p, "--repo") && Given(p, "--staging-dir"))
              && (r.Failure? ==> r.error == "Missing --repo or --staging-dir")
    ensures p.command == Some("install") ==>
              (r.Success? <==> (Given(p, "--staged-id") && Given(p, "--staging-dir")
                                && Given(p, "--skills-dir") && Given(p, "--registry-path")))
              && (r.Failure? ==> r.error == "Missing required arguments for install")
    ensures p.command == Some("list") ==>
              (r.Success? <==> Given(p, "--registry-path")) && (r.Failure? ==> r.error == "Missing --registry-path")
    ensures p.command == Some("uninstall") ==>
              (r.Success? <==> Given(p, "--name") && Given(p, "--skills-dir") && Given(p, "--registry-path"))
              && (r.Failure? ==> r.error == "Missing --name, --skills-dir, or --registry-path")
    ensures p.command == Some("cleanup") ==>
              (r.Success? <==> Given(p, "--staging-dir")) && (r.Failure? ==> r.error == "Missing --staging-dir")
    ensures p.command.Some? && p.command.value !in Keywords ==> r == Failure("Unknown command: " + p.command.value)
    ensures r.Success? ==> r.value.Install? ==> r.value.conversionPlan == (if Given(p, "--conversion-plan")
                                                then Some(p.flags["--conversion-plan"]) else None)
  {
    match p.command
    case None => Failure(MissingCommand)
    case Some(c) =>
      if c == "stage" then
        if Given(p, "--repo") && Given(p, "--staging-dir") then
          Success(Stage(p.flags["--repo"], p.flags["--staging-dir"]))
        else Failure("Missing --repo or --staging-dir")
      else if c == "install" then
        if Given(p, "--staged-id") && Given(p, "--staging-dir") && Given(p, "--skills-dir") && Given(p, "--registry-path") then
          Success(Install(p.flags["--staged-id"], p.flags["--staging-dir"], p.flags["--skills-dir"],
                          p.flags["--registry-path"],
                          if Given(p, "--conversion-plan") then Some(p.flags["--conversion-plan"]) else None))
        else Failure("Missing required arguments for install")
      else if c == "list" then
        if Given(p, "--registry-path") then Success(List(p.flags["--registry-path"]))
        else Failure("Missing --registry-path")
      else if c == "uninstall" then
        if Given(p, "--name") && Given(p, "--skills-dir") && Given(p, "--registry-path") then
          Success(Uninstall(p.flags["--name"], p.flags["--skills-dir"], p.flags["--registry-path"]))
        else Failure("Missing --name, --skills-dir, or --registry-path")
      else if c == "cleanup" then
        if Given(p, "--staging-dir") then Success(Cleanup(p.flags["--staging-dir"]))
        else Failure("Missing --staging-dir")
      else Failure("Unknown command: " + c)
  }

  /** The `Unknown command` branch of `main` is unreachable from the command
      line: the parser only ever stores a command word. */
  lemma NoUnknownCommand(args: seq<string>)
    ensures var p := Cli.ParseFrom(args, 0, Cli.Parsed(None, map[]), Keywords, FlagNames);
      p.command.Some? ==> p.command.value in Keywords
  {
    Cli.CommandIsKeyword(args, Keywords, FlagNames, None);
  }

  /** The command is the last command word that is not a flag's value: one
      that follows a non-flag argument and has no command word after it. */
  lemma LastCommandWins(before: seq<string>, command: string, after: seq<string>)
    requires command in Keywords
    requires before == [] || before[|before| - 1] !in FlagNames
    requires forall k :: 0 <= k < |after| ==> after[k] !in Keywords
    ensures Cli.ParseFrom(before + [command] + after, 0, Cli.Parsed(None, map[]), Keywords, FlagNames).command
            == Some(command)
  {
    Cli.LastKeywordWins(before, command, Keywords, FlagNames, None);
    Cli.KeywordFreeTail(before + [command], after, Keywords, FlagNames, None);
  }

  // ---------------------------------------------------------------
  // stage
  // ---------------------------------------------------------------

  /** The contents of `staging-info.json`; `stagedAt` is the ISO time text. */
  datatype StagingInfo = StagingInfo(
    stagedId: string,
    repo: string,
    skillName: string,
    sourcePath: string,
    hasSkillMd: bool,
    stagedAt: string)

  /** The default skill name: the repository name lower-cased, every
      character outside `[a-z0-9-]` turned into `-` (runs of hyphens are
      kept), cut to 64 characters. */
  function DefaultSkillName(repoName: string): (n: string)
    ensures |n| == if |repoName| < 64 then |repoName| else 64
    ensures forall i :: 0 <= i < |n| ==>
              n[i] == if IsNameChar(LowerChar(repoName[i])) then LowerChar(repoName[i]) else '-'
    ensures forall i :: 0 <= i < |n| ==> IsNameChar(n[i])
  {
    Seqs.Take(ReplaceInvalid(ToLower(repoName)), 64)
  }

  /** `entries.find(e => e !== 'repo.zip' && isDirectory(e))`. */
  function FindExtracted(entries: seq<string>, isDir: string -> bool): (r: Option<string>)
    ensures r.None? <==> forall k :: 0 <= k < |entries| ==> entries[k] == "repo.zip" || !isDir(entries[k])
    ensures r.Some? ==> exists k :: 0 <= k < |entries| && entries[k] == r.value
                          && r.value != "repo.zip" && isDir(r.value)
                          && forall j :: 0 <= j < k ==> entries[j] == "repo.zip" || !isDir(entries[j])
  {
    if entries == [] then None
    else if entries[0] != "repo.zip" && isDir(entries[0]) then Some(entries[0])
    else
      var r := FindExtracted(entries[1..], isDir);
      if r.Some? then
        ghost var k :| 0 <= k < |entries[1..]| && entries[1..][k] == r.value && r.value != "repo.zip" && isDir(r.value)
                       && forall j :: 0 <= j < k ==> entries[1..][j] == "repo.zip" || !isDir(entries[1..][j]);
        assert entries[k + 1] == r.value;
        r
      else r
  }

  /** The name given by a SKILL.md: the trimmed capture of its first
      `name:` line anywhere in the file, not validated in any way. */
  function SkillMdName(content: string): (r: Option<string>)
    ensures r.Some? <==> KeyLine(content, "name:").Some?
    ensures r.Some? ==> r.value == Trim(KeyLine(content, "name:").value)
  {
    match KeyLine(content, "name:")
    case Some(v) => Some(Trim(v))
    case None => None
  }

  /** `stageRepo` after the download and the extraction: `entries` lists the
      staging folder, `isDir` says which entries are folders, `files` holds
      the existing files. The id and the time come from the caller. */
  function StageRepo(repo: string, stagingDir: string, stagedId: string, entries: seq<string>,
                     isDir: string -> bool, files: map<string, string>, stagedAt: string): (r: Result<StagingInfo>)
    ensures RepoId.SplitRepoId(repo).None? ==> r == Failure(RepoId.InvalidRepoFormat)
    ensures RepoId.SplitRepoId(repo).Some? && FindExtracted(entries, isDir).None? ==>
              r == Failure("Failed to find extracted directory")
    ensures r.Success? ==> RepoId.SplitRepoId(repo).Some? && FindExtracted(entries, isDir).Some?
    ensures r.Success? ==> r.value.stagedId == stagedId && r.value.repo == repo
    ensures r.Success? ==>
              r.value.sourcePath == Paths.Join(Paths.Join(stagingDir, stagedId), FindExtracted(entries, isDir).value)
    ensures r.Success? ==> (r.value.hasSkillMd <==> Paths.Join(r.value.sourcePath, "SKILL.md") in files)
    ensures r.Success? ==>
              var md := Paths.Join(r.value.sourcePath, "SKILL.md");
              r.value.skillName == (if md in files && SkillMdName(files[md]).Some? then SkillMdName(files[md]).value
                                    else DefaultSkillName(RepoId.SplitRepoId(repo).value.1))
  {
    match RepoId.SplitRepoId(repo)
    case None => Failure(RepoId.InvalidRepoFormat)
    case Some((owner, repoName)) =>
      var stageDir := Paths.Join(stagingDir, stagedId);
      match FindExtracted(entries, isDir)
      case None => Failure("Failed to find extracted directory")
      case Some(extracted) =>
        var sourcePath := Paths.Join(stageDir, extracted);
        var skillMdPath := Paths.Join(sourcePath, "SKILL.md");
        var hasSkillMd := skillMdPath in files;
        var skillName :=
          if hasSkillMd && SkillMdName(files[skillMdPath]).Some? then SkillMdName(files[skillMdPath]).value
          else DefaultSkillName(repoName);
        Success(StagingInfo(stagedId, repo, skillName, sourcePath, hasSkillMd, stagedAt))
  }

  // ---------------------------------------------------------------
  // Registry
  // ---------------------------------------------------------------

  /** A registry entry; `installPath` is missing in hand-edited files. */
  datatype Entry = Entry(
    skillName: string,
    sourceUrl: string,
    installedAt: string,
    installPath: Option<string>,
    stagedId: string)

  /** `skills.filter(s => s.skillName !== name)`. */
  function Without(skills: seq<Entry>, name: string): (r: seq<Entry>)
    ensures forall e :: e in r <==> e in skills && e.skillName != name
    ensures |r| <= |skills|
  {
    if skills == [] then []
    else if skills[0].skillName == name then Without(skills[1..], name)
    else [skills[0]] + Without(skills[1..], name)
  }

  /** Removing a name keeps the other entries in their order. */
  lemma {:induction false} WithoutIsSubseq(skills: seq<Entry>, name: string)
    ensures Seqs.IsSubseq(Without(skills, name), skills)
  {
    if skills != [] {
      WithoutIsSubseq(skills[1..], name);
      if skills[0].skillName == name {
        Seqs.SubseqDropHead(Without(skills[1..], name), skills);
      }
    }
  }

  /** Removing a name that is not there changes nothing. */
  lemma {:induction false} WithoutAbsent(skills: seq<Entry>, name: string)
    requires forall i :: 0 <= i < |skills| ==> skills[i].skillName != name
    ensures Without(skills, name) == skills
  {
    if skills != [] {
      WithoutAbsent(skills[1..], name);
      assert skills == [skills[0]] + skills[1..];
    }
  }

  lemma {:induction false} WithoutAppend(a: seq<Entry>, b: seq<Entry>, name: string)
    ensures Without(a + b, name) == Without(a, name) + Without(b, name)
  {
    if a == [] {
      assert a + b == b;
    } else {
      assert (a + b)[1..] == a[1..] + b;
      WithoutAppend(a[1..], b, name);
    }
  }

  /** Removals by two names commute. */
  lemma {:induction false} WithoutCommutes(skills: seq<Entry>, m: string, n: string)
    ensures Without(Without(skills, m), n) == Without(Without(skills, n), m)
  {
    if skills != [] {
      WithoutCommutes(skills[1..], m, n);
    }
  }

  /** The entries after an upsert: the old ones without the name, then the
      new entry. */
  function Upserted(skills: seq<Entry>, e: Entry): (r: seq<Entry>)
    ensures |r| >= 1 && r[|r| - 1] == e
    ensures forall i :: 0 <= i < |r| - 1 ==> r[i].skillName != e.skillName
    ensures forall x :: x in skills && x.skillName != e.skillName ==> x in r
  {
    var rest := Without(skills, e.skillName);
    assert forall i :: 0 <= i < |rest| ==> rest[i] in rest;
    rest + [e]
  }

  /** Removing the upserted name again leaves the entries the upsert kept. */
  lemma UpsertThenRemove(skills: seq<Entry>, e: Entry)
    ensures Without(Upserted(skills, e), e.skillName) == Without(skills, e.skillName)
  {
    var rest := Without(skills, e.skillName);
    WithoutAppend(rest, [e], e.skillName);
    assert Without([e], e.skillName) == [];
    WithoutAbsent(rest, e.skillName);
  }

  /** An upsert leaves the entries of every other name as they were, in the
      same order. */
  lemma UpsertKeepsOthers(skills: seq<Entry>, e: Entry, other: string)
    requires other != e.skillName
    ensures Without(Without(Upserted(skills, e), other), e.skillName)
            == Without(Without(skills, other), e.skillName)
  {
    UpsertThenRemove(skills, e);
    WithoutCommutes(Upserted(skills, e), other, e.skillName);
    WithoutCommutes(skills, other, e.skillName);
    var rest := Without(skills, e.skillName);
    WithoutAbsent(rest, e.skillName);
    WithoutCommutes(rest, e.skillName, e.skillName);
  }

  /** Upserting the same entry twice leaves what one upsert leaves. */
  lemma UpsertIdempotent(skills: seq<Entry>, e: Entry)
    ensures Upserted(Upserted(skills, e), e) == Upserted(skills, e)
  {
    UpsertThenRemove(skills, e);
  }

  /** `skills.find(s => s.skillName === name)`. */
  function FindByName(skills: seq<Entry>, name: string): (r: Option<Entry>)
    ensures r.None? <==> forall i :: 0 <= i < |skills| ==> skills[i].skillName != name
    ensures r.Some? ==> r.value in skills && r.value.skillName == name
  {
    if skills == [] then None
    else if skills[0].skillName == name then Some(skills[0])
    else FindByName(skills[1..], name)
  }

  /** The entry found is the first one with the name. */
  lemma {:induction false} FindByNameFirst(skills: seq<Entry>, name: string) returns (i: nat)
    requires FindByName(skills, name).Some?
    ensures i < |skills| && skills[i] == FindByName(skills, name).value
    ensures forall j :: 0 <= j < i ==> skills[j].skillName != name
  {
    if skills[0].skillName == name {
      i := 0;
    } else {
      var k := FindByNameFirst(skills[1..], name);
      i := k + 1;
    }
  }

  /** The loaded `registry.json`, whose entry list the commands reassign. */
  class Registry {
    var skills: seq<Entry>

    constructor (skills: seq<Entry>)
      ensures this.skills == skills
    {
      this.skills := skills;
    }

    /** The update in `installSkill`: drop the entries with the name, then
        push the new one. */
    method Upsert(e: Entry)
      modifies this
      ensures skills == Upserted(old(skills), e)
    {
      skills := Without(skills, e.skillName);
      skills := skills + [e];
    }

    /** The update in `uninstallSkill`. */
    method RemoveByName(name: string)
      modifies this
      ensures skills == Without(old(skills), name)
    {
      skills := Without(skills, name);
    }
  }

  /** `loadRegistry`: the parsed file, or an empty registry when the file is
      missing or does not parse. */
  function LoadRegistry(files: map<string, string>, registryPath: string,
                        parse: string -> Option<seq<Entry>>): (r: seq<Entry>)
    ensures registryPath !in files ==> r == []
    ensures registryPath in files && parse(files[registryPath]).None? ==> r == []
    ensures registryPath in files && parse(files[registryPath]).Some? ==> r == parse(files[registryPath]).value
  {
    if registryPath in files && parse(files[registryPath]).Some? then parse(files[registryPath]).value else []
  }

  // ---------------------------------------------------------------
  // install
  // ---------------------------------------------------------------

  /** What `installSkill` returns besides `installed: true`. */
  datatype Installed = Installed(skillName: string, skillPath: string, registryEntry: Entry)

  /** The SKILL.md written when no plan text is given. */
  function FallbackSkillMd(skillName: string, repo: string): string {
    "---\nname: " + skillName + "\ndescription: Converted skill from " + repo + "\n---\n\n# "
    + skillName + "\n\nSkill converted from GitHub repository.\n\n## Source\n\n" + repo + "\n"
  }

  /** The SKILL.md `installSkill` writes: only without a SKILL.md of the
      skill's own and with a plan, whose `skillMdProposal` is used when it is
      a non-empty text. `parsePlan` gives that field of the parsed plan. */
  function SkillMdToWrite(info: StagingInfo, conversionPlan: Option<string>,
                          parsePlan: string -> Option<Option<string>>): (r: Result<Option<(string, string)>>)
    ensures info.hasSkillMd || conversionPlan.None? || conversionPlan.value == "" ==> r == Success(None)
    ensures r.Success? && r.value.Some? ==>
              !info.hasSkillMd && conversionPlan.Some? && conversionPlan.value != ""
              && parsePlan(conversionPlan.value).Some?
              && r.value.value.0 == Paths.Join(info.sourcePath, "SKILL.md")
              && var proposal := parsePlan(conversionPlan.value).value;
              r.value.value.1 == if proposal.Some? && proposal.value != "" then proposal.value
                                 else FallbackSkillMd(info.skillName, info.repo)
    ensures r == Success(None) ==> info.hasSkillMd || conversionPlan.None? || conversionPlan.value == ""
    ensures r.Failure? <==> !info.hasSkillMd && conversionPlan.Some? && conversionPlan.value != ""
                            && parsePlan(conversionPlan.value).None?
    ensures r.Failure? ==> r.error == MalformedJson
  {
    if info.hasSkillMd || conversionPlan.None? || conversionPlan.value == "" then Success(None)
    else match parsePlan(conversionPlan.value)
      case None => Failure(MalformedJson)
      case Some(proposal) =>
        var content := if proposal.Some? && proposal.value != "" then proposal.value
                       else FallbackSkillMd(info.skillName, info.repo);
        Success(Some((Paths.Join(info.sourcePath, "SKILL.md"), content)))
  }

  /** The message of a `JSON.parse` failure. */
  const MalformedJson := "Unexpected token in JSON"

  /** `installSkill`: reads the staging info, decides the SKILL.md to write,
      and records the new entry in `registry`. `written` is the SKILL.md
      write; on success `r.value.skillPath` is the destination of the folder
      copy. */
  method InstallSkill(registry: Registry, stagedId: string, stagingDir: string, skillsDir: string,
                      files: map<string, string>, parseInfo: string -> Option<StagingInfo>,
                      conversionPlan: Option<string>, parsePlan: string -> Option<Option<string>>,
                      installedAt: string)
    returns (r: Result<Installed>, written: Option<(string, string)>)
    modifies registry
    ensures Paths.Join(Paths.Join(stagingDir, stagedId), "staging-info.json") !in files ==>
              r == Failure("Staged skill not found: " + stagedId) && written.None?
    ensures Paths.Join(Paths.Join(stagingDir, stagedId), "staging-info.json") in files ==>
              var info := parseInfo(files[Paths.Join(Paths.Join(stagingDir, stagedId), "staging-info.json")]);
              (info.None? ==> r == Failure(MalformedJson) && written.None?)
              && (info.Some? && SkillMdToWrite(info.value, conversionPlan, parsePlan).Failure? ==>
                    r == Failure(MalformedJson) && written.None?)
              && (info.Some? && SkillMdToWrite(info.value, conversionPlan, parsePlan).Success? ==> r.Success?)
    ensures r.Failure? ==> registry.skills == old(registry.skills)
    ensures r.Success? ==>
              var infoPath := Paths.Join(Paths.Join(stagingDir, stagedId), "staging-info.json");
              infoPath in files && parseInfo(files[infoPath]).Some?
              && var info := parseInfo(files[infoPath]).value;
              SkillMdToWrite(info, conversionPlan, parsePlan) == Success(written)
              && r.value.skillName == info.skillName
              && r.value.skillPath == Paths.Join(skillsDir, info.skillName)
              && r.value.registryEntry == Entry(info.skillName, "https://github.com/" + info.repo, installedAt,
                                               Some(Paths.Join(skillsDir, info.skillName)), stagedId)
              && registry.skills == Upserted(old(registry.skills), r.value.registryEntry)
  {
    written := None;
    var infoPath := Paths.Join(Paths.Join(stagingDir, stagedId), "staging-info.json");
    if infoPath !in files {
      return Failure("Staged skill not found: " + stagedId), None;
    }
    var parsed := parseInfo(files[infoPath]);
    if parsed.None? {
      return Failure(MalformedJson), None;
    }
    var info := parsed.value;
    var write := SkillMdToWrite(info, conversionPlan, parsePlan);
    if write.Failure? {
      return Failure(write.error), None;
    }
    written := write.value;
    var destPath := Paths.Join(skillsDir, info.skillName);
    var entry := Entry(info.skillName, "https://github.com/" + info.repo, installedAt, Some(destPath), stagedId);
    registry.Upsert(entry);
    r := Success(Installed(info.skillName, destPath, entry));
  }

  // ---------------------------------------------------------------
  // list, uninstall
  // ---------------------------------------------------------------

  /** An entry whose `installPath` is set and exists. */
  predicate IsLive(e: Entry, existing: set<string>) {
    e.installPath.Some? && e.installPath.value != "" && e.installPath.value in existing
  }

  /** `listInstalled`: the live entries, in registry order. */
  function ListInstalled(skills: seq<Entry>, existing: set<string>): (r: seq<Entry>)
    ensures forall e :: e in r <==> e in skills && IsLive(e, existing)
    ensures |r| <= |skills|
  {
    if skills == [] then []
    else if IsLive(skills[0], existing) then [skills[0]] + ListInstalled(skills[1..], existing)
    else ListInstalled(skills[1..], existing)
  }

  lemma {:induction false} ListInstalledIsSubseq(skills: seq<Entry>, existing: set<string>)
    ensures Seqs.IsSubseq(ListInstalled(skills, existing), skills)
  {
    if skills != [] {
      ListInstalledIsSubseq(skills[1..], existing);
      if !IsLive(skills[0], existing) {
        Seqs.SubseqDropHead(ListInstalled(skills[1..], existing), skills);
      }
    }
  }

  /** `uninstallSkill`: fails when no entry has the name; otherwise removes
      every entry with it and returns the folder it deletes, the first such
      entry's `installPath` or else the folder in `skillsDir`. */
  method UninstallSkill(registry: Registry, skillName: string, skillsDir: string) returns (r: Result<string>)
    modifies registry
    ensures r.Failure? <==> forall i :: 0 <= i < |old(registry.skills)| ==> old(registry.skills)[i].skillName != skillName
    ensures r.Failure? ==> r.error == "Skill not found in registry: " + skillName && registry.skills == old(registry.skills)
    ensures r.Success? ==> registry.skills == Without(old(registry.skills), skillName)
    ensures r.Success? ==> FindByName(old(registry.skills), skillName).Some?
    ensures r.Success? ==>
              var e := FindByName(old(registry.skills), skillName).value;
              r.value == if e.installPath.Some? && e.installPath.value != "" then e.installPath.value
                         else Paths.Join(skillsDir, skillName)
  {
    var entry := FindByName(registry.skills, skillName);
    if entry.None? {
      return Failure("Skill not found in registry: " + skillName);
    }
    var e := entry.value;
    var skillPath := if e.installPath.Some? && e.installPath.value != "" then e.installPath.value
                     else Paths.Join(skillsDir, skillName);
    registry.RemoveByName(skillName);
    r := Success(skillPath);
  }

  // ---------------------------------------------------------------
  // cleanup
  // ---------------------------------------------------------------

  /** 24 hours in milliseconds. */
  const MaxStagingAge: int := 24 * 60 * 60 * 1000

  /** What `cleanupStaging` finds in a staging folder: no
      `staging-info.json`, one that is not JSON (its `JSON.parse` throws and
      ends the whole command), or the parsed `stagedAt`, which is `None` when
      it is not a date (the age is then `NaN`, which is never greater than
      24). */
  datatype StagedInfo = NoInfo | Malformed | Info(stagedTime: Option<int>)

  /** A folder whose staging info is more than 24 hours older than `now`. */
  predicate IsStale(e: string, info: string -> StagedInfo, now: int) {
    info(e).Info? && info(e).stagedTime.Some? && now - info(e).stagedTime.value > MaxStagingAge
  }

  /** The stale entries, in listing order. */
  function StaleEntries(entries: seq<string>, info: string -> StagedInfo, now: int): (r: seq<string>)
    ensures forall e :: e in r <==> e in entries && IsStale(e, info, now)
    ensures |r| <= |entries|
    decreases |entries|
  {
    if entries == [] then []
    else
      var init := entries[..|entries| - 1];
      var last := entries[|entries| - 1];
      assert entries == init + [last];
      StaleEntries(init, info, now) + (if IsStale(last, info, now) then [last] else [])
  }

  lemma StaleEntriesSnoc(init: seq<string>, e: string, info: string -> StagedInfo, now: int)
    ensures StaleEntries(init + [e], info, now)
            == StaleEntries(init, info, now) + (if IsStale(e, info, now) then [e] else [])
  {
    assert (init + [e])[..|init|] == init;
  }

  /** One step of the scan: the stale entries of one more entry. */
  lemma StaleEntriesStep(entries: seq<string>, i: nat, info: string -> StagedInfo, now: int)
    requires i < |entries|
    ensures StaleEntries(entries[..i + 1], info, now)
            == StaleEntries(entries[..i], info, now) + (if IsStale(entries[i], info, now) then [entries[i]] else [])
  {
    assert entries[..i + 1] == entries[..i] + [entries[i]];
    StaleEntriesSnoc(entries[..i], entries[i], info, now);
  }

  /** How far the loop of `cleanupStaging` gets: the index of the first
      entry with a malformed staging info, or the number of entries. */
  function ScanEnd(entries: seq<string>, info: string -> StagedInfo): (k: nat)
    ensures k <= |entries|
    ensures forall j :: 0 <= j < k ==> !info(entries[j]).Malformed?
    ensures k < |entries| ==> info(entries[k]).Malformed?
  {
    if entries == [] || info(entries[0]).Malformed? then 0
    else 1 + ScanEnd(entries[1..], info)
  }

  /** The scan stops at `i` when every entry before it is well formed and
      `i` is the end or a malformed entry. */
  lemma ScanEndAt(entries: seq<string>, info: string -> StagedInfo, i: nat)
    requires i <= |entries| && forall j :: 0 <= j < i ==> !info(entries[j]).Malformed?
    requires i < |entries| ==> info(entries[i]).Malformed?
    ensures ScanEnd(entries, info) == i
  {
  }

  /** `cleanupStaging`: removes the stale staging folders in listing order
      and counts them; nothing happens when the staging folder does not
      exist, and a malformed staging info stops the command with an error
      after the folders before it were handled. */
  method CleanupStaging(stagingDir: string, dirExists: bool, entries: seq<string>,
                        info: string -> StagedInfo, now: int)
    returns (r: Result<nat>, removed: seq<string>)
    ensures !dirExists ==> r == Success(0) && removed == []
    ensures dirExists ==> removed == StaleEntries(entries[..ScanEnd(entries, info)], info, now)
    ensures dirExists ==> (r.Failure? <==> ScanEnd(entries, info) < |entries|)
    ensures r.Failure? ==> r.error == MalformedJson
    ensures r.Success? ==> r.value == |removed|
  {
    removed := [];
    if !dirExists {
      return Success(0), removed;
    }
    var cleaned := 0;
    var i := 0;
    while i < |entries|
      invariant i <= |entries|
      invariant forall j :: 0 <= j < i ==> !info(entries[j]).Malformed?
      invariant removed == StaleEntries(entries[..i], info, now)
      invariant cleaned == |removed|
    {
      var entry := entries[i];
      var found := info(entry);
      if found.Malformed? {
        ScanEndAt(entries, info, i);
        return Failure(MalformedJson), removed;
      }
      StaleEntriesStep(entries, i, info, now);
      if found.Info? && found.stagedTime.Some? && now - found.stagedTime.value > MaxStagingAge {
        removed := removed + [entry];
        cleaned := cleaned + 1;
      }
      i := i + 1;
    }
    ScanEndAt(entries, info, i);
    r := Success(cleaned);
  }

  /** A staging folder one day old exactly is kept; one millisecond older is
      removed. */
  lemma StaleBoundary(e: string, t: int)
    ensures !IsStale(e, _ => Info(Some(t)), t + MaxStagingAge)
    ensures IsStale(e, _ => Info(Some(t)), t + MaxStagingAge + 1)
  {
  }
}
