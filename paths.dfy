/** Where the extension keeps skills and its own data, and the rule a skill
    folder name must follow. The editor settings, the home directory, the
    open workspace folders and the paths that exist on disk are read from a
    `Host` value instead of from VS Code, `os` and `fs`. */
module Paths {
  import opened Wrappers
  import opened SkillNames

  const GlobalSkillsSubpath := ".gemini/antigravity/skills"
  const DataSubpath := ".gemini/antigravity/.kingsman"
  const WorkspaceSkillsSubpath := ".agent/skills"

  /** `path.join(a, b)` of a directory and a relative path. */
  function Join(a: string, b: string): (r: string)
    ensures |r| == |a| + 1 + |b| && r[..|a|] == a && r[|a|] == '/' && r[|a| + 1..] == b
  {
    a + "/" + b
  }

  /** The part of the environment the path getters read: the
      `kingsman.globalSkillsPath` setting, the home directory, the workspace
      folders' file-system paths and the paths that exist. */
  datatype Host = Host(
    customSkillsPath: Option<string>,
    homedir: string,
    workspaceFolders: seq<string>,
    existing: set<string>)

  /** The configured global skills path is set and exists. */
  predicate CustomPathUsable(host: Host) {
    host.customSkillsPath.Some? && host.customSkillsPath.value != "" && host.customSkillsPath.value in host.existing
  }

  /** `getGlobalSkillsPath`: the configured path when it is set and exists,
      else the default under the home directory. */
  function GlobalSkillsPath(host: Host): (r: string)
    ensures CustomPathUsable(host) ==> r == host.customSkillsPath.value
    ensures !CustomPathUsable(host) ==> r == Join(host.homedir, GlobalSkillsSubpath)
  {
    match host.customSkillsPath
    case Some(custom) =>
      if custom != "" && custom in host.existing then custom else Join(host.homedir, GlobalSkillsSubpath)
    case None => Join(host.homedir, GlobalSkillsSubpath)
  }

  /** `getWorkspaceSkillsPath`: `.agent/skills` in the first workspace
      folder, or nothing without one. */
  function WorkspaceSkillsPath(host: Host): (r: Option<string>)
    ensures r.None? <==> host.workspaceFolders == []
    ensures r.Some? ==> r.value == Join(host.workspaceFolders[0], WorkspaceSkillsSubpath)
  {
    if host.workspaceFolders == [] then None
    else Some(Join(host.workspaceFolders[0], WorkspaceSkillsSubpath))
  }

  /** `getKingsmanDataPath`. */
  function DataPath(homedir: string): string {
    Join(homedir, DataSubpath)
  }

  function StagingPath(homedir: string): string {
    Join(DataPath(homedir), "staging")
  }

  function CachePath(homedir: string): string {
    Join(DataPath(homedir), "cache")
  }

  function RegistryPath(homedir: string): string {
    Join(DataPath(homedir), "registry.json")
  }

  function LogsPath(homedir: string): string {
    Join(DataPath(homedir), "logs")
  }

  /** `getBundledSkillsPath`: the `bundled-skills` folder directly inside
      the extension's directory. */
  function BundledSkillsPath(extensionPath: string): (r: string)
    ensures |r| == |extensionPath| + 15 && r[..|extensionPath|] == extensionPath
    ensures r[|extensionPath|] == '/' && r[|extensionPath| + 1..] == "bundled-skills"
  {
    Join(extensionPath, "bundled-skills")
  }

  /** The four data paths are distinct entries directly inside the data
      directory, under the home directory. */
  lemma DataLayout(homedir: string)
    ensures var d := DataPath(homedir);
      d == homedir + "/" + ".gemini/antigravity/.kingsman"
      && StagingPath(homedir) == d + "/" + "staging" && CachePath(homedir) == d + "/" + "cache"
      && RegistryPath(homedir) == d + "/" + "registry.json" && LogsPath(homedir) == d + "/" + "logs"
    ensures |{StagingPath(homedir), CachePath(homedir), RegistryPath(homedir), LogsPath(homedir)}| == 4
  {
    var d := DataPath(homedir);
    JoinFirst(d, "staging");
    JoinFirst(d, "cache");
    JoinFirst(d, "registry.json");
    JoinFirst(d, "logs");
    FourDistinct(StagingPath(homedir), CachePath(homedir), RegistryPath(homedir), LogsPath(homedir));
  }

  /** The character after the separator is the first one of the second part. */
  lemma JoinFirst(a: string, b: string)
    requires b != []
    ensures Join(a, b)[|a| + 1] == b[0]
  {
    assert Join(a, b)[|a| + 1..] == b;
  }

  lemma FourDistinct<T>(a: T, b: T, c: T, d: T)
    requires a != b && a != c && a != d && b != c && b != d && c != d
    ensures |{a, b, c, d}| == 4
  {
    assert {a, b, c, d} == {a} + {b} + {c} + {d};
    assert |{a} + {b}| == 2;
    assert |{a} + {b} + {c}| == 3;
  }


  datatype Target = Global | Workspace

  /** `getSkillPath`. */
  function SkillPath(host: Host, skillName: string, target: Target): (r: Option<string>)
    ensures target == Global ==> r == Some(Join(GlobalSkillsPath(host), skillName))
    ensures target == Workspace ==> (r.None? <==> host.workspaceFolders == [])
    ensures target == Workspace && r.Some? ==>
              r.value == Join(Join(host.workspaceFolders[0], WorkspaceSkillsSubpath), skillName)
  {
    match target
    case Global => Some(Join(GlobalSkillsPath(host), skillName))
    case Workspace =>
      var ws := WorkspaceSkillsPath(host);
      if ws.Some? then Some(Join(ws.value, skillName)) else None
  }

  /** `isSkillInstalled`. */
  predicate IsSkillInstalled(host: Host, skillName: string, target: Target) {
    var p := SkillPath(host, skillName, target);
    p.Some? && p.value in host.existing
  }

  /** Without a workspace folder no skill is installed in the workspace. */
  lemma NotInstalledWithoutWorkspace(host: Host, skillName: string)
    requires host.workspaceFolders == []
    ensures !IsSkillInstalled(host, skillName, Workspace)
  {
  }

  /** With a workspace folder, a skill counts as installed in the workspace
      exactly when its folder inside the first folder's skills directory
      exists. */
  lemma InstalledInWorkspace(host: Host, skillName: string)
    requires host.workspaceFolders != []
    ensures IsSkillInstalled(host, skillName, Workspace) <==>
              Join(Join(host.workspaceFolders[0], WorkspaceSkillsSubpath), skillName) in host.existing
  {
  }

  /** A skill counts as installed globally exactly when its folder inside the
      global skills directory exists. */
  lemma InstalledGlobally(host: Host, skillName: string)
    ensures IsSkillInstalled(host, skillName, Global) <==> Join(GlobalSkillsPath(host), skillName) in host.existing
  {
  }

  // ---------------------------------------------------------------
  // isValidSkillName
  // ---------------------------------------------------------------

  /** `[a-z0-9]`. */
  predicate IsLeadChar(c: char) {
    ('a' <= c <= 'z') || ('0' <= c <= '9')
  }

  /** Matching `[a-z0-9-]{0,63}$` from position `i` after `count`
      repetitions. */
  function MatchTail(s: string, i: nat, count: nat): bool
    requires i <= |s|
    decreases |s| - i
  {
    if i == |s| then true
    else if count < 63 && IsNameChar(s[i]) then MatchTail(s, i + 1, count + 1)
    else false
  }

  /** `/^[a-z0-9][a-z0-9-]{0,63}$/.test(name)`. */
  predicate IsValidSkillName(name: string) {
    name != [] && IsLeadChar(name[0]) && MatchTail(name, 1, 0)
  }

  lemma {:induction false} MatchTailIff(s: string, i: nat, count: nat)
    requires i <= |s| && count <= 63
    ensures MatchTail(s, i, count) <==>
              |s| - i + count <= 63 && forall k :: i <= k < |s| ==> IsNameChar(s[k])
    decreases |s| - i
  {
    if i < |s| && count < 63 && IsNameChar(s[i]) {
      MatchTailIff(s, i + 1, count + 1);
    }
  }

  /** A valid name has 1 to 64 characters from `[a-z0-9-]` and does not start
      with `-`. */
  lemma ValidSkillNameIff(name: string)
    ensures IsValidSkillName(name) <==>
              1 <= |name| <= 64 && name[0] != '-' && forall k :: 0 <= k < |name| ==> IsNameChar(name[k])
  {
    if name != [] {
      MatchTailIff(name, 1, 0);
    }
  }

  /** Trailing and repeated hyphens pass; a leading one does not. */
  lemma HyphenPlacement()
    ensures IsValidSkillName("a--") && IsValidSkillName("a-")
    ensures !IsValidSkillName("-a") && !IsValidSkillName("")
  {
    var a := "a--";
    assert a[0] == 'a' && a[1] == '-' && a[2] == '-';
    ValidSkillNameIff(a);
    var b := "a-";
    assert b[0] == 'a' && b[1] == '-';
    ValidSkillNameIff(b);
  }
}
