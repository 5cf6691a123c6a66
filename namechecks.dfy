/** How the names the inspector proposes and the installer derives relate
    to the folder-name rule `isValidSkillName` of the extension. Neither
    program checks its name against that rule. */
module NameChecks {
  import opened JsStrings
  import opened SkillNames
  import Paths
  import Inspector
  import Installer
  import opened Wrappers

  /** The first character of a derived name is the first character of the
      repository name, lower-cased, or `-` when that is not in `[a-z0-9-]`. */
  lemma ReplacedHead(repo: string)
    requires repo != ""
    ensures var l := LowerChar(repo[0]);
      ReplaceInvalid(ToLower(repo))[0] == if IsNameChar(l) then l else '-'
  {
  }

  /** The inspector's proposed name is a valid skill folder name exactly when
      the repository name starts with an ASCII letter or digit. */
  lemma ProposedNameValidIff(repo: string)
    ensures Paths.IsValidSkillName(Inspector.ProposedName(repo)) <==>
              repo != "" && Paths.IsLeadChar(LowerChar(repo[0]))
  {
    var n := Inspector.ProposedName(repo);
    Paths.ValidSkillNameIff(n);
    assert forall k :: 0 <= k < |n| ==> IsNameChar(n[k]) by {
      forall k | 0 <= k < |n|
        ensures IsNameChar(n[k])
      {
        assert n[k] in n;
      }
    }
    if repo != "" {
      var t := ReplaceInvalid(ToLower(repo));
      CollapseHead(t);
      ReplacedHead(repo);
      assert n[0] == CollapseHyphens(t)[0];
    }
  }

  /** The installer's default name is a valid skill folder name exactly when
      the repository name starts with an ASCII letter or digit. */
  lemma DefaultNameValidIff(repo: string)
    ensures Paths.IsValidSkillName(Installer.DefaultSkillName(repo)) <==>
              repo != "" && Paths.IsLeadChar(LowerChar(repo[0]))
  {
    Paths.ValidSkillNameIff(Installer.DefaultSkillName(repo));
  }

  /** For the repository `.dotfiles` both programs derive a name that
      starts with `-`, which the rule rejects. */
  lemma DotfilesRejected()
    ensures !Paths.IsValidSkillName(Inspector.ProposedName(".dotfiles"))
    ensures !Paths.IsValidSkillName(Installer.DefaultSkillName(".dotfiles"))
  {
    ProposedNameValidIff(".dotfiles");
    DefaultNameValidIff(".dotfiles");
  }

  /** The two programs can derive different names from the same repository:
      the inspector collapses runs of hyphens, the installer does not. */
  lemma NamesDiffer()
    ensures Inspector.ProposedName("a..b") == "a-b"
    ensures Installer.DefaultSkillName("a..b") == "a--b"
  {
    var r := "a..b";
    var low := ToLower(r);
    assert low == r by {
      assert low[0] == LowerChar('a') && low[1] == LowerChar('.');
      assert low[2] == LowerChar('.') && low[3] == LowerChar('b');
    }
    var rep := ReplaceInvalid(low);
    assert rep == "a--b";
    var t2: string := ['-', 'b'];
    var t1: string := ['-'] + t2;
    assert rep == ['a'] + t1;
    assert t2[1..] == ['b'] && t1[1..] == t2 && (['a'] + t1)[1..] == t1;
    assert CollapseHyphens(t2) == t2;
    assert CollapseHyphens(t1) == t2;
    assert CollapseHyphens(rep) == ['a'] + t2;
  }

  /** The name line `name: ../x` is taken as it is. */
  lemma DotDotNameRead()
    ensures Installer.SkillMdName("name: ../x") == Some("../x")
  {
    var v := "../x";
    assert forall k :: 0 <= k < |v| ==> !IsSpace(v[k]) by {
      assert v[0] == '.' && v[1] == '.' && v[2] == '/' && v[3] == 'x';
    }
    var s := "name: ../x";
    assert s == "name:" + " " + v;
    KeyLineAtStart(s, "name:", v);
    TrimNoop(v);
  }

  /** A `SKILL.md` whose `name:` line reads `../x` makes the staged skill's
      name `../x`, which the rule rejects and which `installSkill` joins to
      the skills directory as it is. */
  lemma UncheckedSkillMdName(repo: string, stagingDir: string, stagedId: string, entries: seq<string>,
                             isDir: string -> bool, files: map<string, string>, stagedAt: string)
    requires Installer.StageRepo(repo, stagingDir, stagedId, entries, isDir, files, stagedAt).Success?
    requires var md := Paths.Join(Installer.StageRepo(repo, stagingDir, stagedId, entries, isDir, files, stagedAt)
                                    .value.sourcePath, "SKILL.md");
      md in files && files[md] == "name: ../x"
    ensures Installer.StageRepo(repo, stagingDir, stagedId, entries, isDir, files, stagedAt).value.skillName == "../x"
    ensures !Paths.IsValidSkillName("../x")
  {
    DotDotNameRead();
  }
}
