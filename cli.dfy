/** The command-line parser shared by the inspector, installer and search
    programs: each walks its arguments once, sets the command when it meets
    one of its command words, stores a flag's value when the flag is followed
    by a non-empty argument (which it then skips), and ignores everything
    else. Each program supplies its own command words, flags and default
    command. */
module Cli {
  import opened Wrappers

  /** `command` is the command word kept; `flags` maps each flag name
      (`--repo`, ...) to the value stored for it. */
  datatype Parsed = Parsed(command: Option<string>, flags: map<string, string>) {
    function Flag(name: string): Option<string> {
      if name in flags then Some(flags[name]) else None
    }
  }

  /** The parser's state after it has consumed `args[..i]` into `p`, run to
      the end of `args`. */
  function ParseFrom(args: seq<string>, i: nat, p: Parsed, keywords: set<string>, flagNames: set<string>): Parsed
    decreases |args| - i
  {
    if i >= |args| then p
    else if args[i] in keywords then
      ParseFrom(args, i + 1, p.(command := Some(args[i])), keywords, flagNames)
    else if args[i] in flagNames && i + 1 < |args| && args[i + 1] != "" then
      ParseFrom(args, i + 2, p.(flags := p.flags[args[i] := args[i + 1]]), keywords, flagNames)
    else
      ParseFrom(args, i + 1, p, keywords, flagNames)
  }

  /** The `parseArgs` loop. The sources test command words and flags in
      different orders; since no command word is a flag, the order does not
      matter. */
  method Parse(args: seq<string>, keywords: set<string>, flagNames: set<string>, default: Option<string>)
    returns (p: Parsed)
    requires keywords !! flagNames
    ensures p == ParseFrom(args, 0, Parsed(default, map[]), keywords, flagNames)
  {
    p := Parsed(default, map[]);
    var i := 0;
    while i < |args|
      invariant i <= |args|
      invariant ParseFrom(args, i, p, keywords, flagNames) == ParseFrom(args, 0, Parsed(default, map[]), keywords, flagNames)
      decreases |args| - i
    {
      var arg := args[i];
      if arg in keywords {
        p := p.(command := Some(arg));
      } else if arg in flagNames && i + 1 < |args| && args[i + 1] != "" {
        p := p.(flags := p.flags[arg := args[i + 1]]);
        i := i + 1;
      }
      i := i + 1;
    }
  }

  /** A flag is set only from a non-empty argument that directly follows
      that flag in `args`; no other key is ever set. */
  lemma {:induction false} FlagFollowsFlagFrom(args: seq<string>, i: nat, p: Parsed, keywords: set<string>, flagNames: set<string>, f: string)
    requires f in ParseFrom(args, i, p, keywords, flagNames).flags
    ensures
      var v := ParseFrom(args, i, p, keywords, flagNames).flags[f];
      (f in p.flags && p.flags[f] == v) ||
      (f in flagNames && v != "" && exists k :: i <= k && k + 1 < |args| && args[k] == f && args[k + 1] == v)
    decreases |args| - i
  {
    if i < |args| {
      if args[i] in keywords {
        FlagFollowsFlagFrom(args, i + 1, p.(command := Some(args[i])), keywords, flagNames, f);
      } else if args[i] in flagNames && i + 1 < |args| && args[i + 1] != "" {
        FlagFollowsFlagFrom(args, i + 2, p.(flags := p.flags[args[i] := args[i + 1]]), keywords, flagNames, f);
      } else {
        FlagFollowsFlagFrom(args, i + 1, p, keywords, flagNames, f);
      }
    }
  }

  lemma FlagFollowsFlag(args: seq<string>, keywords: set<string>, flagNames: set<string>, default: Option<string>, f: string)
    requires f in ParseFrom(args, 0, Parsed(default, map[]), keywords, flagNames).flags
    ensures
      var v := ParseFrom(args, 0, Parsed(default, map[]), keywords, flagNames).flags[f];
      f in flagNames && v != "" && exists k :: 0 <= k && k + 1 < |args| && args[k] == f && args[k + 1] == v
  {
    FlagFollowsFlagFrom(args, 0, Parsed(default, map[]), keywords, flagNames, f);
  }

  /** The command is the default or one of the command words, and then one
      that occurs in `args`. */
  lemma {:induction false} CommandIsKeywordFrom(args: seq<string>, i: nat, p: Parsed, keywords: set<string>, flagNames: set<string>)
    ensures
      var c := ParseFrom(args, i, p, keywords, flagNames).command;
      c == p.command || (c.Some? && c.value in keywords && exists k :: i <= k < |args| && args[k] == c.value)
    decreases |args| - i
  {
    if i < |args| {
      if args[i] in keywords {
        CommandIsKeywordFrom(args, i + 1, p.(command := Some(args[i])), keywords, flagNames);
      } else if args[i] in flagNames && i + 1 < |args| && args[i + 1] != "" {
        CommandIsKeywordFrom(args, i + 2, p.(flags := p.flags[args[i] := args[i + 1]]), keywords, flagNames);
      } else {
        CommandIsKeywordFrom(args, i + 1, p, keywords, flagNames);
      }
    }
  }

  lemma CommandIsKeyword(args: seq<string>, keywords: set<string>, flagNames: set<string>, default: Option<string>)
    ensures
      var c := ParseFrom(args, 0, Parsed(default, map[]), keywords, flagNames).command;
      c == default || (c.Some? && c.value in keywords && c.value in args)
  {
    CommandIsKeywordFrom(args, 0, Parsed(default, map[]), keywords, flagNames);
  }
  /** Arguments that hold no command word leave the command as it is. */
  lemma {:induction false} NoKeywordFrom(s: seq<string>, i: nat, p: Parsed, keywords: set<string>, flagNames: set<string>)
    requires forall k :: i <= k < |s| ==> s[k] !in keywords
    ensures ParseFrom(s, i, p, keywords, flagNames).command == p.command
    decreases |s| - i
  {
    if i < |s| {
      if s[i] in flagNames && i + 1 < |s| && s[i + 1] != "" {
        NoKeywordFrom(s, i + 2, p.(flags := p.flags[s[i] := s[i + 1]]), keywords, flagNames);
      } else {
        NoKeywordFrom(s, i + 1, p, keywords, flagNames);
      }
    }
  }

  lemma {:induction false} KeywordFreeTailFrom(args: seq<string>, tail: seq<string>, i: nat, p: Parsed,
                                               keywords: set<string>, flagNames: set<string>)
    requires forall k :: 0 <= k < |tail| ==> tail[k] !in keywords
    ensures ParseFrom(args + tail, i, p, keywords, flagNames).command == ParseFrom(args, i, p, keywords, flagNames).command
    decreases |args| - i
  {
    var s := args + tail;
    assert forall k :: |args| <= k < |s| ==> s[k] == tail[k - |args|];
    if i >= |args| {
      NoKeywordFrom(s, i, p, keywords, flagNames);
    } else {
      assert s[i] == args[i];
      if args[i] in keywords {
        KeywordFreeTailFrom(args, tail, i + 1, p.(command := Some(args[i])), keywords, flagNames);
      } else if args[i] in flagNames && i + 1 < |args| && args[i + 1] != "" {
        assert s[i + 1] == args[i + 1];
        KeywordFreeTailFrom(args, tail, i + 2, p.(flags := p.flags[args[i] := args[i + 1]]), keywords, flagNames);
      } else if args[i] in flagNames && i + 1 < |s| && s[i + 1] != "" {
        NoKeywordFrom(s, i + 2, p.(flags := p.flags[args[i] := s[i + 1]]), keywords, flagNames);
      } else {
        KeywordFreeTailFrom(args, tail, i + 1, p, keywords, flagNames);
      }
    }
  }

  /** Arguments after the last command word never change the command. */
  lemma KeywordFreeTail(args: seq<string>, tail: seq<string>, keywords: set<string>, flagNames: set<string>,
                        default: Option<string>)
    requires forall k :: 0 <= k < |tail| ==> tail[k] !in keywords
    ensures ParseFrom(args + tail, 0, Parsed(default, map[]), keywords, flagNames).command
            == ParseFrom(args, 0, Parsed(default, map[]), keywords, flagNames).command
  {
    KeywordFreeTailFrom(args, tail, 0, Parsed(default, map[]), keywords, flagNames);
  }

  lemma {:induction false} LastKeywordWinsFrom(args: seq<string>, kw: string, i: nat, p: Parsed,
                                               keywords: set<string>, flagNames: set<string>)
    requires kw in keywords && i <= |args|
    requires args == [] || args[|args| - 1] !in flagNames
    ensures ParseFrom(args + [kw], i, p, keywords, flagNames).command == Some(kw)
    decreases |args| - i
  {
    var s := args + [kw];
    if i == |args| {
      assert s[i] == kw;
    } else {
      assert s[i] == args[i];
      if args[i] in keywords {
        LastKeywordWinsFrom(args, kw, i + 1, p.(command := Some(args[i])), keywords, flagNames);
      } else if args[i] in flagNames && i + 1 < |s| && s[i + 1] != "" {
        LastKeywordWinsFrom(args, kw, i + 2, p.(flags := p.flags[args[i] := s[i + 1]]), keywords, flagNames);
      } else {
        LastKeywordWinsFrom(args, kw, i + 1, p, keywords, flagNames);
      }
    }
  }

  /** A command word that is not the value of a flag before it becomes the
      command, whatever came earlier: the last such word wins. */
  lemma LastKeywordWins(args: seq<string>, kw: string, keywords: set<string>, flagNames: set<string>,
                        default: Option<string>)
    requires kw in keywords
    requires args == [] || args[|args| - 1] !in flagNames
    ensures ParseFrom(args + [kw], 0, Parsed(default, map[]), keywords, flagNames).command == Some(kw)
  {
    LastKeywordWinsFrom(args, kw, 0, Parsed(default, map[]), keywords, flagNames);
  }

  lemma {:induction false} LastFlagWinsFrom(args: seq<string>, f: string, v: string, i: nat, p: Parsed,
                                            keywords: set<string>, flagNames: set<string>)
    requires f in flagNames && f !in keywords && v != "" && i <= |args|
    requires args == [] || args[|args| - 1] !in flagNames
    ensures var q := ParseFrom(args + [f, v], i, p, keywords, flagNames);
      f in q.flags && q.flags[f] == v
    decreases |args| - i
  {
    var s := args + [f, v];
    if i == |args| {
      assert s[i] == f && s[i + 1] == v;
    } else {
      assert s[i] == args[i];
      if args[i] in keywords {
        LastFlagWinsFrom(args, f, v, i + 1, p.(command := Some(args[i])), keywords, flagNames);
      } else if args[i] in flagNames && i + 1 < |s| && s[i + 1] != "" {
        LastFlagWinsFrom(args, f, v, i + 2, p.(flags := p.flags[args[i] := s[i + 1]]), keywords, flagNames);
      } else {
        LastFlagWinsFrom(args, f, v, i + 1, p, keywords, flagNames);
      }
    }
  }

  /** Conversely, a flag followed by a non-empty value at the end of `args`
      stores that value, whatever came earlier, unless the flag is itself
      taken as the value of a flag before it. */
  lemma LastFlagWins(args: seq<string>, f: string, v: string, keywords: set<string>, flagNames: set<string>,
                     default: Option<string>)
    requires f in flagNames && f !in keywords && v != ""
    requires args == [] || args[|args| - 1] !in flagNames
    ensures var q := ParseFrom(args + [f, v], 0, Parsed(default, map[]), keywords, flagNames);
      f in q.flags && q.flags[f] == v
  {
    LastFlagWinsFrom(args, f, v, 0, Parsed(default, map[]), keywords, flagNames);
  }
}
