/** Which commands the exec guard blocks, said on the words of the command. */
module ShellBlocking {
  import opened Text
  import opened ShellLexer
  import opened ShellQuoting
  import opened ShellGuard

  // ----- words in front of the command word -----

  predicate Letter(c: char)
  {
    65 <= c as int <= 90 || 97 <= c as int <= 122 || c == '_'
  }

  /** `NAME=value`, the name a letter or underscore followed by letters, digits and underscores. */
  ghost predicate Assignment(t: string)
  {
    exists k :: NamedTo(t, k)
  }

  ghost predicate NamedTo(t: string, k: int)
  {
    0 < k < |t| && t[k] == '=' && Letter(t[0]) && forall j :: 0 <= j < k ==> Letter(t[j]) || 48 <= t[j] as int <= 57
  }

  ghost predicate Flag(t: string)
  {
    t != "" && t[0] == '-'
  }

  lemma {:induction false} AssignmentIs(t: string)
    ensures Assignment(t) <==> IsEnvAssignment(t)
    ensures Flag(t) <==> IsFlag(t)
    ensures Assignment(t) ==> !Flag(t) && t != "env" && t != "sudo"
  {
    var k := IndexOf(t, "=", 0);
    if k > 0 && IsEnvAssignment(t) {
      assert t[k] == t[k..k + 1][0] == '=';
      assert NamedTo(t, k);
    }
    if i :| NamedTo(t, i) {
      assert t[i..i + 1] == "=" && MatchesAt(t, "=", i);
      assert forall j :: 0 <= j < i ==> t[j..j + 1][0] == t[j] != '=';
      assert k == i;
      assert t == "env" || t == "sudo" ==> '=' !in t;
    }
  }

  ghost predicate Assignments(ts: seq<string>)
  {
    forall k :: 0 <= k < |ts| ==> Assignment(ts[k])
  }

  ghost predicate Flags(ts: seq<string>)
  {
    forall k :: 0 <= k < |ts| ==> Flag(ts[k])
  }

  ghost predicate FlagsOrAssignments(ts: seq<string>)
  {
    forall k :: 0 <= k < |ts| ==> Flag(ts[k]) || Assignment(ts[k])
  }

  /** Skipping tokens of a kind up to the first that is not. */
  lemma {:induction false} SkipsAll(kind: string -> bool, pre: seq<string>, more: seq<string>, rest: seq<string>)
    requires (forall k :: 0 <= k < |more| ==> kind(more[k])) && (rest != [] ==> !kind(rest[0]))
    ensures Skip(kind, pre + more + rest, |pre|) == |pre| + |more|
  {
    var all := pre + more + rest;
    var i := Skip(kind, all, |pre|);
    assert forall j :: |pre| <= j < |pre| + |more| ==> all[j] == more[j - |pre|];
    assert rest != [] ==> all[|pre| + |more|] == rest[0];
  }

  /** `env` with its flags and assignments, and `sudo` with its flags and then assignments. */
  datatype Prefix = Prefix(first: seq<string>, env: Option<seq<string>>, sudo: Option<(seq<string>, seq<string>)>)

  function EnvPart(p: Prefix): seq<string>
  {
    if p.env.Some? then ["env"] + p.env.value else []
  }

  function SudoPart(p: Prefix): seq<string>
  {
    if p.sudo.Some? then ["sudo"] + (p.sudo.value.0 + p.sudo.value.1) else []
  }

  function PrefixWords(p: Prefix): seq<string>
  {
    p.first + (EnvPart(p) + SudoPart(p))
  }

  /** The prefix ends right in front of this word. */
  ghost predicate Leads(p: Prefix, word: string)
  {
    && Assignments(p.first) && (p.env.Some? ==> FlagsOrAssignments(p.env.value))
    && (p.sudo.Some? ==> Flags(p.sudo.value.0) && Assignments(p.sudo.value.1))
    && !Assignment(word)
    && (if p.sudo.Some? then p.sudo.value.1 == [] ==> !Flag(word)
        else word != "sudo" && if p.env.Some? then !Flag(word) else word != "env")
  }

  lemma {:induction false} NotAssignments()
    ensures !Assignment("env") && !Assignment("sudo") && !Flag("sudo") && !Flag("env")
  {
    assert '=' !in "env" && '=' !in "sudo";
  }

  lemma {:induction false} KindsAre(ts: seq<string>)
    ensures Assignments(ts) ==> forall k :: 0 <= k < |ts| ==> IsEnvAssignment(ts[k])
    ensures Flags(ts) ==> forall k :: 0 <= k < |ts| ==> IsFlag(ts[k])
    ensures FlagsOrAssignments(ts) ==> forall k :: 0 <= k < |ts| ==> IsEnvArgument(ts[k])
  {
    hide IsEnvAssignment, IsFlag, Assignment, Flag;
    forall k | 0 <= k < |ts|
      ensures (Assignment(ts[k]) <==> IsEnvAssignment(ts[k])) && (Flag(ts[k]) <==> IsFlag(ts[k]))
    {
      AssignmentIs(ts[k]);
    }
  }

  /** The tokens, cut in front of `env`, in front of `sudo`, and behind its flags. */
  lemma {:induction false} Cuts(p: Prefix, tail: seq<string>)
    requires tail != []
    ensures var tokens, env, sudo := PrefixWords(p) + tail, EnvPart(p), SudoPart(p);
            && tokens == [] + p.first + (env + (sudo + tail)) && tokens[|p.first|] == (env + (sudo + tail))[0]
            && tokens == p.first + env + (sudo + tail) && tokens[|p.first| + |env|] == (sudo + tail)[0]
            && |PrefixWords(p)| == |p.first| + |env| + |sudo|
  {
    hide EnvPart, SudoPart;
  }

  /** Assignments in front are skipped. */
  lemma {:induction false} FirstSkips(p: Prefix, word: string, rest: seq<string>)
    requires Leads(p, word)
    ensures var tokens, i := PrefixWords(p) + ([word] + rest), |p.first|;
            && i < |tokens| && Skip(IsEnvAssignment, tokens, 0) == i
            && tokens[i] == (if p.env.Some? then "env" else if p.sudo.Some? then "sudo" else word)
  {
    hide IsEnvAssignment, IsFlag, Assignment, Flag, Skip, PrefixWords;
    KindsAre(p.first);
    NotAssignments();
    AssignmentIs("env");
    AssignmentIs("sudo");
    AssignmentIs(word);
    Cuts(p, [word] + rest);
    SkipsAll(IsEnvAssignment, [], p.first, EnvPart(p) + (SudoPart(p) + ([word] + rest)));
  }

  /** So are `env` and what belongs to it. */
  lemma {:induction false} EnvSkips(p: Prefix, word: string, rest: seq<string>)
    requires Leads(p, word)
    ensures var tokens, i, j := PrefixWords(p) + ([word] + rest), |p.first|, |p.first| + |EnvPart(p)|;
            && j < |tokens| && tokens[j] == (if p.sudo.Some? then "sudo" else word)
            && (p.env.Some? ==> Skip(IsEnvArgument, tokens, i + 1) == j)
  {
    hide IsEnvAssignment, IsFlag, Assignment, Flag, Skip, PrefixWords;
    NotAssignments();
    AssignmentIs("sudo");
    AssignmentIs(word);
    Cuts(p, [word] + rest);
    if p.env.Some? {
      KindsAre(p.env.value);
      ThreeParts(p.first, ["env"], p.env.value, SudoPart(p) + ([word] + rest));
      SkipsAll(IsEnvArgument, p.first + ["env"], p.env.value, SudoPart(p) + ([word] + rest));
    }
  }

  lemma {:induction false} ThreeParts(a: seq<string>, b: seq<string>, c: seq<string>, d: seq<string>)
    ensures a + (b + c) + d == (a + b) + c + d
  {
  }

  /** And `sudo` with its flags and assignments. */
  lemma {:induction false} SudoSkips(p: Prefix, word: string, rest: seq<string>)
    requires Leads(p, word) && p.sudo.Some?
    ensures var tokens, j := PrefixWords(p) + ([word] + rest), |p.first| + |EnvPart(p)|;
            && j + 1 <= |tokens|
            && Skip(IsEnvAssignment, tokens, Skip(IsFlag, tokens, j + 1)) == |PrefixWords(p)|
  {
    hide IsEnvAssignment, IsFlag, Assignment, Flag, Skip, PrefixWords, EnvPart;
    var tokens, tail := PrefixWords(p) + ([word] + rest), [word] + rest;
    var (fs, bs) := p.sudo.value;
    var lead := p.first + EnvPart(p);
    KindsAre(fs);
    KindsAre(bs);
    AssignmentIs(word);
    if bs != [] { AssignmentIs(bs[0]); }
    Cuts(p, tail);
    SudoCut(lead, fs, bs, tail);
    assert (bs + tail)[0] == if bs == [] then word else bs[0];
    SkipsAll(IsFlag, lead + ["sudo"], fs, bs + tail);
    SkipsAll(IsEnvAssignment, lead + ["sudo"] + fs, bs, tail);
  }

  lemma {:induction false} SudoCut(lead: seq<string>, fs: seq<string>, bs: seq<string>, tail: seq<string>)
    ensures var tokens := lead + ((["sudo"] + (fs + bs)) + tail);
            tokens == lead + ["sudo"] + fs + (bs + tail) && tokens == lead + ["sudo"] + fs + bs + tail
  {
  }

  /** The command word is the one the prefix leads to. */
  lemma {:induction false} CommandWord(p: Prefix, word: string, rest: seq<string>)
    requires Leads(p, word)
    ensures CommandIndex(PrefixWords(p) + ([word] + rest)) == Some(|PrefixWords(p)|)
  {
    FirstSkips(p, word, rest);
    EnvSkips(p, word, rest);
    if p.sudo.Some? { SudoSkips(p, word, rest); }
    hide IsEnvAssignment, IsFlag, Assignment, Flag, Skip, IsEnvArgument, CommandIndex;
    assert |PrefixWords(p)| == |p.first| + |EnvPart(p)| + |SudoPart(p)|;
    var tokens, i, j := PrefixWords(p) + ([word] + rest), |p.first|, |p.first| + |EnvPart(p)|;
    IndexSteps(tokens, i, p.env.Some?, j, p.sudo.Some?, |PrefixWords(p)|);
  }

  lemma {:induction false} IndexSteps(tokens: seq<string>, i: nat, env: bool, j: nat, sudo: bool, k: nat)
    requires Skip(IsEnvAssignment, tokens, 0) == i < |tokens| && (tokens[i] == "env" <==> env)
    requires j == (if env then Skip(IsEnvArgument, tokens, i + 1) else i) < |tokens| && (tokens[j] == "sudo" <==> sudo)
    requires k == (if sudo then Skip(IsEnvAssignment, tokens, Skip(IsFlag, tokens, j + 1)) else j) < |tokens|
    ensures CommandIndex(tokens) == Some(k)
  {
    hide IsEnvAssignment, IsFlag, Skip, IsEnvArgument;
  }

  // ----- the name of the command -----

  lemma {:induction false} StripsTo(x: string, n: nat)
    requires x != "" && x[|x| - 1] != '/'
    ensures StripSlashes(x + seq(n, _ => '/')) == x
    decreases n
  {
    var s := x + seq(n, _ => '/');
    if n == 0 {
      assert s == x;
    } else {
      assert s[|s| - 1] == '/' && s[..|s| - 1] == x + seq(n - 1, _ => '/');
      StripsTo(x, n - 1);
    }
  }

  lemma {:induction false} AfterLast(dir: string, base: string)
    requires '/' !in base && (dir == "" || dir[|dir| - 1] == '/')
    ensures AfterSlash(dir + base) == base
    decreases |dir|
  {
    var s := dir + base;
    var k := IndexOf(s, "/", 0);
    if dir == "" {
      assert s == base;
      AbsentNotFound(base, '/');
    } else {
      assert s[|dir| - 1..|dir|] == "/" && MatchesAt(s, "/", |dir| - 1);
      assert 0 <= k < |dir| && s[k + 1..] == dir[k + 1..] + base;
      AfterLast(dir[k + 1..], base);
    }
  }

  /** The command's name is the last part of its path, in lower case; slashes at the end do not count. */
  lemma {:induction false} NameOf(dir: string, base: string, slashes: nat)
    requires base != "" && '/' !in base && (dir == "" || dir[|dir| - 1] == '/')
    ensures CommandName(dir + base + seq(slashes, _ => '/')) == Lower(base)
  {
    hide AfterSlash, StripSlashes;
    var x := dir + base;
    assert x[|x| - 1] == base[|base| - 1] && base[|base| - 1] in base;
    StripsTo(x, slashes);
    AfterLast(dir, base);
  }

  // ----- what is blocked -----

  /** Names and first arguments that stop, restart or suspend the machine. */
  ghost predicate StopsMachine(name: string, next: string)
  {
    || name in ["shutdown", "reboot", "poweroff", "halt"]
    || (name in ["init", "telinit"] && next in ["0", "6"])
    || (name in ["systemctl", "loginctl"] && next in ["poweroff", "reboot", "halt", "suspend", "hibernate", "kexec"])
  }

  /** What a segment's own words are checked for: never to stop the machine, and by the path rule unless a shell. */
  lemma {:induction false} OwnCheck(policy: Policy, p: Prefix, word: string, rest: seq<string>)
    requires Leads(p, word)
    ensures var tokens, name := PrefixWords(p) + ([word] + rest), CommandName(word);
            OwnAllowed(policy, tokens) <==>
            && !StopsMachine(name, if rest == [] then "" else Lower(rest[0]))
            && (name in ["bash", "sh", "zsh"] || policy.rule(tokens, |PrefixWords(p)|))
  {
    hide CommandIndex, CommandName, Leads, StopsMachine, PowerControl, IsShell, PrefixWords, Lower;
    CommandWord(p, word, rest);
    var tokens, n := PrefixWords(p) + ([word] + rest), |PrefixWords(p)|;
    assert tokens[n] == word && (rest != [] ==> tokens[n + 1] == rest[0]);
    assert Lower("") == "";
    PowerIs(CommandName(word), if rest == [] then "" else Lower(rest[0]));
  }

  lemma {:induction false} PowerIs(name: string, next: string)
    ensures PowerControl(name, next) <==> StopsMachine(name, next)
    ensures IsShell(name) <==> name in ["bash", "sh", "zsh"]
  {
  }

  /** The segment texts of a command in the grammar. */
  lemma {:induction false} SegmentOf(segs: seq<seq<Part>>, seps: seq<string>, k: nat)
    requires Spelled(segs, seps) && k < |segs| && CleanEnd(Write(segs[k])) && Words(segs[k], "") != []
    ensures var cmd, seg := Weave(Texts(segs), seps), Trim(Write(segs[k]));
            seg in SplitSegments(cmd) && Tokenize(seg) == Words(segs[k], "")
  {
    hide Weave, Segments, Trim, Words, Write, CleanEnd, Spelled, LexFrom, FeedAll;
    var text := Write(segs[k]);
    CommandRead(segs, seps);
    TrimKeepsTokensIff(text);
    SpelledAt(segs, seps, k);
    PartsRead(START, segs[k]);
    assert [] + Words(segs[k], "") == Words(segs[k], "");
    NoTokens();
    assert Texts(segs)[k] in Texts(segs);
    TrimmedIn(Texts(segs), text);
  }

  lemma {:induction false} NoTokens()
    ensures Tokenize("") == []
  {
  }

  lemma {:induction false} SpelledAt(segs: seq<seq<Part>>, seps: seq<string>, k: nat)
    requires Spelled(segs, seps) && k < |segs|
    ensures AllProper(segs[k])
  {
  }

  lemma {:induction false} TrimmedIn(texts: seq<string>, t: string)
    requires t in texts && Trim(t) != ""
    ensures Trim(t) in TrimmedNonEmpty(texts)
    decreases |texts|
  {
    hide Trim;
    if t != texts[0] { TrimmedIn(texts[1..], t); }
  }

  /**
    However it is quoted, whatever its path and whatever stands around it: a command one of whose segments stops the
    machine is blocked.
  */
  lemma {:induction false} PowerIsBlocked(policy: Policy, segs: seq<seq<Part>>, seps: seq<string>, k: nat, p: Prefix,
      dir: string, base: string, slashes: nat, rest: seq<string>)
    requires policy.enabled && Spelled(segs, seps) && k < |segs| && CleanEnd(Write(segs[k]))
    requires base != "" && '/' !in base && (dir == "" || dir[|dir| - 1] == '/')
    requires var word := dir + base + seq(slashes, _ => '/');
             Leads(p, word) && Words(segs[k], "") == PrefixWords(p) + ([word] + rest)
    requires StopsMachine(Lower(base), if rest == [] then "" else Lower(rest[0]))
    ensures !Allowed(policy, Weave(Texts(segs), seps))
  {
    var word, cmd := dir + base + seq(slashes, _ => '/'), Weave(Texts(segs), seps);
    hide Weave, Trim, Words, Write, CleanEnd, Spelled, Leads, StopsMachine, OwnAllowed, CommandName, SplitSegments;
    SegmentOf(segs, seps, k);
    NameOf(dir, base, slashes);
    OwnCheck(policy, p, word, rest);
    var tokens, seg := Words(segs[k], ""), Trim(Write(segs[k]));
    assert SegmentRuns(Tokenize(seg), 0, tokens);
    assert Runs(cmd, 0, tokens);
    AllowedIffEveryRun(policy, cmd);
  }

  /** A shell that is handed a script that is not allowed is not allowed either. */
  lemma {:induction false} ScriptIsChecked(policy: Policy, seg: string, ci: nat, i: nat)
    requires policy.enabled && CommandIndex(Tokenize(seg)) == Some(ci)
    requires var tokens := Tokenize(seg);
             && ci < i < |tokens| - 1 && CommandName(tokens[ci]) in ["bash", "sh", "zsh"] && tokens[i] in ["-c", "-lc"]
             && !AllBlank(tokens[i + 1]) && !Allowed(policy, tokens[i + 1])
    ensures !SegmentAllowed(policy, seg)
  {
    hide Tokenize, CommandIndex, CommandName, Trim, Allowed, AllBlank;
    NotBlankTrims(Tokenize(seg)[i + 1]);
    assert ScriptAt(Tokenize(seg), ci, i);
  }

  lemma {:induction false} NotBlankTrims(s: string)
    requires !AllBlank(s)
    ensures Trim(s) != ""
  {
    hide Blank;
    var k :| 0 <= k < |s| && !Blank(s[k]);
    StartKeeps(s, k);
    TrimEndSound(TrimStart(s));
    var t := TrimStart(s);
    assert t[0..] == t;
  }

  lemma {:induction false} StartKeeps(s: string, k: nat)
    requires k < |s| && !Blank(s[k])
    ensures TrimStart(s) != "" && exists j :: 0 <= j < |TrimStart(s)| && !Blank(TrimStart(s)[j])
    decreases |s|
  {
    hide Blank;
    if Blank(s[0]) { StartKeeps(s[1..], k - 1); }
  }
}
