/** The exec guard. */
module ShellGuard {
  import opened Text
  import opened ShellLexer

  /*
    A command is allowed when every segment is, and a segment that hands a script to a shell with `-c` is
    allowed only when that script is.
  */

  /** `rule` stands for the path checks on one segment's tokens, given the index of its command word. */
  datatype Policy = Policy(enabled: bool, rule: (seq<string>, nat) -> bool)

  // ----- the command word -----

  predicate NameStart(c: char)
  {
    'A' <= c <= 'Z' || 'a' <= c <= 'z' || c == '_'
  }

  predicate NameChar(c: char)
  {
    NameStart(c) || '0' <= c <= '9'
  }

  /** `NAME=value` */
  predicate IsEnvAssignment(token: string)
  {
    var k := IndexOf(token, "=", 0);
    k > 0 && NameStart(token[0]) && forall j :: 0 <= j < k ==> NameChar(token[j])
  }

  predicate IsFlag(token: string)
  {
    "-" <= token
  }

  predicate IsEnvArgument(token: string)
  {
    IsFlag(token) || IsEnvAssignment(token)
  }

  /** First index at or after `from` whose token is not of the given kind. */
  function Skip(kind: string -> bool, tokens: seq<string>, from: nat): (i: nat)
    requires from <= |tokens|
    ensures from <= i <= |tokens| && (i < |tokens| ==> !kind(tokens[i]))
    ensures forall j :: from <= j < i ==> kind(tokens[j])
    decreases |tokens| - from
  {
    if from < |tokens| && kind(tokens[from]) then Skip(kind, tokens, from + 1) else from
  }

  function CommandIndex(tokens: seq<string>): (r: Option<nat>)
    ensures r.Some? ==> r.value < |tokens|
  {
    var i := Skip(IsEnvAssignment, tokens, 0);
    if i == |tokens| then None else
    var j := if tokens[i] == "env" then Skip(IsEnvArgument, tokens, i + 1) else i;
    if j == |tokens| then None else
    var k := if tokens[j] == "sudo" then Skip(IsEnvAssignment, tokens, Skip(IsFlag, tokens, j + 1)) else j;
    if k == |tokens| then None else Some(k)
  }

  /** What may stand before the command word. */
  predicate IsPrefixToken(token: string)
  {
    IsEnvArgument(token) || token == "env" || token == "sudo"
  }

  /** Only assignments, flags, `env` and `sudo` stand in front of the command word, which is no assignment. */
  lemma {:induction false} CommandIndexSkipsPrefix(tokens: seq<string>, j: nat)
    requires j < match CommandIndex(tokens) case None => |tokens| case Some(k) => k
    ensures IsPrefixToken(tokens[j])
    ensures CommandIndex(tokens).Some? ==> !IsEnvAssignment(tokens[CommandIndex(tokens).value])
  {
    hide IsEnvAssignment, IsFlag;
  }

  method SkipTokens(kind: string -> bool, tokens: seq<string>, from: nat) returns (idx: nat)
    requires from <= |tokens|
    ensures idx == Skip(kind, tokens, from)
  {
    idx := from;
    while idx < |tokens| && kind(tokens[idx])
      invariant from <= idx <= |tokens|
      invariant Skip(kind, tokens, from) == Skip(kind, tokens, idx)
    {
      idx := idx + 1;
    }
  }

  method FindCommandTokenIndex(tokens: seq<string>) returns (idx: int)
    ensures idx == (match CommandIndex(tokens) case None => -1 case Some(k) => k)
  {
    hide IsEnvAssignment, IsFlag, IsEnvArgument;
    idx := SkipTokens(IsEnvAssignment, tokens, 0);
    if idx >= |tokens| { return -1; }
    if tokens[idx] == "env" { idx := SkipTokens(IsEnvArgument, tokens, idx + 1); }
    if idx >= |tokens| { return -1; }
    if tokens[idx] == "sudo" {
      idx := SkipTokens(IsFlag, tokens, idx + 1);
      idx := SkipTokens(IsEnvAssignment, tokens, idx);
    }
    if idx >= |tokens| { idx := -1; }
  }

  function StripSlashes(s: string): string
  {
    if s != "" && s[|s| - 1] == '/' then StripSlashes(s[..|s| - 1]) else s
  }

  function AfterSlash(s: string): string
    decreases |s|
  {
    var k := IndexOf(s, "/", 0);
    if k < 0 then s else AfterSlash(s[k + 1..])
  }

  /** `path.basename`, lower-cased. */
  function CommandName(token: string): string
  {
    Lower(AfterSlash(StripSlashes(token)))
  }

  predicate IsShell(name: string)
  {
    name == "bash" || name == "sh" || name == "zsh"
  }

  predicate PowerControl(name: string, next: string)
  {
    name in {"shutdown", "reboot", "poweroff", "halt"} ||
    (name in {"init", "telinit"} && next in {"0", "6"}) ||
    (name in {"systemctl", "loginctl"} && next in {"poweroff", "reboot", "halt", "suspend", "hibernate", "kexec"})
  }

  function TokenOr(tokens: seq<string>, i: nat): string
  {
    if i < |tokens| then tokens[i] else ""
  }

  predicate IsScriptFlag(token: string)
  {
    token == "-c" || token == "-lc"
  }

  /** Token `i` hands a script to the shell at token `ci`. */
  predicate ScriptAt(tokens: seq<string>, ci: nat, i: nat)
  {
    ci < i < |tokens| - 1 && IsScriptFlag(tokens[i]) && Trim(tokens[i + 1]) != ""
  }

  /** The checks on one segment that do not recurse. */
  predicate TokensAllowed(policy: Policy, tokens: seq<string>, ci: nat)
    requires ci < |tokens|
  {
    var name := CommandName(tokens[ci]);
    !PowerControl(name, Lower(TokenOr(tokens, ci + 1))) && (IsShell(name) || policy.rule(tokens, ci))
  }

  // ----- the recursion terminates -----

  lemma {:induction false} CharsAt(toks: seq<string>, i: nat)
    requires i < |toks|
    ensures |toks[i]| <= Chars(toks)
    decreases i
  {
    if i > 0 { CharsAt(toks[1..], i - 1); }
  }

  lemma {:induction false} CharsTwo(toks: seq<string>, i: nat, j: nat)
    requires i < j < |toks|
    ensures |toks[i]| + |toks[j]| <= Chars(toks)
    decreases i
  {
    if i == 0 { CharsAt(toks[1..], j - 1); } else { CharsTwo(toks[1..], i - 1, j - 1); }
  }

  /** A script is strictly shorter than the segment that hands it to a shell. */
  lemma {:induction false} ScriptShorter(seg: string, ci: nat, i: nat)
    requires ScriptAt(Tokenize(seg), ci, i)
    ensures |Tokenize(seg)[i + 1]| < |seg|
  {
    hide Tokenize, Trim, Chars;
    CharsTwo(Tokenize(seg), i, i + 1);
    TokenCharsBounded(seg);
  }

  lemma {:induction false} TrimShorter(s: string)
    ensures |Trim(s)| <= |s|
  {
    hide Blank;
    TrimStartShorter(s);
    TrimEndSound(TrimStart(s));
  }

  lemma {:induction false} TrimStartShorter(s: string)
    ensures |TrimStart(s)| <= |s|
    decreases |s|
  {
    hide Blank;
    if s != "" && Blank(s[0]) { TrimStartShorter(s[1..]); }
  }

  lemma {:induction false} SegmentShorter(cmd: string, st: State, cur: string, seg: string)
    requires seg in Segments(cmd, st, cur)
    ensures |seg| <= |cur| + |cmd|
    decreases |cmd|
  {
    hide Next, BreakLen;
    if cmd != "" {
      if st == PLAIN && IsBreak(cmd[0]) {
        if seg != cur { SegmentShorter(cmd[BreakLen(cmd)..], PLAIN, "", seg); }
      } else {
        SegmentShorter(cmd[1..], Next(st, cmd[0]), cur + [cmd[0]], seg);
      }
    }
  }

  lemma {:induction false} TrimmedFrom(segs: seq<string>, t: string)
    requires t in TrimmedNonEmpty(segs)
    ensures t != "" && exists seg :: seg in segs && t == Trim(seg)
    decreases |segs|
  {
    hide Trim;
    var h := Trim(segs[0]);
    if h == "" || t != h {
      TrimmedFrom(segs[1..], t);
      var seg :| seg in segs[1..] && t == Trim(seg);
      assert seg in segs;
    } else {
      assert segs[0] in segs;
    }
  }

  lemma {:induction false} SplitShorter(cmd: string, seg: string)
    requires seg in SplitSegments(cmd)
    ensures seg != "" && |seg| <= |cmd|
  {
    hide Trim, Segments, TrimmedNonEmpty;
    TrimmedFrom(Segments(cmd, PLAIN, ""), seg);
    var raw :| raw in Segments(cmd, PLAIN, "") && seg == Trim(raw);
    SegmentShorter(cmd, PLAIN, "", raw);
    TrimShorter(raw);
  }

  // ----- the guard -----

  predicate SegmentAllowed(policy: Policy, seg: string)
    decreases |seg|, 0
  {
    var tokens := Tokenize(seg);
    match CommandIndex(tokens)
    case None => true
    case Some(ci) =>
      TokensAllowed(policy, tokens, ci) &&
      (IsShell(CommandName(tokens[ci])) ==>
         forall i | 0 <= i < |tokens| && ScriptAt(tokens, ci, i) ::
           ScriptShorter(seg, ci, i);
           Allowed(policy, tokens[i + 1]))
  }

  predicate Allowed(policy: Policy, cmd: string)
    decreases |cmd|, 1
  {
    policy.enabled ==>
      forall seg | seg in SplitSegments(cmd) :: SplitShorter(cmd, seg); SegmentAllowed(policy, seg)
  }

  method AssertSegmentAllowed(segment: string, policy: Policy) returns (ok: bool)
    ensures ok == SegmentAllowed(policy, segment)
    decreases |segment|, 0
  {
    hide Tokenize, CommandIndex, CommandName, Trim, Allowed, PowerControl, SplitSegments;
    var tokens := TokenizeShell(segment);
    var commandIndex := FindCommandTokenIndex(tokens);
    if commandIndex < 0 { return true; }
    var name := CommandName(tokens[commandIndex]);
    var next := Lower(TokenOr(tokens, commandIndex + 1));
    if PowerControl(name, next) { return false; }
    if IsShell(name) {
      var i := commandIndex + 1;
      while i < |tokens|
        invariant commandIndex < i <= |tokens|
        invariant forall k :: commandIndex < k < i && ScriptAt(tokens, commandIndex, k) ==>
            Allowed(policy, tokens[k + 1])
      {
        if IsScriptFlag(tokens[i]) && i + 1 < |tokens| && Trim(tokens[i + 1]) != "" {
          assert ScriptAt(tokens, commandIndex, i);
          ScriptShorter(segment, commandIndex, i);
          var inner := AssertExecCommandAllowed(tokens[i + 1], policy);
          if !inner { return false; }
        }
        i := i + 1;
      }
      return true;
    }
    return policy.rule(tokens, commandIndex);
  }

  method AssertExecCommandAllowed(command: string, policy: Policy) returns (ok: bool)
    ensures ok == Allowed(policy, command)
    decreases |command|, 1
  {
    hide SplitSegments, SegmentAllowed;
    if !policy.enabled { return true; }
    var segments := SplitShellSegments(command);
    for k := 0 to |segments|
      invariant forall j :: 0 <= j < k ==> SegmentAllowed(policy, segments[j])
    {
      SplitShorter(command, segments[k]);
      var fine := AssertSegmentAllowed(segments[k], policy);
      if !fine { return false; }
    }
    return true;
  }

  // ----- a trailing blank is nothing to the guard -----

  lemma {:induction false} SegmentsTrailingBlank(cmd: string, b: char, st: State, cur: string)
    requires Blank(b)
    ensures var r := Segments(cmd, st, cur);
            Segments(cmd + [b], st, cur) == r[..|r| - 1] + [r[|r| - 1] + [b]]
    decreases |cmd|
  {
    hide Next;
    var more := cmd + [b];
    if cmd == "" {
      assert more == [b] && more[1..] == "";
      assert [cur][..0] == [] && [] + [cur + [b]] == [cur + [b]];
    } else if st == PLAIN && IsBreak(cmd[0]) {
      var n := BreakLen(cmd);
      assert more[0] == cmd[0] && BreakLen(more) == n && more[n..] == cmd[n..] + [b];
      SegmentsTrailingBlank(cmd[n..], b, PLAIN, "");
      LastOfCons(cur, Segments(cmd[n..], PLAIN, ""), b);
    } else {
      assert more[0] == cmd[0] && more[1..] == cmd[1..] + [b];
      SegmentsTrailingBlank(cmd[1..], b, Next(st, cmd[0]), cur + [cmd[0]]);
    }
  }

  lemma {:induction false} LastOfCons(x: string, r: seq<string>, b: char)
    requires r != []
    ensures var s := [x] + r; [x] + (r[..|r| - 1] + [r[|r| - 1] + [b]]) == s[..|s| - 1] + [s[|s| - 1] + [b]]
  {
  }

  lemma {:induction false} TrimTrailingBlank(x: string, b: char)
    requires Blank(b)
    ensures Trim(x + [b]) == Trim(x)
    decreases |x|
  {
    hide Blank;
    var more := x + [b];
    if x == "" {
      assert more == [b] && more[1..] == "";
    } else if Blank(x[0]) {
      assert more[0] == x[0] && more[1..] == x[1..] + [b];
      TrimTrailingBlank(x[1..], b);
    } else {
      assert more[0] == x[0] && more[|more| - 1] == b && more[..|more| - 1] == x;
    }
  }

  lemma {:induction false} TrimmedLast(init: seq<string>, l: string, l': string)
    requires Trim(l) == Trim(l')
    ensures TrimmedNonEmpty(init + [l]) == TrimmedNonEmpty(init + [l'])
    decreases |init|
  {
    hide Trim;
    if init == [] {
      assert [] + [l] == [l] && [] + [l'] == [l'] && [l][1..] == [] && [l'][1..] == [];
    } else {
      assert (init + [l])[1..] == init[1..] + [l] && (init + [l'])[1..] == init[1..] + [l'];
      TrimmedLast(init[1..], l, l');
    }
  }

  /** A command without the blank it may end with. */
  function Visible(s: string): string
  {
    if s != "" && Blank(s[|s| - 1]) then s[..|s| - 1] else s
  }

  lemma {:induction false} SplitVisible(s: string)
    ensures SplitSegments(s) == SplitSegments(Visible(s))
  {
    hide Trim, Segments, TrimmedNonEmpty, Blank;
    var v := Visible(s);
    if v != s {
      var b := s[|s| - 1];
      assert s == v + [b];
      var r := Segments(v, PLAIN, "");
      SegmentsTrailingBlank(v, b, PLAIN, "");
      TrimTrailingBlank(r[|r| - 1], b);
      TrimmedLast(r[..|r| - 1], r[|r| - 1] + [b], r[|r| - 1]);
      assert r == r[..|r| - 1] + [r[|r| - 1]];
    }
  }

  lemma {:induction false} SameSegmentsSameVerdict(policy: Policy, s: string, t: string)
    requires SplitSegments(s) == SplitSegments(t)
    ensures Allowed(policy, s) == Allowed(policy, t)
  {
    hide SplitSegments, SegmentAllowed;
  }

  lemma {:induction false} BlankRunsNothing(s: string)
    requires Trim(s) == ""
    ensures SplitSegments(s) == []
  {
    hide Trim;
    BlankUnbroken(s);
    CutIsSegments(PLAIN, [s], []);
    assert Segments(s, PLAIN, "") == [s];
    assert [s][1..] == [] && TrimmedNonEmpty([s]) == [] + TrimmedNonEmpty([]) == [];
  }

  lemma {:induction false} BlankUnbroken(s: string)
    requires Trim(s) == ""
    ensures Unbroken(PLAIN, s)
    decreases |s|
  {
    if s != "" {
      if Blank(s[0]) { BlankUnbroken(s[1..]); } else { TrimEndSound(s); }
    }
  }

  // ----- nesting does not evade -----

  /** Every character of a text behind a backslash. */
  function Escape(s: string): (r: string)
    ensures |r| == 2 * |s|
  {
    if s == "" then "" else ['\\', s[0]] + Escape(s[1..])
  }

  const SHELL_PREFIX := "bash -c "

  /** A command handed to `bash -c` as one escaped word, `n` times over. */
  function Wrap(s: string, n: nat): string
  {
    if n == 0 then s else SHELL_PREFIX + Escape(Wrap(s, n - 1))
  }

  lemma {:induction false} FeedEscaped(t: Lexer, s: string)
    requires t.st == PLAIN
    ensures FeedAll(t, Escape(s)) == t.(cur := t.cur + s)
    decreases |s|
  {
    if s == "" {
      assert t.cur + s == t.cur;
    } else {
      var e := Escape(s);
      assert e[0] == '\\' && e[1] == s[0] && e[1..][1..] == Escape(s[1..]) && e[1..][0] == s[0];
      var t' := t.(cur := t.cur + [s[0]]);
      assert FeedAll(t, e) == FeedAll(t', Escape(s[1..]));
      FeedEscaped(t', s[1..]);
      assert t.cur + [s[0]] + s[1..] == t.cur + s;
    }
  }

  lemma {:induction false} FeedPrefix()
    ensures FeedAll(START, SHELL_PREFIX) == Lexer(PLAIN, "", ["bash", "-c"])
  {
    hide Feed, FeedAll;
    var t1, t2, t3 := Lexer(PLAIN, "bash", []), Lexer(PLAIN, "", ["bash"]), Lexer(PLAIN, "-c", ["bash"]);
    FeedAllConcat(START, "bash", " -c ");
    FeedWord(START, "bash");
    FeedAllConcat(t1, " ", "-c ");
    FeedBlank(t1);
    FeedAllConcat(t2, "-c", " ");
    FeedWord(t2, "-c");
    FeedBlank(t3);
    assert SHELL_PREFIX == "bash" + " -c " && " -c " == " " + "-c " && "-c " == "-c" + " ";
    assert "" + "bash" == "bash" && "" + "-c" == "-c";
    assert [] + ["bash"] == ["bash"] && ["bash"] + ["-c"] == ["bash", "-c"];
  }

  /** What the wrapped command is once trimmed: a blank at the end of the script goes, its backslash stays. */
  lemma {:induction false} WrappedTrim(s: string)
    ensures var w := SHELL_PREFIX + Escape(s);
            Trim(w) == if s == "" then "bash -c"
                       else if Blank(s[|s| - 1]) then SHELL_PREFIX + (Escape(Visible(s)) + "\\")
                       else w
  {
    hide Escape, TrimEnd, Blank;
    var w := SHELL_PREFIX + Escape(s);
    assert w[0] == 'b' && !Blank('b') by { NotBlank(); }
    assert TrimStart(w) == w;
    NotBlank();
    if s == "" {
      EscapeEnd(s);
      assert w == SHELL_PREFIX && w[..7] == "bash -c";
      TrimEndOnce(w);
    } else {
      EscapeEnd(s);
      assert w[|w| - 1] == s[|s| - 1];
      if Blank(s[|s| - 1]) {
        assert w[..|w| - 1] == SHELL_PREFIX + (Escape(Visible(s)) + "\\");
      }
      TrimEndOnce(w);
    }
  }

  lemma {:induction false} NotBlank()
    ensures !Blank('b') && !Blank('c') && !Blank('\\') && Blank(' ')
  {
  }

  lemma {:induction false} TrimEndOnce(w: string)
    requires |w| >= 2
    ensures !Blank(w[|w| - 1]) ==> TrimEnd(w) == w
    ensures Blank(w[|w| - 1]) && !Blank(w[|w| - 2]) ==> TrimEnd(w) == w[..|w| - 1]
  {
    hide Blank;
    var v := w[..|w| - 1];
    assert v[|v| - 1] == w[|w| - 2];
  }

  lemma {:induction false} EscapeEnd(s: string)
    ensures s == "" ==> Escape(s) == ""
    ensures s != "" ==> Escape(s) == Escape(s[..|s| - 1]) + ['\\', s[|s| - 1]]
    decreases |s|
  {
    if |s| == 1 {
      assert s[..0] == "" && s[1..] == "" && Escape("") == "";
    } else if |s| > 1 {
      EscapeEnd(s[1..]);
      var i := s[..|s| - 1];
      assert s[1..][..|s| - 2] == i[1..] && s[1..][|s| - 2] == s[|s| - 1] && i[0] == s[0];
      assert ['\\', s[0]] + (Escape(i[1..]) + ['\\', s[|s| - 1]]) ==
          (['\\', s[0]] + Escape(i[1..])) + ['\\', s[|s| - 1]];
    }
  }

  /** The guard's tokens for a wrapped command. */
  function WrappedTokens(v: string): seq<string>
  {
    if v == "" then ["bash", "-c"] else ["bash", "-c", v]
  }

  lemma {:induction false} TokenizeWrapped(s: string)
    ensures Tokenize(Trim(SHELL_PREFIX + Escape(s))) == WrappedTokens(Visible(s))
  {
    hide Feed, Escape, FeedAll, Trim, Blank;
    WrappedTrim(s);
    var v := Visible(s);
    var t := Lexer(PLAIN, "", ["bash", "-c"]);
    if s == "" {
      TokenizeBare();
    } else {
      FeedPrefix();
      FeedEscaped(t, v);
      assert "" + v == v;
      FeedAllConcat(START, SHELL_PREFIX, Escape(v));
      if Blank(s[|s| - 1]) {
        FeedAllConcat(START, SHELL_PREFIX, Escape(v) + "\\");
        FeedAllConcat(t, Escape(v), "\\");
        FeedBackslash(t.(cur := v));
      }
    }
  }

  lemma {:induction false} FeedBackslash(t: Lexer)
    requires t.st == PLAIN
    ensures FeedAll(t, "\\") == t.(st := State(Unquoted, true))
  {
    assert "\\"[1..] == "";
    assert FeedAll(t, "\\") == FeedAll(Feed(t, '\\'), "");
  }

  lemma {:induction false} TokenizeBare()
    ensures Tokenize("bash -c") == ["bash", "-c"]
  {
    hide Feed, FeedAll;
    var t1, t2 := Lexer(PLAIN, "bash", []), Lexer(PLAIN, "", ["bash"]);
    FeedAllConcat(START, "bash", " -c");
    FeedWord(START, "bash");
    FeedAllConcat(t1, " ", "-c");
    FeedBlank(t1);
    FeedWord(t2, "-c");
    assert "bash -c" == "bash" + " -c" && " -c" == " " + "-c" && "" + "bash" == "bash" && "" + "-c" == "-c";
    assert [] + ["bash"] == ["bash"];
  }

  lemma {:induction false} UnbrokenEscaped(s: string)
    ensures Unbroken(PLAIN, Escape(s))
    decreases |s|
  {
    if s != "" {
      var e := Escape(s);
      assert e[0] == '\\' && e[1..][0] == s[0] && e[1..][1..] == Escape(s[1..]);
      UnbrokenEscaped(s[1..]);
    }
  }

  lemma {:induction false} UnbrokenPrefix(p: string, s: string)
    requires forall k :: 0 <= k < |p| ==> PlainChar(p[k]) || p[k] == ' '
    requires Unbroken(PLAIN, s)
    ensures Unbroken(PLAIN, p + s)
    decreases |p|
  {
    hide Blank;
    if p == "" {
      assert p + s == s;
    } else {
      assert (p + s)[0] == p[0] && (p + s)[1..] == p[1..] + s;
      UnbrokenPrefix(p[1..], s);
    }
  }

  lemma {:induction false} SplitWrapped(s: string)
    ensures var w := SHELL_PREFIX + Escape(s); SplitSegments(w) == [Trim(w)]
  {
    hide Escape, Trim;
    var w := SHELL_PREFIX + Escape(s);
    UnbrokenEscaped(s);
    UnbrokenPrefix(SHELL_PREFIX, Escape(s));
    assert Cut(PLAIN, [w], []);
    CutIsSegments(PLAIN, [w], []);
    WrappedTrim(s);
    assert Trim(w) != "";
    assert [w][1..] == [] && TrimmedNonEmpty([]) == [];
    assert TrimmedNonEmpty([w]) == [Trim(w)] + [];
  }

  lemma {:induction false} AbsentNotFound(s: string, c: char)
    requires c !in s
    ensures IndexOf(s, [c], 0) == -1
  {
    if k :| 0 <= k < |s| && MatchesAt(s, [c], k) {
      assert s[k..k + 1][0] == s[k];
    }
  }

  lemma {:induction false} BashIsShell()
    ensures CommandName("bash") == "bash"
    ensures CommandIndex(["bash", "-c"]) == Some(0) && forall s :: CommandIndex(["bash", "-c", s]) == Some(0)
  {
    AbsentNotFound("bash", '/');
    assert LowerChar('b') == 'b' && LowerChar('a') == 'a' && LowerChar('s') == 's' && LowerChar('h') == 'h';
    assert forall k :: 0 <= k < 4 ==> Lower("bash")[k] == LowerChar("bash"[k]);
    assert Lower("bash") == "bash";
    AbsentNotFound("bash", '=');
  }

  lemma {:induction false} WrappedChecks(policy: Policy, v: string)
    ensures var tokens := WrappedTokens(v);
            CommandIndex(tokens) == Some(0) && IsShell(CommandName("bash")) && TokensAllowed(policy, tokens, 0)
    ensures forall i: nat :: ScriptAt(WrappedTokens(v), 0, i) <==> i == 1 && Trim(v) != ""
  {
    hide CommandName, CommandIndex, Trim;
    BashIsShell();
    TrimNothing();
  }

  lemma {:induction false} TrimNothing()
    ensures Trim("") == ""
  {
  }

  lemma {:induction false} WrappedSegment(policy: Policy, seg: string, v: string)
    requires policy.enabled && Tokenize(seg) == WrappedTokens(v)
    ensures SegmentAllowed(policy, seg) == Allowed(policy, v)
  {
    hide Tokenize, CommandName, CommandIndex, Trim, Allowed, TokensAllowed, ScriptAt, IsShell, SplitSegments;
    WrappedChecks(policy, v);
    if Trim(v) == "" {
      BlankRunsNothing(v);
      NoSegments(policy, v);
    } else {
      assert v != "" by { TrimNothing(); }
      assert WrappedTokens(v)[1 + 1] == v && ScriptAt(WrappedTokens(v), 0, 1);
    }
  }

  lemma {:induction false} NoSegments(policy: Policy, s: string)
    requires SplitSegments(s) == []
    ensures Allowed(policy, s)
  {
    hide SplitSegments;
  }

  lemma {:induction false} OneSegment(policy: Policy, w: string, seg: string)
    requires SplitSegments(w) == [seg]
    ensures Allowed(policy, w) == (policy.enabled ==> SegmentAllowed(policy, seg))
  {
    hide SplitSegments, SegmentAllowed;
    assert seg in [seg];
  }

  /** One level of `bash -c` changes nothing, for every command. */
  lemma {:induction false} WrapOnce(policy: Policy, s: string)
    ensures Allowed(policy, SHELL_PREFIX + Escape(s)) == Allowed(policy, s)
  {
    hide Tokenize, SplitSegments, Escape, SegmentAllowed, Trim, Visible, Allowed;
    var w, v := SHELL_PREFIX + Escape(s), Visible(s);
    SplitWrapped(s);
    TokenizeWrapped(s);
    OneSegment(policy, w, Trim(w));
    SplitVisible(s);
    SameSegmentsSameVerdict(policy, s, v);
    if policy.enabled { WrappedSegment(policy, Trim(w), v); } else { Disabled(policy, s); }
  }

  lemma {:induction false} Disabled(policy: Policy, s: string)
    requires !policy.enabled
    ensures Allowed(policy, s)
  {
  }

  /** Nesting a command in `bash -c` any number of times neither hides it from the guard nor gets it blocked. */
  lemma {:induction false} NestingIsTransparent(policy: Policy, s: string, n: nat)
    ensures Allowed(policy, Wrap(s, n)) == Allowed(policy, s)
    decreases n
  {
    hide Allowed, Escape;
    if n > 0 {
      NestingIsTransparent(policy, s, n - 1);
      WrapOnce(policy, Wrap(s, n - 1));
    }
  }

  // ----- everything a command runs is checked -----

  /** The command runs the segment `tokens`, through `depth` levels of `-c` scripts. */
  ghost predicate Runs(cmd: string, depth: nat, tokens: seq<string>)
  {
    exists seg :: seg in SplitSegments(cmd) && SegmentRuns(Tokenize(seg), depth, tokens)
  }

  ghost predicate SegmentRuns(own: seq<string>, depth: nat, tokens: seq<string>)
    decreases depth, 0
  {
    if depth == 0 then own == tokens
    else match CommandIndex(own)
         case None => false
         case Some(ci) =>
           IsShell(CommandName(own[ci])) &&
           exists i, seg :: 0 <= i < |own| && ScriptAt(own, ci, i) && seg in SplitSegments(own[i + 1]) &&
                            SegmentRuns(Tokenize(seg), depth - 1, tokens)
  }

  predicate OwnAllowed(policy: Policy, tokens: seq<string>)
  {
    match CommandIndex(tokens) case None => true case Some(ci) => TokensAllowed(policy, tokens, ci)
  }

  lemma {:induction false} SegmentAllowedCovers(policy: Policy, seg: string, depth: nat, tokens: seq<string>)
    requires policy.enabled && SegmentAllowed(policy, seg) && SegmentRuns(Tokenize(seg), depth, tokens)
    ensures OwnAllowed(policy, tokens)
    decreases depth
  {
    hide Tokenize, CommandIndex, CommandName, Trim, IsScriptFlag, SplitSegments, TokensAllowed, IsShell;
    if depth > 0 {
      var own := Tokenize(seg);
      var ci := CommandIndex(own).value;
      var i, inner :| 0 <= i < |own| && ScriptAt(own, ci, i) && inner in SplitSegments(own[i + 1]) &&
                      SegmentRuns(Tokenize(inner), depth - 1, tokens);
      assert Allowed(policy, own[i + 1]);
      SegmentAllowedCovers(policy, inner, depth - 1, tokens);
    }
  }

  lemma {:induction false} BlockedSegment(policy: Policy, cmd: string) returns (seg: string)
    requires !Allowed(policy, cmd)
    ensures seg in SplitSegments(cmd) && !SegmentAllowed(policy, seg)
  {
    hide SegmentAllowed, SplitSegments;
    seg :| seg in SplitSegments(cmd) && !SegmentAllowed(policy, seg);
  }

  lemma {:induction false} SegmentBlockedReason(policy: Policy, seg: string) returns (depth: nat, tokens: seq<string>)
    requires policy.enabled && !SegmentAllowed(policy, seg)
    ensures SegmentRuns(Tokenize(seg), depth, tokens) && !OwnAllowed(policy, tokens)
    decreases |seg|
  {
    hide Tokenize, CommandIndex, CommandName, Trim, IsScriptFlag, SplitSegments, TokensAllowed, IsShell;
    var own := Tokenize(seg);
    var ci := CommandIndex(own).value;
    if !TokensAllowed(policy, own, ci) {
      depth, tokens := 0, own;
    } else {
      var i :| 0 <= i < |own| && ScriptAt(own, ci, i) && !Allowed(policy, own[i + 1]);
      ScriptShorter(seg, ci, i);
      var inner := BlockedSegment(policy, own[i + 1]);
      SplitShorter(own[i + 1], inner);
      var d, t := SegmentBlockedReason(policy, inner);
      depth, tokens := d + 1, t;
    }
  }

  /** A command is allowed exactly when every segment it runs, at any depth of `-c` scripts, is. */
  lemma {:induction false} AllowedIffEveryRun(policy: Policy, cmd: string)
    requires policy.enabled
    ensures Allowed(policy, cmd) <==> forall depth, tokens :: Runs(cmd, depth, tokens) ==> OwnAllowed(policy, tokens)
  {
    hide Tokenize, SplitSegments, SegmentAllowed, OwnAllowed, SegmentRuns;
    if Allowed(policy, cmd) {
      forall depth, tokens | Runs(cmd, depth, tokens) ensures OwnAllowed(policy, tokens) {
        var seg :| seg in SplitSegments(cmd) && SegmentRuns(Tokenize(seg), depth, tokens);
        SegmentAllowedCovers(policy, seg, depth, tokens);
      }
    } else {
      var seg :| seg in SplitSegments(cmd) && !SegmentAllowed(policy, seg);
      var depth, tokens := SegmentBlockedReason(policy, seg);
      assert Runs(cmd, depth, tokens);
    }
  }
}
