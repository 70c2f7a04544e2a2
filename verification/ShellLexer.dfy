/** The shell segmenter and tokenizer. */
module ShellLexer {
  import opened Text

  /*
    Two lexers behind the exec guard walk the same text: one cuts a command at unquoted `;`, `|`, `&`, the other
    cuts a segment into tokens.
  */

  datatype Quote = Unquoted | Single | Double

  /** Quoting state between two characters. */
  datatype State = State(quote: Quote, escaped: bool)

  const PLAIN := State(Unquoted, false)

  predicate Closes(q: Quote, ch: char)
  {
    (q == Single && ch == '\'') || (q == Double && ch == '"')
  }

  /** How one character moves the quoting state. */
  function Next(st: State, ch: char): State
  {
    if st.escaped then State(st.quote, false)
    else if ch == '\\' && st.quote != Single then State(st.quote, true)
    else if st.quote != Unquoted then State(if Closes(st.quote, ch) then Unquoted else st.quote, false)
    else if ch == '\'' then State(Single, false)
    else if ch == '"' then State(Double, false)
    else st
  }

  function StateAfter(st: State, s: string): State
    decreases |s|
  {
    if s == "" then st else StateAfter(Next(st, s[0]), s[1..])
  }

  predicate IsBreak(ch: char)
  {
    ch == ';' || ch == '|' || ch == '&'
  }

  /** Length of the break at the head of a text: `||` and `&&` are one break. */
  function BreakLen(cmd: string): (n: nat)
    requires cmd != ""
    ensures 1 <= n <= |cmd|
  {
    if (cmd[0] == '|' || cmd[0] == '&') && |cmd| > 1 && cmd[1] == cmd[0] then 2 else 1
  }

  // ----- segments -----

  /** The segments, untrimmed; `cur` is the segment read so far. */
  function Segments(cmd: string, st: State, cur: string): (r: seq<string>)
    ensures |r| > 0
    decreases |cmd|
  {
    if cmd == "" then [cur]
    else if st == PLAIN && IsBreak(cmd[0]) then [cur] + Segments(cmd[BreakLen(cmd)..], PLAIN, "")
    else Segments(cmd[1..], Next(st, cmd[0]), cur + [cmd[0]])
  }

  function TrimmedNonEmpty(segs: seq<string>): seq<string>
  {
    if segs == [] then []
    else
      var t := Trim(segs[0]);
      (if t != "" then [t] else []) + TrimmedNonEmpty(segs[1..])
  }

  function SplitSegments(cmd: string): seq<string>
  {
    TrimmedNonEmpty(Segments(cmd, PLAIN, ""))
  }

  method SplitShellSegments(command: string) returns (out: seq<string>)
    ensures out == SplitSegments(command)
  {
    hide Trim, Segments, TrimmedNonEmpty;
    out := [];
    var current := "";
    var quote, escaped := Unquoted, false;
    var i := 0;
    ghost var whole := TrimmedNonEmpty(Segments(command, PLAIN, ""));
    assert command[0..] == command;
    while i < |command|
      invariant 0 <= i <= |command|
      invariant whole == out + TrimmedNonEmpty(Segments(command[i..], State(quote, escaped), current))
    {
      var ch := command[i];
      ghost var rest, st := command[i..], State(quote, escaped);
      assert rest[0] == ch && rest[1..] == command[i + 1..];
      SegmentsStep(rest, st, current);
      if !escaped && quote == Unquoted && IsBreak(ch) {
        var trimmed := Trim(current);
        if trimmed != "" { out := out + [trimmed]; }
        current := "";
        if (ch == '|' || ch == '&') && i + 1 < |command| && command[i + 1] == ch {
          assert rest[2..] == command[i + 2..];
          i := i + 1;
        }
      } else {
        current := current + [ch];
        if escaped {
          escaped := false;
        } else if ch == '\\' && quote != Single {
          escaped := true;
        } else if quote != Unquoted {
          if Closes(quote, ch) { quote := Unquoted; }
        } else if ch == '\'' || ch == '"' {
          quote := if ch == '\'' then Single else Double;
        }
      }
      i := i + 1;
    }
    assert command[|command|..] == "";
    SegmentsStep("", State(quote, escaped), current);
    var tail := Trim(current);
    if tail != "" { out := out + [tail]; }
  }

  /** One round of the loop, on the segments still to come. */
  lemma {:induction false} SegmentsStep(cmd: string, st: State, cur: string)
    ensures var done := if Trim(cur) != "" then [Trim(cur)] else [];
            TrimmedNonEmpty(Segments(cmd, st, cur)) ==
            if cmd == "" then done
            else if st == PLAIN &&
                IsBreak(cmd[0]) then done + TrimmedNonEmpty(Segments(cmd[BreakLen(cmd)..], PLAIN, ""))
            else TrimmedNonEmpty(Segments(cmd[1..], Next(st, cmd[0]), cur + [cmd[0]]))
  {
    hide Trim, Next;
    if cmd == "" {
      assert [cur][1..] == [];
    } else if st == PLAIN && IsBreak(cmd[0]) {
      var rest := Segments(cmd[BreakLen(cmd)..], PLAIN, "");
      assert ([cur] + rest)[1..] == rest;
    }
  }

  // ----- tokens -----

  /** The tokenizer's state: quoting, the token being read, the tokens read. */
  datatype Lexer = Lexer(st: State, cur: string, toks: seq<string>)

  const START := Lexer(PLAIN, "", [])

  function Flush(t: Lexer): Lexer
  {
    if t.cur == "" then t else Lexer(t.st, "", t.toks + [t.cur])
  }

  function Feed(t: Lexer, ch: char): Lexer
  {
    var st' := Next(t.st, ch);
    if t.st.escaped then Lexer(st', t.cur + [ch], t.toks)
    else if ch == '\\' && t.st.quote != Single then Lexer(st', t.cur, t.toks)
    else if t.st.quote != Unquoted then Lexer(st', if Closes(t.st.quote, ch) then t.cur else t.cur + [ch], t.toks)
    else if ch == '\'' || ch == '"' then Lexer(st', t.cur, t.toks)
    else if Blank(ch) then Flush(t)
    else Lexer(st', t.cur + [ch], t.toks)
  }

  function FeedAll(t: Lexer, s: string): Lexer
    decreases |s|
  {
    if s == "" then t else FeedAll(Feed(t, s[0]), s[1..])
  }

  function Tokenize(s: string): seq<string>
  {
    Flush(FeedAll(START, s)).toks
  }

  method TokenizeShell(segment: string) returns (tokens: seq<string>)
    ensures tokens == Tokenize(segment)
  {
    tokens := [];
    var current := "";
    var quote, escaped := Unquoted, false;
    assert segment[0..] == segment;
    for i := 0 to |segment|
      invariant FeedAll(START, segment) == FeedAll(Lexer(State(quote, escaped), current, tokens), segment[i..])
    {
      var ch := segment[i];
      assert segment[i..][0] == ch && segment[i..][1..] == segment[i + 1..];
      if escaped {
        current, escaped := current + [ch], false;
      } else if ch == '\\' && quote != Single {
        escaped := true;
      } else if quote != Unquoted {
        if Closes(quote, ch) { quote := Unquoted; } else { current := current + [ch]; }
      } else if ch == '\'' || ch == '"' {
        quote := if ch == '\'' then Single else Double;
      } else if Blank(ch) {
        if current != "" { tokens, current := tokens + [current], ""; }
      } else {
        current := current + [ch];
      }
    }
    if current != "" { tokens := tokens + [current]; }
  }

  // ----- one pass over the whole command -----

  /** Segmenting and tokenizing in one pass: a token list per segment. */
  function LexFrom(cmd: string, t: Lexer): (r: seq<seq<string>>)
    ensures |r| > 0
    decreases |cmd|
  {
    if cmd == "" then [Flush(t).toks]
    else if t.st == PLAIN && IsBreak(cmd[0]) then [Flush(t).toks] + LexFrom(cmd[BreakLen(cmd)..], START)
    else LexFrom(cmd[1..], Feed(t, cmd[0]))
  }

  function MapTokenize(segs: seq<string>): seq<seq<string>>
  {
    if segs == [] then [] else [Tokenize(segs[0])] + MapTokenize(segs[1..])
  }

  lemma {:induction false} FeedState(t: Lexer, ch: char)
    ensures Feed(t, ch).st == Next(t.st, ch)
  {
  }

  lemma {:induction false} FeedAllConcat(t: Lexer, x: string, y: string)
    ensures FeedAll(t, x + y) == FeedAll(FeedAll(t, x), y)
    decreases |x|
  {
    hide Feed;
    if x == "" {
      assert x + y == y;
    } else {
      assert (x + y)[0] == x[0] && (x + y)[1..] == x[1..] + y;
      FeedAllConcat(Feed(t, x[0]), x[1..], y);
    }
  }

  lemma {:induction false} FeedAllState(t: Lexer, s: string)
    ensures FeedAll(t, s).st == StateAfter(t.st, s)
    decreases |s|
  {
    hide Feed, Next;
    if s != "" {
      FeedState(t, s[0]);
      FeedAllState(Feed(t, s[0]), s[1..]);
    }
  }

  /** Cutting into segments and then tokenizing each is the one-pass lexer. */
  lemma {:induction false} SegmentsThenTokens(cmd: string, cur: string, t: Lexer)
    requires t == FeedAll(START, cur)
    ensures LexFrom(cmd, t) == MapTokenize(Segments(cmd, t.st, cur))
    decreases |cmd|
  {
    hide Feed, Next;
    if cmd == "" {
      assert [cur][1..] == [];
    } else if t.st == PLAIN && IsBreak(cmd[0]) {
      var rest := Segments(cmd[BreakLen(cmd)..], PLAIN, "");
      SegmentsThenTokens(cmd[BreakLen(cmd)..], "", START);
      assert ([cur] + rest)[1..] == rest;
    } else {
      FeedAllConcat(START, cur, [cmd[0]]);
      assert [cmd[0]][1..] == "";
      FeedState(t, cmd[0]);
      SegmentsThenTokens(cmd[1..], cur + [cmd[0]], Feed(t, cmd[0]));
    }
  }

  // ----- where the segmenter cuts -----

  predicate Separator(sep: string)
  {
    sep == ";" || sep == "|" || sep == "||" || sep == "&" || sep == "&&"
  }

  /** Text without a break outside quotes and escapes, read from state `st`. */
  predicate Unbroken(st: State, s: string)
    decreases |s|
  {
    s == "" || (!(st == PLAIN && IsBreak(s[0])) && Unbroken(Next(st, s[0]), s[1..]))
  }

  /** A single `|` or `&` is not followed by its twin, which would make one double separator. */
  predicate Maximal(sep: string, after: string)
  {
    (sep == "|" || sep == "&") ==> !(sep <= after)
  }

  function Weave(segs: seq<string>, seps: seq<string>): string
    requires |segs| == |seps| + 1
  {
    if seps == [] then segs[0] else segs[0] + (seps[0] + Weave(segs[1..], seps[1..]))
  }

  /**
    A way to write a command as segments and separators in which every separator stands outside quotes and
    escapes and no segment holds another such break; the first segment continues from state `st`.
  */
  predicate Cut(st: State, segs: seq<string>, seps: seq<string>)
    requires |segs| == |seps| + 1
    decreases |seps|
  {
    Unbroken(st, segs[0]) &&
    (seps != [] ==>
       Separator(seps[0]) && StateAfter(st, segs[0]) == PLAIN &&
       Maximal(seps[0], Weave(segs[1..], seps[1..])) && Cut(PLAIN, segs[1..], seps[1..]))
  }

  /** Replaces the head of a non-empty list by one with `cur` in front. */
  function Prepend(cur: string, segs: seq<string>): seq<string>
    requires segs != []
  {
    [cur + segs[0]] + segs[1..]
  }

  lemma {:induction false} SegmentsPrepend(cmd: string, st: State, cur: string)
    ensures Segments(cmd, st, cur) == Prepend(cur, Segments(cmd, st, ""))
    decreases |cmd|
  {
    hide Next, BreakLen;
    if cmd == "" {
      assert cur + "" == cur;
    } else if st == PLAIN && IsBreak(cmd[0]) {
      assert cur + "" == cur;
    } else {
      var st', ch := Next(st, cmd[0]), [cmd[0]];
      SegmentsPrepend(cmd[1..], st', cur + ch);
      SegmentsPrepend(cmd[1..], st', "" + ch);
      var tail := Segments(cmd[1..], st', "");
      assert (cur + ch) + tail[0] == cur + (("" + ch) + tail[0]);
    }
  }

  /** Every command is cut, and only outside quotes and escapes: segments and separators give it back. */
  lemma {:induction false} SegmentsCut(cmd: string, st: State) returns (seps: seq<string>)
    ensures |Segments(cmd, st, "")| == |seps| + 1
    ensures Cut(st, Segments(cmd, st, ""), seps) && Weave(Segments(cmd, st, ""), seps) == cmd
    decreases |cmd|
  {
    hide Next;
    if cmd == "" {
      seps := [];
    } else if st == PLAIN && IsBreak(cmd[0]) {
      var n := BreakLen(cmd);
      var rest := SegmentsCut(cmd[n..], PLAIN);
      seps := [cmd[..n]] + rest;
      var segs := Segments(cmd[n..], PLAIN, "");
      assert Segments(cmd, st, "") == [""] + segs;
      assert ([""] + segs)[1..] == segs && seps[1..] == rest;
      assert cmd == "" + (cmd[..n] + cmd[n..]);
      assert cmd[..n] == if n == 1 then [cmd[0]] else [cmd[0], cmd[0]];
      assert Maximal(cmd[..n], cmd[n..]);
    } else {
      var st' := Next(st, cmd[0]);
      seps := SegmentsCut(cmd[1..], st');
      CutPrepend(cmd[0], st, Segments(cmd[1..], st', ""), seps);
      SegmentsPrepend(cmd[1..], st', "" + [cmd[0]]);
      assert "" + [cmd[0]] == [cmd[0]];
      assert cmd == [cmd[0]] + cmd[1..];
    }
  }

  lemma {:induction false} CutPrepend(ch: char, st: State, segs: seq<string>, seps: seq<string>)
    requires |segs| == |seps| + 1 && !(st == PLAIN && IsBreak(ch))
    ensures Cut(Next(st, ch), segs, seps) == Cut(st, Prepend([ch], segs), seps)
    ensures Weave(Prepend([ch], segs), seps) == [ch] + Weave(segs, seps)
  {
    hide Next, Maximal, Separator;
    var more := Prepend([ch], segs);
    assert more[0][0] == ch && more[0][1..] == segs[0];
    assert more[1..] == segs[1..];
    if seps != [] {
      assert ([ch] + segs[0]) + (seps[0] + Weave(segs[1..], seps[1..])) ==
          [ch] + (segs[0] + (seps[0] + Weave(segs[1..], seps[1..])));
    }
  }

  /** Conversely, any such way of writing a command is the segmenter's. */
  lemma {:induction false} CutIsSegments(st: State, segs: seq<string>, seps: seq<string>)
    requires |segs| == |seps| + 1 && Cut(st, segs, seps)
    ensures Segments(Weave(segs, seps), st, "") == segs
    decreases |seps|, |segs[0]|
  {
    hide Next;
    var cmd := Weave(segs, seps);
    if segs[0] != "" {
      var ch := segs[0][0];
      var less := [segs[0][1..]] + segs[1..];
      assert segs[0] == [ch] + segs[0][1..];
      assert less[1..] == segs[1..];
      assert Prepend([ch], less) == segs;
      CutPrepend(ch, st, less, seps);
      CutIsSegments(Next(st, ch), less, seps);
      assert cmd[0] == ch && cmd[1..] == Weave(less, seps);
      SegmentsPrepend(cmd[1..], Next(st, ch), "" + [ch]);
      assert "" + [ch] == [ch];
    } else if seps != [] {
      var rest := Weave(segs[1..], seps[1..]);
      CutIsSegments(PLAIN, segs[1..], seps[1..]);
      assert cmd == seps[0] + rest;
      SeparatorLen(seps[0], rest);
      assert cmd[|seps[0]|..] == rest;
      assert segs == [""] + segs[1..];
    }
  }

  lemma {:induction false} SeparatorLen(sep: string, rest: string)
    requires Separator(sep) && Maximal(sep, rest)
    ensures IsBreak(sep[0]) && BreakLen(sep + rest) == |sep|
  {
    if |sep| == 1 && rest != "" && rest[0] == sep[0] {
      assert sep <= rest;
    }
  }

  // ----- trimming a segment -----

  /** Characters held: in finished tokens and in the one being read. */
  function Chars(toks: seq<string>): nat
  {
    if toks == [] then 0 else |toks[0]| + Chars(toks[1..])
  }

  function Mass(t: Lexer): nat
  {
    |t.cur| + Chars(t.toks)
  }

  lemma {:induction false} CharsAppend(toks: seq<string>, tok: string)
    ensures Chars(toks + [tok]) == Chars(toks) + |tok|
    decreases |toks|
  {
    if toks == [] {
      assert toks + [tok] == [tok] && [tok][1..] == [];
    } else {
      assert (toks + [tok])[0] == toks[0] && (toks + [tok])[1..] == toks[1..] + [tok];
      CharsAppend(toks[1..], tok);
    }
  }

  lemma {:induction false} FlushMass(t: Lexer)
    ensures Mass(Flush(t)) == Mass(t) && Flush(Flush(t)) == Flush(t) && Mass(t) >= Chars(t.toks)
    ensures Chars(Flush(t).toks) == Mass(t)
  {
    CharsAppend(t.toks, t.cur);
  }

  lemma {:induction false} FeedMass(t: Lexer, ch: char)
    ensures Mass(t) <= Mass(Feed(t, ch)) <= Mass(t) + 1
    ensures Blank(ch) ==> Mass(Feed(t, ch)) == if t.st == PLAIN then Mass(t) else Mass(t) + 1
    ensures Blank(ch) && t.st == PLAIN ==> Feed(t, ch) == Flush(t)
  {
    FlushMass(t);
  }

  lemma {:induction false} FeedAllMass(t: Lexer, s: string)
    ensures Mass(t) <= Mass(FeedAll(t, s)) <= Mass(t) + |s|
    decreases |s|
  {
    hide Feed, Mass;
    if s != "" {
      FeedMass(t, s[0]);
      FeedAllMass(Feed(t, s[0]), s[1..]);
    }
  }

  /** Tokens never hold more characters than the segment they come from. */
  lemma {:induction false} TokenCharsBounded(s: string)
    ensures Chars(Tokenize(s)) <= |s|
  {
    FeedAllMass(START, s);
    FlushMass(FeedAll(START, s));
  }

  lemma {:induction false} FeedLeadingBlanks(s: string)
    ensures FeedAll(START, TrimStart(s)) == FeedAll(START, s)
    decreases |s|
  {
    hide Feed;
    if s != "" && Blank(s[0]) {
      FeedMass(START, s[0]);
      FeedLeadingBlanks(s[1..]);
    }
  }

  lemma {:induction false} FeedTrailingBlanks(t: Lexer, w: string)
    requires AllBlank(w) && w != ""
    ensures t.st == PLAIN ==> FeedAll(t, w) == Flush(t)
    ensures t.st != PLAIN ==> Mass(FeedAll(t, w)) > Mass(t)
    decreases |w|
  {
    hide Feed, Mass, Blank;
    FeedMass(t, w[0]);
    var t' := Feed(t, w[0]);
    FeedAllMass(t', w[1..]);
    if t.st == PLAIN && |w| > 1 {
      FlushMass(t);
      FeedTrailingBlanks(t', w[1..]);
    }
  }

  /** The blanks trimmed off the end of a segment are not escaped or inside an open quote. */
  predicate CleanEnd(s: string)
  {
    var a := TrimStart(s);
    TrimEnd(a) == a || StateAfter(PLAIN, TrimEnd(a)) == PLAIN
  }

  /** Trimming a segment keeps its tokens exactly when it ends clean; otherwise it loses characters of them. */
  lemma {:induction false} TrimKeepsTokensIff(s: string)
    ensures Tokenize(Trim(s)) == Tokenize(s) <==> CleanEnd(s)
    ensures !CleanEnd(s) ==> Chars(Tokenize(Trim(s))) < Chars(Tokenize(s))
  {
    hide Feed, Mass, Blank, TrimStart, TrimEnd, Next, AllBlank, Flush;
    var a := TrimStart(s);
    var b := TrimEnd(a);
    FeedLeadingBlanks(s);
    TrimEndSound(a);
    var w := a[|b|..];
    var t := FeedAll(START, b);
    assert a == b + w;
    FeedAllConcat(START, b, w);
    FeedAllState(START, b);
    FlushMass(t);
    FlushMass(FeedAll(t, w));
    if w != "" {
      FeedTrailingBlanks(t, w);
    }
  }

  /** The token lists that hold at least one token. */
  function NonEmpty(lists: seq<seq<string>>): seq<seq<string>>
  {
    if lists == [] then []
    else (if lists[0] != [] then [lists[0]] else []) + NonEmpty(lists[1..])
  }

  function AllChars(lists: seq<seq<string>>): nat
  {
    if lists == [] then 0 else Chars(lists[0]) + AllChars(lists[1..])
  }

  lemma {:induction false} AllCharsPrepend(toks: seq<string>, lists: seq<seq<string>>)
    ensures AllChars((if toks != [] then [toks] else []) + lists) == Chars(toks) + AllChars(lists)
  {
    assert toks != [] ==> ([toks] + lists)[1..] == lists;
    assert toks == [] ==> [] + lists == lists;
  }

  lemma {:induction false} NonEmptyPrepend(toks: seq<string>, lists: seq<seq<string>>)
    ensures NonEmpty([toks] + lists) == (if toks != [] then [toks] else []) + NonEmpty(lists)
  {
    assert ([toks] + lists)[1..] == lists;
  }

  /** One trimmed segment in front of the rest. */
  lemma {:induction false} TrimmedHead(segs: seq<string>)
    requires segs != []
    ensures var toks := Tokenize(Trim(segs[0]));
            NonEmpty(MapTokenize(TrimmedNonEmpty(segs))) ==
            (if toks != [] then [toks] else []) + NonEmpty(MapTokenize(TrimmedNonEmpty(segs[1..])))
  {
    hide Trim, Feed;
    var t, rest := Trim(segs[0]), TrimmedNonEmpty(segs[1..]);
    if t != "" {
      assert TrimmedNonEmpty(segs) == [t] + rest;
      assert ([t] + rest)[1..] == rest;
      NonEmptyPrepend(Tokenize(t), MapTokenize(rest));
    } else {
      assert TrimmedNonEmpty(segs) == [] + rest == rest;
      assert Tokenize("") == [];
    }
  }

  predicate AllClean(segs: seq<string>)
  {
    forall seg :: seg in segs ==> CleanEnd(seg)
  }

  /** The tokens reached through trimmed segments, and through raw ones. */
  function TrimmedTokens(segs: seq<string>): seq<seq<string>>
  {
    NonEmpty(MapTokenize(TrimmedNonEmpty(segs)))
  }

  function RawTokens(segs: seq<string>): seq<seq<string>>
  {
    NonEmpty(MapTokenize(segs))
  }

  lemma {:induction false} TokensHead(segs: seq<string>)
    requires segs != []
    ensures AllChars(TrimmedTokens(segs)) == Chars(Tokenize(Trim(segs[0]))) + AllChars(TrimmedTokens(segs[1..]))
    ensures AllChars(RawTokens(segs)) == Chars(Tokenize(segs[0])) + AllChars(RawTokens(segs[1..]))
    ensures Tokenize(Trim(segs[0])) == Tokenize(segs[0]) && TrimmedTokens(segs[1..]) == RawTokens(segs[1..]) ==>
              TrimmedTokens(segs) == RawTokens(segs)
  {
    hide Trim, Tokenize, Chars, AllChars, NonEmpty, TrimmedNonEmpty;
    TrimmedHead(segs);
    NonEmptyPrepend(Tokenize(segs[0]), MapTokenize(segs[1..]));
    AllCharsPrepend(Tokenize(segs[0]), RawTokens(segs[1..]));
    AllCharsPrepend(Tokenize(Trim(segs[0])), TrimmedTokens(segs[1..]));
  }

  lemma {:induction false} SplitTokensFrom(segs: seq<string>)
    ensures AllClean(segs) ==> TrimmedTokens(segs) == RawTokens(segs)
    ensures !AllClean(segs) ==> AllChars(TrimmedTokens(segs)) < AllChars(RawTokens(segs))
    decreases |segs|
  {
    hide Trim, CleanEnd, Tokenize, Chars, AllChars, NonEmpty, TrimmedNonEmpty, MapTokenize, TrimmedTokens, RawTokens;
    if segs == [] {
      TokensNone();
    } else {
      var rest := segs[1..];
      SplitTokensFrom(rest);
      TokensHead(segs);
      TrimKeepsTokensIff(segs[0]);
      assert segs == [segs[0]] + rest;
    }
  }

  lemma {:induction false} TokensNone()
    ensures TrimmedTokens([]) == RawTokens([])
  {
  }

  /**
    The two lexers together agree with one pass over the whole command, up to empty token lists, exactly
    when no segment ends in an escaped blank or in a blank inside an open quote.
  */
  lemma {:induction false} SplitThenTokenizeIff(cmd: string)
    ensures NonEmpty(MapTokenize(SplitSegments(cmd))) == NonEmpty(LexFrom(cmd, START)) <==>
            AllClean(Segments(cmd, PLAIN, ""))
  {
    hide CleanEnd, Trim, Feed, AllClean, AllChars, NonEmpty, MapTokenize;
    var segs := Segments(cmd, PLAIN, "");
    SegmentsThenTokens(cmd, "", START);
    SplitTokensFrom(segs);
  }

  // ----- two segments that lose characters -----

  predicate PlainChar(c: char)
  {
    c != '\\' && c != '\'' && c != '"' && !Blank(c) && !IsBreak(c)
  }

  lemma {:induction false} FeedWord(t: Lexer, s: string)
    requires t.st == PLAIN && forall k :: 0 <= k < |s| ==> PlainChar(s[k])
    ensures FeedAll(t, s) == t.(cur := t.cur + s)
    decreases |s|
  {
    if s == "" {
      assert t.cur + s == t.cur;
    } else {
      FeedWord(t.(cur := t.cur + [s[0]]), s[1..]);
      assert t.cur + [s[0]] + s[1..] == t.cur + s;
    }
  }

  lemma {:induction false} FeedBlank(t: Lexer)
    requires t.st == PLAIN
    ensures FeedAll(t, " ") == Flush(t)
  {
    assert " "[1..] == "";
    assert FeedAll(t, " ") == FeedAll(Feed(t, ' '), "");
  }

  lemma {:induction false} FeedOne(t: Lexer, ch: char)
    ensures FeedAll(t, [ch]) == Feed(t, ch)
  {
    assert [ch][1..] == "";
  }

  lemma {:induction false} FeedRmA(rest: string)
    ensures FeedAll(START, "rm " + rest) == FeedAll(Lexer(PLAIN, "", ["rm"]), rest)
  {
    hide Feed, FeedAll;
    FeedAllConcat(START, "rm ", rest);
    FeedAllConcat(START, "rm", " ");
    FeedWord(START, "rm");
    FeedBlank(Lexer(PLAIN, "rm", []));
    assert "rm " == "rm" + " " && "" + "rm" == "rm" && [] + ["rm"] == ["rm"];
  }

  lemma {:induction false} NoBreaksUnbroken(st: State, s: string)
    requires forall k :: 0 <= k < |s| ==> !IsBreak(s[k])
    ensures Unbroken(st, s)
    decreases |s|
  {
    hide Next;
    if s != "" { NoBreaksUnbroken(Next(st, s[0]), s[1..]); }
  }

  /** A segment whose tokens trimming changes: alone as a command, it makes the two lexers disagree with one pass. */
  lemma {:induction false} DirtyCommand(cmd: string)
    requires (forall k :: 0 <= k < |cmd| ==> !IsBreak(cmd[k])) && Tokenize(Trim(cmd)) != Tokenize(cmd)
    ensures !CleanEnd(cmd) && NonEmpty(MapTokenize(SplitSegments(cmd))) != NonEmpty(LexFrom(cmd, START))
  {
    hide CleanEnd, Trim, Feed, Tokenize;
    TrimKeepsTokensIff(cmd);
    NoBreaksUnbroken(PLAIN, cmd);
    CutIsSegments(PLAIN, [cmd], []);
    assert cmd in [cmd];
    SplitThenTokenizeIff(cmd);
  }

  lemma {:induction false} TrimRm(s: string)
    requires |s| >= 2 && s[0] == 'r' && Blank(s[|s| - 1]) && !Blank(s[|s| - 2])
    ensures Trim(s) == s[..|s| - 1]
  {
    assert !Blank('r') && TrimStart(s) == s;
    hide Blank;
    var v := s[..|s| - 1];
    assert v[|v| - 1] == s[|s| - 2] && TrimEnd(v) == v;
  }

  /** An escaped blank at the end is cut off the token. */
  lemma {:induction false} EscapedBlankLost()
    ensures var cmd := "rm a\\ ";
            Tokenize(cmd) == ["rm", "a "] && Tokenize(Trim(cmd)) == ["rm", "a"] && !CleanEnd(cmd) &&
            NonEmpty(MapTokenize(SplitSegments(cmd))) != NonEmpty(LexFrom(cmd, START))
  {
    hide FeedAll, Feed, Trim, CleanEnd, MapTokenize, SplitSegments, LexFrom, NonEmpty;
    var cmd := "rm a\\ ";
    var t := Lexer(PLAIN, "a", ["rm"]);
    var t' := Lexer(State(Unquoted, true), "a", ["rm"]);
    TrimRmA();
    FeedRmA("a\\");
    FeedRmA("a\\ ");
    FeedAllConcat(Lexer(PLAIN, "", ["rm"]), "a", "\\");
    FeedAllConcat(Lexer(PLAIN, "", ["rm"]), "a", "\\ ");
    FeedWord(Lexer(PLAIN, "", ["rm"]), "a");
    FeedAllConcat(t, "\\", " ");
    FeedOne(t, '\\');
    FeedOne(t', ' ');
    EscapedFeeds();
    assert "rm " + "a\\ " == cmd && "rm " + "a\\" == cmd[..5] && "a" + "\\ " == "a\\ " && "\\" + " " == "\\ ";
    assert "a" + "\\" == "a\\" && "" + "a" == "a" && ["rm"] + ["a "] == ["rm", "a "] && ["rm"] + ["a"] == ["rm", "a"];
    DirtyCommand(cmd);
  }

  lemma {:induction false} TrimRmA()
    ensures Trim("rm a\\ ") == "rm a\\ "[..5] && Trim("rm 'a ") == "rm 'a "[..5]
  {
    hide Trim;
    assert Blank(' ') && !Blank('\\') && !Blank('a');
    TrimRm("rm a\\ ");
    TrimRm("rm 'a ");
  }

  lemma {:induction false} EscapedFeeds()
    ensures Feed(Lexer(PLAIN, "a", ["rm"]), '\\') == Lexer(State(Unquoted, true), "a", ["rm"])
    ensures Feed(Lexer(State(Unquoted, true), "a", ["rm"]), ' ') == Lexer(PLAIN, "a ", ["rm"])
    ensures Feed(Lexer(PLAIN, "", ["rm"]), '\'') == Lexer(State(Single, false), "", ["rm"])
    ensures Feed(Lexer(State(Single, false), "", ["rm"]), 'a') == Lexer(State(Single, false), "a", ["rm"])
    ensures Feed(Lexer(State(Single, false), "a", ["rm"]), ' ') == Lexer(State(Single, false), "a ", ["rm"])
  {
    assert "a" + " " == "a " && "" + "a" == "a";
  }

  /** So is a blank inside a quote that is never closed. */
  lemma {:induction false} QuotedBlankLost()
    ensures var cmd := "rm 'a ";
            Tokenize(cmd) == ["rm", "a "] && Tokenize(Trim(cmd)) == ["rm", "a"] && !CleanEnd(cmd) &&
            NonEmpty(MapTokenize(SplitSegments(cmd))) != NonEmpty(LexFrom(cmd, START))
  {
    hide FeedAll, Feed, Trim, CleanEnd, MapTokenize, SplitSegments, LexFrom, NonEmpty;
    var cmd := "rm 'a ";
    var t, q := Lexer(PLAIN, "", ["rm"]), Lexer(State(Single, false), "", ["rm"]);
    TrimRmA();
    FeedRmA("'a");
    FeedRmA("'a ");
    FeedAllConcat(t, "'", "a");
    FeedAllConcat(t, "'", "a ");
    FeedAllConcat(q, "a", " ");
    FeedOne(t, '\'');
    FeedOne(q, 'a');
    FeedOne(Lexer(State(Single, false), "a", ["rm"]), ' ');
    EscapedFeeds();
    assert "rm " + "'a " == cmd && "rm " + "'a" == cmd[..5] && "'" + "a " == "'a " && "'" + "a" == "'a" &&
        "a" + " " == "a ";
    assert ["rm"] + ["a "] == ["rm", "a "] && ["rm"] + ["a"] == ["rm", "a"];
    DirtyCommand(cmd);
  }
}
