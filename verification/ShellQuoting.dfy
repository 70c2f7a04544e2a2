/** The shell's quoting rules as a grammar, and the lexers against it. */
module ShellQuoting {
  import opened Text
  import opened ShellLexer

  /** A character as it stands, or behind a backslash. */
  datatype Item = Plain(ch: char) | Escaped(ch: char)

  /** A blank between words, a bare character, a stretch in single or in double quotes. */
  datatype Part = Gap(ch: char) | Bare(item: Item) | InSingle(text: string) | InDouble(items: seq<Item>)

  predicate Proper(p: Part)
  {
    match p
    case Gap(ch) => Blank(ch)
    case Bare(Plain(ch)) => ch !in "\\'\";|&" && !Blank(ch)
    case Bare(Escaped(_)) => true
    case InSingle(text) => '\'' !in text
    case InDouble(items) => forall k :: 0 <= k < |items| && items[k].Plain? ==> items[k].ch !in "\\\""
  }

  predicate AllProper(parts: seq<Part>)
  {
    forall k :: 0 <= k < |parts| ==> Proper(parts[k])
  }

  // ----- how parts are written -----

  function WriteItem(i: Item): string
  {
    if i.Plain? then [i.ch] else "\\" + [i.ch]
  }

  function WriteItems(items: seq<Item>): string
  {
    if items == [] then "" else WriteItem(items[0]) + WriteItems(items[1..])
  }

  function WritePart(p: Part): string
  {
    match p
    case Gap(ch) => [ch]
    case Bare(item) => WriteItem(item)
    case InSingle(text) => "'" + (text + "'")
    case InDouble(items) => "\"" + (WriteItems(items) + "\"")
  }

  function Write(parts: seq<Part>): string
  {
    if parts == [] then "" else WritePart(parts[0]) + Write(parts[1..])
  }

  // ----- what parts mean -----

  function ItemChars(items: seq<Item>): string
  {
    if items == [] then "" else [items[0].ch] + ItemChars(items[1..])
  }

  /** The characters a part adds to the word it stands in. */
  function Meaning(p: Part): string
  {
    match p
    case Gap(_) => ""
    case Bare(item) => [item.ch]
    case InSingle(text) => text
    case InDouble(items) => ItemChars(items)
  }

  function Word(cur: string): seq<string>
  {
    if cur == "" then [] else [cur]
  }

  /** The words of a segment, the first one continuing `cur`; a word without characters is none. */
  function Words(parts: seq<Part>, cur: string): seq<string>
    decreases |parts|
  {
    if parts == [] then Word(cur)
    else if parts[0].Gap? then Word(cur) + Words(parts[1..], "")
    else Words(parts[1..], cur + Meaning(parts[0]))
  }

  // ----- the lexers read what was written -----

  lemma {:induction false} UnbrokenConcat(st: State, x: string, y: string)
    ensures Unbroken(st, x + y) <==> Unbroken(st, x) && Unbroken(StateAfter(st, x), y)
    ensures StateAfter(st, x + y) == StateAfter(StateAfter(st, x), y)
    decreases |x|
  {
    hide Next;
    if x == "" {
      assert x + y == y;
    } else {
      assert (x + y)[0] == x[0] && (x + y)[1..] == x[1..] + y;
      UnbrokenConcat(Next(st, x[0]), x[1..], y);
    }
  }

  lemma {:induction false} OneState(st: State, ch: char)
    ensures StateAfter(st, [ch]) == Next(st, ch)
    ensures Unbroken(st, [ch]) <==> !(st == PLAIN && IsBreak(ch))
  {
    assert [ch][1..] == "";
  }

  lemma {:induction false} SingleChar(t: Lexer, ch: char)
    requires t.st == State(Single, false) && ch != '\''
    ensures Feed(t, ch) == t.(cur := t.cur + [ch]) && Next(t.st, ch) == t.st
  {
  }

  /** A text without a single quote, read inside single quotes, is taken as it stands. */
  lemma {:induction false} SingleText(t: Lexer, text: string)
    requires t.st == State(Single, false) && '\'' !in text
    ensures FeedAll(t, text) == t.(cur := t.cur + text) && Unbroken(t.st, text)
    decreases |text|
  {
    hide Feed, Next;
    if text == "" {
      assert t.cur + text == t.cur;
    } else {
      var t' := t.(cur := t.cur + [text[0]]);
      SingleChar(t, text[0]);
      SingleText(t', text[1..]);
      assert t.cur + [text[0]] + text[1..] == t.cur + text;
    }
  }

  /** One character of a word, bare or in double quotes, with or without its backslash. */
  lemma {:induction false} ItemRead(t: Lexer, i: Item)
    requires t.st == State(Double, false) || t.st == PLAIN
    requires i.Plain? ==> if t.st == PLAIN then i.ch !in "\\'\";|&" && !Blank(i.ch) else i.ch !in "\\\""
    ensures FeedAll(t, WriteItem(i)) == t.(cur := t.cur + [i.ch]) && Unbroken(t.st, WriteItem(i))
  {
    if i.Plain? {
      FeedOne(t, i.ch);
      OneState(t.st, i.ch);
    } else {
      var e := t.(st := State(t.st.quote, true));
      FeedAllConcat(t, "\\", [i.ch]);
      UnbrokenConcat(t.st, "\\", [i.ch]);
      FeedOne(t, '\\');
      FeedOne(e, i.ch);
      OneState(t.st, '\\');
      OneState(e.st, i.ch);
    }
  }

  lemma {:induction false} ItemsRead(t: Lexer, items: seq<Item>)
    requires t.st == State(Double, false) && Proper(InDouble(items))
    ensures FeedAll(t, WriteItems(items)) == t.(cur := t.cur + ItemChars(items)) && Unbroken(t.st, WriteItems(items))
    decreases |items|
  {
    hide Feed, FeedAll, Unbroken, Next;
    if items == [] {
      NothingRead(t);
      assert t.cur + "" == t.cur;
    } else {
      var t', rest := t.(cur := t.cur + [items[0].ch]), items[1..];
      ItemRead(t, items[0]);
      FeedAllConcat(t, WriteItem(items[0]), WriteItems(rest));
      UnbrokenConcat(t.st, WriteItem(items[0]), WriteItems(rest));
      FeedAllState(t, WriteItem(items[0]));
      assert forall k :: 0 <= k < |rest| ==> rest[k] == items[k + 1];
      ItemsRead(t', rest);
      assert t.cur + [items[0].ch] + ItemChars(rest) == t.cur + ([items[0].ch] + ItemChars(rest));
    }
  }

  lemma {:induction false} NothingRead(t: Lexer)
    ensures FeedAll(t, "") == t && Unbroken(t.st, "") && StateAfter(t.st, "") == t.st
  {
  }

  /** Quotes around a text that is read inside them as `inner`. */
  lemma {:induction false} Quoted(t: Lexer, q: char, body: string, inner: string)
    requires t.st == PLAIN && (q == '\'' || q == '"')
    requires var o := t.(st := State(if q == '\'' then Single else Double, false));
             FeedAll(o, body) == o.(cur := t.cur + inner) && Unbroken(o.st, body)
    ensures FeedAll(t, [q] + (body + [q])) == t.(cur := t.cur + inner) && Unbroken(PLAIN, [q] + (body + [q]))
  {
    hide FeedAll, Unbroken, StateAfter;
    var o := t.(st := State(if q == '\'' then Single else Double, false));
    var c := o.(cur := t.cur + inner);
    FeedAllConcat(t, [q], body + [q]);
    FeedAllConcat(o, body, [q]);
    UnbrokenConcat(PLAIN, [q], body + [q]);
    UnbrokenConcat(o.st, body, [q]);
    FeedAllState(o, body);
    FeedOne(t, q);
    FeedOne(c, q);
    OneState(PLAIN, q);
    OneState(o.st, q);
  }

  /** Every part is read as it is meant, and leaves the lexer outside quotes. */
  lemma {:induction false} PartRead(t: Lexer, p: Part)
    requires t.st == PLAIN && Proper(p)
    ensures FeedAll(t, WritePart(p)) == (if p.Gap? then Flush(t) else t.(cur := t.cur + Meaning(p)))
    ensures Unbroken(PLAIN, WritePart(p))
  {
    hide FeedAll, Unbroken;
    match p {
      case Gap(ch) =>
        FeedOne(t, ch);
        OneState(PLAIN, ch);
        BlankFeeds(t, ch);
      case Bare(item) => ItemRead(t, item);
      case InSingle(text) =>
        SingleText(t.(st := State(Single, false)), text);
        Quoted(t, '\'', text, text);
      case InDouble(items) =>
        ItemsRead(t.(st := State(Double, false)), items);
        Quoted(t, '"', WriteItems(items), ItemChars(items));
    }
  }

  lemma {:induction false} BlankFeeds(t: Lexer, ch: char)
    requires t.st == PLAIN && Blank(ch)
    ensures Feed(t, ch) == Flush(t) && !IsBreak(ch)
  {
  }

  /** A segment written by the grammar is read as its words, and holds no break. */
  lemma {:induction false} PartsRead(t: Lexer, parts: seq<Part>)
    requires t.st == PLAIN && AllProper(parts)
    ensures FeedAll(t, Write(parts)).st == PLAIN && Unbroken(PLAIN, Write(parts))
    ensures Flush(FeedAll(t, Write(parts))).toks == t.toks + Words(parts, t.cur)
    decreases |parts|
  {
    hide FeedAll, Unbroken, Proper, WritePart, Meaning;
    if parts == [] {
      NothingRead(t);
      assert t.toks + [] == t.toks;
    } else {
      var p, rest := parts[0], parts[1..];
      var t' := if p.Gap? then Flush(t) else t.(cur := t.cur + Meaning(p));
      PartRead(t, p);
      FeedAllConcat(t, WritePart(p), Write(rest));
      FeedAllState(t, WritePart(p));
      UnbrokenConcat(PLAIN, WritePart(p), Write(rest));
      PartsRead(t', rest);
      if p.Gap? { assert Flush(t).toks == t.toks + Word(t.cur); }
      assert t.toks + Word(t.cur) + Words(rest, "") == t.toks + (Word(t.cur) + Words(rest, ""));
    }
  }

  // ----- whole commands -----

  function Texts(segs: seq<seq<Part>>): (texts: seq<string>)
    ensures |texts| == |segs| && forall k :: 0 <= k < |segs| ==> texts[k] == Write(segs[k])
  {
    if segs == [] then [] else [Write(segs[0])] + Texts(segs[1..])
  }

  function AllWords(segs: seq<seq<Part>>): seq<seq<string>>
  {
    if segs == [] then [] else [Words(segs[0], "")] + AllWords(segs[1..])
  }

  /** Segments in the grammar, with separators that cannot be taken for half of a double one. */
  predicate Spelled(segs: seq<seq<Part>>, seps: seq<string>)
  {
    && |segs| == |seps| + 1
    && (forall k :: 0 <= k < |segs| ==> AllProper(segs[k]))
    && (forall k :: 0 <= k < |seps| ==> seps[k] in [";", "|", "||", "&", "&&"])
    && (forall k :: 0 <= k < |seps| - 1 && seps[k] in ["|", "&"] && segs[k + 1] == [] ==> seps[k + 1][0] != seps[k][0])
  }

  lemma {:induction false} SpelledRest(segs: seq<seq<Part>>, seps: seq<string>)
    requires Spelled(segs, seps) && seps != []
    ensures Spelled(segs[1..], seps[1..])
  {
    var ps, ss := segs[1..], seps[1..];
    assert forall k :: 0 <= k < |ps| ==> ps[k] == segs[k + 1];
    assert forall k :: 0 <= k < |ss| ==> ss[k] == seps[k + 1];
  }

  /** What is written for a segment does not begin with a break. */
  lemma {:induction false} FirstChar(parts: seq<Part>)
    requires AllProper(parts) && parts != []
    ensures Write(parts) != "" && Write(parts)[0] != '|' && Write(parts)[0] != '&'
  {
    var p := parts[0];
    assert Proper(p) && WritePart(p) != "" && Write(parts)[0] == WritePart(p)[0];
  }

  lemma {:induction false} SpelledMaximal(segs: seq<seq<Part>>, seps: seq<string>)
    requires Spelled(segs, seps) && seps != []
    ensures Maximal(seps[0], Weave(Texts(segs[1..]), seps[1..]))
  {
    var rest, after := segs[1..], Weave(Texts(segs[1..]), seps[1..]);
    assert seps[0] in ["|", "&"] || !(seps[0] == "|" || seps[0] == "&");
    if segs[1] != [] {
      FirstChar(segs[1]);
      assert rest[0] == segs[1] && after[0] == Write(segs[1])[0];
    } else if |seps| > 1 {
      assert Write(rest[0]) == "" && seps[1..][0] == seps[1];
      assert after[0] == seps[1][0];
    } else {
      assert after == Write(rest[0]) == "";
    }
  }

  lemma {:induction false} SpelledCut(segs: seq<seq<Part>>, seps: seq<string>)
    requires Spelled(segs, seps)
    ensures Cut(PLAIN, Texts(segs), seps)
    decreases |seps|
  {
    hide Unbroken, StateAfter, Maximal, Weave;
    PartsRead(START, segs[0]);
    FeedAllState(START, Write(segs[0]));
    if seps != [] {
      SpelledRest(segs, seps);
      SpelledMaximal(segs, seps);
      SpelledCut(segs[1..], seps[1..]);
      assert Texts(segs)[1..] == Texts(segs[1..]);
      assert seps[0] in [";", "|", "||", "&", "&&"] && Separator(seps[0]);
    }
  }

  lemma {:induction false} TokenizeTexts(segs: seq<seq<Part>>)
    requires forall k :: 0 <= k < |segs| ==> AllProper(segs[k])
    ensures MapTokenize(Texts(segs)) == AllWords(segs)
    decreases |segs|
  {
    hide Write, Words, AllProper, FeedAll;
    if segs != [] {
      PartsRead(START, segs[0]);
      assert [] + Words(segs[0], "") == Words(segs[0], "");
      assert Texts(segs)[1..] == Texts(segs[1..]);
      TokenizeTexts(segs[1..]);
    }
  }

  /** A command written by the grammar is cut where it was put together, and read as its words. */
  lemma {:induction false} CommandRead(segs: seq<seq<Part>>, seps: seq<string>)
    requires Spelled(segs, seps)
    ensures Segments(Weave(Texts(segs), seps), PLAIN, "") == Texts(segs)
    ensures LexFrom(Weave(Texts(segs), seps), START) == AllWords(segs)
  {
    hide Cut, Weave, Segments, LexFrom, MapTokenize, AllWords;
    SpelledCut(segs, seps);
    CutIsSegments(PLAIN, Texts(segs), seps);
    TokenizeTexts(segs);
    SegmentsThenTokens(Weave(Texts(segs), seps), "", START);
    NothingRead(START);
  }

  // ----- every text that ends outside quotes is written by the grammar -----

  lemma {:induction false} ClosingSingle(u: string) returns (k: nat)
    requires StateAfter(State(Single, false), u) == PLAIN && Unbroken(State(Single, false), u)
    ensures k < |u| && u[k] == '\'' && '\'' !in u[..k]
    ensures StateAfter(PLAIN, u[k + 1..]) == PLAIN && Unbroken(PLAIN, u[k + 1..])
    decreases |u|
  {
    if u[0] == '\'' {
      k := 0;
    } else {
      k := ClosingSingle(u[1..]);
      assert u[..k + 1] == [u[0]] + u[1..][..k] && u[k + 2..] == u[1..][k + 1..];
      k := k + 1;
    }
  }

  lemma {:induction false} ClosingDouble(u: string) returns (items: seq<Item>, rest: string)
    requires StateAfter(State(Double, false), u) == PLAIN && Unbroken(State(Double, false), u)
    ensures u == WriteItems(items) + ("\"" + rest) && Proper(InDouble(items))
    ensures StateAfter(PLAIN, rest) == PLAIN && Unbroken(PLAIN, rest)
    decreases |u|
  {
    hide StateAfter, Unbroken, WriteItem, WriteItems, Proper;
    DoubleFirst(u);
    if u[0] == '"' {
      items, rest := [], u[1..];
      NoItems(u);
    } else {
      var item, n := if u[0] == '\\' then Escaped(u[1]) else Plain(u[0]), if u[0] == '\\' then 2 else 1;
      var more;
      more, rest := ClosingDouble(u[n..]);
      items := [item] + more;
      ItemsCons(item, more, "\"" + rest);
      ItemFirst(u, item, n);
    }
  }

  lemma {:induction false} NoItems(u: string)
    requires u != "" && u[0] == '"'
    ensures u == WriteItems([]) + ("\"" + u[1..]) && Proper(InDouble([]))
  {
  }

  lemma {:induction false} ItemFirst(u: string, item: Item, n: nat)
    requires 0 < n <= |u| && (if n == 2 then u[0] == '\\' && item == Escaped(u[1]) else n == 1 && item == Plain(u[0]))
    ensures u == WriteItem(item) + u[n..]
  {
  }

  lemma {:induction false} ItemsCons(item: Item, more: seq<Item>, tail: string)
    ensures WriteItems([item] + more) + tail == WriteItem(item) + (WriteItems(more) + tail)
    ensures Proper(InDouble(more)) && (item.Plain? ==> item.ch !in "\\\"") ==> Proper(InDouble([item] + more))
  {
    hide WriteItem;
    assert ([item] + more)[1..] == more;
  }

  /** The first character inside double quotes, with what it does. */
  lemma {:induction false} DoubleFirst(u: string)
    requires StateAfter(State(Double, false), u) == PLAIN && Unbroken(State(Double, false), u)
    ensures u != "" && (u[0] == '\\' ==> |u| > 1)
    ensures var st, n := if u[0] == '"' then PLAIN else State(Double, false), if u[0] == '\\' then 2 else 1;
            StateAfter(st, u[n..]) == PLAIN && Unbroken(st, u[n..])
  {
    if u[0] == '\\' { assert u[1..][1..] == u[2..]; }
  }

  lemma {:induction false} ParsedCons(p: Part, parts: seq<Part>)
    requires Proper(p) && AllProper(parts)
    ensures AllProper([p] + parts) && Write([p] + parts) == WritePart(p) + Write(parts)
  {
    assert ([p] + parts)[1..] == parts;
  }

  /** The first part of such a text. */
  lemma {:induction false} FirstPart(s: string) returns (p: Part, rest: string)
    requires Unbroken(PLAIN, s) && StateAfter(PLAIN, s) == PLAIN && s != ""
    ensures Proper(p) && s == WritePart(p) + rest && |rest| < |s|
    ensures Unbroken(PLAIN, rest) && StateAfter(PLAIN, rest) == PLAIN
  {
    hide Blank;
    if s[0] == '\\' {
      assert s[1..][1..] == s[2..];
      p, rest := Bare(Escaped(s[1])), s[2..];
    } else if s[0] == '\'' {
      var k := ClosingSingle(s[1..]);
      p, rest := InSingle(s[1..][..k]), s[1..][k + 1..];
      assert s[1..] == s[1..][..k] + ("'" + rest);
    } else if s[0] == '"' {
      var items;
      items, rest := ClosingDouble(s[1..]);
      p := InDouble(items);
    } else {
      p, rest := if Blank(s[0]) then Gap(s[0]) else Bare(Plain(s[0])), s[1..];
    }
  }

  /** A text without a break that ends outside quotes and escapes is a segment of the grammar. */
  lemma {:induction false} EverySegment(s: string) returns (parts: seq<Part>)
    requires Unbroken(PLAIN, s) && StateAfter(PLAIN, s) == PLAIN
    ensures AllProper(parts) && Write(parts) == s
    decreases |s|
  {
    hide Unbroken, StateAfter, Proper, WritePart;
    if s == "" { return []; }
    var p, rest := FirstPart(s);
    parts := EverySegment(rest);
    ParsedCons(p, parts);
    parts := [p] + parts;
  }

  /** Segments cut as the segmenter cuts them, the last ending outside quotes, are in the grammar. */
  lemma {:induction false} CutIsSpelled(texts: seq<string>, seps: seq<string>) returns (segs: seq<seq<Part>>)
    requires |texts| == |seps| + 1 && Cut(PLAIN, texts, seps) && StateAfter(PLAIN, texts[|seps|]) == PLAIN
    ensures Spelled(segs, seps) && Texts(segs) == texts
    decreases |seps|
  {
    hide Unbroken, StateAfter, Write, AllProper, Weave, Maximal, Spelled;
    var first := EverySegment(texts[0]);
    if seps == [] {
      segs := [first];
      OneSpelled(first, seps);
    } else {
      var rest := CutIsSpelled(texts[1..], seps[1..]);
      segs := [first] + rest;
      NotHalf(texts, seps, rest);
      SpelledCons(first, rest, seps);
      assert texts == [texts[0]] + texts[1..];
    }
  }

  lemma {:induction false} OneSpelled(first: seq<Part>, seps: seq<string>)
    requires AllProper(first) && seps == []
    ensures Spelled([first], seps) && Texts([first]) == [Write(first)]
  {
    hide AllProper, Write;
  }

  lemma {:induction false} SpelledCons(first: seq<Part>, rest: seq<seq<Part>>, seps: seq<string>)
    requires seps != [] && AllProper(first) && Spelled(rest, seps[1..]) && Separator(seps[0])
    requires |seps| > 1 && seps[0] in ["|", "&"] && rest[0] == [] ==> seps[1][0] != seps[0][0]
    ensures Spelled([first] + rest, seps) && Texts([first] + rest) == [Write(first)] + Texts(rest)
  {
    hide AllProper, Write;
    assert ([first] + rest)[1..] == rest;
    var segs, ss := [first] + rest, seps[1..];
    assert forall k :: 0 < k < |segs| ==> segs[k] == rest[k - 1];
    assert forall k :: 0 < k < |seps| ==> seps[k] == ss[k - 1];
  }

  lemma {:induction false} NotHalf(texts: seq<string>, seps: seq<string>, rest: seq<seq<Part>>)
    requires |texts| == |seps| + 1 && |seps| > 0 && Cut(PLAIN, texts, seps) && Texts(rest) == texts[1..]
    ensures Separator(seps[0])
    ensures |seps| > 1 && seps[0] in ["|", "&"] && rest[0] == [] ==> seps[1] != "" && seps[1][0] != seps[0][0]
  {
    hide Unbroken, StateAfter;
    if |seps| > 1 && seps[0] in ["|", "&"] && rest[0] == [] {
      var after := Weave(texts[1..], seps[1..]);
      assert Texts(rest)[0] == "" && texts[1..][0] == "" && seps[1..][0] == seps[1];
      assert Separator(seps[1]) && after[0] == seps[1][0];
      assert seps[0] <= after <==> after[0] == seps[0][0];
      assert Maximal(seps[0], after);
    }
  }

  /**
    Every command whose last segment closes its quotes is written by the grammar: the words of the grammar say
    what the lexers read for it, without naming their states.
  */
  lemma {:induction false} EveryCommand(cmd: string) returns (segs: seq<seq<Part>>, seps: seq<string>)
    requires var texts := Segments(cmd, PLAIN, ""); StateAfter(PLAIN, texts[|texts| - 1]) == PLAIN
    ensures Spelled(segs, seps) && cmd == Weave(Texts(segs), seps) && LexFrom(cmd, START) == AllWords(segs)
  {
    hide Cut, Weave, Segments, LexFrom, AllWords, Spelled;
    seps := SegmentsCut(cmd, PLAIN);
    segs := CutIsSpelled(Segments(cmd, PLAIN, ""), seps);
    CommandRead(segs, seps);
  }
}
