/** When pairing loses nothing and only gathers results. */
module Gathering {
  import opened Text
  import opened Transcript
  import opened TranscriptLaws
  import opened QuietRepair

  function Results(ms: seq<Message>): seq<Message>
  {
    if ms == [] then []
    else if ms[0].ToolResult? then [ms[0]] + Results(ms[1..])
    else Results(ms[1..])
  }

  /** Every message kept, in each span the results in front of the others. */
  function Gathered(ms: seq<Message>): seq<Message>
    decreases |ms|
  {
    if ms == [] then []
    else if !Answering(ms[0]) then [ms[0]] + Gathered(ms[1..])
    else
      var n := 1 + SpanLen(ms[1..]);
      ([ms[0]] + (Results(ms[1..n]) + NonResults(ms[1..n]))) + Gathered(ms[n..])
  }

  lemma {:induction false} ResultsConcat(x: seq<Message>, y: seq<Message>)
    ensures Results(x + y) == Results(x) + Results(y)
    decreases |x|
  {
    if x == [] {
      assert x + y == y;
    } else {
      assert (x + y)[0] == x[0] && (x + y)[1..] == x[1..] + y;
      ResultsConcat(x[1..], y);
    }
  }

  lemma {:induction false} ResultsFacts(ms: seq<Message>)
    ensures forall m :: m in Results(ms) <==> m in ms && m.ToolResult?
    ensures |Results(ms)| + |NonResults(ms)| == |ms|
    ensures Results(Results(ms)) == Results(ms) && Results(NonResults(ms)) == []
    decreases |ms|
  {
    if ms != [] {
      ResultsFacts(ms[1..]);
      assert forall m :: m in ms <==> m == ms[0] || m in ms[1..];
    }
  }

  /** Gathering keeps the results, and the other messages, in their order. */
  lemma {:induction false} GatheredFacts(ms: seq<Message>)
    ensures |Gathered(ms)| == |ms| && Results(Gathered(ms)) == Results(ms) && NonResults(Gathered(ms)) == NonResults(ms)
    decreases |ms|
  {
    hide Answering, Results, NonResults;
    if ms == [] {
    } else if !Answering(ms[0]) {
      GatheredFacts(ms[1..]);
      SplitParts([ms[0]], ms[1..]);
      SplitParts([ms[0]], Gathered(ms[1..]));
      assert ms == [ms[0]] + ms[1..];
    } else {
      var n := 1 + SpanLen(ms[1..]);
      var a, span, rest := ms[0], ms[1..n], ms[n..];
      GatheredFacts(rest);
      assert ms == ([a] + span) + rest;
      GatheredSpan(a, span);
      SplitParts([a] + span, rest);
      SplitParts([a] + (Results(span) + NonResults(span)), Gathered(rest));
    }
  }

  lemma {:induction false} SplitParts(x: seq<Message>, y: seq<Message>)
    ensures Results(x + y) == Results(x) + Results(y) && NonResults(x + y) == NonResults(x) + NonResults(y)
  {
    ResultsConcat(x, y);
    NonResultsConcat(x, y);
  }

  lemma {:induction false} GatheredSpan(a: Message, span: seq<Message>)
    ensures var g := [a] + (Results(span) + NonResults(span));
            |g| == 1 + |span| && Results(g) == Results([a] + span) && NonResults(g) == NonResults([a] + span)
  {
    hide Results, NonResults;
    var r, o := Results(span), NonResults(span);
    ResultsFacts(span);
    NonResultsHaveNoId(span);
    NonResultsUniform(o);
    NonResultsUniform(r);
    SplitParts([a], r + o);
    SplitParts(r, o);
    SplitParts([a], span);
    assert r + [] == r && [] + o == o;
  }

  // ----- one span -----

  /** The results of a span stand in the order of their calls, each call answered once. */
  ghost predicate SpanInOrder(calls: seq<Call>, span: seq<Message>)
  {
    forall j, k :: 0 <= j < k < |span| ==> Before(calls, span[j], span[k])
  }

  ghost predicate NeatSpan(calls: seq<Call>, span: seq<Message>, seen: set<string>)
  {
    SpanMatched(calls, span) && SpanFresh(span, seen) && SpanInOrder(calls, span)
  }

  lemma {:induction false} SpanInOrderCons(calls: seq<Call>, m: Message, rest: seq<Message>)
    ensures SpanInOrder(calls, [m] + rest) <==>
            SpanInOrder(calls, rest) && forall r :: r in rest ==> Before(calls, m, r)
  {
    hide Before;
    var s := [m] + rest;
    if SpanInOrder(calls, s) {
      forall r | r in rest ensures Before(calls, m, r) {
        var k :| 0 <= k < |rest| && rest[k] == r;
        assert s[0] == m && s[k + 1] == r;
      }
      forall j, k | 0 <= j < k < |rest| ensures Before(calls, rest[j], rest[k]) {
        assert rest[j] == s[j + 1] && rest[k] == s[k + 1];
      }
    }
    if SpanInOrder(calls, rest) && forall r :: r in rest ==> Before(calls, m, r) {
      forall j, k | 0 <= j < k < |s| ensures Before(calls, s[j], s[k]) {
        assert s[k] == rest[k - 1] && s[k] in rest && (j > 0 ==> s[j] == rest[j - 1]);
      }
    }
  }

  lemma {:induction false} OthersAnyOrder(calls: seq<Call>, x: Message, y: Message)
    ensures !x.ToolResult? || !y.ToolResult? ==> Before(calls, x, y)
  {
  }

  lemma {:induction false} InOrderResults(calls: seq<Call>, span: seq<Message>)
    ensures SpanInOrder(calls, span) <==> SpanInOrder(calls, Results(span))
    decreases |span|
  {
    hide SpanInOrder, Before;
    if span != [] {
      var m, rest := span[0], span[1..];
      assert span == [m] + rest;
      InOrderResults(calls, rest);
      ResultsFacts(rest);
      SpanInOrderCons(calls, m, rest);
      SpanInOrderCons(calls, m, Results(rest));
      forall r | r in rest ensures !m.ToolResult? || !r.ToolResult? ==> Before(calls, m, r) {
        OthersAnyOrder(calls, m, r);
      }
    }
  }

  /** A span is neat exactly when its results make a block the call loop could push. */
  lemma {:induction false} NeatBlock(calls: seq<Call>, span: seq<Message>, seen: set<string>)
    ensures NeatSpan(calls, span, seen) <==> ResultBlock(Results(span), calls, 0, seen)
  {
    hide Pos, ResultId, Results, CallIds;
    var block := Results(span);
    ResultsFacts(span);
    InOrderResults(calls, span);
    if NeatSpan(calls, span, seen) {
      forall k | 0 <= k < |block|
        ensures IsResult(block[k]) && RId(block[k]) !in seen && Pos(calls, RId(block[k])) < |calls|
      {
        assert block[k] in block && RId(block[k]) in ResultIds(span);
      }
    }
    if ResultBlock(block, calls, 0, seen) {
      forall m | m in span && m.ToolResult? ensures IsResult(m) && RId(m) in CallIds(calls) && RId(m) !in seen {
        var k :| 0 <= k < |block| && block[k] == m;
      }
      forall m | m in span && ResultId(m).Some? ensures ResultId(m).value !in seen { ResultIdOnlyOfResults(m); }
    }
  }

  lemma {:induction false} FirstAmongResults(span: seq<Message>, id: string)
    ensures FirstResult(span, id) == FirstResult(Results(span), id)
    decreases |span|
  {
    if span != [] { FirstAmongResults(span[1..], id); }
  }

  lemma {:induction false} NeatPushes(calls: seq<Call>, span: seq<Message>, seen: set<string>)
    requires NeatSpan(calls, span, seen) && forall c :: c in calls ==> c.id != ""
    ensures Pushes(calls, span, seen, seen, false).out == Results(span)
  {
    hide Pos, ResultId, Results, NeatSpan, Pushes, FirstResult;
    var block := Results(span);
    NeatBlock(calls, span, seen);
    ResultsFacts(span);
    forall k | 0 <= k < |block| ensures FirstResult(span, RId(block[k])) == Some(block[k]) {
      FirstAmongResults(span, RId(block[k]));
      assert forall j :: 0 <= j < k ==> RId(block[j]) != RId(block[k]);
      FirstOfDistinct(block, |block|, k);
    }
    assert block[..0] == [] && seen + {} == seen && ResultIds([]) == {};
    assert calls[0..] == calls && block[0..] == block;
    PushesReplay(calls, 0, span, block, 0, seen, seen);
  }

  /** A turn keeps everything and gathers its results exactly when its span is neat. */
  lemma {:induction false} TurnGathers(a: Message, span: seq<Message>, seen: set<string>)
    requires Answering(a)
    ensures Turn(a, span, seen, false).out == [a] + (Results(span) + NonResults(span)) <==>
            NeatSpan(Calls(a), span, seen)
    ensures NeatSpan(Calls(a), span, seen) ==> ResultIds(Turn(a, span, seen, false).out) == ResultIds(span)
  {
    hide Calls, Pushes, Results, NonResults, NeatSpan, ResultBlock, ResultIds, Answering;
    var calls := Calls(a);
    var pushed, r, o := Pushes(calls, span, seen, seen, false).out, Results(span), NonResults(span);
    assert ([a] + pushed) + o == [a] + (pushed + o);
    if Turn(a, span, seen, false).out == [a] + (r + o) {
      SameFront(a, pushed, r, o);
      assert calls[0..] == calls;
      PushesBlock(calls, 0, span, seen, seen, false);
      NeatBlock(calls, span, seen);
    }
    if NeatSpan(calls, span, seen) {
      NeatPushes(calls, span, seen);
      TurnResultIds(a, span, seen, false);
      ResultsFacts(span);
      SameIds(span);
    }
  }

  lemma {:induction false} SameFront(a: Message, x: seq<Message>, y: seq<Message>, o: seq<Message>)
    requires [a] + (x + o) == [a] + (y + o)
    ensures x == y
  {
    assert ([a] + (x + o))[1..] == x + o && ([a] + (y + o))[1..] == y + o;
    assert |x| == |y| && x == (x + o)[..|x|] && y == (y + o)[..|y|];
  }

  lemma {:induction false} SameIds(span: seq<Message>)
    ensures ResultIds(Results(span)) == ResultIds(span)
  {
    hide Results, ResultId;
    ResultsFacts(span);
    forall m | m in span && ResultId(m).Some? ensures m in Results(span) { ResultIdOnlyOfResults(m); }
  }

  // ----- the whole transcript -----

  ghost predicate Neat(s: seq<Message>)
  {
    NoOrphan(s) && OneSpan(s) && !OutOfOrder(s)
  }

  lemma {:induction false} InOrderFirst(s: seq<Message>, n: nat)
    requires Starts(s, n) && SpanMatched(Calls(s[0]), s[1..n]) && !OutOfOrder(s)
    ensures SpanInOrder(Calls(s[0]), s[1..n])
  {
    hide Answering, Calls, CallIds, ResultId, InSpan, Before;
    var span := s[1..n];
    forall j, k | 0 <= j < k < |span| ensures Before(Calls(s[0]), span[j], span[k]) {
      assert span[j] == s[j + 1] && span[k] == s[k + 1] && span[j] in span && span[k] in span;
      if span[j].ToolResult? && span[k].ToolResult? {
        FirstReply(s, n, j + 1);
        FirstReply(s, n, k + 1);
      } else {
        OthersAnyOrder(Calls(s[0]), span[j], span[k]);
      }
    }
  }

  lemma {:induction false} InOrderRest(s: seq<Message>, n: nat)
    requires n <= |s| && !OutOfOrder(s)
    ensures !OutOfOrder(s[n..])
  {
    hide Answering, Calls, CallIds, ResultId, InSpan, Before;
    var rest := s[n..];
    forall a, j, k | j < k && Reply(rest, a, j) && Reply(rest, a, k) ensures Before(Calls(rest[a]), rest[j], rest[k]) {
      ReplyShift(s, n, a, j);
      ReplyShift(s, n, a, k);
      assert rest[a] == s[n + a] && rest[j] == s[n + j] && rest[k] == s[n + k];
    }
  }

  lemma {:induction false} InOrderWhole(s: seq<Message>, n: nat)
    requires Starts(s, n) && SpanInOrder(Calls(s[0]), s[1..n]) && !OutOfOrder(s[n..])
    ensures !OutOfOrder(s)
  {
    hide Answering, Calls, CallIds, ResultId, InSpan, Before;
    var span, rest := s[1..n], s[n..];
    forall a, j, k | j < k && Reply(s, a, j) && Reply(s, a, k) ensures Before(Calls(s[a]), s[j], s[k]) {
      ReplySplit(s, n, a, j);
      ReplySplit(s, n, a, k);
      if n <= a {
        assert s[a] == rest[a - n] && s[j] == rest[j - n] && s[k] == rest[k - n];
      } else {
        assert s[j] == span[j - 1] && s[k] == span[k - 1];
      }
    }
  }

  lemma {:induction false} NeatSplit(s: seq<Message>, n: nat, seen: set<string>)
    requires Starts(s, n)
    ensures Neat(s) && Fresh(s, seen) <==>
            !s[0].ToolResult? && NeatSpan(Calls(s[0]), s[1..n], seen) && Neat(s[n..]) &&
            Fresh(s[n..], seen + ResultIds(s[1..n]))
  {
    hide Answering, Calls, NoOrphan, OneSpan, OutOfOrder, Fresh, SpanMatched, SpanFresh, SpanInOrder, ResultIds;
    NoOrphanSplit(s, n);
    if NoOrphan(s) {
      OneSpanSplit(s, n, seen);
      if !OutOfOrder(s) {
        InOrderFirst(s, n);
        InOrderRest(s, n);
      }
      if SpanInOrder(Calls(s[0]), s[1..n]) && !OutOfOrder(s[n..]) { InOrderWhole(s, n); }
    }
  }

  /** The rebuilt transcript is the gathered one exactly when the transcript is neat. */
  lemma {:induction false} RebuiltGatheredFrom(s: seq<Message>, seen: set<string>)
    ensures Repaired(s, seen, false).out == Gathered(s) <==> Neat(s) && Fresh(s, seen)
    decreases |s|
  {
    hide Repaired, Neat, Fresh, Gathered, Answering, SpanLen;
    if s == [] {
      RepairedDone(seen, false);
      NothingNeat(seen);
    } else if !Answering(s[0]) {
      RebuiltGatheredFrom(s[1..], seen);
      PlainGathers(s, seen);
    } else {
      var n := 1 + SpanLen(s[1..]);
      RebuiltGatheredFrom(s[n..], seen + ResultIds(Turn(s[0], s[1..n], seen, false).out));
      SpanGathers(s, n, seen);
    }
  }

  lemma {:induction false} PlainGathers(s: seq<Message>, seen: set<string>)
    requires s != [] && !Answering(s[0])
    requires Repaired(s[1..], seen, false).out == Gathered(s[1..]) <==> Neat(s[1..]) && Fresh(s[1..], seen)
    ensures Repaired(s, seen, false).out == Gathered(s) <==> Neat(s) && Fresh(s, seen)
  {
    hide Repaired, Neat, Fresh, Gathered, Answering, NeatSpan, ResultIds, Calls, Starts;
    var m, rest := s[0], s[1..];
    assert s == [m] + rest;
    RepairedUnfold(m, rest, seen, false);
    GatheredUnfold(s, 1);
    StartsPlain(s);
    NeatSplit(s, 1, seen);
    assert s[1..1] == [];
    NoneNeat(Calls(m), seen);
    SingleGathers(m, rest, seen);
  }

  lemma {:induction false} SpanGathers(s: seq<Message>, n: nat, seen: set<string>)
    requires s != [] && Answering(s[0]) && n == 1 + SpanLen(s[1..])
    requires var more, seen' := s[n..], seen + ResultIds(Turn(s[0], s[1..n], seen, false).out);
             Repaired(more, seen', false).out == Gathered(more) <==> Neat(more) && Fresh(more, seen')
    ensures Repaired(s, seen, false).out == Gathered(s) <==> Neat(s) && Fresh(s, seen)
  {
    hide Repaired, Neat, Fresh, Gathered, Answering, Turn, NeatSpan, ResultIds, SpanLen, Calls, Results, NonResults;
    hide Starts;
    var m, rest, span, more := s[0], s[1..], s[1..n], s[n..];
    assert s == [m] + rest && span == rest[..n - 1] && more == rest[n - 1..];
    RepairedUnfold(m, rest, seen, false);
    GatheredUnfold(s, n);
    StartsAt(s, n);
    NeatSplit(s, n, seen);
    AnsweringNotResult(m);
    TurnGathers(m, span, seen);
    var turn := Turn(m, span, seen, false);
    FrontsEqual(m, span, more, seen, Repaired(more, seen + ResultIds(turn.out), false).out,
        [m] + (Results(span) + NonResults(span)));
  }

  lemma {:induction false} GatheredUnfold(s: seq<Message>, n: nat)
    requires s != [] && (if Answering(s[0]) then n == 1 + SpanLen(s[1..]) else n == 1)
    ensures n <= |s| && Gathered(s) ==
            (if Answering(s[0]) then [s[0]] + (Results(s[1..n]) + NonResults(s[1..n])) else [s[0]]) + Gathered(s[n..])
  {
    hide Answering, Results, NonResults;
  }

  lemma {:induction false} FrontsEqual(m: Message, span: seq<Message>, more: seq<Message>, seen: set<string>,
      out: seq<Message>, g: seq<Message>)
    requires Answering(m) && g == [m] + (Results(span) + NonResults(span))
    requires out == Repaired(more, seen + ResultIds(Turn(m, span, seen, false).out), false).out
    ensures Turn(m, span, seen, false).out + out == g + Gathered(more) <==>
            Turn(m, span, seen, false).out == g && out == Gathered(more)
  {
    hide Turn, Repaired, Answering, ResultIds, Results, NonResults;
    var turn := Turn(m, span, seen, false).out;
    TurnConserves(m, span, seen);
    RebuiltNoLonger(more, seen + ResultIds(turn));
    GatheredFacts(more);
    GatheredSpan(m, span);
    assert |turn| == |multiset(turn)| <= |multiset([m] + span)| == 1 + |span| by { SmallerBag(turn, [m] + span); }
    if turn + out == g + Gathered(more) {
      assert |turn| == |g|;
      assert turn == (turn + out)[..|turn|] && g == (g + Gathered(more))[..|g|];
      assert out == (turn + out)[|turn|..] && Gathered(more) == (g + Gathered(more))[|g|..];
    }
  }

  lemma {:induction false} SmallerBag(x: seq<Message>, y: seq<Message>)
    requires multiset(x) <= multiset(y)
    ensures |x| <= |y|
  {
    assert multiset(y) == multiset(x) + (multiset(y) - multiset(x));
    assert |multiset(x)| == |x| && |multiset(y)| == |y|;
  }

  lemma {:induction false} SingleGathers(m: Message, rest: seq<Message>, seen: set<string>)
    requires !Answering(m)
    ensures Single(m).out + Repaired(rest, seen, false).out == [m] + Gathered(rest) <==>
            !m.ToolResult? && Repaired(rest, seen, false).out == Gathered(rest)
  {
    hide Repaired, Answering;
    var out := Repaired(rest, seen, false).out;
    RebuiltNoLonger(rest, seen);
    GatheredFacts(rest);
    assert ([m] + out)[1..] == out && ([m] + Gathered(rest))[1..] == Gathered(rest) && [] + out == out;
  }

  lemma {:induction false} StartsPlain(s: seq<Message>)
    requires s != [] && !Answering(s[0])
    ensures Starts(s, 1)
  {
  }

  lemma {:induction false} StartsAt(s: seq<Message>, n: nat)
    requires s != [] && Answering(s[0]) && n == 1 + SpanLen(s[1..])
    ensures Starts(s, n)
  {
  }

  lemma {:induction false} NoneNeat(calls: seq<Call>, seen: set<string>)
    ensures NeatSpan(calls, [], seen) && ResultIds([]) == {} && seen + {} == seen
  {
  }

  lemma {:induction false} NothingNeat(seen: set<string>)
    ensures Neat([]) && Fresh([], seen) && Gathered([]) == []
  {
  }

  /** In a transcript that mixes nothing, there is nothing to gather. */
  lemma {:induction false} UnmixedGathered(s: seq<Message>)
    requires NoOrphan(s) && Unmixed(s)
    ensures Gathered(s) == s
    decreases |s|
  {
    hide Gathered, Answering, Calls, NoOrphan, Unmixed, SpanMatched, SpanUnmixed, Results, NonResults, SpanLen;
    if s == [] {
      NothingNeat({});
    } else {
      var n := if Answering(s[0]) then 1 + SpanLen(s[1..]) else 1;
      if Answering(s[0]) { StartsAt(s, n); } else { StartsPlain(s); }
      NoOrphanSplit(s, n);
      UnmixedSplit(s, n);
      UnmixedGathered(s[n..]);
      GatheredUnfold(s, n);
      if Answering(s[0]) { UnmixedSpan(s[1..n]); }
      assert s == ([s[0]] + s[1..n]) + s[n..];
    }
  }

  lemma {:induction false} UnmixedSpan(span: seq<Message>)
    requires SpanUnmixed(span)
    ensures Results(span) + NonResults(span) == span
  {
    hide Results, NonResults;
    ResultsFacts(span);
    NonResultsUniform(span);
    if forall m :: m in span ==> m.ToolResult? {
      AllResults(span);
    } else {
      assert NonResults(span) == span && |Results(span)| == 0;
    }
  }

  lemma {:induction false} AllResults(span: seq<Message>)
    requires forall m :: m in span ==> m.ToolResult?
    ensures Results(span) == span
    decreases |span|
  {
    if span != [] { AllResults(span[1..]); }
  }

  /**
    Pairing keeps every message and only gathers results in front of their span's other messages if and only if
    the transcript is neat, every result in the span of its call, in call order and answering a call of its own,
    or is quiet.
  */
  lemma {:induction false} ReturnedGatheredIff(s: seq<Message>)
    ensures Returned(s, false) == Gathered(s) <==> Neat(s) || Quiet(s, false)
  {
    hide Repaired, Neat, Gathered, NoOrphan, Unmixed, OneSpan, CalledOnce;
    UnchangedIffQuiet(s, {}, false);
    FreshOfNone(s);
    RebuiltGatheredFrom(s, {});
    if Quiet(s, false) { UnmixedGathered(s); }
  }
}
