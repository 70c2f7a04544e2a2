/** What the pairing repair guarantees: shape, conservation, fixpoints. */
module TranscriptLaws {
  import opened Text
  import opened Transcript

  /** Position of the first call with this id; |calls| if there is none. */
  function Pos(calls: seq<Call>, id: string): (p: nat)
    ensures p <= |calls|
    ensures p < |calls| ==> calls[p].id == id
    ensures forall k :: 0 <= k < p ==> calls[k].id != id
    ensures p < |calls| <==> id in CallIds(calls)
  {
    if calls == [] then 0
    else if calls[0].id == id then (assert calls[0] in calls; 0)
    else 1 + Pos(calls[1..], id)
  }

  predicate IsResult(m: Message)
  {
    m.ToolResult? && ResultId(m).Some?
  }

  function RId(m: Message): string
    requires IsResult(m)
  {
    ResultId(m).value
  }

  // ----- predicates on transcripts -----

  /** s[k] answers a call of s[a], in the block of results right after s[a], in call order. */
  ghost predicate AnswersAt(s: seq<Message>, a: int, k: int)
    requires 0 <= a < k < |s|
  {
    && Answering(s[a])
    && (forall j :: a < j <= k ==> IsResult(s[j]))
    && RId(s[k]) in CallIds(Calls(s[a]))
    && (forall j :: a < j < k ==> Pos(Calls(s[a]), RId(s[j])) < Pos(Calls(s[a]), RId(s[k])))
  }

  /** Every tool result sits in the block right after the assistant that made its call, in call order. */
  ghost predicate Placed(s: seq<Message>)
  {
    forall k :: 0 <= k < |s| && s[k].ToolResult? ==> exists a :: 0 <= a < k && AnswersAt(s, a, k)
  }

  /** No result id occurs twice. */
  ghost predicate Distinct(s: seq<Message>)
  {
    forall j, k :: 0 <= j < k < |s| && IsResult(s[j]) && IsResult(s[k]) ==> RId(s[j]) != RId(s[k])
  }

  ghost predicate Fresh(s: seq<Message>, seen: set<string>)
  {
    forall k :: 0 <= k < |s| && IsResult(s[k]) ==> RId(s[k]) !in seen
  }

  /** s[k] lies in the span of s[a]: no assistant in between, and s[a] made its call. */
  ghost predicate InSpan(s: seq<Message>, a: int, k: int)
    requires 0 <= a < k < |s|
  {
    && Answering(s[a]) && IsResult(s[k]) && RId(s[k]) in CallIds(Calls(s[a]))
    && (forall j :: a < j <= k ==> !s[j].Assistant?)
  }

  ghost predicate NoOrphan(s: seq<Message>)
  {
    forall k :: 0 <= k < |s| && s[k].ToolResult? ==> exists a :: 0 <= a < k && InSpan(s, a, k)
  }

  lemma {:induction false} PlacedNoOrphan(s: seq<Message>)
    requires Placed(s)
    ensures NoOrphan(s)
  {
    forall k | 0 <= k < |s| && s[k].ToolResult? ensures exists a :: 0 <= a < k && InSpan(s, a, k) {
      var a :| 0 <= a < k && AnswersAt(s, a, k);
      assert InSpan(s, a, k);
    }
  }

  lemma {:induction false} PlacedConcat(x: seq<Message>, y: seq<Message>)
    requires Placed(x) && Placed(y)
    ensures Placed(x + y)
  {
    hide Answering, Calls, Pos, IsResult, RId, CallIds;
    var s := x + y;
    forall k | 0 <= k < |s| && s[k].ToolResult? ensures exists a :: 0 <= a < k && AnswersAt(s, a, k) {
      if k < |x| {
        var a :| 0 <= a < k && AnswersAt(x, a, k);
        assert AnswersAt(s, a, k);
      } else {
        var a :| 0 <= a < k - |x| && AnswersAt(y, a, k - |x|);
        AnswersShift(x, y, a, k - |x|);
      }
    }
  }

  lemma {:induction false} AnswersShift(x: seq<Message>, y: seq<Message>, a: nat, k: nat)
    requires a < k < |y| && AnswersAt(y, a, k)
    ensures AnswersAt(x + y, |x| + a, |x| + k)
  {
    hide Answering, Calls, Pos, IsResult, RId, CallIds;
    assert forall j :: |x| + a <= j <= |x| + k ==> (x + y)[j] == y[j - |x|];
  }

  lemma {:induction false} DistinctConcat(x: seq<Message>, y: seq<Message>, seen: set<string>)
    requires Distinct(x) && Distinct(y) && Fresh(x, seen) && Fresh(y, seen + ResultIds(x))
    ensures Distinct(x + y) && Fresh(x + y, seen)
  {
    var s := x + y;
    forall j, k | 0 <= j < k < |s| && IsResult(s[j]) && IsResult(s[k]) ensures RId(s[j]) != RId(s[k]) {
      if j < |x| <= k {
        assert x[j] in x && RId(x[j]) in ResultIds(x);
        assert s[k] == y[k - |x|];
      } else if |x| <= j {
        assert s[j] == y[j - |x|] && s[k] == y[k - |x|];
      }
    }
    forall k | 0 <= k < |s| && IsResult(s[k]) ensures RId(s[k]) !in seen {
      if |x| <= k { assert s[k] == y[k - |x|]; }
    }
  }

  // ----- the block of results a turn lays out -----

  ghost predicate HasAnswer(id: string, span: seq<Message>, seen0: set<string>, synth: bool)
  {
    synth || (id !in seen0 && FirstResult(span, id).Some?)
  }

  /** Of the calls before i, each is answered already or cannot be. */
  ghost predicate Settled(all: seq<Call>, i: int, span: seq<Message>, seen0: set<string>, seen: set<string>,
      synth: bool)
    requires i <= |all|
  {
    forall p :: 0 <= p < i ==> all[p].id in seen || !HasAnswer(all[p].id, span, seen0, synth)
  }

  ghost predicate ResultBlock(out: seq<Message>, all: seq<Call>, i: int, seen: set<string>)
  {
    && (forall k :: 0 <= k < |out| ==> IsResult(out[k]) && RId(out[k]) !in seen && i <= Pos(all, RId(out[k])) < |all|)
    && (forall j, k :: 0 <= j < k < |out| ==> Pos(all, RId(out[j])) < Pos(all, RId(out[k])))
  }

  lemma {:induction false} PosIs(all: seq<Call>, i: nat)
    requires i < |all|
    ensures Pos(all, all[i].id) <= i
    ensures (forall p :: 0 <= p < i ==> all[p].id != all[i].id) ==> Pos(all, all[i].id) == i
  {
  }

  /** One call of the loop: it pushes nothing, or a result of this call that was not seen. */
  lemma {:induction false} BlockStep(all: seq<Call>, i: nat, span: seq<Message>, seen0: set<string>, seen: set<string>,
      synth: bool)
    requires i < |all| && all[i].id != "" && seen0 <= seen && Settled(all, i, span, seen0, seen, synth)
    ensures var step := PushStep(all[i], span, seen0, seen, synth).out;
            && Settled(all, i + 1, span, seen0, seen + ResultIds(step), synth)
            && (HasAnswer(all[i].id, span, seen0, synth) ==> all[i].id in seen + ResultIds(step))
            && (step == [] || (|step| == 1 && IsResult(step[0]) && RId(step[0]) == all[i].id && all[i].id !in seen &&
                               Pos(all, all[i].id) == i && ResultIds(step) == {all[i].id}))
  {
    hide FirstResult, Pos;
    var step := PushStep(all[i], span, seen0, seen, synth);
    PushStepIds(all[i], span, seen0, seen, synth, []);
    PosIs(all, i);
    StepResult(all[i], span, seen0, seen, synth);
  }

  lemma {:induction false} StepResult(c: Call, span: seq<Message>, seen0: set<string>, seen: set<string>, synth: bool)
    requires c.id != "" && seen0 <= seen
    ensures var step := PushStep(c, span, seen0, seen, synth).out;
            && (step == [] <==> c.id in seen || !HasAnswer(c.id, span, seen0, synth))
            && (step != [] ==> |step| == 1 && IsResult(step[0]) && RId(step[0]) == c.id)
  {
    hide FirstResult;
  }

  lemma {:induction false} PushesBlock(all: seq<Call>, i: nat, span: seq<Message>, seen0: set<string>,
      seen: set<string>, synth: bool)
    requires i <= |all| && (forall c :: c in all ==> c.id != "")
    requires seen0 <= seen && Settled(all, i, span, seen0, seen, synth)
    ensures ResultBlock(Pushes(all[i..], span, seen0, seen, synth).out, all, i, seen)
    ensures forall p :: i <= p < |all| && HasAnswer(all[p].id, span, seen0, synth) ==>
              all[p].id in seen + ResultIds(Pushes(all[i..], span, seen0, seen, synth).out)
    decreases |all| - i
  {
    hide Pushes, PushStep, FirstResult, ResultIds, HasAnswer, Settled, ResultBlock, Pos, ResultId;
    if i == |all| {
      PushesDone(span, seen0, seen, synth);
      EmptyBlock(all, i, seen);
    } else {
      var c, rest := all[i], all[i + 1..];
      assert all[i..] == [c] + rest && c in all;
      PushesUnfold(c, rest, span, seen0, seen, synth);
      BlockStep(all, i, span, seen0, seen, synth);
      var step := PushStep(c, span, seen0, seen, synth).out;
      var seen' := seen + ResultIds(step);
      PushesBlock(all, i + 1, span, seen0, seen', synth);
      var more := Pushes(rest, span, seen0, seen', synth).out;
      ResultIdsConcat(step, more);
      assert seen' + ResultIds(more) == seen + ResultIds(step + more);
      if step != [] {
        assert step == [step[0]];
        BlockCons(step[0], more, all, i, seen);
      } else {
        assert step + more == more && seen' + ResultIds(more) == seen + ResultIds(more);
        MergeNothing(NOTHING);
        BlockLower(more, all, i, seen);
      }
    }
  }

  lemma {:induction false} EmptyBlock(all: seq<Call>, i: nat, seen: set<string>)
    ensures ResultBlock([], all, i, seen)
  {
  }

  lemma {:induction false} BlockLower(block: seq<Message>, all: seq<Call>, i: nat, seen: set<string>)
    requires ResultBlock(block, all, i + 1, seen + ResultIds([]))
    ensures ResultBlock(block, all, i, seen)
  {
    hide Pos;
  }

  lemma {:induction false} BlockCons(m: Message, more: seq<Message>, all: seq<Call>, i: nat, seen: set<string>)
    requires IsResult(m) && RId(m) !in seen && Pos(all, RId(m)) == i < |all|
    requires ResultBlock(more, all, i + 1, seen + {RId(m)})
    ensures ResultBlock([m] + more, all, i, seen)
  {
    hide Pos, IsResult, RId;
    var out := [m] + more;
    assert forall k :: 1 <= k < |out| ==> out[k] == more[k - 1];
    forall j, k | 0 <= j < k < |out| ensures Pos(all, RId(out[j])) < Pos(all, RId(out[k])) {
      if j > 0 { assert out[j] == more[j - 1]; }
    }
  }

  lemma {:induction false} TurnShape(a: Message, span: seq<Message>, seen: set<string>, synth: bool)
    requires Answering(a)
    ensures var out := Turn(a, span, seen, synth).out;
            Placed(out) && Distinct(out) && Fresh(out, seen)
    ensures synth ==> CallIds(Calls(a)) <= seen + ResultIds(Turn(a, span, seen, synth).out)
  {
    var calls := Calls(a);
    var block, rem := Pushes(calls, span, seen, seen, synth).out, NonResults(span);
    assert calls[0..] == calls;
    PushesBlock(calls, 0, span, seen, seen, synth);
    NonResultsHaveNoId(span);
    LaidOut(a, block, rem, seen);
    TurnResultIds(a, span, seen, synth);
    if synth {
      forall id | id in CallIds(calls) ensures id in seen + ResultIds(block) {
        var p := Pos(calls, id);
        assert calls[p].id == id;
      }
    }
  }

  lemma {:induction false} LaidOut(a: Message, block: seq<Message>, rem: seq<Message>, seen: set<string>)
    requires Answering(a) && ResultBlock(block, Calls(a), 0, seen) && forall m :: m in rem ==> !m.ToolResult?
    ensures var out := [a] + block + rem; Placed(out) && Distinct(out) && Fresh(out, seen)
  {
    hide Calls, Pos, CallIds, ResultId;
    var out := [a] + block + rem;
    assert forall k :: |block| < k < |out| ==> out[k] == rem[k - 1 - |block|] && out[k] in rem;
    assert forall k :: 0 < k <= |block| ==> out[k] == block[k - 1];
    forall k | 0 <= k < |out| && out[k].ToolResult? ensures exists a :: 0 <= a < k && AnswersAt(out, a, k) {
      assert forall j :: 0 < j <= k ==> out[j] == block[j - 1];
      assert AnswersAt(out, 0, k);
    }
  }

  // ----- the rebuilt transcript -----

  /** Shape of the rebuilt list: results in place, in call order, no id twice. */
  lemma {:induction false} RebuiltShape(ms: seq<Message>, seen: set<string>, synth: bool)
    ensures var out := Repaired(ms, seen, synth).out;
            Placed(out) && Distinct(out) && Fresh(out, seen)
    decreases |ms|
  {
    hide Placed, Distinct, Fresh, Turn, Answering;
    if ms == [] {
      EmptyShape(seen);
    } else {
      var m, rest := ms[0], ms[1..];
      assert ms == [m] + rest;
      RepairedUnfold(m, rest, seen, synth);
      if !Answering(m) {
        RebuiltShape(rest, seen, synth);
        SingleShape(m, seen);
        PlacedConcat(Single(m).out, Repaired(rest, seen, synth).out);
        assert seen + ResultIds(Single(m).out) == seen;
        DistinctConcat(Single(m).out, Repaired(rest, seen, synth).out, seen);
      } else {
        var n := SpanLen(rest);
        var turn := Turn(m, rest[..n], seen, synth);
        var seen' := seen + ResultIds(turn.out);
        RebuiltShape(rest[n..], seen', synth);
        TurnShape(m, rest[..n], seen, synth);
        PlacedConcat(turn.out, Repaired(rest[n..], seen', synth).out);
        DistinctConcat(turn.out, Repaired(rest[n..], seen', synth).out, seen);
      }
    }
  }

  lemma {:induction false} EmptyShape(seen: set<string>)
    ensures Placed([]) && Distinct([]) && Fresh([], seen)
  {
  }

  lemma {:induction false} SingleShape(m: Message, seen: set<string>)
    ensures Placed(Single(m).out) && Distinct(Single(m).out) && Fresh(Single(m).out, seen)
    ensures ResultIds(Single(m).out) == {}
  {
  }

  // ----- what is kept -----

  lemma {:induction false} NonResultsConcat(x: seq<Message>, y: seq<Message>)
    ensures NonResults(x + y) == NonResults(x) + NonResults(y)
  {
    if x != [] {
      assert (x + y)[1..] == x[1..] + y;
      NonResultsConcat(x[1..], y);
    } else {
      assert x + y == y;
    }
  }

  lemma {:induction false} NonResultsUniform(x: seq<Message>)
    ensures (forall m :: m in x ==> !m.ToolResult?) ==> NonResults(x) == x
    ensures (forall m :: m in x ==> m.ToolResult?) ==> NonResults(x) == []
  {
    if x != [] { NonResultsUniform(x[1..]); }
  }

  lemma {:induction false} TurnKeeps(a: Message, span: seq<Message>, seen: set<string>, synth: bool)
    requires Answering(a)
    ensures NonResults(Turn(a, span, seen, synth).out) == [a] + NonResults(span)
  {
    hide Pushes, NonResults, Pos;
    var calls := Calls(a);
    var block, rem := Pushes(calls, span, seen, seen, synth).out, NonResults(span);
    assert calls[0..] == calls;
    PushesBlock(calls, 0, span, seen, seen, synth);
    NonResultsHaveNoId(span);
    NonResultsUniform(block);
    NonResultsUniform(rem);
    NonResultsConcat([a] + block, rem);
    NonResultsConcat([a], block);
    NonResultsUniform([a]);
  }

  lemma {:induction false} KeptHead(m: Message)
    requires Answering(m)
    ensures NonResults([m]) == [m]
  {
  }

  /** Every message that is not a tool result is kept, in order, and nothing else of that kind appears. */
  lemma {:induction false} RebuiltKeepsNonResults(ms: seq<Message>, seen: set<string>, synth: bool)
    ensures NonResults(Repaired(ms, seen, synth).out) == NonResults(ms)
    decreases |ms|
  {
    hide Turn, NonResults, Answering, Repaired, SpanLen, ResultIds;
    NonResultsUniform([]);
    RepairedDone(seen, synth);
    if ms != [] {
      var m, rest := ms[0], ms[1..];
      assert ms == [m] + rest;
      RepairedUnfold(m, rest, seen, synth);
      if !Answering(m) {
        RebuiltKeepsNonResults(rest, seen, synth);
        NonResultsUniform([m]);
        NonResultsConcat(Single(m).out, Repaired(rest, seen, synth).out);
        NonResultsConcat([m], rest);
      } else {
        var n := SpanLen(rest);
        var turn := Turn(m, rest[..n], seen, synth);
        var seen' := seen + ResultIds(turn.out);
        RebuiltKeepsNonResults(rest[n..], seen', synth);
        TurnKeeps(m, rest[..n], seen, synth);
        KeptHead(m);
        NonResultsConcat([m], rest);
        NonResultsConcat(turn.out, Repaired(rest[n..], seen', synth).out);
        NonResultsConcat(rest[..n], rest[n..]);
        Cut(rest, n);
      }
    }
  }

  lemma {:induction false} CallsCovered(ms: seq<Message>, seen: set<string>, a: Message)
    requires a in ms && Answering(a)
    ensures CallIds(Calls(a)) <= seen + ResultIds(Repaired(ms, seen, true).out)
    decreases |ms|
  {
    hide Answering, Calls, CallIds, Turn, NonResults;
    var m, rest := ms[0], ms[1..];
    assert ms == [m] + rest;
    RepairedUnfold(m, rest, seen, true);
    if !Answering(m) {
      CallsCovered(rest, seen, a);
      ResultIdsConcat(Single(m).out, Repaired(rest, seen, true).out);
    } else {
      var n := SpanLen(rest);
      var turn := Turn(m, rest[..n], seen, true);
      var seen' := seen + ResultIds(turn.out);
      TurnShape(m, rest[..n], seen, true);
      ResultIdsConcat(turn.out, Repaired(rest[n..], seen', true).out);
      if a != m {
        AssistantAfterSpan(rest, a);
        CallsCovered(rest[n..], seen', a);
      }
    }
  }

  lemma {:induction false} AssistantAfterSpan(rest: seq<Message>, a: Message)
    requires a in rest && Answering(a)
    ensures a in rest[SpanLen(rest)..]
  {
    var n := SpanLen(rest);
    assert rest == rest[..n] + rest[n..];
  }

  lemma {:induction false} ResultIdsConcat(x: seq<Message>, y: seq<Message>)
    ensures ResultIds(x + y) == ResultIds(x) + ResultIds(y)
  {
    assert forall m :: m in x + y <==> m in x || m in y;
  }

  ghost predicate AnsweredOnce(s: seq<Message>, id: string, k: int)
  {
    && 0 <= k < |s| && IsResult(s[k]) && RId(s[k]) == id
    && forall j :: 0 <= j < |s| && IsResult(s[j]) && RId(s[j]) == id ==> j == k
  }

  /** With synthetic results, each call of a non-error assistant has exactly one result. */
  lemma {:induction false} RebuiltAnswersEachCall(ms: seq<Message>, out: seq<Message>, a: Message,
      c: Call) returns (k: nat)
    requires out == Repaired(ms, {}, true).out && a in out && Answering(a) && c in Calls(a)
    ensures AnsweredOnce(out, c.id, k)
  {
    hide Answering, Calls, Repaired, NonResults, Placed;
    AnsweringIn(out, a);
    RebuiltKeepsNonResults(ms, {}, true);
    NonResultsHaveNoId(ms);
    CallsCovered(ms, {}, a);
    assert c.id in CallIds(Calls(a));
    var m :| m in out && ResultId(m) == Some(c.id);
    k :| 0 <= k < |out| && out[k] == m;
    RebuiltShape(ms, {}, true);
  }

  lemma {:induction false} AnsweringIn(s: seq<Message>, a: Message)
    requires a in s && Answering(a)
    ensures a in NonResults(s)
  {
    if s[0] != a { AnsweringIn(s[1..], a); }
  }

  // ----- fixpoints and idempotence -----

  lemma {:induction false} PlacedTail(s: seq<Message>, n: nat)
    requires Placed(s) && 0 < n <= |s|
    requires n == |s| || s[n].Assistant? || (n == 1 && !Answering(s[0]))
    ensures Placed(s[n..])
  {
    hide Calls, Pos, CallIds;
    var t := s[n..];
    forall k | 0 <= k < |t| && t[k].ToolResult? ensures exists a :: 0 <= a < k && AnswersAt(t, a, k) {
      var a :| 0 <= a < n + k && AnswersAt(s, a, n + k);
      assert n <= a;
      assert forall j :: a <= j <= n + k ==> s[j] == t[j - n];
      assert AnswersAt(t, a - n, k);
    }
  }

  lemma {:induction false} IdInPrefix(s: seq<Message>, n: nat, id: string) returns (k: nat)
    requires n <= |s| && id in ResultIds(s[..n])
    ensures k < n && ResultId(s[k]) == Some(id)
  {
    var m :| m in s[..n] && ResultId(m) == Some(id);
    k :| 0 <= k < n && s[..n][k] == m;
  }

  lemma {:induction false} DistinctTail(s: seq<Message>, n: nat, seen: set<string>)
    requires n <= |s| && Distinct(s) && Fresh(s, seen)
    ensures Distinct(s[n..]) && Fresh(s[n..], seen + ResultIds(s[..n]))
  {
    var t := s[n..];
    forall k | 0 <= k < |t| && IsResult(t[k]) ensures RId(t[k]) !in seen + ResultIds(s[..n]) {
      assert t[k] == s[n + k];
      if RId(t[k]) in ResultIds(s[..n]) { var j := IdInPrefix(s, n, RId(t[k])); }
    }
  }

  function LeadingResults(span: seq<Message>): (n: nat)
    ensures n <= |span|
    ensures forall k :: 0 <= k < n ==> span[k].ToolResult?
    ensures n < |span| ==> !span[n].ToolResult?
  {
    if span == [] || !span[0].ToolResult? then 0 else 1 + LeadingResults(span[1..])
  }

  /** In a well-placed transcript, the span of an assistant is a block of results and then none. */
  lemma {:induction false} SpanSplits(s: seq<Message>, n: nat, b: nat)
    requires Placed(s) && s != [] && Answering(s[0])
    requires n == SpanLen(s[1..]) && b == LeadingResults(s[1..1 + n])
    ensures forall k :: b < k <= n ==> !s[k].ToolResult?
    ensures forall k :: 1 <= k <= b ==> AnswersAt(s, 0, k)
  {
    var span := s[1..1 + n];
    assert forall k :: 1 <= k <= n ==> s[k] == s[1..][k - 1] && s[k] == span[k - 1];
    forall k | 1 <= k <= n && s[k].ToolResult? ensures AnswersAt(s, 0, k) {
      var a :| 0 <= a < k && AnswersAt(s, a, k);
      assert a == 0;
    }
    forall k | b < k <= n ensures !s[k].ToolResult? {
      assert !s[b + 1].ToolResult?;
    }
  }

  /** The block replays: b of its results are pushed when the loop is at call i. */
  ghost predicate Replaying(all: seq<Call>, i: nat, block: seq<Message>, b: nat, seen0: set<string>, seen: set<string>)
  {
    && i <= |all| && b <= |block| && ResultBlock(block, all, 0, seen0)
    && seen == seen0 + ResultIds(block[..b])
    && (forall k :: 0 <= k < b ==> Pos(all, RId(block[k])) < i)
    && (forall k :: b <= k < |block| ==> i <= Pos(all, RId(block[k])))
  }

  lemma {:induction false} PushesReplay(all: seq<Call>, i: nat, span: seq<Message>, block: seq<Message>, b: nat,
      seen0: set<string>, seen: set<string>)
    requires Replaying(all, i, block, b, seen0, seen) && forall c :: c in all ==> c.id != ""
    requires forall k :: 0 <= k < |block| ==> FirstResult(span, RId(block[k])) == Some(block[k])
    requires forall m :: m in span && IsResult(m) ==> m in block
    ensures Pushes(all[i..], span, seen0, seen, false).out == block[b..]
    decreases |all| - i
  {
    hide ResultIds, FirstResult, PushStep, Pos, ResultId, Pushes, Replaying;
    ReplayBounds(all, i, block, b, seen0, seen);
    if i == |all| {
      PushesDone(span, seen0, seen, false);
      assert all[i..] == [] && block[b..] == [];
    } else {
      var c, rest := all[i], all[i + 1..];
      assert all[i..] == [c] + rest && c in all;
      PushesUnfold(c, rest, span, seen0, seen, false);
      var step := PushStep(c, span, seen0, seen, false);
      if b < |block| && Pos(all, RId(block[b])) == i {
        ReplayPush(all, i, span, block, b, seen0, seen);
        PushesReplay(all, i + 1, span, block, b + 1, seen0, seen + ResultIds(step.out));
        assert block[b..] == [block[b]] + block[b + 1..];
      } else {
        ReplaySkip(all, i, span, block, b, seen0, seen);
        PushesReplay(all, i + 1, span, block, b, seen0, seen + ResultIds(step.out));
        assert [] + block[b..] == block[b..];
      }
    }
  }

  lemma {:induction false} ReplayBounds(all: seq<Call>, i: nat, block: seq<Message>, b: nat, seen0: set<string>,
      seen: set<string>)
    requires Replaying(all, i, block, b, seen0, seen)
    ensures i <= |all| && b <= |block| && (i == |all| ==> b == |block|)
    ensures forall k :: 0 <= k < |block| ==> IsResult(block[k])
  {
    hide Pos, ResultId;
    assert b < |block| ==> i <= Pos(all, RId(block[b])) < |all|;
  }

  lemma {:induction false} ReplayPush(all: seq<Call>, i: nat, span: seq<Message>, block: seq<Message>, b: nat,
      seen0: set<string>, seen: set<string>)
    requires Replaying(all, i, block, b, seen0, seen) && b < |block| && Pos(all, RId(block[b])) == i < |all|
    requires FirstResult(span, RId(block[b])) == Some(block[b]) && all[i].id != ""
    ensures var step := PushStep(all[i], span, seen0, seen, false);
            step.out == [block[b]] && Replaying(all, i + 1, block, b + 1, seen0, seen + ResultIds(step.out))
  {
    var id := RId(block[b]);
    if id in ResultIds(block[..b]) { var k := IdInPrefix(block, b, id); }
    assert block[..b + 1] == block[..b] + [block[b]];
    ResultIdsConcat(block[..b], [block[b]]);
  }

  lemma {:induction false} ReplaySkip(all: seq<Call>, i: nat, span: seq<Message>, block: seq<Message>, b: nat,
      seen0: set<string>, seen: set<string>)
    requires Replaying(all, i, block, b, seen0, seen) && i < |all|
    requires b == |block| || Pos(all, RId(block[b])) != i
    requires forall m :: m in span && IsResult(m) ==> m in block
    ensures var step := PushStep(all[i], span, seen0, seen, false);
            step.out == [] && Replaying(all, i + 1, block, b, seen0, seen + ResultIds(step.out))
  {
    hide Pos, FirstResult;
    var id := all[i].id;
    PosIs(all, i);
    assert id in seen || FirstResult(span, id).None? by {
      if FirstResult(span, id).Some? {
        var m := FirstResult(span, id).value;
        var k :| 0 <= k < |block| && block[k] == m;
        assert k < b;
        assert block[..b][k] == m && m in block[..b];
      }
    }
    assert PushStep(all[i], span, seen0, seen, false).out == [];
    assert seen + ResultIds([]) == seen;
  }

  lemma {:induction false} FirstOfDistinct(span: seq<Message>, b: nat, k: nat)
    requires k < b <= |span| && (forall j :: 0 <= j < b ==> IsResult(span[j]))
    requires forall j :: 0 <= j < k ==> RId(span[j]) != RId(span[k])
    ensures FirstResult(span, RId(span[k])) == Some(span[k])
  {
    if k > 0 { FirstOfDistinct(span[1..], b - 1, k - 1); }
  }

  lemma {:induction false} SpanBlock(s: seq<Message>, n: nat, b: nat, span: seq<Message>, seen: set<string>)
    requires Placed(s) && Distinct(s) && Fresh(s, seen) && s != [] && Answering(s[0])
    requires n == SpanLen(s[1..]) && span == s[1..1 + n] && b == LeadingResults(span)
    ensures ResultBlock(span[..b], Calls(s[0]), 0, seen)
    ensures forall k :: 0 <= k < b ==> FirstResult(span, RId(span[k])) == Some(span[k])
    ensures forall k :: b <= k < |span| ==> !span[k].ToolResult?
  {
    hide Answering, Calls, FirstResult, Placed, SpanLen, LeadingResults, ResultId;
    SpanSplits(s, n, b);
    assert forall k :: 0 <= k < n ==> span[k] == s[k + 1];
    forall k | 0 <= k < b ensures IsResult(span[k]) && RId(span[k]) !in seen &&
        Pos(Calls(s[0]), RId(span[k])) < |Calls(s[0])| {
      assert AnswersAt(s, 0, k + 1);
    }
    forall j, k | 0 <= j < k < b ensures Pos(Calls(s[0]), RId(span[j])) < Pos(Calls(s[0]), RId(span[k])) {
      assert AnswersAt(s, 0, k + 1) && s[j + 1] == span[j];
    }
    forall k | 0 <= k < b ensures FirstResult(span, RId(span[k])) == Some(span[k]) {
      FirstOfDistinct(span, b, k);
    }
  }

  lemma {:induction false} TurnReplays(s: seq<Message>, n: nat, seen: set<string>)
    requires Placed(s) && Distinct(s) && Fresh(s, seen) && s != [] && Answering(s[0]) && n == SpanLen(s[1..])
    ensures Turn(s[0], s[1..1 + n], seen, false).out == s[..1 + n]
  {
    hide Answering, Calls, FirstResult, Placed, Distinct, Fresh, SpanLen, Pushes, NonResults, ResultIds,
        ResultBlock, LeadingResults;
    var span, calls := s[1..1 + n], Calls(s[0]);
    var b := LeadingResults(span);
    SpanBlock(s, n, b, span, seen);
    var block, rem := span[..b], span[b..];
    Cut(span, b);
    BlockReplays(calls, span, block, rem, seen);
    BlockThenRest(s[0], block, rem, seen);
    assert s[..1 + n] == [s[0]] + span;
  }

  lemma {:induction false} BlockThenRest(a: Message, block: seq<Message>, rem: seq<Message>, seen: set<string>)
    requires (forall m :: m in block ==> m.ToolResult?) && (forall m :: m in rem ==> !m.ToolResult?)
    requires Pushes(Calls(a), block + rem, seen, seen, false).out == block
    ensures Turn(a, block + rem, seen, false).out == [a] + (block + rem)
  {
    hide Pushes, NonResults;
    NonResultsConcat(block, rem);
    NonResultsUniform(block);
    NonResultsUniform(rem);
  }

  lemma {:induction false} BlockReplays(calls: seq<Call>, span: seq<Message>, block: seq<Message>,
      rem: seq<Message>, seen: set<string>)
    requires span == block + rem && (forall m :: m in rem ==> !m.ToolResult?)
    requires ResultBlock(block, calls, 0, seen) && forall c :: c in calls ==> c.id != ""
    requires forall k :: 0 <= k < |block| ==> FirstResult(span, RId(block[k])) == Some(block[k])
    ensures Pushes(calls, span, seen, seen, false).out == block
  {
    hide FirstResult, Pushes;
    assert block[..0] == [] && block[0..] == block && calls[0..] == calls && seen + ResultIds([]) == seen;
    assert forall m :: m in span ==> m in block || m in rem;
    PushesReplay(calls, 0, span, block, 0, seen, seen);
  }

  /** A transcript in shape is left as it is. */
  lemma {:induction false} ShapedIsFixed(s: seq<Message>, seen: set<string>)
    requires Placed(s) && Distinct(s) && Fresh(s, seen)
    ensures Repaired(s, seen, false).out == s
    decreases |s|
  {
    hide Placed, Distinct, Fresh, Answering, Turn, SpanLen, ResultIds, Repaired;
    RepairedDone(seen, false);
    if s != [] {
      var m, rest := s[0], s[1..];
      assert s == [m] + rest;
      RepairedUnfold(m, rest, seen, false);
      if !Answering(m) {
        PlacedTail(s, 1);
        DistinctTail(s, 1, seen);
        HeadNotResult(s, seen);
        ShapedIsFixed(rest, seen);
      } else {
        var n := SpanLen(rest);
        assert rest[..n] == s[1..1 + n] && rest[n..] == s[1 + n..];
        TurnReplays(s, n, seen);
        PlacedTail(s, 1 + n);
        DistinctTail(s, 1 + n, seen);
        ShapedIsFixed(rest[n..], seen + ResultIds(s[..1 + n]));
        Cut(s, 1 + n);
      }
    }
  }

  lemma {:induction false} Cut(s: seq<Message>, n: nat)
    requires n <= |s|
    ensures s == s[..n] + s[n..]
  {
  }

  lemma {:induction false} HeadNotResult(s: seq<Message>, seen: set<string>)
    requires Placed(s) && s != []
    ensures !s[0].ToolResult? && seen + ResultIds(s[..1]) == seen
  {
  }

  /** The transcripts that pairing leaves alone are exactly those in shape. */
  lemma {:induction false} FixedIffShaped(s: seq<Message>)
    ensures Repaired(s, {}, false).out == s <==> Placed(s) && Distinct(s)
  {
    RebuiltShape(s, {}, false);
    if Placed(s) && Distinct(s) { ShapedIsFixed(s, {}); }
  }

  lemma {:induction false} RepairIdempotent(ms: seq<Message>, synth: bool)
    ensures Repaired(Repaired(ms, {}, synth).out, {}, false).out == Repaired(ms, {}, synth).out
    ensures Returned(Returned(ms, false), false) == Returned(ms, false)
  {
    hide Repaired, Placed, Distinct;
    RebuiltShape(ms, {}, synth);
    RebuiltShape(ms, {}, false);
    FixedIffShaped(Repaired(ms, {}, synth).out);
    FixedIffShaped(Repaired(ms, {}, false).out);
  }

  // ----- conservation -----

  lemma {:induction false} NonResultsCount(s: seq<Message>, m: Message)
    ensures multiset(NonResults(s))[m] == if m.ToolResult? then 0 else multiset(s)[m]
  {
    if s != [] {
      assert s == [s[0]] + s[1..];
      NonResultsCount(s[1..], m);
    }
  }

  lemma {:induction false} DistinctCount(s: seq<Message>, m: Message)
    requires (forall k :: 0 <= k < |s| ==> IsResult(s[k])) && Distinct(s)
    ensures multiset(s)[m] <= 1
  {
    if s != [] {
      var t := s[1..];
      assert s == [s[0]] + t;
      DistinctCount(t, m);
      if m == s[0] { assert m !in t; }
    }
  }

  lemma {:induction false} PushedFromSpan(calls: seq<Call>, span: seq<Message>, seen0: set<string>, seen: set<string>)
    ensures forall m :: m in Pushes(calls, span, seen0, seen, false).out ==> m in span
    decreases |calls|
  {
    if calls != [] {
      var step := PushStep(calls[0], span, seen0, seen, false);
      PushedFromSpan(calls[1..], span, seen0, seen + ResultIds(step.out));
    }
  }

  lemma {:induction false} TurnConserves(a: Message, span: seq<Message>, seen: set<string>)
    requires Answering(a)
    ensures multiset(Turn(a, span, seen, false).out) <= multiset([a] + span)
  {
    hide Pushes, NonResults, Pos;
    var calls := Calls(a);
    var block, rem := Pushes(calls, span, seen, seen, false).out, NonResults(span);
    assert calls[0..] == calls;
    PushesBlock(calls, 0, span, seen, seen, false);
    PushedFromSpan(calls, span, seen, seen);
    assert Distinct(block);
    forall m ensures multiset(block)[m] + multiset(rem)[m] <= multiset(span)[m] {
      NonResultsCount(span, m);
      DistinctCount(block, m);
      assert m in block ==> m.ToolResult? && m in span;
    }
  }

  lemma {:induction false} BagConcat(a: seq<Message>, b: seq<Message>, c: seq<Message>, d: seq<Message>)
    requires multiset(a) <= multiset(b) && multiset(c) <= multiset(d)
    ensures multiset(a + c) <= multiset(b + d)
  {
  }

  /** Without synthetic results nothing is invented or copied. */
  lemma {:induction false} RebuiltConserves(ms: seq<Message>, seen: set<string>)
    ensures multiset(Repaired(ms, seen, false).out) <= multiset(ms)
    decreases |ms|
  {
    hide Turn, Answering, SpanLen, ResultIds, Repaired;
    RepairedDone(seen, false);
    if ms != [] {
      var m, rest := ms[0], ms[1..];
      assert ms == [m] + rest;
      RepairedUnfold(m, rest, seen, false);
      if !Answering(m) {
        RebuiltConserves(rest, seen);
        BagConcat(Single(m).out, [m], Repaired(rest, seen, false).out, rest);
      } else {
        var n := SpanLen(rest);
        var turn := Turn(m, rest[..n], seen, false);
        RebuiltConserves(rest[n..], seen + ResultIds(turn.out));
        TurnConserves(m, rest[..n], seen);
        BagConcat(turn.out, [m] + rest[..n], Repaired(rest[n..], seen + ResultIds(turn.out), false).out, rest[n..]);
        assert ms == ([m] + rest[..n]) + rest[n..];
      }
    }
  }

  lemma {:induction false} RebuiltNoLonger(ms: seq<Message>, seen: set<string>)
    ensures |Repaired(ms, seen, false).out| <= |ms|
  {
    hide Repaired;
    RebuiltConserves(ms, seen);
    var out := Repaired(ms, seen, false).out;
    assert multiset(ms) == multiset(out) + (multiset(ms) - multiset(out));
    assert |multiset(ms)| == |ms| && |multiset(out)| == |out|;
  }
}
