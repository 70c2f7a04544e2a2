/** The pairing repair, said on the fields of the messages. */
module PairingFields {
  import opened Text
  import opened Transcript
  import opened TranscriptLaws
  import opened QuietRepair

  // ----- calls, results and spans, read off the fields -----

  ghost predicate AskedBy(b: Block, id: string)
  {
    && id != "" && b.Record? && b.id == Some(id)
    && (b.kind == ToolCallKind || b.kind == ToolUseKind || b.kind == FunctionCallKind)
  }

  ghost predicate AskedAt(blocks: seq<Block>, i: int, id: string)
  {
    0 <= i < |blocks| && AskedBy(blocks[i], id)
  }

  /** Block `i` is the first that asks for a result with this id. */
  ghost predicate FirstAsked(blocks: seq<Block>, i: int, id: string)
  {
    AskedAt(blocks, i, id) && forall j :: 0 <= j < i ==> !AskedBy(blocks[j], id)
  }

  /** An assistant that was not cut short asks for a result with this id. */
  ghost predicate Asks(m: Message, id: string)
  {
    && m.Assistant? && m.stop != Errored && m.stop != Aborted
    && m.content.Some? && exists i :: AskedAt(m.content.value, i, id)
  }

  ghost predicate Answers(m: Message, id: string)
  {
    && m.ToolResult? && id != ""
    && (m.toolCallId == Some(id) || (m.toolCallId in {None, Some("")} && m.toolUseId == Some(id)))
  }

  /** s[a] is the last assistant before s[k]. */
  ghost predicate LastBefore(s: seq<Message>, a: int, k: int)
  {
    0 <= a < k < |s| && s[a].Assistant? && forall j :: a < j < k ==> !s[j].Assistant?
  }

  lemma {:induction false} CallsAsked(blocks: seq<Block>, id: string)
    ensures id in CallIds(CallsOf(blocks)) <==> exists i :: AskedAt(blocks, i, id)
  {
    if blocks != [] {
      var b, rest := blocks[0], blocks[1..];
      CallsAsked(rest, id);
      AskedCons(b, rest, id);
      assert blocks == [b] + rest;
      CallIdsCons(b, rest);
      OwnIff(b, id);
    } else {
      assert CallIds(CallsOf(blocks)) == {};
    }
  }

  lemma {:induction false} AskedCons(b: Block, rest: seq<Block>, id: string)
    ensures (exists i :: AskedAt([b] + rest, i, id)) <==> AskedBy(b, id) || exists i :: AskedAt(rest, i, id)
  {
    var all := [b] + rest;
    if AskedBy(b, id) { assert AskedAt(all, 0, id); }
    if i :| AskedAt(rest, i, id) { assert AskedAt(all, i + 1, id); }
    if i :| AskedAt(all, i, id) { assert AskedBy(b, id) || AskedAt(rest, i - 1, id); }
  }

  /** The call a block makes, if any. */
  function Own(b: Block): (calls: seq<Call>)
    ensures |calls| <= 1
  {
    if IsToolCall(b) && b.id.Some? && b.id.value != "" then [Call(b.id.value, b.name)] else []
  }

  lemma {:induction false} OwnIff(b: Block, id: string)
    ensures AskedBy(b, id) <==> Own(b) == [Call(id, if b.Record? then b.name else None)]
    ensures AskedBy(b, id) <==> exists c :: c in Own(b) && c.id == id
  {
    if AskedBy(b, id) { assert Own(b)[0] in Own(b); }
  }

  lemma {:induction false} CallIdsCons(b: Block, rest: seq<Block>)
    ensures CallsOf([b] + rest) == Own(b) + CallsOf(rest)
    ensures CallIds(CallsOf([b] + rest)) == CallIds(Own(b)) + CallIds(CallsOf(rest))
  {
    assert ([b] + rest)[1..] == rest;
    assert forall c :: c in Own(b) + CallsOf(rest) <==> c in Own(b) || c in CallsOf(rest);
  }

  lemma {:induction false} AskedTail(b: Block, rest: seq<Block>, i: nat, id: string)
    requires FirstAsked([b] + rest, i, id)
    ensures i > 0 ==> FirstAsked(rest, i - 1, id) && forall c :: c in Own(b) ==> c.id != id
    ensures i == 0 ==> Own(b) == [Call(id, b.name)]
  {
    var all := [b] + rest;
    OwnIff(b, id);
    if i > 0 {
      assert all[i] == rest[i - 1] && all[0] == b;
      assert forall j :: 0 <= j < i - 1 ==> rest[j] == all[j + 1];
    }
  }

  /** The first call of an id is that of the first block that asks for it. */
  lemma {:induction false} FirstCall(blocks: seq<Block>, i: nat, id: string)
    requires FirstAsked(blocks, i, id)
    ensures var calls := CallsOf(blocks); var p := Pos(calls, id);
            p < |calls| && calls[p] == Call(id, blocks[i].name)
  {
    hide CallsOf, Own, AskedBy, CallIds;
    var b, rest := blocks[0], blocks[1..];
    assert blocks == [b] + rest;
    CallIdsCons(b, rest);
    AskedTail(b, rest, i, id);
    if i > 0 {
      FirstCall(rest, i - 1, id);
      PosCons(Own(b), CallsOf(rest), id);
    }
  }

  lemma {:induction false} PosCons(x: seq<Call>, calls: seq<Call>, id: string)
    requires |x| <= 1 && forall c :: c in x ==> c.id != id
    ensures Pos(x + calls, id) == |x| + Pos(calls, id)
  {
    if x == [] {
      assert x + calls == calls;
    } else {
      assert (x + calls)[1..] == calls && (x + calls)[0] == x[0];
    }
  }

  /** Calls stand in the order of the blocks that first ask for them. */
  lemma {:induction false} CallOrder(blocks: seq<Block>, i: nat, j: nat, x: string, y: string)
    requires FirstAsked(blocks, i, x) && FirstAsked(blocks, j, y)
    ensures i < j ==> Pos(CallsOf(blocks), x) < Pos(CallsOf(blocks), y)
  {
    hide CallsOf, Own, AskedBy, CallIds, Pos;
    if i < j {
      var b, rest := blocks[0], blocks[1..];
      assert blocks == [b] + rest;
      CallIdsCons(b, rest);
      AskedTail(b, rest, i, x);
      AskedTail(b, rest, j, y);
      PosCons(Own(b), CallsOf(rest), y);
      if i > 0 {
        CallOrder(rest, i - 1, j - 1, x, y);
        PosCons(Own(b), CallsOf(rest), x);
      } else {
        assert (Own(b) + CallsOf(rest))[0].id == x;
      }
    }
  }

  lemma {:induction false} FirstOf(blocks: seq<Block>, id: string) returns (i: nat)
    requires exists i :: AskedAt(blocks, i, id)
    ensures FirstAsked(blocks, i, id)
  {
    var b, rest := blocks[0], blocks[1..];
    assert blocks == [b] + rest;
    if AskedBy(b, id) {
      i := 0;
    } else {
      AskedCons(b, rest, id);
      i := FirstOf(rest, id);
      assert forall k :: 0 < k < |blocks| ==> blocks[k] == rest[k - 1];
      i := i + 1;
    }
  }

  /** The repair's own notions are those of the fields. */
  lemma {:induction false} AsksIff(m: Message, id: string)
    ensures Asks(m, id) <==> Answering(m) && id in CallIds(Calls(m))
    ensures Answers(m, id) <==> ResultId(m) == Some(id)
  {
    if m.Assistant? && m.content.Some? { CallsAsked(m.content.value, id); }
  }

  /** A result of the list lies in the span of an assistant that asked for it. */
  lemma {:induction false} OwnerAsks(s: seq<Message>, k: nat, a: nat)
    requires NoOrphan(s) && k < |s| && s[k].ToolResult? && LastBefore(s, a, k)
    ensures IsResult(s[k]) && InSpan(s, a, k) && Asks(s[a], RId(s[k])) && Answers(s[k], RId(s[k]))
  {
    hide Asks, Answers, Answering, Calls, ResultId;
    var b :| 0 <= b < k && InSpan(s, b, k);
    AsksIff(s[b], RId(s[k]));
    AsksIff(s[k], RId(s[k]));
    AnsweringAssistant(s[b]);
    assert a == b;
  }

  /**
    Rebuilt or not, every result of the returned list answers a call of the last assistant before it, which was
    neither errored nor aborted; so behind an errored or aborted assistant no result stands before the next one.
  */
  lemma {:induction false} ReturnedOwners(ms: seq<Message>, synth: bool)
    ensures forall out :: out in {Repaired(ms, {}, synth).out, Returned(ms, synth)} ==> OwnersAsk(out)
  {
    hide Asks, Answers, InSpan, Placed, Repaired;
    RebuiltShape(ms, {}, synth);
    PlacedNoOrphan(Repaired(ms, {}, synth).out);
    ReturnedNoOrphan(ms, synth);
    forall out | out in {Repaired(ms, {}, synth).out, Returned(ms, synth)} ensures OwnersAsk(out) {
      NoOrphanOwners(out);
    }
  }

  ghost predicate OwnersAsk(s: seq<Message>)
  {
    && (forall k :: 0 <= k < |s| && s[k].ToolResult? ==> exists a :: LastBefore(s, a, k))
    && (forall a, k :: LastBefore(s, a, k) && s[k].ToolResult? ==> exists id :: Asks(s[a], id) && Answers(s[k], id))
    && (forall a, k :: LastBefore(s, a, k) && s[a].stop in {Errored, Aborted} ==> !s[k].ToolResult?)
  }

  lemma {:induction false} NoOrphanOwners(s: seq<Message>)
    requires NoOrphan(s)
    ensures OwnersAsk(s)
  {
    hide Answers, Answering, Calls, ResultId;
    forall k | 0 <= k < |s| && s[k].ToolResult? ensures exists a :: LastBefore(s, a, k) {
      var a :| 0 <= a < k && InSpan(s, a, k);
      AnsweringAssistant(s[a]);
      assert LastBefore(s, a, k);
    }
    forall a, k | LastBefore(s, a, k) && s[k].ToolResult? ensures exists id :: Asks(s[a], id) && Answers(s[k], id) {
      OwnerAsks(s, k, a);
    }
    forall a, k | LastBefore(s, a, k) && s[k].ToolResult? ensures s[a].stop !in {Errored, Aborted} {
      OwnerAsks(s, k, a);
    }
  }

  /** In the rebuilt list results stand right behind their assistant, in the order of the blocks that ask for them. */
  lemma {:induction false} RebuiltInBlockOrder(ms: seq<Message>, synth: bool, a: int, j: int, k: int)
    requires var out := Repaired(ms, {}, synth).out; LastBefore(out, a, k) && out[k].ToolResult? && a < j < k
    ensures var out := Repaired(ms, {}, synth).out;
            && out[j].ToolResult? && out[a].content.Some?
            && forall x, y, i, i' :: (Answers(out[j], x) && Answers(out[k], y) &&
                 FirstAsked(out[a].content.value, i, x) && FirstAsked(out[a].content.value, i', y)) ==> i < i'
  {
    hide Answers, Answering, Repaired, ResultId, FirstAsked, CallIds, Pos;
    var out := Repaired(ms, {}, synth).out;
    RebuiltShape(ms, {}, synth);
    var b :| 0 <= b < k && AnswersAt(out, b, k);
    AnsweringAssistant(out[b]);
    assert a == b;
    AnsweringHasBlocks(out[a]);
    forall x, y, i, i' | Answers(out[j], x) && Answers(out[k], y) &&
                         FirstAsked(out[a].content.value, i, x) && FirstAsked(out[a].content.value, i', y)
      ensures i < i'
    {
      AsksIff(out[j], x);
      AsksIff(out[k], y);
      InOrder(out[a].content.value, i, i', x, y);
    }
  }

  lemma {:induction false} AnsweringHasBlocks(m: Message)
    requires Answering(m)
    ensures m.content.Some? && Calls(m) == CallsOf(m.content.value)
  {
  }

  lemma {:induction false} InOrder(blocks: seq<Block>, i: int, j: int, x: string, y: string)
    requires FirstAsked(blocks, i, x) && FirstAsked(blocks, j, y) && Pos(CallsOf(blocks), x) < Pos(CallsOf(blocks), y)
    ensures i < j
  {
    hide Pos, CallsOf;
    if j < i { CallOrder(blocks, j, i, y, x); }
  }

  // ----- which results the rebuilt list holds -----

  /** s[k] is the first result with this id between s[a] and the next assistant. */
  ghost predicate FirstInSpan(s: seq<Message>, a: int, k: int, id: string)
  {
    && LastBefore(s, a, k) && Answers(s[k], id)
    && forall j :: a < j < k ==> !Answers(s[j], id)
  }

  ghost predicate Answered(s: seq<Message>, a: int, id: string)
  {
    exists k :: FirstInSpan(s, a, k, id)
  }

  /** s[a] asks for the id and can be given a result: one of its span, or a synthetic one if these are allowed. */
  ghost predicate Served(s: seq<Message>, a: int, id: string, synth: bool)
  {
    0 <= a < |s| && Asks(s[a], id) && (synth || Answered(s, a, id))
  }

  /** The result made up for the id: it names the tool of the first block that asks. */
  ghost predicate MadeUp(a: Message, id: string, m: Message)
  {
    && a.Assistant? && a.content.Some?
    && exists i :: FirstAsked(a.content.value, i, id) && m == Synthetic(id, a.content.value[i])
  }

  function Synthetic(id: string, b: Block): Message
  {
    ToolResult(Some(id), None, MissingBody(if b.Record? && b.name.Some? then b.name.value else "unknown"))
  }

  /** What s[a] is given for the id. */
  ghost predicate Gets(s: seq<Message>, a: int, id: string, m: Message)
  {
    if Answered(s, a, id) then exists k :: FirstInSpan(s, a, k, id) && s[k] == m
    else 0 <= a < |s| && MadeUp(s[a], id, m)
  }

  ghost predicate FirstServed(s: seq<Message>, a: int, id: string, synth: bool)
  {
    Served(s, a, id, synth) && forall b :: 0 <= b < a ==> !Served(s, b, id, synth)
  }

  /** The first assistant served for this id gets this message. */
  ghost predicate Given(s: seq<Message>, id: string, synth: bool, m: Message)
  {
    exists a :: FirstServed(s, a, id, synth) && Gets(s, a, id, m)
  }

  /** What the call loop pushes for one id. */
  lemma {:induction false} PushesPick(calls: seq<Call>, span: seq<Message>, seen0: set<string>, seen: set<string>,
      synth: bool, id: string, m: Message)
    requires seen0 <= seen && forall c :: c in calls ==> c.id != ""
    ensures m in Pushes(calls, span, seen0, seen, synth).out && ResultId(m) == Some(id) <==>
            id !in seen && id in CallIds(calls) && Pick(calls[Pos(calls, id)], span, synth, m)
    decreases |calls|
  {
    hide Pushes, ResultId, ResultIds, PushStep, Pick, Pos, CallIds, FirstResult;
    if calls == [] {
      PushesDone(span, seen0, seen, synth);
      NoCalls(id);
    } else {
      var c, rest := calls[0], calls[1..];
      assert calls == [c] + rest && c in calls;
      PushesUnfold(c, rest, span, seen0, seen, synth);
      PushStepIds(c, span, seen0, seen, synth, []);
      StepPicks(c, span, seen0, seen, synth, id, m);
      PushesPick(rest, span, seen0, seen + ResultIds(PushStep(c, span, seen0, seen, synth).out), synth, id, m);
      CallsCons(c, rest, id);
      NoPick(c, span, synth, m);
      if id in CallIds(rest) && c.id == id { NoPick(rest[Pos(rest, id)], span, synth, m); }
    }
  }

  lemma {:induction false} NoCalls(id: string)
    ensures id !in CallIds([])
  {
  }

  lemma {:induction false} CallsCons(c: Call, rest: seq<Call>, id: string)
    ensures id in CallIds([c] + rest) <==> id == c.id || id in CallIds(rest)
    ensures id == c.id ==> Pos([c] + rest, id) == 0
    ensures id != c.id ==> Pos([c] + rest, id) == 1 + Pos(rest, id)
    ensures id in CallIds(rest) ==> Pos(rest, id) < |rest| && rest[Pos(rest, id)].id == id
  {
    assert ([c] + rest)[1..] == rest;
    assert forall x :: x in [c] + rest <==> x == c || x in rest;
  }

  lemma {:induction false} NoPick(c: Call, span: seq<Message>, synth: bool, m: Message)
    ensures !(synth || FirstResult(span, c.id).Some?) ==> !Pick(c, span, synth, m)
  {
  }

  ghost predicate Pick(c: Call, span: seq<Message>, synth: bool, m: Message)
  {
    if FirstResult(span, c.id).Some? then FirstResult(span, c.id) == Some(m) else synth && m == MissingResult(c)
  }

  lemma {:induction false} StepPicks(c: Call, span: seq<Message>, seen0: set<string>, seen: set<string>,
      synth: bool, id: string, m: Message)
    requires c.id != "" && seen0 <= seen
    ensures var step := PushStep(c, span, seen0, seen, synth).out;
            && (m in step && ResultId(m) == Some(id) <==> id == c.id && id !in seen && Pick(c, span, synth, m))
            && (step == [] <==> c.id in seen || !(synth || FirstResult(span, c.id).Some?))
  {
  }

  /** The search for the first result of a span. */
  lemma {:induction false} FirstResultAt(span: seq<Message>, id: string) returns (k: nat)
    requires FirstResult(span, id).Some?
    ensures k < |span| && FirstResult(span, id) == Some(span[k]) && ResultId(span[k]) == Some(id)
    ensures forall j :: 0 <= j < k ==> ResultId(span[j]) != Some(id)
  {
    hide ResultId;
    if ResultId(span[0]) == Some(id) {
      k := 0;
    } else {
      k := FirstResultAt(span[1..], id);
      k := k + 1;
    }
  }

  lemma {:induction false} FirstIsOne(s: seq<Message>, a: int, k: int, j: int, id: string)
    requires FirstInSpan(s, a, k, id) && FirstInSpan(s, a, j, id)
    ensures k == j
  {
  }

  /** The first turn's search finds what lies first in its span. */
  lemma {:induction false} HeadSpan(s: seq<Message>, n: nat, id: string)
    requires Starts(s, n) && Answering(s[0])
    ensures Answered(s, 0, id) <==> FirstResult(s[1..n], id).Some?
    ensures FirstResult(s[1..n], id).Some? ==>
              exists k :: FirstInSpan(s, 0, k, id) && FirstResult(s[1..n], id) == Some(s[k])
  {
    hide Answers, Answering;
    var span := s[1..n];
    assert forall j :: 1 <= j < n ==> s[j] == span[j - 1] == s[1..][j - 1];
    AnsweringAssistant(s[0]);
    forall j | 0 <= j < |s| ensures Answers(s[j], id) <==> ResultId(s[j]) == Some(id) { AsksIff(s[j], id); }
    if FirstResult(span, id).Some? {
      var k := FirstResultAt(span, id);
      assert FirstInSpan(s, 0, k + 1, id);
    }
    if k :| FirstInSpan(s, 0, k, id) {
      assert k < n by { InHeadSpan(s, n, k); }
      assert span[k - 1] in span;
    }
  }

  lemma {:induction false} InHeadSpan(s: seq<Message>, n: nat, k: int)
    requires Starts(s, n) && Answering(s[0]) && LastBefore(s, 0, k) && !s[k].Assistant?
    ensures k < n
  {
    if n < |s| { assert s[n] == s[1..][n - 1]; }
  }

  lemma {:induction false} SpanShift(s: seq<Message>, n: nat, a: nat, id: string, synth: bool, m: Message)
    requires n <= |s|
    ensures Answered(s, n + a, id) <==> Answered(s[n..], a, id)
    ensures Served(s, n + a, id, synth) <==> Served(s[n..], a, id, synth)
    ensures Gets(s, n + a, id, m) <==> Gets(s[n..], a, id, m)
  {
    hide Asks, Answers, MadeUp;
    var t, b := s[n..], n + a;
    assert forall j :: 0 <= j < |t| ==> t[j] == s[n + j];
    forall k: int ensures FirstInSpan(s, b, n + k, id) <==> FirstInSpan(t, a, k, id) { ShiftOne(s, n, a, k, id); }
    if k :| FirstInSpan(s, b, k, id) { assert FirstInSpan(t, a, k - n, id); }
    if k :| FirstInSpan(s, b, k, id) && s[k] == m { assert FirstInSpan(t, a, k - n, id) && t[k - n] == m; }
    if k :| FirstInSpan(t, a, k, id) && t[k] == m { assert FirstInSpan(s, b, n + k, id) && s[n + k] == m; }
  }

  lemma {:induction false} ShiftOne(s: seq<Message>, n: nat, a: nat, k: int, id: string)
    requires n <= |s|
    ensures FirstInSpan(s, n + a, n + k, id) <==> FirstInSpan(s[n..], a, k, id)
  {
    hide Answers;
    var t := s[n..];
    assert forall j :: 0 <= j < |t| ==> t[j] == s[n + j];
    if FirstInSpan(t, a, k, id) {
      forall j | n + a < j < n + k ensures !s[j].Assistant? && !Answers(s[j], id) { assert s[j] == t[j - n]; }
    }
    if FirstInSpan(s, n + a, n + k, id) {
      forall j | a < j < k ensures !t[j].Assistant? && !Answers(t[j], id) { assert t[j] == s[n + j]; }
    }
  }

  lemma {:induction false} HeadAlone(s: seq<Message>, n: nat, b: nat, id: string, synth: bool)
    requires Starts(s, n) && 0 < b < n
    ensures !Served(s, b, id, synth)
  {
    assert s[b] == s[1..][b - 1];
  }

  /** The first turn serves the id, or the rest decides. */
  lemma {:induction false} GivenSplit(s: seq<Message>, n: nat, id: string, synth: bool, m: Message)
    requires Starts(s, n)
    ensures Given(s, id, synth, m) <==>
            if Served(s, 0, id, synth) then Gets(s, 0, id, m) else Given(s[n..], id, synth, m)
  {
    hide Served, Gets, Answering, Starts;
    StartsWithin(s, n);
    if Served(s, 0, id, synth) {
      assert FirstServed(s, 0, id, synth);
      if a :| FirstServed(s, a, id, synth) && Gets(s, a, id, m) { ServedBounds(s, a, id, synth); }
    } else {
      if a :| FirstServed(s, a, id, synth) && Gets(s, a, id, m) { ServedLater(s, n, a, id, synth, m); }
      if a :| FirstServed(s[n..], a, id, synth) && Gets(s[n..], a, id, m) { ServedSooner(s, n, a, id, synth, m); }
    }
  }

  lemma {:induction false} StartsWithin(s: seq<Message>, n: nat)
    requires Starts(s, n)
    ensures 0 < n <= |s|
  {
  }

  lemma {:induction false} ServedBounds(s: seq<Message>, a: int, id: string, synth: bool)
    requires Served(s, a, id, synth)
    ensures 0 <= a < |s|
  {
  }

  lemma {:induction false} ServedLater(s: seq<Message>, n: nat, a: int, id: string, synth: bool, m: Message)
    requires Starts(s, n) && n <= |s| && FirstServed(s, a, id, synth) && Gets(s, a, id, m) && !Served(s, 0, id, synth)
    ensures Given(s[n..], id, synth, m)
  {
    hide Served, Gets, Answering, Starts;
    ServedBounds(s, a, id, synth);
    if a < n { HeadAlone(s, n, a, id, synth); }
    forall b: nat ensures Served(s, n + b, id, synth) <==> Served(s[n..], b, id, synth) {
      SpanShift(s, n, b, id, synth, m);
    }
    SpanShift(s, n, a - n, id, synth, m);
    assert FirstServed(s[n..], a - n, id, synth);
  }

  lemma {:induction false} ServedSooner(s: seq<Message>, n: nat, a: int, id: string, synth: bool, m: Message)
    requires Starts(s, n) && n <= |s| && !Served(s, 0, id, synth)
    requires FirstServed(s[n..], a, id, synth) && Gets(s[n..], a, id, m)
    ensures Given(s, id, synth, m)
  {
    hide Served, Gets, Answering, Starts;
    ServedBounds(s[n..], a, id, synth);
    SpanShift(s, n, a, id, synth, m);
    forall b | 0 <= b < n + a ensures !Served(s, b, id, synth) {
      if 0 < b < n { HeadAlone(s, n, b, id, synth); }
      if n <= b { SpanShift(s, n, b - n, id, synth, m); }
    }
    assert FirstServed(s, n + a, id, synth);
  }

  /** The message made up for a call, read off the block that makes it. */
  lemma {:induction false} MissingIff(a: Message, id: string, m: Message)
    requires Asks(a, id)
    ensures Pos(Calls(a), id) < |Calls(a)|
    ensures m == MissingResult(Calls(a)[Pos(Calls(a), id)]) <==> MadeUp(a, id, m)
  {
    hide AskedBy, Pos, CallsOf;
    var i := FirstOf(a.content.value, id);
    FirstCall(a.content.value, i, id);
    if j :| FirstAsked(a.content.value, j, id) && m == Synthetic(id, a.content.value[j]) {
      FirstCall(a.content.value, j, id);
      assert i == j;
    }
    assert AskedBy(a.content.value[i], id) ==> a.content.value[i].Record? by { AskedRecord(a.content.value[i], id); }
  }

  lemma {:induction false} AskedRecord(b: Block, id: string)
    ensures AskedBy(b, id) ==> b.Record?
  {
  }

  lemma {:induction false} TurnGives(s: seq<Message>, n: nat, seen: set<string>, synth: bool, id: string, m: Message)
    requires Starts(s, n) && Answering(s[0])
    ensures m in Turn(s[0], s[1..n], seen, synth).out && ResultId(m) == Some(id) <==>
            id !in seen && Served(s, 0, id, synth) && Gets(s, 0, id, m)
  {
    hide Asks, MadeUp, Answering, Answered, FirstInSpan, Pos, Calls, MissingResult, ResultId, FirstResult;
    var a, span := s[0], s[1..n];
    AsksIff(a, id);
    PushesPick(Calls(a), span, seen, seen, synth, id, m);
    TurnHolds(a, span, seen, synth, m);
    if Asks(a, id) {
      HeadSpan(s, n, id);
      MissingIff(a, id, m);
      assert Calls(a)[Pos(Calls(a), id)].id == id;
      if FirstResult(span, id).Some? { HeadGets(s, n, id, m); }
    }
  }

  lemma {:induction false} HeadGets(s: seq<Message>, n: nat, id: string, m: Message)
    requires Starts(s, n) && Answering(s[0]) && FirstResult(s[1..n], id).Some?
    ensures (exists k :: FirstInSpan(s, 0, k, id) && s[k] == m) <==> FirstResult(s[1..n], id) == Some(m)
  {
    hide Answers, FirstResult, Answering;
    HeadSpan(s, n, id);
    var k :| FirstInSpan(s, 0, k, id) && FirstResult(s[1..n], id) == Some(s[k]);
    if j :| FirstInSpan(s, 0, j, id) && s[j] == m { FirstIsOne(s, 0, j, k, id); }
  }

  /** The results of a turn are those its call loop pushed. */
  lemma {:induction false} TurnHolds(a: Message, span: seq<Message>, seen: set<string>, synth: bool, m: Message)
    requires Answering(a)
    ensures m in Turn(a, span, seen, synth).out && ResultId(m).Some? <==>
            m in Pushes(Calls(a), span, seen, seen, synth).out && ResultId(m).Some?
  {
    NonResultsHaveNoId(span);
  }

  /**
    Which results the rebuilt list holds: for each id the one given to the first assistant that is served, its
    first result in the span or, if that is allowed, one made up; nothing for any other id or assistant.
  */
  lemma {:induction false} RebuiltResultsIff(s: seq<Message>, seen: set<string>, synth: bool, id: string, m: Message)
    ensures m in Repaired(s, seen, synth).out && Answers(m, id) <==> id !in seen && Given(s, id, synth, m)
    decreases |s|
  {
    hide Repaired, Answering, Turn, Given, Served, Gets, Answers, ResultIds;
    AsksIff(m, id);
    if s == [] {
      RepairedDone(seen, synth);
      NoneGiven(id, synth, m);
    } else {
      var n := if Answering(s[0]) then 1 + SpanLen(s[1..]) else 1;
      var rest, turn := s[n..], if Answering(s[0]) then Turn(s[0], s[1..n], seen, synth) else Single(s[0]);
      HeadStarts(s, n);
      HeadStep(s, n, seen, synth);
      GivenSplit(s, n, id, synth, m);
      if Answering(s[0]) {
        TurnGives(s, n, seen, synth, id, m);
        forall x ensures x in turn.out && ResultId(x) == Some(id) <==>
                         id !in seen && Served(s, 0, id, synth) && Gets(s, 0, id, x)
        {
          TurnGives(s, n, seen, synth, id, x);
        }
      } else {
        NotServed(s, id, synth);
        SingleShape(s[0], seen);
      }
      if id !in seen && Served(s, 0, id, synth) { ServedGets(s, 0, id, synth); }
      IdOf(turn.out, id);
      RebuiltResultsIff(rest, seen + ResultIds(turn.out), synth, id, m);
    }
  }

  lemma {:induction false} IdOf(out: seq<Message>, id: string)
    ensures id in ResultIds(out) <==> exists m :: m in out && ResultId(m) == Some(id)
  {
  }

  lemma {:induction false} NoneGiven(id: string, synth: bool, m: Message)
    ensures !Given([], id, synth, m)
  {
  }

  lemma {:induction false} NotServed(s: seq<Message>, id: string, synth: bool)
    requires s != [] && !Answering(s[0])
    ensures !Served(s, 0, id, synth)
  {
    AsksIff(s[0], id);
  }

  /** Who is served gets something. */
  lemma {:induction false} ServedGets(s: seq<Message>, a: nat, id: string, synth: bool)
    requires Served(s, a, id, synth)
    ensures exists m :: Gets(s, a, id, m)
  {
    hide FirstInSpan, AskedBy;
    if Answered(s, a, id) {
      var k :| FirstInSpan(s, a, k, id);
      assert Gets(s, a, id, s[k]) by { FirstWithin(s, a, k, id); }
    } else {
      var i := FirstOf(s[a].content.value, id);
      assert Gets(s, a, id, Synthetic(id, s[a].content.value[i]));
    }
  }

  lemma {:induction false} FirstWithin(s: seq<Message>, a: int, k: int, id: string)
    requires FirstInSpan(s, a, k, id)
    ensures 0 <= a < k < |s|
  {
  }

  lemma {:induction false} HeadStarts(s: seq<Message>, n: nat)
    requires s != [] && n == if Answering(s[0]) then 1 + SpanLen(s[1..]) else 1
    ensures Starts(s, n)
  {
  }

  lemma {:induction false} HeadStep(s: seq<Message>, n: nat, seen: set<string>, synth: bool)
    requires Starts(s, n)
    ensures n <= |s|
    ensures var turn := if Answering(s[0]) then Turn(s[0], s[1..n], seen, synth) else Single(s[0]);
            && Repaired(s, seen, synth).out == turn.out + Repaired(s[n..], seen + ResultIds(turn.out), synth).out
            && Repaired(s, seen, synth).added == turn.added + Repaired(s[n..], seen + ResultIds(turn.out), synth).added
            && Repaired(s, seen, synth).orphans ==
               turn.orphans + Repaired(s[n..], seen + ResultIds(turn.out), synth).orphans
  {
    hide Answering, Turn;
    if !Answering(s[0]) {
      SingleShape(s[0], seen);
      assert seen + {} == seen;
    }
  }

  // ----- what the report counts -----

  /** The report's made-up results answer blocks of assistants that were not cut short. */
  ghost predicate MadeUpFor(s: seq<Message>, m: Message)
  {
    exists a, i, id ::
      a in s && Asks(a, id) && AskedAt(a.content.value, i, id) && m == Synthetic(id, a.content.value[i])
  }

  lemma {:induction false} CallBlock(blocks: seq<Block>, c: Call) returns (i: nat)
    requires c in CallsOf(blocks)
    ensures AskedAt(blocks, i, c.id) && blocks[i].name == c.name
  {
    var b, rest := blocks[0], blocks[1..];
    assert blocks == [b] + rest;
    CallIdsCons(b, rest);
    if c in Own(b) {
      i := 0;
    } else {
      i := CallBlock(rest, c);
      i := i + 1;
    }
  }

  lemma {:induction false} PushesAdd(calls: seq<Call>, span: seq<Message>, seen0: set<string>, seen: set<string>,
      synth: bool, m: Message)
    ensures m in Pushes(calls, span, seen0, seen, synth).added ==>
              synth && exists c :: c in calls && m == MissingResult(c)
    decreases |calls|
  {
    hide FirstResult, MissingResult, ResultIds;
    if calls != [] {
      var step := PushStep(calls[0], span, seen0, seen, synth);
      PushesAdd(calls[1..], span, seen0, seen + ResultIds(step.out), synth, m);
    }
  }

  /** Nothing is made up unless asked for, and never for an errored or aborted assistant. */
  lemma {:induction false} AddedAsked(s: seq<Message>, seen: set<string>, synth: bool, m: Message)
    ensures m in Repaired(s, seen, synth).added ==> synth && MadeUpFor(s, m)
    decreases |s|
  {
    hide Repaired, Answering, Asks, Turn, MadeUpFor, ResultIds;
    if s == [] {
      RepairedDone(seen, synth);
    } else {
      var n := if Answering(s[0]) then 1 + SpanLen(s[1..]) else 1;
      var turn := if Answering(s[0]) then Turn(s[0], s[1..n], seen, synth) else Single(s[0]);
      HeadStarts(s, n);
      HeadStep(s, n, seen, synth);
      AddedAsked(s[n..], seen + ResultIds(turn.out), synth, m);
      if MadeUpFor(s[n..], m) { MadeUpLater(s, n, m); }
      if Answering(s[0]) { TurnAdds(s, n, seen, synth, m); }
    }
  }

  lemma {:induction false} MadeUpLater(s: seq<Message>, n: nat, m: Message)
    requires n <= |s| && MadeUpFor(s[n..], m)
    ensures MadeUpFor(s, m)
  {
    hide AskedBy;
  }

  lemma {:induction false} TurnAdds(s: seq<Message>, n: nat, seen: set<string>, synth: bool, m: Message)
    requires Starts(s, n) && Answering(s[0])
    ensures m in Turn(s[0], s[1..n], seen, synth).added ==> synth && MadeUpFor(s, m)
  {
    var a := s[0];
    PushesAdd(Calls(a), s[1..n], seen, seen, synth, m);
    if m in Turn(a, s[1..n], seen, synth).added {
      var c :| c in Calls(a) && m == MissingResult(c);
      var i := CallBlock(a.content.value, c);
      AsksIff(a, c.id);
      assert a in s && m == Synthetic(c.id, a.content.value[i]);
    }
  }

  /** A result that no assistant in front of it asked for. */
  ghost predicate Stray(s: seq<Message>, k: int)
  {
    0 <= k < |s| && s[k].ToolResult? && !exists a, id :: LastBefore(s, a, k) && Asks(s[a], id) && Answers(s[k], id)
  }

  ghost function Strays(s: seq<Message>, n: nat): nat
  {
    if n == 0 then 0 else Strays(s, n - 1) + if Stray(s, n - 1) then 1 else 0
  }

  lemma {:induction false} StrayIff(s: seq<Message>, k: int)
    ensures Stray(s, k) <==> 0 <= k < |s| && s[k].ToolResult? && !exists a :: Reply(s, a, k)
  {
    hide Asks, Answers, Answering, Calls, ResultId;
    if a, id :| LastBefore(s, a, k) && Asks(s[a], id) && Answers(s[k], id) {
      AsksIff(s[a], id);
      AsksIff(s[k], id);
      ResultIdOnlyOfResults(s[k]);
      assert Reply(s, a, k);
    }
    if a :| Reply(s, a, k) {
      AnsweringAssistant(s[a]);
      AsksIff(s[a], RId(s[k]));
      AsksIff(s[k], RId(s[k]));
      assert LastBefore(s, a, k);
    }
  }

  lemma {:induction false} StrayShift(s: seq<Message>, n: nat, k: nat)
    requires Starts(s, n)
    ensures Stray(s, n + k) <==> Stray(s[n..], k)
  {
    hide Answering, Stray, Reply, Starts;
    StartsWithin(s, n);
    StrayIff(s, n + k);
    StrayIff(s[n..], k);
    var j := n + k;
    if a :| Reply(s, a, j) { ReplySplit(s, n, a, j); assert Reply(s[n..], a - n, k); }
    if a :| Reply(s[n..], a, k) { Bounds(s[n..], a, k); ReplyShift(s, n, a, k); assert Reply(s, n + a, j); }
  }

  lemma {:induction false} StraysShift(s: seq<Message>, n: nat, k: nat)
    requires Starts(s, n)
    ensures Strays(s, n + k) == Strays(s, n) + Strays(s[n..], k)
  {
    if k > 0 {
      StraysShift(s, n, k - 1);
      StrayShift(s, n, k - 1);
    }
  }

  lemma {:induction false} StraysOfHead(s: seq<Message>, n: nat, i: nat)
    requires Starts(s, n) && Answering(s[0]) && 0 < i <= n
    ensures Strays(s, i) == ScanOrphans(s[1..i], CallIds(Calls(s[0])))
  {
    hide Answering, Calls, CallIds, ResultId, Stray;
    if i == 1 {
      AnsweringNotResult(s[0]);
      StrayIff(s, 0);
      assert Strays(s, 0) == 0;
    } else {
      StraysOfHead(s, n, i - 1);
      ScanSnoc(s[1..i - 1], s[i - 1], CallIds(Calls(s[0])), {});
      assert s[1..i] == s[1..i - 1] + [s[i - 1]];
      StrayInHead(s, n, i - 1);
    }
  }

  lemma {:induction false} StrayInHead(s: seq<Message>, n: nat, k: nat)
    requires Starts(s, n) && Answering(s[0]) && 0 < k < n
    ensures ScanOrphans([s[k]], CallIds(Calls(s[0]))) == if Stray(s, k) then 1 else 0
  {
    hide Answering, Calls, CallIds, Stray, Reply;
    StrayIff(s, k);
    FirstReply(s, n, k);
    if a :| Reply(s, a, k) { Bounds(s, a, k); ReplySplit(s, n, a, k); }
  }

  /** The orphan counter is the number of strays. */
  lemma {:induction false} OrphansAreStrays(s: seq<Message>, seen: set<string>, synth: bool)
    ensures Repaired(s, seen, synth).orphans == Strays(s, |s|)
    decreases |s|
  {
    hide Repaired, Answering, Stray, ResultIds, Strays;
    if s == [] {
      RepairedDone(seen, synth);
      NoStrays(s);
    } else {
      var n := if Answering(s[0]) then 1 + SpanLen(s[1..]) else 1;
      var turn := if Answering(s[0]) then Turn(s[0], s[1..n], seen, synth) else Single(s[0]);
      HeadStarts(s, n);
      HeadStep(s, n, seen, synth);
      OrphansAreStrays(s[n..], seen + ResultIds(turn.out), synth);
      StraysShift(s, n, |s| - n);
      if Answering(s[0]) { StraysOfHead(s, n, n); } else { FirstStray(s); }
    }
  }

  lemma {:induction false} NoStrays(s: seq<Message>)
    ensures Strays(s, 0) == 0
  {
  }

  lemma {:induction false} FirstStray(s: seq<Message>)
    requires s != []
    ensures Strays(s, 1) == Single(s[0]).orphans
  {
    assert Strays(s, 0) == 0;
  }
}
