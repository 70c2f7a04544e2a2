/** Renaming tool-call ids throughout a transcript commutes with the pairing repair. */
module Renaming {
  import opened Text
  import opened Transcript

  type Renamer = string -> string

  function RenameBlock(rho: Renamer, b: Block): Block
  {
    if IsToolCall(b) && b.id.Some? && b.id.value != "" then b.(id := Some(rho(b.id.value))) else b
  }

  function RenameBlocks(rho: Renamer, blocks: seq<Block>): seq<Block>
  {
    if blocks == [] then [] else [RenameBlock(rho, blocks[0])] + RenameBlocks(rho, blocks[1..])
  }

  function RenameField(rho: Renamer, id: Option<string>): Option<string>
  {
    if id.Some? && id.value != "" then Some(rho(id.value)) else id
  }

  function RenameMessage(rho: Renamer, m: Message): Message
  {
    match m
    case Assistant(stop, Some(blocks), raw) => Assistant(stop, Some(RenameBlocks(rho, blocks)), raw)
    case ToolResult(callId, useId, body) => ToolResult(RenameField(rho, callId), RenameField(rho, useId), body)
    case _ => m
  }

  function RenameAll(rho: Renamer, ms: seq<Message>): (r: seq<Message>)
    ensures |r| == |ms|
    ensures forall k :: 0 <= k < |ms| ==> r[k] == RenameMessage(rho, ms[k])
  {
    if ms == [] then [] else [RenameMessage(rho, ms[0])] + RenameAll(rho, ms[1..])
  }

  function RenameCalls(rho: Renamer, calls: seq<Call>): (r: seq<Call>)
    ensures |r| == |calls|
    ensures forall k :: 0 <= k < |calls| ==> r[k] == Call(rho(calls[k].id), calls[k].name)
  {
    if calls == [] then [] else [Call(rho(calls[0].id), calls[0].name)] + RenameCalls(rho, calls[1..])
  }

  function RenameReport(rho: Renamer, r: Report): Report
  {
    r.(out := RenameAll(rho, r.out), added := RenameAll(rho, r.added))
  }

  // ----- the ids of a transcript -----

  function FieldIds(id: Option<string>): set<string>
  {
    if id.Some? && id.value != "" then {id.value} else {}
  }

  function IdsOf(m: Message): set<string>
  {
    match m
    case Assistant(_, _, _) => CallIds(Calls(m))
    case ToolResult(callId, useId, _) => FieldIds(callId) + FieldIds(useId)
    case _ => {}
  }

  ghost predicate Within(ms: seq<Message>, D: set<string>)
  {
    forall m :: m in ms ==> IdsOf(m) <= D
  }

  /** One-to-one on D, and never the empty id. */
  ghost predicate OneToOne(rho: Renamer, D: set<string>)
  {
    && (forall x, y :: x in D && y in D && rho(x) == rho(y) ==> x == y)
    && (forall x :: x in D ==> rho(x) != "")
  }

  function Image(rho: Renamer, s: set<string>): set<string>
  {
    set x | x in s :: rho(x)
  }

  lemma {:induction false} ImageMember(rho: Renamer, D: set<string>, s: set<string>, x: string)
    requires OneToOne(rho, D) && s <= D && x in D
    ensures rho(x) in Image(rho, s) <==> x in s
  {
  }

  // ----- each reading of a message commutes -----

  lemma {:induction false} BlocksRename(rho: Renamer, D: set<string>, blocks: seq<Block>)
    requires OneToOne(rho, D) && CallIds(CallsOf(blocks)) <= D
    ensures CallsOf(RenameBlocks(rho, blocks)) == RenameCalls(rho, CallsOf(blocks))
  {
    if blocks != [] {
      var b, rest := blocks[0], blocks[1..];
      assert forall c :: c in CallsOf(rest) ==> c in CallsOf(blocks);
      if IsToolCall(b) && b.id.Some? && b.id.value != "" {
        assert CallsOf(blocks)[0] in CallsOf(blocks) && b.id.value in CallIds(CallsOf(blocks));
        assert CallsOf(blocks)[1..] == CallsOf(rest);
      }
      BlocksRename(rho, D, rest);
    }
  }

  lemma {:induction false} MessageRename(rho: Renamer, D: set<string>, m: Message)
    requires OneToOne(rho, D) && IdsOf(m) <= D
    ensures var m' := RenameMessage(rho, m);
            && (m'.ToolResult? <==> m.ToolResult?) && (m'.Assistant? <==> m.Assistant?)
            && Calls(m') == RenameCalls(rho, Calls(m))
            && (Answering(m') <==> Answering(m))
            && ResultId(m') == RenameField(rho, ResultId(m))
            && (ResultId(m).Some? ==> ResultId(m).value != "" && ResultId(m).value in D)
  {
    if m.Assistant? && m.content.Some? { BlocksRename(rho, D, m.content.value); }
  }

  lemma {:induction false} CallIdsRename(rho: Renamer, calls: seq<Call>)
    ensures CallIds(RenameCalls(rho, calls)) == Image(rho, CallIds(calls))
  {
    var r := RenameCalls(rho, calls);
    forall id | id in Image(rho, CallIds(calls)) ensures id in CallIds(r) {
      var c :| c in calls && rho(c.id) == id;
      var k :| 0 <= k < |calls| && calls[k] == c;
      assert r[k] in r;
    }
  }

  lemma {:induction false} ResultIdsRename(rho: Renamer, D: set<string>, ms: seq<Message>)
    requires OneToOne(rho, D) && Within(ms, D)
    ensures ResultIds(RenameAll(rho, ms)) == Image(rho, ResultIds(ms)) && ResultIds(ms) <= D
  {
    var r := RenameAll(rho, ms);
    forall m | m in ms ensures ResultId(RenameMessage(rho, m)) == RenameField(rho, ResultId(m)) &&
                               (ResultId(m).Some? ==> ResultId(m).value != "" && ResultId(m).value in D) {
      MessageRename(rho, D, m);
    }
    forall id | id in ResultIds(r) ensures id in Image(rho, ResultIds(ms)) {
      var k :| 0 <= k < |r| && ResultId(r[k]) == Some(id);
      assert ms[k] in ms;
    }
    forall id | id in Image(rho, ResultIds(ms)) ensures id in ResultIds(r) {
      var m :| m in ms && ResultId(m).Some? && rho(ResultId(m).value) == id;
      var k :| 0 <= k < |ms| && ms[k] == m;
      assert r[k] in r;
    }
  }

  lemma {:induction false} SpanRename(rho: Renamer, D: set<string>, ms: seq<Message>)
    requires OneToOne(rho, D) && Within(ms, D)
    ensures SpanLen(RenameAll(rho, ms)) == SpanLen(ms)
    ensures NonResults(RenameAll(rho, ms)) == RenameAll(rho, NonResults(ms))
  {
    if ms != [] {
      MessageRename(rho, D, ms[0]);
      assert Within(ms[1..], D);
      SpanRename(rho, D, ms[1..]);
    }
  }

  lemma {:induction false} RenameConcat(rho: Renamer, x: seq<Message>, y: seq<Message>)
    ensures RenameAll(rho, x + y) == RenameAll(rho, x) + RenameAll(rho, y)
  {
  }

  lemma {:induction false} RenameSlice(rho: Renamer, ms: seq<Message>, n: nat)
    requires n <= |ms|
    ensures RenameAll(rho, ms[..n]) == RenameAll(rho, ms)[..n]
    ensures RenameAll(rho, ms[n..]) == RenameAll(rho, ms)[n..]
  {
  }

  function RenameFound(rho: Renamer, m: Option<Message>): Option<Message>
  {
    if m.Some? then Some(RenameMessage(rho, m.value)) else None
  }

  lemma {:induction false} FirstResultRename(rho: Renamer, D: set<string>, span: seq<Message>, id: string)
    requires OneToOne(rho, D) && Within(span, D) && id in D
    ensures FirstResult(RenameAll(rho, span), rho(id)) == RenameFound(rho, FirstResult(span, id))
  {
    if span != [] {
      MessageRename(rho, D, span[0]);
      assert Within(span[1..], D);
      FirstResultRename(rho, D, span[1..], id);
    }
  }

  lemma {:induction false} ScanRename(rho: Renamer, D: set<string>, span: seq<Message>, ids: set<string>,
      seen: set<string>)
    requires OneToOne(rho, D) && Within(span, D) && ids <= D && seen <= D
    ensures ScanOrphans(RenameAll(rho, span), Image(rho, ids)) == ScanOrphans(span, ids)
    ensures ScanDups(RenameAll(rho, span), Image(rho, ids), Image(rho, seen)) == ScanDups(span, ids, seen)
  {
    if span != [] {
      var m := span[0];
      MessageRename(rho, D, m);
      if ResultId(m).Some? {
        ImageMember(rho, D, ids, ResultId(m).value);
        ImageMember(rho, D, seen, ResultId(m).value);
      }
      assert Within(span[1..], D);
      ScanRename(rho, D, span[1..], ids, seen);
    }
  }

  lemma {:induction false} AnyFoundRename(rho: Renamer, D: set<string>, span: seq<Message>, ids: set<string>,
      seen: set<string>)
    requires OneToOne(rho, D) && Within(span, D) && ids <= D && seen <= D
    ensures AnyFound(RenameAll(rho, span), Image(rho, ids), Image(rho, seen)) <==> AnyFound(span, ids, seen)
  {
    hide ResultId, Image, RenameMessage;
    var r := RenameAll(rho, span);
    forall k | 0 <= k < |span|
      ensures ResultId(r[k]) == RenameField(rho, ResultId(span[k]))
      ensures ResultId(span[k]).Some? ==>
                var id := ResultId(span[k]).value;
                id != "" && (rho(id) in Image(rho, ids) <==> id in ids) && (rho(id) in Image(rho, seen) <==> id in seen)
    {
      assert span[k] in span;
      MessageRename(rho, D, span[k]);
      if ResultId(span[k]).Some? {
        ImageMember(rho, D, ids, ResultId(span[k]).value);
        ImageMember(rho, D, seen, ResultId(span[k]).value);
      }
    }
    if AnyFound(span, ids, seen) {
      var m :| m in span && ResultId(m).Some? && ResultId(m).value in ids && ResultId(m).value !in seen;
      var k :| 0 <= k < |span| && span[k] == m;
      assert r[k] in r;
    }
    if AnyFound(r, Image(rho, ids), Image(rho, seen)) {
      var m :| m in r && ResultId(m).Some? && ResultId(m).value in Image(rho, ids) &&
          ResultId(m).value !in Image(rho, seen);
      var k :| 0 <= k < |r| && r[k] == m;
      assert span[k] in span;
    }
  }

  // ----- the repair commutes -----

  lemma {:induction false} MergeRename(rho: Renamer, D: set<string>, a: Report, b: Report)
    ensures RenameReport(rho, Merge(a, b)) == Merge(RenameReport(rho, a), RenameReport(rho, b))
    ensures Within(a.out, D) && Within(b.out, D) ==> Within(Merge(a, b).out, D)
    ensures RenameReport(rho, NOTHING) == NOTHING
  {
    RenameConcat(rho, a.out, b.out);
    RenameConcat(rho, a.added, b.added);
  }

  lemma {:induction false} PushStepRename(rho: Renamer, D: set<string>, c: Call, span: seq<Message>,
      seen0: set<string>, seen: set<string>, synth: bool)
    requires OneToOne(rho, D) && Within(span, D) && c.id in D && c.id != "" && seen0 <= D && seen <= D
    ensures PushStep(Call(rho(c.id), c.name), RenameAll(rho, span), Image(rho, seen0), Image(rho, seen), synth) ==
            RenameReport(rho, PushStep(c, span, seen0, seen, synth))
  {
    hide Image, OneToOne, ResultId, FirstResult, Within;
    FirstResultRename(rho, D, span, c.id);
    ImageMember(rho, D, seen0, c.id);
    ImageMember(rho, D, seen, c.id);
    assert RenameMessage(rho, MissingResult(c)) == MissingResult(Call(rho(c.id), c.name));
  }

  lemma {:induction false} PushStepWithin(D: set<string>, c: Call, span: seq<Message>, seen0: set<string>,
      seen: set<string>, synth: bool)
    requires Within(span, D) && c.id in D
    ensures Within(PushStep(c, span, seen0, seen, synth).out, D)
  {
  }

  lemma {:induction false} PushesRename(rho: Renamer, D: set<string>, calls: seq<Call>, span: seq<Message>,
      seen0: set<string>, seen: set<string>, synth: bool)
    requires OneToOne(rho, D) && Within(span, D) && CallIds(calls) <= D && seen0 <= D && seen <= D
    requires forall c :: c in calls ==> c.id != ""
    ensures Pushes(RenameCalls(rho, calls), RenameAll(rho, span), Image(rho, seen0), Image(rho, seen), synth) ==
            RenameReport(rho, Pushes(calls, span, seen0, seen, synth))
    ensures Within(Pushes(calls, span, seen0, seen, synth).out, D)
    decreases |calls|
  {
    hide Image, PushStep, RenameMessage, RenameReport, Merge, ResultIds, OneToOne, IdsOf, Pushes;
    if calls == [] {
      PushesDone(span, seen0, seen, synth);
      PushesDone(RenameAll(rho, span), Image(rho, seen0), Image(rho, seen), synth);
      MergeRename(rho, D, NOTHING, NOTHING);
    } else {
      var c, rest := calls[0], calls[1..];
      assert calls == [c] + rest && c in calls && c.id in CallIds(calls);
      assert CallIds(rest) <= CallIds(calls);
      var step := PushStep(c, span, seen0, seen, synth);
      var seen' := seen + ResultIds(step.out);
      PushStepRename(rho, D, c, span, seen0, seen, synth);
      PushStepWithin(D, c, span, seen0, seen, synth);
      PushesUnfold(c, rest, span, seen0, seen, synth);
      assert RenameCalls(rho, calls) == [Call(rho(c.id), c.name)] + RenameCalls(rho, rest);
      PushesUnfold(Call(rho(c.id), c.name), RenameCalls(rho, rest), RenameAll(rho, span), Image(rho, seen0),
          Image(rho, seen), synth);
      ReportIds(rho, D, step, seen);
      PushesRename(rho, D, rest, span, seen0, seen', synth);
      MergeRename(rho, D, step, Pushes(rest, span, seen0, seen', synth));
    }
  }

  lemma {:induction false} ReportIds(rho: Renamer, D: set<string>, r: Report, seen: set<string>)
    requires OneToOne(rho, D) && Within(r.out, D) && seen <= D
    ensures Image(rho, seen) + ResultIds(RenameReport(rho, r).out) == Image(rho, seen + ResultIds(r.out))
    ensures seen + ResultIds(r.out) <= D
  {
    ResultIdsRename(rho, D, r.out);
  }

  lemma {:induction false} TurnRename(rho: Renamer, D: set<string>, a: Message, span: seq<Message>,
      seen: set<string>, synth: bool)
    requires OneToOne(rho, D) && IdsOf(a) <= D && Within(span, D) && seen <= D && Answering(a)
    ensures Turn(RenameMessage(rho, a), RenameAll(rho, span), Image(rho, seen), synth) ==
            RenameReport(rho, Turn(a, span, seen, synth))
    ensures Within(Turn(a, span, seen, synth).out, D)
  {
    hide Image, Pushes, RenameMessage, ResultIds, OneToOne, NonResults, ScanOrphans, ScanDups, AnyFound, CallIds;
    var calls := Calls(a);
    var pushes, rem := Pushes(calls, span, seen, seen, synth), NonResults(span);
    MessageRename(rho, D, a);
    CallIdsRename(rho, calls);
    ScanRename(rho, D, span, CallIds(calls), seen);
    AnyFoundRename(rho, D, span, CallIds(calls), seen);
    SpanRename(rho, D, span);
    PushesRename(rho, D, calls, span, seen, seen, synth);
    RenameConcat(rho, [a] + pushes.out, rem);
    RenameConcat(rho, [a], pushes.out);
    NonResultsHaveNoId(span);
  }

  /**
    Renaming ids one-to-one and then repairing is repairing and then renaming: the rebuilt list, the
    counts, the change flag.
  */
  lemma {:induction false} RepairCommutes(rho: Renamer, D: set<string>, ms: seq<Message>, seen: set<string>,
      synth: bool)
    requires OneToOne(rho, D) && Within(ms, D) && seen <= D
    ensures Repaired(RenameAll(rho, ms), Image(rho, seen), synth) == RenameReport(rho, Repaired(ms, seen, synth))
    decreases |ms|
  {
    hide Image, Turn, RenameMessage, RenameReport, Merge, ResultIds, OneToOne, IdsOf, Repaired, Answering, SpanLen;
    if ms == [] {
      RepairedDone(seen, synth);
      RepairedDone(Image(rho, seen), synth);
      MergeRename(rho, D, NOTHING, NOTHING);
    } else {
      var m, rest := ms[0], ms[1..];
      assert ms == [m] + rest && m in ms && Within(rest, D);
      RepairedUnfold(m, rest, seen, synth);
      assert RenameAll(rho, ms) == [RenameMessage(rho, m)] + RenameAll(rho, rest);
      RepairedUnfold(RenameMessage(rho, m), RenameAll(rho, rest), Image(rho, seen), synth);
      MessageRename(rho, D, m);
      if !Answering(m) {
        SingleRename(rho, D, m);
        RepairCommutes(rho, D, rest, seen, synth);
        MergeRename(rho, D, Single(m), Repaired(rest, seen, synth));
      } else {
        var n := SpanLen(rest);
        SpanRename(rho, D, rest);
        RenameSlice(rho, rest, n);
        assert Within(rest[..n], D) && Within(rest[n..], D);
        var turn := Turn(m, rest[..n], seen, synth);
        TurnRename(rho, D, m, rest[..n], seen, synth);
        ReportIds(rho, D, turn, seen);
        RepairCommutes(rho, D, rest[n..], seen + ResultIds(turn.out), synth);
        MergeRename(rho, D, turn, Repaired(rest[n..], seen + ResultIds(turn.out), synth));
      }
    }
  }

  lemma {:induction false} SingleRename(rho: Renamer, D: set<string>, m: Message)
    requires OneToOne(rho, D) && IdsOf(m) <= D
    ensures Single(RenameMessage(rho, m)) == RenameReport(rho, Single(m))
  {
    MessageRename(rho, D, m);
  }

  /** The same for the list handed back. */
  lemma {:induction false} ReturnedCommutes(rho: Renamer, D: set<string>, ms: seq<Message>, synth: bool)
    requires OneToOne(rho, D) && Within(ms, D)
    ensures Returned(RenameAll(rho, ms), synth) == RenameAll(rho, Returned(ms, synth))
  {
    hide Repaired;
    RepairCommutes(rho, D, ms, {}, synth);
    assert Image(rho, {}) == {};
  }
}
