/**
  Session transcripts and the repair that re-pairs tool calls with tool results.

  Only what the repair looks at is kept of a message; everything else is an opaque `raw` payload.  The repair
  walks the transcript once: an assistant message that made calls opens a span up to the next assistant, the
  results found in the span are laid out in call order right after it, and the rest of the span follows.
  `Repaired` says what the walk builds and counts; the methods at the end are the walk.
*/
module Transcript {
  import opened Text

  datatype BlockKind = ToolCallKind | ToolUseKind | FunctionCallKind | OtherKind(name: string)

  /** A content block.  `id` and `name` are None when the field is missing or not a string. */
  datatype Block =
    | NonRecord(raw: int)
    | Record(kind: BlockKind, id: Option<string>, name: Option<string>, hasInput: bool, raw: int)

  datatype Stop = Errored | Aborted | Regular(reason: string)

  datatype Body = Recorded(raw: int) | MissingBody(toolName: string)

  datatype Message =
    | NonObject(raw: int)
    | Other(hasRole: bool, raw: int)
    | Assistant(stop: Stop, content: Option<seq<Block>>, raw: int)
    | ToolResult(toolCallId: Option<string>, toolUseId: Option<string>, body: Body)

  datatype Call = Call(id: string, name: Option<string>)

  predicate IsToolCall(b: Block)
  {
    b.Record? && !b.kind.OtherKind?
  }

  function CallsOf(blocks: seq<Block>): (calls: seq<Call>)
    ensures forall c :: c in calls ==> c.id != ""
  {
    if blocks == [] then []
    else
      var b, rest := blocks[0], CallsOf(blocks[1..]);
      if IsToolCall(b) && b.id.Some? && b.id.value != "" then [Call(b.id.value, b.name)] + rest else rest
  }

  function Calls(m: Message): (calls: seq<Call>)
    ensures forall c :: c in calls ==> c.id != ""
  {
    if m.Assistant? && m.content.Some? then CallsOf(m.content.value) else []
  }

  function ResultId(m: Message): Option<string>
  {
    if !m.ToolResult? then None
    else if m.toolCallId.Some? && m.toolCallId.value != "" then m.toolCallId
    else if m.toolUseId.Some? && m.toolUseId.value != "" then m.toolUseId
    else None
  }

  /** An assistant turn whose calls are to be paired: not errored or aborted, with some call. */
  predicate Answering(m: Message)
  {
    m.Assistant? && m.stop.Regular? && Calls(m) != []
  }

  function CallIds(calls: seq<Call>): set<string>
  {
    set c | c in calls :: c.id
  }

  function MissingResult(c: Call): Message
  {
    ToolResult(Some(c.id), None, MissingBody(if c.name.Some? then c.name.value else "unknown"))
  }

  // ----- specification of the repair -----

  datatype Report = Report(out: seq<Message>, added: seq<Message>, dups: nat, orphans: nat, changed: bool)

  const NOTHING := Report([], [], 0, 0, false)

  function Merge(a: Report, b: Report): Report
  {
    Report(a.out + b.out, a.added + b.added, a.dups + b.dups, a.orphans + b.orphans, a.changed || b.changed)
  }

  /** Messages up to the next assistant. */
  function SpanLen(ms: seq<Message>): (n: nat)
    ensures n <= |ms|
    ensures forall k :: 0 <= k < n ==> !ms[k].Assistant?
    ensures n < |ms| ==> ms[n].Assistant?
  {
    if ms == [] || ms[0].Assistant? then 0 else 1 + SpanLen(ms[1..])
  }

  function NonResults(ms: seq<Message>): seq<Message>
  {
    if ms == [] then []
    else if ms[0].ToolResult? then NonResults(ms[1..])
    else [ms[0]] + NonResults(ms[1..])
  }

  function FirstResult(span: seq<Message>, id: string): (r: Option<Message>)
    ensures r.Some? ==> r.value in span && r.value.ToolResult? && ResultId(r.value) == Some(id)
    ensures r.None? ==> forall m :: m in span ==> ResultId(m) != Some(id)
  {
    if span == [] then None
    else if ResultId(span[0]) == Some(id) then Some(span[0])
    else FirstResult(span[1..], id)
  }

  /** Scanning a span: a result of no call is an orphan, a result of a seen id is a duplicate. */
  function ScanOrphans(span: seq<Message>, ids: set<string>): nat
  {
    if span == [] then 0
    else
      var id := ResultId(span[0]);
      (if span[0].ToolResult? && (id.None? || id.value !in ids) then 1 else 0) + ScanOrphans(span[1..], ids)
  }

  function ScanDups(span: seq<Message>, ids: set<string>, seen: set<string>): nat
  {
    if span == [] then 0
    else
      var id := ResultId(span[0]);
      (if id.Some? && id.value in ids && id.value in seen then 1 else 0) + ScanDups(span[1..], ids, seen)
  }

  predicate AnyFound(span: seq<Message>, ids: set<string>, seen: set<string>)
  {
    exists m :: m in span && ResultId(m).Some? && ResultId(m).value in ids && ResultId(m).value !in seen
  }

  /** One round of the call loop: `seen0` is the set during the scan, `seen` the current one. */
  function PushStep(c: Call, span: seq<Message>, seen0: set<string>, seen: set<string>, synth: bool): Report
  {
    var existing := if c.id in seen0 then None else FirstResult(span, c.id);
    if existing.None? && !synth then NOTHING
    else
      var m := if existing.Some? then existing.value else MissingResult(c);
      Report(if c.id in seen then [] else [m], if existing.None? then [m] else [],
             if c.id in seen then 1 else 0, 0, existing.None? || c.id in seen)
  }

  function Pushes(calls: seq<Call>, span: seq<Message>, seen0: set<string>, seen: set<string>, synth: bool): Report
    decreases |calls|
  {
    if calls == [] then NOTHING
    else
      var step := PushStep(calls[0], span, seen0, seen, synth);
      Merge(step, Pushes(calls[1..], span, seen0, seen + ResultIds(step.out), synth))
  }

  function ResultIds(ms: seq<Message>): set<string>
  {
    set m | m in ms && ResultId(m).Some? :: ResultId(m).value
  }

  function Turn(a: Message, span: seq<Message>, seen: set<string>, synth: bool): Report
  {
    var ids := CallIds(Calls(a));
    var orphans, dups := ScanOrphans(span, ids), ScanDups(span, ids, seen);
    var pushes, rem := Pushes(Calls(a), span, seen, seen, synth), NonResults(span);
    Report([a] + pushes.out + rem, pushes.added, dups + pushes.dups, orphans,
           orphans + dups > 0 || (AnyFound(span, ids, seen) && rem != []) || pushes.changed)
  }

  function Single(m: Message): Report
  {
    if m.ToolResult? then NOTHING.(orphans := 1, changed := true) else NOTHING.(out := [m])
  }

  function Repaired(ms: seq<Message>, seen: set<string>, synth: bool): Report
    decreases |ms|
  {
    if ms == [] then NOTHING
    else if !Answering(ms[0]) then Merge(Single(ms[0]), Repaired(ms[1..], seen, synth))
    else
      var n := 1 + SpanLen(ms[1..]);
      var turn := Turn(ms[0], ms[1..n], seen, synth);
      Merge(turn, Repaired(ms[n..], seen + ResultIds(turn.out), synth))
  }

  /** The list the repair hands back: the rebuilt one only if something changed. */
  function Returned(ms: seq<Message>, synth: bool): seq<Message>
  {
    var r := Repaired(ms, {}, synth);
    if r.changed then r.out else ms
  }

  // ----- the repair, as the loops run -----

  lemma {:induction false} MergeAssoc(a: Report, b: Report, c: Report)
    ensures Merge(Merge(a, b), c) == Merge(a, Merge(b, c))
  {
  }

  /** `found` holds the first result in the span of each call id that is not yet seen. */
  ghost predicate FoundIn(found: map<string, Message>, span: seq<Message>, ids: set<string>, seen: set<string>)
  {
    && (forall id :: id in found <==> id in ids && id !in seen && FirstResult(span, id).Some?)
    && (forall id :: id in found ==> FirstResult(span, id) == Some(found[id]))
  }

  function Remember(found: map<string, Message>, m: Message, ids: set<string>, seen: set<string>): map<string, Message>
  {
    var id := ResultId(m);
    if id.Some? && id.value in ids && id.value !in seen && id.value !in found then found[id.value := m] else found
  }

  lemma {:induction false} FoundNothing(ids: set<string>, seen: set<string>)
    ensures FoundIn(map[], [], ids, seen)
  {
  }

  lemma {:induction false} RememberSound(found: map<string, Message>, span: seq<Message>, m: Message,
      ids: set<string>, seen: set<string>)
    requires FoundIn(found, span, ids, seen)
    ensures FoundIn(Remember(found, m, ids, seen), span + [m], ids, seen)
  {
    FirstResultSnoc(span, m);
  }

  method ScanSpan(messages: seq<Message>, start: nat, ids: set<string>, seen: set<string>)
    returns (j: nat, found: map<string, Message>, remainder: seq<Message>, dups: nat, orphans: nat, changed: bool)
    requires start <= |messages|
    ensures j == start + SpanLen(messages[start..]) <= |messages|
    ensures var span := messages[start..j];
            && remainder == NonResults(span) && FoundIn(found, span, ids, seen)
            && orphans == ScanOrphans(span, ids) && dups == ScanDups(span, ids, seen)
            && changed == (orphans + dups > 0)
  {
    hide FoundIn;
    j, found, remainder, dups, orphans, changed := start, map[], [], 0, 0, false;
    ghost var span := [];
    FoundNothing(ids, seen);
    while j < |messages|
      invariant start <= j <= |messages| && span == messages[start..j]
      invariant SpanLen(messages[start..]) == (j - start) + SpanLen(messages[j..])
      invariant remainder == NonResults(span) && FoundIn(found, span, ids, seen)
      invariant orphans == ScanOrphans(span, ids) && dups == ScanDups(span, ids, seen)
      invariant changed == (orphans + dups > 0)
    {
      var next := messages[j];
      if next.Assistant? { break; }
      assert messages[j..][1..] == messages[j + 1..];
      ScanSnoc(span, next, ids, seen);
      RememberSound(found, span, next, ids, seen);
      if next.ToolResult? {
        var id := ResultId(next);
        if id.Some? && id.value in ids {
          if id.value in seen {
            dups, changed := dups + 1, true;
          } else if id.value !in found {
            found := found[id.value := next];
          }
        } else {
          orphans, changed := orphans + 1, true;
        }
      } else {
        remainder := remainder + [next];
      }
      span, j := span + [next], j + 1;
    }
  }

  lemma {:induction false} ScanSnoc(span: seq<Message>, m: Message, ids: set<string>, seen: set<string>)
    ensures NonResults(span + [m]) == NonResults(span) + (if m.ToolResult? then [] else [m])
    ensures ScanOrphans(span + [m], ids) == ScanOrphans(span, ids) + ScanOrphans([m], ids)
    ensures ScanDups(span + [m], ids, seen) == ScanDups(span, ids, seen) + ScanDups([m], ids, seen)
  {
    if span != [] {
      assert (span + [m])[1..] == span[1..] + [m];
      ScanSnoc(span[1..], m, ids, seen);
    } else {
      assert span + [m] == [m];
    }
  }

  lemma {:induction false} FirstResultSnoc(span: seq<Message>, m: Message)
    ensures forall id :: FirstResult(span + [m], id) ==
              if FirstResult(span, id).Some? then FirstResult(span, id)
              else if ResultId(m) == Some(id) then Some(m) else None
  {
    if span != [] {
      assert (span + [m])[1..] == span[1..] + [m];
      FirstResultSnoc(span[1..], m);
    } else {
      assert span + [m] == [m];
    }
  }

  lemma {:induction false} FoundSomething(span: seq<Message>, ids: set<string>, seen: set<string>,
      found: map<string, Message>)
    requires FoundIn(found, span, ids, seen)
    ensures |found| > 0 <==> AnyFound(span, ids, seen)
  {
    if found != map[] {
      var id :| id in found;
      assert FirstResult(span, id).value in span;
    }
    if AnyFound(span, ids, seen) {
      var m :| m in span && ResultId(m).Some? && ResultId(m).value in ids && ResultId(m).value !in seen;
      assert ResultId(m).value in found;
    }
  }

  method PushResults(calls: seq<Call>, ghost span: seq<Message>, found: map<string, Message>, seen0: set<string>,
      synth: bool)
    returns (out: seq<Message>, added: seq<Message>, seen: set<string>, dups: nat, changed: bool)
    requires FoundIn(found, span, CallIds(calls), seen0) && forall c :: c in calls ==> c.id != ""
    ensures Report(out, added, dups, 0, changed) == Pushes(calls, span, seen0, seen0, synth)
    ensures seen == seen0 + ResultIds(out)
  {
    hide Merge, ResultIds, FoundIn, Pushes;
    out, added, seen, dups, changed := [], [], seen0, 0, false;
    ghost var acc := NOTHING;
    ghost var total := Pushes(calls, span, seen0, seen0, synth);
    MergeNothing(total);
    assert calls[0..] == calls;
    for i := 0 to |calls|
      invariant Matches(acc, out, added, dups, 0, changed)
      invariant Merge(acc, Pushes(calls[i..], span, seen0, seen, synth)) == total
      invariant seen == seen0 + ResultIds(out)
    {
      var call := calls[i];
      ghost var rest, step, seenBefore := calls[i + 1..], PushStep(call, span, seen0, seen, synth), seen;
      assert calls[i..] == [call] + rest;
      PushesUnfold(call, rest, span, seen0, seen, synth);
      FoundCall(calls, call, found, span, seen0);
      PushStepIds(call, span, seen0, seen, synth, out);
      MergeFields(acc, step);
      if call.id in found || synth {
        var existed := call.id in found;
        var m := if existed then found[call.id] else MissingResult(call);
        if !existed {
          added, changed := added + [m], true;
        }
        if call.id in seen {
          dups, changed := dups + 1, true;
        } else {
          seen, out := seen + {call.id}, out + [m];
        }
      }
      assert seen == seenBefore + ResultIds(step.out);
      MergeAssoc(acc, step, Pushes(rest, span, seen0, seen, synth));
      acc := Merge(acc, step);
    }
    PushesDone(span, seen0, seen, synth);
    MergeNothing(acc);
    assert calls[|calls|..] == [];
  }

  ghost predicate Matches(r: Report, out: seq<Message>, added: seq<Message>, dups: nat, orphans: nat, changed: bool)
  {
    r.out == out && r.added == added && r.dups == dups && r.orphans == orphans && r.changed == changed
  }

  lemma {:induction false} PushesDone(span: seq<Message>, seen0: set<string>, seen: set<string>, synth: bool)
    ensures Pushes([], span, seen0, seen, synth) == NOTHING
  {
  }

  lemma {:induction false} MergeNothing(r: Report)
    ensures Merge(NOTHING, r) == r && Merge(r, NOTHING) == r && ResultIds([]) == {}
  {
  }

  lemma {:induction false} PushesUnfold(c: Call, rest: seq<Call>, span: seq<Message>, seen0: set<string>,
      seen: set<string>, synth: bool)
    ensures var step := PushStep(c, span, seen0, seen, synth);
            Pushes([c] + rest, span, seen0, seen, synth) ==
            Merge(step, Pushes(rest, span, seen0, seen + ResultIds(step.out), synth))
  {
    assert ([c] + rest)[1..] == rest;
  }

  lemma {:induction false} FoundCall(calls: seq<Call>, c: Call, found: map<string, Message>, span: seq<Message>,
      seen: set<string>)
    requires c in calls && FoundIn(found, span, CallIds(calls), seen)
    ensures (if c.id in seen then None else FirstResult(span, c.id)) ==
            (if c.id in found then Some(found[c.id]) else None)
  {
    assert c.id in CallIds(calls);
  }

  /** The ids one round makes seen. */
  lemma {:induction false} PushStepIds(c: Call, span: seq<Message>, seen0: set<string>, seen: set<string>,
      synth: bool, out: seq<Message>)
    requires c.id != ""
    ensures var step := PushStep(c, span, seen0, seen, synth);
            && ResultIds(out + step.out) == ResultIds(out) + ResultIds(step.out)
            && ResultIds(step.out) == (if step.out == [] then {} else {c.id})
            && out + [] == out && step.added + [] == step.added
  {
    var step := PushStep(c, span, seen0, seen, synth);
    if step.out != [] {
      assert step.out[0] in step.out && ResultId(step.out[0]) == Some(c.id);
    }
  }

  /** One answering assistant: scan its span, then lay out the turn. */
  method RepairTurn(messages: seq<Message>, i: nat, seen: set<string>, synth: bool)
    returns (j: nat, out: seq<Message>, added: seq<Message>, dups: nat, orphans: nat, changed: bool, seen': set<string>)
    requires i < |messages| && Answering(messages[i])
    ensures j == i + 1 + SpanLen(messages[i + 1..]) <= |messages|
    ensures var turn := Turn(messages[i], messages[i + 1..j], seen, synth);
            Matches(turn, out, added, dups, orphans, changed) && seen' == seen + ResultIds(turn.out)
  {
    hide ResultIds, FoundIn, Calls, NonResults, Answering, Pushes;
    var calls := Calls(messages[i]);
    var found, remainder, block, scanDups, pushDups, scanChanged, pushChanged;
    j, found, remainder, scanDups, orphans, scanChanged := ScanSpan(messages, i + 1, CallIds(calls), seen);
    ghost var span := messages[i + 1..j];
    FoundSomething(span, CallIds(calls), seen, found);
    var moves := |found| > 0 && |remainder| > 0;
    block, added, seen', pushDups, pushChanged := PushResults(calls, span, found, seen, synth);
    TurnResultIds(messages[i], span, seen, synth);
    out := [messages[i]] + block + remainder;
    dups := scanDups + pushDups;
    changed := scanChanged || moves || pushChanged;
  }

  method RepairToolUseResultPairing(messages: seq<Message>, synth: bool)
    returns (result: seq<Message>, added: seq<Message>, droppedDuplicates: nat, droppedOrphans: nat, moved: bool)
    ensures result == Returned(messages, synth)
    ensures var r := Repaired(messages, {}, synth);
            added == r.added && droppedDuplicates == r.dups && droppedOrphans == r.orphans && moved == r.changed
  {
    hide Merge, ResultIds, Answering, Repaired, Turn, SpanLen;
    var out, seen, changed := [], {}, false;
    added, droppedDuplicates, droppedOrphans := [], 0, 0;
    ghost var acc, total := NOTHING, Repaired(messages, {}, synth);
    MergeNothing(total);
    assert messages[0..] == messages;
    var i := 0;
    while i < |messages|
      invariant 0 <= i <= |messages|
      invariant Matches(acc, out, added, droppedDuplicates, droppedOrphans, changed)
      invariant Merge(acc, Repaired(messages[i..], seen, synth)) == total
    {
      var msg := messages[i];
      ghost var rest := messages[i + 1..];
      assert messages[i..] == [msg] + rest;
      RepairedUnfold(msg, rest, seen, synth);
      ghost var step;
      if !Answering(msg) {
        step := Single(msg);
        MergeFields(acc, step);
        if msg.ToolResult? {
          droppedOrphans, changed := droppedOrphans + 1, true;
        } else {
          out := out + [msg];
        }
        i := i + 1;
      } else {
        var j, block, synthetic, dups, orphans, turnChanged, seen' := RepairTurn(messages, i, seen, synth);
        step := Turn(msg, messages[i + 1..j], seen, synth);
        assert rest[..SpanLen(rest)] == messages[i + 1..j] && rest[SpanLen(rest)..] == messages[j..];
        MergeFields(acc, step);
        out := out + block;
        added := added + synthetic;
        droppedDuplicates := droppedDuplicates + dups;
        droppedOrphans := droppedOrphans + orphans;
        changed := changed || turnChanged;
        seen := seen';
        i := j;
      }
      MergeAssoc(acc, step, Repaired(messages[i..], seen, synth));
      acc := Merge(acc, step);
    }
    RepairedDone(seen, synth);
    MergeNothing(acc);
    assert messages[|messages|..] == [];
    result := if changed then out else messages;
    moved := changed;
  }

  lemma {:induction false} RepairedDone(seen: set<string>, synth: bool)
    ensures Repaired([], seen, synth) == NOTHING
  {
  }

  lemma {:induction false} MergeFields(a: Report, b: Report)
    ensures Merge(a, b) ==
            Report(a.out + b.out, a.added + b.added, a.dups + b.dups, a.orphans + b.orphans, a.changed || b.changed)
  {
  }

  lemma {:induction false} RepairedUnfold(m: Message, rest: seq<Message>, seen: set<string>, synth: bool)
    ensures !Answering(m) ==> Repaired([m] + rest, seen, synth) == Merge(Single(m), Repaired(rest, seen, synth))
    ensures Answering(m) ==>
              var n := SpanLen(rest);
              var turn := Turn(m, rest[..n], seen, synth);
              Repaired([m] + rest, seen, synth) == Merge(turn, Repaired(rest[n..], seen + ResultIds(turn.out), synth))
  {
    var ms := [m] + rest;
    assert ms[1..] == rest;
    assert ms[1..1 + SpanLen(rest)] == rest[..SpanLen(rest)];
    assert ms[1 + SpanLen(rest)..] == rest[SpanLen(rest)..];
  }

  /** The ids a turn adds are those of the results it pushed. */
  lemma {:induction false} TurnResultIds(a: Message, span: seq<Message>, seen: set<string>, synth: bool)
    requires Answering(a)
    ensures ResultIds(Turn(a, span, seen, synth).out) == ResultIds(Pushes(Calls(a), span, seen, seen, synth).out)
  {
    NonResultsHaveNoId(span);
  }

  lemma {:induction false} NonResultsHaveNoId(ms: seq<Message>)
    ensures forall m :: m in NonResults(ms) ==> !m.ToolResult? && m in ms
  {
    if ms != [] { NonResultsHaveNoId(ms[1..]); }
  }
}
