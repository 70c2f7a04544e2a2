/** A turn's transcript and the session sanitizer. */
module TurnTranscript {
  import opened Text
  import opened Transcript
  import opened TranscriptLaws
  import opened QuietRepair
  import opened Gathering
  import opened Session
  import A = AgentLoop

  /** How texts, arguments and whole entries are stored; the sanitizer does not look at it. */
  datatype Encoding = Encoding(text: string -> int, args: string -> int, entry: A.Entry -> int)

  function CallBlock(enc: Encoding, c: A.Call): Block
  {
    Record(ToolCallKind, Some(c.id), Some(c.name), true, enc.args(c.args))
  }

  function CallBlocks(enc: Encoding, calls: seq<A.Call>): seq<Block>
  {
    if calls == [] then [] else [CallBlock(enc, calls[0])] + CallBlocks(enc, calls[1..])
  }

  function TextBlock(enc: Encoding, text: string): Block
  {
    Record(OtherKind("text"), None, None, false, enc.text(text))
  }

  /** What the loop writes, as the session file holds it. */
  function ToMessage(enc: Encoding, e: A.Entry): Message
  {
    match e
    case Said(reply) =>
      Assistant(if reply.errored then Errored else Regular("stop"),
                Some([TextBlock(enc, reply.text)] + CallBlocks(enc, reply.calls)), enc.entry(e))
    case ToolResult(id, _) => Message.ToolResult(Some(id), None, Recorded(enc.entry(e)))
    case Instruction(_) => Other(true, enc.entry(e))
  }

  function Messages(enc: Encoding, es: seq<A.Entry>): (ms: seq<Message>)
    ensures |ms| == |es| && forall k :: 0 <= k < |es| ==> ms[k] == ToMessage(enc, es[k])
  {
    if es == [] then [] else [ToMessage(enc, es[0])] + Messages(enc, es[1..])
  }

  // ----- replies that need no repair -----

  predicate ProperCall(c: A.Call)
  {
    !AllBlank(c.id) && !AllBlank(c.name)
  }

  predicate ProperReply(r: A.Reply)
  {
    !r.errored && forall i :: 0 <= i < |r.calls| ==> ProperCall(r.calls[i])
  }

  /** The id of call `i` of entry `p`. */
  ghost predicate Calling(es: seq<A.Entry>, p: int, i: int, id: string)
  {
    0 <= p < |es| && es[p].Said? && 0 <= i < |es[p].reply.calls| && es[p].reply.calls[i].id == id
  }

  /** No reply is an error, every call has an id and a name, and no id is called twice. */
  ghost predicate Proper(es: seq<A.Entry>)
  {
    (forall p :: 0 <= p < |es| && es[p].Said? ==> ProperReply(es[p].reply)) &&
    (forall p, i, q, j, id :: Calling(es, p, i, id) && Calling(es, q, j, id) ==> p == q && i == j)
  }

  lemma {:induction false} CallsOfBlocks(enc: Encoding, calls: seq<A.Call>)
    requires forall i :: 0 <= i < |calls| ==> ProperCall(calls[i])
    ensures |CallsOf(CallBlocks(enc, calls))| == |calls|
    ensures forall i :: 0 <= i < |calls| ==> CallsOf(CallBlocks(enc, calls))[i].id == calls[i].id
    ensures forall b :: b in CallBlocks(enc, calls) ==> !Malformed(b)
    decreases |calls|
  {
    if calls != [] {
      var b, rest := CallBlock(enc, calls[0]), CallBlocks(enc, calls[1..]);
      CallsOfBlocks(enc, calls[1..]);
      assert ProperCall(calls[0]) && calls[0].id != "";
      assert ([b] + rest)[1..] == rest;
      assert CallsOf([b] + rest) == [Call(calls[0].id, Some(calls[0].name))] + CallsOf(rest);
    }
  }

  lemma {:induction false} SaidFacts(enc: Encoding, e: A.Entry)
    requires e.Said? && ProperReply(e.reply)
    ensures var m := ToMessage(enc, e);
            |Calls(m)| == |e.reply.calls| &&
            (forall i :: 0 <= i < |Calls(m)| ==> Calls(m)[i].id == e.reply.calls[i].id) &&
            CleanMessage(m) && (e.reply.calls != [] ==> Answering(m))
  {
    hide Malformed, CallBlocks;
    var t, blocks := TextBlock(enc, e.reply.text), CallBlocks(enc, e.reply.calls);
    CallsOfBlocks(enc, e.reply.calls);
    assert ([t] + blocks)[1..] == blocks;
    assert CallsOf([t] + blocks) == CallsOf(blocks);
    TextIsFine(enc, e.reply.text);
  }

  lemma {:induction false} TextIsFine(enc: Encoding, text: string)
    ensures !Malformed(TextBlock(enc, text))
  {
  }

  lemma {:induction false} TurnIsClean(enc: Encoding, es: seq<A.Entry>)
    requires Proper(es)
    ensures Clean(Messages(enc, es))
  {
    hide ToMessage, CleanMessage, ProperReply, Messages;
    var ms := Messages(enc, es);
    forall m | m in ms ensures CleanMessage(m) {
      var k :| 0 <= k < |ms| && ms[k] == m;
      if es[k].Said? { SaidFacts(enc, es[k]); } else { OthersClean(enc, es[k]); }
    }
  }

  lemma {:induction false} OthersClean(enc: Encoding, e: A.Entry)
    requires !e.Said?
    ensures var m := ToMessage(enc, e);
            CleanMessage(m) && !m.Assistant? && (m.ToolResult? <==> e.ToolResult?) &&
            (e.ToolResult? && e.id != "" ==> IsResult(m) && RId(m) == e.id)
  {
  }

  lemma {:induction false} Kinds(enc: Encoding, e: A.Entry)
    ensures ToMessage(enc, e).Assistant? <==> e.Said?
    ensures ToMessage(enc, e).ToolResult? <==> e.ToolResult?
  {
  }

  // ----- results thread through the replies -----

  ghost predicate NoneSaid(es: seq<A.Entry>, a: int, k: int)
  {
    forall i :: a < i < k && 0 <= i < |es| ==> !es[i].Said?
  }

  lemma {:induction false} Shorter(es: seq<A.Entry>, k: nat)
    requires 0 < k <= |es|
    ensures A.Init(es[..k]) == es[..k - 1] && A.Last(es[..k]) == es[k - 1]
  {
  }

  lemma {:induction false} ThreadedAt(es: seq<A.Entry>, k: nat)
    requires A.Threaded(es) && k < |es| && es[k].ToolResult?
    ensures A.AnswersNext(es[..k], es[k].id)
    decreases |es|
  {
    hide A.AnswersNext;
    if k < |es| - 1 {
      ThreadedAt(A.Init(es), k);
      assert A.Init(es)[..k] == es[..k];
    } else {
      assert A.Init(es) == es[..k];
    }
  }

  lemma {:induction false} OpenIs(es: seq<A.Entry>, a: nat, k: nat)
    requires a < k <= |es| && es[a].Said? && NoneSaid(es, a, k)
    ensures A.OpenCalls(es[..k]) == es[a].reply.calls
    decreases k
  {
    Shorter(es, k);
    if a < k - 1 { OpenIs(es, a, k - 1); }
  }

  lemma {:induction false} LatestSaid(es: seq<A.Entry>, k: nat) returns (a: nat)
    requires 0 < k <= |es| && A.OpenCalls(es[..k]) != []
    ensures a < k && es[a].Said? && NoneSaid(es, a, k)
    decreases k
  {
    assert es[..0] == [];
    Shorter(es, k);
    if es[k - 1].Said? { a := k - 1; } else { a := LatestSaid(es, k - 1); }
  }

  lemma {:induction false} AnsweredGrows(es: seq<A.Entry>, j: nat, k: nat)
    requires j < k <= |es| && es[j].ToolResult? && NoneSaid(es, j, k)
    ensures A.Answered(es[..j]) < A.Answered(es[..k])
    decreases k
  {
    Shorter(es, k);
    if j < k - 1 { AnsweredGrows(es, j, k - 1); }
  }

  /** A result, its assistant and the call it answers. */
  lemma {:induction false} Owner(es: seq<A.Entry>, k: nat) returns (a: nat)
    requires A.Threaded(es) && Proper(es) && k < |es| && es[k].ToolResult?
    ensures a < k && es[a].Said? && NoneSaid(es, a, k)
    ensures Calling(es, a, A.Answered(es[..k]), es[k].id) && es[k].id != ""
  {
    hide Proper, ProperReply;
    ThreadedAt(es, k);
    assert es[..0] == [];
    a := LatestSaid(es, k);
    OpenIs(es, a, k);
    CallHasId(es, a, A.Answered(es[..k]), es[k].id);
  }

  lemma {:induction false} CallHasId(es: seq<A.Entry>, p: int, i: int, id: string)
    requires Proper(es) && Calling(es, p, i, id)
    ensures id != ""
  {
    assert ProperCall(es[p].reply.calls[i]);
  }

  lemma {:induction false} PosOfCall(enc: Encoding, es: seq<A.Entry>, a: nat, i: nat, id: string)
    requires Proper(es) && Calling(es, a, i, id)
    ensures var calls := Calls(ToMessage(enc, es[a])); Pos(calls, id) == i && id in CallIds(calls)
  {
    hide ToMessage, ProperReply, Answering;
    SaidFacts(enc, es[a]);
    var calls := Calls(ToMessage(enc, es[a]));
    forall p | 0 <= p < i ensures calls[p].id != id {
      assert Calling(es, a, p, calls[p].id);
    }
    assert calls[i] in calls;
  }

  /** A reply in the stored transcript is an answer of the loop. */
  lemma {:induction false} StoredReply(enc: Encoding, es: seq<A.Entry>, a: int, k: int) returns (i: nat)
    requires A.Threaded(es) && Proper(es) && Reply(Messages(enc, es), a, k)
    ensures 0 <= a < k < |es| && es[k].ToolResult? && RId(Messages(enc, es)[k]) == es[k].id
    ensures i == A.Answered(es[..k]) && Calling(es, a, i, es[k].id) && NoneSaid(es, a, k)
  {
    hide Proper, A.Threaded, ToMessage, Calls, CallIds, ResultId, Answering;
    var ms := Messages(enc, es);
    Kinds(enc, es[k]);
    var b := Owner(es, k);
    OthersClean(enc, es[k]);
    i := A.Answered(es[..k]);
    SameSaid(enc, es, a, b, k);
  }

  lemma {:induction false} SameSaid(enc: Encoding, es: seq<A.Entry>, a: int, b: int, k: int)
    requires Reply(Messages(enc, es), a, k) && 0 <= b < k && es[b].Said? && NoneSaid(es, b, k)
    ensures a == b
  {
    hide ToMessage, Calls, CallIds, ResultId, Answering;
    var ms := Messages(enc, es);
    AnsweringAssistant(ms[a]);
    Kinds(enc, es[a]);
    Kinds(enc, es[b]);
    assert ms[a] == ToMessage(enc, es[a]) && ms[b] == ToMessage(enc, es[b]);
  }

  lemma {:induction false} StoredNoOrphan(enc: Encoding, es: seq<A.Entry>)
    requires A.Threaded(es) && Proper(es)
    ensures NoOrphan(Messages(enc, es))
  {
    hide Proper, A.Threaded, ToMessage, Calls, ResultId, Answering, ProperReply, Messages;
    var ms := Messages(enc, es);
    forall k | 0 <= k < |ms| && ms[k].ToolResult? ensures exists a :: 0 <= a < k && InSpan(ms, a, k) {
      Kinds(enc, es[k]);
      var a := Owner(es, k);
      var i := A.Answered(es[..k]);
      OthersClean(enc, es[k]);
      ProperAt(es, a);
      SaidFacts(enc, es[a]);
      PosOfCall(enc, es, a, i, es[k].id);
      forall j | a < j <= k ensures !ms[j].Assistant? { Kinds(enc, es[j]); }
      assert InSpan(ms, a, k);
    }
  }

  lemma {:induction false} ProperAt(es: seq<A.Entry>, p: nat)
    requires Proper(es) && p < |es| && es[p].Said?
    ensures ProperReply(es[p].reply)
  {
  }

  lemma {:induction false} StoredOneSpan(enc: Encoding, es: seq<A.Entry>)
    requires A.Threaded(es) && Proper(es)
    ensures OneSpan(Messages(enc, es))
  {
    hide A.Threaded, ToMessage, InSpan, ResultId, Messages;
    var ms := Messages(enc, es);
    forall a, j, b, k | Reply(ms, a, j) && Reply(ms, b, k) && RId(ms[j]) == RId(ms[k]) ensures a == b {
      var p := StoredReply(enc, es, a, j);
      var q := StoredReply(enc, es, b, k);
    }
  }

  lemma {:induction false} StoredInOrder(enc: Encoding, es: seq<A.Entry>)
    requires A.Threaded(es) && Proper(es)
    ensures !OutOfOrder(Messages(enc, es))
  {
    hide A.Threaded, ToMessage, InSpan, Messages, Proper, ResultId, Calls;
    var ms := Messages(enc, es);
    forall a, j, k | j < k && Reply(ms, a, j) && Reply(ms, a, k) ensures Before(Calls(ms[a]), ms[j], ms[k]) {
      var p := StoredReply(enc, es, a, j);
      var q := StoredReply(enc, es, a, k);
      AnsweredGrows(es, j, k);
      PosOfCall(enc, es, a, p, es[j].id);
      PosOfCall(enc, es, a, q, es[k].id);
    }
  }

  /**
    For a turn whose replies are no errors and whose calls have names and ids used once, sanitizing what the
    loop wrote drops no message: it only moves the instructions written between results behind them.
  */
  lemma {:induction false} TurnSurvivesSanitizing(enc: Encoding, es: seq<A.Entry>)
    requires A.Threaded(es) && Proper(es)
    ensures var ms := Messages(enc, es);
            Sanitize(ms) == Gathered(ms) && |Sanitize(ms)| == |ms| &&
            Results(Sanitize(ms)) == Results(ms) && NonResults(Sanitize(ms)) == NonResults(ms)
  {
    hide A.Threaded, Proper, Messages, Sanitize, Gathered, Results, NonResults, NoOrphan, OneSpan, OutOfOrder, Returned;
    hide Quiet, Clean;
    var ms := Messages(enc, es);
    TurnIsClean(enc, es);
    CleanPasses(ms);
    StoredNoOrphan(enc, es);
    StoredOneSpan(enc, es);
    StoredInOrder(enc, es);
    ReturnedGatheredIff(ms);
    GatheredFacts(ms);
  }

  /** A turn and the sanitizing of what it wrote, joined. */
  method TurnThenSanitize(c: A.Setting, w: A.World, before: seq<(A.Call, A.Outcome)>, login: Option<A.Login>,
      wait: bool, enc: Encoding)
    returns (out: seq<Message>, s: A.Run)
    ensures Proper(s.core.messages) ==>
              var ms := Messages(enc, s.core.messages);
              out == Gathered(ms) && Results(out) == Results(ms) && NonResults(out) == NonResults(ms)
  {
    hide A.Threaded, Proper, Messages, Sanitize, Gathered, Results, NonResults;
    var answer;
    ghost var rounds;
    answer, s, rounds := A.RunTurn(c, w, before, login, wait);
    out := SanitizeSessionTranscript(Messages(enc, s.core.messages));
    if Proper(s.core.messages) { TurnSurvivesSanitizing(enc, s.core.messages); }
  }
}
