/** What the session sanitizer does to each message, said on its fields. */
module SessionFields {
  import opened Text
  import opened Transcript
  import opened TranscriptLaws
  import opened QuietRepair
  import opened PairingFields
  import opened Session

  /** A block worth keeping: no tool call, or one with an input, an id and a name that are not blank. */
  predicate Usable(b: Block)
  {
    b.Record? && b.kind in {ToolCallKind, ToolUseKind, FunctionCallKind} ==>
      b.hasInput && b.id.Some? && !AllBlank(b.id.value) && b.name.Some? && !AllBlank(b.name.value)
  }

  function UsableOf(blocks: seq<Block>): seq<Block>
  {
    if blocks == [] then []
    else (if Usable(blocks[0]) then [blocks[0]] else []) + UsableOf(blocks[1..])
  }

  /**
    What becomes of a message that is no tool result: an assistant loses its unusable blocks, and goes if none is
    left or if it is an error without content; every other message stays.
  */
  function Fate(m: Message): seq<Message>
    requires !m.ToolResult?
  {
    if !m.Assistant? then [m]
    else if m.content.None? || m.content.value == [] then (if m.stop == Errored then [] else [m])
    else if UsableOf(m.content.value) == [] then []
    else [m.(content := Some(UsableOf(m.content.value)))]
  }

  function Fates(ms: seq<Message>): seq<Message>
  {
    if ms == [] then []
    else (if ms[0].ToolResult? then [] else Fate(ms[0])) + Fates(ms[1..])
  }

  lemma {:induction false} KeptIsUsable(blocks: seq<Block>)
    ensures KeepBlocks(blocks) == UsableOf(blocks)
    ensures |UsableOf(blocks)| == |blocks| ==> UsableOf(blocks) == blocks
  {
    if blocks != [] { KeptIsUsable(blocks[1..]); }
  }

  lemma {:induction false} FateOne(m: Message)
    ensures NonResults(if IsErrorStub(m) then [] else FixInput(m)) == if m.ToolResult? then [] else Fate(m)
  {
    if m.Assistant? && m.content.Some? { KeptIsUsable(m.content.value); }
    OneNonResult(m);
    forall n: Message | FixInput(m) == [n] ensures NonResults([n]) == if n.ToolResult? then [] else [n] {
      OneNonResult(n);
    }
  }

  lemma {:induction false} OneNonResult(m: Message)
    ensures NonResults([m]) == (if m.ToolResult? then [] else [m]) && NonResults([]) == []
  {
    assert [m][1..] == [];
  }

  lemma {:induction false} FatesAre(ms: seq<Message>)
    ensures NonResults(FixInputs(DropStubs(ms))) == Fates(ms)
  {
    hide NonResults, IsErrorStub, FixInput, Fate;
    if ms == [] {
      OneNonResult(NonObject(0));
    } else {
      var m, rest := ms[0], DropStubs(ms[1..]);
      FatesAre(ms[1..]);
      FateOne(m);
      if IsErrorStub(m) {
        OneNonResult(m);
        assert [] + Fates(ms[1..]) == Fates(ms[1..]);
      } else {
        assert ([m] + rest)[1..] == rest;
        NonResultsConcat(FixInput(m), FixInputs(rest));
      }
    }
  }

  /**
    Sanitizing leaves of the messages that are no results exactly their fates, in order; and each result that is
    left answers a call of the last assistant before it, which was not cut short.
  */
  lemma {:induction false} SanitizedFates(ms: seq<Message>)
    ensures NonResults(Sanitize(ms)) == Fates(ms) && OwnersAsk(Sanitize(ms))
  {
    hide NonResults, Sanitize, FixInputs, DropStubs, Returned, Repaired, OwnersAsk;
    SanitizeFacts(ms);
    FatesAre(ms);
    StripRemovesNothing(ms);
    ReturnedOwners(FixInputs(DropStubs(ms)), false);
  }

  /** A save of at most forty sanitized messages stores them all; a longer one stores what is left of the last forty. */
  lemma {:induction false} SavedFates(ms: seq<Message>)
    ensures |Saved(ms)| <= 40 && (|Sanitize(ms)| <= 40 ==> Saved(ms) == Sanitize(ms))
    ensures |Sanitize(ms)| > 40 ==> NonResults(Saved(ms)) == Fates(Sanitize(ms)[|Sanitize(ms)| - 40..])
  {
    hide NonResults, Sanitize, Fates;
    SaveKeepsWindow(ms);
    SanitizeIdempotent(ms);
    SanitizedFates(Window(Sanitize(ms)));
  }

  /** An item of the file that is read at all: an object with a role. */
  predicate Readable(m: Message)
  {
    m.Assistant? || m.ToolResult? || (m.Other? && m.hasRole)
  }

  function ReadFates(ms: seq<Message>): seq<Message>
  {
    if ms == [] then []
    else (if Readable(ms[0]) && !ms[0].ToolResult? then Fate(ms[0]) else []) + ReadFates(ms[1..])
  }

  lemma {:induction false} CoercedFates(ms: seq<Message>)
    ensures Fates(Coerce(ms)) == ReadFates(ms)
  {
    hide Fate;
    if ms != [] {
      CoercedFates(ms[1..]);
      if Readable(ms[0]) { assert ([ms[0]] + Coerce(ms[1..]))[1..] == Coerce(ms[1..]); }
    }
  }

  /** A load leaves the fates of the readable items. */
  lemma {:induction false} LoadedFates(file: seq<Message>)
    ensures NonResults(Loaded(Some(file))) == ReadFates(file) && OwnersAsk(Loaded(Some(file)))
  {
    hide NonResults, Sanitize, OwnersAsk;
    CoercedFates(file);
    SanitizedFates(Coerce(file));
  }
}
