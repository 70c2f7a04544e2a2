/** Persisted sessions: what a transcript goes through when it is saved and loaded. */
module Session {
  import opened Text
  import opened Transcript
  import opened TranscriptLaws
  import QuietRepair

  const MAX_SESSION_MESSAGES := 40

  // ----- the three passes -----

  /** An assistant message left behind by a provider error, with nothing in it. */
  predicate IsErrorStub(m: Message)
  {
    m.Assistant? && m.stop.Errored? && !(m.content.Some? && m.content.value != [])
  }

  function DropStubs(ms: seq<Message>): seq<Message>
  {
    if ms == [] then []
    else if IsErrorStub(ms[0]) then DropStubs(ms[1..])
    else [ms[0]] + DropStubs(ms[1..])
  }

  predicate NonBlankField(f: Option<string>)
  {
    f.Some? && !AllBlank(f.value)
  }

  predicate Malformed(b: Block)
  {
    IsToolCall(b) && (!b.hasInput || !NonBlankField(b.id) || !NonBlankField(b.name))
  }

  function KeepBlocks(blocks: seq<Block>): (r: seq<Block>)
    ensures |r| <= |blocks|
    ensures forall b :: b in r ==> b in blocks && !Malformed(b)
  {
    if blocks == [] then []
    else if Malformed(blocks[0]) then KeepBlocks(blocks[1..])
    else [blocks[0]] + KeepBlocks(blocks[1..])
  }

  /** A message after the block filter: none if every block went. */
  function FixInput(m: Message): (r: seq<Message>)
    ensures |r| <= 1
  {
    if !m.Assistant? || m.content.None? then [m]
    else
      var kept := KeepBlocks(m.content.value);
      if |kept| == |m.content.value| then [m]
      else if kept == [] then []
      else [m.(content := Some(kept))]
  }

  function FixInputs(ms: seq<Message>): seq<Message>
  {
    if ms == [] then [] else FixInput(ms[0]) + FixInputs(ms[1..])
  }

  function StripLeading(ms: seq<Message>): seq<Message>
  {
    if ms != [] && ms[0].ToolResult? then StripLeading(ms[1..]) else ms
  }

  function Sanitize(ms: seq<Message>): seq<Message>
  {
    StripLeading(Returned(FixInputs(DropStubs(ms)), false))
  }

  function DroppedBlocks(ms: seq<Message>): nat
  {
    if ms == [] then 0
    else
      (if ms[0].Assistant? && ms[0].content.Some?
       then |ms[0].content.value| - |KeepBlocks(ms[0].content.value)| else 0) + DroppedBlocks(ms[1..])
  }

  method RepairToolCallInputs(messages: seq<Message>)
    returns (result: seq<Message>, droppedToolCalls: nat, droppedAssistantMessages: nat)
    ensures result == FixInputs(messages)
    ensures droppedToolCalls == DroppedBlocks(messages)
    ensures droppedAssistantMessages == |messages| - |FixInputs(messages)|
  {
    hide Malformed, KeepBlocks, FixInputs, DroppedBlocks;
    droppedToolCalls, droppedAssistantMessages := 0, 0;
    NothingToFix();
    var changed, out := false, [];
    assert messages[..0] == [];
    for i := 0 to |messages|
      invariant out == FixInputs(messages[..i]) && droppedToolCalls == DroppedBlocks(messages[..i])
      invariant droppedAssistantMessages == i - |out|
      invariant !changed ==> out == messages[..i]
    {
      var msg := messages[i];
      assert messages[..i + 1] == messages[..i] + [msg];
      FixInputsSnoc(messages[..i], msg);
      if !msg.Assistant? || msg.content.None? {
        out := out + [msg];
      } else {
        var blocks := msg.content.value;
        var nextContent, droppedInMessage := [], 0;
        assert blocks[..0] == [];
        for j := 0 to |blocks|
          invariant nextContent == KeepBlocks(blocks[..j]) && droppedInMessage == j - |nextContent|
          invariant droppedToolCalls == DroppedBlocks(messages[..i]) + droppedInMessage
          invariant droppedInMessage > 0 ==> changed
          invariant !changed ==> out == messages[..i]
        {
          assert blocks[..j + 1] == blocks[..j] + [blocks[j]];
          KeepBlocksSnoc(blocks[..j], blocks[j]);
          if Malformed(blocks[j]) {
            droppedToolCalls, droppedInMessage, changed := droppedToolCalls + 1, droppedInMessage + 1, true;
          } else {
            nextContent := nextContent + [blocks[j]];
          }
        }
        assert blocks[..|blocks|] == blocks;
        if droppedInMessage > 0 {
          if |nextContent| == 0 {
            droppedAssistantMessages := droppedAssistantMessages + 1;
          } else {
            out := out + [msg.(content := Some(nextContent))];
          }
        } else {
          out := out + [msg];
        }
      }
    }
    assert messages[..|messages|] == messages;
    result := if changed then out else messages;
  }

  /** The whole pass: the stub filter, the two repairs, and the counter loop over leading results. */
  method SanitizeSessionTranscript(messages: seq<Message>) returns (out: seq<Message>)
    ensures out == Sanitize(messages)
  {
    hide FixInputs, DropStubs, Returned, Repaired;
    var repairedInputs, _, _ := RepairToolCallInputs(DropStubs(messages));
    var repairedPairing, _, _, _, _ := RepairToolUseResultPairing(repairedInputs, false);
    var start := 0;
    assert repairedPairing[0..] == repairedPairing;
    while start < |repairedPairing| && repairedPairing[start].ToolResult?
      invariant 0 <= start <= |repairedPairing|
      invariant StripLeading(repairedPairing) == StripLeading(repairedPairing[start..])
    {
      start := start + 1;
    }
    out := repairedPairing;
    if start > 0 { out := repairedPairing[start..]; }
  }

  lemma {:induction false} NothingToFix()
    ensures FixInputs([]) == [] && DroppedBlocks([]) == 0 && KeepBlocks([]) == []
  {
  }

  lemma {:induction false} KeepBlocksSnoc(blocks: seq<Block>, b: Block)
    ensures KeepBlocks(blocks + [b]) == KeepBlocks(blocks) + (if Malformed(b) then [] else [b])
  {
    if blocks != [] {
      assert (blocks + [b])[1..] == blocks[1..] + [b];
      KeepBlocksSnoc(blocks[1..], b);
    } else {
      assert blocks + [b] == [b] && [b][1..] == [];
    }
  }

  lemma {:induction false} FixInputsSnoc(ms: seq<Message>, m: Message)
    ensures FixInputs(ms + [m]) == FixInputs(ms) + FixInput(m)
    ensures DroppedBlocks(ms + [m]) == DroppedBlocks(ms) + DroppedBlocks([m])
    ensures DroppedBlocks([m]) == if m.Assistant? && m.content.Some?
                                  then |m.content.value| - |KeepBlocks(m.content.value)| else 0
  {
    hide FixInput, KeepBlocks;
    assert [m][1..] == [];
    if ms != [] {
      assert (ms + [m])[1..] == ms[1..] + [m];
      FixInputsSnoc(ms[1..], m);
      assert FixInput(ms[0]) + (FixInputs(ms[1..]) + FixInput(m)) == FixInput(ms[0]) + FixInputs(ms[1..]) + FixInput(m);
    } else {
      assert ms + [m] == [m] && FixInput(m) + [] == FixInput(m);
    }
  }

  // ----- laws of the sanitizer -----

  predicate CleanMessage(m: Message)
  {
    !IsErrorStub(m) &&
    (m.Assistant? && m.content.Some? ==> forall b :: b in m.content.value ==> !Malformed(b))
  }

  ghost predicate Clean(ms: seq<Message>)
  {
    forall m :: m in ms ==> CleanMessage(m)
  }

  lemma {:induction false} DropStubsFacts(ms: seq<Message>)
    ensures |DropStubs(ms)| <= |ms| && forall m :: m in DropStubs(ms) ==> !IsErrorStub(m)
    ensures Clean(ms) ==> DropStubs(ms) == ms
  {
    if ms != [] {
      assert ms[0] in ms;
      DropStubsFacts(ms[1..]);
    }
  }

  lemma {:induction false} KeepAll(blocks: seq<Block>)
    requires forall b :: b in blocks ==> !Malformed(b)
    ensures KeepBlocks(blocks) == blocks
  {
    if blocks != [] { KeepAll(blocks[1..]); }
  }

  lemma {:induction false} KeepSome(blocks: seq<Block>)
    requires |KeepBlocks(blocks)| == |blocks|
    ensures forall b :: b in blocks ==> !Malformed(b)
  {
    if blocks != [] { KeepSome(blocks[1..]); }
  }

  lemma {:induction false} FixInputFacts(m: Message)
    requires !IsErrorStub(m)
    ensures Clean(FixInput(m))
    ensures CleanMessage(m) ==> FixInput(m) == [m]
  {
    if m.Assistant? && m.content.Some? {
      var blocks := m.content.value;
      if |KeepBlocks(blocks)| == |blocks| { KeepSome(blocks); }
      if CleanMessage(m) { KeepAll(blocks); }
    }
  }

  lemma {:induction false} FixInputsFacts(ms: seq<Message>)
    requires forall m :: m in ms ==> !IsErrorStub(m)
    ensures Clean(FixInputs(ms)) && |FixInputs(ms)| <= |ms|
    ensures Clean(ms) ==> FixInputs(ms) == ms
  {
    hide CleanMessage, FixInput;
    if ms != [] {
      assert ms[0] in ms;
      FixInputFacts(ms[0]);
      FixInputsFacts(ms[1..]);
    }
  }

  /** No orphans, so the list never begins with a result and the final strip removes nothing. */
  lemma {:induction false} StripRemovesNothing(ms: seq<Message>)
    ensures Sanitize(ms) == Returned(FixInputs(DropStubs(ms)), false)
  {
    hide Returned;
    QuietRepair.ReturnedNoOrphan(FixInputs(DropStubs(ms)), false);
  }

  lemma {:induction false} ReturnedFacts(ms: seq<Message>)
    ensures NonResults(Returned(ms, false)) == NonResults(ms)
    ensures |Returned(ms, false)| <= |ms|
    ensures Clean(ms) ==> Clean(Returned(ms, false))
  {
    hide Repaired, NonResults, CleanMessage;
    RebuiltKeepsNonResults(ms, {}, false);
    RebuiltNoLonger(ms, {});
    RebuiltConserves(ms, {});
    var out := Repaired(ms, {}, false).out;
    forall m | m in out ensures m in ms {
      assert m in multiset(out);
      assert multiset(out)[m] <= multiset(ms)[m];
    }
  }

  /** The sanitizer never lengthens, keeps what its filters keep of the other messages, and leaves them clean. */
  lemma {:induction false} SanitizeFacts(ms: seq<Message>)
    ensures |Sanitize(ms)| <= |ms|
    ensures NonResults(Sanitize(ms)) == NonResults(FixInputs(DropStubs(ms)))
    ensures Clean(Sanitize(ms))
  {
    hide Returned, NonResults, Clean;
    StripRemovesNothing(ms);
    DropStubsFacts(ms);
    FixInputsFacts(DropStubs(ms));
    ReturnedFacts(FixInputs(DropStubs(ms)));
  }

  lemma {:induction false} CleanPasses(ms: seq<Message>)
    requires Clean(ms)
    ensures FixInputs(DropStubs(ms)) == ms && Sanitize(ms) == Returned(ms, false)
  {
    hide Returned;
    StripRemovesNothing(ms);
    DropStubsFacts(ms);
    FixInputsFacts(ms);
  }

  lemma {:induction false} SanitizeIdempotent(ms: seq<Message>)
    ensures Sanitize(Sanitize(ms)) == Sanitize(ms)
  {
    hide Returned, Clean;
    SanitizeFacts(ms);
    CleanPasses(Sanitize(ms));
    StripRemovesNothing(ms);
    RepairIdempotent(FixInputs(DropStubs(ms)), false);
  }

  // ----- save and load -----

  predicate HasRole(m: Message)
  {
    !m.NonObject? && (m.Other? ==> m.hasRole)
  }

  function Coerce(ms: seq<Message>): seq<Message>
  {
    if ms == [] then []
    else if HasRole(ms[0]) then [ms[0]] + Coerce(ms[1..])
    else Coerce(ms[1..])
  }

  function Window(ms: seq<Message>): seq<Message>
  {
    LastN(ms, MAX_SESSION_MESSAGES)
  }

  function Saved(ms: seq<Message>): seq<Message>
  {
    Sanitize(Window(Sanitize(ms)))
  }

  function Loaded(file: Option<seq<Message>>): seq<Message>
  {
    if file.None? then [] else Sanitize(Coerce(file.value))
  }

  /** The file of one session; None when it does not exist. */
  class SessionFile {
    var file: Option<seq<Message>>

    constructor ()
      ensures file == None
    {
      file := None;
    }

    method Save(messages: seq<Message>)
      modifies this
      ensures file == Some(Saved(messages))
    {
      hide Sanitize;
      var sanitized := SanitizeSessionTranscript(messages);
      var trimmed := sanitized;
      if |sanitized| > MAX_SESSION_MESSAGES { trimmed := sanitized[|sanitized| - MAX_SESSION_MESSAGES..]; }
      var safeTrimmed := SanitizeSessionTranscript(trimmed);
      file := Some(safeTrimmed);
    }

    method Load() returns (messages: seq<Message>)
      ensures messages == Loaded(file)
    {
      hide Sanitize, Coerce;
      if file.None? { return []; }
      messages := SanitizeSessionTranscript(Coerce(file.value));
    }

    method Clear()
      modifies this
      ensures file == None
    {
      file := None;
    }
  }

  /** Every message is an object with a role. */
  ghost predicate AllRoles(ms: seq<Message>)
  {
    forall m :: m in ms ==> HasRole(m)
  }

  lemma {:induction false} AllRolesCons(m: Message, rest: seq<Message>)
    ensures AllRoles([m] + rest) <==> HasRole(m) && AllRoles(rest)
    ensures AllRoles([])
  {
    hide HasRole;
    assert forall x :: x in [m] + rest <==> x == m || x in rest;
  }

  lemma {:induction false} CoerceFacts(ms: seq<Message>)
    ensures |Coerce(ms)| <= |ms|
    ensures AllRoles(ms) <==> |Coerce(ms)| == |ms|
    ensures AllRoles(ms) ==> Coerce(ms) == ms
  {
    hide HasRole, AllRoles;
    if ms == [] {
      AllRolesCons(NonObject(0), []);
    } else {
      assert ms == [ms[0]] + ms[1..];
      AllRolesCons(ms[0], ms[1..]);
      CoerceFacts(ms[1..]);
    }
  }

  lemma {:induction false} RoleOfNonResults(ms: seq<Message>)
    ensures AllRoles(ms) <==> AllRoles(NonResults(ms))
  {
    hide HasRole, AllRoles;
    if ms != [] {
      assert ms == [ms[0]] + ms[1..];
      AllRolesCons(ms[0], ms[1..]);
      AllRolesCons(ms[0], NonResults(ms[1..]));
      ResultsHaveRoles(ms[0]);
      RoleOfNonResults(ms[1..]);
    }
  }

  lemma {:induction false} ResultsHaveRoles(m: Message)
    ensures m.ToolResult? ==> HasRole(m)
  {
  }

  /** A save stores at most 40 messages and every non-result of the last-40 window, in order. */
  lemma {:induction false} SaveKeepsWindow(ms: seq<Message>)
    ensures |Saved(ms)| <= MAX_SESSION_MESSAGES
    ensures NonResults(Saved(ms)) == NonResults(Window(Sanitize(ms)))
  {
    hide Sanitize, NonResults, CleanMessage;
    SanitizeFacts(ms);
    var w := Window(Sanitize(ms));
    assert Clean(w);
    CleanPasses(w);
    SanitizeFacts(w);
  }

  /**
    A load after a save returns exactly what was saved if and only if every message of the window
    is an object with a role.
  */
  lemma {:induction false} LoadAfterSave(ms: seq<Message>)
    ensures Loaded(Some(Saved(ms))) == Saved(ms) <==> AllRoles(Window(Sanitize(ms)))
  {
    hide Sanitize, NonResults, Coerce, AllRoles, Window;
    var saved, w := Saved(ms), Window(Sanitize(ms));
    SaveKeepsWindow(ms);
    RoleOfNonResults(saved);
    RoleOfNonResults(w);
    CoerceFacts(saved);
    SanitizeFacts(Coerce(saved));
    SanitizeIdempotent(w);
  }

  lemma {:induction false} RolelessFiltered(m: Message)
    requires !HasRole(m)
    ensures DropStubs([m]) == [m] && FixInputs([m]) == [m] && !Answering(m) && !m.ToolResult?
  {
    assert [m][1..] == [] && [m] + [] == [m];
    assert DropStubs([m]) == [m] + DropStubs([]);
    assert FixInputs([m]) == [m] + FixInputs([]);
  }

  lemma {:induction false} RolelessKept(m: Message)
    requires !HasRole(m)
    ensures Sanitize([m]) == [m]
  {
    hide Repaired, DropStubs, FixInputs, StripLeading, Answering, HasRole;
    RolelessFiltered(m);
    StripRemovesNothing([m]);
    assert [m] == [m] + [];
    RepairedUnfold(m, [], {}, false);
    RepairedDone({}, false);
  }

  lemma {:induction false} RolelessCoerced(m: Message)
    requires !HasRole(m)
    ensures Coerce([m]) == []
  {
    hide HasRole;
    assert [m][1..] == [];
  }

  lemma {:induction false} NothingSanitized()
    ensures Sanitize([]) == []
  {
    hide Repaired, StripLeading;
    StripRemovesNothing([]);
    RepairedDone({}, false);
  }

  /** And it can differ: a message without a role is stored and then not loaded. */
  lemma {:induction false} RolelessNotLoaded(m: Message)
    requires !HasRole(m)
    ensures Saved([m]) == [m] && Loaded(Some(Saved([m]))) == []
  {
    hide Sanitize, Coerce, HasRole;
    RolelessKept(m);
    RolelessCoerced(m);
    NothingSanitized();
  }
}
