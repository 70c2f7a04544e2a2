/** When renaming ids and pairing results may change places. */
module PassOrder {
  import opened Text
  import opened Transcript
  import opened TranscriptLaws
  import opened Renaming
  import opened ToolCallIds

  /** The names one renaming pass gives on a transcript. */
  function NamesOn(ms: seq<Message>, env: Env): Renamer
    requires |env.stamp| < MAX_LEN
  {
    Lookup(ResolveAll(NO_NAMES, ms, env))
  }

  ghost predicate Commute(ms: seq<Message>, env: Env, synth: bool)
    requires |env.stamp| < MAX_LEN
  {
    Returned(Rewritten(NO_NAMES, ms, env), synth) == Rewritten(NO_NAMES, Returned(ms, synth), env)
  }

  // ----- renamings that agree -----

  lemma {:induction false} BlocksAgreeIff(rho: Renamer, rho': Renamer, blocks: seq<Block>)
    ensures RenameBlocks(rho, blocks) == RenameBlocks(rho', blocks) <==> Agree(rho, rho', BlockIdSeq(blocks))
  {
    if blocks != [] {
      var b, rest := blocks[0], blocks[1..];
      BlocksAgreeIff(rho, rho', rest);
      ConsEqual(RenameBlock(rho, b), RenameBlock(rho', b), RenameBlocks(rho, rest), RenameBlocks(rho', rest));
      var h := if IsToolCall(b) && b.id.Some? && b.id.value != "" then [b.id.value] else [];
      AgreeConcat(rho, rho', h, BlockIdSeq(rest));
    }
  }

  lemma {:induction false} ConsEqual(b: Block, b': Block, u: seq<Block>, u': seq<Block>)
    ensures [b] + u == [b'] + u' <==> b == b' && u == u'
  {
    assert ([b] + u)[0] == b && ([b'] + u')[0] == b' && ([b] + u)[1..] == u && ([b'] + u')[1..] == u';
  }

  lemma {:induction false} AgreeConcat(rho: Renamer, rho': Renamer, xs: seq<string>, ys: seq<string>)
    ensures Agree(rho, rho', xs + ys) <==> Agree(rho, rho', xs) && Agree(rho, rho', ys)
  {
  }

  lemma {:induction false} MessageAgreeIff(rho: Renamer, rho': Renamer, m: Message)
    ensures RenameMessage(rho, m) == RenameMessage(rho', m) <==> Agree(rho, rho', IdSeq(m))
  {
    if m.Assistant? && m.content.Some? { BlocksAgreeIff(rho, rho', m.content.value); }
  }

  lemma {:induction false} TranscriptAgreeIff(rho: Renamer, rho': Renamer, ms: seq<Message>)
    ensures RenameAll(rho, ms) == RenameAll(rho', ms) <==> forall x :: x in AllIds(ms) ==> rho(x) == rho'(x)
  {
    hide RenameMessage, IdSeq;
    if RenameAll(rho, ms) == RenameAll(rho', ms) {
      forall m, x | m in ms && x in IdSeq(m) ensures rho(x) == rho'(x) {
        var k :| 0 <= k < |ms| && ms[k] == m;
        assert RenameAll(rho, ms)[k] == RenameAll(rho', ms)[k];
        MessageAgreeIff(rho, rho', m);
      }
    }
    if forall x :: x in AllIds(ms) ==> rho(x) == rho'(x) {
      forall k | 0 <= k < |ms| ensures RenameAll(rho, ms)[k] == RenameAll(rho', ms)[k] {
        assert ms[k] in ms;
        MessageAgreeIff(rho, rho', ms[k]);
      }
    }
  }

  /** The passes commute exactly when the repaired transcript is given the names the whole one was. */
  lemma {:induction false} CommuteIffSameNames(ms: seq<Message>, env: Env, synth: bool)
    requires GoodEnv(env) && env.mode.Strict? && |AllIds(ms)| <= 998
    ensures Commute(ms, env, synth) <==>
            forall x :: x in AllIds(Returned(ms, synth)) ==> NamesOn(ms, env)(x) == NamesOn(Returned(ms, synth), env)(x)
  {
    hide Returned, Rewritten, AllIds, ResolveAll, Lookup;
    SanitizeThenRepair(ms, env, synth);
    RewriteIsRenaming(NO_NAMES, Returned(ms, synth), env);
    TranscriptAgreeIff(NamesOn(ms, env), NamesOn(Returned(ms, synth), env), Returned(ms, synth));
  }

  // ----- what the repair pushes -----

  lemma {:induction false} PushedFrom(calls: seq<Call>, span: seq<Message>, seen0: set<string>, seen: set<string>,
      synth: bool, m: Message)
    requires m in Pushes(calls, span, seen0, seen, synth).out
    ensures m.ToolResult? && (m in span || exists c :: c in calls && m == MissingResult(c))
    decreases |calls|
  {
    hide Pushes, PushStep, ResultIds, ResultId;
    if calls == [] {
      PushesDone(span, seen0, seen, synth);
    } else {
      var c, rest := calls[0], calls[1..];
      assert calls == [c] + rest && c in calls;
      PushesUnfold(c, rest, span, seen0, seen, synth);
      var step := PushStep(c, span, seen0, seen, synth);
      if m in step.out {
        StepFrom(c, span, seen0, seen, synth);
      } else {
        PushedFrom(rest, span, seen0, seen + ResultIds(step.out), synth, m);
      }
    }
  }

  lemma {:induction false} StepFrom(c: Call, span: seq<Message>, seen0: set<string>, seen: set<string>, synth: bool)
    ensures forall m :: m in PushStep(c, span, seen0, seen, synth).out ==>
              m.ToolResult? && (m in span || m == MissingResult(c))
  {
    hide ResultId;
  }

  // ----- results that bring no new id -----

  /** Ids brought by the messages that are not results. */
  function Brought(ms: seq<Message>): set<string>
  {
    if ms == [] then {} else (if ms[0].ToolResult? then {} else IdsOf(ms[0])) + Brought(ms[1..])
  }

  /** Every id of a result is known or was brought by a call before it. */
  predicate Led(ms: seq<Message>, known: set<string>)
    decreases |ms|
  {
    ms == [] ||
    (if ms[0].ToolResult? then IdsOf(ms[0]) <= known && Led(ms[1..], known) else Led(ms[1..], known + IdsOf(ms[0])))
  }

  lemma {:induction false} LedConcat(x: seq<Message>, y: seq<Message>, known: set<string>)
    ensures Led(x + y, known) <==> Led(x, known) && Led(y, known + Brought(x))
    decreases |x|
  {
    hide IdsOf;
    if x == [] {
      assert x + y == y && known + {} == known;
    } else {
      assert (x + y)[0] == x[0] && (x + y)[1..] == x[1..] + y;
      var known' := if x[0].ToolResult? then known else known + IdsOf(x[0]);
      LedConcat(x[1..], y, known');
      assert known + Brought(x) == known' + Brought(x[1..]);
    }
  }

  /** Between two assistants nothing brings ids. */
  lemma {:induction false} LedFlat(span: seq<Message>, known: set<string>)
    requires forall m :: m in span ==> !m.Assistant?
    ensures Brought(span) == {}
    ensures Led(span, known) <==> forall m :: m in span && m.ToolResult? ==> IdsOf(m) <= known
    decreases |span|
  {
    if span != [] {
      assert span[0] in span;
      LedFlat(span[1..], known);
      assert known + {} == known;
      assert forall m :: m in span <==> m == span[0] || m in span[1..];
    }
  }

  lemma {:induction false} TurnLed(a: Message, span: seq<Message>, seen: set<string>, synth: bool, known: set<string>)
    requires Answering(a) && (forall m :: m in span ==> !m.Assistant?) && Led([a] + span, known)
    ensures Led(Turn(a, span, seen, synth).out, known) && Brought(Turn(a, span, seen, synth).out) == Brought([a] + span)
  {
    hide Calls, Pushes, ResultIds, NonResults, Led, Brought, IdsOf;
    var pushed, rem := Pushes(Calls(a), span, seen, seen, synth).out, NonResults(span);
    var known' := known + IdsOf(a);
    AloneLed(a, span, known);
    LedFlat(span, known');
    NonResultsHaveNoId(span);
    forall m: Message | m in pushed + rem ensures !m.Assistant? && (m.ToolResult? ==> IdsOf(m) <= known') {
      if m in pushed {
        PushedFrom(Calls(a), span, seen, seen, synth, m);
        MissingIds(a, m);
      }
    }
    LedFlat(pushed + rem, known');
    AloneLed(a, pushed + rem, known);
    assert [a] + pushed + rem == [a] + (pushed + rem);
  }

  lemma {:induction false} MissingIds(a: Message, m: Message)
    requires a.Assistant?
    ensures forall c :: c in Calls(a) && m == MissingResult(c) ==> IdsOf(m) <= IdsOf(a)
  {
    hide Calls;
  }

  lemma {:induction false} AloneLed(a: Message, rest: seq<Message>, known: set<string>)
    requires a.Assistant?
    ensures Led([a] + rest, known) <==> Led(rest, known + IdsOf(a))
    ensures Brought([a] + rest) == IdsOf(a) + Brought(rest)
  {
    hide IdsOf;
    assert ([a] + rest)[1..] == rest;
  }

  lemma {:induction false} RebuiltLed(ms: seq<Message>, seen: set<string>, synth: bool, known: set<string>)
    requires Led(ms, known)
    ensures Led(Repaired(ms, seen, synth).out, known)
    decreases |ms|, 0
  {
    hide Repaired, Turn, ResultIds, IdsOf, Led, Answering, SpanLen, Brought;
    if ms == [] {
      RepairedDone(seen, synth);
    } else {
      var m, rest := ms[0], ms[1..];
      assert ms == [m] + rest;
      RepairedUnfold(m, rest, seen, synth);
      if !Answering(m) {
        SkipLed(m, rest, seen, synth, known);
      } else {
        var n := SpanLen(rest);
        var span, more := rest[..n], rest[n..];
        var turn := Turn(m, span, seen, synth);
        assert ms == ([m] + span) + more;
        LedConcat([m] + span, more, known);
        TurnLed(m, span, seen, synth, known);
        RebuiltLed(more, seen + ResultIds(turn.out), synth, known + Brought(turn.out));
        LedConcat(turn.out, Repaired(more, seen + ResultIds(turn.out), synth).out, known);
      }
    }
  }

  lemma {:induction false} SkipLed(m: Message, rest: seq<Message>, seen: set<string>, synth: bool, known: set<string>)
    requires Led([m] + rest, known) && !Answering(m)
    ensures Led(Single(m).out + Repaired(rest, seen, synth).out, known)
    decreases |rest|, 1
  {
    hide Repaired, IdsOf, Answering;
    assert ([m] + rest)[1..] == rest;
    RebuiltLed(rest, seen, synth, if m.ToolResult? then known else known + IdsOf(m));
    var out := Repaired(rest, seen, synth).out;
    if m.ToolResult? { assert [] + out == out; } else { assert ([m] + out)[1..] == out; }
  }

  // ----- two conditions under which the passes commute -----

  lemma {:induction false} KnownResolve(st: Names, ids: seq<string>, env: Env)
    requires |env.stamp| < MAX_LEN && forall x :: x in ids ==> x in st.next
    ensures ResolveIds(st, ids, env) == st
    decreases |ids|
  {
    if ids != [] { KnownResolve(st, ids[1..], env); }
  }

  lemma {:induction false} LedNames(st: Names, ms: seq<Message>, env: Env)
    requires |env.stamp| < MAX_LEN && Led(ms, st.next.Keys)
    ensures ResolveAll(st, ms, env) == ResolveAll(st, NonResults(ms), env)
    decreases |ms|
  {
    hide IdsOf, IdSeq, ResolveIds;
    if ms != [] {
      IdsAgree(ms[0]);
      if ms[0].ToolResult? {
        KnownResolve(st, IdSeq(ms[0]), env);
        LedNames(st, ms[1..], env);
      } else {
        var st' := ResolveIds(st, IdSeq(ms[0]), env);
        LedNames(st', ms[1..], env);
        assert NonResults(ms) == [ms[0]] + NonResults(ms[1..]);
      }
    }
  }

  /** They commute when no result brings an id that no call before it made. */
  lemma {:induction false} CommuteIfLed(ms: seq<Message>, env: Env, synth: bool)
    requires GoodEnv(env) && env.mode.Strict? && |AllIds(ms)| <= 998 && Led(ms, {})
    ensures Commute(ms, env, synth)
  {
    hide AllIds, Rewritten, ResolveAll, Lookup, NonResults, Repaired, Led;
    CommuteIffSameNames(ms, env, synth);
    RebuiltLed(ms, {}, synth, {});
    RebuiltKeepsNonResults(ms, {}, synth);
    assert NO_NAMES.next.Keys == {};
    LedNames(NO_NAMES, ms, env);
    LedNames(NO_NAMES, Returned(ms, synth), env);
  }

  /** The name an id is given when nothing is in the way. */
  function Base(id: string, env: Env): string
    requires |env.stamp| < MAX_LEN
  {
    MakeUnique(id, {}, env.mode, env.hash, env.stamp)
  }

  lemma {:induction false} BaseIfFree(id: string, used: set<string>, env: Env)
    requires GoodEnv(env) && Base(id, env) !in used
    ensures MakeUnique(id, used, env.mode, env.hash, env.stamp) == Base(id, env)
  {
    hide SanitizeId, ProbeNumbered, ProbeHashed;
    SanitizeFormat(id, env.mode, env.hash);
  }

  /** The ids of `D` have different bases. */
  ghost predicate BasesDistinct(D: set<string>, env: Env)
    requires |env.stamp| < MAX_LEN
  {
    forall x, y :: x in D && y in D && Base(x, env) == Base(y, env) ==> x == y
  }

  /** Names that are all bases. */
  ghost predicate BaseNames(st: Names, D: set<string>, env: Env)
    requires |env.stamp| < MAX_LEN
  {
    st.next.Keys <= D && (forall x :: x in st.next ==> st.next[x] == Base(x, env)) &&
    (forall n :: n in st.used ==> exists x :: x in st.next && n == Base(x, env))
  }

  lemma {:induction false} ResolveBases(st: Names, ids: seq<string>, env: Env, D: set<string>)
    requires GoodEnv(env) && BasesDistinct(D, env) && BaseNames(st, D, env) && forall x :: x in ids ==> x in D
    ensures BaseNames(ResolveIds(st, ids, env), D, env)
    decreases |ids|
  {
    hide Base, MakeUnique;
    if ids != [] {
      var id := ids[0];
      var st' := Resolve(st, id, env);
      if id !in st.next {
        BaseIfFree(id, st.used, env);
        assert st'.next[id] == Base(id, env);
      }
      ResolveBases(st', ids[1..], env, D);
    }
  }

  lemma {:induction false} ResolveAllBases(st: Names, ms: seq<Message>, env: Env, D: set<string>)
    requires GoodEnv(env) && BasesDistinct(D, env) && BaseNames(st, D, env) && AllIds(ms) <= D
    ensures BaseNames(ResolveAll(st, ms, env), D, env)
    decreases |ms|
  {
    hide BasesDistinct, BaseNames, IdSeq, ResolveIds;
    if ms != [] {
      assert ms[0] in ms && AllIds(ms[1..]) <= D;
      assert forall x :: x in IdSeq(ms[0]) ==> x in AllIds(ms);
      ResolveBases(st, IdSeq(ms[0]), env, D);
      ResolveAllBases(ResolveIds(st, IdSeq(ms[0]), env), ms[1..], env, D);
    }
  }

  lemma {:induction false} BaseOnIds(ms: seq<Message>, env: Env, D: set<string>, x: string)
    requires GoodEnv(env) && BasesDistinct(D, env) && AllIds(ms) <= D && x in AllIds(ms)
    ensures NamesOn(ms, env)(x) == Base(x, env)
  {
    hide IdSeq, ResolveAll, BasesDistinct;
    ResolveAllBases(NO_NAMES, ms, env, D);
    ResolveAllExtends(NO_NAMES, ms, env);
  }

  lemma {:induction false} RebuiltIds(ms: seq<Message>, seen: set<string>, synth: bool, D: set<string>)
    requires Within(ms, D)
    ensures Within(Repaired(ms, seen, synth).out, D)
    decreases |ms|
  {
    hide Repaired, ResultIds, IdsOf, Answering, SpanLen, Turn;
    if ms == [] {
      RepairedDone(seen, synth);
    } else {
      var m, rest := ms[0], ms[1..];
      assert ms == [m] + rest && m in ms && Within(rest, D);
      RepairedUnfold(m, rest, seen, synth);
      if !Answering(m) {
        RebuiltIds(rest, seen, synth, D);
      } else {
        var n := SpanLen(rest);
        assert Within(rest[..n], D) && Within(rest[n..], D);
        var turn := Turn(m, rest[..n], seen, synth);
        TurnIds(m, rest[..n], seen, synth, D);
        RebuiltIds(rest[n..], seen + ResultIds(turn.out), synth, D);
      }
    }
  }

  lemma {:induction false} TurnIds(a: Message, span: seq<Message>, seen: set<string>, synth: bool, D: set<string>)
    requires Answering(a) && IdsOf(a) <= D && Within(span, D)
    ensures Within(Turn(a, span, seen, synth).out, D)
  {
    hide Calls, Pushes, ResultIds, NonResults, IdsOf;
    NonResultsHaveNoId(span);
    var pushed := Pushes(Calls(a), span, seen, seen, synth).out;
    forall m | m in pushed ensures IdsOf(m) <= D {
      PushedFrom(Calls(a), span, seen, seen, synth, m);
      MissingIds(a, m);
    }
  }

  lemma {:induction false} ReturnedIds(ms: seq<Message>, synth: bool)
    ensures AllIds(Returned(ms, synth)) <= AllIds(ms)
  {
    hide Repaired, IdSeq, IdsOf;
    var D := AllIds(ms);
    forall m | m in ms ensures IdsOf(m) <= D { IdsAgree(m); }
    RebuiltIds(ms, {}, synth, D);
    forall m, x | m in Returned(ms, synth) && x in IdSeq(m) ensures x in D { IdsAgree(m); }
  }

  /** They also commute, in either mode and for any number of ids, when the ids have different bases. */
  lemma {:induction false} CommuteIfBasesDistinct(ms: seq<Message>, env: Env, synth: bool)
    requires GoodEnv(env) && BasesDistinct(AllIds(ms), env)
    ensures Commute(ms, env, synth)
  {
    hide AllIds, Rewritten, ResolveAll, Lookup, Repaired, Base, Returned;
    var D, rep := AllIds(ms), Returned(ms, synth);
    var rho := (x: string) => Base(x, env);
    ReturnedIds(ms, synth);
    BaseRenaming(ms, env, D);
    BaseRenaming(rep, env, D);
    ReturnedCommutes(rho, D, ms, synth);
  }

  lemma {:induction false} BaseRenaming(ms: seq<Message>, env: Env, D: set<string>)
    requires GoodEnv(env) && BasesDistinct(D, env) && AllIds(ms) <= D
    ensures var rho := (x: string) => Base(x, env);
            Rewritten(NO_NAMES, ms, env) == RenameAll(rho, ms) && OneToOne(rho, D) && Within(ms, D)
  {
    hide Rewritten, ResolveAll, Lookup, MakeUnique, IdSeq, IdsOf;
    var rho := (x: string) => Base(x, env);
    RewriteIsRenaming(NO_NAMES, ms, env);
    forall x | x in AllIds(ms) ensures NamesOn(ms, env)(x) == rho(x) { BaseOnIds(ms, env, D, x); }
    TranscriptAgreeIff(NamesOn(ms, env), rho, ms);
    forall x | x in D ensures Base(x, env) != "" {
      MakeUniqueCanonical(x, {}, env.mode, env.hash, env.stamp);
    }
    forall m | m in ms ensures IdsOf(m) <= D { IdsAgree(m); }
  }

  // ----- exactly when, read off the ids -----

  /** The ids of a transcript in the order they come. */
  function IdsIn(ms: seq<Message>): seq<string>
  {
    if ms == [] then [] else IdSeq(ms[0]) + IdsIn(ms[1..])
  }

  /** The first id of a list that has this base. */
  function Claimant(ids: seq<string>, base: string, env: Env): (r: Option<string>)
    requires |env.stamp| < MAX_LEN
    ensures r.Some? ==> r.value in ids && Base(r.value, env) == base
    ensures r.None? ==> forall x :: x in ids ==> Base(x, env) != base
  {
    if ids == [] then None
    else if Base(ids[0], env) == base then Some(ids[0])
    else Claimant(ids[1..], base, env)
  }

  /** The name an id is given when its base is taken: the base with a hash of the id. */
  function Spare(id: string, env: Env): string
    requires |env.stamp| < MAX_LEN
  {
    var h := env.hash(id, 8);
    Clip(Base(id, env), if |h| <= MAX_LEN then MAX_LEN - |h| else 0) + h
  }

  /** The hashed forms of the ids of `D` meet no base and no other hashed form. */
  ghost predicate SparesApart(D: set<string>, env: Env)
    requires |env.stamp| < MAX_LEN
  {
    (forall x, y :: x in D && y in D ==> Spare(x, env) != Base(y, env)) &&
    (forall x, y :: x in D && y in D && Spare(x, env) == Spare(y, env) ==> x == y)
  }

  /** The name of an id by the order in which ids came. */
  function NameBy(ids: seq<string>, id: string, env: Env): string
    requires |env.stamp| < MAX_LEN
  {
    if Claimant(ids, Base(id, env), env) == Some(id) then Base(id, env) else Spare(id, env)
  }

  lemma {:induction false} ClaimantConcat(xs: seq<string>, ys: seq<string>, base: string, env: Env)
    requires |env.stamp| < MAX_LEN
    ensures Claimant(xs + ys, base, env) ==
            if Claimant(xs, base, env).Some? then Claimant(xs, base, env) else Claimant(ys, base, env)
    decreases |xs|
  {
    hide Base;
    if xs == [] {
      assert xs + ys == ys;
    } else {
      assert (xs + ys)[0] == xs[0] && (xs + ys)[1..] == xs[1..] + ys;
      ClaimantConcat(xs[1..], ys, base, env);
    }
  }

  /** In strict mode a taken base leaves the hashed form, unless that is taken too. */
  lemma {:induction false} SpareIfTaken(id: string, used: set<string>, env: Env)
    requires GoodEnv(env) && env.mode.Strict? && Base(id, env) in used && Spare(id, env) !in used
    ensures MakeUnique(id, used, env.mode, env.hash, env.stamp) == Spare(id, env)
  {
    hide SanitizeId, ProbeNumbered, ProbeHashed;
  }

  /** Names given so far are those the order of the ids gives. */
  ghost predicate NamedBy(st: Names, ids: seq<string>, env: Env)
    requires |env.stamp| < MAX_LEN
  {
    st.next.Keys == (set x | x in ids) && (forall x :: x in st.next ==> st.next[x] == NameBy(ids, x, env)) &&
    st.used == (set x | x in st.next :: st.next[x])
  }

  lemma {:induction false} NamedStep(st: Names, ids: seq<string>, id: string, env: Env, D: set<string>)
    requires GoodEnv(env) && env.mode.Strict? && SparesApart(D, env) && NamedBy(st, ids, env)
    requires id in D && forall x :: x in ids ==> x in D
    ensures NamedBy(Resolve(st, id, env), ids + [id], env)
  {
    hide Base, Spare, MakeUnique, Claimant, NameBy;
    var more := ids + [id];
    forall x | x in ids ensures NameBy(more, x, env) == NameBy(ids, x, env) { NameStays(ids, x, id, env); }
    if id in st.next {
      assert (set x | x in more) == (set x | x in ids);
    } else {
      NewName(st, ids, id, env, D);
      assert (set x | x in more) == (set x | x in ids) + {id};
    }
  }

  lemma {:induction false} NameStays(ids: seq<string>, x: string, id: string, env: Env)
    requires |env.stamp| < MAX_LEN && x in ids
    ensures NameBy(ids + [id], x, env) == NameBy(ids, x, env)
  {
    hide Base, Spare;
    ClaimantConcat(ids, [id], Base(x, env), env);
  }

  lemma {:induction false} NewName(st: Names, ids: seq<string>, id: string, env: Env, D: set<string>)
    requires GoodEnv(env) && env.mode.Strict? && SparesApart(D, env) && NamedBy(st, ids, env)
    requires id in D && id !in ids && forall x :: x in ids ==> x in D
    ensures MakeUnique(id, st.used, env.mode, env.hash, env.stamp) == NameBy(ids + [id], id, env)
  {
    hide Base, Spare, MakeUnique, Claimant;
    var base := Base(id, env);
    ClaimantConcat(ids, [id], base, env);
    OnlyClaimant(id, env);
    var first := Claimant(ids, base, env);
    if first.Some? {
      ClaimantHolds(ids, base, env);
      assert st.next[first.value] == base && base in st.used;
      forall x | x in st.next ensures st.next[x] != Spare(id, env) {}
      SpareIfTaken(id, st.used, env);
    } else {
      forall x | x in st.next ensures st.next[x] != base {}
      BaseIfFree(id, st.used, env);
    }
  }

  lemma {:induction false} OnlyClaimant(id: string, env: Env)
    requires |env.stamp| < MAX_LEN
    ensures Claimant([id], Base(id, env), env) == Some(id)
  {
    hide Base;
  }

  lemma {:induction false} ClaimantHolds(ids: seq<string>, base: string, env: Env)
    requires |env.stamp| < MAX_LEN && Claimant(ids, base, env).Some?
    ensures var x := Claimant(ids, base, env).value; x in ids && NameBy(ids, x, env) == base
  {
    hide Base, Spare;
  }

  lemma {:induction false} NamedIds(st: Names, ids: seq<string>, more: seq<string>, env: Env, D: set<string>)
    requires GoodEnv(env) && env.mode.Strict? && SparesApart(D, env) && NamedBy(st, ids, env)
    requires forall x :: x in ids + more ==> x in D
    ensures NamedBy(ResolveIds(st, more, env), ids + more, env)
    decreases |more|
  {
    hide NamedBy, SparesApart, Resolve;
    if more == [] {
      assert ids + more == ids;
    } else {
      assert more[0] in ids + more;
      assert (ids + [more[0]]) + more[1..] == ids + more;
      NamedStep(st, ids, more[0], env, D);
      NamedIds(Resolve(st, more[0], env), ids + [more[0]], more[1..], env, D);
    }
  }

  lemma {:induction false} NamedAll(st: Names, ids: seq<string>, ms: seq<Message>, env: Env, D: set<string>)
    requires GoodEnv(env) && env.mode.Strict? && SparesApart(D, env) && NamedBy(st, ids, env)
    requires forall x :: x in ids + IdsIn(ms) ==> x in D
    ensures NamedBy(ResolveAll(st, ms, env), ids + IdsIn(ms), env)
    decreases |ms|
  {
    hide NamedBy, SparesApart, ResolveIds, IdSeq;
    if ms == [] {
      assert ids + [] == ids;
    } else {
      var first, rest := IdSeq(ms[0]), IdsIn(ms[1..]);
      assert (ids + first) + rest == ids + IdsIn(ms);
      assert forall x :: x in ids + first ==> x in ids + IdsIn(ms);
      NamedIds(st, ids, first, env, D);
      NamedAll(ResolveIds(st, first, env), ids + first, ms[1..], env, D);
    }
  }

  lemma {:induction false} IdsInMembers(ms: seq<Message>)
    ensures forall x :: x in IdsIn(ms) <==> x in AllIds(ms)
    decreases |ms|
  {
    hide IdSeq;
    if ms != [] {
      IdsInMembers(ms[1..]);
      assert forall m :: m in ms <==> m == ms[0] || m in ms[1..];
    }
  }

  lemma {:induction false} NameOnIs(ms: seq<Message>, env: Env, D: set<string>, x: string)
    requires GoodEnv(env) && env.mode.Strict? && SparesApart(D, env) && AllIds(ms) <= D && x in AllIds(ms)
    ensures NamesOn(ms, env)(x) == NameBy(IdsIn(ms), x, env)
  {
    hide SparesApart, AllIds, IdsIn, ResolveAll, NameBy;
    IdsInMembers(ms);
    assert [] + IdsIn(ms) == IdsIn(ms);
    NoneNamed(env);
    NamedAll(NO_NAMES, [], ms, env, D);
  }

  lemma {:induction false} NoneNamed(env: Env)
    requires |env.stamp| < MAX_LEN
    ensures NamedBy(NO_NAMES, [], env)
  {
  }

  /** Whoever first claims the base of a kept id claims it after pairing too. */
  ghost predicate ClaimsSurvive(ms: seq<Message>, env: Env, synth: bool)
    requires |env.stamp| < MAX_LEN
  {
    forall x :: x in AllIds(Returned(ms, synth)) ==>
      Claimant(IdsIn(ms), Base(x, env), env) == Claimant(IdsIn(Returned(ms, synth)), Base(x, env), env)
  }

  /**
    Where hashed forms stay apart, the passes commute if and only if every sanitised form that a kept id has is
    first claimed by the same id before and after pairing.
  */
  lemma {:induction false} CommuteIffClaimsSurvive(ms: seq<Message>, env: Env, synth: bool)
    requires GoodEnv(env) && env.mode.Strict? && |AllIds(ms)| <= 998 && SparesApart(AllIds(ms), env)
    ensures Commute(ms, env, synth) <==> ClaimsSurvive(ms, env, synth)
  {
    hide AllIds, Commute, Returned, IdsIn, Base, Spare, Claimant, NamesOn, NameBy, SparesApart;
    var rep, D := Returned(ms, synth), AllIds(ms);
    ReturnedIds(ms, synth);
    IdsInMembers(rep);
    CommuteIffSameNames(ms, env, synth);
    forall x | x in AllIds(rep)
      ensures NamesOn(ms, env)(x) == NamesOn(rep, env)(x) <==> NameBy(IdsIn(ms), x, env) == NameBy(IdsIn(rep), x, env)
    {
      NameOnIs(ms, env, D, x);
      NameOnIs(rep, env, D, x);
    }
    if ClaimsSurvive(ms, env, synth) {
      forall x | x in AllIds(rep) ensures NameBy(IdsIn(ms), x, env) == NameBy(IdsIn(rep), x, env) {
        SameClaimSameName(IdsIn(ms), IdsIn(rep), x, env);
      }
    }
    if forall x :: x in AllIds(rep) ==> NameBy(IdsIn(ms), x, env) == NameBy(IdsIn(rep), x, env) {
      forall x | x in AllIds(rep)
        ensures Claimant(IdsIn(ms), Base(x, env), env) == Claimant(IdsIn(rep), Base(x, env), env)
      {
        var y := HolderOf(IdsIn(rep), x, env);
        SpareNotBase(D, y, env);
        NameDecides(IdsIn(ms), IdsIn(rep), y, env);
      }
    }
  }

  lemma {:induction false} SameClaimSameName(ids: seq<string>, ids': seq<string>, x: string, env: Env)
    requires |env.stamp| < MAX_LEN && Claimant(ids, Base(x, env), env) == Claimant(ids', Base(x, env), env)
    ensures NameBy(ids, x, env) == NameBy(ids', x, env)
  {
    hide Base, Spare, Claimant;
  }

  lemma {:induction false} HolderOf(ids: seq<string>, x: string, env: Env) returns (y: string)
    requires |env.stamp| < MAX_LEN && x in ids
    ensures y in ids && Base(y, env) == Base(x, env) && Claimant(ids, Base(x, env), env) == Some(y)
  {
    hide Base;
    y := Claimant(ids, Base(x, env), env).value;
  }

  lemma {:induction false} SpareNotBase(D: set<string>, x: string, env: Env)
    requires |env.stamp| < MAX_LEN && SparesApart(D, env) && x in D
    ensures Spare(x, env) != Base(x, env)
  {
    hide Base, Spare;
  }

  lemma {:induction false} NameDecides(ids: seq<string>, ids': seq<string>, y: string, env: Env)
    requires |env.stamp| < MAX_LEN && Spare(y, env) != Base(y, env)
    requires NameBy(ids, y, env) == NameBy(ids', y, env) && Claimant(ids', Base(y, env), env) == Some(y)
    ensures Claimant(ids, Base(y, env), env) == Some(y)
  {
    hide Base, Spare, Claimant;
  }

  // ----- and when they do not -----

  /** A transcript that begins with a result of an id nobody called. */
  function Stray(id: string, a: Message, r: Message): seq<Message>
  {
    [ToolResult(Some(id), None, Recorded(0)), a, r]
  }

  function Caller(id: string): Message
  {
    Assistant(Regular("toolUse"), Some([Record(ToolCallKind, Some(id), Some("read"), true, 0)]), 0)
  }

  function Answer(id: string): Message
  {
    ToolResult(Some(id), None, Recorded(1))
  }

  lemma {:induction false} CallerFacts(id: string)
    requires id != ""
    ensures var a := Caller(id);
            Calls(a) == [Call(id, Some("read"))] && Answering(a) && IdSeq(a) == [id] && IdSeq(Answer(id)) == [id]
    ensures Placed([Caller(id), Answer(id)]) && Distinct([Caller(id), Answer(id)])
  {
    hide Placed, Distinct;
    OneBlock(Record(ToolCallKind, Some(id), Some("read"), true, 0), id);
    assert [id] + [] == [id];
    PairShaped(Caller(id), Answer(id));
  }

  lemma {:induction false} OneBlock(b: Block, id: string)
    requires b.Record? && IsToolCall(b) && b.id == Some(id) && id != ""
    ensures CallsOf([b]) == [Call(id, b.name)] && BlockIdSeq([b]) == [id]
  {
    assert [b][1..] == [];
    assert CallsOf([b]) == [Call(id, b.name)] + CallsOf([]);
    assert BlockIdSeq([b]) == [id] + BlockIdSeq([]);
  }

  lemma {:induction false} PairShaped(a: Message, r: Message)
    requires Answering(a) && IsResult(r) && |Calls(a)| == 1 && Calls(a)[0].id == RId(r)
    ensures Placed([a, r]) && Distinct([a, r])
  {
    hide Calls, ResultId, Pos;
    var s := [a, r];
    assert Calls(a)[0] in Calls(a);
    assert a.Assistant? && AnswersAt(s, 0, 1);
  }

  lemma {:induction false} StrayReturned(o: string, id: string)
    requires o != "" && id != ""
    ensures Returned(Stray(o, Caller(id), Answer(id)), false) == [Caller(id), Answer(id)]
  {
    hide Repaired, Answering, Calls, Placed, Distinct;
    var s, rest := Stray(o, Caller(id), Answer(id)), [Caller(id), Answer(id)];
    var m := s[0];
    assert s == [m] + rest;
    CallerFacts(id);
    NotAnswering(m);
    RepairedUnfold(m, rest, {}, false);
    FixedIffShaped(rest);
    assert [] + rest == rest;
  }

  lemma {:induction false} NotAnswering(m: Message)
    ensures m.ToolResult? ==> !Answering(m)
  {
  }

  lemma {:induction false} FirstName(st: Names, ms: seq<Message>, env: Env, id: string)
    requires |env.stamp| < MAX_LEN && ms != [] && IdSeq(ms[0]) == [id]
    ensures ResolveAll(st, ms, env) == ResolveAll(Resolve(st, id, env), ms[1..], env)
    ensures id in ResolveAll(st, ms, env).next && ResolveAll(st, ms, env).next[id] == Resolve(st, id, env).next[id]
  {
    hide IdSeq, Resolve;
    assert [id][1..] == [];
    assert ResolveIds(st, [id], env) == ResolveIds(Resolve(st, id, env), [], env);
    ResolveAllExtends(Resolve(st, id, env), ms[1..], env);
  }

  lemma {:induction false} StrayIds(o: string, id: string)
    requires o != "" && id != ""
    ensures |AllIds(Stray(o, Caller(id), Answer(id)))| <= 2
  {
    hide IdSeq, Caller, Answer;
    var s := Stray(o, Caller(id), Answer(id));
    CallerFacts(id);
    StrayId(o);
    forall m, x | m in s && x in IdSeq(m) ensures x in {o, id} {}
    SubsetSize(AllIds(s), {o, id});
  }

  lemma {:induction false} StrayId(o: string)
    requires o != ""
    ensures IdSeq(ToolResult(Some(o), None, Recorded(0))) == [o]
  {
    assert [o] + [] == [o];
  }

  /**
    A stray result whose id has the base of a later call's id takes that name: renaming first leaves the call
    another name than pairing first does.
  */
  lemma {:induction false} StrayTakesName(o: string, id: string, env: Env)
    requires GoodEnv(env) && env.mode.Strict? && o != "" && id != "" && o != id && Base(o, env) == Base(id, env)
    ensures !Commute(Stray(o, Caller(id), Answer(id)), env, false)
  {
    hide MakeUnique, Returned, Rewritten, Caller, Answer, IdSeq, ResolveAll, Commute;
    var s, rest := Stray(o, Caller(id), Answer(id)), [Caller(id), Answer(id)];
    CallerFacts(id);
    StrayReturned(o, id);
    StrayId(o);
    FirstName(NO_NAMES, s, env, o);
    var st1 := Resolve(NO_NAMES, o, env);
    assert st1.used == {Base(o, env)};
    FirstName(st1, s[1..], env, id);
    FirstName(NO_NAMES, rest, env, id);
    StrictPicksUnused(id, st1.used, env.hash, env.stamp);
    assert NamesOn(s, env)(id) != Base(id, env) && NamesOn(rest, env)(id) == Base(id, env);
    assert Caller(id) in rest && id in IdSeq(Caller(id)) && id in AllIds(rest);
    StrayIds(o, id);
    CommuteIffSameNames(s, env, false);
  }

  /** For example a result of `a_` in front of a call of `a`. */
  lemma {:induction false} StrayExample(env: Env)
    requires GoodEnv(env) && env.mode.Strict?
    ensures !Commute(Stray("a_", Caller("a"), Answer("a")), env, false)
  {
    hide Commute;
    assert "a_"[1..] == "_" && "_"[1..] == "" && "a"[1..] == "";
    assert KeepAlnum("_") == KeepAlnum("") == "";
    assert KeepAlnum("a") == ['a'] + KeepAlnum("") == "a" && KeepAlnum("a_") == ['a'] + KeepAlnum("_") == "a";
    StrayTakesName("a_", "a", env);
  }
}
