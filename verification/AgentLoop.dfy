/** One turn of the agent. */
module AgentLoop {
  import opened Text
  import opened CheckoutGate

  /*
    Rounds of asking the provider and running the tools it calls, then the choice of the message shown to the
    user.  The provider, the tools, the clock and the other sessions are an oracle; the intent and risk
    classifiers are parameters.  The turn's local variables are the record `Run`.
  */

  datatype Call = Call(id: string, name: string, args: string)
  datatype Outcome = Outcome(isError: bool, content: string)
  datatype Reply = Reply(text: string, calls: seq<Call>, errored: bool, errorMessage: string)
  datatype Login = Login(submitted: bool, mfaExpected: bool)

  /** What a successful login answered: nothing more to do, a code to fetch by mail, or a code to ask the user for. */
  datatype Mfa = NoCode | CodeByMail | CodeFromUser

  datatype ToolOutcome = ToolOutcome(name: string, outcome: Outcome)

  /** `past` is the gate's history of all sessions when the turn begins. */
  datatype Setting = Setting(
    session: string,
    message: string,
    startedAt: nat,
    past: seq<Event>,
    phrases: Phrases,
    maxToolRounds: nat,
    compactMode: bool,
    forceToolUse: bool,
    needsVerification: bool,
    identityQuestion: bool,
    siteIntent: bool,
    autoLogin: bool,
    grounded: string -> bool,
    stripped: string -> string,
    asksIdentifier: string -> bool,
    refusesOtp: string -> bool,
    reminds: Call -> bool,
    mutates: Call -> bool,
    verifies: Call -> bool,
    isLogin: Call -> bool,
    risk: (Call, seq<ToolOutcome>) -> Option<string>,
    loginState: Outcome -> Option<Login>,
    mfa: Outcome -> Mfa)

  /** The oracle.  `ask` fails when the provider throws; `others` are gate events of other turns. */
  datatype World = World(
    ask: nat -> Option<Reply>,
    savedService: nat -> bool,
    webRecovery: nat -> bool,
    tool: nat -> Outcome,
    clock: nat -> nat,
    others: nat -> seq<Event>,
    screenshots: nat -> seq<(Call, Outcome)>,
    retryLogin: Option<(Call, Outcome, bool)>)

  datatype Prompt =
    | Identity | UseVault | Verify | EmptyReply | Finalize | ForceTools | WebRecovery | MailCode | Reminder

  datatype Entry = Said(reply: Reply) | ToolResult(id: string, outcome: Outcome) | Instruction(prompt: Prompt)

  /**
    One tool call of the turn, as it happened.  `ran` says that the tool was executed, `counted` that the
    failure streak was updated; `past` and `now` are the gate's history and clock when it was checked.
  */
  datatype Step = Step(call: Call, outcome: Outcome, byModel: bool, ran: bool, counted: bool,
                       risk: Option<string>, past: seq<Event>, now: nat)

  /** The part of a turn that its invariant speaks about. */
  datatype Core = Core(
    gate: Sessions,
    history: seq<Event>,
    messages: seq<Entry>,
    outcomes: seq<ToolOutcome>,
    needed: bool,
    satisfied: bool,
    promptSent: bool,
    blocked: bool,
    guardrail: bool,
    streak: nat,
    trace: seq<Step>)

  datatype Run = Run(
    core: Core,
    asks: nat,
    identityRetries: nat,
    emptySent: bool,
    finalSent: bool,
    recoverySent: bool,
    wait: bool,
    last: Option<Reply>,
    login: Option<Login>)

  // ----- what a trace of steps means -----

  function Init<T>(s: seq<T>): seq<T>
    requires s != []
  {
    s[..|s| - 1]
  }

  function Last<T>(s: seq<T>): T
    requires s != []
  {
    s[|s| - 1]
  }

  function Outcomes(trace: seq<Step>): seq<ToolOutcome>
    decreases |trace|
  {
    if trace == [] then []
    else Outcomes(Init(trace)) + [ToolOutcome(Last(trace).call.name, Last(trace).outcome)]
  }

  predicate Succeeded(st: Step)
  {
    !st.outcome.isError && !AllBlank(st.call.name)
  }

  predicate Mutation(c: Setting, st: Step)
  {
    Succeeded(st) && c.mutates(st.call)
  }

  predicate Verification(c: Setting, st: Step)
  {
    Succeeded(st) && c.verifies(st.call)
  }

  /** A verifying call succeeded at or after the last successful mutating one. */
  predicate Verified(c: Setting, trace: seq<Step>)
  {
    exists v :: 0 <= v < |trace| && Verification(c, trace[v]) && forall m :: v < m < |trace| ==> !Mutation(c, trace[m])
  }

  predicate Needed(c: Setting, trace: seq<Step>)
  {
    c.needsVerification || exists m :: 0 <= m < |trace| && Mutation(c, trace[m])
  }

  datatype Flags = Flags(needed: bool, satisfied: bool)

  /** The completion-verification flags after one more call. */
  function Signal(c: Setting, f: Flags, st: Step): Flags
  {
    if !Succeeded(st) then f else
    var needed := f.needed || c.mutates(st.call);
    var satisfied := f.satisfied && !c.mutates(st.call);
    Flags(needed, satisfied || (needed && c.verifies(st.call)))
  }

  function Signals(c: Setting, trace: seq<Step>): Flags
    decreases |trace|
  {
    if trace == [] then Flags(c.needsVerification, !c.needsVerification)
    else Signal(c, Signals(c, Init(trace)), Last(trace))
  }

  lemma {:induction false} NeededStep(c: Setting, trace: seq<Step>)
    requires trace != []
    ensures Needed(c, trace) <==> Needed(c, Init(trace)) || Mutation(c, Last(trace))
  {
    hide Mutation;
    var pre := Init(trace);
    assert forall m :: 0 <= m < |pre| ==> pre[m] == trace[m];
    assert trace[|trace| - 1] == Last(trace);
    assert forall m :: 0 <= m < |trace| - 1 ==> trace[m] == pre[m];
  }

  lemma {:induction false} VerifiedStep(c: Setting, trace: seq<Step>)
    requires trace != []
    ensures Verified(c, trace) <==>
            Verification(c, Last(trace)) || (Verified(c, Init(trace)) && !Mutation(c, Last(trace)))
  {
    hide Mutation, Verification;
    var pre, last := Init(trace), |trace| - 1;
    assert forall m :: 0 <= m < |pre| ==> pre[m] == trace[m];
    if Verification(c, trace[last]) {
      assert Verified(c, trace);
    }
    if v :| 0 <= v < |pre| && Verification(c, pre[v]) && forall m :: v < m < |pre| ==> !Mutation(c, pre[m]) {
      assert Verification(c, trace[v]);
      assert !Mutation(c, trace[last]) ==> Verified(c, trace);
    }
    if v :| 0 <= v < |trace| && Verification(c, trace[v]) && forall m :: v < m < |trace| ==> !Mutation(c, trace[m]) {
      assert v < last ==> Verification(c, pre[v]) && !Mutation(c, trace[last]);
    }
  }

  /** A verified trace without need of it: only a mutation, or the request itself, can ask for verification. */
  lemma {:induction false} SignalsMeaning(c: Setting, trace: seq<Step>)
    ensures Signals(c, trace).needed <==> Needed(c, trace)
    ensures Signals(c, trace).satisfied <==> (Needed(c, trace) ==> Verified(c, trace))
    decreases |trace|
  {
    hide Needed, Verified, Succeeded;
    if trace == [] {
      SignalsNone(c);
    } else {
      SignalsMeaning(c, Init(trace));
      NeededStep(c, trace);
      VerifiedStep(c, trace);
    }
  }

  lemma {:induction false} SignalsNone(c: Setting)
    ensures !Verified(c, []) && (Needed(c, []) <==> c.needsVerification)
  {
  }

  /** What a login call's answer asks for next. */
  function CodeAfter(c: Setting, call: Call, outcome: Outcome): Mfa
  {
    if c.isLogin(call) && !outcome.isError then c.mfa(outcome) else NoCode
  }

  /** Failures in a row among the calls the compact guard counts. */
  function Streak(trace: seq<Step>): nat
    decreases |trace|
  {
    if trace == [] then 0
    else if !Last(trace).counted then Streak(Init(trace))
    else if Last(trace).outcome.isError then Streak(Init(trace)) + 1
    else 0
  }

  /** Failures in a row, as a reader would count them: among the model's calls, since its last success. */
  function TrailingFailures(trace: seq<Step>): nat
    decreases |trace|
  {
    if trace == [] then 0
    else if !Last(trace).byModel then TrailingFailures(Init(trace))
    else if Last(trace).outcome.isError then TrailingFailures(Init(trace)) + 1
    else 0
  }

  predicate Blocked(trace: seq<Step>)
    decreases |trace|
  {
    trace != [] && (!Last(trace).ran || Blocked(Init(trace)))
  }

  /** The gate's history once this turn's message has been seen. */
  function Opening(c: Setting): seq<Event>
  {
    c.past + [Turn(c.session, c.startedAt, c.message)]
  }

  /** The calls the model made that were checked, in order. */
  function ModelCalls(trace: seq<Step>): seq<Call>
    decreases |trace|
  {
    if trace == [] then []
    else if Last(trace).byModel then ModelCalls(Init(trace)) + [Last(trace).call]
    else ModelCalls(Init(trace))
  }

  function ModelSteps(trace: seq<Step>): seq<Step>
    decreases |trace|
  {
    if trace == [] then []
    else if Last(trace).byModel then ModelSteps(Init(trace)) + [Last(trace)]
    else ModelSteps(Init(trace))
  }

  /** A call the runtime makes on its own. */
  function Aside(x: (Call, Outcome)): Step
  {
    Step(x.0, x.1, false, true, false, None, [], 0)
  }

  function Asides(xs: seq<(Call, Outcome)>): (steps: seq<Step>)
    ensures |steps| == |xs| && forall k :: 0 <= k < |xs| ==> steps[k] == Aside(xs[k])
  {
    if xs == [] then [] else [Aside(xs[0])] + Asides(xs[1..])
  }

  /** What every call the model made must satisfy, given the calls before it. */
  ghost predicate LawfulStep(c: Setting, before: seq<Step>, st: Step)
  {
    (st.byModel ==>
       Opening(c) <= st.past && st.risk == c.risk(st.call, Outcomes(before)) &&
       (st.ran <==> (st.risk.Some? ==> Authorised(c.phrases, st.past, c.session, st.now))) &&
       (st.counted <==> CodeAfter(c, st.call, st.outcome).NoCode?) &&
       !Blocked(before) && (c.compactMode ==> Streak(before) < 3)) &&
    (!st.ran ==> st.outcome.isError) && (!st.byModel ==> st.ran && !st.counted)
  }

  ghost predicate Lawful(c: Setting, trace: seq<Step>)
    decreases |trace|
  {
    trace == [] || (Lawful(c, Init(trace)) && LawfulStep(c, Init(trace), Last(trace)))
  }

  lemma {:induction false} LawfulAt(c: Setting, trace: seq<Step>, k: nat)
    requires Lawful(c, trace) && k < |trace|
    ensures LawfulStep(c, trace[..k], trace[k])
    decreases |trace|
  {
    hide LawfulStep;
    if k < |trace| - 1 {
      LawfulAt(c, Init(trace), k);
      assert Init(trace)[..k] == trace[..k] && Init(trace)[k] == trace[k];
    }
  }

  lemma {:induction false} BlockedAt(trace: seq<Step>, k: nat)
    requires k < |trace| && !trace[k].ran
    ensures Blocked(trace)
    decreases |trace|
  {
    if k < |trace| - 1 { BlockedAt(Init(trace), k); }
  }

  /**
    Every purchase the model's calls carried out was authorised; none ran after a blocked call or a third
    failure in a row.
  */
  lemma {:induction false} LawfulMeaning(c: Setting, trace: seq<Step>, k: nat)
    requires Lawful(c, trace) && k < |trace| && trace[k].byModel
    ensures trace[k].ran && c.risk(trace[k].call, Outcomes(trace[..k])).Some? ==>
              Authorised(c.phrases, trace[k].past, c.session, trace[k].now)
    ensures c.past + [Turn(c.session, c.startedAt, c.message)] <= trace[k].past
    ensures forall j :: 0 <= j < k ==> trace[j].ran
    ensures c.compactMode ==> Streak(trace[..k]) < 3
  {
    hide Authorised, Outcomes, Streak, Lawful;
    LawfulAt(c, trace, k);
    forall j | 0 <= j < k ensures trace[j].ran {
      if !trace[j].ran {
        assert trace[..k][j] == trace[j];
        BlockedAt(trace[..k], j);
      }
    }
  }

  // ----- what the failure streak counts -----

  predicate CountedFailure(st: Step)
  {
    st.counted && st.outcome.isError
  }

  predicate CountedSuccess(st: Step)
  {
    st.counted && !st.outcome.isError
  }

  /** A call of the model that logged in and asks for a code: it leaves the round before the streak is updated. */
  predicate AsksForCode(c: Setting, st: Step)
  {
    st.byModel && !CodeAfter(c, st.call, st.outcome).NoCode?
  }

  /** A counted failure with no counted success after it. */
  ghost predicate OpenFailure(trace: seq<Step>, f: nat)
  {
    f < |trace| && CountedFailure(trace[f]) && forall j :: f < j < |trace| ==> !CountedSuccess(trace[j])
  }

  /** Since a failure of the running streak, a login asked for a code. */
  ghost predicate Bridged(c: Setting, trace: seq<Step>)
  {
    exists f: nat, i :: OpenFailure(trace, f) && f < i < |trace| && AsksForCode(c, trace[i])
  }

  lemma {:induction false} OpenFailureStep(trace: seq<Step>, f: nat)
    requires trace != []
    ensures f < |trace| - 1 ==> (OpenFailure(trace, f) <==> OpenFailure(Init(trace), f) && !CountedSuccess(Last(trace)))
    ensures OpenFailure(trace, |trace| - 1) <==> CountedFailure(Last(trace))
  {
    hide CountedFailure, CountedSuccess;
    var pre := Init(trace);
    assert forall j :: 0 <= j < |pre| ==> pre[j] == trace[j];
    assert trace[|trace| - 1] == Last(trace);
  }

  lemma {:induction false} StreakOpen(trace: seq<Step>)
    ensures Streak(trace) > 0 <==> exists f: nat :: OpenFailure(trace, f)
    decreases |trace|
  {
    hide OpenFailure;
    if trace == [] {
      NoFailure();
    } else {
      StreakOpen(Init(trace));
      OpenFailureStep(trace, |trace| - 1);
      if f: nat :| OpenFailure(Init(trace), f) {
        OpenBound(Init(trace), f);
        OpenFailureStep(trace, f);
      }
      if f: nat :| OpenFailure(trace, f) {
        OpenBound(trace, f);
        OpenFailureStep(trace, f);
      }
    }
  }

  lemma {:induction false} NoFailure()
    ensures forall f: nat :: !OpenFailure([], f)
  {
  }

  lemma {:induction false} OpenBound(trace: seq<Step>, f: nat)
    requires OpenFailure(trace, f)
    ensures f < |trace|
  {
  }

  lemma {:induction false} BridgedStep(c: Setting, trace: seq<Step>)
    requires trace != []
    ensures Bridged(c, trace) <==>
            !CountedSuccess(Last(trace)) &&
            (Bridged(c, Init(trace)) || (AsksForCode(c, Last(trace)) && exists f: nat :: OpenFailure(Init(trace), f)))
  {
    hide OpenFailure, AsksForCode, CountedSuccess, CountedFailure;
    var pre, last := Init(trace), |trace| - 1;
    assert forall j :: 0 <= j < |pre| ==> pre[j] == trace[j];
    if Bridged(c, trace) {
      var f: nat, i :| OpenFailure(trace, f) && f < i < |trace| && AsksForCode(c, trace[i]);
      OpenFailureStep(trace, f);
      assert i < last ==> AsksForCode(c, pre[i]);
    }
    if !CountedSuccess(Last(trace)) && Bridged(c, pre) {
      var f: nat, i :| OpenFailure(pre, f) && f < i < |pre| && AsksForCode(c, pre[i]);
      OpenFailureStep(trace, f);
      assert AsksForCode(c, trace[i]);
    }
    if !CountedSuccess(Last(trace)) && AsksForCode(c, Last(trace)) {
      if f: nat :| OpenFailure(pre, f) {
        OpenBound(pre, f);
        OpenFailureStep(trace, f);
        assert AsksForCode(c, trace[last]);
      }
    }
  }

  /**
    The streak is never below the failures in a row, and equals their number if and only if no login that asked
    for a code lies behind a failure the streak still counts.
  */
  lemma {:induction false} StreakIsTrailingIff(c: Setting, trace: seq<Step>)
    requires Lawful(c, trace)
    ensures Streak(trace) >= TrailingFailures(trace)
    ensures Streak(trace) == TrailingFailures(trace) <==> !Bridged(c, trace)
    decreases |trace|
  {
    hide Bridged, OpenFailure, Authorised, Outcomes, Blocked, Opening;
    if trace == [] {
      NothingBridged(c);
    } else {
      StreakIsTrailingIff(c, Init(trace));
      BridgedStep(c, trace);
      StreakOpen(Init(trace));
      if Last(trace).counted && !Last(trace).outcome.isError { NothingAfterSuccess(c, trace); }
    }
  }

  lemma {:induction false} NothingBridged(c: Setting)
    ensures !Bridged(c, [])
  {
  }

  lemma {:induction false} NothingAfterSuccess(c: Setting, trace: seq<Step>)
    requires trace != [] && CountedSuccess(Last(trace))
    ensures !Bridged(c, trace)
  {
    hide OpenFailure;
    BridgedStep(c, trace);
  }

  /** Two failures, a login that asks for a mailed code, a failure: the streak says three. */
  lemma {:induction false} StreakSpansLogin(f: Step, login: Step)
    requires f.byModel && CountedFailure(f) && login.byModel && !login.counted && !login.outcome.isError
    ensures Streak([f, f, login, f]) == 3 && TrailingFailures([f, f, login, f]) == 1
  {
    assert Init([f, f, login, f]) == [f, f, login] && Init([f, f, login]) == [f, f];
    assert Init([f, f]) == [f] && Init([f]) == [];
    assert Streak([f]) == 1 && Streak([f, f]) == 2 && Streak([f, f, login]) == 2;
    assert TrailingFailures([f, f, login]) == 0;
  }

  // ----- a clock that does not run backwards -----

  /** The latest time seen once `n` calls were made. */
  function TimeAt(c: Setting, w: World, n: nat): nat
  {
    if n == 0 then c.startedAt else w.clock(n - 1)
  }

  /** Every event, of this turn and of the others, comes no earlier than those before it. */
  ghost predicate Forward(c: Setting, w: World)
  {
    Clocked(c.past, c.startedAt) && (forall n: nat :: TimeAt(c, w, n) <= w.clock(n)) &&
    forall n: nat :: Clocked(w.others(n), w.clock(n)) && forall e :: e in w.others(n) ==> TimeAt(c, w, n) <= e.now
  }

  ghost predicate Timed(trace: seq<Step>)
  {
    forall k :: 0 <= k < |trace| && trace[k].byModel ==> Clocked(trace[k].past, trace[k].now)
  }

  ghost predicate Timely(c: Setting, w: World, s: Core)
  {
    Forward(c, w) ==> Timed(s.trace) && Clocked(s.history, TimeAt(c, w, |s.trace|))
  }

  lemma {:induction false} TimeGoesOn(c: Setting, w: World, m: nat, n: nat)
    requires Forward(c, w) && m <= n
    ensures TimeAt(c, w, m) <= TimeAt(c, w, n)
    decreases n - m
  {
    hide Forward;
    if m < n {
      TimeGoesOn(c, w, m, n - 1);
      TimeStep(c, w, n - 1);
    }
  }

  lemma {:induction false} TimeStep(c: Setting, w: World, n: nat)
    requires Forward(c, w)
    ensures TimeAt(c, w, n) <= TimeAt(c, w, n + 1)
  {
    hide Clocked;
  }

  lemma {:induction false} ClockedAppend(h: seq<Event>, t: nat, es: seq<Event>, u: nat)
    requires Clocked(h, t) && Clocked(es, u) && t <= u && forall e :: e in es ==> t <= e.now
    ensures Clocked(h + es, u)
  {
    var all := h + es;
    forall i | 0 <= i < |all| ensures all[i].now <= u && (i < |h| ==> all[i].now <= t) &&
        (i >= |h| ==> t <= all[i].now) {
      assert i >= |h| ==> all[i] == es[i - |h|] && es[i - |h|] in es;
    }
    forall i, j | 0 <= i <= j < |all| ensures all[i].now <= all[j].now {
      assert i >= |h| ==> all[i] == es[i - |h|] && all[j] == es[j - |h|];
    }
  }

  /** The gate's history stays in order through one check, and the check is recorded in time. */
  lemma {:induction false} CheckInTime(c: Setting, w: World, s: Core, e: Event)
    requires Timely(c, w, s) && e.now == w.clock(|s.trace|)
    ensures Forward(c, w) ==>
              var past := s.history + w.others(|s.trace|);
              Clocked(past, e.now) && Clocked(past + [e], e.now)
  {
    hide Clocked;
    if Forward(c, w) {
      var n := |s.trace|;
      assert TimeAt(c, w, n) <= w.clock(n);
      ClockedAppend(s.history, TimeAt(c, w, n), w.others(n), w.clock(n));
      ClockedOne(s.history + w.others(n), e);
    }
  }

  lemma {:induction false} ClockedOne(h: seq<Event>, e: Event)
    requires Clocked(h, e.now)
    ensures Clocked(h + [e], e.now)
  {
    ClockedAppend(h, e.now, [e], e.now);
  }

  lemma {:induction false} TimelyAfter(c: Setting, w: World, s: Core, st: Step, s': Core)
    requires Timely(c, w, s) && st.now == w.clock(|s.trace|)
    requires Forward(c, w) ==> Clocked(st.past, st.now) && Clocked(s'.history, st.now)
    requires s'.trace == s.trace + [st]
    ensures Timely(c, w, s')
  {
    hide Clocked, Forward;
  }

  /** Further calls of the runtime do not disturb it. */
  lemma {:induction false} TimelyLater(c: Setting, w: World, s: Core, s': Core)
    requires Timely(c, w, s) && s'.history == s.history && s.trace <= s'.trace
    requires forall k :: |s.trace| <= k < |s'.trace| ==> !s'.trace[k].byModel
    ensures Timely(c, w, s')
  {
    if Forward(c, w) {
      TimeGoesOn(c, w, |s.trace|, |s'.trace|);
      assert forall k :: 0 <= k < |s.trace| ==> s'.trace[k] == s.trace[k];
    }
  }

  /** The session's latest decision before this call is a confirmation under five minutes old. */
  ghost predicate RecentlyConfirmed(c: Setting, st: Step)
  {
    exists j: nat :: LatestDecision(c.phrases, st.past, c.session, j) && Confirms(c.phrases, st.past[j]) &&
                     st.now - st.past[j].now < CONFIRM_TTL_MS
  }

  lemma {:induction false} PurchaseIsConfirmed(c: Setting, trace: seq<Step>, k: nat)
    requires Lawful(c, trace) && k < |trace| && trace[k].byModel && trace[k].ran
    requires c.risk(trace[k].call, Outcomes(trace[..k])).Some? && Clocked(trace[k].past, trace[k].now)
    ensures RecentlyConfirmed(c, trace[k])
  {
    hide Authorised, Lawful, Outcomes, LatestDecision, Confirms;
    LawfulMeaning(c, trace, k);
    AuthorisedIffRecentConfirm(c.phrases, trace[k].past, c.session, trace[k].now);
  }

  /** Every purchase of a turn whose clock goes forward. */
  ghost predicate PurchasesConfirmed(c: Setting, trace: seq<Step>)
  {
    forall k :: 0 <= k < |trace| && trace[k].byModel && trace[k].ran && trace[k].risk.Some? ==>
        RecentlyConfirmed(c, trace[k])
  }

  lemma {:induction false} TimelyPurchases(c: Setting, w: World, s: Core)
    requires Lawful(c, s.trace) && Timely(c, w, s) && Forward(c, w)
    ensures PurchasesConfirmed(c, s.trace)
  {
    hide Clocked, Lawful, Authorised, Outcomes, Streak, Blocked, Forward, RecentlyConfirmed;
    var trace := s.trace;
    forall k | 0 <= k < |trace| && trace[k].byModel && trace[k].ran && trace[k].risk.Some?
      ensures RecentlyConfirmed(c, trace[k])
    {
      LawfulAt(c, trace, k);
      PurchaseIsConfirmed(c, trace, k);
    }
  }

  // ----- the trace is what the oracle said -----

  /** Step `n` of the trace, checked after `past`: time, history and outcome are the oracle's. */
  ghost predicate ToldStep(w: World, n: nat, past: seq<Event>, st: Step)
  {
    st.byModel && st.past == past + w.others(n) && st.now == w.clock(n) && (st.ran ==> st.outcome == w.tool(n))
  }

  /**
    The trace is `base` and then, for each call of the model, its step followed by the screenshots taken after
    it; `history` is what the gate has then seen, the checks of this turn among the events of the others.
  */
  ghost predicate Told(c: Setting, w: World, base: seq<Step>, trace: seq<Step>, history: seq<Event>)
    decreases |trace|
  {
    (trace == base && history == Opening(c)) ||
    exists n: nat, past :: n < |trace| && ToldStep(w, n, past, trace[n]) &&
      trace[n + 1..] == Asides(w.screenshots(n)) &&
      history == trace[n].past + [Check(c.session, trace[n].now, trace[n].risk)] &&
      Told(c, w, base, trace[..n], past)
  }

  lemma {:induction false} ToldMore(c: Setting, w: World, base: seq<Step>, trace: seq<Step>, history: seq<Event>,
      st: Step)
    requires Told(c, w, base, trace, history) && ToldStep(w, |trace|, history, st)
    ensures Told(c, w, base, trace + [st] + Asides(w.screenshots(|trace|)),
                 st.past + [Check(c.session, st.now, st.risk)])
  {
    hide ToldStep, Asides, Opening;
    var n, more := |trace|, trace + [st] + Asides(w.screenshots(|trace|));
    assert more[n] == st && more[..n] == trace && more[n + 1..] == Asides(w.screenshots(n));
    assert ToldStep(w, n, history, more[n]);
  }

  /** The screenshot taken after the model's call `n`. */
  ghost predicate Shot(w: World, trace: seq<Step>, n: int, k: int)
  {
    0 <= n < k < |trace| && trace[n].byModel && k <= n + |w.screenshots(n)| &&
    trace[k] == Aside(w.screenshots(n)[k - n - 1])
  }

  /** The last call of the model, and the turn up to it. */
  lemma {:induction false} LastTold(c: Setting, w: World, base: seq<Step>, trace: seq<Step>, history: seq<Event>)
    returns (n: nat, past: seq<Event>)
    requires Told(c, w, base, trace, history) && trace != base
    ensures n < |trace| && ToldStep(w, n, past, trace[n]) && trace[n + 1..] == Asides(w.screenshots(n))
    ensures Told(c, w, base, trace[..n], past)
  {
    hide Opening, ToldStep, Asides;
    n, past :| n < |trace| && ToldStep(w, n, past, trace[n]) &&
      trace[n + 1..] == Asides(w.screenshots(n)) &&
      history == trace[n].past + [Check(c.session, trace[n].now, trace[n].risk)] &&
      Told(c, w, base, trace[..n], past);
  }

  lemma {:induction false} ShotAfter(w: World, trace: seq<Step>, n: nat, k: nat)
    requires n < k < |trace| && trace[n].byModel && trace[n + 1..] == Asides(w.screenshots(n))
    ensures Shot(w, trace, n, k)
  {
    assert trace[k] == trace[n + 1..][k - n - 1];
  }

  /** Step by step: the model's calls answer what the tools answered, and the others are screenshots. */
  lemma {:induction false} ToldAt(c: Setting, w: World, base: seq<Step>, trace: seq<Step>, history: seq<Event>, k: nat)
    requires Told(c, w, base, trace, history) && |base| <= k < |trace|
    ensures trace[k].byModel ==> trace[k].now == w.clock(k) && (trace[k].ran ==> trace[k].outcome == w.tool(k))
    ensures !trace[k].byModel ==> exists n :: Shot(w, trace, n, k)
    decreases |trace|
  {
    hide Told, Shot, Asides;
    var n, past := LastTold(c, w, base, trace, history);
    if k < n {
      ToldAt(c, w, base, trace[..n], past, k);
      if !trace[k].byModel {
        var i :| Shot(w, trace[..n], i, k);
        ShotLater(w, trace, n, i, k);
      }
    } else if k > n {
      ShotAfter(w, trace, n, k);
    }
  }

  lemma {:induction false} ShotLater(w: World, trace: seq<Step>, n: nat, i: int, k: int)
    requires n <= |trace| && Shot(w, trace[..n], i, k)
    ensures Shot(w, trace, i, k)
  {
  }

  lemma {:induction false} BaseFirst(c: Setting, w: World, base: seq<Step>, trace: seq<Step>, history: seq<Event>)
    requires Told(c, w, base, trace, history)
    ensures base <= trace
    decreases |trace|
  {
    hide Told, ToldStep, Asides;
    if trace != base {
      var n, past := LastTold(c, w, base, trace, history);
      BaseFirst(c, w, base, trace[..n], past);
    }
  }

  // ----- the transcript the turn writes -----

  /** Calls of the latest assistant message. */
  function OpenCalls(messages: seq<Entry>): seq<Call>
    decreases |messages|
  {
    if messages == [] then []
    else if Last(messages).Said? then Last(messages).reply.calls
    else OpenCalls(Init(messages))
  }

  /** Results since the latest assistant message. */
  function Answered(messages: seq<Entry>): nat
    decreases |messages|
  {
    if messages == [] || Last(messages).Said? then 0
    else Answered(Init(messages)) + if Last(messages).ToolResult? then 1 else 0
  }

  /** The id of the first call not yet answered. */
  predicate AnswersNext(messages: seq<Entry>, id: string)
  {
    Answered(messages) < |OpenCalls(messages)| && OpenCalls(messages)[Answered(messages)].id == id
  }

  /** Every tool result answers the next call of the latest assistant message before it. */
  predicate Threaded(messages: seq<Entry>)
    decreases |messages|
  {
    messages == [] ||
    (Threaded(Init(messages)) && (Last(messages).ToolResult? ==> AnswersNext(Init(messages), Last(messages).id)))
  }

  function Prompts(messages: seq<Entry>, p: Prompt): nat
    decreases |messages|
  {
    if messages == [] then 0 else Prompts(Init(messages), p) + if Last(messages) == Instruction(p) then 1 else 0
  }

  function Mutations(c: Setting, trace: seq<Step>): nat
    decreases |trace|
  {
    if trace == [] then 0 else Mutations(c, Init(trace)) + if Mutation(c, Last(trace)) then 1 else 0
  }

  // ----- the transcript and the login state follow from replies and steps -----

  /** After this call the rest of its reply is dropped: a code is to be fetched or asked for. */
  predicate Pauses(c: Setting, st: Step)
  {
    !CodeAfter(c, st.call, st.outcome).NoCode?
  }

  /** What one call of the model leaves in the transcript. */
  function Lines(c: Setting, call: Call, outcome: Outcome): seq<Entry>
  {
    match CodeAfter(c, call, outcome)
    case CodeByMail => [Instruction(MailCode)]
    case CodeFromUser => []
    case NoCode => [ToolResult(call.id, outcome)] + if c.reminds(call) then [Instruction(Reminder)] else []
  }

  /** A call that failed or was no login always leaves its result; a login leaves it unless a code is to come. */
  lemma {:induction false} LinesMeaning(c: Setting, call: Call, outcome: Outcome)
    ensures ToolResult(call.id, outcome) in Lines(c, call, outcome) <==>
            !c.isLogin(call) || outcome.isError || c.mfa(outcome).NoCode?
    ensures Instruction(MailCode) in Lines(c, call, outcome) <==>
            c.isLogin(call) && !outcome.isError && c.mfa(outcome).CodeByMail?
    ensures Lines(c, call, outcome) == [] <==> c.isLogin(call) && !outcome.isError && c.mfa(outcome).CodeFromUser?
    ensures Instruction(Reminder) in Lines(c, call, outcome) <==>
            c.reminds(call) && ToolResult(call.id, outcome) in Lines(c, call, outcome)
  {
    var lines := Lines(c, call, outcome);
    assert lines != [] ==> lines[0] in lines;
  }

  function Written(c: Setting, steps: seq<Step>): seq<Entry>
    decreases |steps|
  {
    if steps == [] then [] else Written(c, Init(steps)) + Lines(c, Last(steps).call, Last(steps).outcome)
  }

  predicate Halted(c: Setting, trace: seq<Step>)
  {
    Blocked(trace) || (c.compactMode && Streak(trace) >= 3)
  }

  /** The steps from `q` on are the calls of one reply in order, up to the first that ends its round. */
  ghost predicate Made(c: Setting, calls: seq<Call>, steps: seq<Step>, q: nat)
    requires q <= |steps|
  {
    var n := |steps| - q;
    n <= |calls| &&
    (forall i :: 0 <= i < n ==> steps[q + i].call == calls[i]) &&
    (forall k :: q <= k < |steps| - 1 ==> !Pauses(c, steps[k])) &&
    (n < |calls| ==> n > 0 && (Pauses(c, Last(steps)) || Halted(c, steps)))
  }

  /** One round: the reply, and what its calls left or the one prompt that follows a reply without calls. */
  ghost predicate Round(c: Setting, reply: Reply, lines: seq<Entry>, steps: seq<Step>, q: nat)
    requires q <= |steps|
  {
    lines != [] && lines[0] == Said(reply) &&
    if reply.calls == [] then q == |steps| && (lines[1..] == [] || exists p :: lines[1..] == [Instruction(p)])
    else lines[1..] == Written(c, steps[q..]) && Made(c, reply.calls, steps, q)
  }

  /** Nobody waits for a code and nothing has stopped the calls: another request may be made. */
  ghost predicate Free(c: Setting, wait: bool, steps: seq<Step>)
  {
    !wait && !AskedUser(c, steps) && !Halted(c, steps)
  }

  /**
    The transcript of `asks` requests, round by round, with the steps of the model's calls; each request is made only
    while the turn is free to.
  */
  ghost predicate Talk(c: Setting, w: World, wait: bool, asks: nat, messages: seq<Entry>, steps: seq<Step>)
  {
    if asks == 0 then messages == [] && steps == []
    else if w.ask(asks - 1).None? then Free(c, wait, steps) && Talk(c, w, wait, asks - 1, messages, steps)
    else exists p: nat, q: nat :: p <= |messages| && q <= |steps| && Free(c, wait, steps[..q]) &&
           Talk(c, w, wait, asks - 1, messages[..p], steps[..q]) &&
           Round(c, w.ask(asks - 1).value, messages[p..], steps, q)
  }

  lemma {:induction false} TalkMore(c: Setting, w: World, wait: bool, asks: nat, messages: seq<Entry>, steps: seq<Step>,
      messages': seq<Entry>, steps': seq<Step>)
    requires Talk(c, w, wait, asks, messages, steps) && w.ask(asks).Some? && messages <= messages' && steps <= steps'
    requires Free(c, wait, steps) && Round(c, w.ask(asks).value, messages'[|messages|..], steps', |steps|)
    ensures Talk(c, w, wait, asks + 1, messages', steps')
  {
    hide Round, Free;
    assert messages'[..|messages|] == messages && steps'[..|steps|] == steps;
  }

  /** The steps from `q` on are the first calls of a reply. */
  ghost predicate Chain(c: Setting, steps: seq<Step>, q: nat, calls: seq<Call>, done: nat)
  {
    done <= |calls| && |steps| == q + done && (forall i :: 0 <= i < done ==> steps[q + i].call == calls[i]) &&
    (forall k :: q <= k < |steps| - 1 ==> !Pauses(c, steps[k]))
  }

  /** The calls of a reply as far as they were made, and what they left. */
  ghost predicate Progress(c: Setting, s: Core, s': Core, calls: seq<Call>, done: nat)
  {
    var steps, q := ModelSteps(s'.trace), |ModelSteps(s.trace)|;
    Chain(c, steps, q, calls, done) && steps[..q] == ModelSteps(s.trace) &&
    s'.messages == s.messages + Written(c, steps[q..])
  }

  lemma {:induction false} ChainMore(c: Setting, a: seq<Step>, st: Step, q: nat, calls: seq<Call>, done: nat)
    requires Chain(c, a, q, calls, done) && done < |calls| && st.call == calls[done]
    requires done > 0 ==> !Pauses(c, Last(a))
    ensures Chain(c, a + [st], q, calls, done + 1)
  {
    hide Pauses;
    var b := a + [st];
    assert forall k :: 0 <= k < |a| ==> b[k] == a[k];
  }

  lemma {:induction false} ProgressStart(c: Setting, s: Core, calls: seq<Call>)
    ensures Progress(c, s, s, calls, 0)
  {
    hide ModelSteps;
    var steps := ModelSteps(s.trace);
    assert steps[|steps|..] == [] && Written(c, []) == [] && s.messages + [] == s.messages;
  }

  lemma {:induction false} ProgressMore(c: Setting, s: Core, s1: Core, s2: Core, calls: seq<Call>, done: nat,
      outcome: Outcome)
    requires Progress(c, s, s1, calls, done) && done < |calls| && Another(s1.trace, s2.trace, calls[done], outcome)
    requires done > 0 ==> !Pauses(c, Last(ModelSteps(s1.trace)))
    requires s2.messages == s1.messages + Lines(c, calls[done], outcome)
    ensures Progress(c, s, s2, calls, done + 1)
  {
    hide ModelSteps, Pauses, Lines, Written, Chain;
    var q, a, b := |ModelSteps(s.trace)|, ModelSteps(s1.trace), ModelSteps(s2.trace);
    assert b == a + [Last(b)];
    ChainMore(c, a, Last(b), q, calls, done);
    ChainBound(c, a, q, calls, done);
    assert b[..q] == a[..q] && b[q..] == a[q..] + [Last(b)];
    WrittenMore(c, a[q..], b[q..]);
    ConcatThree(s.messages, Written(c, a[q..]), Lines(c, calls[done], outcome));
  }

  lemma {:induction false} ConcatThree(x: seq<Entry>, y: seq<Entry>, z: seq<Entry>)
    ensures x + (y + z) == x + y + z
  {
  }

  lemma {:induction false} ChainBound(c: Setting, steps: seq<Step>, q: nat, calls: seq<Call>, done: nat)
    requires Chain(c, steps, q, calls, done)
    ensures q <= |steps|
  {
  }

  lemma {:induction false} WrittenMore(c: Setting, a: seq<Step>, b: seq<Step>)
    requires b != [] && b == a + [Last(b)]
    ensures Written(c, b) == Written(c, a) + Lines(c, Last(b).call, Last(b).outcome)
  {
    hide Lines;
    assert Init(b) == a;
  }

  lemma {:induction false} ProgressEnds(c: Setting, s: Core, s': Core, calls: seq<Call>, done: nat)
    requires Progress(c, s, s', calls, done)
    requires done < |calls| ==> done > 0 && (Pauses(c, Last(ModelSteps(s'.trace))) || Halted(c, ModelSteps(s'.trace)))
    ensures ModelSteps(s.trace) <= ModelSteps(s'.trace) && s.messages <= s'.messages
    ensures Made(c, calls, ModelSteps(s'.trace), |ModelSteps(s.trace)|)
    ensures s'.messages[|s.messages|..] == Written(c, ModelSteps(s'.trace)[|ModelSteps(s.trace)|..])
  {
    hide ModelSteps, Pauses, Halted, Written;
    var steps, q := ModelSteps(s'.trace), |ModelSteps(s.trace)|;
    assert steps == steps[..q] + steps[q..];
  }

  /** Only the model's calls count for the streak and can be blocked. */
  lemma {:induction false} HaltedByModel(c: Setting, trace: seq<Step>)
    requires Lawful(c, trace)
    ensures Blocked(ModelSteps(trace)) == Blocked(trace) && Streak(ModelSteps(trace)) == Streak(trace)
    decreases |trace|
  {
    hide Authorised, Outcomes, Opening;
    if trace != [] {
      HaltedByModel(c, Init(trace));
      if Last(trace).byModel { assert Init(ModelSteps(trace)) == ModelSteps(Init(trace)); }
    }
  }

  /** The login state last reported by a login of the model, or else the first one. */
  function LoginSeen(c: Setting, first: Option<Login>, steps: seq<Step>): Option<Login>
    decreases |steps|
  {
    if steps == [] then first
    else
      var st := Last(steps);
      if c.isLogin(st.call) && !st.outcome.isError && c.loginState(st.outcome).Some? then c.loginState(st.outcome)
      else LoginSeen(c, first, Init(steps))
  }

  predicate AskedUser(c: Setting, steps: seq<Step>)
  {
    exists k :: 0 <= k < |steps| && CodeAfter(c, steps[k].call, steps[k].outcome).CodeFromUser?
  }

  ghost predicate Remembers(c: Setting, login: Option<Login>, wait: bool, s: Run)
  {
    s.login == LoginSeen(c, login, ModelSteps(s.core.trace)) &&
    (s.wait <==> wait || AskedUser(c, ModelSteps(s.core.trace)))
  }

  lemma {:induction false} RememberMore(c: Setting, login: Option<Login>, wait: bool, s: Run, s': Run, call: Call,
      outcome: Outcome)
    requires Remembers(c, login, wait, s) && Another(s.core.trace, s'.core.trace, call, outcome)
    requires s'.wait <==> s.wait || CodeAfter(c, call, outcome).CodeFromUser?
    requires s'.login == if c.isLogin(call) && !outcome.isError && c.loginState(outcome).Some?
                         then c.loginState(outcome) else s.login
    ensures Remembers(c, login, wait, s')
  {
    hide ModelSteps, CodeAfter, LoginSeen, AskedUser;
    var a, b := ModelSteps(s.core.trace), ModelSteps(s'.core.trace);
    assert b == a + [Last(b)];
    LoginMore(c, login, a, Last(b));
    AskedMore(c, a, Last(b));
  }

  lemma {:induction false} LoginMore(c: Setting, first: Option<Login>, a: seq<Step>, st: Step)
    ensures LoginSeen(c, first, a + [st]) ==
            if c.isLogin(st.call) && !st.outcome.isError && c.loginState(st.outcome).Some? then c.loginState(st.outcome)
            else LoginSeen(c, first, a)
  {
    assert Init(a + [st]) == a;
  }

  lemma {:induction false} AskedMore(c: Setting, a: seq<Step>, st: Step)
    ensures AskedUser(c, a + [st]) <==> AskedUser(c, a) || CodeAfter(c, st.call, st.outcome).CodeFromUser?
  {
    hide CodeAfter;
    var b := a + [st];
    assert b[|a|] == st && forall k :: 0 <= k < |a| ==> b[k] == a[k];
  }

  // ----- the invariant of a turn -----

  ghost predicate Inv(c: Setting, s: Core)
  {
    s.gate == After(c.phrases, s.history) &&
    s.outcomes == Outcomes(s.trace) && Lawful(c, s.trace) &&
    Flags(s.needed, s.satisfied) == Signals(c, s.trace) &&
    s.blocked == Blocked(s.trace) &&
    (c.compactMode ==> s.streak == Streak(s.trace)) && (s.guardrail <==> c.compactMode && s.streak >= 3) &&
    Threaded(s.messages) &&
    Prompts(s.messages, Verify) + (if s.promptSent then 0 else 1) <= 1 + Mutations(c, s.trace) &&
    (s.promptSent ==> Prompts(s.messages, Verify) > 0)
  }

  /** Nothing has stopped the model's calls. */
  predicate Open(s: Core)
  {
    !s.blocked && !s.guardrail
  }

  ghost predicate Ready(c: Setting, s: Core)
  {
    Inv(c, s) && Open(s) && Opening(c) <= s.history
  }

  function Push(s: Core, e: Entry): Core
  {
    s.(messages := s.messages + [e])
  }

  lemma {:induction false} PushKeeps(c: Setting, s: Core, e: Entry)
    requires Inv(c, s)
    requires e.ToolResult? ==> AnswersNext(s.messages, e.id)
    requires e != Instruction(Verify)
    ensures Inv(c, Push(s, e))
    ensures OpenCalls(Push(s, e).messages) == if e.Said? then e.reply.calls else OpenCalls(s.messages)
    ensures Answered(Push(s, e).messages) ==
            if e.Said? then 0 else Answered(s.messages) + if e.ToolResult? then 1 else 0
  {
    hide After, Outcomes, Lawful, Signals, Blocked, Streak, Mutations;
  }

  lemma {:induction false} PromptKeeps(c: Setting, s: Core)
    requires Inv(c, s) && !s.promptSent
    ensures Inv(c, Push(s, Instruction(Verify)).(promptSent := true))
  {
    hide After, Outcomes, Lawful, Signals, Blocked, Streak, Mutations;
  }

  /** A mutation asks for verification and re-arms the prompt; a verifying call answers it, even the same one. */
  method RegisterCompletionVerificationSignal(c: Setting, flags: Flags, sent: bool, st: Step)
    returns (flags': Flags, sent': bool)
    ensures flags' == Signal(c, flags, st)
    ensures sent' == (sent && !Mutation(c, st))
  {
    hide AllBlank;
    flags', sent' := flags, sent;
    if st.outcome.isError || AllBlank(st.call.name) { return; }
    if c.mutates(st.call) {
      flags', sent' := Flags(true, false), false;
    }
    if flags'.needed && c.verifies(st.call) {
      flags' := flags'.(satisfied := true);
    }
  }

  /** The verification prompt counts as sent until a mutating call succeeds. */
  ghost predicate StillAsked(c: Setting, s: Core, s': Core)
  {
    |s.trace| <= |s'.trace| &&
    (s'.promptSent <==> s.promptSent && forall k :: |s.trace| <= k < |s'.trace| ==> !Mutation(c, s'.trace[k]))
  }

  lemma {:induction false} StillAskedSelf(c: Setting, s: Core)
    ensures StillAsked(c, s, s)
  {
  }

  lemma {:induction false} StillAskedOne(c: Setting, s: Core, st: Step, s': Core)
    requires s'.trace == s.trace + [st] && (s'.promptSent <==> s.promptSent && !Mutation(c, st))
    ensures StillAsked(c, s, s')
  {
    hide Mutation;
    assert s'.trace[|s.trace|] == st;
  }

  lemma {:induction false} StillAskedOn(c: Setting, s: Core, s1: Core, s2: Core)
    requires StillAsked(c, s, s1) && StillAsked(c, s1, s2) && s1.trace <= s2.trace
    ensures StillAsked(c, s, s2)
  {
    hide Mutation;
    assert forall k :: 0 <= k < |s1.trace| ==> s2.trace[k] == s1.trace[k];
    if forall k :: |s.trace| <= k < |s2.trace| ==> !Mutation(c, s2.trace[k]) {
      assert forall k :: |s.trace| <= k < |s1.trace| ==> !Mutation(c, s1.trace[k]) by {
        assert forall k :: |s.trace| <= k < |s1.trace| ==> !Mutation(c, s2.trace[k]);
      }
    }
  }

  /** Records one call: its outcome, its verification signal and the failure streak. */
  method Record(c: Setting, s: Core, st: Step) returns (s': Core)
    requires Inv(c, s) && LawfulStep(c, s.trace, st)
    ensures Inv(c, s')
    ensures s'.trace == s.trace + [st] && s'.messages == s.messages && s'.history == s.history
    ensures !st.counted && st.ran ==> s'.blocked == s.blocked && s'.guardrail == s.guardrail
    ensures ModelCalls(s'.trace) == ModelCalls(s.trace) + if st.byModel then [st.call] else []
    ensures ModelSteps(s'.trace) == ModelSteps(s.trace) + if st.byModel then [st] else []
    ensures StillAsked(c, s, s')
  {
    hide After, Outcomes, Lawful, Signals, Signal, Blocked, Streak, Mutations, Mutation, Prompts, Threaded, LawfulStep;
    hide StillAsked;
    var flags, sent := RegisterCompletionVerificationSignal(c, Flags(s.needed, s.satisfied), s.promptSent, st);
    var streak :=
      if !c.compactMode || !st.counted then s.streak
      else if st.outcome.isError then s.streak + 1
      else 0;
    s' := s.(trace := s.trace + [st], outcomes := s.outcomes + [ToolOutcome(st.call.name, st.outcome)],
             needed := flags.needed, satisfied := flags.satisfied, promptSent := sent,
             blocked := s.blocked || !st.ran, streak := streak, guardrail := c.compactMode && streak >= 3);
    RecordUnfold(c, s.trace, st);
    StillAskedOne(c, s, st, s');
  }

  lemma {:induction false} RecordUnfold(c: Setting, trace: seq<Step>, st: Step)
    requires Lawful(c, trace) && LawfulStep(c, trace, st)
    ensures var more := trace + [st];
            Outcomes(more) == Outcomes(trace) + [ToolOutcome(st.call.name, st.outcome)] && Lawful(c, more) &&
            Signals(c, more) == Signal(c, Signals(c, trace), st) && Blocked(more) == (!st.ran || Blocked(trace)) &&
            Streak(more) == (if !st.counted then Streak(trace) else if st.outcome.isError then Streak(trace) + 1
                else 0) &&
            Mutations(c, more) == Mutations(c, trace) + (if Mutation(c, st) then 1 else 0) &&
            ModelCalls(more) == ModelCalls(trace) + (if st.byModel then [st.call] else []) &&
            ModelSteps(more) == ModelSteps(trace) + if st.byModel then [st] else []
  {
    hide LawfulStep, Signal, Mutation;
  }

  // ----- the turn -----

  /** Gate events of other turns reach the shared map. */
  method Overhear(c: Setting, s: Core, events: seq<Event>) returns (s': Core)
    requires Inv(c, s)
    ensures Inv(c, s') && s' == s.(gate := s'.gate, history := s.history + events)
  {
    hide After, Apply, Outcomes, Lawful, Signals, Blocked, Streak, Mutations, Prompts, Threaded;
    var gate := s.gate;
    assert s.history + events[..0] == s.history;
    for k := 0 to |events|
      invariant gate == After(c.phrases, s.history + events[..k])
    {
      AfterOneMore(c.phrases, s.history + events[..k], events[k]);
      assert s.history + events[..k] + [events[k]] == s.history + events[..k + 1];
      gate := Apply(c.phrases, gate, events[k]);
    }
    assert events[..|events|] == events;
    s' := s.(gate := gate, history := s.history + events);
  }

  /** One event of this turn at the gate. */
  method AtGate(c: Setting, s: Core, e: Event) returns (s': Core)
    requires Inv(c, s)
    ensures Inv(c, s') && s' == s.(gate := s'.gate, history := s.history + [e])
  {
    hide After, Apply, Outcomes, Lawful, Signals, Blocked, Streak, Mutations, Prompts, Threaded;
    AfterOneMore(c.phrases, s.history, e);
    s' := s.(gate := Apply(c.phrases, s.gate, e), history := s.history + [e]);
  }

  /** Calls the runtime makes on its own; they do not pass the gate. */
  method RunSynthetic(c: Setting, s: Core, calls: seq<(Call, Outcome)>) returns (s': Core)
    requires Inv(c, s)
    ensures Inv(c, s') && s'.messages == s.messages && s.trace <= s'.trace && s'.history == s.history
    ensures s'.blocked == s.blocked && s'.guardrail == s.guardrail && ModelCalls(s'.trace) == ModelCalls(s.trace)
    ensures forall j :: |s.trace| <= j < |s'.trace| ==> !s'.trace[j].byModel
    ensures s'.trace == s.trace + Asides(calls) && ModelSteps(s'.trace) == ModelSteps(s.trace)
    ensures StillAsked(c, s, s')
  {
    hide Inv, Authorised, ModelCalls, ModelSteps, Asides, StillAsked;
    StillAskedSelf(c, s);
    s' := s;
    ghost var asides := Asides(calls);
    for k := 0 to |calls|
      invariant s'.trace == s.trace + asides[..k] && ModelSteps(s'.trace) == ModelSteps(s.trace)
      invariant StillAsked(c, s, s')
      invariant Inv(c, s') && s'.messages == s.messages && s.trace <= s'.trace && s'.history == s.history
      invariant s'.blocked == s.blocked && s'.guardrail == s.guardrail && ModelCalls(s'.trace) == ModelCalls(s.trace)
      invariant forall j :: |s.trace| <= j < |s'.trace| ==> !s'.trace[j].byModel
    {
      TakeMore(s.trace, asides, k);
      ghost var was := s';
      s' := Record(c, s', Aside(calls[k]));
      StillAskedOn(c, s, was, s');
    }
    assert asides[..|calls|] == asides;
  }

  lemma {:induction false} TakeMore(trace: seq<Step>, more: seq<Step>, k: nat)
    requires k < |more|
    ensures trace + more[..k] + [more[k]] == trace + more[..k + 1]
  {
  }

  /** What the gate lets through is what the history authorises. */
  lemma {:induction false} AllowsIff(c: Setting, s: Core, now: nat, risk: Option<string>)
    requires Inv(c, s)
    ensures Allows(s.gate, c.session, now, risk) <==> (risk.Some? ==> Authorised(c.phrases, s.history, c.session, now))
  {
    hide After, Outcomes, Lawful, Signals, Blocked, Streak, Mutations, Prompts, Threaded, Authorised;
    GateSound(c.phrases, s.history, c.session, now);
  }

  lemma {:induction false} OpenAllows(c: Setting, s: Core)
    requires Inv(c, s) && Open(s)
    ensures s.outcomes == Outcomes(s.trace) && !Blocked(s.trace) && (c.compactMode ==> Streak(s.trace) < 3)
  {
    hide After, Outcomes, Lawful, Signals, Blocked, Streak, Mutations, Prompts, Threaded;
  }

  /** Checks a call of the model, runs it if it may, and records it. */
  method Perform(c: Setting, w: World, ghost base: seq<Step>, s: Core, call: Call) returns (s': Core, outcome: Outcome)
    requires Ready(c, s) && Timely(c, w, s) && Told(c, w, base, s.trace, s.history)
    ensures Inv(c, s') && Timely(c, w, s') && s'.messages == s.messages && Opening(c) <= s'.history
    ensures Told(c, w, base, s'.trace, s'.history)
    ensures s.trace < s'.trace && ModelCalls(s'.trace) == ModelCalls(s.trace) + [call]
    ensures Another(s.trace, s'.trace, call, outcome) && StillAsked(c, s, s')
    ensures !CodeAfter(c, call, outcome).NoCode? ==> Open(s')
  {
    hide Inv, Authorised, Outcomes, Blocked, Streak, Opening, ModelCalls, ModelSteps, Forward, Clocked, Told, Asides;
    hide StillAsked;
    var n := |s.trace|;
    s' := Overhear(c, s, w.others(n));
    var risk, now, past := c.risk(call, s'.outcomes), w.clock(n), s'.history;
    AllowsIff(c, s', now, risk);
    OpenAllows(c, s');
    var allowed := Allows(s'.gate, c.session, now, risk);
    CheckInTime(c, w, s, Check(c.session, now, risk));
    s' := AtGate(c, s', Check(c.session, now, risk));
    outcome := if allowed then w.tool(n) else Outcome(true, "Checkout protection blocked browser action");
    var st := Step(call, outcome, true, allowed, CodeAfter(c, call, outcome).NoCode?, risk, past, now);
    ghost var checked := s';
    s' := Record(c, s', st);
    AskedBefore(c, s, checked, s');
    TimelyAfter(c, w, s, st, s');
    assert s.trace < s'.trace;
    ghost var recorded := s';
    ToldMore(c, w, base, s.trace, s.history, st);
    s' := RunSynthetic(c, s', w.screenshots(n));
    TimelyLater(c, w, recorded, s');
    StillAskedOn(c, s, recorded, s');
  }

  lemma {:induction false} AskedBefore(c: Setting, s: Core, s1: Core, s2: Core)
    requires StillAsked(c, s1, s2) && s1.trace == s.trace && s1.promptSent == s.promptSent
    ensures StillAsked(c, s, s2)
  {
    hide Mutation;
  }

  /** One more call of the model, with its outcome. */
  ghost predicate Another(trace: seq<Step>, trace': seq<Step>, call: Call, outcome: Outcome)
  {
    var steps := ModelSteps(trace');
    steps != [] && Init(steps) == ModelSteps(trace) && Last(steps).call == call && Last(steps).outcome == outcome
  }

  /** A call of the model with its answer in the transcript. */
  method ExecuteCall(c: Setting, w: World, ghost base: seq<Step>, s: Run, call: Call)
    returns (s': Run, outcome: Outcome, stop: bool)
    requires Ready(c, s.core) && Timely(c, w, s.core) && AnswersNext(s.core.messages, call.id)
    requires Told(c, w, base, s.core.trace, s.core.history)
    ensures Inv(c, s'.core) && Timely(c, w, s'.core) && OpenCalls(s'.core.messages) == OpenCalls(s.core.messages)
    ensures s'.asks == s.asks && s'.last == s.last && Opening(c) <= s'.core.history
    ensures s.core.trace < s'.core.trace && ModelCalls(s'.core.trace) == ModelCalls(s.core.trace) + [call]
    ensures stop <==> !CodeAfter(c, call, outcome).NoCode? || !Open(s'.core)
    ensures !stop ==> Answered(s'.core.messages) == Answered(s.core.messages) + 1
    ensures s'.wait <==> s.wait || CodeAfter(c, call, outcome).CodeFromUser?
    ensures Told(c, w, base, s'.core.trace, s'.core.history) && Another(s.core.trace, s'.core.trace, call, outcome)
    ensures s'.core.messages == s.core.messages + Lines(c, call, outcome)
    ensures s'.login == if c.isLogin(call) && !outcome.isError && c.loginState(outcome).Some?
                        then c.loginState(outcome) else s.login
    ensures SameBudget(s, s') && StillAsked(c, s.core, s'.core)
  {
    hide Inv, OpenCalls, Answered, AnswersNext, CodeAfter, Opening, ModelCalls, Forward, Clocked, Timed, TimeAt;
    hide Told, ModelSteps, SameBudget, Lines, Open, Another, Mutation;
    var core;
    core, outcome := Perform(c, w, base, s.core, call);
    s', stop := Leave(c, s, core, call, outcome);
  }

  /** The login state after a call. */
  function LoginAfter(c: Setting, login: Option<Login>, call: Call, outcome: Outcome): Option<Login>
  {
    if c.isLogin(call) && !outcome.isError && c.loginState(outcome).Some? then c.loginState(outcome) else login
  }

  /** What a call that was made leaves: its lines in the transcript, the login state, and whether anybody waits. */
  method Leave(c: Setting, s: Run, core: Core, call: Call, outcome: Outcome) returns (s': Run, stop: bool)
    requires Inv(c, core) && core.messages == s.core.messages && AnswersNext(core.messages, call.id)
    requires !CodeAfter(c, call, outcome).NoCode? ==> Open(core)
    ensures Inv(c, s'.core) && s'.core == core.(messages := core.messages + Lines(c, call, outcome))
    ensures s' == s.(core := s'.core, login := LoginAfter(c, s.login, call, outcome),
                     wait := s.wait || CodeAfter(c, call, outcome).CodeFromUser?)
    ensures OpenCalls(s'.core.messages) == OpenCalls(s.core.messages)
    ensures stop <==> !CodeAfter(c, call, outcome).NoCode? || !Open(s'.core)
    ensures !stop ==> Answered(s'.core.messages) == Answered(s.core.messages) + 1
    ensures SameBudget(s, s')
  {
    hide Inv, OpenCalls, Answered, AnswersNext, CodeAfter, Prompts, Lines, SameBudget, LoginAfter;
    var code := CodeAfter(c, call, outcome);
    var left := WriteLines(c, core, call, outcome);
    var login, wait := LoginAfter(c, s.login, call, outcome), s.wait || code.CodeFromUser?;
    s' := s.(core := left, login := login, wait := wait);
    stop := !code.NoCode? || left.guardrail || left.blocked;
    BudgetKept(s, left, login, wait);
  }

  lemma {:induction false} BudgetKept(s: Run, core: Core, login: Option<Login>, wait: bool)
    requires forall p :: p != MailCode && p != Reminder ==> Prompts(core.messages, p) == Prompts(s.core.messages, p)
    ensures SameBudget(s, s.(core := core, login := login, wait := wait))
  {
    hide Prompts;
  }

  /** An instruction to fetch a code by mail, nothing when the user is to be asked, else the result. */
  method WriteLines(c: Setting, s: Core, call: Call, outcome: Outcome) returns (s': Core)
    requires Inv(c, s) && AnswersNext(s.messages, call.id)
    ensures Inv(c, s') && s' == s.(messages := s.messages + Lines(c, call, outcome))
    ensures OpenCalls(s'.messages) == OpenCalls(s.messages)
    ensures CodeAfter(c, call, outcome).NoCode? ==> Answered(s'.messages) == Answered(s.messages) + 1
    ensures forall p :: p != MailCode && p != Reminder ==> Prompts(s'.messages, p) == Prompts(s.messages, p)
  {
    hide Inv, OpenCalls, Answered, AnswersNext, CodeAfter, Prompts;
    match CodeAfter(c, call, outcome) {
      case CodeByMail =>
        PushKeeps(c, s, Instruction(MailCode));
        PushBudget(s, Instruction(MailCode));
        s' := Push(s, Instruction(MailCode));
      case CodeFromUser =>
        assert s.messages + [] == s.messages;
        s' := s;
      case NoCode =>
        s' := Report(c, s, call, outcome);
    }
  }

  /** A result in the transcript, with the reminder its tool asks for. */
  method Report(c: Setting, s: Core, call: Call, outcome: Outcome) returns (s': Core)
    requires Inv(c, s) && AnswersNext(s.messages, call.id)
    ensures Inv(c, s') && s' == s.(messages := s'.messages)
    ensures s'.messages ==
            s.messages + ([ToolResult(call.id, outcome)] + if c.reminds(call) then [Instruction(Reminder)] else [])
    ensures OpenCalls(s'.messages) == OpenCalls(s.messages) && Answered(s'.messages) == Answered(s.messages) + 1
    ensures forall p :: p != Reminder ==> Prompts(s'.messages, p) == Prompts(s.messages, p)
  {
    hide Inv, OpenCalls, Answered, AnswersNext, Prompts;
    PushKeeps(c, s, ToolResult(call.id, outcome));
    PushBudget(s, ToolResult(call.id, outcome));
    s' := Push(s, ToolResult(call.id, outcome));
    if c.reminds(call) {
      PushKeeps(c, s', Instruction(Reminder));
      PushBudget(s', Instruction(Reminder));
      s' := Push(s', Instruction(Reminder));
    }
  }

  /** The calls of one reply, in order, up to the first that stops the round. */
  method ExecuteCalls(c: Setting, w: World, ghost base: seq<Step>, ghost login: Option<Login>, ghost wait: bool,
      s: Run, calls: seq<Call>)
    returns (s': Run, done: nat, outcome: Outcome)
    requires Ready(c, s.core) && Timely(c, w, s.core)
    requires Told(c, w, base, s.core.trace, s.core.history) && Remembers(c, login, wait, s)
    requires OpenCalls(s.core.messages) == calls && Answered(s.core.messages) == 0
    ensures Inv(c, s'.core) && Timely(c, w, s'.core) && s'.asks == s.asks && s'.last == s.last &&
        s.core.trace <= s'.core.trace
    ensures Opening(c) <= s'.core.history
    ensures done <= |calls| && ModelCalls(s'.core.trace) == ModelCalls(s.core.trace) + calls[..done]
    ensures done < |calls| ==> done > 0 && (!CodeAfter(c, calls[done - 1], outcome).NoCode? || !Open(s'.core))
    ensures Told(c, w, base, s'.core.trace, s'.core.history) && Remembers(c, login, wait, s') && SameBudget(s, s')
    ensures StillAsked(c, s.core, s'.core)
    ensures ModelSteps(s.core.trace) <= ModelSteps(s'.core.trace) && s.core.messages <= s'.core.messages
    ensures Made(c, calls, ModelSteps(s'.core.trace), |ModelSteps(s.core.trace)|)
    ensures s'.core.messages[|s.core.messages|..] ==
            Written(c, ModelSteps(s'.core.trace)[|ModelSteps(s.core.trace)|..])
  {
    hide Inv, Open, OpenCalls, Answered, Opening, ModelCalls, Timely;
    StillAskedSelf(c, s.core);
    hide Told, ModelSteps, Progress, Remembers, SameBudget, Lines, Made, Written, StillAsked;
    s', done, outcome := s, 0, Outcome(false, "");
    ProgressStart(c, s.core, calls);
    BudgetSame(s, s, s);
    var stop := false;
    while done < |calls| && !stop
      invariant 0 <= done <= |calls| && Inv(c, s'.core) && Timely(c, w, s'.core) && OpenCalls(s'.core.messages) == calls
      invariant s'.asks == s.asks && s'.last == s.last && s.core.trace <= s'.core.trace && Opening(c) <= s'.core.history
      invariant ModelCalls(s'.core.trace) == ModelCalls(s.core.trace) + calls[..done]
      invariant !stop ==> Open(s'.core) && Answered(s'.core.messages) == done
      invariant stop ==> done > 0 && (!CodeAfter(c, calls[done - 1], outcome).NoCode? || !Open(s'.core))
      invariant Told(c, w, base, s'.core.trace, s'.core.history) && Progress(c, s.core, s'.core, calls, done)
      invariant Remembers(c, login, wait, s') && SameBudget(s, s') && StillAsked(c, s.core, s'.core)
      invariant done > 0 ==> var steps := ModelSteps(s'.core.trace);
                             steps != [] &&
                             (Pauses(c, Last(steps)) <==> !CodeAfter(c, calls[done - 1], outcome).NoCode?)
      invariant !stop && done > 0 ==> !Pauses(c, Last(ModelSteps(s'.core.trace)))
      decreases |calls| - done
    {
      assert AnswersNext(s'.core.messages, calls[done].id);
      ghost var was := s';
      s', outcome, stop := ExecuteCall(c, w, base, s', calls[done]);
      assert calls[..done + 1] == calls[..done] + [calls[done]];
      ProgressMore(c, s.core, was.core, s'.core, calls, done, outcome);
      RememberMore(c, login, wait, was, s', calls[done], outcome);
      BudgetSame(s, was, s');
      StillAskedOn(c, s.core, was.core, s'.core);
      done := done + 1;
    }
    OpenIff(c, s'.core);
    ProgressEnds(c, s.core, s'.core, calls, done);
  }

  lemma {:induction false} OpenIff(c: Setting, s: Core)
    requires Inv(c, s)
    ensures Open(s) <==> !Halted(c, ModelSteps(s.trace))
  {
    hide After, Outcomes, Lawful, Signals, Blocked, Streak, Mutations, Prompts, Threaded, ModelSteps;
    HaltedByModel(c, s.trace);
  }

  // ----- follow-up prompts -----

  /** When a prompt may follow a reply without calls. */
  predicate Due(c: Setting, w: World, s: Run, round: nat, text: string, p: Prompt)
    requires s.asks > 0
  {
    match p
    case Identity => c.identityQuestion && s.identityRetries < 2 && !c.grounded(text)
    case UseVault => c.siteIntent && c.asksIdentifier(text) && w.savedService(s.asks - 1)
    case Verify => !s.core.satisfied && !s.core.promptSent
    case EmptyReply => text == "" && !s.emptySent
    case Finalize => text == "" && !s.finalSent && s.core.trace != []
    case ForceTools => round == 0 && c.forceToolUse
    case WebRecovery => !s.recoverySent && w.webRecovery(s.asks - 1)
    case MailCode => false
    case Reminder => false
  }

  const ORDER := [Identity, UseVault, Verify, EmptyReply, Finalize, ForceTools, WebRecovery]

  ghost predicate NoneDue(c: Setting, w: World, s: Run, round: nat, text: string, n: nat)
    requires s.asks > 0 && n <= |ORDER|
  {
    forall k :: 0 <= k < n ==> !Due(c, w, s, round, text, ORDER[k])
  }

  /** The rounds may end: the answer is grounded, asks for nothing saved, is verified or was asked to be, and so on. */
  lemma {:induction false} NoneDueIff(c: Setting, w: World, s: Run, round: nat, text: string)
    requires s.asks > 0
    ensures NoneDue(c, w, s, round, text, |ORDER|) <==>
            && (c.identityQuestion && s.identityRetries < 2 ==> c.grounded(text))
            && (c.siteIntent && c.asksIdentifier(text) ==> !w.savedService(s.asks - 1))
            && (s.core.satisfied || s.core.promptSent)
            && (text == "" ==> s.emptySent && (s.finalSent || s.core.trace == []))
            && (round == 0 ==> !c.forceToolUse)
            && (w.webRecovery(s.asks - 1) ==> s.recoverySent)
  {
    if NoneDue(c, w, s, round, text, |ORDER|) {
      assert ORDER[0] == Identity && ORDER[1] == UseVault && ORDER[2] == Verify && ORDER[3] == EmptyReply;
      assert ORDER[4] == Finalize && ORDER[5] == ForceTools && ORDER[6] == WebRecovery;
    }
  }

  /** The first prompt in the order that is due. */
  ghost predicate FirstDue(c: Setting, w: World, s: Run, round: nat, text: string, p: Prompt)
    requires s.asks > 0
  {
    Due(c, w, s, round, text, p) && exists k: nat :: k < |ORDER| && ORDER[k] == p && NoneDue(c, w, s, round, text, k)
  }

  /** The counters of the turn are the numbers of prompts sent. */
  ghost predicate Budget(s: Run)
  {
    var m := s.core.messages;
    Prompts(m, Identity) == s.identityRetries <= 2 && Prompts(m, EmptyReply) == (if s.emptySent then 1 else 0) &&
    Prompts(m, Finalize) == (if s.finalSent then 1 else 0) && Prompts(m, WebRecovery) == if s.recoverySent then 1 else 0
  }

  ghost predicate SameBudget(s: Run, s': Run)
  {
    s' == s.(core := s'.core, wait := s'.wait, login := s'.login, asks := s'.asks, last := s'.last) &&
    forall p :: p != MailCode && p != Reminder ==> Prompts(s'.core.messages, p) == Prompts(s.core.messages, p)
  }

  lemma {:induction false} BudgetSame(s: Run, s1: Run, s2: Run)
    ensures SameBudget(s, s) && (SameBudget(s, s1) && SameBudget(s1, s2) ==> SameBudget(s, s2))
  {
    hide Prompts;
  }

  lemma {:induction false} PushBudget(s: Core, e: Entry)
    ensures forall p ::
              Prompts(Push(s, e).messages, p) == Prompts(s.messages, p) + if e == Instruction(p) then 1 else 0
  {
  }

  lemma {:induction false} DueNow(c: Setting, w: World, s: Run, round: nat, text: string, k: nat)
    requires s.asks > 0 && k < |ORDER| && NoneDue(c, w, s, round, text, k)
    ensures !Due(c, w, s, round, text, ORDER[k]) ==> NoneDue(c, w, s, round, text, k + 1)
    ensures Due(c, w, s, round, text, ORDER[k]) ==> FirstDue(c, w, s, round, text, ORDER[k])
  {
    hide Due;
  }

  /** The first prompt that is due, if any. */
  method NextPrompt(c: Setting, w: World, s: Run, round: nat, text: string) returns (next: Option<Prompt>)
    requires s.asks > 0
    ensures next.None? ==> NoneDue(c, w, s, round, text, |ORDER|)
    ensures next.Some? ==> FirstDue(c, w, s, round, text, next.value)
  {
    assert NoneDue(c, w, s, round, text, 0);
    hide NoneDue, FirstDue;
    var turn := s.asks - 1;
    DueNow(c, w, s, round, text, 0);
    if c.identityQuestion && s.identityRetries < 2 && !c.grounded(text) { return Some(Identity); }
    DueNow(c, w, s, round, text, 1);
    if c.siteIntent && c.asksIdentifier(text) && w.savedService(turn) { return Some(UseVault); }
    DueNow(c, w, s, round, text, 2);
    if !s.core.satisfied && !s.core.promptSent { return Some(Verify); }
    DueNow(c, w, s, round, text, 3);
    if text == "" && !s.emptySent { return Some(EmptyReply); }
    DueNow(c, w, s, round, text, 4);
    if text == "" && !s.finalSent && |s.core.trace| > 0 { return Some(Finalize); }
    DueNow(c, w, s, round, text, 5);
    if round == 0 && c.forceToolUse { return Some(ForceTools); }
    DueNow(c, w, s, round, text, 6);
    if !s.recoverySent && w.webRecovery(turn) { return Some(WebRecovery); }
    return None;
  }

  lemma {:induction false} FirstIsDue(c: Setting, w: World, s: Run, round: nat, text: string, p: Prompt)
    requires s.asks > 0 && FirstDue(c, w, s, round, text, p)
    ensures Due(c, w, s, round, text, p) && (p == Verify ==> !s.core.promptSent)
  {
  }

  /** The run with one more prompt sent. */
  function Sent(s: Run, p: Prompt): Run
  {
    var core := Push(s.core, Instruction(p)).(promptSent := s.core.promptSent || p == Verify);
    s.(core := core,
       identityRetries := s.identityRetries + (if p == Identity then 1 else 0),
       emptySent := s.emptySent || p == EmptyReply,
       finalSent := s.finalSent || p == Finalize,
       recoverySent := s.recoverySent || p == WebRecovery)
  }

  lemma {:induction false} SentBudget(c: Setting, w: World, s: Run, round: nat, text: string, p: Prompt)
    requires s.asks > 0 && Due(c, w, s, round, text, p)
    ensures Budget(s) ==> Budget(Sent(s, p))
    ensures round > 0 ==> Prompts(Sent(s, p).core.messages, ForceTools) == Prompts(s.core.messages, ForceTools)
    ensures Prompts(Sent(s, p).core.messages, ForceTools) <= Prompts(s.core.messages, ForceTools) + 1
  {
    hide Prompts;
    PushBudget(s.core, Instruction(p));
  }

  lemma {:induction false} SentInv(c: Setting, s: Run, p: Prompt)
    requires Inv(c, s.core) && (p == Verify ==> !s.core.promptSent)
    ensures Inv(c, Sent(s, p).core)
  {
    hide Inv;
    if p == Verify {
      PromptKeeps(c, s.core);
    } else {
      PushKeeps(c, s.core, Instruction(p));
      assert Sent(s, p).core == Push(s.core, Instruction(p));
    }
  }

  /** A reply without calls: the first prompt that is due, or the end of the rounds. */
  method FollowUp(c: Setting, w: World, s: Run, round: nat, text: string) returns (s': Run, again: bool)
    requires Inv(c, s.core) && s.asks > 0
    ensures Inv(c, s'.core)
    ensures if again then exists p :: FirstDue(c, w, s, round, text, p) && s' == Sent(s, p)
            else s' == s && NoneDue(c, w, s, round, text, |ORDER|)
    ensures Budget(s) ==> Budget(s')
    ensures round > 0 ==> Prompts(s'.core.messages, ForceTools) == Prompts(s.core.messages, ForceTools)
    ensures Prompts(s'.core.messages, ForceTools) <= Prompts(s.core.messages, ForceTools) + 1
  {
    hide Inv, Prompts, Budget, NoneDue, FirstDue, Due, Sent;
    var next := NextPrompt(c, w, s, round, text);
    if next.None? { return s, false; }
    FirstIsDue(c, w, s, round, text, next.value);
    SentInv(c, s, next.value);
    SentBudget(c, w, s, round, text, next.value);
    s', again := Sent(s, next.value), true;
  }

  /** The last reply is one the provider gave. */
  ghost predicate FromProvider(w: World, s: Run)
  {
    s.last.Some? ==> exists j: nat :: j < s.asks && w.ask(j) == s.last
  }

  /** Why the rounds ended before all were used: somebody waits, the calls were stopped, or the model is done. */
  ghost predicate Ended(c: Setting, w: World, s: Run)
  {
    s.wait || !Open(s.core) ||
    (s.asks > 0 && s.last.Some? && s.last.value.calls == [] &&
     NoneDue(c, w, s, s.asks - 1, s.last.value.text, |ORDER|))
  }

  /** What the rounds keep besides the invariant. */
  ghost predicate Kept(c: Setting, w: World, base: seq<Step>, login: Option<Login>, wait: bool, s: Run)
  {
    Told(c, w, base, s.core.trace, s.core.history) &&
    Talk(c, w, wait, s.asks, s.core.messages, ModelSteps(s.core.trace)) &&
    Remembers(c, login, wait, s) && Budget(s) &&
    Prompts(s.core.messages, ForceTools) <= if s.asks == 0 then 0 else 1
  }

  lemma {:induction false} FreeNow(c: Setting, w: World, base: seq<Step>, login: Option<Login>, wait: bool, s: Run)
    requires Inv(c, s.core) && Open(s.core) && !s.wait && Kept(c, w, base, login, wait, s)
    ensures Free(c, wait, ModelSteps(s.core.trace))
  {
    hide Told, Talk, Budget, Prompts, ModelSteps, AskedUser, Halted, LoginSeen, Inv, Open;
    OpenIff(c, s.core);
  }

  /** A reply comes in. */
  function Hear(s: Run, reply: Reply): Run
  {
    s.(core := Push(s.core, Said(reply)), asks := s.asks + 1, last := Some(reply))
  }

  lemma {:induction false} NoAnswer(c: Setting, w: World, base: seq<Step>, login: Option<Login>, wait: bool, s: Run)
    requires Kept(c, w, base, login, wait, s) && w.ask(s.asks).None? && Free(c, wait, ModelSteps(s.core.trace))
    ensures Kept(c, w, base, login, wait, s.(asks := s.asks + 1))
  {
    hide Told, ModelSteps, Round, Prompts, LoginSeen, AskedUser, Free;
  }

  lemma {:induction false} HeardKept(c: Setting, w: World, base: seq<Step>, login: Option<Login>, wait: bool, s: Run,
      reply: Reply)
    requires Kept(c, w, base, login, wait, s)
    ensures Told(c, w, base, Hear(s, reply).core.trace, Hear(s, reply).core.history)
    ensures Remembers(c, login, wait, Hear(s, reply)) && Budget(Hear(s, reply))
    ensures Prompts(Hear(s, reply).core.messages, ForceTools) == Prompts(s.core.messages, ForceTools)
  {
    hide Told, ModelSteps, Talk, Prompts, LoginSeen, AskedUser;
    PushBudget(s.core, Said(reply));
  }

  lemma {:induction false} NoCallsKept(c: Setting, w: World, base: seq<Step>, login: Option<Login>, wait: bool, s: Run,
      reply: Reply, s': Run)
    requires Kept(c, w, base, login, wait, s) && w.ask(s.asks) == Some(reply) && reply.calls == []
    requires Free(c, wait, ModelSteps(s.core.trace))
    requires var heard := Hear(s, reply);
             && (s' == heard || exists p :: s' == Sent(heard, p))
             && (Budget(heard) ==> Budget(s'))
             && (s.asks > 0 ==> Prompts(s'.core.messages, ForceTools) == Prompts(heard.core.messages, ForceTools))
             && Prompts(s'.core.messages, ForceTools) <= Prompts(heard.core.messages, ForceTools) + 1
    ensures Kept(c, w, base, login, wait, s')
  {
    hide Told, ModelSteps, Talk, Prompts, LoginSeen, AskedUser, Budget, Free;
    HeardKept(c, w, base, login, wait, s, reply);
    var m, m', steps := s.core.messages, s'.core.messages, ModelSteps(s.core.trace);
    var lines := m'[|m|..];
    assert m <= m' && lines[0] == Said(reply);
    if s' != Hear(s, reply) {
      var p :| s' == Sent(Hear(s, reply), p);
      assert lines[1..] == [Instruction(p)];
    }
    assert Round(c, reply, lines, steps, |steps|);
    TalkMore(c, w, wait, s.asks, m, steps, m', steps);
  }

  lemma {:induction false} CallsKept(c: Setting, w: World, base: seq<Step>, login: Option<Login>, wait: bool, s: Run,
      reply: Reply, s': Run)
    requires Kept(c, w, base, login, wait, s) && w.ask(s.asks) == Some(reply) && reply.calls != []
    requires Free(c, wait, ModelSteps(s.core.trace))
    requires Told(c, w, base, s'.core.trace, s'.core.history) && Remembers(c, login, wait, s')
    requires SameBudget(Hear(s, reply), s') && s'.asks == s.asks + 1
    requires var m, steps := Hear(s, reply).core.messages, ModelSteps(s.core.trace);
             && steps <= ModelSteps(s'.core.trace) && m <= s'.core.messages
             && Made(c, reply.calls, ModelSteps(s'.core.trace), |steps|)
             && s'.core.messages[|m|..] == Written(c, ModelSteps(s'.core.trace)[|steps|..])
    ensures Kept(c, w, base, login, wait, s')
  {
    hide Told, ModelSteps, Talk, Prompts, LoginSeen, AskedUser, Made, Written, Free;
    HeardKept(c, w, base, login, wait, s, reply);
    var m, m', steps, steps' := s.core.messages, s'.core.messages, ModelSteps(s.core.trace), ModelSteps(s'.core.trace);
    var lines := m'[|m|..];
    assert m <= m' && lines[0] == Said(reply) && lines[1..] == m'[|m| + 1..];
    assert Round(c, reply, lines, steps', |steps|);
    TalkMore(c, w, wait, s.asks, m, steps, m', steps');
  }

  lemma {:induction false} HeardReady(c: Setting, w: World, s: Run, reply: Reply)
    requires Ready(c, s.core) && Timely(c, w, s.core)
    ensures Ready(c, Hear(s, reply).core) && Timely(c, w, Hear(s, reply).core)
    ensures OpenCalls(Hear(s, reply).core.messages) == reply.calls && Answered(Hear(s, reply).core.messages) == 0
  {
    hide Inv, Opening, Forward, Clocked, Timed, TimeAt, OpenCalls, Answered;
    PushKeeps(c, s.core, Said(reply));
    assert Hear(s, reply).core == Push(s.core, Said(reply));
  }

  lemma {:induction false} SentReady(c: Setting, w: World, s: Run, p: Prompt)
    requires Timely(c, w, s.core)
    ensures Timely(c, w, Sent(s, p).core) && Open(Sent(s, p).core) == Open(s.core)
  {
    hide Forward, Clocked, Timed, TimeAt;
  }

  /** One round: what is done about a reply, and whether it was the last. */
  method AnswerReply(c: Setting, w: World, ghost base: seq<Step>, ghost login: Option<Login>, ghost wait: bool, s: Run,
      reply: Reply, round: nat)
    returns (s': Run, done: bool)
    requires Ready(c, s.core) && Timely(c, w, s.core) && Kept(c, w, base, login, wait, s)
    requires w.ask(s.asks) == Some(reply) && round == s.asks && !s.wait
    ensures Inv(c, s'.core) && Timely(c, w, s'.core) && Kept(c, w, base, login, wait, s')
    ensures s'.asks == s.asks + 1 && s'.last == Some(reply) && s.core.trace <= s'.core.trace
    ensures Opening(c) <= s'.core.history && (done ==> Ended(c, w, s')) && (!done ==> Open(s'.core))
  {
    hide Inv, Opening, ModelCalls, Timely, Kept, ModelSteps, NoneDue, FirstDue, Open, OpenCalls, Answered, Told;
    hide Remembers, Budget, SameBudget, Made, Written, Free;
    ghost var heard := Hear(s, reply);
    HeardReady(c, w, s, reply);
    FreeNow(c, w, base, login, wait, s);
    HeardKept(c, w, base, login, wait, s, reply);
    if reply.calls == [] {
      var again;
      s', again := FollowUp(c, w, Hear(s, reply), round, reply.text);
      if again {
        ghost var p :| FirstDue(c, w, heard, round, reply.text, p) && s' == Sent(heard, p);
        SentReady(c, w, heard, p);
      }
      NoCallsKept(c, w, base, login, wait, s, reply, s');
      done := !again;
    } else {
      var count, outcome;
      s', count, outcome := ExecuteCalls(c, w, base, login, wait, Hear(s, reply), reply.calls);
      CallsKept(c, w, base, login, wait, s, reply, s');
      done := s'.wait || !Open(s'.core);
    }
  }

  /** The rounds; `ok` is false when the provider threw. */
  method Rounds(c: Setting, w: World, s: Run) returns (s': Run, ok: bool)
    requires Ready(c, s.core) && Timely(c, w, s.core) && s.asks == 0 && s.last.None?
    requires Kept(c, w, s.core.trace, s.login, s.wait, s)
    ensures Inv(c, s'.core) && Timely(c, w, s'.core) && s'.asks <= c.maxToolRounds && s.core.trace <= s'.core.trace
    ensures FromProvider(w, s') && Kept(c, w, s.core.trace, s.login, s.wait, s')
    ensures ok ==> s'.asks == c.maxToolRounds || Ended(c, w, s')
    ensures !ok ==> s'.asks > 0 && w.ask(s'.asks - 1).None?
  {
    hide Inv, Opening, Timely, Kept, Open, NoneDue, Free;
    s', ok := s, true;
    var round, done := 0, false;
    while round < c.maxToolRounds && !s'.wait && !done
      invariant Inv(c, s'.core) && Timely(c, w, s'.core) && FromProvider(w, s')
      invariant s'.asks == round <= c.maxToolRounds && s.core.trace <= s'.core.trace && ok
      invariant Opening(c) <= s'.core.history && (!done ==> Open(s'.core))
      invariant Kept(c, w, s.core.trace, s.login, s.wait, s')
      invariant done ==> Ended(c, w, s')
      decreases c.maxToolRounds - round
    {
      var answer := w.ask(s'.asks);
      if answer.None? {
        FreeNow(c, w, s.core.trace, s.login, s.wait, s');
        NoAnswer(c, w, s.core.trace, s.login, s.wait, s');
        return s'.(asks := s'.asks + 1), false;
      }
      s', done := AnswerReply(c, w, s.core.trace, s.login, s.wait, s', answer.value, round);
      assert w.ask(s'.asks - 1) == s'.last;
      round := round + 1;
    }
  }

  // ----- the message shown to the user -----

  datatype Notice = WaitForCode | OtpStatus | ToolFallback | NoSteps | ProviderFailure | EmptyAnswer
                  | Unverified | AllFailed | CheckoutBlocked | Guardrail

  datatype Answer = Own(text: string) | Runtime(notice: Notice)

  /** The model's text as it would be shown. */
  function Shown(c: Setting, reply: Reply): string
  {
    if c.identityQuestion then c.stripped(reply.text) else reply.text
  }

  predicate Blankish(a: Answer)
  {
    a.Own? && AllBlank(a.text)
  }

  predicate EveryCallFailed(outcomes: seq<ToolOutcome>)
  {
    outcomes != [] && forall k :: 0 <= k < |outcomes| ==> outcomes[k].outcome.isError
  }

  /** The text refuses to deal with a code that the login expects. */
  predicate RefusesCode(c: Setting, s: Run, reply: Reply)
  {
    s.login.Some? && s.login.value.mfaExpected && c.siteIntent && c.refusesOtp(Shown(c, reply))
  }

  /** None of the notices about stopped, failed or unverified calls applies. */
  predicate Unstopped(s: Run)
  {
    Open(s.core) && !EveryCallFailed(s.core.outcomes) && (s.wait || !s.core.needed || s.core.satisfied)
  }

  /** When each notice is shown; no two of these hold together. */
  predicate NoticeHolds(c: Setting, s: Run, reply: Reply, n: Notice)
  {
    var silent := reply.text == "" && s.core.outcomes != [];
    var idle := c.forceToolUse && s.core.outcomes == [];
    var nothing := !s.wait && !RefusesCode(c, s, reply) && !silent && AllBlank(Shown(c, reply));
    match n
    case Guardrail => s.core.guardrail
    case CheckoutBlocked => s.core.blocked && !s.core.guardrail
    case AllFailed => Open(s.core) && EveryCallFailed(s.core.outcomes)
    case Unverified =>
      Open(s.core) && !EveryCallFailed(s.core.outcomes) && !s.wait && s.core.needed && !s.core.satisfied
    case NoSteps => Unstopped(s) && idle && (reply.errored || nothing)
    case WaitForCode => Unstopped(s) && s.wait && !(idle && reply.errored)
    case OtpStatus => Unstopped(s) && !s.wait && RefusesCode(c, s, reply) && !silent && !(idle && reply.errored)
    case ToolFallback => Unstopped(s) && !s.wait && silent
    case ProviderFailure => Unstopped(s) && nothing && !idle && reply.errored && !AllBlank(reply.errorMessage)
    case EmptyAnswer => Unstopped(s) && nothing && !idle && !(reply.errored && !AllBlank(reply.errorMessage))
  }

  /** The later of these notices wins over the earlier. */
  method Conclude(c: Setting, s: Run, reply: Reply) returns (a: Answer)
    ensures a.Own? <==>
              !s.wait && Open(s.core) && (s.core.needed ==> s.core.satisfied) &&
              (s.core.outcomes == [] ||
               exists k :: 0 <= k < |s.core.outcomes| && !s.core.outcomes[k].outcome.isError) &&
              !AllBlank(Shown(c, reply)) && !(reply.text == "" && s.core.outcomes != []) &&
              !(c.forceToolUse && s.core.outcomes == [] && reply.errored) &&
              !(s.login.Some? && s.login.value.mfaExpected && c.siteIntent && c.refusesOtp(Shown(c, reply)))
    ensures a.Own? ==> a.text == if c.identityQuestion then c.stripped(reply.text) else reply.text
    ensures s.core.guardrail ==> a == Runtime(Guardrail)
    ensures !s.core.guardrail && s.core.blocked ==> a == Runtime(CheckoutBlocked)
    ensures Open(s.core) && EveryCallFailed(s.core.outcomes) ==> a == Runtime(AllFailed)
    ensures Open(s.core) && !EveryCallFailed(s.core.outcomes) && !s.wait && s.core.needed && !s.core.satisfied ==>
              a == Runtime(Unverified)
    ensures a.Runtime? ==> NoticeHolds(c, s, reply, a.notice)
  {
    hide AllBlank;
    a := Own(Shown(c, reply));
    if s.wait { a := Runtime(WaitForCode); }
    if !s.wait && s.login.Some? && s.login.value.mfaExpected && c.refusesOtp(Shown(c, reply)) && c.siteIntent {
      a := Runtime(OtpStatus);
    }
    if !s.wait && reply.text == "" && s.core.outcomes != [] { a := Runtime(ToolFallback); }
    if c.forceToolUse && s.core.outcomes == [] && (reply.errored || Blankish(a)) { a := Runtime(NoSteps); }
    if Blankish(a) && reply.errored && !AllBlank(reply.errorMessage) { a := Runtime(ProviderFailure); }
    if Blankish(a) { a := Runtime(EmptyAnswer); }
    if !s.wait && s.core.needed && !s.core.satisfied { a := Runtime(Unverified); }
    if EveryCallFailed(s.core.outcomes) { a := Runtime(AllFailed); }
    if s.core.blocked { a := Runtime(CheckoutBlocked); }
    if s.core.guardrail { a := Runtime(Guardrail); }
  }

  // ----- the whole turn -----

  /** The login is tried once more: a code is expected but was never requested, and nobody waits. */
  predicate Retries(c: Setting, w: World, s: Run)
  {
    !s.wait && c.autoLogin && s.login.Some? && s.login.value.mfaExpected && !s.login.value.submitted &&
    w.retryLogin.Some?
  }

  function Retry(c: Setting, w: World, s: Run): seq<Step>
  {
    if Retries(c, w, s) then [Aside((w.retryLogin.value.0, w.retryLogin.value.1))] else []
  }

  /** After the rounds: a second try at a login whose code was never requested. */
  method RetryLogin(c: Setting, w: World, s: Run) returns (s': Run)
    requires Inv(c, s.core) && Timely(c, w, s.core)
    ensures Inv(c, s'.core) && Timely(c, w, s'.core)
    ensures s' == s.(core := s'.core, login := s'.login, wait := s'.wait) && s'.core.messages == s.core.messages
    ensures !Retries(c, w, s) ==> s' == s
    ensures s'.core.trace == s.core.trace + Retry(c, w, s)
    ensures Retries(c, w, s) ==>
              var (call, outcome, pending) := w.retryLogin.value;
              && s'.login == (if !outcome.isError && c.loginState(outcome).Some? then c.loginState(outcome)
                              else s.login)
              && s'.wait == (!outcome.isError && !c.mfa(outcome).NoCode? && pending)
    ensures s'.core.blocked == s.core.blocked && s'.core.guardrail == s.core.guardrail
    ensures FromProvider(w, s) ==> FromProvider(w, s')
  {
    hide Inv, Timely, ModelCalls, ModelSteps, Aside;
    s' := s;
    if !s.wait && c.autoLogin && s.login.Some? && s.login.value.mfaExpected && !s.login.value.submitted &&
        w.retryLogin.Some? {
      var (call, outcome, pending) := w.retryLogin.value;
      var core := RunSynthetic(c, s.core, [(call, outcome)]);
      TimelyLater(c, w, s.core, core);
      assert Asides([(call, outcome)]) == [Aside((call, outcome))];
      s' := s.(core := core);
      if !outcome.isError {
        if c.loginState(outcome).Some? { s' := s'.(login := c.loginState(outcome)); }
        if !c.mfa(outcome).NoCode? && pending { s' := s'.(wait := true); }
      }
    }
  }

  /** The last request, when tools ran and the model has said nothing; a failing provider is ignored. */
  method FinalRequest(c: Setting, w: World, s: Run, reply: Reply) returns (s': Run, final: Reply)
    requires Inv(c, s.core) && FromProvider(w, s)
    ensures Inv(c, s'.core) && FromProvider(w, s') && s.asks <= s'.asks <= s.asks + 1
    ensures s'.core == s.core.(messages := s'.core.messages) && s'.wait == s.wait && s'.login == s.login
    ensures s'.asks > s.asks <==> !s.wait && s.core.outcomes != [] && reply.text == ""
    ensures if s'.asks > s.asks && w.ask(s.asks).Some? then s'.last == w.ask(s.asks) == Some(final)
            else final == reply && s'.last == s.last
    ensures s'.core.messages == s.core.messages + Closing(w, s, s'.asks)
  {
    hide Inv;
    if s.wait || s.core.outcomes == [] || reply.text != "" { return s, reply; }
    var answer := w.ask(s.asks);
    var core := Finalized(c, s.core, answer);
    s', final := s.(core := core, asks := s.asks + 1), reply;
    if answer.Some? {
      s', final := s'.(last := answer), answer.value;
      assert w.ask(s'.asks - 1) == s'.last;
    }
  }

  /** What the last request, if it was made, leaves in the transcript. */
  function Closing(w: World, s: Run, asks: nat): seq<Entry>
  {
    if asks == s.asks then [] else [Instruction(Finalize)] + Final(w.ask(s.asks))
  }

  function Final(answer: Option<Reply>): seq<Entry>
  {
    if answer.Some? then [Said(answer.value)] else []
  }

  /** The final instruction and the answer to it, if any, in the transcript. */
  method Finalized(c: Setting, s: Core, answer: Option<Reply>) returns (s': Core)
    requires Inv(c, s)
    ensures Inv(c, s') && s' == s.(messages := s.messages + ([Instruction(Finalize)] + Final(answer)))
  {
    hide Inv, OpenCalls, Answered, Push;
    PushKeeps(c, s, Instruction(Finalize));
    FinalLines(s, answer);
    s' := Push(s, Instruction(Finalize));
    if answer.Some? {
      PushKeeps(c, s', Said(answer.value));
      s' := Push(s', Said(answer.value));
    }
  }

  lemma {:induction false} FinalLines(s: Core, answer: Option<Reply>)
    ensures var asked := Push(s, Instruction(Finalize));
            (if answer.Some? then Push(asked, Said(answer.value)) else asked) ==
            s.(messages := s.messages + ([Instruction(Finalize)] + Final(answer)))
  {
    if answer.Some? { ConcatThree(s.messages, [Instruction(Finalize)], [Said(answer.value)]); }
  }

  function Start(c: Setting, history: seq<Event>): Core
  {
    Core(After(c.phrases, history), history, [], [], c.needsVerification, !c.needsVerification, false, false,
        false, 0, [])
  }

  lemma {:induction false} StartInv(c: Setting, history: seq<Event>)
    ensures Inv(c, Start(c, history))
  {
    hide After;
  }

  /** What the trace of a turn that showed the model's own words must look like. */
  predicate Trustworthy(c: Setting, trace: seq<Step>)
  {
    (Needed(c, trace) ==> Verified(c, trace)) && (forall k :: 0 <= k < |trace| ==> trace[k].ran) &&
    (trace != [] ==> exists k :: 0 <= k < |trace| && !trace[k].outcome.isError)
  }

  lemma {:induction false} OutcomesAt(trace: seq<Step>)
    ensures |Outcomes(trace)| == |trace|
    ensures forall k :: 0 <= k < |trace| ==> Outcomes(trace)[k] == ToolOutcome(trace[k].call.name, trace[k].outcome)
    decreases |trace|
  {
    if trace != [] { OutcomesAt(Init(trace)); }
  }

  lemma {:induction false} TrustworthyIf(c: Setting, s: Core)
    requires Inv(c, s) && Open(s) && !EveryCallFailed(s.outcomes) && (s.needed ==> s.satisfied)
    ensures Trustworthy(c, s.trace)
  {
    hide Lawful, After, Prompts, Threaded, Mutations, Streak, Outcomes, Signals, Needed, Verified, Blocked;
    SignalsMeaning(c, s.trace);
    OutcomesAt(s.trace);
    forall k | 0 <= k < |s.trace| ensures s.trace[k].ran {
      if !s.trace[k].ran { BlockedAt(s.trace, k); }
    }
    if s.trace != [] {
      var k :| 0 <= k < |s.outcomes| && !s.outcomes[k].outcome.isError;
      assert !s.trace[k].outcome.isError;
    }
  }

  /** What the oracle answered to step `k`; the runtime's own calls are answered outside the loop. */
  function ToolSaid(w: World, trace: seq<Step>, k: nat): Outcome
    requires k < |trace|
  {
    if trace[k].byModel then w.tool(k) else trace[k].outcome
  }

  /** Step `k` is a call with a name that the tool, not the record of it, says succeeded. */
  predicate Worked(w: World, trace: seq<Step>, k: nat)
    requires k < |trace|
  {
    !ToolSaid(w, trace, k).isError && !AllBlank(trace[k].call.name)
  }

  /** No call was kept from running, some tool answered without an error, and what was changed was then verified. */
  ghost predicate Proven(c: Setting, w: World, trace: seq<Step>)
  {
    (forall k :: 0 <= k < |trace| ==> trace[k].ran) &&
    (trace != [] ==> exists k :: 0 <= k < |trace| && !ToolSaid(w, trace, k).isError) &&
    ((c.needsVerification || exists m :: 0 <= m < |trace| && Worked(w, trace, m) && c.mutates(trace[m].call)) ==>
       exists v :: 0 <= v < |trace| && Worked(w, trace, v) && c.verifies(trace[v].call) &&
                   forall m :: v < m < |trace| && Worked(w, trace, m) ==> !c.mutates(trace[m].call))
  }

  ghost predicate AsAnswered(w: World, trace: seq<Step>)
  {
    forall k :: 0 <= k < |trace| && trace[k].byModel && trace[k].ran ==> trace[k].outcome == w.tool(k)
  }

  lemma {:induction false} TrustworthyProven(c: Setting, w: World, trace: seq<Step>)
    requires Trustworthy(c, trace) && AsAnswered(w, trace)
    ensures Proven(c, w, trace)
  {
    hide AllBlank;
    assert forall k :: 0 <= k < |trace| ==> trace[k].outcome == ToolSaid(w, trace, k);
    assert forall k :: 0 <= k < |trace| ==> (Worked(w, trace, k) <==> Succeeded(trace[k]));
    if m :| 0 <= m < |trace| && Worked(w, trace, m) && c.mutates(trace[m].call) { assert Mutation(c, trace[m]); }
    if Verified(c, trace) {
      var v :| 0 <= v < |trace| && Verification(c, trace[v]) && forall m :: v < m < |trace| ==> !Mutation(c, trace[m]);
      assert Worked(w, trace, v);
    }
  }

  /** The whole trace of a turn, with what comes before and after its rounds, is as the tools answered. */
  lemma {:induction false} AllAsAnswered(c: Setting, w: World, base: seq<Step>, trace: seq<Step>, history: seq<Event>,
      more: seq<Step>)
    requires Told(c, w, base, trace, history) && forall k :: 0 <= k < |base| ==> !base[k].byModel
    requires trace <= more && forall k :: |trace| <= k < |more| ==> !more[k].byModel
    ensures AsAnswered(w, more)
  {
    hide Told;
    BaseFirst(c, w, base, trace, history);
    assert forall k :: 0 <= k < |base| ==> trace[k] == base[k];
    forall k | 0 <= k < |more| && more[k].byModel && more[k].ran ensures more[k].outcome == w.tool(k) {
      assert more[k] == trace[k];
      ToldAt(c, w, base, trace, history, k);
    }
  }

  /**
    A whole turn, for every provider, tool, clock and interleaving of other turns: at most one request more
    than there are rounds, every call of the model lawful, every purchase recently confirmed if the clock goes
    forward, and the model's own words, which are then the last the provider gave, shown only after a
    trustworthy trace.  None when the provider threw.
  */
  method RunTurn(c: Setting, w: World, before: seq<(Call, Outcome)>, login: Option<Login>, wait: bool)
    returns (answer: Option<Answer>, s: Run, ghost rounds: Run)
    ensures s.asks <= c.maxToolRounds + 1
    ensures Lawful(c, s.core.trace) && Threaded(s.core.messages)
    ensures Forward(c, w) ==> PurchasesConfirmed(c, s.core.trace)
    ensures Prompts(s.core.messages, Verify) <= 1 + Mutations(c, s.core.trace)
    ensures answer.Some? && answer.value.Own? ==> Trustworthy(c, s.core.trace) && Proven(c, w, s.core.trace)
    ensures answer.Some? && answer.value.Own? ==>
              FromProvider(w, s) && s.last.Some? && answer.value.text == Shown(c, s.last.value)
    ensures AsAnswered(w, s.core.trace)
    ensures Kept(c, w, Asides(before), login, wait, rounds) && rounds.asks <= c.maxToolRounds
    ensures answer.Some? ==> rounds.asks == c.maxToolRounds || Ended(c, w, rounds)
    ensures answer.None? ==> (s.asks > 0 && w.ask(s.asks - 1).None?) || (s.last.None? && !s.wait)
    ensures s.core.trace == rounds.core.trace || s.core.trace == rounds.core.trace + Retry(c, w, rounds)
    ensures answer.Some? ==> s.core.trace == rounds.core.trace + Retry(c, w, rounds)
    ensures rounds.asks <= s.asks <= rounds.asks + 1
    ensures answer.Some? ==> (s.asks > rounds.asks <==> AsksOnceMore(rounds, s))
    ensures s.core.messages == rounds.core.messages + Closing(w, rounds, s.asks)
  {
    hide Inv, Lawful, Threaded, Prompts, Mutations, EveryCallFailed, Trustworthy, Timely, PurchasesConfirmed,
        FromProvider, Kept, Ended, Told, Asides, Proven, AsAnswered;
    hide Forward, Talk, Remembers, ModelSteps, Lines;
    StartInv(c, c.past);
    var core := RunSynthetic(c, Start(c, c.past), before);
    core := AtGate(c, core, Turn(c.session, c.startedAt, c.message));
    StartTimely(c, w, core);
    s := Run(core, 0, 0, false, false, false, wait, None, login);
    NothingMade(Asides(before));
    StartKept(c, w, before, s);
    var ok;
    s, ok := Rounds(c, w, s);
    rounds := s;
    InvFacts(c, s.core);
    KeptAnswered(c, w, before, login, wait, s, s.core.trace);
    if Forward(c, w) { TimelyPurchases(c, w, s.core); }
    if !ok { return None, s, rounds; }
    answer, s := Finish(c, w, s);
    InvFacts(c, s.core);
    KeptAnswered(c, w, before, login, wait, rounds, s.core.trace);
    if answer.Some? && answer.value.Own? { TrustworthyProven(c, w, s.core.trace); }
  }

  /** Tools ran, nobody waits, and the model's last reply is without text or missing. */
  predicate AsksOnceMore(r: Run, s: Run)
  {
    !s.wait && s.core.outcomes != [] && (r.last.None? || r.last.value.text == "")
  }

  /** After the rounds: the login's second try, the last request, and the message shown. */
  method Finish(c: Setting, w: World, r: Run) returns (answer: Option<Answer>, s: Run)
    requires Inv(c, r.core) && Timely(c, w, r.core) && FromProvider(w, r)
    ensures Inv(c, s.core) && (Forward(c, w) ==> PurchasesConfirmed(c, s.core.trace))
    ensures r.asks <= s.asks <= r.asks + 1 && s.core.trace == r.core.trace + Retry(c, w, r)
    ensures s.core.messages == r.core.messages + Closing(w, r, s.asks)
    ensures answer.None? ==> s.last.None? && !s.wait
    ensures answer.Some? ==> (s.asks > r.asks <==> AsksOnceMore(r, s))
    ensures answer.Some? && answer.value.Own? ==> Trustworthy(c, s.core.trace)
    ensures answer.Some? && answer.value.Own? ==>
              FromProvider(w, s) && s.last.Some? && answer.value.text == Shown(c, s.last.value)
  {
    hide Inv, Lawful, EveryCallFailed, Trustworthy, Timely, PurchasesConfirmed, FromProvider, Forward, Aside;
    hide Retries, Final, Open, NoticeHolds, AllBlank, Threaded, Prompts, Mutations;
    s := RetryLogin(c, w, r);
    InvFacts(c, s.core);
    if Forward(c, w) { TimelyPurchases(c, w, s.core); }
    var reply := Reply("", [], false, "");
    if s.last.Some? {
      reply := s.last.value;
    } else if !s.wait {
      return None, s;
    }
    s, reply := FinalRequest(c, w, s, reply);
    var a := Conclude(c, s, reply);
    if a.Own? { TrustworthyIf(c, s.core); }
    answer := Some(a);
  }

  lemma {:induction false} NothingMade(steps: seq<Step>)
    ensures ModelSteps([]) == [] && [] + steps == steps
  {
  }

  lemma {:induction false} StartKept(c: Setting, w: World, before: seq<(Call, Outcome)>, s: Run)
    requires s.core.trace == Asides(before) && s.core.history == Opening(c) && s.core.messages == []
    requires ModelSteps(s.core.trace) == []
    requires s == Run(s.core, 0, 0, false, false, false, s.wait, None, s.login)
    ensures Kept(c, w, Asides(before), s.login, s.wait, s)
  {
    hide Asides, Opening, ModelSteps;
  }

  lemma {:induction false} KeptAnswered(c: Setting, w: World, before: seq<(Call, Outcome)>, login: Option<Login>,
      wait: bool, r: Run, more: seq<Step>)
    requires Kept(c, w, Asides(before), login, wait, r)
    requires r.core.trace <= more && forall k :: |r.core.trace| <= k < |more| ==> !more[k].byModel
    ensures AsAnswered(w, more)
  {
    hide Told, Talk, Remembers, Budget, Prompts, AsAnswered;
    AllAsAnswered(c, w, Asides(before), r.core.trace, r.core.history, more);
  }

  lemma {:induction false} StartTimely(c: Setting, w: World, s: Core)
    requires s.history == Opening(c) && forall k :: 0 <= k < |s.trace| ==> !s.trace[k].byModel
    ensures Timely(c, w, s)
  {
    if Forward(c, w) {
      ClockedOne(c.past, Turn(c.session, c.startedAt, c.message));
      TimeGoesOn(c, w, 0, |s.trace|);
    }
  }

  lemma {:induction false} InvFacts(c: Setting, s: Core)
    requires Inv(c, s)
    ensures Lawful(c, s.trace) && Threaded(s.messages) && Prompts(s.messages, Verify) <= 1 + Mutations(c, s.trace)
  {
    hide Lawful, After, Prompts, Threaded, Mutations, Streak, Outcomes, Signals, Blocked;
  }
}
