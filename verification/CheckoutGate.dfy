/** The checkout gate of the browser tool. */
module CheckoutGate {
  import opened Text

  /*
    A purchase action runs only while the session's user has confirmed within the last five minutes.  What
    counts as a confirmation, a cancellation or a purchase is a parameter.
  */

  const CONFIRM_TTL_MS: nat := 5 * 60_000

  datatype Pending = Pending(action: string, createdAt: nat)

  datatype SessionState = SessionState(pending: Option<Pending>, confirmedUntil: nat)

  const FRESH := SessionState(None, 0)

  type Sessions = map<string, SessionState>

  datatype Phrases = Phrases(cancels: string -> bool, confirms: string -> bool)

  /** A user turn, or a check of a tool call; `risk` names the purchase action, if it is one. */
  datatype Event =
    | Turn(session: string, now: nat, message: string)
    | Check(session: string, now: nat, risk: Option<string>)

  /** Cancelling is looked for first. */
  predicate Cancels(p: Phrases, e: Event)
  {
    e.Turn? && !AllBlank(e.message) && p.cancels(e.message)
  }

  predicate Confirms(p: Phrases, e: Event)
  {
    e.Turn? && !AllBlank(e.message) && !p.cancels(e.message) && p.confirms(e.message)
  }

  predicate Decides(p: Phrases, e: Event)
  {
    Cancels(p, e) || Confirms(p, e)
  }

  function Lookup(g: Sessions, session: string): SessionState
  {
    if session in g then g[session] else FRESH
  }

  function Expire(st: SessionState, now: nat): SessionState
  {
    if st.confirmedUntil <= now then st.(confirmedUntil := 0) else st
  }

  function Effect(p: Phrases, st: SessionState, e: Event): SessionState
  {
    var live := Expire(st, e.now);
    match e
    case Turn(_, now, _) =>
      if Cancels(p, e) then SessionState(None, 0)
      else if Confirms(p, e) then SessionState(None, now + CONFIRM_TTL_MS)
      else live
    case Check(_, now, risk) =>
      if risk.None? then live
      else if live.confirmedUntil > now then live.(pending := None)
      else live.(pending := Some(Pending(risk.value, now)))
  }

  function Apply(p: Phrases, g: Sessions, e: Event): Sessions
  {
    g[e.session := Effect(p, Lookup(g, e.session), e)]
  }

  /** The gate after a history of turns and checks of all sessions. */
  function After(p: Phrases, h: seq<Event>): Sessions
    decreases |h|
  {
    if h == [] then map[] else Apply(p, After(p, h[..|h| - 1]), h[|h| - 1])
  }

  lemma {:induction false} AfterOneMore(p: Phrases, h: seq<Event>, e: Event)
    ensures After(p, h + [e]) == Apply(p, After(p, h), e)
  {
    assert (h + [e])[..|h|] == h;
  }

  predicate Allows(g: Sessions, session: string, now: nat, risk: Option<string>)
  {
    risk.None? || Lookup(g, session).confirmedUntil > now
  }

  class CheckoutWorkflow {
    const phrases: Phrases
    var states: Sessions
    ghost var history: seq<Event>

    ghost predicate Valid()
      reads this
    {
      states == After(phrases, history)
    }

    constructor (phrases: Phrases)
      ensures Valid() && history == [] && this.phrases == phrases
    {
      this.phrases, states, history := phrases, map[], [];
    }

    method GetState(session: string) returns (state: SessionState)
      ensures state == Lookup(states, session)
    {
      if session in states { return states[session]; }
      return SessionState(None, 0);
    }

    method BeginTurn(session: string, now: nat, message: string) returns (confirmedThisTurn: bool, canceled: bool)
      requires Valid()
      modifies this
      ensures Valid() && history == old(history) + [Turn(session, now, message)]
      ensures canceled == Cancels(phrases, Turn(session, now, message))
      ensures confirmedThisTurn == Confirms(phrases, Turn(session, now, message))
    {
      hide AllBlank, After;
      var state := GetState(session);
      confirmedThisTurn, canceled := false, false;
      if state.confirmedUntil <= now { state := state.(confirmedUntil := 0); }
      if !AllBlank(message) {
        if phrases.cancels(message) {
          state, canceled := SessionState(None, 0), true;
        } else if phrases.confirms(message) {
          state, confirmedThisTurn := SessionState(None, now + CONFIRM_TTL_MS), true;
        }
      }
      states := states[session := state];
      AfterOneMore(phrases, history, Turn(session, now, message));
      history := history + [Turn(session, now, message)];
    }

    /** A risky call is let through exactly when the history authorises it. */
    method Enforce(session: string, now: nat, risk: Option<string>) returns (allowed: bool, confirmed: bool)
      requires Valid()
      modifies this
      ensures Valid() && history == old(history) + [Check(session, now, risk)]
      ensures allowed == (risk.Some? ==> Authorised(phrases, old(history), session, now))
      ensures confirmed == (risk.Some? && allowed)
    {
      hide Authorised, After;
      GateSound(phrases, history, session, now);
      var state := GetState(session);
      if state.confirmedUntil <= now { state := state.(confirmedUntil := 0); }
      if risk.None? {
        allowed, confirmed := true, false;
      } else if state.confirmedUntil > now {
        state := state.(pending := None);
        allowed, confirmed := true, true;
      } else {
        state := state.(pending := Some(Pending(risk.value, now)));
        allowed, confirmed := false, false;
      }
      states := states[session := state];
      AfterOneMore(phrases, history, Check(session, now, risk));
      history := history + [Check(session, now, risk)];
    }
  }

  // ----- what authorises -----

  /** Event `k` confirmed, nothing decided since, and the confirmation never ran out on the way. */
  ghost predicate GrantedBy(p: Phrases, h: seq<Event>, session: string, now: nat, k: nat)
  {
    k < |h| && h[k].session == session && Confirms(p, h[k]) && now < h[k].now + CONFIRM_TTL_MS &&
    forall j :: k < j < |h| && h[j].session == session ==> !Decides(p, h[j]) && h[j].now < h[k].now + CONFIRM_TTL_MS
  }

  ghost predicate Authorised(p: Phrases, h: seq<Event>, session: string, now: nat)
  {
    exists k: nat :: GrantedBy(p, h, session, now, k)
  }

  /** How one more event changes who is authorised. */
  lemma {:induction false} AuthorisedStep(p: Phrases, h: seq<Event>, session: string, now: nat)
    requires h != []
    ensures var pre, e := h[..|h| - 1], h[|h| - 1];
            Authorised(p, h, session, now) <==>
              if e.session != session then Authorised(p, pre, session, now)
              else if Cancels(p, e) then false
              else if Confirms(p, e) then now < e.now + CONFIRM_TTL_MS
              else Authorised(p, pre, session, if now >= e.now then now else e.now)
  {
    hide Cancels, Confirms;
    var pre, e := h[..|h| - 1], h[|h| - 1];
    var last := |h| - 1;
    var late := if now >= e.now then now else e.now;
    if Authorised(p, h, session, now) {
      var k: nat :| GrantedBy(p, h, session, now, k);
      if k < last {
        assert e.session != session ==> GrantedBy(p, pre, session, now, k);
        assert e.session == session ==> GrantedBy(p, pre, session, late, k);
      }
    }
    if e.session != session {
      if k: nat :| GrantedBy(p, pre, session, now, k) { assert GrantedBy(p, h, session, now, k); }
    } else if Confirms(p, e) {
      CancelNotConfirm(p, e);
      assert now < e.now + CONFIRM_TTL_MS ==> GrantedBy(p, h, session, now, last);
    } else if !Cancels(p, e) {
      if k: nat :| GrantedBy(p, pre, session, late, k) { assert GrantedBy(p, h, session, now, k); }
    } else {
      CancelNotConfirm(p, e);
    }
  }

  lemma {:induction false} CancelNotConfirm(p: Phrases, e: Event)
    ensures !(Cancels(p, e) && Confirms(p, e)) && (Decides(p, e) ==> e.Turn?)
  {
  }

  /** The stored deadline is open exactly when the history authorises, for every session and every clock. */
  lemma {:induction false} GateSound(p: Phrases, h: seq<Event>, session: string, now: nat)
    ensures Lookup(After(p, h), session).confirmedUntil > now <==> Authorised(p, h, session, now)
    decreases |h|
  {
    hide Authorised, Cancels, Confirms;
    if h == [] {
      NothingAuthorised(p, session, now);
    } else {
      var pre, e := h[..|h| - 1], h[|h| - 1];
      AuthorisedStep(p, h, session, now);
      CancelNotConfirm(p, e);
      GateSound(p, pre, session, now);
      GateSound(p, pre, session, if now >= e.now then now else e.now);
    }
  }

  lemma {:induction false} NothingAuthorised(p: Phrases, session: string, now: nat)
    ensures !Authorised(p, [], session, now)
  {
  }

  /**
    What a user's message does to the gate of their session: a cancelling one shuts it, a confirming one opens it for
    five minutes, and one that is blank or neither leaves it as it was.
  */
  lemma {:induction false} TurnDecides(p: Phrases, h: seq<Event>, session: string, at: nat, message: string, now: nat)
    requires at <= now
    ensures var after := Authorised(p, h + [Turn(session, at, message)], session, now);
            if AllBlank(message) || (!p.cancels(message) && !p.confirms(message)) then
              after == Authorised(p, h, session, now)
            else after <==> !p.cancels(message) && now - at < 5 * 60 * 1000
  {
    hide Authorised, AllBlank;
    var more := h + [Turn(session, at, message)];
    assert more[..|more| - 1] == h;
    AuthorisedStep(p, more, session, now);
  }

  /** A check of a call, and whatever other sessions do, decides nothing. */
  lemma {:induction false} ChecksDecideNothing(p: Phrases, h: seq<Event>, session: string, e: Event, now: nat)
    requires e.now <= now && (e.Check? || e.session != session)
    ensures Authorised(p, h + [e], session, now) == Authorised(p, h, session, now)
  {
    hide Authorised, AllBlank;
    var more := h + [e];
    assert more[..|more| - 1] == h;
    AuthorisedStep(p, more, session, now);
  }

  predicate Risky(e: Event)
  {
    e.Check? && e.risk.Some?
  }

  /** Event `k` is a purchase that was refused, with no decision and no other purchase of the session since. */
  ghost predicate RefusedAt(p: Phrases, h: seq<Event>, session: string, k: nat)
  {
    k < |h| && h[k].session == session && Risky(h[k]) && !Authorised(p, h[..k], session, h[k].now) &&
    forall j :: k < j < |h| && h[j].session == session ==> !Decides(p, h[j]) && !Risky(h[j])
  }

  lemma {:induction false} RefusedStep(p: Phrases, pre: seq<Event>, e: Event, session: string, k: nat)
    ensures k < |pre| ==>
              (RefusedAt(p, pre + [e], session, k) <==>
               RefusedAt(p, pre, session, k) && (e.session == session ==> !Decides(p, e) && !Risky(e)))
    ensures RefusedAt(p, pre + [e], session, |pre|) <==>
            e.session == session && Risky(e) && !Authorised(p, pre, session, e.now)
  {
    hide Authorised, Decides, Risky;
    var h := pre + [e];
    assert h[..|pre|] == pre && h[|pre|] == e && forall j :: 0 <= j < |pre| ==> h[j] == pre[j];
    if k < |pre| { assert h[..k] == pre[..k]; }
  }

  /** The action the user is asked to confirm is the purchase last refused, and none once one was let through. */
  lemma {:induction false} PendingIffRefused(p: Phrases, h: seq<Event>, session: string, k: nat)
    ensures RefusedAt(p, h, session, k) ==>
              Lookup(After(p, h), session).pending == Some(Pending(h[k].risk.value, h[k].now))
    ensures Lookup(After(p, h), session).pending.Some? ==> exists i: nat :: RefusedAt(p, h, session, i)
    decreases |h|
  {
    hide Authorised, Cancels, Confirms, RefusedAt;
    if h == [] {
      NoneRefused(p, session, k);
    } else {
      var pre, e := h[..|h| - 1], h[|h| - 1];
      assert h == pre + [e];
      RefusedBound(p, h, session, k);
      RefusedStep(p, pre, e, session, k);
      RefusedStep(p, pre, e, session, |pre|);
      PendingIffRefused(p, pre, session, k);
      GateSound(p, pre, session, e.now);
      CancelNotConfirm(p, e);
      if i: nat :| RefusedAt(p, pre, session, i) {
        RefusedBound(p, pre, session, i);
        RefusedStep(p, pre, e, session, i);
      }
    }
  }

  lemma {:induction false} NoneRefused(p: Phrases, session: string, k: nat)
    ensures !RefusedAt(p, [], session, k)
  {
  }

  lemma {:induction false} RefusedBound(p: Phrases, h: seq<Event>, session: string, k: nat)
    ensures RefusedAt(p, h, session, k) ==> k < |h| && h[k].Check? && h[k].risk.Some?
  {
  }

  predicate Clocked(h: seq<Event>, now: nat)
  {
    (forall i, j :: 0 <= i <= j < |h| ==> h[i].now <= h[j].now) && forall i :: 0 <= i < |h| ==> h[i].now <= now
  }

  /** Event `k` is the session's latest turn that confirmed or cancelled. */
  predicate LatestDecision(p: Phrases, h: seq<Event>, session: string, k: nat)
  {
    k < |h| && h[k].session == session && Decides(p, h[k]) &&
    forall j :: k < j < |h| && h[j].session == session ==> !Decides(p, h[j])
  }

  /** With a clock that does not run backwards: the latest decision is a confirmation under five minutes old. */
  lemma {:induction false} AuthorisedIffRecentConfirm(p: Phrases, h: seq<Event>, session: string, now: nat)
    requires Clocked(h, now)
    ensures Authorised(p, h, session, now) <==>
            exists k: nat :: LatestDecision(p, h, session, k) && Confirms(p, h[k]) && now - h[k].now < CONFIRM_TTL_MS
  {
    hide Confirms, Cancels;
    if k: nat :| GrantedBy(p, h, session, now, k) {
      assert LatestDecision(p, h, session, k);
    }
    if k: nat :| LatestDecision(p, h, session, k) && Confirms(p, h[k]) && now - h[k].now < CONFIRM_TTL_MS {
      assert GrantedBy(p, h, session, now, k);
    }
  }

  /** The events of one session. */
  function Only(h: seq<Event>, session: string): seq<Event>
    decreases |h|
  {
    if h == [] then []
    else Only(h[..|h| - 1], session) + if h[|h| - 1].session == session then [h[|h| - 1]] else []
  }

  /** A session's state is that of its own events: the other sessions, however interleaved, do not matter. */
  lemma {:induction false} SessionsAreIndependent(p: Phrases, h: seq<Event>, session: string)
    ensures Lookup(After(p, h), session) == Lookup(After(p, Only(h, session)), session)
    decreases |h|
  {
    hide Effect, After;
    if h != [] {
      var pre, e := h[..|h| - 1], h[|h| - 1];
      SessionsAreIndependent(p, pre, session);
      assert h == pre + [e];
      AfterOneMore(p, pre, e);
      if e.session == session {
        AfterOneMore(p, Only(pre, session), e);
      } else {
        assert Only(pre, session) + [] == Only(pre, session);
      }
    }
  }
}
