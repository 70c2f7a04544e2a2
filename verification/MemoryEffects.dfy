/** What recall, feedback, delete, prune, eviction and reading a line do, said on the fields. */
module MemoryEffects {
  import opened Text
  import opened MemoryEntry
  import opened MemoryLog
  import opened MemoryQuota
  import opened MemoryRetention
  import opened MemoryOps
  import opened MemoryFields

  // ----- scope -----

  predicate AtLeast(t: TrustTier, min: TrustTier)
  {
    match min
    case Unverified => true
    case Observed => t != Unverified
    case Verified => t == Verified || t == System
    case System => t == System
  }

  /** In the namespace, and trusted enough. */
  ghost predicate Visible(e: Entry, scope: Scope)
  {
    e.namespace == scope.namespace && AtLeast(e.trustTier, scope.minTier)
  }

  lemma {:induction false} VisibleIff(e: Entry, scope: Scope)
    ensures InScope(e, scope) <==> Visible(e, scope)
  {
  }

  lemma {:induction false} FindOnly(live: seq<Entry>, e: Entry)
    requires UniqueIds(live) && e in live
    ensures Find(live, e.id) == Some(e)
  {
    if live[0] != e {
      var rest := live[1..];
      var k :| 0 <= k < |live| && live[k] == e;
      assert rest[k - 1] == e && UniqueIds(rest);
      FindOnly(rest, e);
    }
  }

  /** A lookup finds the live entry of the id if it is visible, and nothing else. */
  lemma {:induction false} FoundIff(log: Log, id: string, scope: Scope, e: Entry)
    ensures FindScoped(Replay(log), id, Some(scope)) == Some(e) <==> e in Replay(log) && e.id == id && Visible(e, scope)
  {
    hide Replay, Visible, InScope;
    ReplayUnique(log);
    FindLive(Replay(log), id);
    VisibleIff(e, scope);
    if e in Replay(log) && e.id == id { FindOnly(Replay(log), e); }
  }

  // ----- recall and feedback -----

  /** `e'` stands in for `e`, and every other live entry is untouched. */
  ghost predicate Instead(log: Log, log': Log, e: Entry, e': Entry)
  {
    forall o :: o in Replay(log') <==> o == e' || (o in Replay(log) && o.id != e.id)
  }

  lemma {:induction false} TouchedInstead(log: Log, e: Entry, e': Entry)
    requires WellFormed(e') && e'.id == e.id
    ensures Instead(log, log + [EntryLine(e')], e, e')
  {
    hide WellFormed, EventOf, EntryLine, Replay;
    EntryLineEvent(e');
    ReplaySnoc(log, EntryLine(e'));
    ApplyMembers(Replay(log), Put(e'));
  }

  /** A number moved by `by`, stopped at `bound`. */
  predicate Moved(was: int, step: int, bound: int, now: int)
  {
    now == was + step || (now == bound && (if step >= 0 then was + step >= bound else was + step <= bound))
  }

  predicate MovedReal(was: real, step: real, bound: real, now: real)
  {
    now == was + step || (now == bound && (if step >= 0.0 then was + step >= bound else was + step <= bound))
  }

  /** Everything but the counters and the two timestamps is as before. */
  predicate SameBut(e: Entry, now: string, e': Entry)
  {
    e' == e.(updatedAt := now, lastAccessedAt := now, reinforceCount := e'.reinforceCount, importance := e'.importance,
             confidence := e'.confidence)
  }

  predicate Raised(e: Entry, weight: nat, e': Entry)
  {
    Moved(e.importance, weight, 5, e'.importance) && Moved(e.reinforceCount, weight, 10_000, e'.reinforceCount) &&
    MovedReal(e.confidence, 0.07 * weight as real, 1.0, e'.confidence)
  }

  predicate Lowered(e: Entry, weight: nat, e': Entry)
  {
    Moved(e.importance, 0 - weight, 1, e'.importance) && Moved(e.reinforceCount, 0 - weight, 0, e'.reinforceCount) &&
    MovedReal(e.confidence, -(0.08 * weight as real), 0.05, e'.confidence)
  }

  lemma {:induction false} JudgedMoves(e: Entry, useful: bool, weight: nat, now: string)
    requires WellFormed(e)
    ensures var e' := Judged(e, useful, weight, now);
            SameBut(e, now, e') && if useful then Raised(e, weight, e') else Lowered(e, weight, e')
  {
    hide Filled, TagList, Slug;
  }

  /** Feedback raises or lowers the counters of the entry it names, by its weight and within their bounds. */
  lemma {:induction false} FeedbackMoves(log: Log, id: string, scope: Scope, useful: bool, weight: nat, x: Ctx,
      e: Entry)
    returns (e': Entry)
    requires GoodCtx(x) && e in Replay(log) && e.id == id && Visible(e, scope)
    ensures Instead(log, Step(log, FeedbackOp(id, scope, useful, weight), x), e, e') && SameBut(e, x.now, e')
    ensures if useful then Raised(e, weight, e') else Lowered(e, weight, e')
  {
    hide Replay, Visible, GoodCtx, Instead, WellFormed, Filled, Judged, Raised, Lowered, SameBut;
    FoundIff(log, id, scope, e);
    LiveWellFormed(log);
    GoodNow(x);
    TouchedWellFormed(e, useful, weight, x.now);
    e' := Judged(e, useful, weight, x.now);
    JudgedMoves(e, useful, weight, x.now);
    TouchedInstead(log, e, e');
  }

  /** A reinforcing recall adds one to the count and a little confidence; without it nothing is written. */
  lemma {:induction false} RecallReinforces(log: Log, id: string, scope: Scope, x: Ctx, e: Entry) returns (e': Entry)
    requires GoodCtx(x) && e in Replay(log) && e.id == id && Visible(e, scope)
    ensures Instead(log, Step(log, RecallOp(id, scope, true), x), e, e') && SameBut(e, x.now, e')
    ensures e'.importance == e.importance && Moved(e.reinforceCount, 1, 10_000, e'.reinforceCount)
    ensures MovedReal(e.confidence, 0.02, 1.0, e'.confidence)
    ensures Step(log, RecallOp(id, scope, false), x) == log
  {
    hide Replay, Visible, GoodCtx, Instead, Filled, TagList, Slug;
    FoundIff(log, id, scope, e);
    LiveWellFormed(log);
    GoodNow(x);
    TouchedWellFormed(e, true, 0, x.now);
    e' := Reinforced(e, x.now);
    TouchedInstead(log, e, e');
  }

  /** Without a visible entry of the id, recall and feedback leave the log as it is. */
  lemma {:induction false} NothingToTouch(log: Log, id: string, scope: Scope, useful: bool, weight: nat, x: Ctx)
    requires forall e :: e in Replay(log) && e.id == id ==> !Visible(e, scope)
    ensures Step(log, FeedbackOp(id, scope, useful, weight), x) == log
    ensures Step(log, RecallOp(id, scope, useful), x) == log
  {
    hide Replay, Visible;
    var f := FindScoped(Replay(log), id, Some(scope));
    if f.Some? { FoundIff(log, id, scope, f.value); }
  }

  // ----- delete -----

  /** Just this entry is gone. */
  ghost predicate Without(log: Log, log': Log, e: Entry)
  {
    forall o :: o in Replay(log') <==> o in Replay(log) && o.id != e.id
  }

  lemma {:induction false} DeletedWithout(log: Log, e: Entry, at: string)
    requires Filled(at) && e in Replay(log)
    ensures Without(log, log + [DeleteLine(e.id, at)], e)
  {
    hide Filled, EventOf, DeleteLine, Replay;
    LiveFilled(log);
    DeleteLineEvent(e.id, at);
    ReplaySnoc(log, DeleteLine(e.id, at));
    ApplyMembers(Replay(log), Del(e.id));
  }

  /** A delete by id removes the visible entry of that id. */
  lemma {:induction false} DeleteById(log: Log, id: string, scope: Scope, x: Ctx, e: Entry)
    requires GoodCtx(x) && e in Replay(log) && e.id == id && Visible(e, scope)
    ensures Without(log, Step(log, DeleteOp(AtId(id), scope), x), e)
  {
    hide Replay, Visible, GoodCtx, Without, Filled;
    FoundIff(log, id, scope, e);
    GoodNow(x);
    DeletedWithout(log, e, x.now);
  }

  /** The visible entries of a title. */
  ghost predicate HasTitle(e: Entry, title: string, scope: Scope)
  {
    TitleKey(e.title) == TitleKey(title) != "" && Visible(e, scope)
  }

  /** A delete by title removes a visible entry of it that none was updated after, if there is one at all. */
  lemma {:induction false} DeleteByTitle(log: Log, title: string, scope: Scope, x: Ctx) returns (e: Option<Entry>)
    requires GoodCtx(x)
    ensures e.None? ==> Step(log, DeleteOp(AtTitle(title), scope), x) == log
    ensures e.None? ==> forall o :: o in Replay(log) ==> !HasTitle(o, title, scope)
    ensures e.Some? ==>
              && e.value in Replay(log) && HasTitle(e.value, title, scope)
              && Without(log, Step(log, DeleteOp(AtTitle(title), scope), x), e.value)
              && exists k :: FirstLatest(Replay(log), title, scope, x.clock, k) && Replay(log)[k] == e.value
  {
    hide Replay, GoodCtx, Without, Filled, TitleKey, Visible;
    e := FindTarget(Replay(log), AtTitle(title), scope, x.clock);
    GoodNow(x);
    forall o | o in Replay(log) ensures InScope(o, scope) <==> Visible(o, scope) { VisibleIff(o, scope); }
    if e.Some? {
      DeletedWithout(log, e.value, x.now);
      var k := LatestIsFirst(Replay(log), title, scope, x.clock);
    }
  }

  /** Of the visible entries of the title, entry `k` was updated last, and before it in the list none as late. */
  ghost predicate FirstLatest(live: seq<Entry>, title: string, scope: Scope, clock: Clock, k: int)
  {
    && 0 <= k < |live|
    && (forall j :: 0 <= j < |live| && HasTitle(live[j], title, scope) ==>
          clock.millis(live[j].updatedAt) <= clock.millis(live[k].updatedAt))
    && (forall j :: 0 <= j < k && HasTitle(live[j], title, scope) ==>
          clock.millis(live[j].updatedAt) < clock.millis(live[k].updatedAt))
  }

  lemma {:induction false} LatestIsFirst(live: seq<Entry>, title: string, scope: Scope, clock: Clock) returns (k: nat)
    requires TitleKey(title) != "" && LatestTitled(live, TitleKey(title), scope, clock).Some?
    ensures FirstLatest(live, title, scope, clock, k)
    ensures LatestTitled(live, TitleKey(title), scope, clock) == Some(live[k])
    decreases |live|
  {
    hide TitleKey, FirstLatest, HasTitle, Titled;
    var key, rest := TitleKey(title), live[1..];
    var later := LatestTitled(rest, key, scope, clock);
    if Titled(live[0], key, scope) && (later.None? || Stamp(live[0], clock) >= Stamp(later.value, clock)) {
      k := 0;
      LatestHere(live, title, scope, clock);
    } else {
      k := LatestIsFirst(rest, title, scope, clock);
      LatestLater(live, title, scope, clock, k);
      k := k + 1;
    }
  }

  lemma {:induction false} TitledIs(e: Entry, title: string, scope: Scope)
    requires TitleKey(title) != ""
    ensures Titled(e, TitleKey(title), scope) <==> HasTitle(e, title, scope)
  {
    hide TitleKey;
    VisibleIff(e, scope);
  }

  lemma {:induction false} LatestHere(live: seq<Entry>, title: string, scope: Scope, clock: Clock)
    requires TitleKey(title) != "" && live != []
    requires var later := LatestTitled(live[1..], TitleKey(title), scope, clock);
             later.None? || Stamp(live[0], clock) >= Stamp(later.value, clock)
    ensures FirstLatest(live, title, scope, clock, 0)
  {
    hide TitleKey, HasTitle, Titled;
    forall j | 0 <= j < |live| && HasTitle(live[j], title, scope)
      ensures Stamp(live[j], clock) <= Stamp(live[0], clock)
    {
      if j > 0 {
        assert live[j] == live[1..][j - 1] && live[j] in live[1..];
        TitledIs(live[j], title, scope);
      }
    }
  }

  lemma {:induction false} LatestLater(live: seq<Entry>, title: string, scope: Scope, clock: Clock, k: nat)
    requires TitleKey(title) != "" && live != [] && FirstLatest(live[1..], title, scope, clock, k)
    requires Titled(live[0], TitleKey(title), scope) ==> Stamp(live[0], clock) < Stamp(live[1..][k], clock)
    ensures FirstLatest(live, title, scope, clock, k + 1) && k + 1 < |live| && live[k + 1] == live[1..][k]
  {
    hide TitleKey, HasTitle, Titled;
    TitledIs(live[0], title, scope);
    var rest := live[1..];
    assert forall j :: 0 < j < |live| ==> live[j] == rest[j - 1];
    forall j | 0 <= j < |live| && HasTitle(live[j], title, scope)
      ensures Stamp(live[j], clock) <= Stamp(live[k + 1], clock)
      ensures j < k + 1 ==> Stamp(live[j], clock) < Stamp(live[k + 1], clock)
    {
      if j > 0 { assert HasTitle(rest[j - 1], title, scope); }
    }
  }

  /** The refs the tools hand out are understood when they come back, and file refs are refused. */
  lemma {:induction false} RefsComeBack(id: string, title: string, other: string)
    requires Filled(id) && Filled(title)
    ensures TargetOf(STORE_REF + id, "", other) == Some(AtId(id))
    ensures !("file:" <= Trim(other)) ==> TargetOf(other, STORE_REF + id, title) == Some(AtId(id))
    ensures !("file:" <= Trim(other)) && !(STORE_REF <= id) ==> TargetOf(other, id, title) == Some(AtId(id))
    ensures TargetOf("", "", title) == Some(AtTitle(title)) && TargetOf("", "", "") == None
    ensures TargetOf("file:" + id, other, title) == None
  {
    hide Trim;
    var ref, file := STORE_REF + id, "file:" + id;
    assert ref[0] == 's' && ref[|ref| - 1] == id[|id| - 1] && file[0] == 'f' && file[|file| - 1] == id[|id| - 1];
    assert !Blank('s') && !Blank('f');
    TrimSound(ref);
    TrimSound(file);
    TrimSound(id);
    TrimSound(title);
    TrimSound("");
    assert ref[|STORE_REF|..] == id;
  }

  // ----- prune -----

  /** Older than the given number of days, if its time of update can be read at all. */
  ghost predicate TooOld(e: Entry, c: Criteria, clock: Clock)
  {
    var updated := clock.millis(if e.updatedAt == "" then e.createdAt else e.updatedAt);
    c.olderThanDays.Some? && updated > 0 && clock.now - updated >= c.olderThanDays.value * (24 * 60 * 60 * 1000)
  }

  /** The entries in scope updated after `e`, or, if `ties` count, no earlier than it. */
  ghost function Ahead(live: seq<Entry>, scope: Scope, clock: Clock, e: Entry, ties: bool): set<string>
  {
    set o | o in live && Visible(o, scope) && o.id != e.id &&
            (clock.millis(o.updatedAt) > clock.millis(e.updatedAt) ||
             (ties && clock.millis(o.updatedAt) == clock.millis(e.updatedAt))) :: o.id
  }

  lemma {:induction false} InsertUnique(e: Entry, sorted: seq<Entry>, clock: Clock)
    requires UniqueIds(sorted) && forall o :: o in sorted ==> o.id != e.id
    ensures UniqueIds(Insert(e, sorted, clock))
    ensures forall o :: o in Insert(e, sorted, clock) <==> o == e || o in sorted
    decreases |sorted|
  {
    if sorted != [] && Stamp(e, clock) < Stamp(sorted[0], clock) {
      var first, rest := sorted[0], sorted[1..];
      forall o | o in rest ensures o.id != first.id {
        var k :| 0 <= k < |rest| && rest[k] == o;
        assert sorted[k + 1] == o;
      }
      assert UniqueIds(rest);
      InsertUnique(e, rest, clock);
      var r := Insert(e, rest, clock);
      assert forall k :: 0 <= k < |r| ==> r[k] in r;
    }
  }

  lemma {:induction false} NewestUnique(entries: seq<Entry>, clock: Clock)
    requires UniqueIds(entries)
    ensures UniqueIds(NewestFirst(entries, clock))
    ensures forall o :: o in NewestFirst(entries, clock) <==> o in entries
    decreases |entries|
  {
    hide Insert;
    if entries != [] {
      var rest := entries[1..];
      assert UniqueIds(rest);
      NewestUnique(rest, clock);
      forall o | o in NewestFirst(rest, clock) ensures o.id != entries[0].id {
        var k :| 0 <= k < |rest| && rest[k] == o;
        assert entries[k + 1] == o;
      }
      InsertUnique(entries[0], NewestFirst(rest, clock), clock);
    }
  }

  /** The list a prune walks over. */
  lemma {:induction false} WalkFacts(live: seq<Entry>, scope: Scope, clock: Clock)
    requires UniqueIds(live)
    ensures var sorted := NewestFirst(Matching(live, scope), clock);
            && UniqueIds(sorted) && Sorted(sorted, clock)
            && forall o :: o in sorted <==> o in live && Visible(o, scope)
  {
    hide NewestFirst, Matching, Visible, InScope, UniqueIds;
    MatchingUnique(live, scope);
    MatchingMembers(live, scope);
    NewestUnique(Matching(live, scope), clock);
    NewestFirstFacts(Matching(live, scope), clock);
    forall o | o in live ensures InScope(o, scope) <==> Visible(o, scope) { VisibleIff(o, scope); }
  }

  /** The ids in front of place `k` of a sorted list are ahead of it; the ids strictly ahead stand in front. */
  lemma {:induction false} PlaceCounts(live: seq<Entry>, scope: Scope, clock: Clock, sorted: seq<Entry>, k: nat)
    requires UniqueIds(sorted) && Sorted(sorted, clock) && forall o :: o in sorted <==> o in live && Visible(o, scope)
    requires k < |sorted|
    ensures k <= |Ahead(live, scope, clock, sorted[k], true)|
    ensures |Ahead(live, scope, clock, sorted[k], false)| <= k
  {
    hide Visible, UniqueIds, Sorted, Ahead;
    FrontUnique(sorted, k);
    IdsCount(sorted[..k]);
    FrontAhead(live, scope, clock, sorted, k);
    AheadInFront(live, scope, clock, sorted, k);
    SubsetSize(IdsOf(sorted[..k]), Ahead(live, scope, clock, sorted[k], true));
    SubsetSize(Ahead(live, scope, clock, sorted[k], false), IdsOf(sorted[..k]));
  }

  lemma {:induction false} FrontUnique(sorted: seq<Entry>, k: nat)
    requires UniqueIds(sorted) && k <= |sorted|
    ensures UniqueIds(sorted[..k])
  {
  }

  lemma {:induction false} FrontAhead(live: seq<Entry>, scope: Scope, clock: Clock, sorted: seq<Entry>, k: nat)
    requires UniqueIds(sorted) && Sorted(sorted, clock) && (forall o :: o in sorted ==> o in live && Visible(o, scope))
    requires k < |sorted|
    ensures IdsOf(sorted[..k]) <= Ahead(live, scope, clock, sorted[k], true)
  {
    hide Visible;
    forall o | o in sorted[..k] ensures o.id in Ahead(live, scope, clock, sorted[k], true) {
      var j :| 0 <= j < k && sorted[j] == o;
      assert o in sorted && Stamp(sorted[j], clock) >= Stamp(sorted[k], clock) && sorted[j].id != sorted[k].id;
    }
  }

  lemma {:induction false} AheadInFront(live: seq<Entry>, scope: Scope, clock: Clock, sorted: seq<Entry>, k: nat)
    requires Sorted(sorted, clock) && (forall o :: o in live && Visible(o, scope) ==> o in sorted) && k < |sorted|
    ensures Ahead(live, scope, clock, sorted[k], false) <= IdsOf(sorted[..k])
  {
    hide Visible;
    var e, front := sorted[k], sorted[..k];
    forall o | o in live && Visible(o, scope) && clock.millis(o.updatedAt) > clock.millis(e.updatedAt)
      ensures o.id in IdsOf(front)
    {
      var j :| 0 <= j < |sorted| && sorted[j] == o;
      assert k < j ==> Stamp(sorted[k], clock) >= Stamp(sorted[j], clock);
      assert front[j] == o && o in front;
    }
  }

  /**
    A prune removes every visible entry that is too old and every one with as many newer ones ahead of it as may be
    kept; and it removes nothing else, except that among entries updated at the same time some may go.
  */
  lemma {:induction false} PruneRemoves(live: seq<Entry>, scope: Scope, c: Criteria, clock: Clock, e: Entry)
    requires UniqueIds(live) && e in live
    ensures e in Pruned(live, scope, c, clock) ==>
              && Visible(e, scope)
              && (TooOld(e, c, clock) ||
                  (c.maxEntries.Some? && |Ahead(live, scope, clock, e, true)| >= c.maxEntries.value))
    ensures Visible(e, scope) &&
            (TooOld(e, c, clock) ||
             (c.maxEntries.Some? && |Ahead(live, scope, clock, e, false)| >= c.maxEntries.value)) ==>
              e in Pruned(live, scope, c, clock)
  {
    hide NewestFirst, Matching, Visible, Candidates, Ahead, UniqueIds, Sorted;
    var sorted := NewestFirst(Matching(live, scope), clock);
    WalkFacts(live, scope, clock);
    CandidatesIff(sorted, 0, c, clock, e);
    if e in Pruned(live, scope, c, clock) {
      var k: nat :| CandidateAt(sorted, k, 0, c, clock) && sorted[k] == e;
      assert sorted[k] in sorted;
      PlaceCounts(live, scope, clock, sorted, k);
    } else if Visible(e, scope) {
      var k := KeptAt(sorted, c, clock, e);
      PlaceCounts(live, scope, clock, sorted, k);
    }
  }

  /** The limits of a prune: one of the two must be given, and each is brought between its bounds. */
  lemma {:induction false} CriteriaClamped(maxEntries: Option<real>, olderThanDays: Option<real>)
    ensures var c := CriteriaOf(maxEntries, olderThanDays);
            && (c.None? <==> maxEntries.None? && olderThanDays.None?)
            && (c.Some? ==>
                  && (c.value.maxEntries.Some? <==> maxEntries.Some?)
                  && (c.value.olderThanDays.Some? <==> olderThanDays.Some?)
                  && (maxEntries.Some? ==> Clamped(maxEntries, 1, 10_000, 0, c.value.maxEntries.value))
                  && (olderThanDays.Some? ==> Clamped(olderThanDays, 1, 3_650, 0, c.value.olderThanDays.value)))
  {
    hide Clamped, ClampInt;
    ClampedIs(maxEntries, 1, 10_000, 1_000);
    ClampedIs(olderThanDays, 1, 3_650, 365);
    ClampedDefault(maxEntries, 1, 10_000, 1_000, 0);
    ClampedDefault(olderThanDays, 1, 3_650, 365, 0);
  }

  lemma {:induction false} ClampedDefault(v: Option<real>, lo: int, hi: int, default: int, other: int)
    ensures v.Some? ==> forall r :: Clamped(v, lo, hi, default, r) <==> Clamped(v, lo, hi, other, r)
  {
  }

  // ----- eviction -----

  /** As important, as sure, as often reinforced and as trusted. */
  ghost predicate AsStrong(a: Entry, b: Entry)
  {
    a.importance >= b.importance && a.confidence >= b.confidence && a.reinforceCount >= b.reinforceCount &&
    AtLeast(a.trustTier, b.trustTier)
  }

  ghost predicate SameSignals(a: Entry, b: Entry)
  {
    a.importance == b.importance && a.confidence == b.confidence && a.reinforceCount == b.reinforceCount &&
    a.trustTier == b.trustTier
  }

  function Updated(e: Entry, clock: Clock): int
  {
    clock.millis(if e.updatedAt != "" then e.updatedAt else e.createdAt)
  }

  function Accessed(e: Entry, clock: Clock): int
  {
    clock.millis(if e.lastAccessedAt != "" then e.lastAccessedAt
                 else if e.updatedAt != "" then e.updatedAt else e.createdAt)
  }

  /** Both times can be read and `a` was updated and read no earlier than `b`. */
  ghost predicate AsFresh(a: Entry, b: Entry, clock: Clock)
  {
    0 < Updated(b, clock) <= Updated(a, clock) && 0 < Accessed(b, clock) <= Accessed(a, clock)
  }

  lemma {:induction false} DaysFall(s: int, t: int, clock: Clock)
    requires s <= t
    ensures DaysSince(t, clock) <= DaysSince(s, clock)
  {
  }

  /** Of two entries the weaker and staler is evicted first; under the oldest-first policy only age counts. */
  lemma {:induction false} WeakerFirst(a: Entry, b: Entry, policy: Policy, clock: Clock)
    ensures policy == Oldest ==> (GoesBefore(b, a, policy, clock) <==> Updated(b, clock) < Updated(a, clock))
    ensures policy == LowSignalFirst && AsStrong(a, b) && !SameSignals(a, b) ==> GoesBefore(b, a, policy, clock)
    ensures policy == StaleLowSignal && AsStrong(a, b) && !SameSignals(a, b) && AsFresh(a, b, clock) ==>
              GoesBefore(b, a, policy, clock)
  {
    if AsFresh(a, b, clock) {
      DaysFall(Updated(b, clock), Updated(a, clock), clock);
      DaysFall(Accessed(b, clock), Accessed(a, clock), clock);
    }
  }

  /** Whole days since a time, none for the future. */
  function Days(t: int, clock: Clock): int
  {
    if t >= clock.now then 0 else (clock.now - t) / (24 * 60 * 60 * 1000)
  }

  /** What weighs the same under the policy that ignores age. */
  lemma {:induction false} LowWeights(e: Entry, clock: Clock)
    ensures Score(e.(importance := e.importance + 3), LowSignalFirst, clock) ==
            Score(e.(confidence := e.confidence + 2.0), LowSignalFirst, clock)
    ensures Score(e.(importance := e.importance + 1), LowSignalFirst, clock) ==
            Score(e.(reinforceCount := e.reinforceCount + 4), LowSignalFirst, clock)
    ensures Score(e.(trustTier := Verified), LowSignalFirst, clock) ==
            Score(e.(trustTier := Observed, confidence := e.confidence + 0.2), LowSignalFirst, clock)
  {
  }

  /** What weighs the same under the policy that counts age. */
  lemma {:induction false} StaleWeights(e: Entry, clock: Clock)
    ensures Score(e.(importance := e.importance + 1), StaleLowSignal, clock) ==
            Score(e.(confidence := e.confidence + 0.6), StaleLowSignal, clock)
    ensures Score(e.(importance := e.importance + 1), StaleLowSignal, clock) ==
            Score(e.(reinforceCount := e.reinforceCount + 6), StaleLowSignal, clock)
    ensures Score(e.(trustTier := Verified), StaleLowSignal, clock) ==
            Score(e.(trustTier := Observed, confidence := e.confidence + 0.25), StaleLowSignal, clock)
  {
    hide DaysSince;
  }

  /** Days since the update; none if its time cannot be read. */
  function UpdateAge(e: Entry, clock: Clock): int
  {
    if Updated(e, clock) > 0 then Days(Updated(e, clock), clock) else 0
  }

  /** Days since the last access, or, if its time cannot be read, since the update. */
  function AccessAge(e: Entry, clock: Clock): int
  {
    if Accessed(e, clock) > 0 then Days(Accessed(e, clock), clock) else UpdateAge(e, clock)
  }

  /** Age in fifths of a point: two for a day since the update, three for a day since the last access. */
  function AgePoints(e: Entry, clock: Clock): int
  {
    2 * UpdateAge(e, clock) + 3 * AccessAge(e, clock)
  }

  /** Of two entries with the same signals the score falls with age; 120 points weigh one step of importance. */
  lemma {:induction false} AgeWeights(a: Entry, b: Entry, steps: int, clock: Clock)
    requires SameSignals(a.(importance := a.importance + steps), b)
    ensures Score(a, StaleLowSignal, clock) < Score(b, StaleLowSignal, clock) <==>
            AgePoints(b, clock) - AgePoints(a, clock) < 120 * steps
  {
    hide AgePoints;
    AgeScore(a, clock);
    AgeScore(b, clock);
  }

  lemma {:induction false} AgeScore(e: Entry, clock: Clock)
    ensures 5.0 * Score(e, StaleLowSignal, clock) ==
            120.0 * e.importance as real + 200.0 * e.confidence + 20.0 * e.reinforceCount as real +
            50.0 * Rank(e.trustTier) as real - AgePoints(e, clock) as real
  {
    assert DaysSince(Updated(e, clock), clock) == Days(Updated(e, clock), clock);
    assert DaysSince(Accessed(e, clock), clock) == Days(Accessed(e, clock), clock);
    hide DaysSince, Days;
  }

  /**
    Eviction takes no more than it must: as long as it goes on the namespace is over a limit, and what goes next is
    unprotected and nothing unprotected goes before it.
  */
  ghost predicate Needed(active: seq<Entry>, quota: Quota, keep: set<string>, size: Sizer, clock: Clock, e: Entry)
  {
    && (|active| > quota.maxEntries || TotalSize(active, size) > quota.maxBytes)
    && e in active && e.id !in keep
    && forall o :: o in active && o.id !in keep ==> !GoesBefore(o, e, quota.policy, clock)
  }

  lemma {:induction false} EvictedNeeded(active: seq<Entry>, quota: Quota, keep: set<string>, size: Sizer, clock: Clock,
      k: nat)
    requires UniqueIds(active) && k < |Evicted(active, quota, keep, size, clock)|
    ensures var ev := Evicted(active, quota, keep, size, clock);
            Needed(Drop(active, IdsOf(ev[..k])), quota, keep, size, clock, ev[k])
    decreases |active|
  {
    hide GoesBefore, Drop, PickVictim, TotalSize, UniqueIds;
    var v := PickVictim(Drop(active, keep), quota.policy, clock).value;
    var ev := Evicted(active, quota, keep, size, clock);
    DropMembers(active, keep);
    PickVictimLeast(Drop(active, keep), quota.policy, clock);
    RemoveIdFacts(active, v, size);
    DropUnique(active, {v.id});
    var rest := RemoveId(active, v.id);
    assert ev == [v] + Evicted(rest, quota, keep, size, clock);
    if k == 0 {
      assert IdsOf(ev[..0]) == {};
      DropAbsent(active, {});
    } else {
      EvictedNeeded(rest, quota, keep, size, clock, k - 1);
      IdsHead(v, ev, k);
      DropDrop(active, {v.id}, IdsOf(ev[1..][..k - 1]));
    }
  }

  lemma {:induction false} IdsHead(v: Entry, ev: seq<Entry>, k: nat)
    requires 0 < k <= |ev| && ev[0] == v
    ensures IdsOf(ev[..k]) == {v.id} + IdsOf(ev[1..][..k - 1])
  {
    assert ev[..k] == [v] + ev[1..][..k - 1];
  }

  // ----- reading a line -----

  ghost predicate Given(v: Option<string>)
  {
    v.Some? && !AllBlank(v.value)
  }

  /** A line's field, trimmed, or what stands in for one that is missing or blank. */
  ghost predicate TextField(v: Option<string>, missing: string, r: string)
  {
    r == if Given(v) then Trim(v.value) else missing
  }

  lemma {:induction false} TextIs(v: Option<string>, default: string)
    requires Trimmed(default)
    ensures TextField(v, default, OrText(Trim(Or(v, default)), default))
    ensures Given(v) <==> Trim(Or(v, "")) != ""
    ensures Given(v) ==> Trim(Or(v, "")) == Trim(v.value)
  {
    hide Trim, AllBlank, Trimmed;
    if v.Some? { BlankText(v.value); }
    TrimSound(default);
    EmptyBlank();
  }

  lemma {:induction false} EmptyBlank()
    ensures AllBlank("") && Trimmed("") && Trim("") == "" && Lower("") == ""
  {
  }

  /** An entry as it is read: trimmed texts, defaults for what is missing, numbers between their bounds. */
  ghost predicate ReadAs(raw: Raw, e: Entry)
  {
    && TextField(raw.id, "", e.id) && TextField(raw.title, "", e.title) && TextField(raw.content, "", e.content)
    && TextField(raw.createdAt, "", e.createdAt) && TextField(raw.updatedAt, e.createdAt, e.updatedAt)
    && TextField(raw.lastAccessedAt, e.updatedAt, e.lastAccessedAt) && Tagged(Or(raw.tags, []), e.tags)
    && Clamped(raw.reinforceCount, 0, 10_000, 0, e.reinforceCount) && Clamped(raw.importance, 1, 5, 3, e.importance)
    && Confident(raw.confidence, e.confidence)
    && Labelled(raw.source, "user", 2, 32, e.source) && Labelled(raw.namespace, "global", 1, 64, e.namespace)
    && (forall t :: Names(raw.trustTier, t) ==> e.trustTier == t)
    && (NamesNone(raw.trustTier) ==> e.trustTier == Verified)
  }

  /** A line is an entry exactly when it has an id, a title, a content and a time, and it is read as it says. */
  lemma {:induction false} EntryRead(raw: Raw)
    ensures ParseEntry(raw).Some? <==> Given(raw.id) && Given(raw.title) && Given(raw.content) && Given(raw.createdAt)
    ensures ParseEntry(raw).Some? ==> ReadAs(raw, ParseEntry(raw).value)
  {
    hide Trim, Given, Tagged, Clamped, Labelled, Names, NamesNone, NormalTags, ClampInt, Label, Tier, Trimmed;
    EmptyBlank();
    TextIs(raw.id, "");
    TextIs(raw.title, "");
    TextIs(raw.content, "");
    TextIs(raw.createdAt, "");
    var createdAt := Trim(Or(raw.createdAt, ""));
    TrimSound(Or(raw.createdAt, ""));
    TextIs(raw.updatedAt, createdAt);
    var updatedAt := Trim(Or(raw.updatedAt, createdAt));
    TrimSound(Or(raw.updatedAt, createdAt));
    TextIs(raw.lastAccessedAt, updatedAt);
    TaggedIs(Or(raw.tags, []));
    ClampedIs(raw.reinforceCount, 0, 10_000, 0);
    ClampedIs(raw.importance, 1, 5, 3);
    LabelledIs(raw.source, "user", 2, 32);
    LabelledIs(raw.namespace, "global", 1, 64);
    TierIs(raw.trustTier, Verified);
  }

  /** A line deletes an id exactly when its type says so and it has the id and a time. */
  lemma {:induction false} DeleteRead(raw: Raw)
    ensures ParseDelete(raw).Some? <==>
            raw.typ.Some? && Lower(Trim(raw.typ.value)) == "delete" && Given(raw.id) && Given(raw.deletedAt)
    ensures ParseDelete(raw).Some? ==> ParseDelete(raw).value == Trim(raw.id.value)
  {
    hide Trim, Given, Trimmed, Lower;
    Fallbacks();
    EmptyBlank();
    TextIs(raw.id, "");
    TextIs(raw.deletedAt, "");
  }

  /** What a line does: a delete marker deletes, another line that is an entry writes it, and the rest does nothing. */
  lemma {:induction false} LineDoes(line: Line)
    ensures EventOf(line).Del? <==>
            line.Object? && var r := line.raw;
            r.typ.Some? && Lower(Trim(r.typ.value)) == "delete" && Given(r.id) && Given(r.deletedAt)
    ensures EventOf(line).Del? ==> EventOf(line).id == Trim(line.raw.id.value)
    ensures EventOf(line).Put? <==>
            line.Object? && !EventOf(line).Del? && var r := line.raw;
            Given(r.id) && Given(r.title) && Given(r.content) && Given(r.createdAt)
    ensures EventOf(line).Put? ==> ReadAs(line.raw, EventOf(line).entry)
  {
    hide ParseEntry, ParseDelete, Given, ReadAs, Trim, Lower;
    if line.Object? {
      EntryRead(line.raw);
      DeleteRead(line.raw);
    }
  }
}
