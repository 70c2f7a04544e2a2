/** The memory tools as steps on the log, and what every run of them keeps. */
module MemoryOps {
  import opened Text
  import opened MemoryEntry
  import opened MemoryLog
  import opened MemoryQuota
  import opened MemoryRetention

  // ----- title keys and merging -----

  predicate KeyChar(c: char)
  {
    'a' <= c <= 'z' || '0' <= c <= '9'
  }

  /** Lower case, every run of other characters one space (a leading run is `spaced`). */
  function Squeeze(s: string, spaced: bool): string
  {
    if s == "" then ""
    else if KeyChar(LowerChar(s[0])) then [LowerChar(s[0])] + Squeeze(s[1..], false)
    else if spaced then Squeeze(s[1..], true)
    else " " + Squeeze(s[1..], true)
  }

  function TitleKey(title: string): string
  {
    Trim(Squeeze(title, false))
  }

  function MergeContent(existing: string, incoming: string, today: string): string
  {
    var o, n := Trim(existing), Trim(incoming);
    if o == "" then n
    else if n == "" || o == n then o
    else if IndexOf(n, o, 0) >= 0 then n
    else if IndexOf(o, n, 0) >= 0 then o
    else o + ("\n\nUpdate (" + today + "): ") + n
  }

  lemma {:induction false} MergeFilled(existing: string, incoming: string, today: string)
    requires Filled(existing) && Filled(incoming)
    ensures Filled(MergeContent(existing, incoming, today))
  {
    hide Trim, IndexOf;
    TrimSound(existing);
    TrimSound(incoming);
    var s := existing + ("\n\nUpdate (" + today + "): ") + incoming;
    assert s[0] == existing[0] && s[|s| - 1] == incoming[|incoming| - 1];
  }

  // ----- parameters of the tools -----

  /** What a step takes from outside: clock, draft id, and the judgements of the text classifiers. */
  datatype Ctx = Ctx(
    now: string, today: string, freshId: string, secret: bool, similarity: Entry -> real, conflicts: set<string>,
    quota: Quota, size: Sizer, clock: Clock, defaultNs: string)

  ghost predicate GoodCtx(x: Ctx)
  {
    Filled(x.now) && Filled(x.freshId) && x.quota.maxEntries >= 1 && Slug(x.defaultNs, 1, 64)
  }

  datatype SaveArgs = SaveArgs(
    title: string, content: string, tags: seq<string>, importance: Option<real>, confidence: Option<real>,
    source: Option<string>, namespace: Option<string>, trustTier: Option<string>, onConflict: Option<string>)

  // ----- save -----

  /** The first entry of the best similarity, if that reaches 0.72. */
  function MostSimilar(entries: seq<Entry>, similarity: Entry -> real, best: Option<Entry>): (r: Option<Entry>)
    requires best.Some? ==> similarity(best.value) >= 0.72
    ensures r.Some? ==> r.value in entries || r == best
    decreases |entries|
  {
    if entries == [] then best
    else
      var e := entries[0];
      var better := similarity(e) >= 0.72 && (best.None? || similarity(e) > similarity(best.value));
      MostSimilar(entries[1..], similarity, if better then Some(e) else best)
  }

  function ByTitle(entries: seq<Entry>, key: string): (r: Option<Entry>)
    ensures r.Some? ==> r.value in entries && TitleKey(r.value.title) == key
    ensures r.None? ==> forall e :: e in entries ==> TitleKey(e.title) != key
  {
    if entries == [] then None
    else if TitleKey(entries[0].title) == key then Some(entries[0])
    else ByTitle(entries[1..], key)
  }

  /** The entry a save updates: the same title, else similar enough; none for an empty title key. */
  function PickForUpsert(entries: seq<Entry>, title: string, similarity: Entry -> real): (r: Option<Entry>)
    ensures r.Some? ==> r.value in entries
  {
    var key := TitleKey(title);
    if key == "" then None
    else
      var byTitle := ByTitle(entries, key);
      if byTitle.Some? then byTitle else MostSimilar(entries, similarity, None)
  }

  function AdmittedTier(args: SaveArgs, source: string): TrustTier
  {
    var t := Tier(args.trustTier, if source == "user" then Verified else Observed);
    if source != "system" && t == System then Verified else t
  }

  /** A new entry as a save builds it. */
  function NewEntry(args: SaveArgs, ns: string, x: Ctx): Entry
  {
    var source := Label(args.source, "user", 2, 32);
    Entry(x.freshId, Trim(args.title), Trim(args.content), NormalTags(args.tags, []), x.now, x.now, x.now, 0,
          ClampInt(args.importance, 1, 5, 3), ClampReal(Or(args.confidence, 0.8), 0.05, 1.0), source, ns,
          AdmittedTier(args, source))
  }

  /** An existing entry updated by a save. */
  function UpdatedEntry(prior: Entry, draft: Entry, today: string): Entry
  {
    Entry(prior.id, draft.title, MergeContent(prior.content, draft.content, today),
        NormalTags(prior.tags + draft.tags, []),
          prior.createdAt, draft.updatedAt, prior.lastAccessedAt, prior.reinforceCount,
          if prior.importance >= draft.importance then prior.importance else draft.importance,
          ClampReal((prior.confidence + draft.confidence) / 2.0 + 0.05, 0.05, 1.0),
          if draft.source == "user" then prior.source else draft.source, prior.namespace,
          if Rank(prior.trustTier) >= Rank(draft.trustTier) then prior.trustTier else draft.trustTier)
  }

  /** The conflict strategy asked for; upsert when none is named. */
  function Strategy(args: SaveArgs): string
  {
    OrText(NormalText(Or(args.onConflict, "upsert")), "upsert")
  }

  predicate SaveRefused(args: SaveArgs, x: Ctx)
  {
    Trim(args.title) == "" || Trim(args.content) == "" || Strategy(args) !in {"upsert", "replace"} || x.secret
  }

  function SaveNs(args: SaveArgs, x: Ctx): string
  {
    Label(args.namespace, x.defaultNs, 1, 64)
  }

  /** Ids a replace-mode save deletes first: the conflicting live entries of the namespace. */
  function Conflicting(live: seq<Entry>, ns: string, conflicts: set<string>): seq<Entry>
  {
    var scoped := Scoped(live, ns);
    Drop(scoped, IdsOf(scoped) - conflicts)
  }

  predicate Replaces(live: seq<Entry>, args: SaveArgs, x: Ctx)
  {
    Strategy(args) == "replace" && Conflicting(live, SaveNs(args, x), x.conflicts) != []
  }

  function SavedEntry(live: seq<Entry>, args: SaveArgs, x: Ctx): Entry
  {
    var ns := SaveNs(args, x);
    var draft := NewEntry(args, ns, x);
    var existing := PickForUpsert(Scoped(live, ns), draft.title, x.similarity);
    if existing.Some? && !Replaces(live, args, x) then UpdatedEntry(existing.value, draft, x.today) else draft
  }

  /** The log once the entry is appended, before the quota is enforced. */
  function Appended(log: Log, args: SaveArgs, x: Ctx): Log
  {
    var live := Replay(log);
    var dels := if Replaces(live, args, x) then DeleteLines(Conflicting(live, SaveNs(args, x), x.conflicts), x.now)
        else [];
    log + dels + [EntryLine(SavedEntry(live, args, x))]
  }

  function Save(log: Log, args: SaveArgs, x: Ctx): Log
  {
    if SaveRefused(args, x) then log
    else
      var e := SavedEntry(Replay(log), args, x);
      Enforced(Appended(log, args, x), e.namespace, x.quota, {e.id}, x.size, x.clock, x.now)
  }

  // ----- recall, feedback, delete, prune -----

  function Reinforced(e: Entry, now: string): Entry
  {
    e.(updatedAt := now, lastAccessedAt := now,
       reinforceCount := if e.reinforceCount + 1 > 10_000 then 10_000 else e.reinforceCount + 1,
       confidence := ClampReal(e.confidence + 0.02, 0.05, 1.0))
  }

  function Bounded(v: int, min: int, max: int): int
  {
    if v < min then min else if v > max then max else v
  }

  function Judged(e: Entry, useful: bool, weight: nat, now: string): Entry
  {
    var touched := e.(updatedAt := now, lastAccessedAt := now);
    if useful then
      touched.(reinforceCount := if e.reinforceCount + weight > 10_000 then 10_000 else e.reinforceCount + weight,
               importance := Bounded(e.importance + weight, 1, 5),
               confidence := ClampReal(e.confidence + 0.07 * weight as real, 0.05, 1.0))
    else
      touched.(reinforceCount := if e.reinforceCount < weight then 0 else e.reinforceCount - weight,
               importance := Bounded(e.importance - weight, 1, 5),
               confidence := ClampReal(e.confidence - 0.08 * weight as real, 0.05, 1.0))
  }

  /** What a delete names: an id, else a title. */
  datatype Target = AtId(id: string) | AtTitle(title: string)

  const STORE_REF := "store:"

  function StripRef(ref: string): string
  {
    if STORE_REF <= ref then Trim(ref[|STORE_REF|..]) else ""
  }

  /** The target of a delete call; None when it names a file or nothing. */
  function TargetOf(ref: string, id: string, title: string): Option<Target>
  {
    var ref, id, title := Trim(ref), Trim(id), Trim(title);
    var targetId := if STORE_REF <= id then StripRef(id) else if id != "" then id else StripRef(ref);
    if "file:" <= ref then None
    else if targetId != "" then Some(AtId(targetId))
    else if title != "" then Some(AtTitle(title))
    else None
  }

  predicate Titled(e: Entry, key: string, scope: Scope)
  {
    TitleKey(e.title) == key && InScope(e, scope)
  }

  /** The last updated entry of a title in scope; the first of several updated at once. */
  function LatestTitled(live: seq<Entry>, key: string, scope: Scope, clock: Clock): (r: Option<Entry>)
    ensures r.Some? ==> r.value in live && Titled(r.value, key, scope)
    ensures forall e :: e in live && Titled(e, key, scope) ==> r.Some? && Stamp(r.value, clock) >= Stamp(e, clock)
  {
    if live == [] then None
    else
      var rest := LatestTitled(live[1..], key, scope, clock);
      if Titled(live[0], key, scope) &&
          (rest.None? || Stamp(live[0], clock) >= Stamp(rest.value, clock)) then Some(live[0])
      else rest
  }

  function FindTarget(live: seq<Entry>, target: Target, scope: Scope, clock: Clock): Option<Entry>
  {
    match target
    case AtId(id) => FindScoped(live, id, Some(scope))
    case AtTitle(title) => if TitleKey(title) == "" then None else LatestTitled(live, TitleKey(title), scope, clock)
  }

  datatype Op =
    | SaveOp(args: SaveArgs)
    | RecallOp(id: string, scope: Scope, reinforce: bool)
    | FeedbackOp(id: string, scope: Scope, useful: bool, weight: nat)
    | DeleteOp(target: Target, scope: Scope)
    | PruneOp(scope: Scope, criteria: Criteria)
    | CompactOp

  function Step(log: Log, op: Op, x: Ctx): Log
  {
    var live := Replay(log);
    match op
    case SaveOp(args) => Save(log, args, x)
    case RecallOp(id, scope, reinforce) =>
      var e := FindScoped(live, id, Some(scope));
      if e.None? || !reinforce then log else log + [EntryLine(Reinforced(e.value, x.now))]
    case FeedbackOp(id, scope, useful, weight) =>
      var e := FindScoped(live, id, Some(scope));
      if e.None? then log else log + [EntryLine(Judged(e.value, useful, weight, x.now))]
    case DeleteOp(target, scope) =>
      var e := FindTarget(live, target, scope, x.clock);
      if e.None? then log else log + [DeleteLine(e.value.id, x.now)]
    case PruneOp(scope, criteria) => log + DeleteLines(Pruned(live, scope, criteria, x.clock), x.now)
    case CompactOp => Compacted(log)
  }

  // ----- at most one live entry per title -----

  predicate SameTitle(a: Entry, b: Entry)
  {
    a.namespace == b.namespace && TitleKey(a.title) == TitleKey(b.title) && TitleKey(a.title) != ""
  }

  ghost predicate UniqueTitles(live: seq<Entry>)
  {
    forall j, k :: 0 <= j < k < |live| ==> !SameTitle(live[j], live[k])
  }

  lemma {:induction false} DropTitles(live: seq<Entry>, ids: set<string>)
    requires UniqueTitles(live)
    ensures UniqueTitles(Drop(live, ids))
  {
    hide Drop, SameTitle;
    var r := Drop(live, ids);
    forall j, k | 0 <= j < k < |r| ensures !SameTitle(r[j], r[k]) {
      var i, m := DropPair(live, ids, j, k);
    }
  }

  /** Appending an entry keeps titles unique exactly when no other live entry has its title. */
  lemma {:induction false} PutTitles(live: seq<Entry>, e: Entry)
    requires UniqueTitles(live)
    ensures UniqueTitles(Apply(live, Put(e))) <==> forall o :: o in live && o.id != e.id ==> !SameTitle(o, e)
  {
    hide Drop, SameTitle;
    var r := Drop(live, {e.id});
    DropTitles(live, {e.id});
    DropMembers(live, {e.id});
    var s := r + [e];
    assert forall k :: 0 <= k < |r| ==> s[k] == r[k] && r[k] in r;
    if UniqueTitles(s) {
      forall o | o in live && o.id != e.id ensures !SameTitle(o, e) {
        assert o in r;
        var k :| 0 <= k < |r| && r[k] == o;
        assert s[k] == o && s[|r|] == e;
      }
    }
  }

  // ----- the entries the tools write survive storage -----

  lemma {:induction false} NewEntryWellFormed(args: SaveArgs, x: Ctx)
    requires GoodCtx(x) && !SaveRefused(args, x)
    ensures WellFormed(NewEntry(args, SaveNs(args, x), x))
  {
    hide Trim, Trimmed, NormalTags, TagList, Label, Slug, Tier;
    TrimSound(args.title);
    TrimSound(args.content);
    Fallbacks();
    NormalTagsSound(args.tags, []);
    LabelSound(args.source, "user", 2, 32);
    LabelSound(args.namespace, x.defaultNs, 1, 64);
  }

  lemma {:induction false} UpdatedWellFormed(prior: Entry, draft: Entry, today: string)
    requires WellFormed(prior) && WellFormed(draft)
    ensures WellFormed(UpdatedEntry(prior, draft, today))
  {
    hide Filled, NormalTags, TagList, Slug, MergeContent;
    MergeFilled(prior.content, draft.content, today);
    Fallbacks();
    NormalTagsSound(prior.tags + draft.tags, []);
  }

  lemma {:induction false} TouchedWellFormed(e: Entry, useful: bool, weight: nat, now: string)
    requires WellFormed(e) && Filled(now)
    ensures WellFormed(Reinforced(e, now)) && WellFormed(Judged(e, useful, weight, now))
    ensures var r := Reinforced(e, now); r.id == e.id && r.namespace == e.namespace && r.title == e.title
    ensures var j := Judged(e, useful, weight, now); j.id == e.id && j.namespace == e.namespace && j.title == e.title
  {
    hide Filled, TagList, Slug;
  }

  lemma {:induction false} FoundIsLive(live: seq<Entry>, id: string, scope: Option<Scope>)
    requires FindScoped(live, id, scope).Some?
    ensures FindScoped(live, id, scope).value in live && FindScoped(live, id, scope).value.id == id
  {
    FindLive(live, id);
  }

  lemma {:induction false} FindLive(live: seq<Entry>, id: string)
    ensures Find(live, id).Some? ==> Find(live, id).value in live && Find(live, id).value.id == id
  {
    if live != [] { FindLive(live[1..], id); }
  }

  // ----- save -----

  lemma {:induction false} SavedEntryFacts(log: Log, args: SaveArgs, x: Ctx)
    requires GoodCtx(x) && !SaveRefused(args, x)
    ensures WellFormed(SavedEntry(Replay(log), args, x))
    ensures SavedEntry(Replay(log), args, x).namespace == SaveNs(args, x)
  {
    hide WellFormed, Replay, NewEntry, PickForUpsert, Replaces, SaveRefused, GoodCtx;
    var live, ns := Replay(log), SaveNs(args, x);
    var draft := NewEntry(args, ns, x);
    NewEntryWellFormed(args, x);
    NewEntryPlace(args, ns, x);
    LiveWellFormed(log);
    ScopedMembers(live, ns);
    var existing := PickForUpsert(Scoped(live, ns), draft.title, x.similarity);
    if existing.Some? { UpdatedWellFormed(existing.value, draft, x.today); }
  }

  lemma {:induction false} NewEntryPlace(args: SaveArgs, ns: string, x: Ctx)
    ensures NewEntry(args, ns, x).namespace == ns && NewEntry(args, ns, x).id == x.freshId
  {
  }

  /** What the append does to the live entries. */
  lemma {:induction false} AppendedReplay(log: Log, args: SaveArgs, x: Ctx)
    requires GoodCtx(x) && !SaveRefused(args, x)
    ensures var live, ns := Replay(log), SaveNs(args, x);
            var gone := if Replaces(live, args, x) then IdsOf(Conflicting(live, ns, x.conflicts)) else {};
            Replay(Appended(log, args, x)) == Apply(Drop(live, gone), Put(SavedEntry(live, args, x)))
  {
    hide WellFormed, Replay, SavedEntry, Replaces, SaveRefused, Conflicting, EventOf, EntryLine, Apply, SaveNs, Filled;
    var live, ns := Replay(log), SaveNs(args, x);
    var e := SavedEntry(live, args, x);
    SavedEntryFacts(log, args, x);
    EntryLineEvent(e);
    if Replaces(live, args, x) {
      var doomed := Conflicting(live, ns, x.conflicts);
      ConflictingLive(log, ns, x.conflicts);
      ReplayDeletes(log, doomed, x.now);
      ReplaySnoc(log + DeleteLines(doomed, x.now), EntryLine(e));
    } else {
      assert log + [] == log;
      ReplaySnoc(log, EntryLine(e));
      DropAbsent(live, {});
    }
  }

  lemma {:induction false} ConflictingLive(log: Log, ns: string, conflicts: set<string>)
    ensures forall e :: e in Conflicting(Replay(log), ns, conflicts) <==>
              e in Replay(log) && e.namespace == ns && e.id in conflicts
    ensures forall e :: e in Conflicting(Replay(log), ns, conflicts) ==> Filled(e.id)
  {
    hide Replay, Filled, Drop, Scoped;
    var scoped := Scoped(Replay(log), ns);
    ScopedMembers(Replay(log), ns);
    DropMembers(scoped, IdsOf(scoped) - conflicts);
    LiveFilled(log);
  }

  /** An upsert meets no other entry of its title. */
  lemma {:induction false} UpsertTitle(log: Log, args: SaveArgs, x: Ctx, o: Entry)
    requires UniqueTitles(Replay(log)) && !Replaces(Replay(log), args, x)
    requires o in Replay(log) && o.id != SavedEntry(Replay(log), args, x).id
    ensures !SameTitle(o, SavedEntry(Replay(log), args, x))
  {
    hide Replay, Replaces, TitleKey, NewEntry, MostSimilar, SaveNs, MergeContent, NormalTags;
    var live, ns := Replay(log), SaveNs(args, x);
    var draft := NewEntry(args, ns, x);
    var scoped := Scoped(live, ns);
    ScopedMembers(live, ns);
    NewEntryPlace(args, ns, x);
    var existing := PickForUpsert(scoped, draft.title, x.similarity);
    if existing.Some? {
      var p := existing.value;
      if TitleKey(p.title) == TitleKey(draft.title) {
        var i :| 0 <= i < |live| && live[i] == p;
        var j :| 0 <= j < |live| && live[j] == o;
        assert !SameTitle(o, p) by { if i < j { assert !SameTitle(live[i], live[j]); } }
      }
    }
  }

  /** Deleting entries commutes with putting another one. */
  lemma {:induction false} DropPut(live: seq<Entry>, e: Entry, ids: set<string>)
    requires e.id !in ids
    ensures Drop(Apply(live, Put(e)), ids) == Apply(Drop(live, ids), Put(e))
  {
    DropConcat(Drop(live, {e.id}), [e], ids);
    DropDrop(live, {e.id}, ids);
    DropDrop(live, ids, {e.id});
    assert {e.id} + ids == ids + {e.id};
    assert [e][1..] == [] && Drop([e], ids) == [e] + Drop([], ids) == [e];
  }

  /** The entries a save evicts. */
  ghost function SaveEvicts(log: Log, args: SaveArgs, x: Ctx): seq<Entry>
    requires UniqueIds(Scoped(Replay(Appended(log, args, x)), SavedEntry(Replay(log), args, x).namespace))
  {
    var e := SavedEntry(Replay(log), args, x);
    Evicted(Scoped(Replay(Appended(log, args, x)), e.namespace), x.quota, {e.id}, x.size, x.clock)
  }

  /** A live entry the save deletes as a conflict. */
  predicate Replaced(live: seq<Entry>, args: SaveArgs, x: Ctx, o: Entry)
  {
    Replaces(live, args, x) && o.id in x.conflicts
  }

  lemma {:induction false} EvictsUnique(log: Log, args: SaveArgs, x: Ctx)
    ensures UniqueIds(Scoped(Replay(Appended(log, args, x)), SavedEntry(Replay(log), args, x).namespace))
  {
    hide Replay, Appended, SavedEntry, Scoped;
    ReplayUnique(Appended(log, args, x));
    ScopedUnique(Replay(Appended(log, args, x)), SavedEntry(Replay(log), args, x).namespace);
  }

  /** What a save leaves live: the old entries but the replaced and the evicted, and the saved one. */
  lemma {:induction false} SaveReplay(log: Log, args: SaveArgs, x: Ctx)
    requires GoodCtx(x) && !SaveRefused(args, x)
    ensures UniqueIds(Scoped(Replay(Appended(log, args, x)), SavedEntry(Replay(log), args, x).namespace))
    ensures var live, e := Replay(log), SavedEntry(Replay(log), args, x);
            var gone := if Replaces(live, args, x) then IdsOf(Conflicting(live, SaveNs(args, x), x.conflicts)) else {};
            var evicted := SaveEvicts(log, args, x);
            e.id !in IdsOf(evicted) &&
            Replay(Save(log, args, x)) == Apply(Drop(Drop(live, gone), IdsOf(evicted)), Put(e))
  {
    hide Replay, Replaces, SavedEntry, Appended, SaveRefused, Evicted, Apply, Drop, Scoped, GoodCtx, Conflicting;
    EvictsUnique(log, args, x);
    var live, e, log1 := Replay(log), SavedEntry(Replay(log), args, x), Appended(log, args, x);
    var gone := if Replaces(live, args, x) then IdsOf(Conflicting(live, SaveNs(args, x), x.conflicts)) else {};
    GoodNow(x);
    AppendedReplay(log, args, x);
    EnforcedFacts(log1, e.namespace, x.quota, {e.id}, x.size, x.clock, x.now);
    DropPut(Drop(live, gone), e, IdsOf(SaveEvicts(log, args, x)));
  }

  lemma {:induction false} GoodNow(x: Ctx)
    requires GoodCtx(x)
    ensures Filled(x.now)
  {
  }

  /**
    A save leaves titles unique if and only if every other live entry of its title is replaced by it or
    evicted after it.
  */
  lemma {:induction false} SaveTitlesIff(log: Log, args: SaveArgs, x: Ctx)
    requires GoodCtx(x) && UniqueTitles(Replay(log)) && !SaveRefused(args, x)
    ensures UniqueIds(Scoped(Replay(Appended(log, args, x)), SavedEntry(Replay(log), args, x).namespace))
    ensures var live, e := Replay(log), SavedEntry(Replay(log), args, x);
            UniqueTitles(Replay(Save(log, args, x))) <==>
            forall o :: o in live && o.id != e.id && SameTitle(o, e) ==>
              Replaced(live, args, x, o) || o.id in IdsOf(SaveEvicts(log, args, x))
  {
    hide Replay, Replaces, SavedEntry, Appended, SaveRefused, SaveEvicts, Apply, Drop, Scoped, GoodCtx,
        Conflicting, Save;
    hide UniqueTitles, TitleKey;
    SaveReplay(log, args, x);
    var live, e, ns := Replay(log), SavedEntry(Replay(log), args, x), SaveNs(args, x);
    var doomed := Conflicting(live, ns, x.conflicts);
    var gone := if Replaces(live, args, x) then IdsOf(doomed) else {};
    var evicted := IdsOf(SaveEvicts(log, args, x));
    DropTitles(live, gone);
    DropTitles(Drop(live, gone), evicted);
    PutTitles(Drop(Drop(live, gone), evicted), e);
    DropMembers(live, gone);
    DropMembers(Drop(live, gone), evicted);
    SavedEntryFacts(log, args, x);
    forall o | o in live && SameTitle(o, e) ensures o.id in gone <==> Replaced(live, args, x, o) {
      GoneIff(log, ns, x.conflicts, o);
    }
  }

  lemma {:induction false} GoneIff(log: Log, ns: string, conflicts: set<string>, o: Entry)
    requires o in Replay(log) && o.namespace == ns
    ensures o.id in IdsOf(Conflicting(Replay(log), ns, conflicts)) <==> o.id in conflicts
  {
    hide Replay, Conflicting;
    ConflictingLive(log, ns, conflicts);
    ReplayUnique(log);
    if o.id in conflicts { assert o in Conflicting(Replay(log), ns, conflicts); }
  }

  /** The save replaces whatever else has its title. */
  predicate Unclashing(live: seq<Entry>, args: SaveArgs, x: Ctx)
  {
    var e := SavedEntry(live, args, x);
    forall o :: o in live && o.id != e.id && SameTitle(o, e) ==> o.id in x.conflicts
  }

  /** A save keeps titles unique when it updates, or when it replaces whatever else has its title. */
  lemma {:induction false} SaveKeepsTitles(log: Log, args: SaveArgs, x: Ctx)
    requires GoodCtx(x) && UniqueTitles(Replay(log))
    requires SaveRefused(args, x) || !Replaces(Replay(log), args, x) || Unclashing(Replay(log), args, x)
    ensures UniqueTitles(Replay(Save(log, args, x)))
  {
    hide Replay, Replaces, SavedEntry, Enforced, Appended, UniqueTitles, SaveRefused, SaveEvicts, SameTitle,
        GoodCtx, Scoped;
    if !SaveRefused(args, x) {
      SaveTitlesIff(log, args, x);
      if !Replaces(Replay(log), args, x) {
        var e := SavedEntry(Replay(log), args, x);
        forall o | o in Replay(log) && o.id != e.id ensures !SameTitle(o, e) { UpsertTitle(log, args, x, o); }
      }
    }
  }

  predicate Word(s: string)
  {
    s != "" && forall k :: 0 <= k < |s| ==> 'a' <= s[k] <= 'z'
  }

  lemma {:induction false} SqueezeWord(s: string, spaced: bool, rest: string)
    requires Word(s)
    ensures Squeeze(s + rest, spaced) == s + Squeeze(rest, false)
    decreases |s|
  {
    assert (s + rest)[0] == s[0] && (s + rest)[1..] == s[1..] + rest && LowerChar(s[0]) == s[0];
    if |s| > 1 {
      SqueezeWord(s[1..], false, rest);
      assert [s[0]] + (s[1..] + Squeeze(rest, false)) == s + Squeeze(rest, false);
    } else {
      assert s[1..] + rest == rest && s == [s[0]];
    }
  }

  /** Titles of one and of two words are their own keys. */
  lemma {:induction false} WordKeys(s: string, t: string)
    requires Word(s) && Word(t)
    ensures TitleKey(s) == s && Trim(s) == s && TitleKey(s + (" " + t)) == s + (" " + t)
    ensures Filled(s) && Filled(s + (" " + t))
  {
    hide Trim, Squeeze;
    var two := s + (" " + t);
    SqueezeWord(s, false, "");
    SqueezeWord(s, false, " " + t);
    SqueezeWord(t, true, "");
    assert s + "" == s && t + "" == t;
    SpaceKey(t);
    assert !Blank(s[0]) && !Blank(s[|s| - 1]) && two[0] == s[0] && two[|two| - 1] == t[|t| - 1] && !Blank(t[|t| - 1]);
    TrimSound(s);
    TrimSound(two);
  }

  lemma {:induction false} SpaceKey(t: string)
    ensures Squeeze(" " + t, false) == " " + Squeeze(t, true) && Squeeze("", false) == ""
  {
    assert (" " + t)[1..] == t;
  }

  const VIM := "prefers vim for daily python coding work"
  const EMACS := "prefers emacs for daily python coding work"

  function Sample(id: string, title: string, content: string): Entry
  {
    Entry(id, title, content, [], "0", "0", "0", 0, 3, 0.8, "user", "global", Observed)
  }

  /** Two notes on the user's editor. */
  function Editors(): seq<Entry>
  {
    [Sample("1", "editor", VIM), Sample("2", "editor pick", EMACS)]
  }

  lemma {:induction false} SampleWellFormed(id: char, title: string, content: string)
    requires '0' <= id <= '9' && Filled(title) && Filled(content)
    ensures WellFormed(Sample([id], title, content))
  {
    hide TagList, Slug;
    assert !Blank(id) && !Blank('0');
    Fallbacks();
  }

  lemma {:induction false} NotesFilled()
    ensures Filled(VIM) && Filled(EMACS) && Trim(VIM) == VIM
  {
    hide Trim;
    assert VIM[0] == 'p' && VIM[|VIM| - 1] == 'k' && EMACS[0] == 'p' && EMACS[|EMACS| - 1] == 'k';
    assert !Blank('p') && !Blank('k');
    TrimSound(VIM);
  }

  lemma {:induction false} EditorsFacts()
    ensures UniqueIds(Editors()) && (forall e :: e in Editors() ==> WellFormed(e))
    ensures TitleKey("editor") == "editor" && Trim("editor") == "editor" && TitleKey("editor pick") == "editor pick"
    ensures Trim(VIM) == VIM
  {
    hide TitleKey, Trim, WellFormed, Filled, Sample;
    WordKeys("editor", "pick");
    assert "editor" + (" " + "pick") == "editor pick";
    NotesFilled();
    SampleWellFormed('1', "editor", VIM);
    SampleWellFormed('2', "editor pick", EMACS);
    SampleIds();
  }

  lemma {:induction false} SampleIds()
    ensures UniqueIds(Editors())
  {
  }

  /** The first note saved again in replace mode; the detector finds the second in conflict with it. */
  function EditorAgain(): SaveArgs
  {
    SaveArgs("editor", VIM, [], None, None, None, None, None, Some("replace"))
  }

  lemma {:induction false} ReplaceAsked()
    ensures Strategy(EditorAgain()) == "replace"
  {
    hide NormalText;
    assert forall c :: 'a' <= c <= 'z' ==> LowerChar(c) == c && !Blank(c);
    NormalTextSound("replace");
  }

  lemma {:induction false} EditorAgainFacts(x: Ctx)
    requires GoodCtx(x) && x.freshId == "3" && x.conflicts == {"2"} && x.defaultNs == "global" && !x.secret
    ensures var live, e := Editors(), SavedEntry(Editors(), EditorAgain(), x);
            && !SaveRefused(EditorAgain(), x) && Replaces(live, EditorAgain(), x) && SaveNs(EditorAgain(), x) ==
                "global"
            && e.id == "3" && e.namespace == "global" && SameTitle(live[0], e)
            && IdsOf(Conflicting(live, "global", x.conflicts)) == {"2"}
  {
    hide TitleKey, Trim, AdmittedTier, NormalTags, GoodCtx, PickForUpsert, Label, Strategy;
    EditorsFacts();
    ReplaceAsked();
    SaveNsDefault(EditorAgain(), x);
    var live := Editors();
    assert live[1..] == [live[1]] && live[1..][1..] == [];
    assert Scoped(live[1..], "global") == [live[1]] + [] && Scoped(live, "global") == live;
    assert IdsOf(live) == {"1", "2"} by { assert live[0] in live && live[1] in live; }
    assert Drop([live[1]], {"1"}) == [live[1]] + Drop([], {"1"}) == [live[1]];
    assert IdsOf(live) - x.conflicts == {"1"};
    assert Conflicting(live, "global", x.conflicts) == [live[1]];
  }

  /**
    A replacing save can leave a title twice: of the two notes the second is deleted as a conflict, and the
    first, which has the saved title, stays beside the new entry.
  */
  lemma {:induction false} ReplaceCanDuplicate(x: Ctx)
    requires GoodCtx(x) && x.freshId == "3" && x.conflicts == {"2"} && x.defaultNs == "global" && !x.secret
    requires !OverQuota([Editors()[0], SavedEntry(Editors(), EditorAgain(), x)], x.quota, x.size)
    ensures var log := Lines(Editors());
            UniqueTitles(Replay(log)) && !UniqueTitles(Replay(Save(log, EditorAgain(), x)))
  {
    hide TitleKey, Replay, SavedEntry, GoodCtx, Replaces, SaveRefused, Editors, EditorAgain, Conflicting, Save,
        WellFormed;
    var live, log, args := Editors(), Lines(Editors()), EditorAgain();
    var e := SavedEntry(live, args, x);
    EditorsFacts();
    LinesReplay(live);
    EditorTitles();
    EditorAgainFacts(x);
    AppendedReplay(log, args, x);
    SaveTitlesIff(log, args, x);
    EditorsLeft(e);
    assert SaveEvicts(log, args, x) == [];
    assert live[0] in live && live[0].id != e.id;
  }

  lemma {:induction false} EditorTitles()
    ensures UniqueTitles(Editors()) && Editors()[0].id == "1"
  {
    hide TitleKey;
    EditorsFacts();
  }

  lemma {:induction false} EditorsLeft(e: Entry)
    requires e.id == "3" && e.namespace == "global"
    ensures var left := Apply(Drop(Editors(), {"2"}), Put(e)); Scoped(left, "global") == [Editors()[0], e]
  {
    var a, b := Editors()[0], Editors()[1];
    assert Editors()[1..] == [b] && [b][1..] == [] && [a][1..] == [];
    assert Drop([b], {"2"}) == Drop([], {"2"}) == [];
    assert Drop(Editors(), {"2"}) == [a] + [] == [a];
    assert Drop([a], {"3"}) == [a] + Drop([], {"3"}) == [a];
    assert [a] + [e] == [a, e] && [a, e][1..] == [e] && [e][1..] == [];
    assert Scoped([e], "global") == [e] + Scoped([], "global") == [e];
    assert Scoped([a, e], "global") == [a] + Scoped([e], "global");
  }

  lemma {:induction false} SaveNsDefault(args: SaveArgs, x: Ctx)
    requires args.namespace == None && x.defaultNs == "global"
    ensures SaveNs(args, x) == "global"
  {
  }

  /** An upsert keeps the entry it updates: same id and namespace, trust and importance not lowered. */
  lemma {:induction false} UpsertNeverLowers(log: Log, args: SaveArgs, x: Ctx, prior: Entry)
    requires GoodCtx(x) && !SaveRefused(args, x) && !Replaces(Replay(log), args, x)
    requires var ns := SaveNs(args, x);
             PickForUpsert(Scoped(Replay(log), ns), NewEntry(args, ns, x).title, x.similarity) == Some(prior)
    ensures var e := SavedEntry(Replay(log), args, x);
            && e in Replay(Save(log, args, x)) && e.id == prior.id && e.namespace == prior.namespace
            && Rank(e.trustTier) >= Rank(prior.trustTier) && e.importance >= prior.importance
  {
    hide Replay, Replaces, SaveRefused, PickForUpsert, NewEntry, Enforced, Appended, Scoped, MergeContent, NormalTags;
    SaveWithinQuota(log, args, x);
  }

  /** After every save the namespace is within its limits, up to the one protected entry. */
  lemma {:induction false} SaveWithinQuota(log: Log, args: SaveArgs, x: Ctx)
    requires GoodCtx(x) && !SaveRefused(args, x)
    ensures var e := SavedEntry(Replay(log), args, x);
            var left := Scoped(Replay(Save(log, args, x)), e.namespace);
            && e in Replay(Save(log, args, x)) && |left| <= x.quota.maxEntries
            && (TotalSize(left, x.size) <= x.quota.maxBytes || left == [e])
  {
    hide Replay, Replaces, SavedEntry, Enforced, Appended, SaveRefused, Drop, Scoped;
    var e, log1 := SavedEntry(Replay(log), args, x), Appended(log, args, x);
    AppendedReplay(log, args, x);
    QuotaAfterSave(log1, e, x.quota, x.size, x.clock, x.now);
    ScopedMembers(Replay(Save(log, args, x)), e.namespace);
  }

  // ----- whole runs -----

  lemma {:induction false} TouchKeepsTitles(log: Log, e: Entry, e': Entry)
    requires UniqueTitles(Replay(log)) && e in Replay(log) && WellFormed(e')
    requires e'.id == e.id && e'.namespace == e.namespace && e'.title == e.title
    ensures UniqueTitles(Replay(log + [EntryLine(e')]))
  {
    hide Replay, WellFormed, EventOf, EntryLine, TitleKey, Apply;
    var live := Replay(log);
    EntryLineEvent(e');
    ReplaySnoc(log, EntryLine(e'));
    PutTitles(live, e');
    var i :| 0 <= i < |live| && live[i] == e;
    forall o | o in live && o.id != e'.id ensures !SameTitle(o, e') {
      var j :| 0 <= j < |live| && live[j] == o;
      assert !SameTitle(live[if i < j then i else j], live[if i < j then j else i]);
    }
  }

  lemma {:induction false} TargetIsLive(live: seq<Entry>, target: Target, scope: Scope, clock: Clock)
    requires FindTarget(live, target, scope, clock).Some?
    ensures var e := FindTarget(live, target, scope, clock).value; e in live && InScope(e, scope)
  {
    hide TitleKey;
    if target.AtId? { FoundIsLive(live, target.id, Some(scope)); }
  }

  /** While titles are unique, a delete by title names the only entry of that title in its scope. */
  lemma {:induction false} TitleNamesOne(live: seq<Entry>, title: string, scope: Scope, clock: Clock, o: Entry)
    requires UniqueTitles(live) && o in live && TitleKey(title) != "" && Titled(o, TitleKey(title), scope)
    ensures FindTarget(live, AtTitle(title), scope, clock) == Some(o)
  {
    hide TitleKey;
    var e := LatestTitled(live, TitleKey(title), scope, clock).value;
    if e != o { TitlesDiffer(live, o, e); }
  }

  lemma {:induction false} TitlesDiffer(live: seq<Entry>, o: Entry, e: Entry)
    requires UniqueTitles(live) && o in live && e in live && o != e
    ensures !SameTitle(o, e)
  {
    hide TitleKey;
    var j :| 0 <= j < |live| && live[j] == o;
    var k :| 0 <= k < |live| && live[k] == e;
    assert !SameTitle(live[if j < k then j else k], live[if j < k then k else j]);
  }

  /** A step that is not a save replacing only some of the entries of its title. */
  predicate Plain(log: Log, op: Op, x: Ctx)
  {
    op.SaveOp? ==>
      SaveRefused(op.args, x) || !Replaces(Replay(log), op.args, x) || Unclashing(Replay(log), op.args, x)
  }

  lemma {:induction false} StepKeepsTitles(log: Log, op: Op, x: Ctx)
    requires GoodCtx(x) && UniqueTitles(Replay(log)) && Plain(log, op, x)
    ensures UniqueTitles(Replay(Step(log, op, x)))
  {
    hide Replay, UniqueTitles, WellFormed, Save, EntryLine, DeleteLine, FindScoped, FindTarget, Judged, Reinforced;
    hide Pruned, Replaces, SaveRefused, Unclashing, Filled, Slug;
    var live := Replay(log);
    LiveWellFormed(log);
    LiveFilled(log);
    match op {
      case SaveOp(args) => SaveKeepsTitles(log, args, x);
      case RecallOp(id, scope, reinforce) =>
        var f := FindScoped(live, id, Some(scope));
        if f.Some? {
          FoundIsLive(live, id, Some(scope));
          TouchedWellFormed(f.value, true, 0, x.now);
          TouchKeepsTitles(log, f.value, Reinforced(f.value, x.now));
        }
      case FeedbackOp(id, scope, useful, weight) =>
        var f := FindScoped(live, id, Some(scope));
        if f.Some? {
          FoundIsLive(live, id, Some(scope));
          TouchedWellFormed(f.value, useful, weight, x.now);
          TouchKeepsTitles(log, f.value, Judged(f.value, useful, weight, x.now));
        }
      case DeleteOp(target, scope) =>
        var f := FindTarget(live, target, scope, x.clock);
        if f.Some? {
          TargetIsLive(live, target, scope, x.clock);
          DeleteLineEvent(f.value.id, x.now);
          ReplaySnoc(log, DeleteLine(f.value.id, x.now));
          DropTitles(live, {f.value.id});
        }
      case PruneOp(scope, criteria) =>
        var doomed := Pruned(live, scope, criteria, x.clock);
        ReplayUnique(log);
        PruneFacts(live, scope, criteria, x.clock);
        ReplayDeletes(log, doomed, x.now);
        DropTitles(live, IdsOf(doomed));
      case CompactOp => CompactionPreserves(log, []);
    }
  }

  function Run(log: Log, steps: seq<(Op, Ctx)>): Log
    decreases |steps|
  {
    if steps == [] then log else Run(Step(log, steps[0].0, steps[0].1), steps[1..])
  }

  /** A run is its steps, one after the other. */
  lemma {:induction false} RunMore(log: Log, steps: seq<(Op, Ctx)>, op: Op, x: Ctx)
    ensures Run(log, []) == log && Run(log, steps + [(op, x)]) == Step(Run(log, steps), op, x)
    decreases |steps|
  {
    hide Step;
    if steps == [] {
      assert [] + [(op, x)] == [(op, x)] && [(op, x)][1..] == [];
    } else {
      assert (steps + [(op, x)])[0] == steps[0] && (steps + [(op, x)])[1..] == steps[1..] + [(op, x)];
      RunMore(Step(log, steps[0].0, steps[0].1), steps[1..], op, x);
    }
  }

  ghost predicate PlainRun(log: Log, steps: seq<(Op, Ctx)>)
    decreases |steps|
  {
    steps == [] ||
    (GoodCtx(steps[0].1) && Plain(log, steps[0].0, steps[0].1) &&
        PlainRun(Step(log, steps[0].0, steps[0].1), steps[1..]))
  }

  /** From the empty log, any such run keeps at most one live entry per namespace and title key. */
  lemma {:induction false} RunKeepsTitles(log: Log, steps: seq<(Op, Ctx)>)
    requires UniqueTitles(Replay(log)) && PlainRun(log, steps)
    ensures UniqueTitles(Replay(Run(log, steps)))
    decreases |steps|
  {
    hide Replay, UniqueTitles, Step, Plain, GoodCtx;
    if steps != [] {
      StepKeepsTitles(log, steps[0].0, steps[0].1);
      RunKeepsTitles(Step(log, steps[0].0, steps[0].1), steps[1..]);
    }
  }

  lemma {:induction false} RunFromEmpty(steps: seq<(Op, Ctx)>)
    requires PlainRun([], steps)
    ensures UniqueTitles(Replay(Run([], steps)))
  {
    hide PlainRun, Run;
    ReplayEmpty();
    RunKeepsTitles([], steps);
  }

  // ----- the store file -----

  class MemoryFile {
    var log: Log

    constructor ()
      ensures log == []
    {
      log := [];
    }

    method SaveEntry(args: SaveArgs, x: Ctx) returns (ok: bool)
      modifies this
      ensures ok == !SaveRefused(args, x)
      ensures log == Step(old(log), SaveOp(args), x)
    {
      hide Replay, SavedEntry, Evicted, Conflicting, SaveRefused;
      if SaveRefused(args, x) { return false; }
      var entries := LoadStoreEntries(log, None);
      var entry := SavedEntry(entries, args, x);
      if Replaces(entries, args, x) {
        log := log + DeleteLines(Conflicting(entries, SaveNs(args, x), x.conflicts), x.now);
      } else {
        assert log + [] == log;
      }
      log := log + [EntryLine(entry)];
      ReplayUnique(log);
      ScopedUnique(Replay(log), entry.namespace);
      var evicted, log' := EnforceNamespaceQuota(log, entry.namespace, x.quota, {entry.id}, x.size, x.clock, x.now);
      log := log';
      return true;
    }

    method Recall(id: string, scope: Scope, reinforce: bool, x: Ctx) returns (found: Option<Entry>)
      modifies this
      ensures found == FindScoped(Replay(old(log)), id, Some(scope))
      ensures log == Step(old(log), RecallOp(id, scope, reinforce), x)
    {
      hide Replay;
      found := FindStoreEntryById(log, id, Some(scope));
      if found.Some? && reinforce {
        log := log + [EntryLine(Reinforced(found.value, x.now))];
      }
    }

    method Feedback(id: string, scope: Scope, useful: bool, weight: nat, x: Ctx) returns (ok: bool)
      modifies this
      ensures ok == FindScoped(Replay(old(log)), id, Some(scope)).Some?
      ensures log == Step(old(log), FeedbackOp(id, scope, useful, weight), x)
    {
      hide Replay;
      var found := FindStoreEntryById(log, id, Some(scope));
      ok := found.Some?;
      if ok { log := log + [EntryLine(Judged(found.value, useful, weight, x.now))]; }
    }

    method Delete(ref: string, id: string, title: string, scope: Scope, x: Ctx) returns (ok: bool)
      modifies this
      ensures var target := TargetOf(ref, id, title);
              && (ok <==> target.Some? && FindTarget(Replay(old(log)), target.value, scope, x.clock).Some?)
              && log == if target.None? then old(log) else Step(old(log), DeleteOp(target.value, scope), x)
    {
      hide Replay, TargetOf;
      var target := TargetOf(ref, id, title);
      if target.None? { return false; }
      var found: Option<Entry>;
      if target.value.AtId? {
        found := FindStoreEntryById(log, target.value.id, Some(scope));
      } else {
        var entries := LoadStoreEntries(log, None);
        found := FindTarget(entries, target.value, scope, x.clock);
      }
      ok := found.Some?;
      if ok { log := log + [DeleteLine(found.value.id, x.now)]; }
    }

    /** A dry run, the default, only reports. */
    method Prune(scope: Scope, maxEntries: Option<real>, olderThanDays: Option<real>, dryRun: bool, x: Ctx)
      returns (ok: bool, wouldPrune: nat)
      modifies this
      ensures var c := CriteriaOf(maxEntries, olderThanDays);
              && (ok <==> c.Some?)
              && (c.Some? ==> wouldPrune == |Pruned(Replay(old(log)), scope, c.value, x.clock)|)
              && log == if c.None? || dryRun then old(log) else Step(old(log), PruneOp(scope, c.value), x)
    {
      hide Replay, Pruned, CriteriaOf;
      var c := CriteriaOf(maxEntries, olderThanDays);
      if c.None? { return false, 0; }
      var entries := LoadStoreEntries(log, None);
      var candidates := Pruned(entries, scope, c.value, x.clock);
      if !dryRun { log := log + DeleteLines(candidates, x.now); }
      return true, |candidates|;
    }

    method CompactFile(dryRun: bool, x: Ctx)
      modifies this
      ensures log == if dryRun then old(log) else Step(old(log), CompactOp, x)
    {
      hide Replay;
      var log', _, _ := Compact(log, dryRun);
      log := log';
    }
  }
}
