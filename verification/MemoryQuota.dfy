/** Namespace quotas: which entries are evicted after a save, and what is left. */
module MemoryQuota {
  import opened Text
  import opened MemoryEntry
  import opened MemoryLog

  datatype Policy = StaleLowSignal | LowSignalFirst | Oldest

  datatype Quota = Quota(maxEntries: nat, maxBytes: nat, policy: Policy)

  /** The current time, and how timestamps read as milliseconds (0 if unreadable). */
  datatype Clock = Clock(now: int, millis: string -> int)

  /** Bytes an entry takes in the file. */
  type Sizer = Entry -> nat

  // ----- choosing a victim -----

  function UpdatedMillis(e: Entry, clock: Clock): int
  {
    clock.millis(OrText(e.updatedAt, e.createdAt))
  }

  function DaysSince(t: int, clock: Clock): int
  {
    if clock.now < t then 0 else (clock.now - t) / 86_400_000
  }

  function Score(e: Entry, policy: Policy, clock: Clock): real
  {
    match policy
    case Oldest => 0.0
    case LowSignalFirst =>
      e.importance as real * 20.0 + e.confidence * 30.0 + e.reinforceCount as real * 5.0 +
      Rank(e.trustTier) as real * 6.0
    case StaleLowSignal =>
      var updated := UpdatedMillis(e, clock);
      var accessed := clock.millis(OrText(e.lastAccessedAt, OrText(e.updatedAt, e.createdAt)));
      var ageDays := if updated > 0 then DaysSince(updated, clock) else 0;
      var accessAgeDays := if accessed > 0 then DaysSince(accessed, clock) else ageDays;
      e.importance as real * 24.0 + e.confidence * 40.0 + e.reinforceCount as real * 4.0 +
      Rank(e.trustTier) as real * 10.0
      - ageDays as real * 0.4 - accessAgeDays as real * 0.6
  }

  predicate GoesBefore(a: Entry, b: Entry, policy: Policy, clock: Clock)
  {
    var sa, sb := Score(a, policy, clock), Score(b, policy, clock);
    sa < sb || (sa == sb && UpdatedMillis(a, clock) < UpdatedMillis(b, clock))
  }

  /** The head of a stable sort by score and age: the first entry none goes before. */
  function PickVictim(entries: seq<Entry>, policy: Policy, clock: Clock): (v: Option<Entry>)
    ensures v.None? <==> entries == []
    ensures v.Some? ==> v.value in entries
  {
    if entries == [] then None
    else
      var rest := PickVictim(entries[1..], policy, clock);
      if rest.Some? && GoesBefore(rest.value, entries[0], policy, clock) then rest else Some(entries[0])
  }

  lemma {:induction false} GoesBeforeOrder(a: Entry, b: Entry, c: Entry, policy: Policy, clock: Clock)
    requires !GoesBefore(a, b, policy, clock) && !GoesBefore(b, c, policy, clock)
    ensures !GoesBefore(a, c, policy, clock)
  {
    hide Score, UpdatedMillis;
  }

  /** The victim is a least entry of the policy's order. */
  lemma {:induction false} PickVictimLeast(entries: seq<Entry>, policy: Policy, clock: Clock)
    ensures var v := PickVictim(entries, policy, clock);
            v.Some? ==> forall e :: e in entries ==> !GoesBefore(e, v.value, policy, clock)
    decreases |entries|
  {
    hide GoesBefore;
    if entries != [] {
      var rest := entries[1..];
      PickVictimLeast(rest, policy, clock);
      var v := PickVictim(entries, policy, clock).value;
      forall e | e in entries ensures !GoesBefore(e, v, policy, clock) {
        NotBeforeItself(e, v, policy, clock);
        if rest != [] && e in rest && v == entries[0] {
          var w := PickVictim(rest, policy, clock).value;
          if GoesBefore(w, v, policy, clock) {} else { GoesBeforeOrder(e, w, v, policy, clock); }
        }
      }
    }
  }

  lemma {:induction false} NotBeforeItself(a: Entry, b: Entry, policy: Policy, clock: Clock)
    ensures !GoesBefore(a, a, policy, clock)
    ensures GoesBefore(a, b, policy, clock) ==> !GoesBefore(b, a, policy, clock)
  {
    hide Score, UpdatedMillis;
  }

  // ----- the eviction loop -----

  function Scoped(live: seq<Entry>, ns: string): seq<Entry>
  {
    if live == [] then []
    else if live[0].namespace == ns then [live[0]] + Scoped(live[1..], ns)
    else Scoped(live[1..], ns)
  }

  function TotalSize(live: seq<Entry>, size: Sizer): nat
  {
    if live == [] then 0 else size(live[0]) + TotalSize(live[1..], size)
  }

  /** Removing the first entry with an id. */
  function RemoveId(live: seq<Entry>, id: string): (r: seq<Entry>)
    ensures |r| <= |live|
  {
    if live == [] then []
    else if live[0].id == id then live[1..]
    else [live[0]] + RemoveId(live[1..], id)
  }

  predicate OverQuota(active: seq<Entry>, quota: Quota, size: Sizer)
  {
    |active| > quota.maxEntries || TotalSize(active, size) > quota.maxBytes
  }

  lemma {:induction false} RemoveIdFacts(live: seq<Entry>, e: Entry, size: Sizer)
    requires UniqueIds(live) && e in live
    ensures RemoveId(live, e.id) == Drop(live, {e.id}) && |RemoveId(live, e.id)| == |live| - 1
    ensures TotalSize(RemoveId(live, e.id), size) == TotalSize(live, size) - size(e)
  {
    var rest := live[1..];
    if live[0].id == e.id {
      forall x | x in rest ensures x.id !in {e.id} {
        var k :| 0 <= k < |rest| && rest[k] == x;
        assert live[k + 1] == x;
      }
      DropAbsent(rest, {e.id});
      var k :| 0 <= k < |live| && live[k] == e;
    } else {
      assert UniqueIds(rest);
      RemoveIdFacts(rest, e, size);
    }
  }

  /** The evicted entries, in the order they go. */
  function Evicted(active: seq<Entry>, quota: Quota, keep: set<string>, size: Sizer, clock: Clock): seq<Entry>
    requires UniqueIds(active)
    decreases |active|
  {
    if !OverQuota(active, quota, size) then []
    else
      var victim := PickVictim(Drop(active, keep), quota.policy, clock);
      if victim.None? then []
      else
        DropMembers(active, keep);
        RemoveIdFacts(active, victim.value, size);
        DropUnique(active, {victim.value.id});
        [victim.value] + Evicted(RemoveId(active, victim.value.id), quota, keep, size, clock)
  }

  function IdsOf(es: seq<Entry>): set<string>
  {
    set e | e in es :: e.id
  }

  function DeleteLines(es: seq<Entry>, at: string): (r: Log)
    ensures |r| == |es|
  {
    if es == [] then [] else DeleteLines(es[..|es| - 1], at) + [DeleteLine(es[|es| - 1].id, at)]
  }

  method EnforceNamespaceQuota(log: Log, ns: string, quota: Quota, keep: set<string>, size: Sizer, clock: Clock,
      at: string)
    returns (evicted: seq<Entry>, log': Log)
    requires UniqueIds(Scoped(Replay(log), ns))
    ensures evicted == Evicted(Scoped(Replay(log), ns), quota, keep, size, clock)
    ensures log' == log + DeleteLines(evicted, at)
  {
    hide Replay, GoesBefore, Drop, UniqueIds;
    var entries := LoadStoreEntries(log, None);
    var active := Scoped(entries, ns);
    ghost var scoped := active;
    var totalBytes := TotalSize(active, size);
    evicted := [];
    while |active| > quota.maxEntries || totalBytes > quota.maxBytes
      invariant totalBytes == TotalSize(active, size) && UniqueIds(active)
      invariant Evicted(scoped, quota, keep, size, clock) == evicted + Evicted(active, quota, keep, size, clock)
      decreases |active|
    {
      var candidates := Drop(active, keep);
      var victim := PickVictim(candidates, quota.policy, clock);
      if victim.None? { break; }
      DropMembers(active, keep);
      RemoveIdFacts(active, victim.value, size);
      DropUnique(active, {victim.value.id});
      active := RemoveId(active, victim.value.id);
      totalBytes := totalBytes - size(victim.value);
      evicted := evicted + [victim.value];
    }
    log' := log + DeleteLines(evicted, at);
  }

  // ----- what eviction does -----

  lemma {:induction false} EvictedFacts(active: seq<Entry>, quota: Quota, keep: set<string>, size: Sizer, clock: Clock)
    requires UniqueIds(active)
    ensures var ev := Evicted(active, quota, keep, size, clock);
            var left := Drop(active, IdsOf(ev));
            && (forall e :: e in ev ==> e in active && e.id !in keep)
            && |left| + |ev| == |active| && TotalSize(left, size) + TotalSize(ev, size) == TotalSize(active, size)
            && (OverQuota(left, quota, size) ==> forall e :: e in left ==> e.id in keep)
    decreases |active|
  {
    hide GoesBefore;
    var ev := Evicted(active, quota, keep, size, clock);
    var pick := PickVictim(Drop(active, keep), quota.policy, clock);
    DropMembers(active, keep);
    if !OverQuota(active, quota, size) || pick.None? {
      assert IdsOf(ev) == {};
      DropAbsent(active, {});
    } else {
      var v := pick.value;
      RemoveIdFacts(active, v, size);
      DropUnique(active, {v.id});
      var active' := RemoveId(active, v.id);
      var ev' := Evicted(active', quota, keep, size, clock);
      assert ev == [v] + ev' && ev[1..] == ev';
      EvictedFacts(active', quota, keep, size, clock);
      assert IdsOf(ev) == {v.id} + IdsOf(ev');
      DropDrop(active, {v.id}, IdsOf(ev'));
      DropMembers(active, {v.id});
    }
  }

  lemma {:induction false} ScopedMembers(live: seq<Entry>, ns: string)
    ensures forall e :: e in Scoped(live, ns) <==> e in live && e.namespace == ns
  {
    if live != [] {
      ScopedMembers(live[1..], ns);
      assert forall e :: e in live <==> e == live[0] || e in live[1..];
    }
  }

  lemma {:induction false} ScopedUnique(live: seq<Entry>, ns: string)
    requires UniqueIds(live)
    ensures UniqueIds(Scoped(live, ns))
  {
    if live != [] {
      var rest := live[1..];
      ScopedUnique(rest, ns);
      ScopedMembers(rest, ns);
      var r := Scoped(rest, ns);
      forall k | 0 <= k < |r| ensures r[k].id != live[0].id {
        assert r[k] in r;
        var j :| 0 <= j < |rest| && rest[j] == r[k];
        assert live[j + 1] == r[k];
      }
    }
  }

  lemma {:induction false} ScopedDrop(live: seq<Entry>, ns: string, ids: set<string>)
    ensures Scoped(Drop(live, ids), ns) == Drop(Scoped(live, ns), ids)
  {
    if live != [] { ScopedDrop(live[1..], ns, ids); }
  }

  lemma {:induction false} ReplayDeletes(log: Log, es: seq<Entry>, at: string)
    requires Filled(at) && forall e :: e in es ==> Filled(e.id)
    ensures Replay(log + DeleteLines(es, at)) == Drop(Replay(log), IdsOf(es))
    decreases |es|
  {
    hide EventOf, Filled, Replay, DeleteLine;
    if es == [] {
      assert log + DeleteLines(es, at) == log;
      assert IdsOf(es) == {};
      DropAbsent(Replay(log), {});
    } else {
      var n := |es| - 1;
      var init, e := es[..n], es[n];
      assert e in es && es == init + [e];
      ReplayDeletes(log, init, at);
      DeleteLineEvent(e.id, at);
      assert log + DeleteLines(es, at) == (log + DeleteLines(init, at)) + [DeleteLine(e.id, at)];
      ReplaySnoc(log + DeleteLines(init, at), DeleteLine(e.id, at));
      DropDrop(Replay(log), IdsOf(init), {e.id});
      assert IdsOf(es) == IdsOf(init) + {e.id};
    }
  }

  function Enforced(log: Log, ns: string, quota: Quota, keep: set<string>, size: Sizer, clock: Clock, at: string): Log
  {
    ReplayUnique(log);
    ScopedUnique(Replay(log), ns);
    log + DeleteLines(Evicted(Scoped(Replay(log), ns), quota, keep, size, clock), at)
  }

  /**
    Quota enforcement touches only its namespace, never a protected id, accounts for every byte, and
    stops within quota or with nothing but protected entries left.
  */
  lemma {:induction false} EnforcedFacts(log: Log, ns: string, quota: Quota, keep: set<string>, size: Sizer,
      clock: Clock, at: string)
    requires Filled(at)
    ensures UniqueIds(Scoped(Replay(log), ns))
    ensures var ev := Evicted(Scoped(Replay(log), ns), quota, keep, size, clock);
            var live, live' := Replay(log), Replay(Enforced(log, ns, quota, keep, size, clock, at));
            var left := Scoped(live', ns);
            && live' == Drop(live, IdsOf(ev))
            && (forall e :: e in live ==> e in live' || e in ev)
            && (forall e :: e in ev ==> e in live && e.namespace == ns && e.id !in keep)
            && |left| + |ev| == |Scoped(live, ns)|
            && TotalSize(left, size) + TotalSize(ev, size) == TotalSize(Scoped(live, ns), size)
            && (OverQuota(left, quota, size) ==> forall e :: e in left ==> e.id in keep)
    ensures forall other :: other != ns ==>
              Scoped(Replay(Enforced(log, ns, quota, keep, size, clock, at)), other) == Scoped(Replay(log), other)
  {
    hide Replay, Evicted, GoesBefore, Drop, Scoped, OverQuota, UniqueIds, Filled;
    var live := Replay(log);
    ReplayUnique(log);
    ScopedUnique(live, ns);
    var scoped := Scoped(live, ns);
    var ev := Evicted(scoped, quota, keep, size, clock);
    EvictedFacts(scoped, quota, keep, size, clock);
    ScopedMembers(live, ns);
    LiveFilled(log);
    ReplayDeletes(log, ev, at);
    ScopedDrop(live, ns, IdsOf(ev));
    DropMembers(live, IdsOf(ev));
    forall other | other != ns ensures Scoped(Drop(live, IdsOf(ev)), other) == Scoped(live, other) {
      ScopedDrop(live, other, IdsOf(ev));
      ScopedMembers(live, other);
      EvictedElsewhere(live, ev, ns, other);
      DropAbsent(Scoped(live, other), IdsOf(ev));
    }
  }

  lemma {:induction false} LiveFilled(log: Log)
    ensures forall e :: e in Replay(log) ==> Filled(e.id)
  {
    LiveWellFormed(log);
  }

  lemma {:induction false} EvictedElsewhere(live: seq<Entry>, ev: seq<Entry>, ns: string, other: string)
    requires UniqueIds(live) && other != ns && forall e :: e in ev ==> e in live && e.namespace == ns
    ensures forall e :: e in Scoped(live, other) ==> e.id !in IdsOf(ev)
  {
    ScopedMembers(live, other);
  }

  /** After a save: within the entry limit always, within the byte limit unless only the saved entry is left. */
  lemma {:induction false} QuotaAfterSave(log: Log, saved: Entry, quota: Quota, size: Sizer, clock: Clock, at: string)
    requires Filled(at) && quota.maxEntries >= 1 && saved in Replay(log)
    ensures var left := Scoped(Replay(Enforced(log, saved.namespace, quota, {saved.id}, size, clock, at)),
        saved.namespace);
            && saved in left
            && |left| <= quota.maxEntries
            && (TotalSize(left, size) <= quota.maxBytes || left == [saved])
  {
    hide Replay, Evicted, GoesBefore, Drop, Scoped, Filled, Enforced;
    var ns, keep := saved.namespace, {saved.id};
    EnforcedFacts(log, ns, quota, keep, size, clock, at);
    var live := Replay(Enforced(log, ns, quota, keep, size, clock, at));
    var left := Scoped(live, ns);
    ScopedMembers(live, ns);
    ReplayUnique(Enforced(log, ns, quota, keep, size, clock, at));
    ScopedUnique(live, ns);
    if OverQuota(left, quota, size) { OnlyOne(left, saved); }
  }

  lemma {:induction false} OnlyOne(left: seq<Entry>, saved: Entry)
    requires UniqueIds(left) && saved in left && forall e :: e in left ==> e.id in {saved.id}
    ensures left == [saved]
  {
    RemoveIdFacts(left, saved, (e: Entry) => 0);
    DropAll(left, {saved.id});
    assert |left| == 1;
  }

  lemma {:induction false} DropAll(live: seq<Entry>, ids: set<string>)
    requires forall e :: e in live ==> e.id in ids
    ensures Drop(live, ids) == []
  {
    if live != [] {
      assert live[0] in live;
      DropAll(live[1..], ids);
    }
  }
}
