/** Pruning by count and age: which entries a retention policy removes. */
module MemoryRetention {
  import opened Text
  import opened MemoryEntry
  import opened MemoryLog
  import opened MemoryQuota

  function Stamp(e: Entry, clock: Clock): int
  {
    clock.millis(e.updatedAt)
  }

  function Matching(live: seq<Entry>, scope: Scope): seq<Entry>
  {
    if live == [] then []
    else if InScope(live[0], scope) then [live[0]] + Matching(live[1..], scope)
    else Matching(live[1..], scope)
  }

  function Insert(e: Entry, sorted: seq<Entry>, clock: Clock): seq<Entry>
  {
    if sorted == [] || Stamp(e, clock) >= Stamp(sorted[0], clock) then [e] + sorted
    else [sorted[0]] + Insert(e, sorted[1..], clock)
  }

  /** The stable sort by last update, newest first. */
  function NewestFirst(entries: seq<Entry>, clock: Clock): seq<Entry>
  {
    if entries == [] then [] else Insert(entries[0], NewestFirst(entries[1..], clock), clock)
  }

  datatype Criteria = Criteria(maxEntries: Option<nat>, olderThanDays: Option<nat>)

  /** The tool's arguments, clamped; None when neither criterion is a number. */
  function CriteriaOf(maxEntries: Option<real>, olderThanDays: Option<real>): Option<Criteria>
  {
    if maxEntries.None? && olderThanDays.None? then None
    else
      Some(Criteria(if maxEntries.None? then None else Some(ClampInt(maxEntries, 1, 10_000, 1_000)),
                    if olderThanDays.None? then None else Some(ClampInt(olderThanDays, 1, 3_650, 365))))
  }

  predicate OverCount(i: nat, c: Criteria)
  {
    c.maxEntries.Some? && i >= c.maxEntries.value
  }

  predicate Aged(e: Entry, c: Criteria, clock: Clock)
  {
    c.olderThanDays.Some? && 0 < UpdatedMillis(e, clock) <= clock.now - c.olderThanDays.value * 86_400_000
  }

  function Candidates(sorted: seq<Entry>, from: nat, c: Criteria, clock: Clock): seq<Entry>
    decreases |sorted|
  {
    if sorted == [] then []
    else
      (if OverCount(from, c) || Aged(sorted[0], c, clock) then [sorted[0]] else []) + Candidates(sorted[1..],
          from + 1, c, clock)
  }

  function Pruned(live: seq<Entry>, scope: Scope, c: Criteria, clock: Clock): seq<Entry>
  {
    Candidates(NewestFirst(Matching(live, scope), clock), 0, c, clock)
  }

  // ----- what pruning keeps -----

  ghost predicate Sorted(s: seq<Entry>, clock: Clock)
  {
    forall j, k :: 0 <= j < k < |s| ==> Stamp(s[j], clock) >= Stamp(s[k], clock)
  }

  lemma {:induction false} InsertFacts(e: Entry, s: seq<Entry>, clock: Clock)
    requires Sorted(s, clock)
    ensures Sorted(Insert(e, s, clock), clock)
    ensures forall x :: x in Insert(e, s, clock) <==> x == e || x in s
    decreases |s|
  {
    if s != [] && Stamp(e, clock) < Stamp(s[0], clock) {
      var rest := Insert(e, s[1..], clock);
      InsertFacts(e, s[1..], clock);
      assert forall x :: x in s <==> x == s[0] || x in s[1..];
      forall k | 0 <= k < |rest| ensures Stamp(s[0], clock) >= Stamp(rest[k], clock) { assert rest[k] in rest; }
    }
  }

  lemma {:induction false} NewestFirstFacts(entries: seq<Entry>, clock: Clock)
    ensures Sorted(NewestFirst(entries, clock), clock)
    ensures forall x :: x in NewestFirst(entries, clock) <==> x in entries
    decreases |entries|
  {
    if entries != [] {
      NewestFirstFacts(entries[1..], clock);
      InsertFacts(entries[0], NewestFirst(entries[1..], clock), clock);
    }
  }

  lemma {:induction false} MatchingMembers(live: seq<Entry>, scope: Scope)
    ensures forall e :: e in Matching(live, scope) <==> e in live && InScope(e, scope)
  {
    if live != [] {
      MatchingMembers(live[1..], scope);
      assert forall e :: e in live <==> e == live[0] || e in live[1..];
    }
  }

  lemma {:induction false} MatchingUnique(live: seq<Entry>, scope: Scope)
    requires UniqueIds(live)
    ensures UniqueIds(Matching(live, scope))
  {
    if live != [] {
      var rest := live[1..];
      MatchingUnique(rest, scope);
      MatchingMembers(rest, scope);
      var r := Matching(rest, scope);
      forall k | 0 <= k < |r| ensures r[k].id != live[0].id {
        assert r[k] in r;
        var j :| 0 <= j < |rest| && rest[j] == r[k];
        assert live[j + 1] == r[k];
      }
    }
  }

  ghost predicate CandidateAt(sorted: seq<Entry>, k: nat, from: nat, c: Criteria, clock: Clock)
  {
    k < |sorted| && (OverCount(from + k, c) || Aged(sorted[k], c, clock))
  }

  lemma {:induction false} CandidatesIff(sorted: seq<Entry>, from: nat, c: Criteria, clock: Clock, e: Entry)
    ensures e in Candidates(sorted, from, c, clock) <==>
            exists k: nat :: CandidateAt(sorted, k, from, c, clock) && sorted[k] == e
    decreases |sorted|
  {
    hide OverCount, Aged;
    if sorted != [] {
      var rest := sorted[1..];
      CandidatesIff(rest, from + 1, c, clock, e);
      if k: nat :| CandidateAt(rest, k, from + 1, c, clock) && rest[k] == e {
        assert CandidateAt(sorted, k + 1, from, c, clock) && sorted[k + 1] == e;
      }
      if k: nat :| CandidateAt(sorted, k, from, c, clock) && sorted[k] == e {
        if k > 0 { assert CandidateAt(rest, k - 1, from + 1, c, clock) && rest[k - 1] == e; }
      }
      if OverCount(from, c) || Aged(sorted[0], c, clock) { assert CandidateAt(sorted, 0, from, c, clock); }
    }
  }

  lemma {:induction false} IdsCount(x: seq<Entry>)
    ensures |IdsOf(x)| <= |x| && (UniqueIds(x) ==> |IdsOf(x)| == |x|)
    decreases |x|
  {
    hide UniqueIds, IdsOf;
    IdsCons(x);
    if x != [] { IdsCount(x[1..]); }
  }

  lemma {:induction false} IdsCons(x: seq<Entry>)
    ensures IdsOf([]) == {}
    ensures x != [] ==> IdsOf(x) == IdsOf(x[1..]) + {x[0].id}
    ensures x != [] && UniqueIds(x) ==> UniqueIds(x[1..]) && x[0].id !in IdsOf(x[1..])
  {
    if x != [] {
      assert forall e :: e in x <==> e == x[0] || e in x[1..];
      forall k | 0 <= k < |x[1..]| && UniqueIds(x) ensures x[1..][k].id != x[0].id { assert x[1..][k] == x[k + 1]; }
    }
  }

  lemma {:induction false} FewerIds(x: seq<Entry>, y: seq<Entry>)
    requires UniqueIds(x) && forall e :: e in x ==> e in y
    ensures |x| <= |y|
  {
    IdsCount(x);
    IdsCount(y);
    SubsetSize(IdsOf(x), IdsOf(y));
  }

  /** A kept entry stands among the first of the sorted list and is not aged. */
  lemma {:induction false} KeptAt(sorted: seq<Entry>, c: Criteria, clock: Clock, e: Entry) returns (k: nat)
    requires e in sorted && e !in Candidates(sorted, 0, c, clock)
    ensures k < |sorted| && sorted[k] == e && !OverCount(k, c) && !Aged(e, c, clock)
  {
    hide OverCount, Aged;
    k :| 0 <= k < |sorted| && sorted[k] == e;
    CandidatesIff(sorted, 0, c, clock, e);
    assert !CandidateAt(sorted, k, 0, c, clock);
  }

  /**
    After a prune its scope holds at most the given number of entries and none that is too old; nothing
    outside the scope goes; and what went for being too many is no newer than anything kept.
  */
  lemma {:induction false} PruneFacts(live: seq<Entry>, scope: Scope, c: Criteria, clock: Clock)
    requires UniqueIds(live)
    ensures var gone := Pruned(live, scope, c, clock);
            var left := Drop(live, IdsOf(gone));
            var kept := Matching(left, scope);
            && (forall e :: e in gone ==> e in live && InScope(e, scope))
            && (forall e :: e in live && !InScope(e, scope) ==> e in left)
            && (c.maxEntries.Some? ==> |kept| <= c.maxEntries.value)
            && (forall e :: e in kept ==> !Aged(e, c, clock))
            && (forall g, e :: g in gone && e in kept && !Aged(g, c, clock) ==> Stamp(e, clock) >= Stamp(g, clock))
  {
    hide Aged, InScope, Candidates, NewestFirst, Matching, Drop, Stamp;
    var scoped := Matching(live, scope);
    var sorted := NewestFirst(scoped, clock);
    var gone := Candidates(sorted, 0, c, clock);
    var left := Drop(live, IdsOf(gone));
    var kept := Matching(left, scope);
    MatchingMembers(live, scope);
    MatchingMembers(left, scope);
    NewestFirstFacts(scoped, clock);
    DropMembers(live, IdsOf(gone));
    forall e | e in gone ensures e in sorted { CandidatesIff(sorted, 0, c, clock, e); }
    KeptFacts(live, sorted, gone, kept, c, clock);
    forall e | e in live && !InScope(e, scope) ensures e in left { OutsideStays(live, gone, scope, e); }
    DropUnique(live, IdsOf(gone));
    MatchingUnique(left, scope);
    if c.maxEntries.Some? {
      var n := if c.maxEntries.value <= |sorted| then c.maxEntries.value else |sorted|;
      FewerIds(kept, sorted[..n]);
    }
  }

  lemma {:induction false} KeptFacts(live: seq<Entry>, sorted: seq<Entry>, gone: seq<Entry>, kept: seq<Entry>,
      c: Criteria, clock: Clock)
    requires gone == Candidates(sorted, 0, c, clock) && Sorted(sorted, clock)
    requires forall e :: e in kept ==> e in sorted && e !in gone
    ensures forall e :: e in kept ==> !Aged(e, c, clock)
    ensures c.maxEntries.Some? ==>
              forall e :: e in kept ==> e in if c.maxEntries.value <= |sorted| then sorted[..c.maxEntries.value]
                  else sorted
    ensures forall g, e :: g in gone && e in kept && !Aged(g, c, clock) ==> Stamp(e, clock) >= Stamp(g, clock)
  {
    hide Aged, Candidates, Stamp;
    forall e | e in kept
      ensures !Aged(e, c, clock)
      ensures c.maxEntries.Some? ==> e in if c.maxEntries.value <= |sorted| then sorted[..c.maxEntries.value]
          else sorted
    {
      var k := KeptAt(sorted, c, clock, e);
      if c.maxEntries.Some? && c.maxEntries.value <= |sorted| { assert sorted[..c.maxEntries.value][k] == e; }
    }
    forall g, e | g in gone && e in kept && !Aged(g, c, clock) ensures Stamp(e, clock) >= Stamp(g, clock) {
      var k := KeptAt(sorted, c, clock, e);
      CandidatesIff(sorted, 0, c, clock, g);
      var j: nat :| CandidateAt(sorted, j, 0, c, clock) && sorted[j] == g;
    }
  }

  lemma {:induction false} OutsideStays(live: seq<Entry>, gone: seq<Entry>, scope: Scope, e: Entry)
    requires UniqueIds(live) && e in live && !InScope(e, scope)
    requires forall g :: g in gone ==> g in live && InScope(g, scope)
    ensures e in Drop(live, IdsOf(gone))
  {
    hide InScope, Drop;
    DropMembers(live, IdsOf(gone));
    forall g | g in gone ensures g.id != e.id {
      var j :| 0 <= j < |live| && live[j] == g;
      var k :| 0 <= k < |live| && live[k] == e;
    }
  }
}
