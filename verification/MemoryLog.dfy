/** The memory store's log. */
module MemoryLog {
  import opened Text
  import opened MemoryEntry

  /*
    Lines are only appended: entries and delete markers.  Replaying them forwards gives the live entries; the
    code reads them backwards.
  */

  /** A line of the file: blank, not a JSON object, or a JSON object. */
  datatype Line = BlankLine | Junk | Object(raw: Raw)

  type Log = seq<Line>

  datatype Event = Nothing | Del(id: string) | Put(entry: Entry)

  function EventOf(line: Line): (ev: Event)
  {
    if !line.Object? then Nothing
    else
      var d := ParseDelete(line.raw);
      if d.Some? then Del(d.value)
      else
        var e := ParseEntry(line.raw);
        if e.Some? then Put(e.value) else Nothing
  }

  // ----- meaning: forward replay -----

  function Drop(live: seq<Entry>, ids: set<string>): (r: seq<Entry>)
    ensures |r| <= |live|
  {
    if live == [] then []
    else if live[0].id in ids then Drop(live[1..], ids)
    else [live[0]] + Drop(live[1..], ids)
  }

  function Apply(live: seq<Entry>, ev: Event): seq<Entry>
  {
    match ev
    case Nothing => live
    case Del(id) => Drop(live, {id})
    case Put(e) => Drop(live, {e.id}) + [e]
  }

  /** The live entries, in order of last write. */
  function Replay(log: Log): seq<Entry>
  {
    if log == [] then [] else Apply(Replay(log[..|log| - 1]), EventOf(log[|log| - 1]))
  }

  ghost predicate UniqueIds(live: seq<Entry>)
  {
    forall j, k :: 0 <= j < k < |live| ==> live[j].id != live[k].id
  }

  function Find(live: seq<Entry>, id: string): Option<Entry>
  {
    if live == [] then None else if live[0].id == id then Some(live[0]) else Find(live[1..], id)
  }

  // ----- Drop -----

  lemma {:induction false} DropMembers(live: seq<Entry>, ids: set<string>)
    ensures forall e :: e in Drop(live, ids) <==> e in live && e.id !in ids
  {
    if live != [] {
      DropMembers(live[1..], ids);
      assert forall e :: e in live <==> e == live[0] || e in live[1..];
    }
  }

  lemma {:induction false} DropConcat(x: seq<Entry>, y: seq<Entry>, ids: set<string>)
    ensures Drop(x + y, ids) == Drop(x, ids) + Drop(y, ids)
  {
    if x != [] {
      assert (x + y)[1..] == x[1..] + y;
      DropConcat(x[1..], y, ids);
    } else {
      assert x + y == y;
    }
  }

  lemma {:induction false} DropDrop(x: seq<Entry>, a: set<string>, b: set<string>)
    ensures Drop(Drop(x, a), b) == Drop(x, a + b)
  {
    if x != [] { DropDrop(x[1..], a, b); }
  }

  lemma {:induction false} DropAbsent(x: seq<Entry>, ids: set<string>)
    requires forall e :: e in x ==> e.id !in ids
    ensures Drop(x, ids) == x
  {
    if x != [] { DropAbsent(x[1..], ids); }
  }

  lemma {:induction false} DropUnique(x: seq<Entry>, ids: set<string>)
    requires UniqueIds(x)
    ensures UniqueIds(Drop(x, ids))
  {
    hide Drop;
    var r := Drop(x, ids);
    forall j, k | 0 <= j < k < |r| ensures r[j].id != r[k].id {
      var i, m := DropPair(x, ids, j, k);
    }
  }

  lemma {:induction false} ApplyMembers(live: seq<Entry>, ev: Event)
    ensures forall e :: e in Apply(live, ev) <==>
              match ev
              case Nothing => e in live
              case Del(id) => e in live && e.id != id
              case Put(p) => e == p || (e in live && e.id != p.id)
  {
    match ev {
      case Nothing =>
      case Del(id) => DropMembers(live, {id});
      case Put(p) => DropMembers(live, {p.id});
    }
  }

  lemma {:induction false} ApplyUnique(live: seq<Entry>, ev: Event)
    requires UniqueIds(live)
    ensures UniqueIds(Apply(live, ev))
  {
    match ev {
      case Nothing =>
      case Del(id) => DropUnique(live, {id});
      case Put(e) =>
        DropUnique(live, {e.id});
        DropMembers(live, {e.id});
        var r := Drop(live, {e.id});
        assert forall k :: 0 <= k < |r| ==> r[k] in r;
    }
  }

  /** No two live entries share an id. */
  lemma {:induction false} ReplayUnique(log: Log)
    ensures UniqueIds(Replay(log))
    decreases |log|
  {
    if log != [] {
      ReplayUnique(log[..|log| - 1]);
      ApplyUnique(Replay(log[..|log| - 1]), EventOf(log[|log| - 1]));
    }
  }

  // ----- what it means to be live -----

  predicate Touches(line: Line, id: string)
  {
    match EventOf(line)
    case Nothing => false
    case Del(d) => d == id
    case Put(e) => e.id == id
  }

  ghost predicate LastWrite(log: Log, k: int, e: Entry)
  {
    0 <= k < |log| && EventOf(log[k]) == Put(e) && forall j :: k < j < |log| ==> !Touches(log[j], e.id)
  }

  /** An entry is live exactly when some line wrote it and no later line writes or deletes its id. */
  lemma {:induction false} LiveIff(log: Log, e: Entry)
    ensures e in Replay(log) <==> exists k :: LastWrite(log, k, e)
    decreases |log|
  {
    hide EventOf, Replay;
    ReplayEmpty();
    if log != [] {
      var n := |log| - 1;
      var init, last := log[..n], log[n];
      assert log == init + [last];
      ReplaySnoc(init, last);
      ApplyMembers(Replay(init), EventOf(last));
      LiveIff(init, e);
      if e in Replay(log) {
        if EventOf(last) == Put(e) {
          assert LastWrite(log, n, e);
        } else {
          var k :| LastWrite(init, k, e);
          assert LastWrite(log, k, e);
        }
      }
      if exists k :: LastWrite(log, k, e) {
        var k :| LastWrite(log, k, e);
        if k < n {
          assert forall j :: 0 <= j < n ==> init[j] == log[j];
          assert LastWrite(init, k, e);
        }
      }
    }
  }

  ghost predicate Before(live: seq<Entry>, x: Entry, y: Entry)
  {
    exists j, k :: 0 <= j < k < |live| && live[j] == x && live[k] == y
  }

  lemma {:induction false} DropAt(live: seq<Entry>, ids: set<string>, k: nat) returns (m: nat)
    requires k < |Drop(live, ids)|
    ensures m < |live| && live[m] == Drop(live, ids)[k]
  {
    if live[0].id in ids {
      m := DropAt(live[1..], ids, k);
      m := m + 1;
    } else if k == 0 {
      m := 0;
    } else {
      m := DropAt(live[1..], ids, k - 1);
      m := m + 1;
    }
  }

  lemma {:induction false} DropPair(live: seq<Entry>, ids: set<string>, j: nat, k: nat) returns (i: nat, m: nat)
    requires j < k < |Drop(live, ids)|
    ensures i < m < |live| && live[i] == Drop(live, ids)[j] && live[m] == Drop(live, ids)[k]
  {
    if live[0].id in ids {
      i, m := DropPair(live[1..], ids, j, k);
      i, m := i + 1, m + 1;
    } else if j == 0 {
      m := DropAt(live[1..], ids, k - 1);
      i, m := 0, m + 1;
    } else {
      i, m := DropPair(live[1..], ids, j - 1, k - 1);
      i, m := i + 1, m + 1;
    }
  }

  lemma {:induction false} DropBefore(live: seq<Entry>, ids: set<string>, x: Entry, y: Entry)
    requires Before(Drop(live, ids), x, y)
    ensures Before(live, x, y)
  {
    hide Drop;
    var r := Drop(live, ids);
    var j, k :| 0 <= j < k < |r| && r[j] == x && r[k] == y;
    var i, m := DropPair(live, ids, j, k);
  }

  /** The live entries stand in the order of their last writes. */
  lemma {:induction false} LiveOrder(log: Log, x: Entry, y: Entry, a: int, b: int)
    requires Before(Replay(log), x, y) && LastWrite(log, a, x) && LastWrite(log, b, y)
    ensures a < b
    decreases |log|
  {
    hide EventOf, Replay, Drop;
    var n := |log| - 1;
    var init, last := log[..n], log[n];
    assert log == init + [last];
    ReplaySnoc(init, last);
    ReplayUnique(log);
    var live := Replay(log);
    assert EventOf(last).Put? ==> live[|live| - 1] == EventOf(last).entry;
    if a < n && b < n {
      assert Before(Replay(init), x, y) by { BeforeInit(Replay(init), EventOf(last), x, y); }
      assert LastWrite(init, a, x) && LastWrite(init, b, y);
      LiveOrder(init, x, y, a, b);
    }
  }

  lemma {:induction false} BeforeInit(live: seq<Entry>, ev: Event, x: Entry, y: Entry)
    requires Before(Apply(live, ev), x, y) && !(ev.Put? && (ev.entry.id == x.id || ev.entry.id == y.id))
    ensures Before(live, x, y)
  {
    hide Drop;
    match ev {
      case Nothing =>
      case Del(id) => DropBefore(live, {id}, x, y);
      case Put(e) =>
        var r := Drop(live, {e.id});
        var j, k :| 0 <= j < k < |r + [e]| && (r + [e])[j] == x && (r + [e])[k] == y;
        assert r[j] == x && r[k] == y;
        DropBefore(live, {e.id}, x, y);
    }
  }

  // ----- the backward scan -----

  function Reverse(s: seq<Entry>): (r: seq<Entry>)
    ensures |r| == |s|
  {
    if s == [] then [] else Reverse(s[1..]) + [s[0]]
  }

  lemma {:induction false} ReverseSnoc(s: seq<Entry>, e: Entry)
    ensures Reverse(s + [e]) == [e] + Reverse(s)
  {
    if s != [] {
      assert (s + [e])[1..] == s[1..] + [e];
      ReverseSnoc(s[1..], e);
    } else {
      assert s + [e] == [e] && [e][1..] == [];
    }
  }

  /** One step back through the log: what the prefix still contributes, given the ids already settled. */
  lemma {:induction false} StepBack(log: Log, i: nat, settled: set<string>)
    requires i < |log|
    ensures var init := Replay(log[..i]);
            Drop(Replay(log[..i + 1]), settled) ==
            match EventOf(log[i])
            case Nothing => Drop(init, settled)
            case Del(id) => Drop(init, settled + {id})
            case Put(e) => if e.id in settled then Drop(init, settled) else Drop(init, settled + {e.id}) + [e]
  {
    hide EventOf;
    var now, init, ev := log[..i + 1], Replay(log[..i]), EventOf(log[i]);
    assert now[..i] == log[..i] && now[i] == log[i];
    assert Replay(now) == Apply(init, ev);
    match ev {
      case Nothing =>
      case Del(id) =>
        DropDrop(init, {id}, settled);
        assert {id} + settled == settled + {id};
      case Put(e) =>
        DropConcat(Drop(init, {e.id}), [e], settled);
        DropDrop(init, {e.id}, settled);
        assert {e.id} + settled == settled + {e.id};
        assert [e][1..] == [];
        if e.id in settled { assert settled + {e.id} == settled; }
    }
  }

  /**
    The scan that loads the store: from the last line back, skipping ids deleted or seen later,
    stopping once enough entries are found (None: no bound).
  */
  method LoadStoreEntries(log: Log, maxEntries: Option<nat>) returns (entries: seq<Entry>)
    requires maxEntries.Some? ==> maxEntries.value >= 1
    ensures entries == if maxEntries.None? then Replay(log) else LastN(Replay(log), maxEntries.value)
  {
    hide EventOf, Replay, Drop, Reverse;
    var out: seq<Entry> := [];
    var seen, deleted: set<string> := {}, {};
    ghost var settled: set<string> := {};
    ghost var all := Replay(log);
    var idx := |log|;
    assert log[..|log|] == log;
    DropAbsent(all, {});
    while idx > 0
      invariant 0 <= idx <= |log| && settled == deleted + seen
      invariant all == Drop(Replay(log[..idx]), settled) + Reverse(out)
      invariant maxEntries.Some? ==> |out| < maxEntries.value
    {
      idx := idx - 1;
      StepBack(log, idx, settled);
      var ev := EventOf(log[idx]);
      match ev {
        case Nothing =>
        case Del(id) =>
          settled, deleted := settled + {id}, deleted + {id};
        case Put(e) =>
          if e.id !in deleted && e.id !in seen {
            settled, seen := settled + {e.id}, seen + {e.id};
            FoundEarlier(all, Drop(Replay(log[..idx]), settled), e, out);
            out := out + [e];
            if maxEntries.Some? && |out| >= maxEntries.value {
              return Reverse(out);
            }
          }
      }
    }
    ReplayEmpty();
    assert log[..0] == [];
    entries := Reverse(out);
  }

  lemma {:induction false} FoundEarlier(all: seq<Entry>, rest: seq<Entry>, e: Entry, out: seq<Entry>)
    requires all == rest + [e] + Reverse(out)
    ensures all == rest + Reverse(out + [e])
    ensures LastN(all, |out| + 1) == Reverse(out + [e])
  {
    hide Reverse;
    ReverseSnoc(out, e);
    assert rest + [e] + Reverse(out) == rest + ([e] + Reverse(out));
  }

  lemma {:induction false} ReplayEmpty()
    ensures Replay([]) == [] && forall ids :: Drop([], ids) == []
  {
  }

  lemma {:induction false} FindApply(live: seq<Entry>, ev: Event, id: string)
    requires UniqueIds(live)
    ensures Find(Apply(live, ev), id) ==
            match ev
            case Nothing => Find(live, id)
            case Del(d) => if d == id then None else Find(live, id)
            case Put(e) => if e.id == id then Some(e) else Find(live, id)
  {
    match ev {
      case Nothing =>
      case Del(d) => FindDrop(live, {d}, id);
      case Put(e) =>
        FindDrop(live, {e.id}, id);
        FindSnoc(Drop(live, {e.id}), e, id);
    }
  }

  lemma {:induction false} FindDrop(live: seq<Entry>, ids: set<string>, id: string)
    ensures Find(Drop(live, ids), id) == if id in ids then None else Find(live, id)
  {
    if live != [] { FindDrop(live[1..], ids, id); }
  }

  lemma {:induction false} FindSnoc(live: seq<Entry>, e: Entry, id: string)
    ensures Find(live + [e], id) == if Find(live, id).Some? then Find(live, id) else if e.id == id then Some(e)
        else None
  {
    if live != [] {
      assert (live + [e])[1..] == live[1..] + [e];
      FindSnoc(live[1..], e, id);
    } else {
      assert live + [e] == [e] && [e][1..] == [];
    }
  }

  datatype Scope = Scope(namespace: string, minTier: TrustTier)

  predicate InScope(e: Entry, scope: Scope)
  {
    e.namespace == scope.namespace && Rank(e.trustTier) >= Rank(scope.minTier)
  }

  function FindScoped(live: seq<Entry>, id: string, scope: Option<Scope>): Option<Entry>
  {
    var e := Find(live, id);
    if e.Some? && (scope.None? || InScope(e.value, scope.value)) then e else None
  }

  /** Looking one id up from the end agrees with loading the whole store. */
  method FindStoreEntryById(log: Log, id: string, scope: Option<Scope>) returns (r: Option<Entry>)
    ensures r == FindScoped(Replay(log), id, scope)
  {
    hide EventOf, Replay;
    var idx := |log|;
    assert log[..|log|] == log;
    while idx > 0
      invariant 0 <= idx <= |log|
      invariant Find(Replay(log), id) == Find(Replay(log[..idx]), id)
    {
      idx := idx - 1;
      ReplaySnoc(log[..idx], log[idx]);
      assert log[..idx] + [log[idx]] == log[..idx + 1];
      ReplayUnique(log[..idx]);
      var ev := EventOf(log[idx]);
      FindApply(Replay(log[..idx]), ev, id);
      if ev.Del? && ev.id == id { return None; }
      if ev.Put? && ev.entry.id == id {
        if scope.Some? && !InScope(ev.entry, scope.value) { return None; }
        return Some(ev.entry);
      }
    }
    ReplayEmpty();
    assert log[..0] == [];
    return None;
  }

  // ----- appending -----

  lemma {:induction false} ReplaySnoc(log: Log, line: Line)
    ensures Replay(log + [line]) == Apply(Replay(log), EventOf(line))
  {
    assert (log + [line])[..|log|] == log;
  }

  /** Replaying further lines depends on the log only through its live entries. */
  lemma {:induction false} ReplayAfter(log: Log, log': Log, later: Log)
    requires Replay(log) == Replay(log')
    ensures Replay(log + later) == Replay(log' + later)
    decreases |later|
  {
    hide EventOf;
    if later == [] {
      assert log + later == log && log' + later == log';
    } else {
      var init, last := later[..|later| - 1], later[|later| - 1];
      ReplayAfter(log, log', init);
      assert log + later == (log + init) + [last] && log' + later == (log' + init) + [last];
      ReplaySnoc(log + init, last);
      ReplaySnoc(log' + init, last);
    }
  }

  function EntryLine(e: Entry): Line
  {
    Object(ToRaw(e))
  }

  function DeleteLine(id: string, at: string): Line
  {
    Object(DeleteRaw(id, at))
  }

  lemma {:induction false} EntryLineEvent(e: Entry)
    requires WellFormed(e)
    ensures EventOf(EntryLine(e)) == Put(e)
  {
    hide ParseEntry, ParseDelete, WellFormed, ToRaw;
    WellFormedRoundTrip(e);
  }

  lemma {:induction false} DeleteLineEvent(id: string, at: string)
    requires Filled(id) && Filled(at)
    ensures EventOf(DeleteLine(id, at)) == Del(id)
  {
    hide ParseEntry, ParseDelete, DeleteRaw, Filled;
    DeleteRoundTrip(id, at);
  }

  lemma {:induction false} LiveWellFormed(log: Log)
    ensures forall e :: e in Replay(log) ==> WellFormed(e)
    decreases |log|
  {
    hide WellFormed, ParseEntry, ParseDelete;
    if log != [] {
      LiveWellFormed(log[..|log| - 1]);
      var last := log[|log| - 1];
      ApplyMembers(Replay(log[..|log| - 1]), EventOf(last));
      if EventOf(last).Put? { ParsedIsWellFormed(last.raw); }
    }
  }

  // ----- compaction -----

  function Lines(live: seq<Entry>): (r: Log)
    ensures |r| == |live|
  {
    if live == [] then [] else Lines(live[..|live| - 1]) + [EntryLine(live[|live| - 1])]
  }

  function Compacted(log: Log): Log
  {
    Lines(Replay(log))
  }

  lemma {:induction false} LinesReplay(live: seq<Entry>)
    requires UniqueIds(live) && forall e :: e in live ==> WellFormed(e)
    ensures Replay(Lines(live)) == live
    decreases |live|
  {
    hide WellFormed, EntryLine, EventOf, Replay, Drop;
    ReplayEmpty();
    if live != [] {
      var n := |live| - 1;
      var init, e := live[..n], live[n];
      LinesReplay(init);
      EntryLineEvent(e);
      ReplaySnoc(Lines(init), EntryLine(e));
      LastIsNew(live, init, e);
      assert init + [e] == live;
    }
  }

  lemma {:induction false} LastIsNew(live: seq<Entry>, init: seq<Entry>, e: Entry)
    requires UniqueIds(live) && live != [] && init == live[..|live| - 1] && e == live[|live| - 1]
    ensures Drop(init, {e.id}) == init
  {
    forall x | x in init ensures x.id !in {e.id} {
      var k :| 0 <= k < |init| && init[k] == x;
      assert live[k] == x;
    }
    DropAbsent(init, {e.id});
  }

  function NonBlank(log: Log): nat
  {
    if log == [] then 0 else NonBlank(log[..|log| - 1]) + (if log[|log| - 1].BlankLine? then 0 else 1)
  }

  lemma {:induction false} LiveAtMostLines(log: Log)
    ensures |Replay(log)| <= NonBlank(log)
    decreases |log|
  {
    if log != [] { LiveAtMostLines(log[..|log| - 1]); }
  }

  /**
    Compaction preserves meaning: the live entries and every lookup are the same, any later lines have
    the same effect, compacting again changes nothing, and no line is gained.
  */
  lemma {:induction false} CompactionPreserves(log: Log, later: Log)
    ensures Replay(Compacted(log)) == Replay(log)
    ensures Replay(Compacted(log) + later) == Replay(log + later)
    ensures forall id, scope ::
              FindScoped(Replay(Compacted(log) + later), id, scope) == FindScoped(Replay(log + later), id, scope)
    ensures Compacted(Compacted(log)) == Compacted(log)
    ensures |Compacted(log)| <= NonBlank(log)
  {
    hide Replay, EventOf, WellFormed;
    ReplayUnique(log);
    LiveWellFormed(log);
    LinesReplay(Replay(log));
    ReplayAfter(Compacted(log), log, later);
    LiveAtMostLines(log);
  }

  /** The compaction step itself; a dry run only reports. */
  method Compact(log: Log, dryRun: bool) returns (log': Log, linesBefore: nat, linesAfter: nat)
    ensures log' == if dryRun then log else Compacted(log)
    ensures linesBefore == NonBlank(log) && linesAfter == |Compacted(log)|
  {
    hide EventOf, Replay;
    linesBefore := 0;
    assert log[..0] == [];
    for i := 0 to |log|
      invariant linesBefore == NonBlank(log[..i])
    {
      assert log[..i + 1][..i] == log[..i];
      if !log[i].BlankLine? { linesBefore := linesBefore + 1; }
    }
    assert log[..|log|] == log;
    var active := LoadStoreEntries(log, None);
    linesAfter := |active|;
    log' := if dryRun then log else Lines(active);
  }
}
