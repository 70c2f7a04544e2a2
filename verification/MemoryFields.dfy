/** What the memory tools do to an entry, said on its fields and on the arguments. */
module MemoryFields {
  import opened Text
  import opened MemoryEntry
  import opened MemoryLog
  import opened MemoryQuota
  import opened MemoryRetention
  import opened MemoryOps

  // ----- texts -----

  ghost predicate Holds(whole: string, part: string)
  {
    exists i :: MatchesAt(whole, part, i)
  }

  lemma {:induction false} HoldsIff(whole: string, part: string)
    ensures Holds(whole, part) <==> IndexOf(whole, part, 0) >= 0
  {
    if i :| MatchesAt(whole, part, i) { assert 0 <= i; }
  }

  lemma {:induction false} HoldsItself(a: string, s: string, b: string)
    ensures Holds(a + s + b, s)
  {
    assert (a + s + b)[|a|..|a| + |s|] == s;
    assert MatchesAt(a + s + b, s, |a|);
  }

  lemma {:induction false} HoldEachOther(a: string, b: string)
    requires Holds(a, b) && Holds(b, a)
    ensures a == b
  {
    var i :| MatchesAt(a, b, i);
    var j :| MatchesAt(b, a, j);
    assert a[i..i + |b|] == a;
  }

  /**
    Merging loses nothing: the result holds both texts, is one of them if that one holds the other, and otherwise
    is the old text, a dated note and the new text.
  */
  lemma {:induction false} MergeHoldsBoth(existing: string, incoming: string, today: string)
    ensures var o, n, m := Trim(existing), Trim(incoming), MergeContent(existing, incoming, today);
            && Holds(m, o) && Holds(m, n) && (Holds(n, o) ==> m == n) && (Holds(o, n) ==> m == o)
            && (!Holds(n, o) && !Holds(o, n) ==>
                  |o| + |n| <= |m| && o <= m && m[|m| - |n|..] == n && Holds(m[|o|..|m| - |n|], today))
  {
    hide Trim, IndexOf, Holds;
    var o, n, m := Trim(existing), Trim(incoming), MergeContent(existing, incoming, today);
    HoldsIff(n, o);
    HoldsIff(o, n);
    SelfHolds(o);
    SelfHolds(n);
    if Holds(n, o) && Holds(o, n) { HoldEachOther(o, n); }
    if !Holds(n, o) && !Holds(o, n) { NoteBetween(o, n, today); }
  }

  lemma {:induction false} SelfHolds(s: string)
    ensures Holds(s, s) && Holds(s, "")
  {
    assert s[..|s|] == s && s[0..0] == "";
    assert MatchesAt(s, s, 0) && MatchesAt(s, "", 0);
  }

  lemma {:induction false} NoteBetween(o: string, n: string, today: string)
    ensures var m := o + ("\n\nUpdate (" + today + "): ") + n;
            && Holds(m, o) && Holds(m, n) && |o| + |n| <= |m| && o <= m && m[|m| - |n|..] == n
            && Holds(m[|o|..|m| - |n|], today)
  {
    hide Holds;
    var note := "\n\nUpdate (" + today + "): ";
    var m := o + note + n;
    HoldsItself("", o, note + n);
    HoldsItself(o + note, n, "");
    HoldsItself("\n\nUpdate (", today, "): ");
    assert "" + o + (note + n) == m && o + note + n + "" == m && m[|o|..|m| - |n|] == note;
  }

  /** Trimming cuts blanks off both ends and nothing else; only a blank text becomes empty. */
  lemma {:induction false} TrimCuts(s: string) returns (i: nat, j: nat)
    ensures i <= j <= |s| && Trim(s) == s[i..j] && AllBlank(s[..i]) && AllBlank(s[j..]) && Trimmed(Trim(s))
    ensures Trim(s) == "" <==> AllBlank(s)
  {
    hide Blank, AllBlank, TrimStart, TrimEnd, Trimmed;
    i := StartCuts(s);
    var t := TrimStart(s);
    TrimEndSound(t);
    TrimSound(s);
    j := i + |Trim(s)|;
    assert s[j..] == t[|Trim(s)|..] && s[i..j] == t[..|Trim(s)|];
    if Trim(s) == "" { BlankEnds(s, i); } else { InkStays(s, i); }
  }

  lemma {:induction false} BlankEnds(s: string, i: nat)
    requires i <= |s| && AllBlank(s[..i]) && AllBlank(s[i..])
    ensures AllBlank(s)
  {
    hide Blank;
    forall k | 0 <= k < |s| ensures Blank(s[k]) { assert s[k] == if k < i then s[..i][k] else s[i..][k - i]; }
  }

  lemma {:induction false} InkStays(s: string, i: nat)
    requires i < |s| && TrimStart(s) == s[i..]
    ensures !AllBlank(s)
  {
    hide Blank;
    TrimStartSound(s);
    assert s[i..][0] == s[i];
  }

  lemma {:induction false} StartCuts(s: string) returns (i: nat)
    ensures i <= |s| && TrimStart(s) == s[i..] && AllBlank(s[..i])
    decreases |s|
  {
    hide Blank;
    if s != "" && Blank(s[0]) {
      i := StartCuts(s[1..]);
      assert s[..i + 1] == [s[0]] + s[1..][..i];
      i := i + 1;
    } else {
      i := 0;
    }
  }

  lemma {:induction false} BlankText(s: string)
    ensures Trim(s) == "" <==> AllBlank(s)
  {
    var i, j := TrimCuts(s);
  }

  // ----- numbers, labels, tiers and tags -----

  /** An integer argument: the default if it is none, else the nearest whole number below, kept between the bounds. */
  ghost predicate Clamped(v: Option<real>, lo: int, hi: int, default: int, r: int)
  {
    match v
    case None => r == default
    case Some(x) =>
      && lo <= r <= hi && (x < lo as real ==> r == lo) && (x >= hi as real ==> r == hi)
      && (lo as real <= x < hi as real ==> r as real <= x < r as real + 1.0)
  }

  lemma {:induction false} ClampedIs(v: Option<real>, lo: int, hi: int, default: int)
    requires lo <= hi
    ensures Clamped(v, lo, hi, default, ClampInt(v, lo, hi, default))
  {
  }

  /** Small letters, digits and the four signs of paths and versions. */
  ghost predicate SlugText(s: string, min: nat, max: nat)
  {
    min <= |s| <= max &&
    forall k :: 0 <= k < |s| ==> 97 <= s[k] as int <= 122 || 48 <= s[k] as int <= 57 || s[k] in {'.', '_', '/', '-'}
  }

  /** A label argument: in lower case and trimmed if it is a slug of the right length, else the fallback. */
  ghost predicate Labelled(v: Option<string>, fallback: string, min: nat, max: nat, r: string)
  {
    if v.Some? && SlugText(Lower(Trim(v.value)), min, max) then r == Lower(Trim(v.value)) else r == fallback
  }

  lemma {:induction false} SlugIs(s: string, min: nat, max: nat)
    ensures Slug(s, min, max) <==> SlugText(s, min, max)
  {
  }

  lemma {:induction false} LabelledIs(v: Option<string>, fallback: string, min: nat, max: nat)
    requires min > 0
    ensures Labelled(v, fallback, min, max, Label(v, fallback, min, max))
  {
    hide Slug, SlugText, Trim, Lower;
    var n := NormalText(Or(v, ""));
    SlugIs(n, min, max);
    SlugLength(n, min, max);
    assert Trim("") == "" by { BlankText(""); }
  }

  lemma {:induction false} SlugLength(s: string, min: nat, max: nat)
    requires min > 0
    ensures Slug(s, min, max) ==> s != ""
  {
  }

  /** The tags kept of a list: lower case, trimmed, each once; nothing but blank tags and a 21st is left out. */
  ghost predicate Tagged(tags: seq<string>, r: seq<string>)
  {
    && TagList(r)
    && (forall t :: t in r ==> exists k :: 0 <= k < |tags| && Lower(Trim(tags[k])) == t)
    && (forall k :: 0 <= k < |tags| && !AllBlank(tags[k]) ==> Lower(Trim(tags[k])) in r || |r| == 20)
  }

  lemma {:induction false} TaggedIs(tags: seq<string>)
    ensures Tagged(tags, NormalTags(tags, []))
  {
    hide Trim, Lower, TagList;
    Fallbacks();
    NormalTagsSound(tags, []);
    TagsFrom(tags, []);
    forall k | 0 <= k < |tags| && !AllBlank(tags[k]) ensures NormalText(tags[k]) != "" { BlankText(tags[k]); }
  }

  lemma {:induction false} TagsFrom(tags: seq<string>, acc: seq<string>)
    requires |acc| <= 20
    ensures var r := NormalTags(tags, acc);
            && (forall t :: t in acc ==> t in r) && |r| <= 20
            && (forall t :: t in r ==> t in acc || exists k :: 0 <= k < |tags| && NormalText(tags[k]) == t)
            && (forall k :: 0 <= k < |tags| && NormalText(tags[k]) != "" ==> NormalText(tags[k]) in r || |r| == 20)
    decreases |tags|
  {
    hide NormalText;
    if tags != [] && |acc| < 20 {
      var t, rest := NormalText(tags[0]), tags[1..];
      var acc' := if t == "" || t in acc then acc else acc + [t];
      TagsFrom(rest, acc');
      var r := NormalTags(rest, acc');
      forall k | 0 <= k < |tags| && NormalText(tags[k]) != "" ensures NormalText(tags[k]) in r || |r| == 20 {
        assert k > 0 ==> tags[k] == rest[k - 1];
      }
      forall u | u in r ensures u in acc || exists k :: 0 <= k < |tags| && NormalText(tags[k]) == u {
        if u !in acc && u != t {
          var k :| 0 <= k < |rest| && NormalText(rest[k]) == u;
          assert tags[k + 1] == rest[k];
        }
      }
    }
  }

  /** The tier a text names, in any case and with blanks around it. */
  ghost predicate Names(v: Option<string>, t: TrustTier)
  {
    v.Some? && Lower(Trim(v.value)) ==
      match t
      case Unverified => "unverified"
      case Observed => "observed"
      case Verified => "verified"
      case System => "system"
  }

  ghost predicate NamesNone(v: Option<string>)
  {
    !Names(v, Unverified) && !Names(v, Observed) && !Names(v, Verified) && !Names(v, System)
  }

  lemma {:induction false} TierIs(v: Option<string>, fallback: TrustTier)
    ensures forall t :: Names(v, t) ==> Tier(v, fallback) == t
    ensures NamesNone(v) ==> Tier(v, fallback) == fallback
  {
    hide Trim, Lower;
    assert Trim("") == "" by { BlankText(""); }
    assert Lower("") == "";
    assert "unverified"[0] == 'u' && "observed"[0] == 'o' && "verified"[0] == 'v' && "system"[0] == 's';
  }

  // ----- title keys -----

  predicate IsKey(c: char)
  {
    97 <= c as int <= 122 || 65 <= c as int <= 90 || 48 <= c as int <= 57
  }

  function Small(c: char): char
  {
    if 65 <= c as int <= 90 then (c as int - 'A' as int + 'a' as int) as char else c
  }

  function Run(cur: string): seq<string>
  {
    if cur == "" then [] else [cur]
  }

  /** The runs of letters and digits of a text, in lower case; `cur` is the run being read. */
  function Runs(s: string, cur: string): seq<string>
    decreases |s|
  {
    if s == "" then Run(cur)
    else if IsKey(s[0]) then Runs(s[1..], cur + [Small(s[0])])
    else Run(cur) + Runs(s[1..], "")
  }

  lemma {:induction false} KeyIs(c: char)
    ensures IsKey(c) <==> KeyChar(LowerChar(c))
    ensures IsKey(c) ==> LowerChar(c) == Small(c) && !Blank(Small(c))
  {
  }

  lemma {:induction false} TrimEndConcat(x: string, y: string)
    ensures TrimEnd(x + y) == if TrimEnd(y) != "" then x + TrimEnd(y) else TrimEnd(x)
    decreases |y|
  {
    hide Blank;
    if y == "" {
      assert x + y == x;
    } else {
      var n := |y| - 1;
      assert (x + y)[|x + y| - 1] == y[n] && (x + y)[..|x + y| - 1] == x + y[..n];
      if Blank(y[n]) { TrimEndConcat(x, y[..n]); }
    }
  }

  lemma {:induction false} RunsFilled(s: string, cur: string)
    ensures cur != "" ==> Runs(s, cur) != []
    ensures forall k :: 0 <= k < |Runs(s, cur)| ==> Runs(s, cur)[k] != ""
    decreases |s|
  {
    hide IsKey, Small;
    if s != "" {
      if IsKey(s[0]) { RunsFilled(s[1..], cur + [Small(s[0])]); } else { RunsFilled(s[1..], ""); }
    }
  }

  lemma {:induction false} JoinFilled(parts: seq<string>)
    requires forall k :: 0 <= k < |parts| ==> parts[k] != ""
    ensures Join(parts, " ") == "" <==> parts == []
  {
    if parts != [] { assert parts[0] != ""; }
  }

  ghost predicate EndsInKey(cur: string)
  {
    cur != "" && !Blank(cur[|cur| - 1])
  }

  /** Squeezing keeps the runs and puts one space between two of them. */
  lemma {:induction false} SqueezeRuns(s: string, cur: string)
    requires cur == "" || EndsInKey(cur)
    ensures TrimEnd(if cur == "" then Squeeze(s, true) else cur + Squeeze(s, false)) == Join(Runs(s, cur), " ")
    decreases |s|
  {
    hide Blank, KeyChar, LowerChar, IsKey, Small;
    if s == "" {
      assert cur + "" == cur;
    } else {
      var c, rest := s[0], s[1..];
      KeyIs(c);
      if IsKey(c) {
        var more := cur + [Small(c)];
        SqueezeRuns(rest, more);
        assert cur + ([Small(c)] + Squeeze(rest, false)) == more + Squeeze(rest, false);
        assert "" + [Small(c)] == [Small(c)];
      } else {
        SqueezeRuns(rest, "");
        if cur != "" { RunThenRest(cur, rest); } else { assert Run(cur) + Runs(rest, "") == Runs(rest, ""); }
      }
    }
  }

  lemma {:induction false} RunThenRest(cur: string, rest: string)
    requires EndsInKey(cur) && TrimEnd(Squeeze(rest, true)) == Join(Runs(rest, ""), " ")
    ensures TrimEnd(cur + (" " + Squeeze(rest, true))) == Join(Run(cur) + Runs(rest, ""), " ")
  {
    hide Squeeze, Runs, Blank;
    var y, more := Squeeze(rest, true), Runs(rest, "");
    RunsFilled(rest, "");
    JoinFilled(more);
    TrimEndConcat(cur, " " + y);
    TrimEndConcat(" ", y);
    SpaceTrimmed();
    if more == [] {
      assert [cur] + more == [cur];
    } else {
      assert ([cur] + more)[1..] == more;
      assert cur + (" " + TrimEnd(y)) == cur + " " + TrimEnd(y);
    }
  }

  lemma {:induction false} SpaceTrimmed()
    ensures TrimEnd(" ") == ""
  {
    assert Blank(' ') && " "[..0] == "";
  }

  lemma {:induction false} SqueezedStart(s: string)
    ensures var y := Squeeze(s, true); TrimStart(y) == y && TrimStart(" " + y) == y
    decreases |s|
  {
    assert Blank(' ');
    hide Blank, KeyChar, LowerChar, IsKey;
    assert (" " + Squeeze(s, true))[1..] == Squeeze(s, true);
    if s != "" {
      KeyIs(s[0]);
      if !IsKey(s[0]) { SqueezedStart(s[1..]); }
    }
  }

  /** A title's key is its runs of letters and digits, in lower case, one space between them. */
  lemma {:induction false} TitleKeyIsRuns(title: string)
    ensures TitleKey(title) == Join(Runs(title, ""), " ")
  {
    hide Blank, KeyChar, LowerChar, IsKey, Small, TrimEnd, Join, Runs;
    if title != "" {
      var c, rest := title[0], title[1..];
      KeyIs(c);
      SqueezeRuns(title, "");
      SqueezedStart(title);
      SqueezedStart(rest);
    } else {
      SqueezeRuns("", "");
    }
  }

  // ----- which entry a save updates -----

  /** Entry `k` is the first with the title's key, or, if none has it, the first of the greatest similarity. */
  ghost predicate Updates(entries: seq<Entry>, key: string, similarity: Entry -> real, k: nat)
  {
    && key != "" && k < |entries|
    && if exists e :: e in entries && TitleKey(e.title) == key
       then TitleKey(entries[k].title) == key && forall j :: 0 <= j < k ==> TitleKey(entries[j].title) != key
       else MostAlike(entries, similarity, k)
  }

  ghost predicate NoneUpdated(entries: seq<Entry>, key: string, similarity: Entry -> real)
  {
    forall k: nat :: !Updates(entries, key, similarity, k)
  }

  ghost predicate MostAlike(entries: seq<Entry>, similarity: Entry -> real, k: nat)
  {
    && k < |entries| && similarity(entries[k]) >= 0.72
    && (forall j :: 0 <= j < |entries| ==> similarity(entries[j]) <= similarity(entries[k]))
    && (forall j :: 0 <= j < k ==> similarity(entries[j]) < similarity(entries[k]))
  }

  lemma {:induction false} ByTitleIs(entries: seq<Entry>, key: string) returns (k: nat)
    requires exists e :: e in entries && TitleKey(e.title) == key
    ensures k < |entries| && ByTitle(entries, key) == Some(entries[k]) && TitleKey(entries[k].title) == key
    ensures forall j :: 0 <= j < k ==> TitleKey(entries[j].title) != key
  {
    hide TitleKey;
    if TitleKey(entries[0].title) == key {
      k := 0;
    } else {
      k := ByTitleIs(entries[1..], key);
      k := k + 1;
    }
  }

  /** The choice among the entries seen so far. */
  ghost predicate BestOf(entries: seq<Entry>, similarity: Entry -> real, best: Option<Entry>)
  {
    match best
    case None => forall k :: 0 <= k < |entries| ==> similarity(entries[k]) < 0.72
    case Some(e) => exists k: nat :: MostAlike(entries, similarity, k) && entries[k] == e
  }

  lemma {:induction false} BestIsAlike(seen: seq<Entry>, similarity: Entry -> real, best: Option<Entry>)
    requires BestOf(seen, similarity, best)
    ensures best.Some? ==> similarity(best.value) >= 0.72
  {
  }

  lemma {:induction false} BestMore(seen: seq<Entry>, e: Entry, similarity: Entry -> real, best: Option<Entry>)
    requires BestOf(seen, similarity, best)
    ensures best.Some? ==> similarity(best.value) >= 0.72
    ensures var better := similarity(e) >= 0.72 && (best.None? || similarity(e) > similarity(best.value));
            BestOf(seen + [e], similarity, if better then Some(e) else best)
  {
    var all, better := seen + [e], similarity(e) >= 0.72 && (best.None? || similarity(e) > similarity(best.value));
    assert all[|seen|] == e && forall j :: 0 <= j < |seen| ==> all[j] == seen[j];
    if best.Some? {
      var k: nat :| MostAlike(seen, similarity, k) && seen[k] == best.value;
      assert MostAlike(all, similarity, if better then |seen| else k);
    } else if better {
      assert MostAlike(all, similarity, |seen|);
    }
  }

  lemma {:induction false} MostSimilarIs(seen: seq<Entry>, entries: seq<Entry>, similarity: Entry -> real,
      best: Option<Entry>)
    requires BestOf(seen, similarity, best)
    ensures best.Some? ==> similarity(best.value) >= 0.72
    ensures BestOf(seen + entries, similarity, MostSimilar(entries, similarity, best))
    decreases |entries|
  {
    hide BestOf;
    if entries == [] {
      BestIsAlike(seen, similarity, best);
      assert seen + entries == seen;
    } else {
      var e := entries[0];
      BestMore(seen, e, similarity, best);
      var better := similarity(e) >= 0.72 && (best.None? || similarity(e) > similarity(best.value));
      MostSimilarIs(seen + [e], entries[1..], similarity, if better then Some(e) else best);
      assert seen + [e] + entries[1..] == seen + entries;
    }
  }

  /** Declared without the search: a save updates an entry exactly when one is the first of its kind. */
  lemma {:induction false} PickIff(entries: seq<Entry>, title: string, similarity: Entry -> real)
    ensures var r, key := PickForUpsert(entries, title, similarity), TitleKey(title);
            && (r.Some? ==> exists k: nat :: Updates(entries, key, similarity, k) && r.value == entries[k])
            && (r.None? ==> NoneUpdated(entries, key, similarity))
  {
    hide TitleKey, Updates, NoneUpdated, ByTitle, MostSimilar;
    var key := TitleKey(title);
    if key == "" {
      NoKey(entries, similarity);
    } else if exists e :: e in entries && TitleKey(e.title) == key {
      PickTitled(entries, key, similarity);
    } else {
      PickAlike(entries, key, similarity);
    }
  }

  lemma {:induction false} NoKey(entries: seq<Entry>, similarity: Entry -> real)
    ensures NoneUpdated(entries, "", similarity)
  {
    hide TitleKey;
  }

  lemma {:induction false} PickTitled(entries: seq<Entry>, key: string, similarity: Entry -> real)
    requires key != "" && exists e :: e in entries && TitleKey(e.title) == key
    ensures ByTitle(entries, key).Some?
    ensures exists k: nat :: Updates(entries, key, similarity, k) && ByTitle(entries, key).value == entries[k]
  {
    hide TitleKey, ByTitle;
    var k := ByTitleIs(entries, key);
    assert Updates(entries, key, similarity, k);
  }

  lemma {:induction false} PickAlike(entries: seq<Entry>, key: string, similarity: Entry -> real)
    requires key != "" && forall e :: e in entries ==> TitleKey(e.title) != key
    ensures ByTitle(entries, key).None?
    ensures var r := MostSimilar(entries, similarity, None);
            && (r.Some? ==> exists k: nat :: Updates(entries, key, similarity, k) && r.value == entries[k])
            && (r.None? ==> NoneUpdated(entries, key, similarity))
  {
    hide TitleKey, ByTitle, MostSimilar;
    assert [] + entries == entries;
    MostSimilarIs([], entries, similarity, None);
    var r := MostSimilar(entries, similarity, None);
    if r.Some? {
      var k: nat :| MostAlike(entries, similarity, k) && entries[k] == r.value;
      assert Updates(entries, key, similarity, k);
    }
  }

  // ----- save -----

  /** The strategy a call names: upsert if it names none or a blank one. */
  ghost predicate Asks(args: SaveArgs, strategy: string)
  {
    if args.onConflict.None? || AllBlank(args.onConflict.value) then strategy == "upsert"
    else strategy == Lower(Trim(args.onConflict.value))
  }

  lemma {:induction false} StrategyIs(args: SaveArgs)
    ensures Asks(args, Strategy(args))
  {
    hide Trim, Lower, AllBlank;
    if args.onConflict.Some? { BlankText(args.onConflict.value); }
    UpsertNormal();
    assert forall s: string :: |Lower(s)| == |s|;
  }

  lemma {:induction false} UpsertNormal()
    ensures NormalText("upsert") == "upsert"
  {
    hide NormalText;
    assert forall c :: 'a' <= c <= 'z' ==> LowerChar(c) == c && !Blank(c);
    NormalTextSound("upsert");
  }

  /** A save is refused for a blank title or content, a suspected secret, or a strategy it does not know. */
  lemma {:induction false} RefusedIff(args: SaveArgs, x: Ctx)
    ensures SaveRefused(args, x) <==>
            || AllBlank(args.title) || AllBlank(args.content) || x.secret
            || (!Asks(args, "upsert") && !Asks(args, "replace"))
  {
    hide Trim, Strategy, AllBlank, Asks;
    BlankText(args.title);
    BlankText(args.content);
    StrategyIs(args);
    AsksOne(args);
  }

  /** A save replaces if and only if it asks to and a live entry of its namespace is in conflict. */
  lemma {:induction false} ReplacesIff(log: Log, args: SaveArgs, x: Ctx)
    ensures Replaces(Replay(log), args, x) <==>
            Asks(args, "replace") &&
            exists e :: e in Replay(log) && e.namespace == SaveNs(args, x) && e.id in x.conflicts
  {
    hide Replay, Strategy, Conflicting, Asks, SaveNs;
    StrategyIs(args);
    AsksOne(args);
    ConflictingLive(log, SaveNs(args, x), x.conflicts);
    var gone := Conflicting(Replay(log), SaveNs(args, x), x.conflicts);
    assert gone != [] ==> gone[0] in gone;
  }

  lemma {:induction false} AsksOne(args: SaveArgs)
    ensures forall a, b :: Asks(args, a) && Asks(args, b) ==> a == b
  {
  }

  /** The fields of an entry that a save writes anew, from its arguments. */
  ghost predicate FromArgs(args: SaveArgs, x: Ctx, e: Entry)
  {
    && e.id == x.freshId && e.title == Trim(args.title) && e.content == Trim(args.content) && Tagged(args.tags, e.tags)
    && e.createdAt == x.now && e.updatedAt == x.now && e.lastAccessedAt == x.now && e.reinforceCount == 0
    && Clamped(args.importance, 1, 5, 3, e.importance) && Confident(args.confidence, e.confidence)
    && Labelled(args.source, "user", 2, 32, e.source) && Labelled(args.namespace, x.defaultNs, 1, 64, e.namespace)
    && Trusted(args.trustTier, e.source, e.trustTier)
  }

  ghost predicate Confident(v: Option<real>, r: real)
  {
    match v
    case None => r == 0.8
    case Some(c) => if c < 0.05 then r == 0.05 else if c > 1.0 then r == 1.0 else r == c
  }

  /** The tier a save may claim: the one it names, but system only for the system; else by its source. */
  ghost predicate Trusted(v: Option<string>, source: string, t: TrustTier)
  {
    && (forall n :: Names(v, n) ==> t == if n == System && source != "system" then Verified else n)
    && (NamesNone(v) ==> t == if source == "user" then Verified else Observed)
  }

  lemma {:induction false} NewEntryIs(args: SaveArgs, x: Ctx)
    ensures FromArgs(args, x, NewEntry(args, SaveNs(args, x), x))
  {
    hide Trim, Tagged, Clamped, Labelled, Names, NamesNone, NormalTags, ClampInt, Label, Tier;
    TaggedIs(args.tags);
    ClampedIs(args.importance, 1, 5, 3);
    LabelledIs(args.source, "user", 2, 32);
    LabelledIs(args.namespace, x.defaultNs, 1, 64);
    var source := Label(args.source, "user", 2, 32);
    TierIs(args.trustTier, if source == "user" then Verified else Observed);
  }

  /** What an upsert makes of the entry it updates and the entry the arguments alone would give. */
  ghost predicate Merged(prior: Entry, draft: Entry, now: string, e: Entry)
  {
    && e.id == prior.id && e.namespace == prior.namespace && e.title == draft.title
    && e.createdAt == prior.createdAt && e.updatedAt == now && e.lastAccessedAt == prior.lastAccessedAt
    && e.reinforceCount == prior.reinforceCount && Tagged(prior.tags + draft.tags, e.tags)
    && Holds(e.content, prior.content) && Holds(e.content, draft.content)
    && (Holds(draft.content, prior.content) ==> e.content == draft.content)
    && (Holds(prior.content, draft.content) ==> e.content == prior.content)
    && e.importance in {prior.importance, draft.importance}
    && e.importance >= prior.importance && e.importance >= draft.importance
    && e.trustTier in {prior.trustTier, draft.trustTier}
    && Rank(e.trustTier) >= Rank(prior.trustTier) && Rank(e.trustTier) >= Rank(draft.trustTier)
    && e.source == (if draft.source == "user" then prior.source else draft.source)
    && Confident(Some((prior.confidence + draft.confidence) / 2.0 + 0.05), e.confidence)
  }

  lemma {:induction false} UpdatedIs(prior: Entry, draft: Entry, today: string)
    requires Trimmed(prior.content) && Trimmed(draft.content)
    ensures Merged(prior, draft, draft.updatedAt, UpdatedEntry(prior, draft, today))
  {
    hide Trim, Tagged, NormalTags, MergeContent, Holds, Trimmed;
    TaggedIs(prior.tags + draft.tags);
    MergeHoldsBoth(prior.content, draft.content, today);
    TrimSound(prior.content);
    TrimSound(draft.content);
  }

  lemma {:induction false} PickOne(entries: seq<Entry>, title: string, similarity: Entry -> real, k: nat)
    requires Updates(entries, TitleKey(title), similarity, k)
    ensures k < |entries| && PickForUpsert(entries, title, similarity) == Some(entries[k])
  {
    hide TitleKey, PickForUpsert;
    PickIff(entries, title, similarity);
    var j: nat :| Updates(entries, TitleKey(title), similarity, j) &&
      PickForUpsert(entries, title, similarity).value == entries[j];
    UpdatesOne(entries, TitleKey(title), similarity, j, k);
  }

  /** A save that replaces, or has no entry to update, leaves live a new entry that holds the arguments. */
  lemma {:induction false} SaveWritesNew(log: Log, args: SaveArgs, x: Ctx, draft: Entry)
    requires GoodCtx(x) && !SaveRefused(args, x) && draft == NewEntry(args, SaveNs(args, x), x)
    requires Replaces(Replay(log), args, x) ||
             NoneUpdated(Scoped(Replay(log), draft.namespace), TitleKey(draft.title), x.similarity)
    ensures FromArgs(args, x, draft) && draft in Replay(Save(log, args, x))
  {
    hide FromArgs, Updates, Replay, Replaces, SaveRefused, GoodCtx, NewEntry, UpdatedEntry, Save, Scoped, PickForUpsert;
    NewEntryIs(args, x);
    NewEntryPlace(args, SaveNs(args, x), x);
    SaveWithinQuota(log, args, x);
    var entries := Scoped(Replay(log), draft.namespace);
    PickIff(entries, draft.title, x.similarity);
    if PickForUpsert(entries, draft.title, x.similarity).Some? {
      var k: nat :| Updates(entries, TitleKey(draft.title), x.similarity, k);
      assert Replaces(Replay(log), args, x);
    }
    assert SavedEntry(Replay(log), args, x) == draft;
  }

  /** Any other save leaves live the entry it updates, merged with the arguments. */
  lemma {:induction false} SaveMerges(log: Log, args: SaveArgs, x: Ctx, draft: Entry, k: nat) returns (e: Entry)
    requires GoodCtx(x) && !SaveRefused(args, x) && !Replaces(Replay(log), args, x)
    requires draft == NewEntry(args, SaveNs(args, x), x)
    requires Updates(Scoped(Replay(log), draft.namespace), TitleKey(draft.title), x.similarity, k)
    ensures FromArgs(args, x, draft) && e in Replay(Save(log, args, x))
    ensures Merged(Scoped(Replay(log), draft.namespace)[k], draft, x.now, e)
  {
    hide FromArgs, Merged, Updates, Replay, Replaces, SaveRefused, GoodCtx, NewEntry, UpdatedEntry, Save, Scoped;
    var entries := Scoped(Replay(log), draft.namespace);
    NewEntryIs(args, x);
    NewEntryPlace(args, SaveNs(args, x), x);
    SaveWithinQuota(log, args, x);
    PickOne(entries, draft.title, x.similarity, k);
    NewEntryFields(args, x, draft);
    ScopedMembers(Replay(log), draft.namespace);
    LiveWellFormed(log);
    ContentTrimmed(entries[k]);
    UpdatedIs(entries[k], draft, x.today);
    e := SavedEntry(Replay(log), args, x);
  }

  lemma {:induction false} NewEntryFields(args: SaveArgs, x: Ctx, draft: Entry)
    requires draft == NewEntry(args, SaveNs(args, x), x)
    ensures draft.updatedAt == x.now && Trimmed(draft.content)
  {
    hide Trim;
    TrimSound(args.content);
  }

  lemma {:induction false} ContentTrimmed(e: Entry)
    requires WellFormed(e)
    ensures Trimmed(e.content)
  {
  }

  lemma {:induction false} UpdatesOne(entries: seq<Entry>, key: string, similarity: Entry -> real, j: nat, k: nat)
    requires Updates(entries, key, similarity, j) && Updates(entries, key, similarity, k)
    ensures j == k
  {
    hide TitleKey;
  }
}
