/** One line of the memory log: raw JSON fields, normalisation, and what survives a round trip. */
module MemoryEntry {
  import opened Text

  datatype TrustTier = Unverified | Observed | Verified | System

  function Rank(t: TrustTier): nat
  {
    match t case Unverified => 0 case Observed => 1 case Verified => 2 case System => 3
  }

  datatype Entry = Entry(
    id: string, title: string, content: string, tags: seq<string>, createdAt: string, updatedAt: string,
    lastAccessedAt: string, reinforceCount: int, importance: int, confidence: real, source: string,
    namespace: string, trustTier: TrustTier)

  /**
    The fields of a parsed JSON object.  A text field is None when it is null or missing, a number
    field when it is not a finite number, `tags` when it is not an array.
  */
  datatype Raw = Raw(
    typ: Option<string>, id: Option<string>, title: Option<string>, content: Option<string>,
    tags: Option<seq<string>>, createdAt: Option<string>, updatedAt: Option<string>,
    lastAccessedAt: Option<string>, reinforceCount: Option<real>, importance: Option<real>,
    confidence: Option<real>, source: Option<string>, namespace: Option<string>,
    trustTier: Option<string>, deletedAt: Option<string>)

  function Or<T>(o: Option<T>, fallback: T): T
  {
    if o.Some? then o.value else fallback
  }

  function OrText(s: string, fallback: string): string
  {
    if s != "" then s else fallback
  }

  // ----- normalisers -----

  function NormalText(s: string): string
  {
    Lower(Trim(s))
  }

  predicate Normal(s: string)
  {
    Trimmed(s) && forall k :: 0 <= k < |s| ==> LowerChar(s[k]) == s[k]
  }

  lemma {:induction false} NormalTextSound(s: string)
    ensures Normal(NormalText(s)) && (Normal(s) ==> NormalText(s) == s)
  {
    TrimSound(s);
    var t := Trim(s);
    assert forall c :: Blank(LowerChar(c)) <==> Blank(c);
  }

  predicate SlugChar(c: char)
  {
    'a' <= c <= 'z' || '0' <= c <= '9' || c == '.' || c == '_' || c == '/' || c == '-'
  }

  predicate Slug(s: string, min: nat, max: nat)
  {
    min <= |s| <= max && forall k :: 0 <= k < |s| ==> SlugChar(s[k])
  }

  /** Source and namespace labels: normalised, and the fallback unless they are slugs. */
  function Label(value: Option<string>, fallback: string, min: nat, max: nat): string
  {
    var n := NormalText(Or(value, ""));
    if n != "" && Slug(n, min, max) then n else fallback
  }

  function TierName(t: TrustTier): string
  {
    match t
    case Unverified => "unverified"
    case Observed => "observed"
    case Verified => "verified"
    case System => "system"
  }

  function Tier(value: Option<string>, fallback: TrustTier): TrustTier
  {
    var n := NormalText(Or(value, ""));
    if n == TierName(Unverified) then Unverified
    else if n == TierName(Observed) then Observed
    else if n == TierName(Verified) then Verified
    else if n == TierName(System) then System
    else fallback
  }

  function ClampInt(v: Option<real>, min: int, max: int, fallback: int): int
  {
    if v.None? then fallback
    else
      var f := v.value.Floor;
      if f < min then min else if f > max then max else f
  }

  function ClampReal(v: real, min: real, max: real): real
  {
    if v < min then min else if v > max then max else v
  }

  /** Tags: normalised, non-empty, without repeats, at most 20. */
  function NormalTags(tags: seq<string>, acc: seq<string>): seq<string>
    decreases |tags|
  {
    if tags == [] || |acc| >= 20 then acc
    else
      var t := NormalText(tags[0]);
      NormalTags(tags[1..], if t == "" || t in acc then acc else acc + [t])
  }

  predicate TagList(tags: seq<string>)
  {
    && |tags| <= 20
    && (forall k :: 0 <= k < |tags| ==> tags[k] != "" && Normal(tags[k]))
    && (forall j, k :: 0 <= j < k < |tags| ==> tags[j] != tags[k])
  }

  lemma {:induction false} NormalTagsSound(tags: seq<string>, acc: seq<string>)
    requires TagList(acc)
    ensures TagList(NormalTags(tags, acc))
    decreases |tags|
  {
    if tags != [] && |acc| < 20 {
      NormalTextSound(tags[0]);
      var t := NormalText(tags[0]);
      NormalTagsSound(tags[1..], if t == "" || t in acc then acc else acc + [t]);
    }
  }

  lemma {:induction false} NormalTagsFixed(tags: seq<string>, acc: seq<string>)
    requires TagList(acc + tags)
    ensures NormalTags(tags, acc) == acc + tags
    decreases |tags|
  {
    if tags == [] {
      assert acc + tags == acc;
    } else {
      var all := acc + tags;
      assert all[|acc|] == tags[0] && forall k :: 0 <= k < |acc| ==> all[k] == acc[k];
      NormalTextSound(tags[0]);
      assert tags[0] !in acc;
      assert (acc + [tags[0]]) + tags[1..] == all;
      NormalTagsFixed(tags[1..], acc + [tags[0]]);
    }
  }

  // ----- parsing -----

  function ParseEntry(raw: Raw): Option<Entry>
  {
    var id, title, content := Trim(Or(raw.id, "")), Trim(Or(raw.title, "")), Trim(Or(raw.content, ""));
    var createdAt := Trim(Or(raw.createdAt, ""));
    var updatedAt := Trim(Or(raw.updatedAt, createdAt));
    var lastAccessedAt := Trim(Or(raw.lastAccessedAt, updatedAt));
    if id == "" || title == "" || content == "" || createdAt == "" then None
    else Some(Entry(
      id, title, content, NormalTags(Or(raw.tags, []), []), createdAt, OrText(updatedAt, createdAt),
      OrText(lastAccessedAt, OrText(updatedAt, createdAt)),
      ClampInt(raw.reinforceCount, 0, 10_000, 0), ClampInt(raw.importance, 1, 5, 3),
      ClampReal(Or(raw.confidence, 0.8), 0.05, 1.0),
      Label(raw.source, "user", 2, 32), Label(raw.namespace, "global", 1, 64), Tier(raw.trustTier, Verified)))
  }

  /** The id a line deletes, if it is a delete marker. */
  function ParseDelete(raw: Raw): Option<string>
  {
    var id := Trim(Or(raw.id, ""));
    if NormalText(Or(raw.typ, "")) == "delete" && id != "" && Trim(Or(raw.deletedAt, "")) != "" then Some(id) else None
  }

  /** JSON.stringify of an entry, read back. */
  function ToRaw(e: Entry): Raw
  {
    Raw(None, Some(e.id), Some(e.title), Some(e.content), Some(e.tags), Some(e.createdAt), Some(e.updatedAt),
        Some(e.lastAccessedAt), Some(e.reinforceCount as real), Some(e.importance as real), Some(e.confidence),
        Some(e.source), Some(e.namespace), Some(TierName(e.trustTier)), None)
  }

  function DeleteRaw(id: string, deletedAt: string): Raw
  {
    Raw(Some("delete"), Some(id), None, None, None, None, None, None, None, None, None, None, None, None,
        Some(deletedAt))
  }

  predicate Filled(s: string)
  {
    s != "" && Trimmed(s)
  }

  /** The entries that survive storage unchanged. */
  predicate WellFormed(e: Entry)
  {
    && Filled(e.id) && Filled(e.title) && Filled(e.content) && Filled(e.createdAt)
    && Filled(e.updatedAt) && Filled(e.lastAccessedAt)
    && TagList(e.tags) && 0 <= e.reinforceCount <= 10_000 && 1 <= e.importance <= 5
    && 0.05 <= e.confidence <= 1.0 && Slug(e.source, 2, 32) && Slug(e.namespace, 1, 64)
  }

  lemma {:induction false} SlugIsNormal(s: string, min: nat, max: nat)
    requires Slug(s, min, max)
    ensures Normal(s)
  {
  }

  lemma {:induction false} LabelSound(value: Option<string>, fallback: string, min: nat, max: nat)
    requires Slug(fallback, min, max)
    ensures Slug(Label(value, fallback, min, max), min, max)
    ensures value.Some? && 0 < min && Slug(value.value, min, max) ==> Label(value, fallback, min, max) == value.value
  {
    hide NormalText, Normal;
    if value.Some? && Slug(value.value, min, max) {
      SlugIsNormal(value.value, min, max);
      NormalTextSound(value.value);
    }
  }

  lemma {:induction false} TierRoundTrip(t: TrustTier, fallback: TrustTier)
    ensures Tier(Some(TierName(t)), fallback) == t
  {
    hide NormalText;
    assert forall c :: 'a' <= c <= 'z' ==> LowerChar(c) == c && !Blank(c);
    assert Normal(TierName(t));
    NormalTextSound(TierName(t));
  }

  /** Parsing yields only entries that survive storage. */
  lemma {:induction false} ParsedIsWellFormed(raw: Raw)
    requires ParseEntry(raw).Some?
    ensures WellFormed(ParseEntry(raw).value)
  {
    hide Label, Trim, Tier, NormalTags, Slug, TagList, Trimmed;
    TrimSound(Or(raw.id, ""));
    TrimSound(Or(raw.title, ""));
    TrimSound(Or(raw.content, ""));
    TrimSound(Or(raw.createdAt, ""));
    var createdAt := Trim(Or(raw.createdAt, ""));
    TrimSound(Or(raw.updatedAt, createdAt));
    TrimSound(Or(raw.lastAccessedAt, Trim(Or(raw.updatedAt, createdAt))));
    NormalTagsSound(Or(raw.tags, []), []);
    Fallbacks();
    LabelSound(raw.source, "user", 2, 32);
    LabelSound(raw.namespace, "global", 1, 64);
  }

  lemma {:induction false} Fallbacks()
    ensures Slug("user", 2, 32) && Slug("global", 1, 64) && TagList([]) && NormalText("") != "delete"
  {
  }

  /** A well-formed entry is read back unchanged, and is not mistaken for a delete marker. */
  lemma {:induction false} WellFormedRoundTrip(e: Entry)
    requires WellFormed(e)
    ensures ParseEntry(ToRaw(e)) == Some(e) && ParseDelete(ToRaw(e)) == None
  {
    hide Label, Trim, Tier, NormalTags, TagList, Trimmed, NormalText, Slug;
    TrimSound(e.id);
    TrimSound(e.title);
    TrimSound(e.content);
    TrimSound(e.createdAt);
    TrimSound(e.updatedAt);
    TrimSound(e.lastAccessedAt);
    assert [] + e.tags == e.tags;
    NormalTagsFixed(e.tags, []);
    Fallbacks();
    LabelSound(Some(e.source), "user", 2, 32);
    LabelSound(Some(e.namespace), "global", 1, 64);
    TierRoundTrip(e.trustTier, Verified);
  }

  lemma {:induction false} DeleteRoundTrip(id: string, deletedAt: string)
    requires Filled(id) && Filled(deletedAt)
    ensures ParseDelete(DeleteRaw(id, deletedAt)) == Some(id)
  {
    TrimSound(id);
    TrimSound(deletedAt);
    assert Normal("delete");
    NormalTextSound("delete");
  }

  /** The well-formed entries are exactly those that storage preserves. */
  lemma {:induction false} StableIffWellFormed(e: Entry)
    ensures WellFormed(e) <==> ParseEntry(ToRaw(e)) == Some(e)
  {
    hide WellFormed, ParseEntry, ToRaw;
    if WellFormed(e) { WellFormedRoundTrip(e); }
    if ParseEntry(ToRaw(e)) == Some(e) { ParsedIsWellFormed(ToRaw(e)); }
  }
}
