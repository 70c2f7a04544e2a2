/** Provider-safe tool-call ids. */
module ToolCallIds {
  import opened Text
  import opened Transcript
  import opened Renaming

  /*
    Sanitising one id, choosing an unused one, renaming a transcript.
  */

  datatype Mode = Strict | Strict9

  const MAX_LEN := 40
  const STRICT9_LEN := 9

  /** Hex digest of a text cut to a length; any function with that format. */
  type Hash = (string, nat) -> string

  predicate AlnumChar(c: char)
  {
    '0' <= c <= '9' || 'a' <= c <= 'z' || 'A' <= c <= 'Z'
  }

  predicate Alnum(s: string)
  {
    forall k :: 0 <= k < |s| ==> AlnumChar(s[k])
  }

  predicate Digits(s: string)
  {
    forall k :: 0 <= k < |s| ==> '0' <= s[k] <= '9'
  }

  ghost predicate GoodHash(hash: Hash)
  {
    forall text, n {:trigger hash(text, n)} :: n <= 40 ==> |hash(text, n)| == n && Alnum(hash(text, n))
  }

  /** Date.now() in decimal. */
  ghost predicate GoodStamp(stamp: string)
  {
    Digits(stamp) && |stamp| < MAX_LEN
  }

  function KeepAlnum(s: string): (r: string)
    ensures Alnum(r)
  {
    if s == "" then ""
    else if AlnumChar(s[0]) then [s[0]] + KeepAlnum(s[1..])
    else KeepAlnum(s[1..])
  }

  /** JavaScript slice(0, n). */
  function Clip(s: string, n: nat): string
  {
    if |s| <= n then s else s[..n]
  }

  function Decimal(n: nat): (s: string)
    ensures s != "" && Digits(s)
  {
    if n < 10 then [('0' as int + n) as char] else Decimal(n / 10) + [('0' as int + n % 10) as char]
  }

  function SanitizeId(id: string, mode: Mode, hash: Hash): string
  {
    var kept := KeepAlnum(id);
    match mode
    case Strict9 =>
      if id == "" then "defaultid"
      else if |kept| >= STRICT9_LEN then kept[..STRICT9_LEN]
      else if kept != "" then hash(kept, STRICT9_LEN)
      else hash("sanitized", STRICT9_LEN)
    case Strict =>
      if id == "" then "defaulttoolid" else if kept != "" then kept else "sanitizedtoolid"
  }

  /** The i-th numbered form of a candidate. */
  function Numbered(candidate: string, i: nat): string
    requires i < 1000
  {
    DecimalLength(i);
    Clip(candidate, MAX_LEN - |"x" + Decimal(i)|) + "x" + Decimal(i)
  }

  function ProbeNumbered(candidate: string, used: set<string>, i: nat): Option<string>
    requires i <= 1000
    decreases 1000 - i
  {
    if i == 1000 then None
    else if Numbered(candidate, i) !in used then Some(Numbered(candidate, i))
    else ProbeNumbered(candidate, used, i + 1)
  }

  function ProbeHashed(id: string, used: set<string>, hash: Hash, i: nat): Option<string>
    requires i <= 1000
    decreases 1000 - i
  {
    if i == 1000 then None
    else
      var h := hash(id + ":" + Decimal(i), STRICT9_LEN);
      if h !in used then Some(h) else ProbeHashed(id, used, hash, i + 1)
  }

  function MakeUnique(id: string, used: set<string>, mode: Mode, hash: Hash, stamp: string): string
    requires |stamp| < MAX_LEN
  {
    match mode
    case Strict9 =>
      var base := SanitizeId(id, mode, hash);
      if |base| >= STRICT9_LEN && base[..STRICT9_LEN] !in used then base[..STRICT9_LEN]
      else
        var probe := ProbeHashed(id, used, hash, 0);
        if probe.Some? then probe.value else hash(id + ":" + stamp, STRICT9_LEN)
    case Strict =>
      var base := Clip(SanitizeId(id, mode, hash), MAX_LEN);
      if base !in used then base
      else
        var h := hash(id, 8);
        var candidate := Clip(base, if |h| <= MAX_LEN then MAX_LEN - |h| else 0) + h;
        if candidate !in used then candidate
        else
          var probe := ProbeNumbered(candidate, used, 2);
          if probe.Some? then probe.value else Clip(candidate, MAX_LEN - |stamp| - 1) + "t" + stamp
  }

  method MakeUniqueToolCallId(id: string, used: set<string>, mode: Mode, hash: Hash, stamp: string) returns (r: string)
    requires |stamp| < MAX_LEN
    ensures r == MakeUnique(id, used, mode, hash, stamp)
  {
    if mode.Strict9? {
      var base := SanitizeId(id, mode, hash);
      var candidate := if |base| >= STRICT9_LEN then base[..STRICT9_LEN] else "";
      if candidate != "" && candidate !in used { return candidate; }
      for i := 0 to 1000
        invariant ProbeHashed(id, used, hash, 0) == ProbeHashed(id, used, hash, i)
      {
        var hashed := hash(id + ":" + Decimal(i), STRICT9_LEN);
        if hashed !in used { return hashed; }
      }
      return hash(id + ":" + stamp, STRICT9_LEN);
    }
    var base := Clip(SanitizeId(id, mode, hash), MAX_LEN);
    if base !in used { return base; }
    var h := hash(id, 8);
    var maxBaseLen := if |h| <= MAX_LEN then MAX_LEN - |h| else 0;
    var clippedBase := if |base| > maxBaseLen then base[..maxBaseLen] else base;
    var candidate := clippedBase + h;
    if candidate !in used { return candidate; }
    for i := 2 to 1000
      invariant ProbeNumbered(candidate, used, 2) == ProbeNumbered(candidate, used, i)
    {
      var next := Numbered(candidate, i);
      if next !in used { return next; }
    }
    return Clip(candidate, MAX_LEN - |stamp| - 1) + "t" + stamp;
  }

  // ----- numbered forms are distinct -----

  lemma {:induction false} DecimalLength(n: nat)
    ensures n < 10 ==> |Decimal(n)| == 1
    ensures n < 100 ==> |Decimal(n)| <= 2
    ensures n < 1000 ==> |Decimal(n)| <= 3
    ensures n >= 10 ==> |Decimal(n)| >= 2
  {
    if n >= 10 { DecimalLength(n / 10); }
  }

  lemma {:induction false} DecimalInjective(m: nat, n: nat)
    requires Decimal(m) == Decimal(n)
    ensures m == n
  {
    DecimalLength(m);
    DecimalLength(n);
    var s := Decimal(m);
    if m >= 10 && n >= 10 {
      assert s[..|s| - 1] == Decimal(m / 10) && s[..|s| - 1] == Decimal(n / 10);
      assert s[|s| - 1] == ('0' as int + m % 10) as char;
      DecimalInjective(m / 10, n / 10);
    }
  }

  lemma {:induction false} SuffixDecides(u: string, v: string, m: nat, n: nat)
    requires u + "x" + Decimal(m) == v + "x" + Decimal(n) && |Decimal(m)| <= |Decimal(n)|
    ensures m == n
  {
    var s, d, e := u + "x" + Decimal(m), Decimal(m), Decimal(n);
    assert s[|s| - |d| - 1] == 'x';
    assert forall k :: |s| - |e| <= k < |s| ==> s[k] == e[k - (|s| - |e|)];
    assert |d| == |e|;
    assert s[|s| - |d|..] == d && s[|s| - |e|..] == e;
    DecimalInjective(m, n);
  }

  lemma {:induction false} NumberedInjective(c: string, i: nat, j: nat)
    requires i < 1000 && j < 1000 && Numbered(c, i) == Numbered(c, j)
    ensures i == j
  {
    DecimalLength(i);
    DecimalLength(j);
    var u, v := Clip(c, MAX_LEN - |"x" + Decimal(i)|), Clip(c, MAX_LEN - |"x" + Decimal(j)|);
    if |Decimal(i)| <= |Decimal(j)| { SuffixDecides(u, v, i, j); } else { SuffixDecides(v, u, j, i); }
  }

  ghost function Forms(c: string, n: nat): set<string>
    requires n <= 1000
  {
    set i | 2 <= i < n :: Numbered(c, i)
  }

  lemma {:induction false} FormsCount(c: string, n: nat)
    requires 2 <= n <= 1000
    ensures |Forms(c, n)| == n - 2
  {
    if n == 2 {
      assert Forms(c, 2) == {};
    } else {
      FormsCount(c, n - 1);
      assert Forms(c, n) == Forms(c, n - 1) + {Numbered(c, n - 1)};
      if Numbered(c, n - 1) in Forms(c, n - 1) {
        var i :| 2 <= i < n - 1 && Numbered(c, i) == Numbered(c, n - 1);
        NumberedInjective(c, i, n - 1);
      }
    }
  }

  lemma {:induction false} ProbeExhausted(c: string, used: set<string>, i: nat)
    requires 2 <= i <= 1000 && ProbeNumbered(c, used, i).None?
    ensures forall j :: i <= j < 1000 ==> Numbered(c, j) in used
    decreases 1000 - i
  {
    hide Numbered;
    if i < 1000 { ProbeExhausted(c, used, i + 1); }
  }

  /** With fewer than 998 ids in use, strict mode picks an unused one. */
  lemma {:induction false} StrictPicksUnused(id: string, used: set<string>, hash: Hash, stamp: string)
    requires |used| < 998 && |stamp| < MAX_LEN
    ensures MakeUnique(id, used, Strict, hash, stamp) !in used
  {
    var base := Clip(SanitizeId(id, Strict, hash), MAX_LEN);
    var h := hash(id, 8);
    var c := Clip(base, if |h| <= MAX_LEN then MAX_LEN - |h| else 0) + h;
    if ProbeNumbered(c, used, 2).None? {
      ProbeExhausted(c, used, 2);
      FormsCount(c, 1000);
      assert Forms(c, 1000) <= used;
      SubsetSize(Forms(c, 1000), used);
    }
    ProbeUnused(c, used, 2);
  }

  lemma {:induction false} ProbeUnused(c: string, used: set<string>, i: nat)
    requires i <= 1000
    ensures ProbeNumbered(c, used, i).Some? ==> ProbeNumbered(c, used, i).value !in used
    decreases 1000 - i
  {
    if i < 1000 { ProbeUnused(c, used, i + 1); }
  }

  // ----- format -----

  predicate Canonical(id: string, mode: Mode)
  {
    id != "" && Alnum(id) && (if mode.Strict? then |id| <= MAX_LEN else |id| == STRICT9_LEN)
  }

  lemma {:induction false} KeepAlnumFixed(s: string)
    requires Alnum(s)
    ensures KeepAlnum(s) == s
  {
    if s != "" { KeepAlnumFixed(s[1..]); }
  }

  /** Every chosen id is non-empty, alphanumeric and within length, whatever is in use. */
  lemma {:induction false} MakeUniqueCanonical(id: string, used: set<string>, mode: Mode, hash: Hash, stamp: string)
    requires GoodHash(hash) && GoodStamp(stamp)
    ensures Canonical(MakeUnique(id, used, mode, hash, stamp), mode)
  {
    hide SanitizeId, ProbeNumbered, ProbeHashed;
    SanitizeFormat(id, mode, hash);
    if mode.Strict9? {
      ProbeHashedCanonical(id, used, hash, 0);
    } else {
      var base := Clip(SanitizeId(id, Strict, hash), MAX_LEN);
      var c := Clip(base, MAX_LEN - 8) + hash(id, 8);
      assert Alnum(c) && |c| <= MAX_LEN;
      ProbeNumberedCanonical(c, used, 2);
    }
  }

  lemma {:induction false} SanitizeFormat(id: string, mode: Mode, hash: Hash)
    requires GoodHash(hash)
    ensures SanitizeId(id, mode, hash) != "" && Alnum(SanitizeId(id, mode, hash))
    ensures mode.Strict9? ==> |SanitizeId(id, mode, hash)| == STRICT9_LEN
  {
  }

  lemma {:induction false} ProbeHashedCanonical(id: string, used: set<string>, hash: Hash, i: nat)
    requires i <= 1000 && GoodHash(hash)
    ensures ProbeHashed(id, used, hash, i).Some? ==> Canonical(ProbeHashed(id, used, hash, i).value, Strict9)
    decreases 1000 - i
  {
    if i < 1000 { ProbeHashedCanonical(id, used, hash, i + 1); }
  }

  lemma {:induction false} ProbeNumberedCanonical(c: string, used: set<string>, i: nat)
    requires 2 <= i <= 1000 && Alnum(c)
    ensures ProbeNumbered(c, used, i).Some? ==> Canonical(ProbeNumbered(c, used, i).value, Strict)
    decreases 1000 - i
  {
    if i < 1000 {
      DecimalLength(i);
      ProbeNumberedCanonical(c, used, i + 1);
    }
  }

  /** A canonical id that is not in use is kept. */
  lemma {:induction false} CanonicalKept(id: string, used: set<string>, mode: Mode, hash: Hash, stamp: string)
    requires Canonical(id, mode) && id !in used && |stamp| < MAX_LEN
    ensures MakeUnique(id, used, mode, hash, stamp) == id
  {
    KeepAlnumFixed(id);
    assert mode.Strict9? ==> id[..STRICT9_LEN] == id;
  }

  /** The letters and digits of a text, by their codes. */
  function Letters(s: string): string
  {
    if s == "" then ""
    else
      var n := s[0] as int;
      (if 48 <= n <= 57 || 65 <= n <= 90 || 97 <= n <= 122 then [s[0]] else "") + Letters(s[1..])
  }

  lemma {:induction false} LettersKept(s: string)
    ensures KeepAlnum(s) == Letters(s)
  {
    if s != "" { LettersKept(s[1..]); }
  }

  /**
    The name an id gets while nobody has it: its letters and digits, cut to the mode's length; when it is taken, in
    strict mode, its first 32 letters and digits and a hash.  Ids without a letter or digit get a fixed name.
  */
  lemma {:induction false} NameOfId(id: string, used: set<string>, hash: Hash, stamp: string)
    requires GoodHash(hash) && |stamp| < MAX_LEN
    ensures var own := Clip(Letters(id), 40);
            && (own != "" && own !in used ==> MakeUnique(id, used, Strict, hash, stamp) == own)
            && (own != "" && own in used && Clip(own, 32) + hash(id, 8) !in used ==>
                  MakeUnique(id, used, Strict, hash, stamp) == Clip(own, 32) + hash(id, 8))
            && (own == "" && id != "" && "sanitizedtoolid" !in used ==>
                  MakeUnique(id, used, Strict, hash, stamp) == "sanitizedtoolid")
    ensures "defaulttoolid" !in used ==> MakeUnique("", used, Strict, hash, stamp) == "defaulttoolid"
    ensures |Letters(id)| >= 9 && Letters(id)[..9] !in used ==>
              MakeUnique(id, used, Strict9, hash, stamp) == Letters(id)[..9]
    ensures 0 < |Letters(id)| < 9 && hash(Letters(id), 9) !in used ==>
              MakeUnique(id, used, Strict9, hash, stamp) == hash(Letters(id), 9)
  {
    hide ProbeNumbered, ProbeHashed;
    LettersKept(id);
    if |Letters(id)| >= 9 { assert Letters(id)[..9][..9] == Letters(id)[..9]; }
    assert hash(Letters(id), 9)[..9] == hash(Letters(id), 9);
  }

  // ----- renaming a transcript -----

  datatype Env = Env(mode: Mode, hash: Hash, stamp: string)

  ghost predicate GoodEnv(env: Env)
  {
    GoodHash(env.hash) && GoodStamp(env.stamp)
  }

  /** The ids given out so far. */
  datatype Names = Names(next: map<string, string>, used: set<string>)

  const NO_NAMES := Names(map[], {})

  function Resolve(st: Names, id: string, env: Env): (st': Names)
    requires |env.stamp| < MAX_LEN
    ensures id in st'.next && forall x :: x in st.next ==> x in st'.next && st'.next[x] == st.next[x]
    ensures st'.next.Keys == st.next.Keys + {id}
  {
    if id in st.next then st
    else
      var n := MakeUnique(id, st.used, env.mode, env.hash, env.stamp);
      Names(st.next[id := n], st.used + {n})
  }

  function ResolveIds(st: Names, ids: seq<string>, env: Env): (st': Names)
    requires |env.stamp| < MAX_LEN
    ensures forall x :: x in st.next ==> x in st'.next && st'.next[x] == st.next[x]
    ensures st'.next.Keys == st.next.Keys + set x | x in ids
    decreases |ids|
  {
    if ids == [] then st else ResolveIds(Resolve(st, ids[0], env), ids[1..], env)
  }

  /** The ids of a message in the order the rewriting asks for them. */
  function BlockIdSeq(blocks: seq<Block>): seq<string>
  {
    if blocks == [] then []
    else
      var b := blocks[0];
      (if IsToolCall(b) && b.id.Some? && b.id.value != "" then [b.id.value] else []) + BlockIdSeq(blocks[1..])
  }

  function FieldIdSeq(id: Option<string>): seq<string>
  {
    if id.Some? && id.value != "" then [id.value] else []
  }

  function IdSeq(m: Message): seq<string>
  {
    match m
    case Assistant(_, Some(blocks), _) => BlockIdSeq(blocks)
    case ToolResult(callId, useId, _) => FieldIdSeq(callId) + FieldIdSeq(useId)
    case _ => []
  }

  function Lookup(st: Names): Renamer
  {
    (x: string) => if x in st.next then st.next[x] else x
  }

  function ResolveAll(st: Names, ms: seq<Message>, env: Env): Names
    requires |env.stamp| < MAX_LEN
    decreases |ms|
  {
    if ms == [] then st else ResolveAll(ResolveIds(st, IdSeq(ms[0]), env), ms[1..], env)
  }

  /** The rewritten transcript, each message rewritten with the names known when it is reached. */
  function Rewritten(st: Names, ms: seq<Message>, env: Env): seq<Message>
    requires |env.stamp| < MAX_LEN
    decreases |ms|
  {
    if ms == [] then []
    else
      var st' := ResolveIds(st, IdSeq(ms[0]), env);
      [RenameMessage(Lookup(st'), ms[0])] + Rewritten(st', ms[1..], env)
  }

  class Resolver {
    var names: Names

    constructor ()
      ensures names == NO_NAMES
    {
      names := NO_NAMES;
    }

    method ResolveId(id: string, env: Env) returns (next: string)
      requires |env.stamp| < MAX_LEN
      modifies this
      ensures names == Resolve(old(names), id, env) && next == names.next[id]
      ensures env.mode.Strict? && id !in old(names).next && |old(names).used| < 998 ==> next !in old(names).used
    {
      hide MakeUnique;
      if id in names.next {
        next := names.next[id];
      } else {
        next := MakeUniqueToolCallId(id, names.used, env.mode, env.hash, env.stamp);
        if env.mode.Strict? && |names.used| < 998 { StrictPicksUnused(id, names.used, env.hash, env.stamp); }
        names := Names(names.next[id := next], names.used + {next});
      }
    }

    method RewriteField(id: Option<string>, env: Env) returns (r: Option<string>)
      requires |env.stamp| < MAX_LEN
      modifies this
      ensures names == ResolveIds(old(names), FieldIdSeq(id), env)
      ensures r == RenameField(Lookup(names), id)
    {
      if id.Some? && id.value != "" {
        var next := ResolveId(id.value, env);
        r := Some(next);
      } else {
        r := id;
      }
    }

    method RewriteBlocks(blocks: seq<Block>, env: Env) returns (r: seq<Block>)
      requires |env.stamp| < MAX_LEN
      modifies this
      ensures names == ResolveIds(old(names), BlockIdSeq(blocks), env)
      ensures r == RenameBlocks(Lookup(names), blocks)
    {
      r := [];
      assert blocks[..0] == [];
      for i := 0 to |blocks|
        invariant names == ResolveIds(old(names), BlockIdSeq(blocks[..i]), env)
        invariant r == RenameBlocks(Lookup(names), blocks[..i])
      {
        var b := blocks[i];
        ghost var before := names;
        assert blocks[..i + 1] == blocks[..i] + [b];
        BlockIdSeqSnoc(blocks[..i], b);
        ResolveConcat(old(names), BlockIdSeq(blocks[..i]), BlockIdSeq([b]), env);
        if IsToolCall(b) && b.id.Some? && b.id.value != "" {
          var next := ResolveId(b.id.value, env);
          r := r + [b.(id := Some(next))];
        } else {
          r := r + [b];
        }
        BlocksStable(before, names, blocks[..i]);
        RenameBlocksSnoc(Lookup(names), blocks[..i], b);
      }
      assert blocks[..|blocks|] == blocks;
    }

    method RewriteMessage(m: Message, env: Env) returns (r: Message)
      requires |env.stamp| < MAX_LEN
      modifies this
      ensures names == ResolveIds(old(names), IdSeq(m), env)
      ensures r == RenameMessage(Lookup(names), m)
    {
      match m {
        case Assistant(stop, Some(blocks), raw) =>
          var next := RewriteBlocks(blocks, env);
          r := Assistant(stop, Some(next), raw);
        case ToolResult(callId, useId, body) =>
          var nextCallId := RewriteField(callId, env);
          ResolveConcat(old(names), FieldIdSeq(callId), FieldIdSeq(useId), env);
          var nextUseId := RewriteField(useId, env);
          r := ToolResult(nextCallId, nextUseId, body);
        case _ =>
          r := m;
      }
    }
  }

  method SanitizeToolCallIdsForTranscript(messages: seq<Message>, env: Env) returns (out: seq<Message>)
    requires |env.stamp| < MAX_LEN
    ensures out == Rewritten(NO_NAMES, messages, env)
  {
    hide RenameMessage, ResolveIds, IdSeq, Lookup, Rewritten;
    var resolver := new Resolver();
    out := [];
    assert messages[0..] == messages;
    for i := 0 to |messages|
      invariant out + Rewritten(resolver.names, messages[i..], env) == Rewritten(NO_NAMES, messages, env)
    {
      ghost var before := resolver.names;
      var updated := resolver.RewriteMessage(messages[i], env);
      assert messages[i..] == [messages[i]] + messages[i + 1..];
      RewrittenUnfold(before, messages[i], messages[i + 1..], env);
      out := out + [updated];
    }
    RewriteIsRenaming(resolver.names, messages[|messages|..], env);
  }

  lemma {:induction false} RewrittenUnfold(st: Names, m: Message, rest: seq<Message>, env: Env)
    requires |env.stamp| < MAX_LEN
    ensures var st' := ResolveIds(st, IdSeq(m), env);
            Rewritten(st, [m] + rest, env) == [RenameMessage(Lookup(st'), m)] + Rewritten(st', rest, env)
  {
    assert ([m] + rest)[1..] == rest;
  }

  lemma {:induction false} BlockIdSeqSnoc(blocks: seq<Block>, b: Block)
    ensures BlockIdSeq(blocks + [b]) == BlockIdSeq(blocks) + BlockIdSeq([b])
    ensures BlockIdSeq([b]) == if IsToolCall(b) && b.id.Some? && b.id.value != "" then [b.id.value] else []
  {
    if blocks != [] {
      assert (blocks + [b])[1..] == blocks[1..] + [b];
      BlockIdSeqSnoc(blocks[1..], b);
    } else {
      assert blocks + [b] == [b] && [b][1..] == [];
    }
  }

  lemma {:induction false} RenameBlocksSnoc(rho: Renamer, blocks: seq<Block>, b: Block)
    ensures RenameBlocks(rho, blocks + [b]) == RenameBlocks(rho, blocks) + [RenameBlock(rho, b)]
  {
    if blocks != [] {
      assert (blocks + [b])[1..] == blocks[1..] + [b];
      RenameBlocksSnoc(rho, blocks[1..], b);
    } else {
      assert blocks + [b] == [b] && [b][1..] == [];
    }
  }

  lemma {:induction false} ResolveConcat(st: Names, xs: seq<string>, ys: seq<string>, env: Env)
    requires |env.stamp| < MAX_LEN
    ensures ResolveIds(st, xs + ys, env) == ResolveIds(ResolveIds(st, xs, env), ys, env)
    decreases |xs|
  {
    if xs != [] {
      assert (xs + ys)[1..] == xs[1..] + ys;
      ResolveConcat(Resolve(st, xs[0], env), xs[1..], ys, env);
    } else {
      assert xs + ys == ys;
    }
  }

  // ----- renamers that agree on a message's ids rename it alike -----

  ghost predicate Agree(rho: Renamer, rho': Renamer, ids: seq<string>)
  {
    forall x :: x in ids ==> rho(x) == rho'(x)
  }

  lemma {:induction false} BlocksAgree(rho: Renamer, rho': Renamer, blocks: seq<Block>)
    requires Agree(rho, rho', BlockIdSeq(blocks))
    ensures RenameBlocks(rho, blocks) == RenameBlocks(rho', blocks)
  {
    if blocks != [] { BlocksAgree(rho, rho', blocks[1..]); }
  }

  lemma {:induction false} MessageAgree(rho: Renamer, rho': Renamer, m: Message)
    requires Agree(rho, rho', IdSeq(m))
    ensures RenameMessage(rho, m) == RenameMessage(rho', m)
  {
    if m.Assistant? && m.content.Some? { BlocksAgree(rho, rho', m.content.value); }
  }

  lemma {:induction false} BlocksStable(st: Names, st': Names, blocks: seq<Block>)
    requires forall x :: x in st.next ==> x in st'.next && st'.next[x] == st.next[x]
    requires forall x :: x in BlockIdSeq(blocks) ==> x in st.next
    ensures RenameBlocks(Lookup(st), blocks) == RenameBlocks(Lookup(st'), blocks)
  {
    BlocksAgree(Lookup(st), Lookup(st'), blocks);
  }

  // ----- the pass is a renaming -----

  lemma {:induction false} ResolveAllExtends(st: Names, ms: seq<Message>, env: Env)
    requires |env.stamp| < MAX_LEN
    ensures var st' := ResolveAll(st, ms, env);
            forall x :: x in st.next ==> x in st'.next && st'.next[x] == st.next[x]
    ensures forall m, x :: m in ms && x in IdSeq(m) ==> x in ResolveAll(st, ms, env).next
    decreases |ms|
  {
    if ms != [] {
      var st1 := ResolveIds(st, IdSeq(ms[0]), env);
      ResolveAllExtends(st1, ms[1..], env);
    }
  }

  /** Rewriting as the names are found is renaming with the final names. */
  lemma {:induction false} RewriteIsRenaming(st: Names, ms: seq<Message>, env: Env)
    requires |env.stamp| < MAX_LEN
    ensures Rewritten(st, ms, env) == RenameAll(Lookup(ResolveAll(st, ms, env)), ms)
    decreases |ms|
  {
    if ms != [] {
      var st1 := ResolveIds(st, IdSeq(ms[0]), env);
      RewriteIsRenaming(st1, ms[1..], env);
      ResolveAllExtends(st1, ms[1..], env);
      MessageAgree(Lookup(st1), Lookup(ResolveAll(st, ms, env)), ms[0]);
    }
  }

  // ----- the names are distinct -----

  /** The names given out are canonical and pairwise distinct. */
  ghost predicate DistinctNames(st: Names, mode: Mode)
  {
    && |st.used| <= |st.next|
    && (forall x :: x in st.next ==> st.next[x] in st.used && Canonical(st.next[x], mode))
    && OneName(st.next)
  }

  ghost predicate OneName(next: map<string, string>)
  {
    forall x, y :: x in next && y in next && x != y ==> next[x] != next[y]
  }

  lemma {:induction false} ResolveDistinct(st: Names, id: string, env: Env)
    requires GoodEnv(env) && env.mode.Strict? && DistinctNames(st, Strict)
    requires id in st.next || |st.next| < 998
    ensures DistinctNames(Resolve(st, id, env), Strict)
  {
    hide MakeUnique, Canonical, DistinctNames;
    if id !in st.next {
      var n := MakeUnique(id, st.used, env.mode, env.hash, env.stamp);
      FewUsed(st);
      StrictPicksUnused(id, st.used, env.hash, env.stamp);
      MakeUniqueCanonical(id, st.used, env.mode, env.hash, env.stamp);
      AddDistinct(st, id, n);
    }
  }

  lemma {:induction false} FewUsed(st: Names)
    requires DistinctNames(st, Strict)
    ensures |st.used| <= |st.next|
  {
  }

  lemma {:induction false} AddDistinct(st: Names, id: string, n: string)
    requires DistinctNames(st, Strict) && id !in st.next && n !in st.used && Canonical(n, Strict)
    ensures DistinctNames(Names(st.next[id := n], st.used + {n}), Strict)
  {
    hide Canonical, OneName;
    AddCounts(st, id, n);
    AddName(st, id, n);
  }

  lemma {:induction false} AddName(st: Names, id: string, n: string)
    requires OneName(st.next) && (forall x :: x in st.next ==> st.next[x] in st.used) && n !in st.used
    ensures OneName(st.next[id := n])
  {
    var next' := st.next[id := n];
    forall x, y | x in next' && y in next' && x != y ensures next'[x] != next'[y] {
      assert x != id ==> x in st.next && next'[x] == st.next[x];
      assert y != id ==> y in st.next && next'[y] == st.next[y];
    }
  }

  lemma {:induction false} AddCounts(st: Names, id: string, n: string)
    requires id !in st.next && n !in st.used
    ensures |st.next[id := n]| == |st.next| + 1 && |st.used + {n}| == |st.used| + 1
  {
    var next' := st.next[id := n];
    assert next'.Keys == st.next.Keys + {id} && |next'| == |next'.Keys|;
  }

  lemma {:induction false} ResolveIdsDistinct(st: Names, ids: seq<string>, env: Env, D: set<string>)
    requires GoodEnv(env) && env.mode.Strict? && DistinctNames(st, Strict) && |D| <= 998
    requires st.next.Keys <= D && forall x :: x in ids ==> x in D
    ensures DistinctNames(ResolveIds(st, ids, env), Strict) && ResolveIds(st, ids, env).next.Keys <= D
    decreases |ids|
  {
    hide DistinctNames, Resolve;
    if ids != [] {
      var id := ids[0];
      if id !in st.next {
        SubsetSize(st.next.Keys + {id}, D);
        assert |st.next.Keys| == |st.next|;
      }
      ResolveDistinct(st, id, env);
      ResolveIdsDistinct(Resolve(st, id, env), ids[1..], env, D);
    }
  }

  lemma {:induction false} ResolveAllDistinct(st: Names, ms: seq<Message>, env: Env, D: set<string>)
    requires GoodEnv(env) && env.mode.Strict? && DistinctNames(st, Strict) && |D| <= 998
    requires st.next.Keys <= D && forall m, x :: m in ms && x in IdSeq(m) ==> x in D
    ensures DistinctNames(ResolveAll(st, ms, env), Strict) && ResolveAll(st, ms, env).next.Keys <= D
    decreases |ms|
  {
    hide DistinctNames, ResolveIds, IdSeq;
    if ms != [] {
      assert ms[0] in ms;
      ResolveIdsDistinct(st, IdSeq(ms[0]), env, D);
      ResolveAllDistinct(ResolveIds(st, IdSeq(ms[0]), env), ms[1..], env, D);
    }
  }

  /** Every id of the transcript, in either reading. */
  ghost function AllIds(ms: seq<Message>): set<string>
  {
    set m, x | m in ms && x in IdSeq(m) :: x
  }

  lemma {:induction false} BlockIdsAgree(blocks: seq<Block>)
    ensures CallIds(CallsOf(blocks)) == set x | x in BlockIdSeq(blocks)
  {
    if blocks != [] {
      var b, rest := blocks[0], blocks[1..];
      BlockIdsAgree(rest);
      var head := if IsToolCall(b) && b.id.Some? && b.id.value != "" then [Call(b.id.value, b.name)] else [];
      assert CallsOf(blocks) == head + CallsOf(rest);
      assert forall c :: c in CallsOf(blocks) <==> c in head || c in CallsOf(rest);
      assert forall id :: id in CallIds(CallsOf(blocks)) <==> id in CallIds(head) || id in CallIds(CallsOf(rest));
      if head != [] { assert head[0] in head && CallIds(head) == {b.id.value}; } else { assert CallIds(head) == {}; }
    }
  }

  lemma {:induction false} IdsAgree(m: Message)
    ensures IdsOf(m) == set x | x in IdSeq(m)
  {
    if m.Assistant? && m.content.Some? { BlockIdsAgree(m.content.value); }
  }

  lemma {:induction false} NamesOneToOne(st: Names, D: set<string>)
    requires DistinctNames(st, Strict) && D <= st.next.Keys
    ensures OneToOne(Lookup(st), D)
  {
    forall x, y | x in D && y in D && Lookup(st)(x) == Lookup(st)(y) ensures x == y {
      assert Lookup(st)(x) == st.next[x] && Lookup(st)(y) == st.next[y];
    }
  }

  lemma {:induction false} NoNamesDistinct()
    ensures DistinctNames(NO_NAMES, Strict)
  {
  }

  /** With at most 998 distinct ids, the strict renaming of a transcript is one-to-one. */
  lemma {:induction false} StrictRenamingOneToOne(ms: seq<Message>, env: Env)
    requires GoodEnv(env) && env.mode.Strict? && |AllIds(ms)| <= 998
    ensures var rho := Lookup(ResolveAll(NO_NAMES, ms, env));
            && OneToOne(rho, AllIds(ms)) && Within(ms, AllIds(ms))
            && Rewritten(NO_NAMES, ms, env) == RenameAll(rho, ms)
  {
    hide DistinctNames, ResolveAll, Rewritten, Lookup, IdSeq, IdsOf, OneToOne;
    var D := AllIds(ms);
    var st := ResolveAll(NO_NAMES, ms, env);
    NoNamesDistinct();
    ResolveAllDistinct(NO_NAMES, ms, env, D);
    ResolveAllExtends(NO_NAMES, ms, env);
    NamesOneToOne(st, D);
    RewriteIsRenaming(NO_NAMES, ms, env);
    forall m | m in ms ensures IdsOf(m) <= D { IdsAgree(m); }
  }

  /** So pairing a renamed transcript is pairing the transcript and renaming it with the names found on the whole. */
  lemma {:induction false} SanitizeThenRepair(ms: seq<Message>, env: Env, synth: bool)
    requires GoodEnv(env) && env.mode.Strict? && |AllIds(ms)| <= 998
    ensures Returned(Rewritten(NO_NAMES, ms, env), synth) ==
            RenameAll(Lookup(ResolveAll(NO_NAMES, ms, env)), Returned(ms, synth))
  {
    hide Returned, OneToOne, Within, AllIds;
    StrictRenamingOneToOne(ms, env);
    ReturnedCommutes(Lookup(ResolveAll(NO_NAMES, ms, env)), AllIds(ms), ms, synth);
  }

  // ----- a second pass changes nothing -----

  ghost predicate CanonicalNames(st: Names, mode: Mode)
  {
    forall x :: x in st.next ==> Canonical(st.next[x], mode)
  }

  lemma {:induction false} ResolveIdsCanonical(st: Names, ids: seq<string>, env: Env)
    requires GoodEnv(env) && CanonicalNames(st, env.mode)
    ensures CanonicalNames(ResolveIds(st, ids, env), env.mode)
    decreases |ids|
  {
    hide MakeUnique, Canonical;
    if ids != [] {
      MakeUniqueCanonical(ids[0], st.used, env.mode, env.hash, env.stamp);
      ResolveIdsCanonical(Resolve(st, ids[0], env), ids[1..], env);
    }
  }

  lemma {:induction false} RenamedIds(rho: Renamer, m: Message)
    ensures forall y :: y in IdSeq(RenameMessage(rho, m)) ==> exists x :: x in IdSeq(m) && rho(x) == y
  {
    if m.Assistant? && m.content.Some? { RenamedBlockIds(rho, m.content.value); }
  }

  lemma {:induction false} RenamedBlockIds(rho: Renamer, blocks: seq<Block>)
    ensures forall y :: y in BlockIdSeq(RenameBlocks(rho, blocks)) ==>
              exists x :: x in BlockIdSeq(blocks) && rho(x) == y
  {
    if blocks != [] { RenamedBlockIds(rho, blocks[1..]); }
  }

  lemma {:induction false} RewrittenCanonical(st: Names, ms: seq<Message>, env: Env)
    requires GoodEnv(env) && CanonicalNames(st, env.mode)
    ensures forall m, y :: m in Rewritten(st, ms, env) && y in IdSeq(m) ==> Canonical(y, env.mode)
    decreases |ms|
  {
    hide Canonical, IdSeq, RenameMessage, ResolveIds;
    if ms != [] {
      var st1 := ResolveIds(st, IdSeq(ms[0]), env);
      ResolveIdsCanonical(st, IdSeq(ms[0]), env);
      RenamedIds(Lookup(st1), ms[0]);
      RewrittenCanonical(st1, ms[1..], env);
    }
  }

  /** Names that keep every id. */
  ghost predicate KeepsNames(st: Names)
  {
    st.used == st.next.Keys && forall x :: x in st.next ==> st.next[x] == x
  }

  lemma {:induction false} ResolveIdsKeeps(st: Names, ids: seq<string>, env: Env)
    requires |env.stamp| < MAX_LEN && KeepsNames(st) && forall x :: x in ids ==> Canonical(x, env.mode)
    ensures KeepsNames(ResolveIds(st, ids, env))
    decreases |ids|
  {
    hide MakeUnique, Canonical;
    if ids != [] {
      if ids[0] !in st.next { CanonicalKept(ids[0], st.used, env.mode, env.hash, env.stamp); }
      ResolveIdsKeeps(Resolve(st, ids[0], env), ids[1..], env);
    }
  }

  function Same(x: string): string { x }

  lemma {:induction false} RenameSame(m: Message)
    ensures RenameMessage(Same, m) == m
  {
    if m.Assistant? && m.content.Some? { BlocksSame(m.content.value); }
  }

  lemma {:induction false} BlocksSame(blocks: seq<Block>)
    ensures RenameBlocks(Same, blocks) == blocks
  {
    if blocks != [] { BlocksSame(blocks[1..]); }
  }

  lemma {:induction false} CanonicalTranscriptKept(st: Names, ms: seq<Message>, env: Env)
    requires |env.stamp| < MAX_LEN && KeepsNames(st)
    requires forall m, x :: m in ms && x in IdSeq(m) ==> Canonical(x, env.mode)
    ensures Rewritten(st, ms, env) == ms
    decreases |ms|
  {
    hide Canonical, IdSeq, RenameMessage, ResolveIds;
    if ms != [] {
      assert ms[0] in ms;
      var st1 := ResolveIds(st, IdSeq(ms[0]), env);
      ResolveIdsKeeps(st, IdSeq(ms[0]), env);
      MessageAgree(Lookup(st1), Same, ms[0]);
      RenameSame(ms[0]);
      CanonicalTranscriptKept(st1, ms[1..], env);
    }
  }

  /** Both modes: a second pass is the identity, however many ids there are. */
  lemma {:induction false} SecondPassIdentity(ms: seq<Message>, env: Env)
    requires GoodEnv(env)
    ensures Rewritten(NO_NAMES, Rewritten(NO_NAMES, ms, env), env) == Rewritten(NO_NAMES, ms, env)
  {
    hide Canonical, Rewritten;
    RewrittenCanonical(NO_NAMES, ms, env);
    CanonicalTranscriptKept(NO_NAMES, Rewritten(NO_NAMES, ms, env), env);
  }
}
