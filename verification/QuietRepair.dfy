/** When the pairing repair stays quiet, and what it then leaves. */
module QuietRepair {
  import opened Text
  import opened Transcript
  import opened TranscriptLaws

  // ----- conditions on the transcript as it comes in -----

  /** s[k] is a result in the span of s[a], which made its call. */
  ghost predicate Reply(s: seq<Message>, a: int, k: int)
  {
    0 <= a < k < |s| && IsResult(s[k]) && InSpan(s, a, k)
  }

  /** s[j] lies between s[a] and the next assistant. */
  ghost predicate Reaches(s: seq<Message>, a: int, j: int)
  {
    0 <= a < j < |s| && NoneAfter(s, a, j)
  }

  ghost predicate NoneAfter(s: seq<Message>, a: nat, j: nat)
    requires j < |s|
  {
    forall i :: a < i <= j ==> !s[i].Assistant?
  }

  /** A span with replies holds nothing else. */
  ghost predicate Unmixed(s: seq<Message>)
  {
    forall a, k, j :: Reply(s, a, k) && Reaches(s, a, j) ==> s[j].ToolResult?
  }

  /** No id is answered in two spans. */
  ghost predicate OneSpan(s: seq<Message>)
  {
    forall a, j, b, k :: Reply(s, a, j) && Reply(s, b, k) && RId(s[j]) == RId(s[k]) ==> a == b
  }

  ghost predicate CallsTwice(calls: seq<Call>, id: string)
  {
    exists p, q :: 0 <= p < q < |calls| && calls[p].id == id && calls[q].id == id
  }

  /** No answered id is called twice by one assistant. */
  ghost predicate CalledOnce(s: seq<Message>)
  {
    forall a, k :: Reply(s, a, k) ==> !CallsTwice(Calls(s[a]), RId(s[k]))
  }

  ghost predicate AnsweredAt(s: seq<Message>, a: int, id: string)
  {
    exists k :: Reply(s, a, k) && RId(s[k]) == id
  }

  /** Every call is answered in its span. */
  ghost predicate AllAnswered(s: seq<Message>)
  {
    forall a, c :: 0 <= a < |s| && Answering(s[a]) && c in Calls(s[a]) ==> AnsweredAt(s, a, c.id)
  }

  ghost predicate Quiet(s: seq<Message>, synth: bool)
  {
    NoOrphan(s) && Unmixed(s) && OneSpan(s) && CalledOnce(s) && (synth ==> AllAnswered(s))
  }

  // ----- one span -----

  ghost predicate SpanMatched(calls: seq<Call>, span: seq<Message>)
  {
    forall m :: m in span && m.ToolResult? ==> IsResult(m) && RId(m) in CallIds(calls)
  }

  ghost predicate SpanFresh(span: seq<Message>, seen: set<string>)
  {
    ResultIds(span) !! seen
  }

  ghost predicate SpanUnmixed(span: seq<Message>)
  {
    (exists m :: m in span && m.ToolResult?) ==> forall m :: m in span ==> m.ToolResult?
  }

  ghost predicate SpanCalledOnce(calls: seq<Call>, span: seq<Message>)
  {
    forall id :: id in ResultIds(span) ==> !CallsTwice(calls, id)
  }

  ghost predicate SpanAnswered(calls: seq<Call>, span: seq<Message>)
  {
    CallIds(calls) <= ResultIds(span)
  }

  ghost predicate QuietSpan(calls: seq<Call>, span: seq<Message>, seen: set<string>, synth: bool)
  {
    SpanMatched(calls, span) && SpanFresh(span, seen) && SpanUnmixed(span) && SpanCalledOnce(calls, span) &&
    (synth ==> SpanAnswered(calls, span))
  }

  lemma {:induction false} ScanOrphansZero(span: seq<Message>, calls: seq<Call>)
    ensures ScanOrphans(span, CallIds(calls)) == 0 <==> SpanMatched(calls, span)
  {
    hide CallIds, ResultId;
    if span != [] {
      ScanOrphansZero(span[1..], calls);
      assert forall m :: m in span <==> m == span[0] || m in span[1..];
    }
  }

  lemma {:induction false} ScanDupsZero(span: seq<Message>, calls: seq<Call>, seen: set<string>)
    requires SpanMatched(calls, span)
    ensures ScanDups(span, CallIds(calls), seen) == 0 <==> SpanFresh(span, seen)
  {
    hide CallIds, ResultId;
    if span != [] {
      var m, rest := span[0], span[1..];
      assert forall x :: x in span <==> x == m || x in rest;
      ScanDupsZero(rest, calls, seen);
      ResultIdOnlyOfResults(m);
      assert ResultIds(span) == ResultIds(rest) + (if ResultId(m).Some? then {ResultId(m).value} else {});
    }
  }

  lemma {:induction false} ResultIdOnlyOfResults(m: Message)
    ensures ResultId(m).Some? ==> m.ToolResult?
  {
  }

  /** The call is answered in its span by a result of an id not answered before. */
  predicate Found(id: string, span: seq<Message>, seen0: set<string>)
  {
    id !in seen0 && id in ResultIds(span)
  }

  ghost predicate CalledBefore(calls: seq<Call>, p: nat)
    requires p < |calls|
  {
    exists q :: 0 <= q < p && calls[q].id == calls[p].id
  }

  /** What the call loop needs of a call to change nothing. */
  ghost predicate SmoothAt(calls: seq<Call>, p: nat, span: seq<Message>, seen0: set<string>, seen: set<string>,
      synth: bool)
    requires p < |calls|
  {
    if Found(calls[p].id, span, seen0) then calls[p].id !in seen && !CalledBefore(calls, p) else !synth
  }

  ghost predicate Smooth(calls: seq<Call>, span: seq<Message>, seen0: set<string>, seen: set<string>, synth: bool)
  {
    forall p :: 0 <= p < |calls| ==> SmoothAt(calls, p, span, seen0, seen, synth)
  }

  lemma {:induction false} FoundIsFirst(id: string, span: seq<Message>, seen0: set<string>)
    ensures (if id in seen0 then None else FirstResult(span, id)).Some? <==> Found(id, span, seen0)
  {
    hide ResultId;
  }

  lemma {:induction false} StepQuiet(c: Call, span: seq<Message>, seen0: set<string>, seen: set<string>, synth: bool)
    requires c.id != ""
    ensures var step, found := PushStep(c, span, seen0, seen, synth), Found(c.id, span, seen0);
            && (!step.changed <==> (found ==> c.id !in seen) && (synth ==> found))
            && (!step.changed ==> ResultIds(step.out) == if found then {c.id} else {})
  {
    hide ResultId, ResultIds, FirstResult, Found;
    FoundIsFirst(c.id, span, seen0);
    PushStepIds(c, span, seen0, seen, synth, []);
  }

  lemma {:induction false} SmoothShift(c: Call, rest: seq<Call>, p: nat, span: seq<Message>, seen0: set<string>,
      seen: set<string>, synth: bool)
    requires p < |rest|
    ensures var seen' := seen + (if Found(c.id, span, seen0) then {c.id} else {});
            SmoothAt([c] + rest, p + 1, span, seen0, seen, synth) <==> SmoothAt(rest, p, span, seen0, seen', synth)
  {
    hide Found;
    var calls := [c] + rest;
    assert calls[p + 1] == rest[p] && calls[0] == c;
    if CalledBefore(rest, p) {
      var q :| 0 <= q < p && rest[q].id == rest[p].id;
      assert calls[q + 1].id == calls[p + 1].id;
    }
    if CalledBefore(calls, p + 1) {
      var q :| 0 <= q < p + 1 && calls[q].id == calls[p + 1].id;
      assert q > 0 ==> calls[q] == rest[q - 1];
    }
  }

  lemma {:induction false} SmoothStep(c: Call, rest: seq<Call>, span: seq<Message>, seen0: set<string>,
      seen: set<string>, synth: bool)
    ensures var found := Found(c.id, span, seen0);
            Smooth([c] + rest, span, seen0, seen, synth) <==>
            (found ==> c.id !in seen) && (synth ==> found) &&
            Smooth(rest, span, seen0, seen + (if found then {c.id} else {}), synth)
  {
    hide SmoothAt;
    var calls := [c] + rest;
    SmoothHead(c, rest, span, seen0, seen, synth);
    var seen' := seen + (if Found(c.id, span, seen0) then {c.id} else {});
    if Smooth(calls, span, seen0, seen, synth) {
      forall p | 0 <= p < |rest| ensures SmoothAt(rest, p, span, seen0, seen', synth) {
        SmoothShift(c, rest, p, span, seen0, seen, synth);
      }
    }
    if SmoothAt(calls, 0, span, seen0, seen, synth) && Smooth(rest, span, seen0, seen', synth) {
      forall p | 0 <= p < |calls| ensures SmoothAt(calls, p, span, seen0, seen, synth) {
        if p > 0 { SmoothShift(c, rest, p - 1, span, seen0, seen, synth); }
      }
    }
  }

  lemma {:induction false} SmoothHead(c: Call, rest: seq<Call>, span: seq<Message>, seen0: set<string>,
      seen: set<string>, synth: bool)
    ensures var found := Found(c.id, span, seen0);
            SmoothAt([c] + rest, 0, span, seen0, seen, synth) <==> (found ==> c.id !in seen) && (synth ==> found)
  {
    hide Found;
  }

  lemma {:induction false} PushesQuiet(calls: seq<Call>, span: seq<Message>, seen0: set<string>, seen: set<string>,
      synth: bool)
    requires forall c :: c in calls ==> c.id != ""
    ensures !Pushes(calls, span, seen0, seen, synth).changed <==> Smooth(calls, span, seen0, seen, synth)
    ensures !Pushes(calls, span, seen0, seen, synth).changed ==>
              ResultIds(Pushes(calls, span, seen0, seen, synth).out) == set id | id in CallIds(calls) &&
                  Found(id, span, seen0)
    decreases |calls|
  {
    hide Found, PushStep, ResultId, Pushes, ResultIds, Smooth;
    if calls == [] {
      PushesDone(span, seen0, seen, synth);
      NoIds(span, seen0, seen, synth);
    } else {
      var c, rest := calls[0], calls[1..];
      assert calls == [c] + rest && c in calls;
      var step := PushStep(c, span, seen0, seen, synth);
      PushesUnfold(c, rest, span, seen0, seen, synth);
      StepQuiet(c, span, seen0, seen, synth);
      SmoothStep(c, rest, span, seen0, seen, synth);
      var more := Pushes(rest, span, seen0, seen + ResultIds(step.out), synth);
      PushesQuiet(rest, span, seen0, seen + ResultIds(step.out), synth);
      ResultIdsConcat(step.out, more.out);
      assert CallIds(calls) == {c.id} + CallIds(rest);
    }
  }

  lemma {:induction false} NoIds(span: seq<Message>, seen0: set<string>, seen: set<string>, synth: bool)
    ensures ResultIds([]) == {} && CallIds([]) == {} && Smooth([], span, seen0, seen, synth)
  {
  }

  /** Smoothness, said without the loop. */
  lemma {:induction false} SmoothIs(calls: seq<Call>, span: seq<Message>, seen: set<string>, synth: bool)
    requires SpanFresh(span, seen)
    ensures Smooth(calls, span, seen, seen, synth) <==>
            (forall id :: id in CallIds(calls) && id in ResultIds(span) ==> !CallsTwice(calls, id)) &&
            (synth ==> SpanAnswered(calls, span))
  {
    hide ResultIds;
    if Smooth(calls, span, seen, seen, synth) {
      forall id | id in CallIds(calls) && id in ResultIds(span) ensures !CallsTwice(calls, id) {
        forall p, q | 0 <= p < q < |calls| && calls[q].id == id ensures calls[p].id != id {
          assert SmoothAt(calls, q, span, seen, seen, synth);
        }
      }
      forall id | synth && id in CallIds(calls) ensures id in ResultIds(span) {
        var p :| 0 <= p < |calls| && calls[p].id == id;
        assert SmoothAt(calls, p, span, seen, seen, synth);
      }
    }
    if (forall id :: id in CallIds(calls) && id in ResultIds(span) ==> !CallsTwice(calls, id)) &&
       (synth ==> SpanAnswered(calls, span)) {
      forall p | 0 <= p < |calls| ensures SmoothAt(calls, p, span, seen, seen, synth) {
        assert calls[p] in calls && calls[p].id in CallIds(calls);
        assert Found(calls[p].id, span, seen) ==> !CallsTwice(calls, calls[p].id);
      }
    }
  }

  /** A turn changes nothing exactly when its span is quiet, and then it answers the ids of its span. */
  lemma {:induction false} TurnQuiet(a: Message, span: seq<Message>, seen: set<string>, synth: bool)
    requires Answering(a)
    ensures !Turn(a, span, seen, synth).changed <==> QuietSpan(Calls(a), span, seen, synth)
    ensures !Turn(a, span, seen, synth).changed ==> ResultIds(Turn(a, span, seen, synth).out) == ResultIds(span)
  {
    hide Calls, Pushes, ResultIds, ScanOrphans, ScanDups, Smooth, SpanAnswered, CallsTwice, NonResults, Answering;
    var calls := Calls(a);
    ScanOrphansZero(span, calls);
    if SpanMatched(calls, span) {
      MatchedIds(calls, span);
      ScanDupsZero(span, calls, seen);
      if SpanFresh(span, seen) {
        PushesQuiet(calls, span, seen, seen, synth);
        SmoothIs(calls, span, seen, synth);
        MixedIff(calls, span, seen);
        TurnResultIds(a, span, seen, synth);
        assert ResultIds(span) == set id | id in CallIds(calls) && Found(id, span, seen);
      }
    }
  }

  lemma {:induction false} MatchedIds(calls: seq<Call>, span: seq<Message>)
    requires SpanMatched(calls, span)
    ensures ResultIds(span) <= CallIds(calls)
  {
    hide CallIds, ResultId;
    forall m | m in span && ResultId(m).Some? ensures ResultId(m).value in CallIds(calls) {
      ResultIdOnlyOfResults(m);
    }
  }

  lemma {:induction false} MixedIff(calls: seq<Call>, span: seq<Message>, seen: set<string>)
    requires SpanMatched(calls, span) && SpanFresh(span, seen)
    ensures (AnyFound(span, CallIds(calls), seen) && NonResults(span) != []) <==> !SpanUnmixed(span)
  {
    hide CallIds, ResultId;
    NonResultsHaveNoId(span);
    NonResultsUniform(span);
    assert AnyFound(span, CallIds(calls), seen) <==> exists m :: m in span && m.ToolResult? by {
      forall m | m in span ensures ResultId(m).Some? ==> m.ToolResult? { ResultIdOnlyOfResults(m); }
      if m :| m in span && m.ToolResult? { assert RId(m) in ResultIds(span); }
    }
    assert NonResults(span) != [] <==> exists m :: m in span && !m.ToolResult? by {
      if NonResults(span) != [] { assert NonResults(span)[0] in NonResults(span); }
      if m :| m in span && !m.ToolResult? { NonResultsCount(span, m); }
    }
  }

  // ----- the walk over spans -----

  lemma {:induction false} ReplyShift(s: seq<Message>, n: nat, a: nat, k: nat)
    requires n <= |s|
    ensures Reply(s, n + a, n + k) <==> Reply(s[n..], a, k)
    ensures Reaches(s, n + a, n + k) <==> Reaches(s[n..], a, k)
  {
    hide Answering, Calls, CallIds, ResultId;
    var t := s[n..];
    assert forall i :: 0 <= i < |t| ==> t[i] == s[n + i];
    if Reaches(t, a, k) {
      forall i | n + a < i <= n + k ensures !s[i].Assistant? { assert s[i] == t[i - n]; }
    }
    if 0 <= a < k < |t| && (forall i :: n + a < i <= n + k ==> !s[i].Assistant?) {
      forall i | a < i <= k ensures !t[i].Assistant? { assert t[i] == s[n + i]; }
    }
  }

  /** The transcript from its `n`-th message on, where a new walk begins. */
  ghost predicate Starts(s: seq<Message>, n: nat)
  {
    0 < n <= |s| &&
    (if Answering(s[0]) then n == 1 + SpanLen(s[1..]) else n == 1)
  }

  /** Replies are those of the first span and those of the rest. */
  lemma {:induction false} ReplySplit(s: seq<Message>, n: nat, a: int, k: int)
    requires Starts(s, n) && Reply(s, a, k)
    ensures (a == 0 && k < n && Answering(s[0])) || (n <= a && Reply(s[n..], a - n, k - n))
  {
    hide Calls, CallIds, ResultId;
    assert forall i :: 1 <= i < n ==> s[i] == s[1..][i - 1];
    if n <= a {
      ReplyShift(s, n, a - n, k - n);
    } else if n < |s| && Answering(s[0]) {
      assert s[n] == s[1..][n - 1];
    }
  }

  lemma {:induction false} FirstReply(s: seq<Message>, n: nat, k: nat)
    requires Starts(s, n) && 0 < k < n
    ensures Reaches(s, 0, k) && Answering(s[0])
    ensures Reply(s, 0, k) <==> IsResult(s[k]) && RId(s[k]) in CallIds(Calls(s[0]))
  {
    hide Calls, CallIds, ResultId;
    assert forall i :: 1 <= i < n ==> s[i] == s[1..][i - 1];
  }

  lemma {:induction false} InFirstSpan(s: seq<Message>, n: nat, m: Message) returns (k: nat)
    requires Starts(s, n) && m in s[1..n]
    ensures 0 < k < n && s[k] == m
  {
    var i :| 0 <= i < |s[1..n]| && s[1..n][i] == m;
    k := i + 1;
  }

  lemma {:induction false} SpanIsReply(s: seq<Message>, a: int, k: int)
    requires 0 <= a < k < |s| && InSpan(s, a, k)
    ensures Reply(s, a, k)
  {
  }

  lemma {:induction false} NoOrphanSplit(s: seq<Message>, n: nat)
    requires Starts(s, n)
    ensures NoOrphan(s) <==> !s[0].ToolResult? && SpanMatched(Calls(s[0]), s[1..n]) && NoOrphan(s[n..])
  {
    hide Answering, Calls, CallIds, ResultId, InSpan;
    var span, rest := s[1..n], s[n..];
    if NoOrphan(s) {
      forall m | m in span && m.ToolResult? ensures IsResult(m) && RId(m) in CallIds(Calls(s[0])) {
        var k := InFirstSpan(s, n, m);
        var a :| 0 <= a < k && InSpan(s, a, k);
        SpanIsReply(s, a, k);
        ReplySplit(s, n, a, k);
        FirstReply(s, n, k);
      }
      forall k | 0 <= k < |rest| && rest[k].ToolResult? ensures exists a :: 0 <= a < k && InSpan(rest, a, k) {
        assert rest[k] == s[n + k];
        var a :| 0 <= a < n + k && InSpan(s, a, n + k);
        SpanIsReply(s, a, n + k);
        ReplySplit(s, n, a, n + k);
        assert Reply(rest, a - n, k);
      }
    }
    if !s[0].ToolResult? && SpanMatched(Calls(s[0]), span) && NoOrphan(rest) {
      forall k | 0 <= k < |s| && s[k].ToolResult? ensures exists a :: 0 <= a < k && InSpan(s, a, k) {
        if k >= n {
          assert rest[k - n] == s[k];
          var a :| 0 <= a < k - n && InSpan(rest, a, k - n);
          SpanIsReply(rest, a, k - n);
          ReplyShift(s, n, a, k - n);
          assert Reply(s, n + a, k);
        } else {
          assert s[k] == span[k - 1];
          FirstReply(s, n, k);
        }
      }
    }
  }

  lemma {:induction false} UnmixedSplit(s: seq<Message>, n: nat)
    requires Starts(s, n) && SpanMatched(Calls(s[0]), s[1..n])
    ensures Unmixed(s) <==> SpanUnmixed(s[1..n]) && Unmixed(s[n..])
  {
    hide Answering, Calls, CallIds, ResultId, InSpan, NoneAfter;
    var span, rest := s[1..n], s[n..];
    if Unmixed(s) {
      if m :| m in span && m.ToolResult? {
        var k := InFirstSpan(s, n, m);
        FirstReply(s, n, k);
        forall x | x in span ensures x.ToolResult? {
          var j := InFirstSpan(s, n, x);
          FirstReply(s, n, j);
        }
      }
      forall a, k, j | Reply(rest, a, k) && Reaches(rest, a, j) ensures rest[j].ToolResult? {
        Bounds(rest, a, k);
        Bounds(rest, a, j);
        ReplyShift(s, n, a, k);
        ReplyShift(s, n, a, j);
        assert rest[j] == s[n + j];
      }
    }
    if SpanUnmixed(span) && Unmixed(rest) {
      forall a, k, j | Reply(s, a, k) && Reaches(s, a, j) ensures s[j].ToolResult? {
        Bounds(s, a, k);
        Bounds(s, a, j);
        ReplySplit(s, n, a, k);
        if a == 0 && k < n {
          ReachesFirst(s, n, j);
          assert s[j] == span[j - 1] && s[k] == span[k - 1];
          FirstReply(s, n, k);
        } else {
          ReplyShift(s, n, a - n, j - n);
          assert s[j] == rest[j - n];
        }
      }
    }
  }

  lemma {:induction false} Bounds(s: seq<Message>, a: int, k: int)
    ensures Reply(s, a, k) ==> 0 <= a < k < |s| && s[k].ToolResult? && IsResult(s[k])
    ensures Reaches(s, a, k) ==> 0 <= a < k < |s|
  {
    hide ResultId, Answering, Calls;
  }

  lemma {:induction false} ReachesFirst(s: seq<Message>, n: nat, j: int)
    requires Starts(s, n) && Answering(s[0]) && Reaches(s, 0, j)
    ensures 0 < j < n
  {
    hide Calls;
    assert n < |s| ==> s[n] == s[1..][n - 1];
  }

  lemma {:induction false} OneSpanSplit(s: seq<Message>, n: nat, seen: set<string>)
    requires Starts(s, n) && NoOrphan(s)
    ensures OneSpan(s) && Fresh(s, seen) <==>
            SpanFresh(s[1..n], seen) && OneSpan(s[n..]) && Fresh(s[n..], seen + ResultIds(s[1..n]))
  {
    hide Answering, Calls, CallIds, ResultId, InSpan;
    var span, rest := s[1..n], s[n..];
    if OneSpan(s) && Fresh(s, seen) {
      forall id | id in ResultIds(span) ensures id !in seen {
        var m :| m in span && ResultId(m).Some? && ResultId(m).value == id;
        ResultIdOnlyOfResults(m);
        var k := InFirstSpan(s, n, m);
      }
      forall a, j, b, k | Reply(rest, a, j) && Reply(rest, b, k) && RId(rest[j]) == RId(rest[k]) ensures a == b {
        Bounds(rest, a, j);
        Bounds(rest, b, k);
        ReplyShift(s, n, a, j);
        ReplyShift(s, n, b, k);
        assert rest[j] == s[n + j] && rest[k] == s[n + k];
        assert Reply(s, n + a, n + j) && Reply(s, n + b, n + k);
      }
      forall k | 0 <= k < |rest| && IsResult(rest[k]) ensures RId(rest[k]) !in seen + ResultIds(span) {
        assert rest[k] == s[n + k];
        NotAnsweredTwice(s, n, k);
      }
    }
    if SpanFresh(span, seen) && OneSpan(rest) && Fresh(rest, seen + ResultIds(span)) {
      forall k | 0 <= k < |s| && IsResult(s[k]) ensures RId(s[k]) !in seen {
        if k < n { assert s[k] == span[k - 1]; } else { assert s[k] == rest[k - n]; }
      }
      forall a, j, b, k | Reply(s, a, j) && Reply(s, b, k) && RId(s[j]) == RId(s[k]) ensures a == b {
        SameOwner(s, n, seen, a, j, b, k);
      }
    }
  }

  lemma {:induction false} NotAnsweredTwice(s: seq<Message>, n: nat, k: nat)
    requires Starts(s, n) && NoOrphan(s) && OneSpan(s)
    requires n + k < |s| && IsResult(s[n + k])
    ensures RId(s[n + k]) !in ResultIds(s[1..n])
  {
    hide Answering, Calls, CallIds, ResultId, InSpan;
    var b :| 0 <= b < n + k && InSpan(s, b, n + k);
    assert Reply(s, b, n + k);
    ReplySplit(s, n, b, n + k);
    forall m | m in s[1..n] && ResultId(m).Some? ensures ResultId(m).value != RId(s[n + k]) {
      ResultIdOnlyOfResults(m);
      var j := InFirstSpan(s, n, m);
      var a :| 0 <= a < j && InSpan(s, a, j);
      assert Reply(s, a, j);
      ReplySplit(s, n, a, j);
    }
  }

  lemma {:induction false} SameOwner(s: seq<Message>, n: nat, seen: set<string>, a: int, j: int, b: int, k: int)
    requires Starts(s, n) && OneSpan(s[n..]) && Fresh(s[n..], seen + ResultIds(s[1..n]))
    requires Reply(s, a, j) && Reply(s, b, k) && RId(s[j]) == RId(s[k])
    ensures a == b
  {
    hide Answering, Calls, CallIds, ResultId, InSpan;
    var span, rest := s[1..n], s[n..];
    Bounds(s, a, j);
    Bounds(s, b, k);
    ReplySplit(s, n, a, j);
    ReplySplit(s, n, b, k);
    if j < n { assert s[j] == span[j - 1] && RId(s[j]) in ResultIds(span); }
    if k < n { assert s[k] == span[k - 1] && RId(s[k]) in ResultIds(span); }
    if n <= j { assert s[j] == rest[j - n]; }
    if n <= k { assert s[k] == rest[k - n]; }
  }

  lemma {:induction false} CalledOnceSplit(s: seq<Message>, n: nat)
    requires Starts(s, n) && SpanMatched(Calls(s[0]), s[1..n])
    ensures CalledOnce(s) <==> SpanCalledOnce(Calls(s[0]), s[1..n]) && CalledOnce(s[n..])
  {
    hide Answering, Calls, CallIds, ResultId, InSpan, CallsTwice;
    var span, rest := s[1..n], s[n..];
    if CalledOnce(s) {
      forall id | id in ResultIds(span) ensures !CallsTwice(Calls(s[0]), id) {
        var m :| m in span && ResultId(m).Some? && ResultId(m).value == id;
        ResultIdOnlyOfResults(m);
        var k := InFirstSpan(s, n, m);
        FirstReply(s, n, k);
      }
      forall a, k | Reply(rest, a, k) ensures !CallsTwice(Calls(rest[a]), RId(rest[k])) {
        Bounds(rest, a, k);
        ReplyShift(s, n, a, k);
        assert rest[k] == s[n + k] && rest[a] == s[n + a];
      }
    }
    if SpanCalledOnce(Calls(s[0]), span) && CalledOnce(rest) {
      forall a, k | Reply(s, a, k) ensures !CallsTwice(Calls(s[a]), RId(s[k])) {
        Bounds(s, a, k);
        ReplySplit(s, n, a, k);
        if a == 0 && k < n {
          assert s[k] == span[k - 1] && RId(s[k]) in ResultIds(span);
        } else {
          assert s[k] == rest[k - n] && s[a] == rest[a - n];
        }
      }
    }
  }

  lemma {:induction false} AnsweredSplit(s: seq<Message>, n: nat)
    requires Starts(s, n) && SpanMatched(Calls(s[0]), s[1..n])
    ensures AllAnswered(s) <==> (Answering(s[0]) ==> SpanAnswered(Calls(s[0]), s[1..n])) && AllAnswered(s[n..])
  {
    hide Answering, Calls, ResultId, InSpan, AnsweredAt;
    var span, rest, calls := s[1..n], s[n..], Calls(s[0]);
    if Answering(s[0]) {
      forall c | c in calls ensures AnsweredAt(s, 0, c.id) <==> c.id in ResultIds(span) { AnsweredFirst(s, n, c.id); }
    }
    forall a, c | 0 <= a < |rest| && Answering(rest[a]) && c in Calls(rest[a])
      ensures AnsweredAt(s, n + a, c.id) <==> AnsweredAt(rest, a, c.id)
    {
      AnsweredShift(s, n, a, c.id);
    }
    if AllAnswered(s) {
      forall a, c | 0 <= a < |rest| && Answering(rest[a]) && c in Calls(rest[a]) ensures AnsweredAt(rest, a, c.id) {
        assert rest[a] == s[n + a];
      }
    }
    if (Answering(s[0]) ==> SpanAnswered(calls, span)) && AllAnswered(rest) {
      forall a, c | 0 <= a < |s| && Answering(s[a]) && c in Calls(s[a]) ensures AnsweredAt(s, a, c.id) {
        if n <= a {
          assert s[a] == rest[a - n];
          AnsweredShift(s, n, a - n, c.id);
        } else {
          OnlyHeadAnswers(s, n, a);
        }
      }
    }
  }

  lemma {:induction false} OnlyHeadAnswers(s: seq<Message>, n: nat, a: nat)
    requires Starts(s, n) && a < n && Answering(s[a])
    ensures a == 0
  {
    hide Calls;
    forall i | 1 <= i < n ensures !s[i].Assistant? { assert s[i] == s[1..][i - 1]; }
  }

  lemma {:induction false} AnsweredFirst(s: seq<Message>, n: nat, id: string)
    requires Starts(s, n) && Answering(s[0]) && SpanMatched(Calls(s[0]), s[1..n])
    ensures AnsweredAt(s, 0, id) <==> id in ResultIds(s[1..n])
  {
    hide Answering, Calls, CallIds, ResultId, InSpan;
    var span := s[1..n];
    if AnsweredAt(s, 0, id) {
      var k :| Reply(s, 0, k) && RId(s[k]) == id;
      Bounds(s, 0, k);
      ReplySplit(s, n, 0, k);
      assert s[k] == span[k - 1];
    }
    if id in ResultIds(span) {
      var m :| m in span && ResultId(m).Some? && ResultId(m).value == id;
      ResultIdOnlyOfResults(m);
      var k := InFirstSpan(s, n, m);
      FirstReply(s, n, k);
      assert Reply(s, 0, k) && RId(s[k]) == id;
    }
  }

  lemma {:induction false} AnsweredShift(s: seq<Message>, n: nat, a: nat, id: string)
    requires Starts(s, n) && n + a < |s|
    ensures AnsweredAt(s, n + a, id) <==> AnsweredAt(s[n..], a, id)
  {
    hide Answering, Calls, CallIds, ResultId, InSpan;
    var rest := s[n..];
    if AnsweredAt(s, n + a, id) {
      var k :| Reply(s, n + a, k) && RId(s[k]) == id;
      Bounds(s, n + a, k);
      ReplyShift(s, n, a, k - n);
      assert rest[k - n] == s[k] && Reply(rest, a, k - n);
    }
    if AnsweredAt(rest, a, id) {
      var k :| Reply(rest, a, k) && RId(rest[k]) == id;
      Bounds(rest, a, k);
      ReplyShift(s, n, a, k);
      assert rest[k] == s[n + k] && Reply(s, n + a, n + k);
    }
  }

  /** One step of the walk: the message at its head and its span are quiet, and so is the rest. */
  lemma {:induction false} QuietSplit(s: seq<Message>, n: nat, seen: set<string>, synth: bool)
    requires Starts(s, n)
    ensures Quiet(s, synth) && Fresh(s, seen) <==>
            (if Answering(s[0]) then QuietSpan(Calls(s[0]), s[1..n], seen, synth) else !s[0].ToolResult?) &&
            Quiet(s[n..], synth) && Fresh(s[n..], seen + ResultIds(s[1..n]))
  {
    hide Answering, Calls, NoOrphan, Unmixed, OneSpan, CalledOnce, AllAnswered, Fresh;
    hide SpanMatched, SpanFresh, SpanUnmixed, SpanCalledOnce, SpanAnswered, ResultIds;
    NoOrphanSplit(s, n);
    AnsweringNotResult(s[0]);
    if NoOrphan(s) {
      UnmixedSplit(s, n);
      OneSpanSplit(s, n, seen);
      CalledOnceSplit(s, n);
      AnsweredSplit(s, n);
    }
    if !Answering(s[0]) {
      assert s[1..n] == [];
      EmptySpan(Calls(s[0]), seen);
    }
  }

  lemma {:induction false} AnsweringNotResult(m: Message)
    ensures Answering(m) ==> !m.ToolResult?
  {
  }

  lemma {:induction false} EmptySpan(calls: seq<Call>, seen: set<string>)
    ensures SpanMatched(calls, []) && SpanFresh([], seen) && SpanUnmixed([]) && SpanCalledOnce(calls, [])
  {
  }

  /** The repair counts no change exactly when the transcript it is given is quiet. */
  lemma {:induction false} UnchangedIffQuiet(s: seq<Message>, seen: set<string>, synth: bool)
    ensures !Repaired(s, seen, synth).changed <==> Quiet(s, synth) && Fresh(s, seen)
    decreases |s|
  {
    hide Repaired, Quiet, Fresh, Answering, Turn, QuietSpan, ResultIds, SpanLen, Calls;
    if s == [] {
      RepairedDone(seen, synth);
      NothingToSay(synth, seen);
    } else {
      var m, rest := s[0], s[1..];
      assert s == [m] + rest;
      RepairedUnfold(m, rest, seen, synth);
      if !Answering(m) {
        QuietSplit(s, 1, seen, synth);
        NothingToSay(synth, seen);
        assert s[1..1] == [] && seen + {} == seen;
        UnchangedIffQuiet(rest, seen, synth);
      } else {
        var n := 1 + SpanLen(rest);
        assert s[1..n] == rest[..n - 1] && s[n..] == rest[n - 1..];
        QuietSplit(s, n, seen, synth);
        TurnQuiet(m, s[1..n], seen, synth);
        var turn := Turn(m, s[1..n], seen, synth);
        if !turn.changed { UnchangedIffQuiet(s[n..], seen + ResultIds(turn.out), synth); }
      }
    }
  }

  lemma {:induction false} NothingToSay(synth: bool, seen: set<string>)
    ensures Quiet([], synth) && Fresh([], seen) && ResultIds([]) == {}
  {
  }

  lemma {:induction false} FreshOfNone(s: seq<Message>)
    ensures Fresh(s, {})
  {
  }

  // ----- the shape of what is handed back -----

  /** Rebuilt or not, the returned list holds no result outside the span of a matching call. */
  lemma {:induction false} ReturnedNoOrphan(s: seq<Message>, synth: bool)
    ensures NoOrphan(Returned(s, synth))
  {
    hide Repaired, NoOrphan, Placed, Distinct, Unmixed, OneSpan, CalledOnce, AllAnswered;
    UnchangedIffQuiet(s, {}, synth);
    if Repaired(s, {}, synth).changed {
      RebuiltShape(s, {}, synth);
      PlacedNoOrphan(Repaired(s, {}, synth).out);
    }
  }

  /** Of two results, the first answers an earlier call than the second. */
  ghost predicate Before(calls: seq<Call>, x: Message, y: Message)
  {
    IsResult(x) && IsResult(y) ==> Pos(calls, RId(x)) < Pos(calls, RId(y))
  }

  /** Two replies in one span stand against the order of their calls, or answer the same one. */
  ghost predicate OutOfOrder(s: seq<Message>)
  {
    exists a, j, k :: j < k && Reply(s, a, j) && Reply(s, a, k) && !Before(Calls(s[a]), s[j], s[k])
  }

  lemma {:induction false} ShapedInOrder(s: seq<Message>)
    requires Placed(s)
    ensures !OutOfOrder(s)
  {
    hide Calls, CallIds, ResultId, Pos;
    forall a, j, k | j < k && Reply(s, a, j) && Reply(s, a, k) ensures Before(Calls(s[a]), s[j], s[k]) {
      var b :| 0 <= b < k && AnswersAt(s, b, k);
      assert a == b;
    }
  }

  /** In a quiet transcript every message between a reply and its call is a reply too. */
  lemma {:induction false} BlockOfReplies(s: seq<Message>, a: int, k: int, j: int)
    requires NoOrphan(s) && Unmixed(s) && Reply(s, a, k) && a < j <= k
    ensures Reply(s, a, j)
  {
    hide Calls, CallIds, ResultId, Answering, Unmixed, NoOrphan, InSpan;
    var b := OwnerOf(s, a, k, j);
    SameAssistant(s, a, k, b, j);
    SpanIsReply(s, b, j);
  }

  lemma {:induction false} OwnerOf(s: seq<Message>, a: int, k: int, j: int) returns (b: int)
    requires NoOrphan(s) && Unmixed(s) && Reply(s, a, k) && a < j <= k
    ensures 0 <= b < j && InSpan(s, b, j)
  {
    hide Calls, CallIds, ResultId, Answering;
    assert Reaches(s, a, j);
    b :| 0 <= b < j && InSpan(s, b, j);
  }

  /** Two spans that reach one message are the same. */
  lemma {:induction false} SameAssistant(s: seq<Message>, a: int, k: int, b: int, j: int)
    requires Reply(s, a, k) && a < j <= k && 0 <= b < j && InSpan(s, b, j)
    ensures a == b
  {
    hide Calls, CallIds, ResultId, Answering;
    AnsweringAssistant(s[a]);
    AnsweringAssistant(s[b]);
  }

  lemma {:induction false} AnsweringAssistant(m: Message)
    ensures Answering(m) ==> m.Assistant?
  {
  }

  lemma {:induction false} QuietInOrderIsShaped(s: seq<Message>, synth: bool)
    requires Quiet(s, synth) && !OutOfOrder(s)
    ensures Placed(s) && Distinct(s)
  {
    hide Calls, CallIds, ResultId, Answering, Pos, Unmixed, CalledOnce, AllAnswered;
    forall k | 0 <= k < |s| && s[k].ToolResult? ensures exists a :: 0 <= a < k && AnswersAt(s, a, k) {
      var a :| 0 <= a < k && InSpan(s, a, k);
      assert Reply(s, a, k);
      forall j | a < j <= k ensures Reply(s, a, j) { BlockOfReplies(s, a, k, j); }
      assert AnswersAt(s, a, k);
    }
    forall j, k | 0 <= j < k < |s| && IsResult(s[j]) && IsResult(s[k]) ensures RId(s[j]) != RId(s[k]) {
      var a :| 0 <= a < j && InSpan(s, a, j);
      var b :| 0 <= b < k && InSpan(s, b, k);
      assert Reply(s, a, j) && Reply(s, b, k);
    }
  }

  /**
    The returned list lacks the shape of the rebuilt one if and only if the transcript was quiet and, in some
    span, a result stands against the order of the calls or repeats another.
  */
  lemma {:induction false} ReturnedShapedIff(s: seq<Message>, synth: bool)
    ensures !Repaired(s, {}, synth).changed <==> Quiet(s, synth)
    ensures !(Placed(Returned(s, synth)) && Distinct(Returned(s, synth))) <==> Quiet(s, synth) && OutOfOrder(s)
  {
    hide Repaired, Placed, Distinct, Quiet, OutOfOrder;
    UnchangedIffQuiet(s, {}, synth);
    FreshOfNone(s);
    if Quiet(s, synth) {
      if Placed(s) { ShapedInOrder(s); }
      if !OutOfOrder(s) { QuietInOrderIsShaped(s, synth); }
    } else {
      RebuiltShape(s, {}, synth);
    }
  }

  lemma {:induction false} PairStays(a: Message, r: Message, r': Message, synth: bool)
    requires Answering(a) && IsResult(r) && IsResult(r') && QuietSpan(Calls(a), [r, r'], {}, synth)
    ensures Quiet([a, r, r'], synth) && Returned([a, r, r'], synth) == [a, r, r']
  {
    hide Answering, Calls, Quiet, QuietSpan, Repaired, Fresh, ResultIds;
    var s := [a, r, r'];
    assert s[1..] == [r, r'] && s[1..][1..] == [r'] && s[1..][1..][1..] == [] && SpanLen(s[1..]) == 2;
    assert s[1..3] == [r, r'] && s[3..] == [];
    QuietSplit(s, 3, {}, synth);
    NothingToSay(synth, {} + ResultIds([r, r']));
    UnchangedIffQuiet(s, {}, synth);
  }

  /** A repeated result inside a span is not counted as a change: it stays in the returned list. */
  lemma {:induction false} InSpanRepeatStays(a: Message, r: Message, r': Message, synth: bool)
    requires Answering(a) && |Calls(a)| == 1 && IsResult(r) && IsResult(r')
    requires RId(r) == RId(r') == Calls(a)[0].id
    ensures Returned([a, r, r'], synth) == [a, r, r'] && !Distinct([a, r, r'])
  {
    hide Answering, Calls, ResultId;
    assert Calls(a)[0] in Calls(a) && r in [r, r'] && RId(r) in ResultIds([r, r']);
    PairStays(a, r, r', synth);
    assert IsResult([a, r, r'][1]) && IsResult([a, r, r'][2]);
  }

  /** Nor is a reordering: the second call's result stays in front of the first's. */
  lemma {:induction false} InSpanReorderStays(a: Message, r: Message, r': Message, synth: bool)
    requires Answering(a) && |Calls(a)| == 2 && Calls(a)[0].id != Calls(a)[1].id && IsResult(r) && IsResult(r')
    requires RId(r) == Calls(a)[1].id && RId(r') == Calls(a)[0].id
    ensures Returned([a, r, r'], synth) == [a, r, r'] && !Placed([a, r, r'])
  {
    hide Answering, ResultId, Calls;
    var s, calls := [a, r, r'], Calls(a);
    assert calls[0] in calls && calls[1] in calls;
    assert r in [r, r'] && r' in [r, r'] && RId(r) in ResultIds([r, r']) && RId(r') in ResultIds([r, r']);
    PairStays(a, r, r', synth);
    assert Pos(calls, RId(r)) == 1 && Pos(calls, RId(r')) == 0;
    AnsweringAssistant(a);
    assert Reply(s, 0, 1) && Reply(s, 0, 2);
    assert OutOfOrder(s);
    if Placed(s) { ShapedInOrder(s); }
  }
}
