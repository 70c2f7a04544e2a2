/** The mail client's socket reader. */
module MailReader {
  import opened Text

  /*
    Bytes arrive in chunks of any size; `readLine` and `readBytes` must give what reading the whole stream at
    once would.  Bytes are modelled as characters.
  */

  datatype Event = Data(bytes: string) | End | Error

  /**
    The reader and what is still to come: each batch of `script` holds the events that arrive before a waiting
    read resumes.  An empty batch, or none, is a wait that times out.
  */
  datatype Sock = Sock(buffer: string, ended: bool, failed: bool, script: seq<seq<Event>>)

  datatype Result = Got(bytes: string) | Closed | Broken | Quiet

  function Deliver(s: Sock, batch: seq<Event>): Sock
    decreases |batch|
  {
    if batch == [] then s else
    Deliver(match batch[0]
            case Data(b) => s.(buffer := s.buffer + b)
            case End => s.(ended := true)
            case Error => s.(failed := true, ended := true),
            batch[1..])
  }

  /** Takes the next batch. */
  function Arrived(s: Sock): Sock
  {
    if s.script == [] then s else Deliver(s.(script := s.script[1..]), s.script[0])
  }

  predicate TimesOut(s: Sock)
  {
    s.script == [] || s.script[0] == []
  }

  /** One operation of a client; during `Pause` a batch arrives with no read waiting. */
  datatype Op = Line | Bytes(need: nat) | Pause

  /** The answer to an operation that need not wait. */
  function AtOnce(op: Op, s: Sock): Option<(Sock, Result)>
  {
    match op
    case Pause => Some((Arrived(s), Quiet))
    case Bytes(need) =>
      if |s.buffer| >= need then Some((s.(buffer := s.buffer[need..]), Got(s.buffer[..need])))
      else if s.failed then Some((s, Broken))
      else if s.ended then Some((s, Closed))
      else None
    case Line =>
      var i := IndexOf(s.buffer, CRLF, 0);
      if i >= 0 then Some((s.(buffer := s.buffer[i + 2..]), Got(s.buffer[..i])))
      else if s.failed then Some((s, Broken))
      else if s.ended then Some(if s.buffer == "" then (s, Closed) else (s.(buffer := ""), Got(s.buffer)))
      else None
  }

  function Do(op: Op, s: Sock): (Sock, Result)
    decreases |s.script|
  {
    var r := AtOnce(op, s);
    if r.Some? then r.value
    else if TimesOut(s) then (Arrived(s), Broken)
    else
      DeliverScript(s.(script := s.script[1..]), s.script[0]);
      if Arrived(s).failed then (Arrived(s), Broken) else Do(op, Arrived(s))
  }

  lemma {:induction false} DeliverScript(s: Sock, batch: seq<Event>)
    ensures Deliver(s, batch).script == s.script
    decreases |batch|
  {
    if batch != [] {
      var s1 := match batch[0]
                case Data(b) => s.(buffer := s.buffer + b)
                case End => s.(ended := true)
                case Error => s.(failed := true, ended := true);
      DeliverScript(s1, batch[1..]);
    }
  }

  // ----- the reader object -----

  class BufferedSocket {
    var buffer: string
    var ended: bool
    var failed: bool
    var script: seq<seq<Event>>

    function State(): Sock
      reads this
    {
      Sock(buffer, ended, failed, script)
    }

    constructor (script: seq<seq<Event>>)
      ensures State() == Sock("", false, false, script)
    {
      buffer, ended, failed, this.script := "", false, false, script;
    }

    /** The socket's event callbacks, run on one batch. */
    method Receive()
      modifies this
      ensures State() == Arrived(old(State()))
    {
      if script == [] { return; }
      var batch := script[0];
      script := script[1..];
      assert batch[0..] == batch;
      for k := 0 to |batch|
        invariant script == old(script)[1..]
        invariant Deliver(old(State()).(script := old(script)[1..]), batch) == Deliver(State(), batch[k..])
      {
        assert batch[k..][0] == batch[k] && batch[k..][1..] == batch[k + 1..];
        match batch[k]
        case Data(b) => buffer := if |buffer| > 0 then buffer + b else b; assert "" + b == b;
        case End => ended := true;
        case Error => failed, ended := true, true;
      }
    }

    method WaitForData(minBufferLength: nat) returns (ok: bool)
      modifies this
      ensures |old(buffer)| >= minBufferLength || old(ended) || old(failed) ==> ok && State() == old(State())
      ensures !(|old(buffer)| >= minBufferLength || old(ended) || old(failed)) ==>
                State() == Arrived(old(State())) && (ok <==> !TimesOut(old(State())) && !failed)
    {
      if |buffer| >= minBufferLength || ended || failed { return true; }
      var timeout := script == [] || script[0] == [];
      Receive();
      ok := !timeout && !failed;
    }

    method ReadLine() returns (r: Result)
      modifies this
      ensures (State(), r) == Do(Line, old(State()))
    {
      hide Deliver;
      while true
        invariant Do(Line, old(State())) == Do(Line, State())
        decreases |script|
      {
        var idx := IndexOf(buffer, CRLF, 0);
        if idx >= 0 {
          r := Got(buffer[..idx]);
          buffer := buffer[idx + 2..];
          return;
        }
        if failed { return Broken; }
        if ended {
          if |buffer| == 0 { return Closed; }
          r := Got(buffer);
          buffer := "";
          return;
        }
        ghost var was := State();
        var ok := WaitForData(|buffer| + 1);
        if was.script != [] { DeliverScript(was.(script := was.script[1..]), was.script[0]); }
        if !ok { return Broken; }
      }
    }

    method ReadBytes(need: nat) returns (r: Result)
      modifies this
      ensures (State(), r) == Do(Bytes(need), old(State()))
    {
      hide Deliver;
      while |buffer| < need
        invariant Do(Bytes(need), old(State())) == Do(Bytes(need), State())
        decreases |script|
      {
        if failed { return Broken; }
        if ended { return Closed; }
        ghost var was := State();
        var ok := WaitForData(need);
        if was.script != [] { DeliverScript(was.(script := was.script[1..]), was.script[0]); }
        if !ok { return Broken; }
      }
      r := Got(buffer[..need]);
      buffer := buffer[need..];
    }
  }

  // ----- the unchunked stream -----

  function BatchData(batch: seq<Event>): string
  {
    if batch == [] then ""
    else (if batch[0].Data? then batch[0].bytes else "") + BatchData(batch[1..])
  }

  function ScriptData(script: seq<seq<Event>>): string
  {
    if script == [] then "" else BatchData(script[0]) + ScriptData(script[1..])
  }

  /** Everything not yet read, arrived or not. */
  function Remaining(s: Sock): string
  {
    s.buffer + ScriptData(s.script)
  }

  /** The same reads on a stream that is there at once. */
  function RefRead(op: Op, rest: string): (string, Result)
  {
    match op
    case Pause => (rest, Quiet)
    case Bytes(need) => if |rest| >= need then (rest[need..], Got(rest[..need])) else (rest, Closed)
    case Line =>
      var i := IndexOf(rest, CRLF, 0);
      if i >= 0 then (rest[i + 2..], Got(rest[..i]))
      else if rest == "" then (rest, Closed)
      else ("", Got(rest))
  }

  predicate Ends(e: Event)
  {
    e.End? || e.Error?
  }

  predicate BatchEnds(batch: seq<Event>)
  {
    batch != [] && (Ends(batch[0]) || BatchEnds(batch[1..]))
  }

  /** No data after the end of the stream. */
  predicate BatchOrdered(ended: bool, batch: seq<Event>)
    decreases |batch|
  {
    batch == [] || ((ended ==> !batch[0].Data?) && BatchOrdered(ended || Ends(batch[0]), batch[1..]))
  }

  predicate ScriptOrdered(ended: bool, script: seq<seq<Event>>)
    decreases |script|
  {
    script == [] || (BatchOrdered(ended, script[0]) && ScriptOrdered(ended || BatchEnds(script[0]), script[1..]))
  }

  predicate Valid(s: Sock)
  {
    (s.failed ==> s.ended) && ScriptOrdered(s.ended, s.script)
  }

  lemma {:induction false} DeliverFacts(s: Sock, batch: seq<Event>)
    requires (s.failed ==> s.ended) && BatchOrdered(s.ended, batch)
    ensures var d := Deliver(s, batch);
            d.buffer == s.buffer + BatchData(batch) && d.ended == (s.ended || BatchEnds(batch)) &&
            (d.failed ==> d.ended) && d.script == s.script && (Error !in batch ==> d.failed == s.failed)
    decreases |batch|
  {
    if batch == [] {
      assert s.buffer + "" == s.buffer;
    } else {
      var s1 := match batch[0]
                case Data(b) => s.(buffer := s.buffer + b)
                case End => s.(ended := true)
                case Error => s.(failed := true, ended := true);
      DeliverFacts(s1, batch[1..]);
      var b := if batch[0].Data? then batch[0].bytes else "";
      assert s.buffer + (b + BatchData(batch[1..])) == (s.buffer + b) + BatchData(batch[1..]);
      assert s.buffer + "" == s.buffer;
    }
  }

  /** A batch moves bytes from what is to come into the buffer. */
  lemma {:induction false} ArrivedFacts(s: Sock)
    requires Valid(s)
    ensures Valid(Arrived(s)) && Remaining(Arrived(s)) == Remaining(s)
    ensures Arrived(s).script == if s.script == [] then [] else s.script[1..]
    ensures s.script != [] ==> Arrived(s).buffer == s.buffer + BatchData(s.script[0])
    ensures s.script != [] && Error !in s.script[0] ==> Arrived(s).failed == s.failed
    ensures s.script != [] ==> Arrived(s).ended == (s.ended || BatchEnds(s.script[0]))
  {
    hide Deliver, BatchData, BatchEnds, BatchOrdered;
    if s.script != [] {
      DeliverFacts(s.(script := s.script[1..]), s.script[0]);
      assert (s.buffer + BatchData(s.script[0])) + ScriptData(s.script[1..]) ==
             s.buffer + (BatchData(s.script[0]) + ScriptData(s.script[1..]));
    }
  }

  lemma {:induction false} EndedBatch(batch: seq<Event>)
    requires BatchOrdered(true, batch)
    ensures BatchData(batch) == ""
    decreases |batch|
  {
    if batch != [] { EndedBatch(batch[1..]); }
  }

  lemma {:induction false} EndedScript(script: seq<seq<Event>>)
    requires ScriptOrdered(true, script)
    ensures ScriptData(script) == ""
    decreases |script|
  {
    if script != [] {
      EndedBatch(script[0]);
      EndedScript(script[1..]);
    }
  }

  lemma {:induction false} EndedRemaining(s: Sock)
    requires Valid(s) && s.ended
    ensures Remaining(s) == s.buffer
  {
    EndedScript(s.script);
  }

  /** What one operation owes the unchunked stream: the same answer, or a broken wait that takes nothing. */
  predicate Refines(op: Op, rest: string, s': Sock, r: Result)
  {
    Valid(s') && if r.Broken? then Remaining(s') == rest else (Remaining(s'), r) == RefRead(op, rest)
  }

  lemma {:induction false} AtOnceRefines(op: Op, s: Sock)
    requires Valid(s) && AtOnce(op, s).Some?
    ensures Refines(op, Remaining(s), AtOnce(op, s).value.0, AtOnce(op, s).value.1)
  {
    hide Arrived, ScriptData, ScriptOrdered, IndexOf;
    if s.ended { EndedRemaining(s); }
    match op
    case Pause =>
      ArrivedFacts(s);
    case Bytes(need) =>
      if |s.buffer| >= need {
        assert Remaining(s)[need..] == s.buffer[need..] + ScriptData(s.script);
        assert Remaining(s)[..need] == s.buffer[..need];
      }
    case Line =>
      var i := IndexOf(s.buffer, CRLF, 0);
      if i >= 0 {
        IndexOfPrefix(s.buffer, ScriptData(s.script), CRLF, 0);
        assert Remaining(s)[i + 2..] == s.buffer[i + 2..] + ScriptData(s.script);
        assert Remaining(s)[..i] == s.buffer[..i];
      } else if s.ended && s.buffer != "" {
        EndedRemaining(s.(buffer := ""));
      }
  }

  /** Every operation refines the unchunked stream, whatever the chunking. */
  lemma {:induction false} OpRefines(op: Op, s: Sock)
    requires Valid(s)
    ensures Refines(op, Remaining(s), Do(op, s).0, Do(op, s).1)
    decreases |s.script|
  {
    hide Arrived, Remaining, Valid, AtOnce;
    if AtOnce(op, s).Some? {
      AtOnceRefines(op, s);
    } else {
      ArrivedFacts(s);
      if !TimesOut(s) && !Arrived(s).failed { OpRefines(op, Arrived(s)); }
    }
  }

  // ----- whole runs -----

  function Results(s: Sock, ops: seq<Op>): seq<Result>
    decreases |ops|
  {
    if ops == [] then [] else
    var (s', r) := Do(ops[0], s);
    [r] + Results(s', ops[1..])
  }

  function Final(s: Sock, ops: seq<Op>): Sock
    decreases |ops|
  {
    if ops == [] then s else Final(Do(ops[0], s).0, ops[1..])
  }

  /** The reads of a run on the unchunked stream, leaving out those that broke. */
  function RefResults(rest: string, ops: seq<Op>, broke: seq<bool>): seq<Result>
    requires |broke| == |ops|
    decreases |ops|
  {
    if ops == [] then []
    else if broke[0] then [Broken] + RefResults(rest, ops[1..], broke[1..])
    else
      var (rest', r) := RefRead(ops[0], rest);
      [r] + RefResults(rest', ops[1..], broke[1..])
  }

  function BrokeAt(results: seq<Result>): (b: seq<bool>)
    ensures |b| == |results|
  {
    if results == [] then [] else [results[0].Broken?] + BrokeAt(results[1..])
  }

  lemma {:induction false} ResultsLength(s: Sock, ops: seq<Op>)
    ensures |Results(s, ops)| == |ops|
    decreases |ops|
  {
    hide Do;
    if ops != [] { ResultsLength(Do(ops[0], s).0, ops[1..]); }
  }

  /** For every chunking and every run: the reads that did not break give what the unchunked stream gives. */
  lemma {:induction false} RunRefines(s: Sock, ops: seq<Op>)
    requires Valid(s)
    ensures |Results(s, ops)| == |ops|
    ensures Results(s, ops) == RefResults(Remaining(s), ops, BrokeAt(Results(s, ops)))
    decreases |ops|
  {
    hide Do, RefRead, Remaining, Valid;
    ResultsLength(s, ops);
    if ops != [] {
      var (s', r) := Do(ops[0], s);
      var more := Results(s', ops[1..]);
      OpRefines(ops[0], s);
      RunRefines(s', ops[1..]);
      assert ([r] + more)[1..] == more;
      var b := BrokeAt([r] + more);
      assert b[0] == r.Broken? && b[1..] == BrokeAt(more);
    }
  }

  // ----- a clean network never breaks a read -----

  /** Every wait is answered, nothing errs, and the stream ends. */
  predicate Clean(ended: bool, script: seq<seq<Event>>)
    decreases |script|
  {
    ended || (script != [] && script[0] != [] && Error !in script[0] && Clean(BatchEnds(script[0]), script[1..]))
  }

  predicate CleanSock(s: Sock)
  {
    !s.failed && Clean(s.ended, s.script) && forall k :: 0 <= k < |s.script| ==> Error !in s.script[k]
  }

  lemma {:induction false} ArrivedClean(s: Sock)
    requires Valid(s) && CleanSock(s)
    ensures CleanSock(Arrived(s)) && (s.ended || !TimesOut(s))
  {
    hide Deliver, ScriptOrdered, BatchEnds;
    ArrivedFacts(s);
    assert s.script != [] ==> Error !in s.script[0];
  }

  lemma {:induction false} OpClean(op: Op, s: Sock)
    requires Valid(s) && CleanSock(s)
    ensures !Do(op, s).1.Broken? && CleanSock(Do(op, s).0)
    decreases |s.script|
  {
    hide Arrived, Valid, IndexOf;
    ArrivedClean(s);
    if AtOnce(op, s).None? {
      ArrivedFacts(s);
      OpClean(op, Arrived(s));
    }
  }

  lemma {:induction false} RunClean(s: Sock, ops: seq<Op>)
    requires Valid(s) && CleanSock(s)
    ensures forall k :: 0 <= k < |Results(s, ops)| ==> !Results(s, ops)[k].Broken?
    decreases |ops|
  {
    hide Do, Valid, CleanSock, Remaining;
    if ops != [] {
      OpRefines(ops[0], s);
      OpClean(ops[0], s);
      RunClean(Do(ops[0], s).0, ops[1..]);
    }
  }

  lemma {:induction false} BrokeNowhere(results: seq<Result>)
    requires forall k :: 0 <= k < |results| ==> !results[k].Broken?
    ensures BrokeAt(results) == seq(|results|, _ => false)
    decreases |results|
  {
    if results != [] { BrokeNowhere(results[1..]); }
  }

  /** Two clean networks that carry the same bytes are indistinguishable, however they chunk them. */
  lemma {:induction false} ChunkingInvisible(a: Sock, b: Sock, ops: seq<Op>)
    requires Valid(a) && CleanSock(a) && Valid(b) && CleanSock(b) && Remaining(a) == Remaining(b)
    ensures Results(a, ops) == Results(b, ops)
  {
    hide Valid, CleanSock, Remaining;
    RunRefines(a, ops);
    RunRefines(b, ops);
    RunClean(a, ops);
    RunClean(b, ops);
    BrokeNowhere(Results(a, ops));
    BrokeNowhere(Results(b, ops));
  }

  // ----- conservation -----

  /** Bytes an answer took off the stream; a line takes its line break too, unless it is what was left at the end. */
  function Taken(op: Op, rest: string, r: Result): string
  {
    match r
    case Got(b) => if op.Line? && MatchesAt(rest, CRLF, |b|) then b + CRLF else b
    case _ => ""
  }

  lemma {:induction false} RefConserves(op: Op, rest: string)
    ensures var (rest', r) := RefRead(op, rest); Taken(op, rest, r) + rest' == rest
  {
    if op.Line? {
      var i := IndexOf(rest, CRLF, 0);
      if i >= 0 {
        assert rest[..i] + CRLF + rest[i + 2..] == rest by { assert rest[i..i + 2] == CRLF; }
      }
    }
  }

  lemma {:induction false} ScriptDataSplit(script: seq<seq<Event>>, n: nat)
    requires n <= |script|
    ensures ScriptData(script) == ScriptData(script[..n]) + ScriptData(script[n..])
    decreases n
  {
    hide BatchData;
    if n == 0 {
      assert script[0..] == script;
    } else {
      ScriptDataSplit(script[1..], n - 1);
      assert script[..n][0] == script[0] && script[..n][1..] == script[1..][..n - 1] && script[1..][n - 1..] ==
          script[n..];
      var h := BatchData(script[0]);
      assert h + (ScriptData(script[..n][1..]) + ScriptData(script[n..])) ==
          (h + ScriptData(script[..n][1..])) + ScriptData(script[n..]);
    }
  }

  predicate SuffixScript(s: Sock, s': Sock)
  {
    |s'.script| <= |s.script| && s'.script == s.script[|s.script| - |s'.script|..]
  }

  lemma {:induction false} OpScript(op: Op, s: Sock)
    requires Valid(s)
    ensures SuffixScript(s, Do(op, s).0)
    decreases |s.script|
  {
    hide Arrived, Valid, IndexOf;
    ArrivedFacts(s);
    if AtOnce(op, s).None? && !TimesOut(s) && !Arrived(s).failed { OpScript(op, Arrived(s)); }
  }

  /** Bytes taken plus bytes buffered are the bytes received. */
  lemma {:induction false} OpConserves(op: Op, s: Sock)
    requires Valid(s)
    ensures var (s', r) := Do(op, s);
            SuffixScript(s, s') && Taken(op, Remaining(s), r) + s'.buffer == s.buffer + Received(s, s')
  {
    hide Do, Taken, ScriptData, RefRead, Valid;
    var (s', r) := Do(op, s);
    var n := |s.script| - |s'.script|;
    OpScript(op, s);
    OpRefines(op, s);
    RefConserves(op, Remaining(s));
    ScriptDataSplit(s.script, n);
    TakenBroken(op, Remaining(s), r);
    var t, early, late := Taken(op, Remaining(s), r), ScriptData(s.script[..n]), ScriptData(s'.script);
    assert t + Remaining(s') == Remaining(s);
    assert (t + s'.buffer) + late == t + (s'.buffer + late);
    assert (s.buffer + early) + late == s.buffer + (early + late);
    CancelRight(t + s'.buffer, s.buffer + early, late);
  }

  /** Everything a run took off the stream. */
  function AllTaken(s: Sock, ops: seq<Op>): string
    decreases |ops|
  {
    if ops == [] then "" else
    var (s', r) := Do(ops[0], s);
    Taken(ops[0], Remaining(s), r) + AllTaken(s', ops[1..])
  }

  /** Bytes that arrived between two states of a reader. */
  function Received(s: Sock, s': Sock): string
    requires SuffixScript(s, s')
  {
    ScriptData(s.script[..|s.script| - |s'.script|])
  }

  lemma {:induction false} ReceivedChain(s: Sock, s': Sock, f: Sock)
    requires SuffixScript(s, s') && SuffixScript(s', f)
    ensures SuffixScript(s, f) && Received(s, f) == Received(s, s') + Received(s', f)
  {
    hide ScriptData;
    var n, m := |s.script| - |s'.script|, |s.script| - |f.script|;
    DropDrop(s.script, n, m);
    ScriptDataSplit(s.script[..m], n);
  }

  lemma {:induction false} DropDrop(x: seq<seq<Event>>, n: nat, m: nat)
    requires n <= m <= |x|
    ensures x[n..][m - n..] == x[m..] && x[..m][..n] == x[..n] && x[..m][n..] == x[n..][..m - n]
  {
  }

  lemma {:induction false} NothingReceived(s: Sock)
    ensures SuffixScript(s, s) && Received(s, s) == ""
  {
    assert s.script[..0] == [];
  }

  /** Over every run: bytes taken plus bytes buffered at the end are the bytes received. */
  lemma {:induction false} RunConserves(s: Sock, ops: seq<Op>)
    requires Valid(s)
    ensures SuffixScript(s, Final(s, ops))
    ensures AllTaken(s, ops) + Final(s, ops).buffer == s.buffer + Received(s, Final(s, ops))
    decreases |ops|
  {
    hide Do, Taken, Remaining, Received, Valid, SuffixScript;
    if ops == [] {
      NothingReceived(s);
      assert "" + s.buffer == s.buffer + "";
    } else {
      var (s', r) := Do(ops[0], s);
      var f := Final(s', ops[1..]);
      OpConserves(ops[0], s);
      OpScript(ops[0], s);
      OpRefines(ops[0], s);
      RunConserves(s', ops[1..]);
      ReceivedChain(s, s', f);
      Regroup(Taken(ops[0], Remaining(s), r), AllTaken(s', ops[1..]), f.buffer, s'.buffer, s.buffer,
          Received(s, s'), Received(s', f));
    }
  }

  lemma {:induction false} Regroup(t: string, t': string, last: string, mid: string, first: string, early: string,
      late: string)
    requires t + mid == first + early && t' + last == mid + late
    ensures (t + t') + last == first + (early + late)
  {
    assert (t + t') + last == t + (t' + last);
    assert t + (mid + late) == (t + mid) + late;
    assert (first + early) + late == first + (early + late);
  }

  lemma {:induction false} TakenBroken(op: Op, rest: string, r: Result)
    ensures r.Broken? ==> Taken(op, rest, r) == ""
  {
  }

  lemma {:induction false} CancelRight(a: string, b: string, c: string)
    requires a + c == b + c
    ensures a == b
  {
    assert |a| == |b|;
    assert a == (a + c)[..|a|] && b == (b + c)[..|b|];
  }

  // ----- when a read is answered, and when it breaks -----

  /** The buffer holds all that the read asks for. */
  ghost predicate Enough(op: Op, buffer: string)
  {
    match op
    case Line => exists i :: MatchesAt(buffer, CRLF, i)
    case Bytes(need) => |buffer| >= need
    case Pause => true
  }

  /** What a read with enough in the buffer takes: the text before the first line break, or as much as it asks for. */
  ghost predicate Takes(op: Op, buffer: string, left: string, got: string)
  {
    match op
    case Line => buffer == got + (CRLF + left) && forall i :: 0 <= i < |got| ==> !MatchesAt(buffer, CRLF, i)
    case Bytes(need) => buffer == got + left && |got| == need
    case Pause => false
  }

  /**
    A read is answered from the buffer if that holds enough, whatever else has happened.  If not, it breaks at once on
    a failed connection, and breaks when nothing arrives in time; in both cases the buffer stays.
  */
  lemma {:induction false} ReadsAndBreaks(op: Op, s: Sock)
    requires !op.Pause?
    ensures var (s', r) := Do(op, s);
            && (Enough(op, s.buffer) ==>
                  r.Got? && s' == s.(buffer := s'.buffer) && Takes(op, s.buffer, s'.buffer, r.bytes))
            && (!Enough(op, s.buffer) && s.failed ==> r == Broken && s' == s)
            && (!Enough(op, s.buffer) && !s.ended && !s.failed && (s.script == [] || s.script[0] == []) ==>
                  r == Broken && s'.buffer == s.buffer)
  {
    hide IndexOf, MatchesAt, Takes, Enough;
    if op.Line? {
      EnoughIff(s.buffer);
      var i := IndexOf(s.buffer, CRLF, 0);
      if i >= 0 { LineCut(s.buffer, i); }
    } else {
      BytesCut(s.buffer, op.need);
    }
  }

  lemma {:induction false} BytesCut(buffer: string, need: nat)
    ensures Enough(Bytes(need), buffer) <==> |buffer| >= need
    ensures |buffer| >= need ==> Takes(Bytes(need), buffer, buffer[need..], buffer[..need])
  {
  }

  lemma {:induction false} EnoughIff(buffer: string)
    ensures Enough(Line, buffer) <==> IndexOf(buffer, CRLF, 0) >= 0
  {
    if i :| MatchesAt(buffer, CRLF, i) { assert 0 <= i; }
  }

  lemma {:induction false} LineCut(buffer: string, i: nat)
    requires i == IndexOf(buffer, CRLF, 0)
    ensures i + 2 <= |buffer| && Takes(Line, buffer, buffer[i + 2..], buffer[..i])
  {
    assert buffer[i..i + 2] == CRLF;
    assert buffer == buffer[..i] + (buffer[i..i + 2] + buffer[i + 2..]);
  }

  /** An ended stream gives what is left as a last line, and then is closed; a short count is closed at once. */
  lemma {:induction false} ReadsAtEnd(op: Op, s: Sock)
    requires !op.Pause? && !Enough(op, s.buffer) && s.ended && !s.failed
    ensures var (s', r) := Do(op, s);
            if op.Line? && s.buffer != "" then r == Got(s.buffer) && s' == s.(buffer := "") else r == Closed && s' == s
  {
    if op.Line? { EnoughIff(s.buffer); }
  }
}
