/** Output of a background process. */
module OutputBuffers {
  import opened Text

  /*
    Two capped queues of pending chunks, drained by the reader, and one capped aggregate.  The chunk queues
    with their counters refine "the last characters since the last drain".
  */

  const DEFAULT_PENDING_OUTPUT_CHARS: nat := 30_000
  const TAIL_CHARS: nat := 2000

  datatype Stream = Stdout | Stderr

  datatype Event = Append(stream: Stream, chunk: string) | Drain

  function Flat(buffer: seq<string>): string
  {
    if buffer == [] then "" else buffer[0] + Flat(buffer[1..])
  }

  lemma {:induction false} FlatAppend(buffer: seq<string>, chunk: string)
    ensures Flat(buffer + [chunk]) == Flat(buffer) + chunk
    decreases |buffer|
  {
    if buffer == [] {
      assert [chunk][1..] == [] && [] + [chunk] == [chunk];
      assert chunk + "" == "" + chunk;
    } else {
      assert (buffer + [chunk])[0] == buffer[0] && (buffer + [chunk])[1..] == buffer[1..] + [chunk];
      FlatAppend(buffer[1..], chunk);
    }
  }

  lemma {:induction false} LastNCases(x: string, y: string, n: nat)
    ensures |y| <= n ==> LastN(y, n) == y
    ensures |y| >= n ==> LastN(y, n) == y[|y| - n..] && LastN(x + y, n) == LastN(y, n)
  {
  }

  /** Keeping the last characters as they come is keeping the last characters of the whole. */
  lemma {:induction false} LastNAppend(x: string, y: string, n: nat)
    ensures LastN(LastN(x, n) + y, n) == LastN(x + y, n)
  {
    if |x| > n && |y| <= n {
      assert LastN(x, n) + y == (x + y)[|x| - n..];
      assert LastN(x + y, n) == (x + y)[|x| + |y| - n..];
    } else if |y| > n {
      LastNCases(x, y, n);
      LastNCases(LastN(x, n), y, n);
    }
  }

  /** Queues one chunk under the cap. */
  method Enqueue(chunks: seq<string>, chars: nat, chunk: string, cap: nat)
    returns (buffer: seq<string>, pendingChars: nat, cut: bool)
    requires chars == |Flat(chunks)|
    ensures Flat(buffer) == LastN(Flat(chunks) + chunk, cap) && pendingChars == |Flat(buffer)|
    ensures cut <==> |Flat(chunks)| + |chunk| > cap
  {
    FlatAppend(chunks, chunk);
    buffer, pendingChars, cut := chunks + [chunk], chars + |chunk|, false;
    if pendingChars > cap {
      cut := true;
      buffer, pendingChars := CapPendingBuffer(buffer, pendingChars, cap);
    }
  }

  /** Drops whole chunks from the front, then the front of the first one left. */
  method CapPendingBuffer(chunks: seq<string>, chars: nat, cap: nat) returns (buffer: seq<string>, pendingChars: nat)
    requires chars == |Flat(chunks)|
    ensures Flat(buffer) == LastN(Flat(chunks), cap)
    ensures pendingChars == |Flat(buffer)|
    ensures chars > cap ==> pendingChars == cap
  {
    hide LastN;
    buffer, pendingChars := chunks, chars;
    if pendingChars <= cap { LastNCases("", Flat(chunks), cap); return; }
    if buffer != [] && buffer[|buffer| - 1] != "" && |buffer[|buffer| - 1]| >= cap {
      var last := buffer[|buffer| - 1];
      assert buffer == buffer[..|buffer| - 1] + [last];
      FlatAppend(buffer[..|buffer| - 1], last);
      LastNCases(Flat(buffer[..|buffer| - 1]), last, cap);
      FlatOne(last[|last| - cap..]);
      return [last[|last| - cap..]], cap;
    }
    while buffer != [] && pendingChars - |buffer[0]| >= cap
      invariant cap <= pendingChars == |Flat(buffer)|
      invariant LastN(Flat(buffer), cap) == LastN(Flat(chunks), cap)
      decreases |buffer|
    {
      LastNCases(buffer[0], Flat(buffer[1..]), cap);
      pendingChars := pendingChars - |buffer[0]|;
      buffer := buffer[1..];
    }
    LastNCases("", Flat(buffer), cap);
    if buffer != [] && pendingChars > cap {
      var overflow := pendingChars - cap;
      CutFirst(buffer, overflow);
      buffer, pendingChars := [buffer[0][overflow..]] + buffer[1..], cap;
    }
  }

  lemma {:induction false} FlatOne(chunk: string)
    ensures Flat([chunk]) == chunk
  {
    assert [chunk][1..] == [] && chunk + "" == chunk;
  }

  lemma {:induction false} CutFirst(buffer: seq<string>, n: nat)
    requires buffer != [] && n <= |buffer[0]|
    ensures Flat([buffer[0][n..]] + buffer[1..]) == Flat(buffer)[n..]
  {
    var less := [buffer[0][n..]] + buffer[1..];
    assert less[0] == buffer[0][n..] && less[1..] == buffer[1..];
  }

  // ----- what a history of events should leave behind -----

  function Before(events: seq<Event>): seq<Event>
    requires events != []
  {
    events[..|events| - 1]
  }

  /** All output of a stream. */
  function Written(events: seq<Event>, stream: Stream): string
    decreases |events|
  {
    if events == [] then "" else
    match events[|events| - 1]
    case Drain => Written(Before(events), stream)
    case Append(s, c) => if s == stream then Written(Before(events), stream) + c else Written(Before(events), stream)
  }

  /** Output of a stream since the last drain. */
  function Since(events: seq<Event>, stream: Stream): string
    decreases |events|
  {
    if events == [] then "" else
    match events[|events| - 1]
    case Drain => ""
    case Append(s, c) => if s == stream then Since(Before(events), stream) + c else Since(Before(events), stream)
  }

  /** Output of both streams in arrival order. */
  function Everything(events: seq<Event>): string
    decreases |events|
  {
    if events == [] then "" else
    match events[|events| - 1]
    case Drain => Everything(Before(events))
    case Append(_, c) => Everything(Before(events)) + c
  }

  function Pending(events: seq<Event>, stream: Stream, cap: nat): string
  {
    LastN(Since(events, stream), cap)
  }

  /** What the drains handed out. */
  function Drained(events: seq<Event>, stream: Stream, cap: nat): string
    decreases |events|
  {
    if events == [] then ""
    else if events[|events| - 1].Drain? then Drained(Before(events), stream, cap) + Pending(Before(events), stream, cap)
    else Drained(Before(events), stream, cap)
  }

  /** At some moment more than `cap` characters of the stream had come since the last drain. */
  predicate Overflowed(events: seq<Event>, stream: Stream, cap: nat)
    decreases |events|
  {
    events != [] && (|Since(events, stream)| > cap || Overflowed(Before(events), stream, cap))
  }

  predicate Truncated(events: seq<Event>, cap: nat, max: nat)
  {
    Overflowed(events, Stdout, cap) || Overflowed(events, Stderr, cap) || |Everything(events)| > max
  }

  /** Either nothing was lost, or strictly less came out and is pending than was written. */
  predicate Accounted(events: seq<Event>, stream: Stream, cap: nat)
  {
    if Overflowed(events, stream, cap) then
      |Drained(events, stream, cap)| + |Pending(events, stream, cap)| < |Written(events, stream)|
    else
      |Since(events, stream)| <= cap &&
      Drained(events, stream, cap) + Pending(events, stream, cap) == Written(events, stream)
  }

  lemma {:induction false} LossFrom(events: seq<Event>, stream: Stream, cap: nat)
    ensures Accounted(events, stream, cap)
    decreases |events|
  {
    if events != [] {
      var b := Before(events);
      LossFrom(b, stream, cap);
      match events[|events| - 1]
      case Append(s, c) =>
        if s == stream {
        }
      case Drain =>
        assert Drained(events, stream, cap) + "" == Drained(events, stream, cap);
    }
  }

  /** Drained plus pending text is the whole output of a stream exactly when it never overflowed its queue. */
  lemma {:induction false} NothingLostIff(events: seq<Event>, stream: Stream, cap: nat)
    ensures Drained(events, stream, cap) + Pending(events, stream, cap) == Written(events, stream) <==>
            !Overflowed(events, stream, cap)
  {
    hide Drained, Pending, Written, Overflowed;
    LossFrom(events, stream, cap);
  }

  /** While the flag is down, nothing at all was lost. */
  lemma {:induction false} UntruncatedLosesNothing(events: seq<Event>, stream: Stream, cap: nat, max: nat)
    requires !Truncated(events, cap, max)
    ensures Drained(events, stream, cap) + Pending(events, stream, cap) == Written(events, stream)
    ensures LastN(Everything(events), max) == Everything(events)
  {
    hide Drained, Pending, Written, Overflowed;
    NothingLostIff(events, stream, cap);
  }

  ghost predicate Lost(events: seq<Event>, stream: Stream, cap: nat)
  {
    Drained(events, stream, cap) + Pending(events, stream, cap) != Written(events, stream)
  }

  /** The flag is up exactly when something was lost: of a stream, or of the aggregate. */
  lemma {:induction false} TruncatedIffLost(events: seq<Event>, cap: nat, max: nat)
    ensures Truncated(events, cap, max) <==>
            || Lost(events, Stdout, cap) || Lost(events, Stderr, cap)
            || LastN(Everything(events), max) != Everything(events)
  {
    hide Drained, Pending, Written, Overflowed;
    NothingLostIff(events, Stdout, cap);
    NothingLostIff(events, Stderr, cap);
  }

  lemma {:induction false} EverythingSplits(events: seq<Event>)
    ensures |Everything(events)| == |Written(events, Stdout)| + |Written(events, Stderr)|
    ensures multiset(Everything(events)) == multiset(Written(events, Stdout)) + multiset(Written(events, Stderr))
    decreases |events|
  {
    if events != [] { EverythingSplits(Before(events)); }
  }

  lemma {:induction false} AppendStep(events: seq<Event>, stream: Stream, chunk: string, cap: nat)
    ensures var more := events + [Append(stream, chunk)];
            Pending(more, stream, cap) == LastN(Pending(events, stream, cap) + chunk, cap) &&
            Everything(more) == Everything(events) + chunk &&
            (Overflowed(more, stream, cap) <==>
               Overflowed(events, stream, cap) || |Pending(events, stream, cap)| + |chunk| > cap)
  {
    var more := events + [Append(stream, chunk)];
    assert more[|more| - 1] == Append(stream, chunk) && Before(more) == events;
    LastNAppend(Since(events, stream), chunk, cap);
    assert events != [] && |Since(events, stream)| > cap ==> Overflowed(events, stream, cap);
  }

  lemma {:induction false} OtherStep(events: seq<Event>, stream: Stream, chunk: string, other: Stream, cap: nat)
    requires other != stream
    ensures var more := events + [Append(stream, chunk)];
            Pending(more, other, cap) == Pending(events, other, cap) &&
            (Overflowed(more, other, cap) <==> Overflowed(events, other, cap))
  {
    var more := events + [Append(stream, chunk)];
    assert more[|more| - 1] == Append(stream, chunk) && Before(more) == events;
    assert events != [] && |Since(events, other)| > cap ==> Overflowed(events, other, cap);
  }

  lemma {:induction false} DrainStep(events: seq<Event>, stream: Stream, cap: nat)
    ensures var more := events + [Drain];
            Pending(more, stream, cap) == "" &&
            Drained(more, stream, cap) == Drained(events, stream, cap) + Pending(events, stream, cap) &&
            (Overflowed(more, stream, cap) <==> Overflowed(events, stream, cap)) &&
            Everything(more) == Everything(events)
  {
    var more := events + [Drain];
    assert more[|more| - 1] == Drain && Before(more) == events;
  }

  function Or(limit: Option<nat>, default: nat): nat
  {
    match limit case Some(n) => n case None => default
  }

  function Min(a: nat, b: nat): nat
  {
    if a <= b then a else b
  }

  class ProcessSession {
    const maxOutputChars: nat
    const pendingMaxOutputChars: Option<nat>
    var pendingStdout: seq<string>
    var pendingStderr: seq<string>
    var pendingStdoutChars: nat
    var pendingStderrChars: nat
    var totalOutputChars: nat
    var aggregated: string
    var tail: string
    var truncated: bool
    ghost var events: seq<Event>

    /** The smaller of the two limits; 30000 characters when none is given for what is pending. */
    function PendingCap(): (cap: nat)
      ensures cap <= maxOutputChars && cap <= Or(pendingMaxOutputChars, 30_000)
      ensures cap == maxOutputChars || cap == Or(pendingMaxOutputChars, 30_000)
    {
      Min(if pendingMaxOutputChars.Some? then pendingMaxOutputChars.value else DEFAULT_PENDING_OUTPUT_CHARS,
          maxOutputChars)
    }

    /** Every field is determined by the history. */
    ghost predicate Valid()
      reads this
    {
      Flat(pendingStdout) == Pending(events, Stdout, PendingCap()) && pendingStdoutChars == |Flat(pendingStdout)| &&
      Flat(pendingStderr) == Pending(events, Stderr, PendingCap()) && pendingStderrChars == |Flat(pendingStderr)| &&
      totalOutputChars == |Everything(events)| &&
      aggregated == LastN(Everything(events), maxOutputChars) && tail == LastN(aggregated, TAIL_CHARS) &&
      (truncated <==> Truncated(events, PendingCap(), maxOutputChars))
    }

    constructor (maxOutputChars: nat, pendingMaxOutputChars: Option<nat>)
      ensures Valid() && events == []
      ensures this.maxOutputChars == maxOutputChars && this.pendingMaxOutputChars == pendingMaxOutputChars
    {
      this.maxOutputChars, this.pendingMaxOutputChars := maxOutputChars, pendingMaxOutputChars;
      pendingStdout, pendingStderr, pendingStdoutChars, pendingStderrChars := [], [], 0, 0;
      totalOutputChars, aggregated, tail, truncated := 0, "", "", false;
      events := [];
    }

    method AppendOutput(stream: Stream, chunk: string)
      requires Valid()
      modifies this
      ensures Valid() && events == old(events) + [Append(stream, chunk)]
    {
      hide Pending, Overflowed, Everything, LastN, Flat, Min;
      var cap := PendingCap();
      var cut;
      AppendStep(events, stream, chunk, cap);
      if stream == Stdout {
        OtherStep(events, stream, chunk, Stderr, cap);
        pendingStdout, pendingStdoutChars, cut := Enqueue(pendingStdout, pendingStdoutChars, chunk, cap);
      } else {
        OtherStep(events, stream, chunk, Stdout, cap);
        pendingStderr, pendingStderrChars, cut := Enqueue(pendingStderr, pendingStderrChars, chunk, cap);
      }
      totalOutputChars := totalOutputChars + |chunk|;
      LastNAppend(Everything(events), chunk, maxOutputChars);
      var kept := LastN(aggregated + chunk, maxOutputChars);
      truncated := truncated || cut || |kept| < |aggregated| + |chunk|;
      aggregated := kept;
      tail := LastN(aggregated, TAIL_CHARS);
      events := events + [Append(stream, chunk)];
    }

    method DrainSession() returns (stdout: string, stderr: string)
      requires Valid()
      modifies this
      ensures Valid() && events == old(events) + [Drain]
      ensures Drained(events, Stdout, PendingCap()) == old(Drained(events, Stdout, PendingCap())) + stdout
      ensures Drained(events, Stderr, PendingCap()) == old(Drained(events, Stderr, PendingCap())) + stderr
      ensures aggregated == old(aggregated) && truncated == old(truncated)
    {
      hide Pending, Overflowed, Everything, LastN, Drained;
      stdout, stderr := Flat(pendingStdout), Flat(pendingStderr);
      DrainStep(events, Stdout, PendingCap());
      DrainStep(events, Stderr, PendingCap());
      pendingStdout, pendingStderr, pendingStdoutChars, pendingStderrChars := [], [], 0, 0;
      events := events + [Drain];
    }
  }
}
