/** SMTP transparency. */
module SmtpTransparency {
  import opened Text

  /*
    Section 4.5.2 of RFC 5321: the sender doubles a leading dot on every line, a lone dot ends the message, and
    the receiver takes the doubling back.
  */

  const TERMINATOR := "\r\n.\r\n"

  /** Every line break, with or without its carriage return, becomes CRLF. */
  function Normalise(body: string): string
    decreases |body|
  {
    if body == "" then ""
    else if CRLF <= body then CRLF + Normalise(body[2..])
    else if body[0] == '\n' then CRLF + Normalise(body[1..])
    else [body[0]] + Normalise(body[1..])
  }

  function Stuff(line: string): string
  {
    if "." <= line then "." + line else line
  }

  function StuffAll(lines: seq<string>): (r: seq<string>)
    ensures |r| == |lines| && forall k :: 0 <= k < |r| ==> r[k] == Stuff(lines[k])
  {
    if lines == [] then [] else [Stuff(lines[0])] + StuffAll(lines[1..])
  }

  function DotStuff(body: string): string
  {
    Join(StuffAll(Split(Normalise(body), CRLF)), CRLF)
  }

  /** What the client writes for a message. */
  function Wire(body: string): string
  {
    DotStuff(body) + TERMINATOR
  }

  // ----- the receiver -----

  /** A received line: a lone dot ends the message, another leading dot is dropped. */
  function Unstuff(line: string): string
  {
    if "." <= line then line[1..] else line
  }

  /** Reads lines up to the lone dot; gives them un-stuffed, with what follows on the wire. */
  function Receive(wire: string): Option<(seq<string>, string)>
    decreases |wire|
  {
    var i := IndexOf(wire, CRLF, 0);
    if i < 0 then None
    else if wire[..i] == "." then Some(([], wire[i + 2..]))
    else match Receive(wire[i + 2..])
         case None => None
         case Some((lines, rest)) => Some(([Unstuff(wire[..i])] + lines, rest))
  }

  // ----- lines -----

  ghost predicate Free(line: string)
  {
    forall i :: !MatchesAt(line, CRLF, i)
  }

  ghost predicate AllFree(lines: seq<string>)
  {
    forall k :: 0 <= k < |lines| ==> Free(lines[k])
  }

  /** A line break does not overlap itself, so the first one after a line is the one that was put there. */
  lemma {:induction false} FirstBreak(line: string, rest: string)
    requires Free(line)
    ensures IndexOf(line + CRLF + rest, CRLF, 0) == |line|
  {
    var s := line + CRLF + rest;
    assert s[|line|..|line| + 2] == CRLF && MatchesAt(s, CRLF, |line|);
    var i := IndexOf(s, CRLF, 0);
    assert 0 <= i <= |line|;
    if i < |line| {
      assert s[i..i + 2][0] == s[i] && s[i..i + 2][1] == s[i + 1];
      if i + 2 <= |line| {
        assert s[i..i + 2] == line[i..i + 2];
        assert MatchesAt(line, CRLF, i);
      }
    }
  }

  lemma {:induction false} DotShift(line: string, i: int)
    requires Free(line)
    ensures !MatchesAt("." + line, CRLF, i)
  {
    var s := "." + line;
    assert !MatchesAt(line, CRLF, i - 1);
    if 0 <= i && i + 2 <= |s| {
      assert s[i..i + 2][0] == s[i] && s[0] == '.';
      assert i > 0 ==> s[i..i + 2] == line[i - 1..i + 1];
    }
  }

  lemma {:induction false} StuffFree(line: string)
    requires Free(line)
    ensures Free(Stuff(line)) && Stuff(line) != "." && Unstuff(Stuff(line)) == line
  {
    hide MatchesAt;
    if "." <= line {
      forall i ensures !MatchesAt("." + line, CRLF, i) { DotShift(line, i); }
      assert ("." + line)[1..] == line;
    }
  }

  lemma {:induction false} SplitFree(s: string)
    ensures AllFree(Split(s, CRLF))
    decreases |s|
  {
    var i := IndexOf(s, CRLF, 0);
    if i < 0 {
      assert forall k :: k < 0 ==> !MatchesAt(s, CRLF, k);
    } else {
      SplitFree(s[i + 2..]);
      forall k ensures !MatchesAt(s[..i], CRLF, k) {
        if MatchesAt(s[..i], CRLF, k) {
          assert s[k..k + 2] == s[..i][k..k + 2];
          assert MatchesAt(s, CRLF, k);
        }
      }
    }
  }

  /** Joining lines free of breaks and splitting again gives the lines. */
  lemma {:induction false} SplitJoin(lines: seq<string>)
    requires lines != [] && AllFree(lines)
    ensures Split(Join(lines, CRLF), CRLF) == lines
    decreases |lines|
  {
    hide IndexOf, MatchesAt;
    assert Free(lines[0]);
    if |lines| == 1 {
      NoBreak(lines[0]);
      assert lines == [lines[0]];
    } else {
      var rest := Join(lines[1..], CRLF);
      var s := lines[0] + CRLF + rest;
      FirstBreak(lines[0], rest);
      SplitJoin(lines[1..]);
      assert s[..|lines[0]|] == lines[0] && s[|lines[0]| + 2..] == rest;
      assert lines == [lines[0]] + lines[1..];
    }
  }

  lemma {:induction false} NoBreak(line: string)
    requires Free(line)
    ensures IndexOf(line, CRLF, 0) == -1
  {
  }

  lemma {:induction false} StuffAllFree(lines: seq<string>)
    requires AllFree(lines)
    ensures AllFree(StuffAll(lines)) && "." !in StuffAll(lines)
  {
    hide Stuff, Free;
    forall k | 0 <= k < |lines| ensures Free(StuffAll(lines)[k]) && StuffAll(lines)[k] != "." {
      StuffFree(lines[k]);
    }
  }

  /** No line of the stuffed text is a lone dot. */
  lemma {:induction false} NoLoneDot(body: string)
    ensures "." !in Split(DotStuff(body), CRLF)
  {
    hide Stuff, Free, Join, Split;
    var lines := Split(Normalise(body), CRLF);
    SplitFree(Normalise(body));
    StuffAllFree(lines);
    SplitJoin(StuffAll(lines));
  }

  lemma {:induction false} ReceiveTerminator(rest: string)
    ensures Receive("." + CRLF + rest) == Some(([], rest))
  {
    DotFree();
    FirstBreak(".", rest);
    assert ("." + CRLF + rest)[3..] == rest;
  }

  lemma {:induction false} DotFree()
    ensures Free(".")
  {
  }

  lemma {:induction false} ReceiveLine(line: string, wire: string)
    requires Free(line)
    ensures Receive(Stuff(line) + CRLF + wire) ==
            match Receive(wire)
            case None => None
            case Some((lines, rest)) => Some(([line] + lines, rest))
  {
    hide IndexOf, Stuff, Unstuff, Free;
    var s := Stuff(line) + CRLF + wire;
    StuffFree(line);
    FirstBreak(Stuff(line), wire);
    assert s[..|Stuff(line)|] == Stuff(line) && s[|Stuff(line)| + 2..] == wire;
  }

  lemma {:induction false} ReceiveLines(lines: seq<string>, rest: string)
    requires lines != [] && AllFree(lines)
    ensures Receive(Join(StuffAll(lines), CRLF) + (TERMINATOR + rest)) == Some((lines, rest))
    decreases |lines|
  {
    hide Receive, Stuff, Free;
    var st := Stuff(lines[0]);
    if |lines| == 1 {
      ReceiveTerminator(rest);
      ReceiveLine(lines[0], "." + CRLF + rest);
      assert StuffAll(lines) == [st];
      assert st + (TERMINATOR + rest) == st + CRLF + ("." + CRLF + rest);
      assert [lines[0]] + [] == lines;
    } else {
      ReceiveLines(lines[1..], rest);
      var more := Join(StuffAll(lines[1..]), CRLF);
      ReceiveLine(lines[0], more + (TERMINATOR + rest));
      assert StuffAll(lines)[1..] == StuffAll(lines[1..]);
      assert (st + CRLF + more) + (TERMINATOR + rest) == st + CRLF + (more + (TERMINATOR + rest));
      assert [lines[0]] + lines[1..] == lines;
    }
  }

  /**
    For every body and whatever follows it on the connection, the receiver stops at the client's own
    terminator and recovers the CRLF-normalised body.
  */
  lemma {:induction false} TransparencyRoundTrip(body: string, rest: string)
    ensures var lines := Split(Normalise(body), CRLF);
            Receive(Wire(body) + rest) == Some((lines, rest)) && Join(lines, CRLF) == Normalise(body)
  {
    hide Receive, Join, Split, Normalise;
    var lines := Split(Normalise(body), CRLF);
    SplitFree(Normalise(body));
    ReceiveLines(lines, rest);
    JoinSplit(Normalise(body), CRLF);
    var d := Join(StuffAll(lines), CRLF);
    assert (d + TERMINATOR) + rest == d + (TERMINATOR + rest);
  }

  // ----- what normalising does -----

  /** The lines of a body, read off directly. */
  function Lines(body: string): (r: seq<string>)
    ensures r != []
    decreases |body|
  {
    if body == "" then [""]
    else if CRLF <= body then [""] + Lines(body[2..])
    else if body[0] == '\n' then [""] + Lines(body[1..])
    else
      var more := Lines(body[1..]);
      [[body[0]] + more[0]] + more[1..]
  }

  predicate NoLineFeed(line: string)
  {
    forall k :: 0 <= k < |line| ==> line[k] != '\n'
  }

  lemma {:induction false} LinesHaveNoLineFeed(body: string)
    ensures forall k :: 0 <= k < |Lines(body)| ==> NoLineFeed(Lines(body)[k])
    decreases |body|
  {
    if body != "" {
      LinesHaveNoLineFeed(if CRLF <= body then body[2..] else body[1..]);
    }
  }

  lemma {:induction false} NormaliseJoinsLines(body: string)
    ensures Normalise(body) == Join(Lines(body), CRLF)
    decreases |body|
  {
    if body == "" {
    } else if CRLF <= body {
      NormaliseJoinsLines(body[2..]);
      JoinBreak(Lines(body[2..]));
    } else if body[0] == '\n' {
      NormaliseJoinsLines(body[1..]);
      JoinBreak(Lines(body[1..]));
    } else {
      NormaliseJoinsLines(body[1..]);
      JoinPrepend(body[0], Lines(body[1..]));
    }
  }

  lemma {:induction false} JoinBreak(lines: seq<string>)
    requires lines != []
    ensures Join([""] + lines, CRLF) == CRLF + Join(lines, CRLF)
  {
    assert ([""] + lines)[1..] == lines;
    assert "" + CRLF == CRLF;
  }

  lemma {:induction false} JoinPrepend(ch: char, lines: seq<string>)
    requires lines != []
    ensures Join([[ch] + lines[0]] + lines[1..], CRLF) == [ch] + Join(lines, CRLF)
  {
    var more := [[ch] + lines[0]] + lines[1..];
    assert more[0] == [ch] + lines[0] && more[1..] == lines[1..];
    if |lines| > 1 {
      var tail := Join(lines[1..], CRLF);
      assert ([ch] + lines[0]) + CRLF + tail == [ch] + (lines[0] + CRLF + tail);
    }
  }

  lemma {:induction false} NoLineFeedFree(line: string)
    requires NoLineFeed(line)
    ensures Free(line)
  {
    forall i ensures !MatchesAt(line, CRLF, i) {
      assert 0 <= i && i + 2 <= |line| ==> line[i..i + 2][1] == line[i + 1];
    }
  }

  /** The client's split finds exactly the body's lines, and none of them holds a line feed. */
  lemma {:induction false} SplitNormalisedIsLines(body: string)
    ensures Split(Normalise(body), CRLF) == Lines(body)
    ensures forall k :: 0 <= k < |Lines(body)| ==> NoLineFeed(Lines(body)[k])
  {
    hide Normalise, Lines, Split, Join, Free, NoLineFeed;
    LinesHaveNoLineFeed(body);
    forall k | 0 <= k < |Lines(body)| ensures Free(Lines(body)[k]) { NoLineFeedFree(Lines(body)[k]); }
    NormaliseJoinsLines(body);
    SplitJoin(Lines(body));
  }

  /** A line without line feed stays as it is in front of a break. */
  lemma {:induction false} LinesOfJoin(line: string, tail: string)
    requires NoLineFeed(line)
    ensures Lines(line + (CRLF + tail)) == [line] + Lines(tail)
    ensures Lines(line) == [line]
    decreases |line|
  {
    hide Lines;
    if line == "" {
      assert line + (CRLF + tail) == CRLF + tail;
      LinesBreak(tail);
    } else {
      var rest := line[1..] + (CRLF + tail);
      LinesOfJoin(line[1..], tail);
      assert rest[0] == if |line| > 1 then line[1] else '\r';
      LinesChar(line[0], rest);
      LinesChar(line[0], line[1..]);
      assert line + (CRLF + tail) == [line[0]] + rest && [line[0]] + line[1..] == line;
    }
  }

  lemma {:induction false} LinesBreak(tail: string)
    ensures Lines("") == [""] && Lines(CRLF + tail) == [""] + Lines(tail)
  {
    assert (CRLF + tail)[2..] == tail;
  }

  lemma {:induction false} LinesChar(ch: char, rest: string)
    requires ch != '\n' && (rest != "" ==> rest[0] != '\n')
    ensures var more := Lines(rest); Lines([ch] + rest) == [[ch] + more[0]] + more[1..]
  {
    assert ([ch] + rest)[1..] == rest && (rest != "" ==> ([ch] + rest)[1] == rest[0]);
  }

  lemma {:induction false} LinesJoin(lines: seq<string>)
    requires lines != [] && forall k :: 0 <= k < |lines| ==> NoLineFeed(lines[k])
    ensures Lines(Join(lines, CRLF)) == lines
    decreases |lines|
  {
    hide Lines, NoLineFeed;
    if |lines| == 1 {
      LinesOfJoin(lines[0], "");
      assert lines == [lines[0]];
    } else {
      var tail := Join(lines[1..], CRLF);
      LinesJoin(lines[1..]);
      LinesOfJoin(lines[0], tail);
      assert lines[0] + CRLF + tail == lines[0] + (CRLF + tail);
      assert lines == [lines[0]] + lines[1..];
    }
  }

  /** Normalising again changes nothing, so a normalised body is received exactly as it was sent. */
  lemma {:induction false} NormaliseIdempotent(body: string)
    ensures Normalise(Normalise(body)) == Normalise(body)
  {
    hide Lines, NoLineFeed, Join, Normalise;
    LinesHaveNoLineFeed(body);
    NormaliseJoinsLines(body);
    LinesJoin(Lines(body));
    NormaliseJoinsLines(Normalise(body));
  }
}
