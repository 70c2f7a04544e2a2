/** The editable-region guard of the file tools. */
module EditableRegions {
  import opened Text
  import opened Replacing

  /*
    Files may mark regions between a line holding START and the next END; `write` and `edit` may change only
    the text inside the regions.  The code works on index ranges.  `Doc` is the structural view of a file: a
    list of (head, body) pairs, each closed by END, and a plain tail.
  */

  datatype Markers = Markers(start: string, end: string)

  /** What the proofs need of a marker pair: no line break in either, END does not overlap itself. */
  ghost predicate ValidMarkers(g: Markers)
  {
    g.start != "" && g.end != "" && '\n' !in g.start && '\n' !in g.end &&
    forall d :: 0 < d < |g.end| ==> g.end[d..] != g.end[..|g.end| - d]
  }

  type Guard = g: Markers | ValidMarkers(g) ghost witness Markers("S", "E")

  datatype Range = Range(start: nat, end: nat)

  // ----- the code: index ranges -----

  /** One round of the parsing loop: the first region at or after the cursor. */
  function FirstRegion(g: Guard, c: string, cursor: nat): (r: Option<Range>)
    requires cursor <= |c|
    ensures r.Some? ==> cursor <= r.value.start <= r.value.end && r.value.end + |g.end| <= |c|
  {
    var s := IndexOf(c, g.start, cursor);
    if s < 0 then None else
      var nl := IndexOf(c, "\n", s);
      var open := if nl >= 0 then nl + 1 else |c|;
      var e := IndexOf(c, g.end, open);
      if e < 0 then None else Some(Range(open, e))
  }

  function ParseRanges(g: Guard, c: string, cursor: nat): seq<Range>
    requires cursor <= |c|
    decreases |c| - cursor
  {
    var r := FirstRegion(g, c, cursor);
    if r.None? then [] else [r.value] + ParseRanges(g, c, r.value.end + |g.end|)
  }

  lemma {:induction false} ParseRangesUnfold(g: Guard, c: string, cursor: nat)
    requires cursor <= |c|
    ensures var r := FirstRegion(g, c, cursor);
            ParseRanges(g, c, cursor) == if r.None? then [] else [r.value] + ParseRanges(g, c, r.value.end + |g.end|)
    ensures ParseRanges(g, c, |c|) == []
  {
    hide IndexOf, MatchesAt;
  }

  method ParseEditableRanges(g: Guard, content: string) returns (ranges: seq<Range>)
    ensures ranges == ParseRanges(g, content, 0)
  {
    hide IndexOf, MatchesAt, ParseRanges;
    ranges := [];
    var cursor := 0;
    while cursor < |content|
      invariant 0 <= cursor <= |content|
      invariant ParseRanges(g, content, 0) == ranges + ParseRanges(g, content, cursor)
    {
      ParseRangesUnfold(g, content, cursor);
      var startMarker := IndexOf(content, g.start, cursor);
      if startMarker < 0 { break; }
      var startLineBreak := IndexOf(content, "\n", startMarker);
      var editableStart := if startLineBreak >= 0 then startLineBreak + 1 else |content|;
      var endMarker := IndexOf(content, g.end, editableStart);
      if endMarker < 0 { break; }
      ranges := ranges + [Range(editableStart, endMarker)];
      cursor := endMarker + |g.end|;
    }
    ParseRangesUnfold(g, content, cursor);
  }

  function ChunksFrom(c: string, ranges: seq<Range>, cursor: nat): seq<string>
    requires Ordered(c, ranges, cursor)
    decreases |ranges|
  {
    if ranges == [] then [c[cursor..]]
    else [c[cursor..ranges[0].start]] + ChunksFrom(c, ranges[1..], ranges[0].end)
  }

  predicate Ordered(c: string, ranges: seq<Range>, cursor: nat)
    decreases |ranges|
  {
    if ranges == [] then cursor <= |c|
    else cursor <= ranges[0].start <= ranges[0].end <= |c| && Ordered(c, ranges[1..], ranges[0].end)
  }

  lemma {:induction false} ParsedRangesOrdered(g: Guard, c: string, cursor: nat, from: nat)
    requires cursor <= from <= |c|
    ensures Ordered(c, ParseRanges(g, c, from), cursor)
    decreases |c| - from
  {
    hide FirstRegion;
    var r := FirstRegion(g, c, from);
    if r.Some? {
      ParsedRangesOrdered(g, c, r.value.end, r.value.end + |g.end|);
      assert ParseRanges(g, c, from)[1..] == ParseRanges(g, c, r.value.end + |g.end|);
    }
  }

  /** The protected chunks of a file: what lies outside its regions. */
  function Chunks(g: Guard, c: string): seq<string>
  {
    ParsedRangesOrdered(g, c, 0, 0);
    ChunksFrom(c, ParseRanges(g, c, 0), 0)
  }

  function Project(g: Guard, c: string): string
  {
    Join(Chunks(g, c), "")
  }

  /** One round of the projection loop. */
  lemma {:induction false} ChunksStep(c: string, ranges: seq<Range>, i: nat, cursor: nat)
    requires i <= |ranges| && Ordered(c, ranges[i..], cursor)
    ensures i == |ranges| ==> cursor <= |c| && ChunksFrom(c, ranges[i..], cursor) == [c[cursor..]]
    ensures i < |ranges| ==>
              && cursor <= ranges[i].start <= ranges[i].end <= |c| && Ordered(c, ranges[i + 1..], ranges[i].end)
              && ChunksFrom(c, ranges[i..], cursor) ==
                 [c[cursor..ranges[i].start]] + ChunksFrom(c, ranges[i + 1..], ranges[i].end)
  {
    if i < |ranges| { assert ranges[i..][0] == ranges[i] && ranges[i..][1..] == ranges[i + 1..]; }
  }

  lemma {:induction false} ChunksStart(g: Guard, c: string)
    ensures var ranges := ParseRanges(g, c, 0);
            Ordered(c, ranges, 0) && Chunks(g, c) == ChunksFrom(c, ranges, 0) && (ranges == [] ==> Project(g, c) == c)
  {
    hide ParseRanges;
    ParsedRangesOrdered(g, c, 0, 0);
    assert c[0..] == c;
  }

  method ProjectNonEditableContent(g: Guard, content: string, ranges: seq<Range>) returns (r: string)
    requires ranges == ParseRanges(g, content, 0)
    ensures r == Project(g, content)
  {
    hide ParseRanges, Ordered, ChunksFrom, Chunks, Join;
    ChunksStart(g, content);
    if |ranges| == 0 {
      return content;
    }
    var cursor := 0;
    var chunks := [];
    assert ranges[0..] == ranges;
    for i := 0 to |ranges|
      invariant 0 <= cursor && Ordered(content, ranges[i..], cursor)
      invariant Chunks(g, content) == chunks + ChunksFrom(content, ranges[i..], cursor)
    {
      ChunksStep(content, ranges, i, cursor);
      chunks := chunks + [content[cursor..ranges[i].start]];
      cursor := ranges[i].end;
    }
    ChunksStep(content, ranges, |ranges|, cursor);
    chunks := chunks + [content[cursor..]];
    r := Join(chunks, "");
  }

  predicate WithinRanges(ranges: seq<Range>, start: nat, end: nat)
  {
    exists k :: 0 <= k < |ranges| && ranges[k].start <= start && end <= ranges[k].end
  }

  /** The ranges of matches of one length that start at the given places. */
  ghost predicate RangesAt(matches: seq<Range>, starts: seq<nat>, len: nat)
  {
    |matches| == |starts| &&
    forall k :: 0 <= k < |starts| ==> matches[k] == Range(starts[k], starts[k] + len)
  }

  /** The matches in front of the cursor are collected, the others start where the search from it finds them. */
  ghost predicate Collected(c: string, needle: string, matches: seq<Range>, cursor: nat)
    requires needle != ""
  {
    var all := MatchStarts(c, needle, 0);
    |matches| <= |all| && RangesAt(matches, all[..|matches|], |needle|) &&
    all[|matches|..] == MatchStarts(c, needle, cursor)
  }

  lemma {:induction false} CollectedStart(c: string, needle: string)
    requires needle != ""
    ensures Collected(c, needle, [], 0)
  {
    hide MatchStarts;
    assert MatchStarts(c, needle, 0)[0..] == MatchStarts(c, needle, 0);
  }

  lemma {:induction false} CollectedNext(c: string, needle: string, matches: seq<Range>, cursor: nat)
    requires needle != "" && cursor <= |c| && Collected(c, needle, matches, cursor)
    ensures var i := IndexOf(c, needle, cursor);
            i >= 0 ==> Collected(c, needle, matches + [Range(i, i + |needle|)], i + |needle|)
  {
    hide MatchStarts, IndexOf, MatchesAt;
    MatchStartsUnfold(c, needle, cursor);
    var i, n, all := IndexOf(c, needle, cursor), |matches|, MatchStarts(c, needle, 0);
    if i >= 0 {
      var rest := MatchStarts(c, needle, i + |needle|);
      assert all[n..] == [i] + rest;
      assert all[n] == all[n..][0];
      assert all[n + 1..] == all[n..][1..] == rest;
      assert all[..n + 1] == all[..n] + [i];
    }
  }

  lemma {:induction false} CollectedAll(c: string, needle: string, matches: seq<Range>, cursor: nat)
    requires needle != "" && Collected(c, needle, matches, cursor)
    requires cursor > |c| || IndexOf(c, needle, cursor) < 0
    ensures RangesAt(matches, MatchStarts(c, needle, 0), |needle|)
  {
    hide MatchStarts, IndexOf, MatchesAt;
    MatchStartsUnfold(c, needle, cursor);
    var n, all := |matches|, MatchStarts(c, needle, 0);
    assert |all[n..]| == 0;
    assert all[..n] == all;
  }

  method CollectMatchRanges(content: string, needle: string) returns (matches: seq<Range>)
    requires needle != ""
    ensures RangesAt(matches, MatchStarts(content, needle, 0), |needle|)
  {
    hide IndexOf, MatchesAt, MatchStarts, RangesAt, Collected;
    matches := [];
    CollectedStart(content, needle);
    var cursor := 0;
    while cursor <= |content|
      invariant cursor >= 0 && Collected(content, needle, matches, cursor)
      decreases |content| + 1 - cursor
    {
      var idx := IndexOf(content, needle, cursor);
      if idx < 0 {
        CollectedAll(content, needle, matches, cursor);
        return;
      }
      CollectedNext(content, needle, matches, cursor);
      matches := matches + [Range(idx, idx + |needle|)];
      cursor := idx + |needle|;
    }
    CollectedAll(content, needle, matches, cursor);
  }

  predicate WriteAllowed(g: Guard, existing: string, next: string)
  {
    ParseRanges(g, existing, 0) == [] ||
    (ParseRanges(g, next, 0) != [] && Project(g, existing) == Project(g, next))
  }

  predicate EditAllowed(g: Guard, c: string, find: string, all: bool)
    requires find != ""
  {
    var ranges, starts := ParseRanges(g, c, 0), MatchStarts(c, find, 0);
    ranges == [] || starts == [] ||
    var targets := if all then starts else starts[..1];
    forall m :: m in targets ==> WithinRanges(ranges, m, m + |find|)
  }

  // ----- the structural view -----

  datatype Doc = Plain(text: string) | Region(head: string, body: string, rest: Doc)

  function Render(g: Guard, d: Doc): string
  {
    match d
    case Plain(t) => t
    case Region(h, b, rest) => h + (b + (g.end + Render(g, rest)))
  }

  function ParseDoc(g: Guard, c: string): Doc
    decreases |c|
  {
    var r := FirstRegion(g, c, 0);
    if r.None? then Plain(c)
    else Region(c[..r.value.start], c[r.value.start..r.value.end], ParseDoc(g, c[r.value.end + |g.end|..]))
  }

  function Erase(d: Doc): Doc
  {
    match d
    case Plain(t) => d
    case Region(h, b, rest) => Region(h, "", Erase(rest))
  }

  /** A head ends with the first line break after its first g.start. */
  predicate IsHead(g: Guard, h: string)
  {
    var s := IndexOf(h, g.start, 0);
    s >= 0 && IndexOf(h, "\n", s) == |h| - 1
  }

  predicate Closed(g: Guard, body: string)
  {
    IndexOf(body, g.end, 0) < 0
  }

  predicate BodiesClosed(g: Guard, d: Doc)
  {
    match d
    case Plain(t) => true
    case Region(h, b, rest) => Closed(g, b) && BodiesClosed(g, rest)
  }

  predicate WellFormed(g: Guard, d: Doc)
  {
    match d
    case Plain(t) => FirstRegion(g, t, 0).None?
    case Region(h, b, rest) => IsHead(g, h) && Closed(g, b) && WellFormed(g, rest)
  }

  // ----- unique parsing -----

  /** END has no self-overlap: two occurrences never share a character. */
  lemma {:induction false} EndNoOverlap(g: Guard, s: string, i: nat, j: nat)
    requires MatchesAt(s, g.end, i) && MatchesAt(s, g.end, j) && i < j
    ensures i + |g.end| <= j
  {
    if j < i + |g.end| { OverlapIsBorder(s, g.end, i, j); }
  }

  /** In body + END + rest, the first END is the one closing the body. */
  lemma {:induction false} EndCloses(g: Guard, b: string, r: string)
    requires Closed(g, b)
    ensures IndexOf(b + (g.end + r), g.end, 0) == |b|
  {
    var c := b + (g.end + r);
    assert c[|b|..|b| + |g.end|] == g.end;
    assert MatchesAt(c, g.end, |b|);
    var i := IndexOf(c, g.end, 0);
    if i < |b| {
      EndNoOverlap(g, c, i, |b|);
      MatchesInTake(b, g.end + r, g.end, i);
    }
  }

  lemma {:induction false} RegionFound(g: Guard, h: string, b: string, r: string)
    requires IsHead(g, h) && Closed(g, b)
    ensures FirstRegion(g, h + (b + (g.end + r)), 0) == Some(Range(|h|, |h| + |b|))
  {
    var tail := b + (g.end + r);
    var s := IndexOf(h, g.start, 0);
    IndexOfPrefix(h, tail, g.start, 0);
    IndexOfPrefix(h, tail, "\n", s);
    EndCloses(g, b, r);
    IndexOfDrop(h + tail, g.end, |h|, 0);
    assert (h + tail)[|h|..] == tail;
  }

  lemma {:induction false} ParseRender(g: Guard, d: Doc)
    requires WellFormed(g, d)
    ensures ParseDoc(g, Render(g, d)) == d
  {
    hide FirstRegion, IndexOf, MatchesAt;
    if d.Region? {
      var c := Render(g, d);
      RegionFound(g, d.head, d.body, Render(g, d.rest));
      assert c[..|d.head|] == d.head;
      assert c[|d.head|..|d.head| + |d.body|] == d.body;
      assert c[|d.head| + |d.body| + |g.end|..] == Render(g, d.rest);
      ParseRender(g, d.rest);
    }
  }

  lemma {:induction false} LineBreakAfter(c: string, needle: string, s: nat, nl: nat)
    requires MatchesAt(c, needle, s) && '\n' !in needle && MatchesAt(c, "\n", nl) && s <= nl
    ensures s + |needle| <= nl
  {
    assert c[nl..nl + 1][0] == c[nl];
    assert forall k :: s <= k < s + |needle| ==> c[k] == c[s..s + |needle|][k - s];
  }

  lemma {:induction false} FirstRegionShape(g: Guard, c: string)
    requires FirstRegion(g, c, 0).Some?
    ensures var r := FirstRegion(g, c, 0).value;
            IsHead(g, c[..r.start]) && Closed(g, c[r.start..r.end]) && c[r.end..r.end + |g.end|] == g.end
  {
    hide IndexOf;
    var r := FirstRegion(g, c, 0).value;
    var s := IndexOf(c, g.start, 0);
    var nl := IndexOf(c, "\n", s);
    LineBreakFound(g, c, s, nl, r);
    hide MatchesAt;
    var h := c[..nl + 1];
    assert c == h + c[nl + 1..];
    IndexOfTake(h, c[nl + 1..], g.start, 0);
    IndexOfTake(h, c[nl + 1..], "\n", s);
    NoneInFront(c, g.end, r.start, r.end);
  }

  /** A region found begins after a line break: without one, nothing would be left for END. */
  lemma {:induction false} LineBreakFound(g: Guard, c: string, s: int, nl: int, r: Range)
    requires FirstRegion(g, c, 0) == Some(r) && s == IndexOf(c, g.start, 0) && (s >= 0 ==> nl == IndexOf(c, "\n", s))
    ensures 0 <= s && s + |g.start| <= nl < |c| && r.start == nl + 1 && r.end == IndexOf(c, g.end, r.start)
    ensures c[r.end..r.end + |g.end|] == g.end
  {
    hide IndexOf;
    LineBreakAfter(c, g.start, s, nl);
  }

  lemma {:induction false} RenderParse(g: Guard, c: string)
    ensures Render(g, ParseDoc(g, c)) == c && WellFormed(g, ParseDoc(g, c))
    decreases |c|
  {
    hide FirstRegion, IsHead, Closed;
    var r := FirstRegion(g, c, 0);
    if r.Some? {
      FirstRegionShape(g, c);
      RenderParse(g, c[r.value.end + |g.end|..]);
      CutThree(c, r.value.start, r.value.end, g.end);
    }
  }

  lemma {:induction false} CutThree(c: string, s: nat, e: nat, mark: string)
    requires s <= e && e + |mark| <= |c| && c[e..e + |mark|] == mark
    ensures c == c[..s] + (c[s..e] + (mark + c[e + |mark|..]))
  {
    assert c[e..] == mark + c[e + |mark|..];
    assert c[s..] == c[s..e] + c[e..];
  }

  lemma {:induction false} EraseWellFormed(g: Guard, d: Doc)
    requires WellFormed(g, d)
    ensures WellFormed(g, Erase(d)) && Erase(Erase(d)) == Erase(d)
  {
    if d.Region? { EraseWellFormed(g, d.rest); }
  }

  lemma {:induction false} SameFrameWellFormed(g: Guard, d: Doc, d': Doc)
    requires WellFormed(g, d) && Erase(d) == Erase(d')
    ensures WellFormed(g, d') <==> BodiesClosed(g, d')
  {
    if d.Region? { SameFrameWellFormed(g, d.rest, d'.rest); }
  }

  // ----- ranges and chunks of a structured file -----

  function DocRanges(g: Guard, d: Doc, offset: nat): seq<Range>
  {
    match d
    case Plain(t) => []
    case Region(h, b, rest) =>
      [Range(offset + |h|, offset + |h| + |b|)] + DocRanges(g, rest, offset + |h| + |b| + |g.end|)
  }

  function DocChunks(g: Guard, d: Doc, lead: string): seq<string>
  {
    match d
    case Plain(t) => [lead + t]
    case Region(h, b, rest) => [lead + h] + DocChunks(g, rest, g.end)
  }

  lemma {:induction false} FirstRegionDrop(g: Guard, c: string, k: nat)
    requires k <= |c|
    ensures var r := FirstRegion(g, c[k..], 0);
            FirstRegion(g, c, k) == if r.None? then None else Some(Range(k + r.value.start, k + r.value.end))
  {
    var t := c[k..];
    var s := IndexOf(t, g.start, 0);
    IndexOfDrop(c, g.start, k, 0);
    if s >= 0 {
      IndexOfDrop(c, "\n", k, s);
      var nl := IndexOf(t, "\n", s);
      IndexOfDrop(c, g.end, k, if nl >= 0 then nl + 1 else |t|);
    }
  }

  /** Parsing from the cursor and parsing what follows the cursor agree. */
  lemma {:induction false} ParseStep(g: Guard, c: string, k: nat)
    requires k <= |c|
    ensures FirstRegion(g, c, k).None? ==> ParseRanges(g, c, k) == [] && ParseDoc(g, c[k..]) == Plain(c[k..])
    ensures FirstRegion(g, c, k).Some? ==>
              var Range(s, e) := FirstRegion(g, c, k).value;
              && ParseRanges(g, c, k) == [Range(s, e)] + ParseRanges(g, c, e + |g.end|)
              && ParseDoc(g, c[k..]) == Region(c[k..s], c[s..e], ParseDoc(g, c[e + |g.end|..]))
              && c[e..e + |g.end|] == g.end
  {
    hide FirstRegion, IndexOf, MatchesAt;
    FirstRegionDrop(g, c, k);
    ParseRangesUnfold(g, c, k);
    var t, r := c[k..], FirstRegion(g, c[k..], 0);
    if r.Some? {
      FirstRegionShape(g, t);
      var Range(s, e) := r.value;
      assert t[..s] == c[k..k + s] && t[s..e] == c[k + s..k + e];
      assert t[e..e + |g.end|] == c[k + e..k + e + |g.end|];
      assert t[e + |g.end|..] == c[k + e + |g.end|..];
    }
  }

  lemma {:induction false} RangesOfDoc(g: Guard, c: string, k: nat)
    requires k <= |c|
    ensures ParseRanges(g, c, k) == DocRanges(g, ParseDoc(g, c[k..]), k)
    decreases |c| - k
  {
    hide FirstRegion, ParseRanges, ParseDoc, IndexOf;
    ParseStep(g, c, k);
    var r := FirstRegion(g, c, k);
    if r.Some? { RangesOfDoc(g, c, r.value.end + |g.end|); }
  }

  lemma {:induction false} ChunksOfDoc(g: Guard, c: string, cursor: nat, k: nat)
    requires cursor <= k <= |c|
    requires Ordered(c, ParseRanges(g, c, k), cursor)
    ensures ChunksFrom(c, ParseRanges(g, c, k), cursor) == DocChunks(g, ParseDoc(g, c[k..]), c[cursor..k])
    decreases |c| - k
  {
    hide FirstRegion, ParseRanges, ParseDoc, IndexOf;
    ParseStep(g, c, k);
    var r := FirstRegion(g, c, k);
    if r.None? {
      assert c[cursor..] == c[cursor..k] + c[k..];
    } else {
      var Range(s, e) := r.value;
      var next := e + |g.end|;
      ParsedRangesOrdered(g, c, e, next);
      ChunksOfDoc(g, c, e, next);
      assert ([Range(s, e)] + ParseRanges(g, c, next))[1..] == ParseRanges(g, c, next);
      assert c[cursor..s] == c[cursor..k] + c[k..s];
    }
  }

  lemma {:induction false} JoinChunks(g: Guard, d: Doc, lead: string)
    ensures |DocChunks(g, d, lead)| > 0
    ensures Join(DocChunks(g, d, lead), "") == lead + Render(g, Erase(d))
  {
    if d.Region? {
      JoinChunks(g, d.rest, g.end);
      assert DocChunks(g, d, lead)[1..] == DocChunks(g, d.rest, g.end);
    }
  }

  lemma {:induction false} ChunksDetermineFrame(g: Guard, d: Doc, d': Doc, lead: string)
    ensures DocChunks(g, d, lead) == DocChunks(g, d', lead) <==> Erase(d) == Erase(d')
  {
    var a, b := DocChunks(g, d, lead), DocChunks(g, d', lead);
    JoinChunks(g, d, lead);
    JoinChunks(g, d', lead);
    match d {
      case Plain(t) =>
        if d'.Plain? && a == b { assert a[0][|lead|..] == t && b[0][|lead|..] == d'.text; }
        if d'.Region? { JoinChunks(g, d'.rest, g.end); assert |b| > 1; }
      case Region(h, _, rest) =>
        JoinChunks(g, rest, g.end);
        if d'.Region? {
          ChunksDetermineFrame(g, rest, d'.rest, g.end);
          assert a[1..] == DocChunks(g, rest, g.end) && b[1..] == DocChunks(g, d'.rest, g.end);
          if a == b { assert a[0][|lead|..] == h && b[0][|lead|..] == d'.head; }
        } else {
          assert |a| > 1;
        }
    }
  }

  /** The code's chunks and projection, read off the structure. */
  lemma {:induction false} ChunksAndProjection(g: Guard, c: string)
    ensures Chunks(g, c) == DocChunks(g, ParseDoc(g, c), "")
    ensures Project(g, c) == Render(g, Erase(ParseDoc(g, c)))
  {
    ParsedRangesOrdered(g, c, 0, 0);
    ChunksOfDoc(g, c, 0, 0);
    assert c[0..] == c && c[0..0] == "";
    JoinChunks(g, ParseDoc(g, c), "");
  }

  // ----- what an accepted write keeps -----

  /** Re-parsing a projection finds as many regions, all empty, around the same chunks. */
  lemma {:induction false} ReparseProjection(g: Guard, c: string)
    ensures ParseDoc(g, Project(g, c)) == Erase(ParseDoc(g, c))
    ensures Chunks(g, Project(g, c)) == Chunks(g, c)
    ensures |ParseRanges(g, Project(g, c), 0)| == |ParseRanges(g, c, 0)|
    ensures forall r :: r in ParseRanges(g, Project(g, c), 0) ==> r.start == r.end
  {
    ChunksAndProjection(g, c);
    ChunksAndProjection(g, Project(g, c));
    RenderParse(g, c);
    var d := ParseDoc(g, c);
    EraseWellFormed(g, d);
    ParseRender(g, Erase(d));
    ChunksDetermineFrame(g, d, Erase(d), "");
    RangesOfDoc(g, c, 0);
    RangesOfDoc(g, Project(g, c), 0);
    assert c[0..] == c && Project(g, c)[0..] == Project(g, c);
    EraseRanges(g, d, 0, 0);
  }

  lemma {:induction false} EraseRanges(g: Guard, d: Doc, offset: nat, offset': nat)
    ensures |DocRanges(g, Erase(d), offset')| == |DocRanges(g, d, offset)|
    ensures forall r :: r in DocRanges(g, Erase(d), offset') ==> r.start == r.end
  {
    if d.Region? {
      EraseRanges(g, d.rest, offset + |d.head| + |d.body| + |g.end|, offset' + |d.head| + |g.end|);
    }
  }

  /** Equal projections mean equal protected chunks, pairwise: the concatenation parses uniquely. */
  lemma {:induction false} ProjectionDeterminesChunks(g: Guard, c: string, c': string)
    ensures Project(g, c) == Project(g, c') <==> Chunks(g, c) == Chunks(g, c')
    ensures Project(g, c) == Project(g, c') ==> |ParseRanges(g, c, 0)| == |ParseRanges(g, c', 0)|
  {
    ReparseProjection(g, c);
    ReparseProjection(g, c');
  }

  /**
    A write is accepted exactly when the file had no regions or the protected chunks are the same
    pairwise; the separate check that some region is left never decides.
  */
  lemma {:induction false} WriteAllowedIff(g: Guard, existing: string, next: string)
    ensures WriteAllowed(g, existing, next) <==>
            ParseRanges(g, existing, 0) == [] || Chunks(g, existing) == Chunks(g, next)
    ensures WriteAllowed(g, existing, next) && ParseRanges(g, existing, 0) != [] ==>
              |ParseRanges(g, existing, 0)| == |ParseRanges(g, next, 0)|
  {
    ProjectionDeterminesChunks(g, existing, next);
  }

  // ----- what an accepted edit keeps -----

  /** The first-match edit, applied to the region that holds the match. */
  function EditDoc(g: Guard, d: Doc, start: int, len: nat, text: string): Doc
  {
    match d
    case Plain(t) => d
    case Region(h, b, rest) =>
      if |h| <= start && start + len <= |h| + |b| then
        Region(h, Splice(b, start - |h|, len, text), rest)
      else
        Region(h, b, EditDoc(g, rest, start - |h| - |b| - |g.end|, len, text))
  }

  /** The replace-all edit, applied region by region. */
  function ReplaceInRegions(d: Doc, find: string, text: string): Doc
    requires find != ""
  {
    match d
    case Plain(t) => d
    case Region(h, b, rest) => Region(h, ReplaceAll(b, find, text), ReplaceInRegions(rest, find, text))
  }

  /** The file an edit should lead to: the old frame around new region texts. */
  function EditedDoc(g: Guard, c: string, find: string, text: string, all: bool): Doc
    requires find != ""
  {
    var d := ParseDoc(g, c);
    if all then ReplaceInRegions(d, find, text)
    else EditDoc(g, d, IndexOf(c, find, 0), |find|, text)
  }

  lemma {:induction false} DocRangesBounds(g: Guard, d: Doc, o: nat)
    ensures forall r :: r in DocRanges(g, d, o) ==> o <= r.start <= r.end <= o + |Render(g, d)|
  {
    if d.Region? { DocRangesBounds(g, d.rest, o + |d.head| + |d.body| + |g.end|); }
  }

  lemma {:induction false} EditDocSound(g: Guard, d: Doc, o: nat, m: nat, len: nat, text: string)
    requires len > 0 && WithinRanges(DocRanges(g, d, o), m, m + len)
    ensures o <= m && m + len <= o + |Render(g, d)|
    ensures Render(g, EditDoc(g, d, m - o, len, text)) == Splice(Render(g, d), m - o, len, text)
    ensures Erase(EditDoc(g, d, m - o, len, text)) == Erase(d)
  {
    hide Splice, WithinRanges, EditDoc, Render, Erase, DocRanges;
    RegionThere(g, d, o, m, len);
    var Region(h, b, rest) := d;
    MatchPlace(g, d, o, m, len);
    if o + |h| <= m && m + len <= o + |h| + |b| {
      EditHere(g, h, b, rest, m - o, len, text);
    } else {
      EditDocSound(g, rest, o + |h| + |b| + |g.end|, m, len, text);
      EditLater(g, h, b, rest, m - o, len, text);
    }
  }

  lemma {:induction false} RegionThere(g: Guard, d: Doc, o: nat, m: nat, len: nat)
    requires WithinRanges(DocRanges(g, d, o), m, m + len)
    ensures d.Region?
  {
  }

  lemma {:induction false} EditHere(g: Guard, h: string, b: string, rest: Doc, start: nat, len: nat, text: string)
    requires |h| <= start && start + len <= |h| + |b|
    ensures var d := Region(h, b, rest);
            && start + len <= |Render(g, d)|
            && Render(g, EditDoc(g, d, start, len, text)) == Splice(Render(g, d), start, len, text)
            && Erase(EditDoc(g, d, start, len, text)) == Erase(d)
  {
    hide Splice;
    SpliceInside(h, b, g.end + Render(g, rest), start, len, text);
  }

  lemma {:induction false} EditLater(g: Guard, h: string, b: string, rest: Doc, start: nat, len: nat, text: string)
    requires len > 0
    requires var k := |h| + |b| + |g.end|;
             && k <= start && start + len <= k + |Render(g, rest)|
             && Render(g, EditDoc(g, rest, start - k, len, text)) == Splice(Render(g, rest), start - k, len, text)
             && Erase(EditDoc(g, rest, start - k, len, text)) == Erase(rest)
    ensures var d := Region(h, b, rest);
            && start + len <= |Render(g, d)|
            && Render(g, EditDoc(g, d, start, len, text)) == Splice(Render(g, d), start, len, text)
            && Erase(EditDoc(g, d, start, len, text)) == Erase(d)
  {
    hide Splice;
    var lead, k := h + (b + g.end), |h| + |b| + |g.end|;
    var x, x' := Render(g, rest), Render(g, EditDoc(g, rest, start - k, len, text));
    SpliceInside(lead, x, "", start, len, text);
    assert x + "" == x && x' + "" == x';
    assert lead + x == h + (b + (g.end + x)) && lead + x' == h + (b + (g.end + x'));
  }

  /** A match inside some region lies in the first body or in a region after it. */
  lemma {:induction false} MatchPlace(g: Guard, d: Doc, o: nat, m: nat, len: nat)
    requires d.Region? && len > 0 && WithinRanges(DocRanges(g, d, o), m, m + len)
    ensures var q := o + |d.head| + |d.body|;
            (o + |d.head| <= m && m + len <= q) ||
            (q + |g.end| <= m && WithinRanges(DocRanges(g, d.rest, q + |g.end|), m, m + len))
  {
    var rs := DocRanges(g, d, o);
    var k :| 0 <= k < |rs| && rs[k].start <= m && m + len <= rs[k].end;
    if k > 0 {
      var n := o + |d.head| + |d.body| + |g.end|;
      DocRangesBounds(g, d.rest, n);
      assert DocRanges(g, d.rest, n)[k - 1] == rs[k];
    }
  }

  lemma {:induction false} ReplaceInRegionsSound(g: Guard, c: string, d: Doc, o: nat, find: string, text: string)
    requires find != "" && o <= |c| && c[o..] == Render(g, d)
    requires forall m :: m in MatchStarts(c, find, o) ==> WithinRanges(DocRanges(g, d, o), m, m + |find|)
    ensures ReplaceAll(Render(g, d), find, text) == Render(g, ReplaceInRegions(d, find, text))
    ensures Erase(ReplaceInRegions(d, find, text)) == Erase(d)
    decreases d
  {
    hide ReplaceAll, IndexOf, MatchesAt, MatchStarts;
    match d {
      case Plain(t) =>
        IndexOfDrop(c, find, o, 0);
        if IndexOf(c, find, o) >= 0 {
          NextMatch(c, find, o, IndexOf(c, find, o), IndexOf(c, find, o) + |find|);
        }
        ReplaceAllStep(t, find, text);
      case Region(h, b, rest) =>
        var p, q, n := o + |h|, o + |h| + |b|, o + |h| + |b| + |g.end|;
        forall m | m in MatchStarts(c, find, o)
          ensures (p <= m && m + |find| <= q) || (n <= m && WithinRanges(DocRanges(g, rest, n), m, m + |find|))
        {
          MatchPlace(g, d, o, m, |find|);
        }
        ReplaceRegion(c, h, b, g.end, Render(g, rest), o, n, find, text);
        ReplaceInRegionsSound(g, c, rest, n, find, text);
    }
  }

  // ----- which edits are accepted -----

  /** The `len` characters at `m` lie inside one region text of a file that stands `o` characters in. */
  predicate InBody(g: Guard, d: Doc, o: nat, m: nat, len: nat)
  {
    d.Region? &&
    var p := o + |d.head|;
    (p <= m && m + len <= p + |d.body|) || InBody(g, d.rest, p + |d.body| + |g.end|, m, len)
  }

  lemma {:induction false} WithinIffInBody(g: Guard, d: Doc, o: nat, m: nat, len: nat)
    ensures WithinRanges(DocRanges(g, d, o), m, m + len) <==> InBody(g, d, o, m, len)
  {
    if d.Region? {
      var first, p := Range(o + |d.head|, o + |d.head| + |d.body|), o + |d.head| + |d.body| + |g.end|;
      WithinIffInBody(g, d.rest, p, m, len);
      WithinCons(first, DocRanges(g, d.rest, p), m, m + len);
    }
  }

  lemma {:induction false} WithinCons(r: Range, rs: seq<Range>, start: nat, end: nat)
    ensures WithinRanges([r] + rs, start, end) <==> (r.start <= start && end <= r.end) || WithinRanges(rs, start, end)
  {
    var all := [r] + rs;
    if r.start <= start && end <= r.end { assert all[0] == r; }
    if WithinRanges(rs, start, end) {
      var k :| 0 <= k < |rs| && rs[k].start <= start && end <= rs[k].end;
      assert all[k + 1] == rs[k];
    }
  }

  /**
    A call of the edit tool goes through if and only if there is something to replace and either the file has
    no regions or what is replaced, the first match or all of them, lies inside the texts of regions.
  */
  lemma {:induction false} EditAcceptedIff(g: Guard, c: string, find: string, text: string, all: bool)
    ensures Accepted(g, c, Edit(find, text, all)) <==>
            && find != "" && IndexOf(c, find, 0) >= 0
            && (ParseDoc(g, c).Region? ==>
                  if all then forall m :: m in MatchStarts(c, find, 0) ==> InBody(g, ParseDoc(g, c), 0, m, |find|)
                  else InBody(g, ParseDoc(g, c), 0, IndexOf(c, find, 0), |find|))
  {
    hide FirstRegion, IndexOf, MatchesAt, ParseDoc, ParseRanges, InBody, WithinRanges, MatchStarts;
    if find != "" && IndexOf(c, find, 0) >= 0 {
      var d, i, starts := ParseDoc(g, c), IndexOf(c, find, 0), MatchStarts(c, find, 0);
      assert c[0..] == c;
      RangesOfDoc(g, c, 0);
      HasRegions(g, c);
      MatchStartsUnfold(c, find, 0);
      assert starts[..1] == [i];
      forall m: nat ensures WithinRanges(DocRanges(g, d, 0), m, m + |find|) <==> InBody(g, d, 0, m, |find|) {
        WithinIffInBody(g, d, 0, m, |find|);
      }
    }
  }

  // ----- counting END -----

  /** Places of a text where a needle occurs, overlapping or not. */
  function Occurrences(needle: string, s: string): nat
  {
    if s == "" then 0 else (if needle <= s then 1 else 0) + Occurrences(needle, s[1..])
  }

  ghost predicate NoneAcross(needle: string, x: string, y: string)
  {
    forall i :: 0 <= i < |x| < i + |needle| ==> !MatchesAt(x + y, needle, i)
  }

  lemma {:induction false} OccurrencesConcat(needle: string, x: string, y: string)
    requires needle != "" && NoneAcross(needle, x, y)
    ensures Occurrences(needle, x + y) == Occurrences(needle, x) + Occurrences(needle, y)
    decreases |x|
  {
    if x == "" {
      assert x + y == y;
    } else {
      var x' := x[1..];
      assert (x + y)[1..] == x' + y;
      forall i | 0 <= i < |x'| < i + |needle| ensures !MatchesAt(x' + y, needle, i) {
        MatchesInDrop(x + y, needle, 1, i);
      }
      OccurrencesConcat(needle, x', y);
      assert needle <= x + y <==> needle <= x by {
        assert !(|x| < |needle| && MatchesAt(x + y, needle, 0));
      }
    }
  }

  lemma {:induction false} OccurrencesNone(needle: string, s: string)
    requires needle != ""
    ensures Occurrences(needle, s) == 0 <==> IndexOf(s, needle, 0) < 0
    decreases |s|
  {
    if s != "" {
      OccurrencesNone(needle, s[1..]);
      assert needle <= s <==> MatchesAt(s, needle, 0);
      IndexOfDrop(s, needle, 1, 0);
      var i := IndexOf(s, needle, 0);
      if i > 0 { assert !MatchesAt(s, needle, 0) && MatchesAt(s, needle, i); }
    }
  }

  /** END occurrences in the frame of a file: its heads, its closing markers, its tail. */
  function FrameEnds(g: Guard, d: Doc): nat
  {
    match d
    case Plain(t) => Occurrences(g.end, t)
    case Region(h, b, rest) => Occurrences(g.end, h) + 1 + FrameEnds(g, rest)
  }

  function BodyEnds(g: Guard, d: Doc): nat
  {
    match d
    case Plain(t) => 0
    case Region(h, b, rest) => Occurrences(g.end, b) + BodyEnds(g, rest)
  }

  predicate HeadsFit(g: Guard, d: Doc)
  {
    d.Region? ==> IsHead(g, d.head) && HeadsFit(g, d.rest)
  }

  /** No END runs over the line break that ends a head. */
  lemma {:induction false} NoneAcrossHead(g: Guard, h: string, y: string)
    requires IsHead(g, h)
    ensures NoneAcross(g.end, h, y)
  {
    assert h[|h| - 1..|h|] == "\n" && h[|h| - 1] == h[|h| - 1..|h|][0];
    forall i | 0 <= i < |h| < i + |g.end| ensures !MatchesAt(h + y, g.end, i) {
      assert i + |g.end| <= |h + y| ==> (h + y)[i..i + |g.end|][|h| - 1 - i] == h[|h| - 1];
    }
  }

  /** No END runs into or out of a closing marker. */
  lemma {:induction false} NoneAcrossEnd(g: Guard, b: string, y: string)
    ensures NoneAcross(g.end, b, g.end + y) && NoneAcross(g.end, g.end, y)
    ensures Occurrences(g.end, g.end) == 1
  {
    var c, e := b + (g.end + y), g.end + y;
    assert c[|b|..|b| + |g.end|] == g.end && MatchesAt(c, g.end, |b|);
    assert e[0..|g.end|] == g.end && MatchesAt(e, g.end, 0);
    forall i | 0 <= i < |b| < i + |g.end| ensures !MatchesAt(c, g.end, i) {
      if MatchesAt(c, g.end, i) { EndNoOverlap(g, c, i, |b|); }
    }
    forall i | 0 <= i < |g.end| < i + |g.end| ensures !MatchesAt(e, g.end, i) {
      if MatchesAt(e, g.end, i) { EndNoOverlap(g, e, 0, i); }
    }
    OccurrencesShort(g.end, g.end[1..]);
  }

  lemma {:induction false} OccurrencesShort(needle: string, s: string)
    requires |s| < |needle|
    ensures Occurrences(needle, s) == 0
    decreases |s|
  {
    if s != "" { OccurrencesShort(needle, s[1..]); }
  }

  /** Every END of a file lies in its frame or inside a body. */
  lemma {:induction false} EndsOfRender(g: Guard, d: Doc)
    requires HeadsFit(g, d)
    ensures Occurrences(g.end, Render(g, d)) == FrameEnds(g, d) + BodyEnds(g, d)
    ensures BodyEnds(g, d) == 0 <==> BodiesClosed(g, d)
  {
    hide IsHead, IndexOf, Occurrences, NoneAcross;
    if d.Region? {
      var r := Render(g, d.rest);
      EndsOfRender(g, d.rest);
      NoneAcrossHead(g, d.head, d.body + (g.end + r));
      NoneAcrossEnd(g, d.body, r);
      OccurrencesConcat(g.end, d.head, d.body + (g.end + r));
      OccurrencesConcat(g.end, d.body, g.end + r);
      OccurrencesConcat(g.end, g.end, r);
      OccurrencesNone(g.end, d.body);
    }
  }

  lemma {:induction false} SameFrame(g: Guard, d: Doc, d': Doc)
    requires Erase(d) == Erase(d')
    ensures FrameEnds(g, d) == FrameEnds(g, d') && HeadsFit(g, d) == HeadsFit(g, d')
  {
    hide IsHead, Occurrences;
    if d.Region? { SameFrame(g, d.rest, d'.rest); }
  }

  lemma {:induction false} ParsedFits(g: Guard, d: Doc)
    requires WellFormed(g, d)
    ensures HeadsFit(g, d) && BodiesClosed(g, d)
  {
    hide IsHead, Closed, FirstRegion;
    if d.Region? { ParsedFits(g, d.rest); }
  }

  /** A text has one reading with a given frame, even among readings whose bodies hold END. */
  lemma {:induction false} FrameAndTextDetermine(g: Guard, d: Doc, d': Doc)
    requires WellFormed(g, d) && Erase(d) == Erase(d') && Render(g, d) == Render(g, d')
    ensures d == d'
  {
    hide WellFormed, FirstRegion, Closed;
    ParsedFits(g, d);
    SameFrame(g, d, d');
    EndsOfRender(g, d);
    EndsOfRender(g, d');
    SameFrameWellFormed(g, d, d');
    ParseRender(g, d);
    ParseRender(g, d');
  }

  /** What the edit tool writes once the edit is accepted. */
  function EditedText(c: string, find: string, text: string, all: bool): string
    requires find != ""
  {
    if all then ReplaceAll(c, find, text) else ReplaceFirst(c, find, text)
  }

  /**
    An accepted edit leaves every protected chunk where it was, around new region texts.  The guard
    still sees the same protected chunks if and only if no new region text holds END, and then the
    file parses to just those regions.
  */
  lemma {:induction false} EditKeepsFrame(g: Guard, c: string, find: string, text: string, all: bool)
    requires find != "" && IndexOf(c, find, 0) >= 0
    requires ParseRanges(g, c, 0) != [] && EditAllowed(g, c, find, all)
    ensures var d, next := EditedDoc(g, c, find, text, all), EditedText(c, find, text, all);
            && next == Render(g, d)
            && Erase(d) == Erase(ParseDoc(g, c))
            && (BodiesClosed(g, d) ==> ParseDoc(g, next) == d)
            && (Chunks(g, next) == Chunks(g, c) <==> BodiesClosed(g, d))
  {
    hide FirstRegion, IndexOf, MatchesAt, ReplaceAll, Chunks;
    var p := ParseDoc(g, c);
    var i := IndexOf(c, find, 0);
    assert c[0..] == c;
    RangesOfDoc(g, c, 0);
    RenderParse(g, c);
    NextMatch(c, find, 0, i, i + |find|);
    if all {
      ReplaceInRegionsSound(g, c, p, 0, find, text);
    } else {
      assert MatchStarts(c, find, 0)[..1] == [i];
      EditDocSound(g, p, 0, i, |find|, text);
    }
    var d, next := EditedDoc(g, c, find, text, all), EditedText(c, find, text, all);
    SameFrameWellFormed(g, p, d);
    RenderParse(g, next);
    var d2 := ParseDoc(g, next);
    ChunksAndProjection(g, c);
    ChunksAndProjection(g, next);
    ChunksDetermineFrame(g, p, d2, "");
    if Erase(d2) == Erase(d) { FrameAndTextDetermine(g, d2, d); }
    if BodiesClosed(g, d) { ParseRender(g, d); }
  }

  // ----- whole runs -----

  datatype Op = Write(next: string) | Edit(find: string, text: string, all: bool)

  predicate Accepted(g: Guard, c: string, op: Op)
  {
    match op
    case Write(next) => WriteAllowed(g, c, next)
    case Edit(find, _, all) => find != "" && IndexOf(c, find, 0) >= 0 && EditAllowed(g, c, find, all)
  }

  /** The file after one tool call; a refused call leaves it alone. */
  function Apply(g: Guard, c: string, op: Op): string
  {
    if !Accepted(g, c, op) then c
    else if op.Write? then op.next
    else EditedText(c, op.find, op.text, op.all)
  }

  /** Decidable before the call: the edit puts no END into a region. */
  predicate KeepsEndOut(g: Guard, c: string, op: Op)
  {
    op.Edit? && Accepted(g, c, op) ==> BodiesClosed(g, EditedDoc(g, c, op.find, op.text, op.all))
  }

  function Run(g: Guard, c: string, ops: seq<Op>): string
    decreases |ops|
  {
    if ops == [] then c else Run(g, Apply(g, c, ops[0]), ops[1..])
  }

  predicate RunKeepsEndOut(g: Guard, c: string, ops: seq<Op>)
    decreases |ops|
  {
    ops == [] || (KeepsEndOut(g, c, ops[0]) && RunKeepsEndOut(g, Apply(g, c, ops[0]), ops[1..]))
  }

  lemma {:induction false} ChunkCount(g: Guard, c: string, c': string)
    requires Chunks(g, c) == Chunks(g, c')
    ensures |ParseRanges(g, c, 0)| == |ParseRanges(g, c', 0)|
  {
    ProjectionDeterminesChunks(g, c, c');
  }

  /** END occurrences of a whole file are those of its protected text. */
  lemma {:induction false} EndsOfFile(g: Guard, c: string)
    ensures Occurrences(g.end, c) == FrameEnds(g, ParseDoc(g, c))
    ensures HeadsFit(g, ParseDoc(g, c))
  {
    hide WellFormed, FirstRegion, Occurrences;
    RenderParse(g, c);
    ParsedFits(g, ParseDoc(g, c));
    EndsOfRender(g, ParseDoc(g, c));
  }

  lemma {:induction false} SameChunksSameEnds(g: Guard, c: string, c': string)
    requires Chunks(g, c) == Chunks(g, c')
    ensures Occurrences(g.end, c) == Occurrences(g.end, c')
  {
    hide Chunks, Occurrences;
    ChunksAndProjection(g, c);
    ChunksAndProjection(g, c');
    ChunksDetermineFrame(g, ParseDoc(g, c), ParseDoc(g, c'), "");
    SameFrame(g, ParseDoc(g, c), ParseDoc(g, c'));
    EndsOfFile(g, c);
    EndsOfFile(g, c');
  }

  /** A file that reads as a region is found to have one, whatever its bodies hold. */
  lemma {:induction false} StillHasRegions(g: Guard, d: Doc)
    requires d.Region? && IsHead(g, d.head)
    ensures ParseRanges(g, Render(g, d), 0) != []
  {
    hide IndexOf, FirstRegion, MatchesAt;
    var tail := d.body + (g.end + Render(g, d.rest));
    var i := IndexOf(tail, g.end, 0);
    assert i >= 0 by { EndSomewhere(g, d.body, Render(g, d.rest)); }
    FirstEndSplits(g, tail, i);
    RegionFound(g, d.head, tail[..i], tail[i + |g.end|..]);
    ParseRangesUnfold(g, Render(g, d), 0);
  }

  lemma {:induction false} EndSomewhere(g: Guard, b: string, r: string)
    ensures IndexOf(b + (g.end + r), g.end, 0) >= 0
  {
    assert (b + (g.end + r))[|b|..|b| + |g.end|] == g.end && MatchesAt(b + (g.end + r), g.end, |b|);
  }

  lemma {:induction false} FirstEndSplits(g: Guard, t: string, i: nat)
    requires i == IndexOf(t, g.end, 0)
    ensures i + |g.end| <= |t| && t == t[..i] + (g.end + t[i + |g.end|..]) && Closed(g, t[..i])
  {
    assert t[i..i + |g.end|] == g.end;
    assert t[i..] == g.end + t[i + |g.end|..];
    assert t == t[..i] + t[i..];
    var j := IndexOf(t[..i], g.end, 0);
    if j >= 0 {
      MatchesInTake(t[..i], t[i..], g.end, j);
    }
  }

  /** An accepted call never lowers the number of ENDs, and keeps it exactly when it keeps END out of regions. */
  lemma {:induction false} StepEnds(g: Guard, c: string, op: Op)
    requires ParseRanges(g, c, 0) != []
    ensures var next := Apply(g, c, op);
            && ParseRanges(g, next, 0) != []
            && (if KeepsEndOut(g, c, op) then Chunks(g, next) == Chunks(g, c)
                else Occurrences(g.end, next) > Occurrences(g.end, c))
  {
    hide ParseRanges, Chunks, Occurrences, EditedDoc, EditedText, EditAllowed, WriteAllowed;
    var next := Apply(g, c, op);
    if !Accepted(g, c, op) {
    } else if op.Write? {
      WriteAllowedIff(g, c, next);
      ChunkCount(g, c, next);
    } else {
      EditEnds(g, c, op.find, op.text, op.all);
      EditKeepsFrame(g, c, op.find, op.text, op.all);
    }
  }

  lemma {:induction false} EditEnds(g: Guard, c: string, find: string, text: string, all: bool)
    requires find != "" && IndexOf(c, find, 0) >= 0
    requires ParseRanges(g, c, 0) != [] && EditAllowed(g, c, find, all)
    ensures var d, next := EditedDoc(g, c, find, text, all), EditedText(c, find, text, all);
            && ParseRanges(g, next, 0) != []
            && Occurrences(g.end, next) == Occurrences(g.end, c) + BodyEnds(g, d)
            && (BodyEnds(g, d) == 0 <==> BodiesClosed(g, d))
  {
    hide ParseRanges, Chunks, Occurrences, EditedDoc, EditedText, EditAllowed, IndexOf;
    var d := EditedDoc(g, c, find, text, all);
    EditKeepsFrame(g, c, find, text, all);
    EndsOfFile(g, c);
    SameFrame(g, d, ParseDoc(g, c));
    EndsOfRender(g, d);
    HasRegions(g, c);
    StillHasRegions(g, d);
  }

  lemma {:induction false} HasRegions(g: Guard, c: string)
    ensures ParseRanges(g, c, 0) != [] <==> ParseDoc(g, c).Region?
  {
    assert c[0..] == c;
    RangesOfDoc(g, c, 0);
  }

  lemma {:induction false} RunEnds(g: Guard, c: string, ops: seq<Op>)
    requires ParseRanges(g, c, 0) != []
    ensures Occurrences(g.end, Run(g, c, ops)) >= Occurrences(g.end, c)
    ensures RunKeepsEndOut(g, c, ops) ==> Chunks(g, Run(g, c, ops)) == Chunks(g, c)
    ensures !RunKeepsEndOut(g, c, ops) ==> Occurrences(g.end, Run(g, c, ops)) > Occurrences(g.end, c)
    decreases |ops|
  {
    hide ParseRanges, Chunks, Occurrences, KeepsEndOut, Apply;
    if ops != [] {
      var next := Apply(g, c, ops[0]);
      StepEnds(g, c, ops[0]);
      RunEnds(g, next, ops[1..]);
      if KeepsEndOut(g, c, ops[0]) { SameChunksSameEnds(g, next, c); }
    }
  }

  /**
    The protected chunks of the first version are there at the end of a run of writes and edits, accepted or
    refused, if and only if no accepted edit of the run put END into a region: once one did, no later call
    brings the first chunks back.
  */
  lemma {:induction false} RunKeepsChunks(g: Guard, c: string, ops: seq<Op>)
    requires ParseRanges(g, c, 0) != []
    ensures Chunks(g, Run(g, c, ops)) == Chunks(g, c) <==> RunKeepsEndOut(g, c, ops)
  {
    hide ParseRanges, Chunks, Occurrences, Run, RunKeepsEndOut;
    RunEnds(g, c, ops);
    if Chunks(g, Run(g, c, ops)) == Chunks(g, c) { SameChunksSameEnds(g, Run(g, c, ops), c); }
  }

  // ----- the guard and the tools -----

  method AssertWriteWithinAllowedRanges(g: Guard, existing: string, next: string) returns (allowed: bool)
    ensures allowed == WriteAllowed(g, existing, next)
  {
    var before := ParseEditableRanges(g, existing);
    if |before| == 0 { return true; }
    var after := ParseEditableRanges(g, next);
    if |after| == 0 { return false; }
    var beforeProtected := ProjectNonEditableContent(g, existing, before);
    var afterProtected := ProjectNonEditableContent(g, next, after);
    return beforeProtected == afterProtected;
  }

  method AssertEditWithinAllowedRanges(g: Guard, content: string, find: string, all: bool) returns (allowed: bool)
    requires find != ""
    ensures allowed == EditAllowed(g, content, find, all)
  {
    hide IndexOf, FirstRegion, MatchStarts, ParseRanges, WithinRanges;
    var ranges := ParseEditableRanges(g, content);
    if |ranges| == 0 { return true; }
    var matches := CollectMatchRanges(content, find);
    ghost var starts := MatchStarts(content, find, 0);
    if |matches| == 0 { return true; }
    var targets := if all then matches else [matches[0]];
    ghost var targetStarts := if all then starts else starts[..1];
    for i := 0 to |targets|
      invariant forall k :: 0 <= k < i ==> WithinRanges(ranges, targetStarts[k], targetStarts[k] + |find|)
    {
      if !WithinRanges(ranges, targets[i].start, targets[i].end) {
        assert targetStarts[i] in targetStarts;
        return false;
      }
    }
    return true;
  }

  /** One file behind the `write` and `edit` tools. */
  class GuardedFile {
    var content: string

    constructor (initial: string)
      ensures content == initial
    {
      content := initial;
    }

    method Write(g: Guard, next: string) returns (ok: bool)
      modifies this
      ensures ok == Accepted(g, old(content), Op.Write(next))
      ensures content == Apply(g, old(content), Op.Write(next))
    {
      ok := AssertWriteWithinAllowedRanges(g, content, next);
      if ok { content := next; }
    }

    method Edit(g: Guard, find: string, text: string, all: bool) returns (ok: bool)
      modifies this
      ensures ok == Accepted(g, old(content), Op.Edit(find, text, all))
      ensures content == Apply(g, old(content), Op.Edit(find, text, all))
    {
      if find == "" || IndexOf(content, find, 0) < 0 { return false; }
      ok := AssertEditWithinAllowedRanges(g, content, find, all);
      if ok { content := EditedText(content, find, text, all); }
    }
  }

  // ----- the markers in use -----

  const T560 := Markers("T560_EDITABLE_START", "T560_EDITABLE_END")

  /** A text whose first character comes back at one place only, and differently continued, has no border. */
  lemma {:induction false} BorderFree(e: string, p: nat)
    requires 1 < |e| && p + 1 < |e| && e[p + 1] != e[1] && forall d :: 0 < d < |e| && d != p ==> e[d] != e[0]
    ensures forall d :: 0 < d < |e| ==> e[d..] != e[..|e| - d]
  {
    forall d | 0 < d < |e| ensures e[d..] != e[..|e| - d] {
      assert e[d..][0] == e[d] && e[..|e| - d][0] == e[0];
      if d == p && d < |e| - 1 { assert e[d..][1] == e[d + 1] && e[..|e| - d][1] == e[1]; }
    }
  }

  lemma {:induction false} T560Valid()
    ensures ValidMarkers(T560)
  {
    assert T560.end[1] == '5' && T560.end[9] == 'A';
    BorderFree(T560.end, 8);
  }

  /** An accepted edit that writes END into a region does change the protected text. */
  lemma {:induction false} EndInReplacement(g: Guard)
    requires '#' !in g.start && '#' !in g.end && |g.end| < |g.start|
    ensures var c := g.start + "\n" + ("#" + g.end);
            && ParseRanges(g, c, 0) != []
            && EditAllowed(g, c, "#", false)
            && Chunks(g, EditedText(c, "#", g.end, false)) != Chunks(g, c)
  {
    hide FirstRegion, IndexOf, MatchesAt, ParseRanges, Chunks, ParseDoc;
    var h := g.start + "\n";
    var c := h + ("#" + g.end);
    var d := Region(h, "#", Plain(""));
    SampleHead(g, h);
    SampleMatch(h, g.end);
    assert g.end + "" == g.end;
    ParseRender(g, d);
    RangesOfDoc(g, c, 0);
    assert c[0..] == c;
    assert MatchStarts(c, "#", 0)[..1] == [|h|];
    assert DocRanges(g, d, 0)[0] == Range(|h|, |h| + 1);
    EditKeepsFrame(g, c, "#", g.end, false);
    var d' := Region(h, "", Plain(g.end));
    var next := EditedText(c, "#", g.end, false);
    assert next == Render(g, d') by {
      assert c[..|h|] == h && c[|h| + 1..] == g.end;
      assert h + g.end + g.end == h + ("" + (g.end + g.end));
    }
    ParseRender(g, d');
    ChunksAndProjection(g, c);
    ChunksAndProjection(g, next);
    ChunksDetermineFrame(g, d, d', "");
  }

  lemma {:induction false} SampleMatch(h: string, e: string)
    requires '#' !in h
    ensures IndexOf(h + ("#" + e), "#", 0) == |h|
  {
    var c := h + ("#" + e);
    assert c[|h|..|h| + 1] == "#" && MatchesAt(c, "#", |h|);
    forall k | 0 <= k < |h| ensures !MatchesAt(c, "#", k) {
      assert c[k..k + 1][0] == h[k];
    }
  }

  lemma {:induction false} SampleHead(g: Guard, h: string)
    requires h == g.start + "\n"
    ensures IsHead(g, h)
    ensures Closed(g, "") && ('#' !in g.end ==> Closed(g, "#"))
    ensures |g.end| < |g.start| ==> FirstRegion(g, g.end, 0).None?
    ensures FirstRegion(g, "", 0).None?
  {
    assert MatchesAt(h, g.start, 0);
    assert h[|g.start|..|g.start| + 1] == "\n" && MatchesAt(h, "\n", |g.start|);
    forall k | 0 <= k < |g.start| ensures !MatchesAt(h, "\n", k) {
      assert h[k..k + 1][0] == g.start[k];
    }
    if MatchesAt("#", g.end, 0) { assert g.end[0] == '#'; }
  }
}
