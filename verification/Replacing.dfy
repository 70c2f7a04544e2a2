/**
  Find and replace on texts: where a needle is found from the left without overlap, and what replacing the
  first or every occurrence does to the pieces of a text that no match crosses.  These are JavaScript's
  `replace` with a string and `split` followed by `join`; the file tools use both.  Nothing here knows about
  regions: the pieces are arbitrary, and a match may fall anywhere a piece allows.
*/
module Replacing {
  import opened Text

  function MatchStarts(c: string, needle: string, cursor: nat): seq<nat>
    requires needle != ""
    decreases |c| - cursor
  {
    var i := IndexOf(c, needle, cursor);
    if i < 0 then [] else [i] + MatchStarts(c, needle, i + |needle|)
  }

  lemma {:induction false} MatchStartsUnfold(c: string, needle: string, cursor: nat)
    requires needle != ""
    ensures var i := IndexOf(c, needle, cursor);
            MatchStarts(c, needle, cursor) == if i < 0 then [] else [i] + MatchStarts(c, needle, i + |needle|)
    ensures cursor > |c| ==> MatchStarts(c, needle, cursor) == []
  {
  }

  /** `content.split(find).join(text)` */
  function ReplaceAll(c: string, find: string, text: string): string
    requires find != ""
  {
    Join(Split(c, find), text)
  }

  /** `content.replace(find, ...)`, with `text` the expanded replacement. */
  function ReplaceFirst(c: string, find: string, text: string): string
    requires find != ""
  {
    var i := IndexOf(c, find, 0);
    if i < 0 then c else Splice(c, i, |find|, text)
  }

  function Splice(c: string, s: nat, len: nat, text: string): string
    requires s + len <= |c|
  {
    c[..s] + text + c[s + len..]
  }

  lemma {:induction false} SpliceInside(x: string, b: string, y: string, s: nat, len: nat, text: string)
    requires |x| <= s && s + len <= |x| + |b|
    ensures Splice(x + (b + y), s, len, text) == x + (Splice(b, s - |x|, len, text) + y)
  {
    assert (x + (b + y))[..s] == x + b[..s - |x|];
    assert (x + (b + y))[s + len..] == b[s - |x| + len..] + y;
  }

  lemma {:induction false} ReplaceAllStep(c: string, find: string, text: string)
    requires find != ""
    ensures var i := IndexOf(c, find, 0);
            ReplaceAll(c, find, text) == if i < 0 then c else c[..i] + text + ReplaceAll(c[i + |find|..], find, text)
  {
    var i := IndexOf(c, find, 0);
    if i >= 0 {
      assert Split(c, find)[1..] == Split(c[i + |find|..], find);
    }
  }

  lemma {:induction false} FirstMatchAfter(x: string, y: string, find: string)
    requires var i := IndexOf(x + y, find, 0); i < 0 || |x| <= i
    ensures var i, j := IndexOf(x + y, find, 0), IndexOf(y, find, 0); (i < 0 && j < 0) || i == |x| + j
  {
    IndexOfDrop(x + y, find, |x|, 0);
    assert (x + y)[|x|..] == y;
    var i, j := IndexOf(x + y, find, 0), IndexOf(y, find, 0);
    if i >= 0 { assert MatchesAt(x + y, find, i); }
    if j >= 0 { assert MatchesAt(x + y, find, |x| + j); }
  }

  /** Text in front of the first match is copied. */
  lemma {:induction false} ReplaceAllSkip(x: string, y: string, find: string, text: string)
    requires find != ""
    requires var i := IndexOf(x + y, find, 0); i < 0 || |x| <= i
    ensures ReplaceAll(x + y, find, text) == x + ReplaceAll(y, find, text)
  {
    hide ReplaceAll, IndexOf, MatchesAt;
    var i, j := IndexOf(x + y, find, 0), IndexOf(y, find, 0);
    FirstMatchAfter(x, y, find);
    ReplaceAllStep(x + y, find, text);
    ReplaceAllStep(y, find, text);
    if 0 <= i && 0 <= j {
      assert (x + y)[..i] == x + y[..j];
      assert (x + y)[i + |find|..] == y[j + |find|..];
    }
  }

  /** No match found from `p` on crosses position `q`. */
  ghost predicate NoneCrosses(c: string, find: string, p: nat, q: nat)
    requires find != ""
  {
    forall m :: m in MatchStarts(c, find, p) && m < q ==> m + |find| <= q
  }

  /** If no match crosses q, the matches found from q on are among those found from p on. */
  lemma {:induction false} MatchesRestart(c: string, find: string, p: nat, q: nat)
    requires find != "" && p <= q && NoneCrosses(c, find, p, q)
    ensures forall m :: m in MatchStarts(c, find, q) ==> m in MatchStarts(c, find, p)
    decreases q - p
  {
    hide IndexOf, MatchesAt;
    var i := IndexOf(c, find, p);
    if i < 0 || q <= i {
      SkipMatches(c, find, p, q);
    } else {
      var k := i + |find|;
      NextMatch(c, find, p, i, k);
      MatchesRestart(c, find, k, q);
    }
  }

  lemma {:induction false} NextMatch(c: string, find: string, p: nat, i: int, k: nat)
    requires find != "" && i == IndexOf(c, find, p) >= 0 && k == i + |find|
    ensures i in MatchStarts(c, find, p)
    ensures forall m :: m in MatchStarts(c, find, k) ==> m in MatchStarts(c, find, p)
  {
    assert MatchStarts(c, find, p) == [i] + MatchStarts(c, find, k);
  }

  lemma {:induction false} IndexOfFitting(b: string, y: string, find: string)
    requires find != ""
    ensures var i := IndexOf(b + y, find, 0);
            IndexOf(b, find, 0) == if 0 <= i && i + |find| <= |b| then i else -1
  {
    var i, j := IndexOf(b + y, find, 0), IndexOf(b, find, 0);
    if j >= 0 { IndexOfPrefix(b, y, find, 0); }
    if 0 <= i && i + |find| <= |b| { MatchesInTake(b, y, find, i); }
  }

  lemma {:induction false} NoneCrossesNext(c: string, find: string, p: nat, q: nat, i: int)
    requires find != "" && NoneCrosses(c, find, p, q) && i == IndexOf(c, find, p) && 0 <= i < q
    ensures i + |find| <= q && NoneCrosses(c, find, i + |find|, q)
  {
    hide IndexOf;
    NextMatch(c, find, p, i, i + |find|);
  }

  /** A body whose matches do not stick out is replaced on its own. */
  lemma {:induction false} ReplaceAllBody(c: string, p: nat, b: string, y: string, find: string, text: string)
    requires find != "" && p <= |c| && c[p..] == b + y
    requires NoneCrosses(c, find, p, p + |b|)
    ensures ReplaceAll(b + y, find, text) == ReplaceAll(b, find, text) + ReplaceAll(y, find, text)
    decreases |b|
  {
    hide ReplaceAll, IndexOf, MatchesAt, MatchStarts, NoneCrosses;
    IndexOfDrop(c, find, p, 0);
    IndexOfFitting(b, y, find);
    ReplaceAllStep(b, find, text);
    var i := IndexOf(b + y, find, 0);
    if i < 0 || |b| <= i {
      ReplaceAllSkip(b, y, find, text);
    } else {
      var k := i + |find|;
      NoneCrossesNext(c, find, p, p + |b|, p + i);
      assert c[p + k..] == (b + y)[k..] == b[k..] + y;
      ReplaceAllBody(c, p + k, b[k..], y, find, text);
      ReplaceAllStep(b + y, find, text);
      assert (b + y)[..i] == b[..i];
    }
  }

  lemma {:induction false} SkipMatches(c: string, find: string, p: nat, q: nat)
    requires find != "" && p <= q
    requires var i := IndexOf(c, find, p); i < 0 || q <= i
    ensures IndexOf(c, find, q) == IndexOf(c, find, p)
    ensures MatchStarts(c, find, q) == MatchStarts(c, find, p)
  {
    var i, j := IndexOf(c, find, p), IndexOf(c, find, q);
    if i >= 0 { assert MatchesAt(c, find, i); }
    if j >= 0 { assert MatchesAt(c, find, j); }
  }

  lemma {:induction false} MatchStartsBounds(c: string, find: string, k: nat)
    requires find != ""
    ensures forall m :: m in MatchStarts(c, find, k) ==> k <= m
    decreases |c| - k
  {
    var i := IndexOf(c, find, k);
    if i >= 0 { MatchStartsBounds(c, find, i + |find|); }
  }

  /** Replace-all on a text that begins with a region: head and end marker are copied. */
  lemma {:induction false} ReplaceRegion(c: string, h: string, b: string, e: string, z: string, o: nat, n: nat,
      find: string, text: string)
    requires find != "" && o <= |c| && n == o + |h| + |b| + |e|
    requires c[o..] == h + (b + (e + z))
    requires forall m :: m in MatchStarts(c, find, o) ==>
               (o + |h| <= m && m + |find| <= o + |h| + |b|) || n <= m
    ensures n <= |c| && c[n..] == z
    ensures forall m :: m in MatchStarts(c, find, n) ==> n <= m && m in MatchStarts(c, find, o)
    ensures ReplaceAll(c[o..], find, text) == h + (ReplaceAll(b, find, text) + (e + ReplaceAll(z, find, text)))
  {
    hide MatchStarts, ReplaceAll, IndexOf, MatchesAt;
    SkipPart(c, o, h, b + (e + z), find, text);
    ReplaceBodyAndEnd(c, b, e, z, o + |h|, n, find, text);
  }

  lemma {:induction false} ReplaceBodyAndEnd(c: string, b: string, e: string, z: string, p: nat, n: nat,
      find: string, text: string)
    requires find != "" && p <= |c| && n == p + |b| + |e|
    requires c[p..] == b + (e + z)
    requires forall m :: m in MatchStarts(c, find, p) ==> m + |find| <= p + |b| || n <= m
    ensures n <= |c| && c[n..] == z
    ensures forall m :: m in MatchStarts(c, find, n) ==> n <= m && m in MatchStarts(c, find, p)
    ensures ReplaceAll(b + (e + z), find, text) == ReplaceAll(b, find, text) + (e + ReplaceAll(z, find, text))
  {
    hide MatchStarts, ReplaceAll, IndexOf, MatchesAt;
    var q := p + |b|;
    ReplaceAllBody(c, p, b, e + z, find, text);
    MatchesRestart(c, find, p, q);
    assert c[q..] == c[p..][|b|..] == e + z;
    MatchStartsBounds(c, find, q);
    SkipPart(c, q, e, z, find, text);
  }

  /** Copying a stretch that no match starts in. */
  lemma {:induction false} SkipPart(c: string, o: nat, x: string, y: string, find: string, text: string)
    requires find != "" && o <= |c| && c[o..] == x + y
    requires forall m :: m in MatchStarts(c, find, o) ==> o + |x| <= m
    ensures c[o + |x|..] == y
    ensures MatchStarts(c, find, o + |x|) == MatchStarts(c, find, o)
    ensures ReplaceAll(x + y, find, text) == x + ReplaceAll(y, find, text)
  {
    hide ReplaceAll, MatchesAt;
    IndexOfDrop(c, find, o, 0);
    var i := IndexOf(c, find, o);
    assert i >= 0 ==> i in MatchStarts(c, find, o);
    SkipMatches(c, find, o, o + |x|);
    ReplaceAllSkip(x, y, find, text);
    assert c[o + |x|..] == c[o..][|x|..];
  }
}
