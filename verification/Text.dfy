/**
  Sequence searching and text trimming shared by the engines: the runtime's `indexOf`, `split`, `join`, `trim`
  and `toLowerCase`.  Searching and splitting work on sequences of any type with equality.  Blank characters
  are those of JavaScript's `trim` and of `\\s` in its regular expressions; lower case is that of the ASCII
  letters.  The definitions say what the runtime's functions return, not how they compute it: `IndexOf` is
  the first match, and the laws below are the ones the engines need of it.
*/
module Text {

  datatype Option<+T> = None | Some(value: T)

  const CRLF := "\r\n"

  /** The last `n` elements, or all of them. */
  function LastN<T>(s: seq<T>, n: nat): (r: seq<T>)
    ensures |r| == if |s| <= n then |s| else n
  {
    if |s| <= n then s else s[|s| - n..]
  }

  predicate MatchesAt<T(==)>(s: seq<T>, needle: seq<T>, i: int)
  {
    0 <= i && i + |needle| <= |s| && s[i..i + |needle|] == needle
  }

  predicate FirstMatch<T(==)>(s: seq<T>, needle: seq<T>, from: nat, i: int)
  {
    from <= i <= |s| && MatchesAt(s, needle, i) && forall k :: from <= k < i ==> !MatchesAt(s, needle, k)
  }

  /** First index at or after `from` where `needle` occurs, or -1. */
  function IndexOf<T(==)>(s: seq<T>, needle: seq<T>, from: nat): (i: int)
    ensures i == -1 || (from <= i <= |s| - |needle| && MatchesAt(s, needle, i))
    ensures forall k :: from <= k && (i == -1 || k < i) ==> !MatchesAt(s, needle, k)
  {
    if exists k :: from <= k <= |s| && MatchesAt(s, needle, k) then
      FirstMatchExists(s, needle, from);
      var i :| FirstMatch(s, needle, from, i) && from <= i <= |s|; i
    else -1
  }

  lemma {:induction false} FirstMatchExists<T>(s: seq<T>, needle: seq<T>, from: nat)
    requires exists k :: from <= k <= |s| && MatchesAt(s, needle, k)
    ensures exists i :: FirstMatch(s, needle, from, i)
    decreases |s| - from
  {
    if MatchesAt(s, needle, from) {
      assert FirstMatch(s, needle, from, from);
    } else {
      FirstMatchExists(s, needle, from + 1);
      var i :| FirstMatch(s, needle, from + 1, i);
      assert FirstMatch(s, needle, from, i);
    }
  }

  lemma {:induction false} MatchesInDrop<T>(s: seq<T>, needle: seq<T>, k: nat, i: nat)
    requires k <= |s|
    ensures MatchesAt(s, needle, k + i) <==> MatchesAt(s[k..], needle, i)
  {
    if k + i + |needle| <= |s| {
      assert s[k..][i..i + |needle|] == s[k + i..k + i + |needle|];
    }
  }

  lemma {:induction false} MatchesInTake<T>(a: seq<T>, b: seq<T>, needle: seq<T>, i: nat)
    requires i + |needle| <= |a|
    ensures MatchesAt(a + b, needle, i) <==> MatchesAt(a, needle, i)
  {
    assert (a + b)[i..i + |needle|] == a[i..i + |needle|];
  }

  lemma {:induction false} IndexOfDrop<T>(s: seq<T>, needle: seq<T>, k: nat, from: nat)
    requires k <= |s|
    ensures var i := IndexOf(s[k..], needle, from);
            IndexOf(s, needle, k + from) == if i < 0 then -1 else k + i
  {
    forall j: nat ensures MatchesAt(s, needle, k + j) <==> MatchesAt(s[k..], needle, j) {
      MatchesInDrop(s, needle, k, j);
    }
    var i, i' := IndexOf(s[k..], needle, from), IndexOf(s, needle, k + from);
    if i >= 0 { assert MatchesAt(s, needle, k + i); }
    if i' >= 0 { assert MatchesAt(s[k..], needle, i' - k); }
  }

  /** An occurrence found inside a prefix is the occurrence found in the whole. */
  lemma {:induction false} IndexOfPrefix<T>(a: seq<T>, b: seq<T>, needle: seq<T>, from: nat)
    requires IndexOf(a, needle, from) >= 0
    ensures IndexOf(a + b, needle, from) == IndexOf(a, needle, from)
  {
    var i, i' := IndexOf(a, needle, from), IndexOf(a + b, needle, from);
    MatchesInTake(a, b, needle, i);
    if i' < i { MatchesInTake(a, b, needle, i'); }
  }

  /** An occurrence found in the whole that lies inside a prefix is the one found in the prefix. */
  lemma {:induction false} IndexOfTake<T>(a: seq<T>, b: seq<T>, needle: seq<T>, from: nat)
    requires var i := IndexOf(a + b, needle, from); 0 <= i && i + |needle| <= |a|
    ensures IndexOf(a, needle, from) == IndexOf(a + b, needle, from)
  {
    MatchesInTake(a, b, needle, IndexOf(a + b, needle, from));
    IndexOfPrefix(a, b, needle, from);
  }

  /** Nothing is found in front of the first occurrence. */
  lemma {:induction false} NoneInFront<T>(s: seq<T>, needle: seq<T>, from: nat, e: int)
    requires needle != [] && from <= |s| && e == IndexOf(s, needle, from) >= 0
    ensures IndexOf(s[from..e], needle, 0) < 0
  {
    var b := s[from..e];
    IndexOfDrop(s, needle, from, 0);
    assert s[from..] == b + s[e..];
    if IndexOf(b, needle, 0) >= 0 { IndexOfPrefix(b, s[e..], needle, 0); }
  }

  /** Two overlapping occurrences of a needle make a border of it. */
  lemma {:induction false} OverlapIsBorder<T>(s: seq<T>, needle: seq<T>, i: nat, j: nat)
    requires MatchesAt(s, needle, i) && MatchesAt(s, needle, j) && i < j < i + |needle|
    ensures needle[j - i..] == needle[..|needle| - (j - i)]
  {
    assert needle[j - i..] == s[i..i + |needle|][j - i..] == s[j..i + |needle|];
    assert needle[..|needle| - (j - i)] == s[j..j + |needle|][..|needle| - (j - i)] == s[j..i + |needle|];
  }

  /** JavaScript `split` on a non-empty separator. */
  function Split<T(==)>(s: seq<T>, sep: seq<T>): (parts: seq<seq<T>>)
    requires sep != []
    ensures |parts| > 0
    decreases |s|
  {
    var i := IndexOf(s, sep, 0);
    if i < 0 then [s] else [s[..i]] + Split(s[i + |sep|..], sep)
  }

  function Join<T>(parts: seq<seq<T>>, sep: seq<T>): seq<T>
  {
    if |parts| == 0 then []
    else if |parts| == 1 then parts[0]
    else parts[0] + sep + Join(parts[1..], sep)
  }

  /** Replacing each piece boundary: `s.split(sep).join(sep)` is `s`. */
  lemma {:induction false} JoinSplit<T>(s: seq<T>, sep: seq<T>)
    requires sep != []
    ensures Join(Split(s, sep), sep) == s
    decreases |s|
  {
    var i := IndexOf(s, sep, 0);
    if i >= 0 {
      var rest := s[i + |sep|..];
      JoinSplit(rest, sep);
      assert Split(s, sep)[1..] == Split(rest, sep);
      assert s == s[..i] + sep + rest;
    }
  }

  /** The characters JavaScript's `trim` and `\\s` treat as blank. */
  predicate Blank(c: char)
  {
    '\t' <= c <= '\r' || c == ' ' || c == '\U{00A0}' || c == '\U{1680}' || '\U{2000}' <= c <= '\U{200A}' ||
    c == '\U{2028}' || c == '\U{2029}' || c == '\U{202F}' || c == '\U{205F}' || c == '\U{3000}' || c == '\U{FEFF}'
  }

  /** By code: tab to carriage return, space, and the blanks of Unicode with the byte order mark. */
  lemma {:induction false} BlankCodes(c: char)
    ensures Blank(c) <==>
            var n := c as int;
            9 <= n <= 13 || 8192 <= n <= 8202 || n in {32, 160, 5760, 8232, 8233, 8239, 8287, 12288, 65279}
  {
  }

  predicate AllBlank(s: string)
  {
    forall k :: 0 <= k < |s| ==> Blank(s[k])
  }

  function TrimStart(s: string): string
  {
    if s != "" && Blank(s[0]) then TrimStart(s[1..]) else s
  }

  function TrimEnd(s: string): string
  {
    if s != "" && Blank(s[|s| - 1]) then TrimEnd(s[..|s| - 1]) else s
  }

  function Trim(s: string): string
  {
    TrimEnd(TrimStart(s))
  }

  predicate Trimmed(s: string)
  {
    s == "" || (!Blank(s[0]) && !Blank(s[|s| - 1]))
  }

  lemma {:induction false} TrimStartSound(s: string)
    ensures TrimStart(s) == "" || !Blank(TrimStart(s)[0])
    decreases |s|
  {
    if s != "" && Blank(s[0]) { TrimStartSound(s[1..]); }
  }

  lemma {:induction false} TrimEndSound(s: string)
    ensures TrimEnd(s) <= s && (TrimEnd(s) == "" || !Blank(TrimEnd(s)[|TrimEnd(s)| - 1]))
    ensures AllBlank(s[|TrimEnd(s)|..])
    decreases |s|
  {
    if s != "" && Blank(s[|s| - 1]) {
      TrimEndSound(s[..|s| - 1]);
      assert s[|TrimEnd(s)|..] == s[..|s| - 1][|TrimEnd(s)|..] + [s[|s| - 1]];
    }
  }

  lemma {:induction false} TrimSound(s: string)
    ensures Trimmed(Trim(s)) && (Trimmed(s) ==> Trim(s) == s)
  {
    TrimStartSound(s);
    TrimEndSound(TrimStart(s));
  }

  /** Lower case of the ASCII letters. */
  function LowerChar(c: char): char
  {
    if 'A' <= c <= 'Z' then (c as int + 32) as char else c
  }

  function Lower(s: string): (r: string)
    ensures |r| == |s| && forall k :: 0 <= k < |s| ==> r[k] == LowerChar(s[k])
  {
    if s == "" then "" else [LowerChar(s[0])] + Lower(s[1..])
  }

  lemma {:induction false} SubsetSize<T>(a: set<T>, b: set<T>)
    requires a <= b
    ensures |a| <= |b|
  {
    assert b == a + (b - a);
  }
}
