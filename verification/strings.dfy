/** The handful of Python `str` operations the chatbot relies on, written
    over `seq<char>`: `isspace`, `strip`, `split()` with no separator,
    `" ".join`, `lower`, `startswith`/`endswith` and `split(c, 1)`. */
module Strings {

  /** Python's `str.isspace()` for one character: the ASCII whitespace
      characters, the four information separators, NEL, NBSP and the
      Unicode space separators and line/paragraph separators. */
  predicate IsSpace(c: char) {
    || c == ' '
    || ('\t' <= c <= '\r')
    || ('\U{1C}' <= c <= '\U{1F}')
    || c == '\U{85}'
    || c == '\U{A0}'
    || c == '\U{1680}'
    || ('\U{2000}' <= c <= '\U{200A}')
    || c == '\U{2028}'
    || c == '\U{2029}'
    || c == '\U{202F}'
    || c == '\U{205F}'
    || c == '\U{3000}'
  }

  predicate AllSpace(s: string) {
    forall i :: 0 <= i < |s| ==> IsSpace(s[i])
  }

  predicate NoSpace(s: string) {
    forall i :: 0 <= i < |s| ==> !IsSpace(s[i])
  }

  /** A token as `split()` produces it: non-empty and free of whitespace */
  predicate IsWord(s: string) {
    s != [] && NoSpace(s)
  }

  predicate Words(ts: seq<string>) {
    forall i :: 0 <= i < |ts| ==> IsWord(ts[i])
  }

  /** Neither begins nor ends with whitespace, which is what `strip` leaves */
  predicate Trimmed(s: string) {
    s == [] || (!IsSpace(s[0]) && !IsSpace(s[|s| - 1]))
  }

  predicate StartsWith(s: string, prefix: string) {
    |prefix| <= |s| && s[..|prefix|] == prefix
  }

  predicate EndsWith(s: string, suffix: string) {
    |suffix| <= |s| && s[|s| - |suffix|..] == suffix
  }

  // ---------------------------------------------------------------------
  // strip()

  /** Number of whitespace characters at the start of `s` */
  function LeadingSpaces(s: string): (k: nat)
    ensures k <= |s|
    ensures forall i :: 0 <= i < k ==> IsSpace(s[i])
    ensures k < |s| ==> !IsSpace(s[k])
  {
    if s == [] || !IsSpace(s[0]) then 0 else 1 + LeadingSpaces(s[1..])
  }

  /** Number of whitespace characters at the end of `s` */
  function TrailingSpaces(s: string): (k: nat)
    ensures k <= |s|
    ensures forall i :: |s| - k <= i < |s| ==> IsSpace(s[i])
    ensures k < |s| ==> !IsSpace(s[|s| - k - 1])
  {
    if s == [] || !IsSpace(s[|s| - 1]) then 0 else 1 + TrailingSpaces(s[..|s| - 1])
  }

  /** The leading-whitespace count is the only count with its two properties */
  lemma LeadingSpacesUnique(s: string, k: nat)
    requires k <= |s|
    requires forall i :: 0 <= i < k ==> IsSpace(s[i])
    requires k < |s| ==> !IsSpace(s[k])
    ensures LeadingSpaces(s) == k
  {
  }

  lemma TrailingSpacesUnique(s: string, k: nat)
    requires k <= |s|
    requires forall i :: |s| - k <= i < |s| ==> IsSpace(s[i])
    requires k < |s| ==> !IsSpace(s[|s| - k - 1])
    ensures TrailingSpaces(s) == k
  {
  }

  /** `lstrip()` */
  function TrimStart(s: string): string {
    s[LeadingSpaces(s)..]
  }

  /** `rstrip()` */
  function TrimEnd(s: string): string {
    s[..|s| - TrailingSpaces(s)]
  }

  /** `strip()`: `s` with leading and trailing whitespace removed */
  function Strip(s: string): (r: string)
    ensures Trimmed(r)
    ensures r == [] <==> AllSpace(s)
  {
    var i := LeadingSpaces(s);
    var t := s[i..];
    var j := TrailingSpaces(t);
    assert |t| - j < |t| ==> t[|t| - j - 1] == s[|s| - j - 1];
    assert i < |s| ==> t[0] == s[i];
    t[..|t| - j]
  }

  /** What `strip` keeps is the slice of the input that starts after the
      leading whitespace, with only whitespace after it. */
  lemma StripSlice(s: string)
    ensures var i, r := LeadingSpaces(s), Strip(s);
      i + |r| <= |s| && AllSpace(s[..i]) && r == s[i..i + |r|] && AllSpace(s[i + |r|..])
  {
    LeadingSpacesPrefix(s);
    StripIsTrims(s);
    TrimsKeep(s);
    TrimsDropTail(s);
  }

  lemma TrimsKeep(s: string)
    ensures var i, r := LeadingSpaces(s), TrimEnd(TrimStart(s)); i + |r| <= |s| && r == s[i..i + |r|]
  {
    var i := LeadingSpaces(s);
    var t := s[i..];
    SliceOfSlice(s, i, |t| - TrailingSpaces(t));
  }

  lemma TrimsDropTail(s: string)
    ensures var i, r := LeadingSpaces(s), TrimEnd(TrimStart(s)); i + |r| <= |s| && AllSpace(s[i + |r|..])
  {
    var i := LeadingSpaces(s);
    var t := s[i..];
    var k := i + |t| - TrailingSpaces(t);
    assert TrimEnd(TrimStart(s)) == t[..k - i];
    forall y | 0 <= y < |s| - k ensures IsSpace(s[k..][y]) {
      assert s[k..][y] == t[k - i + y];
    }
  }

  /** Slicing a suffix again is slicing the original */
  lemma SliceOfSlice(s: string, i: nat, n: nat)
    requires i + n <= |s|
    ensures s[i..][..n] == s[i..i + n]
  {
  }

  lemma LeadingSpacesPrefix(s: string)
    ensures AllSpace(s[..LeadingSpaces(s)])
  {
    var k := LeadingSpaces(s);
    assert forall x :: 0 <= x < k ==> s[..k][x] == s[x];
  }

  lemma StripTrimmed(s: string)
    requires Trimmed(s)
    ensures Strip(s) == s
  {
  }

  lemma TrimStartPadding(p: string, s: string)
    requires AllSpace(p)
    ensures TrimStart(p + s) == TrimStart(s)
  {
    var k := LeadingSpaces(s);
    var ps := p + s;
    assert forall i :: |p| <= i < |ps| ==> ps[i] == s[i - |p|];
    LeadingSpacesUnique(ps, |p| + k);
    assert ps[|p| + k..] == s[k..];
  }

  lemma TrimStartAppend(s: string, q: string)
    requires !AllSpace(s)
    ensures TrimStart(s + q) == TrimStart(s) + q
  {
    var k := LeadingSpaces(s);
    var sq := s + q;
    assert k < |s|;
    LeadingSpacesUnique(sq, k);
    assert sq[k..] == s[k..] + q;
  }

  lemma TrimEndPadding(s: string, q: string)
    requires AllSpace(q)
    ensures TrimEnd(s + q) == TrimEnd(s)
  {
    var k := TrailingSpaces(s);
    var sq := s + q;
    assert forall i :: |s| <= i < |sq| ==> sq[i] == q[i - |s|];
    assert forall i :: 0 <= i < |s| ==> sq[i] == s[i];
    TrailingSpacesUnique(sq, k + |q|);
    assert sq[..|sq| - (k + |q|)] == s[..|s| - k];
  }

  /** Whitespace around a line never changes what `strip` returns */
  lemma StripPadding(p: string, s: string, q: string)
    requires AllSpace(p) && AllSpace(q)
    ensures Strip(p + s + q) == Strip(s)
  {
    if AllSpace(s) {
      AllSpaceConcat(p, s, q);
    } else {
      StripPaddedWord(p, s, q);
    }
  }

  lemma AllSpaceConcat(p: string, s: string, q: string)
    requires AllSpace(p) && AllSpace(s) && AllSpace(q)
    ensures AllSpace(p + s + q)
  {
    var ps := p + s + q;
    assert forall i :: 0 <= i < |ps| ==>
      ps[i] == if i < |p| then p[i] else if i < |p| + |s| then s[i - |p|] else q[i - |p| - |s|];
  }

  lemma StripPaddedWord(p: string, s: string, q: string)
    requires AllSpace(p) && AllSpace(q) && !AllSpace(s)
    ensures Strip(p + s + q) == Strip(s)
  {
    StripIsTrims(p + s + q);
    StripIsTrims(s);
    TrimStartPadded(p, s, q);
    TrimEndPadding(TrimStart(s), q);
  }

  lemma TrimStartPadded(p: string, s: string, q: string)
    requires AllSpace(p) && !AllSpace(s)
    ensures TrimStart(p + s + q) == TrimStart(s) + q
  {
    assert p + s + q == p + (s + q);
    TrimStartPadding(p, s + q);
    TrimStartAppend(s, q);
  }

  lemma StripIsTrims(s: string)
    ensures Strip(s) == TrimEnd(TrimStart(s))
  {
  }

  // ---------------------------------------------------------------------
  // split() and " ".join

  /** Length of the run of non-whitespace characters at the start of `s` */
  function WordEnd(s: string): (k: nat)
    ensures k <= |s| && NoSpace(s[..k])
    ensures k < |s| ==> IsSpace(s[k])
  {
    if s == [] || IsSpace(s[0]) then 0 else 1 + WordEnd(s[1..])
  }

  /** Python's `str.split()` with no separator: the maximal runs of
      non-whitespace characters, in order. */
  function Split(s: string): (r: seq<string>)
    ensures Words(r)
    ensures r == [] <==> AllSpace(s)
    decreases |s|
  {
    if s == [] then []
    else if IsSpace(s[0]) then Split(s[1..])
    else
      var k := WordEnd(s);
      [s[..k]] + Split(s[k..])
  }

  /** `" ".join(ts)` */
  function JoinSpaces(ts: seq<string>): (r: string)
  {
    if ts == [] then ""
    else if |ts| == 1 then ts[0]
    else ts[0] + " " + JoinSpaces(ts[1..])
  }

  /** Joining two non-empty runs of parts puts exactly one space between
      them */
  lemma {:induction false} JoinSpacesAppend(x: seq<string>, y: seq<string>)
    requires x != [] && y != []
    ensures JoinSpaces(x + y) == JoinSpaces(x) + " " + JoinSpaces(y)
    decreases |x|
  {
    var xy := x + y;
    assert xy[0] == x[0];
    if |x| == 1 {
      assert xy[1..] == y;
    } else {
      assert xy[1..] == x[1..] + y;
      JoinSpacesAppend(x[1..], y);
    }
  }

  /** The joined string is every part plus one separator between neighbours */
  lemma {:induction false} JoinSpacesLength(ts: seq<string>)
    requires ts != []
    ensures |JoinSpaces(ts)| == SumLengths(ts) + |ts| - 1
  {
    if |ts| > 1 {
      JoinSpacesLength(ts[1..]);
    }
  }

  function SumLengths(ts: seq<string>): nat {
    if ts == [] then 0 else |ts[0]| + SumLengths(ts[1..])
  }

  lemma {:induction false} WordEndOfWord(t: string, x: string)
    requires NoSpace(t)
    requires x == [] || IsSpace(x[0])
    ensures WordEnd(t + x) == |t|
    decreases |t|
  {
    if t != [] {
      assert (t + x)[1..] == t[1..] + x;
      WordEndOfWord(t[1..], x);
    } else {
      assert t + x == x;
    }
  }

  /** `split()` undoes `" ".join` on whitespace-free, non-empty tokens */
  lemma {:induction false} SplitJoinSpaces(ts: seq<string>)
    requires Words(ts)
    ensures Split(JoinSpaces(ts)) == ts
  {
    if ts == [] {
    } else if |ts| == 1 {
      var t := ts[0];
      WordEndOfWord(t, []);
      assert t + [] == t;
      assert t[..|t|] == t && t[|t|..] == [];
    } else {
      var t, rest := ts[0], JoinSpaces(ts[1..]);
      var s := t + " " + rest;
      assert s == t + (" " + rest);
      WordEndOfWord(t, " " + rest);
      assert s[..|t|] == t;
      assert s[|t|..] == " " + rest;
      assert (" " + rest)[1..] == rest;
      SplitJoinSpaces(ts[1..]);
    }
  }

  /** Whitespace before a line does not change its tokens */
  lemma {:induction false} SplitSpaces(sep: string, s: string)
    requires AllSpace(sep)
    ensures Split(sep + s) == Split(s)
    decreases |sep|
  {
    if sep != [] {
      assert (sep + s)[0] == sep[0];
      assert (sep + s)[1..] == sep[1..] + s;
      SplitSpaces(sep[1..], s);
    } else {
      assert sep + s == s;
    }
  }

  /** A word followed by whitespace (or by nothing) is the first token */
  lemma SplitWord(w: string, rest: string)
    requires IsWord(w)
    requires rest == [] || IsSpace(rest[0])
    ensures Split(w + rest) == [w] + Split(rest)
  {
    var s := w + rest;
    WordEndOfWord(w, rest);
    assert s[0] == w[0];
    assert s[..|w|] == w && s[|w|..] == rest;
  }

  /** Non-empty runs of whitespace, one between each pair of neighbouring words */
  predicate Separators(seps: seq<string>) {
    forall i :: 0 <= i < |seps| ==> seps[i] != [] && AllSpace(seps[i])
  }

  /** Words written out with the given separators between them */
  function JoinWith(ws: seq<string>, seps: seq<string>): string
    requires ws != [] && |seps| == |ws| - 1
  {
    if |ws| == 1 then ws[0] else ws[0] + seps[0] + JoinWith(ws[1..], seps[1..])
  }

  /** `split()` gives back the words of a line however much whitespace,
      of whatever kind, separates them. */
  lemma {:induction false} SplitJoinWith(ws: seq<string>, seps: seq<string>)
    requires ws != [] && |seps| == |ws| - 1
    requires Words(ws) && Separators(seps)
    ensures Split(JoinWith(ws, seps)) == ws
  {
    if |ws| == 1 {
      SplitWord(ws[0], []);
      assert ws[0] + [] == ws[0];
    } else {
      var rest := JoinWith(ws[1..], seps[1..]);
      SplitJoinWith(ws[1..], seps[1..]);
      SplitSpaces(seps[0], rest);
      assert ws[0] + seps[0] + rest == ws[0] + (seps[0] + rest);
      SplitWord(ws[0], seps[0] + rest);
    }
  }

  /** A line of separated words neither starts nor ends with whitespace */
  lemma {:induction false} JoinWithTrimmed(ws: seq<string>, seps: seq<string>)
    requires ws != [] && |seps| == |ws| - 1
    requires Words(ws) && Separators(seps)
    ensures JoinWith(ws, seps) != []
    ensures JoinWith(ws, seps)[0] == ws[0][0]
    ensures Trimmed(JoinWith(ws, seps))
  {
    if |ws| > 1 {
      JoinWithTrimmed(ws[1..], seps[1..]);
    }
  }

  /** `split()` reads maximal runs of non-whitespace, in order: after any
      leading whitespace, the first token is the whole run of
      non-whitespace that follows, and the others are the tokens of what
      is left. */
  lemma SplitRuns(p: string, w: string, rest: string)
    requires AllSpace(p) && IsWord(w)
    requires rest == [] || IsSpace(rest[0])
    ensures Split(p + w + rest) == [w] + Split(rest)
  {
    assert p + w + rest == p + (w + rest);
    SplitSpaces(p, w + rest);
    SplitWord(w, rest);
  }

  /** A joined line of words neither starts nor ends with whitespace */
  lemma {:induction false} JoinSpacesTrimmed(ts: seq<string>)
    requires Words(ts) && ts != []
    ensures JoinSpaces(ts) != []
    ensures JoinSpaces(ts)[0] == ts[0][0]
    ensures Trimmed(JoinSpaces(ts))
  {
    if |ts| > 1 {
      JoinSpacesTrimmed(ts[1..]);
    }
  }

  // ---------------------------------------------------------------------
  // lower()

  function LowerChar(c: char): char {
    if 'A' <= c <= 'Z' then (c as int + 32) as char else c
  }

  /** `lower()` restricted to ASCII letters */
  function AsciiLower(s: string): (r: string)
    ensures |r| == |s|
    ensures forall i :: 0 <= i < |s| ==> r[i] == LowerChar(s[i])
  {
    if s == [] then [] else [LowerChar(s[0])] + AsciiLower(s[1..])
  }

  /** Case-insensitive equality with a lower-case word: each character is
      the word's character or its ASCII capital. */
  predicate SameIgnoringCase(s: string, w: string) {
    |s| == |w| && forall i :: 0 <= i < |s| ==> s[i] == w[i] || ('a' <= w[i] <= 'z' && s[i] as int == w[i] as int - 32)
  }

  lemma LowerMatches(s: string, w: string)
    requires forall i :: 0 <= i < |w| ==> !('A' <= w[i] <= 'Z')
    ensures AsciiLower(s) == w <==> SameIgnoringCase(s, w)
  {
    if SameIgnoringCase(s, w) {
      assert forall i :: 0 <= i < |s| ==> AsciiLower(s)[i] == w[i];
    }
  }

  // ---------------------------------------------------------------------
  // split(c, 1)

  /** Position of the first occurrence of `c` */
  function FirstIndex(s: string, c: char): (k: nat)
    requires c in s
    ensures k < |s| && s[k] == c && c !in s[..k]
  {
    if s[0] == c then 0
    else
      assert c in s[1..] by { var i :| 0 <= i < |s| && s[i] == c; assert s[1..][i - 1] == c; }
      var k := 1 + FirstIndex(s[1..], c);
      assert s[..k] == [s[0]] + s[1..][..k - 1];
      k
  }

  /** `s.split(c, 1)` for an `s` that contains `c`: the text before the
      first `c` and the text after it. */
  function SplitOnce(s: string, c: char): (parts: (string, string))
    requires c in s
    ensures parts.0 + [c] + parts.1 == s
    ensures c !in parts.0
  {
    var k := FirstIndex(s, c);
    assert s[..k] + [c] + s[k + 1..] == s;
    (s[..k], s[k + 1..])
  }

  /** The two halves of a split are unique: whatever precedes the first `c` */
  lemma SplitOnceOfJoin(before: string, c: char, after: string)
    requires c !in before
    ensures SplitOnce(before + [c] + after, c) == (before, after)
  {
    var s := before + [c] + after;
    var k := FirstIndex(s, c);
    assert s[..|before|] == before;
    assert s[|before|] == c;
    assert k == |before| by {
      assert k >= |before| by {
        assert forall i :: 0 <= i < |before| ==> s[i] == before[i];
      }
      assert k <= |before| by {
        assert c !in s[..k];
        assert forall i :: 0 <= i < k ==> s[..k][i] == s[i];
      }
    }
    assert s[|before| + 1..] == after;
  }
}
