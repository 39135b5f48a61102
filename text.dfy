/** Python `str` operations the bot relies on, over Dafny strings (sequences of
    Unicode scalar values). Whitespace is Python's `str.isspace`, which is also
    what `\s` matches in a `str` pattern. */
module Text {

  /** `str.isspace` for one character. */
  predicate IsSpace(c: char) {
    ('\t' <= c <= '\r') || ('\U{1C}' <= c <= ' ') || c == '\U{85}' || c == '\U{A0}' ||
    c == '\U{1680}' || ('\U{2000}' <= c <= '\U{200A}') || c == '\U{2028}' || c == '\U{2029}' ||
    c == '\U{202F}' || c == '\U{205F}' || c == '\U{3000}'
  }

  /** The characters at which `str.splitlines` ends a line. */
  predicate IsLineBreak(c: char) {
    ('\n' <= c <= '\r') || ('\U{1C}' <= c <= '\U{1E}') || c == '\U{85}' ||
    c == '\U{2028}' || c == '\U{2029}'
  }

  lemma LineBreakIsSpace(c: char)
    requires IsLineBreak(c)
    ensures IsSpace(c)
  {
  }

  predicate AllSpace(s: string) {
    forall i :: 0 <= i < |s| ==> IsSpace(s[i])
  }

  /** Neither end of `s` is whitespace. */
  predicate Trimmed(s: string) {
    s == [] || (!IsSpace(s[0]) && !IsSpace(s[|s| - 1]))
  }

  /** `s.lstrip()` */
  function TrimLeft(s: string): (r: string)
    ensures |r| <= |s| && r == s[|s| - |r|..]
    ensures forall i :: 0 <= i < |s| - |r| ==> IsSpace(s[i])
    ensures r == [] || !IsSpace(r[0])
  {
    if s != [] && IsSpace(s[0]) then TrimLeft(s[1..]) else s
  }

  /** `s.rstrip()` */
  function TrimRight(s: string): (r: string)
    ensures |r| <= |s| && r == s[..|r|]
    ensures forall i :: |r| <= i < |s| ==> IsSpace(s[i])
    ensures r == [] || !IsSpace(r[|r| - 1])
  {
    if s != [] && IsSpace(s[|s| - 1]) then TrimRight(s[..|s| - 1]) else s
  }

  /** The number of whitespace characters `s.strip()` removes at the front. */
  function LeadCount(s: string): nat {
    |s| - |TrimLeft(s)|
  }

  /** `s.strip()`: the slice of `s` left once the whitespace at both ends is gone. */
  function Strip(s: string): (r: string)
    ensures LeadCount(s) + |r| <= |s| && r == s[LeadCount(s)..LeadCount(s) + |r|]
    ensures forall i :: 0 <= i < LeadCount(s) ==> IsSpace(s[i])
    ensures forall i :: LeadCount(s) + |r| <= i < |s| ==> IsSpace(s[i])
    ensures Trimmed(r)
  {
    var t := TrimLeft(s);
    var r := TrimRight(t);
    assert t == s[LeadCount(s)..];
    r
  }

  /** `s.count(c)` for a single character. */
  function Count(s: string, c: char): nat
    decreases |s|
  {
    if s == [] then 0 else (if s[0] == c then 1 else 0) + Count(s[1..], c)
  }

  lemma {:induction false} CountAppend(a: string, b: string, c: char)
    ensures Count(a + b, c) == Count(a, c) + Count(b, c)
    decreases |a|
  {
    if a == [] {
      assert a + b == b;
    } else {
      assert (a + b)[1..] == a[1..] + b;
      CountAppend(a[1..], b, c);
    }
  }

  lemma {:induction false} CountAbsent(s: string, c: char)
    requires c !in s
    ensures Count(s, c) == 0
    decreases |s|
  {
    if s != [] {
      CountAbsent(s[1..], c);
    }
  }

  lemma {:induction false} CountPresent(s: string, c: char)
    requires Count(s, c) > 0
    ensures c in s
    decreases |s|
  {
    if s[0] != c {
      CountPresent(s[1..], c);
      var k :| 0 <= k < |s[1..]| && s[1..][k] == c;
      assert s[k + 1] == c;
    }
  }

  lemma AllSpaceAppend(a: string, b: string)
    ensures AllSpace(a + b) <==> AllSpace(a) && AllSpace(b)
  {
    assert forall i :: 0 <= i < |a| ==> a[i] == (a + b)[i];
    assert forall i :: 0 <= i < |b| ==> b[i] == (a + b)[|a| + i];
    if AllSpace(a) && AllSpace(b) {
      forall i | 0 <= i < |a + b| ensures IsSpace((a + b)[i]) {
        if i >= |a| { assert (a + b)[i] == b[i - |a|]; }
      }
    }
  }

  /** The characters of `s` that strip removes are whitespace, so every other
      character occurs as often as before. */
  lemma StripKeepsNonSpace(s: string, c: char)
    requires !IsSpace(c)
    ensures Count(Strip(s), c) == Count(s, c)
  {
    var a, r := LeadCount(s), Strip(s);
    var lead, trail := s[..a], s[a + |r|..];
    StripParts(s);
    SpacesHoldNone(lead, c);
    SpacesHoldNone(trail, c);
    CountAppend(lead, r, c);
    CountAppend(lead + r, trail, c);
  }

  /** `s` is the whitespace strip removes at the front, the result, and the
      whitespace it removes at the back. */
  lemma StripParts(s: string)
    ensures var a, r := LeadCount(s), Strip(s);
      s == s[..a] + r + s[a + |r|..] && AllSpace(s[..a]) && AllSpace(s[a + |r|..])
  {
    var a, r := LeadCount(s), Strip(s);
    var m := a + |r|;
    assert r == s[a..m];
    SliceSplit(s, a, m);
    forall i | 0 <= i < |s[m..]|
      ensures IsSpace(s[m..][i])
    {
      assert s[m..][i] == s[m + i];
    }
  }

  lemma SliceSplit(s: string, a: nat, m: nat)
    requires a <= m <= |s|
    ensures s == s[..a] + s[a..m] + s[m..]
  {
  }

  lemma {:induction false} SpacesHoldNone(t: string, c: char)
    requires AllSpace(t) && !IsSpace(c)
    ensures Count(t, c) == 0
    decreases |t|
  {
    if t != [] {
      assert t[0] != c;
      assert forall i :: 0 <= i < |t[1..]| ==> t[1..][i] == t[i + 1];
      SpacesHoldNone(t[1..], c);
    }
  }

  lemma StripTrimmed(s: string)
    requires Trimmed(s)
    ensures Strip(s) == s
  {
  }

  lemma StripIdempotent(s: string)
    ensures Strip(Strip(s)) == Strip(s)
  {
    StripTrimmed(Strip(s));
  }

  lemma StripEmptyIff(s: string)
    ensures Strip(s) == [] <==> AllSpace(s)
  {
    if Strip(s) == [] {
      forall i | 0 <= i < |s| ensures IsSpace(s[i]) {
        if i >= LeadCount(s) { assert LeadCount(s) + |Strip(s)| <= i; }
      }
    } else {
      assert !IsSpace(s[LeadCount(s)]);
    }
  }

  /** `sub in s` */
  predicate Contains(s: string, sub: string) {
    exists i :: 0 <= i <= |s| && sub <= s[i..]
  }

  /** A slice of a string holds every substring the slice holds. */
  lemma ContainsInSlice(s: string, lo: nat, hi: nat, sub: string)
    requires lo <= hi <= |s|
    requires Contains(s[lo..hi], sub)
    ensures Contains(s, sub)
  {
    var t := s[lo..hi];
    var i :| 0 <= i <= |t| && sub <= t[i..];
    assert t[i..] == s[lo + i..hi];
    assert sub <= s[lo + i..];
  }

  /** The parts of a concatenation are its slices. */
  lemma SliceOfJoin(a: string, b: string, c: string)
    ensures (a + b + c)[..|a|] == a && (a + b + c)[|a|..|a| + |b|] == b
  {
  }

  lemma SuffixOfJoin(a: string, b: string, n: nat)
    requires n <= |b|
    ensures (a + b)[|a + b| - n..] == b[|b| - n..]
  {
  }

  /** The middle part of a concatenation is a substring of it. */
  lemma ContainsMiddle(a: string, b: string, c: string)
    ensures Contains(a + b + c, b)
  {
    assert b <= (a + b + c)[|a|..];
  }

  /** `s.startswith(p)` */
  predicate StartsWith(s: string, p: string) {
    p <= s
  }

  /** `s[:n]` */
  function Prefix(s: string, n: nat): (r: string)
    ensures |r| <= n && r <= s
    ensures |s| <= n ==> r == s
    ensures |s| > n ==> |r| == n
  {
    if |s| <= n then s else s[..n]
  }

  /** `s.replace(pat, rep)`: every occurrence of `pat`, found left to right
      without overlap, becomes `rep`. */
  function ReplaceAll(s: string, pat: string, rep: string): string
    requires pat != []
    decreases |s|
  {
    if s == [] then []
    else if pat <= s then rep + ReplaceAll(s[|pat|..], pat, rep)
    else [s[0]] + ReplaceAll(s[1..], pat, rep)
  }

  /** `sep.join(parts)` */
  function Join(parts: seq<string>, sep: string): string
    decreases |parts|
  {
    if |parts| == 0 then []
    else if |parts| == 1 then parts[0]
    else parts[0] + sep + Join(parts[1..], sep)
  }

  /** The index of the first occurrence of `c` in `s`, or `|s|`. */
  function IndexOf(s: string, c: char): (i: nat)
    ensures i <= |s|
    ensures forall k :: 0 <= k < i ==> s[k] != c
    ensures i < |s| <==> c in s
    ensures i < |s| ==> s[i] == c
  {
    if s == [] then 0 else if s[0] == c then 0 else 1 + IndexOf(s[1..], c)
  }

  /** `s.split(c)` for a one-character separator. */
  function Split(s: string, c: char): (parts: seq<string>)
    ensures |parts| >= 1
    ensures forall k :: 0 <= k < |parts| ==> c !in parts[k]
    decreases |s|
  {
    var i := IndexOf(s, c);
    if i == |s| then [s] else [s[..i]] + Split(s[i + 1..], c)
  }

  /** Splitting and re-joining with the same separator gives the string back. */
  lemma {:induction false} SplitJoin(s: string, c: char)
    ensures Join(Split(s, c), [c]) == s
    decreases |s|
  {
    var i := IndexOf(s, c);
    if i < |s| {
      SplitJoin(s[i + 1..], c);
      JoinCons(s[..i], Split(s[i + 1..], c), [c]);
      assert s == s[..i] + [c] + s[i + 1..];
    }
  }

  lemma JoinCons(x: string, parts: seq<string>, sep: string)
    requires parts != []
    ensures Join([x] + parts, sep) == x + sep + Join(parts, sep)
  {
    assert ([x] + parts)[0] == x && ([x] + parts)[1..] == parts;
  }

  /** Joining parts free of the separator and splitting again gives the parts back. */
  lemma {:induction false} JoinSplit(parts: seq<string>, c: char)
    requires parts != [] && forall k :: 0 <= k < |parts| ==> c !in parts[k]
    ensures Split(Join(parts, [c]), c) == parts
    decreases |parts|
  {
    var s := Join(parts, [c]);
    if |parts| > 1 {
      var p := parts[0];
      var rest := Join(parts[1..], [c]);
      assert s == p + [c] + rest;
      var i := IndexOf(s, c);
      assert s[|p|] == c;
      assert forall k :: 0 <= k < |p| ==> s[k] == p[k];
      assert i == |p|;
      assert s[..i] == p;
      assert s[i + 1..] == rest;
      JoinSplit(parts[1..], c);
      assert parts == [p] + parts[1..];
    }
  }

  /** How far the non-whitespace run starting at 0 goes. */
  function TokenEnd(s: string): (e: nat)
    ensures e <= |s|
    ensures forall k :: 0 <= k < e ==> !IsSpace(s[k])
    ensures e < |s| ==> IsSpace(s[e])
  {
    if s == [] || IsSpace(s[0]) then 0 else 1 + TokenEnd(s[1..])
  }

  /** `s.split()` with no separator: the maximal runs of non-whitespace. */
  function SplitWhitespace(s: string): (tokens: seq<string>)
    ensures AllTokens(tokens)
    decreases |s|
  {
    var t := TrimLeft(s);
    if t == [] then []
    else
      var e := TokenEnd(t);
      FirstToken(t);
      var rest := SplitWhitespace(t[e..]);
      TokensCons(t[..e], rest);
      [t[..e]] + rest
  }

  /** A string starting with a non-space starts with a non-empty token. */
  lemma FirstToken(t: string)
    requires t != [] && !IsSpace(t[0])
    ensures 0 < TokenEnd(t) && NoSpace(t[..TokenEnd(t)])
  {
    var e := TokenEnd(t);
    forall k | 0 <= k < e
      ensures !IsSpace(t[..e][k])
    {
      assert t[..e][k] == t[k];
    }
  }

  predicate AllTokens(tokens: seq<string>) {
    forall k :: 0 <= k < |tokens| ==> tokens[k] != [] && NoSpace(tokens[k])
  }

  lemma TokensCons(x: string, rest: seq<string>)
    requires x != [] && NoSpace(x) && AllTokens(rest)
    ensures AllTokens([x] + rest)
  {
    assert forall k :: 1 <= k < |[x] + rest| ==> ([x] + rest)[k] == rest[k - 1];
  }

  predicate NoSpace(s: string) {
    forall k :: 0 <= k < |s| ==> !IsSpace(s[k])
  }

  /** The string with every whitespace character left out. */
  function Unspaced(s: string): string
    decreases |s|
  {
    if s == [] then [] else (if IsSpace(s[0]) then [] else [s[0]]) + Unspaced(s[1..])
  }

  lemma {:induction false} UnspacedAppend(a: string, b: string)
    ensures Unspaced(a + b) == Unspaced(a) + Unspaced(b)
    decreases |a|
  {
    if a != [] {
      assert (a + b)[0] == a[0];
      assert (a + b)[1..] == a[1..] + b;
      UnspacedAppend(a[1..], b);
    } else {
      assert a + b == b;
    }
  }

  lemma {:induction false} UnspacedOfSpace(a: string)
    requires AllSpace(a)
    ensures Unspaced(a) == []
    decreases |a|
  {
    if a != [] { UnspacedOfSpace(a[1..]); }
  }

  lemma {:induction false} UnspacedOfToken(a: string)
    requires NoSpace(a)
    ensures Unspaced(a) == a
    decreases |a|
  {
    if a != [] { UnspacedOfToken(a[1..]); }
  }

  function Concat(parts: seq<string>): string
    decreases |parts|
  {
    if parts == [] then [] else parts[0] + Concat(parts[1..])
  }

  /** The tokens of `s.split()` are exactly the non-whitespace characters of `s`,
      in order. */
  lemma {:induction false} SplitWhitespaceKeepsText(s: string)
    ensures Concat(SplitWhitespace(s)) == Unspaced(s)
    decreases |s|
  {
    var t := TrimLeft(s);
    var lead := s[..|s| - |t|];
    assert s == lead + t;
    UnspacedAppend(lead, t);
    UnspacedOfSpace(lead);
    assert Unspaced(s) == Unspaced(t);
    if t != [] {
      SplitWhitespaceKeepsTextTrimmed(t);
    }
  }

  lemma {:induction false} SplitWhitespaceKeepsTextTrimmed(t: string)
    requires t != [] && !IsSpace(t[0])
    ensures Concat(SplitWhitespace(t)) == Unspaced(t)
    decreases |t|, 0
  {
    assert TrimLeft(t) == t;
    var e := TokenEnd(t);
    var tok, more := t[..e], t[e..];
    assert t == tok + more;
    UnspacedAppend(tok, more);
    UnspacedOfToken(tok);
    SplitWhitespaceKeepsText(more);
    var ts := SplitWhitespace(t);
    assert ts == [tok] + SplitWhitespace(more);
    assert ts[0] == tok && ts[1..] == SplitWhitespace(more);
  }

  /** Where the line starting at `i` ends: the first line break at or after `i`. */
  function LineEnd(s: string, i: nat): (e: nat)
    requires i <= |s|
    ensures i <= e <= |s|
    ensures forall k :: i <= k < e ==> !IsLineBreak(s[k])
    ensures e < |s| ==> IsLineBreak(s[e])
    decreases |s| - i
  {
    if i == |s| || IsLineBreak(s[i]) then i else LineEnd(s, i + 1)
  }

  /** `s.splitlines()`: "\r\n" ends a line as one break; no trailing empty line. */
  function SplitLines(s: string): seq<string>
    decreases |s|
  {
    if s == [] then []
    else
      var e := LineEnd(s, 0);
      if e == |s| then [s]
      else
        [s[..e]] + SplitLines(s[e + BreakWidth(s, e)..])
  }

  /** The width of the line break at `e`: "\r\n" counts as one break. */
  function BreakWidth(s: string, e: nat): (n: nat)
    requires e < |s| && IsLineBreak(s[e])
    ensures 1 <= n && e + n <= |s|
    ensures forall k :: e <= k < e + n ==> IsSpace(s[k])
  {
    LineBreakIsSpace(s[e]);
    if s[e] == '\r' && e + 1 < |s| && s[e + 1] == '\n' then 2 else 1
  }

  lemma SpaceAroundBreak(s: string, e: nat, n: nat)
    requires e + n <= |s|
    requires forall k :: e <= k < e + n ==> IsSpace(s[k])
    ensures AllSpace(s) <==> AllSpace(s[..e]) && AllSpace(s[e + n..])
  {
    var line, rest := s[..e], s[e + n..];
    assert forall k :: 0 <= k < |line| ==> line[k] == s[k];
    assert forall k :: 0 <= k < |rest| ==> rest[k] == s[e + n + k];
    if AllSpace(line) && AllSpace(rest) {
      forall k | 0 <= k < |s| ensures IsSpace(s[k]) {
        if k < e { assert s[k] == line[k]; }
        else if k >= e + n { assert s[k] == rest[k - e - n]; }
      }
    }
  }

  /** Every line in `lines` is whitespace only. */
  predicate AllBlank(lines: seq<string>)
    decreases |lines|
  {
    lines == [] || (AllSpace(lines[0]) && AllBlank(lines[1..]))
  }

  /** A string is all whitespace exactly when each of its lines is. */
  lemma {:induction false} SplitLinesAllSpace(s: string)
    ensures AllSpace(s) <==> AllBlank(SplitLines(s))
    decreases |s|
  {
    if s != [] {
      var e := LineEnd(s, 0);
      if e < |s| {
        var n := BreakWidth(s, e);
        var rest := s[e + n..];
        SpaceAroundBreak(s, e, n);
        SplitLinesAllSpace(rest);
        var ls := SplitLines(s);
        assert ls == [s[..e]] + SplitLines(rest);
        assert ls[0] == s[..e] && ls[1..] == SplitLines(rest);
      } else {
        var ls := SplitLines(s);
        assert ls == [s];
        assert ls[1..] == [];
      }
    }
  }
}
