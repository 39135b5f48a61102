/** The three regular expressions of the regex fallback extractor, searched the
    way Python's `re.search` does with `re.IGNORECASE`: the leftmost position at
    which some alternative matches, the first alternative that matches there,
    and greedy quantifiers. Each pattern has the shape
      `(?:label | label | ...)[:\s]*<tail>`
    where a label is a list of words separated by `\s*`. */
module Patterns {
  import opened Wrappers
  import opened Text
  import opened Numerals

  /** `c` matches pattern character `p` under `re.IGNORECASE` (for a `str` pattern,
      lowercase ASCII letters also match their uppercase forms and the few
      non-ASCII letters that case-fold onto them). */
  predicate CharMatch(c: char, p: char) {
    if 'a' <= p <= 'z' then
      c == p || c as int == p as int - 32 ||
      (p == 'i' && (c == '\U{0130}' || c == '\U{0131}')) ||
      (p == 's' && c == '\U{017F}') ||
      (p == 'k' && c == '\U{212A}')
    else
      c == p
  }

  /** The characters label words are written with. */
  predicate WordChar(p: char) {
    ('a' <= p <= 'z') || p == '#'
  }

  predicate IsWord(w: string) {
    w != [] && forall k :: 0 <= k < |w| ==> WordChar(w[k])
  }

  predicate IsLabel(words: seq<string>) {
    words != [] && forall k :: 0 <= k < |words| ==> IsWord(words[k])
  }

  lemma WordCharNotSpace(c: char, p: char)
    requires WordChar(p) && CharMatch(c, p)
    ensures !IsSpace(c) && c != ':' && c != '$' && !IsDigit(c) && c != '.' && c != ','
  {
  }

  /** Word `w` matches `t` at position `i`. */
  predicate WordAt(t: string, i: nat, w: string) {
    i + |w| <= |t| && forall k :: 0 <= k < |w| ==> CharMatch(t[i + k], w[k])
  }

  /** The character classes the patterns use; `\d` is taken as the ASCII digits. */
  datatype Class = Space | ColonSpace | Digit09 | DigitComma | DigitDotComma

  predicate InClass(c: char, cls: Class) {
    match cls
    case Space => IsSpace(c)
    case ColonSpace => c == ':' || IsSpace(c)
    case Digit09 => IsDigit(c)
    case DigitComma => IsDigit(c) || c == ','
    case DigitDotComma => IsDigit(c) || c == '.' || c == ','
  }

  predicate AllIn(t: string, a: nat, b: nat, cls: Class)
    requires a <= b <= |t|
  {
    forall x {:trigger InClass(t[x], cls)} :: a <= x < b ==> InClass(t[x], cls)
  }

  /** Where a greedy `cls*` starting at `i` stops. */
  function RunEnd(t: string, i: nat, cls: Class): (e: nat)
    requires i <= |t|
    ensures i <= e <= |t| && AllIn(t, i, e, cls)
    ensures e < |t| ==> !InClass(t[e], cls)
    decreases |t| - i
  {
    if i == |t| || !InClass(t[i], cls) then i else RunEnd(t, i + 1, cls)
  }

  /** A run of `cls` from `i` to `g` never goes past the greedy run. */
  lemma RunEndBound(t: string, i: nat, g: nat, cls: Class)
    requires i <= g <= |t| && AllIn(t, i, g, cls)
    ensures g <= RunEnd(t, i, cls)
  {
  }

  /** A run of `cls` from `i` to a character outside `cls` is the greedy run. */
  lemma RunEndAt(t: string, i: nat, g: nat, cls: Class)
    requires i <= g < |t| && AllIn(t, i, g, cls) && !InClass(t[g], cls)
    ensures RunEnd(t, i, cls) == g
  {
  }

  // ---------------------------------------------------------------- labels

  /** Where the label `words` (joined by `\s*`) ends when matched at `i`. */
  function LabelEnd(t: string, i: nat, words: seq<string>): (r: Option<nat>)
    requires i <= |t|
    ensures r.Some? ==> i <= r.value <= |t|
    decreases |words|
  {
    if words == [] then Some(i)
    else if !WordAt(t, i, words[0]) then None
    else if |words| == 1 then Some(i + |words[0]|)
    else LabelEnd(t, RunEnd(t, i + |words[0]|, Space), words[1..])
  }

  /** The label `words` matches `t[i..e]`, with any whitespace between words. */
  ghost predicate LabelSpan(t: string, i: nat, e: nat, words: seq<string>)
    decreases |words|
  {
    if words == [] then e == i
    else if |words| == 1 then WordAt(t, i, words[0]) && e == i + |words[0]|
    else
      WordAt(t, i, words[0]) &&
      exists g :: i + |words[0]| <= g <= |t| && AllIn(t, i + |words[0]|, g, Space) &&
        LabelSpan(t, g, e, words[1..])
  }

  lemma {:induction false} LabelSound(t: string, i: nat, words: seq<string>)
    requires i <= |t| && LabelEnd(t, i, words).Some?
    ensures LabelSpan(t, i, LabelEnd(t, i, words).value, words)
    decreases |words|
  {
    if |words| > 1 {
      var g := RunEnd(t, i + |words[0]|, Space);
      LabelSound(t, g, words[1..]);
    }
  }

  lemma {:induction false} LabelComplete(t: string, i: nat, e: nat, words: seq<string>)
    requires i <= |t| && IsLabel(words) && LabelSpan(t, i, e, words)
    ensures LabelEnd(t, i, words) == Some(e)
    decreases |words|
  {
    if |words| > 1 {
      var j := i + |words[0]|;
      var g :| j <= g <= |t| && AllIn(t, j, g, Space) && LabelSpan(t, g, e, words[1..]);
      assert IsLabel(words[1..]) by {
        forall k | 0 <= k < |words[1..]| ensures IsWord(words[1..][k]) {
          assert words[1..][k] == words[k + 1];
        }
      }
      assert IsWord(words[1]);
      assert CharMatch(t[g], words[1][0]);
      WordCharNotSpace(t[g], words[1][0]);
      RunEndAt(t, j, g, Space);
      LabelComplete(t, g, e, words[1..]);
    }
  }

  // ---------------------------------------------------------------- patterns

  /**
    LOAD: `(?:Load\s*#|Order\s*#|Reference\s*#|PRO\s*#)[:\s]*([0-9]{5,10})`
    RATE: `(?:Total\s*Carrier\s*Pay|Total\s*Pay|Flat\s*Rate|Rate)[:\s]*\$?\s*([\d,]+\.\d{2})`
    MILES: `(?:Total\s*Miles|Distance|Miles)[:\s]*([\d.,]+)`
  */
  datatype Pattern = LoadNumber | RateAmount | TotalMiles

  function Labels(p: Pattern): (ls: seq<seq<string>>)
    ensures forall a :: 0 <= a < |ls| ==> IsLabel(ls[a])
  {
    match p
    case LoadNumber => [["load", "#"], ["order", "#"], ["reference", "#"], ["pro", "#"]]
    case RateAmount => [["total", "carrier", "pay"], ["total", "pay"], ["flat", "rate"], ["rate"]]
    case TotalMiles => [["total", "miles"], ["distance"], ["miles"]]
  }

  /** The capture group of the part after the label, matched greedily from `e`:
      its start and end. */
  function Tail(p: Pattern, t: string, e: nat): (r: Option<(nat, nat)>)
    requires e <= |t|
    ensures r.Some? ==> e <= r.value.0 <= r.value.1 <= |t|
  {
    var c := RunEnd(t, e, ColonSpace);
    match p
    case LoadNumber =>
      var d := RunEnd(t, c, Digit09);
      if d - c < 5 then None else Some((c, if d - c > 10 then c + 10 else d))
    case RateAmount =>
      var b := if c < |t| && t[c] == '$' then c + 1 else c;
      var s := RunEnd(t, b, Space);
      var d := RunEnd(t, s, DigitComma);
      if s < d && d + 3 <= |t| && t[d] == '.' && IsDigit(t[d + 1]) && IsDigit(t[d + 2]) then
        Some((s, d + 3))
      else
        None
    case TotalMiles =>
      var d := RunEnd(t, c, DigitDotComma);
      if c < d then Some((c, d)) else None
  }

  /** The part after the label can match from `e` with its group at `t[k..m]`. */
  ghost predicate TailSpan(p: Pattern, t: string, e: nat, k: nat, m: nat) {
    e <= k <= m <= |t| &&
    match p
    case LoadNumber =>
      AllIn(t, e, k, ColonSpace) && 5 <= m - k <= 10 && AllIn(t, k, m, Digit09)
    case RateAmount =>
      k + 3 < m &&
      (exists a, b :: e <= a <= b <= k && AllIn(t, e, a, ColonSpace) &&
        (b == a || (b == a + 1 && t[a] == '$')) && AllIn(t, b, k, Space)) &&
      AllIn(t, k, m - 3, DigitComma) && t[m - 3] == '.' && IsDigit(t[m - 2]) && IsDigit(t[m - 1])
    case TotalMiles =>
      AllIn(t, e, k, ColonSpace) && k < m && AllIn(t, k, m, DigitDotComma)
  }

  lemma TailSound(p: Pattern, t: string, e: nat)
    requires e <= |t| && Tail(p, t, e).Some?
    ensures TailSpan(p, t, e, Tail(p, t, e).value.0, Tail(p, t, e).value.1)
  {
    var c := RunEnd(t, e, ColonSpace);
    if p == RateAmount {
      var b := if c < |t| && t[c] == '$' then c + 1 else c;
      var s := RunEnd(t, b, Space);
      var d := RunEnd(t, s, DigitComma);
      assert d + 3 - 3 == d;
    }
  }

  /** Whatever way the tail can match, the greedy match starts its group at the
      same place and ends it no earlier. */
  lemma TailGreedy(p: Pattern, t: string, e: nat, k: nat, m: nat)
    requires e <= |t| && TailSpan(p, t, e, k, m)
    ensures Tail(p, t, e).Some? && Tail(p, t, e).value.0 == k && m <= Tail(p, t, e).value.1
  {
    match p
    case LoadNumber =>
      assert InClass(t[k], Digit09);
      RunEndAt(t, e, k, ColonSpace);
      RunEndBound(t, k, m, Digit09);
    case TotalMiles =>
      assert InClass(t[k], DigitDotComma);
      RunEndAt(t, e, k, ColonSpace);
      RunEndBound(t, k, m, DigitDotComma);
    case RateAmount =>
      RateTailGreedy(t, e, k, m);
  }

  lemma RateTailGreedy(t: string, e: nat, k: nat, m: nat)
    requires e <= |t| && TailSpan(RateAmount, t, e, k, m)
    ensures Tail(RateAmount, t, e) == Some((k, m))
  {
    var a, b :| e <= a <= b <= k && AllIn(t, e, a, ColonSpace) &&
      (b == a || (b == a + 1 && t[a] == '$')) && AllIn(t, b, k, Space);
    RateTailFrom(t, e, a, b, k, m);
  }

  lemma RateTailFrom(t: string, e: nat, a: nat, b: nat, k: nat, m: nat)
    requires e <= a <= b <= k && k + 3 < m <= |t| && AllIn(t, e, a, ColonSpace) && AllIn(t, b, k, Space)
    requires b == a || (b == a + 1 && t[a] == '$')
    requires AllIn(t, k, m - 3, DigitComma) && t[m - 3] == '.' && IsDigit(t[m - 2]) && IsDigit(t[m - 1])
    ensures Tail(RateAmount, t, e) == Some((k, m))
  {
    assert InClass(t[k], DigitComma);
    RateLead(t, e, a, b, k);
    RunEndAt(t, k, m - 3, DigitComma);
  }

  /** Before the amount, the greedy `[:\s]*\$?\s*` stops where the amount starts. */
  lemma RateLead(t: string, e: nat, a: nat, b: nat, k: nat)
    requires e <= a <= b <= k < |t| && AllIn(t, e, a, ColonSpace) && AllIn(t, b, k, Space)
    requires b == a || (b == a + 1 && t[a] == '$')
    requires InClass(t[k], DigitComma)
    ensures var c := RunEnd(t, e, ColonSpace);
      RunEnd(t, if c < |t| && t[c] == '$' then c + 1 else c, Space) == k
  {
    if b == a {
      forall x | e <= x < k
        ensures InClass(t[x], ColonSpace)
      {
        if x >= a {
          assert InClass(t[x], Space);
        }
      }
      RunEndAt(t, e, k, ColonSpace);
      RunEndAt(t, k, k, Space);
    } else {
      RunEndAt(t, e, a, ColonSpace);
      RunEndAt(t, b, k, Space);
    }
  }

  // ---------------------------------------------------------------- search

  /** A match: where it starts, which alternative matched, and the group `t[k..m]`. */
  datatype Match = Match(start: nat, alt: nat, groupStart: nat, groupEnd: nat)

  /** Regex semantics: alternative `a` of `p` can match at `j` with group `t[k..m]`. */
  ghost predicate Decomp(p: Pattern, t: string, j: nat, a: nat, k: nat, m: nat) {
    j <= |t| && a < |Labels(p)| &&
    exists e :: LabelSpan(t, j, e, Labels(p)[a]) && TailSpan(p, t, e, k, m)
  }

  ghost predicate MatchesAt(p: Pattern, t: string, j: nat, a: nat) {
    exists k, m :: Decomp(p, t, j, a, k, m)
  }

  /** Alternative `a` at `j`, computed: the label, then the greedy tail. */
  function AltAt(p: Pattern, t: string, j: nat, a: nat): (r: Option<(nat, nat)>)
    requires j <= |t| && a < |Labels(p)|
  {
    var le := LabelEnd(t, j, Labels(p)[a]);
    if le.None? then None else Tail(p, t, le.value)
  }

  lemma AltAtSound(p: Pattern, t: string, j: nat, a: nat)
    requires j <= |t| && a < |Labels(p)| && AltAt(p, t, j, a).Some?
    ensures Decomp(p, t, j, a, AltAt(p, t, j, a).value.0, AltAt(p, t, j, a).value.1)
  {
    var ws := Labels(p)[a];
    var e := LabelEnd(t, j, ws).value;
    LabelSound(t, j, ws);
    TailSound(p, t, e);
  }

  lemma AltAtGreedy(p: Pattern, t: string, j: nat, a: nat, k: nat, m: nat)
    requires Decomp(p, t, j, a, k, m)
    ensures AltAt(p, t, j, a).Some?
    ensures k == AltAt(p, t, j, a).value.0 && m <= AltAt(p, t, j, a).value.1
  {
    var ws := Labels(p)[a];
    var e :| LabelSpan(t, j, e, ws) && TailSpan(p, t, e, k, m);
    LabelComplete(t, j, e, ws);
    TailGreedy(p, t, e, k, m);
  }

  /** The computed alternative agrees with the regex semantics: it succeeds exactly
      when the alternative can match, and then yields the greedy group. */
  lemma AltAtSpec(p: Pattern, t: string, j: nat, a: nat)
    requires j <= |t| && a < |Labels(p)|
    ensures AltAt(p, t, j, a).Some? <==> MatchesAt(p, t, j, a)
    ensures AltAt(p, t, j, a).Some? ==> Greedy(p, t, j, a, AltAt(p, t, j, a).value.0, AltAt(p, t, j, a).value.1)
  {
    var r := AltAt(p, t, j, a);
    if r.Some? {
      AltAtSound(p, t, j, a);
    }
    forall k: nat, m: nat | Decomp(p, t, j, a, k, m)
      ensures r.Some? && k == r.value.0 && m <= r.value.1
    {
      AltAtGreedy(p, t, j, a, k, m);
    }
  }

  /** The alternatives from `a` on, tried in order at `j`. */
  function TryAt(p: Pattern, t: string, j: nat, a: nat): Option<Match>
    requires j <= |t| && a <= |Labels(p)|
    decreases |Labels(p)| - a
  {
    if a == |Labels(p)| then None
    else
      match AltAt(p, t, j, a)
      case Some((k, m)) => Some(Match(j, a, k, m))
      case None => TryAt(p, t, j, a + 1)
  }

  /** The search from position `j` on. */
  function SearchFrom(p: Pattern, t: string, j: nat): Option<Match>
    requires j <= |t|
    decreases |t| - j
  {
    var r := TryAt(p, t, j, 0);
    if r.Some? then r else if j == |t| then None else SearchFrom(p, t, j + 1)
  }

  /** `re.search(pattern, t)` */
  function Search(p: Pattern, t: string): Option<Match> {
    SearchFrom(p, t, 0)
  }

  /** Alternative `a` at `j` matches with group `t[k..m]`, and every way it can
      match puts the group at `k` and ends it no later than `m`. */
  ghost predicate Greedy(p: Pattern, t: string, j: nat, a: nat, k: nat, m: nat) {
    Decomp(p, t, j, a, k, m) &&
    forall k': nat, m': nat :: Decomp(p, t, j, a, k', m') ==> k' == k && m' <= m
  }

  /** No alternative in `lo..hi` matches at `j`. */
  ghost predicate NoAltIn(p: Pattern, t: string, j: nat, lo: nat, hi: nat) {
    forall a: nat :: lo <= a < hi ==> !MatchesAt(p, t, j, a)
  }

  /** Nothing matches at a position in `lo..hi`. */
  ghost predicate NoMatchIn(p: Pattern, t: string, lo: nat, hi: nat) {
    forall j: nat :: lo <= j < hi ==> NoAltIn(p, t, j, 0, |Labels(p)|)
  }

  /** What a match `r` found searching from `j` means for the regex semantics:
      nothing matches earlier, no earlier alternative matches at its start, and
      its group is the greedy one. */
  ghost predicate FirstMatch(p: Pattern, t: string, j: nat, r: Match) {
    j <= r.start <= |t| && r.alt < |Labels(p)| &&
    NoMatchIn(p, t, j, r.start) && NoAltIn(p, t, r.start, 0, r.alt) &&
    Greedy(p, t, r.start, r.alt, r.groupStart, r.groupEnd)
  }

  lemma {:induction false} TryAtSpec(p: Pattern, t: string, j: nat, a: nat)
    requires j <= |t| && a <= |Labels(p)|
    ensures TryAt(p, t, j, a).Some? ==>
      var r := TryAt(p, t, j, a).value;
      r.start == j && a <= r.alt < |Labels(p)| && NoAltIn(p, t, j, a, r.alt) &&
      Greedy(p, t, j, r.alt, r.groupStart, r.groupEnd)
    ensures TryAt(p, t, j, a).None? ==> NoAltIn(p, t, j, a, |Labels(p)|)
    decreases |Labels(p)| - a
  {
    if a < |Labels(p)| {
      AltAtSpec(p, t, j, a);
      if AltAt(p, t, j, a).None? {
        TryAtSpec(p, t, j, a + 1);
        var r := TryAt(p, t, j, a + 1);
        assert TryAt(p, t, j, a) == r;
        if r.Some? {
          NoAltExtend(p, t, j, a, r.value.alt);
        } else {
          NoAltExtend(p, t, j, a, |Labels(p)|);
        }
      }
    }
  }

  lemma NoAltExtend(p: Pattern, t: string, j: nat, a: nat, hi: nat)
    requires a < hi && !MatchesAt(p, t, j, a) && NoAltIn(p, t, j, a + 1, hi)
    ensures NoAltIn(p, t, j, a, hi)
  {
    forall a': nat | a <= a' < hi ensures !MatchesAt(p, t, j, a') {
      if a' > a {
        assert a + 1 <= a' < hi;
      }
    }
  }

  lemma NoMatchExtend(p: Pattern, t: string, j: nat, hi: nat)
    requires j < hi && NoAltIn(p, t, j, 0, |Labels(p)|) && NoMatchIn(p, t, j + 1, hi)
    ensures NoMatchIn(p, t, j, hi)
  {
    forall j': nat | j <= j' < hi ensures NoAltIn(p, t, j', 0, |Labels(p)|) {
      if j' > j {
        assert j + 1 <= j' < hi;
      }
    }
  }

  lemma {:induction false} SearchFromSpec(p: Pattern, t: string, j: nat)
    requires j <= |t|
    ensures SearchFrom(p, t, j).Some? ==> FirstMatch(p, t, j, SearchFrom(p, t, j).value)
    ensures SearchFrom(p, t, j).None? ==> NoMatchIn(p, t, j, |t| + 1)
    decreases |t| - j
  {
    TryAtSpec(p, t, j, 0);
    if TryAt(p, t, j, 0).Some? {
      MatchHere(p, t, j);
    } else if j < |t| {
      SearchFromSpec(p, t, j + 1);
      var r := SearchFrom(p, t, j + 1);
      assert SearchFrom(p, t, j) == r;
      if r.Some? {
        FirstMatchFrom(p, t, j, r.value);
      } else {
        NoMatchExtend(p, t, j, |t| + 1);
      }
    } else {
      NoMatchExtend(p, t, j, |t| + 1);
    }
  }

  /** A match the alternatives find at `j` is the first match from `j`. */
  lemma MatchHere(p: Pattern, t: string, j: nat)
    requires j <= |t| && TryAt(p, t, j, 0).Some?
    ensures FirstMatch(p, t, j, TryAt(p, t, j, 0).value)
  {
    TryAtSpec(p, t, j, 0);
  }

  /** The first match from `j + 1` is the first from `j` when nothing matches at `j`. */
  lemma FirstMatchFrom(p: Pattern, t: string, j: nat, r: Match)
    requires j < |t| && NoAltIn(p, t, j, 0, |Labels(p)|) && FirstMatch(p, t, j + 1, r)
    ensures FirstMatch(p, t, j, r)
  {
    NoMatchExtend(p, t, j, r.start);
  }

  /** `re.search` finds the leftmost position where the pattern matches, the first
      alternative matching there, and the greedy group; it finds nothing exactly
      when the pattern matches nowhere. */
  lemma SearchSpec(p: Pattern, t: string)
    ensures Search(p, t).Some? ==> FirstMatch(p, t, 0, Search(p, t).value)
    ensures Search(p, t).None? <==> NoMatchIn(p, t, 0, |t| + 1)
  {
    SearchFromSpec(p, t, 0);
    var r := Search(p, t);
    if r.Some? {
      var m := r.value;
      assert MatchesAt(p, t, m.start, m.alt) by {
        assert Decomp(p, t, m.start, m.alt, m.groupStart, m.groupEnd);
      }
      assert !NoAltIn(p, t, m.start, 0, |Labels(p)|);
    }
  }

  /** `match.group(1)`, or `""` when there is no match. */
  function Group(p: Pattern, t: string): (g: string)
    ensures Search(p, t).Some? ==> Search(p, t).value.groupEnd <= |t|
  {
    SearchSpec(p, t);
    match Search(p, t)
    case None => ""
    case Some(r) => t[r.groupStart..r.groupEnd]
  }
}
