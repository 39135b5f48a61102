/** Decimal text for integers: Python's `str(n)` and `int(s)` (base 10). */
module Numerals {
  import opened Wrappers
  import opened Text

  predicate IsDigit(c: char) {
    '0' <= c <= '9'
  }

  predicate AllDigits(s: string) {
    forall i :: 0 <= i < |s| ==> IsDigit(s[i])
  }

  function DigitChar(d: nat): (c: char)
    requires d < 10
    ensures IsDigit(c)
  {
    ('0' as int + d) as char
  }

  function DigitValue(c: char): (d: nat)
    requires IsDigit(c)
    ensures d < 10
  {
    c as int - '0' as int
  }

  /** The number a string of decimal digits denotes (leading zeros allowed). */
  function DigitsValue(s: string): nat
    requires AllDigits(s)
    decreases |s|
  {
    if s == [] then 0 else DigitsValue(s[..|s| - 1]) * 10 + DigitValue(s[|s| - 1])
  }

  /** `str(n)` for a natural number: digits with no leading zero. */
  function NatToString(n: nat): (s: string)
    ensures s != [] && AllDigits(s)
    ensures |s| > 1 ==> s[0] != '0'
    decreases n
  {
    if n < 10 then [DigitChar(n)] else NatToString(n / 10) + [DigitChar(n % 10)]
  }

  lemma {:induction false} NatToStringValue(n: nat)
    ensures DigitsValue(NatToString(n)) == n
    decreases n
  {
    if n >= 10 {
      NatToStringValue(n / 10);
      var s := NatToString(n);
      assert s[..|s| - 1] == NatToString(n / 10);
    }
  }

  /** `str(i)` */
  function IntToString(i: int): string {
    if i < 0 then "-" + NatToString(-i) else NatToString(i)
  }

  /** The digits of `s`, every other character dropped. */
  function DigitsOf(s: string): (r: string)
    ensures AllDigits(r)
    decreases |s|
  {
    if s == [] then [] else (if IsDigit(s[0]) then [s[0]] else []) + DigitsOf(s[1..])
  }

  lemma {:induction false} DigitsOfDigits(s: string)
    requires AllDigits(s)
    ensures DigitsOf(s) == s
    decreases |s|
  {
    if s != [] { DigitsOfDigits(s[1..]); }
  }

  /** What `int()` accepts after the sign: digits, with single underscores only
      between two digits. */
  predicate DigitBody(s: string) {
    s != [] && IsDigit(s[0]) && IsDigit(s[|s| - 1]) &&
    forall i :: 0 <= i < |s| ==> IsDigit(s[i]) || (s[i] == '_' && i + 1 < |s| && IsDigit(s[i + 1]))
  }

  /** `int(s)`, with `None` for the `ValueError` it raises: surrounding whitespace is
      ignored, one optional sign, then a digit body. */
  function ParseInt(s: string): (r: Option<int>)
    ensures r.Some? ==> Strip(s) != []
  {
    var t := Strip(s);
    if t == [] then None
    else
      var neg := t[0] == '-';
      var body := if t[0] == '-' || t[0] == '+' then t[1..] else t;
      if !DigitBody(body) then None
      else
        var v: int := DigitsValue(DigitsOf(body));
        Some(if neg then -v else v)
  }

  lemma IntToStringTrimmed(i: int)
    ensures Strip(IntToString(i)) == IntToString(i)
  {
    var s := IntToString(i);
    var d := if i < 0 then NatToString(-i) else NatToString(i);
    assert IsDigit(d[|d| - 1]) && s[|s| - 1] == d[|d| - 1];
    assert s[0] == '-' || IsDigit(s[0]);
    StripTrimmed(s);
  }

  /** `int(str(i)) == i` */
  lemma ParseIntOfString(i: int)
    ensures ParseInt(IntToString(i)) == Some(i)
  {
    var n: nat := if i < 0 then -i else i;
    IntToStringTrimmed(i);
    SignedDigits(i);
    DigitsOfDigits(NatToString(n));
    NatToStringValue(n);
  }

  /** `str(i)` is a minus sign exactly for a negative `i`, then the digits of its
      magnitude, which form a digit body. */
  lemma SignedDigits(i: int)
    ensures var s, n := IntToString(i), if i < 0 then -i else i;
      s != [] && (s[0] == '-' <==> i < 0) && s[0] != '+' &&
      (if s[0] == '-' then s[1..] else s) == NatToString(n) && DigitBody(NatToString(n))
  {
    var n: nat := if i < 0 then -i else i;
    var digits := NatToString(n);
    var s := IntToString(i);
    assert s[0] == '-' <==> i < 0;
    var body := if s[0] == '-' then s[1..] else s;
    assert body == digits;
  }
}
