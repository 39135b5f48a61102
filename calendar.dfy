/** Naive `datetime` values of Python's proleptic Gregorian calendar, the
    `timedelta(days=...)` addition the bot uses for subscriptions, and
    `strftime('%d.%m.%Y')`. */
module Calendar {
  import opened Wrappers
  import opened Numerals


  const DayMicros: nat := 86_400_000_000

  predicate IsLeap(y: int) {
    y % 4 == 0 && (y % 100 != 0 || y % 400 == 0)
  }

  function DaysInYear(y: int): nat {
    if IsLeap(y) then 366 else 365
  }

  function DaysInMonth(y: int, m: int): (n: nat)
    requires 1 <= m <= 12
    ensures 28 <= n <= 31
  {
    if m == 2 then (if IsLeap(y) then 29 else 28)
    else if m == 4 || m == 6 || m == 9 || m == 11 then 30
    else 31
  }

  /** Days in the years before year `y` (year 1 starts at day 0). */
  function DaysBeforeYear(y: nat): nat
    requires y >= 1
  {
    var p := y - 1;
    365 * p + p / 4 - p / 100 + p / 400
  }

  lemma DaysBeforeNextYear(y: nat)
    requires y >= 1
    ensures DaysBeforeYear(y + 1) == DaysBeforeYear(y) + DaysInYear(y)
  {
    var p := y - 1;
    DivStep4(p);
    DivStep100(p);
    DivStep400(p);
    LeapDivisors(y);
  }

  /** A multiple of 400 is one of 100, and a multiple of 100 one of 4. */
  lemma LeapDivisors(y: nat)
    ensures y % 400 == 0 ==> y % 100 == 0
    ensures y % 100 == 0 ==> y % 4 == 0
  {
    if y % 400 == 0 {
      var k := y / 400;
      assert y == 100 * (4 * k);
    }
    if y % 100 == 0 {
      var k := y / 100;
      assert y == 4 * (25 * k);
    }
  }

  lemma DivStep4(p: nat)
    ensures (p + 1) / 4 == p / 4 + (if (p + 1) % 4 == 0 then 1 else 0)
  {
  }

  lemma DivStep100(p: nat)
    ensures (p + 1) / 100 == p / 100 + (if (p + 1) % 100 == 0 then 1 else 0)
  {
  }

  lemma DivStep400(p: nat)
    ensures (p + 1) / 400 == p / 400 + (if (p + 1) % 400 == 0 then 1 else 0)
  {
  }

  /** Days in the months of year `y` before month `m`. */
  function DaysBeforeMonth(y: int, m: int): (n: nat)
    requires 1 <= m <= 13
    decreases m
  {
    if m == 1 then 0 else DaysBeforeMonth(y, m - 1) + DaysInMonth(y, m - 1)
  }

  lemma YearIsItsMonths(y: int)
    ensures DaysBeforeMonth(y, 13) == DaysInYear(y)
  {
  }

  /** The largest year `datetime` represents is 9999. */
  const MaxYear: nat := 9999
  const MaxDays: nat := DaysBeforeYear(MaxYear + 1)
  const MaxInstant: nat := MaxDays * DayMicros

  predicate ValidInstant(t: int) {
    0 <= t < MaxInstant
  }

  /** A naive `datetime`: microseconds since 0001-01-01 00:00:00, up to the end
      of year 9999. */
  type Instant = t: int | ValidInstant(t) witness 0

  datatype Date = Date(year: int, month: int, day: int)

  predicate ValidDate(d: Date) {
    1 <= d.year <= MaxYear && 1 <= d.month <= 12 && 1 <= d.day <= DaysInMonth(d.year, d.month)
  }

  /** Day number of a date, counting 0001-01-01 as day 0. */
  function DaysFromDate(d: Date): nat
    requires ValidDate(d)
  {
    DaysBeforeYear(d.year) + DaysBeforeMonth(d.year, d.month) + d.day - 1
  }

  /** The year holding day `n` of the years from `y` on, and the day within it. */
  function YearOf(n: nat, y: nat): (r: (nat, nat))
    requires y >= 1
    ensures r.0 >= y && r.1 < DaysInYear(r.0)
    ensures DaysBeforeYear(r.0) + r.1 == DaysBeforeYear(y) + n
    decreases n
  {
    DaysBeforeNextYear(y);
    if n < DaysInYear(y) then (y, n) else YearOf(n - DaysInYear(y), y + 1)
  }

  /** The month holding day `n` of year `y`, counting from month `m`, and the day
      within it. */
  function MonthOf(y: int, n: nat, m: int): (r: (int, nat))
    requires 1 <= m <= 12
    requires DaysBeforeMonth(y, m) + n < DaysInYear(y)
    ensures m <= r.0 <= 12 && r.1 < DaysInMonth(y, r.0)
    ensures DaysBeforeMonth(y, r.0) + r.1 == DaysBeforeMonth(y, m) + n
    decreases 12 - m
  {
    if n < DaysInMonth(y, m) || m == 12 then (m, n)
    else MonthOf(y, n - DaysInMonth(y, m), m + 1)
  }

  /** The calendar date of day number `n`. */
  function DateFromDays(n: nat): (d: Date)
    ensures d.year >= 1 && 1 <= d.month <= 12 && 1 <= d.day <= DaysInMonth(d.year, d.month)
  {
    var (y, r) := YearOf(n, 1);
    var (m, k) := MonthOf(y, r, 1);
    Date(y, m, k + 1)
  }

  lemma {:induction false} YearsIncrease(a: nat, b: nat)
    requires 1 <= a < b
    ensures DaysBeforeYear(a) + DaysInYear(a) <= DaysBeforeYear(b)
    decreases b - a
  {
    DaysBeforeNextYear(a);
    if a + 1 < b {
      YearsIncrease(a + 1, b);
    }
  }

  lemma YearUnique(a: nat, ra: nat, b: nat, rb: nat)
    requires a >= 1 && b >= 1 && ra < DaysInYear(a) && rb < DaysInYear(b)
    requires DaysBeforeYear(a) + ra == DaysBeforeYear(b) + rb
    ensures a == b && ra == rb
  {
    if a < b {
      YearsIncrease(a, b);
    } else if b < a {
      YearsIncrease(b, a);
    }
  }

  lemma {:induction false} MonthsIncrease(y: int, a: int, b: int)
    requires 1 <= a < b <= 12
    ensures DaysBeforeMonth(y, a) + DaysInMonth(y, a) <= DaysBeforeMonth(y, b)
    decreases b - a
  {
    if a + 1 < b {
      MonthsIncrease(y, a + 1, b);
    }
  }

  lemma MonthUnique(y: int, a: int, ra: nat, b: int, rb: nat)
    requires 1 <= a <= 12 && 1 <= b <= 12 && ra < DaysInMonth(y, a) && rb < DaysInMonth(y, b)
    requires DaysBeforeMonth(y, a) + ra == DaysBeforeMonth(y, b) + rb
    ensures a == b && ra == rb
  {
    if a < b {
      MonthsIncrease(y, a, b);
    } else if b < a {
      MonthsIncrease(y, b, a);
    }
  }

  /** Counting the days of a date and converting back gives the date again. */
  lemma DateRoundTrip(d: Date)
    requires ValidDate(d)
    ensures DateFromDays(DaysFromDate(d)) == d
  {
    var n := DaysFromDate(d);
    var (y, r) := YearOf(n, 1);
    assert DaysBeforeYear(1) == 0;
    if d.month < 12 {
      MonthsIncrease(d.year, d.month, 12);
    }
    assert DaysBeforeMonth(d.year, d.month) + d.day - 1 < DaysInYear(d.year);
    YearUnique(y, r, d.year, DaysBeforeMonth(d.year, d.month) + d.day - 1);
    var (m, k) := MonthOf(y, r, 1);
    MonthUnique(y, m, k, d.month, d.day - 1);
  }

  /** Converting a day number to a date and back gives the number again; the
      numbers `datetime` can hold are exactly those whose year is at most 9999. */
  lemma DaysRoundTrip(n: nat)
    ensures DaysFromDateAny(DateFromDays(n)) == n
    ensures ValidDate(DateFromDays(n)) <==> n < MaxDays
  {
    var (y, r) := YearOf(n, 1);
    assert DaysBeforeYear(1) == 0;
    var (m, k) := MonthOf(y, r, 1);
    if y <= MaxYear {
      if y < MaxYear {
        YearsIncrease(y, MaxYear);
      }
      DaysBeforeNextYear(MaxYear);
    } else {
      if MaxYear + 1 < y {
        YearsIncrease(MaxYear + 1, y);
      }
      DaysBeforeNextYear(MaxYear);
    }
  }

  /** `DaysFromDate` without the upper bound on the year. */
  function DaysFromDateAny(d: Date): int
    requires d.year >= 1 && 1 <= d.month <= 12
  {
    DaysBeforeYear(d.year) + DaysBeforeMonth(d.year, d.month) + d.day - 1
  }

  /** The calendar date of an instant. */
  function DateOf(t: Instant): (d: Date)
    ensures ValidDate(d)
  {
    assert ValidInstant(t);
    DaysRoundTrip(t / DayMicros);
    DateFromDays(t / DayMicros)
  }

  /** `t + timedelta(days=days)`; `None` for the `OverflowError` raised when the
      `timedelta` or the resulting `datetime` is out of range. */
  function AddDays(t: Instant, days: int): (r: Option<Instant>)
    ensures r.Some? <==> -999_999_999 <= days <= 999_999_999 && ValidInstant(t + days * DayMicros)
    ensures r.Some? ==> r.value - t == days * DayMicros
  {
    if days < -999_999_999 || days > 999_999_999 then None
    else if !ValidInstant(t + days * DayMicros) then None
    else Some(t + days * DayMicros)
  }

  /** Adding whole days keeps the time of day and moves the date by that many days. */
  lemma AddDaysMovesDate(t: Instant, days: int)
    requires AddDays(t, days).Some?
    ensures DaysFromDate(DateOf(AddDays(t, days).value)) == DaysFromDate(DateOf(t)) + days
  {
    var u := AddDays(t, days).value;
    assert u == t + days * DayMicros;
    assert ValidInstant(t) && ValidInstant(u);
    assert u / DayMicros == t / DayMicros + days;
    DaysRoundTrip(t / DayMicros);
    DaysRoundTrip(u / DayMicros);
  }

  /** Two decimal digits, as `%d` and `%m` print them. */
  function Pad2(n: nat): (s: string)
    requires n < 100
    ensures |s| == 2 && AllDigits(s) && DigitsValue(s) == n
  {
    var s := [DigitChar(n / 10), DigitChar(n % 10)];
    assert s[..1] == [DigitChar(n / 10)];
    assert DigitsValue(s[..1]) == n / 10 by {
      assert [DigitChar(n / 10)][..0] == [];
    }
    s
  }

  /** `strftime('%d.%m.%Y')`; the year is printed without padding, as the C
      library on Linux does. */
  function FormatDate(t: Instant): (s: string)
    ensures |s| >= 7 && s[2] == '.' && s[5] == '.'
  {
    var d := DateOf(t);
    Pad2(d.day) + "." + Pad2(d.month) + "." + NatToString(d.year)
  }

  /** The printed date reads back as the day, the month and the year of the instant. */
  lemma FormatDateReadsBack(t: Instant)
    ensures var s := FormatDate(t); var d := DateOf(t);
      |s| >= 7 && s[2] == '.' && s[5] == '.' &&
      AllDigits(s[..2]) && DigitsValue(s[..2]) == d.day &&
      AllDigits(s[3..5]) && DigitsValue(s[3..5]) == d.month &&
      AllDigits(s[6..]) && DigitsValue(s[6..]) == d.year
  {
    var d := DateOf(t);
    var s := FormatDate(t);
    assert s[..2] == Pad2(d.day);
    assert s[3..5] == Pad2(d.month);
    assert s[6..] == NatToString(d.year);
    NatToStringValue(d.year);
  }
}
