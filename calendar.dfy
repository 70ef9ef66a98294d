/** Calendar dates as (year, month, day) triples, the `YYYY-MM-DD` strings
    that `Date.prototype.toISOString().split('T')[0]` produces for them and
    that `new Date(...)` reads back, and the day and month stepping the
    history series perform. Months are numbered 1..12 (JavaScript's
    `getMonth()` is this number minus one). */
module Calendar {
  import opened Util
  import opened Text

  datatype Day = Day(year: int, month: int, day: int)

  /** The proleptic Gregorian leap-year rule of JavaScript's Date. */
  predicate IsLeapYear(y: int) {
    y % 4 == 0 && (y % 100 != 0 || y % 400 == 0)
  }

  /** The number of days of month m of year y: the day of
      `new Date(y, m, 0)` (day zero of the next month). */
  function DaysInMonth(y: int, m: int): (n: int)
    requires 1 <= m <= 12
    ensures 28 <= n <= 31
    ensures m == 2 ==> (n == 29 <==> IsLeapYear(y))
    ensures m != 2 ==> (n == 30 <==> m in {4, 6, 9, 11})
  {
    if m == 2 then (if IsLeapYear(y) then 29 else 28)
    else if m == 4 || m == 6 || m == 9 || m == 11 then 30
    else 31
  }

  /** A day that exists in the calendar. */
  predicate ValidDay(d: Day) {
    1 <= d.month <= 12 && 1 <= d.day <= DaysInMonth(d.year, d.month)
  }

  /** A year that toISOString writes with exactly four digits. */
  predicate FourDigitYear(y: int) { 0 <= y <= 9999 }

  /** The year as toISOString writes it: four digits for years 0..9999, a
      sign and six digits otherwise. */
  function YearString(y: int): string
  {
    if FourDigitYear(y) then Pad(y, 4)
    else (if y < 0 then "-" else "+") + Pad(if y < 0 then -y else y, 6)
  }

  /** The `YYYY-MM-DD` text of a day. */
  function IsoDate(d: Day): string
    requires ValidDay(d)
  {
    YearString(d.year) + "-" + Pad(d.month, 2) + "-" + Pad(d.day, 2)
  }

  /** The string shape `dddd-dd-dd`. */
  predicate IsoShape(s: string) {
    && |s| == 10
    && AllDigits(s[0..4]) && s[4] == '-'
    && AllDigits(s[5..7]) && s[7] == '-'
    && AllDigits(s[8..10])
  }

  lemma PadWidth(n: nat, w: nat)
    requires 1 <= w && n < Pow10(w)
    ensures |Pad(n, w)| == w && AllDigits(Pad(n, w)) && DigitsValue(Pad(n, w)) == n
  {
    NatToStringLength(n, w);
    PadFacts(n, w);
  }

  lemma Pow10Values()
    ensures Pow10(2) == 100 && Pow10(4) == 10000
  {
    assert Pow10(1) == 10;
    assert Pow10(3) == 1000;
  }

  /** For a four-digit year the text has the fixed width `dddd-dd-dd`. */
  lemma IsoDateShape(d: Day)
    requires ValidDay(d) && FourDigitYear(d.year)
    ensures IsoShape(IsoDate(d))
    ensures IsoDate(d)[0..4] == Pad(d.year, 4)
    ensures IsoDate(d)[5..7] == Pad(d.month, 2)
    ensures IsoDate(d)[8..10] == Pad(d.day, 2)
  {
    Pow10Values();
    PadWidth(d.year, 4);
    PadWidth(d.month, 2);
    PadWidth(d.day, 2);
    var s := IsoDate(d);
    assert s == Pad(d.year, 4) + "-" + Pad(d.month, 2) + "-" + Pad(d.day, 2);
    assert s[0..4] == Pad(d.year, 4);
    assert s[5..7] == Pad(d.month, 2);
    assert s[8..10] == Pad(d.day, 2);
  }

  /** `new Date(s)` for a date-only ISO string, read back as a calendar day:
      None where JavaScript gives an invalid date. */
  function ParseIsoDate(s: string): (r: Option<Day>)
    ensures r.Some? ==> ValidDay(r.value) && FourDigitYear(r.value.year)
  {
    if IsoShape(s) then
      var d := Day(DigitsValue(s[0..4]), DigitsValue(s[5..7]), DigitsValue(s[8..10]));
      if ValidDay(d) then
        DigitsBound(s[0..4]);
        Pow10Values();
        Some(d)
      else None
    else None
  }

  /** Formatting a day and reading it back gives the day. */
  lemma ParseIsoDateRoundTrip(d: Day)
    requires ValidDay(d) && FourDigitYear(d.year)
    ensures ParseIsoDate(IsoDate(d)) == Some(d)
  {
    IsoDateShape(d);
    PadFacts(d.year, 4);
    PadFacts(d.month, 2);
    PadFacts(d.day, 2);
  }

  /** A string of k digits denotes a number below 10^k. */
  lemma {:induction false} DigitsBound(s: string)
    requires AllDigits(s)
    ensures DigitsValue(s) < Pow10(|s|)
  {
    if s != [] {
      DigitsBound(s[..|s| - 1]);
    }
  }

  /** The value of a digit string read from its first digit. */
  lemma {:induction false} DigitsValueFront(s: string)
    requires AllDigits(s) && s != []
    ensures DigitsValue(s) == DigitValue(s[0]) * Pow10(|s| - 1) + DigitsValue(s[1..])
  {
    if |s| > 1 {
      var init := s[..|s| - 1];
      DigitsValueFront(init);
      assert init[1..] == s[1..][..|s[1..]| - 1];
      assert init[0] == s[0];
    } else {
      assert s[1..] == [];
    }
  }

  /** A number with a smaller leading digit is smaller. */
  lemma LeadingDigitLess(x: nat, y: nat, ra: nat, rb: nat, p: nat)
    requires x < y && ra < p
    ensures x * p + ra < y * p + rb
  {
    assert (x + 1) * p <= y * p by {
      var k := y - (x + 1);
      assert y * p == (x + 1) * p + k * p;
    }
  }

  /** On digit strings of one length, string order is numeric order. */
  lemma {:induction false} LexDigits(a: string, b: string)
    requires AllDigits(a) && AllDigits(b) && |a| == |b|
    ensures LexCompare(a, b) < 0 <==> DigitsValue(a) < DigitsValue(b)
    ensures LexCompare(a, b) == 0 <==> DigitsValue(a) == DigitsValue(b)
  {
    if a != [] {
      if a[0] == b[0] {
        LexDigits(a[1..], b[1..]);
        LexDigitsSameHead(a, b);
      } else if a[0] < b[0] {
        LexDigitsHeadLess(a, b);
      } else {
        LexDigitsHeadLess(b, a);
        LexAntisymmetric(a, b);
      }
    }
  }

  lemma LexDigitsSameHead(a: string, b: string)
    requires AllDigits(a) && AllDigits(b) && |a| == |b| && a != []
    requires a[0] == b[0]
    ensures LexCompare(a, b) == LexCompare(a[1..], b[1..])
    ensures DigitsValue(a) - DigitsValue(b) == DigitsValue(a[1..]) - DigitsValue(b[1..])
  {
    DigitsValueFront(a);
    DigitsValueFront(b);
  }

  lemma LexDigitsHeadLess(a: string, b: string)
    requires AllDigits(a) && AllDigits(b) && |a| == |b| && a != []
    requires a[0] < b[0]
    ensures LexCompare(a, b) == -1
    ensures DigitsValue(a) < DigitsValue(b)
  {
    DigitsValueFront(a);
    DigitsValueFront(b);
    DigitsBound(a[1..]);
    LeadingDigitLess(DigitValue(a[0]), DigitValue(b[0]), DigitsValue(a[1..]), DigitsValue(b[1..]), Pow10(|a| - 1));
  }

  /** String comparison of two concatenations whose first parts have one
      length looks at the second parts only when the first parts agree. */
  lemma {:induction false} LexConcat(a1: string, a2: string, b1: string, b2: string)
    requires |a1| == |b1|
    ensures LexCompare(a1 + a2, b1 + b2) ==
            if a1 == b1 then LexCompare(a2, b2) else LexCompare(a1, b1)
  {
    if a1 == [] {
      assert a1 + a2 == a2 && b1 + b2 == b2;
    } else {
      assert (a1 + a2)[1..] == a1[1..] + a2 && (b1 + b2)[1..] == b1[1..] + b2;
      LexConcat(a1[1..], a2, b1[1..], b2);
      if a1[0] == b1[0] && a1[1..] == b1[1..] {
        assert a1 == [a1[0]] + a1[1..] && b1 == [b1[0]] + b1[1..];
      }
    }
  }

  /** Chronological three-way comparison of days. */
  function CompareDays(a: Day, b: Day): (r: int)
    ensures -1 <= r <= 1
    ensures r == 0 <==> a == b
  {
    if a.year != b.year then (if a.year < b.year then -1 else 1)
    else if a.month != b.month then (if a.month < b.month then -1 else 1)
    else if a.day != b.day then (if a.day < b.day then -1 else 1)
    else 0
  }

  /** Comparing the `YYYY-MM-DD` texts of days of four-digit years as strings
      compares the days chronologically: the reason the engine may compare
      dates as strings. */
  lemma IsoDateOrder(a: Day, b: Day)
    requires ValidDay(a) && FourDigitYear(a.year)
    requires ValidDay(b) && FourDigitYear(b.year)
    ensures LexCompare(IsoDate(a), IsoDate(b)) == CompareDays(a, b)
  {
    Pow10Values();
    PadWidth(a.year, 4);
    PadWidth(a.month, 2);
    PadWidth(a.day, 2);
    PadWidth(b.year, 4);
    PadWidth(b.month, 2);
    PadWidth(b.day, 2);
    var ya, ma, da := Pad(a.year, 4), Pad(a.month, 2), Pad(a.day, 2);
    var yb, mb, db := Pad(b.year, 4), Pad(b.month, 2), Pad(b.day, 2);
    LexFields(ya, ma, da, yb, mb, db);
    LexDigits(ya, yb);
    LexDigits(ma, mb);
    LexDigits(da, db);
  }

  /** String comparison of `y-m-d` texts with fields of matching widths is
      field-by-field comparison. */
  lemma LexFields(y1: string, m1: string, d1: string, y2: string, m2: string, d2: string)
    requires |y1| == |y2| && |m1| == |m2|
    ensures LexCompare(y1 + "-" + m1 + "-" + d1, y2 + "-" + m2 + "-" + d2) ==
            if y1 != y2 then LexCompare(y1, y2)
            else if m1 != m2 then LexCompare(m1, m2)
            else LexCompare(d1, d2)
  {
    assert y1 + "-" + m1 + "-" + d1 == y1 + ("-" + (m1 + ("-" + d1)));
    assert y2 + "-" + m2 + "-" + d2 == y2 + ("-" + (m2 + ("-" + d2)));
    LexConcat(y1, "-" + (m1 + ("-" + d1)), y2, "-" + (m2 + ("-" + d2)));
    LexConcat("-", m1 + ("-" + d1), "-", m2 + ("-" + d2));
    LexConcat(m1, "-" + d1, m2, "-" + d2);
    LexConcat("-", d1, "-", d2);
  }

  /** The day before d, rolling over month and year ends
      (`date.setDate(date.getDate() - 1)`). */
  function PrevDay(d: Day): (r: Day)
    requires ValidDay(d)
    ensures ValidDay(r) && CompareDays(r, d) < 0
  {
    if d.day > 1 then Day(d.year, d.month, d.day - 1)
    else if d.month > 1 then Day(d.year, d.month - 1, DaysInMonth(d.year, d.month - 1))
    else Day(d.year - 1, 12, 31)
  }

  /** The day after d. */
  function NextDay(d: Day): (r: Day)
    requires ValidDay(d)
    ensures ValidDay(r) && CompareDays(d, r) < 0
  {
    if d.day < DaysInMonth(d.year, d.month) then Day(d.year, d.month, d.day + 1)
    else if d.month < 12 then Day(d.year, d.month + 1, 1)
    else Day(d.year + 1, 1, 1)
  }

  /** Stepping back one day and forward one day are inverse: no day is
      skipped or repeated. */
  lemma PrevNextInverse(d: Day)
    requires ValidDay(d)
    ensures NextDay(PrevDay(d)) == d
    ensures PrevDay(NextDay(d)) == d
  {
  }

  /** The day n days before d. */
  function DaysBack(d: Day, n: nat): (r: Day)
    requires ValidDay(d)
    ensures ValidDay(r)
    ensures n > 0 ==> CompareDays(r, d) < 0
  {
    if n == 0 then d
    else
      var r := PrevDay(DaysBack(d, n - 1));
      CompareDaysTransitive(r, DaysBack(d, n - 1), d);
      r
  }

  lemma CompareDaysTransitive(a: Day, b: Day, c: Day)
    requires CompareDays(a, b) <= 0 && CompareDays(b, c) <= 0
    ensures CompareDays(a, c) <= 0
    ensures CompareDays(a, b) < 0 || CompareDays(b, c) < 0 ==> CompareDays(a, c) < 0
  {
  }

  /** The number of a month counted from January of year 0. */
  function MonthNumber(year: int, month: int): int {
    year * 12 + (month - 1)
  }

  /** The (year, month) i months before the given one, as
      `new Date(year, month - 1 - i, 1)` normalises it. */
  function MonthsBack(year: int, month: int, i: int): (r: (int, int))
    ensures 1 <= r.1 <= 12
    ensures MonthNumber(r.0, r.1) == MonthNumber(year, month) - i
  {
    var n := MonthNumber(year, month) - i;
    (n / 12, n % 12 + 1)
  }

  /** Three-letter English month names, what toLocaleString gives for
      `{ month: 'short' }` in an English locale. */
  function MonthShortName(m: int): string
    requires 1 <= m <= 12
  {
    match m
    case 1 => "Jan" case 2 => "Feb" case 3 => "Mar" case 4 => "Apr"
    case 5 => "May" case 6 => "Jun" case 7 => "Jul" case 8 => "Aug"
    case 9 => "Sep" case 10 => "Oct" case 11 => "Nov" case _ => "Dec"
  }
}
