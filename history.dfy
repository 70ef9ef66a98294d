/** compareMonths, compareYears and getSpendingTrends: counted loops that
    collect, oldest first, one bucket per month, year or day ending at now,
    each holding the total of the store's expenses dated in it. "Now" is a
    parameter. */
module History {
  import opened Util
  import opened Text
  import opened Calendar
  import opened Records
  import opened Stats

  /** `{ label, total }`; `label` is a keyword here, hence `caption`. */
  datatype Bucket = Bucket(caption: string, total: int)

  /** `{ date, label, total }`. */
  datatype DayBucket = DayBucket(date: string, caption: string, total: int)

  /** The sum of the bucket totals. */
  function SumTotals(bs: seq<Bucket>): int
  {
    if bs == [] then 0 else bs[0].total + SumTotals(bs[1..])
  }

  /** The loop the three reports share, `for (let i = n - 1; i >= 0; i--)
      out.push(bucket(i))`: position k holds the bucket for `i = n - 1 - k`,
      so the largest i comes first. */
  method CountDown<B>(n: nat, bucket: int --> B) returns (out: seq<B>)
    requires forall i :: 0 <= i < n ==> bucket.requires(i)
    ensures |out| == n
    ensures forall k :: 0 <= k < n ==> out[k] == bucket(n - 1 - k)
  {
    out := [];
    var i := n - 1;
    while i >= 0
      invariant -1 <= i <= n - 1
      invariant |out| == n - 1 - i
      invariant forall k :: 0 <= k < |out| ==> out[k] == bucket(n - 1 - k)
      decreases i + 1
    {
      out := out + [bucket(i)];
      i := i - 1;
    }
  }

  // ----- compareMonths -----

  /** The (year, month) of bucket k of six: five months back for k = 0, now's
      month for k = 5. */
  function BucketMonth(now: Day, k: int): (int, int)
  {
    MonthsBack(now.year, now.month, 5 - k)
  }

  /** `${monthName} ${year}`. */
  function MonthLabel(year: int, month: int): string
    requires 1 <= month <= 12
  {
    MonthShortName(month) + " " + IntToString(year)
  }

  /** Bucket k of compareMonths, what the loop pushes for `i = 5 - k`: the
      label and total of `new Date(currentYear, currentMonth - i, 1)`'s
      month. */
  function MonthBucket(expenses: seq<Expense>, now: Day, k: int): Bucket
  {
    var ym := BucketMonth(now, k);
    Bucket(MonthLabel(ym.0, ym.1), MonthTotal(expenses, ym.0, ym.1))
  }

  /** What compareMonths returns. */
  function MonthComparison(expenses: seq<Expense>, now: Day): seq<Bucket>
  {
    seq(6, k requires 0 <= k < 6 => MonthBucket(expenses, now, k))
  }

  /** compareMonths: `for (let i = 5; i >= 0; i--)`, one bucket per month,
      the one `i` months back. */
  method CompareMonths(expenses: seq<Expense>, now: Day) returns (months: seq<Bucket>)
    ensures months == MonthComparison(expenses, now)
  {
    months := CountDown(6, i => MonthBucket(expenses, now, 5 - i));
  }

  /** The month number of an expense's parsed date, none when it does not
      parse. */
  function MonthKey(e: Expense): Option<int>
  {
    match ParseIsoDate(e.date)
    case Some(d) => Some(MonthNumber(d.year, d.month))
    case None => None
  }

  /** The month numbers of the six buckets, in bucket order. */
  function MonthWindow(now: Day): seq<Option<int>>
  {
    seq(6, k requires 0 <= k < 6 => Some(MonthNumber(now.year, now.month) - 5 + k))
  }

  /** The six months compareMonths covers are consecutive, oldest first,
      and end with now's month. */
  lemma BucketMonthsConsecutive(now: Day)
    requires 1 <= now.month <= 12
    ensures forall k :: 0 <= k < 5 ==>
              MonthNumber(BucketMonth(now, k + 1).0, BucketMonth(now, k + 1).1) ==
              MonthNumber(BucketMonth(now, k).0, BucketMonth(now, k).1) + 1
    ensures BucketMonth(now, 5) == (now.year, now.month)
  {
    var last := BucketMonth(now, 5);
    MonthNumberInjective(last.0, last.1, now.year, now.month);
  }

  /** compareMonths gives six buckets, bucket k labelled by and totalling
      the k-th of the six months, the last one now's month. */
  lemma MonthComparisonFacts(expenses: seq<Expense>, now: Day)
    requires 1 <= now.month <= 12
    ensures |MonthComparison(expenses, now)| == 6
    ensures forall k :: 0 <= k < 6 ==>
              var ym := BucketMonth(now, k);
              MonthComparison(expenses, now)[k] == Bucket(MonthLabel(ym.0, ym.1), MonthTotal(expenses, ym.0, ym.1))
    ensures MonthComparison(expenses, now)[5] ==
            Bucket(MonthLabel(now.year, now.month), MonthTotal(expenses, now.year, now.month))
  {
    BucketMonthsConsecutive(now);
  }

  /** Each expense dated in one of the six months is counted in exactly one
      bucket of compareMonths, and no other expense is counted. */
  lemma MonthComparisonSum(expenses: seq<Expense>, now: Day)
    requires 1 <= now.month <= 12
    ensures SumTotals(MonthComparison(expenses, now)) == Total(Keep(expenses, KeyAmong(MonthKey, MonthWindow(now))))
  {
    var r := MonthComparison(expenses, now);
    var w := MonthWindow(now);
    forall k | 0 <= k < 6 ensures r[k].total == KeyTotal(expenses, MonthKey, w[k]) {
      MonthBucketByKey(expenses, now, k);
    }
    SumTotalsByKey(r, expenses, MonthKey, w);
    KeySumCovers(expenses, MonthKey, w);
  }

  /** Bucket k of compareMonths totals the expenses keyed by its month. */
  lemma MonthBucketByKey(expenses: seq<Expense>, now: Day, k: int)
    requires 0 <= k < 6
    ensures MonthBucket(expenses, now, k).total == KeyTotal(expenses, MonthKey, MonthWindow(now)[k])
  {
    var ym := BucketMonth(now, k);
    MonthTotalByKey(expenses, ym.0, ym.1);
  }

  /** Two (year, month) pairs with valid months have the same month number
      only when they are the same. */
  lemma MonthNumberInjective(y1: int, m1: int, y2: int, m2: int)
    requires 1 <= m1 <= 12 && 1 <= m2 <= 12
    requires MonthNumber(y1, m1) == MonthNumber(y2, m2)
    ensures y1 == y2 && m1 == m2
  {
  }

  /** The month filter of compareMonths picks the expenses whose month key
      is that month's number. */
  lemma MonthTotalByKey(expenses: seq<Expense>, year: int, month: int)
    requires 1 <= month <= 12
    ensures MonthTotal(expenses, year, month) == KeyTotal(expenses, MonthKey, Some(MonthNumber(year, month)))
  {
    forall i | 0 <= i < |expenses|
      ensures InMonthAt(year, month)(expenses[i]) == KeyEquals(MonthKey, Some(MonthNumber(year, month)))(expenses[i])
    {
      InMonthByKey(expenses[i], year, month);
    }
    KeepExt(expenses, InMonthAt(year, month), KeyEquals(MonthKey, Some(MonthNumber(year, month))));
  }

  /** One expense is in the month exactly when its month key is that
      month's number. */
  lemma InMonthByKey(e: Expense, year: int, month: int)
    requires 1 <= month <= 12
    ensures InMonthAt(year, month)(e) == KeyEquals(MonthKey, Some(MonthNumber(year, month)))(e)
  {
    assert InMonthAt(year, month)(e) == InMonth(year, month, e);
    assert KeyEquals(MonthKey, Some(MonthNumber(year, month)))(e) == (MonthKey(e) == Some(MonthNumber(year, month)));
    if ParseIsoDate(e.date).Some? {
      var d := ParseIsoDate(e.date).value;
      if MonthNumber(d.year, d.month) == MonthNumber(year, month) {
        MonthNumberInjective(d.year, d.month, year, month);
      }
    }
  }

  /** Buckets whose totals are the per-key totals of ks add up to the key sum. */
  lemma {:induction false} SumTotalsByKey<K>(bs: seq<Bucket>, xs: seq<Expense>, key: Expense -> K, ks: seq<K>)
    requires |bs| == |ks|
    requires forall k :: 0 <= k < |bs| ==> bs[k].total == KeyTotal(xs, key, ks[k])
    ensures SumTotals(bs) == KeySum(xs, key, ks)
  {
    if bs != [] {
      SumTotalsByKey(bs[1..], xs, key, ks[1..]);
    }
  }

  // ----- compareYears -----

  /** `new Date(e.date).getFullYear() === year`. */
  predicate InYear(year: int, e: Expense) {
    match ParseIsoDate(e.date)
    case Some(d) => d.year == year
    case None => false
  }

  function InYearAt(year: int): Expense -> bool {
    e => InYear(year, e)
  }

  /** The total of the expenses dated in the year. */
  function YearTotal(expenses: seq<Expense>, year: int): int
  {
    Total(Keep(expenses, InYearAt(year)))
  }

  /** Bucket k of compareYears: year `currentYear - 2 + k`, labelled by its
      digits. */
  function YearBucket(expenses: seq<Expense>, now: Day, k: int): Bucket
  {
    var year := now.year - (2 - k);
    Bucket(IntToString(year), YearTotal(expenses, year))
  }

  /** What compareYears returns. */
  function YearComparison(expenses: seq<Expense>, now: Day): seq<Bucket>
  {
    seq(3, k requires 0 <= k < 3 => YearBucket(expenses, now, k))
  }

  /** compareYears: `for (let i = 2; i >= 0; i--)`, one bucket per year,
      the one `i` years back. */
  method CompareYears(expenses: seq<Expense>, now: Day) returns (years: seq<Bucket>)
    ensures years == YearComparison(expenses, now)
  {
    years := CountDown(3, i => Bucket(IntToString(now.year - i), YearTotal(expenses, now.year - i)));
  }

  /** The year of an expense's parsed date, none when it does not parse. */
  function YearKey(e: Expense): Option<int>
  {
    match ParseIsoDate(e.date)
    case Some(d) => Some(d.year)
    case None => None
  }

  /** The years of the three buckets, in bucket order. */
  function YearWindow(now: Day): seq<Option<int>>
  {
    seq(3, k requires 0 <= k < 3 => Some(now.year - 2 + k))
  }

  /** compareYears gives three buckets for the two years before now's and
      now's, oldest first, each labelled by its year. */
  lemma YearComparisonFacts(expenses: seq<Expense>, now: Day)
    ensures |YearComparison(expenses, now)| == 3
    ensures forall k :: 0 <= k < 3 ==> YearComparison(expenses, now)[k].caption == IntToString(now.year - 2 + k)
    ensures forall k :: 0 <= k < 3 ==> YearComparison(expenses, now)[k].total == YearTotal(expenses, now.year - 2 + k)
  {
  }

  /** Each expense dated in one of the three years is counted in exactly one
      bucket of compareYears, and no other expense is counted. */
  lemma YearComparisonSum(expenses: seq<Expense>, now: Day)
    ensures SumTotals(YearComparison(expenses, now)) == Total(Keep(expenses, KeyAmong(YearKey, YearWindow(now))))
  {
    var r := YearComparison(expenses, now);
    var w := YearWindow(now);
    forall k | 0 <= k < 3 ensures r[k].total == KeyTotal(expenses, YearKey, w[k]) {
      YearBucketByKey(expenses, now, k);
    }
    SumTotalsByKey(r, expenses, YearKey, w);
    KeySumCovers(expenses, YearKey, w);
  }

  /** Bucket k of compareYears totals the expenses keyed by its year. */
  lemma YearBucketByKey(expenses: seq<Expense>, now: Day, k: int)
    requires 0 <= k < 3
    ensures YearBucket(expenses, now, k).total == KeyTotal(expenses, YearKey, YearWindow(now)[k])
  {
    YearTotalByKey(expenses, now.year - (2 - k));
  }

  /** The year filter of compareYears picks the expenses whose year key is
      that year. */
  lemma YearTotalByKey(expenses: seq<Expense>, year: int)
    ensures YearTotal(expenses, year) == KeyTotal(expenses, YearKey, Some(year))
  {
    forall i | 0 <= i < |expenses|
      ensures InYearAt(year)(expenses[i]) == KeyEquals(YearKey, Some(year))(expenses[i])
    {
      var e := expenses[i];
      assert InYear(year, e) <==> YearKey(e) == Some(year) by {
        if ParseIsoDate(e.date).Some? {
          assert YearKey(e) == Some(ParseIsoDate(e.date).value.year);
        }
      }
    }
    KeepExt(expenses, InYearAt(year), KeyEquals(YearKey, Some(year)));
  }

  // ----- getSpendingTrends -----

  /** The day of bucket k of thirty: 29 days back for k = 0, now for k = 29
      (`date.setDate(date.getDate() - i)`). */
  function TrendDay(now: Day, k: int): (d: Day)
    requires ValidDay(now) && k <= 29
    ensures ValidDay(d)
  {
    DaysBack(now, 29 - k)
  }

  /** `e.date === dateStr`. */
  predicate DatedOn(date: string, e: Expense) { e.date == date }

  function DatedOnAt(date: string): Expense -> bool {
    e => DatedOn(date, e)
  }

  /** The total of the expenses carrying the date string. */
  function DayTotal(expenses: seq<Expense>, date: string): int
  {
    Total(Keep(expenses, DatedOnAt(date)))
  }

  /** `toLocaleDateString('default', { month: 'short', day: 'numeric' })`
      in an English locale: `Mon D`. */
  function DayLabel(d: Day): string
    requires ValidDay(d)
  {
    MonthShortName(d.month) + " " + NatToString(d.day)
  }

  /** Bucket k of getSpendingTrends: the day's ISO text, its label and the
      total of the expenses dated that day. */
  function TrendBucket(expenses: seq<Expense>, now: Day, k: int): DayBucket
    requires ValidDay(now) && k <= 29
  {
    var d := TrendDay(now, k);
    var date := IsoDate(d);
    DayBucket(date, DayLabel(d), DayTotal(expenses, date))
  }

  /** What getSpendingTrends returns. */
  function SpendingTrends(expenses: seq<Expense>, now: Day): seq<DayBucket>
    requires ValidDay(now)
  {
    seq(30, k requires 0 <= k < 30 => TrendBucket(expenses, now, k))
  }

  /** getSpendingTrends: `for (let i = 29; i >= 0; i--)`, one bucket per day,
      the one `i` days back. */
  method GetSpendingTrends(expenses: seq<Expense>, now: Day) returns (days: seq<DayBucket>)
    requires ValidDay(now)
    ensures days == SpendingTrends(expenses, now)
  {
    days := CountDown(30, i requires 0 <= i <= 29 => TrendBucket(expenses, now, 29 - i));
  }

  /** getSpendingTrends gives thirty buckets for thirty consecutive days,
      oldest first and ending with now; each is dated by its day's ISO text
      and totals exactly the expenses carrying that date. */
  lemma SpendingTrendsFacts(expenses: seq<Expense>, now: Day)
    requires ValidDay(now)
    ensures var r := SpendingTrends(expenses, now);
            && |r| == 30
            && TrendDay(now, 29) == now
            && r[29].date == IsoDate(now)
            && (forall k :: 0 <= k < 29 ==> TrendDay(now, k + 1) == NextDay(TrendDay(now, k)))
            && (forall k :: 0 <= k < 30 ==> r[k].date == IsoDate(TrendDay(now, k)))
    ensures forall k :: 0 <= k < 30 ==>
              var b := SpendingTrends(expenses, now)[k];
              && b.total == DayTotal(expenses, b.date)
              && (forall e :: e in Keep(expenses, DatedOnAt(b.date)) <==> e in expenses && e.date == b.date)
  {
    forall k | 0 <= k < 29 ensures TrendDay(now, k + 1) == NextDay(TrendDay(now, k)) {
      PrevNextInverse(TrendDay(now, k + 1));
    }
    forall k | 0 <= k < 30
      ensures var date := SpendingTrends(expenses, now)[k].date;
              forall e :: e in Keep(expenses, DatedOnAt(date)) <==> e in expenses && e.date == date
    {
      KeepMembers(expenses, DatedOnAt(SpendingTrends(expenses, now)[k].date));
    }
  }
}
