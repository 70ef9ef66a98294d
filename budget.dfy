/** calculateBudgetRemaining and getBudgetUtilization: the budget of a
    (category, period) key against what was spent in that category during
    the current month or year. The window's bound strings are a parameter:
    the engine derives them from the clock through `toISOString`, which can
    move them by a day in time zones other than UTC; PeriodWindow is the
    window they are meant to be. */
module Budgets {
  import opened Util
  import opened Text
  import opened Calendar
  import opened Records

  /** `budgets.find(b => b.category === category && b.period === period)`. */
  function FindBudget(budgets: seq<Budget>, category: string, period: Period): Option<Budget>
  {
    Find(budgets, KeyIs(category, period))
  }

  /** The lookup finds a budget of the key when there is one and nothing
      otherwise; with one budget per key, it finds that one. */
  lemma FindBudgetMeaning(budgets: seq<Budget>, category: string, period: Period)
    ensures FindBudget(budgets, category, period).None? <==>
              forall i :: 0 <= i < |budgets| ==> !SameKey(category, period, budgets[i])
    ensures FindBudget(budgets, category, period).Some? ==>
              var b := FindBudget(budgets, category, period).value;
              b in budgets && b.category == category && b.period == period
    ensures UniqueKeys(budgets) ==>
              forall i :: 0 <= i < |budgets| && SameKey(category, period, budgets[i]) ==>
                FindBudget(budgets, category, period) == Some(budgets[i])
  {
    var key := KeyIs(category, period);
    FindIndexMeaning(budgets, key);
    if UniqueKeys(budgets) {
      forall i | 0 <= i < |budgets| && SameKey(category, period, budgets[i])
        ensures FindBudget(budgets, category, period) == Some(budgets[i])
      {
        assert key(budgets[i]);
        var k := FindIndex(budgets, key).value;
        assert SameKey(category, period, budgets[k]);
      }
    }
  }

  /** The first and last day of the period containing now: its calendar
      month, or its calendar year. */
  function PeriodStart(period: Period, now: Day): (d: Day)
    requires ValidDay(now)
    ensures ValidDay(d)
  {
    match period
    case Monthly => Day(now.year, now.month, 1)
    case Yearly => Day(now.year, 1, 1)
  }

  function PeriodEnd(period: Period, now: Day): (d: Day)
    requires ValidDay(now)
    ensures ValidDay(d)
  {
    match period
    case Monthly => Day(now.year, now.month, DaysInMonth(now.year, now.month))
    case Yearly => Day(now.year, 12, 31)
  }

  /** The day is in the period containing now. */
  predicate InPeriod(period: Period, now: Day, d: Day) {
    match period
    case Monthly => d.year == now.year && d.month == now.month
    case Yearly => d.year == now.year
  }

  /** The window's bounds are what the period means: a valid day lies
      between them exactly when it is in the period. */
  lemma PeriodBounds(period: Period, now: Day, d: Day)
    requires ValidDay(now) && ValidDay(d)
    ensures CompareDays(d, PeriodStart(period, now)) >= 0 && CompareDays(d, PeriodEnd(period, now)) <= 0
            <==> InPeriod(period, now, d)
  {
  }

  /** The `startDate` and `endDate` strings the expenses are compared with. */
  datatype Window = Window(start: string, end: string)

  /** The window as written out for the period containing now (what
      `toISOString().split('T')[0]` gives when local time is UTC). */
  function PeriodWindow(period: Period, now: Day): Window
    requires ValidDay(now)
  {
    Window(IsoDate(PeriodStart(period, now)), IsoDate(PeriodEnd(period, now)))
  }

  /** The expense counts against the budget: its category, and its date
      within the window, compared as strings (`e.date >= startDate &&
      e.date <= endDate`). */
  predicate Counts(category: string, w: Window, e: Expense) {
    e.category == category && LexCompare(e.date, w.start) >= 0 && LexCompare(e.date, w.end) <= 0
  }

  function CountsIn(category: string, w: Window): Expense -> bool {
    e => Counts(category, w, e)
  }

  /** The amount spent in the category within the window. */
  function Spent(expenses: seq<Expense>, category: string, w: Window): int
  {
    Total(Keep(expenses, CountsIn(category, w)))
  }

  /** What was spent is the sum over exactly the expenses that count, and
      restricted to non-negative amounts it is non-negative. */
  lemma SpentMeaning(expenses: seq<Expense>, category: string, w: Window)
    ensures forall e :: e in Keep(expenses, CountsIn(category, w)) <==> e in expenses && Counts(category, w, e)
    ensures (forall i :: 0 <= i < |expenses| ==> expenses[i].amount >= 0) ==> Spent(expenses, category, w) >= 0
  {
    var kept := Keep(expenses, CountsIn(category, w));
    KeepMembers(expenses, CountsIn(category, w));
    if forall i :: 0 <= i < |expenses| ==> expenses[i].amount >= 0 {
      forall i | 0 <= i < |kept| ensures kept[i].amount >= 0 {
        assert kept[i] in expenses;
      }
      TotalNonNegative(kept);
    }
  }

  /** For an expense dated by a day of a four-digit year, the string
      comparison against the period's window selects it exactly when its
      day is in the period. */
  lemma CountsMeaning(category: string, period: Period, now: Day, e: Expense, d: Day)
    requires ValidDay(now) && FourDigitYear(now.year)
    requires ValidDay(d) && FourDigitYear(d.year) && e.date == IsoDate(d)
    ensures Counts(category, PeriodWindow(period, now), e) <==> e.category == category && InPeriod(period, now, d)
  {
    IsoDateOrder(d, PeriodStart(period, now));
    IsoDateOrder(d, PeriodEnd(period, now));
    PeriodBounds(period, now, d);
  }

  /** calculateBudgetRemaining: absent without a budget for the key,
      otherwise the limit less what was spent. */
  function CalculateBudgetRemaining(budgets: seq<Budget>, expenses: seq<Expense>, category: string,
                                    period: Period, w: Window): Option<int>
  {
    match FindBudget(budgets, category, period)
    case None => None
    case Some(b) => Some(b.limit - Spent(expenses, category, w))
  }

  /** A JavaScript number as far as `(spent / limit) * 100` can produce one:
      a finite percentage, or a division by a zero limit (Infinity,
      -Infinity, NaN). */
  datatype Percentage = Finite(value: real) | PlusInfinity | MinusInfinity | NotANumber

  /** `(totalSpent / limit) * 100`. */
  function Percent(spent: int, limit: int): (p: Percentage)
    ensures limit != 0 <==> p.Finite?
    ensures p.Finite? ==> p.value * (limit as real) == (spent as real) * 100.0
    ensures limit == 0 ==> (p == PlusInfinity <==> spent > 0) && (p == NotANumber <==> spent == 0)
  {
    if limit != 0 then Finite((spent as real) / (limit as real) * 100.0)
    else if spent > 0 then PlusInfinity
    else if spent < 0 then MinusInfinity
    else NotANumber
  }

  /** getBudgetUtilization: absent without a budget for the key, otherwise
      the spent share of the limit in percent. */
  function GetBudgetUtilization(budgets: seq<Budget>, expenses: seq<Expense>, category: string,
                                period: Period, w: Window): Option<Percentage>
  {
    match FindBudget(budgets, category, period)
    case None => None
    case Some(b) => Some(Percent(Spent(expenses, category, w), b.limit))
  }

  /** Both queries answer exactly when the key has a budget. */
  lemma QueriesDefined(budgets: seq<Budget>, expenses: seq<Expense>, category: string,
                       period: Period, w: Window)
    ensures CalculateBudgetRemaining(budgets, expenses, category, period, w).Some? <==>
            (exists i :: 0 <= i < |budgets| && SameKey(category, period, budgets[i]))
    ensures GetBudgetUtilization(budgets, expenses, category, period, w).Some? <==>
            (exists i :: 0 <= i < |budgets| && SameKey(category, period, budgets[i]))
  {
    FindBudgetMeaning(budgets, category, period);
  }

  /** The two queries agree on a budget b of the key: the remainder plus
      what was spent is the limit, and with a positive limit utilization is
      below or at 100 exactly when the remainder is positive or zero. */
  lemma RemainingAndUtilization(budgets: seq<Budget>, expenses: seq<Expense>, category: string,
                                period: Period, w: Window, b: Budget)
    requires FindBudget(budgets, category, period) == Some(b)
    ensures var r := CalculateBudgetRemaining(budgets, expenses, category, period, w);
            r.Some? && r.value + Spent(expenses, category, w) == b.limit
    ensures b.limit > 0 ==>
              var r := CalculateBudgetRemaining(budgets, expenses, category, period, w).value;
              var u := GetBudgetUtilization(budgets, expenses, category, period, w).value;
              u.Finite? && (u.value < 100.0 <==> r > 0) && (u.value == 100.0 <==> r == 0)
  {
    var s := Spent(expenses, category, w);
    if b.limit > 0 {
      PercentBelow(s, b.limit, Percent(s, b.limit).value);
    }
  }

  /** A percentage of a positive limit is below or at 100 exactly when the
      amount is below or at the limit. */
  lemma PercentBelow(spent: int, limit: int, p: real)
    requires limit > 0 && p * (limit as real) == (spent as real) * 100.0
    ensures p < 100.0 <==> spent < limit
    ensures p == 100.0 <==> spent == limit
  {
    var d := p - 100.0;
    var l := limit as real;
    assert d * l == ((spent - limit) as real) * 100.0;
    if d < 0.0 {
      assert d * l < 0.0;
    } else if d > 0.0 {
      assert d * l > 0.0;
    }
  }
}
