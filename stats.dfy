/** calculateTotalExpenses, calculateAverageSpending and
    calculateCategoryTotals: aggregates over a list of expenses, the given
    (filtered) one or, when none is given, the whole store. "Now" is a
    parameter. */
module Stats {
  import opened Util
  import opened Calendar
  import opened Records

  /** `filteredExpenses || expenses`: the given list whenever there is one,
      even an empty one (an empty array is truthy), else the store's. */
  function Chosen(filtered: Option<seq<Expense>>, expenses: seq<Expense>): seq<Expense>
  {
    if filtered.Some? then filtered.value else expenses
  }

  /** calculateTotalExpenses. */
  function CalculateTotalExpenses(filtered: Option<seq<Expense>>, expenses: seq<Expense>): int
  {
    Total(Chosen(filtered, expenses))
  }

  /** The total of a given list is the sum of its amounts, whatever the
      store holds; only without a list does the store count. It adds up
      over concatenation, ignores order, and is bounded below by 0 when no
      amount is negative. */
  lemma TotalFacts(filtered: Option<seq<Expense>>, expenses: seq<Expense>)
    ensures filtered == Some([]) ==> CalculateTotalExpenses(filtered, expenses) == 0
    ensures filtered.None? && expenses == [] ==> CalculateTotalExpenses(filtered, expenses) == 0
    ensures forall a, b :: CalculateTotalExpenses(Some(a + b), expenses) ==
                           CalculateTotalExpenses(Some(a), expenses) + CalculateTotalExpenses(Some(b), expenses)
    ensures forall a :: multiset(a) == multiset(expenses) ==>
              CalculateTotalExpenses(Some(a), expenses) == CalculateTotalExpenses(None, expenses)
    ensures (forall i :: 0 <= i < |Chosen(filtered, expenses)| ==> Chosen(filtered, expenses)[i].amount >= 0) ==>
              CalculateTotalExpenses(filtered, expenses) >= 0
  {
    forall a, b ensures Total(a + b) == Total(a) + Total(b) {
      TotalAppend(a, b);
    }
    forall a | multiset(a) == multiset(expenses) ensures Total(a) == Total(expenses) {
      TotalPermutation(a, expenses);
    }
    var xs := Chosen(filtered, expenses);
    if forall i :: 0 <= i < |xs| ==> xs[i].amount >= 0 {
      TotalNonNegative(xs);
    }
  }

  /** `new Date(e.date)` falls in the given month of the given year. A date
      string that does not parse gives NaN, which equals nothing. */
  predicate InMonth(year: int, month: int, e: Expense) {
    match ParseIsoDate(e.date)
    case Some(d) => d.year == year && d.month == month
    case None => false
  }

  function InMonthAt(year: int, month: int): Expense -> bool {
    e => InMonth(year, month, e)
  }

  /** The total of the list's expenses dated in the given month. */
  function MonthTotal(xs: seq<Expense>, year: int, month: int): int
  {
    Total(Keep(xs, InMonthAt(year, month)))
  }

  /** calculateAverageSpending: 0 for an empty list, otherwise the total of
      now's month divided by the day of the month. */
  function CalculateAverageSpending(filtered: Option<seq<Expense>>, expenses: seq<Expense>, now: Day): real
  {
    var xs := Chosen(filtered, expenses);
    if |xs| == 0 then 0.0
    else
      var total := MonthTotal(xs, now.year, now.month);
      if now.day > 0 then (total as real) / (now.day as real) else 0.0
  }

  /** The average is the month's total spread over the days elapsed: times
      the day of the month it gives back that total; it is 0 for an empty
      list and non-negative when no amount is negative. */
  lemma AverageFacts(filtered: Option<seq<Expense>>, expenses: seq<Expense>, now: Day)
    requires ValidDay(now)
    ensures Chosen(filtered, expenses) == [] ==> CalculateAverageSpending(filtered, expenses, now) == 0.0
    ensures Chosen(filtered, expenses) != [] ==>
              CalculateAverageSpending(filtered, expenses, now) * (now.day as real) ==
              MonthTotal(Chosen(filtered, expenses), now.year, now.month) as real
    ensures (forall i :: 0 <= i < |Chosen(filtered, expenses)| ==> Chosen(filtered, expenses)[i].amount >= 0) ==>
              CalculateAverageSpending(filtered, expenses, now) >= 0.0
  {
    var xs := Chosen(filtered, expenses);
    if xs != [] {
      var total := MonthTotal(xs, now.year, now.month);
      if forall i :: 0 <= i < |xs| ==> xs[i].amount >= 0 {
        MonthTotalFacts(xs, now.year, now.month);
      }
      Quotient(total as real, now.day as real);
    }
  }

  lemma Quotient(t: real, d: real)
    requires d > 0.0
    ensures (t / d) * d == t
    ensures t >= 0.0 ==> t / d >= 0.0
  {
  }

  /** The month's total sums exactly the expenses dated in that month, and
      with no negative amount it is non-negative. */
  lemma MonthTotalFacts(xs: seq<Expense>, year: int, month: int)
    ensures forall e :: e in Keep(xs, InMonthAt(year, month)) <==> e in xs && InMonth(year, month, e)
    ensures (forall i :: 0 <= i < |xs| ==> xs[i].amount >= 0) ==> MonthTotal(xs, year, month) >= 0
  {
    var kept := Keep(xs, InMonthAt(year, month));
    KeepMembers(xs, InMonthAt(year, month));
    if forall i :: 0 <= i < |xs| ==> xs[i].amount >= 0 {
      forall i | 0 <= i < |kept| ensures kept[i].amount >= 0 {
        assert kept[i] in xs;
      }
      TotalNonNegative(kept);
    }
  }

  /** An expense dated by the ISO text of a day is in a month exactly when
      that day is. */
  lemma InMonthIso(year: int, month: int, e: Expense, d: Day)
    requires ValidDay(d) && FourDigitYear(d.year) && e.date == IsoDate(d)
    ensures InMonth(year, month, e) <==> d.year == year && d.month == month
  {
    ParseIsoDateRoundTrip(d);
  }

  /** The category an expense is filed under, as a key for KeyTotal. */
  function CategoryOf(e: Expense): string { e.category }

  /** calculateCategoryTotals: an entry for every category of the fixed
      list. */
  function CalculateCategoryTotals(filtered: Option<seq<Expense>>, expenses: seq<Expense>): map<string, int>
  {
    var xs := Chosen(filtered, expenses);
    map c | c in Categories :: KeyTotal(xs, CategoryOf, c)
  }

  /** The totals have exactly the categories as keys, each mapped to the
      total of that category. */
  lemma CategoryTotalsKeys(filtered: Option<seq<Expense>>, expenses: seq<Expense>)
    ensures CalculateCategoryTotals(filtered, expenses).Keys == set x | x in Categories
    ensures forall c :: c in Categories ==>
              CalculateCategoryTotals(filtered, expenses)[c] == KeyTotal(Chosen(filtered, expenses), CategoryOf, c)
  {
  }

  /** A category's total sums over exactly the expenses of that category;
      with no negative amount it is non-negative. */
  lemma CategoryTotalFacts(xs: seq<Expense>, c: string)
    ensures forall e :: e in Keep(xs, KeyEquals(CategoryOf, c)) <==> e in xs && CategoryOf(e) == c
    ensures (forall i :: 0 <= i < |xs| ==> xs[i].amount >= 0) ==> KeyTotal(xs, CategoryOf, c) >= 0
  {
    var kept := Keep(xs, KeyEquals(CategoryOf, c));
    KeepMembers(xs, KeyEquals(CategoryOf, c));
    if forall i :: 0 <= i < |xs| ==> xs[i].amount >= 0 {
      forall i | 0 <= i < |kept| ensures kept[i].amount >= 0 {
        assert kept[i] in xs;
      }
      TotalNonNegative(kept);
    }
  }

  /** The sum of the map's entries for the listed keys. */
  function SumOver(m: map<string, int>, cs: seq<string>): int
    requires forall c :: c in cs ==> c in m
  {
    if cs == [] then 0 else m[cs[0]] + SumOver(m, cs[1..])
  }

  /** When every expense carries one of the categories, the category totals
      add up to the total: each expense is counted in exactly one entry. */
  lemma CategoryTotalsSum(filtered: Option<seq<Expense>>, expenses: seq<Expense>)
    requires forall i :: 0 <= i < |Chosen(filtered, expenses)| ==> Chosen(filtered, expenses)[i].category in Categories
    ensures SumOver(CalculateCategoryTotals(filtered, expenses), Categories) ==
            CalculateTotalExpenses(filtered, expenses)
  {
    var xs := Chosen(filtered, expenses);
    var m := CalculateCategoryTotals(filtered, expenses);
    CategoriesDistinct();
    SumOverTotals(m, xs, Categories);
    KeySumCovers(xs, CategoryOf, Categories);
    assert forall i :: 0 <= i < |xs| ==> KeyAmong(CategoryOf, Categories)(xs[i]) by {
      forall i | 0 <= i < |xs| ensures KeyAmong(CategoryOf, Categories)(xs[i]) {
        assert CategoryOf(xs[i]) == xs[i].category;
      }
    }
    KeepAll(xs, KeyAmong(CategoryOf, Categories));
  }

  lemma {:induction false} SumOverTotals(m: map<string, int>, xs: seq<Expense>, cs: seq<string>)
    requires forall c :: c in cs ==> c in m && m[c] == KeyTotal(xs, CategoryOf, c)
    ensures SumOver(m, cs) == KeySum(xs, CategoryOf, cs)
  {
    if cs != [] {
      SumOverTotals(m, xs, cs[1..]);
    }
  }
}
