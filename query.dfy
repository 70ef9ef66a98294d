/** filterExpenses: the four filters of the expense list view (start date,
    end date, category, search text) and its five sort orders. What the
    source reads from the page's controls is a criteria record here. */
module Query {
  import opened Util
  import opened Text
  import opened Records

  /** The list view's controls; an empty date or search means "not set" and
      the category "all" means every category. */
  datatype Criteria = Criteria(
    startDate: string,
    endDate: string,
    category: string,
    search: string,
    sortBy: Option<SortKey>)

  // ---------------------------------------------------------------------
  // The filters

  /** `e.date >= startDate` (string comparison), when a start is set. */
  predicate AfterStart(c: Criteria, e: Expense) {
    c.startDate == "" || LexCompare(e.date, c.startDate) >= 0
  }

  /** `e.date <= endDate`, when an end is set. */
  predicate BeforeEnd(c: Criteria, e: Expense) {
    c.endDate == "" || LexCompare(e.date, c.endDate) <= 0
  }

  /** `e.category === categoryFilter` unless the filter is "all". */
  predicate InCategory(c: Criteria, e: Expense) {
    c.category == "all" || e.category == c.category
  }

  /** The lower-cased query occurs in the lower-cased description, the
      category or one of the tags. */
  predicate Mentions(q: string, e: Expense) {
    || Contains(Lower(e.description), q)
    || Contains(Lower(e.category), q)
    || exists i :: 0 <= i < |e.tags| && Contains(Lower(e.tags[i]), q)
  }

  /** The search filter, when a search is set. */
  predicate SearchHit(c: Criteria, e: Expense) {
    Lower(c.search) == "" || Mentions(Lower(c.search), e)
  }

  /** All four filters at once. */
  predicate Matches(c: Criteria, e: Expense) {
    AfterStart(c, e) && BeforeEnd(c, e) && InCategory(c, e) && SearchHit(c, e)
  }

  function MatchesAll(c: Criteria): Expense -> bool { e => Matches(c, e) }

  function AfterStartIn(c: Criteria): Expense -> bool { e => AfterStart(c, e) }
  function BeforeEndIn(c: Criteria): Expense -> bool { e => BeforeEnd(c, e) }
  function InCategoryIn(c: Criteria): Expense -> bool { e => InCategory(c, e) }
  function SearchHitIn(c: Criteria): Expense -> bool { e => SearchHit(c, e) }

  function UpToEnd(c: Criteria): Expense -> bool { e => AfterStart(c, e) && BeforeEnd(c, e) }
  function UpToCategory(c: Criteria): Expense -> bool { e => AfterStart(c, e) && BeforeEnd(c, e) && InCategory(c, e) }

  // ---------------------------------------------------------------------
  // The sort orders

  /** The values of the sort control that sort: "date", "date-oldest",
      "amount-high", "amount-low" and "category". Any other value is None
      in the criteria and leaves the order alone. */
  datatype SortKey = Newest | Oldest | AmountHigh | AmountLow | ByCategory

  /** The sign of the comparator each sort key passes to `sort`: newest
      date first, oldest date first, highest amount first, lowest amount
      first, category in code-point order. Dates are compared as
      `YYYY-MM-DD` strings, which orders them as calendar days. */
  function Compare(k: SortKey, a: Expense, b: Expense): int
  {
    match k
    case Newest => LexCompare(b.date, a.date)
    case Oldest => LexCompare(a.date, b.date)
    case AmountHigh => b.amount - a.amount
    case AmountLow => a.amount - b.amount
    case ByCategory => LexCompare(a.category, b.category)
  }

  /** Each comparator is antisymmetric ... */
  lemma CompareFlip(k: SortKey, a: Expense, b: Expense)
    ensures Compare(k, a, b) == -Compare(k, b, a)
  {
    LexAntisymmetric(a.date, b.date);
    LexAntisymmetric(a.category, b.category);
  }

  /** ... and transitive, so each sort key is a total preorder. */
  lemma CompareTransitive(k: SortKey, a: Expense, b: Expense, c: Expense)
    requires Compare(k, a, b) <= 0 && Compare(k, b, c) <= 0
    ensures Compare(k, a, c) <= 0
  {
    match k
    case Newest => LexTransitive(c.date, b.date, a.date);
    case Oldest => LexTransitive(a.date, b.date, c.date);
    case ByCategory => LexTransitive(a.category, b.category, c.category);
    case _ =>
  }

  /** Every earlier element compares at most equal to every later one. */
  predicate Ordered(k: SortKey, s: seq<Expense>) {
    forall i, j :: 0 <= i < j < |s| ==> Compare(k, s[i], s[j]) <= 0
  }

  /** Inserts x before the first element it does not compare above. */
  function Insert(k: SortKey, x: Expense, s: seq<Expense>): seq<Expense>
  {
    if s == [] then [x]
    else if Compare(k, x, s[0]) <= 0 then [x] + s
    else [s[0]] + Insert(k, x, s[1..])
  }

  /** Array.prototype.sort with the comparator of k: a stable sort. */
  function SortBy(k: SortKey, xs: seq<Expense>): seq<Expense>
  {
    if xs == [] then [] else Insert(k, xs[0], SortBy(k, xs[1..]))
  }

  lemma {:induction false} InsertPermutation(k: SortKey, x: Expense, s: seq<Expense>)
    ensures multiset(Insert(k, x, s)) == multiset(s) + multiset{x}
  {
    if s != [] && Compare(k, x, s[0]) > 0 {
      InsertPermutation(k, x, s[1..]);
      assert s == [s[0]] + s[1..];
    }
  }

  lemma {:induction false} InsertOrdered(k: SortKey, x: Expense, s: seq<Expense>)
    requires Ordered(k, s)
    ensures Ordered(k, Insert(k, x, s))
  {
    if s == [] {
    } else if Compare(k, x, s[0]) <= 0 {
      forall j | 0 <= j < |s| ensures Compare(k, x, s[j]) <= 0 {
        if j > 0 { CompareTransitive(k, x, s[0], s[j]); }
      }
    } else {
      var y, t := s[0], s[1..];
      assert Ordered(k, t);
      InsertOrdered(k, x, t);
      CompareFlip(k, x, y);
      InsertAbove(k, y, x, t);
      assert Insert(k, x, s) == [y] + Insert(k, x, t);
    }
  }

  /** An element at most equal to x and to every element of t is at most
      equal to every element of t with x inserted. */
  lemma InsertAbove(k: SortKey, y: Expense, x: Expense, t: seq<Expense>)
    requires Compare(k, y, x) <= 0
    requires forall m :: 0 <= m < |t| ==> Compare(k, y, t[m]) <= 0
    ensures forall j :: 0 <= j < |Insert(k, x, t)| ==> Compare(k, y, Insert(k, x, t)[j]) <= 0
  {
    var r := Insert(k, x, t);
    InsertPermutation(k, x, t);
    forall j | 0 <= j < |r| ensures Compare(k, y, r[j]) <= 0 {
      assert r[j] in multiset(r);
      if r[j] != x {
        assert r[j] in multiset(t);
      }
    }
  }

  /** The sort returns a permutation of its input ... */
  lemma {:induction false} SortPermutation(k: SortKey, xs: seq<Expense>)
    ensures multiset(SortBy(k, xs)) == multiset(xs)
  {
    if xs != [] {
      SortPermutation(k, xs[1..]);
      InsertPermutation(k, xs[0], SortBy(k, xs[1..]));
      assert xs == [xs[0]] + xs[1..];
    }
  }

  /** ... in the order of its key ... */
  lemma {:induction false} SortOrdered(k: SortKey, xs: seq<Expense>)
    ensures Ordered(k, SortBy(k, xs))
  {
    if xs != [] {
      SortOrdered(k, xs[1..]);
      InsertOrdered(k, xs[0], SortBy(k, xs[1..]));
    }
  }

  /** The records whose key compares equal to z's. */
  function SameRank(k: SortKey, z: Expense): Expense -> bool { e => Compare(k, z, e) == 0 }

  lemma {:induction false} InsertStable(k: SortKey, x: Expense, s: seq<Expense>, z: Expense)
    ensures Keep(Insert(k, x, s), SameRank(k, z)) ==
              (if Compare(k, z, x) == 0 then [x] else []) + Keep(s, SameRank(k, z))
  {
    var p := SameRank(k, z);
    if s == [] {
      assert [x][1..] == [];
    } else if Compare(k, x, s[0]) <= 0 {
      assert ([x] + s)[1..] == s;
    } else {
      var y, t := s[0], s[1..];
      InsertStable(k, x, t, z);
      assert ([y] + Insert(k, x, t))[1..] == Insert(k, x, t);
      if p(x) && p(y) {
        CompareFlip(k, z, x);
        CompareTransitive(k, x, z, y);
      }
    }
  }

  /** ... and stable: records of equal key keep their relative order. */
  lemma {:induction false} SortStable(k: SortKey, xs: seq<Expense>, z: Expense)
    ensures Keep(SortBy(k, xs), SameRank(k, z)) == Keep(xs, SameRank(k, z))
  {
    if xs != [] {
      SortStable(k, xs[1..], z);
      InsertStable(k, xs[0], SortBy(k, xs[1..]), z);
    }
  }

  // ---------------------------------------------------------------------
  // filterExpenses

  /** The order the sort key gives: sorted for a known key, unchanged for
      any other. */
  function Arranged(k: Option<SortKey>, xs: seq<Expense>): seq<Expense>
  {
    match k
    case Some(key) => SortBy(key, xs)
    case None => xs
  }

  /** filterExpenses: the filters in the source's order, each applied only
      when its control is set, then the sort of the selected key. Applied
      one after the other, the filters select what their conjunction
      selects. */
  method FilterExpenses(expenses: seq<Expense>, c: Criteria) returns (filtered: seq<Expense>)
    ensures filtered == Arranged(c.sortBy, Keep(expenses, MatchesAll(c)))
  {
    filtered := expenses;
    if c.startDate != "" {
      filtered := Keep(filtered, AfterStartIn(c));
    } else {
      KeepAll(expenses, AfterStartIn(c));
    }
    assert filtered == Keep(expenses, AfterStartIn(c));

    if c.endDate != "" {
      filtered := Keep(filtered, BeforeEndIn(c));
    } else {
      KeepAll(filtered, BeforeEndIn(c));
    }
    KeepKeep(expenses, AfterStartIn(c), BeforeEndIn(c), UpToEnd(c));
    assert filtered == Keep(expenses, UpToEnd(c));

    if c.category != "all" {
      filtered := Keep(filtered, InCategoryIn(c));
    } else {
      KeepAll(filtered, InCategoryIn(c));
    }
    KeepKeep(expenses, UpToEnd(c), InCategoryIn(c), UpToCategory(c));
    assert filtered == Keep(expenses, UpToCategory(c));

    var searchQuery := Lower(c.search);
    if searchQuery != "" {
      filtered := Keep(filtered, SearchHitIn(c));
    } else {
      KeepAll(filtered, SearchHitIn(c));
    }
    KeepKeep(expenses, UpToCategory(c), SearchHitIn(c), MatchesAll(c));

    if c.sortBy.Some? {
      filtered := SortBy(c.sortBy.value, filtered);
    }
  }

  /** What filterExpenses returns: exactly the matching records, each as
      often as in the list; ordered by a known key, with records of equal
      key in list order; and in list order altogether for an unknown key. */
  lemma FilterFacts(expenses: seq<Expense>, c: Criteria)
    ensures var r := Arranged(c.sortBy, Keep(expenses, MatchesAll(c)));
            && multiset(r) == multiset(Keep(expenses, MatchesAll(c)))
            && multiset(r) <= multiset(expenses)
            && (forall i :: 0 <= i < |r| ==> Matches(c, r[i]))
            && (forall e :: e in expenses && Matches(c, e) ==> e in r)
            && (c.sortBy.Some? ==> Ordered(c.sortBy.value, r))
            && (c.sortBy.Some? ==> forall z :: Keep(r, SameRank(c.sortBy.value, z)) ==
                                               Keep(Keep(expenses, MatchesAll(c)), SameRank(c.sortBy.value, z)))
            && (c.sortBy.None? ==> r == Keep(expenses, MatchesAll(c)))
  {
    var selected := Keep(expenses, MatchesAll(c));
    KeepMembers(expenses, MatchesAll(c));
    if c.sortBy.Some? {
      SortFacts(c.sortBy.value, selected);
      var r := SortBy(c.sortBy.value, selected);
      forall i | 0 <= i < |r| ensures Matches(c, r[i]) {
        assert r[i] in multiset(selected);
      }
      forall e | e in expenses && Matches(c, e) ensures e in r {
        assert e in multiset(selected);
      }
    }
  }

  /** The sort's three properties together. */
  lemma SortFacts(k: SortKey, xs: seq<Expense>)
    ensures multiset(SortBy(k, xs)) == multiset(xs)
    ensures Ordered(k, SortBy(k, xs))
    ensures forall z :: Keep(SortBy(k, xs), SameRank(k, z)) == Keep(xs, SameRank(k, z))
  {
    SortPermutation(k, xs);
    SortOrdered(k, xs);
    forall z ensures Keep(SortBy(k, xs), SameRank(k, z)) == Keep(xs, SameRank(k, z)) {
      SortStable(k, xs, z);
    }
  }
}
