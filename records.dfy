/** The records the engine works on: expenses, budgets, the fixed category
    list, and the sum of amounts every aggregate is built from. Amounts and
    limits are integer cents. */
module Records {
  import opened Util

  /** The fixed category labels, in the order the engine lists them. */
  const Categories: seq<string> :=
    ["Food", "Transportation", "Entertainment", "Bills", "Shopping", "Healthcare", "Education", "Other"]

  /** An expense; `updatedAt` is absent until the first edit. */
  datatype Expense = Expense(
    id: string,
    amount: int,
    category: string,
    date: string,
    description: string,
    tags: seq<string>,
    createdAt: string,
    updatedAt: Option<string>)

  /** The period a budget covers: a calendar month or a calendar year. */
  datatype Period = Monthly | Yearly

  /** A spending limit for one (category, period) key. */
  datatype Budget = Budget(category: string, limit: int, period: Period)

  /** The budget is the one for (category, period). */
  predicate SameKey(category: string, period: Period, b: Budget) {
    b.category == category && b.period == period
  }

  function KeyIs(category: string, period: Period): Budget -> bool {
    b => SameKey(category, period, b)
  }

  /** At most one budget per (category, period). */
  predicate UniqueKeys(bs: seq<Budget>) {
    forall i, j :: 0 <= i < j < |bs| ==> !(bs[i].category == bs[j].category && bs[i].period == bs[j].period)
  }

  /** `reduce((sum, e) => sum + e.amount, 0)`. */
  function Total(xs: seq<Expense>): int
  {
    if xs == [] then 0 else xs[0].amount + Total(xs[1..])
  }

  /** The total of a concatenation is the sum of the totals. */
  lemma {:induction false} TotalAppend(a: seq<Expense>, b: seq<Expense>)
    ensures Total(a + b) == Total(a) + Total(b)
  {
    if a == [] {
      assert a + b == b;
    } else {
      assert (a + b)[1..] == a[1..] + b;
      TotalAppend(a[1..], b);
    }
  }

  lemma {:induction false} TotalNonNegative(xs: seq<Expense>)
    requires forall i :: 0 <= i < |xs| ==> xs[i].amount >= 0
    ensures Total(xs) >= 0
  {
    if xs != [] {
      TotalNonNegative(xs[1..]);
    }
  }

  /** The total depends only on which records there are, not on their
      order. */
  lemma {:induction false} TotalPermutation(a: seq<Expense>, b: seq<Expense>)
    requires multiset(a) == multiset(b)
    ensures Total(a) == Total(b)
    decreases |a|
  {
    if a != [] {
      var x := a[0];
      assert x in multiset(b);
      var k :| 0 <= k < |b| && b[k] == x;
      var rest := b[..k] + b[k + 1..];
      MultisetRemove(b, k);
      assert multiset(a[1..]) == multiset(a) - multiset{x} by {
        assert a == [x] + a[1..];
      }
      TotalPermutation(a[1..], rest);
      TotalRemove(b, k);
    }
  }

  /** Taking one record out of a sequence. */
  lemma MultisetRemove(b: seq<Expense>, k: nat)
    requires k < |b|
    ensures multiset(b[..k] + b[k + 1..]) == multiset(b) - multiset{b[k]}
  {
    assert b == b[..k] + [b[k]] + b[k + 1..];
  }

  /** The total is any one amount plus the total of the others. */
  lemma TotalRemove(b: seq<Expense>, k: nat)
    requires k < |b|
    ensures Total(b) == b[k].amount + Total(b[..k] + b[k + 1..])
  {
    var before, x, after := b[..k], b[k], b[k + 1..];
    assert b == before + ([x] + after);
    TotalAppend(before, [x] + after);
    assert ([x] + after)[1..] == after;
    TotalAppend(before, after);
  }

  /** The records whose key is k. */
  function KeyEquals<K(==)>(key: Expense -> K, k: K): Expense -> bool {
    e => key(e) == k
  }

  /** The records whose key is one of ks. */
  function KeyAmong<K(==)>(key: Expense -> K, ks: seq<K>): Expense -> bool {
    e => key(e) in ks
  }

  /** The total of the records whose key is k. */
  function KeyTotal<K(==)>(xs: seq<Expense>, key: Expense -> K, k: K): int {
    Total(Keep(xs, KeyEquals(key, k)))
  }

  /** The per-key totals of ks, added up. */
  function KeySum<K(==)>(xs: seq<Expense>, key: Expense -> K, ks: seq<K>): int {
    if ks == [] then 0 else KeyTotal(xs, key, ks[0]) + KeySum(xs, key, ks[1..])
  }

  /** No key is listed twice. */
  predicate Distinct<K(==)>(ks: seq<K>) {
    forall i, j :: 0 <= i < j < |ks| ==> ks[i] != ks[j]
  }

  /** Totals by distinct keys partition the records: added up they give the
      total of the records whose key is among them, each counted once. */
  lemma {:induction false} KeySumCovers<K>(xs: seq<Expense>, key: Expense -> K, ks: seq<K>)
    requires Distinct(ks)
    ensures KeySum(xs, key, ks) == Total(Keep(xs, KeyAmong(key, ks)))
  {
    if xs != [] {
      KeySumCons(xs, key, ks);
      KeySumCovers(xs[1..], key, ks);
    } else {
      KeySumEmpty(key, ks);
    }
  }

  lemma {:induction false} KeySumEmpty<K>(key: Expense -> K, ks: seq<K>)
    ensures KeySum([], key, ks) == 0
  {
    if ks != [] {
      KeySumEmpty(key, ks[1..]);
    }
  }

  /** The first record adds its amount to the total of its own key, and to
      no other. */
  lemma {:induction false} KeySumCons<K>(xs: seq<Expense>, key: Expense -> K, ks: seq<K>)
    requires xs != [] && Distinct(ks)
    ensures KeySum(xs, key, ks) == (if key(xs[0]) in ks then xs[0].amount else 0) + KeySum(xs[1..], key, ks)
  {
    if ks != [] {
      assert Distinct(ks[1..]) by {
        forall i, j | 0 <= i < j < |ks[1..]| ensures ks[1..][i] != ks[1..][j] {
          assert ks[1..][i] == ks[i + 1] && ks[1..][j] == ks[j + 1];
        }
      }
      KeySumCons(xs, key, ks[1..]);
      assert ks[0] !in ks[1..] by {
        assert forall j :: 0 <= j < |ks[1..]| ==> ks[1..][j] == ks[j + 1];
      }
      assert key(xs[0]) in ks <==> key(xs[0]) == ks[0] || key(xs[0]) in ks[1..] by {
        assert ks == [ks[0]] + ks[1..];
      }
    }
  }

  /** No category is listed twice. */
  lemma CategoriesDistinct()
    ensures Distinct(Categories)
  {
  }
}
