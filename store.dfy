/** The two collections the engine keeps, `expenses` and `budgets`, and the
    operations that change them in place. The generated id and the
    timestamps are parameters: the store does not draw random ids or read a
    clock. */
module Store {
  import opened Util
  import opened Text
  import opened Records

  /** What the expense form submits: the amount already in cents, and the
      description and tags as typed (empty when left blank). */
  datatype ExpenseInput = ExpenseInput(
    amount: int,
    category: string,
    date: string,
    description: string,
    tags: string)

  /** What the budget form submits: the limit already in cents. */
  datatype BudgetInput = BudgetInput(category: string, limit: int, period: Period)

  /** `tags ? tags.split(',').map(t => t.trim()) : []`: a blank field gives
      no tags; otherwise every comma-separated piece is kept, trimmed, even
      an empty one. */
  function FormTags(text: string): seq<string>
  {
    if text == "" then [] else TrimAll(Split(text, ','))
  }

  /** The form's tags: one per comma-separated piece, none dropped, tag i
      the trimmed piece i, each free of commas. */
  lemma FormTagsShape(text: string)
    ensures text == "" ==> FormTags(text) == []
    ensures text != "" ==> |FormTags(text)| == |Split(text, ',')|
    ensures text != "" ==> forall i :: 0 <= i < |FormTags(text)| ==> FormTags(text)[i] == Trim(Split(text, ',')[i])
    ensures forall i :: 0 <= i < |FormTags(text)| ==>
              ',' !in FormTags(text)[i] && Trim(FormTags(text)[i]) == FormTags(text)[i]
  {
    if text != "" {
      var parts := Split(text, ',');
      forall i | 0 <= i < |parts| ensures ',' !in Trim(parts[i]) && Trim(Trim(parts[i])) == Trim(parts[i]) {
        TrimKeepsOut(parts[i], ',');
        TrimIdempotent(parts[i]);
      }
    }
  }

  /** The record addExpense creates. */
  function NewExpense(id: string, input: ExpenseInput, now: string): Expense
  {
    Expense(id, input.amount, input.category, input.date, input.description,
            FormTags(input.tags), now, None)
  }

  /** The record editExpense leaves at the edited index:
      `{...old, amount, category, date, description, tags, updatedAt}`. */
  function Edited(e: Expense, input: ExpenseInput, now: string): Expense
  {
    e.(amount := input.amount, category := input.category, date := input.date,
       description := input.description, tags := FormTags(input.tags), updatedAt := Some(now))
  }

  /** An edit keeps the record's identity and creation time, records when
      it happened and takes every form field from the input. */
  lemma EditedKeepsIdentity(e: Expense, input: ExpenseInput, now: string)
    ensures Edited(e, input, now).id == e.id
    ensures Edited(e, input, now).createdAt == e.createdAt
    ensures Edited(e, input, now).updatedAt == Some(now)
    ensures var d := NewExpense(e.id, input, e.createdAt); Edited(e, input, now) == d.(updatedAt := Some(now))
  {
  }

  predicate HasId(id: string, e: Expense) { e.id == id }

  function WithId(id: string): Expense -> bool { e => HasId(id, e) }
  function WithoutId(id: string): Expense -> bool { e => !HasId(id, e) }

  /** No two records share an id. */
  predicate UniqueIds(xs: seq<Expense>) {
    forall i, j :: 0 <= i < j < |xs| ==> xs[i].id != xs[j].id
  }

  /** The budgets after setBudget stores b: replaced at the index of its
      key when there is one, appended otherwise. */
  function Upserted(bs: seq<Budget>, b: Budget): seq<Budget>
  {
    match FindIndex(bs, KeyIs(b.category, b.period))
    case Some(i) => bs[i := b]
    case None => bs + [b]
  }

  /** The upsert keeps one budget per key, and afterwards the lookup of b's
      key finds b. Other keys find what they found before. */
  lemma UpsertedLookup(bs: seq<Budget>, b: Budget)
    requires UniqueKeys(bs)
    ensures UniqueKeys(Upserted(bs, b))
    ensures Find(Upserted(bs, b), KeyIs(b.category, b.period)) == Some(b)
    ensures forall c, p :: !(c == b.category && p == b.period) ==>
              Find(Upserted(bs, b), KeyIs(c, p)) == Find(bs, KeyIs(c, p))
  {
    var key := KeyIs(b.category, b.period);
    var r := Upserted(bs, b);
    FindIndexMeaning(bs, key);
    match FindIndex(bs, key)
    case Some(i) =>
      FindIndexAt(r, key, i);
      forall c, p | !(c == b.category && p == b.period)
        ensures Find(r, KeyIs(c, p)) == Find(bs, KeyIs(c, p))
      {
        FindOtherKey(bs, i, b, c, p);
      }
    case None =>
      FindIndexAt(r, key, |bs|);
      forall c, p | !(c == b.category && p == b.period)
        ensures Find(r, KeyIs(c, p)) == Find(bs, KeyIs(c, p))
      {
        FindAppendOther(bs, b, c, p);
      }
  }

  /** Replacing a budget of another key does not change a lookup. */
  lemma FindOtherKey(bs: seq<Budget>, i: nat, b: Budget, c: string, p: Period)
    requires i < |bs| && SameKey(b.category, b.period, bs[i]) && !(c == b.category && p == b.period)
    ensures Find(bs[i := b], KeyIs(c, p)) == Find(bs, KeyIs(c, p))
  {
    var key := KeyIs(c, p);
    var r := bs[i := b];
    assert forall j :: 0 <= j < |bs| ==> key(r[j]) == key(bs[j]);
    FindIndexMeaning(bs, key);
    FindIndexMeaning(r, key);
    if FindIndex(bs, key).Some? {
      var k := FindIndex(bs, key).value;
      assert k != i;
      FindIndexAt(r, key, k);
    }
  }

  /** Appending a budget of another key does not change a lookup. */
  lemma FindAppendOther(bs: seq<Budget>, b: Budget, c: string, p: Period)
    requires !(c == b.category && p == b.period)
    ensures Find(bs + [b], KeyIs(c, p)) == Find(bs, KeyIs(c, p))
  {
    var key := KeyIs(c, p);
    var r := bs + [b];
    FindIndexMeaning(bs, key);
    FindIndexMeaning(r, key);
    if FindIndex(bs, key).Some? {
      FindIndexAt(r, key, FindIndex(bs, key).value);
    } else {
      assert !key(b);
    }
  }

  /** What deleteExpense leaves: the records without that id, in their
      order. With unique ids this is the list with at most one record taken
      out. */
  lemma DeleteMeaning(xs: seq<Expense>, id: string)
    requires UniqueIds(xs)
    ensures forall e :: e in Keep(xs, WithoutId(id)) <==> e in xs && e.id != id
    ensures FindIndex(xs, WithId(id)).None? ==> Keep(xs, WithoutId(id)) == xs
    ensures FindIndex(xs, WithId(id)).Some? ==>
              var k := FindIndex(xs, WithId(id)).value; Keep(xs, WithoutId(id)) == xs[..k] + xs[k + 1..]
  {
    KeepMembers(xs, WithoutId(id));
    FindIndexMeaning(xs, WithId(id));
    match FindIndex(xs, WithId(id))
    case None =>
      KeepAll(xs, WithoutId(id));
    case Some(k) =>
      KeepDropsOne(xs, k, WithoutId(id));
  }

  /** Deleting keeps the ids unique. */
  lemma {:induction false} KeepUniqueIds(xs: seq<Expense>, p: Expense -> bool)
    requires UniqueIds(xs)
    ensures UniqueIds(Keep(xs, p))
    decreases |xs|
  {
    if xs != [] {
      KeepUniqueIds(xs[1..], p);
      KeepMembers(xs[1..], p);
      if p(xs[0]) {
        var r := Keep(xs, p);
        assert r == [xs[0]] + Keep(xs[1..], p);
        forall j | 1 <= j < |r| ensures r[0].id != r[j].id {
          assert r[j] in xs[1..];
        }
      }
    }
  }

  /** The engine's state: the expense list and the budget list. */
  class ExpenseStore {
    var expenses: seq<Expense>
    var budgets: seq<Budget>

    /** What every operation keeps: ids are unique and there is at most one
        budget per (category, period). */
    ghost predicate Valid()
      reads this
    {
      UniqueIds(expenses) && UniqueKeys(budgets)
    }

    /** The store as loaded at start-up. */
    constructor (expenses0: seq<Expense>, budgets0: seq<Budget>)
      requires UniqueIds(expenses0) && UniqueKeys(budgets0)
      ensures Valid()
      ensures expenses == expenses0 && budgets == budgets0
    {
      expenses := expenses0;
      budgets := budgets0;
    }

    /** addExpense: appends one new record under the fresh id. */
    method AddExpense(input: ExpenseInput, id: string, now: string) returns (expense: Expense)
      requires Valid()
      requires forall i :: 0 <= i < |expenses| ==> expenses[i].id != id
      modifies this
      ensures Valid()
      ensures expense == NewExpense(id, input, now)
      ensures expenses == old(expenses) + [expense]
      ensures budgets == old(budgets)
    {
      expense := Expense(id, input.amount, input.category, input.date, input.description,
                         FormTags(input.tags), now, None);
      expenses := expenses + [expense];
    }

    /** editExpense: replaces the record with that id, at its index, and
        returns it; with no such record nothing changes and the result is
        absent. */
    method EditExpense(id: string, input: ExpenseInput, now: string) returns (result: Option<Expense>)
      requires Valid()
      modifies this
      ensures Valid()
      ensures budgets == old(budgets)
      ensures match FindIndex(old(expenses), WithId(id))
              case None => result.None? && expenses == old(expenses)
              case Some(i) =>
                && result == Some(Edited(old(expenses)[i], input, now))
                && expenses == old(expenses)[i := result.value]
                && result.value.id == id
    {
      var index := FindIndex(expenses, WithId(id));
      if index.Some? {
        var i := index.value;
        FindIndexMeaning(expenses, WithId(id));
        var e := expenses[i];
        expenses := expenses[i := e.(amount := input.amount, category := input.category, date := input.date,
                                     description := input.description, tags := FormTags(input.tags),
                                     updatedAt := Some(now))];
        result := Some(expenses[i]);
      } else {
        result := None;
      }
    }

    /** deleteExpense: keeps the records whose id differs. */
    method DeleteExpense(id: string)
      requires Valid()
      modifies this
      ensures Valid()
      ensures expenses == Keep(old(expenses), WithoutId(id))
      ensures budgets == old(budgets)
    {
      KeepUniqueIds(expenses, WithoutId(id));
      expenses := Keep(expenses, WithoutId(id));
    }

    /** setBudget: replaces the budget of the same (category, period) at
        its index, or appends it, and returns it. */
    method SetBudget(input: BudgetInput) returns (budget: Budget)
      requires Valid()
      modifies this
      ensures Valid()
      ensures budget == Budget(input.category, input.limit, input.period)
      ensures budgets == Upserted(old(budgets), budget)
      ensures expenses == old(expenses)
    {
      var existingIndex := FindIndex(budgets, KeyIs(input.category, input.period));
      budget := Budget(input.category, input.limit, input.period);
      UpsertedLookup(budgets, budget);
      if existingIndex.Some? {
        budgets := budgets[existingIndex.value := budget];
      } else {
        budgets := budgets + [budget];
      }
    }
  }
}
