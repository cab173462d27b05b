/**
  The "Expenses by Category" breakdown.
 */
module CategoryBreakdown {
  import opened Transactions
  import Totals

  /** The categories the entry form offers, in the order the pie chart lists them. */
  const Categories: seq<string> := ["Food", "Shopping", "Bills", "Travel", "Salary", "Other"]

  predicate Distinct(cs: seq<string>)
  {
    forall i, j :: 0 <= i < j < |cs| ==> cs[i] != cs[j]
  }

  /** The expense records of category `c`, in fetch order. */
  function ExpensesIn(ts: seq<Transaction>, c: string): seq<Transaction>
  {
    Filter(Filter(ts, HasKind(Expense)), HasCategory(c))
  }

  /** What the breakdown should show for category `c`: the summed amounts of
      the expenses filed under it. */
  function CategorySum(ts: seq<Transaction>, c: string): int
  {
    SumAmounts(ExpensesIn(ts, c))
  }

  /** The category sums of `cs`, added up. */
  function SumOfCategorySums(cs: seq<string>, ts: seq<Transaction>): int
  {
    if cs == [] then 0 else CategorySum(ts, cs[0]) + SumOfCategorySums(cs[1..], ts)
  }

  /** The values a map holds for the keys `cs`, added up. */
  function SumOver(cs: seq<string>, m: map<string, int>): int
    requires forall c :: c in cs ==> c in m
  {
    if cs == [] then 0 else m[cs[0]] + SumOver(cs[1..], m)
  }

  /** The `categoryTotals` computation: seed every fixed category with 0, then
      add each expense's amount to the bucket of its category, opening a new
      bucket for a category outside the fixed list. */
  method CategoryTotals(transactions: seq<Transaction>) returns (m: map<string, int>)
    ensures forall c :: c in Categories ==> c in m
    ensures forall c :: c in m <==> c in Categories || ExpensesIn(transactions, c) != []
    ensures forall c :: c in m ==> m[c] == CategorySum(transactions, c)
    ensures (forall t :: t in transactions && t.kind == Expense ==> t.category in Categories) ==>
              SumOver(Categories, m) == Totals.TotalExpense(transactions)
  {
    m := map[];
    for i := 0 to |Categories|
      invariant forall c :: c in m <==> c in Categories[..i]
      invariant forall c :: c in m ==> m[c] == 0
    {
      m := m[Categories[i] := 0];
    }
    assert Categories[..|Categories|] == Categories;

    var expenses := Filter(transactions, HasKind(Expense));
    for j := 0 to |expenses|
      invariant BucketsHold(m, Categories, expenses[..j])
    {
      var t := expenses[j];
      BucketsStep(m, Categories, expenses[..j], t);
      TakeSnoc(expenses, j);
      m := m[t.category := (if t.category in m then m[t.category] else 0) + t.amount];
    }
    assert expenses[..|expenses|] == expenses;
    BucketsAreCategorySums(transactions, m);
  }

  /** The map holds a bucket for every seeded category and for every category
      some record of `s` carries, each holding that category's summed amounts. */
  ghost predicate BucketsHold(m: map<string, int>, seeds: seq<string>, s: seq<Transaction>)
  {
    forall c ::
      && (c in m <==> c in seeds || Filter(s, HasCategory(c)) != [])
      && (c in m ==> m[c] == SumAmounts(Filter(s, HasCategory(c))))
  }

  /** Adding one expense to its bucket keeps every bucket right. */
  lemma BucketsStep(m: map<string, int>, seeds: seq<string>, s: seq<Transaction>, t: Transaction)
    requires BucketsHold(m, seeds, s)
    ensures BucketsHold(m[t.category := (if t.category in m then m[t.category] else 0) + t.amount], seeds, s + [t])
  {
    var m' := m[t.category := (if t.category in m then m[t.category] else 0) + t.amount];
    forall c
      ensures (c in m' <==> c in seeds || Filter(s + [t], HasCategory(c)) != [])
      ensures c in m' ==> m'[c] == SumAmounts(Filter(s + [t], HasCategory(c)))
    {
      BucketSnoc(s, t, c);
    }
  }

  /** The buckets filled from the expense list are the category sums, and
      over the fixed categories they add up to the expense total when no
      expense lies outside them. */
  lemma BucketsAreCategorySums(ts: seq<Transaction>, m: map<string, int>)
    requires BucketsHold(m, Categories, Filter(ts, HasKind(Expense)))
    ensures forall c :: c in Categories ==> c in m
    ensures forall c :: c in m <==> c in Categories || ExpensesIn(ts, c) != []
    ensures forall c :: c in m ==> m[c] == CategorySum(ts, c)
    ensures (forall t :: t in ts && t.kind == Expense ==> t.category in Categories) ==>
              SumOver(Categories, m) == Totals.TotalExpense(ts)
  {
    FixedCategoriesMatch(Categories, ts, m);
    if forall t :: t in ts && t.kind == Expense ==> t.category in Categories {
      FixedCategoriesCoverExpenses(ts);
    }
  }

  /** One more record in a category's bucket list: the bucket gains the
      record's amount if the category is its own, and is untouched otherwise. */
  lemma BucketSnoc(s: seq<Transaction>, t: Transaction, c: string)
    ensures Filter(s + [t], HasCategory(c)) != [] <==> Filter(s, HasCategory(c)) != [] || t.category == c
    ensures SumAmounts(Filter(s + [t], HasCategory(c)))
         == SumAmounts(Filter(s, HasCategory(c))) + (if t.category == c then t.amount else 0)
  {
    FilterSnoc(s, t, HasCategory(c));
    var f := Filter(s, HasCategory(c));
    if t.category == c {
      SumSnoc(f, t);
    } else {
      assert f + [] == f;
    }
  }

  lemma CategoriesDistinct()
    ensures Distinct(Categories)
  {
  }

  /** Adding up the map over `cs` gives the category sums of `cs` whenever the
      map holds the right sum for each of them. */
  lemma {:induction false} FixedCategoriesMatch(cs: seq<string>, ts: seq<Transaction>, m: map<string, int>)
    requires forall c :: c in cs ==> c in m && m[c] == CategorySum(ts, c)
    ensures SumOver(cs, m) == SumOfCategorySums(cs, ts)
  {
    if cs != [] {
      FixedCategoriesMatch(cs[1..], ts, m);
    }
  }

  /** One more record adds its amount to the sum of its own category if it is
      an expense, and to no other. */
  lemma CategorySumSnoc(s: seq<Transaction>, t: Transaction, c: string)
    ensures CategorySum(s + [t], c)
         == CategorySum(s, c) + (if t.kind == Expense && t.category == c then t.amount else 0)
  {
    FilterSnoc(s, t, HasKind(Expense));
    var exp := Filter(s, HasKind(Expense));
    if t.kind == Expense {
      FilterSnoc(exp, t, HasCategory(c));
      if t.category == c {
        SumSnoc(Filter(exp, HasCategory(c)), t);
      } else {
        assert Filter(exp, HasCategory(c)) + [] == Filter(exp, HasCategory(c));
      }
    } else {
      assert exp + [] == exp;
    }
  }

  /** Over a list of distinct categories, one more expense shifts the added-up
      sums by its amount exactly when its category is one of them. */
  lemma {:induction false} SumOfCategorySumsSnoc(cs: seq<string>, s: seq<Transaction>, t: Transaction)
    requires Distinct(cs)
    ensures SumOfCategorySums(cs, s + [t])
         == SumOfCategorySums(cs, s) + (if t.kind == Expense && t.category in cs then t.amount else 0)
  {
    if cs != [] {
      CategorySumSnoc(s, t, cs[0]);
      SumOfCategorySumsSnoc(cs[1..], s, t);
      assert t.category in cs <==> t.category == cs[0] || t.category in cs[1..];
    }
  }

  /** When every expense is filed under one of the fixed categories, the
      fixed buckets together hold the whole expense total. */
  lemma {:induction false} FixedCategoriesCoverExpenses(ts: seq<Transaction>)
    requires forall t :: t in ts && t.kind == Expense ==> t.category in Categories
    ensures SumOfCategorySums(Categories, ts) == Totals.TotalExpense(ts)
  {
    if ts != [] {
      var s := ts[..|ts| - 1];
      var t := ts[|ts| - 1];
      assert ts == s + [t];
      CategoriesDistinct();
      SumOfCategorySumsSnoc(Categories, s, t);
      Totals.TotalsSnoc(s, t);
      FixedCategoriesCoverExpenses(s);
    } else {
      assert SumOfCategorySums(Categories, []) == 0 by {
        var cs := Categories;
        assert SumOfCategorySums(cs[5..], []) == 0;
        assert SumOfCategorySums(cs[4..], []) == 0;
        assert SumOfCategorySums(cs[3..], []) == 0;
        assert SumOfCategorySums(cs[2..], []) == 0;
        assert SumOfCategorySums(cs[1..], []) == 0;
      }
    }
  }
}
