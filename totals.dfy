/**
  The three summary cards: total income, total expense and the balance
  between them, each recomputed from the whole fetched list.
 */
module Totals {
  import opened Transactions

  /** `transactions.filter(t => t.type === "income").reduce(...)`. */
  function TotalIncome(ts: seq<Transaction>): (r: int)
    ensures (forall t :: t in ts ==> t.kind != Income) ==> r == 0
  {
    FilterMembers(ts, HasKind(Income));
    SumAmounts(Filter(ts, HasKind(Income)))
  }

  /** `transactions.filter(t => t.type === "expense").reduce(...)`. */
  function TotalExpense(ts: seq<Transaction>): (r: int)
    ensures (forall t :: t in ts ==> t.kind != Expense) ==> r == 0
  {
    FilterMembers(ts, HasKind(Expense));
    SumAmounts(Filter(ts, HasKind(Expense)))
  }

  /** `balance = totalIncome - totalExpense`. */
  function Balance(ts: seq<Transaction>): int
  {
    TotalIncome(ts) - TotalExpense(ts)
  }

  /** What one record does to the balance on its own: an income credits its
      amount, an expense debits it, and a record of any other kind counts
      for nothing. */
  function Net(t: Transaction): int
  {
    if t.kind == Income then t.amount
    else if t.kind == Expense then -t.amount
    else 0
  }

  /** The balance as a single pass over the list, one `Net` per record. */
  function NetSum(ts: seq<Transaction>): int
  {
    if ts == [] then 0 else NetSum(ts[..|ts| - 1]) + Net(ts[|ts| - 1])
  }

  /** One more record changes exactly the total of its own kind, by its amount. */
  lemma TotalsSnoc(s: seq<Transaction>, t: Transaction)
    ensures TotalIncome(s + [t]) == TotalIncome(s) + (if t.kind == Income then t.amount else 0)
    ensures TotalExpense(s + [t]) == TotalExpense(s) + (if t.kind == Expense then t.amount else 0)
    ensures Balance(s + [t]) == Balance(s) + Net(t)
  {
    FilterSnoc(s, t, HasKind(Income));
    FilterSnoc(s, t, HasKind(Expense));
    var inc := Filter(s, HasKind(Income));
    var exp := Filter(s, HasKind(Expense));
    assert Income != Expense;
    if t.kind == Income {
      assert (inc + [t])[..|inc|] == inc;
      assert exp + [] == exp;
    } else if t.kind == Expense {
      assert inc + [] == inc;
      assert (exp + [t])[..|exp|] == exp;
    } else {
      assert inc + [] == inc;
      assert exp + [] == exp;
    }
  }

  /** The balance card agrees with the record-by-record definition of the
      balance, for every list. */
  lemma {:induction false} BalanceIsNetSum(ts: seq<Transaction>)
    ensures Balance(ts) == NetSum(ts)
  {
    if ts != [] {
      var s := ts[..|ts| - 1];
      assert ts == s + [ts[|ts| - 1]];
      TotalsSnoc(s, ts[|ts| - 1]);
      BalanceIsNetSum(s);
    }
  }

  /** The totals of two lists put together are the sums of their totals,
      so none of the cards depends on how the list is split. */
  lemma TotalsAppend(a: seq<Transaction>, b: seq<Transaction>)
    ensures TotalIncome(a + b) == TotalIncome(a) + TotalIncome(b)
    ensures TotalExpense(a + b) == TotalExpense(a) + TotalExpense(b)
    ensures Balance(a + b) == Balance(a) + Balance(b)
  {
    FilterAppend(a, b, HasKind(Income));
    FilterAppend(a, b, HasKind(Expense));
    SumAppend(Filter(a, HasKind(Income)), Filter(b, HasKind(Income)));
    SumAppend(Filter(a, HasKind(Expense)), Filter(b, HasKind(Expense)));
  }
}
