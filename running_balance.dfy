/**
  The "Balance Over Time" series: the records sorted by date, then walked
  with a running total, one (date, total) point per record.
 */
module RunningBalance {
  import opened Transactions
  import opened Dates
  import opened DateSort
  import Totals

  /** The step the walk takes for one record: an income adds its amount,
      a record of any other kind subtracts it. */
  function Signed(t: Transaction): int
  {
    if t.kind == Income then t.amount else -t.amount
  }

  /** The running total after walking `s` from the start, beginning at 0. */
  function RunningTotal(s: seq<Transaction>): int
  {
    if s == [] then 0 else RunningTotal(s[..|s| - 1]) + Signed(s[|s| - 1])
  }

  lemma RunningTotalSnoc(s: seq<Transaction>, t: Transaction)
    ensures RunningTotal(s + [t]) == RunningTotal(s) + Signed(t)
  {
    assert (s + [t])[..|s|] == s;
  }

  /** Inserting a record anywhere adds its step to the final total. */
  lemma {:induction false} InsertRunningTotal(sorted: seq<Transaction>, t: Transaction)
    ensures RunningTotal(Insert(sorted, t)) == RunningTotal(sorted) + Signed(t)
  {
    if sorted == [] {
      RunningTotalSnoc([], t);
      assert [] + [t] == [t];
    } else if LexLe(sorted[|sorted| - 1].date, t.date) {
      RunningTotalSnoc(sorted, t);
    } else {
      var front := sorted[..|sorted| - 1];
      var last := sorted[|sorted| - 1];
      InsertRunningTotal(front, t);
      RunningTotalSnoc(Insert(front, t), last);
    }
  }

  /** The final total does not depend on the order of the walk: sorting by
      date leaves it as it is. */
  lemma {:induction false} SortKeepsRunningTotal(s: seq<Transaction>)
    ensures RunningTotal(SortByDate(s)) == RunningTotal(s)
  {
    if s != [] {
      SortKeepsRunningTotal(s[..|s| - 1]);
      InsertRunningTotal(SortByDate(s[..|s| - 1]), s[|s| - 1]);
    }
  }

  /** When every record is an income or an expense, the walk ends on the
      balance card's figure. A record of any other kind is subtracted by
      the walk but left out of both totals. */
  lemma {:induction false} RunningTotalIsBalance(s: seq<Transaction>)
    requires forall t :: t in s ==> t.kind == Income || t.kind == Expense
    ensures RunningTotal(s) == Totals.Balance(s)
  {
    if s != [] {
      var front := s[..|s| - 1];
      var t := s[|s| - 1];
      assert s == front + [t];
      assert forall x :: x in front ==> x in s;
      RunningTotalIsBalance(front);
      Totals.TotalsSnoc(front, t);
    }
  }

  /** The `lineData` computation. */
  method LineData(transactions: seq<Transaction>) returns (labels: seq<string>, values: seq<int>)
    ensures |labels| == |transactions| && |values| == |transactions|
    ensures forall k :: 0 <= k < |labels| ==> labels[k] == SortByDate(transactions)[k].date
    ensures forall i, j :: 0 <= i < j < |labels| ==> LexLe(labels[i], labels[j])
    ensures forall k :: 0 <= k < |values| ==> values[k] == RunningTotal(SortByDate(transactions)[..k + 1])
    ensures |values| > 0 ==> values[|values| - 1] == RunningTotal(transactions)
    ensures |values| > 0 && (forall t :: t in transactions ==> t.kind == Income || t.kind == Expense) ==>
              values[|values| - 1] == Totals.Balance(transactions)
  {
    var sorted := SortByDate(transactions);
    var running := 0;
    labels, values := [], [];
    for i := 0 to |sorted|
      invariant |labels| == i && |values| == i
      invariant running == RunningTotal(sorted[..i])
      invariant forall k :: 0 <= k < i ==> labels[k] == sorted[k].date
      invariant forall k :: 0 <= k < i ==> values[k] == RunningTotal(sorted[..k + 1])
    {
      var t := sorted[i];
      TakeSnoc(sorted, i);
      RunningTotalSnoc(sorted[..i], t);
      if t.kind == Income {
        running := running + t.amount;
      } else {
        running := running - t.amount;
      }
      labels := labels + [t.date];
      values := values + [running];
    }
    assert sorted[..|sorted|] == sorted;
    SortedSeriesEnd(transactions);
  }

  /** What the walk over the sorted copy ends on, gathered for `LineData`. */
  lemma SortedSeriesEnd(ts: seq<Transaction>)
    ensures SortedByDate(SortByDate(ts))
    ensures RunningTotal(SortByDate(ts)) == RunningTotal(ts)
    ensures (forall t :: t in ts ==> t.kind == Income || t.kind == Expense) ==>
              RunningTotal(SortByDate(ts)) == Totals.Balance(ts)
  {
    SortSorted(ts);
    SortKeepsRunningTotal(ts);
    if forall t :: t in ts ==> t.kind == Income || t.kind == Expense {
      RunningTotalIsBalance(ts);
    }
  }
}
