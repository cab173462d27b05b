/**
  The "Recent Transactions" table.
 */
module Table {
  import opened Transactions
  import opened Dates
  import DateSort

  /** `transactions.slice().reverse()`: the table's rows, the last fetched
      record first. The order comes from the fetch alone; dates play no part. */
  function Rows(ts: seq<Transaction>): (r: seq<Transaction>)
    ensures |r| == |ts|
    ensures forall i :: 0 <= i < |ts| ==> r[i] == ts[|ts| - 1 - i]
  {
    if ts == [] then [] else [ts[|ts| - 1]] + Rows(ts[..|ts| - 1])
  }

  /** Reading the table bottom-up gives back the fetched list. */
  lemma RowsInvolution(ts: seq<Transaction>)
    ensures Rows(Rows(ts)) == ts
  {
  }

  /** Every fetched record gets exactly one row. */
  lemma {:induction false} RowsPermutes(ts: seq<Transaction>)
    ensures multiset(Rows(ts)) == multiset(ts)
  {
    if ts != [] {
      var front := ts[..|ts| - 1];
      RowsPermutes(front);
      assert ts == front + [ts[|ts| - 1]];
    }
  }

  /** When the server sends the list in date order, the table reads newest
      first: each row is dated no earlier than the rows below it. */
  lemma RowsOfChronological(ts: seq<Transaction>)
    requires DateSort.SortedByDate(ts)
    ensures forall i, j :: 0 <= i < j < |ts| ==> LexLe(Rows(ts)[j].date, Rows(ts)[i].date)
  {
  }
}
