/**
  The transaction record the dashboard fetches, and the two list operations
  its aggregates are built from: `filter` with a per-record test and
  `reduce` summing the amounts from left to right, starting at 0.
 */
module Transactions {

  /** One fetched record `{id, amount, type, category, date, note}`.
      The source's `type` is called `kind` here (`type` is a Dafny keyword);
      it is kept as an open string because the server may send any value.
      Amounts are exact integers (for instance paise). */
  datatype Transaction = Transaction(
    id: int,
    amount: int,
    kind: string,
    category: string,
    date: string,
    note: string)

  const Income: string := "income"
  const Expense: string := "expense"

  /** The test `t => t.type === k`. */
  function HasKind(k: string): Transaction -> bool
  {
    (t: Transaction) => t.kind == k
  }

  /** The test `t => t.category === c`. */
  function HasCategory(c: string): Transaction -> bool
  {
    (t: Transaction) => t.category == c
  }

  /** The test `t => t.date === d`. */
  function OnDate(d: string): Transaction -> bool
  {
    (t: Transaction) => t.date == d
  }

  /** `s.filter(keep)`: the records `keep` accepts, in their original order. */
  function Filter(s: seq<Transaction>, keep: Transaction -> bool): (r: seq<Transaction>)
    ensures |r| <= |s|
  {
    if s == [] then []
    else Filter(s[..|s| - 1], keep) + (if keep(s[|s| - 1]) then [s[|s| - 1]] else [])
  }

  /** The records kept are exactly those of `s` that pass the test. */
  lemma {:induction false} FilterMembers(s: seq<Transaction>, keep: Transaction -> bool)
    ensures forall t :: t in Filter(s, keep) <==> t in s && keep(t)
    ensures (forall t :: t in s ==> !keep(t)) ==> Filter(s, keep) == []
  {
    if s != [] {
      var s' := s[..|s| - 1];
      FilterMembers(s', keep);
      assert s == s' + [s[|s| - 1]];
    }
  }

  /** `s.reduce((sum, t) => sum + t.amount, 0)`. */
  function SumAmounts(s: seq<Transaction>): int
  {
    if s == [] then 0 else SumAmounts(s[..|s| - 1]) + s[|s| - 1].amount
  }

  /** Filtering one more record at the end adds that record or nothing. */
  lemma FilterSnoc(s: seq<Transaction>, t: Transaction, keep: Transaction -> bool)
    ensures Filter(s + [t], keep) == Filter(s, keep) + (if keep(t) then [t] else [])
  {
    assert (s + [t])[..|s|] == s;
  }

  /** Taking one more element of a prefix appends that element. */
  lemma TakeSnoc(s: seq<Transaction>, j: nat)
    requires j < |s|
    ensures s[..j + 1] == s[..j] + [s[j]]
  {
  }

  /** Filtering distributes over concatenation: the kept records of `a`
      come first, in order, followed by those of `b`. */
  lemma {:induction false} FilterAppend(a: seq<Transaction>, b: seq<Transaction>, keep: Transaction -> bool)
    ensures Filter(a + b, keep) == Filter(a, keep) + Filter(b, keep)
  {
    if b == [] {
      assert a + b == a;
    } else {
      var b' := b[..|b| - 1];
      var t := b[|b| - 1];
      assert b == b' + [t];
      assert a + b == (a + b') + [t];
      FilterAppend(a, b', keep);
      FilterSnoc(a + b', t, keep);
      FilterSnoc(b', t, keep);
    }
  }

  /** Summing one more record at the end adds its amount. */
  lemma SumSnoc(s: seq<Transaction>, t: Transaction)
    ensures SumAmounts(s + [t]) == SumAmounts(s) + t.amount
  {
    assert (s + [t])[..|s|] == s;
  }

  /** The sum of a concatenation is the sum of the parts. */
  lemma {:induction false} SumAppend(a: seq<Transaction>, b: seq<Transaction>)
    ensures SumAmounts(a + b) == SumAmounts(a) + SumAmounts(b)
  {
    if b == [] {
      assert a + b == a;
    } else {
      var b' := b[..|b| - 1];
      assert b == b' + [b[|b| - 1]];
      assert (a + b)[..|a + b| - 1] == a + b';
      SumAppend(a, b');
    }
  }
}
