/**
  `[...transactions].sort((a, b) => a.date.localeCompare(b.date))`: a copy of
  the list ordered by date, earliest first. `Array.prototype.sort` is stable,
  so records with the same date keep their fetch order. The engine's sorting
  algorithm is not the dashboard's own code; what is modelled here is the
  result it must produce, computed by insertion and characterised by the
  lemmas below.
 */
module DateSort {
  import opened Transactions
  import opened Dates

  /** Every record is dated no later than every record after it. */
  predicate SortedByDate(s: seq<Transaction>)
  {
    forall i, j :: 0 <= i < j < |s| ==> LexLe(s[i].date, s[j].date)
  }

  /** For every date, the records carrying that date appear in `r` in the
      same order as in `s`: what a stable sort keeps of its input's order. */
  ghost predicate SameDateOrder(r: seq<Transaction>, s: seq<Transaction>)
  {
    forall d :: Filter(r, OnDate(d)) == Filter(s, OnDate(d))
  }

  /** `t` placed into the date-sorted `sorted` after every record dated no
      later than it. */
  function Insert(sorted: seq<Transaction>, t: Transaction): (r: seq<Transaction>)
    ensures |r| == |sorted| + 1
  {
    if sorted == [] then [t]
    else if LexLe(sorted[|sorted| - 1].date, t.date) then sorted + [t]
    else Insert(sorted[..|sorted| - 1], t) + [sorted[|sorted| - 1]]
  }

  /** The sorted copy: the records inserted one by one in fetch order. */
  function SortByDate(s: seq<Transaction>): (r: seq<Transaction>)
    ensures |r| == |s|
  {
    if s == [] then [] else Insert(SortByDate(s[..|s| - 1]), s[|s| - 1])
  }

  lemma {:induction false} InsertPermutes(sorted: seq<Transaction>, t: Transaction)
    ensures multiset(Insert(sorted, t)) == multiset(sorted) + multiset{t}
  {
    if sorted != [] && !LexLe(sorted[|sorted| - 1].date, t.date) {
      var front := sorted[..|sorted| - 1];
      InsertPermutes(front, t);
      assert sorted == front + [sorted[|sorted| - 1]];
    }
  }

  /** A record not later than the last of a sorted list is not later than
      any of them. */
  lemma BelowLast(s: seq<Transaction>, d: string)
    requires SortedByDate(s) && s != [] && LexLe(s[|s| - 1].date, d)
    ensures forall i :: 0 <= i < |s| ==> LexLe(s[i].date, d)
  {
    forall i | 0 <= i < |s|
      ensures LexLe(s[i].date, d)
    {
      if i < |s| - 1 {
        LexLeTransitive(s[i].date, s[|s| - 1].date, d);
      }
    }
  }

  lemma {:induction false} InsertSorted(sorted: seq<Transaction>, t: Transaction)
    requires SortedByDate(sorted)
    ensures SortedByDate(Insert(sorted, t))
  {
    if sorted == [] {
    } else {
      var last := sorted[|sorted| - 1];
      if LexLe(last.date, t.date) {
        BelowLast(sorted, t.date);
      } else {
        var front := sorted[..|sorted| - 1];
        var r := Insert(front, t);
        InsertSorted(front, t);
        InsertPermutes(front, t);
        LexLeTotal(last.date, t.date);
        forall i | 0 <= i < |r|
          ensures LexLe(r[i].date, last.date)
        {
          assert r[i] in multiset(r);
          if r[i] != t {
            assert r[i] in multiset(front);
            var k :| 0 <= k < |front| && front[k] == r[i];
            assert sorted[k] == front[k];
          }
        }
        assert Insert(sorted, t) == r + [last];
      }
    }
  }

  /** Inserting keeps the order among records of each date, and puts `t`
      after the records already carrying its own date. */
  lemma {:induction false} InsertSameDateOrder(sorted: seq<Transaction>, t: Transaction, d: string)
    ensures Filter(Insert(sorted, t), OnDate(d)) == Filter(sorted, OnDate(d)) + (if t.date == d then [t] else [])
  {
    if sorted == [] {
      FilterSnoc([], t, OnDate(d));
      assert [] + [t] == [t];
    } else {
      var last := sorted[|sorted| - 1];
      var front := sorted[..|sorted| - 1];
      assert sorted == front + [last];
      if LexLe(last.date, t.date) {
        FilterSnoc(sorted, t, OnDate(d));
      } else {
        var x := Insert(front, t);
        assert Insert(sorted, t) == x + [last];
        InsertSameDateOrder(front, t, d);
        FilterSnoc(x, last, OnDate(d));
        FilterSnoc(front, last, OnDate(d));
        LexLeReflexive(t.date);
        var f := Filter(front, OnDate(d));
        var tt: seq<Transaction> := if t.date == d then [t] else [];
        var ll: seq<Transaction> := if last.date == d then [last] else [];
        assert tt == [] || ll == [];
        assert (f + tt) + ll == (f + ll) + tt;
      }
    }
  }

  /** The sorted copy holds exactly the fetched records. */
  lemma {:induction false} SortPermutes(s: seq<Transaction>)
    ensures multiset(SortByDate(s)) == multiset(s)
  {
    if s != [] {
      var front, t := s[..|s| - 1], s[|s| - 1];
      SortPermutes(front);
      InsertPermutes(SortByDate(front), t);
      assert SortByDate(s) == Insert(SortByDate(front), t);
      assert s == front + [t];
      assert multiset(s) == multiset(front) + multiset{t};
    }
  }

  /** The sorted copy is ordered by date. */
  lemma {:induction false} SortSorted(s: seq<Transaction>)
    ensures SortedByDate(SortByDate(s))
  {
    if s != [] {
      SortSorted(s[..|s| - 1]);
      InsertSorted(SortByDate(s[..|s| - 1]), s[|s| - 1]);
    }
  }

  /** The sort is stable: records sharing a date keep their fetch order. */
  lemma {:induction false} SortStable(s: seq<Transaction>)
    ensures SameDateOrder(SortByDate(s), s)
  {
    if s != [] {
      var front := s[..|s| - 1];
      var t := s[|s| - 1];
      assert s == front + [t];
      SortStable(front);
      forall d
        ensures Filter(SortByDate(s), OnDate(d)) == Filter(s, OnDate(d))
      {
        InsertSameDateOrder(SortByDate(front), t, d);
        FilterSnoc(front, t, OnDate(d));
      }
    }
  }

  /** Sorting a list that is already in date order returns it unchanged. */
  lemma SortOfSorted(s: seq<Transaction>)
    requires SortedByDate(s)
    ensures SortByDate(s) == s
  {
    SortSorted(s);
    SortStable(s);
    SortedStableUnique(SortByDate(s), s);
  }

  /** The record of a sorted list carrying the latest date is its last one. */
  lemma LastIsLatest(s: seq<Transaction>, t: Transaction)
    requires SortedByDate(s) && s != [] && t in s
    ensures LexLe(t.date, s[|s| - 1].date)
  {
    var k :| 0 <= k < |s| && s[k] == t;
    if k < |s| - 1 {
    } else {
      LexLeReflexive(t.date);
    }
  }

  /** A list whose dates agree record for record with the empty list's is empty. */
  lemma NoneOnEveryDate(a: seq<Transaction>)
    requires SameDateOrder(a, [])
    ensures a == []
  {
    if a != [] {
      var d := a[|a| - 1].date;
      FilterMembers(a, OnDate(d));
      assert false;
    }
  }

  /** Two sorted lists that agree date by date end on the same date. */
  lemma LastDatesAgree(a: seq<Transaction>, b: seq<Transaction>)
    requires SortedByDate(a) && SortedByDate(b) && a != [] && b != []
    requires SameDateOrder(a, b)
    ensures a[|a| - 1].date == b[|b| - 1].date
  {
    var la, lb := a[|a| - 1], b[|b| - 1];
    FilterMembers(a, OnDate(la.date));
    FilterMembers(b, OnDate(la.date));
    FilterMembers(a, OnDate(lb.date));
    FilterMembers(b, OnDate(lb.date));
    assert Filter(a, OnDate(la.date)) == Filter(b, OnDate(la.date));
    assert Filter(a, OnDate(lb.date)) == Filter(b, OnDate(lb.date));
    assert la in a && lb in b;
    LastIsLatest(b, la);
    LastIsLatest(a, lb);
    LexLeAntisymmetric(la.date, lb.date);
  }

  /** Two lists that agree date by date and end on the same date end on the
      same record, and without it they still agree date by date. */
  lemma DropLast(a: seq<Transaction>, b: seq<Transaction>)
    requires a != [] && b != [] && a[|a| - 1].date == b[|b| - 1].date
    requires SameDateOrder(a, b)
    ensures a[|a| - 1] == b[|b| - 1]
    ensures SameDateOrder(a[..|a| - 1], b[..|b| - 1])
  {
    var la, lb := a[|a| - 1], b[|b| - 1];
    var fa, fb := a[..|a| - 1], b[..|b| - 1];
    assert a == fa + [la];
    assert b == fb + [lb];
    var d0 := la.date;
    FilterSnoc(fa, la, OnDate(d0));
    FilterSnoc(fb, lb, OnDate(d0));
    assert Filter(a, OnDate(d0)) == Filter(b, OnDate(d0));
    var ga, gb := Filter(fa, OnDate(d0)), Filter(fb, OnDate(d0));
    assert ga + [la] == gb + [lb];
    assert |ga| == |gb|;
    assert ga == (ga + [la])[..|ga|];
    assert gb == (gb + [lb])[..|gb|];
    assert ga == gb;
    forall d
      ensures Filter(fa, OnDate(d)) == Filter(fb, OnDate(d))
    {
      FilterSnoc(fa, la, OnDate(d));
      FilterSnoc(fb, lb, OnDate(d));
      assert Filter(a, OnDate(d)) == Filter(b, OnDate(d));
      if d != d0 {
        assert !OnDate(d)(la) && !OnDate(d)(lb);
        assert Filter(a, OnDate(d)) == Filter(fa, OnDate(d)) + [] == Filter(fa, OnDate(d));
        assert Filter(b, OnDate(d)) == Filter(fb, OnDate(d)) + [] == Filter(fb, OnDate(d));
      }
    }
  }

  /** Being sorted and keeping each date's records in input order pins the
      result down: any two such arrangements of the same records are equal.
      So every stable sort by date, whatever its algorithm, returns
      `SortByDate`. */
  lemma {:induction false} SortedStableUnique(a: seq<Transaction>, b: seq<Transaction>)
    requires SortedByDate(a) && SortedByDate(b)
    requires SameDateOrder(a, b)
    ensures a == b
    decreases |a|
  {
    if b == [] {
      NoneOnEveryDate(a);
    } else if a == [] {
      NoneOnEveryDate(b);
    } else {
      LastDatesAgree(a, b);
      DropLast(a, b);
      var fa, fb := a[..|a| - 1], b[..|b| - 1];
      assert SortedByDate(fa) && SortedByDate(fb) by {
        assert forall i :: 0 <= i < |fa| ==> fa[i] == a[i];
        assert forall i :: 0 <= i < |fb| ==> fb[i] == b[i];
      }
      SortedStableUnique(fa, fb);
      assert a == fa + [a[|a| - 1]];
      assert b == fb + [b[|b| - 1]];
    }
  }
}
