/**
  A worked example: an income of 100 on the first of January and a food
  expense of 40 on the second, whatever their ids, notes and the income's
  category.
 */
module Scenarios {
  import opened Transactions
  import opened Dates
  import opened DateSort
  import opened Totals
  import opened CategoryBreakdown
  import opened RunningBalance

  predicate IsExample(salary: Transaction, lunch: Transaction)
  {
    && salary.kind == Income && salary.amount == 100 && salary.date == "2024-01-01"
    && lunch.kind == Expense && lunch.amount == 40 && lunch.category == "Food" && lunch.date == "2024-01-02"
  }

  /** The cards read 100 income, 40 expense and a balance of 60. */
  lemma ExampleCards(salary: Transaction, lunch: Transaction)
    requires IsExample(salary, lunch)
    ensures TotalIncome([salary, lunch]) == 100 && TotalExpense([salary, lunch]) == 40
    ensures Balance([salary, lunch]) == 60
  {
    assert TotalIncome([salary]) == 100 && TotalExpense([salary]) == 0 by {
      TotalsSnoc([], salary);
      assert [] + [salary] == [salary];
    }
    assert [salary] + [lunch] == [salary, lunch];
    TotalsSnoc([salary], lunch);
  }

  /** The food bucket holds the 40 spent; the income is no expense. */
  lemma ExampleBreakdown(salary: Transaction, lunch: Transaction)
    requires IsExample(salary, lunch)
    ensures CategorySum([salary, lunch], "Food") == 40
    ensures CategorySum([salary, lunch], salary.category) == (if salary.category == "Food" then 40 else 0)
  {
    assert CategorySum([salary], "Food") == 0 && CategorySum([salary], salary.category) == 0 by {
      CategorySumSnoc([], salary, "Food");
      CategorySumSnoc([], salary, salary.category);
      assert [] + [salary] == [salary];
    }
    assert [salary] + [lunch] == [salary, lunch];
    CategorySumSnoc([salary], lunch, "Food");
    CategorySumSnoc([salary], lunch, salary.category);
  }

  /** The chart keeps the two records in date order and plots 100, then 60. */
  lemma ExampleSeries(salary: Transaction, lunch: Transaction)
    requires IsExample(salary, lunch)
    ensures SortByDate([salary, lunch]) == [salary, lunch]
    ensures RunningTotal([salary]) == 100 && RunningTotal([salary, lunch]) == 60
  {
    assert LexLe(salary.date, lunch.date) by {
      FirstDifference(salary.date, lunch.date, 9);
    }
    assert SortByDate([salary]) == [salary] by {
      assert [salary][..0] == [];
    }
    assert [salary, lunch][..1] == [salary];
    assert RunningTotal([salary]) == 100 by {
      RunningTotalSnoc([], salary);
      assert [] + [salary] == [salary];
    }
    assert [salary] + [lunch] == [salary, lunch];
    RunningTotalSnoc([salary], lunch);
  }
}
