# Budget tracker dashboard: a Dafny model

This project models the client-side logic of the budget tracker's dashboard
page (`src/pages/Dashboard.jsx`). The page fetches the user's transactions
from a remote API. It shows three summary cards (income, expense, balance),
an "Expenses by Category" breakdown, a "Balance Over Time" series and a
table of the fetched records in the reverse of the server's order. It also decides, from the
stored session token and from how each API call ends, whether to fetch,
when to send the user back to the login page, and which error message to
show.

Modules, one per part of the page:

- `Transactions` holds the record `{id, amount, type, category, date, note}`.
  The `type` field is called `kind`, because `type` is a Dafny keyword. The
  module also gives `filter` and the summing `reduce` as recursive functions
  with their algebra.
- `Dates` defines the date order used by the sort, and proves it is a total
  order.
- `Totals` covers `totalIncome`, `totalExpense` and `balance`.
- `CategoryBreakdown` covers `categoryTotals`. Its two imperative `forEach`
  loops become a method with loop invariants, proved against the per-category
  sums.
- `DateSort` is the stable sort by date. The series sorts a copy of the list
  with it.
- `RunningBalance` covers `lineData`. It is a method whose loop builds
  `labels` and `values`, proved against the sorted copy and its prefix sums.
- `Table` gives the table's row order, `slice().reverse()`.
- `Session` is the page's state as a class: token, current page, fetched
  list, form fields, error message and a log of calls issued. It has the
  methods `fetchTransactions`, `handleAdd` and `handleLogout`.
- `Scenarios` is a worked example with one income and one food expense.

Amounts are exact integers, for instance paise. Dates are ISO `YYYY-MM-DD`
strings compared character by character. For such strings this gives the
same order as `localeCompare`.

Three points of the code that are easy to miss, each modelled as written:

- `handleAdd` posts even without a token (src/pages/Dashboard.jsx:74-92):
  the `POST` goes out with whatever token the page holds, possibly none.
  Only the follow-up fetch checks the token.
  `Session.Dashboard.HandleAdd` models exactly this.
- The running series adds an `income` amount and subtracts the amount of
  every other kind. The two totals count only `income` and `expense`. So the
  series ends on the balance only when every record is an income or an
  expense (`RunningBalance.RunningTotalIsBalance`).
- Amounts are nowhere checked to be non-negative, so the model does not
  assume it.

## Model

| member | source | states |
|---|---|---|
| `Transactions.Filter` | src/pages/Dashboard.jsx:109-110 | the filtered list is never longer than the input |
| `Transactions.HasKind` | src/pages/Dashboard.jsx:110 | the test `t.type === k` used by both totals and the breakdown; no contract of its own, and `FilterMembers` states what filtering by it keeps |
| `Transactions.FilterMembers` | src/pages/Dashboard.jsx:109-110 | a record is kept exactly when it is in the list and passes the test; none kept gives the empty list |
| `Transactions.FilterAppend` | src/pages/Dashboard.jsx:109-110 | filtering a concatenation is the concatenation of the filtered parts, order kept |
| `Transactions.FilterSnoc` | src/pages/Dashboard.jsx:109-110 | one more record at the end is kept or dropped on its own test |
| `Transactions.SumAmounts` | src/pages/Dashboard.jsx:111 | the left fold `reduce((sum, t) => sum + t.amount, 0)`, also at line 119; no contract of its own, and `SumAppend` and `Totals.TotalsSnoc` state its algebra |
| `Transactions.SumSnoc` | src/pages/Dashboard.jsx:111 | summing one more record at the end adds exactly its amount |
| `Transactions.SumAppend` | src/pages/Dashboard.jsx:111 | the summing `reduce` adds up over a concatenation |
| `Totals.TotalIncome` | src/pages/Dashboard.jsx:107-113 | with no `income` record (an empty list in particular) the income total is 0 |
| `Totals.TotalExpense` | src/pages/Dashboard.jsx:115-121 | with no `expense` record (an empty list in particular) the expense total is 0 |
| `Totals.Balance` | src/pages/Dashboard.jsx:123 | income total minus expense total; no contract of its own, and `Totals.BalanceIsNetSum`, `Totals.TotalsAppend` and `RunningBalance.RunningTotalIsBalance` state its properties |
| `Totals.TotalsSnoc` | src/pages/Dashboard.jsx:107-123 | one more record raises exactly the total of its own kind, by its amount, and moves the balance by its signed amount |
| `Totals.BalanceIsNetSum` | src/pages/Dashboard.jsx:107-123 | `balance` equals the record-by-record sum: income credits, expense debits, any other kind counts 0 |
| `Totals.TotalsAppend` | src/pages/Dashboard.jsx:107-123 | the income, expense and balance of two lists together are the sums of their separate figures |
| `CategoryBreakdown.Categories` | src/pages/Dashboard.jsx:40-43 | the six fixed categories in their source order; no contract of its own, and `CategoriesDistinct` proves them pairwise different while `CategoryTotals` guarantees each a key |
| `CategoryBreakdown.CategoryTotals` | src/pages/Dashboard.jsx:125-134 | every fixed category has a key, even with sum 0; a key exists exactly for the fixed categories and the categories of some expense; each key holds the sum of the expenses of that category (income never counts); when every expense has a fixed category, the fixed keys add up to `totalExpense` |
| `CategoryBreakdown.BucketsStep` | src/pages/Dashboard.jsx:130-132 | adding one expense to its bucket, opening it at 0 if missing, keeps every bucket equal to its category's sum so far |
| `CategoryBreakdown.BucketSnoc` | src/pages/Dashboard.jsx:131 | one more expense adds its amount to its own category's bucket only, and creates that bucket |
| `CategoryBreakdown.BucketsAreCategorySums` | src/pages/Dashboard.jsx:125-134 | buckets filled from the expense list are the category sums; the fixed ones add up to the expense total when no expense is outside them |
| `CategoryBreakdown.CategoriesDistinct` | src/pages/Dashboard.jsx:40-43 | the six fixed categories are pairwise different |
| `CategoryBreakdown.FixedCategoriesMatch` | src/pages/Dashboard.jsx:125-134 | summing the map over the fixed keys gives the summed category totals when each key holds its category's sum |
| `CategoryBreakdown.CategorySumSnoc` | src/pages/Dashboard.jsx:128-132 | one more record adds its amount to its category's sum if it is an expense, and to no other category |
| `CategoryBreakdown.SumOfCategorySumsSnoc` | src/pages/Dashboard.jsx:125-134 | over distinct categories, one more expense moves the summed totals by its amount exactly when its category is among them |
| `CategoryBreakdown.FixedCategoriesCoverExpenses` | src/pages/Dashboard.jsx:125-134 | when every expense has one of the six fixed categories, their sums add up to `totalExpense` |
| `Dates.LexLe` | src/pages/Dashboard.jsx:138 | `localeCompare` on ISO dates as character-by-character order; no contract of its own, and `LexLeReflexive`, `LexLeTotal`, `LexLeTransitive` and `LexLeAntisymmetric` prove it is a total order |
| `Dates.LexLeReflexive` | src/pages/Dashboard.jsx:138 | a date sorts no later than itself |
| `Dates.LexLeTotal` | src/pages/Dashboard.jsx:138 | any two dates are ordered one way or the other |
| `Dates.LexLeTransitive` | src/pages/Dashboard.jsx:138 | the date order is transitive |
| `Dates.LexLeAntisymmetric` | src/pages/Dashboard.jsx:138 | the comparator reports a tie only for equal date strings |
| `Dates.FirstDifference` | src/pages/Dashboard.jsx:138 | dates that agree up to a position and differ there are strictly ordered by that character |
| `DateSort.Insert` | src/pages/Dashboard.jsx:137-139 | inserting one record lengthens the sorted list by one |
| `DateSort.SortByDate` | src/pages/Dashboard.jsx:137-139 | the sorted copy has as many records as the list |
| `DateSort.InsertPermutes` | src/pages/Dashboard.jsx:137-139 | inserting adds exactly that record |
| `DateSort.BelowLast` | src/pages/Dashboard.jsx:137-139 | a date no earlier than a sorted list's last is no earlier than any of its dates |
| `DateSort.InsertSorted` | src/pages/Dashboard.jsx:137-139 | inserting into a date-sorted list keeps it sorted |
| `DateSort.InsertSameDateOrder` | src/pages/Dashboard.jsx:137-139 | inserting keeps each date's records in order and places the new record after those of its own date |
| `DateSort.SortPermutes` | src/pages/Dashboard.jsx:137 | the sorted copy holds exactly the fetched records, as a multiset |
| `DateSort.SortSorted` | src/pages/Dashboard.jsx:137-139 | the sorted copy is ordered by date |
| `DateSort.SortStable` | src/pages/Dashboard.jsx:137-139 | the sort is stable: for every date, the records with that date keep their fetch order |
| `DateSort.SortOfSorted` | src/pages/Dashboard.jsx:137-139 | a list already in date order is returned unchanged |
| `DateSort.LastIsLatest` | src/pages/Dashboard.jsx:137-139 | in a sorted list no record is dated after the last one |
| `DateSort.NoneOnEveryDate` | src/pages/Dashboard.jsx:137-139 | a list with no record on any date is empty |
| `DateSort.LastDatesAgree` | src/pages/Dashboard.jsx:137-139 | two sorted lists with the same records per date end on the same date |
| `DateSort.DropLast` | src/pages/Dashboard.jsx:137-139 | such lists end on the same record, and still agree per date without it |
| `DateSort.SortedStableUnique` | src/pages/Dashboard.jsx:137-139 | sortedness plus per-date order fix the result, so any stable sort by date returns `SortByDate` |
| `RunningBalance.Signed` | src/pages/Dashboard.jsx:146-147 | one step of the walk: an income adds its amount, any other kind subtracts it; its properties are stated by `RunningTotalSnoc` and `InsertRunningTotal` |
| `RunningBalance.RunningTotal` | src/pages/Dashboard.jsx:141-147 | the value of `running` after walking a list from 0; `LineData` is proved against it, and `SortKeepsRunningTotal` and `RunningTotalIsBalance` state its properties |
| `RunningBalance.RunningTotalSnoc` | src/pages/Dashboard.jsx:145-147 | one more step adds the income amount or subtracts the amount of any other kind |
| `RunningBalance.InsertRunningTotal` | src/pages/Dashboard.jsx:137-150 | inserting a record anywhere adds its signed step to the final running total |
| `RunningBalance.SortKeepsRunningTotal` | src/pages/Dashboard.jsx:137-150 | the final running total does not depend on the order, so sorting keeps it |
| `RunningBalance.RunningTotalIsBalance` | src/pages/Dashboard.jsx:141-150 | when every record is an income or an expense, the running total over the list equals `balance` |
| `RunningBalance.SortedSeriesEnd` | src/pages/Dashboard.jsx:136-152 | the sorted copy is in date order and the walk over it ends on the list's running total, which is the balance for income/expense lists |
| `RunningBalance.LineData` | src/pages/Dashboard.jsx:136-153 | `labels` and `values` are as long as the list (empty for an empty list); `labels` are the sorted copy's dates, non-decreasing; each `values[k]` is the signed prefix sum of the sorted copy up to `k`; the last value is the running total of the list in any order, and `balance` when every kind is income or expense |
| `Table.Rows` | src/pages/Dashboard.jsx:381-384 | the rows are the fetched list reversed, index by index, with no reordering by date |
| `Table.RowsInvolution` | src/pages/Dashboard.jsx:381-384 | reversing the rows again gives back the fetched list |
| `Table.RowsPermutes` | src/pages/Dashboard.jsx:381-384 | every fetched record has exactly one row |
| `Table.RowsOfChronological` | src/pages/Dashboard.jsx:381-384 | when the server sends the list in date order, the rows read newest first |
| `Session.HasToken` | src/pages/Dashboard.jsx:49 | the negation of `!token`: a token is present and non-empty; `Session.Dashboard.FetchTransactions` states what each side of the test does |
| `Session.LoadError` | src/pages/Dashboard.jsx:64 | the message shown when the list cannot be loaded; `Session.Dashboard.FetchTransactions` states when it is set |
| `Session.AddError` | src/pages/Dashboard.jsx:102 | the message shown when a new entry cannot be added; `Session.Dashboard.HandleAdd` states when it is set |
| `Session.Dashboard.constructor` | src/pages/Dashboard.jsx:31-46 | the page starts on the dashboard with an empty list, no message, no calls issued, form fields at their defaults, and the stored token |
| `Session.Dashboard.FetchTransactions` | src/pages/Dashboard.jsx:48-67 | with no token (missing or empty): go to login, issue no call, change nothing else. Otherwise issue one `GET` with the token. On success the list is replaced wholesale; on 401 the token is cleared and the page goes to login; on any other failure the load message is set and the list kept |
| `Session.Dashboard.HandleAdd` | src/pages/Dashboard.jsx:74-105 | an empty amount field changes nothing and sends nothing. Otherwise the message is cleared and one `POST` carries the record built from the form. On 401 the token is cleared and the page goes to login; on another failure the add message is set. On success the form is reset and a follow-up fetch runs under the fetch policy; the list then becomes the server's, never a local merge |
| `Session.Dashboard.HandleLogout` | src/pages/Dashboard.jsx:187-190 | the token is cleared and the page goes to login; nothing else changes |
| `Scenarios.ExampleCards` | src/pages/Dashboard.jsx:107-123 | income 100 on 2024-01-01 and a Food expense 40 on 2024-01-02 give income 100, expense 40, balance 60 |
| `Scenarios.ExampleBreakdown` | src/pages/Dashboard.jsx:125-134 | in that example the Food bucket holds 40, and the income's category holds nothing from it |
| `Scenarios.ExampleSeries` | src/pages/Dashboard.jsx:136-153 | in that example the sorted copy keeps the order and the series plots 100, then 60 |

## Left out

- HTTP calls (`axios.get`, `axios.post`): the model has no network. How each call ends (body, 401, other failure) is a parameter of the method that makes it. The calls sent are recorded in `requests`.
- `localStorage` and `navigate`: modelled only by their effect, the `token` field and the `route` field.
- `Session.Dashboard.HandleAdd`: does not model concurrency. The follow-up fetch runs at once after a successful `POST`. Overlapping fetches from rapid submissions are not modelled, since the code does not coordinate them.
- The render-time copy of the token (`const token = localStorage.getItem("token")`) is taken to be the stored token itself. The two differ only after a 401 or a logout, and then the page navigates away.
- `parseFloat(amount)`, `Date.now()` and `new Date().toISOString()` are inputs of `HandleAdd` (`parsed`, `id`, `today`). Float parsing, clocks and formatting are outside the model.
- Floating-point amounts: amounts are exact integers. Rounding in JavaScript's sums and `toFixed(2)` display are not modelled.
- `localeCompare`: replaced by character-by-character comparison. This agrees with it on ISO dates, not for arbitrary locale-sensitive strings.
- `Array.prototype.sort`'s algorithm belongs to the JavaScript engine. The model states the result a stable sort must give. `DateSort.SortedStableUnique` shows that this result does not depend on the algorithm.
- `CategoryBreakdown.CategoryTotals`: models the object as a `map`. So it leaves out the insertion order of `Object.keys`, which only sets the pie chart's label order, and JavaScript's inherited keys such as `constructor`.
- Rendering: `SummaryCards`, `AddTransactionForm`, `ChartsSection`, the pie and line chart configuration, the dark-mode toggle, the table's cell formatting and its empty-list placeholder row. These are UI only.
- React mechanics (`useState`, `useMemo`, `useEffect`): the aggregates are plain functions of the list. The mount-time fetch is a call to `FetchTransactions` after construction.
- Idempotence of the aggregates needs no lemma: the totals are functions of the list, and the `ensures` of `CategoryTotals` and `LineData` fix their results uniquely, so two calls on the same list agree.
- `console.error` logging.
- src/pages/Login.jsx, src/pages/Signup.jsx and src/serviceWorkerRegistration.js are not part of this model. They only send a form, store a token and show a message, or register a service worker.
