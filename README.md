# Car Sales Analyzer — table transforms in Dafny

This project models the data layer of the Car Sales Analyzer: a table of
salespeople, each with a unit count for three vehicle categories (SUV, Sedan,
Hatchback), and the five transforms the app offers on it:

- `generate_sales` builds `n` rows labelled `Salesperson 1` … `Salesperson n`
  with counts drawn from `[0, 20]`;
- `salesperson_totals` sums each row;
- `category_totals` sums each column and labels the sums SUV, Sedan, Hatchback;
- `rank_salespeople` orders the row totals from largest to smallest and numbers
  them 1..N;
- `filter_top_performers` keeps the rows whose total is strictly above a
  threshold, largest first, and answers a single "No results" row when none is.

Every transform is a pure function of the table it is given, so the model is
functions and lemmas:

- `tables.dfy` (module `Tables`) holds the data model: `Row`, the `(name, total)`
  pair `Total`, the ranking line `Ranked`, and `FilterResult`, whose `NoResults`
  variant stands for the "No results" row.
- `decimal.dfy` (module `Decimal`) renders the salesperson number of a label in
  base ten, and holds the parser that reads it back.
- `sorting.dfy` (module `Sorting`) models the descending order that
  `argsort(...)[::-1]` produces. It proves that any two descending orders of the
  same rows have the same totals column.
- `sales.dfy` (module `SalesTransforms`) holds the five transforms and the
  lemmas that relate them.

Counts are modelled as `int`, and the threshold as `real`. The source turns the
counts into floats before summing, but they are small whole numbers, so every
sum is exact, and comparing an integer total with a real threshold is exact too.

The random draws of `generate_sales` are a parameter of `GenerateSales`: a
sequence of `n` triples, each count in `[0, 21)`, which is what
`np.random.randint(0, 21, size=(n, 3))` returns.

Ranking and filtering do not keep tied rows in input order. The code reverses
an ascending `argsort` whose sort kind is not guaranteed stable, so a stable,
input-order tie-break is not something it provides. The model promises only
two things: the output is non-increasing, and it is a permutation of the input.
`RankTotalsDetermined` and `FilterTotalsMatchRanking` show what still follows:
the total at every rank is fixed, and only which of several tied salespeople
sits at which position is left open. `SortDesc` happens to put later input rows
first among ties, which is what reversing a stable ascending sort does, but no
contract relies on that.

## Model

| member | source | states |
|---|---|---|
| `SalesTransforms.GenerateSales` | app.py:5-13 | exactly `n` rows; row `i` is labelled `Salesperson i+1` and holds the `i`-th draw; every row has 3 counts, each in `[0, 20]` |
| `SalesTransforms.GeneratedNamesDistinct` | app.py:8 | no two generated rows share a label |
| `SalesTransforms.SalespersonLabelInjective` | app.py:8 | different salesperson numbers give different labels |
| `SalesTransforms.GeneratedTotalsBounded` | app.py:9 | every generated row total lies in `[0, 60]` |
| `Decimal.NatToString` | app.py:8 | the number in a label is a non-empty string of decimal digits with no leading zero, one digit exactly when the number is below 10 |
| `Decimal.ParseNatToString` | app.py:8 | reading the rendered number back gives the number (round trip) |
| `Decimal.NatToStringInjective` | app.py:8 | different numbers render as different strings |
| `SalesTransforms.SalespersonTotals` | app.py:16-22 | one entry per input row, in input order; entry `i` carries row `i`'s name and the sum of its counts |
| `Tables.RowSumOfThree` | app.py:20 | a row total is the sum of its three counts |
| `SalesTransforms.ColumnTotals` | app.py:29 | accumulating the rows column by column gives, for each column `j`, the sum of column `j` over all rows (three zeros for an empty table) |
| `SalesTransforms.CategoryTotals` | app.py:25-31 | exactly 3 entries named SUV, Sedan, Hatchback in that order; entry `j` is the sum of column `j` over every row |
| `SalesTransforms.RowsCoverEveryCell` | app.py:20 | the salesperson totals add up to the sum of every cell |
| `SalesTransforms.ColumnsCoverEveryCell` | app.py:29 | the three column sums add up to the sum of every cell |
| `SalesTransforms.GrandTotalsAgree` | app.py:16-31 | the salesperson totals and the category totals have the same grand total |
| `Sorting.InsertPermutes` | app.py:40 | inserting adds exactly one occurrence of the row and nothing else |
| `Sorting.InsertSorted` | app.py:40 | inserting into a non-increasing sequence keeps it non-increasing |
| `Sorting.SortDescSortsAndPermutes` | app.py:40-43 | the descending sort is non-increasing by total and a permutation of its input |
| `Sorting.TotalsMultiset` | app.py:42-43 | two permutations of the same rows have the same multiset of totals |
| `Sorting.NonIncreasingUnique` | app.py:40 | a non-increasing sequence of totals is fixed by its multiset |
| `Sorting.TotalsDetermined` | app.py:40-43 | any two descending orders of the same rows have the same totals column |
| `SalesTransforms.RankSalespeople` | app.py:34-47 | one line per row; line `i` has rank `i+1`; totals are non-increasing; the (name, total) pairs are a permutation of the salesperson totals |
| `SalesTransforms.RanksAreOneToN` | app.py:45-47 | every rank lies in `1..N` and no two lines share a rank, even when totals tie |
| `SalesTransforms.RankTotalsDetermined` | app.py:38-43 | the total at each rank equals that of any descending order of the salesperson totals, whatever order ties get |
| `SalesTransforms.AboveCount` | app.py:57-60 | the mask keeps each entry as often as it occurs when its total is strictly above the threshold, and never otherwise |
| `SalesTransforms.AboveKeepsOrder` | app.py:57-60 | masking a non-increasing sequence leaves it non-increasing |
| `SalesTransforms.AboveRespectsPermutation` | app.py:57-60 | masking two permutations of the same entries keeps the same entries |
| `SalesTransforms.AboveEmpty` | app.py:57-62 | nothing survives the mask exactly when no total is strictly above the threshold |
| `SalesTransforms.FilterTopPerformers` | app.py:50-70 | `NoResults` exactly when no row total exceeds the threshold; otherwise the rows are non-empty, non-increasing by total, and as a multiset exactly the salesperson totals strictly above the threshold |
| `SalesTransforms.FilterMembership` | app.py:57-60 | an entry is shown exactly when it is a salesperson total strictly above the threshold; a total equal to the threshold is not shown |
| `SalesTransforms.FilterRowsArePermutation` | app.py:65-70 | the shown rows are a reordering of the masked salesperson totals |
| `SalesTransforms.DescendingSelectionTotals` | app.py:65-68 | any descending order of the entries that survive the mask has the same totals as those entries taken from an already descending sequence |
| `SalesTransforms.FilterRowsMatchRanking` | app.py:55-68 | the filter shows the same rows as the part of the ranking above the threshold |
| `SalesTransforms.FilterTotalsMatchRanking` | app.py:55-68 | position by position, the filter shows the same totals as the part of the ranking above the threshold |
| `SalesTransforms.ExampleSalespersonTotals` | app.py:16-22 | on the table A=[10,5,0], B=[1,1,1], C=[20,0,0] the totals are A 15, B 3, C 20 |
| `SalesTransforms.ExampleCategoryTotals` | app.py:25-31 | on the same table the category totals are SUV 31, Sedan 6, Hatchback 1 |
| `SalesTransforms.ExampleRanking` | app.py:34-47 | on the same table the ranking is 1 C 20, 2 A 15, 3 B 3 |
| `SalesTransforms.ExampleFilter` | app.py:50-70 | on the same table, threshold 10 shows C 20 then A 15; threshold 20 shows "No results", because 20 is not strictly above 20 |

## Left out

- The Gradio user interface (app.py:73-133) is not modelled. This covers the layout, the buttons, the `gr.State` that holds the current table, and `demo.launch`. The caller passes the table to each transform instead.
- The random number generator is not modelled. The draws are a parameter of `GenerateSales`, constrained to what `randint(0, 21)` can return.
- `GenerateSales` returns the table once. The source returns the same table twice, once for the session state and once for display.
- `GenerateSales` takes `n` as a natural number. `int(n)` truncating a float from the number widget is not modelled. Neither is the error numpy raises for a negative `n`.
- Conversions between text and numbers are not modelled. This covers `float(threshold)`, `.astype(float)` on the string cells, and the text `np.column_stack` produces when it mixes labels with numbers, such as totals shown as `15.0` and ranks shown as text. Rows are typed records, totals are integers, and the threshold is a real.
- The "No results" row `("No results", "")` is the `NoResults` variant. The model does not produce its two display strings.
- `CategoryTotals` requires every row to have exactly three counts (`WellFormed`). With any other column count, `np.column_stack` in the source fails; that failure is not modelled.
- Errors for a missing or malformed table (no table generated yet, non-numeric cells) come from numpy. They are not modelled.
- `RankSalespeople`: does not state which of several tied salespeople gets the smaller rank, because the source's unstable, reversed `argsort` does not fix it; only the totals column is determined (`RankTotalsDetermined`).
- `FilterTopPerformers`: does not state the order of rows with equal totals, for the same reason; only the totals column is determined (`FilterTotalsMatchRanking`).
