/** The table transforms of the car-sales analyzer (app.py): generating a table,
    totals per salesperson, totals per category, the ranking, and the filter that
    keeps the salespeople above a threshold. Each is a pure function of the table
    it is given; the caller keeps the current table. */
module SalesTransforms {
  import opened Tables
  import opened Decimal
  import opened Sorting

  /** Exclusive upper bound of the generator's draws: counts lie in [0, DrawHigh). */
  const DrawHigh: int := 21

  /** The label the generator gives to the `k`-th salesperson (counting from 1). */
  function SalespersonLabel(k: nat): string
  {
    "Salesperson " + NatToString(k)
  }

  /** Distinct salesperson numbers give distinct labels. */
  lemma SalespersonLabelInjective(a: nat, b: nat)
    requires SalespersonLabel(a) == SalespersonLabel(b)
    ensures a == b
  {
    var prefix := "Salesperson ";
    assert SalespersonLabel(a)[|prefix|..] == NatToString(a);
    assert SalespersonLabel(b)[|prefix|..] == NatToString(b);
    NatToStringInjective(a, b);
  }

  /** One draw of the generator: a count for each category, each in [0, DrawHigh). */
  predicate ValidDraw(d: seq<int>)
  {
    |d| == CategoryCount && forall j :: 0 <= j < |d| ==> 0 <= d[j] < DrawHigh
  }

  /** A table of `n` salespeople whose counts are the given draws, one per row. */
  function GenerateSales(n: nat, draws: seq<seq<int>>): (t: seq<Row>)
    requires |draws| == n
    requires forall i :: 0 <= i < n ==> ValidDraw(draws[i])
    ensures |t| == n && WellFormed(t)
    ensures forall i :: 0 <= i < n ==> t[i].name == SalespersonLabel(i + 1) && t[i].values == draws[i]
    ensures forall i, j :: 0 <= i < n && 0 <= j < CategoryCount ==> 0 <= t[i].values[j] <= 20
  {
    var t := seq(n, i requires 0 <= i < n => Row(SalespersonLabel(i + 1), draws[i]));
    assert forall i :: 0 <= i < n ==> t[i].values == draws[i] && ValidDraw(draws[i]);
    t
  }

  /** Every generated label is used once: no two salespeople share a name. */
  lemma GeneratedNamesDistinct(n: nat, draws: seq<seq<int>>)
    requires |draws| == n
    requires forall i :: 0 <= i < n ==> ValidDraw(draws[i])
    ensures forall i, j :: 0 <= i < j < n ==> GenerateSales(n, draws)[i].name != GenerateSales(n, draws)[j].name
  {
    var t := GenerateSales(n, draws);
    forall i, j | 0 <= i < j < n
      ensures t[i].name != t[j].name
    {
      if t[i].name == t[j].name {
        SalespersonLabelInjective(i + 1, j + 1);
      }
    }
  }

  /** Every generated salesperson sold between 0 and 60 units in all. */
  lemma GeneratedTotalsBounded(n: nat, draws: seq<seq<int>>)
    requires |draws| == n
    requires forall i :: 0 <= i < n ==> ValidDraw(draws[i])
    ensures forall i :: 0 <= i < n ==> 0 <= RowSum(GenerateSales(n, draws)[i]) <= 3 * (DrawHigh - 1)
  {
    var t := GenerateSales(n, draws);
    forall i | 0 <= i < n
      ensures 0 <= RowSum(t[i]) <= 3 * (DrawHigh - 1)
    {
      RowSumOfThree(t[i]);
    }
  }

  /** One (name, total) entry per row, in the order of the rows. */
  function SalespersonTotals(t: seq<Row>): (r: seq<Total>)
    ensures |r| == |t|
    ensures forall i :: 0 <= i < |t| ==> r[i] == Total(t[i].name, RowSum(t[i]))
  {
    if t == [] then [] else [Total(t[0].name, RowSum(t[0]))] + SalespersonTotals(t[1..])
  }

  /** Adds two rows of counts column by column. */
  function AddColumns(a: seq<int>, b: seq<int>): (c: seq<int>)
    requires |a| == |b|
    ensures |c| == |a|
    ensures forall j :: 0 <= j < |a| ==> c[j] == a[j] + b[j]
  {
    seq(|a|, j requires 0 <= j < |a| => a[j] + b[j])
  }

  /** The column-wise sum of the table, accumulated row by row. */
  function ColumnTotals(t: seq<Row>): (c: seq<int>)
    requires WellFormed(t)
    ensures |c| == CategoryCount
    ensures forall j :: 0 <= j < CategoryCount ==> c[j] == Sum(Column(t, j))
  {
    if t == [] then
      [0, 0, 0]
    else
      var rest := ColumnTotals(t[1..]);
      assert forall j :: 0 <= j < CategoryCount ==> Column(t, j) == [t[0].values[j]] + Column(t[1..], j);
      AddColumns(t[0].values, rest)
  }

  /** One entry per category, named SUV, Sedan, Hatchback in that order, each the sum
      of its column over every row. An empty table gives three zeros. */
  function CategoryTotals(t: seq<Row>): (r: seq<Total>)
    requires WellFormed(t)
    ensures |r| == |Categories|
    ensures forall j :: 0 <= j < |r| ==> r[j].name == Categories[j] && r[j].total == Sum(Column(t, j))
  {
    var c := ColumnTotals(t);
    seq(|Categories|, j requires 0 <= j < |Categories| => Total(Categories[j], c[j]))
  }

  /** Sum of the three column sums is the sum of every cell. */
  lemma {:induction false} ColumnsCoverEveryCell(t: seq<Row>)
    requires WellFormed(t)
    ensures Sum(Column(t, 0)) + Sum(Column(t, 1)) + Sum(Column(t, 2)) == GrandTotal(t)
  {
    if t != [] {
      assert forall j :: 0 <= j < CategoryCount ==> Column(t, j) == [t[0].values[j]] + Column(t[1..], j);
      ColumnsCoverEveryCell(t[1..]);
      RowSumOfThree(t[0]);
    }
  }

  /** Sum of the salesperson totals is the sum of every cell. */
  lemma {:induction false} RowsCoverEveryCell(t: seq<Row>)
    ensures Sum(TotalsOf(SalespersonTotals(t))) == GrandTotal(t)
  {
    if t != [] {
      var r := SalespersonTotals(t);
      assert r == [r[0]] + SalespersonTotals(t[1..]);
      TotalsOfAppend([r[0]], SalespersonTotals(t[1..]));
      RowsCoverEveryCell(t[1..]);
    }
  }

  /** The salesperson totals and the category totals add up to the same grand total,
      since each counts every cell of the table once. */
  lemma GrandTotalsAgree(t: seq<Row>)
    requires WellFormed(t)
    ensures Sum(TotalsOf(SalespersonTotals(t))) == Sum(TotalsOf(CategoryTotals(t)))
  {
    RowsCoverEveryCell(t);
    ColumnsCoverEveryCell(t);
    var c := TotalsOf(CategoryTotals(t));
    assert Sum(c) == c[0] + Sum(c[1..]);
    assert Sum(c[1..]) == c[1] + Sum(c[2..]);
    assert Sum(c[2..]) == c[2] + Sum(c[3..]);
  }

  /** Numbers the entries of `s` 1, 2, ... in order. */
  function Number(s: seq<Total>): (r: seq<Ranked>)
  {
    seq(|s|, i requires 0 <= i < |s| => Ranked(i + 1, s[i].name, s[i].total))
  }

  /** The (name, total) pairs of a ranking, without the rank numbers. */
  function Unranked(r: seq<Ranked>): (s: seq<Total>)
  {
    seq(|r|, i requires 0 <= i < |r| => Total(r[i].name, r[i].total))
  }

  /** The salespeople in non-increasing order of total, ranked 1..N by position.
      Ties get distinct consecutive ranks; their order is not specified. */
  function RankSalespeople(t: seq<Row>): (r: seq<Ranked>)
    ensures |r| == |t|
    ensures forall i :: 0 <= i < |r| ==> r[i].rank == i + 1
    ensures forall i, j :: 0 <= i < j < |r| ==> r[i].total >= r[j].total
    ensures multiset(Unranked(r)) == multiset(SalespersonTotals(t))
  {
    var sorted := SortDesc(SalespersonTotals(t));
    SortDescSortsAndPermutes(SalespersonTotals(t));
    assert Unranked(Number(sorted)) == sorted;
    Number(sorted)
  }

  /** The ranks are 1..N: each lies in that range and no two lines share one,
      even when their totals tie. */
  lemma RanksAreOneToN(t: seq<Row>)
    ensures forall i :: 0 <= i < |t| ==> 1 <= RankSalespeople(t)[i].rank <= |t|
    ensures forall i, j :: 0 <= i < j < |t| ==> RankSalespeople(t)[i].rank != RankSalespeople(t)[j].rank
  {
  }

  /** Whatever order the sort gives tied salespeople, the total shown at each rank
      is the same: it is the k-th largest salesperson total. */
  lemma RankTotalsDetermined(t: seq<Row>, s: seq<Total>)
    requires SortedDesc(s) && multiset(s) == multiset(SalespersonTotals(t))
    ensures |RankSalespeople(t)| == |s|
    ensures forall i :: 0 <= i < |s| ==> RankSalespeople(t)[i].total == s[i].total
  {
    var r := RankSalespeople(t);
    var u := Unranked(r);
    assert |s| == |multiset(s)| == |multiset(u)| == |u|;
    assert SortedDesc(u);
    TotalsDetermined(u, s);
    forall i | 0 <= i < |s|
      ensures r[i].total == s[i].total
    {
      assert TotalsOf(u)[i] == TotalsOf(s)[i];
    }
  }

  /** The entries of `s` whose total is strictly above the threshold, in their order. */
  function Above(s: seq<Total>, threshold: real): seq<Total>
  {
    if s == [] then []
    else (if s[0].total as real > threshold then [s[0]] else []) + Above(s[1..], threshold)
  }

  /** Each entry is kept as often as it occurs if its total is above the threshold,
      and not at all otherwise. */
  lemma {:induction false} AboveCount(s: seq<Total>, threshold: real)
    ensures forall x :: (multiset(Above(s, threshold))[x] ==
      if x.total as real > threshold then multiset(s)[x] else 0)
  {
    if s != [] {
      AboveCount(s[1..], threshold);
      assert s == [s[0]] + s[1..];
    }
  }

  /** Keeping only some entries of a descending sequence leaves it descending. */
  lemma {:induction false} AboveKeepsOrder(s: seq<Total>, threshold: real)
    requires SortedDesc(s)
    ensures SortedDesc(Above(s, threshold))
  {
    if s != [] {
      AboveKeepsOrder(s[1..], threshold);
      AboveCount(s[1..], threshold);
      var rest := Above(s[1..], threshold);
      forall x | x in rest
        ensures x.total <= s[0].total
      {
        assert multiset(rest)[x] > 0;
        assert x in s[1..];
      }
    }
  }

  /** Filtering two permutations of the same entries keeps the same entries. */
  lemma AboveRespectsPermutation(s: seq<Total>, s': seq<Total>, threshold: real)
    requires multiset(s) == multiset(s')
    ensures multiset(Above(s, threshold)) == multiset(Above(s', threshold))
  {
    AboveCount(s, threshold);
    AboveCount(s', threshold);
    assert forall x :: multiset(Above(s, threshold))[x] == multiset(Above(s', threshold))[x];
  }

  /** No entry of `s` is above the threshold exactly when none is kept. */
  lemma AboveEmpty(s: seq<Total>, threshold: real)
    ensures Above(s, threshold) == [] <==> forall i :: 0 <= i < |s| ==> s[i].total as real <= threshold
  {
    var a := Above(s, threshold);
    AboveCount(s, threshold);
    if a == [] {
      forall i | 0 <= i < |s|
        ensures s[i].total as real <= threshold
      {
        assert multiset(s)[s[i]] > 0;
        assert multiset(a)[s[i]] == 0;
      }
    } else {
      assert multiset(a)[a[0]] > 0;
      assert a[0] in s;
    }
  }

  /** The rows whose total is strictly above the threshold, in non-increasing order
      of total; `NoResults` (the "No results" row) when there is none. */
  function FilterTopPerformers(t: seq<Row>, threshold: real): (r: FilterResult)
    ensures r.NoResults? <==> forall i :: 0 <= i < |t| ==> RowSum(t[i]) as real <= threshold
    ensures r.Rows? ==> r.rows != [] && SortedDesc(r.rows)
    ensures r.Rows? ==> forall x :: (multiset(r.rows)[x] ==
      if x.total as real > threshold then multiset(SalespersonTotals(t))[x] else 0)
  {
    var kept := Above(SalespersonTotals(t), threshold);
    AboveEmpty(SalespersonTotals(t), threshold);
    AboveCount(SalespersonTotals(t), threshold);
    SortDescSortsAndPermutes(kept);
    if kept == [] then NoResults else Rows(SortDesc(kept))
  }

  /** A row is shown by the filter exactly when it is a salesperson total strictly
      above the threshold; a total equal to the threshold is left out. */
  lemma FilterMembership(t: seq<Row>, threshold: real, x: Total)
    requires FilterTopPerformers(t, threshold).Rows?
    ensures x in FilterTopPerformers(t, threshold).rows <==> x in SalespersonTotals(t) && x.total as real > threshold
  {
    var rows := FilterTopPerformers(t, threshold).rows;
    assert x in rows <==> multiset(rows)[x] > 0;
    assert x in SalespersonTotals(t) <==> multiset(SalespersonTotals(t))[x] > 0;
  }

  /** The rows the filter shows are the salesperson totals above the threshold, reordered. */
  lemma FilterRowsArePermutation(t: seq<Row>, threshold: real)
    requires FilterTopPerformers(t, threshold).Rows?
    ensures multiset(FilterTopPerformers(t, threshold).rows) == multiset(Above(SalespersonTotals(t), threshold))
  {
    var rows := FilterTopPerformers(t, threshold).rows;
    assert rows == SortDesc(Above(SalespersonTotals(t), threshold));
    SortDescSortsAndPermutes(Above(SalespersonTotals(t), threshold));
  }

  /** A descending reordering of the entries of a descending sequence above a
      threshold has the same totals as those entries in their own order. */
  lemma DescendingSelectionTotals(rows: seq<Total>, u: seq<Total>, threshold: real)
    requires SortedDesc(rows) && SortedDesc(u)
    requires multiset(rows) == multiset(Above(u, threshold))
    ensures TotalsOf(rows) == TotalsOf(Above(u, threshold))
  {
    AboveKeepsOrder(u, threshold);
    TotalsDetermined(rows, Above(u, threshold));
  }

  /** The filter shows the same rows as the part of the ranking above the threshold. */
  lemma FilterRowsMatchRanking(t: seq<Row>, threshold: real)
    requires FilterTopPerformers(t, threshold).Rows?
    ensures multiset(FilterTopPerformers(t, threshold).rows) == multiset(Above(Unranked(RankSalespeople(t)), threshold))
  {
    FilterRowsArePermutation(t, threshold);
    AboveRespectsPermutation(SalespersonTotals(t), Unranked(RankSalespeople(t)), threshold);
  }

  /** Position by position, the filter shows the same totals as the part of the
      ranking above the threshold: only the order of tied rows may differ. */
  lemma FilterTotalsMatchRanking(t: seq<Row>, threshold: real)
    requires FilterTopPerformers(t, threshold).Rows?
    ensures TotalsOf(FilterTopPerformers(t, threshold).rows) == TotalsOf(Above(Unranked(RankSalespeople(t)), threshold))
  {
    FilterRowsMatchRanking(t, threshold);
    DescendingSelectionTotals(FilterTopPerformers(t, threshold).rows, Unranked(RankSalespeople(t)), threshold);
  }

  /** A three-row table used to work the transforms through by hand. */
  function ExampleTable(): (t: seq<Row>)
    ensures WellFormed(t)
  {
    [Row("A", [10, 5, 0]), Row("B", [1, 1, 1]), Row("C", [20, 0, 0])]
  }

  lemma ExampleSalespersonTotals()
    ensures SalespersonTotals(ExampleTable()) == [Total("A", 15), Total("B", 3), Total("C", 20)]
  {
    var t := ExampleTable();
    RowSumOfThree(t[0]);
    RowSumOfThree(t[1]);
    RowSumOfThree(t[2]);
  }

  lemma ExampleCategoryTotals()
    ensures CategoryTotals(ExampleTable()) == [Total("SUV", 31), Total("Sedan", 6), Total("Hatchback", 1)]
  {
    var t := ExampleTable();
    assert Column(t, 0) == [10, 1, 20] && Column(t, 1) == [5, 1, 0] && Column(t, 2) == [0, 1, 0];
  }

  /** The descending order of the example's three salesperson totals. */
  lemma ExampleSortThree()
    ensures SortDesc([Total("A", 15), Total("B", 3), Total("C", 20)]) == [Total("C", 20), Total("A", 15), Total("B", 3)]
  {
    var a, b, c := Total("A", 15), Total("B", 3), Total("C", 20);
    assert [a, b, c][1..] == [b, c];
    assert SortDesc([b, c]) == [c, b] by {
      assert [b, c][1..] == [c];
      assert SortDesc([c]) == [c] by {
        assert [c][1..] == [];
        assert Insert(c, []) == [c];
      }
      assert Insert(b, [c]) == [c, b] by {
        assert [c][1..] == [];
        assert Insert(b, []) == [b];
      }
    }
    assert Insert(a, [c, b]) == [c, a, b] by {
      assert [c, b][1..] == [b];
      assert Insert(a, [b]) == [a, b];
    }
  }

  /** The descending order of the two totals above 10 in the example. */
  lemma ExampleSortTwo()
    ensures SortDesc([Total("A", 15), Total("C", 20)]) == [Total("C", 20), Total("A", 15)]
  {
    var a, c := Total("A", 15), Total("C", 20);
    assert [a, c][1..] == [c];
    assert SortDesc([c]) == [c] by {
      assert [c][1..] == [];
      assert Insert(c, []) == [c];
    }
    assert Insert(a, [c]) == [c, a] by {
      assert [c][1..] == [];
      assert Insert(a, []) == [a];
    }
  }

  /** The example's totals kept by the threshold 10. */
  lemma ExampleAboveTen()
    ensures Above([Total("A", 15), Total("B", 3), Total("C", 20)], 10.0) == [Total("A", 15), Total("C", 20)]
  {
    var a, b, c := Total("A", 15), Total("B", 3), Total("C", 20);
    assert Above([c], 10.0) == [c] by {
      assert [c][1..] == [];
    }
    assert Above([b, c], 10.0) == [c] by {
      assert [b, c][1..] == [c];
    }
    assert Above([a, b, c], 10.0) == [a] + [c] by {
      assert [a, b, c][1..] == [b, c];
    }
  }

  /** The example's totals kept by the threshold 20: none, since 20 is not above 20. */
  lemma ExampleAboveTwenty()
    ensures Above([Total("A", 15), Total("B", 3), Total("C", 20)], 20.0) == []
  {
    var a, b, c := Total("A", 15), Total("B", 3), Total("C", 20);
    assert Above([c], 20.0) == [] by {
      assert [c][1..] == [];
    }
    assert Above([b, c], 20.0) == [] by {
      assert [b, c][1..] == [c];
    }
    assert [a, b, c][1..] == [b, c];
  }

  lemma ExampleRanking()
    ensures RankSalespeople(ExampleTable()) == [Ranked(1, "C", 20), Ranked(2, "A", 15), Ranked(3, "B", 3)]
  {
    var n := Number([Total("C", 20), Total("A", 15), Total("B", 3)]);
    assert n == [Ranked(1, "C", 20), Ranked(2, "A", 15), Ranked(3, "B", 3)] by {
      assert n[0] == Ranked(1, "C", 20) && n[1] == Ranked(2, "A", 15) && n[2] == Ranked(3, "B", 3);
    }
    assert SortDesc(SalespersonTotals(ExampleTable())) == [Total("C", 20), Total("A", 15), Total("B", 3)] by {
      ExampleSalespersonTotals();
      ExampleSortThree();
    }
  }

  lemma ExampleFilter()
    ensures FilterTopPerformers(ExampleTable(), 10.0) == Rows([Total("C", 20), Total("A", 15)])
    ensures FilterTopPerformers(ExampleTable(), 20.0) == NoResults
  {
    ExampleSalespersonTotals();
    ExampleAboveTen();
    ExampleAboveTwenty();
    ExampleSortTwo();
  }
}
