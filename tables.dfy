/** The table the car-sales analyzer works on, and the records its transforms return.

    A table is an ordered sequence of rows; each row holds a salesperson name and
    one unit count per vehicle category (SUV, Sedan, Hatchback, in that order).
    Counts are whole numbers: the generator draws integers, so every sum of them
    is exact and the model keeps them as `int`. */
module Tables {

  /** One salesperson: a display name and the unit count of each category. */
  datatype Row = Row(name: string, values: seq<int>)

  /** A (name, total) pair: a salesperson total, a category total, or a filtered row. */
  datatype Total = Total(name: string, total: int)

  /** A line of the ranking: its 1-based position, the name and the total. */
  datatype Ranked = Ranked(rank: nat, name: string, total: int)

  /** Result of filtering: either the sentinel that stands for "No results", or the kept rows. */
  datatype FilterResult = NoResults | Rows(rows: seq<Total>)

  /** The fixed, ordered category names shown beside the column totals. */
  const Categories: seq<string> := ["SUV", "Sedan", "Hatchback"]

  /** The number of value columns of every row. */
  const CategoryCount: nat := 3

  /** Every row has exactly one value per category. */
  predicate WellFormed(t: seq<Row>)
  {
    forall i :: 0 <= i < |t| ==> |t[i].values| == CategoryCount
  }

  /** Sum of a sequence of counts, first element first. */
  function Sum(s: seq<int>): int
  {
    if s == [] then 0 else s[0] + Sum(s[1..])
  }

  /** The total of one row: the sum of its category counts. */
  function RowSum(r: Row): int
  {
    Sum(r.values)
  }

  /** A row of the table's shape sums to its three counts. */
  lemma RowSumOfThree(r: Row)
    requires |r.values| == CategoryCount
    ensures RowSum(r) == r.values[0] + r.values[1] + r.values[2]
  {
    var v := r.values;
    assert Sum(v[2..]) == v[2] + Sum(v[3..]);
    assert Sum(v[1..]) == v[1] + Sum(v[2..]);
  }

  /** Sum of every cell of the table, row by row. */
  function GrandTotal(t: seq<Row>): int
  {
    if t == [] then 0 else RowSum(t[0]) + GrandTotal(t[1..])
  }

  /** Column `j` of the table, top to bottom. */
  function Column(t: seq<Row>, j: nat): (c: seq<int>)
    requires WellFormed(t) && j < CategoryCount
    ensures |c| == |t|
  {
    seq(|t|, i requires 0 <= i < |t| => t[i].values[j])
  }

  /** The totals of a sequence of (name, total) pairs, in order. */
  function TotalsOf(s: seq<Total>): seq<int>
  {
    seq(|s|, i requires 0 <= i < |s| => s[i].total)
  }

  /** Totals of a concatenation are the concatenation of the totals. */
  lemma TotalsOfAppend(a: seq<Total>, b: seq<Total>)
    ensures TotalsOf(a + b) == TotalsOf(a) + TotalsOf(b)
  {
    assert forall i :: 0 <= i < |a + b| ==> TotalsOf(a + b)[i] == (TotalsOf(a) + TotalsOf(b))[i];
  }
}
