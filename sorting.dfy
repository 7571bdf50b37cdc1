/** Descending order by total, as `argsort(totals)[::-1]` gives it.

    The source sorts the totals ascending and reverses the index order. The sort
    kind it uses is not guaranteed to be stable, so what it promises is only that
    the output is non-increasing by total and a permutation of the input. `SortDesc`
    is one function with that property (`SortDescSortsAndPermutes`); the lemma
    `TotalsDetermined` shows that the totals column is the same for every output
    with it, so the only freedom left is the order of rows whose totals tie. */
module Sorting {
  import opened Tables

  /** Totals never increase from one position to a later one. */
  predicate SortedDesc(s: seq<Total>)
  {
    forall i, j :: 0 <= i < j < |s| ==> s[i].total >= s[j].total
  }

  /** The same property for a bare sequence of totals. */
  predicate NonIncreasing(s: seq<int>)
  {
    forall i, j :: 0 <= i < j < |s| ==> s[i] >= s[j]
  }

  /** Places `x` into a sequence before the first element of smaller total, so that
      among ties the later-inserted (earlier input) row ends up last, as reversing
      an ascending order does. */
  function Insert(x: Total, s: seq<Total>): seq<Total>
  {
    if s == [] || x.total > s[0].total then [x] + s else [s[0]] + Insert(x, s[1..])
  }

  /** The rows of `s` in non-increasing order of total (insertion sort). */
  function SortDesc(s: seq<Total>): seq<Total>
  {
    if s == [] then [] else Insert(s[0], SortDesc(s[1..]))
  }

  /** Inserting adds exactly one occurrence of `x`. */
  lemma {:induction false} InsertPermutes(x: Total, s: seq<Total>)
    ensures multiset(Insert(x, s)) == multiset(s) + multiset{x}
    ensures |Insert(x, s)| == |s| + 1
  {
    if s != [] && x.total <= s[0].total {
      InsertPermutes(x, s[1..]);
      assert s == [s[0]] + s[1..];
    }
  }

  /** Inserting into a descending sequence keeps it descending; the new first
      element is `x` or the old first one. */
  lemma {:induction false} InsertSorted(x: Total, s: seq<Total>)
    requires SortedDesc(s)
    ensures SortedDesc(Insert(x, s))
    ensures Insert(x, s)[0] == x || (s != [] && Insert(x, s)[0] == s[0])
  {
    InsertPermutes(x, s);
    if s != [] && x.total <= s[0].total {
      var rest := Insert(x, s[1..]);
      InsertSorted(x, s[1..]);
      InsertPermutes(x, s[1..]);
      assert rest[0].total <= s[0].total;
      assert forall j :: 0 <= j < |rest| ==> rest[j].total <= rest[0].total;
      assert Insert(x, s) == [s[0]] + rest;
    }
  }

  /** The sort is non-increasing by total and a permutation of its input. */
  lemma {:induction false} SortDescSortsAndPermutes(s: seq<Total>)
    ensures SortedDesc(SortDesc(s))
    ensures multiset(SortDesc(s)) == multiset(s)
    ensures |SortDesc(s)| == |s|
  {
    if s != [] {
      SortDescSortsAndPermutes(s[1..]);
      InsertSorted(s[0], SortDesc(s[1..]));
      InsertPermutes(s[0], SortDesc(s[1..]));
      assert s == [s[0]] + s[1..];
    }
  }

  /** Dropping the element at `k` removes one occurrence of it from the multiset. */
  lemma MultisetRemoveAt<T>(b: seq<T>, k: nat)
    requires k < |b|
    ensures multiset(b[..k] + b[k + 1..]) == multiset(b) - multiset{b[k]}
  {
    assert b == b[..k] + [b[k]] + b[k + 1..];
  }

  /** Dropping the row at `k` drops its total at `k`. */
  lemma TotalsRemoveAt(b: seq<Total>, k: nat)
    requires k < |b|
    ensures TotalsOf(b[..k] + b[k + 1..]) == TotalsOf(b)[..k] + TotalsOf(b)[k + 1..]
  {
    var x, y := TotalsOf(b[..k] + b[k + 1..]), TotalsOf(b)[..k] + TotalsOf(b)[k + 1..];
    assert |x| == |y|;
    forall i | 0 <= i < |x|
      ensures x[i] == y[i]
    {
      if i < k {
        assert x[i] == b[i].total;
      } else {
        assert x[i] == b[i + 1].total;
      }
    }
  }

  /** Putting back the row removed at `k` puts back its total. */
  lemma TotalsRestoreAt(a: seq<Total>, b: seq<Total>, k: nat)
    requires a != [] && k < |b| && b[k] == a[0]
    requires multiset(TotalsOf(a[1..])) == multiset(TotalsOf(b[..k] + b[k + 1..]))
    ensures multiset(TotalsOf(a)) == multiset(TotalsOf(b))
  {
    var m, x := multiset(TotalsOf(b)), a[0].total;
    assert multiset(TotalsOf(a[1..])) == m - multiset{x} by {
      TotalsRemoveAt(b, k);
      MultisetRemoveAt(TotalsOf(b), k);
    }
    assert multiset(TotalsOf(a)) == multiset{x} + multiset(TotalsOf(a[1..])) by {
      assert a == [a[0]] + a[1..];
      TotalsOfAppend([a[0]], a[1..]);
    }
    assert x in m by {
      assert TotalsOf(b)[k] == x;
    }
    assert multiset{x} + (m - multiset{x}) == m;
  }

  /** Equal multisets of rows have equal multisets of totals. */
  lemma {:induction false} TotalsMultiset(a: seq<Total>, b: seq<Total>)
    requires multiset(a) == multiset(b)
    ensures multiset(TotalsOf(a)) == multiset(TotalsOf(b))
    decreases |a|
  {
    if a == [] {
      assert |b| == |multiset(b)| == 0;
    } else {
      assert a[0] in b by {
        assert a[0] in multiset(a);
      }
      var k :| 0 <= k < |b| && b[k] == a[0];
      assert multiset(a[1..]) == multiset(b[..k] + b[k + 1..]) by {
        assert a == [a[0]] + a[1..];
        MultisetRemoveAt(b, k);
      }
      TotalsMultiset(a[1..], b[..k] + b[k + 1..]);
      TotalsRestoreAt(a, b, k);
    }
  }

  /** The first element of a non-increasing sequence is its largest. */
  lemma HeadIsLargest(x: seq<int>, v: int)
    requires NonIncreasing(x) && v in multiset(x)
    ensures v <= x[0]
  {
    var k :| 0 <= k < |x| && x[k] == v;
    assert k == 0 || x[0] >= x[k];
  }

  /** Adding the same element to two multisets can be cancelled. */
  lemma CancelOne<T>(h: T, a: multiset<T>, b: multiset<T>)
    requires multiset{h} + a == multiset{h} + b
    ensures a == b
  {
    forall z
      ensures a[z] == b[z]
    {
      assert (multiset{h} + a)[z] == (multiset{h} + b)[z];
    }
  }

  /** Two sequences with the same multiset and the same head have tails with the same multiset. */
  lemma SameTails<T>(x: seq<T>, y: seq<T>)
    requires x != [] && y != [] && x[0] == y[0]
    requires multiset(x) == multiset(y)
    ensures multiset(x[1..]) == multiset(y[1..])
  {
    assert x == [x[0]] + x[1..];
    assert y == [y[0]] + y[1..];
    assert multiset(x) == multiset{x[0]} + multiset(x[1..]);
    assert multiset(y) == multiset{y[0]} + multiset(y[1..]);
    CancelOne(x[0], multiset(x[1..]), multiset(y[1..]));
  }

  /** A non-increasing sequence of integers is fixed by its multiset. */
  lemma {:induction false} NonIncreasingUnique(x: seq<int>, y: seq<int>)
    requires NonIncreasing(x) && NonIncreasing(y)
    requires multiset(x) == multiset(y)
    ensures x == y
    decreases |x|
  {
    assert |y| == |multiset(y)| == |multiset(x)| == |x|;
    if x != [] {
      HeadIsLargest(y, x[0]);
      HeadIsLargest(x, y[0]);
      SameTails(x, y);
      NonIncreasingUnique(x[1..], y[1..]);
      assert x == [x[0]] + x[1..] && y == [y[0]] + y[1..];
    }
  }

  /** Any two descending orders of the same rows have the same totals column:
      only the order among equal totals is left open. */
  lemma TotalsDetermined(a: seq<Total>, b: seq<Total>)
    requires SortedDesc(a) && SortedDesc(b)
    requires multiset(a) == multiset(b)
    ensures TotalsOf(a) == TotalsOf(b)
  {
    TotalsMultiset(a, b);
    NonIncreasingUnique(TotalsOf(a), TotalsOf(b));
  }
}
