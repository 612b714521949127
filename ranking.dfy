/**
  Ranking rows by a numeric column, as `DataFrame.nlargest(n, by)` and
  `sort_values(by, ascending=False)` do it: NaN ranks below every number,
  the result runs from the highest value down, and of equal values the
  earlier row comes first.
*/
module Ranking {
  import opened Frames

  /** The value a row is ranked by; None for NaN (or an absent column). */
  function Key(r: Row, col: string): Option<real> {
    if col in r && r[col].Num? then Some(r[col].v) else None
  }

  /** a ranks no higher than b: NaN is below everything, numbers compare as numbers. */
  predicate NoHigher(a: Option<real>, b: Option<real>) {
    a.None? || (b.Some? && a.value <= b.value)
  }

  /** rows run from the highest value of col down. */
  predicate Descending(rows: seq<Row>, col: string) {
    forall i, j :: 0 <= i < j < |rows| ==> NoHigher(Key(rows[j], col), Key(rows[i], col))
  }

  /** x placed before the first row that ranks no higher than x: ahead of its equals. */
  function Insert(x: Row, s: seq<Row>, col: string): (r: seq<Row>)
    ensures |r| == |s| + 1
    ensures multiset(r) == multiset{x} + multiset(s)
  {
    if s == [] || NoHigher(Key(s[0], col), Key(x, col)) then [x] + s
    else
      assert s == [s[0]] + s[1..];
      [s[0]] + Insert(x, s[1..], col)
  }

  /**
    `sort_values(by, ascending=False)`, modelled as a stable sort: every row,
    highest first, and of equal values the earlier row first.
  */
  function SortedDown(rows: seq<Row>, col: string): (r: seq<Row>)
    ensures |r| == |rows|
    ensures multiset(r) == multiset(rows)
  {
    if rows == [] then []
    else
      assert rows == [rows[0]] + rows[1..];
      Insert(rows[0], SortedDown(rows[1..], col), col)
  }

  /** `nlargest(n, by)`: the first n rows of the descending order (all of them when there are fewer). */
  function Largest(rows: seq<Row>, n: nat, col: string): (r: seq<Row>)
    ensures |r| == if n < |rows| then n else |rows|
  {
    var s := SortedDown(rows, col);
    if n < |s| then s[..n] else s
  }

  lemma {:induction false} InsertDescending(x: Row, s: seq<Row>, col: string)
    requires Descending(s, col)
    ensures Descending(Insert(x, s, col), col)
  {
    if s != [] && !NoHigher(Key(s[0], col), Key(x, col)) {
      var t := Insert(x, s[1..], col);
      InsertDescending(x, s[1..], col);
      assert Insert(x, s, col) == [s[0]] + t;
      forall j | 0 <= j < |t|
        ensures NoHigher(Key(t[j], col), Key(s[0], col))
      {
        assert t[j] in multiset(t);
        if t[j] != x {
          assert t[j] in s[1..];
        }
      }
    }
  }

  /** The sort puts the rows highest first. */
  lemma {:induction false} SortedDownDescending(rows: seq<Row>, col: string)
    ensures Descending(SortedDown(rows, col), col)
  {
    if rows != [] {
      SortedDownDescending(rows[1..], col);
      InsertDescending(rows[0], SortedDown(rows[1..], col), col);
    }
  }

  /**
    nlargest takes rows of the input, highest first, and no row it leaves out
    ranks above a row it takes.
  */
  lemma LargestTop(rows: seq<Row>, n: nat, col: string)
    ensures multiset(Largest(rows, n, col)) <= multiset(rows)
    ensures Descending(Largest(rows, n, col), col)
    ensures forall x, y :: x in multiset(rows) - multiset(Largest(rows, n, col)) && y in Largest(rows, n, col) ==>
      NoHigher(Key(x, col), Key(y, col))
  {
    var s := SortedDown(rows, col);
    SortedDownDescending(rows, col);
    if n < |s| {
      assert s == s[..n] + s[n..];
      assert multiset(s) == multiset(s[..n]) + multiset(s[n..]);
      forall x, y | x in multiset(rows) - multiset(s[..n]) && y in s[..n]
        ensures NoHigher(Key(x, col), Key(y, col))
      {
        assert x in multiset(s[n..]);
        var j :| n <= j < |s| && s[j] == x;
        var i :| 0 <= i < n && s[i] == y;
      }
    }
  }

  /** Rows taken from rows that all fit the columns fit them too. */
  lemma RowsStillFit(columns: seq<string>, rows: seq<Row>, r: seq<Row>)
    requires forall i :: 0 <= i < |rows| ==> Fits(columns, rows[i])
    requires multiset(r) <= multiset(rows)
    ensures forall i :: 0 <= i < |r| ==> Fits(columns, r[i])
  {
    forall i | 0 <= i < |r|
      ensures Fits(columns, r[i])
    {
      assert r[i] in multiset(r);
    }
  }
}
