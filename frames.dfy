/**
  Tables as the repository's pandas code uses them: named columns, rows of cells,
  a cell being a float, a string or NaN. A DataFrame is a value here; code that
  assigns a column in place becomes a function returning the updated table.
*/
module Frames {

  datatype Option<T> = None | Some(value: T)

  /** Where a re-raised exception was wrapped (`raise Exception(f"...: {e}")`). */
  datatype Stage = DataLoad | MappingLoad | Merge

  /** The exceptions the modelled code raises or catches. */
  datatype Error =
    | KeyError(key: string)               // a column the code indexes is absent
    | TypeError                           // arithmetic or comparison met a string cell
    | FormatError                         // the ValueError of a float format spec (`:.4f`) given a string
    | LengthMismatch                      // a column of the wrong length was assigned
    | DuplicateColumns                    // a merge or rename would repeat a column name
    | MissingColumns(names: seq<string>)  // the ValueError of the required-column checks
    | NanHeatData                         // folium's HeatMap refuses data holding a NaN weight with a ValueError
    | FileNotFound(path: string)
    | Wrapped(stage: Stage, cause: Error)

  datatype Result<T> = Ok(value: T) | Err(error: Error)

  /** One pandas cell: a float, a string, or NaN (missing, or a non-finite quotient). */
  datatype Cell = Num(v: real) | Text(s: string) | Null

  type Row = map<string, Cell>

  datatype Table = Table(columns: seq<string>, rows: seq<Row>)

  /**
    What the code reads from outside: the CSV files (already parsed), Python's
    `str()` of a float and the parse `pd.to_numeric` applies to a string.
  */
  datatype Host = Host(files: map<string, Table>, showNum: real -> string, parseNum: string -> Option<real>)

  predicate Distinct<T(==)>(s: seq<T>) {
    forall i, j :: 0 <= i < j < |s| ==> s[i] != s[j]
  }

  /** A fresh element in front of distinct ones keeps them distinct. */
  lemma DistinctCons<T>(x: T, s: seq<T>)
    requires x !in s && Distinct(s)
    ensures Distinct([x] + s)
  {
    var t := [x] + s;
    forall i, j | 0 <= i < j < |t|
      ensures t[i] != t[j]
    {
      assert t[j] == s[j - 1];
      if i > 0 {
        assert t[i] == s[i - 1];
      }
    }
  }

  /** No name occurs twice: the first is not among the rest, and neither do the rest repeat. */
  predicate NoDuplicates(s: seq<string>) {
    s == [] || (s[0] !in s[1..] && NoDuplicates(s[1..]))
  }

  /** The recursive and the pairwise statement of "no name occurs twice" agree. */
  lemma {:induction false} NoDuplicatesIsDistinct(s: seq<string>)
    ensures NoDuplicates(s) <==> Distinct(s)
  {
    if s != [] {
      NoDuplicatesIsDistinct(s[1..]);
      var t := s[1..];
      assert forall i :: 0 <= i < |t| ==> t[i] == s[i + 1];
      if Distinct(s) {
        assert s[0] !in t;
      }
    }
  }

  predicate Fits(columns: seq<string>, r: Row) {
    (forall c :: c in r ==> c in columns) && (forall c :: c in columns ==> c in r)
  }

  /** Every row has exactly the table's columns. */
  predicate Valid(t: Table) {
    forall i :: 0 <= i < |t.rows| ==> Fits(t.columns, t.rows[i])
  }

  /** `df.empty`: no rows or no columns. */
  predicate IsEmpty(t: Table) {
    |t.rows| == 0 || |t.columns| == 0
  }

  /** `pd.DataFrame()` */
  const EmptyTable := Table([], [])

  function Column(t: Table, c: string): (col: seq<Cell>)
    requires Valid(t) && c in t.columns
    ensures |col| == |t.rows|
    ensures forall i :: 0 <= i < |t.rows| ==> col[i] == t.rows[i][c]
  {
    seq(|t.rows|, i requires 0 <= i < |t.rows| => t.rows[i][c])
  }

  /** `t[c] = vals`: replaces column c where it exists, appends it otherwise. */
  function SetColumn(t: Table, c: string, vals: seq<Cell>): (r: Table)
    requires Valid(t) && |vals| == |t.rows|
    ensures Valid(r)
    ensures r.columns == WithName(t.columns, c)
    ensures |r.rows| == |t.rows|
    ensures forall i :: 0 <= i < |t.rows| ==> r.rows[i] == t.rows[i][c := vals[i]]
  {
    var cols := if c in t.columns then t.columns else t.columns + [c];
    Table(cols, seq(|t.rows|, i requires 0 <= i < |t.rows| => t.rows[i][c := vals[i]]))
  }

  /** After `t[c] = vals`, column c is vals and every other column is as it was. */
  lemma ColumnOfSet(t: Table, c: string, vals: seq<Cell>, d: string)
    requires Valid(t) && |vals| == |t.rows| && (d == c || d in t.columns)
    ensures d in SetColumn(t, c, vals).columns
    ensures Column(SetColumn(t, c, vals), d) == if d == c then vals else Column(t, d)
  {
  }

  /** After `t[c] = vals`, no other column has changed. */
  lemma OthersOfSet(t: Table, c: string, vals: seq<Cell>)
    requires Valid(t) && |vals| == |t.rows|
    ensures forall d :: d in t.columns && d != c ==> d in SetColumn(t, c, vals).columns && Column(SetColumn(t, c, vals), d) == Column(t, d)
  {
    forall d | d in t.columns && d != c
      ensures d in SetColumn(t, c, vals).columns && Column(SetColumn(t, c, vals), d) == Column(t, d)
    {
      ColumnOfSet(t, c, vals, d);
    }
  }

  /** `t[c].fillna(x)` written back: NaN cells of column c become x. */
  function FillNull(t: Table, c: string, x: Cell): (r: Table)
    requires Valid(t) && c in t.columns
    ensures Valid(r) && r.columns == t.columns && |r.rows| == |t.rows|
    ensures forall i :: 0 <= i < |t.rows| ==>
      r.rows[i] == t.rows[i][c := if t.rows[i][c].Null? then x else t.rows[i][c]]
  {
    SetColumn(t, c, seq(|t.rows|, i requires 0 <= i < |t.rows| =>
      if t.rows[i][c].Null? then x else t.rows[i][c]))
  }

  /** The column list after assigning column c: unchanged if c exists, c appended otherwise. */
  function WithName(cols: seq<string>, c: string): seq<string> {
    if c in cols then cols else cols + [c]
  }

  /** The column list after assigning the columns `names` one after the other. */
  function AddNames(cols: seq<string>, names: seq<string>): seq<string>
    decreases names
  {
    if names == [] then cols
    else AddNames(WithName(cols, names[0]), names[1..])
  }

  /** The assigned columns are the old ones and the new names, nothing else. */
  lemma {:induction false} AddNamesMembers(cols: seq<string>, names: seq<string>)
    ensures forall c :: c in AddNames(cols, names) <==> c in cols || c in names
    decreases names
  {
    if names != [] {
      var next := WithName(cols, names[0]);
      AddNamesMembers(next, names[1..]);
      assert forall c :: c in names <==> c == names[0] || c in names[1..];
    }
  }

  /** The old columns keep their places at the front. */
  lemma {:induction false} AddNamesPrefix(cols: seq<string>, names: seq<string>)
    ensures |cols| <= |AddNames(cols, names)| && AddNames(cols, names)[..|cols|] == cols
    decreases names
  {
    if names != [] {
      var next := WithName(cols, names[0]);
      AddNamesPrefix(next, names[1..]);
      assert next[..|cols|] == cols;
    }
  }

  /** Assigning one more column: the names so far, then the new one if it is new. */
  lemma {:induction false} AddNamesSnoc(cols: seq<string>, names: seq<string>, c: string)
    ensures AddNames(cols, names + [c]) == WithName(AddNames(cols, names), c)
    decreases names
  {
    if names == [] {
      assert [] + [c] == [c];
      assert AddNames(cols, [c]) == AddNames(WithName(cols, c), []);
    } else {
      var next := WithName(cols, names[0]);
      assert (names + [c])[0] == names[0];
      assert (names + [c])[1..] == names[1..] + [c];
      AddNamesSnoc(next, names[1..], c);
    }
  }

  /** A scalar broadcast to a column of n cells. */
  function Const(n: nat, x: Cell): (col: seq<Cell>)
    ensures |col| == n && forall i :: 0 <= i < n ==> col[i] == x
  {
    seq(n, _ => x)
  }

  /** a is b with some elements left out and the rest in their order. */
  predicate IsSubsequence<T(==)>(a: seq<T>, b: seq<T>) {
    if a == [] then true
    else if b == [] then false
    else (a[0] == b[0] && IsSubsequence(a[1..], b[1..])) || IsSubsequence(a, b[1..])
  }

  /** A subsequence of a subsequence of c is one of c. */
  lemma {:induction false} SubsequenceTrans<T>(a: seq<T>, b: seq<T>, c: seq<T>)
    requires IsSubsequence(a, b) && IsSubsequence(b, c)
    ensures IsSubsequence(a, c)
    decreases |c|
  {
    if a != [] {
      if b[0] == c[0] && IsSubsequence(b[1..], c[1..]) {
        if a[0] == b[0] && IsSubsequence(a[1..], b[1..]) {
          SubsequenceTrans(a[1..], b[1..], c[1..]);
        } else {
          SubsequenceTrans(a, b[1..], c[1..]);
        }
      } else {
        SubsequenceTrans(a, b, c[1..]);
      }
    }
  }

  lemma {:induction false} SubsequenceRefl<T>(a: seq<T>)
    ensures IsSubsequence(a, a)
  {
    if a != [] {
      SubsequenceRefl(a[1..]);
    }
  }

  /** Two filters one after the other keep, in order, the copies that pass both. */
  lemma FilterThen(a: seq<Row>, b: seq<Row>, c: seq<Row>, p: Row -> bool, q: Row -> bool)
    requires IsSubsequence(b, a) && forall x :: multiset(b)[x] == if p(x) then multiset(a)[x] else 0
    requires IsSubsequence(c, b) && forall x :: multiset(c)[x] == if q(x) then multiset(b)[x] else 0
    ensures IsSubsequence(c, a)
    ensures forall x :: multiset(c)[x] == if p(x) && q(x) then multiset(a)[x] else 0
  {
    SubsequenceTrans(c, b, a);
  }

  /** A subsequence of b is one of x + b, with or without x in front. */
  lemma SubsequenceCons<T>(x: T, a: seq<T>, b: seq<T>)
    requires IsSubsequence(a, b)
    ensures IsSubsequence([x] + a, [x] + b) && IsSubsequence(a, [x] + b)
  {
    assert ([x] + a)[1..] == a && ([x] + b)[1..] == b;
  }

  /** r holds the rows of rows that keep accepts, each as often as there, in their order. */
  ghost predicate Filtered(r: seq<Row>, rows: seq<Row>, keep: Row -> bool) {
    && |r| <= |rows|
    && (forall x :: multiset(r)[x] == if keep(x) then multiset(rows)[x] else 0)
    && IsSubsequence(r, rows)
  }

  /** Counting each kept row as often as it occurs gives the membership both ways. */
  lemma MembersOfCounts(r: seq<Row>, rows: seq<Row>, keep: Row -> bool)
    requires forall x :: multiset(r)[x] == if keep(x) then multiset(rows)[x] else 0
    ensures forall x :: x in r <==> x in rows && keep(x)
    ensures r == [] <==> forall i :: 0 <= i < |rows| ==> !keep(rows[i])
  {
    forall x
      ensures x in r <==> x in rows && keep(x)
    {
      assert x in r <==> multiset(r)[x] > 0;
      assert x in rows <==> multiset(rows)[x] > 0;
    }
    if r != [] {
      assert r[0] in r;
    } else {
      assert forall i :: 0 <= i < |rows| ==> rows[i] in rows;
    }
  }

  /** Filtering x + rows is filtering rows, with x in front when it is kept. */
  lemma FilteredCons(x: Row, rows: seq<Row>, keep: Row -> bool, rest: seq<Row>)
    requires Filtered(rest, rows, keep)
    ensures Filtered((if keep(x) then [x] else []) + rest, [x] + rows, keep)
  {
    var head := if keep(x) then [x] else [];
    var r := head + rest;
    assert multiset(r) == multiset(head) + multiset(rest);
    assert multiset([x] + rows) == multiset([x]) + multiset(rows);
    SubsequenceCons(x, rest, rows);
    if !keep(x) {
      assert r == rest;
    }
  }

  /** Boolean-mask row selection `df[mask]`. */
  function Where(rows: seq<Row>, keep: Row -> bool): (r: seq<Row>)
    ensures Filtered(r, rows, keep)
    ensures forall x :: x in r <==> x in rows && keep(x)
    ensures r == [] <==> forall i :: 0 <= i < |rows| ==> !keep(rows[i])
  {
    if rows == [] then []
    else
      var rest := Where(rows[1..], keep);
      assert rows == [rows[0]] + rows[1..];
      FilteredCons(rows[0], rows[1..], keep, rest);
      var r := (if keep(rows[0]) then [rows[0]] else []) + rest;
      MembersOfCounts(r, rows, keep);
      r
  }

  function Select(t: Table, keep: Row -> bool): (r: Table)
    requires Valid(t)
    ensures Valid(r) && r.columns == t.columns
    ensures forall x :: x in r.rows <==> x in t.rows && keep(x)
    ensures forall x :: multiset(r.rows)[x] == if keep(x) then multiset(t.rows)[x] else 0
    ensures IsSubsequence(r.rows, t.rows)
  {
    var rows := Where(t.rows, keep);
    assert forall i :: 0 <= i < |rows| ==> rows[i] in t.rows;
    Table(t.columns, rows)
  }

  /** `df[cols]` for columns that all exist. */
  function Project(t: Table, cols: seq<string>): (r: Table)
    requires Valid(t) && forall c :: c in cols ==> c in t.columns
    ensures Valid(r) && r.columns == cols && |r.rows| == |t.rows|
    ensures forall i, c :: 0 <= i < |t.rows| && c in cols ==> r.rows[i][c] == t.rows[i][c]
  {
    Table(cols, seq(|t.rows|, i requires 0 <= i < |t.rows| =>
      map c | c in cols :: t.rows[i][c]))
  }

  /** `df.head(n)` */
  function Head(t: Table, n: nat): (r: Table)
    requires Valid(t)
    ensures Valid(r) && r.columns == t.columns
    ensures r.rows == if n < |t.rows| then t.rows[..n] else t.rows
  {
    Table(t.columns, if n < |t.rows| then t.rows[..n] else t.rows)
  }

  // ---------------------------------------------------------------------
  // Elementwise float arithmetic on cells (NaN propagates, x / 0 is not finite)

  predicate IsNumeric(c: Cell) { !c.Text? }

  predicate NoText(col: seq<Cell>) {
    forall i :: 0 <= i < |col| ==> IsNumeric(col[i])
  }

  function Plus(a: Cell, b: Cell): Cell
    requires IsNumeric(a) && IsNumeric(b)
  {
    if a.Num? && b.Num? then Num(a.v + b.v) else Null
  }

  function Minus(a: Cell, b: Cell): Cell
    requires IsNumeric(a) && IsNumeric(b)
  {
    if a.Num? && b.Num? then Num(a.v - b.v) else Null
  }

  function Times(a: Cell, b: Cell): Cell
    requires IsNumeric(a) && IsNumeric(b)
  {
    if a.Num? && b.Num? then Num(a.v * b.v) else Null
  }

  function Over(a: Cell, b: Cell): Cell
    requires IsNumeric(a) && IsNumeric(b)
  {
    if a.Num? && b.Num? && b.v != 0.0 then Num(a.v / b.v) else Null
  }

  /** The Num values of a column, in order; NaN is skipped as pandas reductions do. */
  function Nums(col: seq<Cell>): (xs: seq<real>)
    ensures |xs| <= |col|
    ensures forall i :: 0 <= i < |col| && col[i].Num? ==> col[i].v in xs
    ensures forall x :: x in xs ==> Num(x) in col
  {
    if col == [] then []
    else (if col[0].Num? then [col[0].v] else []) + Nums(col[1..])
  }

  /** Each number occurs in Nums as often as a Num cell holds it. */
  lemma {:induction false} NumsCounts(col: seq<Cell>)
    ensures forall x :: multiset(Nums(col))[x] == multiset(col)[Num(x)]
  {
    if col != [] {
      NumsCounts(col[1..]);
      assert col == [col[0]] + col[1..];
      var head := if col[0].Num? then [col[0].v] else [];
      assert multiset(Nums(col)) == multiset(head) + multiset(Nums(col[1..]));
    }
  }

  /**
    `pd.to_numeric(col, errors='coerce')`: floats and NaN stay, a string becomes
    the float it parses to, or NaN.
  */
  function ToNumeric(col: seq<Cell>, parse: string -> Option<real>): (r: seq<Cell>)
    ensures |r| == |col| && NoText(r)
    ensures forall i :: 0 <= i < |col| && !col[i].Text? ==> r[i] == col[i]
    ensures forall i :: 0 <= i < |col| && col[i].Text? ==>
      r[i] == if parse(col[i].s).Some? then Num(parse(col[i].s).value) else Null
  {
    seq(|col|, i requires 0 <= i < |col| =>
      match col[i]
      case Text(s) => (match parse(s) case Some(x) => Num(x) case None => Null)
      case _ => col[i])
  }

  /** Coercing an already numeric column changes nothing, so coercion is idempotent. */
  lemma ToNumericIdempotent(col: seq<Cell>, parse: string -> Option<real>)
    ensures ToNumeric(ToNumeric(col, parse), parse) == ToNumeric(col, parse)
  {
  }

  function CountNull(col: seq<Cell>): (k: nat)
    ensures k <= |col|
    ensures k == 0 <==> forall i :: 0 <= i < |col| ==> !col[i].Null?
  {
    if col == [] then 0 else (if col[0].Null? then 1 else 0) + CountNull(col[1..])
  }

  // ---------------------------------------------------------------------
  // Reductions over reals

  function Min2(a: real, b: real): real { if a <= b then a else b }
  function Max2(a: real, b: real): real { if a >= b then a else b }

  function MinOf(xs: seq<real>): (m: real)
    requires |xs| > 0
    ensures m in xs && forall i :: 0 <= i < |xs| ==> m <= xs[i]
  {
    if |xs| == 1 then xs[0] else Min2(xs[0], MinOf(xs[1..]))
  }

  function MaxOf(xs: seq<real>): (m: real)
    requires |xs| > 0
    ensures m in xs && forall i :: 0 <= i < |xs| ==> xs[i] <= m
  {
    if |xs| == 1 then xs[0] else Max2(xs[0], MaxOf(xs[1..]))
  }

  function Sum(xs: seq<real>): real
  {
    if xs == [] then 0.0 else xs[0] + Sum(xs[1..])
  }

  function Mean(xs: seq<real>): real
    requires |xs| > 0
  {
    Sum(xs) / (|xs| as real)
  }


  /** A sum of values in [lo, hi] lies in [n*lo, n*hi]. */
  lemma {:induction false} SumBounds(xs: seq<real>, lo: real, hi: real)
    requires forall i :: 0 <= i < |xs| ==> lo <= xs[i] <= hi
    ensures (|xs| as real) * lo <= Sum(xs) <= (|xs| as real) * hi
  {
    if xs != [] {
      SumBounds(xs[1..], lo, hi);
    }
  }

  /** A mean of values in [lo, hi] lies in [lo, hi]. */
  lemma MeanBounds(xs: seq<real>, lo: real, hi: real)
    requires |xs| > 0
    requires forall i :: 0 <= i < |xs| ==> lo <= xs[i] <= hi
    ensures lo <= Mean(xs) <= hi
  {
    SumBounds(xs, lo, hi);
    var n := |xs| as real;
    assert n * lo <= Sum(xs) <= n * hi;
    assert Sum(xs) / n >= lo by {
      assert Sum(xs) / n * n == Sum(xs);
    }
    assert Sum(xs) / n <= hi by {
      assert Sum(xs) / n * n == Sum(xs);
    }
  }

  /** v times the number of values is their sum: v is their average. */
  predicate AverageOf(v: real, xs: seq<real>) {
    v * (|xs| as real) == Sum(xs)
  }

  lemma MeanTimesCount(xs: seq<real>)
    requires |xs| > 0
    ensures AverageOf(Mean(xs), xs)
  {
    var n := |xs| as real;
    var q := Sum(xs) / n;
    assert q * n == Sum(xs);
  }

  /** Column statistics as pandas reports them: NaN (None here) for an all-NaN column. */
  datatype Stats = Stats(lo: Option<real>, hi: Option<real>, mean: Option<real>)

  function ColumnStats(col: seq<Cell>): (r: Result<Stats>)
    ensures r.Err? <==> !NoText(col)
    ensures r.Ok? ==> (r.value.lo.Some? <==> exists i :: 0 <= i < |col| && col[i].Num?)
    ensures r.Ok? && r.value.lo.Some? ==>
      r.value.hi.Some? && r.value.mean.Some? &&
      (forall i :: 0 <= i < |col| && col[i].Num? ==> r.value.lo.value <= col[i].v <= r.value.hi.value) &&
      Num(r.value.lo.value) in col && Num(r.value.hi.value) in col
    ensures r.Ok? && r.value.mean.Some? ==>
      && r.value.lo.Some? && r.value.lo.value <= r.value.mean.value <= r.value.hi.value
      && r.value.mean.value == Mean(Nums(col))
  {
    if !NoText(col) then Err(TypeError)
    else
      var xs := Nums(col);
      if |xs| == 0 then
        assert forall i :: 0 <= i < |col| ==> !col[i].Num?;
        Ok(Stats(None, None, None))
      else
        MeanBounds(xs, MinOf(xs), MaxOf(xs));
        Ok(Stats(Some(MinOf(xs)), Some(MaxOf(xs)), Some(Mean(xs))))
  }
}
