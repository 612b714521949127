/**
  `left.merge(right, on=key, how='left')` as pandas performs it: every left row
  in order, once per matching right row (in right order) or once with NaN when
  nothing matches; a value column both sides have is suffixed `_x` on the left
  and `_y` on the right, and suffixes that would repeat a name raise.
*/
module FramesMerge {
  import opened Frames

  /** The name a left column gets in the result. */
  function LeftName(c: string, key: string, right: seq<string>): string {
    if c != key && c in right then c + "_x" else c
  }

  /** The name a right value column gets in the result. */
  function RightName(c: string, left: seq<string>): string {
    if c in left then c + "_y" else c
  }

  /** The left columns under their result names, then the right value columns under theirs. */
  function JoinColumns(left: seq<string>, key: string, right: seq<string>): (cols: seq<string>)
    ensures |cols| == |left| + |right|
    ensures forall k :: 0 <= k < |left| ==> cols[k] == LeftName(left[k], key, right)
    ensures forall k :: 0 <= k < |right| ==> cols[|left| + k] == RightName(right[k], left)
  {
    seq(|left|, k requires 0 <= k < |left| => LeftName(left[k], key, right))
      + seq(|right|, k requires 0 <= k < |right| => RightName(right[k], left))
  }

  /** Without shared value columns every name is kept as it is. */
  lemma NoOverlapKeepsNames(left: seq<string>, key: string, right: seq<string>)
    requires forall c :: c in right ==> c !in left
    ensures JoinColumns(left, key, right) == left + right
  {
    var cols := JoinColumns(left, key, right);
    assert forall k :: 0 <= k < |left| ==> left[k] !in right;
    assert forall k :: 0 <= k < |cols| ==> cols[k] == (left + right)[k];
  }

  /** The position of x in s (the first one). */
  function IndexOf(s: seq<string>, x: string): (k: nat)
    requires x in s
    ensures k < |s| && s[k] == x
  {
    if s[0] == x then 0 else 1 + IndexOf(s[1..], x)
  }

  /** The cell the k-th result column takes from a left row and its match (NaN for no match). */
  function JoinCell(k: nat, l: Row, m: Option<Row>, left: seq<string>, right: seq<string>): Cell
    requires k < |left| + |right|
    requires forall c :: c in left ==> c in l
    requires m.Some? ==> forall c :: c in right ==> c in m.value
  {
    if k < |left| then l[left[k]]
    else if m.Some? then m.value[right[k - |left|]]
    else Null
  }

  /**
    out is a result row of left row l and its match m (None for no match): it
    has exactly the result columns; each left column holds l's cell under its
    result name, and each right value column m's cell (NaN for no match) under
    its result name.
  */
  predicate JoinedFrom(out: Row, l: Row, m: Option<Row>, left: seq<string>, key: string, right: seq<string>)
    requires forall c :: c in left ==> c in l
    requires m.Some? ==> forall c :: c in right ==> c in m.value
  {
    && Fits(JoinColumns(left, key, right), out)
    && (forall c {:trigger LeftName(c, key, right)} :: c in left ==>
          LeftName(c, key, right) in out && out[LeftName(c, key, right)] == l[c])
    && (forall c {:trigger RightName(c, left)} :: c in right ==>
          RightName(c, left) in out && out[RightName(c, left)] == if m.Some? then m.value[c] else Null)
  }

  /** The cells of a row built by looking up each result column's position. */
  lemma JoinRowCells(l: Row, m: Option<Row>, left: seq<string>, key: string, right: seq<string>, out: Row)
    requires NoDuplicates(JoinColumns(left, key, right))
    requires forall c :: c in left ==> c in l
    requires m.Some? ==> forall c :: c in right ==> c in m.value
    requires forall c :: c in out <==> c in JoinColumns(left, key, right)
    requires forall c :: c in out ==>
      (IndexOf(JoinColumns(left, key, right), c) < |left| + |right| &&
       out[c] == JoinCell(IndexOf(JoinColumns(left, key, right), c), l, m, left, right))
    ensures JoinedFrom(out, l, m, left, key, right)
  {
    CellsAtPositions(l, m, left, key, right, out);
    LeftCellsPlaced(l, m, left, key, right, out);
    RightCellsPlaced(l, m, left, key, right, out);
  }

  /** A row holding the join cells at their positions has each left cell under its result name. */
  lemma LeftCellsPlaced(l: Row, m: Option<Row>, left: seq<string>, key: string, right: seq<string>, out: Row)
    requires forall c :: c in left ==> c in l
    requires m.Some? ==> forall c :: c in right ==> c in m.value
    requires forall k :: 0 <= k < |left| + |right| ==>
      JoinColumns(left, key, right)[k] in out &&
      out[JoinColumns(left, key, right)[k]] == JoinCell(k, l, m, left, right)
    ensures forall c {:trigger LeftName(c, key, right)} :: c in left ==>
      LeftName(c, key, right) in out && out[LeftName(c, key, right)] == l[c]
  {
    var cols := JoinColumns(left, key, right);
    forall c | c in left
      ensures LeftName(c, key, right) in out && out[LeftName(c, key, right)] == l[c]
    {
      var k := IndexOf(left, c);
      assert cols[k] == LeftName(c, key, right);
    }
  }

  /** A row holding the join cells at their positions has each right cell (or NaN) under its result name. */
  lemma RightCellsPlaced(l: Row, m: Option<Row>, left: seq<string>, key: string, right: seq<string>, out: Row)
    requires forall c :: c in left ==> c in l
    requires m.Some? ==> forall c :: c in right ==> c in m.value
    requires forall k :: 0 <= k < |left| + |right| ==>
      JoinColumns(left, key, right)[k] in out &&
      out[JoinColumns(left, key, right)[k]] == JoinCell(k, l, m, left, right)
    ensures forall c {:trigger RightName(c, left)} :: c in right ==>
      RightName(c, left) in out && out[RightName(c, left)] == if m.Some? then m.value[c] else Null
  {
    var cols := JoinColumns(left, key, right);
    forall c | c in right
      ensures RightName(c, left) in out && out[RightName(c, left)] == if m.Some? then m.value[c] else Null
    {
      var k := IndexOf(right, c);
      assert cols[|left| + k] == RightName(c, left);
      assert out[cols[|left| + k]] == JoinCell(|left| + k, l, m, left, right);
    }
  }

  /** Each result column, at its position k, holds the k-th join cell. */
  lemma CellsAtPositions(l: Row, m: Option<Row>, left: seq<string>, key: string, right: seq<string>, out: Row)
    requires NoDuplicates(JoinColumns(left, key, right))
    requires forall c :: c in left ==> c in l
    requires m.Some? ==> forall c :: c in right ==> c in m.value
    requires forall c :: c in out <==> c in JoinColumns(left, key, right)
    requires forall c :: c in out ==>
      (IndexOf(JoinColumns(left, key, right), c) < |left| + |right| &&
       out[c] == JoinCell(IndexOf(JoinColumns(left, key, right), c), l, m, left, right))
    ensures forall k :: 0 <= k < |left| + |right| ==>
      JoinColumns(left, key, right)[k] in out &&
      out[JoinColumns(left, key, right)[k]] == JoinCell(k, l, m, left, right)
  {
    var cols := JoinColumns(left, key, right);
    NoDuplicatesIsDistinct(cols);
    forall k | 0 <= k < |cols|
      ensures cols[k] in out && out[cols[k]] == JoinCell(k, l, m, left, right)
    {
      assert cols[IndexOf(cols, cols[k])] == cols[k];
    }
  }

  /** One result row, built column by column. */
  function JoinRow(l: Row, m: Option<Row>, left: seq<string>, key: string, right: seq<string>): (out: Row)
    requires NoDuplicates(JoinColumns(left, key, right))
    requires forall c :: c in left ==> c in l
    requires m.Some? ==> forall c :: c in right ==> c in m.value
    ensures JoinedFrom(out, l, m, left, key, right)
  {
    var cols := JoinColumns(left, key, right);
    var out := map c | c in cols :: JoinCell(IndexOf(cols, c), l, m, left, right);
    JoinRowCells(l, m, left, key, right, out);
    out
  }

  /** The right rows whose key equals v, in order. */
  function Matching(rows: seq<Row>, key: string, v: Cell): (ms: seq<Row>)
    ensures forall x :: x in ms <==> x in rows && key in x && x[key] == v
  {
    Where(rows, x => key in x && x[key] == v)
  }

  /** Every row has (at least) the columns cols. */
  predicate AllHave(rows: seq<Row>, cols: seq<string>) {
    forall i :: 0 <= i < |rows| ==> forall c :: c in cols ==> c in rows[i]
  }

  predicate RowsFit(cols: seq<string>, rows: seq<Row>) {
    forall i :: 0 <= i < |rows| ==> Fits(cols, rows[i])
  }

  /** The result rows of one left row: one per match, or one with NaN when nothing matches. */
  function RowsFor(l: Row, rs: seq<Row>, left: seq<string>, key: string, right: seq<string>): (out: seq<Row>)
    requires NoDuplicates(JoinColumns(left, key, right))
    requires forall c :: c in left ==> c in l
    requires key in left
    requires forall x :: x in rs ==> forall c :: c in right ==> c in x
    ensures |out| >= 1 && RowsFit(JoinColumns(left, key, right), out)
    ensures Matching(rs, key, l[key]) == [] ==> out == [JoinRow(l, None, left, key, right)]
    ensures |Matching(rs, key, l[key])| == 1 ==> out == [JoinRow(l, Some(Matching(rs, key, l[key])[0]), left, key, right)]
  {
    MatchesHave(rs, key, l[key], right);
    RowsOf(l, Matching(rs, key, l[key]), left, key, right)
  }

  /** The result rows of left row l with the matches ms. */
  function RowsOf(l: Row, ms: seq<Row>, left: seq<string>, key: string, right: seq<string>): (out: seq<Row>)
    requires NoDuplicates(JoinColumns(left, key, right))
    requires forall c :: c in left ==> c in l
    requires forall j :: 0 <= j < |ms| ==> forall c :: c in right ==> c in ms[j]
    ensures |out| >= 1 && RowsFit(JoinColumns(left, key, right), out)
    ensures ms == [] ==> out == [JoinRow(l, None, left, key, right)]
    ensures |ms| == 1 ==> out == [JoinRow(l, Some(ms[0]), left, key, right)]
  {
    if ms == [] then [JoinRow(l, None, left, key, right)]
    else
      var out := MatchRows(l, ms, left, key, right);
      assert |ms| == 1 ==> out == [out[0]];
      out
  }

  /** Every match of v has the columns every right row has. */
  lemma MatchesHave(rs: seq<Row>, key: string, v: Cell, right: seq<string>)
    requires forall x :: x in rs ==> forall c :: c in right ==> c in x
    ensures forall j :: 0 <= j < |Matching(rs, key, v)| ==> forall c :: c in right ==> c in Matching(rs, key, v)[j]
  {
    var ms := Matching(rs, key, v);
    assert forall j :: 0 <= j < |ms| ==> ms[j] in rs;
  }

  /** The left row l joined with each of the matches ms, in order. */
  function MatchRows(l: Row, ms: seq<Row>, left: seq<string>, key: string, right: seq<string>): (out: seq<Row>)
    requires NoDuplicates(JoinColumns(left, key, right))
    requires forall c :: c in left ==> c in l
    requires forall j :: 0 <= j < |ms| ==> forall c :: c in right ==> c in ms[j]
    ensures |out| == |ms| && RowsFit(JoinColumns(left, key, right), out)
    ensures forall j :: 0 <= j < |ms| ==> out[j] == JoinRow(l, Some(ms[j]), left, key, right)
  {
    var out := seq(|ms|, j requires 0 <= j < |ms| => JoinRow(l, Some(ms[j]), left, key, right));
    assert RowsFit(JoinColumns(left, key, right), out) by {
      forall j | 0 <= j < |out|
        ensures Fits(JoinColumns(left, key, right), out[j])
      {
        assert JoinedFrom(out[j], l, Some(ms[j]), left, key, right);
      }
    }
    out
  }

  function JoinRows(ls: seq<Row>, rs: seq<Row>, left: seq<string>, key: string, right: seq<string>): (out: seq<Row>)
    requires NoDuplicates(JoinColumns(left, key, right))
    requires key in left
    requires AllHave(ls, left)
    requires forall x :: x in rs ==> forall c :: c in right ==> c in x
    decreases |ls|
  {
    if ls == [] then []
    else RowsFor(ls[0], rs, left, key, right) + JoinRows(ls[1..], rs, left, key, right)
  }

  /** Every joined row has exactly the joined columns. */
  lemma {:induction false} JoinRowsFit(ls: seq<Row>, rs: seq<Row>, left: seq<string>, key: string, right: seq<string>)
    requires NoDuplicates(JoinColumns(left, key, right))
    requires key in left
    requires AllHave(ls, left)
    requires forall x :: x in rs ==> forall c :: c in right ==> c in x
    ensures RowsFit(JoinColumns(left, key, right), JoinRows(ls, rs, left, key, right))
    decreases |ls|
  {
    if ls != [] {
      JoinRowsFit(ls[1..], rs, left, key, right);
      var head := RowsFor(ls[0], rs, left, key, right);
      var rest := JoinRows(ls[1..], rs, left, key, right);
      assert JoinRows(ls, rs, left, key, right) == head + rest;
    }
  }

  /** Every key occurs at most once among the rows. */
  predicate UniqueKeys(rows: seq<Row>, key: string) {
    forall i, j :: 0 <= i < j < |rows| && key in rows[i] && key in rows[j] ==> rows[i][key] != rows[j][key]
  }

  /**
    `left.merge(right, on=key, how='left')` where `right` holds the key and the
    value columns `values`. Raises when suffixing would repeat a column name.
  */
  function LeftJoin(l: Table, r: Table, key: string, values: seq<string>): (res: Result<Table>)
    requires Valid(l) && Valid(r) && key in l.columns && key !in values
    requires forall c :: c in values ==> c in r.columns
    ensures res.Err? <==> !NoDuplicates(JoinColumns(l.columns, key, values))
    ensures res.Err? ==> res.error == DuplicateColumns
    ensures res.Ok? ==> Valid(res.value) && res.value.columns == JoinColumns(l.columns, key, values)
    ensures res.Ok? ==> |res.value.rows| >= |l.rows|
  {
    var cols := JoinColumns(l.columns, key, values);
    if !NoDuplicates(cols) then Err(DuplicateColumns)
    else
      assert forall x :: x in r.rows ==> Fits(r.columns, x);
      JoinRowsFit(l.rows, r.rows, l.columns, key, values);
      JoinKeepsRows(l.rows, r.rows, l.columns, key, values);
      Ok(Table(cols, JoinRows(l.rows, r.rows, l.columns, key, values)))
  }

  /** A left join keeps every left row: at least as many rows come out as went in. */
  lemma {:induction false} JoinKeepsRows(ls: seq<Row>, rs: seq<Row>, left: seq<string>, key: string, right: seq<string>)
    requires NoDuplicates(JoinColumns(left, key, right))
    requires key in left
    requires AllHave(ls, left)
    requires forall x :: x in rs ==> forall c :: c in right ==> c in x
    ensures |JoinRows(ls, rs, left, key, right)| >= |ls|
    decreases |ls|
  {
    if ls != [] {
      JoinKeepsRows(ls[1..], rs, left, key, right);
    }
  }

  /** The result rows of one left row: joined once with each match, or once NaN-filled when nothing matches. */
  lemma RowsForCover(l: Row, rs: seq<Row>, left: seq<string>, key: string, right: seq<string>)
    requires NoDuplicates(JoinColumns(left, key, right))
    requires forall c :: c in left ==> c in l
    requires key in left
    requires forall x :: x in rs ==> forall c :: c in right ==> c in x
    ensures Matching(rs, key, l[key]) == [] ==> JoinRow(l, None, left, key, right) in RowsFor(l, rs, left, key, right)
    ensures forall m :: m in Matching(rs, key, l[key]) ==> JoinRow(l, Some(m), left, key, right) in RowsFor(l, rs, left, key, right)
  {
    var ms := Matching(rs, key, l[key]);
    var out := RowsFor(l, rs, left, key, right);
    MatchesHave(rs, key, l[key], right);
    assert out == RowsOf(l, ms, left, key, right);
    forall m | m in ms
      ensures JoinRow(l, Some(m), left, key, right) in out
    {
      var j :| 0 <= j < |ms| && ms[j] == m;
      assert out[j] == JoinRow(l, Some(ms[j]), left, key, right);
    }
  }

  /** The result rows of left row i are among the join's rows. */
  lemma {:induction false} JoinRowsCoverAt(ls: seq<Row>, rs: seq<Row>, left: seq<string>, key: string, right: seq<string>, i: nat)
    requires NoDuplicates(JoinColumns(left, key, right))
    requires key in left
    requires AllHave(ls, left)
    requires forall x :: x in rs ==> forall c :: c in right ==> c in x
    requires i < |ls|
    ensures forall o :: o in RowsFor(ls[i], rs, left, key, right) ==> o in JoinRows(ls, rs, left, key, right)
    decreases i
  {
    var head := RowsFor(ls[0], rs, left, key, right);
    var tail := ls[1..];
    var rest := JoinRows(tail, rs, left, key, right);
    assert JoinRows(ls, rs, left, key, right) == head + rest;
    if i > 0 {
      assert AllHave(tail, left);
      JoinRowsCoverAt(tail, rs, left, key, right, i - 1);
      assert ls[i] == tail[i - 1];
    }
  }

  /**
    A left join loses no left row: each comes out once joined with each of
    its matches, or once with NaN on the right when nothing matches.
  */
  lemma JoinRowsCover(ls: seq<Row>, rs: seq<Row>, left: seq<string>, key: string, right: seq<string>)
    requires NoDuplicates(JoinColumns(left, key, right))
    requires key in left
    requires AllHave(ls, left)
    requires forall x :: x in rs ==> forall c :: c in right ==> c in x
    ensures forall i :: 0 <= i < |ls| && Matching(rs, key, ls[i][key]) == [] ==>
      JoinRow(ls[i], None, left, key, right) in JoinRows(ls, rs, left, key, right)
    ensures forall i, m :: 0 <= i < |ls| && m in Matching(rs, key, ls[i][key]) ==>
      JoinRow(ls[i], Some(m), left, key, right) in JoinRows(ls, rs, left, key, right)
  {
    forall i | 0 <= i < |ls|
      ensures Matching(rs, key, ls[i][key]) == [] ==> JoinRow(ls[i], None, left, key, right) in JoinRows(ls, rs, left, key, right)
      ensures forall m :: m in Matching(rs, key, ls[i][key]) ==> JoinRow(ls[i], Some(m), left, key, right) in JoinRows(ls, rs, left, key, right)
    {
      JoinRowsCoverAt(ls, rs, left, key, right, i);
      RowsForCover(ls[i], rs, left, key, right);
    }
  }

  /** No row has the key value v: nothing matches. */
  lemma NoMatching(rs: seq<Row>, key: string, v: Cell)
    requires forall q :: 0 <= q < |rs| && key in rs[q] ==> rs[q][key] != v
    ensures Matching(rs, key, v) == []
  {
  }

  /** The rows of a successful left join are the joined rows of the left rows, in order. */
  lemma LeftJoinRows(l: Table, r: Table, key: string, values: seq<string>)
    requires Valid(l) && Valid(r) && key in l.columns && key !in values
    requires forall c :: c in values ==> c in r.columns
    requires LeftJoin(l, r, key, values).Ok?
    ensures NoDuplicates(JoinColumns(l.columns, key, values)) && AllHave(l.rows, l.columns)
    ensures forall x :: x in r.rows ==> forall c :: c in values ==> c in x
    ensures LeftJoin(l, r, key, values).value.rows == JoinRows(l.rows, r.rows, l.columns, key, values)
  {
    assert forall x :: x in r.rows ==> Fits(r.columns, x);
  }

  /** A left row joined with one of its matches, or NaN-filled when it has none, is a row of the left join. */
  lemma LeftJoinRowIn(l: Table, r: Table, key: string, values: seq<string>, lrow: Row, mrow: Option<Row>)
    requires Valid(l) && Valid(r) && key in l.columns && key !in values
    requires forall c :: c in values ==> c in r.columns
    requires LeftJoin(l, r, key, values).Ok? && lrow in l.rows
    requires mrow.Some? ==> mrow.value in Matching(r.rows, key, lrow[key])
    requires mrow.None? ==> Matching(r.rows, key, lrow[key]) == []
    ensures NoDuplicates(JoinColumns(l.columns, key, values))
    ensures forall c :: c in l.columns ==> c in lrow
    ensures mrow.Some? ==> forall c :: c in values ==> c in mrow.value
    ensures JoinRow(lrow, mrow, l.columns, key, values) in LeftJoin(l, r, key, values).value.rows
  {
    assert forall x :: x in r.rows ==> Fits(r.columns, x);
    LeftJoinRows(l, r, key, values);
    var i :| 0 <= i < |l.rows| && l.rows[i] == lrow;
    assert AllHave(l.rows, l.columns);
    JoinRowsCoverAt(l.rows, r.rows, l.columns, key, values, i);
    RowsForCover(lrow, r.rows, l.columns, key, values);
  }

  /** Unique keys stay unique without the first row. */
  lemma UniqueKeysTail(rs: seq<Row>, key: string)
    requires rs != [] && UniqueKeys(rs, key)
    ensures UniqueKeys(rs[1..], key)
  {
    var tail := rs[1..];
    assert forall i :: 0 <= i < |tail| ==> tail[i] == rs[i + 1];
  }

  /** With unique keys, no row after the first shares the first row's key. */
  lemma NoLaterMatch(rs: seq<Row>, key: string, v: Cell)
    requires rs != [] && UniqueKeys(rs, key) && key in rs[0] && rs[0][key] == v
    ensures Matching(rs[1..], key, v) == []
  {
    var tail := rs[1..];
    forall x | x in tail
      ensures !(key in x && x[key] == v)
    {
      var j :| 0 <= j < |tail| && tail[j] == x;
      assert x == rs[j + 1];
    }
  }

  /** With unique right keys a key matches at most one row. */
  lemma {:induction false} UniqueMatch(rs: seq<Row>, key: string, v: Cell)
    requires UniqueKeys(rs, key)
    ensures |Matching(rs, key, v)| <= 1
    decreases |rs|
  {
    if rs != [] {
      var keep := x => key in x && x[key] == v;
      assert Where(rs, keep) == (if keep(rs[0]) then [rs[0]] else []) + Where(rs[1..], keep);
      UniqueKeysTail(rs, key);
      if keep(rs[0]) {
        NoLaterMatch(rs, key, v);
      } else {
        UniqueMatch(rs[1..], key, v);
      }
    }
  }

  /** The first right row whose key equals v, if any. */
  function FirstMatch(rs: seq<Row>, key: string, v: Cell): (o: Option<Row>)
    ensures o.None? <==> Matching(rs, key, v) == []
    ensures o.Some? ==> o.value in rs && key in o.value && o.value[key] == v
  {
    var ms := Matching(rs, key, v);
    if ms == [] then None
    else
      assert ms[0] in ms;
      Some(ms[0])
  }

  /** With unique right keys a left row gives exactly one result row, joined with its first match. */
  lemma UniqueRowsFor(l: Row, rs: seq<Row>, left: seq<string>, key: string, right: seq<string>)
    requires NoDuplicates(JoinColumns(left, key, right))
    requires forall c :: c in left ==> c in l
    requires key in left
    requires forall x :: x in rs ==> forall c :: c in right ==> c in x
    requires UniqueKeys(rs, key)
    ensures RowsFor(l, rs, left, key, right) == [JoinRow(l, FirstMatch(rs, key, l[key]), left, key, right)]
  {
    UniqueMatch(rs, key, l[key]);
  }


  /** Each left row joined with its first match: what the join is when right keys are unique. */
  function UniqueJoin(ls: seq<Row>, rs: seq<Row>, left: seq<string>, key: string, right: seq<string>): (out: seq<Row>)
    requires NoDuplicates(JoinColumns(left, key, right))
    requires key in left
    requires AllHave(ls, left)
    requires forall x :: x in rs ==> forall c :: c in right ==> c in x
    ensures |out| == |ls|
    decreases |ls|
  {
    if ls == [] then []
    else [JoinRow(ls[0], FirstMatch(rs, key, ls[0][key]), left, key, right)] + UniqueJoin(ls[1..], rs, left, key, right)
  }

  /** With unique right keys the join gives each left row exactly its first match. */
  lemma {:induction false} JoinRowsUnique(ls: seq<Row>, rs: seq<Row>, left: seq<string>, key: string, right: seq<string>)
    requires NoDuplicates(JoinColumns(left, key, right))
    requires key in left
    requires AllHave(ls, left)
    requires forall x :: x in rs ==> forall c :: c in right ==> c in x
    requires UniqueKeys(rs, key)
    ensures JoinRows(ls, rs, left, key, right) == UniqueJoin(ls, rs, left, key, right)
    decreases |ls|
  {
    if ls != [] {
      UniqueRowsFor(ls[0], rs, left, key, right);
      JoinRowsUnique(ls[1..], rs, left, key, right);
    }
  }

  /** Row i of UniqueJoin is left row i joined with its first match. */
  lemma {:induction false} UniqueJoinAt(ls: seq<Row>, rs: seq<Row>, left: seq<string>, key: string, right: seq<string>, i: nat)
    requires NoDuplicates(JoinColumns(left, key, right))
    requires key in left
    requires AllHave(ls, left)
    requires forall x :: x in rs ==> forall c :: c in right ==> c in x
    requires i < |ls|
    ensures UniqueJoin(ls, rs, left, key, right)[i] == JoinRow(ls[i], FirstMatch(rs, key, ls[i][key]), left, key, right)
    decreases i
  {
    if i > 0 {
      var tail := ls[1..];
      assert AllHave(tail, left);
      UniqueJoinAt(tail, rs, left, key, right, i - 1);
      var u := UniqueJoin(tail, rs, left, key, right);
      assert UniqueJoin(ls, rs, left, key, right) == [JoinRow(ls[0], FirstMatch(rs, key, ls[0][key]), left, key, right)] + u;
      assert UniqueJoin(ls, rs, left, key, right)[i] == u[i - 1];
      assert ls[i] == tail[i - 1];
    }
  }

  /**
    With unique right keys the join is row for row: result row i is left row i
    with its match's values (or NaN).
  */
  lemma JoinUniqueIsRowForRow(ls: seq<Row>, rs: seq<Row>, left: seq<string>, key: string, right: seq<string>)
    requires NoDuplicates(JoinColumns(left, key, right))
    requires key in left
    requires AllHave(ls, left)
    requires forall x :: x in rs ==> forall c :: c in right ==> c in x
    requires UniqueKeys(rs, key)
    ensures |JoinRows(ls, rs, left, key, right)| == |ls|
    ensures forall i :: 0 <= i < |ls| ==>
      JoinedFrom(JoinRows(ls, rs, left, key, right)[i], ls[i], FirstMatch(rs, key, ls[i][key]), left, key, right)
  {
    JoinRowsUnique(ls, rs, left, key, right);
    forall i | 0 <= i < |ls|
      ensures JoinedFrom(UniqueJoin(ls, rs, left, key, right)[i], ls[i], FirstMatch(rs, key, ls[i][key]), left, key, right)
    {
      UniqueJoinAt(ls, rs, left, key, right, i);
    }
  }

  /** The same on tables: with unique right keys, a successful left join is row for row. */
  lemma LeftJoinUnique(l: Table, r: Table, key: string, values: seq<string>)
    requires Valid(l) && Valid(r) && key in l.columns && key !in values
    requires forall c :: c in values ==> c in r.columns
    requires LeftJoin(l, r, key, values).Ok? && UniqueKeys(r.rows, key)
    ensures var j := LeftJoin(l, r, key, values).value;
      |j.rows| == |l.rows| && forall i :: 0 <= i < |l.rows| ==>
        JoinedFrom(j.rows[i], l.rows[i], FirstMatch(r.rows, key, l.rows[i][key]), l.columns, key, values)
  {
    assert forall x :: x in r.rows ==> Fits(r.columns, x);
    JoinUniqueIsRowForRow(l.rows, r.rows, l.columns, key, values);
  }
}
