/**
  The data loader: reads the VFM CSV and the grid-to-district mapping, checks
  their required columns, normalises grid ids, fills in the 0-100 VFM score
  when the file lacks one, joins districts and coordinates, and summarises.
  The CSV files are the host's already parsed tables.
*/
module DataLoader {
  import opened Frames
  import opened PyStr
  import opened FramesMerge

  const VfmMonthlyPath := "./output/vfm_analysis/vfm_monthly_full_2024-12_with_rent.csv"
  const VfmJeonsePath := "./output/vfm_analysis/vfm_jeonse_full_2024-12_with_rent.csv"
  const GridMappingPath := "./data/grid_district_mapping.csv"

  const ScoreColumns: seq<string> := [
    "trans_index", "conv_index", "env_index", "safety_score_scaled", "grid_crime_index", "mlp_value_score"]

  /** The `_norm` companions of the score columns, in the same order. */
  const NormColumns: seq<string> := [
    "trans_index_norm", "conv_index_norm", "env_index_norm", "safety_score_scaled_norm",
    "grid_crime_index_norm", "mlp_value_score_norm"]

  const RequiredVfmColumns: seq<string> := ["grid_id"] + ScoreColumns
  const RequiredMappingColumns: seq<string> := ["grid_id", "district"]

  /** The district given to a grid the mapping does not know. */
  const UnclassifiedLabel := "\U{1F50D} 미분류"
  /** The district set when joining districts fails. */
  const NoInfoLabel := "정보 없음"

  /** Every CSV the host can read parses to a well-formed table. */
  predicate HostValid(host: Host) {
    forall p :: p in host.files ==> Valid(host.files[p])
  }

  function VfmPath(contractType: string): string {
    if contractType == "monthly" then VfmMonthlyPath else VfmJeonsePath
  }

  // ---------------------------------------------------------------------
  // Required columns

  /** `[col for col in required if col not in columns]` */
  function MissingFrom(required: seq<string>, columns: seq<string>): (m: seq<string>)
    ensures |m| <= |required|
    ensures forall c :: c in m <==> c in required && c !in columns
  {
    if required == [] then []
    else (if required[0] in columns then [] else [required[0]]) + MissingFrom(required[1..], columns)
  }

  /** The missing names keep the order of the required list: the filter distributes over concatenation. */
  lemma {:induction false} MissingFromAppend(a: seq<string>, b: seq<string>, columns: seq<string>)
    ensures MissingFrom(a + b, columns) == MissingFrom(a, columns) + MissingFrom(b, columns)
    decreases |a|
  {
    if a != [] {
      assert (a + b)[0] == a[0];
      assert (a + b)[1..] == a[1..] + b;
      MissingFromAppend(a[1..], b, columns);
    } else {
      assert a + b == b;
    }
  }

  /** Nothing missing: the grid id and every score column are there. */
  lemma RequiredPresent(columns: seq<string>)
    requires MissingFrom(RequiredVfmColumns, columns) == []
    ensures forall c :: c in RequiredVfmColumns ==> c in columns
    ensures "grid_id" in columns && forall c :: c in ScoreColumns ==> c in columns
  {
    assert forall c :: c in ScoreColumns ==> c in RequiredVfmColumns;
  }

  // ---------------------------------------------------------------------
  // Grid ids

  /** `str(cell)`: a float through Python's formatting, NaN as "nan". */
  function AsStr(c: Cell, showNum: real -> string): string {
    match c
    case Text(s) => s
    case Num(v) => showNum(v)
    case Null => "nan"
  }

  /** `df['grid_id'] = df['grid_id'].astype(str).str.strip()` */
  function StrippedIds(t: Table, showNum: real -> string): (r: Table)
    requires Valid(t) && "grid_id" in t.columns
    ensures Valid(r) && r.columns == t.columns && |r.rows| == |t.rows|
    ensures forall i :: 0 <= i < |t.rows| ==>
      r.rows[i] == t.rows[i]["grid_id" := Text(Strip(AsStr(t.rows[i]["grid_id"], showNum)))]
  {
    SetColumn(t, "grid_id", seq(|t.rows|, i requires 0 <= i < |t.rows| =>
      Text(Strip(AsStr(t.rows[i]["grid_id"], showNum)))))
  }

  /** Every grid id is a string without surrounding whitespace. */
  predicate IdsStripped(t: Table) {
    && "grid_id" in t.columns
    && forall i :: 0 <= i < |t.rows| ==>
         "grid_id" in t.rows[i] && t.rows[i]["grid_id"].Text? && IsStripped(t.rows[i]["grid_id"].s)
  }

  /** Row i of t has the stripped id of row i of raw. */
  predicate IdsFrom(raw: Table, t: Table, showNum: real -> string)
    requires Valid(raw) && "grid_id" in raw.columns
  {
    && |t.rows| == |raw.rows|
    && forall i :: 0 <= i < |raw.rows| ==>
         "grid_id" in t.rows[i] && t.rows[i]["grid_id"] == Text(Strip(AsStr(raw.rows[i]["grid_id"], showNum)))
  }

  lemma StrippedIdsAreStripped(t: Table, showNum: real -> string)
    requires Valid(t) && "grid_id" in t.columns
    ensures IdsStripped(StrippedIds(t, showNum))
  {
  }

  /** A row whose id is already a stripped string is its own stripped row. */
  lemma StrippedRowFixed(row: Row, showNum: real -> string)
    requires "grid_id" in row && row["grid_id"].Text? && IsStripped(row["grid_id"].s)
    ensures row["grid_id" := Text(Strip(AsStr(row["grid_id"], showNum)))] == row
  {
    var id := row["grid_id"];
    assert AsStr(id, showNum) == id.s;
    StrippedFixed(id.s);
    assert Text(Strip(AsStr(id, showNum))) == id;
  }

  /** Stripping ids that are already stripped changes nothing (the merge re-strips loaded tables). */
  lemma {:induction false} StrippedIdsIdempotent(t: Table, showNum: real -> string)
    requires Valid(t) && IdsStripped(t)
    ensures StrippedIds(t, showNum) == t
  {
    var r := StrippedIds(t, showNum);
    forall i | 0 <= i < |t.rows|
      ensures r.rows[i] == t.rows[i]
    {
      StrippedRowFixed(t.rows[i], showNum);
    }
    assert r.rows == t.rows;
  }

  // ---------------------------------------------------------------------
  // Min-max normalisation

  /** Every cell holds the same string: min and max are that string and do not differ. */
  predicate OneText(col: seq<Cell>) {
    |col| > 0 && col[0].Text? && forall i :: 0 <= i < |col| ==> col[i] == col[0]
  }

  /**
    The loop body normalises the column without raising: min and max fail on
    a string beside a number or a NaN, and subtracting the minimum fails on
    strings that differ, so only a column without strings or a column of one
    repeated string gets through.
  */
  predicate Normalizable(col: seq<Cell>) {
    NoText(col) || OneText(col)
  }

  /** The column has values and they are not all equal. */
  predicate Spread(col: seq<Cell>) {
    |Nums(col)| > 0 && MaxOf(Nums(col)) > MinOf(Nums(col))
  }

  /** `(x - min) / (max - min) * 100` */
  function Scaled(x: real, lo: real, hi: real): real
    requires lo < hi
  {
    (x - lo) / (hi - lo) * 100.0
  }

  lemma ScaledRange(x: real, lo: real, hi: real)
    requires lo <= x <= hi && lo < hi
    ensures 0.0 <= Scaled(x, lo, hi) <= 100.0
  {
    var d := hi - lo;
    var q := (x - lo) / d;
    assert q * d == x - lo;
    assert 0.0 <= q;
    var p := 1.0 - q;
    assert p * d == hi - x;
    assert 0.0 <= p;
  }

  lemma ScaledEnds(lo: real, hi: real)
    requires lo < hi
    ensures Scaled(lo, lo, hi) == 0.0 && Scaled(hi, lo, hi) == 100.0
  {
    assert (hi - lo) / (hi - lo) == 1.0;
  }

  lemma ScaledMonotone(x: real, y: real, lo: real, hi: real)
    requires lo < hi && x <= y
    ensures Scaled(x, lo, hi) <= Scaled(y, lo, hi)
  {
    var d := hi - lo;
    var qx, qy := (x - lo) / d, (y - lo) / d;
    assert qx * d == x - lo && qy * d == y - lo;
    assert (qy - qx) * d == y - x;
    assert 0.0 <= qy - qx;
  }

  /** A column with spread holds a number, so no repeated string: it holds no string at all. */
  lemma SpreadIsNumeric(col: seq<Cell>)
    requires Normalizable(col) && Spread(col)
    ensures NoText(col)
  {
    var x := Nums(col)[0];
    assert x in Nums(col);
    var i :| 0 <= i < |col| && col[i] == Num(x);
    assert !col[i].Text?;
  }

  /**
    The `_norm` column of a score column: min-max scaled to [0, 100] when the
    column spreads (NaN stays NaN), 50.0 everywhere otherwise (a column of
    one repeated string included).
  */
  function Normalize(col: seq<Cell>): (r: seq<Cell>)
    requires Normalizable(col)
    ensures |r| == |col| && NoText(r)
  {
    if Spread(col) then
      var lo, hi := MinOf(Nums(col)), MaxOf(Nums(col));
      seq(|col|, i requires 0 <= i < |col| => if col[i].Num? then Num(Scaled(col[i].v, lo, hi)) else Null)
    else
      Const(|col|, Num(50.0))
  }

  /** The cell Normalize gives row i. */
  lemma NormalizeAt(col: seq<Cell>, i: int)
    requires Normalizable(col) && 0 <= i < |col|
    ensures Spread(col) && col[i].Num? ==>
      Normalize(col)[i] == Num(Scaled(col[i].v, MinOf(Nums(col)), MaxOf(Nums(col))))
    ensures Spread(col) && col[i].Null? ==> Normalize(col)[i] == Null
    ensures !Spread(col) ==> Normalize(col)[i] == Num(50.0)
  {
  }

  /**
    Every normalised value lies in [0, 100], and a normalised cell is NaN
    exactly where the column spreads and the input cell is NaN.
  */
  lemma NormalizeRange(col: seq<Cell>)
    requires Normalizable(col)
    ensures forall i :: 0 <= i < |col| && Normalize(col)[i].Num? ==> 0.0 <= Normalize(col)[i].v <= 100.0
    ensures forall i :: 0 <= i < |col| ==> (Normalize(col)[i].Null? <==> Spread(col) && col[i].Null?)
  {
    forall i | 0 <= i < |col|
      ensures Normalize(col)[i].Num? ==> 0.0 <= Normalize(col)[i].v <= 100.0
      ensures Normalize(col)[i].Null? <==> Spread(col) && col[i].Null?
    {
      NormalizeAt(col, i);
      if Spread(col) {
        SpreadIsNumeric(col);
      }
      if Spread(col) && col[i].Num? {
        var xs := Nums(col);
        assert col[i].v in xs;
        ScaledRange(col[i].v, MinOf(xs), MaxOf(xs));
      }
    }
  }

  /** A column without spread (constant, or all NaN) normalises to 50.0 everywhere. */
  lemma NormalizeConstant(col: seq<Cell>)
    requires Normalizable(col) && !Spread(col)
    ensures Normalize(col) == Const(|col|, Num(50.0))
  {
  }

  /** Where the column spreads, its minimum maps to 0 and its maximum to 100. */
  lemma NormalizeEnds(col: seq<Cell>, i: int)
    requires NoText(col) && Spread(col) && 0 <= i < |col| && col[i].Num?
    ensures col[i].v == MinOf(Nums(col)) ==> Normalize(col)[i] == Num(0.0)
    ensures col[i].v == MaxOf(Nums(col)) ==> Normalize(col)[i] == Num(100.0)
  {
    NormalizeAt(col, i);
    ScaledEnds(MinOf(Nums(col)), MaxOf(Nums(col)));
  }

  /** Normalisation keeps the order of the values. */
  lemma NormalizeMonotone(col: seq<Cell>, i: int, j: int)
    requires NoText(col) && 0 <= i < |col| && 0 <= j < |col| && col[i].Num? && col[j].Num?
    requires col[i].v <= col[j].v
    ensures Normalize(col)[i].v <= Normalize(col)[j].v
  {
    NormalizeAt(col, i);
    NormalizeAt(col, j);
    if Spread(col) {
      ScaledMonotone(col[i].v, col[j].v, MinOf(Nums(col)), MaxOf(Nums(col)));
    }
  }

  function NormName(c: string): string {
    c + "_norm"
  }

  lemma NormNameInjective(a: string, b: string)
    requires NormName(a) == NormName(b)
    ensures a == b
  {
    assert |a| == |b|;
    assert a == NormName(a)[..|a|];
    assert b == NormName(b)[..|b|];
  }

  /** The `_norm` names are the score columns' companions, in order. */
  lemma NormColumnsNamed()
    ensures |NormColumns| == |ScoreColumns|
    ensures forall j :: 0 <= j < |ScoreColumns| ==> NormColumns[j] == NormName(ScoreColumns[j])
  {
    forall j | 0 <= j < |ScoreColumns|
      ensures NormColumns[j] == NormName(ScoreColumns[j])
    {
    }
  }

  /** No two score columns, and no two `_norm` columns, share a name (their lengths already differ). */
  lemma ColumnNamesDistinct()
    ensures Distinct(ScoreColumns) && Distinct(NormColumns)
  {
    assert forall i, j :: 0 <= i < j < |ScoreColumns| ==> |ScoreColumns[i]| != |ScoreColumns[j]|;
    assert forall i, j :: 0 <= i < j < |NormColumns| ==> |NormColumns[i]| != |NormColumns[j]|;
  }

  /** No `_norm` name is a score column or the grid id, and the grid id is no score column. */
  lemma NormColumnsFresh()
    ensures forall c :: c in NormColumns ==> c !in ScoreColumns && c != "grid_id"
    ensures "grid_id" !in ScoreColumns
  {
    forall c | c in NormColumns
      ensures c !in ScoreColumns && c != "grid_id"
    {
      assert c[|c| - 1] == 'm';
    }
  }

  /** One iteration of the normalisation loop on column c. */
  function AddNorm(t: Table, c: string): (r: Result<Table>)
    requires Valid(t)
    ensures r.Ok? ==> Valid(r.value) && |r.value.rows| == |t.rows|
    ensures r.Err? <==> c in t.columns && !Normalizable(Column(t, c))
    ensures r.Err? ==> r.error == TypeError
    ensures c !in t.columns ==> r == Ok(t)
  {
    if c !in t.columns then Ok(t)
    else if !Normalizable(Column(t, c)) then Err(TypeError)
    else Ok(SetColumn(t, NormName(c), Normalize(Column(t, c))))
  }

  /** A column of one repeated string raises nothing and normalises to 50.0 everywhere. */
  lemma AddNormOneText(t: Table, c: string)
    requires Valid(t) && c in t.columns && OneText(Column(t, c))
    ensures AddNorm(t, c) == Ok(SetColumn(t, NormName(c), Const(|t.rows|, Num(50.0))))
  {
    var col := Column(t, c);
    assert forall x :: x !in Nums(col);
    NormalizeConstant(col);
  }

  /** The table after the first k iterations of the normalisation loop. */
  function NormalizedUpTo(t: Table, k: nat): (r: Result<Table>)
    requires Valid(t) && k <= |ScoreColumns|
    ensures r.Ok? ==> Valid(r.value) && |r.value.rows| == |t.rows|
  {
    if k == 0 then Ok(t)
    else match NormalizedUpTo(t, k - 1)
      case Err(e) => Err(e)
      case Ok(u) => AddNorm(u, ScoreColumns[k - 1])
  }

  /** Once an iteration fails the loop has failed with that error. */
  lemma {:induction false} NormalizedErrSticks(t: Table, k: nat, m: nat)
    requires Valid(t) && k <= m <= |ScoreColumns| && NormalizedUpTo(t, k).Err?
    ensures NormalizedUpTo(t, m) == NormalizedUpTo(t, k)
    decreases m - k
  {
    if k < m {
      assert NormalizedUpTo(t, k + 1) == NormalizedUpTo(t, k);
      NormalizedErrSticks(t, k + 1, m);
    }
  }

  /** The loop over the score columns in load_vfm_data. */
  method NormalizeScores(t: Table) returns (r: Result<Table>)
    requires Valid(t)
    ensures r == NormalizedUpTo(t, |ScoreColumns|)
  {
    var u := t;
    var k := 0;
    while k < |ScoreColumns|
      invariant 0 <= k <= |ScoreColumns|
      invariant NormalizedUpTo(t, k) == Ok(u)
    {
      var c := ScoreColumns[k];
      assert NormalizedUpTo(t, k + 1) == AddNorm(u, c);
      if c in u.columns {
        var col := Column(u, c);
        if !Normalizable(col) {
          assert NormalizedUpTo(t, k + 1) == Err(TypeError);
          NormalizedErrSticks(t, k + 1, |ScoreColumns|);
          return Err(TypeError);
        }
        u := SetColumn(u, NormName(c), Normalize(col));
      }
      assert NormalizedUpTo(t, k + 1) == Ok(u);
      k := k + 1;
    }
    return Ok(u);
  }

  /** A score column among the first k that the loop cannot normalise. */
  predicate BadScoreBefore(t: Table, k: nat)
    requires Valid(t) && k <= |ScoreColumns|
  {
    exists j :: 0 <= j < k && ScoreColumns[j] in t.columns && !Normalizable(Column(t, ScoreColumns[j]))
  }

  /** After k successful iterations the input columns are all there and only `_norm` columns were added. */
  lemma {:induction false} NormalizedColumns(t: Table, k: nat)
    requires Valid(t) && k <= |ScoreColumns| && NormalizedUpTo(t, k).Ok?
    ensures var u := NormalizedUpTo(t, k).value;
      && (forall c :: c in t.columns ==> c in u.columns)
      && (forall c :: c in u.columns ==> c in t.columns || c in NormColumns)
  {
    if k > 0 {
      NormColumnsNamed();
      var c := ScoreColumns[k - 1];
      assert NormalizedUpTo(t, k - 1).Ok?;
      NormalizedColumns(t, k - 1);
    }
  }

  /** After k successful iterations every input column that is not a `_norm` name is untouched. */
  lemma {:induction false} NormalizedUntouched(t: Table, k: nat)
    requires Valid(t) && k <= |ScoreColumns| && NormalizedUpTo(t, k).Ok?
    ensures forall c :: c in t.columns && c !in NormColumns ==>
      c in NormalizedUpTo(t, k).value.columns && Column(NormalizedUpTo(t, k).value, c) == Column(t, c)
  {
    if k > 0 {
      NormColumnsNamed();
      var c := ScoreColumns[k - 1];
      assert NormalizedUpTo(t, k - 1).Ok?;
      NormalizedColumns(t, k - 1);
      NormalizedUntouched(t, k - 1);
      var u := NormalizedUpTo(t, k - 1).value;
      if c in u.columns && Normalizable(Column(u, c)) {
        OthersOfSet(u, NormName(c), Normalize(Column(u, c)));
      }
    }
  }

  /**
    After k successful iterations the `_norm` column of a present score column
    j among the first k is the normalisation of the input column.
  */
  lemma {:induction false} NormalizedKeepsAt(t: Table, k: nat, j: nat)
    requires Valid(t) && j < k <= |ScoreColumns| && NormalizedUpTo(t, k).Ok? && ScoreColumns[j] in t.columns
    ensures Normalizable(Column(t, ScoreColumns[j]))
    ensures NormColumns[j] in NormalizedUpTo(t, k).value.columns
    ensures Column(NormalizedUpTo(t, k).value, NormColumns[j]) == Normalize(Column(t, ScoreColumns[j]))
  {
    NormalizedFails(t, k);
    assert !(ScoreColumns[j] in t.columns && !Normalizable(Column(t, ScoreColumns[j])));
    NormColumnsNamed();
    var c := ScoreColumns[k - 1];
    var n := NormName(c);
    var prev := NormalizedUpTo(t, k - 1);
    assert prev.Ok?;
    var u := prev.value;
    assert NormalizedUpTo(t, k) == AddNorm(u, c);
    if j == k - 1 {
      NormColumnsFresh();
      NormalizedUntouched(t, k - 1);
      assert c in u.columns && Column(u, c) == Column(t, c);
      AddNormAdds(u, c);
    } else {
      ColumnNamesDistinct();
      NormalizedKeepsAt(t, k - 1, j);
      assert NormColumns[j] != n;
      AddNormKeeps(u, c, NormColumns[j]);
    }
  }

  /** A successful iteration on a present column c adds its normalisation as `c_norm`. */
  lemma AddNormAdds(u: Table, c: string)
    requires Valid(u) && AddNorm(u, c).Ok? && c in u.columns
    ensures NormName(c) in AddNorm(u, c).value.columns
    ensures Column(AddNorm(u, c).value, NormName(c)) == Normalize(Column(u, c))
  {
    ColumnOfSet(u, NormName(c), Normalize(Column(u, c)), NormName(c));
  }

  /** A successful iteration on column c leaves every column but `c_norm` as it was. */
  lemma AddNormKeeps(u: Table, c: string, d: string)
    requires Valid(u) && AddNorm(u, c).Ok? && d in u.columns && d != NormName(c)
    ensures d in AddNorm(u, c).value.columns && Column(AddNorm(u, c).value, d) == Column(u, d)
  {
    if c in u.columns {
      ColumnOfSet(u, NormName(c), Normalize(Column(u, c)), d);
    }
  }

  /**
    After k successful iterations each present score column among the first k
    can be normalised and has its `_norm` column, the normalisation of the input
    column.
  */
  lemma NormalizedKeeps(t: Table, k: nat)
    requires Valid(t) && k <= |ScoreColumns| && NormalizedUpTo(t, k).Ok?
    ensures var u := NormalizedUpTo(t, k).value;
      forall j :: 0 <= j < k && ScoreColumns[j] in t.columns ==>
        && Normalizable(Column(t, ScoreColumns[j]))
        && NormColumns[j] in u.columns
        && Column(u, NormColumns[j]) == Normalize(Column(t, ScoreColumns[j]))
  {
    forall j | 0 <= j < k && ScoreColumns[j] in t.columns
      ensures Normalizable(Column(t, ScoreColumns[j]))
      ensures NormColumns[j] in NormalizedUpTo(t, k).value.columns
      ensures Column(NormalizedUpTo(t, k).value, NormColumns[j]) == Normalize(Column(t, ScoreColumns[j]))
    {
      NormalizedKeepsAt(t, k, j);
    }
  }

  /** A bad column among the first k score columns is one among the first k - 1 or column k - 1. */
  lemma TextScoreStep(t: Table, k: nat)
    requires Valid(t) && 0 < k <= |ScoreColumns|
    ensures BadScoreBefore(t, k) <==>
      BadScoreBefore(t, k - 1) || (ScoreColumns[k - 1] in t.columns && !Normalizable(Column(t, ScoreColumns[k - 1])))
  {
    if BadScoreBefore(t, k) {
      var j :| 0 <= j < k && ScoreColumns[j] in t.columns && !Normalizable(Column(t, ScoreColumns[j]));
      if j < k - 1 {
        assert BadScoreBefore(t, k - 1);
      }
    }
    if BadScoreBefore(t, k - 1) {
      var j :| 0 <= j < k - 1 && ScoreColumns[j] in t.columns && !Normalizable(Column(t, ScoreColumns[j]));
      assert BadScoreBefore(t, k);
    }
  }

  /** An iteration fails exactly when its column is there and cannot be normalised, and then with a TypeError. */
  lemma AddNormFails(u: Table, t: Table, c: string)
    requires Valid(u) && Valid(t) && (c in u.columns <==> c in t.columns)
    requires c in t.columns ==> Column(u, c) == Column(t, c)
    ensures AddNorm(u, c).Err? <==> c in t.columns && !Normalizable(Column(t, c))
    ensures AddNorm(u, c).Err? ==> AddNorm(u, c).error == TypeError
  {
  }

  /**
    The loop fails exactly when one of the first k score columns cannot be
    normalised, and then with a TypeError.
  */
  lemma {:induction false} NormalizedFails(t: Table, k: nat)
    requires Valid(t) && k <= |ScoreColumns|
    ensures NormalizedUpTo(t, k).Err? <==> BadScoreBefore(t, k)
    ensures NormalizedUpTo(t, k).Err? ==> NormalizedUpTo(t, k).error == TypeError
  {
    if k > 0 {
      NormalizedFails(t, k - 1);
      TextScoreStep(t, k);
      if NormalizedUpTo(t, k - 1).Ok? {
        var c := ScoreColumns[k - 1];
        var u := NormalizedUpTo(t, k - 1).value;
        NormalizedUntouched(t, k - 1);
        NormalizedColumns(t, k - 1);
        NormColumnsFresh();
        AddNormFails(u, t, c);
      }
    }
  }

  // ---------------------------------------------------------------------
  // The VFM score

  /** `df[norm_cols].mean(axis=1)` for one row: the mean of its non-NaN values, NaN if there are none. */
  function RowMean(cells: seq<Cell>): (m: Cell)
    requires NoText(cells)
    ensures m.Null? <==> Nums(cells) == []
    ensures m.Num? ==> AverageOf(m.v, Nums(cells))
  {
    var xs := Nums(cells);
    if xs == [] then Null
    else
      MeanTimesCount(xs);
      Num(Mean(xs))
  }

  /** A row mean of values in [lo, hi] lies in [lo, hi]. */
  lemma RowMeanBounds(cells: seq<Cell>, lo: real, hi: real)
    requires NoText(cells)
    requires forall k :: 0 <= k < |cells| && cells[k].Num? ==> lo <= cells[k].v <= hi
    ensures RowMean(cells).Num? ==> lo <= RowMean(cells).v <= hi
  {
    var xs := Nums(cells);
    if xs != [] {
      forall k | 0 <= k < |xs|
        ensures lo <= xs[k] <= hi
      {
        assert xs[k] in xs;
        var m :| 0 <= m < |cells| && cells[m] == Num(xs[k]);
      }
      MeanBounds(xs, lo, hi);
    }
  }

  /** `[f'{col}_norm' for col in score_columns if f'{col}_norm' in df.columns]` */
  function PresentNorms(names: seq<string>, columns: seq<string>): (r: seq<string>)
    ensures forall c :: c in r ==> c in names && c in columns
    ensures (forall c :: c in names ==> c in columns) ==> r == names
  {
    if names == [] then []
    else (if names[0] in columns then [names[0]] else []) + PresentNorms(names[1..], columns)
  }

  /** The cells of one row under the given columns. */
  function RowCells(row: Row, names: seq<string>): (cells: seq<Cell>)
    requires forall c :: c in names ==> c in row
    ensures |cells| == |names| && forall k :: 0 <= k < |names| ==> cells[k] == row[names[k]]
  {
    seq(|names|, k requires 0 <= k < |names| => row[names[k]])
  }

  /** The norm columns the mean reads hold no strings. */
  predicate NormsNumeric(t: Table)
    requires Valid(t)
  {
    forall c :: c in PresentNorms(NormColumns, t.columns) ==> NoText(Column(t, c))
  }

  /** The row means: `df[norm_cols].mean(axis=1)`. */
  function ScoreMeans(t: Table): (col: seq<Cell>)
    requires Valid(t) && NormsNumeric(t)
    ensures |col| == |t.rows|
  {
    var names := PresentNorms(NormColumns, t.columns);
    seq(|t.rows|, i requires 0 <= i < |t.rows| =>
      assert NoText(RowCells(t.rows[i], names)) by {
        forall k | 0 <= k < |names|
          ensures IsNumeric(RowCells(t.rows[i], names)[k])
        {
          assert Column(t, names[k])[i] == t.rows[i][names[k]];
        }
      }
      RowMean(RowCells(t.rows[i], names)))
  }

  /** `df['vfm_score'] = ...; df['vfm_normalized'] = df['vfm_score']` */
  function WithScores(t: Table): (r: Table)
    requires Valid(t) && NormsNumeric(t)
    ensures Valid(r) && r.columns == WithName(WithName(t.columns, "vfm_score"), "vfm_normalized")
    ensures |r.rows| == |t.rows|
    ensures Column(r, "vfm_score") == ScoreMeans(t) && Column(r, "vfm_normalized") == ScoreMeans(t)
    ensures forall c :: c in t.columns && c != "vfm_score" && c != "vfm_normalized" ==> Column(r, c) == Column(t, c)
  {
    var means := ScoreMeans(t);
    var withScore := SetColumn(t, "vfm_score", means);
    ColumnOfSet(t, "vfm_score", means, "vfm_score");
    OthersOfSet(t, "vfm_score", means);
    var r := SetColumn(withScore, "vfm_normalized", means);
    ColumnOfSet(withScore, "vfm_normalized", means, "vfm_normalized");
    ColumnOfSet(withScore, "vfm_normalized", means, "vfm_score");
    OthersOfSet(withScore, "vfm_normalized", means);
    r
  }

  /** The score is computed only when the file lacks `vfm_score` or `vfm_normalized`. */
  predicate NeedsScores(columns: seq<string>) {
    "vfm_score" !in columns || "vfm_normalized" !in columns
  }

  // ---------------------------------------------------------------------
  // Price columns

  /** `df[c] = pd.to_numeric(df[c], errors='coerce')` when column c exists. */
  function CoerceIfPresent(t: Table, c: string, parse: string -> Option<real>): (r: Table)
    requires Valid(t)
    ensures Valid(r) && r.columns == t.columns && |r.rows| == |t.rows|
    ensures c in t.columns ==> Column(r, c) == ToNumeric(Column(t, c), parse)
    ensures forall d :: d in t.columns && d != c ==> Column(r, d) == Column(t, d)
  {
    if c in t.columns then
      var r := SetColumn(t, c, ToNumeric(Column(t, c), parse));
      ColumnOfSet(t, c, ToNumeric(Column(t, c), parse), c);
      OthersOfSet(t, c, ToNumeric(Column(t, c), parse));
      r
    else t
  }

  /** The price columns of the contract type. */
  function PriceColumns(contractType: string): seq<string> {
    if contractType == "monthly" then ["monthly_rent", "deposit_amount"] else ["total_deposit_median"]
  }

  /** The price columns coerced to numbers: rent and deposit (monthly) or the median deposit (jeonse). */
  function CoercePrices(t: Table, contractType: string, parse: string -> Option<real>): (r: Table)
    requires Valid(t)
    ensures Valid(r) && r.columns == t.columns && |r.rows| == |t.rows|
    ensures forall c :: c in t.columns && c in PriceColumns(contractType) ==> Column(r, c) == ToNumeric(Column(t, c), parse)
    ensures forall d :: d in t.columns && d !in PriceColumns(contractType) ==> Column(r, d) == Column(t, d)
  {
    if contractType == "monthly" then
      CoerceIfPresent(CoerceIfPresent(t, "monthly_rent", parse), "deposit_amount", parse)
    else
      CoerceIfPresent(t, "total_deposit_median", parse)
  }

  // ---------------------------------------------------------------------
  // load_vfm_data

  /** The six score columns of a table that has them all. */
  function ScoreCols(t: Table): (cols: seq<seq<Cell>>)
    requires Valid(t) && forall c :: c in ScoreColumns ==> c in t.columns
    ensures |cols| == |ScoreColumns| && forall j :: 0 <= j < |cols| ==> cols[j] == Column(t, ScoreColumns[j])
  {
    seq(|ScoreColumns|, j requires 0 <= j < |ScoreColumns| => Column(t, ScoreColumns[j]))
  }

  /** Columns of n cells each that the normalisation accepts. */
  predicate Scorable(cols: seq<seq<Cell>>, n: nat) {
    forall j :: 0 <= j < |cols| ==> |cols[j]| == n && Normalizable(cols[j])
  }

  /** Row i of the normalised columns. */
  function NormRow(cols: seq<seq<Cell>>, n: nat, i: nat): (cells: seq<Cell>)
    requires Scorable(cols, n) && i < n
    ensures |cells| == |cols| && NoText(cells)
    ensures forall j :: 0 <= j < |cols| ==> cells[j] == Normalize(cols[j])[i]
  {
    seq(|cols|, j requires 0 <= j < |cols| => Normalize(cols[j])[i])
  }

  /** The computed VFM score: per row, the mean of the min-max normalised score columns. */
  function MeanScores(cols: seq<seq<Cell>>, n: nat): (col: seq<Cell>)
    requires Scorable(cols, n)
    ensures |col| == n
    ensures forall i :: 0 <= i < n ==> col[i] == RowMean(NormRow(cols, n, i))
  {
    seq(n, i requires 0 <= i < n => RowMean(NormRow(cols, n, i)))
  }

  /** The computed score needs no rescaling: it is NaN or lies in [0, 100]. */
  lemma MeanScoresInRange(cols: seq<seq<Cell>>, n: nat)
    requires Scorable(cols, n)
    ensures forall i :: 0 <= i < n && MeanScores(cols, n)[i].Num? ==> 0.0 <= MeanScores(cols, n)[i].v <= 100.0
  {
    forall i | 0 <= i < n && MeanScores(cols, n)[i].Num?
      ensures 0.0 <= MeanScores(cols, n)[i].v <= 100.0
    {
      var cells := NormRow(cols, n, i);
      forall k | 0 <= k < |cells| && cells[k].Num?
        ensures 0.0 <= cells[k].v <= 100.0
      {
        NormalizeRange(cols[k]);
      }
      RowMeanBounds(cells, 0.0, 100.0);
    }
  }

  /** The columns the score step adds. */
  predicate Added(c: string) {
    c in NormColumns || c == "vfm_score" || c == "vfm_normalized"
  }

  /**
    The score step's result in t for the score columns cols: each `_norm`
    column normalises its score column, and `vfm_score` and `vfm_normalized`
    both hold the row means of the normalised columns.
  */
  ghost predicate ScoresComputed(cols: seq<seq<Cell>>, t: Table)
    requires Valid(t)
  {
    && |cols| == |NormColumns| && Scorable(cols, |t.rows|)
    && (forall j :: 0 <= j < |cols| ==> NormColumns[j] in t.columns && Column(t, NormColumns[j]) == Normalize(cols[j]))
    && "vfm_score" in t.columns && "vfm_normalized" in t.columns
    && Column(t, "vfm_score") == MeanScores(cols, |t.rows|)
    && Column(t, "vfm_normalized") == MeanScores(cols, |t.rows|)
  }

  /** The columns the loader converts to datetimes. */
  const DateColumns: seq<string> := ["contract_date", "year_month"]

  /** A column the loader passes through unchanged. */
  predicate Kept(c: string, contractType: string, columns: seq<string>) {
    && c != "grid_id" && c !in PriceColumns(contractType) && c !in DateColumns
    && !(NeedsScores(columns) && Added(c))
  }

  /**
    What load_vfm_data returns for the raw table: the same rows, the ids
    stripped strings, the price columns coerced to numbers, the score columns
    added when the file lacks a score, and every other column as read.
  */
  ghost predicate LoadedVfm(raw: Table, t: Table, contractType: string, showNum: real -> string, parse: string -> Option<real>)
    requires Valid(raw) && "grid_id" in raw.columns
  {
    && Valid(t) && |t.rows| == |raw.rows| && IdsStripped(t) && IdsFrom(raw, t, showNum)
    && (forall c :: c in raw.columns ==> c in t.columns)
    && (forall c :: c in t.columns ==> c in raw.columns || (NeedsScores(raw.columns) && Added(c)))
    && (forall c :: c in raw.columns && Kept(c, contractType, raw.columns) ==> Column(t, c) == Column(raw, c))
    && (forall c :: c in raw.columns && c in PriceColumns(contractType) ==> Column(t, c) == ToNumeric(Column(raw, c), parse))
    && (NeedsScores(raw.columns) ==>
          (forall c :: c in ScoreColumns ==> c in raw.columns) && ScoresComputed(ScoreCols(raw), t))
  }

  /** The outcome of load_vfm_data once the file has been read as raw. */
  ghost predicate VfmOutcome(raw: Table, r: Result<Table>, contractType: string, showNum: real -> string, parse: string -> Option<real>)
    requires Valid(raw)
  {
    var missing := MissingFrom(RequiredVfmColumns, raw.columns);
    if missing != [] then r == Err(Wrapped(DataLoad, MissingColumns(missing)))
    else if NeedsScores(raw.columns) && BadScoreBefore(raw, |ScoreColumns|) then r == Err(Wrapped(DataLoad, TypeError))
    else "grid_id" in raw.columns && r.Ok? && LoadedVfm(raw, r.value, contractType, showNum, parse)
  }

  /** Stripping the ids leaves every other column, and so the score columns, as read. */
  lemma StripStage(raw: Table, showNum: real -> string)
    requires Valid(raw) && forall c :: c in RequiredVfmColumns ==> c in raw.columns
    ensures IdsStripped(StrippedIds(raw, showNum))
    ensures forall c :: c in raw.columns && c != "grid_id" ==> Column(StrippedIds(raw, showNum), c) == Column(raw, c)
    ensures ScoreCols(StrippedIds(raw, showNum)) == ScoreCols(raw)
    ensures BadScoreBefore(StrippedIds(raw, showNum), |ScoreColumns|) == BadScoreBefore(raw, |ScoreColumns|)
  {
    var s := StrippedIds(raw, showNum);
    StrippedIdsAreStripped(raw, showNum);
    NormColumnsFresh();
    forall c | c in raw.columns && c != "grid_id"
      ensures Column(s, c) == Column(raw, c)
    {
      assert forall i :: 0 <= i < |raw.rows| ==> Column(s, c)[i] == Column(raw, c)[i];
    }
  }

  /** The row means over the present `_norm` columns are the means of the normalised score columns. */
  lemma MeansOfNorms(s: Table, u: Table)
    requires Valid(s) && Valid(u) && |u.rows| == |s.rows| && forall c :: c in ScoreColumns ==> c in s.columns
    requires Scorable(ScoreCols(s), |s.rows|)
    requires forall j :: 0 <= j < |NormColumns| ==> NormColumns[j] in u.columns && Column(u, NormColumns[j]) == Normalize(ScoreCols(s)[j])
    ensures NormsNumeric(u) && ScoreMeans(u) == MeanScores(ScoreCols(s), |s.rows|)
  {
    var cols := ScoreCols(s);
    var n := |s.rows|;
    assert PresentNorms(NormColumns, u.columns) == NormColumns;
    forall i | 0 <= i < n
      ensures RowCells(u.rows[i], NormColumns) == NormRow(cols, n, i)
    {
      forall j | 0 <= j < |NormColumns|
        ensures RowCells(u.rows[i], NormColumns)[j] == NormRow(cols, n, i)[j]
      {
        assert Column(u, NormColumns[j])[i] == u.rows[i][NormColumns[j]];
      }
    }
  }

  /** The names the score step adds are none of the id, price or other added names. */
  lemma AddedNames(contractType: string)
    ensures forall j :: 0 <= j < |NormColumns| ==> NormColumns[j] != "vfm_score" && NormColumns[j] != "vfm_normalized"
    ensures forall c :: c in PriceColumns(contractType) ==> !Added(c) && c != "grid_id"
    ensures !Added("grid_id")
  {
  }

  /** The column list after the score step: the input's, plus added names only. */
  lemma ColumnsAfterScores(sc: seq<string>, uc: seq<string>)
    requires forall c :: c in sc ==> c in uc
    requires forall c :: c in uc ==> c in sc || c in NormColumns
    ensures forall c :: c in sc ==> c in WithName(WithName(uc, "vfm_score"), "vfm_normalized")
    ensures forall c :: c in WithName(WithName(uc, "vfm_score"), "vfm_normalized") ==> c in sc || Added(c)
  {
  }

  /** The normalisation loop succeeds on a table whose score columns can all be normalised, and touches only `_norm` columns. */
  lemma ScoresNormalize(s: Table)
    requires Valid(s) && (forall c :: c in ScoreColumns ==> c in s.columns) && !BadScoreBefore(s, |ScoreColumns|)
    ensures NormalizedUpTo(s, |ScoreColumns|).Ok?
    ensures var u := NormalizedUpTo(s, |ScoreColumns|).value;
      && |u.rows| == |s.rows|
      && (forall c :: c in s.columns ==> c in u.columns)
      && (forall c :: c in u.columns ==> c in s.columns || c in NormColumns)
      && (forall c :: c in s.columns && c !in NormColumns ==> Column(u, c) == Column(s, c))
  {
    NormalizedFails(s, |ScoreColumns|);
    NormalizedColumns(s, |ScoreColumns|);
    NormalizedUntouched(s, |ScoreColumns|);
  }

  /** After the loop every `_norm` column is the normalisation of its score column, which the loop could normalise. */
  lemma ScoresNormalized(s: Table)
    requires Valid(s) && (forall c :: c in ScoreColumns ==> c in s.columns) && !BadScoreBefore(s, |ScoreColumns|)
    ensures NormalizedUpTo(s, |ScoreColumns|).Ok?
    ensures var u := NormalizedUpTo(s, |ScoreColumns|).value;
      && Scorable(ScoreCols(s), |s.rows|)
      && (forall j :: 0 <= j < |NormColumns| ==> NormColumns[j] in u.columns && Column(u, NormColumns[j]) == Normalize(ScoreCols(s)[j]))
  {
    NormalizedFails(s, |ScoreColumns|);
    NormalizedKeeps(s, |ScoreColumns|);
  }

  /** The score step on the stripped table keeps its columns and adds only score columns. */
  lemma ScoreStageColumns(s: Table)
    requires Valid(s) && (forall c :: c in ScoreColumns ==> c in s.columns) && !BadScoreBefore(s, |ScoreColumns|)
    ensures NormalizedUpTo(s, |ScoreColumns|).Ok?
    ensures NormsNumeric(NormalizedUpTo(s, |ScoreColumns|).value)
    ensures var w := WithScores(NormalizedUpTo(s, |ScoreColumns|).value);
      && |w.rows| == |s.rows|
      && (forall c :: c in s.columns ==> c in w.columns)
      && (forall c :: c in w.columns ==> c in s.columns || Added(c))
      && (forall c :: c in s.columns && !Added(c) ==> Column(w, c) == Column(s, c))
  {
    ScoresNormalize(s);
    ScoresNormalized(s);
    var u := NormalizedUpTo(s, |ScoreColumns|).value;
    ColumnsAfterScores(s.columns, u.columns);
    MeansOfNorms(s, u);
  }

  /** The score step on the stripped table computes the scores from its score columns. */
  lemma ScoreStage(s: Table)
    requires Valid(s) && (forall c :: c in ScoreColumns ==> c in s.columns) && !BadScoreBefore(s, |ScoreColumns|)
    ensures NormalizedUpTo(s, |ScoreColumns|).Ok?
    ensures NormsNumeric(NormalizedUpTo(s, |ScoreColumns|).value)
    ensures ScoresComputed(ScoreCols(s), WithScores(NormalizedUpTo(s, |ScoreColumns|).value))
  {
    ScoresNormalize(s);
    ScoresNormalized(s);
    var u := NormalizedUpTo(s, |ScoreColumns|).value;
    MeansOfNorms(s, u);
    var w := WithScores(u);
    AddedNames("monthly");
    forall j | 0 <= j < |NormColumns|
      ensures NormColumns[j] in w.columns && Column(w, NormColumns[j]) == Normalize(ScoreCols(s)[j])
    {
      assert NormColumns[j] in u.columns;
    }
  }

  /** The grid ids of w survive the price step. */
  lemma PriceStageIds(s: Table, w: Table, contractType: string, parse: string -> Option<real>)
    requires Valid(s) && Valid(w) && IdsStripped(s) && |w.rows| == |s.rows| && "grid_id" in w.columns
    requires Column(w, "grid_id") == Column(s, "grid_id")
    ensures IdsStripped(CoercePrices(w, contractType, parse))
    ensures forall i :: 0 <= i < |s.rows| ==> CoercePrices(w, contractType, parse).rows[i]["grid_id"] == s.rows[i]["grid_id"]
  {
    var t := CoercePrices(w, contractType, parse);
    AddedNames(contractType);
    forall i | 0 <= i < |t.rows|
      ensures "grid_id" in t.rows[i] && t.rows[i]["grid_id"] == s.rows[i]["grid_id"]
    {
      assert Column(t, "grid_id")[i] == Column(s, "grid_id")[i];
    }
  }

  /** The price step completes the load. */
  lemma PriceStage(raw: Table, s: Table, w: Table, contractType: string, showNum: real -> string, parse: string -> Option<real>)
    requires Valid(raw) && Valid(s) && Valid(w)
    requires s.columns == raw.columns && |s.rows| == |raw.rows| && IdsStripped(s) && "grid_id" in raw.columns && IdsFrom(raw, s, showNum)
    requires forall c :: c in raw.columns && c != "grid_id" ==> Column(s, c) == Column(raw, c)
    requires |w.rows| == |s.rows|
    requires forall c :: c in s.columns ==> c in w.columns
    requires forall c :: c in w.columns ==> c in s.columns || (NeedsScores(raw.columns) && Added(c))
    requires forall c :: c in s.columns && !(NeedsScores(raw.columns) && Added(c)) ==> Column(w, c) == Column(s, c)
    requires NeedsScores(raw.columns) ==>
      (forall c :: c in ScoreColumns ==> c in raw.columns) && ScoresComputed(ScoreCols(raw), w)
    ensures LoadedVfm(raw, CoercePrices(w, contractType, parse), contractType, showNum, parse)
  {
    AddedNames(contractType);
    PriceStageIds(s, w, contractType, parse);
    var t := CoercePrices(w, contractType, parse);
    if NeedsScores(raw.columns) {
      forall j | 0 <= j < |NormColumns|
        ensures Column(t, NormColumns[j]) == Column(w, NormColumns[j])
      {
        assert Added(NormColumns[j]);
      }
    }
  }

  /** The table load_vfm_data returns for a host, or its error. */
  function VfmLoad(host: Host, contractType: string): (r: Result<Table>)
    requires HostValid(host)
    ensures r.Ok? ==> Valid(r.value) && "grid_id" in r.value.columns
  {
    var path := VfmPath(contractType);
    if path !in host.files then Err(FileNotFound(path))
    else
      var raw := host.files[path];
      var missing := MissingFrom(RequiredVfmColumns, raw.columns);
      if missing != [] then Err(Wrapped(DataLoad, MissingColumns(missing)))
      else
        RequiredPresent(raw.columns);
        var s := StrippedIds(raw, host.showNum);
        if !NeedsScores(s.columns) then Ok(CoercePrices(s, contractType, host.parseNum))
        else
          var n := NormalizedUpTo(s, |ScoreColumns|);
          NormalizedFails(s, |ScoreColumns|);
          if n.Err? then Err(Wrapped(DataLoad, n.error))
          else
            ScoreStageColumns(s);
            Ok(CoercePrices(WithScores(n.value), contractType, host.parseNum))
  }

  /**
    `load_vfm_data(contract_type)`: reads the contract type's CSV, checks the
    required columns, strips the grid ids, computes the score when the file
    lacks `vfm_score` or `vfm_normalized`, and coerces the price columns.
    Every failure after the file was found is reported wrapped as a load error.
  */
  method LoadVfmData(host: Host, contractType: string := "monthly") returns (r: Result<Table>)
    requires HostValid(host)
    ensures VfmPath(contractType) !in host.files ==> r == Err(FileNotFound(VfmPath(contractType)))
    ensures VfmPath(contractType) in host.files ==>
      VfmOutcome(host.files[VfmPath(contractType)], r, contractType, host.showNum, host.parseNum)
    ensures r == VfmLoad(host, contractType)
  {
    var path := VfmPath(contractType);
    if path !in host.files {
      return Err(FileNotFound(path));
    }
    var raw := host.files[path];
    var missing := MissingFrom(RequiredVfmColumns, raw.columns);
    if missing != [] {
      return Err(Wrapped(DataLoad, MissingColumns(missing)));
    }
    RequiredPresent(raw.columns);
    var s := StrippedIds(raw, host.showNum);
    StripStage(raw, host.showNum);
    var w := s;
    if NeedsScores(s.columns) {
      var n := NormalizeScores(s);
      if n.Err? {
        NormalizedFails(s, |ScoreColumns|);
        return Err(Wrapped(DataLoad, n.error));
      }
      NormalizedFails(s, |ScoreColumns|);
      ScoreStageColumns(s);
      ScoreStage(s);
      w := WithScores(n.value);
    }
    PriceStage(raw, s, w, contractType, host.showNum, host.parseNum);
    return Ok(CoercePrices(w, contractType, host.parseNum));
  }

  // ---------------------------------------------------------------------
  // load_grid_mapping

  /** The mapping has both coordinate columns. */
  predicate HasCoords(columns: seq<string>) {
    "lat" in columns && "lon" in columns
  }

  /**
    What load_grid_mapping returns for the raw mapping: the same columns and
    rows, the ids stripped strings, the coordinates coerced to numbers when
    both exist, and every other column as read.
  */
  predicate MappingLoaded(raw: Table, t: Table, showNum: real -> string, parse: string -> Option<real>)
    requires Valid(raw) && "grid_id" in raw.columns
  {
    && Valid(t) && t.columns == raw.columns && |t.rows| == |raw.rows| && IdsStripped(t) && IdsFrom(raw, t, showNum)
    && (forall c :: c in raw.columns && c != "grid_id" && !(HasCoords(raw.columns) && (c == "lat" || c == "lon")) ==>
          Column(t, c) == Column(raw, c))
    && (HasCoords(raw.columns) ==>
          Column(t, "lat") == ToNumeric(Column(raw, "lat"), parse) && Column(t, "lon") == ToNumeric(Column(raw, "lon"), parse))
  }

  /** `load_grid_mapping()` */
  function LoadGridMapping(host: Host): (r: Result<Table>)
    requires HostValid(host)
    ensures GridMappingPath !in host.files ==> r == Err(FileNotFound(GridMappingPath))
    ensures GridMappingPath in host.files ==>
      var raw := host.files[GridMappingPath];
      var missing := MissingFrom(RequiredMappingColumns, raw.columns);
      && (missing != [] ==> r == Err(Wrapped(MappingLoad, MissingColumns(missing))))
      && (missing == [] ==> "grid_id" in raw.columns && r.Ok? && MappingLoaded(raw, r.value, host.showNum, host.parseNum))
  {
    if GridMappingPath !in host.files then Err(FileNotFound(GridMappingPath))
    else
      var raw := host.files[GridMappingPath];
      var missing := MissingFrom(RequiredMappingColumns, raw.columns);
      if missing != [] then Err(Wrapped(MappingLoad, MissingColumns(missing)))
      else
        assert "grid_id" in RequiredMappingColumns;
        Ok(CleanMapping(raw, host.showNum, host.parseNum))
  }

  /** The body of load_grid_mapping after its column check: strip the ids, then coerce the coordinates. */
  function CleanMapping(raw: Table, showNum: real -> string, parse: string -> Option<real>): (t: Table)
    requires Valid(raw) && "grid_id" in raw.columns
    ensures MappingLoaded(raw, t, showNum, parse)
  {
    var s := StrippedIds(raw, showNum);
    StripKeepsOthers(raw, showNum);
    if HasCoords(s.columns) then
      CoerceIfPresent(CoerceIfPresent(s, "lat", parse), "lon", parse)
    else s
  }

  /** Stripping the ids leaves every other column as it was. */
  lemma StripKeepsOthers(t: Table, showNum: real -> string)
    requires Valid(t) && "grid_id" in t.columns
    ensures IdsStripped(StrippedIds(t, showNum))
    ensures forall c :: c in t.columns && c != "grid_id" ==> Column(StrippedIds(t, showNum), c) == Column(t, c)
  {
    var s := StrippedIds(t, showNum);
    StrippedIdsAreStripped(t, showNum);
    forall c | c in t.columns && c != "grid_id"
      ensures Column(s, c) == Column(t, c)
    {
      assert forall i :: 0 <= i < |t.rows| ==> Column(s, c)[i] == Column(t, c)[i];
    }
  }

  // ---------------------------------------------------------------------
  // merge_vfm_with_district

  /** The mapping columns joined onto the VFM rows: the district, and the coordinates when both exist. */
  function MergeCols(mappingColumns: seq<string>): (cols: seq<string>)
    ensures "district" in cols && "grid_id" !in cols
    ensures ("lat" in cols || "lon" in cols) <==> HasCoords(mappingColumns)
  {
    if HasCoords(mappingColumns) then ["district", "lat", "lon"] else ["district"]
  }

  /** Why the merge fails, if it does. */
  function MergeFailure(vfm: seq<string>, mapping: seq<string>): Option<Error> {
    if "grid_id" !in vfm || "grid_id" !in mapping then Some(KeyError("grid_id"))
    else if "district" !in mapping then Some(KeyError("district"))
    else if !NoDuplicates(JoinColumns(vfm, "grid_id", MergeCols(mapping))) then Some(DuplicateColumns)
    else if "district" in vfm then Some(KeyError("district"))
    else None
  }

  /**
    `merge_vfm_with_district(df_vfm, df_mapping)`: strips both sides' ids, left
    joins the district (and coordinates) on the grid id and labels the rows
    left without a district as unclassified.
  */
  function MergeVfmWithDistrict(vfm: Table, mapping: Table, showNum: real -> string): (r: Result<Table>)
    requires Valid(vfm) && Valid(mapping)
    ensures r.Err? <==> MergeFailure(vfm.columns, mapping.columns).Some?
    ensures r.Err? ==> r.error == Wrapped(Merge, MergeFailure(vfm.columns, mapping.columns).value)
    ensures r.Ok? ==> Valid(r.value) && r.value.columns == JoinColumns(vfm.columns, "grid_id", MergeCols(mapping.columns))
    ensures r.Ok? ==> "district" in r.value.columns
  {
    if "grid_id" !in vfm.columns || "grid_id" !in mapping.columns then Err(Wrapped(Merge, KeyError("grid_id")))
    else JoinDistricts(StrippedIds(vfm, showNum), StrippedIds(mapping, showNum))
  }

  /** A merge succeeds only on tables with ids whose mapping has districts. */
  lemma MergeNeeds(vfm: Table, mapping: Table, showNum: real -> string)
    requires Valid(vfm) && Valid(mapping) && MergeVfmWithDistrict(vfm, mapping, showNum).Ok?
    ensures "grid_id" in vfm.columns && "grid_id" in mapping.columns && "district" in mapping.columns
  {
  }

  /** `df_mapping[['grid_id'] + merge_cols]` */
  function MappingPart(m: Table): (p: Table)
    requires Valid(m) && "grid_id" in m.columns && "district" in m.columns
    ensures Valid(p) && p.columns == ["grid_id"] + MergeCols(m.columns) && |p.rows| == |m.rows|
    ensures forall i, c :: 0 <= i < |m.rows| && c in p.columns ==> p.rows[i][c] == m.rows[i][c]
  {
    Project(m, ["grid_id"] + MergeCols(m.columns))
  }

  /** The join and the district check of the merge, on tables whose ids are stripped. */
  function JoinDistricts(l: Table, m: Table): (r: Result<Table>)
    requires Valid(l) && Valid(m) && "grid_id" in l.columns && "grid_id" in m.columns
    ensures r.Err? <==> MergeFailure(l.columns, m.columns).Some?
    ensures r.Err? ==> r.error == Wrapped(Merge, MergeFailure(l.columns, m.columns).value)
    ensures r.Ok? ==> Valid(r.value) && r.value.columns == JoinColumns(l.columns, "grid_id", MergeCols(m.columns))
    ensures r.Ok? ==> "district" in r.value.columns
  {
    var cols := MergeCols(m.columns);
    if "district" !in m.columns then Err(Wrapped(Merge, KeyError("district")))
    else
      match LeftJoin(l, MappingPart(m), "grid_id", cols)
      case Err(e) => Err(Wrapped(Merge, e))
      case Ok(j) =>
        DistrictAfterJoin(l.columns, cols);
        if "district" !in j.columns then Err(Wrapped(Merge, KeyError("district")))
        else Ok(LabelUnmatched(j))
  }

  /** `if unmatched > 0: df_merged['district'].fillna('🔍 미분류')` */
  function LabelUnmatched(j: Table): (r: Table)
    requires Valid(j) && "district" in j.columns
    ensures Valid(r) && r.columns == j.columns && |r.rows| == |j.rows|
    ensures forall i :: 0 <= i < |j.rows| ==> r.rows[i] == LabelledRow(j.rows[i])
  {
    if CountNull(Column(j, "district")) > 0 then FillNull(j, "district", Text(UnclassifiedLabel))
    else
      assert forall i :: 0 <= i < |j.rows| ==> j.rows[i]["district" := Labelled(j.rows[i]["district"])] == j.rows[i] by {
        forall i | 0 <= i < |j.rows|
          ensures j.rows[i]["district" := Labelled(j.rows[i]["district"])] == j.rows[i]
        {
          assert Column(j, "district")[i] == j.rows[i]["district"];
        }
      }
      j
  }

  /** A mapped district as the merge reports it: NaN becomes the unclassified label. */
  function Labelled(d: Cell): (r: Cell)
    ensures !r.Null? && (d.Null? || r == d)
  {
    if d.Null? then Text(UnclassifiedLabel) else d
  }

  /** A joined row with its district labelled. */
  function LabelledRow(r: Row): Row
    requires "district" in r
  {
    r["district" := Labelled(r["district"])]
  }

  /** No suffixed name is "district". */
  lemma NotDistrict(c: string, suffix: string)
    requires suffix == "_x" || suffix == "_y"
    ensures c + suffix != "district"
  {
    var d := c + suffix;
    assert d[|d| - 1] == suffix[1];
  }

  /** The joined frame has a plain `district` column exactly when the VFM side had none. */
  lemma DistrictAfterJoin(left: seq<string>, cols: seq<string>)
    requires "district" in cols && "grid_id" !in cols
    ensures "district" in JoinColumns(left, "grid_id", cols) <==> "district" !in left
  {
    var out := JoinColumns(left, "grid_id", cols);
    if "district" in left {
      forall k | 0 <= k < |out|
        ensures out[k] != "district"
      {
        if k < |left| {
          NotDistrict(left[k], "_x");
        } else {
          NotDistrict(cols[k - |left|], "_y");
        }
      }
    } else {
      var k := IndexOf(cols, "district");
      assert out[|left| + k] == "district";
    }
  }

  /** Some row of t holds row i of l's values under their merged names, and the district d. */
  ghost predicate HasJoined(t: seq<Row>, l: Table, i: nat, cols: seq<string>, d: Cell)
    requires Valid(l) && i < |l.rows|
  {
    exists o :: o in t && "district" in o && o["district"] == d
      && forall c :: c in l.columns ==> LeftName(c, "grid_id", cols) in o && o[LeftName(c, "grid_id", cols)] == l.rows[i][c]
  }

  /**
    No VFM row is lost: row i of l comes out once with the district of each
    row j of m sharing its id (read from dist and labelled), and labelled
    unclassified when no row of m has its id.
  */
  ghost predicate EveryRowSurvives(l: Table, m: Table, dist: Table, t: Table)
    requires Valid(l) && Valid(m) && Valid(dist) && "grid_id" in l.columns && "grid_id" in m.columns
    requires "district" in dist.columns && |dist.rows| == |m.rows|
  {
    MatchesSurvive(l, m, dist, t) && NoMatchSurvives(l, m, t)
  }

  /** Row i of l comes out once with the district of each row j of m sharing its id, read from dist and labelled. */
  ghost predicate RowMatchesSurvive(l: Table, m: Table, dist: Table, t: Table, i: nat)
    requires Valid(l) && Valid(m) && Valid(dist) && "grid_id" in l.columns && "grid_id" in m.columns
    requires "district" in dist.columns && |dist.rows| == |m.rows| && i < |l.rows|
  {
    forall j :: 0 <= j < |m.rows| && m.rows[j]["grid_id"] == l.rows[i]["grid_id"] ==>
      HasJoined(t.rows, l, i, MergeCols(m.columns), Labelled(dist.rows[j]["district"]))
  }

  /** Every row of l comes out with the district of each row of m sharing its id. */
  ghost predicate MatchesSurvive(l: Table, m: Table, dist: Table, t: Table)
    requires Valid(l) && Valid(m) && Valid(dist) && "grid_id" in l.columns && "grid_id" in m.columns
    requires "district" in dist.columns && |dist.rows| == |m.rows|
  {
    forall i :: 0 <= i < |l.rows| ==> RowMatchesSurvive(l, m, dist, t, i)
  }

  /** Every row of l whose id no row of m has comes out labelled unclassified. */
  ghost predicate NoMatchSurvives(l: Table, m: Table, t: Table)
    requires Valid(l) && Valid(m) && "grid_id" in l.columns && "grid_id" in m.columns
  {
    forall i :: 0 <= i < |l.rows| && (forall j :: 0 <= j < |m.rows| ==> m.rows[j]["grid_id"] != l.rows[i]["grid_id"]) ==>
      HasJoined(t.rows, l, i, MergeCols(m.columns), Text(UnclassifiedLabel))
  }

  /** Labelling keeps every joined row, with its district labelled. */
  lemma LabelledIn(j: Table, out: Row)
    requires Valid(j) && "district" in j.columns && out in j.rows
    ensures "district" in out && LabelledRow(out) in LabelUnmatched(j).rows
  {
    var k :| 0 <= k < |j.rows| && j.rows[k] == out;
    assert LabelUnmatched(j).rows[k] == LabelledRow(out);
  }

  /** A row of t with row i's values and district d is the witness HasJoined asks for. */
  lemma HasJoinedBy(t: seq<Row>, l: Table, i: nat, cols: seq<string>, d: Cell, o: Row)
    requires Valid(l) && i < |l.rows| && o in t && "district" in o && o["district"] == d
    requires forall c :: c in l.columns ==> LeftName(c, "grid_id", cols) in o && o[LeftName(c, "grid_id", cols)] == l.rows[i][c]
    ensures HasJoined(t, l, i, cols, d)
  {
  }

  /** Joining, then labelling, the VFM row lrow with the mapping row mrow gives a row of the result. */
  lemma JoinedRowIn(l: Table, m: Table, lrow: Row, mrow: Option<Row>)
    requires Valid(l) && Valid(m) && "grid_id" in l.columns && "grid_id" in m.columns && "district" in m.columns
    requires JoinDistricts(l, m).Ok? && lrow in l.rows
    requires mrow.Some? ==> mrow.value in Matching(MappingPart(m).rows, "grid_id", lrow["grid_id"])
    requires mrow.None? ==> Matching(MappingPart(m).rows, "grid_id", lrow["grid_id"]) == []
    ensures var cols := MergeCols(m.columns);
      && "district" !in l.columns
      && NoDuplicates(JoinColumns(l.columns, "grid_id", cols))
      && (forall c :: c in l.columns ==> c in lrow)
      && (mrow.Some? ==> forall c :: c in cols ==> c in mrow.value)
      && "district" in JoinRow(lrow, mrow, l.columns, "grid_id", cols)
      && LabelledRow(JoinRow(lrow, mrow, l.columns, "grid_id", cols)) in JoinDistricts(l, m).value.rows
  {
    var cols := MergeCols(m.columns);
    var p := MappingPart(m);
    DistrictAfterJoin(l.columns, cols);
    var jt := LeftJoin(l, p, "grid_id", cols).value;
    assert JoinDistricts(l, m).value == LabelUnmatched(jt);
    LeftJoinRowIn(l, p, "grid_id", cols, lrow, mrow);
    LabelledIn(jt, JoinRow(lrow, mrow, l.columns, "grid_id", cols));
  }

  /** A VFM row sharing its id with mapping row j comes out with row j's district, labelled. */
  lemma JoinMatchSurvives(l: Table, m: Table, i: nat, j: nat)
    requires Valid(l) && Valid(m) && "grid_id" in l.columns && "grid_id" in m.columns && "district" in m.columns
    requires JoinDistricts(l, m).Ok?
    requires i < |l.rows| && j < |m.rows| && m.rows[j]["grid_id"] == l.rows[i]["grid_id"]
    ensures HasJoined(JoinDistricts(l, m).value.rows, l, i, MergeCols(m.columns), Labelled(m.rows[j]["district"]))
  {
    var cols := MergeCols(m.columns);
    var p := MappingPart(m);
    var mrow := Some(p.rows[j]);
    assert p.rows[j]["grid_id"] == m.rows[j]["grid_id"] && p.rows[j]["district"] == m.rows[j]["district"];
    JoinedRowIn(l, m, l.rows[i], mrow);
    var out := JoinRow(l.rows[i], mrow, l.columns, "grid_id", cols);
    LabelledJoinRow(out, l.rows[i], mrow, l.columns, cols);
    HasJoinedBy(JoinDistricts(l, m).value.rows, l, i, cols, Labelled(m.rows[j]["district"]), LabelledRow(out));
  }

  /** An id no mapping row has matches no projected mapping row. */
  lemma NoMappingMatch(m: Table, id: Cell)
    requires Valid(m) && "grid_id" in m.columns && "district" in m.columns
    requires forall j :: 0 <= j < |m.rows| ==> m.rows[j]["grid_id"] != id
    ensures Matching(MappingPart(m).rows, "grid_id", id) == []
  {
    var p := MappingPart(m);
    assert forall q :: 0 <= q < |p.rows| ==> p.rows[q]["grid_id"] == m.rows[q]["grid_id"];
    NoMatching(p.rows, "grid_id", id);
  }

  /** A VFM row whose id no mapping row has comes out labelled unclassified. */
  lemma JoinNoMatchSurvives(l: Table, m: Table, i: nat)
    requires Valid(l) && Valid(m) && "grid_id" in l.columns && "grid_id" in m.columns && "district" in m.columns
    requires JoinDistricts(l, m).Ok?
    requires i < |l.rows| && forall j :: 0 <= j < |m.rows| ==> m.rows[j]["grid_id"] != l.rows[i]["grid_id"]
    ensures HasJoined(JoinDistricts(l, m).value.rows, l, i, MergeCols(m.columns), Text(UnclassifiedLabel))
  {
    var cols := MergeCols(m.columns);
    NoMappingMatch(m, l.rows[i]["grid_id"]);
    JoinedRowIn(l, m, l.rows[i], None);
    var out := JoinRow(l.rows[i], None, l.columns, "grid_id", cols);
    LabelledJoinRow(out, l.rows[i], None, l.columns, cols);
    HasJoinedBy(JoinDistricts(l, m).value.rows, l, i, cols, Text(UnclassifiedLabel), LabelledRow(out));
  }

  /** Each VFM row comes out with the district of each mapping row sharing its id. */
  lemma JoinMatchesSurvive(l: Table, m: Table)
    requires Valid(l) && Valid(m) && "grid_id" in l.columns && "grid_id" in m.columns && "district" in m.columns
    requires JoinDistricts(l, m).Ok?
    ensures MatchesSurvive(l, m, m, JoinDistricts(l, m).value)
  {
    forall i | 0 <= i < |l.rows|
      ensures RowMatchesSurvive(l, m, m, JoinDistricts(l, m).value, i)
    {
      JoinRowMatchesSurvive(l, m, i);
    }
  }

  /** Row i of the VFM side comes out with the district of each mapping row sharing its id. */
  lemma JoinRowMatchesSurvive(l: Table, m: Table, i: nat)
    requires Valid(l) && Valid(m) && "grid_id" in l.columns && "grid_id" in m.columns && "district" in m.columns
    requires JoinDistricts(l, m).Ok? && i < |l.rows|
    ensures RowMatchesSurvive(l, m, m, JoinDistricts(l, m).value, i)
  {
    var t := JoinDistricts(l, m).value;
    forall j | 0 <= j < |m.rows| && m.rows[j]["grid_id"] == l.rows[i]["grid_id"]
      ensures HasJoined(t.rows, l, i, MergeCols(m.columns), Labelled(m.rows[j]["district"]))
    {
      JoinMatchSurvives(l, m, i, j);
    }
  }

  /** The join loses no VFM row: each comes out with each matching mapping row's district, or unclassified. */
  lemma JoinEveryRowSurvives(l: Table, m: Table)
    requires Valid(l) && Valid(m) && "grid_id" in l.columns && "grid_id" in m.columns && "district" in m.columns
    requires JoinDistricts(l, m).Ok?
    ensures EveryRowSurvives(l, m, m, JoinDistricts(l, m).value)
  {
    JoinMatchesSurvive(l, m);
    JoinNoMatchesSurvive(l, m);
  }

  /** Each VFM row whose id no mapping row has comes out labelled unclassified. */
  lemma JoinNoMatchesSurvive(l: Table, m: Table)
    requires Valid(l) && Valid(m) && "grid_id" in l.columns && "grid_id" in m.columns && "district" in m.columns
    requires JoinDistricts(l, m).Ok?
    ensures NoMatchSurvives(l, m, JoinDistricts(l, m).value)
  {
    var t := JoinDistricts(l, m).value;
    forall i | 0 <= i < |l.rows| && (forall j :: 0 <= j < |m.rows| ==> m.rows[j]["grid_id"] != l.rows[i]["grid_id"])
      ensures HasJoined(t.rows, l, i, MergeCols(m.columns), Text(UnclassifiedLabel))
    {
      JoinNoMatchSurvives(l, m, i);
    }
  }

  /**
    A successful join labels every row and loses none: each VFM row comes
    out once per mapping row sharing its id, with that row's district, or
    once labelled unclassified.
  */
  lemma JoinLabelsEveryRow(l: Table, m: Table)
    requires Valid(l) && Valid(m) && "grid_id" in l.columns && "grid_id" in m.columns
    requires JoinDistricts(l, m).Ok?
    ensures var t := JoinDistricts(l, m).value;
      && "district" in m.columns && "district" in t.columns && |t.rows| >= |l.rows|
      && AllLabelled(t)
      && EveryRowSurvives(l, m, m, t)
  {
    JoinLabelsAll(l, m);
    JoinEveryRowSurvives(l, m);
  }

  /** A successful join labels every row and has at least as many rows as the VFM side. */
  lemma JoinLabelsAll(l: Table, m: Table)
    requires Valid(l) && Valid(m) && "grid_id" in l.columns && "grid_id" in m.columns
    requires JoinDistricts(l, m).Ok?
    ensures var t := JoinDistricts(l, m).value;
      && "district" in m.columns && "district" in t.columns && |t.rows| >= |l.rows|
      && AllLabelled(t)
  {
    var cols := MergeCols(m.columns);
    DistrictAfterJoin(l.columns, cols);
    var j := LeftJoin(l, MappingPart(m), "grid_id", cols).value;
    assert JoinDistricts(l, m).value == LabelUnmatched(j);
    LabelsEveryRow(j);
  }

  /** No row of `t` is without a district. */
  predicate AllLabelled(t: Table)
    requires Valid(t) && "district" in t.columns
  {
    forall i :: 0 <= i < |t.rows| ==> !t.rows[i]["district"].Null?
  }

  /** Labelling leaves no row without a district. */
  lemma LabelsEveryRow(j: Table)
    requires Valid(j) && "district" in j.columns
    ensures AllLabelled(LabelUnmatched(j))
  {
    forall i | 0 <= i < |j.rows|
      ensures !LabelUnmatched(j).rows[i]["district"].Null?
    {
      assert LabelUnmatched(j).rows[i] == LabelledRow(j.rows[i]);
    }
  }

  /**
    A successful merge labels every row: none is left without a district, and
    no VFM row is lost: each comes out once per mapping row whose stripped id
    it shares, with that row's district, or once labelled unclassified.
  */
  lemma MergeLabelsEveryRow(vfm: Table, mapping: Table, showNum: real -> string)
    requires Valid(vfm) && Valid(mapping) && "grid_id" in vfm.columns && "grid_id" in mapping.columns && "district" in mapping.columns
    requires MergeVfmWithDistrict(vfm, mapping, showNum).Ok?
    ensures var t := MergeVfmWithDistrict(vfm, mapping, showNum).value;
      && "district" in t.columns && |t.rows| >= |vfm.rows|
      && AllLabelled(t)
      && EveryRowSurvives(StrippedIds(vfm, showNum), StrippedIds(mapping, showNum), mapping, t)
  {
    var l, m := StrippedIds(vfm, showNum), StrippedIds(mapping, showNum);
    JoinLabelsEveryRow(l, m);
    assert MergeVfmWithDistrict(vfm, mapping, showNum) == JoinDistricts(l, m);
    SurvivesStripped(l, mapping, showNum, JoinDistricts(l, m).value);
  }

  /** Stripping the ids leaves the districts alone, so the surviving rows' districts may be read off the unstripped mapping. */
  lemma SurvivesStripped(l: Table, mapping: Table, showNum: real -> string, t: Table)
    requires Valid(l) && Valid(mapping) && "grid_id" in l.columns && "grid_id" in mapping.columns && "district" in mapping.columns
    requires EveryRowSurvives(l, StrippedIds(mapping, showNum), StrippedIds(mapping, showNum), t)
    ensures EveryRowSurvives(l, StrippedIds(mapping, showNum), mapping, t)
  {
    var m := StrippedIds(mapping, showNum);
    assert forall j :: 0 <= j < |m.rows| ==> m.rows[j]["district"] == mapping.rows[j]["district"];
    forall i | 0 <= i < |l.rows|
      ensures RowMatchesSurvive(l, m, mapping, t, i)
    {
      assert RowMatchesSurvive(l, m, m, t, i);
    }
  }

  /** One labelled joined row: the left values under their merged names, and the district of its match, labelled. */
  lemma LabelledJoinRow(out: Row, lrow: Row, mrow: Option<Row>, left: seq<string>, cols: seq<string>)
    requires "district" in cols && "district" !in left && "grid_id" !in cols
    requires forall c :: c in left ==> c in lrow
    requires mrow.Some? ==> forall c :: c in cols ==> c in mrow.value
    requires JoinedFrom(out, lrow, mrow, left, "grid_id", cols)
    ensures && "district" in out
      && LabelledRow(out)["district"] == Labelled(if mrow.Some? then mrow.value["district"] else Null)
      && forall c :: c in left ==>
           LeftName(c, "grid_id", cols) in LabelledRow(out) && LabelledRow(out)[LeftName(c, "grid_id", cols)] == lrow[c]
  {
    assert RightName("district", left) == "district";
    forall c | c in left
      ensures LeftName(c, "grid_id", cols) != "district"
    {
      if c + "_x" == "district" {
        NotDistrict(c, "_x");
      }
    }
  }

  /** Unique mapping ids on the mapping side carry over to its projection. */
  lemma ProjectedUnique(m: Table, cols: seq<string>)
    requires Valid(m) && "grid_id" in cols && forall c :: c in cols ==> c in m.columns
    requires UniqueKeys(m.rows, "grid_id")
    ensures UniqueKeys(Project(m, cols).rows, "grid_id")
  {
    var p := Project(m, cols);
    forall i, j | 0 <= i < j < |p.rows|
      ensures p.rows[i]["grid_id"] != p.rows[j]["grid_id"]
    {
      assert p.rows[i]["grid_id"] == m.rows[i]["grid_id"];
      assert p.rows[j]["grid_id"] == m.rows[j]["grid_id"];
    }
  }

  /**
    The first match of an id among the projected mapping rows: none exactly
    when no mapping row has that id, and otherwise, the ids being unique,
    the projection of that mapping row.
  */
  lemma MatchOfProjection(m: Table, cols: seq<string>, id: Cell)
    requires Valid(m) && "grid_id" in cols && forall c :: c in cols ==> c in m.columns
    requires UniqueKeys(m.rows, "grid_id")
    ensures var ms := Matching(Project(m, cols).rows, "grid_id", id);
      && (ms == [] <==> forall j :: 0 <= j < |m.rows| ==> m.rows[j]["grid_id"] != id)
      && (forall j :: 0 <= j < |m.rows| && m.rows[j]["grid_id"] == id ==>
            ms != [] && forall c :: c in cols ==> c in ms[0] && ms[0][c] == m.rows[j][c])
  {
    var p := Project(m, cols);
    var keep := (x: Row) => "grid_id" in x && x["grid_id"] == id;
    var ms := Matching(p.rows, "grid_id", id);
    assert forall j :: 0 <= j < |m.rows| ==> p.rows[j]["grid_id"] == m.rows[j]["grid_id"];
    forall j | 0 <= j < |m.rows| && m.rows[j]["grid_id"] == id
      ensures ms != [] && forall c :: c in cols ==> c in ms[0] && ms[0][c] == m.rows[j][c]
    {
      assert keep(p.rows[j]);
      assert ms[0] in p.rows;
      var q :| 0 <= q < |p.rows| && p.rows[q] == ms[0];
      ProjectedUnique(m, cols);
      assert q == j;
    }
  }

  /** Row i of t holds the values of row i of l under their merged names. */
  predicate KeepsValues(l: Table, t: Table, cols: seq<string>)
    requires Valid(l) && |t.rows| == |l.rows|
  {
    forall i, c :: 0 <= i < |l.rows| && c in l.columns ==>
      LeftName(c, "grid_id", cols) in t.rows[i] && t.rows[i][LeftName(c, "grid_id", cols)] == l.rows[i][c]
  }

  /** A row of l whose id row j of m has gets the district of row j of dist, labelled. */
  predicate MatchedDistricts(l: Table, m: Table, dist: Table, t: Table)
    requires Valid(l) && Valid(m) && Valid(dist) && Valid(t)
    requires "grid_id" in l.columns && "grid_id" in m.columns && "district" in dist.columns && "district" in t.columns
    requires |t.rows| == |l.rows| && |dist.rows| == |m.rows|
  {
    forall i, j :: 0 <= i < |l.rows| && 0 <= j < |m.rows| && m.rows[j]["grid_id"] == l.rows[i]["grid_id"] ==>
      t.rows[i]["district"] == Labelled(dist.rows[j]["district"])
  }

  /** A row of l whose id no row of m has is labelled unclassified. */
  predicate UnmatchedLabelled(l: Table, m: Table, t: Table)
    requires Valid(l) && Valid(m) && Valid(t)
    requires "grid_id" in l.columns && "grid_id" in m.columns && "district" in t.columns && |t.rows| == |l.rows|
  {
    forall i :: 0 <= i < |l.rows| && (forall j :: 0 <= j < |m.rows| ==> m.rows[j]["grid_id"] != l.rows[i]["grid_id"]) ==>
      t.rows[i]["district"] == Text(UnclassifiedLabel)
  }

  /** The first projected mapping row with the id, if any. */
  function MatchRow(m: Table, id: Cell): (o: Option<Row>)
    requires Valid(m) && "grid_id" in m.columns && "district" in m.columns
    ensures o.Some? ==> forall c :: c in MergeCols(m.columns) ==> c in o.value
  {
    FirstMatch(MappingPart(m).rows, "grid_id", id)
  }

  /** out is VFM row i joined with its first match, district labelled: its values under their merged names and the match's district. */
  predicate JoinedRowOf(out: Row, l: Table, m: Table, i: nat)
    requires Valid(l) && Valid(m) && "grid_id" in l.columns && "grid_id" in m.columns && "district" in m.columns
    requires i < |l.rows|
  {
    var mrow := MatchRow(m, l.rows[i]["grid_id"]);
    && "district" in out && out["district"] == Labelled(if mrow.Some? then mrow.value["district"] else Null)
    && forall c :: c in l.columns ==>
         LeftName(c, "grid_id", MergeCols(m.columns)) in out && out[LeftName(c, "grid_id", MergeCols(m.columns))] == l.rows[i][c]
  }

  /** Rows that are the VFM rows joined with their first matches and then labelled are the joined rows JoinedRowOf describes. */
  lemma LabelledJoinRows(l: Table, m: Table, j: seq<Row>, t: seq<Row>)
    requires Valid(l) && Valid(m) && "grid_id" in l.columns && "grid_id" in m.columns && "district" in m.columns
    requires "district" !in l.columns
    requires |j| == |l.rows| && |t| == |l.rows|
    requires forall i :: 0 <= i < |l.rows| ==>
      JoinedFrom(j[i], l.rows[i], FirstMatch(MappingPart(m).rows, "grid_id", l.rows[i]["grid_id"]), l.columns, "grid_id", MergeCols(m.columns))
    requires forall i :: 0 <= i < |l.rows| ==> "district" in j[i] && t[i] == LabelledRow(j[i])
    ensures forall i :: 0 <= i < |l.rows| ==> JoinedRowOf(t[i], l, m, i)
  {
    forall i | 0 <= i < |l.rows|
      ensures JoinedRowOf(t[i], l, m, i)
    {
      LabelledJoinRow(j[i], l.rows[i], MatchRow(m, l.rows[i]["grid_id"]), l.columns, MergeCols(m.columns));
    }
  }

  /** With unique mapping ids, the left join of the VFM rows with the projected mapping is row for row, each row joined with its first match. */
  lemma JoinWithMapping(l: Table, m: Table)
    requires Valid(l) && Valid(m) && "grid_id" in l.columns && "grid_id" in m.columns && "district" in m.columns
    requires UniqueKeys(m.rows, "grid_id") && LeftJoin(l, MappingPart(m), "grid_id", MergeCols(m.columns)).Ok?
    ensures var j := LeftJoin(l, MappingPart(m), "grid_id", MergeCols(m.columns)).value;
      |j.rows| == |l.rows| && forall i :: 0 <= i < |l.rows| ==>
        JoinedFrom(j.rows[i], l.rows[i], FirstMatch(MappingPart(m).rows, "grid_id", l.rows[i]["grid_id"]), l.columns, "grid_id", MergeCols(m.columns))
  {
    MappingPartUnique(m);
    LeftJoinUnique(l, MappingPart(m), "grid_id", MergeCols(m.columns));
  }

  /** Keeping some columns of a mapping with unique ids keeps the ids unique. */
  lemma MappingPartUnique(m: Table)
    requires Valid(m) && "grid_id" in m.columns && "district" in m.columns
    requires UniqueKeys(m.rows, "grid_id")
    ensures UniqueKeys(MappingPart(m).rows, "grid_id")
  {
    ProjectedUnique(m, ["grid_id"] + MergeCols(m.columns));
  }

  /** With unique mapping ids, joined row i is VFM row i joined with its first match and labelled. */
  lemma JoinDistrictsRows(l: Table, m: Table)
    requires Valid(l) && Valid(m) && "grid_id" in l.columns && "grid_id" in m.columns && "district" in m.columns
    requires JoinDistricts(l, m).Ok? && UniqueKeys(m.rows, "grid_id")
    ensures var t := JoinDistricts(l, m).value;
      |t.rows| == |l.rows| && forall i :: 0 <= i < |l.rows| ==> JoinedRowOf(t.rows[i], l, m, i)
  {
    var cols := MergeCols(m.columns);
    DistrictAfterJoin(l.columns, cols);
    var j0 := LeftJoin(l, MappingPart(m), "grid_id", cols).value;
    assert JoinDistricts(l, m).value == LabelUnmatched(j0);
    JoinWithMapping(l, m);
    LabelledJoinRows(l, m, j0.rows, LabelUnmatched(j0).rows);
  }

  /** With unique mapping ids, joined row i holds the values of VFM row i under their merged names. */
  lemma JoinKeepsVfmValues(l: Table, m: Table)
    requires Valid(l) && Valid(m) && "grid_id" in l.columns && "grid_id" in m.columns && "district" in m.columns
    requires JoinDistricts(l, m).Ok? && UniqueKeys(m.rows, "grid_id")
    ensures var t := JoinDistricts(l, m).value;
      |t.rows| == |l.rows| && KeepsValues(l, t, MergeCols(m.columns))
  {
    var t := JoinDistricts(l, m).value;
    var cols := MergeCols(m.columns);
    JoinDistrictsRows(l, m);
    forall i | 0 <= i < |l.rows|
      ensures forall c :: c in l.columns ==>
        LeftName(c, "grid_id", cols) in t.rows[i] && t.rows[i][LeftName(c, "grid_id", cols)] == l.rows[i][c]
    {
      assert JoinedRowOf(t.rows[i], l, m, i);
    }
  }

  /** The match of a joined row: none exactly when no mapping row has its id, else that row's district. */
  lemma MatchRowDistrict(m: Table, id: Cell)
    requires Valid(m) && "grid_id" in m.columns && "district" in m.columns && UniqueKeys(m.rows, "grid_id")
    ensures MatchRow(m, id).None? <==> forall j :: 0 <= j < |m.rows| ==> m.rows[j]["grid_id"] != id
    ensures forall j :: 0 <= j < |m.rows| && m.rows[j]["grid_id"] == id ==>
      MatchRow(m, id).Some? && MatchRow(m, id).value["district"] == m.rows[j]["district"]
  {
    var pc := ["grid_id"] + MergeCols(m.columns);
    assert MappingPart(m) == Project(m, pc);
    MatchOfProjection(m, pc, id);
  }

  /** With unique mapping ids, a VFM row whose id the mapping has gets that mapping row's district (labelled if NaN). */
  lemma JoinMatchedDistrict(l: Table, m: Table)
    requires Valid(l) && Valid(m) && "grid_id" in l.columns && "grid_id" in m.columns && "district" in m.columns
    requires JoinDistricts(l, m).Ok? && UniqueKeys(m.rows, "grid_id")
    ensures var t := JoinDistricts(l, m).value;
      "district" in t.columns && |t.rows| == |l.rows| && MatchedDistricts(l, m, m, t)
  {
    JoinDistrictsRows(l, m);
    RowsMatchedDistricts(l, m, JoinDistricts(l, m).value);
  }

  /** Joined rows as JoinedRowOf describes carry, for each mapping row sharing the id, that row's district. */
  lemma RowsMatchedDistricts(l: Table, m: Table, t: Table)
    requires Valid(l) && Valid(m) && "grid_id" in l.columns && "grid_id" in m.columns && "district" in m.columns
    requires UniqueKeys(m.rows, "grid_id")
    requires Valid(t) && "district" in t.columns && |t.rows| == |l.rows|
    requires forall i :: 0 <= i < |l.rows| ==> JoinedRowOf(t.rows[i], l, m, i)
    ensures MatchedDistricts(l, m, m, t)
  {
    forall i, j | 0 <= i < |l.rows| && 0 <= j < |m.rows| && m.rows[j]["grid_id"] == l.rows[i]["grid_id"]
      ensures t.rows[i]["district"] == Labelled(m.rows[j]["district"])
    {
      MatchedRowDistrict(l, m, i, j, t.rows[i]);
    }
  }

  /** Joined rows as JoinedRowOf describes label every VFM row whose id no mapping row has as unclassified. */
  lemma RowsUnmatchedLabelled(l: Table, m: Table, t: Table)
    requires Valid(l) && Valid(m) && "grid_id" in l.columns && "grid_id" in m.columns && "district" in m.columns
    requires UniqueKeys(m.rows, "grid_id")
    requires Valid(t) && "district" in t.columns && |t.rows| == |l.rows|
    requires forall i :: 0 <= i < |l.rows| ==> JoinedRowOf(t.rows[i], l, m, i)
    ensures UnmatchedLabelled(l, m, t)
  {
    forall i | 0 <= i < |l.rows| && (forall j :: 0 <= j < |m.rows| ==> m.rows[j]["grid_id"] != l.rows[i]["grid_id"])
      ensures t.rows[i]["district"] == Text(UnclassifiedLabel)
    {
      UnmatchedRowDistrict(l, m, i, t.rows[i]);
    }
  }

  /** A joined row of a VFM row whose id mapping row j has carries row j's district, labelled. */
  lemma MatchedRowDistrict(l: Table, m: Table, i: nat, j: nat, out: Row)
    requires Valid(l) && Valid(m) && "grid_id" in l.columns && "grid_id" in m.columns && "district" in m.columns
    requires UniqueKeys(m.rows, "grid_id")
    requires i < |l.rows| && j < |m.rows| && m.rows[j]["grid_id"] == l.rows[i]["grid_id"]
    requires JoinedRowOf(out, l, m, i)
    ensures "district" in out && out["district"] == Labelled(m.rows[j]["district"])
  {
    MatchRowDistrict(m, l.rows[i]["grid_id"]);
  }

  /** A joined row of a VFM row whose id no mapping row has is labelled unclassified. */
  lemma UnmatchedRowDistrict(l: Table, m: Table, i: nat, out: Row)
    requires Valid(l) && Valid(m) && "grid_id" in l.columns && "grid_id" in m.columns && "district" in m.columns
    requires UniqueKeys(m.rows, "grid_id")
    requires i < |l.rows| && forall j :: 0 <= j < |m.rows| ==> m.rows[j]["grid_id"] != l.rows[i]["grid_id"]
    requires JoinedRowOf(out, l, m, i)
    ensures "district" in out && out["district"] == Text(UnclassifiedLabel)
  {
    MatchRowDistrict(m, l.rows[i]["grid_id"]);
  }

  /** With unique mapping ids, a VFM row whose id the mapping lacks is labelled unclassified. */
  lemma JoinUnmatchedDistrict(l: Table, m: Table)
    requires Valid(l) && Valid(m) && "grid_id" in l.columns && "grid_id" in m.columns && "district" in m.columns
    requires JoinDistricts(l, m).Ok? && UniqueKeys(m.rows, "grid_id")
    ensures var t := JoinDistricts(l, m).value;
      "district" in t.columns && |t.rows| == |l.rows| && UnmatchedLabelled(l, m, t)
  {
    JoinDistrictsRows(l, m);
    RowsUnmatchedLabelled(l, m, JoinDistricts(l, m).value);
  }

  /**
    With unique ids in the mapping the merge is row for row, and row i keeps
    the values of VFM row i (ids stripped) under their merged names.
  */
  lemma MergeKeepsVfmValues(vfm: Table, mapping: Table, showNum: real -> string)
    requires Valid(vfm) && Valid(mapping) && "grid_id" in vfm.columns && "grid_id" in mapping.columns && "district" in mapping.columns
    requires MergeVfmWithDistrict(vfm, mapping, showNum).Ok?
    requires UniqueKeys(StrippedIds(mapping, showNum).rows, "grid_id")
    ensures var t := MergeVfmWithDistrict(vfm, mapping, showNum).value;
      var l := StrippedIds(vfm, showNum);
      |l.rows| == |vfm.rows| && |t.rows| == |l.rows| && KeepsValues(l, t, MergeCols(mapping.columns))
  {
    var l := StrippedIds(vfm, showNum);
    var m := StrippedIds(mapping, showNum);
    JoinKeepsVfmValues(l, m);
    assert MergeVfmWithDistrict(vfm, mapping, showNum) == JoinDistricts(l, m);
  }

  /**
    With unique ids in the mapping, a VFM row whose (stripped) id mapping row
    j has gets the district of mapping row j, or the unclassified label when
    that district is NaN.
  */
  lemma MergeMatchedDistrict(vfm: Table, mapping: Table, showNum: real -> string)
    requires Valid(vfm) && Valid(mapping) && "grid_id" in vfm.columns && "grid_id" in mapping.columns && "district" in mapping.columns
    requires MergeVfmWithDistrict(vfm, mapping, showNum).Ok?
    requires UniqueKeys(StrippedIds(mapping, showNum).rows, "grid_id")
    ensures var t := MergeVfmWithDistrict(vfm, mapping, showNum).value;
      var l := StrippedIds(vfm, showNum);
      var m := StrippedIds(mapping, showNum);
      && "district" in t.columns && |t.rows| == |l.rows| && |m.rows| == |mapping.rows|
      && MatchedDistricts(l, m, mapping, t)
  {
    var l := StrippedIds(vfm, showNum);
    var m := StrippedIds(mapping, showNum);
    JoinMatchedDistrict(l, m);
    assert MergeVfmWithDistrict(vfm, mapping, showNum) == JoinDistricts(l, m);
    StrippedDistricts(l, mapping, showNum, JoinDistricts(l, m).value);
  }

  /** Stripping the ids leaves the districts alone, so matched districts may be read off the unstripped mapping. */
  lemma StrippedDistricts(l: Table, mapping: Table, showNum: real -> string, t: Table)
    requires Valid(l) && Valid(mapping) && Valid(t) && "grid_id" in l.columns && "grid_id" in mapping.columns
    requires "district" in mapping.columns && "district" in t.columns && |t.rows| == |l.rows|
    requires MatchedDistricts(l, StrippedIds(mapping, showNum), StrippedIds(mapping, showNum), t)
    ensures MatchedDistricts(l, StrippedIds(mapping, showNum), mapping, t)
  {
    var m := StrippedIds(mapping, showNum);
    forall j | 0 <= j < |m.rows|
      ensures m.rows[j]["district"] == mapping.rows[j]["district"]
    {
    }
  }

  /** With unique ids in the mapping, a VFM row whose (stripped) id no mapping row has is labelled unclassified. */
  lemma MergeUnmatchedDistrict(vfm: Table, mapping: Table, showNum: real -> string)
    requires Valid(vfm) && Valid(mapping) && "grid_id" in vfm.columns && "grid_id" in mapping.columns && "district" in mapping.columns
    requires MergeVfmWithDistrict(vfm, mapping, showNum).Ok?
    requires UniqueKeys(StrippedIds(mapping, showNum).rows, "grid_id")
    ensures var t := MergeVfmWithDistrict(vfm, mapping, showNum).value;
      var l := StrippedIds(vfm, showNum);
      var m := StrippedIds(mapping, showNum);
      "district" in t.columns && |t.rows| == |l.rows| && UnmatchedLabelled(l, m, t)
  {
    var l := StrippedIds(vfm, showNum);
    var m := StrippedIds(mapping, showNum);
    JoinUnmatchedDistrict(l, m);
    assert MergeVfmWithDistrict(vfm, mapping, showNum) == JoinDistricts(l, m);
  }
}
