/**
  The one-off clean-up of the grid-to-district mapping file
  (fix_duplicate_grids.py): the coordinate columns are renamed to lat/lon,
  the rows sharing a grid_id are found, and the mapping is collapsed to one
  row per grid with the mean coordinates and the most frequent district.
  One row per grid is what makes the loader's left join keep its row count.
*/
module GridDedup {
  import opened Frames
  import opened FramesMerge
  import DataLoader
  import PyStr

  const Id := "grid_id"

  // ---------------------------------------------------------------------
  // Coordinate column names

  /** The name a column has after `rename(columns={'latitude': 'lat', 'longitude': 'lon'})`. */
  function NewName(c: string): string {
    if c == "latitude" then "lat" else if c == "longitude" then "lon" else c
  }

  /**
    One row with its coordinate cells under the new names. A row that also
    has a `lat` or `lon` cell of its own keeps the renamed one.
  */
  function RenameRow(r: Row): (s: Row)
    requires "latitude" in r && "longitude" in r
    ensures "lat" in s && s["lat"] == r["latitude"] && "lon" in s && s["lon"] == r["longitude"]
    ensures "latitude" !in s && "longitude" !in s
    ensures forall c :: c in r && c != "latitude" && c != "longitude" && c != "lat" && c != "lon" ==>
      c in s && s[c] == r[c]
    ensures forall c :: c in s ==> c == "lat" || c == "lon" || c in r
  {
    var keys := (r.Keys - {"latitude", "longitude"}) + {"lat", "lon"};
    map c | c in keys :: if c == "lat" then r["latitude"] else if c == "lon" then r["longitude"] else r[c]
  }

  /** Both coordinate columns exist under their long names. */
  predicate LongNames(t: Table) {
    "latitude" in t.columns && "longitude" in t.columns
  }

  /** The rename of lines 23-25: done only when both long names are present. */
  function StandardNames(t: Table): (r: Table)
    requires Valid(t)
    ensures Valid(r) && |r.rows| == |t.rows|
    ensures LongNames(t) ==> |r.columns| == |t.columns|
    ensures LongNames(t) ==> forall i :: 0 <= i < |t.columns| ==> r.columns[i] == NewName(t.columns[i])
    ensures LongNames(t) ==> forall i :: 0 <= i < |t.rows| ==> r.rows[i] == RenameRow(t.rows[i])
    ensures !LongNames(t) ==> r == t
  {
    if LongNames(t) then
      var cols := seq(|t.columns|, i requires 0 <= i < |t.columns| => NewName(t.columns[i]));
      var rows := seq(|t.rows|, i requires 0 <= i < |t.rows| => RenameRow(t.rows[i]));
      RenamedFit(t, cols, rows);
      Table(cols, rows)
    else t
  }

  lemma RenamedFit(t: Table, cols: seq<string>, rows: seq<Row>)
    requires Valid(t) && LongNames(t)
    requires |cols| == |t.columns| && forall i :: 0 <= i < |t.columns| ==> cols[i] == NewName(t.columns[i])
    requires |rows| == |t.rows| && forall i :: 0 <= i < |t.rows| ==> rows[i] == RenameRow(t.rows[i])
    ensures Valid(Table(cols, rows))
  {
    forall i | 0 <= i < |rows|
      ensures Fits(cols, rows[i])
    {
      var r := t.rows[i];
      assert Fits(t.columns, r);
      forall c | c in rows[i]
        ensures c in cols
      {
        var k := if c == "lat" then "latitude" else if c == "lon" then "longitude" else c;
        assert k in t.columns;
        var j :| 0 <= j < |t.columns| && t.columns[j] == k;
        assert cols[j] == c;
      }
      forall c | c in cols
        ensures c in rows[i]
      {
        var j :| 0 <= j < |cols| && cols[j] == c;
        assert t.columns[j] in r;
      }
    }
  }

  // ---------------------------------------------------------------------
  // The rows sharing a grid_id

  /** How often v occurs in col. NaN equals NaN here, as in `duplicated`. */
  function Occurrences(col: seq<Cell>, v: Cell): (n: nat)
    ensures n <= |col|
    ensures n > 0 <==> v in col
  {
    if col == [] then 0 else (if col[0] == v then 1 else 0) + Occurrences(col[1..], v)
  }

  /**
    `df[df.duplicated(subset=['grid_id'], keep=False)]`: every row whose
    grid_id occurs more than once, all copies, in table order.
  */
  function Duplicated(t: Table): (r: Result<seq<Row>>)
    requires Valid(t)
    ensures r.Err? <==> Id !in t.columns
    ensures r.Err? ==> r.error == KeyError(Id)
    ensures r.Ok? ==> forall x :: x in r.value <==> x in t.rows && Occurrences(Column(t, Id), x[Id]) > 1
    ensures r.Ok? ==> forall x ::
      multiset(r.value)[x] == (if Id in x && Occurrences(Column(t, Id), x[Id]) > 1 then multiset(t.rows)[x] else 0)
    ensures r.Ok? ==> IsSubsequence(r.value, t.rows)
  {
    if Id !in t.columns then Err(KeyError(Id))
    else
      var ids := Column(t, Id);
      var rows := Where(t.rows, x => Id in x && Occurrences(ids, x[Id]) > 1);
      assert forall x :: x in t.rows ==> Id in x;
      Ok(rows)
  }

  // ---------------------------------------------------------------------
  // The order pandas sorts group keys and modes in

  /** Python's `<` on strings: by code points, a proper prefix first. */
  predicate StrBefore(a: string, b: string) {
    b != [] && (a == [] || a[0] < b[0] || (a[0] == b[0] && StrBefore(a[1..], b[1..])))
  }

  lemma {:induction false} StrBeforeIrreflexive(a: string)
    ensures !StrBefore(a, a)
  {
    if a != [] {
      StrBeforeIrreflexive(a[1..]);
    }
  }

  lemma {:induction false} StrBeforeTotal(a: string, b: string)
    ensures a == b || StrBefore(a, b) || StrBefore(b, a)
  {
    if a != [] && b != [] && a[0] == b[0] {
      StrBeforeTotal(a[1..], b[1..]);
      if a[1..] == b[1..] {
        assert a == [a[0]] + a[1..] && b == [b[0]] + b[1..];
      }
    }
  }

  lemma {:induction false} StrBeforeTransitive(a: string, b: string, c: string)
    requires StrBefore(a, b) && StrBefore(b, c)
    ensures StrBefore(a, c)
  {
    if a != [] && a[0] == b[0] && b[0] == c[0] {
      StrBeforeTransitive(a[1..], b[1..], c[1..]);
    }
  }

  /**
    The order of a sorted key or mode: numbers by value, then strings, as
    pandas sorts values of mixed type. NaN is never sorted.
  */
  predicate Before(a: Cell, b: Cell) {
    match a
    case Num(x) => (b.Num? && x < b.v) || b.Text?
    case Text(x) => b.Text? && StrBefore(x, b.s)
    case Null => false
  }

  lemma BeforeIrreflexive(a: Cell)
    ensures !Before(a, a)
  {
    if a.Text? {
      StrBeforeIrreflexive(a.s);
    }
  }

  lemma BeforeTotal(a: Cell, b: Cell)
    requires !a.Null? && !b.Null?
    ensures a == b || Before(a, b) || Before(b, a)
  {
    if a.Text? && b.Text? {
      StrBeforeTotal(a.s, b.s);
    }
  }

  lemma BeforeTransitive(a: Cell, b: Cell, c: Cell)
    requires Before(a, b) && Before(b, c)
    ensures Before(a, c)
  {
    if a.Text? {
      StrBeforeTransitive(a.s, b.s, c.s);
    }
  }

  /** Strictly increasing in the sort order: sorted and without repeats. */
  predicate Increasing(s: seq<Cell>) {
    forall i, j :: 0 <= i < j < |s| ==> Before(s[i], s[j])
  }

  predicate NoNull(s: seq<Cell>) {
    forall i :: 0 <= i < |s| ==> !s[i].Null?
  }

  lemma IncreasingDistinct(s: seq<Cell>)
    requires Increasing(s)
    ensures Distinct(s)
  {
    forall i, j | 0 <= i < j < |s|
      ensures s[i] != s[j]
    {
      BeforeIrreflexive(s[i]);
    }
  }

  /** Below the first of an increasing sequence is below all of it. */
  lemma BelowAll(x: Cell, s: seq<Cell>)
    requires s != [] && Increasing(s) && Before(x, s[0])
    ensures forall j :: 0 <= j < |s| ==> Before(x, s[j])
  {
    forall j | 1 <= j < |s|
      ensures Before(x, s[j])
    {
      BeforeTransitive(x, s[0], s[j]);
    }
  }

  /** x added to an increasing sequence of keys, unless it is there already. */
  function InsertKey(x: Cell, s: seq<Cell>): (r: seq<Cell>)
    requires !x.Null? && NoNull(s) && Increasing(s)
    ensures forall y :: y in r <==> y == x || y in s
    ensures NoNull(r) && Increasing(r)
  {
    if s == [] then [x]
    else if x == s[0] then s
    else if Before(x, s[0]) then
      BelowAll(x, s);
      [x] + s
    else
      BeforeTotal(x, s[0]);
      var rest := InsertKey(x, s[1..]);
      assert forall y :: y in rest ==> Before(s[0], y);
      [s[0]] + rest
  }

  /** The sorted group keys of `groupby('grid_id')`: each non-NaN id once, in sort order. */
  function GroupKeys(ids: seq<Cell>): (ks: seq<Cell>)
    ensures forall y :: y in ks <==> y in ids && !y.Null?
    ensures NoNull(ks) && Increasing(ks)
  {
    if ids == [] then []
    else
      assert ids == [ids[0]] + ids[1..];
      if ids[0].Null? then GroupKeys(ids[1..]) else InsertKey(ids[0], GroupKeys(ids[1..]))
  }

  // ---------------------------------------------------------------------
  // One grid's rows

  /** The cells of column vals in the rows whose id is k, in row order. */
  function GroupCells(ids: seq<Cell>, vals: seq<Cell>, k: Cell): (g: seq<Cell>)
    requires |ids| == |vals|
    ensures |g| == Occurrences(ids, k)
  {
    if ids == [] then [] else (if ids[0] == k then [vals[0]] else []) + GroupCells(ids[1..], vals[1..], k)
  }

  /** Row i's id beside its cell of column vals. */
  function Pairs(ids: seq<Cell>, vals: seq<Cell>): (ps: seq<(Cell, Cell)>)
    requires |ids| == |vals|
    ensures |ps| == |ids| && forall i :: 0 <= i < |ids| ==> ps[i] == (ids[i], vals[i])
  {
    seq(|ids|, i requires 0 <= i < |ids| => (ids[i], vals[i]))
  }

  /** A grid's cells hold each value as often as a row pairs that grid's id with it. */
  lemma {:induction false} GroupCellsCounts(ids: seq<Cell>, vals: seq<Cell>, k: Cell)
    requires |ids| == |vals|
    ensures forall x :: multiset(GroupCells(ids, vals, k))[x] == multiset(Pairs(ids, vals))[(k, x)]
  {
    if ids != [] {
      GroupCellsCounts(ids[1..], vals[1..], k);
      var ps := Pairs(ids, vals);
      assert ps == [(ids[0], vals[0])] + Pairs(ids[1..], vals[1..]);
      var head := if ids[0] == k then [vals[0]] else [];
      assert multiset(GroupCells(ids, vals, k)) == multiset(head) + multiset(GroupCells(ids[1..], vals[1..], k));
      assert multiset(ps) == multiset([(ids[0], vals[0])]) + multiset(Pairs(ids[1..], vals[1..]));
    }
  }

  /** A grid's cells are the cells of column vals in exactly the rows with that grid's id. */
  lemma {:induction false} GroupCellsFrom(ids: seq<Cell>, vals: seq<Cell>, k: Cell)
    requires |ids| == |vals|
    ensures forall i :: 0 <= i < |ids| && ids[i] == k ==> vals[i] in GroupCells(ids, vals, k)
    ensures forall x :: x in GroupCells(ids, vals, k) ==> exists i :: 0 <= i < |ids| && ids[i] == k && vals[i] == x
  {
    if ids != [] {
      GroupCellsFrom(ids[1..], vals[1..], k);
      assert forall i :: 1 <= i < |ids| ==> ids[1..][i - 1] == ids[i] && vals[1..][i - 1] == vals[i];
    }
  }

  /**
    `'mean'` of one group: the mean of its numbers, NaN skipped, NaN when
    it has none. It lies between the group's smallest and largest number.
  */
  function MeanCell(col: seq<Cell>): (m: Cell)
    ensures !m.Text?
    ensures m.Null? <==> forall i :: 0 <= i < |col| ==> !col[i].Num?
    ensures m.Num? ==> |Nums(col)| > 0 && MinOf(Nums(col)) <= m.v <= MaxOf(Nums(col))
    ensures m.Num? ==> AverageOf(m.v, Nums(col))
  {
    var xs := Nums(col);
    if |xs| == 0 then Null
    else
      MeanBounds(xs, MinOf(xs), MaxOf(xs));
      MeanTimesCount(xs);
      Num(Mean(xs))
  }

  /** How often x occurs in col. */
  function Count(col: seq<Cell>, x: Cell): nat {
    Occurrences(col, x)
  }

  /** a ranks ahead of b as a mode of col: more frequent, or as frequent and earlier in sort order. */
  predicate Ahead(col: seq<Cell>, a: Cell, b: Cell) {
    Count(col, a) > Count(col, b) || (Count(col, a) == Count(col, b) && Before(a, b))
  }

  lemma AheadTransitive(col: seq<Cell>, a: Cell, b: Cell, c: Cell)
    requires Ahead(col, a, b) && Ahead(col, b, c)
    ensures Ahead(col, a, c)
  {
    if Count(col, a) == Count(col, b) == Count(col, c) {
      BeforeTransitive(a, b, c);
    }
  }

  /** The best mode candidate among cands: None when every candidate is NaN. */
  function ModeAmong(col: seq<Cell>, cands: seq<Cell>): (m: Option<Cell>)
    ensures m.None? <==> NoValue(cands)
    ensures m.Some? ==> !m.value.Null? && m.value in cands
    ensures m.Some? ==> forall y :: y in cands && !y.Null? ==> y == m.value || Ahead(col, m.value, y)
  {
    if cands == [] then None
    else
      var c := cands[0];
      var rest := ModeAmong(col, cands[1..]);
      assert forall y :: y in cands ==> y == c || y in cands[1..];
      if c.Null? then rest
      else if rest.None? then Some(c)
      else if Ahead(col, c, rest.value) then
        AheadAll(col, c, rest.value, cands[1..]);
        Some(c)
      else
        BeforeTotal(c, rest.value);
        Some(rest.value)
  }

  predicate NoValue(s: seq<Cell>) {
    forall i :: 0 <= i < |s| ==> s[i].Null?
  }

  lemma AheadAll(col: seq<Cell>, c: Cell, m: Cell, s: seq<Cell>)
    requires Ahead(col, c, m)
    requires forall y :: y in s && !y.Null? ==> y == m || Ahead(col, m, y)
    ensures forall y :: y in s && !y.Null? ==> y == c || Ahead(col, c, y)
  {
    forall y | y in s && !y.Null? && y != m
      ensures Ahead(col, c, y)
    {
      AheadTransitive(col, c, m, y);
    }
  }

  /**
    `x.mode()[0]`: a most frequent non-NaN value, the first in sort order
    among equally frequent ones; None when every value is NaN.
  */
  function Mode(col: seq<Cell>): (m: Option<Cell>)
    ensures m.None? <==> NoValue(col)
    ensures m.Some? ==> !m.value.Null? && m.value in col
    ensures m.Some? ==> forall y :: y in col && !y.Null? ==> Count(col, y) <= Count(col, m.value)
    ensures m.Some? ==> forall y :: y in col && !y.Null? && y != m.value && Count(col, y) == Count(col, m.value) ==>
      Before(m.value, y)
  {
    ModeAmong(col, col)
  }

  /**
    The district of line 38: the mode, or the group's first value when the
    mode is empty. It is NaN exactly when every row of the group has NaN.
  */
  function DistrictOf(col: seq<Cell>): (d: Cell)
    requires |col| > 0
    ensures d.Null? <==> NoValue(col)
    ensures !d.Null? ==> d == Mode(col).value
  {
    match Mode(col)
    case Some(m) => m
    case None => col[0]
  }

  // ---------------------------------------------------------------------
  // The dedup

  const DedupColumns: seq<string> := [Id, "lat", "lon", "district"]

  /** The first column the group-by needs that the table lacks. */
  function MissingColumn(columns: seq<string>): (m: Option<string>)
    ensures m.None? <==> forall c :: c in DedupColumns ==> c in columns
    ensures m.Some? ==> m.value in DedupColumns && m.value !in columns
  {
    if Id !in columns then Some(Id)
    else if "lat" !in columns then Some("lat")
    else if "lon" !in columns then Some("lon")
    else if "district" !in columns then Some("district")
    else None
  }

  /** The table the group-by can aggregate: every column present and no string coordinate. */
  predicate Groupable(t: Table) {
    Valid(t) && MissingColumn(t.columns).None?
    && NoText(Column(t, "lat")) && NoText(Column(t, "lon"))
  }

  /** The cells of column c in the rows of grid k. */
  function Grid(t: Table, k: Cell, c: string): (g: seq<Cell>)
    requires Valid(t) && Id in t.columns && c in t.columns
    ensures |g| == Occurrences(Column(t, Id), k)
  {
    GroupCells(Column(t, Id), Column(t, c), k)
  }

  /** A row of the deduplicated mapping. */
  function OutputRow(k: Cell, lat: Cell, lon: Cell, district: Cell): (r: Row)
    ensures Fits(DedupColumns, r)
    ensures r[Id] == k && r["lat"] == lat && r["lon"] == lon && r["district"] == district
  {
    map c | c in DedupColumns :: if c == Id then k else if c == "lat" then lat else if c == "lon" then lon else district
  }

  /**
    The output row of grid k: its key, the means of its coordinates and its
    modal district.
  */
  function GroupRow(t: Table, k: Cell): (r: Row)
    requires Groupable(t) && k in Column(t, Id)
    ensures Fits(DedupColumns, r) && r[Id] == k
    ensures "lat" in r && "lon" in r && "district" in r
  {
    OutputRow(k, MeanCell(Grid(t, k, "lat")), MeanCell(Grid(t, k, "lon")), DistrictOf(Grid(t, k, "district")))
  }

  /** The aggregated cells of grid k's row. */
  lemma GroupRowCells(t: Table, k: Cell)
    requires Groupable(t) && k in Column(t, Id)
    ensures GroupRow(t, k)["lat"] == MeanCell(Grid(t, k, "lat"))
    ensures GroupRow(t, k)["lon"] == MeanCell(Grid(t, k, "lon"))
    ensures GroupRow(t, k)["district"] == DistrictOf(Grid(t, k, "district"))
  {
  }

  /** The output rows of the grids with the given keys, in key order. */
  function GroupRows(t: Table, keys: seq<Cell>): (rs: seq<Row>)
    requires Groupable(t) && forall i :: 0 <= i < |keys| ==> keys[i] in Column(t, Id)
    ensures |rs| == |keys|
    ensures forall i :: 0 <= i < |keys| ==> rs[i] == GroupRow(t, keys[i])
  {
    seq(|keys|, i requires 0 <= i < |keys| => GroupRow(t, keys[i]))
  }

  /**
    `groupby('grid_id').agg({'lat': 'mean', 'lon': 'mean', 'district': <mode>}).reset_index()`:
    one row per non-NaN grid_id, in sort order, with the group's mean
    coordinates and modal district. A missing column is a KeyError, a
    string coordinate a TypeError.
  */
  function Dedup(t: Table): (r: Result<Table>)
    requires Valid(t)
    ensures r.Err? <==> !Groupable(t)
    ensures r.Err? ==> r.error == if MissingColumn(t.columns).Some? then KeyError(MissingColumn(t.columns).value) else TypeError
    ensures r.Ok? ==> Valid(r.value) && r.value.columns == DedupColumns
    ensures r.Ok? ==> Increasing(Column(r.value, Id))
    ensures r.Ok? ==> forall k :: k in Column(r.value, Id) <==> k in Column(t, Id) && !k.Null?
    ensures r.Ok? ==> forall i :: 0 <= i < |r.value.rows| ==> r.value.rows[i] == GroupRow(t, r.value.rows[i][Id])
  {
    if MissingColumn(t.columns).Some? then Err(KeyError(MissingColumn(t.columns).value))
    else if !NoText(Column(t, "lat")) || !NoText(Column(t, "lon")) then Err(TypeError)
    else
      var keys := GroupKeys(Column(t, Id));
      var rows := GroupRows(t, keys);
      var u := Table(DedupColumns, rows);
      assert Column(u, Id) == keys;
      Ok(u)
  }

  /** The number of distinct values of a sequence without repeats is its length. */
  lemma {:induction false} DistinctCard(s: seq<Cell>)
    requires Distinct(s)
    ensures |set x | x in s| == |s|
  {
    if s != [] {
      var rest := s[1..];
      assert Distinct(rest) by {
        forall i, j | 0 <= i < j < |rest|
          ensures rest[i] != rest[j]
        {
          assert rest[i] == s[i + 1] && rest[j] == s[j + 1];
        }
      }
      DistinctCard(rest);
      assert s[0] !in rest by {
        forall i | 0 <= i < |rest|
          ensures rest[i] != s[0]
        {
          assert rest[i] == s[i + 1];
        }
      }
      assert (set x | x in s) == (set x | x in rest) + {s[0]};
    }
  }

  /**
    Line 43: after the dedup every grid_id is unique, and there are as many
    rows as distinct non-NaN ids in the input.
  */
  lemma OneRowPerGrid(t: Table)
    requires Valid(t) && Dedup(t).Ok?
    ensures Distinct(Column(Dedup(t).value, Id))
    ensures |Dedup(t).value.rows| == |set k | k in Column(t, Id) && !k.Null?|
  {
    var u := Dedup(t).value;
    var keys := Column(u, Id);
    IncreasingDistinct(keys);
    DistinctCard(keys);
    assert (set x | x in keys) == (set k | k in Column(t, Id) && !k.Null?);
  }

  /**
    A deduplicated mapping whose ids were already stripped strings has unique
    ids after the loader strips them again, which is what the loader's left
    join needs to keep one row per VFM row.
  */
  lemma DedupedIdsUnique(t: Table, showNum: real -> string)
    requires Valid(t) && Dedup(t).Ok? && DataLoader.IdsStripped(t)
    ensures DataLoader.StrippedIds(Dedup(t).value, showNum) == Dedup(t).value
    ensures UniqueKeys(Dedup(t).value.rows, Id)
  {
    var u := Dedup(t).value;
    var ids := Column(u, Id);
    OneRowPerGrid(t);
    forall i | 0 <= i < |u.rows|
      ensures u.rows[i][Id].Text? && PyStr.IsStripped(u.rows[i][Id].s)
    {
      assert ids[i] in Column(t, Id);
      var j :| 0 <= j < |t.rows| && Column(t, Id)[j] == ids[i];
    }
    DataLoader.StrippedIdsIdempotent(u, showNum);
    forall i, j | 0 <= i < j < |u.rows|
      ensures u.rows[i][Id] != u.rows[j][Id]
    {
      assert ids[i] != ids[j];
    }
  }

  /** Merging VFM rows with such a mapping keeps exactly the VFM rows. */
  lemma DedupedMergeKeepsRows(vfm: Table, t: Table, showNum: real -> string)
    requires Valid(vfm) && "grid_id" in vfm.columns
    requires Valid(t) && Dedup(t).Ok? && DataLoader.IdsStripped(t)
    requires DataLoader.MergeVfmWithDistrict(vfm, Dedup(t).value, showNum).Ok?
    ensures |DataLoader.MergeVfmWithDistrict(vfm, Dedup(t).value, showNum).value.rows| == |vfm.rows|
  {
    DedupedIdsUnique(t, showNum);
    DataLoader.MergeKeepsVfmValues(vfm, Dedup(t).value, showNum);
  }

  // ---------------------------------------------------------------------
  // The script

  /** `notna().sum()` */
  function CountPresent(col: seq<Cell>): (k: nat)
    ensures k <= |col|
  {
    if col == [] then 0 else (if col[0].Null? then 0 else 1) + CountPresent(col[1..])
  }

  /** Every cell is either NaN or not: the two counts of lines 47-48 add up to the length. */
  lemma {:induction false} PresentPlusNull(col: seq<Cell>)
    ensures CountPresent(col) + CountNull(col) == |col|
  {
    if col != [] {
      PresentPlusNull(col[1..]);
    }
  }

  /** What the script reports and writes back. */
  datatype Report = Report(duplicates: seq<Row>, unique: Table, mapped: nat, unmapped: nat)

  /**
    The whole script on the mapping file: rename, find the duplicates,
    dedup, count the mapped and unmapped grids.
  */
  function FixDuplicateGrids(t: Table): (r: Result<Report>)
    requires Valid(t)
    ensures var s := StandardNames(t);
      && (r.Err? <==> !Groupable(s))
      && (r.Err? ==> Dedup(s).Err? && r.error == Dedup(s).error)
      && (r.Ok? ==> r.value.unique == Dedup(s).value && Duplicated(s) == Ok(r.value.duplicates))
    ensures r.Ok? ==> r.value.mapped + r.value.unmapped == |r.value.unique.rows|
    ensures r.Ok? ==> var u := r.value.unique;
      r.value.unmapped == 0 <==> forall i :: 0 <= i < |u.rows| ==> !u.rows[i]["district"].Null?
  {
    var s := StandardNames(t);
    match Duplicated(s)
    case Err(e) => Err(e)
    case Ok(duplicates) =>
      match Dedup(s)
      case Err(e) => Err(e)
      case Ok(u) =>
        var districts := Column(u, "district");
        PresentPlusNull(districts);
        Ok(Report(duplicates, u, CountPresent(districts), CountNull(districts)))
  }
}
