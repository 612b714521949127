/**
  The data loader's queries over loaded tables: the summary of a VFM table,
  the coordinates of one grid, and the district column added on demand.
*/
module DataQueries {
  import opened Frames
  import opened PyStr
  import opened FramesMerge
  import opened DataLoader

  // ---------------------------------------------------------------------
  // get_data_summary

  /** The distinct values of a column, NaN left out. */
  function Values(col: seq<Cell>): (vs: set<Cell>)
    ensures forall x :: x in vs <==> x in col && !x.Null?
  {
    if col == [] then {}
    else (if col[0].Null? then {} else {col[0]}) + Values(col[1..])
  }

  /** `Series.nunique()`: the number of distinct values, NaN not counted. */
  function NUnique(col: seq<Cell>): nat {
    |Values(col)|
  }

  /** A column has at most as many distinct values as it has non-NaN cells. */
  lemma {:induction false} NUniqueAtMost(col: seq<Cell>)
    ensures NUnique(col) <= |col| - CountNull(col)
  {
    if col != [] {
      NUniqueAtMost(col[1..]);
      if col[0].Null? {
        assert Values(col) == Values(col[1..]);
      } else {
        assert Values(col) == {col[0]} + Values(col[1..]);
      }
    }
  }

  /** Distinct cells, none NaN, count once each. */
  lemma {:induction false} NUniqueOfDistinct(col: seq<Cell>)
    requires Distinct(col) && CountNull(col) == 0
    ensures NUnique(col) == |col|
  {
    if col != [] {
      var tail := col[1..];
      assert Distinct(tail) by {
        assert forall i :: 0 <= i < |tail| ==> tail[i] == col[i + 1];
      }
      NUniqueOfDistinct(tail);
      assert col[0] !in tail;
      assert Values(col) == {col[0]} + Values(tail);
    }
  }

  /** A NaN or repeated first cell adds no value. */
  lemma ValuesDrop(col: seq<Cell>)
    requires col != [] && (col[0].Null? || col[0] in Values(col[1..]))
    ensures Values(col) == Values(col[1..])
  {
  }

  /** A column whose every cell counts once has distinct cells, none NaN. */
  lemma {:induction false} DistinctOfNUnique(col: seq<Cell>)
    requires NUnique(col) == |col|
    ensures Distinct(col) && CountNull(col) == 0
  {
    if col != [] {
      var tail := col[1..];
      NUniqueAtMost(tail);
      if col[0].Null? || col[0] in Values(tail) {
        ValuesDrop(col);
        assert false;
      }
      assert Values(col) == {col[0]} + Values(tail);
      DistinctOfNUnique(tail);
      DistinctCons(col[0], tail);
      assert col == [col[0]] + tail;
    }
  }

  /** Every id counts once exactly when no two cells are equal and none is NaN. */
  lemma NUniqueFull(col: seq<Cell>)
    ensures NUnique(col) == |col| <==> Distinct(col) && CountNull(col) == 0
  {
    if NUnique(col) == |col| {
      DistinctOfNUnique(col);
    }
    if Distinct(col) && CountNull(col) == 0 {
      NUniqueOfDistinct(col);
    }
  }

  /**
    The summary dictionary: record and grid counts, the range and mean of
    `vfm_normalized`, and for the contract type's price columns that exist,
    their ranges and means (and for rent, how many rows have one).
  */
  datatype Summary = Summary(
    totalRecords: nat, uniqueGrids: nat, vfm: Stats,
    rentAvailable: Option<nat>, rent: Option<Stats>, deposit: Option<Stats>, jeonse: Option<Stats>)

  /** `(df[c].min(), df[c].max())` and `df[c].mean()` for a column that may be absent. */
  function StatsOf(t: Table, c: string): (r: Result<Stats>)
    requires Valid(t)
    ensures c !in t.columns ==> r == Err(KeyError(c))
    ensures c in t.columns ==> r == ColumnStats(Column(t, c))
  {
    if c !in t.columns then Err(KeyError(c)) else ColumnStats(Column(t, c))
  }

  /** The statistics of column c when it exists; a string in it makes the reductions raise. */
  function OptionalStats(t: Table, c: string): (r: Result<Option<Stats>>)
    requires Valid(t)
    ensures c !in t.columns ==> r == Ok(None)
    ensures c in t.columns ==> (r.Ok? <==> NoText(Column(t, c)))
    ensures c in t.columns && r.Ok? ==> r.value == Some(ColumnStats(Column(t, c)).value)
  {
    if c !in t.columns then Ok(None)
    else match ColumnStats(Column(t, c))
      case Err(e) => Err(e)
      case Ok(s) => Ok(Some(s))
  }

  /** `get_data_summary(df, contract_type)` */
  function GetDataSummary(t: Table, contractType: string := "monthly"): (r: Result<Summary>)
    requires Valid(t)
    ensures r.Ok? <==>
      && "grid_id" in t.columns && "vfm_normalized" in t.columns && NoText(Column(t, "vfm_normalized"))
      && forall c :: c in PriceColumns(contractType) && c in t.columns ==> NoText(Column(t, c))
    ensures "grid_id" !in t.columns ==> r == Err(KeyError("grid_id"))
    ensures "grid_id" in t.columns && "vfm_normalized" !in t.columns ==> r == Err(KeyError("vfm_normalized"))
    ensures r.Err? && r.error != KeyError("grid_id") && r.error != KeyError("vfm_normalized") ==> r.error == TypeError
    ensures r.Ok? ==>
      var s := r.value;
      && s.totalRecords == |t.rows|
      && s.uniqueGrids == NUnique(Column(t, "grid_id"))
      && s.vfm == ColumnStats(Column(t, "vfm_normalized")).value
      && (s.rentAvailable.Some? <==> contractType == "monthly" && "monthly_rent" in t.columns)
      && (s.rentAvailable.Some? ==> s.rentAvailable.value == |t.rows| - CountNull(Column(t, "monthly_rent")))
      && (s.rent.Some? <==> contractType == "monthly" && "monthly_rent" in t.columns)
      && (s.deposit.Some? <==> contractType == "monthly" && "deposit_amount" in t.columns)
      && (s.jeonse.Some? <==> contractType != "monthly" && "total_deposit_median" in t.columns)
      && (s.rent.Some? ==> s.rent.value == ColumnStats(Column(t, "monthly_rent")).value)
      && (s.deposit.Some? ==> s.deposit.value == ColumnStats(Column(t, "deposit_amount")).value)
      && (s.jeonse.Some? ==> s.jeonse.value == ColumnStats(Column(t, "total_deposit_median")).value)
  {
    if "grid_id" !in t.columns then Err(KeyError("grid_id"))
    else match StatsOf(t, "vfm_normalized")
      case Err(e) => Err(e)
      case Ok(vfm) =>
        var base := Summary(|t.rows|, NUnique(Column(t, "grid_id")), vfm, None, None, None, None);
        if contractType == "monthly" then
          match OptionalStats(t, "monthly_rent")
          case Err(e) => Err(e)
          case Ok(rent) =>
            match OptionalStats(t, "deposit_amount")
            case Err(e) => Err(e)
            case Ok(deposit) =>
              var available := if "monthly_rent" in t.columns then Some(|t.rows| - CountNull(Column(t, "monthly_rent"))) else None;
              Ok(base.(rentAvailable := available, rent := rent, deposit := deposit))
        else
          match OptionalStats(t, "total_deposit_median")
          case Err(e) => Err(e)
          case Ok(jeonse) => Ok(base.(jeonse := jeonse))
  }

  /**
    What the summary promises: no more grids than records, as many exactly
    when the ids are distinct and none is NaN, a VFM range that bounds every
    VFM value and is attained, and no more rents than records.
  */
  lemma SummaryBounds(t: Table, contractType: string)
    requires Valid(t) && GetDataSummary(t, contractType).Ok?
    ensures var s := GetDataSummary(t, contractType).value;
      var ids := Column(t, "grid_id");
      var vfm := Column(t, "vfm_normalized");
      && s.uniqueGrids <= s.totalRecords
      && (s.uniqueGrids == s.totalRecords <==> Distinct(ids) && CountNull(ids) == 0)
      && (s.vfm.lo.Some? <==> exists i :: 0 <= i < |vfm| && vfm[i].Num?)
      && (s.vfm.lo.Some? ==>
            s.vfm.hi.Some? && Num(s.vfm.lo.value) in vfm && Num(s.vfm.hi.value) in vfm
            && forall i :: 0 <= i < |vfm| && vfm[i].Num? ==> s.vfm.lo.value <= vfm[i].v <= s.vfm.hi.value)
      && (s.rentAvailable.Some? ==> s.rentAvailable.value <= s.totalRecords)
  {
    var ids := Column(t, "grid_id");
    NUniqueAtMost(ids);
    NUniqueFull(ids);
  }

  /** A table with unique, present ids, such as the deduplicated mapping, summarises to as many grids as records. */
  lemma SummaryOfUniqueIds(t: Table, contractType: string)
    requires Valid(t) && GetDataSummary(t, contractType).Ok?
    requires UniqueKeys(t.rows, "grid_id") && IdsStripped(t)
    ensures GetDataSummary(t, contractType).value.uniqueGrids == |t.rows|
  {
    var ids := Column(t, "grid_id");
    forall i, j | 0 <= i < j < |ids|
      ensures ids[i] != ids[j]
    {
      assert ids[i] == t.rows[i]["grid_id"] && ids[j] == t.rows[j]["grid_id"];
    }
    NUniqueFull(ids);
  }

  // ---------------------------------------------------------------------
  // get_grid_coordinates

  /** The position of the first row whose key holds v: `df[df[key] == v].iloc[0]`. */
  function FirstRowWith(rows: seq<Row>, key: string, v: Cell): (o: Option<nat>)
    ensures o.Some? ==> o.value < |rows| && key in rows[o.value] && rows[o.value][key] == v
    ensures o.Some? ==> forall j :: 0 <= j < o.value ==> !(key in rows[j] && rows[j][key] == v)
    ensures o.None? ==> forall j :: 0 <= j < |rows| ==> !(key in rows[j] && rows[j][key] == v)
  {
    if rows == [] then None
    else if key in rows[0] && rows[0][key] == v then Some(0)
    else match FirstRowWith(rows[1..], key, v)
      case None => None
      case Some(k) => Some(k + 1)
  }

  /** The coordinates of the first row with the id, when the table has both coordinate columns and both are numbers. */
  function CoordsOf(m: Table, id: Cell): Option<(real, real)>
    requires Valid(m)
  {
    if !HasCoords(m.columns) then None
    else match FirstRowWith(m.rows, "grid_id", id)
      case None => None
      case Some(i) =>
        var lat := m.rows[i]["lat"];
        var lon := m.rows[i]["lon"];
        if lat.Num? && lon.Num? then Some((lat.v, lon.v)) else None
  }

  /**
    `get_grid_coordinates(grid_id)`: the coordinates of the first mapping row
    with the stripped id, when both are numbers; `(None, None)` (here None)
    when the mapping cannot be loaded, has no coordinates, has no such row or
    a coordinate is NaN.
  */
  function GetGridCoordinates(host: Host, gridId: Cell): Option<(real, real)>
    requires HostValid(host)
  {
    match LoadGridMapping(host)
    case Err(_) => None
    case Ok(m) => CoordsOf(m, Text(Strip(AsStr(gridId, host.showNum))))
  }

  /** The stripped ids of the raw mapping rows. */
  function RawIds(raw: Table, showNum: real -> string): (ids: seq<Cell>)
    requires Valid(raw) && "grid_id" in raw.columns
    ensures |ids| == |raw.rows|
    ensures forall j :: 0 <= j < |raw.rows| ==> ids[j] == Text(Strip(AsStr(raw.rows[j]["grid_id"], showNum)))
  {
    seq(|raw.rows|, j requires 0 <= j < |raw.rows| => Text(Strip(AsStr(raw.rows[j]["grid_id"], showNum))))
  }

  /** Position i holds the first id equal to id, and numbers lat and lon. */
  predicate FirstWithCoords(ids: seq<Cell>, lats: seq<Cell>, lons: seq<Cell>, id: Cell, i: nat, lat: real, lon: real) {
    && i < |ids| && i < |lats| && i < |lons|
    && ids[i] == id && (forall j :: 0 <= j < i ==> ids[j] != id)
    && lats[i] == Num(lat) && lons[i] == Num(lon)
  }

  /**
    Row i is the first raw mapping row whose stripped id is id, and its
    coordinates parse to the numbers lat and lon.
  */
  predicate CoordsInFile(raw: Table, parse: string -> Option<real>, showNum: real -> string, id: Cell, i: nat, lat: real, lon: real)
    requires Valid(raw) && "grid_id" in raw.columns && HasCoords(raw.columns)
  {
    FirstWithCoords(RawIds(raw, showNum), ToNumeric(Column(raw, "lat"), parse), ToNumeric(Column(raw, "lon"), parse), id, i, lat, lon)
  }

  /** Row j of m has id ids[j] and coordinates lats[j] and lons[j]. */
  predicate RowsHold(m: Table, ids: seq<Cell>, lats: seq<Cell>, lons: seq<Cell>)
    requires Valid(m) && HasCoords(m.columns) && "grid_id" in m.columns
  {
    && |ids| == |m.rows| && |lats| == |m.rows| && |lons| == |m.rows|
    && forall j :: 0 <= j < |m.rows| ==> m.rows[j]["grid_id"] == ids[j] && m.rows[j]["lat"] == lats[j] && m.rows[j]["lon"] == lons[j]
  }

  /** A loaded mapping with both coordinates is the file row for row, ids stripped and coordinates parsed. */
  lemma LoadedCoordRows(host: Host)
    requires HostValid(host) && GridMappingPath in host.files && LoadGridMapping(host).Ok?
    ensures "grid_id" in host.files[GridMappingPath].columns
    ensures var raw := host.files[GridMappingPath];
      var m := LoadGridMapping(host).value;
      && Valid(m) && m.columns == raw.columns
      && (HasCoords(raw.columns) ==>
            RowsHold(m, RawIds(raw, host.showNum), ToNumeric(Column(raw, "lat"), host.parseNum), ToNumeric(Column(raw, "lon"), host.parseNum)))
  {
    var raw := host.files[GridMappingPath];
    var m := LoadGridMapping(host).value;
    assert MissingFrom(RequiredMappingColumns, raw.columns) == [];
    assert "grid_id" in RequiredMappingColumns;
    if HasCoords(raw.columns) {
      forall j | 0 <= j < |raw.rows|
        ensures m.rows[j]["lat"] == ToNumeric(Column(raw, "lat"), host.parseNum)[j]
        ensures m.rows[j]["lon"] == ToNumeric(Column(raw, "lon"), host.parseNum)[j]
      {
        assert Column(m, "lat")[j] == m.rows[j]["lat"];
        assert Column(m, "lon")[j] == m.rows[j]["lon"];
      }
    }
  }

  /** The lookup finds exactly the first row with the id, when its coordinates are numbers. */
  lemma CoordsOfFirst(m: Table, ids: seq<Cell>, lats: seq<Cell>, lons: seq<Cell>, id: Cell)
    requires Valid(m) && HasCoords(m.columns) && "grid_id" in m.columns && RowsHold(m, ids, lats, lons)
    ensures CoordsOf(m, id).Some? ==> exists i :: FirstWithCoords(ids, lats, lons, id, i, CoordsOf(m, id).value.0, CoordsOf(m, id).value.1)
    ensures forall i, lat, lon :: FirstWithCoords(ids, lats, lons, id, i, lat, lon) ==> CoordsOf(m, id) == Some((lat, lon))
  {
    match FirstRowWith(m.rows, "grid_id", id)
    case None =>
    case Some(i) =>
      if CoordsOf(m, id).Some? {
        var r := CoordsOf(m, id).value;
        assert FirstWithCoords(ids, lats, lons, id, i, r.0, r.1);
      }
  }

  /**
    The coordinates returned are those of the first row of the mapping file
    with the (stripped) id, as to_numeric parses them; and whenever the file
    loads, has both coordinates and that row's parse to numbers, they are
    returned.
  */
  lemma CoordinatesFromFile(host: Host, gridId: Cell)
    requires HostValid(host)
    ensures var r := GetGridCoordinates(host, gridId);
      r.Some? ==>
        && GridMappingPath in host.files
        && var raw := host.files[GridMappingPath];
           && "grid_id" in raw.columns && HasCoords(raw.columns)
           && exists i :: CoordsInFile(raw, host.parseNum, host.showNum, Text(Strip(AsStr(gridId, host.showNum))), i, r.value.0, r.value.1)
    ensures GridMappingPath in host.files && LoadGridMapping(host).Ok? ==>
      var raw := host.files[GridMappingPath];
      "grid_id" in raw.columns &&
      (HasCoords(raw.columns) ==>
        forall i, lat, lon :: CoordsInFile(raw, host.parseNum, host.showNum, Text(Strip(AsStr(gridId, host.showNum))), i, lat, lon) ==>
          GetGridCoordinates(host, gridId) == Some((lat, lon)))
  {
    if GridMappingPath in host.files && LoadGridMapping(host).Ok? {
      var raw := host.files[GridMappingPath];
      var m := LoadGridMapping(host).value;
      var id := Text(Strip(AsStr(gridId, host.showNum)));
      assert GetGridCoordinates(host, gridId) == CoordsOf(m, id);
      LoadedCoordRows(host);
      if HasCoords(raw.columns) {
        var ids, lats, lons := RawIds(raw, host.showNum), ToNumeric(Column(raw, "lat"), host.parseNum), ToNumeric(Column(raw, "lon"), host.parseNum);
        CoordsOfFirst(m, ids, lats, lons, id);
        if CoordsOf(m, id).Some? {
          var r := CoordsOf(m, id).value;
          var i :| FirstWithCoords(ids, lats, lons, id, i, r.0, r.1);
          assert CoordsInFile(raw, host.parseNum, host.showNum, id, i, r.0, r.1);
        }
      }
    }
  }

  // ---------------------------------------------------------------------
  // add_district_column

  /**
    `add_district_column(df)`: a table that has a district is returned as it
    is; otherwise the mapping is loaded and merged on; if either raises, the
    table gets a district column of '정보 없음' (pandas writes it into the
    caller's table in place).
  */
  function AddDistrictColumn(host: Host, t: Table): (r: Table)
    requires HostValid(host) && Valid(t)
  {
    if "district" in t.columns then t
    else
      match LoadGridMapping(host)
      case Err(_) => SetColumn(t, "district", Const(|t.rows|, Text(NoInfoLabel)))
      case Ok(m) =>
        match MergeVfmWithDistrict(t, m, host.showNum)
        case Ok(merged) => merged
        case Err(_) => SetColumn(t, "district", Const(|t.rows|, Text(NoInfoLabel)))
  }

  /**
    Every outcome has a district column on a well-formed table with every
    input row: the input itself when it has one, the merge (which loses no
    row) when the mapping loads and merges, and otherwise the input with
    every row's district '정보 없음' and every other column unchanged.
  */
  lemma AddDistrictOutcome(host: Host, t: Table)
    requires HostValid(host) && Valid(t)
    ensures var r := AddDistrictColumn(host, t);
      && Valid(r) && "district" in r.columns && |r.rows| >= |t.rows|
      && ("district" in t.columns ==> r == t)
      && ("district" !in t.columns && LoadGridMapping(host).Ok? && MergeVfmWithDistrict(t, LoadGridMapping(host).value, host.showNum).Ok? ==>
            r == MergeVfmWithDistrict(t, LoadGridMapping(host).value, host.showNum).value)
      && ("district" !in t.columns && (LoadGridMapping(host).Err? || MergeVfmWithDistrict(t, LoadGridMapping(host).value, host.showNum).Err?) ==>
            && |r.rows| == |t.rows|
            && (forall i :: 0 <= i < |r.rows| ==> r.rows[i]["district"] == Text(NoInfoLabel))
            && forall c :: c in t.columns ==> c in r.columns && Column(r, c) == Column(t, c))
  {
    if "district" !in t.columns {
      NoInfoFallback(t);
      if LoadGridMapping(host).Ok? && MergeVfmWithDistrict(t, LoadGridMapping(host).value, host.showNum).Ok? {
        MergeKeepsRows(t, LoadGridMapping(host).value, host.showNum);
      }
    }
  }

  /** The fallback of add_district_column: every row labelled '정보 없음', every other column as it was. */
  lemma NoInfoFallback(t: Table)
    requires Valid(t) && "district" !in t.columns
    ensures var f := SetColumn(t, "district", Const(|t.rows|, Text(NoInfoLabel)));
      && Valid(f) && "district" in f.columns && |f.rows| == |t.rows|
      && (forall i :: 0 <= i < |f.rows| ==> f.rows[i]["district"] == Text(NoInfoLabel))
      && forall c :: c in t.columns ==> c in f.columns && Column(f, c) == Column(t, c)
  {
    var failed := SetColumn(t, "district", Const(|t.rows|, Text(NoInfoLabel)));
    ColumnOfSet(t, "district", Const(|t.rows|, Text(NoInfoLabel)), "district");
    OthersOfSet(t, "district", Const(|t.rows|, Text(NoInfoLabel)));
    forall i | 0 <= i < |failed.rows|
      ensures failed.rows[i]["district"] == Text(NoInfoLabel)
    {
      assert Column(failed, "district")[i] == failed.rows[i]["district"];
    }
  }

  /** A successful merge keeps every input row. */
  lemma MergeKeepsRows(vfm: Table, mapping: Table, showNum: real -> string)
    requires Valid(vfm) && Valid(mapping) && MergeVfmWithDistrict(vfm, mapping, showNum).Ok?
    ensures |MergeVfmWithDistrict(vfm, mapping, showNum).value.rows| >= |vfm.rows|
  {
    MergeNeeds(vfm, mapping, showNum);
    MergeLabelsEveryRow(vfm, mapping, showNum);
  }
}
