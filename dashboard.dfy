/**
  The selection rules of the Streamlit dashboard once its rendering is set
  aside: the table it loads, the search filters, the VFM buckets, what the
  map shows (heat weights, the top markers and their grades) and the result
  table under the map.
*/
module Dashboard {
  import opened Frames
  import opened Ranking
  import opened DataLoader
  import VfmEngine

  const Vfm := "custom_vfm"

  // ---------------------------------------------------------------------
  // load_data_simple

  /** A table as load_data_simple hands it on: the merge, with `custom_vfm` a copy of `vfm_index`. */
  predicate DashboardTable(df: Table) {
    && Valid(df) && Vfm in df.columns && "vfm_index" in df.columns && "district" in df.columns
    && Column(df, Vfm) == Column(df, "vfm_index")
    && forall i :: 0 <= i < |df.rows| ==> !df.rows[i]["district"].Null?
  }

  /**
    `load_data_simple(contract_type)`: loads, merges and copies `vfm_index`
    into `custom_vfm`; a missing `vfm_index` and every exception give the
    empty frame.
  */
  method LoadDataSimple(host: Host, contractType: string) returns (df: Table)
    requires HostValid(host)
    ensures df == EmptyTable || DashboardTable(df)
    ensures df != EmptyTable ==> VfmPath(contractType) in host.files && LoadGridMapping(host).Ok?
    ensures MergedTable(host, contractType).None? ==> df == EmptyTable
    ensures MergedTable(host, contractType).Some? ==>
      && df == CopyVfmIndex(MergedTable(host, contractType).value)
      && |df.rows| >= |VfmLoad(host, contractType).value.rows|
  {
    var v := LoadVfmData(host, contractType);
    if v.Err? {
      return EmptyTable;
    }
    var m := LoadGridMapping(host);
    if m.Err? {
      return EmptyTable;
    }
    var merged := MergeVfmWithDistrict(v.value, m.value, host.showNum);
    if merged.Err? {
      return EmptyTable;
    }
    var t := merged.value;
    if "vfm_index" !in t.columns {
      return EmptyTable;
    }
    MergeLabelsEveryRow(v.value, m.value, host.showNum);
    assert MergedTable(host, contractType) == Some(t);
    df := CopyVfmIndex(t);
  }

  /**
    The table load_data_simple copies `vfm_index` in: the merge, when both
    loads and the merge succeed and the merged table has `vfm_index`. Every
    row of it has a district and it has a row for each loaded VFM row.
  */
  function MergedTable(host: Host, contractType: string): (r: Option<Table>)
    requires HostValid(host)
    ensures r.Some? <==>
      && VfmLoad(host, contractType).Ok? && LoadGridMapping(host).Ok?
      && MergeVfmWithDistrict(VfmLoad(host, contractType).value, LoadGridMapping(host).value, host.showNum).Ok?
      && "vfm_index" in MergeVfmWithDistrict(VfmLoad(host, contractType).value, LoadGridMapping(host).value, host.showNum).value.columns
    ensures r.Some? ==>
      && r.value == MergeVfmWithDistrict(VfmLoad(host, contractType).value, LoadGridMapping(host).value, host.showNum).value
      && Valid(r.value) && "vfm_index" in r.value.columns && "district" in r.value.columns
      && (forall i :: 0 <= i < |r.value.rows| ==> !r.value.rows[i]["district"].Null?)
      && |r.value.rows| >= |VfmLoad(host, contractType).value.rows|
  {
    var v := VfmLoad(host, contractType);
    var m := LoadGridMapping(host);
    if v.Err? || m.Err? then None
    else
      var merged := MergeVfmWithDistrict(v.value, m.value, host.showNum);
      if merged.Err? || "vfm_index" !in merged.value.columns then None
      else
        MergeLabelsEveryRow(v.value, m.value, host.showNum);
        Some(merged.value)
  }

  /** `df['custom_vfm'] = df['vfm_index']` on a merged table whose every district is set. */
  function CopyVfmIndex(t: Table): (df: Table)
    requires Valid(t) && "vfm_index" in t.columns && "district" in t.columns
    requires forall i :: 0 <= i < |t.rows| ==> !t.rows[i]["district"].Null?
    ensures DashboardTable(df)
    ensures |df.rows| == |t.rows|
  {
    var index := Column(t, "vfm_index");
    var df := SetColumn(t, Vfm, index);
    ColumnOfSet(t, Vfm, index, Vfm);
    ColumnOfSet(t, Vfm, index, "vfm_index");
    assert forall i :: 0 <= i < |df.rows| ==> df.rows[i]["district"] == t.rows[i]["district"];
    df
  }

  // ---------------------------------------------------------------------
  // Grades of the markers

  /** The marker tiers: green star, blue, orange and red. */
  datatype Grade = Best | Good | Fair | Low

  function GradeOf(vfm: real): (g: Grade)
    ensures g == Best <==> vfm >= 2.0
    ensures g == Good <==> 1.0 <= vfm < 2.0
    ensures g == Fair <==> 0.5 <= vfm < 1.0
    ensures g == Low <==> vfm < 0.5
  {
    if vfm >= 2.0 then Best
    else if vfm >= 1.0 then Good
    else if vfm >= 0.5 then Fair
    else Low
  }

  /** NaN fails every comparison and so is graded red. */
  function GradeOfCell(vfm: Cell): (g: Grade)
    requires IsNumeric(vfm)
    ensures g == Best <==> vfm.Num? && vfm.v >= 2.0
    ensures g == Good <==> vfm.Num? && 1.0 <= vfm.v < 2.0
    ensures g == Fair <==> vfm.Num? && 0.5 <= vfm.v < 1.0
    ensures g == Low <==> vfm.Null? || vfm.v < 0.5
  {
    if vfm.Num? then GradeOf(vfm.v) else Low
  }

  function Order(g: Grade): nat {
    match g
    case Low => 0
    case Fair => 1
    case Good => 2
    case Best => 3
  }

  /** A higher VFM never gets a lower tier. */
  lemma GradeMonotone(a: real, b: real)
    requires a <= b
    ensures Order(GradeOf(a)) <= Order(GradeOf(b))
  {
  }

  /** The marker colour of a tier. */
  function Color(g: Grade): string {
    match g
    case Best => "green"
    case Good => "blue"
    case Fair => "orange"
    case Low => "red"
  }

  /** The marker icon of a tier: a star for the best, a house otherwise. */
  function Icon(g: Grade): string {
    if g == Best then "star" else "home"
  }

  /** The colour and icon a VFM value is drawn with, stated against its value. */
  predicate Coloured(vfm: Cell, color: string, icon: string) {
    && (color == "green" <==> vfm.Num? && vfm.v >= 2.0)
    && (color == "blue" <==> vfm.Num? && 1.0 <= vfm.v < 2.0)
    && (color == "orange" <==> vfm.Num? && 0.5 <= vfm.v < 1.0)
    && (color == "red" <==> vfm.Null? || (vfm.Num? && vfm.v < 0.5))
    && (icon == "star" <==> color == "green")
    && (icon != "star" ==> icon == "home")
  }

  /** Each number or NaN gets exactly one colour, the one of its tier, and the star only in green. */
  lemma MarkerColours(vfm: Cell)
    requires IsNumeric(vfm)
    ensures Coloured(vfm, Color(GradeOfCell(vfm)), Icon(GradeOfCell(vfm)))
  {
    var g := GradeOfCell(vfm);
    assert g == Best || g == Good || g == Fair || g == Low;
  }

  // ---------------------------------------------------------------------
  // Counts of the legend

  /** `data_count`: the number of rows, 0 for an empty frame. */
  function DataCount(t: Table): nat {
    if IsEmpty(t) then 0 else |t.rows|
  }

  /** `display_count`: `min(marker_limit, data_count)` for markers, all rows otherwise. */
  function DisplayCount(mapType: string, markerLimit: nat, dataCount: nat): (d: nat)
    ensures mapType == "marker" ==> d <= markerLimit && d <= dataCount && (d == markerLimit || d == dataCount)
    ensures mapType != "marker" ==> d == dataCount
  {
    if mapType != "marker" then dataCount
    else if dataCount < markerLimit then dataCount
    else markerLimit
  }

  // ---------------------------------------------------------------------
  // The heat map

  /** `row.get('custom_vfm', 1.0)` */
  function VfmOf(r: Row): Cell {
    if Vfm in r then r[Vfm] else Num(1.0)
  }

  /** `min(vfm / 3.0, 1.0)`, NaN staying NaN. */
  function HeatWeight(vfm: Cell): (w: Cell)
    requires IsNumeric(vfm)
    ensures w.Null? <==> vfm.Null?
    ensures vfm.Num? ==> w.Num? && w.v <= 1.0
    ensures vfm.Num? && vfm.v <= 3.0 ==> w.v == vfm.v / 3.0
    ensures vfm.Num? && vfm.v >= 3.0 ==> w.v == 1.0
  {
    if vfm.Num? then Num(Min2(vfm.v / 3.0, 1.0)) else Null
  }

  /** A higher VFM never gets a lighter weight. */
  lemma HeatWeightMonotone(a: real, b: real)
    requires a <= b
    ensures HeatWeight(Num(a)).v <= HeatWeight(Num(b)).v
  {
  }

  datatype HeatPoint = HeatPoint(lat: Cell, lon: Cell, weight: Cell)

  function HeatPointOf(r: Row): HeatPoint
    requires "lat" in r && "lon" in r && IsNumeric(VfmOf(r))
  {
    HeatPoint(r["lat"], r["lon"], HeatWeight(VfmOf(r)))
  }

  /** The `heat_data` loop: one point per located row, in row order. */
  method HeatData(rows: seq<Row>) returns (data: seq<HeatPoint>)
    requires forall i :: 0 <= i < |rows| ==> "lat" in rows[i] && "lon" in rows[i] && IsNumeric(VfmOf(rows[i]))
    ensures |data| == |rows|
    ensures forall i :: 0 <= i < |rows| ==> data[i] == HeatPointOf(rows[i])
    ensures forall i :: 0 <= i < |rows| ==> !data[i].weight.Text? && (data[i].weight.Num? ==> data[i].weight.v <= 1.0)
  {
    data := [];
    var i := 0;
    while i < |rows|
      invariant 0 <= i <= |rows| && |data| == i
      invariant forall k :: 0 <= k < i ==> data[k] == HeatPointOf(rows[k])
    {
      data := data + [HeatPointOf(rows[i])];
      i := i + 1;
    }
  }

  // ---------------------------------------------------------------------
  // The markers

  datatype Trend = Rising | Falling | Steady

  datatype Price =
    | MonthlyPrice(deposit: Cell, rent: Cell, converted: Cell)
    | JeonsePrice(deposit: Cell, future: Cell, change: Cell, trend: Option<Trend>)

  datatype Marker = Marker(lat: Cell, lon: Cell, vfm: Cell, grade: Grade, color: string, icon: string, price: Price)

  /** `row.get(c, 0)` */
  function Get(r: Row, c: string): Cell {
    if c in r then r[c] else Num(0.0)
  }

  /** The deposit a monthly rent converts to: `deposit + rent * 100`. */
  function ConvertedDeposit(deposit: Cell, rent: Cell): (c: Cell)
    requires IsNumeric(deposit) && IsNumeric(rent)
    ensures c.Num? <==> deposit.Num? && rent.Num?
    ensures c.Num? ==> c.v == deposit.v + 100.0 * rent.v
  {
    Plus(deposit, Times(rent, Num(100.0)))
  }

  /** The forecast arrow: shown only for a positive forecast, then by the sign of the change. */
  function TrendOf(future: Cell, change: Cell): (t: Option<Trend>)
    requires IsNumeric(future)
    requires future.Num? && future.v > 0.0 ==> IsNumeric(change)
    ensures t.Some? <==> future.Num? && future.v > 0.0
    ensures t == Some(Rising) <==> t.Some? && change.Num? && change.v > 0.0
    ensures t == Some(Falling) <==> t.Some? && change.Num? && change.v < 0.0
  {
    if future.Num? && future.v > 0.0 then
      Some(if change.Num? && change.v > 0.0 then Rising
           else if change.Num? && change.v < 0.0 then Falling
           else Steady)
    else None
  }

  /**
    With the engine's change percentage and a non-negative current price, the
    arrow follows the forecast itself: up when the forecast is above the
    current price, down when below, flat when equal.
  */
  lemma TrendFollowsForecast(future: real, cur: real)
    requires future > 0.0 && cur >= 0.0
    ensures TrendOf(Num(future), VfmEngine.PriceChangePct(Num(future), Num(cur))) ==
      Some(if future > cur then Rising else if future < cur then Falling else Steady)
  {
    VfmEngine.PriceChangeSign(future, cur);
  }

  const IndexColumns: seq<string> := ["trans_index", "conv_index", "env_index", "safety_score_scaled", "grid_crime_index"]

  /** The cells a marker's popup and tooltip compare or format as numbers. */
  function Shown(r: Row, contractType: string): seq<Cell> {
    var future := Get(r, "future_price");
    [VfmOf(r)]
    + (if contractType == "monthly" then [Get(r, "deposit_amount"), Get(r, "monthly_rent")]
       else [Get(r, "total_deposit_median"), future]
            + (if future.Num? && future.v > 0.0 then [Get(r, "price_change_pct")] else []))
    + seq(|IndexColumns|, k requires 0 <= k < |IndexColumns| => Get(r, IndexColumns[k]))
  }

  /** A monthly popup: the row's deposit and rent, and the deposit they convert to. */
  predicate MonthlyShown(r: Row, p: Price) {
    && p.MonthlyPrice? && p.deposit == Get(r, "deposit_amount") && p.rent == Get(r, "monthly_rent")
    && (p.converted.Num? <==> p.deposit.Num? && p.rent.Num?)
    && (p.converted.Num? ==> p.converted.v == p.deposit.v + 100.0 * p.rent.v)
  }

  /** A jeonse popup: the row's price, forecast and change, with an arrow only for a positive forecast. */
  predicate JeonseShown(r: Row, p: Price) {
    && p.JeonsePrice? && p.deposit == Get(r, "total_deposit_median")
    && p.future == Get(r, "future_price") && p.change == Get(r, "price_change_pct")
    && (p.trend.Some? <==> p.future.Num? && p.future.v > 0.0)
    && (p.trend == Some(Rising) <==> p.trend.Some? && p.change.Num? && p.change.v > 0.0)
    && (p.trend == Some(Falling) <==> p.trend.Some? && p.change.Num? && p.change.v < 0.0)
  }

  /**
    The exception the marker code raises for a row, in the order the code
    meets the cells: the tier comparison, then the price block, then the
    index values of the popup. Arithmetic or a comparison on a string is a
    TypeError; a string that only reaches a float format is a ValueError.
    In the monthly block `rent * 100` repeats a string rent, so two strings
    survive the sum and fail at the deposit's format, while one string
    beside a number fails the sum.
  */
  function MarkerFailure(r: Row, contractType: string): (e: Option<Error>)
    ensures e.None? <==> NoText(Shown(r, contractType))
    ensures e.Some? ==> e.value == TypeError || e.value == FormatError
  {
    var deposit := Get(r, "deposit_amount");
    var rent := Get(r, "monthly_rent");
    var future := Get(r, "future_price");
    var shown := Shown(r, contractType);
    assert shown[0] == VfmOf(r);
    assert contractType == "monthly" ==> shown[1] == deposit && shown[2] == rent;
    assert contractType != "monthly" ==> shown[1] == Get(r, "total_deposit_median") && shown[2] == future;
    if VfmOf(r).Text? then Some(TypeError)
    else if contractType == "monthly" && deposit.Text? != rent.Text? then Some(TypeError)
    else if contractType == "monthly" && deposit.Text? then Some(FormatError)
    else if contractType != "monthly" && Get(r, "total_deposit_median").Text? then Some(FormatError)
    else if contractType != "monthly" && future.Text? then Some(TypeError)
    else if contractType != "monthly" && future.Num? && future.v > 0.0 && Get(r, "price_change_pct").Text? then
      assert shown[3] == Get(r, "price_change_pct");
      Some(TypeError)
    else if !NoText(shown) then Some(FormatError)
    else None
  }

  /** Some row's marker fails. */
  predicate FailingMarker(rows: seq<Row>, contractType: string)
    requires forall i :: 0 <= i < |rows| ==> "lat" in rows[i] && "lon" in rows[i]
  {
    exists i :: 0 <= i < |rows| && MarkerOf(rows[i], contractType).Err?
  }

  /** e is the exception of the first row whose marker fails. */
  predicate FirstMarkerError(rows: seq<Row>, contractType: string, e: Error)
    requires forall i :: 0 <= i < |rows| ==> "lat" in rows[i] && "lon" in rows[i]
  {
    exists i :: 0 <= i < |rows| && MarkerOf(rows[i], contractType) == Err(e)
      && forall k :: 0 <= k < i ==> MarkerOf(rows[k], contractType).Ok?
  }

  /** One marker of the row loop, or the exception `MarkerFailure` names. */
  function MarkerOf(r: Row, contractType: string): (m: Result<Marker>)
    requires "lat" in r && "lon" in r
    ensures m.Err? <==> !NoText(Shown(r, contractType))
    ensures m.Err? ==> MarkerFailure(r, contractType) == Some(m.error)
    ensures m.Ok? ==> m.value.vfm == VfmOf(r) && m.value.lat == r["lat"] && m.value.lon == r["lon"]
    ensures m.Ok? ==> IsNumeric(VfmOf(r)) && m.value.grade == GradeOfCell(VfmOf(r))
    ensures m.Ok? ==> Coloured(VfmOf(r), m.value.color, m.value.icon)
    ensures m.Ok? && contractType == "monthly" ==> MonthlyShown(r, m.value.price)
    ensures m.Ok? && contractType != "monthly" ==> JeonseShown(r, m.value.price)
  {
    var cells := Shown(r, contractType);
    if !NoText(cells) then Err(MarkerFailure(r, contractType).value)
    else
      assert cells[0] == VfmOf(r) && IsNumeric(cells[1]) && IsNumeric(cells[2]);
      var deposit := if contractType == "monthly" then Get(r, "deposit_amount") else Get(r, "total_deposit_median");
      var price :=
        if contractType == "monthly" then
          MonthlyPrice(deposit, Get(r, "monthly_rent"), ConvertedDeposit(deposit, Get(r, "monthly_rent")))
        else
          var future := Get(r, "future_price");
          assert future.Num? && future.v > 0.0 ==> cells[3] == Get(r, "price_change_pct");
          JeonsePrice(deposit, future, Get(r, "price_change_pct"), TrendOf(future, Get(r, "price_change_pct")));
      var grade := GradeOfCell(VfmOf(r));
      MarkerColours(VfmOf(r));
      Ok(Marker(r["lat"], r["lon"], VfmOf(r), grade, Color(grade), Icon(grade), price))
  }

  /**
    Three rows whose strings are only formatted raise the ValueError: a
    string index value, a deposit and rent that are both strings, and a
    string jeonse price. A string rent beside a numeric deposit fails the
    sum with a TypeError instead.
  */
  lemma MarkerValueErrors()
    ensures MarkerOf(map["lat" := Num(37.5), "lon" := Num(127.0), Vfm := Num(1.0), "trans_index" := Text("n/a")], "monthly") == Err(FormatError)
    ensures MarkerOf(map["lat" := Num(37.5), "lon" := Num(127.0), Vfm := Num(1.0), "deposit_amount" := Text("a"), "monthly_rent" := Text("b")], "monthly") == Err(FormatError)
    ensures MarkerOf(map["lat" := Num(37.5), "lon" := Num(127.0), Vfm := Num(1.0), "total_deposit_median" := Text("a")], "jeonse") == Err(FormatError)
    ensures MarkerOf(map["lat" := Num(37.5), "lon" := Num(127.0), Vfm := Num(1.0), "monthly_rent" := Text("b")], "monthly") == Err(TypeError)
  {
    var r1: Row := map["lat" := Num(37.5), "lon" := Num(127.0), Vfm := Num(1.0), "trans_index" := Text("n/a")];
    assert Shown(r1, "monthly")[3] == Text("n/a");
    var r2: Row := map["lat" := Num(37.5), "lon" := Num(127.0), Vfm := Num(1.0), "deposit_amount" := Text("a"), "monthly_rent" := Text("b")];
    assert Shown(r2, "monthly")[1] == Text("a");
    var r3: Row := map["lat" := Num(37.5), "lon" := Num(127.0), Vfm := Num(1.0), "total_deposit_median" := Text("a")];
    assert Shown(r3, "jeonse")[1] == Text("a");
    var r4: Row := map["lat" := Num(37.5), "lon" := Num(127.0), Vfm := Num(1.0), "monthly_rent" := Text("b")];
    assert Shown(r4, "monthly")[2] == Text("b");
  }

  /** The marker loop: every shown row in order, or the first row's error. */
  method BuildMarkers(rows: seq<Row>, contractType: string) returns (r: Result<seq<Marker>>)
    requires forall i :: 0 <= i < |rows| ==> "lat" in rows[i] && "lon" in rows[i]
    ensures r.Err? <==> FailingMarker(rows, contractType)
    ensures r.Err? ==> FirstMarkerError(rows, contractType, r.error)
    ensures r.Ok? ==> |r.value| == |rows| && forall i :: 0 <= i < |rows| ==> MarkerOf(rows[i], contractType) == Ok(r.value[i])
  {
    var markers := [];
    var i := 0;
    while i < |rows|
      invariant 0 <= i <= |rows| && |markers| == i
      invariant forall k :: 0 <= k < i ==> MarkerOf(rows[k], contractType) == Ok(markers[k])
    {
      var m := MarkerOf(rows[i], contractType);
      if m.Err? {
        return Err(m.error);
      }
      markers := markers + [m.value];
      i := i + 1;
    }
    return Ok(markers);
  }

  // ---------------------------------------------------------------------
  // create_map

  /** A row with both coordinates (`dropna(subset=['lat', 'lon'])` keeps it). */
  predicate Located(r: Row) {
    "lat" in r && "lon" in r && !r["lat"].Null? && !r["lon"].Null?
  }

  function LocatedRows(rows: seq<Row>): (r: seq<Row>)
    ensures forall i :: 0 <= i < |r| ==> Located(r[i])
    ensures forall i :: 0 <= i < |r| ==> "lat" in r[i] && "lon" in r[i]
    ensures forall x :: x in r <==> x in rows && Located(x)
    ensures Filtered(r, rows, Located)
  {
    var r := Where(rows, Located);
    assert forall i :: 0 <= i < |r| ==> r[i] in r;
    r
  }

  /** `nlargest(marker_limit, 'custom_vfm')` of the located rows. */
  function TopRows(rows: seq<Row>, markerLimit: nat): seq<Row> {
    Largest(rows, markerLimit, Vfm)
  }

  /**
    The markers drawn: at most marker_limit located rows, highest VFM first,
    and no located row left out has a higher VFM (NaN ranking lowest) than a
    row drawn.
  */
  lemma TopMarkers(rows: seq<Row>, markerLimit: nat)
    requires forall i :: 0 <= i < |rows| ==> Located(rows[i])
    ensures var top := TopRows(rows, markerLimit);
      && |top| <= markerLimit && |top| == (if markerLimit < |rows| then markerLimit else |rows|)
      && (forall i :: 0 <= i < |top| ==> Located(top[i]))
      && Descending(top, Vfm)
      && forall x, y :: x in multiset(rows) - multiset(top) && y in top ==> NoHigher(Key(x, Vfm), Key(y, Vfm))
  {
    var top := TopRows(rows, markerLimit);
    LargestTop(rows, markerLimit, Vfm);
    forall i | 0 <= i < |top|
      ensures Located(top[i])
    {
      assert top[i] in multiset(top);
    }
  }

  datatype Layer = NoResults | NoLocations | HeatLayer(points: seq<HeatPoint>) | MarkerLayer(markers: seq<Marker>)

  datatype MapView = MapView(dataCount: nat, displayCount: nat, layer: Layer)

  /** Every row's `custom_vfm` is a number or NaN. */
  predicate NumericVfm(rows: seq<Row>) {
    forall i :: 0 <= i < |rows| ==> IsNumeric(VfmOf(rows[i]))
  }

  /**
    No located row holds a string coordinate; `df_valid['lat'].mean()` and
    `df_valid['lon'].mean()` raise a TypeError on one.
  */
  predicate PlainCoords(rows: seq<Row>)
    requires forall i :: 0 <= i < |rows| ==> "lat" in rows[i] && "lon" in rows[i]
  {
    forall i :: 0 <= i < |rows| ==> !rows[i]["lat"].Text? && !rows[i]["lon"].Text?
  }

  /** Some row's `custom_vfm` is NaN, which makes its heat weight NaN. */
  predicate NanVfm(rows: seq<Row>) {
    exists i :: 0 <= i < |rows| && VfmOf(rows[i]).Null?
  }

  /**
    The heat-map branch over the located rows: folium's ValueError for a NaN
    weight, which HeatMap raises whatever the coordinates, then the centre's
    TypeError for a string coordinate, and otherwise one point per located
    row, in order.
  */
  predicate HeatOutcome(located: seq<Row>, counts: MapView, r: Result<MapView>)
    requires forall i :: 0 <= i < |located| ==> Located(located[i]) && "lat" in located[i] && "lon" in located[i]
    requires NumericVfm(located)
  {
    if NanVfm(located) then r == Err(NanHeatData)
    else if !PlainCoords(located) then r == Err(TypeError)
    else
      && r.Ok? && r.value.layer.HeatLayer? && r.value == counts.(layer := r.value.layer)
      && |r.value.layer.points| == |located|
      && (forall i :: 0 <= i < |located| ==> r.value.layer.points[i] == HeatPointOf(located[i]))
      && forall i :: 0 <= i < |located| ==> r.value.layer.points[i].weight.Num?
  }

  /**
    The marker branch over the located rows: the first failing marker's
    exception, the centre's TypeError for a string coordinate, and otherwise
    the marker of every top row, in order.
  */
  predicate MarkerOutcome(located: seq<Row>, contractType: string, markerLimit: nat, counts: MapView, r: Result<MapView>)
    requires forall i :: 0 <= i < |located| ==> Located(located[i]) && "lat" in located[i] && "lon" in located[i]
  {
    var top := TopRows(located, markerLimit);
    && (forall i :: 0 <= i < |top| ==> Located(top[i]))
    && (r.Err? <==> !PlainCoords(located) || FailingMarker(top, contractType))
    && (r.Err? && FailingMarker(top, contractType) ==> FirstMarkerError(top, contractType, r.error))
    && (r.Err? && !FailingMarker(top, contractType) ==> r.error == TypeError)
    && (r.Ok? ==>
          && r.value.layer.MarkerLayer? && r.value == counts.(layer := r.value.layer)
          && |r.value.layer.markers| == |top|
          && forall i :: 0 <= i < |top| ==> MarkerOf(top[i], contractType) == Ok(r.value.layer.markers[i]))
  }

  /** What create_map draws for a frame with rows whose `custom_vfm` is numeric. */
  ghost predicate MapOf(t: Table, mapType: string, contractType: string, markerLimit: nat, r: Result<MapView>)
    requires Valid(t) && NumericVfm(t.rows)
  {
    var counts := MapView(DataCount(t), DisplayCount(mapType, markerLimit, DataCount(t)), NoResults);
    if "lat" !in t.columns then r == Err(KeyError("lat"))
    else if "lon" !in t.columns then r == Err(KeyError("lon"))
    else
      var located := LocatedRows(t.rows);
      if located == [] then r == Ok(counts.(layer := NoLocations))
      else if mapType == "heatmap" then
        NumericVfm(located) && HeatOutcome(located, counts, r)
      else MarkerOutcome(located, contractType, markerLimit, counts, r)
  }

  /** The `heat_data` loop, the HeatMap layer and the map's centre. */
  method HeatMapLayer(located: seq<Row>, counts: MapView) returns (r: Result<MapView>)
    requires forall i :: 0 <= i < |located| ==> Located(located[i]) && "lat" in located[i] && "lon" in located[i]
    requires NumericVfm(located)
    ensures HeatOutcome(located, counts, r)
  {
    var points := HeatData(located);
    if exists i :: 0 <= i < |points| && points[i].weight.Null? {
      return Err(NanHeatData);
    }
    if !PlainCoords(located) {
      return Err(TypeError);
    }
    return Ok(counts.(layer := HeatLayer(points)));
  }

  /** The `nlargest` rows, the marker loop and the map's centre. */
  method MarkerMapLayer(located: seq<Row>, contractType: string, markerLimit: nat, counts: MapView) returns (r: Result<MapView>)
    requires forall i :: 0 <= i < |located| ==> Located(located[i]) && "lat" in located[i] && "lon" in located[i]
    ensures MarkerOutcome(located, contractType, markerLimit, counts, r)
  {
    var top := TopRows(located, markerLimit);
    TopMarkers(located, markerLimit);
    var markers := BuildMarkers(top, contractType);
    if markers.Err? {
      return Err(markers.error);
    }
    if !PlainCoords(located) {
      return Err(TypeError);
    }
    return Ok(counts.(layer := MarkerLayer(markers.value)));
  }

  lemma LocatedVfm(t: Table)
    requires NumericVfm(t.rows)
    ensures NumericVfm(LocatedRows(t.rows))
  {
    var located := LocatedRows(t.rows);
    forall i | 0 <= i < |located|
      ensures IsNumeric(VfmOf(located[i]))
    {
      assert located[i] in t.rows;
    }
  }

  /**
    `create_map(df, map_type, contract_type, marker_limit)` without its
    rendering: the two legend counts and the layer drawn. A frame with rows
    needs `custom_vfm` for the legend's statistics, which raise on strings.
  */
  method CreateMap(t: Table, mapType: string, contractType: string, markerLimit: nat) returns (r: Result<MapView>)
    requires Valid(t)
    ensures |t.rows| == 0 ==> r == Ok(MapView(DataCount(t), DisplayCount(mapType, markerLimit, DataCount(t)), NoResults))
    ensures |t.rows| > 0 && Vfm !in t.columns ==> r == Err(KeyError(Vfm))
    ensures |t.rows| > 0 && Vfm in t.columns && !NoText(Column(t, Vfm)) ==> r == Err(TypeError)
    ensures |t.rows| > 0 && Vfm in t.columns && NoText(Column(t, Vfm)) ==>
      NumericVfm(t.rows) && MapOf(t, mapType, contractType, markerLimit, r)
  {
    var counts := MapView(DataCount(t), DisplayCount(mapType, markerLimit, DataCount(t)), NoResults);
    if |t.rows| == 0 {
      return Ok(counts);
    }
    if Vfm !in t.columns {
      return Err(KeyError(Vfm));
    }
    if !NoText(Column(t, Vfm)) {
      return Err(TypeError);
    }
    assert NumericVfm(t.rows) by {
      forall i | 0 <= i < |t.rows|
        ensures IsNumeric(VfmOf(t.rows[i]))
      {
        assert Column(t, Vfm)[i] == t.rows[i][Vfm];
      }
    }
    if "lat" !in t.columns {
      return Err(KeyError("lat"));
    }
    if "lon" !in t.columns {
      return Err(KeyError("lon"));
    }
    var located := LocatedRows(t.rows);
    if located == [] {
      return Ok(counts.(layer := NoLocations));
    }
    LocatedVfm(t);
    if mapType == "heatmap" {
      r := HeatMapLayer(located, counts);
    } else {
      r := MarkerMapLayer(located, contractType, markerLimit, counts);
    }
  }

  // ---------------------------------------------------------------------
  // The search filters of main

  const AllDistricts := "전체"

  /** The sidebar's choices; the deposit range is used for monthly rents only. */
  datatype Query = Query(
    contractType: string, vfmLo: real, vfmHi: real, districts: seq<string>,
    depositLo: real, depositHi: real, priceLo: real, priceHi: real)

  /** An inclusive range test; NaN fails it. */
  predicate Within(c: Cell, lo: real, hi: real) {
    c.Num? && lo <= c.v <= hi
  }

  /** The district filter applies only when '전체' is not chosen and something is. */
  predicate ByDistrict(q: Query) {
    AllDistricts !in q.districts && |q.districts| > 0
  }

  predicate MonthlyPrices(q: Query, columns: seq<string>) {
    q.contractType == "monthly" && "deposit_amount" in columns && "monthly_rent" in columns
  }

  predicate JeonsePrices(q: Query, columns: seq<string>) {
    q.contractType != "monthly" && "total_deposit_median" in columns
  }

  predicate VfmOk(q: Query, x: Row) {
    Vfm in x && Within(x[Vfm], q.vfmLo, q.vfmHi)
  }

  predicate DistrictOk(q: Query, x: Row) {
    ByDistrict(q) ==> "district" in x && x["district"].Text? && x["district"].s in q.districts
  }

  predicate PriceOk(q: Query, columns: seq<string>, x: Row) {
    && (MonthlyPrices(q, columns) ==>
          && "deposit_amount" in x && Within(x["deposit_amount"], q.depositLo, q.depositHi)
          && "monthly_rent" in x && Within(x["monthly_rent"], q.priceLo, q.priceHi))
    && (JeonsePrices(q, columns) ==>
          "total_deposit_median" in x && Within(x["total_deposit_median"], q.priceLo, q.priceHi))
  }

  /** A row the search keeps. */
  predicate Passes(q: Query, columns: seq<string>, x: Row) {
    VfmOk(q, x) && DistrictOk(q, x) && PriceOk(q, columns, x)
  }

  /** A price the price filter compares is a string. */
  predicate PriceText(q: Query, columns: seq<string>, x: Row) {
    || (MonthlyPrices(q, columns) &&
          (("deposit_amount" in x && x["deposit_amount"].Text?) || ("monthly_rent" in x && x["monthly_rent"].Text?)))
    || (JeonsePrices(q, columns) && "total_deposit_median" in x && x["total_deposit_median"].Text?)
  }

  /**
    Why the search raises, if it does: a missing or string-valued
    `custom_vfm`, a district filter without a district column, or a string
    price in a row the earlier filters kept.
  */
  ghost function FilterError(t: Table, q: Query): (e: Option<Error>)
    requires Valid(t)
    ensures e.Some? ==> e.value == KeyError(Vfm) || e.value == TypeError || e.value == KeyError("district")
    ensures e.None? ==> Vfm in t.columns && NoText(Column(t, Vfm)) && (ByDistrict(q) ==> "district" in t.columns)
    ensures e.None? ==> forall x :: x in t.rows && VfmOk(q, x) && DistrictOk(q, x) ==> !PriceText(q, t.columns, x)
  {
    if RangeError(t, q).Some? then RangeError(t, q)
    else if exists x: Row :: x in t.rows && VfmOk(q, x) && DistrictOk(q, x) && PriceText(q, t.columns, x)
    then Some(TypeError)
    else None
  }

  /** Why the VFM and district filters raise, if they do. */
  function RangeError(t: Table, q: Query): Option<Error>
    requires Valid(t)
  {
    if Vfm !in t.columns then Some(KeyError(Vfm))
    else if !NoText(Column(t, Vfm)) then Some(TypeError)
    else if ByDistrict(q) && "district" !in t.columns then Some(KeyError("district"))
    else None
  }

  /** The first two filters of main: the VFM range, then the districts when some are chosen. */
  method FilterVfmAndDistrict(t: Table, q: Query) returns (r: Result<Table>)
    requires Valid(t)
    ensures r.Err? <==> RangeError(t, q).Some?
    ensures r.Err? ==> r.error == RangeError(t, q).value
    ensures r.Ok? ==> Valid(r.value) && r.value.columns == t.columns
    ensures r.Ok? ==> forall x :: x in r.value.rows <==> x in t.rows && VfmOk(q, x) && DistrictOk(q, x)
    ensures r.Ok? ==> IsSubsequence(r.value.rows, t.rows)
    ensures r.Ok? ==> forall x :: multiset(r.value.rows)[x] == if VfmOk(q, x) && DistrictOk(q, x) then multiset(t.rows)[x] else 0
  {
    if Vfm !in t.columns {
      return Err(KeyError(Vfm));
    }
    if !NoText(Column(t, Vfm)) {
      return Err(TypeError);
    }
    var f := Select(t, x => VfmOk(q, x));
    if ByDistrict(q) {
      if "district" !in f.columns {
        return Err(KeyError("district"));
      }
      var g := Select(f, x => DistrictOk(q, x));
      FilterThen(t.rows, f.rows, g.rows, x => VfmOk(q, x), x => DistrictOk(q, x));
      return Ok(g);
    }
    return Ok(f);
  }

  /** A string in column c of a table is a string in column c of one of its rows. */
  lemma TextInColumn(f: Table, c: string)
    requires Valid(f) && c in f.columns
    ensures !NoText(Column(f, c)) <==> exists x: Row :: x in f.rows && x[c].Text?
  {
    if !NoText(Column(f, c)) {
      var i :| 0 <= i < |f.rows| && Column(f, c)[i].Text?;
      assert f.rows[i] in f.rows;
    }
    if exists x: Row :: x in f.rows && x[c].Text? {
      var x: Row :| x in f.rows && x[c].Text?;
      var i :| 0 <= i < |f.rows| && f.rows[i] == x;
      assert Column(f, c)[i].Text?;
    }
  }

  /** The price columns the filter compares, in a table that holds strings there. */
  predicate PriceColumnsText(f: Table, q: Query)
    requires Valid(f)
  {
    || (MonthlyPrices(q, f.columns) && (!NoText(Column(f, "deposit_amount")) || !NoText(Column(f, "monthly_rent"))))
    || (JeonsePrices(q, f.columns) && !NoText(Column(f, "total_deposit_median")))
  }

  /** The whole-column comparison raises exactly when some row compared holds a string price. */
  lemma PriceTextFound(f: Table, q: Query)
    requires Valid(f)
    ensures PriceColumnsText(f, q) <==> exists x: Row :: x in f.rows && PriceText(q, f.columns, x)
  {
    if MonthlyPrices(q, f.columns) {
      TextInColumn(f, "deposit_amount");
      TextInColumn(f, "monthly_rent");
    } else if JeonsePrices(q, f.columns) {
      TextInColumn(f, "total_deposit_median");
    }
  }

  /**
    The filters of main, applied one after the other to `df_filtered`:
    the VFM range, then the districts, then the price ranges of the contract
    type when its columns exist. Every bound is inclusive.
  */
  method FilterResults(t: Table, q: Query) returns (r: Result<Table>)
    requires Valid(t)
    ensures r.Err? <==> FilterError(t, q).Some?
    ensures r.Err? ==> r.error == FilterError(t, q).value
    ensures r.Ok? ==> Valid(r.value) && r.value.columns == t.columns
    ensures r.Ok? ==> forall x :: x in r.value.rows <==> x in t.rows && Passes(q, t.columns, x)
    ensures r.Ok? ==> forall i :: 0 <= i < |r.value.rows| ==> Passes(q, t.columns, r.value.rows[i])
    ensures r.Ok? ==> IsSubsequence(r.value.rows, t.rows)
    ensures r.Ok? ==> forall x :: multiset(r.value.rows)[x] == if Passes(q, t.columns, x) then multiset(t.rows)[x] else 0
  {
    var kept := FilterVfmAndDistrict(t, q);
    if kept.Err? {
      return Err(kept.error);
    }
    var f := kept.value;
    PriceTextFound(f, q);
    if PriceColumnsText(f, q) {
      return Err(TypeError);
    }
    var g := PriceFilter(f, q);
    FilterThen(t.rows, f.rows, g.rows, x => VfmOk(q, x) && DistrictOk(q, x), x => PriceOk(q, t.columns, x));
    assert forall i :: 0 <= i < |g.rows| ==> g.rows[i] in g.rows;
    return Ok(g);
  }

  /** The price filter, applied when the contract type's price columns exist. */
  function PriceFilter(f: Table, q: Query): (r: Table)
    requires Valid(f)
    ensures Valid(r) && r.columns == f.columns
    ensures forall x :: x in r.rows <==> x in f.rows && PriceOk(q, f.columns, x)
    ensures IsSubsequence(r.rows, f.rows)
    ensures forall x :: multiset(r.rows)[x] == if PriceOk(q, f.columns, x) then multiset(f.rows)[x] else 0
  {
    if MonthlyPrices(q, f.columns) || JeonsePrices(q, f.columns) then Select(f, x => PriceOk(q, f.columns, x))
    else
      assert forall x :: PriceOk(q, f.columns, x);
      SubsequenceRefl(f.rows);
      f
  }

  // ---------------------------------------------------------------------
  // The VFM buckets of main

  /** The ranges main counts: 2.0 and above, [1.0, 2.0), [0.5, 1.0) and below 0.5. */
  predicate InBucket(v: real, g: Grade) {
    match g
    case Best => v >= 2.0
    case Good => v >= 1.0 && v < 2.0
    case Fair => v >= 0.5 && v < 1.0
    case Low => v < 0.5
  }

  /** Each value falls in exactly one bucket, the one of its marker grade. */
  lemma BucketIsGrade(v: real, g: Grade)
    ensures InBucket(v, g) <==> GradeOf(v) == g
  {
  }

  /** `len(df_filtered[<range test>])`: NaN is in no bucket. */
  function CountIn(col: seq<Cell>, g: Grade): (k: nat)
    ensures k <= |col|
  {
    if col == [] then 0
    else (if col[0].Num? && InBucket(col[0].v, g) then 1 else 0) + CountIn(col[1..], g)
  }

  /** The mask of one bucket, `df_filtered[<range test>]`. */
  function BucketKeep(g: Grade): Row -> bool {
    (x: Row) => Vfm in x && x[Vfm].Num? && InBucket(x[Vfm].v, g)
  }

  /** A bucket's count is the length of its selection of rows. */
  lemma {:induction false} CountInRows(rows: seq<Row>, col: seq<Cell>, g: Grade)
    requires |col| == |rows| && forall i :: 0 <= i < |rows| ==> Vfm in rows[i] && col[i] == rows[i][Vfm]
    ensures CountIn(col, g) == |Where(rows, BucketKeep(g))|
  {
    if rows != [] {
      CountInRows(rows[1..], col[1..], g);
      assert Where(rows, BucketKeep(g)) == (if BucketKeep(g)(rows[0]) then [rows[0]] else []) + Where(rows[1..], BucketKeep(g));
    }
  }

  /** `len(df_filtered[<range test>])` is the count of the `custom_vfm` cells in the bucket. */
  lemma BucketCountIsSelection(t: Table, g: Grade)
    requires Valid(t) && Vfm in t.columns
    ensures CountIn(Column(t, Vfm), g) == |Where(t.rows, BucketKeep(g))|
  {
    CountInRows(t.rows, Column(t, Vfm), g);
  }

  datatype Buckets = Buckets(excellent: nat, good: nat, normal: nat, low: nat)

  function BucketCounts(col: seq<Cell>): Buckets {
    Buckets(CountIn(col, Best), CountIn(col, Good), CountIn(col, Fair), CountIn(col, Low))
  }

  function Total(b: Buckets): nat {
    b.excellent + b.good + b.normal + b.low
  }

  /** The buckets and the NaN cells together count every cell once. */
  lemma {:induction false} BucketsPartition(col: seq<Cell>)
    requires NoText(col)
    ensures Total(BucketCounts(col)) + CountNull(col) == |col|
  {
    if col != [] {
      assert NoText(col[1..]) by {
        forall i | 0 <= i < |col[1..]|
          ensures IsNumeric(col[1..][i])
        {
          assert col[1..][i] == col[i + 1];
        }
      }
      BucketsPartition(col[1..]);
      var c := col[0];
      var rest := col[1..];
      assert CountIn(col, Best) == (if c.Num? && c.v >= 2.0 then 1 else 0) + CountIn(rest, Best);
      assert CountIn(col, Good) == (if c.Num? && c.v >= 1.0 && c.v < 2.0 then 1 else 0) + CountIn(rest, Good);
      assert CountIn(col, Fair) == (if c.Num? && c.v >= 0.5 && c.v < 1.0 then 1 else 0) + CountIn(rest, Fair);
      assert CountIn(col, Low) == (if c.Num? && c.v < 0.5 then 1 else 0) + CountIn(rest, Low);
      assert CountNull(col) == (if c.Null? then 1 else 0) + CountNull(rest);
    }
  }

  /** On a search result the four buckets add up to its row count. */
  lemma FilteredBuckets(f: Table, q: Query)
    requires Valid(f) && Vfm in f.columns
    requires forall i :: 0 <= i < |f.rows| ==> VfmOk(q, f.rows[i])
    ensures Total(BucketCounts(Column(f, Vfm))) == |f.rows|
  {
    var col := Column(f, Vfm);
    assert forall i :: 0 <= i < |col| ==> col[i].Num?;
    BucketsPartition(col);
  }

  // ---------------------------------------------------------------------
  // The result table of main

  const LeadColumns: seq<string> := ["grid_id", "district", Vfm]

  /** The price columns the table lists for a contract type. */
  function PriceList(contractType: string): seq<string> {
    if contractType == "monthly" then ["deposit_amount", "monthly_rent"]
    else ["total_deposit_median", "future_price", "price_change_pct"]
  }

  /** The columns the table lists, before the ones absent are dropped. */
  function Listed(contractType: string): seq<string> {
    LeadColumns + PriceList(contractType) + IndexColumns
  }

  /** `[c for c in names if c in columns]` */
  function Present(names: seq<string>, columns: seq<string>): (r: seq<string>)
    ensures forall c :: c in r <==> c in names && c in columns
  {
    if names == [] then []
    else (if names[0] in columns then [names[0]] else []) + Present(names[1..], columns)
  }

  lemma {:induction false} PresentAppend(a: seq<string>, b: seq<string>, columns: seq<string>)
    ensures Present(a + b, columns) == Present(a, columns) + Present(b, columns)
  {
    if a == [] {
      assert a + b == b;
    } else {
      assert (a + b)[1..] == a[1..] + b;
      PresentAppend(a[1..], b, columns);
    }
  }

  function When(present: bool, c: string): seq<string> {
    if present then [c] else []
  }

  /** The price columns as main appends them: each one only when present. */
  function PricesAppended(contractType: string, columns: seq<string>): seq<string> {
    if contractType == "monthly" then
      When("deposit_amount" in columns, "deposit_amount") + When("monthly_rent" in columns, "monthly_rent")
    else
      When("total_deposit_median" in columns, "total_deposit_median")
      + When("future_price" in columns, "future_price")
      + When("price_change_pct" in columns, "price_change_pct")
  }

  /** Appending a price column only when present changes nothing once absent columns are dropped. */
  lemma PricesPresent(contractType: string, columns: seq<string>)
    ensures Present(PricesAppended(contractType, columns), columns) == Present(PriceList(contractType), columns)
  {
    if contractType == "monthly" {
      PresentAppend(When("deposit_amount" in columns, "deposit_amount"), When("monthly_rent" in columns, "monthly_rent"), columns);
      PresentAppend(["deposit_amount"], ["monthly_rent"], columns);
      assert PriceList(contractType) == ["deposit_amount"] + ["monthly_rent"];
    } else {
      var a := When("total_deposit_median" in columns, "total_deposit_median");
      var b := When("future_price" in columns, "future_price");
      var c := When("price_change_pct" in columns, "price_change_pct");
      PresentAppend(a + b, c, columns);
      PresentAppend(a, b, columns);
      PresentAppend(["total_deposit_median"] + ["future_price"], ["price_change_pct"], columns);
      PresentAppend(["total_deposit_median"], ["future_price"], columns);
      assert PriceList(contractType) == ["total_deposit_median"] + ["future_price"] + ["price_change_pct"];
    }
  }

  /**
    The table's columns as main assembles them (price columns appended only
    when present, then every absent column dropped): the listed columns that
    exist, in the listed order.
  */
  function ResultColumns(contractType: string, columns: seq<string>): (cols: seq<string>)
    ensures cols == Present(Listed(contractType), columns)
  {
    var prices := PricesAppended(contractType, columns);
    PresentAppend(LeadColumns + prices, IndexColumns, columns);
    PresentAppend(LeadColumns, prices, columns);
    PresentAppend(LeadColumns + PriceList(contractType), IndexColumns, columns);
    PresentAppend(LeadColumns, PriceList(contractType), columns);
    PricesPresent(contractType, columns);
    Present(LeadColumns + prices + IndexColumns, columns)
  }

  const TableRows: nat := 100

  /** The table can be ranked: it has a `custom_vfm` column of numbers and NaN. */
  predicate Rankable(t: Table) {
    Valid(t) && Vfm in t.columns && NoText(Column(t, Vfm))
  }

  /** `df_filtered[cols]` */
  function Shortlist(t: Table, contractType: string): (p: Table)
    requires Rankable(t)
    ensures Valid(p) && p.columns == ResultColumns(contractType, t.columns) && Vfm in p.columns
    ensures |p.rows| == |t.rows|
    ensures forall i :: 0 <= i < |t.rows| ==> p.rows[i][Vfm] == t.rows[i][Vfm]
  {
    assert Vfm in Listed(contractType);
    Project(t, ResultColumns(contractType, t.columns))
  }

  /**
    `df_filtered[cols].head(100).sort_values('custom_vfm', ascending=False)`,
    as written: the first 100 rows of the search, reordered.
  */
  function ResultTable(t: Table, contractType: string): (r: Table)
    requires Rankable(t)
    ensures r.columns == ResultColumns(contractType, t.columns)
    ensures Valid(r)
    ensures |r.rows| == if |t.rows| < TableRows then |t.rows| else TableRows
    ensures multiset(r.rows) == multiset(Head(Shortlist(t, contractType), TableRows).rows)
    ensures Descending(r.rows, Vfm)
  {
    var p := Shortlist(t, contractType);
    var h := Head(p, TableRows);
    var sorted := SortedDown(h.rows, Vfm);
    SortedDownDescending(h.rows, Vfm);
    RowsStillFit(p.columns, h.rows, sorted);
    Table(p.columns, sorted)
  }

  /**
    The table the heading "상위 100개" (top 100) describes:
    `df_filtered[cols].nlargest(100, 'custom_vfm')`. No row of the search
    left out has a higher VFM than a row shown.
  */
  function TopResultTable(t: Table, contractType: string): (r: Table)
    requires Rankable(t)
    ensures r.columns == ResultColumns(contractType, t.columns)
    ensures Valid(r)
    ensures |r.rows| == if |t.rows| < TableRows then |t.rows| else TableRows
    ensures multiset(r.rows) <= multiset(Shortlist(t, contractType).rows)
    ensures Descending(r.rows, Vfm)
    ensures forall x, y :: x in multiset(Shortlist(t, contractType).rows) - multiset(r.rows) && y in r.rows ==>
      NoHigher(Key(x, Vfm), Key(y, Vfm))
  {
    var p := Shortlist(t, contractType);
    var top := Largest(p.rows, TableRows, Vfm);
    LargestTop(p.rows, TableRows, Vfm);
    RowsStillFit(p.columns, p.rows, top);
    Table(p.columns, top)
  }

  /** Row n of rows has a number in col, higher than every other row's. */
  predicate UniqueBest(rows: seq<Row>, n: nat, col: string) {
    n < |rows| && Key(rows[n], col).Some?
    && forall i :: 0 <= i < |rows| && i != n ==>
      Key(rows[i], col).Some? && Key(rows[i], col).value < Key(rows[n], col).value
  }

  /** Sorting the first n rows cannot bring in row n. */
  lemma BestNotInHead(rows: seq<Row>, n: nat, col: string)
    requires UniqueBest(rows, n, col)
    ensures rows[n] !in SortedDown(rows[..n], col)
  {
    forall j | 0 <= j < n
      ensures rows[..n][j] != rows[n]
    {
      assert Key(rows[j], col).value < Key(rows[n], col).value;
    }
    assert rows[n] !in multiset(rows[..n]);
  }

  /** The unique best row is among the n > 0 largest. */
  lemma BestInLargest(rows: seq<Row>, n: nat, k: nat, col: string)
    requires UniqueBest(rows, n, col) && k > 0
    ensures rows[n] in Largest(rows, k, col)
  {
    var top := Largest(rows, k, col);
    LargestTop(rows, k, col);
    var y := top[0];
    assert y in multiset(rows);
    var j :| 0 <= j < |rows| && rows[j] == y;
    if j != n {
      assert !NoHigher(Key(rows[n], col), Key(y, col));
      assert rows[n] in multiset(rows);
      assert rows[n] in multiset(top);
    }
  }

  /**
    As written the table can leave out the best result: when row 101 of the
    search has a higher `custom_vfm` than every other row, it is missing from
    the table, while nlargest lists it.
  */
  lemma HeadThenSortMissesBest(t: Table, contractType: string)
    requires Rankable(t) && |t.rows| > TableRows
    requires t.rows[TableRows][Vfm].Num?
    requires forall i :: 0 <= i < |t.rows| && i != TableRows ==>
      t.rows[i][Vfm].Num? && t.rows[i][Vfm].v < t.rows[TableRows][Vfm].v
    ensures var best := Shortlist(t, contractType).rows[TableRows];
      best !in ResultTable(t, contractType).rows && best in TopResultTable(t, contractType).rows
  {
    var p := Shortlist(t, contractType);
    forall i | 0 <= i < |p.rows|
      ensures Key(p.rows[i], Vfm) == Key(t.rows[i], Vfm)
    {
      assert Fits(p.columns, p.rows[i]) && Fits(t.columns, t.rows[i]);
    }
    assert UniqueBest(p.rows, TableRows, Vfm);
    BestNotInHead(p.rows, TableRows, Vfm);
    BestInLargest(p.rows, TableRows, TableRows, Vfm);
  }
}
