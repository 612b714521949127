/**
  The VFM engine: a price forecaster (an LSTM with its two scalers) and a
  location scorer (an MLP with its scaler), combined into the VFM index

    vfm_index = alpha * (score / 100) + beta * (future / (current + 1e-6))

  or, without a scorer, future / (current + 1e-6). The networks and scalers
  are foreign code; each is a function value that either returns an array or
  raises (None).
*/
module VfmEngine {
  import opened Frames

  /** The guard added to the current price in every quotient. */
  const Eps: real := 0.000001

  const PriceColumn := "total_deposit_median"

  const LstmFeatures: seq<string> := [
    "total_deposit_median", "trade_count", "BASE_RATE", "CPI_YOY",
    "deposit_lag_1", "deposit_lag_3", "deposit_lag_6", "deposit_lag_9",
    "base_rate_lag_3", "base_rate_lag_6", "base_rate_lag_9",
    "cpi_yoy_lag_3", "cpi_yoy_lag_6", "cpi_yoy_lag_9",
    "base_rate_diff_3"]

  const MlpFeatures: seq<string> := [
    "trans_index", "conv_index", "env_index", "safety_score_scaled", "grid_crime_index"]

  /** A 2-D numpy float array; `width` is `shape[1]`, known even with no rows. */
  datatype Matrix = Matrix(width: nat, rows: seq<seq<real>>)

  predicate Rectangular(m: Matrix) {
    forall i :: 0 <= i < |m.rows| ==> |m.rows[i]| == m.width
  }

  type Array2 = m: Matrix | Rectangular(m) witness Matrix(0, [])

  /** `df[cols].values`: the raw cells, row by row. */
  type Block = seq<seq<Cell>>

  /** A fitted scikit-learn scaler; None stands for a raised exception. */
  datatype Scaler = Scaler(transform: Block -> Option<Array2>, inverse: Array2 -> Option<Array2>)

  /** `lstm_model.predict` on the (n, 1, k) reshape of an (n, k) array. */
  type Forecaster = Array2 -> Option<Array2>

  /** The torch MLP's forward pass, flattened to one score per row. */
  type ScoreNet = Array2 -> Option<seq<real>>

  /** What a model file deserialises to. */
  datatype Artifact = KerasModel(forecaster: Forecaster) | Pickle(scaler: Scaler) | Checkpoint(net: ScoreNet)

  /** The files that exist, by path. */
  type Disk = map<string, Artifact>

  /** The constructor's arguments, with the source's defaults. */
  datatype Config = Config(
    lstmModelPath: string,
    lstmScalerXPath: string,
    lstmScalerYPath: string,
    mlpCheckpointPath: Option<string> := None,
    mlpScalerPath: Option<string> := None,
    useMlp: bool := true,
    alpha: real := 0.6,
    beta: real := 0.4)

  /** A path argument that Python treats as true: not None and not empty. */
  predicate Given(p: Option<string>) {
    p.Some? && p.value != ""
  }

  /** The condition of the MLP-loading branch. */
  predicate MlpRequested(c: Config, disk: Disk) {
    c.useMlp && Given(c.mlpCheckpointPath) && c.mlpCheckpointPath.value in disk
  }

  /**
    The constructor does not raise: each file it opens holds what it expects, and
    the MLP scaler, which is opened without an existence check, is present
    whenever the checkpoint is loaded.
  */
  predicate Openable(c: Config, disk: Disk, kerasAvailable: bool) {
    && (kerasAvailable && c.lstmModelPath in disk ==> disk[c.lstmModelPath].KerasModel?)
    && (c.lstmScalerXPath in disk ==> disk[c.lstmScalerXPath].Pickle?)
    && (c.lstmScalerYPath in disk ==> disk[c.lstmScalerYPath].Pickle?)
    && (MlpRequested(c, disk) ==>
          && disk[c.mlpCheckpointPath.value].Checkpoint?
          && Given(c.mlpScalerPath) && c.mlpScalerPath.value in disk
          && disk[c.mlpScalerPath.value].Pickle?)
  }

  // ---------------------------------------------------------------------
  // Horizon selection

  const HorizonMap: map<int, nat> := map[3 := 0, 6 := 1, 9 := 2, 12 := 3]

  /** `horizon_map.get(horizon, 1)`: 3, 6, 9, 12 months pick columns 0..3, anything else column 1. */
  function HorizonIndex(horizon: int): (k: nat)
    ensures k < 4
    ensures horizon in {3, 6, 9, 12} ==> k == horizon / 3 - 1
    ensures horizon !in {3, 6, 9, 12} ==> k == 1
  {
    if horizon in HorizonMap then HorizonMap[horizon] else 1
  }

  /** Column k of an array, as float cells. */
  function ArrayColumn(y: Array2, k: nat): (col: seq<Cell>)
    requires k < y.width
    ensures |col| == |y.rows|
    ensures forall i :: 0 <= i < |y.rows| ==> col[i] == Num(y.rows[i][k])
  {
    seq(|y.rows|, i requires 0 <= i < |y.rows| => Num(y.rows[i][k]))
  }

  /**
    The horizon's column of the forecast when it has one, column 0 otherwise;
    None (an IndexError) when the forecast has no column at all.
  */
  function ForecastColumn(y: Array2, horizon: int): (r: Option<seq<Cell>>)
    ensures r.Some? <==> y.width > 0
    ensures r.Some? ==>
      var k := if HorizonIndex(horizon) < y.width then HorizonIndex(horizon) else 0;
      |r.value| == |y.rows| && forall i :: 0 <= i < |y.rows| ==> r.value[i] == Num(y.rows[i][k])
  {
    var k := HorizonIndex(horizon);
    if y.width > k then Some(ArrayColumn(y, k))
    else if y.width > 0 then Some(ArrayColumn(y, 0))
    else None
  }

  // ---------------------------------------------------------------------
  // Reading the input table

  predicate HasColumns(df: Table, cols: seq<string>) {
    forall c :: c in cols ==> c in df.columns
  }

  function FeatureBlock(df: Table, cols: seq<string>): (x: Block)
    requires Valid(df) && HasColumns(df, cols)
    ensures |x| == |df.rows|
  {
    seq(|df.rows|, i requires 0 <= i < |df.rows| =>
      seq(|cols|, k requires 0 <= k < |cols| => df.rows[i][cols[k]]))
  }

  /** `df['total_deposit_median'].values`, which raises KeyError when the column is absent. */
  function CurrentPrices(df: Table): (r: Result<seq<Cell>>)
    requires Valid(df)
    ensures r.Ok? <==> PriceColumn in df.columns
    ensures r.Ok? ==> r.value == Column(df, PriceColumn)
    ensures r.Err? ==> r.error == KeyError(PriceColumn)
  {
    if PriceColumn in df.columns then Ok(Column(df, PriceColumn)) else Err(KeyError(PriceColumn))
  }

  // ---------------------------------------------------------------------
  // The compositor's arithmetic, elementwise on float cells

  /** `future / (current + 1e-6)` */
  function Ratio(future: Cell, current: Cell): (r: Cell)
    requires IsNumeric(future) && IsNumeric(current)
    ensures r.Num? <==> future.Num? && current.Num? && current.v + Eps != 0.0
    ensures r.Num? ==> r.v * (current.v + Eps) == future.v
  {
    Over(future, Plus(current, Num(Eps)))
  }

  /** `alpha * (score / 100) + beta * (future / (current + 1e-6))` */
  function Blend(alpha: real, beta: real, score: real, future: Cell, current: Cell): (r: Cell)
    requires IsNumeric(future) && IsNumeric(current)
    ensures r.Num? <==> Ratio(future, current).Num?
    ensures r.Num? ==> r.v - alpha * (score / 100.0) == beta * Ratio(future, current).v
  {
    Plus(Times(Num(alpha), Num(score / 100.0)), Times(Num(beta), Ratio(future, current)))
  }

  /** `(future - current) / (current + 1e-6) * 100` */
  function PriceChangePct(future: Cell, current: Cell): (r: Cell)
    requires IsNumeric(future) && IsNumeric(current)
    ensures r.Num? <==> future.Num? && current.Num? && current.v + Eps != 0.0
    ensures r.Num? ==> r.v * (current.v + Eps) == 100.0 * (future.v - current.v)
  {
    Times(Over(Minus(future, current), Plus(current, Num(Eps))), Num(100.0))
  }

  /** `np.clip(x, 0, 100)` */
  function Clip(x: real): (r: real)
    ensures 0.0 <= r <= 100.0
    ensures 0.0 <= x <= 100.0 ==> r == x
    ensures x < 0.0 ==> r == 0.0
    ensures x > 100.0 ==> r == 100.0
  {
    Min2(Max2(x, 0.0), 100.0)
  }

  function Zeros(n: nat): (z: seq<real>)
    ensures |z| == n && forall i :: 0 <= i < n ==> z[i] == 0.0
  {
    seq(n, _ => 0.0)
  }

  /** The columns calculate_vfm writes, in the order it writes them. */
  function NewColumns(scorer: bool): seq<string> {
    if scorer then ["future_price", "mlp_score", "vfm_index", "price_change_pct", "horizon"]
    else ["future_price", "vfm_index", "price_change_pct", "horizon"]
  }

  class Engine {
    const useMlp: bool
    const alpha: real
    const beta: real
    const lstmModel: Option<Forecaster>
    const lstmScalerX: Option<Scaler>
    const lstmScalerY: Option<Scaler>
    const mlpModel: Option<ScoreNet>
    const mlpScaler: Option<Scaler>

    /**
      Loads each artifact whose file exists (the LSTM also needs Keras); a missing
      one leaves its field None. The MLP and its scaler are loaded only when the
      MLP is requested and its checkpoint path is given and exists.
    */
    constructor (config: Config, disk: Disk, kerasAvailable: bool)
      requires Openable(config, disk, kerasAvailable)
      ensures useMlp == config.useMlp && alpha == config.alpha && beta == config.beta
      ensures lstmModel.Some? <==> kerasAvailable && config.lstmModelPath in disk
      ensures lstmModel.Some? ==> lstmModel.value == disk[config.lstmModelPath].forecaster
      ensures lstmScalerX.Some? <==> config.lstmScalerXPath in disk
      ensures lstmScalerX.Some? ==> lstmScalerX.value == disk[config.lstmScalerXPath].scaler
      ensures lstmScalerY.Some? <==> config.lstmScalerYPath in disk
      ensures lstmScalerY.Some? ==> lstmScalerY.value == disk[config.lstmScalerYPath].scaler
      ensures mlpModel.Some? <==> MlpRequested(config, disk)
      ensures mlpModel.Some? ==> mlpModel.value == disk[config.mlpCheckpointPath.value].net
      ensures mlpScaler.Some? <==> MlpRequested(config, disk)
      ensures mlpScaler.Some? ==> mlpScaler.value == disk[config.mlpScalerPath.value].scaler
    {
      useMlp := config.useMlp;
      alpha := config.alpha;
      beta := config.beta;
      if kerasAvailable && config.lstmModelPath in disk {
        lstmModel := Some(disk[config.lstmModelPath].forecaster);
      } else {
        lstmModel := None;
      }
      if config.lstmScalerXPath in disk {
        lstmScalerX := Some(disk[config.lstmScalerXPath].scaler);
      } else {
        lstmScalerX := None;
      }
      if config.lstmScalerYPath in disk {
        lstmScalerY := Some(disk[config.lstmScalerYPath].scaler);
      } else {
        lstmScalerY := None;
      }
      if config.useMlp && Given(config.mlpCheckpointPath) && config.mlpCheckpointPath.value in disk {
        mlpModel := Some(disk[config.mlpCheckpointPath.value].net);
        mlpScaler := Some(disk[config.mlpScalerPath.value].scaler);
      } else {
        mlpModel := None;
        mlpScaler := None;
      }
    }

    predicate LstmReady() {
      lstmModel.Some? && lstmScalerX.Some? && lstmScalerY.Some?
    }

    predicate MlpReady() {
      mlpModel.Some? && mlpScaler.Some?
    }

    /** The branch of calculate_vfm that blends in the scorer. */
    predicate ScorerActive() {
      useMlp && mlpModel.Some?
    }

    /** The try block of predict_lstm up to the inverse-scaled forecast; None where it raises. */
    function LstmForecast(df: Table): Option<Array2>
      requires Valid(df) && LstmReady()
    {
      if !HasColumns(df, LstmFeatures) then None
      else match lstmScalerX.value.transform(FeatureBlock(df, LstmFeatures))
        case None => None
        case Some(x) =>
          match lstmModel.value(x)
          case None => None
          case Some(yScaled) => lstmScalerY.value.inverse(yScaled)
    }

    /** The forecaster ran and produced a forecast with at least one column. */
    predicate Forecasted(df: Table)
      requires Valid(df)
    {
      LstmReady() && LstmForecast(df).Some? && LstmForecast(df).value.width > 0
    }

    /**
      predict_lstm: the forecast column for the horizon; the current prices
      unchanged when an artifact is missing or inference raises. It raises only
      when the price column is absent.
    */
    function PredictLstm(df: Table, horizon: int): (r: Result<seq<Cell>>)
      requires Valid(df)
      ensures r.Err? <==> PriceColumn !in df.columns
      ensures r.Err? ==> r.error == KeyError(PriceColumn)
      ensures r.Ok? && !Forecasted(df) ==> r.value == Column(df, PriceColumn)
      ensures Forecasted(df) ==>
        r.Ok? && Some(r.value) == ForecastColumn(LstmForecast(df).value, horizon)
    {
      if !LstmReady() then CurrentPrices(df)
      else match LstmForecast(df)
        case None => CurrentPrices(df)
        case Some(y) =>
          match ForecastColumn(y, horizon)
          case None => CurrentPrices(df)
          case Some(future) =>
            assert PriceColumn in df.columns by { assert PriceColumn in LstmFeatures; }
            Ok(future)
    }

    /** The try block of predict_mlp up to the flattened raw scores; None where it raises. */
    function MlpRaw(df: Table): Option<seq<real>>
      requires Valid(df) && MlpReady()
    {
      if !HasColumns(df, MlpFeatures) then None
      else match mlpScaler.value.transform(FeatureBlock(df, MlpFeatures))
        case None => None
        case Some(x) => mlpModel.value(x)
    }

    /**
      predict_mlp: the raw scores clipped to [0, 100]; a zero per row when the
      model or scaler is missing or inference raises.
    */
    function PredictMlp(df: Table): (r: seq<real>)
      requires Valid(df)
      ensures forall i :: 0 <= i < |r| ==> 0.0 <= r[i] <= 100.0
      ensures !(MlpReady() && MlpRaw(df).Some?) ==> r == Zeros(|df.rows|)
      ensures MlpReady() && MlpRaw(df).Some? ==>
        |r| == |MlpRaw(df).value| &&
        forall i :: 0 <= i < |r| ==> r[i] == Clip(MlpRaw(df).value[i])
    {
      if !MlpReady() then Zeros(|df.rows|)
      else match MlpRaw(df)
        case None => Zeros(|df.rows|)
        case Some(raw) => seq(|raw|, i requires 0 <= i < |raw| => Clip(raw[i]))
    }

    /**
      calculate_vfm: a copy of the input with future_price, (with the scorer)
      mlp_score, vfm_index, price_change_pct and horizon assigned. It raises when
      the price column is absent, when a prediction has the wrong length, and when
      the price column holds a string.
    */
    method CalculateVfm(df: Table, horizon: int) returns (r: Result<Table>)
      requires Valid(df)
      ensures PriceColumn !in df.columns ==> r == Err(KeyError(PriceColumn))
      ensures PriceColumn in df.columns ==>
        (r.Err? <==>
          || |PredictLstm(df, horizon).value| != |df.rows|
          || (ScorerActive() && |PredictMlp(df)| != |df.rows|)
          || !NoText(Column(df, PriceColumn)))
      ensures r.Ok? ==>
        && PriceColumn in df.columns
        && PredictLstm(df, horizon).Ok?
        && (ScorerActive() ==> |PredictMlp(df)| == |df.rows|)
        && VfmAssigned(df, r.value, PredictLstm(df, horizon).value,
                       if ScorerActive() then Some(PredictMlp(df)) else None, alpha, beta, horizon)
    {
      var n := |df.rows|;
      var predicted := PredictLstm(df, horizon);
      if predicted.Err? {
        return Err(predicted.error);
      }
      var future := predicted.value;
      if |future| != n {
        return Err(LengthMismatch);
      }
      var cur := Column(df, PriceColumn);
      var scores: Option<seq<real>> := None;
      if useMlp && mlpModel.Some? {
        var s := PredictMlp(df);
        if |s| != n {
          return Err(LengthMismatch);
        }
        scores := Some(s);
      }
      if !NoText(cur) {
        return Err(TypeError);
      }
      var t := Compose(df, future, scores, alpha, beta, horizon);
      return Ok(t);
    }
  }

  /** One output row: the input row's cells, with the new columns computed from that row. */
  predicate RowAssigned(d: Row, out: Row, names: seq<string>, future: Cell, cur: Cell,
                        score: Option<real>, alpha: real, beta: real, horizon: int)
    requires IsNumeric(future) && IsNumeric(cur)
  {
    && (forall c :: c in d && c !in names ==> c in out && out[c] == d[c])
    && "future_price" in out && "vfm_index" in out && "price_change_pct" in out && "horizon" in out
    && out["future_price"] == future
    && out["price_change_pct"] == PriceChangePct(future, cur)
    && out["horizon"] == Num(horizon as real)
    && (score.Some? ==>
          && "mlp_score" in out && out["mlp_score"] == Num(score.value)
          && out["vfm_index"] == Blend(alpha, beta, score.value, future, cur))
    && (score.None? ==> out["vfm_index"] == Ratio(future, cur))
  }

  /**
    What calculate_vfm returns for a forecast and (with the scorer) scores: the
    input's columns and cells, then future_price, mlp_score (with scores),
    vfm_index, price_change_pct and horizon, computed row by row.
  */
  ghost predicate VfmAssigned(df: Table, t: Table, future: seq<Cell>, scores: Option<seq<real>>,
                              alpha: real, beta: real, horizon: int)
    requires Valid(df) && PriceColumn in df.columns
  {
    var names := NewColumns(scores.Some?);
    var cur := Column(df, PriceColumn);
    && Valid(t)
    && t.columns == AddNames(df.columns, names)
    && |t.rows| == |df.rows| == |future|
    && NoText(cur) && NoText(future)
    && (scores.Some? ==> |scores.value| == |df.rows|)
    && forall i :: 0 <= i < |df.rows| ==>
         RowAssigned(df.rows[i], t.rows[i], names, future[i], cur[i],
                     if scores.Some? then Some(scores.value[i]) else None, alpha, beta, horizon)
  }

  /** The column list of calculate_vfm's result, one assignment at a time. */
  lemma NewColumnsAdded(cols: seq<string>, scorer: bool)
    ensures AddNames(cols, NewColumns(scorer)) ==
      var withFuture := WithName(cols, "future_price");
      var withScore := if scorer then WithName(withFuture, "mlp_score") else withFuture;
      WithName(WithName(WithName(withScore, "vfm_index"), "price_change_pct"), "horizon")
  {
    var names := NewColumns(scorer);
    var withFuture := WithName(cols, "future_price");
    var withScore := if scorer then WithName(withFuture, "mlp_score") else withFuture;
    var rest := ["vfm_index", "price_change_pct", "horizon"];
    assert AddNames(withScore, rest) == AddNames(WithName(withScore, "vfm_index"), rest[1..]);
    assert rest[1..][1..] == ["horizon"];
    if scorer {
      assert names[1..] == ["mlp_score"] + rest && names[1..][1..] == rest;
    } else {
      assert names[1..] == rest;
    }
  }

  /** The row calculate_vfm writes, as the chain of its assignments to one input row. */
  function AssignedRow(d: Row, future: Cell, cur: Cell, score: Option<real>,
                       alpha: real, beta: real, horizon: int): Row
    requires IsNumeric(future) && IsNumeric(cur)
  {
    var withFuture := d["future_price" := future];
    match score
    case Some(s) =>
      withFuture["mlp_score" := Num(s)]["vfm_index" := Blend(alpha, beta, s, future, cur)]
        ["price_change_pct" := PriceChangePct(future, cur)]["horizon" := Num(horizon as real)]
    case None =>
      withFuture["vfm_index" := Ratio(future, cur)]
        ["price_change_pct" := PriceChangePct(future, cur)]["horizon" := Num(horizon as real)]
  }

  lemma AssignedRowMeets(d: Row, future: Cell, cur: Cell, score: Option<real>,
                         alpha: real, beta: real, horizon: int)
    requires IsNumeric(future) && IsNumeric(cur)
    ensures RowAssigned(d, AssignedRow(d, future, cur, score, alpha, beta, horizon),
                        NewColumns(score.Some?), future, cur, score, alpha, beta, horizon)
  {
  }

  /** The assignments of calculate_vfm, once every check has passed. */
  method Compose(df: Table, future: seq<Cell>, scores: Option<seq<real>>,
                 alpha: real, beta: real, horizon: int) returns (t: Table)
    requires Valid(df) && PriceColumn in df.columns
    requires |future| == |df.rows| && NoText(future) && NoText(Column(df, PriceColumn))
    requires scores.Some? ==> |scores.value| == |df.rows|
    ensures VfmAssigned(df, t, future, scores, alpha, beta, horizon)
  {
    var n := |df.rows|;
    var cur := Column(df, PriceColumn);
    NewColumnsAdded(df.columns, scores.Some?);
    t := SetColumn(df, "future_price", future);
    var vfm: seq<Cell>;
    if scores.Some? {
      var s := scores.value;
      t := SetColumn(t, "mlp_score", seq(n, i requires 0 <= i < n => Num(s[i])));
      vfm := seq(n, i requires 0 <= i < n => Blend(alpha, beta, s[i], future[i], cur[i]));
    } else {
      vfm := seq(n, i requires 0 <= i < n => Ratio(future[i], cur[i]));
    }
    t := SetColumn(t, "vfm_index", vfm);
    var pct := seq(n, i requires 0 <= i < n => PriceChangePct(future[i], cur[i]));
    t := SetColumn(t, "price_change_pct", pct);
    t := SetColumn(t, "horizon", Const(n, Num(horizon as real)));
    forall i | 0 <= i < n
      ensures RowAssigned(df.rows[i], t.rows[i], NewColumns(scores.Some?), future[i], cur[i],
                          if scores.Some? then Some(scores.value[i]) else None, alpha, beta, horizon)
    {
      var score := if scores.Some? then Some(scores.value[i]) else None;
      AssignedRowMeets(df.rows[i], future[i], cur[i], score, alpha, beta, horizon);
      assert t.rows[i] == AssignedRow(df.rows[i], future[i], cur[i], score, alpha, beta, horizon);
    }
  }

  // ---------------------------------------------------------------------
  // load_vfm_engine

  /** `os.path.join(a, b)` for a relative b. */
  function Join(a: string, b: string): (p: string)
    ensures a <= p && EndsWith(p, b)
    ensures |p| == |a| + |b| || |p| == |a| + 1 + |b|
  {
    if a == [] || a[|a| - 1] == '/' then a + b else a + "/" + b
  }

  predicate EndsWith(s: string, t: string) {
    |t| <= |s| && s[|s| - |t|..] == t
  }

  lemma PrefixTrans(a: string, b: string, c: string)
    requires a <= b && b <= c
    ensures a <= c
  {
    assert c[..|a|] == c[..|b|][..|a|];
  }

  /** A file joined onto a directory under root is under root and ends with its name. */
  lemma JoinUnder(root: string, dir: string, name: string)
    requires root <= dir && name != ""
    ensures root <= Join(dir, name) && EndsWith(Join(dir, name), name) && Join(dir, name) != ""
  {
    PrefixTrans(root, dir, Join(dir, name));
  }

  function Suffix(rentType: string): string {
    if rentType == "jeonse" then "_jeonse" else ""
  }

  /** The constructor arguments load_vfm_engine builds under the project root. */
  function EngineConfig(projectRoot: string, rentType: string, useMlp: bool, alpha: real, beta: real): (c: Config)
    ensures c.useMlp == useMlp && c.alpha == alpha && c.beta == beta
    ensures Given(c.mlpCheckpointPath) <==> useMlp
    ensures Given(c.mlpScalerPath) <==> useMlp
    ensures projectRoot <= c.lstmModelPath && EndsWith(c.lstmModelPath, "vfm_lstm_time_split" + Suffix(rentType) + "_v1.h5")
    ensures projectRoot <= c.lstmScalerXPath && EndsWith(c.lstmScalerXPath, "scaler_X_time" + Suffix(rentType) + ".pkl")
    ensures projectRoot <= c.lstmScalerYPath && EndsWith(c.lstmScalerYPath, "scaler_y_time" + Suffix(rentType) + ".pkl")
    ensures useMlp ==> projectRoot <= c.mlpCheckpointPath.value && EndsWith(c.mlpCheckpointPath.value, "vfm_mlp_pytorch.pth")
    ensures useMlp ==> projectRoot <= c.mlpScalerPath.value && EndsWith(c.mlpScalerPath.value, "mlp_scaler.pkl")
  {
    var suffix := Suffix(rentType);
    var models := Join(projectRoot, "models");
    var lstmDir := Join(models, "lstm");
    var mlpDir := Join(Join(models, "model_output2"), "model_colab");
    PrefixTrans(projectRoot, models, lstmDir);
    PrefixTrans(projectRoot, models, Join(models, "model_output2"));
    PrefixTrans(projectRoot, Join(models, "model_output2"), mlpDir);
    JoinUnder(projectRoot, lstmDir, "vfm_lstm_time_split" + suffix + "_v1.h5");
    JoinUnder(projectRoot, lstmDir, "scaler_X_time" + suffix + ".pkl");
    JoinUnder(projectRoot, lstmDir, "scaler_y_time" + suffix + ".pkl");
    JoinUnder(projectRoot, mlpDir, "vfm_mlp_pytorch.pth");
    JoinUnder(projectRoot, mlpDir, "mlp_scaler.pkl");
    Config(
      lstmModelPath := Join(lstmDir, "vfm_lstm_time_split" + suffix + "_v1.h5"),
      lstmScalerXPath := Join(lstmDir, "scaler_X_time" + suffix + ".pkl"),
      lstmScalerYPath := Join(lstmDir, "scaler_y_time" + suffix + ".pkl"),
      mlpCheckpointPath := if useMlp then Some(Join(mlpDir, "vfm_mlp_pytorch.pth")) else None,
      mlpScalerPath := if useMlp then Some(Join(mlpDir, "mlp_scaler.pkl")) else None,
      useMlp := useMlp,
      alpha := alpha,
      beta := beta)
  }

  /** load_vfm_engine: builds the paths for the contract type and constructs the engine. */
  method LoadVfmEngine(projectRoot: string, disk: Disk, kerasAvailable: bool,
                       rentType: string := "monthly", useMlp: bool := true,
                       alpha: real := 0.6, beta: real := 0.4) returns (e: Engine)
    requires Openable(EngineConfig(projectRoot, rentType, useMlp, alpha, beta), disk, kerasAvailable)
    ensures fresh(e)
    ensures e.useMlp == useMlp && e.alpha == alpha && e.beta == beta
    ensures !useMlp ==> e.mlpModel.None? && e.mlpScaler.None? && !e.ScorerActive()
    ensures e.lstmModel.Some? <==> kerasAvailable && EngineConfig(projectRoot, rentType, useMlp, alpha, beta).lstmModelPath in disk
    ensures e.lstmScalerX.Some? <==> EngineConfig(projectRoot, rentType, useMlp, alpha, beta).lstmScalerXPath in disk
    ensures e.lstmScalerY.Some? <==> EngineConfig(projectRoot, rentType, useMlp, alpha, beta).lstmScalerYPath in disk
    ensures e.mlpModel.Some? <==> MlpRequested(EngineConfig(projectRoot, rentType, useMlp, alpha, beta), disk)
    ensures e.mlpScaler.Some? <==> MlpRequested(EngineConfig(projectRoot, rentType, useMlp, alpha, beta), disk)
  {
    e := new Engine(EngineConfig(projectRoot, rentType, useMlp, alpha, beta), disk, kerasAvailable);
  }

  // ---------------------------------------------------------------------
  // Properties of the compositor

  /**
    For a non-negative current price the change percentage is a number (never
    NaN) whose sign is the sign of future - current.
  */
  lemma PriceChangeSign(future: real, cur: real)
    requires cur >= 0.0
    ensures PriceChangePct(Num(future), Num(cur)).Num?
    ensures var p := PriceChangePct(Num(future), Num(cur)).v;
      (p > 0.0 <==> future > cur) && (p == 0.0 <==> future == cur) && (p < 0.0 <==> future < cur)
  {
    var d := cur + Eps;
    assert d > 0.0;
    var q := (future - cur) / d;
    assert q * d == future - cur;
    if future > cur {
      assert q > 0.0;
    } else if future < cur {
      assert q < 0.0;
    }
  }

  /** A zero current price gives finite values: the guard turns the quotient into a factor of 10^6. */
  lemma ZeroPriceIsFinite(future: real)
    ensures Ratio(Num(future), Num(0.0)) == Num(future * 1000000.0)
    ensures PriceChangePct(Num(future), Num(0.0)) == Num(future * 100000000.0)
  {
    assert future / Eps == future * 1000000.0;
  }

  /**
    Without a forecast the future price is the current one: no change, and an
    index just below 1 for a positive price.
  */
  lemma PassthroughIndex(cur: real)
    requires cur > 0.0
    ensures PriceChangePct(Num(cur), Num(cur)) == Num(0.0)
    ensures Ratio(Num(cur), Num(cur)).Num? && 0.0 < Ratio(Num(cur), Num(cur)).v < 1.0
  {
    var d := cur + Eps;
    var q := cur / d;
    assert q * d == cur;
  }

  /** The forecast does not read the weights: engines sharing the LSTM artifacts forecast alike. */
  lemma RatioIndependentOfWeights(e1: Engine, e2: Engine, df: Table, horizon: int)
    requires Valid(df) && !e1.ScorerActive() && !e2.ScorerActive()
    requires e1.lstmModel == e2.lstmModel && e1.lstmScalerX == e2.lstmScalerX && e1.lstmScalerY == e2.lstmScalerY
    ensures e1.PredictLstm(df, horizon) == e2.PredictLstm(df, horizon)
  {
  }

  /**
    Without the scorer the weights play no part in the result: two outputs
    assigned from the same frame and forecast with any alpha and beta are
    the same table.
  */
  lemma UnscoredIgnoresWeights(df: Table, t1: Table, t2: Table, future: seq<Cell>,
                               a1: real, b1: real, a2: real, b2: real, horizon: int)
    requires Valid(df) && PriceColumn in df.columns
    requires VfmAssigned(df, t1, future, None, a1, b1, horizon)
    requires VfmAssigned(df, t2, future, None, a2, b2, horizon)
    ensures t1 == t2
  {
    var names := NewColumns(false);
    var cur := Column(df, PriceColumn);
    AddNamesMembers(df.columns, names);
    forall i | 0 <= i < |df.rows|
      ensures t1.rows[i] == t2.rows[i]
    {
      UnscoredRowsAgree(df.rows[i], t1.rows[i], t2.rows[i], t1.columns, future[i], cur[i], a1, b1, a2, b2, horizon);
    }
    assert t1.rows == t2.rows;
  }

  /** One row of UnscoredIgnoresWeights: the new columns depend on the prices only, the others are copied. */
  lemma UnscoredRowsAgree(d: Row, o1: Row, o2: Row, cols: seq<string>, future: Cell, cur: Cell,
                          a1: real, b1: real, a2: real, b2: real, horizon: int)
    requires IsNumeric(future) && IsNumeric(cur)
    requires RowAssigned(d, o1, NewColumns(false), future, cur, None, a1, b1, horizon)
    requires RowAssigned(d, o2, NewColumns(false), future, cur, None, a2, b2, horizon)
    requires Fits(cols, o1) && Fits(cols, o2)
    requires forall c :: c in cols ==> c in d || c in NewColumns(false)
    ensures o1 == o2
  {
    forall c | c in o1
      ensures c in o2 && o1[c] == o2[c]
    {
      if c !in NewColumns(false) {
        assert c in d;
      }
    }
  }

  /**
    With non-negative weights and a non-negative current price, the blended
    index grows with the score and with the forecast.
  */
  lemma BlendMonotone(alpha: real, beta: real, s1: real, s2: real, f1: real, f2: real, cur: real)
    requires alpha >= 0.0 && beta >= 0.0 && cur >= 0.0
    requires s1 <= s2 && f1 <= f2
    ensures Blend(alpha, beta, s1, Num(f1), Num(cur)).Num? && Blend(alpha, beta, s2, Num(f2), Num(cur)).Num?
    ensures Blend(alpha, beta, s1, Num(f1), Num(cur)).v <= Blend(alpha, beta, s2, Num(f2), Num(cur)).v
  {
    var d := cur + Eps;
    assert d > 0.0;
    assert f1 / d <= f2 / d by {
      assert (f2 / d - f1 / d) * d == f2 - f1;
    }
    var a1, a2 := alpha * (s1 / 100.0), alpha * (s2 / 100.0);
    var b1, b2 := beta * (f1 / d), beta * (f2 / d);
    assert a1 <= a2 by {
      assert alpha * (s2 / 100.0 - s1 / 100.0) >= 0.0;
    }
    assert b1 <= b2 by {
      assert beta * (f2 / d - f1 / d) >= 0.0;
    }
    assert Ratio(Num(f1), Num(cur)) == Num(f1 / d);
    assert Ratio(Num(f2), Num(cur)) == Num(f2 / d);
    assert Blend(alpha, beta, s1, Num(f1), Num(cur)) == Num(alpha * (s1 / 100.0) + beta * (f1 / d));
    assert Blend(alpha, beta, s2, Num(f2), Num(cur)) == Num(alpha * (s2 / 100.0) + beta * (f2 / d));
  }

  /**
    One row at 1000 with a forecast of 1010, 1050, 1080, 1120 and a score of
    75: the 12-month horizon picks 1120, the change is 12% and the blended index
    0.898, both up to the guard's effect (below 10^-7).
  */
  lemma BlendedScenario()
    ensures ForecastColumn(Matrix(4, [[1010.0, 1050.0, 1080.0, 1120.0]]), 12) == Some([Num(1120.0)])
    ensures var v := Blend(0.6, 0.4, 75.0, Num(1120.0), Num(1000.0)).v; 0.898 - 0.0000001 < v < 0.898
    ensures var p := PriceChangePct(Num(1120.0), Num(1000.0)).v; 12.0 - 0.0000001 < p < 12.0
  {
    var y := Matrix(4, [[1010.0, 1050.0, 1080.0, 1120.0]]);
    var col := ForecastColumn(y, 12).value;
    assert |col| == 1 && col[0] == Num(1120.0);
    assert col == [Num(1120.0)];
  }

  /** The same row without the scorer at the 3-month horizon: index 1.01 and change 1%, up to the guard. */
  lemma RatioScenario()
    ensures ForecastColumn(Matrix(4, [[1010.0, 1050.0, 1080.0, 1120.0]]), 3) == Some([Num(1010.0)])
    ensures var v := Ratio(Num(1010.0), Num(1000.0)).v; 1.01 - 0.0000001 < v < 1.01
    ensures var p := PriceChangePct(Num(1010.0), Num(1000.0)).v; 1.0 - 0.0000001 < p < 1.0
  {
    var y := Matrix(4, [[1010.0, 1050.0, 1080.0, 1120.0]]);
    var col := ForecastColumn(y, 3).value;
    assert |col| == 1 && col[0] == Num(1010.0);
    assert col == [Num(1010.0)];
  }

  // ---------------------------------------------------------------------
  // Properties of the path construction

  /** The jeonse file names are chosen exactly for rent type "jeonse"; any other value gives the monthly ones. */
  lemma JeonseOnlyForJeonse(root: string, rentType: string, useMlp: bool, alpha: real, beta: real)
    ensures rentType != "jeonse" ==>
      EngineConfig(root, rentType, useMlp, alpha, beta) == EngineConfig(root, "monthly", useMlp, alpha, beta)
    ensures (EngineConfig(root, rentType, useMlp, alpha, beta).lstmModelPath ==
             EngineConfig(root, "jeonse", useMlp, alpha, beta).lstmModelPath) <==> rentType == "jeonse"
  {
    if rentType != "jeonse" {
      assert Suffix(rentType) == Suffix("monthly");
      MonthlyModelDiffers(root, useMlp, alpha, beta);
    }
  }

  /** The monthly model file is not the jeonse one: the two names differ in length. */
  lemma MonthlyModelDiffers(root: string, useMlp: bool, alpha: real, beta: real)
    ensures EngineConfig(root, "monthly", useMlp, alpha, beta).lstmModelPath !=
            EngineConfig(root, "jeonse", useMlp, alpha, beta).lstmModelPath
  {
    var lstmDir := Join(Join(root, "models"), "lstm");
    assert lstmDir != [] && lstmDir[|lstmDir| - 1] != '/';
    var monthly := "vfm_lstm_time_split" + "" + "_v1.h5";
    var jeonse := "vfm_lstm_time_split" + "_jeonse" + "_v1.h5";
    assert EngineConfig(root, "monthly", useMlp, alpha, beta).lstmModelPath == lstmDir + "/" + monthly;
    assert EngineConfig(root, "jeonse", useMlp, alpha, beta).lstmModelPath == lstmDir + "/" + jeonse;
    assert |monthly| + 7 == |jeonse|;
  }

  /** Without the MLP neither MLP path is set, so no scorer is loaded whatever is on disk. */
  lemma NoMlpWithoutRequest(root: string, rentType: string, alpha: real, beta: real, disk: Disk)
    ensures EngineConfig(root, rentType, false, alpha, beta).mlpCheckpointPath.None?
    ensures EngineConfig(root, rentType, false, alpha, beta).mlpScalerPath.None?
    ensures !MlpRequested(EngineConfig(root, rentType, false, alpha, beta), disk)
  {
  }
}
