# Seoul real-estate VFM search, modelled in Dafny

Seoul-Real-Estate-VFM-Search ranks the grid cells of Seoul by a
"value for money" (VFM) index. An LSTM forecasts each cell's future rent
deposit. An MLP scores its location from five infrastructure indices. The
engine blends the two into `vfm_index`. The loader reads the precomputed VFM
tables, normalises their score columns and joins each grid cell to its
district. The Streamlit dashboard filters the cells, colours them by VFM
tier and lists the best of them. A maintenance script collapses duplicate
grid rows of the district mapping to one row per grid.

This project models that behaviour and proves properties of it:

- `frames.dfy` (module `Frames`): the pandas tables the code works on, as
  values. A table has named columns and rows of cells. A cell is a float
  (`Num`), a string (`Text`) or NaN (`Null`). It also holds the column
  operations used (`to_numeric`, `fillna`, boolean selection, `head`,
  `min`/`max`/`mean`).
- `frames_merge.dfy` (module `FramesMerge`): `merge(..., how='left')`, with
  pandas' `_x`/`_y` suffixes, its error on repeated names, and one result
  row per match.
- `pystr.dfy` (module `PyStr`): Python's `str.strip()`.
- `ranking.dfy` (module `Ranking`): `nlargest` and
  `sort_values(ascending=False)`, as a stable ranking where NaN is lowest.
- `vfm_engine.dfy` (module `VfmEngine`): `VFMEngine` as a class, with
  `load_vfm_engine`.
- `data_loader.dfy` (module `DataLoader`): `load_vfm_data`,
  `load_grid_mapping` and `merge_vfm_with_district`.
- `data_queries.dfy` (module `DataQueries`): `get_data_summary`,
  `get_grid_coordinates` and `add_district_column`.
- `dashboard.dfy` (module `Dashboard`): the non-UI logic of `app.py`. This
  covers loading, the map's markers and heat map, the filters, the VFM
  buckets and the result table.
- `grid_dedup.dfy` (module `GridDedup`): `fix_duplicate_grids.py`.

What lies outside the program becomes a parameter:

- The CSV files are already-parsed tables in `Frames.Host.files`.
- Python's `str()` of a float is `Host.showNum`.
- The string parse of `pd.to_numeric` is `Host.parseNum`.
- The engine's model and scaler files are a `VfmEngine.Disk` map from path
  to artifact.
- The networks and scalers are function values, and a failed inference is
  `None`.

Error cases are `Result` values. `Frames.Error` names the Python exception
that would be raised: `TypeError` for arithmetic or a comparison on a
string, `FormatError` for the ValueError of a float format spec given a
string, and `NanHeatData` for folium's ValueError on a NaN heat point.

## Model

| member | source | states |
|---|---|---|
| VfmEngine.HorizonIndex | modules/vfm_engine.py:150-151 | Horizons 3, 6, 9 and 12 select forecast columns 0 to 3. Every other horizon selects column 1. The index is always below 4. |
| VfmEngine.ArrayColumn | modules/vfm_engine.py:153-156 | `y[:, k]`: the k-th value of every forecast row, in row order. |
| VfmEngine.ForecastColumn | modules/vfm_engine.py:150-156 | A wide enough forecast gives the horizon's column, and a narrower one gives column 0. There is no result only when the forecast has no columns. |
| VfmEngine.FeatureBlock | modules/vfm_engine.py:134 | One feature row per table row. |
| VfmEngine.CurrentPrices | modules/vfm_engine.py:130 | The `total_deposit_median` column as it is. A missing column is a KeyError. |
| VfmEngine.Zeros | modules/vfm_engine.py:165 | `np.zeros(n)`: n zeros. |
| VfmEngine.Clip | modules/vfm_engine.py:176 | `np.clip(x, 0, 100)`: always in [0, 100], x itself inside that range, 0 below it and 100 above it. |
| VfmEngine.Ratio | modules/vfm_engine.py:205-213 | `future / (current + 1e-6)`: a number exactly when both are numbers and the guarded divisor is not zero, and then the result times the divisor is the forecast. |
| VfmEngine.Blend | modules/vfm_engine.py:205-209 | `alpha * score / 100 + beta * ratio`: a number exactly when the ratio is, and it exceeds the weighted score by beta times the ratio. |
| VfmEngine.PriceChangePct | modules/vfm_engine.py:216-219 | `(future - current) / (current + 1e-6) * 100`: a number exactly when the ratio is one, and then the result times the divisor is 100 times the change. |
| VfmEngine.Engine.constructor | modules/vfm_engine.py:66-109 | The flag and weights are copied. Each LSTM artifact is loaded exactly when its file exists, and the model also needs Keras. The MLP and its scaler are loaded exactly when the MLP is requested and its checkpoint path is given and exists. Every loaded field holds what its file holds. |
| VfmEngine.Engine.PredictLstm | modules/vfm_engine.py:126-160 | A missing `total_deposit_median` is a KeyError. A missing artifact or a failed inference returns the current prices unchanged. Otherwise the result is the forecast column the horizon selects. |
| VfmEngine.Engine.PredictMlp | modules/vfm_engine.py:162-181 | Every score lies in [0, 100]. A missing model or scaler, or a failed inference, gives one zero per row. Otherwise each raw score is clipped to [0, 100]. |
| VfmEngine.Engine.CalculateVfm | modules/vfm_engine.py:183-222 | A missing price column is a KeyError. The call fails exactly when the forecast or the scores have the wrong length or a current price is a string. Otherwise every input cell is kept and each row gets its `future_price`, its `mlp_score` (scorer branch only), its `vfm_index` (the blend or the plain ratio), `price_change_pct` and the horizon. |
| VfmEngine.Compose | modules/vfm_engine.py:192-221 | The column-by-column assignments to the copy give exactly the cells and the column order that `VfmAssigned` describes. |
| VfmEngine.NewColumnsAdded | modules/vfm_engine.py:196-221 | The new columns come after the old ones, in assignment order, and `mlp_score` is present only in the scorer branch. |
| VfmEngine.AssignedRowMeets | modules/vfm_engine.py:196-221 | One row after the chain of assignments holds the promised cells and keeps every other cell. |
| VfmEngine.LoadVfmEngine | modules/vfm_engine.py:225-268 | The engine gets the arguments' flag and weights, and without `use_mlp` no scorer is loaded. For the rent type's paths the LSTM model is loaded exactly when its file exists and Keras is available, and each LSTM scaler exactly when its file exists. The MLP and its scaler are loaded exactly when `use_mlp` is set and the checkpoint file exists. |
| VfmEngine.EngineConfig | modules/vfm_engine.py:232-267 | The flag and weights are passed on. Both MLP paths are given exactly when `use_mlp` is set. Every path lies under the project root and ends with its file name, the LSTM names carrying `_jeonse` exactly for the jeonse rent type. |
| VfmEngine.Join | modules/vfm_engine.py:236-256 | `os.path.join`: the result starts with the first part and ends with the second, joined by at most one separator. |
| VfmEngine.JeonseOnlyForJeonse | modules/vfm_engine.py:235-247 | Only `rent_type == 'jeonse'` selects the `_jeonse` files. Every other rent type gives the monthly configuration. |
| VfmEngine.NoMlpWithoutRequest | modules/vfm_engine.py:263-264 | Without `use_mlp` both MLP paths are None and the MLP is never loaded. |
| VfmEngine.PriceChangeSign | modules/vfm_engine.py:216-219 | For a non-negative current price, `price_change_pct` is a number with the sign of future minus current. |
| VfmEngine.ZeroPriceIsFinite | modules/vfm_engine.py:212-219 | Because of the 1e-6 guard, a zero current price still gives finite numbers: the ratio `future * 10^6` and the change `future * 10^8`. |
| VfmEngine.PassthroughIndex | modules/vfm_engine.py:210-219 | When the forecast equals the current price (the fallback forecast), the change is 0 and the ratio lies strictly between 0 and 1. |
| VfmEngine.RatioIndependentOfWeights | modules/vfm_engine.py:195-196 | The forecast does not read the weights: two engines that share the LSTM artifacts forecast the same, whatever their alpha and beta. |
| VfmEngine.UnscoredIgnoresWeights | modules/vfm_engine.py:210-213 | Without an active scorer the result table does not depend on alpha or beta: two results of the ratio branch on the same table and forecast are equal, `vfm_index` included. |
| VfmEngine.BlendMonotone | modules/vfm_engine.py:204-209 | With non-negative weights and price, the blended index never falls when the score or the forecast rises. |
| VfmEngine.BlendedScenario | modules/vfm_engine.py:150-209 | Horizon 12 on the forecast row 1010/1050/1080/1120 at price 1000 with score 75 gives an index just below 0.898 and a change just below 12 %. |
| VfmEngine.RatioScenario | modules/vfm_engine.py:150-219 | Horizon 3 on the same forecast row without a scorer gives a ratio just below 1.01 and a change just below 1 %. |
| DataLoader.MissingFrom | modules/data_loader.py:42 | Exactly the required columns that are absent, never more than were required. |
| DataLoader.MissingFromAppend | modules/data_loader.py:42 | The missing columns keep the order of the required list. |
| DataLoader.RequiredPresent | modules/data_loader.py:42-44 | When no required column is missing, `grid_id` and every score column are present. |
| DataLoader.StrippedIds | modules/data_loader.py:47 | Each row's `grid_id` becomes the stripped `str()` of its value, and nothing else changes. |
| DataLoader.StrippedIdsAreStripped | modules/data_loader.py:47 | Afterwards every id is a string with no surrounding white space. |
| DataLoader.StrippedIdsIdempotent | modules/data_loader.py:162-163 | Stripping ids that are already stripped strings changes nothing, so the merge's second strip is harmless. |
| DataLoader.ScaledRange | modules/data_loader.py:59-61 | A value between the minimum and the maximum scales into [0, 100]. |
| DataLoader.ScaledEnds | modules/data_loader.py:59-61 | The minimum scales to 0 and the maximum to 100. |
| DataLoader.ScaledMonotone | modules/data_loader.py:59-61 | Scaling keeps the order of values. |
| DataLoader.Normalize | modules/data_loader.py:57-63 | One numeric cell per input cell. |
| DataLoader.NormalizeAt | modules/data_loader.py:57-63 | When max > min a number is min-max scaled and NaN stays NaN. Otherwise every cell is 50. |
| DataLoader.NormalizeRange | modules/data_loader.py:57-63 | Every normalised number lies in [0, 100]. A result is NaN exactly when the input cell is NaN and the column has a spread. |
| DataLoader.NormalizeConstant | modules/data_loader.py:62-63 | A column with no spread, or with no numbers at all, becomes all 50. |
| DataLoader.NormalizeEnds | modules/data_loader.py:59-61 | The column's minimum becomes 0 and its maximum 100. |
| DataLoader.NormalizeMonotone | modules/data_loader.py:59-61 | Normalisation keeps the order of the column's values. |
| DataLoader.NormNameInjective | modules/data_loader.py:60 | Distinct score columns get distinct `_norm` columns. |
| DataLoader.NormColumnsNamed | modules/data_loader.py:66-67 | The j-th normalised column is the j-th score column with `_norm` appended. |
| DataLoader.NormColumnsFresh | modules/data_loader.py:60 | No `_norm` column is a score column or `grid_id`. |
| DataLoader.AddNorm | modules/data_loader.py:56-63 | One loop iteration: an absent column changes nothing. A TypeError comes exactly when the present column cannot be reduced and compared, that is, it holds a string beside another cell or two different strings. Otherwise rows are kept. |
| DataLoader.AddNormOneText | modules/data_loader.py:57-63 | A column of one repeated string raises nothing: `min` and `max` are equal, so the `_norm` column is 50.0 on every row. |
| DataLoader.NormalizedUpTo | modules/data_loader.py:55-63 | The table after the first k iterations of the loop keeps the row count, and a success is a well-formed table. |
| DataLoader.NormalizedErrSticks | modules/data_loader.py:55-63 | Once a column's `min()` has raised, the loop's outcome is that error. |
| DataLoader.NormalizeScores | modules/data_loader.py:55-63 | The loop over the score columns has the outcome that the function `NormalizedUpTo` defines for all six score columns. |
| DataLoader.NormalizedColumns | modules/data_loader.py:55-63 | The loop only adds `_norm` columns. |
| DataLoader.NormalizedUntouched | modules/data_loader.py:55-63 | Every column other than a `_norm` one is left as it was. |
| DataLoader.NormalizedKeeps | modules/data_loader.py:55-63 | Each `_norm` column holds the normalisation of its score column. |
| DataLoader.NormalizedFails | modules/data_loader.py:55-63 | The loop fails, with a TypeError, exactly when some present score column mixes a string with any other cell or holds two different strings. A column of one repeated string gets 50.0, as `max > min` is false for it. |
| DataLoader.RowMean | modules/data_loader.py:68 | `mean(axis=1)` skipping NaN. The result is NaN exactly when the row has no number. Otherwise it times the number of numbers is their sum, so it is their arithmetic mean. |
| DataLoader.RowMeanBounds | modules/data_loader.py:68 | A row mean lies between any bounds of the row's numbers. |
| DataLoader.PresentNorms | modules/data_loader.py:66-67 | Only `_norm` columns that exist are averaged, and all of them when all exist. |
| DataLoader.WithScores | modules/data_loader.py:68-69 | `vfm_score` and `vfm_normalized` both hold the row means, and every other column is unchanged. |
| DataLoader.MeanScores | modules/data_loader.py:66-69 | Row i's score is the mean of row i's normalised cells. |
| DataLoader.MeanScoresInRange | modules/data_loader.py:66-69 | Every computed `vfm_score` lies in [0, 100]. |
| DataLoader.MeansOfNorms | modules/data_loader.py:66-69 | The means taken over the table's `_norm` columns are the means of the normalised score columns. |
| DataLoader.ScoreStage | modules/data_loader.py:50-69 | With every score column numeric, the score step succeeds and computes each `_norm` column and the two row-mean columns. |
| DataLoader.CoerceIfPresent | modules/data_loader.py:74-79 | A present column becomes `to_numeric(errors='coerce')` of itself, and the other columns are untouched. |
| DataLoader.CoercePrices | modules/data_loader.py:72-84 | Rent and deposit (monthly) or the median deposit (jeonse) are coerced, and every other column is untouched. |
| DataLoader.PriceStage | modules/data_loader.py:47-84 | Stripping, scoring and coercion together give `LoadedVfm`. The rows stay the same, the ids are stripped and taken from the file, prices are coerced, scores are added only when missing, and the other columns are as read. |
| DataLoader.LoadVfmData | modules/data_loader.py:14-100 | A missing file is FileNotFoundError. Missing required columns are a wrapped ValueError listing them in order. A score column that has to be normalised and cannot be is a wrapped TypeError. Otherwise the result is `LoadedVfm` of the file. The outcome is the function `VfmLoad`, which the dashboard's loader reasons with. |
| DataLoader.LoadGridMapping | modules/data_loader.py:103-141 | A missing file is FileNotFoundError, and a missing `grid_id` or `district` is a wrapped ValueError listing them. Otherwise the rows and columns are the file's, the ids are stripped, and `lat` and `lon` are coerced when both exist. |
| DataLoader.StripKeepsOthers | modules/data_loader.py:124 | Stripping ids leaves every other column as read. |
| DataLoader.MergeCols | modules/data_loader.py:166-168 | The columns taken from the mapping always include `district` and never `grid_id`. `lat` and `lon` come along exactly when the mapping has both. |
| DataLoader.MappingPart | modules/data_loader.py:172 | The projection of the mapping onto `grid_id` and the merge columns, row for row. |
| DataLoader.MergeVfmWithDistrict | modules/data_loader.py:144-186 | A missing `grid_id` on either side is a wrapped KeyError. So is a mapping without `district`. A suffix clash is a wrapped error. A VFM table that already has `district` gets `district_x`/`_y` and fails at the fill with a KeyError. Otherwise the result has the join's columns. |
| DataLoader.JoinDistricts | modules/data_loader.py:171-181 | The same error cases. On success the result has the join's columns, including `district`. |
| DataLoader.LabelUnmatched | modules/data_loader.py:178-181 | Only the `district` cell of each row changes, as `Labelled` says. |
| DataLoader.Labelled | modules/data_loader.py:181 | A NaN district becomes '🔍 미분류', and any other district is kept. The result is never NaN. |
| DataLoader.DistrictAfterJoin | modules/data_loader.py:171-175 | The joined table has a plain `district` column exactly when the VFM table had none. |
| DataLoader.JoinLabelsEveryRow | modules/data_loader.py:171-181 | After the join and fill no row lacks a district. No VFM row is lost, whether or not mapping ids repeat: each VFM row comes out, with all its values under their merged names, once with the labelled district of each mapping row sharing its id, or labelled '🔍 미분류' when none does. |
| DataLoader.LabelsEveryRow | modules/data_loader.py:178-181 | After the fill no district is NaN. |
| DataLoader.MergeLabelsEveryRow | modules/data_loader.py:144-186 | A successful merge has a `district` column, at least as many rows as the VFM table, and no NaN district. Every stripped VFM row comes out with its values once per mapping row sharing its stripped id, with that row's district labelled, or labelled '🔍 미분류' when none does. |
| DataLoader.JoinEveryRowSurvives | modules/data_loader.py:171-181 | The survival half of JoinLabelsEveryRow: for repeated mapping ids too, every VFM row comes out with each matching mapping row's district, or unclassified. |
| DataLoader.ProjectedUnique | modules/data_loader.py:172 | Projecting a mapping with unique ids keeps them unique. |
| DataLoader.MatchOfProjection | modules/data_loader.py:171-175 | In a mapping with unique ids, an id matches a projected row exactly when some mapping row has it, and that row carries the mapping row's values. |
| DataLoader.MappingPartUnique | modules/data_loader.py:172 | The merged part of a mapping with unique ids has unique ids. |
| DataLoader.JoinWithMapping | modules/data_loader.py:171-175 | With unique mapping ids the join has one row per VFM row, made from that row and its first match. |
| DataLoader.JoinDistrictsRows | modules/data_loader.py:171-181 | With unique mapping ids, row i of the result is VFM row i joined with its match, district labelled. |
| DataLoader.JoinKeepsVfmValues | modules/data_loader.py:171-175 | With unique mapping ids no row is added or lost, and each VFM value sits in its row under its merged name. |
| DataLoader.MatchRowDistrict | modules/data_loader.py:171-175 | A VFM id has no match exactly when no mapping row has it. Otherwise the match carries that mapping row's district. |
| DataLoader.JoinMatchedDistrict | modules/data_loader.py:171-181 | A VFM row whose id the mapping has gets that mapping row's district, labelled. |
| DataLoader.JoinUnmatchedDistrict | modules/data_loader.py:171-181 | A VFM row whose id the mapping lacks is labelled '🔍 미분류'. |
| DataLoader.MergeKeepsVfmValues | modules/data_loader.py:144-186 | When the mapping's stripped ids are unique, the merge keeps the VFM row count and every VFM value of the stripped table. |
| DataLoader.MergeMatchedDistrict | modules/data_loader.py:144-186 | A VFM row whose stripped id is in the stripped mapping gets that mapping row's district, labelled. |
| DataLoader.MergeUnmatchedDistrict | modules/data_loader.py:144-186 | A VFM row whose stripped id is absent from the stripped mapping gets '🔍 미분류'. |
| DataQueries.Values | modules/data_loader.py:207 | The distinct non-NaN cells of a column. |
| DataQueries.NUniqueAtMost | modules/data_loader.py:207 | `nunique()` never exceeds the number of non-NaN cells. |
| DataQueries.NUniqueFull | modules/data_loader.py:207 | `nunique()` equals the length exactly when the column has no NaN and no repeated value. |
| DataQueries.StatsOf | modules/data_loader.py:208-209 | The min, max and mean of a column. A missing column is a KeyError. |
| DataQueries.OptionalStats | modules/data_loader.py:212-233 | A missing optional column gives no entry. A present one gives its stats, and a string in it gives a TypeError. |
| DataQueries.GetDataSummary | modules/data_loader.py:189-235 | A missing `grid_id` or `vfm_normalized` is a KeyError, and a string in a reduced column is a TypeError. Otherwise the summary counts rows and distinct ids and has the VFM stats. The rent, deposit or jeonse entries appear exactly when the contract type and the columns call for them. |
| DataQueries.SummaryBounds | modules/data_loader.py:205-214 | Distinct ids never outnumber rows, and they are equal exactly when the ids are distinct and none is NaN. The VFM range is attained by cells and bounds every number. The number of rents available never exceeds the number of rows. |
| DataQueries.SummaryOfUniqueIds | modules/data_loader.py:207 | A table with unique stripped ids has as many unique grids as rows. |
| DataQueries.FirstRowWith | modules/data_loader.py:256-259 | The position of the first row holding the value, or none when no row does. |
| DataQueries.LoadedCoordRows | modules/data_loader.py:124-131 | Row for row, a loaded mapping with both coordinates holds the file's stripped ids and coerced coordinates. |
| DataQueries.CoordsOfFirst | modules/data_loader.py:256-265 | Coordinates are found exactly when the first row with the id has two numbers, and they are that row's. |
| DataQueries.CoordinatesFromFile | modules/data_loader.py:238-268 | The outcome of `GetGridCoordinates`. Only the first mapping-file row whose stripped id is the stripped query id is looked at. Coordinates are found exactly when that row's `lat` and `lon` are both numeric, and they are that row's. A later row with the same id is never used. Otherwise the result is (None, None). |
| DataQueries.AddDistrictOutcome | modules/data_loader.py:271-302 | The outcome of `AddDistrictColumn`. A table that has a district comes back as it is. Otherwise a successful merge is returned. If loading or merging fails, every row gets '정보 없음' and the other columns are unchanged. No input row is ever lost. |
| PyStr.Strip | modules/data_loader.py:47 | `str.strip()`: what remains starts and ends with no white space, and is all of the string between its leading and trailing white space. |
| PyStr.StripIdempotent | modules/data_loader.py:162-163 | Stripping twice is stripping once. |
| Frames.Column | modules/data_loader.py:57 | `df[c]`: the column's cells in row order. |
| Frames.SetColumn | app.py:243 | `df[c] = vals`: row i gets `vals[i]` under c, and c is appended to the columns when it is new. |
| Frames.ColumnOfSet | app.py:243 | After the assignment, column c is the new values and every other column is unchanged. |
| Frames.FillNull | modules/data_loader.py:181 | `fillna(x)` on one column: only NaN cells of that column change. |
| Frames.Where | fix_duplicate_grids.py:29 | Boolean selection: each row the mask keeps is kept as often as it occurs, no other row is, and the kept rows are a subsequence of the input, so they keep its order. |
| Frames.Select | app.py:771-774 | The columns are unchanged. Each passing row is kept as often as it occurs, no other row is, and the kept rows keep the input order. |
| Frames.Project | app.py:923 | `df[cols]`: every row keeps exactly the named cells. |
| Frames.Head | app.py:923 | `head(n)`: the first n rows. |
| Frames.Nums | fix_duplicate_grids.py:35-36 | The numbers of a column, NaN skipped; every number of the column is in it and nothing else. |
| Frames.NumsCounts | fix_duplicate_grids.py:35-36 | Each number occurs in `Nums` exactly as often as its cell occurs in the column. |
| Frames.MeanTimesCount | fix_duplicate_grids.py:35-36 | The mean of a non-empty list times its length is its sum. |
| Frames.ToNumeric | modules/data_loader.py:75-76 | `to_numeric(errors='coerce')`: numbers and NaN stay as they are, a parsable string becomes its number, and any other string becomes NaN. |
| Frames.ToNumericIdempotent | modules/data_loader.py:128-131 | Coercing twice is coercing once. |
| Frames.CountNull | fix_duplicate_grids.py:48 | `isna().sum()`: zero exactly when the column has no NaN. |
| Frames.MinOf | modules/data_loader.py:57 | The minimum is one of the values and below all of them. |
| Frames.MaxOf | modules/data_loader.py:58 | The maximum is one of the values and above all of them. |
| Frames.MeanBounds | fix_duplicate_grids.py:35-36 | A mean lies between any bounds of its values. |
| Frames.ColumnStats | modules/data_loader.py:208-209 | `min`, `max` and `mean`: a TypeError exactly when the column holds a string. Otherwise they exist exactly when the column has a number. Then the range is attained by cells and bounds every number, and the mean is the mean of the numbers and lies within the range. |
| FramesMerge.JoinColumns | modules/data_loader.py:171-175 | The left columns then the right value columns. A name in both gets `_x` on the left and `_y` on the right. |
| FramesMerge.NoOverlapKeepsNames | modules/data_loader.py:171-175 | With no shared names the result columns are the left then the right columns, unrenamed. |
| FramesMerge.JoinRow | modules/data_loader.py:171-175 | A result row holds the left row's cells and the match's cells under their result names, with NaN for the right cells when nothing matches. |
| FramesMerge.Matching | modules/data_loader.py:171-175 | The right rows whose key equals the value. |
| FramesMerge.RowsFor | modules/data_loader.py:171-175 | A left row gives one row per match, or a single NaN-filled row when nothing matches. |
| FramesMerge.LeftJoin | modules/data_loader.py:171-175 | A suffix clash that would repeat a column name is an error. Otherwise the result has the join's columns and every row fits them. |
| FramesMerge.JoinKeepsRows | modules/data_loader.py:171-175 | A left join never has fewer rows than its left table. |
| FramesMerge.JoinRowsCover | modules/data_loader.py:171-175 | No left row is lost for any right keys: its row joined with each match is in the result, or its NaN-filled row when nothing matches. |
| FramesMerge.LeftJoinRowIn | modules/data_loader.py:171-175 | For a successful left join, a left row joined with any of its matches, or NaN-filled when it has none, is a result row. |
| FramesMerge.UniqueMatch | modules/data_loader.py:171-175 | With unique right keys a value matches at most one row. |
| FramesMerge.FirstMatch | modules/data_loader.py:171-175 | The first matching right row, or none exactly when nothing matches. |
| FramesMerge.UniqueJoin | modules/data_loader.py:171-175 | With unique right keys, one result row per left row. |
| FramesMerge.JoinRowsUnique | modules/data_loader.py:171-175 | With unique right keys the left join is the one-row-per-left-row join. |
| FramesMerge.JoinUniqueIsRowForRow | modules/data_loader.py:171-175 | Row i of that join is left row i joined with its first match. |
| FramesMerge.LeftJoinUnique | modules/data_loader.py:171-175 | For a successful left join with unique right keys, the rows match the left rows one for one, each joined with its match. |
| Ranking.Insert | app.py:923-924 | One insertion step of the stable sort: the same rows plus x. |
| Ranking.SortedDown | app.py:923-924 | `sort_values(ascending=False)` is a permutation of the rows. |
| Ranking.InsertDescending | app.py:923-924 | Inserting into a descending order keeps it descending. |
| Ranking.SortedDownDescending | app.py:923-924 | The sort puts the rows highest first, with NaN last. |
| Ranking.Largest | app.py:434 | `nlargest(n)` takes n rows, or every row when there are fewer. |
| Ranking.LargestTop | app.py:434 | `nlargest` takes rows of the input, highest first. No row it leaves out ranks above a row it takes. |
| Dashboard.LoadDataSimple | app.py:234-254 | When both loads and the merge succeed and the merge has `vfm_index`, the result is that merge with `custom_vfm` a copy of `vfm_index`, every row has a district and no VFM row is lost. In every other case it is the empty frame. |
| Dashboard.MergedTable | app.py:236-243 | The merged table exists exactly when both loads and the merge succeed and it has `vfm_index`. It then has a district on every row and at least one row per loaded VFM row. |
| Dashboard.CopyVfmIndex | app.py:242-243 | After the copy, `custom_vfm` equals `vfm_index` on every row and no row is lost. |
| Dashboard.GradeOf | app.py:439-455 | The tiers are 2.0 and above, [1.0, 2.0), [0.5, 1.0) and below 0.5, each exactly. |
| Dashboard.GradeMonotone | app.py:439-455 | A higher VFM never gets a lower tier. |
| Dashboard.GradeOfCell | app.py:439-455 | The tier of a cell: the four bands for a number, and red for NaN, which fails every comparison. |
| Dashboard.MarkerColours | app.py:440-455 | Through `Color` and `Icon` of its tier, a value is drawn green exactly when it is at least 2.0, blue in [1.0, 2.0), orange in [0.5, 1.0), and red below 0.5 or for NaN. The icon is a star exactly when the colour is green, and a house otherwise. |
| Dashboard.DisplayCount | app.py:291-296 | For markers, the smaller of the marker limit and the data count. Otherwise the data count. |
| Dashboard.HeatWeight | app.py:416-419 | `min(vfm / 3, 1)`: at most 1, exactly vfm/3 up to 3, and NaN only for NaN. |
| Dashboard.HeatWeightMonotone | app.py:418 | A higher VFM never gets less heat. |
| Dashboard.HeatData | app.py:414-419 | One heat point per located row, in order, each weight at most 1. |
| Dashboard.ConvertedDeposit | app.py:458-461 | `deposit + rent * 100`, NaN when either is NaN. |
| Dashboard.TrendOf | app.py:502-514 | A trend exists exactly when the forecast is positive. It is rising exactly for a positive change and falling exactly for a negative one. |
| Dashboard.TrendFollowsForecast | app.py:502-514 | With the engine's change, the trend is rising, falling or steady exactly as the forecast is above, below or at the current price. |
| Dashboard.MarkerOf | app.py:436-618 | A marker fails exactly when a value it compares or formats is a string. The error is the one `MarkerFailure` gives in the code's order: a TypeError from the tier comparison, from a string beside a number in `deposit + rent * 100`, or from the forecast and change comparisons; a ValueError (`FormatError`) when a string only reaches a float format, as a string index value, two string monthly prices or a string jeonse price do. The coordinates are not checked here (see "## Left out"). Otherwise it sits at the row's coordinates with the row's VFM, that VFM's tier, and the tier's colour and icon as `MarkerColours` states them. A monthly popup shows the row's deposit, rent and `deposit + rent * 100`; a jeonse popup its price, forecast and change, with a rising arrow exactly for a positive change and a falling one for a negative change, shown only for a positive forecast. |
| Dashboard.MarkerFailure | app.py:440-600 | No exception exactly when none of the compared or formatted cells is a string, and otherwise a TypeError or the formatting ValueError. |
| Dashboard.MarkerValueErrors | app.py:461-600 | A string index value, two string monthly prices and a string jeonse price each give the formatting ValueError; a string rent beside a numeric deposit gives a TypeError. |
| Dashboard.BuildMarkers | app.py:436-618 | The loop fails exactly when some row's marker fails, with the first failing row's exception. Otherwise it yields that row's marker for every row, in order. |
| Dashboard.LocatedRows | app.py:408 | `dropna(subset=['lat', 'lon'])`: each row with both coordinates is kept as often as it occurs, no other row is, in the input order. |
| Dashboard.TopMarkers | app.py:434 | At most marker_limit rows are drawn, highest VFM first. No row left out ranks above a row drawn. |
| Dashboard.LocatedVfm | app.py:408 | Dropping rows keeps the VFM column numeric. |
| Dashboard.HeatMapLayer | app.py:414-430 | The heat-map branch. A NaN `custom_vfm` gives folium's ValueError, which `HeatMap` raises whatever the coordinates. Otherwise a string coordinate is reported as the TypeError of the map's centre (see "## Left out"). Otherwise the layer holds one point per located row, in order, each with a numeric weight. |
| Dashboard.MarkerMapLayer | app.py:433-618 | The marker branch: the first failing marker's exception, else a string coordinate reported as the centre's TypeError (see "## Left out"), else one marker per top row, in order. |
| Dashboard.CreateMap | app.py:257-623 | No rows gives the "no results" map. A missing `custom_vfm` is a KeyError and a string in it a TypeError (the stats). In heat-map mode a located row with a NaN `custom_vfm` gives a NaN heat point, which folium's `HeatMap` refuses with a ValueError. A string coordinate in a located row is otherwise reported as a TypeError (the map's centre, the mean of the coordinates; see "## Left out"). In marker mode a failing marker gives the first failing row's exception. Otherwise the map is the heat map or the top markers of the located rows, with the legend's counts. |
| Dashboard.FilterVfmAndDistrict | app.py:771-779 | A missing column or a string VFM fails as pandas would. Otherwise each row in the VFM range (and the chosen districts) is kept as often as it occurs, no other row is, in the input order, with the columns unchanged. |
| Dashboard.PriceTextFound | app.py:782-796 | The price filter meets a string exactly when some row compared holds one. |
| Dashboard.FilterResults | app.py:771-796 | It fails exactly when `FilterError` says so, with that error. Otherwise each row that passes the VFM, district and price filters is kept as often as it occurs, no other row is, in the input order, with the columns unchanged. |
| Dashboard.PriceFilter | app.py:782-796 | The price step: the rows in the price ranges when the contract type's price columns exist, every row otherwise, each kept as often as it occurs and in order. |
| Dashboard.FilterError | app.py:771-796 | The filter's error, if any: a KeyError for a missing `custom_vfm` or `district`, or a TypeError. No error means the columns exist, the VFM column holds no string and no row reaching the price filter holds a string price. |
| Dashboard.BucketIsGrade | app.py:815-821 | A value lies in a bucket exactly when its marker tier is that bucket. |
| Dashboard.CountIn | app.py:815-821 | A bucket's count never exceeds the rows. |
| Dashboard.BucketCountIsSelection | app.py:815-821 | A bucket's count is `len(df_filtered[mask])`: the number of rows the bucket's range test selects. |
| Dashboard.CountInRows | app.py:815-821 | The same count over a column and the rows it was read from. |
| Dashboard.BucketsPartition | app.py:815-821 | The four buckets plus the NaN cells count every row exactly once. |
| Dashboard.FilteredBuckets | app.py:815-821 | After the VFM filter the four buckets add up to the number of rows shown. |
| Dashboard.Present | app.py:921 | `[c for c in cols if c in df.columns]`: exactly the listed names that exist. |
| Dashboard.PresentAppend | app.py:921 | Filtering a concatenation filters each part. |
| Dashboard.PricesPresent | app.py:905-921 | Appending each price column only when present gives the same list once absent names are dropped. |
| Dashboard.ResultColumns | app.py:903-921 | The table's columns are the listed ones that exist, in the listed order. |
| Dashboard.Shortlist | app.py:923 | `df_filtered[cols]` keeps every row and its VFM. |
| Dashboard.ResultTable | app.py:923-924 | As written: at most 100 rows, highest VFM first, and they are the first 100 filtered rows. |
| Dashboard.TopResultTable | app.py:923-924 | Corrected: at most 100 rows, highest VFM first. No filtered row left out ranks above one shown. |
| Dashboard.BestNotInHead | app.py:923-924 | Sorting the first n rows cannot bring in row n. |
| Dashboard.BestInLargest | app.py:434 | A unique best row is always among the largest. |
| Dashboard.HeadThenSortMissesBest | app.py:923-924 | When only row 101 has the highest VFM, the table as written misses it and the corrected table shows it. |
| GridDedup.RenameRow | fix_duplicate_grids.py:23-25 | A row's `latitude` and `longitude` cells move to `lat` and `lon`, and every other cell stays. |
| GridDedup.StandardNames | fix_duplicate_grids.py:23-25 | The rename happens exactly when both long names exist, and renames each column and row in place. Otherwise the table is unchanged. |
| GridDedup.Occurrences | fix_duplicate_grids.py:29 | How often a value occurs, positive exactly when it occurs. |
| GridDedup.Duplicated | fix_duplicate_grids.py:29 | `duplicated(subset=['grid_id'], keep=False)`: every copy of each row whose id occurs more than once, as often as it occurs, in the input order, and no other row. A missing `grid_id` is a KeyError. |
| GridDedup.StrBeforeIrreflexive | fix_duplicate_grids.py:34 | No string sorts before itself. |
| GridDedup.StrBeforeTotal | fix_duplicate_grids.py:34 | Any two strings are equal or ordered. |
| GridDedup.StrBeforeTransitive | fix_duplicate_grids.py:34 | The string order is transitive. |
| GridDedup.BeforeIrreflexive | fix_duplicate_grids.py:34 | No key sorts before itself in groupby's order (numbers first, then strings). |
| GridDedup.BeforeTotal | fix_duplicate_grids.py:34 | Any two non-NaN keys are equal or ordered. |
| GridDedup.BeforeTransitive | fix_duplicate_grids.py:34 | The key order is transitive. |
| GridDedup.IncreasingDistinct | fix_duplicate_grids.py:34 | Strictly increasing keys are distinct. |
| GridDedup.InsertKey | fix_duplicate_grids.py:34 | Adding a key to a sorted key list keeps it sorted and free of NaN. |
| GridDedup.GroupKeys | fix_duplicate_grids.py:34 | The group keys are exactly the non-NaN ids, sorted and each once. |
| GridDedup.GroupCells | fix_duplicate_grids.py:34-38 | A group holds one cell per row with its id. |
| GridDedup.GroupCellsFrom | fix_duplicate_grids.py:34-38 | A group's cells are exactly the cells of the rows with its id. |
| GridDedup.GroupCellsCounts | fix_duplicate_grids.py:34-38 | Each value occurs in a group as often as the rows with the group's id hold it. |
| GridDedup.MeanCell | fix_duplicate_grids.py:35-36 | A group's mean is NaN exactly when it has no number. Otherwise it times the count of numbers is their sum, the arithmetic mean, and it lies between the smallest and the largest number. |
| GridDedup.ModeAmong | fix_duplicate_grids.py:38 | The candidate ranking first by count and then by sort order, or none when every candidate is NaN. |
| GridDedup.Mode | fix_duplicate_grids.py:38 | `mode()[0]`: a most frequent non-NaN value, the smallest of equally frequent ones, or none when every value is NaN. |
| GridDedup.DistrictOf | fix_duplicate_grids.py:38 | The mode when there is one. Otherwise `x.iloc[0]`, which is then NaN. |
| GridDedup.MissingColumn | fix_duplicate_grids.py:34-38 | The first aggregated column that is absent, if any. |
| GridDedup.Grid | fix_duplicate_grids.py:34-38 | One cell of column c per row of grid k. |
| GridDedup.OutputRow | fix_duplicate_grids.py:39 | A result row of exactly `grid_id`, `lat`, `lon` and `district`. |
| GridDedup.GroupRowCells | fix_duplicate_grids.py:34-39 | A grid's row has the mean coordinates and the modal district of the grid's rows. |
| GridDedup.GroupRows | fix_duplicate_grids.py:34-39 | One aggregated row per key, in key order. |
| GridDedup.Dedup | fix_duplicate_grids.py:34-39 | A missing column is a KeyError, and a string coordinate is a TypeError. Otherwise there is one row per non-NaN id, sorted by id, holding that grid's aggregates. |
| GridDedup.OneRowPerGrid | fix_duplicate_grids.py:34-43 | The ids after the dedup are distinct, so `nunique()` equals the row count, and there are as many rows as distinct non-NaN ids. |
| GridDedup.DedupedIdsUnique | fix_duplicate_grids.py:34-39 | A deduplicated mapping with stripped ids is unchanged by the loader's strip and has unique ids. |
| GridDedup.DedupedMergeKeepsRows | fix_duplicate_grids.py:34-39 | Merging with the deduplicated mapping keeps exactly one row per VFM row, the purpose of the script. |
| GridDedup.CountPresent | fix_duplicate_grids.py:47 | `notna().sum()` never exceeds the rows. |
| GridDedup.PresentPlusNull | fix_duplicate_grids.py:47-48 | The mapped and unmapped counts add up to the row count. |
| GridDedup.FixDuplicateGrids | fix_duplicate_grids.py:14-70 | The script fails exactly when the dedup does, with its error. Otherwise it reports the duplicate rows and the deduplicated table, whose mapped and unmapped counts add up to its rows. The unmapped count is 0 exactly when every grid has a district. |

## Left out

- Reading and writing files (`read_csv`, `to_csv`), `os.path.exists` and the path joining from `__file__` are not modelled. Files are the `Host` and `Disk` maps, and the script's table is its input and result.
- The networks, scalers, Keras and PyTorch are function values. A failed inference is `None`.
- Every `print` and `st.*` call is left out, along with `st.cache_data`, the popup HTML and the folium rendering. So are the sidebar widgets, the marker-limit warning (app.py:798-806) and the metrics and charts of app.py:808-899 beyond the bucket counts.
- The prints of `fix_duplicate_grids.py` are left out: the unique-id counts (lines 20 and 43), the district `value_counts` (53-57) and the GRID_02028 check (59-66).
- Dates are not modelled: `to_datetime` of `contract_date`/`year_month` (modules/data_loader.py:86-93) is left out. There is no date type, and the code swallows that step's errors.
- Floats are exact reals, with no IEEE rounding and no infinities. A quotient by zero becomes NaN; the 1e-6 guards rule it out for non-negative prices.
- Frames.Valid: pandas allows repeated column labels, but here every row has exactly the table's columns. A merge or rename that would repeat a label is therefore an error.
- Ranking.SortedDown: `sort_values` is modelled as a stable sort with NaN last. pandas' default quicksort does not promise an order for ties.
- Dashboard.HeatWeight requires a numeric `custom_vfm`. So do Dashboard.HeatData, Dashboard.Shortlist, Dashboard.ResultTable and Dashboard.TopResultTable. The code reaches them only after the stats of app.py:281-288 or the VFM filter, which raise on strings.
- DataLoader.MergeVfmWithDistrict does not model the write of the stripped ids into the caller's table. Nor does DataQueries.AddDistrictOutcome model the write of `df['district']` into it. Both return the new table.
- DataLoader.LabelUnmatched: the chained `df_merged['district'].fillna(..., inplace=True)` of modules/data_loader.py:181 is taken to write through to the merged frame, as it does in pandas without Copy-on-Write. Under Copy-on-Write (the default from pandas 3) it would leave the NaN districts in place.
- DataQueries.AddDistrictOutcome: when the merge fails after its strip of `grid_id` (a suffix clash such as a VFM table holding both `lat` and `lat_x`), the source's except branch returns the caller's frame with its ids already stripped, because the strip wrote into that frame. The model's fallback keeps the original, unstripped ids.
- Dashboard.CreateMap: a frame without coordinates raises a KeyError that names only the first missing column, while pandas lists both. GridDedup.MissingColumn does the same for the aggregated columns.
- Dashboard.CreateMap: a located row with a string coordinate gives the TypeError of the mean at app.py:621, unless a NaN heat weight or a marker's own error comes first. folium checks each location with `float()` before that mean, and a string that does not parse as a number raises a ValueError there. The model does not parse coordinate strings, so it cannot tell that ValueError from the TypeError.
- Dashboard.HeatMapLayer: with no NaN weight, a coordinate string that does not parse raises folium's ValueError at app.py:422. The model reports every string coordinate as the centre's TypeError. Only strings that do parse reach the mean at app.py:621 and raise that TypeError in the source.
- Dashboard.MarkerMapLayer: `folium.Marker` at app.py:612-618 raises a ValueError for a drawn row whose coordinate string does not parse. The model reports it as the centre's TypeError after the loop.
- Dashboard.MarkerOf: it does not check the row's coordinates, so a coordinate string that does not parse gives a marker here, where `folium.Marker` would raise a ValueError. MarkerMapLayer turns every string coordinate into the centre's TypeError.
- GridDedup.RenameRow: a mapping that has `lat`/`lon` beside `latitude`/`longitude` keeps the renamed cells, whereas pandas would hold two columns with the same label.
- GridDedup.Dedup: a string anywhere in `lat` or `lon` gives a TypeError for the whole column. pandas averages each group separately and drops rows whose `grid_id` is NaN, so a string that sits only in a NaN-keyed row is never aggregated and raises nothing there, while the model still fails.
- VfmEngine.Engine.constructor requires `Openable`: the files opened hold artifacts of the right kind. The MLP scaler file must also exist whenever the checkpoint was loaded, because modules/vfm_engine.py:103 opens it unchecked.
- VfmEngine.Engine.PredictLstm does not model which failure of the feature extraction or the network occurs. Every failure has the same outcome, the fallback to current prices.
- `modules/geo_utils.py`, `modules/visualizations.py`, `pages/1_detail_analysis.py`, `check_price_range.py`, `check_vfm_components.py` and `verify_grid_02028.py` are not part of this model.

## Findings

| source | as written | input that shows it | evidently intended | confidence | as-written member | corrected member |
|---|---|---|---|---|---|---|
| app.py:923-924 | `head(100)` comes before `sort_values`, so only the first 100 filtered rows are sorted | more than 100 filtered rows, where only row 101 has the highest `custom_vfm` | the table titled "top 100" shows the 100 highest VFM rows | not executed | Dashboard.ResultTable, Dashboard.HeadThenSortMissesBest | Dashboard.TopResultTable |
