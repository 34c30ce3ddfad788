# CO2 analytics core, modelled in Dafny

This project models the deterministic core of a small CO2 analytics service. It is written in pandas and scikit-learn. There are three parts.

- **`CO2DataAnalyzer`** (`utils/data_analysis.py`) keeps a copy of the emissions table and coerces `ANO` and `VALOR_F` to numbers. It then answers group-by queries:
  - count, min and max per region, category or region-and-category pair;
  - yearly counts;
  - the top emitters by total;
  - the sorted distinct regions and categories.
- **`CO2PredictionModel` and `LandUseCO2Model`** (`models/`) have three parts each:
  - the row filters and one-hot encoding that fix the feature-column list at training time;
  - the alignment of a prediction input to that list;
  - a trained/untrained state machine with its `ValueError` guards.

  The land-use model also merges the CO2 and land-use tables and ranks the land-use columns by correlation. The regressors, the scaler and the train/test split are opaque parameters.
- **The three crop-analysis scripts** (`scripts/`) each follow the same steps:
  - find the year columns;
  - melt each wide crop table to one row per (crop row, year);
  - drop rows whose hectares do not parse;
  - normalise regions;
  - sum hectares and CO2 per key and inner-join the sums;
  - rank the crops by CO2.

A pandas DataFrame is modelled as `Frame.Table`: an ordered list of column names and a sequence of rows. Each row maps column names to cells, and a cell is missing, a real number or text. Exceptions become `Result` errors of the same kind: `KeyError`, `ValueError` (this includes `float()` on text that is not a number), `TypeError`, `AttributeError` or `NotFittedError`.

Modules:

| module | what it holds |
|---|---|
| `Frame` | the table, `dropna`, column selection and `head` |
| `Order` | the ordering of cells and keys that `groupby` sorts by |
| `Grouping` | the groups of a `groupby` |
| `Aggregate` | values and their count, sum, min and max |
| `Sorting` | the stable descending sort, filtering and counting |
| `Text` | the string methods and the float parser |
| `Preprocessing` | the `astype(str)`, rewrite, `astype(float)` coercion |
| `Distinct` | `sorted(unique())` |
| `Encoding` | the one-hot encoder |
| `Alignment` | the predict-time column alignment loop |
| `Learning` | the opaque regressor and the feature-importance ranking |
| `Join` | `merge(how='inner')` |
| `Crops` | shared script steps |
| `CropLong` | the melt-and-clean step both crop scripts use |

There is one module per core source file: `DataAnalysis`, `PredictionModel`, `LandUseModel`, `AgricultureEnergy`, `CropsSimple` and `AnalyzeCrops`.

Methods keep the imperative form of the source where the source changes state:
- the analyzer and both model classes are classes whose methods assign their fields;
- the year-column loops, the step-by-step table reassignments of the scripts and the alignment loop are methods with loops.

Each method is proved equal to a specification function. The properties are proved as lemmas about that function.

## Model

| member | source | states |
|---|---|---|
| DataAnalysis.CO2DataAnalyzer.constructor | co2_microservice/utils/data_analysis.py:16 | the analyzer holds its own copy of the caller's table |
| DataAnalysis.CO2DataAnalyzer.PreprocessData | co2_microservice/utils/data_analysis.py:19-27 | the two column coercions, ANO then VALOR_F: the new table is `Preprocess` of the old one, or the error it raises is returned; a failing ANO leaves the table untouched and a failing VALOR_F leaves it with ANO already coerced |
| DataAnalysis.NewAnalyzer | co2_microservice/utils/data_analysis.py:9-27 | a fresh analyzer over the coerced copy, or the coercion error; the caller's table is a value and cannot change |
| Preprocessing.CoerceCell | co2_microservice/utils/data_analysis.py:23 | a number passes unchanged, a missing cell stays missing, text is rewritten and parsed strictly, and an unparseable text is a ValueError |
| Preprocessing.MissingParses | co2_microservice/utils/data_analysis.py:23 | the text of a missing cell ("nan") survives either rewrite and parses back to missing |
| Preprocessing.CoerceColumn | co2_microservice/utils/data_analysis.py:23 | each row's cell in the column becomes `CoerceCell` of its old cell (the rewrite, then the strict parse), and no other cell changes; the column fails exactly when some cell fails |
| Preprocessing.Preprocess | co2_microservice/utils/data_analysis.py:22-27 | columns and row count are kept; only ANO and VALOR_F cells change. Where the column is present, each of its cells becomes the parse of the old cell's text, with commas turned into points for ANO and removed for VALOR_F. That result is numeric or missing |
| Preprocessing.PreprocessFails | co2_microservice/utils/data_analysis.py:22-27 | preprocessing fails exactly when some ANO or VALOR_F cell is text that does not parse after its rewrite |
| Preprocessing.ThousandsSeparatorRemoved | co2_microservice/utils/data_analysis.py:27 | the VALOR_F text "1,000" becomes 1000 |
| Preprocessing.YearDecimalComma | co2_microservice/utils/data_analysis.py:23 | the ANO text "2020,0" becomes 2020 |
| Text.ParseFloatDigits | co2_microservice/utils/data_analysis.py:23 | `float` of a digit string is the integer those digits spell |
| Text.ParseFloatDecimal | co2_microservice/utils/data_analysis.py:23 | `float("<w>.<f>")` for digit strings w and f is w plus the fraction the digits f spell after the point |
| Text.ParseFloatExponent | co2_microservice/utils/data_analysis.py:23 | `float("<w>e<d>")` for digit strings w and d is w times ten to the power d |
| Preprocessing.PreprocessIdempotent | co2_microservice/utils/data_analysis.py:19-27 | preprocessing a preprocessed table changes nothing |
| DataAnalysis.KeptMeasured | co2_microservice/utils/data_analysis.py:66 | after the drop every kept row of a coerced table holds a number in VALOR_F |
| DataAnalysis.StatsBy | co2_microservice/utils/data_analysis.py:62-77 | [] when a key column or VALOR_F is absent; otherwise one record per distinct key of the kept rows, keys strictly ascending, complete, count >= 1 and min <= max |
| DataAnalysis.StatsGroup | co2_microservice/utils/data_analysis.py:68-75 | a record's count is the number of kept rows with its key; its min and max are values of those rows that bound all the others |
| DataAnalysis.StatsCountsAddUp | co2_microservice/utils/data_analysis.py:66-75 | the counts add up to the number of rows with key and VALOR_F present |
| DataAnalysis.StatsCoverKeptRows | co2_microservice/utils/data_analysis.py:66-75 | every row with all key cells and a VALOR_F value is summarised under its own key |
| DataAnalysis.StatsEmpty | co2_microservice/utils/data_analysis.py:62-66 | the answer is [] exactly when a column is absent or no row has all its values |
| DataAnalysis.StatsByRegion | co2_microservice/utils/data_analysis.py:55-77 | one record per region, regions strictly ascending; [] without REGION or VALOR_F |
| DataAnalysis.StatsByCategory | co2_microservice/utils/data_analysis.py:79-100 | one record per category, categories strictly ascending; [] without CATEGORIA or VALOR_F |
| DataAnalysis.StatsByRegionCategory | co2_microservice/utils/data_analysis.py:102-123 | [] when a column is absent; every record's key is a complete (region, category) pair |
| DataAnalysis.SeriesRows | co2_microservice/utils/data_analysis.py:138-141 | the counted rows have a year and a value, and are of the region exactly when a non-empty region is given and REGION exists |
| DataAnalysis.TimeSeriesByRegion | co2_microservice/utils/data_analysis.py:125-149 | [] without ANO or VALOR_F; otherwise one record per distinct year, years strictly ascending, each counting exactly the counted rows of that year |
| DataAnalysis.TimeSeriesCountsAddUp | co2_microservice/utils/data_analysis.py:138-147 | the yearly counts add up to the number of counted rows |
| DataAnalysis.EmitterTable | co2_microservice/utils/data_analysis.py:165-171 | one record per distinct value of the column, ascending; its total is the sum and its count the number of that group's VALOR_F values |
| DataAnalysis.TopEmitters | co2_microservice/utils/data_analysis.py:151-175 | [] when a column is absent; otherwise a sub-multiset of the emitter table, totals non-increasing, at most n records for n >= 0 (`head(n)`) |
| DataAnalysis.TopEmittersLargest | co2_microservice/utils/data_analysis.py:173 | every record left out of the top n has a total no larger than any record kept |
| DataAnalysis.AvailableValues | co2_microservice/utils/data_analysis.py:177-187 | [] when the column is absent; a TypeError exactly when the column holds both numbers and text (which `sorted` cannot compare); otherwise strictly ascending, no missing value, and exactly the set of present values of the column |
| Distinct.MixedValues | co2_microservice/utils/data_analysis.py:180 | a column mixes numbers and text exactly when its distinct values include both a number and a text value |
| PredictionModel.PreprocessData | co2_microservice/models/prediction_model.py:30-54 | exactly `Preprocess` followed by dropping CONTAMINANTE: the input columns in order without CONTAMINANTE, and each ANO and VALOR_F cell the comma-rewritten parse of the input cell; every other cell is kept |
| PredictionModel.Select | co2_microservice/models/prediction_model.py:81-97 | the kept rows are exactly those with REGION, CATEGORIA and the target present, in order; the numeric features are those of ANO, S, SB1 the table has, in that order |
| PredictionModel.TrainStep | co2_microservice/models/prediction_model.py:78-135 | a failed row selection changes nothing; a failure keeps the old metrics; a model that could predict still can; the model is the old one or a forest of the requested size; on success the model is fitted, the feature columns are stored, the metrics are stored and count the feature columns |
| PredictionModel.FeatureLayout | co2_microservice/models/prediction_model.py:87-108 | the feature columns are the numeric features, then the REGION indicators, then the CATEGORIA indicators, each block in ascending category order |
| PredictionModel.FeatureCategories | co2_microservice/models/prediction_model.py:87-93 | the indicator columns are exactly the (column, value) pairs seen in the training rows |
| PredictionModel.FeatureColumnsDistinct | co2_microservice/models/prediction_model.py:108 | no feature column occurs twice |
| PredictionModel.TrainedFeatureColumns | co2_microservice/models/prediction_model.py:84-108 | a successful training stores the encoder fitted on the kept rows and the duplicate-free feature columns laid out from it |
| PredictionModel.TrainingRowOneHot | co2_microservice/models/prediction_model.py:87-88 | every training row's REGION block and CATEGORIA block hold exactly one 1, at the indicator of the row's own value |
| PredictionModel.AlignedInput | co2_microservice/models/prediction_model.py:154-187 | a ValueError when model or encoder is missing; succeeds exactly when the model is trained with a REGION/CATEGORIA encoder and feature columns and the input has REGION and CATEGORIA, so failure never depends on category values; the row has one entry per feature column |
| PredictionModel.AlignedInputValues | co2_microservice/models/prediction_model.py:164-187 | each aligned entry is the input's numeric value, the 1/0 indicator of a one-hot column, or 0 for a feature the input lacks |
| PredictionModel.PredictUnseenZero | co2_microservice/models/prediction_model.py:87 | a category the encoder never saw gives 0 in every indicator of its column, without an error |
| PredictionModel.TrainedPredictReproduces | co2_microservice/models/prediction_model.py:164-187 | after training, an input that agrees with a training row on the features aligns to exactly that row of the training matrix, one-hot block included |
| PredictionModel.PredictSpec | co2_microservice/models/prediction_model.py:137-192 | a ValueError when model or encoder is missing; a prediction only for an input that aligns and a fitted regressor |
| PredictionModel.CO2PredictionModel.constructor | co2_microservice/models/prediction_model.py:15-28 | an empty state, or every field taken from the saved bundle when there is one |
| PredictionModel.CO2PredictionModel.Train | co2_microservice/models/prediction_model.py:56-135 | the new fields and the result are those of `TrainStep` on the old fields |
| PredictionModel.CO2PredictionModel.Predict | co2_microservice/models/prediction_model.py:137-192 | the result is `PredictSpec` of the current fields; nothing changes |
| Frame.MapAll | co2_microservice/models/prediction_model.py:204 | the list comprehension over a raising function: succeeds exactly when every element succeeds, then one result per element in order; otherwise the error of the first element that fails |
| PredictionModel.CO2PredictionModel.PredictBatch | co2_microservice/models/prediction_model.py:194-204 | succeeds exactly when every input predicts; then one prediction per input, in input order; otherwise the error of the first input that fails to predict |
| PredictionModel.CO2PredictionModel.GetFeatureImportance | co2_microservice/models/prediction_model.py:241-263 | raises when untrained; otherwise at most top_n entries drawn from the (feature, importance) pairs, importance non-increasing, names among the feature columns |
| PredictionModel.CO2PredictionModel.GetModelInfo | co2_microservice/models/prediction_model.py:265-282 | not trained exactly when there is no model; otherwise the feature list and its length |
| PredictionModel.CO2PredictionModel.Save | co2_microservice/models/prediction_model.py:206-224 | an error exactly when there is no model; otherwise the bundle of the four fields |
| PredictionModel.CO2PredictionModel.Load | co2_microservice/models/prediction_model.py:226-239 | every field taken from the bundle, so saving again gives back the same bundle |
| Encoding.Fit | co2_microservice/models/prediction_model.py:87-88 | an error exactly when there are no rows (a ValueError) or some requested column mixes numbers and text (a TypeError); otherwise a fitted encoder with one block per requested column, in order |
| Encoding.IndicatorsDistinct | co2_microservice/models/prediction_model.py:91 | distinct columns with duplicate-free categories give duplicate-free indicator names |
| Encoding.ExactlyOneHot | co2_microservice/models/prediction_model.py:88 | every row the encoder was fitted on has exactly one 1 in each column's block, at its own value |
| Encoding.UnseenAllZero | co2_microservice/models/prediction_model.py:164 | a value the encoder did not learn encodes as 0 in every indicator of its column, without an error |
| Encoding.IndicatorsOrder | co2_microservice/models/prediction_model.py:91 | indicators follow block order and, within a block, ascending category order |
| Alignment.AlignSample | co2_microservice/models/prediction_model.py:181-187 | the loop that sets each missing feature column to 0 and then reorders yields `Aligned`: exactly the feature columns in order, a missing one as 0 |
| Alignment.FillMissing | co2_microservice/models/prediction_model.py:181-184 | after the loop every feature column is present; a column the sample had keeps its value, every added one is 0 |
| Learning.Ranked | co2_microservice/models/prediction_model.py:254-263 | at most top_n entries, drawn from the zipped pairs, importance non-increasing, every name a feature |
| Learning.RankedLargest | co2_microservice/models/prediction_model.py:261-263 | for a non-negative top_n the entries kept are the top_n most important ones |
| LandUseModel.MissingKey | co2_microservice/models/land_use_model.py:43-47 | the first join key missing from the CO2 table or, failing that, from the land-use table, checked key by key |
| LandUseModel.MergeDatasets | co2_microservice/models/land_use_model.py:27-62 | a ValueError exactly when a join key is missing from either table; otherwise their inner join with suffixes _co2 and _land |
| Join.InnerJoin | co2_microservice/models/land_use_model.py:50-56 | the merged columns, and exactly as many rows as there are matching (left, right) pairs |
| Join.JoinMembership | co2_microservice/models/land_use_model.py:50-56 | a row is in the join exactly when it combines a left row and a right row with equal keys |
| Join.JoinRowsAppend | co2_microservice/models/land_use_model.py:50-56 | left-major order: joining the left rows `a + b` gives the join of `a` followed by the join of `b` |
| Join.JoinOne | co2_microservice/models/land_use_model.py:50-56 | a single left row gives one merged row per matching right row, in right-row order |
| Join.MatchingMultiplicity | co2_microservice/models/land_use_model.py:50-56 | a left row is matched with each right row of equal key as many times as that right row occurs, and with no other right row |
| Join.CombineLeft | co2_microservice/models/land_use_model.py:50-56 | a merged row holds the left row's cell under every left column that keeps its name (a key, or a name the right side lacks) |
| LandUseModel.KeywordColumns | co2_microservice/models/land_use_model.py:86-90 | the columns whose lower-cased name contains uso, suelo, land, use, hectarea or area, in their order, and exactly those |
| LandUseModel.KeptTargets | co2_microservice/models/land_use_model.py:104-108 | every kept row has all categorical cells and a target |
| LandUseModel.FeatureValue | co2_microservice/models/land_use_model.py:115-120 | a plain feature's missing cell reads as 0; an indicator reads 1 exactly when the row holds its category |
| LandUseModel.PrepareStep | co2_microservice/models/land_use_model.py:83-144 | a KeyError without the CO2 column; an existing encoder is kept, and model, scaler and metrics never change; on success X has one row per target, each with one entry per stored feature column, and neither X nor y holds a missing cell |
| LandUseModel.PrepareLayout | co2_microservice/models/land_use_model.py:113-142 | the stored feature columns are the numeric columns, then the land-use columns, then the one-hot columns of an encoder fitted on exactly the categorical columns |
| LandUseModel.PrepareFitsOnKeptRows | co2_microservice/models/land_use_model.py:104-127 | a newly created encoder learns, per categorical column, exactly the values of the kept rows |
| LandUseModel.TrainStep | co2_microservice/models/land_use_model.py:146-232 | a failed preparation is passed on with its state; a failure keeps the old metrics; an unknown model type fails and keeps the old model; the model is the old one or of the requested kind; on success model and scaler are fitted, feature columns set and the metrics stored |
| LandUseModel.AlignedInput | co2_microservice/models/land_use_model.py:245-284 | a ValueError when untrained; succeeds exactly when trained with feature columns, an encoder matching the categorical keys the input has (when it encodes) and something to concatenate; the row has one entry per feature column |
| LandUseModel.AlignedInputValues | co2_microservice/models/land_use_model.py:255-284 | each entry is the input's numeric or land-use value (missing as 0), an indicator 1 exactly when the input holds its category, or 0 for any other feature |
| LandUseModel.PredictUnseenZero | co2_microservice/models/land_use_model.py:268-269 | an unseen category value sets none of its column's indicators |
| LandUseModel.PredictSpec | co2_microservice/models/land_use_model.py:234-292 | a ValueError when untrained; an AttributeError when the input aligns but the scaler is None; a prediction only for an input that aligns, with a fitted scaler and a fitted regressor |
| LandUseModel.Collect | co2_microservice/models/land_use_model.py:337-342 | a requested column enters once, at its first request, when it is a table column with a defined coefficient |
| LandUseModel.Rank | co2_microservice/models/land_use_model.py:344-360 | all correlations by absolute value, largest first; an entry is in the positive list exactly when it is among the first five of that ranking and v > 0, and in the negative list exactly when it is among the five lowest and v < 0; both lists are drawn from the correlations without extra copies and stay in ranking order |
| LandUseModel.AnalyzeLandUseImpact | co2_microservice/models/land_use_model.py:320-361 | an error exactly when the CO2 column is absent; otherwise the ranked features are exactly the requested table columns whose coefficient on the rows with a CO2 value is defined, none repeated |
| LandUseModel.FeaturesPermuted | co2_microservice/models/land_use_model.py:345-349 | the ranking lists the same features as the correlations dict, none repeated |
| LandUseModel.TopPositiveFew | co2_microservice/models/land_use_model.py:353-356 | a correlation in the positive list is positive and has fewer than five correlations of strictly larger absolute value |
| LandUseModel.TopNegativeFew | co2_microservice/models/land_use_model.py:357-360 | a correlation in the negative list is negative and has fewer than five correlations strictly lower |
| LandUseModel.TopPositiveStrongest | co2_microservice/models/land_use_model.py:353-356 | a positive correlation is left out of the positive list only when five others are at least as strong |
| LandUseModel.TopNegativeLowest | co2_microservice/models/land_use_model.py:357-360 | a negative correlation is left out of the negative list only when five others are at least as low |
| LandUseModel.LandUseCO2Model.constructor | co2_microservice/models/land_use_model.py:18-25 | a model with nothing fitted |
| LandUseModel.LandUseCO2Model.PrepareFeatures | co2_microservice/models/land_use_model.py:64-144 | the new fields and the result are those of `PrepareStep` |
| LandUseModel.LandUseCO2Model.Train | co2_microservice/models/land_use_model.py:146-232 | the new fields and the result are those of `TrainStep` |
| LandUseModel.LandUseCO2Model.Predict | co2_microservice/models/land_use_model.py:234-292 | the result is `PredictSpec` of the current fields, with the missing-column loop of lines 280-284 |
| LandUseModel.LandUseCO2Model.GetFeatureImportance | co2_microservice/models/land_use_model.py:294-318 | raises when untrained; [] for a model without importances; otherwise at most top_n entries, importance non-increasing |
| LandUseModel.LandUseCO2Model.Save | co2_microservice/models/land_use_model.py:363-377 | an error exactly when there is no model; otherwise the bundle of the five fields |
| LandUseModel.LandUseCO2Model.Load | co2_microservice/models/land_use_model.py:379-388 | every field taken from the bundle, so saving again gives back the same bundle |
| AgricultureEnergy.LoadElectricity | co2_microservice/scripts/analyze_agriculture_energy.py:21-40 | a KeyError without Area or a kept column; otherwise one row per Colombia row, in order, holding its Year as ANO and its Value as CONSUMO_ELECTRICO |
| Crops.YearTestsNested | co2_microservice/scripts/analyze_agriculture_energy.py:47-55 | the four-digit test implies the digit test, which implies the `int` test |
| Crops.ZeroPaddedYear | co2_microservice/scripts/analyze_crops.py:28 | for every four-digit year name `d`, the zero-padded name "0" + `d` passes the digit test of analyze_crops_simple.py but not the four-digit test |
| Crops.SignedYear | co2_microservice/scripts/analyze_agriculture_energy.py:49-53 | for every digit-string year `d`, the signed name "+" + `d` (such as "+1990") passes `int` but not the digit test |
| Crops.YearColumns | co2_microservice/scripts/analyze_agriculture_energy.py:48-55 | the loop collects exactly the columns passing the test, in column order |
| AgricultureEnergy.CropColumn | co2_microservice/scripts/analyze_agriculture_energy.py:58-62 | the first of TIPO, Tipo, Cultivo, CULTIVO the table has; none exactly when it has none of them |
| AgricultureEnergy.LoadCropData | co2_microservice/scripts/analyze_agriculture_energy.py:42-99 | an empty table without a crop column; otherwise the columns are CULTIVO, REGION exactly when the input had Departamento, ANO, area and TIPO_CULTIVO; the rows are the kept melt (one row per (year column, input row) pair, year-major, dropping the pairs whose year or area is not a number) each cleaned in order; every output row comes from one input row and one year column with numeric ANO and area, and every pair whose year and area are numbers gives a row |
| AgricultureEnergy.CleanedSpec | co2_microservice/scripts/analyze_agriculture_energy.py:68-95 | the melted, coerced, filtered and renamed rows are exactly the sound and complete image of the (row, year column) pairs whose year and area are numbers |
| AgricultureEnergy.CleanSound | co2_microservice/scripts/analyze_agriculture_energy.py:71-94 | each cleaned row has numeric ANO and area, its crop under CULTIVO, its normalised Departamento under REGION and the crop type |
| AgricultureEnergy.CleanComplete | co2_microservice/scripts/analyze_agriculture_energy.py:71-81 | every (input row, year column) pair whose year and area are numbers gives a cleaned row |
| AgricultureEnergy.RenamedRegion | co2_microservice/scripts/analyze_agriculture_energy.py:84-91 | after the renames and the crop-type tag the columns are CULTIVO, REGION exactly when the input had Departamento, ANO, area and TIPO_CULTIVO |
| AgricultureEnergy.MergeWithCo2 | co2_microservice/scripts/analyze_agriculture_energy.py:101-130 | keys are ANO, plus REGION when the crops have it; a KeyError exactly when a grouping or summed column is missing; otherwise columns are the crop keys, hectares and VALOR_F |
| AgricultureEnergy.MergeKeysInBoth | co2_microservice/scripts/analyze_agriculture_energy.py:109-127 | every merged row's key is that of some crop row and some CO2 row, and its VALOR_F is the CO2 total over exactly the CO2 rows with that key |
| AgricultureEnergy.MergedHectares | co2_microservice/scripts/analyze_agriculture_energy.py:111-127 | every merged row's (year, region, crop, crop type) is that of some crop row, and its hectares are the total over exactly the crop rows with that key |
| AgricultureEnergy.MergeComplete | co2_microservice/scripts/analyze_agriculture_energy.py:111-127 | every crop row with a complete key whose year (and region) some CO2 row shares reaches the merge with its key |
| AgricultureEnergy.TopPollutingCrops | co2_microservice/scripts/analyze_agriculture_energy.py:137-146 | the per-crop totals; the top list has min(n, totals) rows (none for n <= 0), is a sub-multiset of the totals, non-increasing in VALOR_F, and every total left out is no larger than any kept |
| AgricultureEnergy.TopTotalsAreSums | co2_microservice/scripts/analyze_agriculture_energy.py:137-146 | each ranked VALOR_F is the sum over exactly the merged rows of that crop and crop type |
| Crops.MeltMembership | co2_microservice/scripts/analyze_crops_simple.py:34-39 | every melted row comes from one input row and one year column, and every such pair gives one |
| Crops.MeltLength | co2_microservice/scripts/analyze_crops_simple.py:34-39 | one melted row per (year column, input row) pair |
| Crops.MeltTable | co2_microservice/scripts/analyze_crops_simple.py:34-39 | a KeyError for a missing id column; the columns are the ids, ANO and the value column |
| Crops.StrictNumeric | co2_microservice/scripts/analyze_crops_simple.py:41 | the first text cell that does not parse raises |
| Crops.YearsParse | co2_microservice/scripts/analyze_crops_simple.py:30-41 | the melted year names are all digits, so the strict conversion of ANO succeeds with each year's value |
| Crops.ToNumeric | co2_microservice/scripts/analyze_crops_simple.py:42 | text that does not parse becomes missing; numbers and missing cells are kept |
| Crops.NormalizeAny | co2_microservice/scripts/analyze_crops_simple.py:17 | every cell becomes text, upper-cased and stripped |
| Crops.NormalizeAnyIdempotent | co2_microservice/scripts/analyze_crops_simple.py:17 | normalising twice gives the same cell as normalising once |
| Crops.Rename | co2_microservice/scripts/analyze_crops_simple.py:45 | the column and every row's cell move from the old name to the new one |
| Crops.Concat | co2_microservice/scripts/analyze_crops_simple.py:77 | the rows of the first table then of the second; the columns of both |
| Crops.GroupSums | co2_microservice/scripts/analyze_crops_simple.py:85 | a KeyError naming a missing grouping or summed column; otherwise the key columns then the summed columns, one row per group in ascending key order |
| Crops.GroupSumsRow | co2_microservice/scripts/analyze_crops_simple.py:85 | each output row holds a complete key taken by some input row, and under each summed column the sum over exactly the rows with that key |
| Crops.GroupSumsCover | co2_microservice/scripts/analyze_crops_simple.py:85 | every input row with a complete key is summed into the output row of its key |
| Crops.Largest | co2_microservice/scripts/analyze_crops.py:152 | the min(n, rows) rows with the largest column value, largest first, every row left out no larger than any kept |
| Crops.LargestStable | co2_microservice/scripts/analyze_crops.py:152 | `keep='first'`: the kept rows of any one value are, in order, the first rows of the input with that value |
| Sorting.FewAbove | co2_microservice/models/land_use_model.py:353-356 | an element among the first n of the descending sort has fewer than n elements with a strictly larger key |
| Sorting.SortDescStable | co2_microservice/scripts/analyze_agriculture_energy.py:146 | the descending sort is stable: each group of equal keys keeps its input order |
| CropsSimple.CleanCo2 | co2_microservice/scripts/analyze_crops_simple.py:17-21 | a KeyError without REGION; otherwise the same columns and the normalised rows that pass both filters, in order |
| CropsSimple.Co2Sound | co2_microservice/scripts/analyze_crops_simple.py:17-21 | every kept row is an input row with its region normalised, neither NAN nor NONE nor containing COLOMBIA |
| CropsSimple.Co2Complete | co2_microservice/scripts/analyze_crops_simple.py:20-21 | an input row is kept exactly when its normalised region passes both filters |
| CropsSimple.MissingRegionDropped | co2_microservice/scripts/analyze_crops_simple.py:17-20 | a missing region renders as NAN, so its row is dropped |
| CropsSimple.Co2Idempotent | co2_microservice/scripts/analyze_crops_simple.py:17-21 | cleaning the cleaned rows again changes nothing |
| CropsSimple.DigitYears | co2_microservice/scripts/analyze_crops_simple.py:30 | the selected year columns are digit strings |
| CropsSimple.CropSound | co2_microservice/scripts/analyze_crops_simple.py:34-46 | every reshaped row comes from one input row and one year column: year the number its digits spell, numeric hectares, the crop cell, the normalised region, the tag |
| CropsSimple.CropComplete | co2_microservice/scripts/analyze_crops_simple.py:41-43 | every (input row, year column) pair whose cell converts to a number gives a reshaped row |
| CropsSimple.LoadCropTable | co2_microservice/scripts/analyze_crops_simple.py:30-46 | a KeyError when either id column is missing; otherwise the reshaped table with the crop layout |
| CropsSimple.PrepareInputs | co2_microservice/scripts/analyze_crops_simple.py:14-77 | an error exactly when the inputs are not valid: a KeyError for REGION or an id column, the ValueError of `min` on a table without year columns; otherwise the cleaned CO2 table and the stacked crops |
| CropsSimple.SpacedColumnAbsent | co2_microservice/scripts/analyze_crops_simple.py:82 | grouping the stacked crops and selecting ' HECTAREAS' raises a KeyError naming it |
| CropsSimple.AnalyzeAsWritten | co2_microservice/scripts/analyze_crops_simple.py:14-131 | the script as written always fails; on valid inputs the failure is the KeyError of line 82 |
| CropsSimple.Merged | co2_microservice/scripts/analyze_crops_simple.py:82-89 | a KeyError exactly when a grouping or summed column is missing; otherwise the columns ANO, REGION, CULTIVO, TIPO_CULTIVO, HECTAREAS, VALOR_F |
| CropsSimple.MergedRowSource | co2_microservice/scripts/analyze_crops_simple.py:85-89 | every merged row's year and region are those of some crop row and some CO2 row, and its VALOR_F is the CO2 total of that year and region |
| CropsSimple.MergedHectares | co2_microservice/scripts/analyze_crops_simple.py:82-89 | every merged row's (year, region, crop, crop type) is that of some crop row, and its HECTAREAS is the total over exactly the crop rows with that key |
| CropsSimple.MergedComplete | co2_microservice/scripts/analyze_crops_simple.py:82-89 | every crop row with a complete key whose year and region some CO2 row shares reaches the merge with its key |
| CropsSimple.Analyze | co2_microservice/scripts/analyze_crops_simple.py:14-103 | the error cases as above; otherwise the merged table and, exactly when it has rows, the per-crop totals as a permutation ordered by VALOR_F non-increasing |
| CropLong.MeltAndClean | co2_microservice/scripts/analyze_crops.py:46-56 | a KeyError naming a missing id column exactly when one is missing; otherwise the columns ids, ANO, HECTAREAS, TIPO_CULTIVO and the long rows; the strict ANO conversion never fails on digit year names |
| CropLong.LongSound | co2_microservice/scripts/analyze_crops.py:46-56 | every long row comes from one input row and one year column, with ANO and hectares converted, hectares a number, ids copied and the tag set |
| CropLong.LongComplete | co2_microservice/scripts/analyze_crops.py:53-55 | every pair whose cell converts to a number gives a long row |
| CropLong.LongLength | co2_microservice/scripts/analyze_crops.py:46-55 | exactly one long row per (input row, year column) pair whose hectare cell converts to a number, hence at most |years|·|rows| rows |
| CropLong.CropTotal | co2_microservice/scripts/analyze_crops.py:143-146 | a per-crop total's crop occurs among the merged rows, and its VALOR_F and HECTAREAS are that crop's sums |
| AnalyzeCrops.IdColumns | co2_microservice/scripts/analyze_crops.py:42-44 | Tipo when present, else TIPO when present, and Departamento when present; nothing else |
| AnalyzeCrops.ReshapeCrops | co2_microservice/scripts/analyze_crops.py:24-68 | the year loop, the melt and its conversions and the rename give `Reshaped`: an empty table without four-digit year columns, a KeyError when no column became CULTIVO |
| AnalyzeCrops.ReshapedSound | co2_microservice/scripts/analyze_crops.py:24-62 | every reshaped row comes from one input row and one four-digit year column in (1900, 2100), its ANO the year's value, its hectares a number, its crop the renamed cell |
| AnalyzeCrops.ReshapedComplete | co2_microservice/scripts/analyze_crops.py:53-55 | every (input row, year column) pair whose cell converts to a number gives a reshaped row |
| AnalyzeCrops.YearlyMerged | co2_microservice/scripts/analyze_crops.py:123-133 | a KeyError exactly when a column is missing; otherwise the columns ANO, CULTIVO, TIPO_CULTIVO, HECTAREAS, VALOR_F |
| AnalyzeCrops.YearRowSource | co2_microservice/scripts/analyze_crops.py:123-133 | every merged year is that of some crop row and some CO2 row, and its VALOR_F is that year's CO2 total |
| AnalyzeCrops.YearlyHectares | co2_microservice/scripts/analyze_crops.py:123-133 | every merged row's (year, crop, crop type) is that of some crop row, and its HECTAREAS is the total over exactly the crop rows with that key |
| AnalyzeCrops.YearlyComplete | co2_microservice/scripts/analyze_crops.py:123-133 | every crop row with a complete key whose year some CO2 row has reaches the merge with its key |
| AnalyzeCrops.NoCommonYear | co2_microservice/scripts/analyze_crops.py:133 | when no crop year is a CO2 year the merge has no rows |
| AnalyzeCrops.YearlyTable | co2_microservice/scripts/analyze_crops.py:17-133 | errors are KeyErrors; None when a crop table is empty (line 116); otherwise the merged yearly layout |
| AnalyzeCrops.StackAndMerge | co2_microservice/scripts/analyze_crops.py:17-133 | the steps in order give `YearlyTable` |
| AnalyzeCrops.Rank | co2_microservice/scripts/analyze_crops.py:143-152 | the per-crop totals and at most fifteen of them, min(15, totals) in number, a sub-multiset, non-increasing by VALOR_F, every total left out no larger than any kept |
| AnalyzeCrops.AnalyzeAsWritten | co2_microservice/scripts/analyze_crops.py:116-183 | an empty merge ends in the ValueError of `int(nan)`, so the no-match outcome is never reached |
| AnalyzeCrops.Analyze | co2_microservice/scripts/analyze_crops.py:116-183 | an error exactly when the yearly table fails; no crops exactly when a crop table is empty; no match exactly when the merge is empty; otherwise the ranked report |

## Left out

- Printing, Excel and CSV reads and writes, and pickle are left out. A table is given as a value. Saving and loading exchange a bundle value.
- `get_general_stats` (`utils/data_analysis.py:29-53`) is left out: it computes floating-point mean, median and std.
- The floating-point aggregates of the modelled queries are left out. Dropped are mean, median and std from the grouped statistics (`utils/data_analysis.py:68-75, 90-97, 113-120`), mean and median from the time series (`utils/data_analysis.py:138-142`), and `avg_emissions` from the emitter table (`utils/data_analysis.py:165-169`). Count, min, max and the sums are modelled.
- The regressors, `StandardScaler`, `train_test_split`, `cross_val_score` and the metrics are opaque parameters (`Library`, `Toolkit`). Their numbers and hyperparameters are not modelled.
- Floating point is left out. Cells are exact reals. `astype(float)` and `to_numeric` are modelled by one decimal parser: surrounding whitespace, an optional sign, ASCII digits with at most one point, an optional exponent, and `nan` read as missing.
- Text.ParseFloat: `inf`, `infinity`, digits separated by underscores and non-ASCII digits are not read as numbers. Python's `float` accepts them.
- Text.Upper: letters are upper-cased in ASCII and Latin-1 where one character maps to one (`ÿ` and `µ` included). `ß`, which becomes "SS", and every letter beyond U+00FF are left as they are. Text.Lower covers the same range. Crops.NormalizeText and Crops.NormalizeAny inherit this. Text.Strip removes Python's full set of whitespace characters.
- Crops.GroupSums: a text cell in a summed column is skipped, like a missing one. pandas concatenates an all-text column, or raises TypeError when text and numbers are mixed. This matters where a VALOR_F column is summed as read (`analyze_crops_simple.py:85`, `analyze_crops.py:123`).
- NaN and None are not distinguished, and a missing value in a text column is the same missing cell.
- `CO2_POR_HA` and `CO2_POR_HECTAREA` are left out, together with the rankings by them (`analyze_crops.py:148, 157-158`, `analyze_crops_simple.py:102, 109-110`, `analyze_agriculture_energy.py:143, 151`). They are floating-point ratios.
- `compare_crop_types` and the type comparisons (`analyze_agriculture_energy.py:157-169`, `analyze_crops.py:162-168`, `analyze_crops_simple.py:116-121`) are left out: they need mean and nunique.
- Correlation coefficients are an oracle parameter. Only the selection and ranking around them is modelled.
- `main` of `analyze_agriculture_energy.py` (lines 171-216) is not modelled as a driver. Its parts are modelled: the stack at line 192 is `Crops.Concat`, and the loaders and the merge are modelled separately.
- Column names that are not text (Excel's integer headers) are modelled as their text form. `str(col)` and `int(col)` are applied to that text.
- `isdigit` is modelled for the ASCII digits only.
- pandas dtype errors are not modelled: `.str` on a non-text column, or a merge on keys of different dtypes.
- `CropsSimple.Analyze`: `sort_values` at line 103 is pandas' unstable quicksort. The model sorts stably, so rows with equal totals may come out in a different order.
- `DataAnalysis.TopEmitters`: the same applies to `sort_values` at line 173. The contract does not fix the order of ties.
- `Join.InnerJoin` lists rows in left-major order (`Join.JoinRowsAppend`, `Join.JoinOne`). pandas gives the same rows, possibly in another order for unsorted keys.
- One-hot feature names are structured values (column, category), not the joined string `REGION_<value>`. Name collisions between a numeric feature and an indicator are therefore not modelled.
- `LandUseModel.AnalyzeLandUseImpact`: the `is_numeric_dtype` test and NaN results are folded into the coefficient oracle returning None.

## Findings

| source | as written | input that shows it | evidently intended | confidence | as-written member | corrected member |
|---|---|---|---|---|---|---|
| co2_microservice/scripts/analyze_crops_simple.py:82 | the hectare sums select the column `' HECTAREAS'`, with a leading space, which no table has, so every run stops with a KeyError | any inputs that reach line 82: a CO2 table with REGION and crop tables with a digit year column and their TIPO/Tipo and Departamento columns | sum the `HECTAREAS` column that lines 38 and 62 create | high, not executed | CropsSimple.AnalyzeAsWritten | CropsSimple.Analyze |
| co2_microservice/scripts/analyze_crops.py:135 | `int(merged['ANO'].min())` runs before the `len(merged) > 0` test, and on an empty merge the minimum is NaN, so the ValueError makes the message at lines 180-181 unreachable | transitory and permanent tables with a year column 1990 only, and CO2 rows for year 2000 only (no common year, so `AnalyzeCrops.NoCommonYear` gives an empty merge) | print the year range only when the merge has rows, and otherwise report that nothing matched | high, not executed | AnalyzeCrops.AnalyzeAsWritten | AnalyzeCrops.Analyze |
