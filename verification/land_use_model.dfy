/**
 * The land-use model: CO2 emissions crossed with land-use data.  The two
 * tables are inner-joined on year and region; the features are the numeric
 * columns, the land-use columns (missing values as 0) and the one-hot encoded
 * categories; the feature matrix is standardised before a random forest,
 * gradient boosting or linear regressor is fitted.  Besides training and
 * prediction it ranks the land-use columns by their correlation with the
 * emissions.
 */
module LandUseModel {
  import opened Frame
  import opened Text
  import opened Sorting
  import opened Encoding
  import opened Learning
  import opened Alignment
  import opened Join
  import opened Grouping
  import PM = PredictionModel

  const Untrained := "Modelo no entrenado"
  const NothingToConcatenate := "No objects to concatenate"

  /** What calling `transform` on a scaler that is None raises. */
  const NoTransform := "'NoneType' object has no attribute 'transform'"

  /** The substrings that mark a column as land-use data. */
  const Keywords: seq<string> := ["uso", "suelo", "land", "use", "hectarea", "area"]

  /** The input keys that are never land-use features. */
  const Reserved: seq<string> := ["ANO", "S", "SB1", "REGION", "CATEGORIA"]

  // ---- merging ----

  /** The first join key missing from the CO2 table or, failing that, from the land-use table, key by key. */
  function MissingKey(co2: Table, land: Table, on: seq<string>): (r: Option<Error>)
    ensures r.None? <==> forall c :: c in on ==> c in co2.columns && c in land.columns
    ensures r.Some? ==> r.value.ValueError?
  {
    if on == [] then None
    else if on[0] !in co2.columns then Some(ValueError("Columna '" + on[0] + "' no encontrada en DataFrame de CO2"))
    else if on[0] !in land.columns then Some(ValueError("Columna '" + on[0] + "' no encontrada en DataFrame de uso de suelo"))
    else MissingKey(co2, land, on[1..])
  }

  /**
   * `merge_datasets`: a ValueError when a join key is not a column of both
   * tables; otherwise their inner join with the suffixes `_co2` and `_land`.
   */
  function MergeDatasets(co2: Table, land: Table, on: seq<string>): (r: Result<Table>)
    ensures r.Err? <==> exists c :: c in on && (c !in co2.columns || c !in land.columns)
    ensures r.Err? ==> r.error.ValueError?
    ensures r.Ok? ==> r.value.columns == MergedColumns(co2.columns, land.columns, on, Suffixes("_co2", "_land"))
    ensures r.Ok? ==> |r.value.rows| == MatchCount(co2.rows, land.rows, on)
    ensures r.Ok? ==> forall x :: x in r.value.rows <==>
      exists a, b :: a in co2.rows && b in land.rows && KeyOf(a, on) == KeyOf(b, on)
        && x == Combine(a, b, co2.columns, land.columns, on, Suffixes("_co2", "_land"))
  {
    match MissingKey(co2, land, on)
    case Some(e) => Err(e)
    case None =>
      var t := InnerJoin(co2, land, on, Suffixes("_co2", "_land"));
      forall x ensures x in t.rows <==>
        exists a, b :: a in co2.rows && b in land.rows && KeyOf(a, on) == KeyOf(b, on)
          && x == Combine(a, b, co2.columns, land.columns, on, Suffixes("_co2", "_land"))
      {
        JoinMembership(co2.rows, land.rows, co2.columns, land.columns, on, Suffixes("_co2", "_land"), x);
      }
      Ok(t)
  }

  // ---- features ----

  /** A column whose lower-cased name contains one of the land-use keywords. */
  predicate IsLandUse(c: string)
  {
    exists k :: 0 <= k < |Keywords| && Contains(Lower(c), Keywords[k])
  }

  /** The default land-use columns: those of `cols` that look like land-use data, in their order. */
  function KeywordColumns(cols: seq<string>): (r: seq<string>)
    ensures forall c :: c in r <==> c in cols && IsLandUse(c)
    ensures |r| <= |cols|
  {
    if cols == [] then []
    else (if IsLandUse(cols[0]) then [cols[0]] else []) + KeywordColumns(cols[1..])
  }

  /** `fillna(0)` on one cell. */
  function ZeroFilled(c: Cell): (r: Cell)
    ensures r != Missing
    ensures c != Missing ==> r == c
  {
    if c.Missing? then Num(0.0) else c
  }

  /** A feature's value in one row: plain columns with missing values as 0, indicators as 1/0. */
  function FeatureValue(x: Row, f: Feature): (v: Cell)
    ensures v != Missing
    ensures f.Col? ==> v == ZeroFilled(Get(x, f.name))
    ensures f.Indicator? ==> v == Value(x, f)
  {
    if f.Col? then ZeroFilled(Get(x, f.name)) else Value(x, f)
  }

  function FeatureMatrix(rows: seq<Row>, fc: seq<Feature>): (m: Matrix)
    ensures |m| == |rows|
    ensures forall i :: 0 <= i < |rows| ==> |m[i]| == |fc|
    ensures forall i, j :: 0 <= i < |rows| && 0 <= j < |fc| ==> m[i][j] == FeatureValue(rows[i], fc[j])
  {
    seq(|rows|, i requires 0 <= i < |rows| => seq(|fc|, j requires 0 <= j < |fc| => FeatureValue(rows[i], fc[j])))
  }

  // ---- estimators ----

  datatype Kind = RandomForest | GradientBoosting | LinearModel

  /** The `model_type` names `train` accepts. */
  function ParseKind(s: string): (r: Option<Kind>)
    ensures r.Some? <==> s == "random_forest" || s == "gradient_boosting" || s == "linear"
  {
    if s == "random_forest" then Some(RandomForest)
    else if s == "gradient_boosting" then Some(GradientBoosting)
    else if s == "linear" then Some(LinearModel)
    else None
  }

  /** A regressor of the chosen kind, before or after `fit`. */
  datatype Estimator = Estimator(kind: Kind, fitted: Option<Regressor>)

  /** The learned centring and scaling of a `StandardScaler`. */
  datatype Scaler = Scaler(mean: seq<real>, scale: seq<real>)

  /** The scaler field: a `StandardScaler`, before or after `fit`. */
  datatype Standardizer = Standardizer(fitted: Option<Scaler>)

  /**
   * The scikit-learn calls, opaque: the split, the scaler's fit and
   * transform, the regressor's fit for a kind, the scoring (including the
   * optional cross-validation entries) and the prediction for a one-row matrix.
   */
  datatype Toolkit = Toolkit(
    split: (Matrix, seq<Cell>) -> Result<Split>,
    fitScaler: Matrix -> Result<Scaler>,
    scale: (Scaler, Matrix) -> Result<Matrix>,
    fit: (Kind, Matrix, seq<Cell>) -> Result<Regressor>,
    score: (Regressor, Split) -> Result<map<string, real>>,
    infer: (Regressor, Matrix) -> Result<real>)

  datatype Metrics = Metrics(scores: map<string, real>, trainSamples: nat, testSamples: nat, nFeatures: nat, modelType: string)

  /** The five fields of the model; a metrics value of None is the empty dict. */
  datatype LandState = LandState(
    model: Option<Estimator>,
    ohe: Option<Encoder>,
    scaler: Option<Standardizer>,
    featureColumns: Option<seq<Feature>>,
    metrics: Option<Metrics>)

  /** A model that can predict has its scaler and its feature columns. */
  predicate Ready(s: LandState)
  {
    s.model.Some? ==> s.scaler.Some? && s.featureColumns.Some?
  }

  /** The feature matrix X and the target vector y. */
  datatype Prepared = Prepared(x: Matrix, y: seq<Cell>)

  /** The column lists `prepare_features` works with, each cut to the columns the table has. */
  function LandColumns(df: Table, landUse: Option<seq<string>>): seq<string>
  {
    PresentIn(if landUse.Some? then landUse.value else KeywordColumns(df.columns), df)
  }

  function CategoricalColumns(df: Table, categorical: Option<seq<string>>): seq<string>
  {
    PresentIn(if categorical.Some? then categorical.value else PM.Categorical, df)
  }

  function NumericColumns(df: Table, numeric: Option<seq<string>>): seq<string>
  {
    PresentIn(if numeric.Some? then numeric.value else PM.NumericFeatures, df)
  }

  /** The rows `prepare_features` keeps: no missing categorical or CO2 cell. */
  function KeptRows(df: Table, co2: string, categorical: Option<seq<string>>): seq<Row>
  {
    DropNa(df.rows, CategoricalColumns(df, categorical) + [co2])
  }

  /** After the drop every kept row has a target. */
  lemma KeptTargets(df: Table, co2: string, categorical: Option<seq<string>>)
    ensures var rows := KeptRows(df, co2, categorical);
      forall i :: 0 <= i < |rows| ==> Get(rows[i], co2) != Missing
  {
    var rows := KeptRows(df, co2, categorical);
    var cats := CategoricalColumns(df, categorical);
    forall i | 0 <= i < |rows| ensures Get(rows[i], co2) != Missing {
      assert rows[i] in rows;
      assert (cats + [co2])[|cats|] == co2;
    }
  }

  function Finish(s: LandState, rows: seq<Row>, co2: string, fc: seq<Feature>): (LandState, Result<Prepared>)
  {
    (s.(featureColumns := Some(fc)), Ok(Prepared(FeatureMatrix(rows, fc), PM.Targets(rows, co2))))
  }

  /**
   * `prepare_features`, as the fields are assigned: the encoder is created
   * and fitted only when there is none yet (an unfitted one is stored before
   * the fit), an existing one is only applied; the feature columns are
   * stored last.  X and y hold no missing cell.
   */
  function PrepareStep(s: LandState, df: Table, co2: string, landUse: Option<seq<string>>,
                       categorical: Option<seq<string>>, numeric: Option<seq<string>>): (r: (LandState, Result<Prepared>))
    ensures co2 !in df.columns ==> r == (s, Err(KeyError(co2)))
    ensures r.0.model == s.model && r.0.scaler == s.scaler && r.0.metrics == s.metrics
    ensures s.ohe.Some? ==> r.0.ohe == s.ohe
    ensures r.1.Err? ==> r.0.featureColumns == s.featureColumns
    ensures r.1.Ok? ==> r.0.featureColumns.Some?
    ensures r.1.Ok? ==> && |r.1.value.x| == |r.1.value.y|
                        && (forall i :: 0 <= i < |r.1.value.x| ==> |r.1.value.x[i]| == |r.0.featureColumns.value|)
                        && (forall i, j :: 0 <= i < |r.1.value.x| && 0 <= j < |r.1.value.x[i]| ==> r.1.value.x[i][j] != Missing)
                        && (forall i :: 0 <= i < |r.1.value.y| ==> r.1.value.y[i] != Missing)
  {
    var land := LandColumns(df, landUse);
    var cats := CategoricalColumns(df, categorical);
    var nums := NumericColumns(df, numeric);
    if co2 !in df.columns then (s, Err(KeyError(co2)))
    else
      var rows := KeptRows(df, co2, categorical);
      KeptTargets(df, co2, categorical);
      var plain := PM.ColsOf(nums) + PM.ColsOf(land);
      if cats == [] then
        if plain == [] then (s, Err(ValueError(NothingToConcatenate)))
        else Finish(s, rows, co2, plain)
      else if s.ohe.None? then
        match Fit(rows, cats)
        case Err(e) => (s.(ohe := Some(Unfitted)), Err(e))
        case Ok(enc) => Finish(s.(ohe := Some(enc)), rows, co2, plain + Indicators(enc.blocks))
      else
        match EncodedNames(s.ohe.value, cats)
        case Err(e) => (s, Err(e))
        case Ok(names) =>
          if rows == [] then (s, Err(ValueError("Found array with 0 sample(s)")))
          else Finish(s, rows, co2, plain + names)
  }

  /**
   * The feature columns `prepare_features` stores: the numeric columns, the
   * land-use columns, then, when there are categorical columns, the one-hot
   * columns of an encoder fitted on exactly those columns.
   */
  lemma PrepareLayout(s: LandState, df: Table, co2: string, landUse: Option<seq<string>>,
                      categorical: Option<seq<string>>, numeric: Option<seq<string>>)
    requires PrepareStep(s, df, co2, landUse, categorical, numeric).1.Ok?
    ensures var r := PrepareStep(s, df, co2, landUse, categorical, numeric).0;
      var cats := CategoricalColumns(df, categorical);
      var plain := PM.ColsOf(NumericColumns(df, numeric)) + PM.ColsOf(LandColumns(df, landUse));
      && (cats == [] ==> r.featureColumns == Some(plain))
      && (cats != [] ==> && r.ohe.Some? && r.ohe.value.Fitted? && Columns(r.ohe.value.blocks) == cats
                         && r.featureColumns == Some(plain + Indicators(r.ohe.value.blocks)))
  {
  }

  /**
   * An encoder created by `prepare_features` learns, per categorical column,
   * exactly the values that column holds in the rows kept.
   */
  lemma PrepareFitsOnKeptRows(s: LandState, df: Table, co2: string, landUse: Option<seq<string>>,
                              categorical: Option<seq<string>>, numeric: Option<seq<string>>, j: nat, v: Cell)
    requires s.ohe.None?
    requires PrepareStep(s, df, co2, landUse, categorical, numeric).1.Ok?
    requires j < |CategoricalColumns(df, categorical)|
    ensures var r := PrepareStep(s, df, co2, landUse, categorical, numeric).0;
      var cats := CategoricalColumns(df, categorical);
      && r.ohe.Some? && r.ohe.value.Fitted? && |r.ohe.value.blocks| == |cats|
      && (v in r.ohe.value.blocks[j].categories <==>
            v != Missing && exists x :: x in KeptRows(df, co2, categorical) && Get(x, cats[j]) == v)
  {
    var cats := CategoricalColumns(df, categorical);
    var rows := KeptRows(df, co2, categorical);
    assert PrepareStep(s, df, co2, landUse, categorical, numeric).0.ohe == Some(Fitted(FitBlocks(rows, cats)));
  }

  /**
   * `train`, as the fields are assigned: the feature preparation, the split,
   * a new scaler (stored before its fit), the model type check (only after
   * the split and the scaling), an unfitted estimator, then the fitted one and
   * the metrics.  A failure keeps what was assigned before it.
   */
  function TrainStep(s: LandState, df: Table, co2: string, landUse: Option<seq<string>>, modelType: string, tk: Toolkit)
    : (r: (LandState, Result<Metrics>))
    ensures var p := PrepareStep(s, df, co2, landUse, None, None);
      p.1.Err? ==> r == (p.0, Err(p.1.error))
    ensures r.1.Err? ==> r.0.metrics == s.metrics
    ensures Ready(s) ==> Ready(r.0)
    ensures ParseKind(modelType).None? ==> r.1.Err? && r.0.model == s.model
    ensures r.0.model == s.model || (r.0.model.Some? && Some(r.0.model.value.kind) == ParseKind(modelType))
    ensures r.1.Ok? ==> && r.0.model.Some? && r.0.model.value.fitted.Some?
                        && r.0.scaler.Some? && r.0.scaler.value.fitted.Some?
                        && r.0.featureColumns.Some? && r.0.metrics == Some(r.1.value)
                        && r.1.value.modelType == modelType
                        && r.1.value.nFeatures == |r.0.featureColumns.value|
  {
    var (s1, prep) := PrepareStep(s, df, co2, landUse, None, None);
    match prep
    case Err(e) => (s1, Err(e))
    case Ok(p) =>
      assert Ready(s) ==> Ready(s1);
      FitPrepared(s1, p, modelType, tk)
  }

  /** `train` once the features are prepared: the split, the scaler, the model type check, the fit and the scoring. */
  function FitPrepared(s1: LandState, p: Prepared, modelType: string, tk: Toolkit): (r: (LandState, Result<Metrics>))
    requires s1.featureColumns.Some?
    ensures r.0.featureColumns == s1.featureColumns && r.0.ohe == s1.ohe
    ensures r.1.Err? ==> r.0.metrics == s1.metrics
    ensures r.0.model.Some? ==> r.0.scaler.Some? || r.0.model == s1.model
    ensures Ready(s1) ==> Ready(r.0)
    ensures ParseKind(modelType).None? ==> r.1.Err? && r.0.model == s1.model
    ensures r.0.model == s1.model || (r.0.model.Some? && Some(r.0.model.value.kind) == ParseKind(modelType))
    ensures r.1.Ok? ==> && r.0.model.Some? && r.0.model.value.fitted.Some?
                        && r.0.scaler.Some? && r.0.scaler.value.fitted.Some?
                        && r.0.metrics == Some(r.1.value)
                        && r.1.value.modelType == modelType
                        && r.1.value.nFeatures == |s1.featureColumns.value|
  {
    match tk.split(p.x, p.y)
    case Err(e) => (s1, Err(e))
    case Ok(sp) =>
      match tk.fitScaler(sp.trainX)
      case Err(e) => (s1.(scaler := Some(Standardizer(None))), Err(e))
      case Ok(sc) =>
        var s2 := s1.(scaler := Some(Standardizer(Some(sc))));
        match tk.scale(sc, sp.trainX)
        case Err(e) => (s2, Err(e))
        case Ok(trainScaled) =>
          match tk.scale(sc, sp.testX)
          case Err(e) => (s2, Err(e))
          case Ok(testScaled) =>
            match ParseKind(modelType)
            case None => (s2, Err(ValueError("Modelo '" + modelType + "' no soportado")))
            case Some(kind) =>
              var s3 := s2.(model := Some(Estimator(kind, None)));
              match tk.fit(kind, trainScaled, sp.trainY)
              case Err(e) => (s3, Err(e))
              case Ok(reg) =>
                var s4 := s3.(model := Some(Estimator(kind, Some(reg))));
                match tk.score(reg, Split(trainScaled, sp.trainY, testScaled, sp.testY))
                case Err(e) => (s4, Err(e))
                case Ok(scores) =>
                  var m := Metrics(scores, |sp.trainX|, |sp.testX|, |s1.featureColumns.value|, modelType);
                  (s4.(metrics := Some(m)), Ok(m))
  }

  // ---- prediction ----

  /** The input keys `predict` takes as land-use features: numeric values under names not otherwise used. */
  function LandKeys(input: Row): (ks: set<string>)
    ensures forall k :: k in ks <==> k in input && k !in Reserved && input[k].Num?
  {
    set k | k in input && k !in Reserved && input[k].Num?
  }

  /** The columns of the one-row input frame and their values. */
  function LandSample(input: Row, names: seq<Feature>): map<Feature, Cell>
  {
    var keys := (set n | n in PM.PresentKeys(PM.NumericFeatures, input) :: Col(n))
      + (set k | k in LandKeys(input) :: Col(k))
      + (set f | f in names);
    map f | f in keys :: FeatureValue(input, f)
  }

  /** Whether `predict` one-hot encodes the input: some categorical key is present and there is an encoder. */
  function EncodesInput(s: LandState, input: Row): bool
  {
    PM.PresentKeys(PM.Categorical, input) != [] && s.ohe.Some?
  }

  /**
   * `predict` up to the scaler: the guard on an untrained model, the
   * encoder's errors, the error of an empty frame, then the aligned feature
   * row.
   */
  function AlignedInput(s: LandState, input: Row): (r: Result<seq<Cell>>)
    ensures s.model.None? ==> r == Err(ValueError(Untrained))
    ensures r.Ok? <==>
      && s.model.Some? && s.featureColumns.Some?
      && (EncodesInput(s, input) ==>
            s.ohe.value.Fitted? && Columns(s.ohe.value.blocks) == PM.PresentKeys(PM.Categorical, input))
      && (PM.PresentKeys(PM.NumericFeatures, input) != [] || LandKeys(input) != {} || EncodesInput(s, input))
    ensures r.Ok? ==> |r.value| == |s.featureColumns.value|
  {
    if s.model.None? then Err(ValueError(Untrained))
    else
      var cats := PM.PresentKeys(PM.Categorical, input);
      var names := if EncodesInput(s, input) then EncodedNames(s.ohe.value, cats) else Ok([]);
      if names.Err? then Err(names.error)
      else if PM.PresentKeys(PM.NumericFeatures, input) == [] && LandKeys(input) == {} && !EncodesInput(s, input) then
        Err(ValueError(NothingToConcatenate))
      else if s.featureColumns.None? then Err(TypeError("feature_columns is None"))
      else Ok(Aligned(LandSample(input, names.value), s.featureColumns.value))
  }

  /** `predict`: the aligned row through the scaler, then the regressor. */
  function PredictSpec(s: LandState, input: Row, tk: Toolkit): (r: Result<real>)
    ensures s.model.None? ==> r == Err(ValueError(Untrained))
    ensures AlignedInput(s, input).Ok? && s.scaler.None? ==> r == Err(AttributeError(NoTransform))
    ensures r.Ok? ==> && AlignedInput(s, input).Ok?
                      && s.scaler.Some? && s.scaler.value.fitted.Some? && s.model.value.fitted.Some?
  {
    match AlignedInput(s, input)
    case Err(e) => Err(e)
    case Ok(row) =>
      match s.scaler
      case None => Err(AttributeError(NoTransform))
      case Some(st) =>
        match st.fitted
        case None => Err(NotFittedError)
        case Some(sc) =>
          match tk.scale(sc, [row])
          case Err(e) => Err(e)
          case Ok(scaled) =>
            match s.model.value.fitted
            case None => Err(NotFittedError)
            case Some(reg) => tk.infer(reg, scaled)
  }

  /**
   * Each entry of the aligned row: a numeric or land-use feature the input
   * supplies is taken from it (missing as 0), an encoded indicator is 1
   * exactly when the input holds its category, and every other training
   * feature is 0.
   */
  lemma AlignedInputValues(s: LandState, input: Row, i: nat)
    requires AlignedInput(s, input).Ok? && i < |s.featureColumns.value|
    ensures var f := s.featureColumns.value[i]; var v := AlignedInput(s, input).value[i];
      && (f.Col? && ((f.name in PM.NumericFeatures && f.name in input) || f.name in LandKeys(input)) ==>
            v == ZeroFilled(Get(input, f.name)))
      && (f.Col? && !((f.name in PM.NumericFeatures && f.name in input) || f.name in LandKeys(input)) ==> v == Num(0.0))
      && (f.Indicator? ==>
            (v == Num(1.0) <==> EncodesInput(s, input) && f in Indicators(s.ohe.value.blocks) && Get(input, f.column) == f.category))
  {
    var f := s.featureColumns.value[i];
    var cats := PM.PresentKeys(PM.Categorical, input);
    var names := if EncodesInput(s, input) then Indicators(s.ohe.value.blocks) else [];
    assert forall g :: g in names ==> g.Indicator? by {
      forall g | g in names ensures g.Indicator? {
        var k :| 0 <= k < |names| && names[k] == g;
      }
    }
    assert AlignedInput(s, input).value == Aligned(LandSample(input, names), s.featureColumns.value);
  }

  /** A category value the encoder never saw sets none of that column's indicators. */
  lemma PredictUnseenZero(s: LandState, input: Row, c: string, i: nat)
    requires AlignedInput(s, input).Ok? && i < |s.featureColumns.value|
    requires s.featureColumns.value[i].Indicator? && s.featureColumns.value[i].column == c
    requires s.ohe.Some? && s.ohe.value.Fitted?
    requires forall f :: f in Indicators(s.ohe.value.blocks) && f.column == c ==> f.category != Get(input, c)
    ensures AlignedInput(s, input).value[i] == Num(0.0)
  {
    AlignedInputValues(s, input, i);
  }

  // ---- feature importance ----

  /** Whether the model has `feature_importances_`: a fitted tree ensemble. */
  predicate HasImportances(e: Estimator)
  {
    e.kind != LinearModel && e.fitted.Some?
  }

  // ---- correlations ----

  /** One `(column, correlation)` entry. */
  datatype Correlation = Correlation(feature: string, value: real)

  function Magnitude(c: Correlation): real
  {
    if c.value < 0.0 then -c.value else c.value
  }

  function Negated(c: Correlation): real
  {
    -c.value
  }

  function Positive(c: Correlation): bool
  {
    c.value > 0.0
  }

  function Negative(c: Correlation): bool
  {
    c.value < 0.0
  }

  function Features(cs: seq<Correlation>): (fs: seq<string>)
    ensures |fs| == |cs|
    ensures forall i :: 0 <= i < |cs| ==> fs[i] == cs[i].feature
  {
    seq(|cs|, i requires 0 <= i < |cs| => cs[i].feature)
  }

  /**
   * The `correlations` dict built column by column: a requested column that
   * is a table column with a defined coefficient enters once, at its first
   * request.
   */
  function Collect(cols: seq<string>, present: seq<string>, coefficient: string -> Option<real>,
                   acc: seq<Correlation>): (r: seq<Correlation>)
    requires NoDuplicates(Features(acc))
    requires forall e :: e in acc ==> coefficient(e.feature) == Some(e.value)
    ensures NoDuplicates(Features(r))
    ensures forall e :: e in r ==> coefficient(e.feature) == Some(e.value)
    ensures forall c :: c in Features(r) <==>
      c in Features(acc) || (c in cols && c in present && coefficient(c).Some?)
    decreases |cols|
  {
    if cols == [] then acc
    else
      var c := cols[0];
      if c in present && coefficient(c).Some? && c !in Features(acc) then
        var next := acc + [Correlation(c, coefficient(c).value)];
        assert Features(next) == Features(acc) + [c];
        Collect(cols[1..], present, coefficient, next)
      else Collect(cols[1..], present, coefficient, acc)
  }

  /** The three parts of the impact analysis. */
  datatype Impact = Impact(correlations: seq<Correlation>, topPositive: seq<Correlation>, topNegative: seq<Correlation>)

  /**
   * The ranking `analyze_land_use_impact` reports: all correlations by
   * absolute value, largest first; the positive ones among the five
   * largest in absolute value; the negative ones among the five smallest.
   */
  function Rank(cs: seq<Correlation>): (r: Impact)
    ensures multiset(r.correlations) == multiset(cs)
    ensures NonIncreasing(r.correlations, Magnitude)
    ensures |r.topPositive| <= 5 && |r.topNegative| <= 5
    ensures forall e :: e in r.topPositive ==> e in cs && e.value > 0.0
    ensures forall e :: e in r.topNegative ==> e in cs && e.value < 0.0
    ensures multiset(r.topPositive) <= multiset(cs) && multiset(r.topNegative) <= multiset(cs)
    ensures forall e :: e in r.topPositive <==> e in Head(r.correlations, 5) && e.value > 0.0
    ensures forall e :: e in r.topNegative <==> e in Head(SortDesc(cs, Negated), 5) && e.value < 0.0
    ensures NonIncreasing(r.topPositive, Magnitude)
    ensures NonIncreasing(r.topNegative, Negated)
  {
    var byMagnitude := SortDesc(cs, Magnitude);
    var ascending := SortDesc(cs, Negated);
    SortedPrefix(cs, Magnitude, 5);
    SortedPrefix(cs, Negated, 5);
    var pos := Filter(Head(byMagnitude, 5), Positive);
    var neg := Filter(Head(ascending, 5), Negative);
    FilterNonIncreasing(Head(byMagnitude, 5), Positive, Magnitude);
    FilterNonIncreasing(Head(ascending, 5), Negative, Negated);
    forall e | e in pos ensures e in cs {
      assert e in multiset(cs);
    }
    forall e | e in neg ensures e in cs {
      assert e in multiset(cs);
    }
    Impact(byMagnitude, pos, neg)
  }

  /**
   * `analyze_land_use_impact`: the CO2 column must exist; the coefficient of
   * each land-use column is computed on the rows with a CO2 value
   * (`coefficient` returns None for a non-numeric column or a NaN result).
   */
  function AnalyzeLandUseImpact(df: Table, landUse: seq<string>, co2: string,
                                coefficient: (seq<Row>, string, string) -> Option<real>): (r: Result<Impact>)
    ensures r.Err? <==> co2 !in df.columns
    ensures r.Ok? ==> forall c :: c in Features(r.value.correlations) <==>
      c in landUse && c in df.columns && coefficient(DropNa(df.rows, [co2]), c, co2).Some?
    ensures r.Ok? ==> NoDuplicates(Features(r.value.correlations))
  {
    if co2 !in df.columns then Err(KeyError(co2))
    else
      var rows := DropNa(df.rows, [co2]);
      var coeff := c => coefficient(rows, c, co2);
      var cs := Collect(landUse, df.columns, coeff, []);
      var impact := Rank(cs);
      FeaturesPermuted(cs, impact.correlations);
      Ok(impact)
  }

  /** Two permutations of each other list the same features, and one without repeats gives the other none. */
  lemma FeaturesPermuted(a: seq<Correlation>, b: seq<Correlation>)
    requires multiset(a) == multiset(b) && NoDuplicates(Features(a))
    ensures forall c :: c in Features(a) <==> c in Features(b)
    ensures NoDuplicates(Features(b))
  {
    forall c ensures c in Features(a) <==> c in Features(b) {
      if c in Features(a) {
        var i :| 0 <= i < |a| && Features(a)[i] == c;
        assert a[i] in multiset(b);
        var j :| 0 <= j < |b| && b[j] == a[i];
        assert Features(b)[j] == c;
      }
      if c in Features(b) {
        var j :| 0 <= j < |b| && Features(b)[j] == c;
        assert b[j] in multiset(a);
        var i :| 0 <= i < |a| && a[i] == b[j];
        assert Features(a)[i] == c;
      }
    }
    assert NoDuplicates(a) by {
      forall i, j | 0 <= i < j < |a| ensures a[i] != a[j] {
        assert Features(a)[i] != Features(a)[j];
      }
    }
    forall i, j | 0 <= i < j < |b| ensures Features(b)[i] != Features(b)[j] {
      AtMostOnce(a, b[i]);
      DistinctIfRare(b, i, j);
      assert b[i] in multiset(a) && b[j] in multiset(a);
      var p :| 0 <= p < |a| && a[p] == b[i];
      var q :| 0 <= q < |a| && a[q] == b[j];
      if p < q {
        assert Features(a)[p] != Features(a)[q];
      } else {
        assert Features(a)[q] != Features(a)[p];
      }
    }
  }

  lemma {:induction false} AtMostOnce<T>(s: seq<T>, x: T)
    requires NoDuplicates(s)
    ensures multiset(s)[x] <= 1
    decreases |s|
  {
    if s != [] {
      var tail := s[1..];
      assert s == [s[0]] + tail;
      assert NoDuplicates(tail) by {
        forall i, j | 0 <= i < j < |tail| ensures tail[i] != tail[j] {
          assert tail[i] == s[i + 1] && tail[j] == s[j + 1];
        }
      }
      AtMostOnce(tail, x);
      if x == s[0] {
        assert x !in tail by {
          forall k | 0 <= k < |tail| ensures tail[k] != x {
            assert tail[k] == s[k + 1];
          }
        }
      }
    }
  }

  /** An element occurring at most once in `s` is not repeated at a later index. */
  lemma DistinctIfRare<T>(s: seq<T>, i: nat, j: nat)
    requires i < j < |s| && multiset(s)[s[i]] <= 1
    ensures s[i] != s[j]
  {
    assert s == s[..j] + s[j..];
    assert s[i] in s[..j];
    assert s[j] in s[j..];
  }

  /** An entry left out of the first five of a descending sort has five entries at least as large above it. */
  lemma LeftOutOfFive(cs: seq<Correlation>, x: Correlation, key: Correlation -> real) returns (m: seq<Correlation>)
    requires x in cs && x !in Head(SortDesc(cs, key), 5)
    ensures |m| == 5 && multiset(m) <= multiset(cs) && x !in m
    ensures forall y :: y in m ==> key(y) >= key(x)
  {
    var sorted := SortDesc(cs, key);
    SortedPrefix(cs, key, 5);
    m := Head(sorted, 5);
    assert x in multiset(sorted);
    var k :| 0 <= k < |sorted| && sorted[k] == x;
    assert k >= |m| && |m| == 5;
    forall y | y in m ensures key(y) >= key(x) {
      var i :| 0 <= i < |m| && m[i] == y;
      assert sorted[i] == y;
    }
  }

  /**
   * Among the five strongest: a positive correlation is left out of the top
   * positive list only when five other entries are at least as strong.
   */
  lemma TopPositiveStrongest(cs: seq<Correlation>, x: Correlation) returns (m: seq<Correlation>)
    requires x in cs && x.value > 0.0 && x !in Rank(cs).topPositive
    ensures |m| == 5 && multiset(m) <= multiset(cs) && x !in m
    ensures forall y :: y in m ==> Magnitude(y) >= Magnitude(x)
  {
    assert Rank(cs).topPositive == Filter(Head(SortDesc(cs, Magnitude), 5), Positive);
    m := LeftOutOfFive(cs, x, Magnitude);
  }

  /** Likewise, a negative correlation is left out of the top negative list only when five others are at least as low. */
  lemma TopNegativeLowest(cs: seq<Correlation>, x: Correlation) returns (m: seq<Correlation>)
    requires x in cs && x.value < 0.0 && x !in Rank(cs).topNegative
    ensures |m| == 5 && multiset(m) <= multiset(cs) && x !in m
    ensures forall y :: y in m ==> y.value <= x.value
  {
    assert Rank(cs).topNegative == Filter(Head(SortDesc(cs, Negated), 5), Negative);
    m := LeftOutOfFive(cs, x, Negated);
    forall y | y in m ensures y.value <= x.value {
      assert Negated(y) >= Negated(x);
    }
  }

  /**
   * A kept positive correlation is among the five strongest: fewer than five
   * entries of `cs` have a strictly larger absolute value.
   */
  lemma TopPositiveFew(cs: seq<Correlation>, x: Correlation)
    requires x in Rank(cs).topPositive
    ensures x in cs && x.value > 0.0
    ensures Count(cs, KeyAbove(Magnitude, Magnitude(x))) < 5
  {
    assert Rank(cs).topPositive == Filter(Head(SortDesc(cs, Magnitude), 5), Positive);
    FewAbove(cs, Magnitude, 5, x);
  }

  /** A kept negative correlation is among the five lowest: fewer than five entries of `cs` are strictly lower. */
  lemma TopNegativeFew(cs: seq<Correlation>, x: Correlation)
    requires x in Rank(cs).topNegative
    ensures x in cs && x.value < 0.0
    ensures Count(cs, KeyAbove(Negated, Negated(x))) < 5
  {
    assert Rank(cs).topNegative == Filter(Head(SortDesc(cs, Negated), 5), Negative);
    FewAbove(cs, Negated, 5, x);
  }

  // ---- the model object ----

  /** A saved model: `{'model', 'ohe', 'scaler', 'feature_columns', 'metrics'}`. */
  datatype Bundle = Bundle(
    model: Estimator,
    ohe: Option<Encoder>,
    scaler: Option<Standardizer>,
    featureColumns: Option<seq<Feature>>,
    metrics: Option<Metrics>)

  class LandUseCO2Model {
    var model: Option<Estimator>
    var ohe: Option<Encoder>
    var scaler: Option<Standardizer>
    var featureColumns: Option<seq<Feature>>
    var metrics: Option<Metrics>

    function State(): LandState
      reads this
    {
      LandState(model, ohe, scaler, featureColumns, metrics)
    }

    /** A new model with nothing fitted. */
    constructor ()
      ensures State() == LandState(None, None, None, None, None)
    {
      model := None;
      ohe := None;
      scaler := None;
      featureColumns := None;
      metrics := None;
    }

    method PrepareFeatures(df: Table, co2: string, landUse: Option<seq<string>>,
                           categorical: Option<seq<string>>, numeric: Option<seq<string>>) returns (r: Result<Prepared>)
      modifies this
      ensures State() == PrepareStep(old(State()), df, co2, landUse, categorical, numeric).0
      ensures r == PrepareStep(old(State()), df, co2, landUse, categorical, numeric).1
    {
      var land := LandColumns(df, landUse);
      var cats := CategoricalColumns(df, categorical);
      var nums := NumericColumns(df, numeric);
      if co2 !in df.columns {
        return Err(KeyError(co2));
      }
      var rows := KeptRows(df, co2, categorical);
      var fc := PM.ColsOf(nums) + PM.ColsOf(land);
      if cats == [] {
        if fc == [] {
          return Err(ValueError(NothingToConcatenate));
        }
      } else if ohe.None? {
        ohe := Some(Unfitted);
        var enc := Fit(rows, cats);
        if enc.Err? {
          return Err(enc.error);
        }
        ohe := Some(enc.value);
        fc := fc + Indicators(enc.value.blocks);
      } else {
        var names := EncodedNames(ohe.value, cats);
        if names.Err? {
          return Err(names.error);
        }
        if rows == [] {
          return Err(ValueError("Found array with 0 sample(s)"));
        }
        fc := fc + names.value;
      }
      featureColumns := Some(fc);
      return Ok(Prepared(FeatureMatrix(rows, fc), PM.Targets(rows, co2)));
    }

    method Train(df: Table, co2: string, landUse: Option<seq<string>>, modelType: string, tk: Toolkit)
      returns (r: Result<Metrics>)
      modifies this
      ensures State() == TrainStep(old(State()), df, co2, landUse, modelType, tk).0
      ensures r == TrainStep(old(State()), df, co2, landUse, modelType, tk).1
    {
      var prep := PrepareFeatures(df, co2, landUse, None, None);
      if prep.Err? {
        return Err(prep.error);
      }
      r := FitFeatures(prep.value, modelType, tk);
    }

    /** The steps of `train` after the feature preparation, as the fields are assigned. */
    method FitFeatures(p: Prepared, modelType: string, tk: Toolkit) returns (r: Result<Metrics>)
      requires featureColumns.Some?
      modifies this
      ensures State() == FitPrepared(old(State()), p, modelType, tk).0
      ensures r == FitPrepared(old(State()), p, modelType, tk).1
    {
      var sp := tk.split(p.x, p.y);
      if sp.Err? {
        return Err(sp.error);
      }
      var sc := tk.fitScaler(sp.value.trainX);
      if sc.Err? {
        scaler := Some(Standardizer(None));
        return Err(sc.error);
      }
      scaler := Some(Standardizer(Some(sc.value)));
      var trainScaled := tk.scale(sc.value, sp.value.trainX);
      if trainScaled.Err? {
        return Err(trainScaled.error);
      }
      var testScaled := tk.scale(sc.value, sp.value.testX);
      if testScaled.Err? {
        return Err(testScaled.error);
      }
      var kind := ParseKind(modelType);
      if kind.None? {
        return Err(ValueError("Modelo '" + modelType + "' no soportado"));
      }
      model := Some(Estimator(kind.value, None));
      var reg := tk.fit(kind.value, trainScaled.value, sp.value.trainY);
      if reg.Err? {
        return Err(reg.error);
      }
      model := Some(Estimator(kind.value, Some(reg.value)));
      var scores := tk.score(reg.value, Split(trainScaled.value, sp.value.trainY, testScaled.value, sp.value.testY));
      if scores.Err? {
        return Err(scores.error);
      }
      var m := Metrics(scores.value, |sp.value.trainX|, |sp.value.testX|, |featureColumns.value|, modelType);
      metrics := Some(m);
      return Ok(m);
    }

    method Predict(input: Row, tk: Toolkit) returns (r: Result<real>)
      ensures r == PredictSpec(State(), input, tk)
    {
      if model.None? {
        return Err(ValueError(Untrained));
      }
      var nums := PM.PresentKeys(PM.NumericFeatures, input);
      var cats := PM.PresentKeys(PM.Categorical, input);
      var names: seq<Feature> := [];
      if cats != [] && ohe.Some? {
        var encoded := EncodedNames(ohe.value, cats);
        if encoded.Err? {
          return Err(encoded.error);
        }
        names := encoded.value;
      }
      if nums == [] && LandKeys(input) == {} && !(cats != [] && ohe.Some?) {
        return Err(ValueError(NothingToConcatenate));
      }
      if featureColumns.None? {
        return Err(TypeError("feature_columns is None"));
      }
      var row := AlignSample(LandSample(input, names), featureColumns.value);
      if scaler.None? {
        return Err(AttributeError(NoTransform));
      }
      if scaler.value.fitted.None? {
        return Err(NotFittedError);
      }
      var scaled := tk.scale(scaler.value.fitted.value, [row]);
      if scaled.Err? {
        return Err(scaled.error);
      }
      match model.value.fitted {
        case None => return Err(NotFittedError);
        case Some(reg) => return tk.infer(reg, scaled.value);
      }
    }

    /**
     * `get_feature_importance(top_n)`: raises when untrained; empty for a
     * linear model or an estimator whose fit failed; otherwise the ranked
     * (feature, importance) pairs, at most `top_n` of them.
     */
    function GetFeatureImportance(topN: int): (r: Result<seq<Importance>>)
      reads this
      ensures model.None? ==> r == Err(ValueError(Untrained))
      ensures model.Some? && !HasImportances(model.value) ==> r == Ok([])
      ensures model.Some? && HasImportances(model.value) && featureColumns.Some? ==> r.Ok?
      ensures r.Ok? && topN >= 0 ==> |r.value| <= topN
      ensures r.Ok? ==> NonIncreasing(r.value, Weight)
      ensures r.Ok? && r.value != [] ==>
        && featureColumns.Some?
        && multiset(r.value) <= multiset(Zip(featureColumns.value, model.value.fitted.value.importances))
    {
      if model.None? then Err(ValueError(Untrained))
      else if !HasImportances(model.value) then Ok([])
      else if featureColumns.None? then Err(TypeError("feature_columns is None"))
      else Ok(Ranked(featureColumns.value, model.value.fitted.value.importances, topN))
    }

    /** The bundle `save_model` writes, or its refusal when there is no model. */
    function Save(): (r: Result<Bundle>)
      reads this
      ensures r.Err? <==> model.None?
      ensures r.Ok? ==> && Some(r.value.model) == model && r.value.ohe == ohe && r.value.scaler == scaler
                        && r.value.featureColumns == featureColumns && r.value.metrics == metrics
    {
      if model.None? then Err(ValueError("No hay modelo para guardar"))
      else Ok(Bundle(model.value, ohe, scaler, featureColumns, metrics))
    }

    /** `load_model`: every field taken from the bundle, so saving again yields the same bundle. */
    method Load(b: Bundle)
      modifies this
      ensures State() == LandState(Some(b.model), b.ohe, b.scaler, b.featureColumns, b.metrics)
      ensures Save() == Ok(b)
    {
      model := Some(b.model);
      ohe := b.ohe;
      scaler := b.scaler;
      featureColumns := b.featureColumns;
      metrics := b.metrics;
    }
  }
}
