/**
 * CO2PredictionModel: a random-forest regressor over the numeric features
 * ANO, S, SB1 (those present) and the one-hot encoding of REGION and
 * CATEGORIA.  Training fixes the encoder and the ordered feature-column list;
 * prediction encodes one input record, aligns it to that list and asks the
 * regressor.  `model` being None means untrained.
 */
module PredictionModel {
  import opened Frame
  import opened Order
  import opened Preprocessing
  import opened Encoding
  import opened Alignment
  import opened Learning
  import opened Sorting

  const Categorical: seq<string> := ["REGION", "CATEGORIA"]
  const NumericFeatures: seq<string> := ["ANO", "S", "SB1"]
  const Pollutant := "CONTAMINANTE"
  const Untrained := "Modelo no entrenado. Ejecuta train() primero."

  /**
   * `_preprocess_data`: the analyzer's ANO/VALOR_F coercion on a copy, then
   * the CONTAMINANTE column removed if present; every other cell is kept.
   */
  function PreprocessData(t: Table): (r: Result<Table>)
    ensures r.Err? <==> Preprocess(t).Err?
    ensures r.Err? ==> r.error == Preprocess(t).error
    ensures r.Ok? ==> Preprocess(t).Ok? && r.value == DropColumn(Preprocess(t).value, Pollutant)
    ensures r.Ok? ==> r.value.columns == Without(t.columns, Pollutant)
    ensures r.Ok? ==> forall c :: c in r.value.columns <==> c in t.columns && c != Pollutant
    ensures r.Ok? ==> |r.value.rows| == |t.rows|
    ensures r.Ok? ==> Coerced(r.value)
    ensures r.Ok? ==> forall i, c :: 0 <= i < |t.rows| && c != "ANO" && c != "VALOR_F" && c != Pollutant ==>
      Get(r.value.rows[i], c) == Get(t.rows[i], c)
    ensures r.Ok? ==> forall i :: 0 <= i < |t.rows| ==>
      && ("ANO" in t.columns ==> CoerceCell(Get(t.rows[i], "ANO"), CommaToPoint) == Ok(Get(r.value.rows[i], "ANO")))
      && ("VALOR_F" in t.columns ==> CoerceCell(Get(t.rows[i], "VALOR_F"), DropCommas) == Ok(Get(r.value.rows[i], "VALOR_F")))
    ensures r.Ok? && Pollutant in t.columns ==> forall x :: x in r.value.rows ==> Pollutant !in x
  {
    match Preprocess(t)
    case Err(e) => Err(e)
    case Ok(p) =>
      var d := DropColumn(p, Pollutant);
      assert Coerced(d) by {
        forall x, c | x in d.rows && c in d.columns && (c == "ANO" || c == "VALOR_F") ensures !Get(x, c).Str? {
          var i :| 0 <= i < |d.rows| && d.rows[i] == x;
          assert Get(x, c) == Get(p.rows[i], c) && p.rows[i] in p.rows;
        }
      }
      assert Pollutant in t.columns ==> forall x :: x in d.rows ==> Pollutant !in x;
      Ok(d)
  }

  /** The columns whose cells must all be present in a training row. */
  function Required(target: string): seq<string>
  {
    Categorical + [target]
  }

  /** The rows `train` learns from, and the numeric features the table has. */
  datatype TrainingSet = TrainingSet(rows: seq<Row>, numeric: seq<string>)

  /**
   * Preprocessing, then `dropna(subset=['REGION', 'CATEGORIA', target])`,
   * which raises a KeyError naming a column the table lacks.  The rows kept
   * are exactly those with REGION, CATEGORIA and the target all present; the
   * numeric features are those of ANO, S, SB1 the table has, in that order.
   */
  function Select(df: Table, target: string): (r: Result<TrainingSet>)
    ensures PreprocessData(df).Err? ==> r == Err(PreprocessData(df).error)
    ensures PreprocessData(df).Ok? && !HasAll(PreprocessData(df).value, Required(target)) ==>
      r.Err? && r.error.KeyError? && r.error.column in Required(target) &&
      r.error.column !in PreprocessData(df).value.columns
    ensures r.Ok? ==> PreprocessData(df).Ok? && HasAll(PreprocessData(df).value, Required(target))
    ensures r.Ok? ==> forall x :: x in r.value.rows <==>
      && x in PreprocessData(df).value.rows
      && Get(x, "REGION") != Missing && Get(x, "CATEGORIA") != Missing && Get(x, target) != Missing
    ensures r.Ok? ==> r.value.numeric == PresentIn(NumericFeatures, PreprocessData(df).value)
  {
    match PreprocessData(df)
    case Err(e) => Err(e)
    case Ok(p) =>
      match FirstAbsent(p, Required(target))
      case Some(c) => Err(KeyError(c))
      case None =>
        var need := Required(target);
        assert forall x :: NotNull(x, need) <==>
          Get(x, "REGION") != Missing && Get(x, "CATEGORIA") != Missing && Get(x, target) != Missing
        by {
          assert need[0] == "REGION" && need[1] == "CATEGORIA" && need[2] == target && |need| == 3;
        }
        Ok(TrainingSet(DropNa(p.rows, need), PresentIn(NumericFeatures, p)))
  }

  function ColsOf(ns: seq<string>): (fs: seq<Feature>)
    ensures |fs| == |ns|
    ensures forall i :: 0 <= i < |ns| ==> fs[i] == Col(ns[i])
  {
    seq(|ns|, i requires 0 <= i < |ns| => Col(ns[i]))
  }

  /** `X.columns`: the numeric features, then the encoder's one-hot columns. */
  function FeatureColumns(numeric: seq<string>, e: Encoder): seq<Feature>
    requires e.Fitted?
  {
    ColsOf(numeric) + Indicators(e.blocks)
  }

  /** The feature matrix X: one encoded row per training row. */
  function DesignMatrix(rows: seq<Row>, fc: seq<Feature>): Matrix
  {
    seq(|rows|, i requires 0 <= i < |rows| => Encode(rows[i], fc))
  }

  /** The target vector y. */
  function Targets(rows: seq<Row>, target: string): seq<Cell>
  {
    seq(|rows|, i requires 0 <= i < |rows| => Get(rows[i], target))
  }

  /** `RandomForestRegressor(n_estimators=...)`, before or after `fit`. */
  datatype Forest = Forest(nEstimators: nat, fitted: Option<Regressor>)

  datatype Metrics = Metrics(scores: map<string, real>, trainSamples: nat, testSamples: nat, nFeatures: nat)

  /** The four fields of the model; a metrics value of None is the empty dict. */
  datatype ModelState = ModelState(
    model: Option<Forest>,
    ohe: Option<Encoder>,
    featureColumns: Option<seq<Feature>>,
    metrics: Option<Metrics>)

  /** A model that can predict has its encoder and its feature columns. */
  predicate Consistent(s: ModelState)
  {
    s.model.Some? ==> s.ohe.Some? && s.featureColumns.Some?
  }

  /**
   * `train`, step by step as the fields are assigned: the encoder is replaced
   * by an unfitted one before fitting, then by the fitted one; the feature
   * columns are fixed; after the split, an unfitted forest replaces the model
   * and is then fitted; the metrics are written last.  A failure at any step
   * keeps what was assigned before it.
   */
  function TrainStep(s: ModelState, df: Table, target: string, nEstimators: nat, lib: Library): (r: (ModelState, Result<Metrics>))
    ensures Select(df, target).Err? ==> r.0 == s && r.1 == Err(Select(df, target).error)
    ensures Consistent(s) ==> Consistent(r.0)
    ensures r.1.Err? ==> r.0.metrics == s.metrics
    ensures r.0.model == s.model || (r.0.model.Some? && r.0.model.value.nEstimators == nEstimators)
    ensures r.1.Ok? ==> && r.0.model.Some? && r.0.model.value.fitted.Some?
                        && r.0.featureColumns.Some? && r.0.metrics == Some(r.1.value)
                        && r.1.value.nFeatures == |r.0.featureColumns.value|
  {
    match Select(df, target)
    case Err(e) => (s, Err(e))
    case Ok(ts) =>
      match Fit(ts.rows, Categorical)
      case Err(e) => (s.(ohe := Some(Unfitted)), Err(e))
      case Ok(enc) =>
        var fc := FeatureColumns(ts.numeric, enc);
        FitForest(s.(ohe := Some(enc), featureColumns := Some(fc)), ts, target, nEstimators, lib)
  }

  /**
   * The rest of `train` once the encoder and the feature columns are set:
   * split, an unfitted forest, fitting, scoring.  The encoder and the feature
   * columns are left as they are.
   */
  function FitForest(s1: ModelState, ts: TrainingSet, target: string, nEstimators: nat, lib: Library): (r: (ModelState, Result<Metrics>))
    requires s1.featureColumns.Some?
    ensures r.0.ohe == s1.ohe && r.0.featureColumns == s1.featureColumns
    ensures r.1.Err? ==> r.0.metrics == s1.metrics
    ensures r.0.model == s1.model || (r.0.model.Some? && r.0.model.value.nEstimators == nEstimators)
    ensures r.1.Ok? ==> && r.0.model.Some? && r.0.model.value.fitted.Some?
                        && r.0.metrics == Some(r.1.value)
                        && r.1.value.nFeatures == |s1.featureColumns.value|
  {
    var fc := s1.featureColumns.value;
    match lib.split(DesignMatrix(ts.rows, fc), Targets(ts.rows, target))
    case Err(e) => (s1, Err(e))
    case Ok(sp) =>
      var s2 := s1.(model := Some(Forest(nEstimators, None)));
      match lib.fit(sp.trainX, sp.trainY)
      case Err(e) => (s2, Err(e))
      case Ok(reg) =>
        var s3 := s2.(model := Some(Forest(nEstimators, Some(reg))));
        match lib.score(reg, sp)
        case Err(e) => (s3, Err(e))
        case Ok(scores) =>
          var m := Metrics(scores, |sp.trainX|, |sp.testX|, |fc|);
          (s3.(metrics := Some(m)), Ok(m))
  }

  /** The names among `cs` that are keys of the input record, in the order of `cs`. */
  function PresentKeys(cs: seq<string>, x: Row): (r: seq<string>)
    ensures forall n :: n in r <==> n in cs && n in x
  {
    if cs == [] then []
    else (if cs[0] in x then [cs[0]] else []) + PresentKeys(cs[1..], x)
  }

  /** The columns of the one-row input frame: its numeric features, then the one-hot columns. */
  function Sample(input: Row, names: seq<Feature>): map<Feature, Cell>
  {
    map f | f in ColsOf(PresentKeys(NumericFeatures, input)) + names :: Value(input, f)
  }

  /**
   * `predict` up to the call of the regressor: the guard on an untrained
   * model, the KeyError for a missing categorical input, the encoder's own
   * errors, then the aligned feature row.  Category values play no part in
   * whether it fails.
   */
  function AlignedInput(s: ModelState, input: Row): (r: Result<seq<Cell>>)
    ensures s.model.None? || s.ohe.None? ==> r == Err(ValueError(Untrained))
    ensures r.Ok? <==>
      && s.model.Some? && s.ohe.Some? && s.featureColumns.Some?
      && "REGION" in input && "CATEGORIA" in input
      && s.ohe.value.Fitted? && Columns(s.ohe.value.blocks) == Categorical
    ensures r.Ok? ==> |r.value| == |s.featureColumns.value|
  {
    if s.model.None? || s.ohe.None? then Err(ValueError(Untrained))
    else if "REGION" !in input then Err(KeyError("REGION"))
    else if "CATEGORIA" !in input then Err(KeyError("CATEGORIA"))
    else
      match EncodedNames(s.ohe.value, Categorical)
      case Err(e) => Err(e)
      case Ok(names) =>
        if s.featureColumns.None? then Err(TypeError("feature_columns is None"))
        else Ok(Aligned(Sample(input, names), s.featureColumns.value))
  }

  /** `predict`: the regressor applied to the aligned row; an unfitted forest raises. */
  function PredictSpec(s: ModelState, input: Row, lib: Library): (r: Result<real>)
    ensures s.model.None? || s.ohe.None? ==> r == Err(ValueError(Untrained))
    ensures r.Ok? ==> AlignedInput(s, input).Ok? && s.model.value.fitted.Some?
  {
    match AlignedInput(s, input)
    case Err(e) => Err(e)
    case Ok(row) =>
      match s.model.value.fitted
      case None => Err(NotFittedError)
      case Some(reg) => lib.infer(reg, row)
  }

  // ---- what training fixes ----

  /** The encoder `train` fits: a REGION block, then a CATEGORIA block, each strictly ascending. */
  predicate TrainedBlocks(bs: seq<Block>)
  {
    && |bs| == 2 && bs[0].column == "REGION" && bs[1].column == "CATEGORIA"
    && StrictlySorted(bs[0].categories) && StrictlySorted(bs[1].categories)
  }

  lemma FitTrainedBlocks(rows: seq<Row>)
    ensures TrainedBlocks(FitBlocks(rows, Categorical))
  {
  }

  /**
   * The feature columns are the numeric features in their order, followed by
   * the REGION indicators and then the CATEGORIA indicators, each block in
   * ascending category order.
   */
  lemma FeatureLayout(bs: seq<Block>, numeric: seq<string>)
    requires TrainedBlocks(bs)
    ensures var fc := FeatureColumns(numeric, Fitted(bs));
      && |numeric| <= |fc|
      && (forall i :: 0 <= i < |numeric| ==> fc[i] == Col(numeric[i]))
      && (forall i :: |numeric| <= i < |fc| ==> fc[i].Indicator? && fc[i].column in Categorical)
      && (forall i, j :: |numeric| <= i < j < |fc| && fc[i].column == fc[j].column ==>
            CellLess(fc[i].category, fc[j].category))
      && (forall i, j :: |numeric| <= i < j < |fc| ==> !(fc[i].column == "CATEGORIA" && fc[j].column == "REGION"))
  {
    var ind := Indicators(bs);
    var fc := FeatureColumns(numeric, Fitted(bs));
    var m := |numeric|;
    forall i | m <= i < |fc| ensures fc[i].Indicator? && fc[i].column in Categorical {
      assert fc[i] == ind[i - m];
      IndicatorsMembership(bs, ind[i - m]);
    }
    forall i, j | m <= i < j < |fc|
      ensures fc[i].column == fc[j].column ==> CellLess(fc[i].category, fc[j].category)
      ensures !(fc[i].column == "CATEGORIA" && fc[j].column == "REGION")
    {
      assert fc[i] == ind[i - m] && fc[j] == ind[j - m];
      IndicatorsOrder(bs, i - m, j - m);
    }
  }

  /** The indicator columns are exactly the (column, value) pairs seen in the training rows. */
  lemma FeatureCategories(rows: seq<Row>, numeric: seq<string>, f: Feature)
    requires f.Indicator?
    ensures f in FeatureColumns(numeric, Fitted(FitBlocks(rows, Categorical))) <==>
      && f.column in Categorical && f.category != Missing
      && exists x :: x in rows && Get(x, f.column) == f.category
  {
    var bs := FitBlocks(rows, Categorical);
    IndicatorsMembership(bs, f);
    if f.column in Categorical {
      var j := if f.column == "REGION" then 0 else 1;
      assert bs[j].column == f.column;
    }
  }

  /** With duplicate-free numeric features, no feature column occurs twice. */
  lemma FeatureColumnsDistinct(bs: seq<Block>, numeric: seq<string>)
    requires TrainedBlocks(bs) && NoDuplicates(numeric)
    ensures NoDuplicates(FeatureColumns(numeric, Fitted(bs)))
  {
    assert Columns(bs) == Categorical;
    IndicatorsDistinct(bs);
    var ind := Indicators(bs);
    var fc := FeatureColumns(numeric, Fitted(bs));
    var m := |numeric|;
    forall i, j | 0 <= i < j < |fc| ensures fc[i] != fc[j] {
      if j >= m {
        assert fc[j] == ind[j - m];
        if i >= m {
          assert fc[i] == ind[i - m];
        }
      }
    }
  }

  /** A successful training sets the encoder it fitted and the feature columns built from it. */
  lemma TrainSetsEncoder(s: ModelState, df: Table, target: string, nEstimators: nat, lib: Library)
    requires TrainStep(s, df, target, nEstimators, lib).1.Ok?
    ensures Select(df, target).Ok?
    ensures var ts := Select(df, target).value; var e := Fitted(FitBlocks(ts.rows, Categorical));
      && TrainStep(s, df, target, nEstimators, lib).0.ohe == Some(e)
      && TrainStep(s, df, target, nEstimators, lib).0.featureColumns == Some(FeatureColumns(ts.numeric, e))
  {
  }

  lemma SelectedNumericDistinct(df: Table, target: string)
    requires Select(df, target).Ok?
    ensures NoDuplicates(Select(df, target).value.numeric)
  {
    assert NoDuplicates(NumericFeatures);
    PresentInNoDuplicates(NumericFeatures, PreprocessData(df).value);
  }

  /**
   * A successful training sets the encoder fitted on the rows it kept, and
   * the duplicate-free feature columns laid out from it.
   */
  lemma TrainedFeatureColumns(s: ModelState, df: Table, target: string, nEstimators: nat, lib: Library)
    requires TrainStep(s, df, target, nEstimators, lib).1.Ok?
    ensures Select(df, target).Ok?
    ensures var ts := Select(df, target).value; var bs := FitBlocks(ts.rows, Categorical);
      && TrainedBlocks(bs)
      && TrainStep(s, df, target, nEstimators, lib).0.ohe == Some(Fitted(bs))
      && TrainStep(s, df, target, nEstimators, lib).0.featureColumns == Some(FeatureColumns(ts.numeric, Fitted(bs)))
      && NoDuplicates(FeatureColumns(ts.numeric, Fitted(bs)))
  {
    TrainSetsEncoder(s, df, target, nEstimators, lib);
    var ts := Select(df, target).value;
    FitTrainedBlocks(ts.rows);
    SelectedNumericDistinct(df, target);
    FeatureColumnsDistinct(FitBlocks(ts.rows, Categorical), ts.numeric);
  }

  /**
   * A row holding a learned category of REGION (j = 0) or CATEGORIA (j = 1)
   * encodes to a block with exactly one 1, at the indicator of its value.
   */
  lemma RowOneHot(bs: seq<Block>, numeric: seq<string>, x: Row, j: nat)
    requires TrainedBlocks(bs) && j < 2
    requires Get(x, Categorical[j]) in bs[j].categories
    ensures var fc := FeatureColumns(numeric, Fitted(bs)); var v := Encode(x, fc);
      exists h :: |numeric| <= h < |fc| && fc[h] == Indicator(Categorical[j], Get(x, Categorical[j])) &&
        forall k :: 0 <= k < |fc| && fc[k].Indicator? && fc[k].column == Categorical[j] ==> (v[k] == Num(1.0) <==> k == h)
  {
    var ind := Indicators(bs);
    var fc := FeatureColumns(numeric, Fitted(bs));
    var m := |numeric|;
    assert Columns(bs) == Categorical;
    OneHotInBlock(bs, x, j);
    var h :| 0 <= h < |ind| && ind[h] == Indicator(Categorical[j], Get(x, Categorical[j])) &&
      forall k :: 0 <= k < |ind| && ind[k].column == Categorical[j] ==> (Value(x, ind[k]) == Num(1.0) <==> k == h);
    assert fc[m + h] == ind[h];
    forall k | 0 <= k < |fc| && fc[k].Indicator? && fc[k].column == Categorical[j]
      ensures Encode(x, fc)[k] == Num(1.0) <==> k == m + h
    {
      assert fc[k] == ind[k - m];
    }
  }

  /**
   * Every training row's encoded block for REGION (j = 0) and for CATEGORIA
   * (j = 1) holds exactly one 1, at the indicator of the row's own value.
   */
  lemma TrainingRowOneHot(rows: seq<Row>, numeric: seq<string>, x: Row, j: nat)
    requires x in rows && j < 2
    requires Get(x, Categorical[j]) != Missing
    ensures var fc := FeatureColumns(numeric, Fitted(FitBlocks(rows, Categorical))); var v := Encode(x, fc);
      exists h :: |numeric| <= h < |fc| && fc[h] == Indicator(Categorical[j], Get(x, Categorical[j])) &&
        forall k :: 0 <= k < |fc| && fc[k].Indicator? && fc[k].column == Categorical[j] ==> (v[k] == Num(1.0) <==> k == h)
  {
    var bs := FitBlocks(rows, Categorical);
    FitTrainedBlocks(rows);
    assert Get(x, Categorical[j]) in bs[j].categories;
    RowOneHot(bs, numeric, x, j);
  }

  // ---- what prediction does with a record ----

  /**
   * The aligned row holds, for each feature column in order: the input's
   * value of a numeric feature it has, the 1/0 indicator of a one-hot column
   * the encoder produces, and 0 for anything else.
   */
  lemma AlignedInputValues(s: ModelState, input: Row, i: nat)
    requires AlignedInput(s, input).Ok? && i < |s.featureColumns.value|
    ensures var f := s.featureColumns.value[i]; var row := AlignedInput(s, input).value;
      && (f.Col? ==> row[i] == if f.name in NumericFeatures && f.name in input then input[f.name] else Num(0.0))
      && (f.Indicator? ==> row[i] == if f in Indicators(s.ohe.value.blocks) then Value(input, f) else Num(0.0))
  {
    var f := s.featureColumns.value[i];
    var names := Indicators(s.ohe.value.blocks);
    var keys := PresentKeys(NumericFeatures, input);
    var cols := ColsOf(keys);
    assert forall k :: 0 <= k < |names| ==> names[k].Indicator?;
    assert forall k :: 0 <= k < |cols| ==> cols[k] == Col(keys[k]) && keys[k] in keys;
    if f.Col? && f.name in NumericFeatures && f.name in input {
      assert f.name in keys;
      var k :| 0 <= k < |keys| && keys[k] == f.name;
      assert cols[k] == f;
    }
  }

  /**
   * handle_unknown='ignore' at prediction: a value of a categorical input the
   * encoder never saw gives 0 in every indicator column of that input (and
   * raises nothing: failure does not depend on values).
   */
  lemma PredictUnseenZero(s: ModelState, input: Row, c: string, i: nat)
    requires AlignedInput(s, input).Ok? && i < |s.featureColumns.value|
    requires forall j :: 0 <= j < |s.ohe.value.blocks| && s.ohe.value.blocks[j].column == c ==>
      Get(input, c) !in s.ohe.value.blocks[j].categories
    requires s.featureColumns.value[i].Indicator? && s.featureColumns.value[i].column == c
    ensures AlignedInput(s, input).value[i] == Num(0.0)
  {
    AlignedInputValues(s, input, i);
    IndicatorsMembership(s.ohe.value.blocks, s.featureColumns.value[i]);
  }

  /** An input record that agrees with a training row on the features is aligned to that row's encoding. */
  lemma SampleReproducesRow(bs: seq<Block>, numeric: seq<string>, x: Row, input: Row)
    requires TrainedBlocks(bs)
    requires forall n :: n in numeric ==> n in NumericFeatures && n in input && input[n] == Get(x, n)
    requires Get(input, "REGION") == Get(x, "REGION") && Get(input, "CATEGORIA") == Get(x, "CATEGORIA")
    ensures var fc := FeatureColumns(numeric, Fitted(bs));
      Aligned(Sample(input, Indicators(bs)), fc) == Encode(x, fc)
  {
    var fc := FeatureColumns(numeric, Fitted(bs));
    var sample := Sample(input, Indicators(bs));
    forall i | 0 <= i < |fc| ensures Aligned(sample, fc)[i] == Encode(x, fc)[i] {
      SampleAt(bs, numeric, x, input, i);
    }
  }

  /** Each feature column is in the sample, holding the training row's value for it. */
  lemma SampleAt(bs: seq<Block>, numeric: seq<string>, x: Row, input: Row, i: nat)
    requires TrainedBlocks(bs)
    requires forall n :: n in numeric ==> n in NumericFeatures && n in input && input[n] == Get(x, n)
    requires Get(input, "REGION") == Get(x, "REGION") && Get(input, "CATEGORIA") == Get(x, "CATEGORIA")
    requires i < |FeatureColumns(numeric, Fitted(bs))|
    ensures var fc := FeatureColumns(numeric, Fitted(bs)); var sample := Sample(input, Indicators(bs));
      fc[i] in sample && sample[fc[i]] == Value(x, fc[i])
  {
    var names := Indicators(bs);
    var fc := FeatureColumns(numeric, Fitted(bs));
    var keys := PresentKeys(NumericFeatures, input);
    var cols := ColsOf(keys);
    if i < |numeric| {
      var n := numeric[i];
      assert fc[i] == Col(n);
      assert n in keys;
      var k :| 0 <= k < |keys| && keys[k] == n;
      assert cols[k] == fc[i];
    } else {
      var f := names[i - |numeric|];
      assert fc[i] == f;
      IndicatorsMembership(bs, f);
      assert (cols + names)[|cols| + i - |numeric|] == f;
    }
  }

  /** With a fitted REGION/CATEGORIA encoder and both inputs present, alignment succeeds with the encoder's columns. */
  lemma AlignedInputFitted(s: ModelState, bs: seq<Block>, input: Row)
    requires s.model.Some? && s.ohe == Some(Fitted(bs)) && Columns(bs) == Categorical && s.featureColumns.Some?
    requires "REGION" in input && "CATEGORIA" in input
    ensures AlignedInput(s, input) == Ok(Aligned(Sample(input, Indicators(bs)), s.featureColumns.value))
  {
  }

  /**
   * After a successful training, predicting a record that agrees with a
   * training row on the features reproduces exactly that row of the training
   * matrix, one-hot block included.
   */
  lemma TrainedPredictReproduces(s: ModelState, df: Table, target: string, nEstimators: nat, lib: Library, k: nat, input: Row)
    requires TrainStep(s, df, target, nEstimators, lib).1.Ok?
    requires Select(df, target).Ok? && k < |Select(df, target).value.rows|
    requires "REGION" in input && "CATEGORIA" in input
    requires var ts := Select(df, target).value;
      && (forall n :: n in ts.numeric ==> n in input && input[n] == Get(ts.rows[k], n))
      && input["REGION"] == Get(ts.rows[k], "REGION") && input["CATEGORIA"] == Get(ts.rows[k], "CATEGORIA")
    ensures var ts := Select(df, target).value; var s' := TrainStep(s, df, target, nEstimators, lib).0;
      AlignedInput(s', input) == Ok(DesignMatrix(ts.rows, s'.featureColumns.value)[k])
  {
    var ts := Select(df, target).value;
    TrainSetsEncoder(s, df, target, nEstimators, lib);
    var bs := FitBlocks(ts.rows, Categorical);
    FitTrainedBlocks(ts.rows);
    var s' := TrainStep(s, df, target, nEstimators, lib).0;
    assert Columns(bs) == Categorical;
    assert forall n :: n in ts.numeric ==> n in NumericFeatures;
    SampleReproducesRow(bs, ts.numeric, ts.rows[k], input);
    AlignedInputFitted(s', bs, input);
  }

  /** A saved model: `{'model', 'ohe', 'feature_columns', 'metrics'}`. */
  datatype Bundle = Bundle(model: Forest, ohe: Option<Encoder>, featureColumns: Option<seq<Feature>>, metrics: Option<Metrics>)

  /** `get_model_info`. */
  datatype Info =
    | NotTrained
    | Trained(modelType: string, nEstimators: nat, metrics: Option<Metrics>, nFeatures: nat, featureNames: seq<Feature>)

  class CO2PredictionModel {
    var model: Option<Forest>
    var ohe: Option<Encoder>
    var featureColumns: Option<seq<Feature>>
    var metrics: Option<Metrics>

    function State(): ModelState
      reads this
    {
      ModelState(model, ohe, featureColumns, metrics)
    }

    /** A new, untrained model, or one loaded from a saved bundle when there is one. */
    constructor (saved: Option<Bundle>)
      ensures saved.None? ==> State() == ModelState(None, None, None, None)
      ensures saved.Some? ==>
        State() == ModelState(Some(saved.value.model), saved.value.ohe, saved.value.featureColumns, saved.value.metrics)
    {
      if saved.Some? {
        model := Some(saved.value.model);
        ohe := saved.value.ohe;
        featureColumns := saved.value.featureColumns;
        metrics := saved.value.metrics;
      } else {
        model := None;
        ohe := None;
        featureColumns := None;
        metrics := None;
      }
    }

    method Train(df: Table, target: string, nEstimators: nat, lib: Library) returns (r: Result<Metrics>)
      modifies this
      ensures State() == TrainStep(old(State()), df, target, nEstimators, lib).0
      ensures r == TrainStep(old(State()), df, target, nEstimators, lib).1
    {
      var selected := Select(df, target);
      if selected.Err? {
        return Err(selected.error);
      }
      var ts := selected.value;
      ohe := Some(Unfitted);
      var enc := Fit(ts.rows, Categorical);
      if enc.Err? {
        return Err(enc.error);
      }
      ohe := Some(enc.value);
      var fc := FeatureColumns(ts.numeric, enc.value);
      featureColumns := Some(fc);
      r := FitModel(ts, target, nEstimators, lib);
    }

    /** Splits, fits a fresh forest and scores it, on the feature columns already set. */
    method FitModel(ts: TrainingSet, target: string, nEstimators: nat, lib: Library) returns (r: Result<Metrics>)
      requires featureColumns.Some?
      modifies this
      ensures State() == FitForest(old(State()), ts, target, nEstimators, lib).0
      ensures r == FitForest(old(State()), ts, target, nEstimators, lib).1
    {
      var fc := featureColumns.value;
      var sp := lib.split(DesignMatrix(ts.rows, fc), Targets(ts.rows, target));
      if sp.Err? {
        return Err(sp.error);
      }
      model := Some(Forest(nEstimators, None));
      var reg := lib.fit(sp.value.trainX, sp.value.trainY);
      if reg.Err? {
        return Err(reg.error);
      }
      model := Some(Forest(nEstimators, Some(reg.value)));
      var scores := lib.score(reg.value, sp.value);
      if scores.Err? {
        return Err(scores.error);
      }
      var m := Metrics(scores.value, |sp.value.trainX|, |sp.value.testX|, |fc|);
      metrics := Some(m);
      return Ok(m);
    }

    method Predict(input: Row, lib: Library) returns (r: Result<real>)
      ensures r == PredictSpec(State(), input, lib)
    {
      if model.None? || ohe.None? {
        return Err(ValueError(Untrained));
      }
      if "REGION" !in input {
        return Err(KeyError("REGION"));
      }
      if "CATEGORIA" !in input {
        return Err(KeyError("CATEGORIA"));
      }
      var names := EncodedNames(ohe.value, Categorical);
      if names.Err? {
        return Err(names.error);
      }
      if featureColumns.None? {
        return Err(TypeError("feature_columns is None"));
      }
      var row := AlignSample(Sample(input, names.value), featureColumns.value);
      match model.value.fitted {
        case None => return Err(NotFittedError);
        case Some(reg) => return lib.infer(reg, row);
      }
    }

    /** `[self.predict(d) for d in inputs]`: one prediction per input in input order; the first error is raised. */
    method PredictBatch(inputs: seq<Row>, lib: Library) returns (r: Result<seq<real>>)
      ensures r.Ok? <==> forall i :: 0 <= i < |inputs| ==> PredictSpec(State(), inputs[i], lib).Ok?
      ensures r.Ok? ==> |r.value| == |inputs|
      ensures r.Ok? ==> forall i :: 0 <= i < |inputs| ==> PredictSpec(State(), inputs[i], lib) == Ok(r.value[i])
      ensures r.Err? ==> exists k :: 0 <= k < |inputs| && PredictSpec(State(), inputs[k], lib) == Err(r.error)
                                     && forall i :: 0 <= i < k ==> PredictSpec(State(), inputs[i], lib).Ok?
    {
      var s := State();
      r := MapAll(inputs, input => PredictSpec(s, input, lib));
    }

    /**
     * `get_feature_importance(top_n)`: raises when untrained (and when the
     * forest was never fitted); otherwise the (feature, importance) pairs
     * ranked by importance, largest first, at most `top_n` of them.
     */
    function GetFeatureImportance(topN: int): (r: Result<seq<Importance>>)
      reads this
      ensures model.None? ==> r == Err(ValueError("Modelo no entrenado"))
      ensures model.Some? && model.value.fitted.Some? && featureColumns.Some? ==> r.Ok?
      ensures r.Ok? ==> model.Some? && model.value.fitted.Some? && featureColumns.Some?
      ensures r.Ok? && topN >= 0 ==> |r.value| <= topN
      ensures r.Ok? ==> NonIncreasing(r.value, Weight)
      ensures r.Ok? ==> multiset(r.value) <= multiset(Zip(featureColumns.value, model.value.fitted.value.importances))
      ensures r.Ok? ==> forall e :: e in r.value ==> e.feature in featureColumns.value
    {
      if model.None? then Err(ValueError("Modelo no entrenado"))
      else if model.value.fitted.None? then Err(NotFittedError)
      else if featureColumns.None? then Err(TypeError("feature_columns is None"))
      else Ok(Ranked(featureColumns.value, model.value.fitted.value.importances, topN))
    }

    /** `get_model_info`: not trained exactly when there is no model; otherwise the feature list and its length. */
    function GetModelInfo(): (r: Result<Info>)
      reads this
      ensures r == Ok(NotTrained) <==> model.None?
      ensures Consistent(State()) ==> r.Ok?
      ensures r.Ok? && r.value.Trained? ==>
        && featureColumns == Some(r.value.featureNames)
        && r.value.nFeatures == |r.value.featureNames|
        && r.value.nEstimators == model.value.nEstimators
        && r.value.metrics == metrics
    {
      if model.None? then Ok(NotTrained)
      else if featureColumns.None? then Err(TypeError("feature_columns is None"))
      else Ok(Trained("RandomForestRegressor", model.value.nEstimators, metrics, |featureColumns.value|, featureColumns.value))
    }

    /** The bundle `save_model` writes, or its refusal when there is no model. */
    function Save(): (r: Result<Bundle>)
      reads this
      ensures r.Err? <==> model.None?
      ensures r.Ok? ==> && Some(r.value.model) == model && r.value.ohe == ohe
                        && r.value.featureColumns == featureColumns && r.value.metrics == metrics
    {
      if model.None? then Err(ValueError("No hay modelo para guardar"))
      else Ok(Bundle(model.value, ohe, featureColumns, metrics))
    }

    /** `load_model`: every field taken from the bundle, so saving again yields the same bundle. */
    method Load(b: Bundle)
      modifies this
      ensures State() == ModelState(Some(b.model), b.ohe, b.featureColumns, b.metrics)
      ensures Save() == Ok(b)
    {
      model := Some(b.model);
      ohe := b.ohe;
      featureColumns := b.featureColumns;
      metrics := b.metrics;
    }
  }
}
