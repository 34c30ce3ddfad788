/**
 * The last step both models take before predicting: the single input row has
 * been turned into named feature values; every training feature it lacks is
 * added as 0, and the values are then read out in the training feature
 * order, so the regressor sees exactly the columns it was fitted on.
 */
module Alignment {
  import opened Frame
  import opened Encoding

  /** The row `sample[feature_columns]` after each missing feature column was set to 0. */
  function Aligned(sample: map<Feature, Cell>, fc: seq<Feature>): (row: seq<Cell>)
    ensures |row| == |fc|
  {
    seq(|fc|, i requires 0 <= i < |fc| => if fc[i] in sample then sample[fc[i]] else Num(0.0))
  }

  /** Adds the missing feature columns one at a time, in whatever order the set yields them, then reorders. */
  method AlignSample(sample: map<Feature, Cell>, fc: seq<Feature>) returns (row: seq<Cell>)
    ensures row == Aligned(sample, fc)
  {
    var filled := FillMissing(sample, fc);
    row := seq(|fc|, i requires 0 <= i < |fc| => filled[fc[i]]);
    forall i | 0 <= i < |fc| ensures row[i] == Aligned(sample, fc)[i] {
      assert fc[i] in filled;
    }
  }

  /** `sample[col] = 0` for every feature column the sample lacks. */
  method FillMissing(sample: map<Feature, Cell>, fc: seq<Feature>) returns (filled: map<Feature, Cell>)
    ensures forall f :: f in fc ==> f in filled
    ensures forall f :: f in filled ==> filled[f] == if f in sample then sample[f] else Num(0.0)
  {
    filled := sample;
    var missing := (set f | f in fc) - sample.Keys;
    while missing != {}
      invariant missing !! sample.Keys
      invariant forall f :: f in fc ==> f in filled || f in missing
      invariant forall f :: f in filled ==> filled[f] == if f in sample then sample[f] else Num(0.0)
      decreases |missing|
    {
      var f :| f in missing;
      filled := filled[f := Num(0.0)];
      missing := missing - {f};
    }
  }
}
