/**
 * What the two models take from scikit-learn, kept opaque: a fitted
 * regressor is a value the model carries around, and splitting, fitting,
 * scoring and predicting are functions handed in from outside.  What the
 * models do around those calls (which rows and columns go in, in which order,
 * and how the importances come back out) is modelled exactly.
 */
module Learning {
  import opened Frame
  import opened Encoding
  import opened Sorting

  type Matrix = seq<seq<Cell>>

  /** A fitted estimator: its learned parameters and its per-feature importances. */
  datatype Regressor = Regressor(params: seq<real>, importances: seq<real>)

  /** `train_test_split(X, y)`. */
  datatype Split = Split(trainX: Matrix, trainY: seq<Cell>, testX: Matrix, testY: seq<Cell>)

  datatype Library = Library(
    split: (Matrix, seq<Cell>) -> Result<Split>,
    fit: (Matrix, seq<Cell>) -> Result<Regressor>,
    score: (Regressor, Split) -> Result<map<string, real>>,
    infer: (Regressor, seq<Cell>) -> Result<real>)

  /** One `{'feature': ..., 'importance': ...}` entry. */
  datatype Importance = Importance(feature: Feature, importance: real)

  function Weight(e: Importance): real
  {
    e.importance
  }

  /** `zip(feature_columns, importances)`: pairs up to the shorter of the two. */
  function Zip(fs: seq<Feature>, vs: seq<real>): (r: seq<Importance>)
    ensures |r| == if |fs| < |vs| then |fs| else |vs|
    ensures forall i :: 0 <= i < |r| ==> r[i] == Importance(fs[i], vs[i])
  {
    var n := if |fs| < |vs| then |fs| else |vs|;
    seq(n, i requires 0 <= i < n => Importance(fs[i], vs[i]))
  }

  /**
   * The pairs sorted by importance, largest first (stable), cut to the first
   * `topN`: at most `topN` entries, drawn from the pairs, importance
   * non-increasing, every name one of the features.
   */
  function Ranked(fs: seq<Feature>, vs: seq<real>, topN: int): (r: seq<Importance>)
    ensures topN >= 0 ==> |r| <= topN
    ensures multiset(r) <= multiset(Zip(fs, vs))
    ensures NonIncreasing(r, Weight)
    ensures forall e :: e in r ==> e.feature in fs
  {
    var pairs := Zip(fs, vs);
    SortedPrefix(pairs, Weight, topN);
    var r := Head(SortDesc(pairs, Weight), topN);
    forall e | e in r ensures e.feature in fs {
      assert e in multiset(pairs);
      var i :| 0 <= i < |pairs| && pairs[i] == e;
    }
    r
  }

  /** For a non-negative `topN`, the entries kept are the `topN` most important ones. */
  lemma RankedLargest(fs: seq<Feature>, vs: seq<real>, topN: nat)
    ensures var pairs := Zip(fs, vs);
      && |Ranked(fs, vs, topN)| == (if topN < |pairs| then topN else |pairs|)
      && forall x, y :: x in multiset(pairs) - multiset(Ranked(fs, vs, topN)) && y in Ranked(fs, vs, topN) ==>
           x.importance <= y.importance
  {
    TopLargest(Zip(fs, vs), Weight, topN);
  }
}
