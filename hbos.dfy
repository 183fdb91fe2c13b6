/**
  Histogram-based outlier detection (HBOS).

  Each feature of the training matrix gets a histogram: `n_bins` densities
  and `n_bins + 1` strictly increasing bin edges. A query value is placed in
  a bin by `np.digitize(..., right=True)`; its score is log2(density + alpha)
  of that bin, with a tolerance rule for values just outside the fitted
  range and the feature's minimum score for values further out. A sample's
  decision score is the negated sum of its per-feature scores.

  np.histogram and np.log2 are not part of this model: the histograms are
  inputs of Fit, and log2 is a parameter of the detector.
*/
module Hbos {

  // ---------------------------------------------------------------------
  // Values: histograms, matrices, results
  // ---------------------------------------------------------------------

  /** Strictly increasing sequence of reals (the shape of `bin_edges_[:, i]`). */
  predicate StrictlyIncreasing(s: seq<real>) {
    forall a, b :: 0 <= a < b < |s| ==> s[a] < s[b]
  }

  /** A strictly increasing function on the reals (the role np.log2 plays). */
  ghost predicate StrictlyMonotone(f: real -> real) {
    forall x, y :: x < y ==> f(x) < f(y)
  }

  /** The histogram of one feature, as np.histogram(..., density=True) returns it. */
  datatype Histogram = Histogram(density: seq<real>, edges: seq<real>) {
    /** At least one bin, one more edge than bins, increasing edges, non-negative densities. */
    predicate Valid() {
      && 1 <= |density|
      && |edges| == |density| + 1
      && StrictlyIncreasing(edges)
      && forall b :: 0 <= b < |density| ==> 0.0 <= density[b]
    }
  }

  /** A validated data matrix (what check_array lets through): at least one
      sample, at least one feature, every row of the same length. */
  predicate IsMatrix(X: seq<seq<real>>) {
    && 1 <= |X|
    && 1 <= |X[0]|
    && forall j :: 0 <= j < |X| ==> |X[j]| == |X[0]|
  }

  datatype Error =
    | NotFitted                       // check_is_fitted fails: no hist_ / bin_edges_
    | FeatureOutOfRange(column: nat)  // bin_edges_[:, i] with i past the fitted columns

  datatype Result<T> = Success(value: T) | Failure(error: Error)

  // ---------------------------------------------------------------------
  // Small numeric helpers (np.min, np.sum)
  // ---------------------------------------------------------------------

  /** The position of a least entry of a non-empty sequence (the last one
      scanned among equals does not displace an earlier one). */
  function ArgMin(s: seq<real>): (k: nat)
    requires |s| > 0
    ensures k < |s|
    ensures forall j :: 0 <= j < |s| ==> s[k] <= s[j]
  {
    if |s| == 1 then 0
    else
      var k := ArgMin(s[..|s| - 1]);
      if s[|s| - 1] < s[k] then |s| - 1 else k
  }

  /** np.min: the least entry of a non-empty sequence. */
  function Min(s: seq<real>): (m: real)
    requires |s| > 0
    ensures m in s
    ensures forall k :: 0 <= k < |s| ==> m <= s[k]
  {
    s[ArgMin(s)]
  }

  function Sum(s: seq<real>): real {
    if |s| == 0 then 0.0 else Sum(s[..|s| - 1]) + s[|s| - 1]
  }

  /** Summation is monotone in every entry. */
  lemma {:induction false} SumMonotone(a: seq<real>, b: seq<real>)
    requires |a| == |b|
    requires forall k :: 0 <= k < |a| ==> a[k] <= b[k]
    ensures Sum(a) <= Sum(b)
  {
    if |a| > 0 {
      SumMonotone(a[..|a| - 1], b[..|b| - 1]);
    }
  }

  // ---------------------------------------------------------------------
  // Bin lookup: np.digitize(v, edges, right=True)
  // ---------------------------------------------------------------------

  /** The number of edges strictly below `v`: for increasing edges this is
      the index `k` with edges[k-1] < v <= edges[k], 0 below the range and
      |edges| above it. */
  function Digitize(v: real, edges: seq<real>): (k: nat)
    ensures k <= |edges|
  {
    if |edges| == 0 then 0
    else Digitize(v, edges[..|edges| - 1]) + (if edges[|edges| - 1] < v then 1 else 0)
  }

  /** For increasing edges, edge k lies below v exactly when k is below the digitize index. */
  lemma {:induction false} DigitizeCounts(v: real, edges: seq<real>)
    requires StrictlyIncreasing(edges)
    ensures forall k :: 0 <= k < |edges| ==> (edges[k] < v <==> k < Digitize(v, edges))
  {
    if |edges| > 0 {
      var n := |edges| - 1;
      var prefix := edges[..n];
      assert StrictlyIncreasing(prefix);
      DigitizeCounts(v, prefix);
      assert forall k :: 0 <= k < n ==> prefix[k] == edges[k];
    }
  }

  /** In range: Digitize gives b exactly when edges[b-1] < v <= edges[b]. */
  lemma DigitizeInBin(v: real, edges: seq<real>, b: nat)
    requires StrictlyIncreasing(edges)
    requires 0 < b < |edges|
    ensures Digitize(v, edges) == b <==> edges[b - 1] < v <= edges[b]
  {
    DigitizeCounts(v, edges);
  }

  /** Below the range: Digitize gives 0 exactly when v <= edges[0]. */
  lemma DigitizeBelow(v: real, edges: seq<real>)
    requires StrictlyIncreasing(edges)
    requires 0 < |edges|
    ensures Digitize(v, edges) == 0 <==> v <= edges[0]
  {
    DigitizeCounts(v, edges);
  }

  /** Above the range: Digitize gives |edges| exactly when v > edges[|edges|-1]. */
  lemma DigitizeAbove(v: real, edges: seq<real>)
    requires StrictlyIncreasing(edges)
    requires 0 < |edges|
    ensures Digitize(v, edges) == |edges| <==> edges[|edges| - 1] < v
  {
    DigitizeCounts(v, edges);
  }

  /** The worked example in the comment on the digitize call. */
  lemma DigitizeDocExample()
    ensures var bins := [0.0, 1.0, 2.5, 4.0, 10.0];
      && Digitize(0.2, bins) == 1 && Digitize(6.4, bins) == 4
      && Digitize(3.0, bins) == 3 && Digitize(1.6, bins) == 2
      && Digitize(-1.0, bins) == 0 && Digitize(100.0, bins) == 5
      && Digitize(10.0, bins) == 4
  {
    var bins := [0.0, 1.0, 2.5, 4.0, 10.0];
    assert StrictlyIncreasing(bins);
    DigitizeInBin(0.2, bins, 1);
    DigitizeInBin(6.4, bins, 4);
    DigitizeInBin(3.0, bins, 3);
    DigitizeInBin(1.6, bins, 2);
    DigitizeBelow(-1.0, bins);
    DigitizeAbove(100.0, bins);
    DigitizeInBin(10.0, bins, 4);
  }

  // ---------------------------------------------------------------------
  // Per-cell score rule (_calculate_outlier_scores)
  // ---------------------------------------------------------------------

  /** out_score_i = log2(hist_[:, i] + alpha). */
  function ScoreVector(density: seq<real>, alpha: real, log2: real -> real): (s: seq<real>)
    ensures |s| == |density|
    ensures forall b :: 0 <= b < |density| ==> s[b] == log2(density[b] + alpha)
  {
    seq(|density|, b requires 0 <= b < |density| => log2(density[b] + alpha))
  }

  /** The branch on one digitize index: in-range bins take their entry,
      values within tol bin-widths outside either end take the edge bin's
      entry, anything further out takes the least entry. Whatever the
      branch, the result is an entry of the score vector and never below
      its minimum. */
  function PickScore(binInd: nat, v: real, edges: seq<real>, outScore: seq<real>, tol: real): (r: real)
    requires 1 <= |outScore| && |edges| == |outScore| + 1
    requires binInd <= |outScore| + 1
    ensures r in outScore
    ensures Min(outScore) <= r
  {
    var nBins := |outScore|;
    if binInd == 0 then
      var dist := edges[0] - v;
      var binWidth := edges[1] - edges[0];
      if dist <= binWidth * tol then outScore[0] else Min(outScore)
    else if binInd == nBins + 1 then
      var dist := v - edges[nBins];
      var binWidth := edges[nBins] - edges[nBins - 1];
      if dist <= binWidth * tol then outScore[nBins - 1] else Min(outScore)
    else
      outScore[binInd - 1]
  }

  /** outlier_scores[j, i] for value v of feature histogram h. */
  function CellScore(v: real, h: Histogram, alpha: real, tol: real, log2: real -> real): (r: real)
    requires h.Valid()
    ensures r in ScoreVector(h.density, alpha, log2)
  {
    PickScore(Digitize(v, h.edges), v, h.edges, ScoreVector(h.density, alpha, log2), tol)
  }

  /** A value in bin b (edges[b-1] < v <= edges[b]) scores that bin's entry;
      so a value equal to an interior edge goes to the bin below it. */
  lemma CellScoreInRange(v: real, h: Histogram, alpha: real, tol: real, log2: real -> real, b: nat)
    requires h.Valid()
    requires 0 < b < |h.edges|
    requires h.edges[b - 1] < v <= h.edges[b]
    ensures CellScore(v, h, alpha, tol, log2) == log2(h.density[b - 1] + alpha)
  {
    DigitizeInBin(v, h.edges, b);
  }

  /** A value equal to interior edge b (0 < b < n_bins) scores bin b-1, not bin b. */
  lemma InteriorEdgeGoesToLowerBin(h: Histogram, alpha: real, tol: real, log2: real -> real, b: nat)
    requires h.Valid()
    requires 0 < b < |h.density|
    ensures CellScore(h.edges[b], h, alpha, tol, log2) == log2(h.density[b - 1] + alpha)
  {
    CellScoreInRange(h.edges[b], h, alpha, tol, log2, b);
  }

  /** At or below the first edge, within tol bin-widths: the first bin's entry. */
  lemma CellScoreBelowNear(v: real, h: Histogram, alpha: real, tol: real, log2: real -> real)
    requires h.Valid()
    requires v <= h.edges[0]
    requires h.edges[0] - v <= (h.edges[1] - h.edges[0]) * tol
    ensures CellScore(v, h, alpha, tol, log2) == log2(h.density[0] + alpha)
  {
    DigitizeBelow(v, h.edges);
  }

  /** The first edge itself (digitize index 0, distance 0) scores the first bin. */
  lemma FirstEdgeScoresFirstBin(h: Histogram, alpha: real, tol: real, log2: real -> real)
    requires h.Valid()
    requires 0.0 <= tol
    ensures CellScore(h.edges[0], h, alpha, tol, log2) == log2(h.density[0] + alpha)
  {
    assert 0.0 <= (h.edges[1] - h.edges[0]) * tol;
    CellScoreBelowNear(h.edges[0], h, alpha, tol, log2);
  }

  /** Below the first edge by more than tol bin-widths: the least entry. */
  lemma CellScoreBelowFar(v: real, h: Histogram, alpha: real, tol: real, log2: real -> real)
    requires h.Valid()
    requires v <= h.edges[0]
    requires h.edges[0] - v > (h.edges[1] - h.edges[0]) * tol
    ensures CellScore(v, h, alpha, tol, log2) == Min(ScoreVector(h.density, alpha, log2))
  {
    DigitizeBelow(v, h.edges);
  }

  /** Above the last edge within tol bin-widths of the last bin: the last bin's entry. */
  lemma CellScoreAboveNear(v: real, h: Histogram, alpha: real, tol: real, log2: real -> real)
    requires h.Valid()
    requires var n := |h.density|;
      && h.edges[n] < v
      && v - h.edges[n] <= (h.edges[n] - h.edges[n - 1]) * tol
    ensures CellScore(v, h, alpha, tol, log2) == log2(h.density[|h.density| - 1] + alpha)
  {
    DigitizeAbove(v, h.edges);
  }

  /** Above the last edge by more than tol bin-widths of the last bin: the least entry. */
  lemma CellScoreAboveFar(v: real, h: Histogram, alpha: real, tol: real, log2: real -> real)
    requires h.Valid()
    requires var n := |h.density|;
      && h.edges[n] < v
      && v - h.edges[n] > (h.edges[n] - h.edges[n - 1]) * tol
    ensures CellScore(v, h, alpha, tol, log2) == Min(ScoreVector(h.density, alpha, log2))
  {
    DigitizeAbove(v, h.edges);
  }

  /** Saturation: every cell score is the entry of some bin and no value,
      however extreme, scores below the least entry. */
  lemma CellScoreSaturates(v: real, h: Histogram, alpha: real, tol: real, log2: real -> real)
    requires h.Valid()
    ensures exists b :: 0 <= b < |h.density| && CellScore(v, h, alpha, tol, log2) == log2(h.density[b] + alpha)
    ensures Min(ScoreVector(h.density, alpha, log2)) <= CellScore(v, h, alpha, tol, log2)
  {
    var s := ScoreVector(h.density, alpha, log2);
    var r := CellScore(v, h, alpha, tol, log2);
    var b :| 0 <= b < |s| && s[b] == r;
  }

  /** With a strictly increasing log, score order is density order (both ways). */
  lemma ScoreOrderIsDensityOrder(density: seq<real>, alpha: real, log2: real -> real, a: nat, b: nat)
    requires StrictlyMonotone(log2)
    requires a < |density| && b < |density|
    ensures var s := ScoreVector(density, alpha, log2);
      density[a] < density[b] <==> s[a] < s[b]
  {
    if density[a] < density[b] {
      assert log2(density[a] + alpha) < log2(density[b] + alpha);
    } else if density[b] < density[a] {
      assert log2(density[b] + alpha) < log2(density[a] + alpha);
    }
  }

  /** With a strictly increasing log, the least entry is the score of the least dense bin. */
  lemma MinScoreIsLeastDensity(density: seq<real>, alpha: real, log2: real -> real)
    requires StrictlyMonotone(log2)
    requires |density| > 0
    ensures Min(ScoreVector(density, alpha, log2)) == log2(Min(density) + alpha)
  {
    var s := ScoreVector(density, alpha, log2);
    var b := ArgMin(density);
    forall k | 0 <= k < |s|
      ensures s[b] <= s[k]
    {
      if density[b] < density[k] {
        assert log2(density[b] + alpha) < log2(density[k] + alpha);
      }
    }
    var a := ArgMin(s);
    assert s[b] <= s[a];
  }

  /** The boundary policy: a value below the first edge by at most tol
      bin-widths (0.99 * tol of the width, say) scores the same as the
      midpoint of the first bin. */
  lemma WithinToleranceScoresLikeFirstBin(h: Histogram, alpha: real, tol: real, log2: real -> real, d: real)
    requires h.Valid()
    requires 0.0 <= d <= (h.edges[1] - h.edges[0]) * tol
    ensures CellScore(h.edges[0] - d, h, alpha, tol, log2)
        == CellScore((h.edges[0] + h.edges[1]) / 2.0, h, alpha, tol, log2)
        == log2(h.density[0] + alpha)
  {
    CellScoreBelowNear(h.edges[0] - d, h, alpha, tol, log2);
    CellScoreInRange((h.edges[0] + h.edges[1]) / 2.0, h, alpha, tol, log2, 1);
  }

  /** The histogram np.histogram gives for the training values
      1,2,2,3,3,3,4,4,5 in four bins [1,2), [2,3), [3,4), [4,5]: counts
      1, 2, 3, 3 over nine samples. 3.5 lies in the third bin; 10 lies far
      above and gets the least entry, which is the score of the least dense
      (first) bin. */
  function ExampleHistogram(): (h: Histogram)
    ensures h.Valid() && |h.density| == 4
  {
    Histogram([1.0 / 9.0, 2.0 / 9.0, 3.0 / 9.0, 3.0 / 9.0], [1.0, 2.0, 3.0, 4.0, 5.0])
  }

  lemma EndToEndInRange(alpha: real, log2: real -> real)
    ensures CellScore(3.5, ExampleHistogram(), alpha, 0.5, log2) == log2(3.0 / 9.0 + alpha)
  {
    var h := ExampleHistogram();
    CellScoreInRange(3.5, h, alpha, 0.5, log2, 3);
  }

  lemma EndToEndFarAbove(alpha: real, log2: real -> real)
    requires StrictlyMonotone(log2)
    ensures CellScore(10.0, ExampleHistogram(), alpha, 0.5, log2) == log2(1.0 / 9.0 + alpha)
  {
    var h := ExampleHistogram();
    CellScoreAboveFar(10.0, h, alpha, 0.5, log2);
    MinScoreIsLeastDensity(h.density, alpha, log2);
    assert Min(h.density) == 1.0 / 9.0 by {
      assert h.density[0] == 1.0 / 9.0;
    }
  }

  // ---------------------------------------------------------------------
  // Aggregation (fit / decision_function)
  // ---------------------------------------------------------------------

  /** Every feature of X has a valid histogram in hs, positionally. */
  predicate Scorable(X: seq<seq<real>>, hs: seq<Histogram>) {
    IsMatrix(X) && |X[0]| <= |hs| && forall i :: 0 <= i < |X[0]| ==> hs[i].Valid()
  }

  /** The n_samples x n_features matrix that _calculate_outlier_scores returns:
      cell [j][i] is the cell score of X[j][i] under feature i's histogram. */
  function OutlierScores(X: seq<seq<real>>, hs: seq<Histogram>, alpha: real, tol: real, log2: real -> real)
    : (m: seq<seq<real>>)
    requires Scorable(X, hs)
    ensures |m| == |X|
    ensures forall j :: 0 <= j < |X| ==> |m[j]| == |X[0]|
  {
    seq(|X|, j requires 0 <= j < |X| =>
      seq(|X[0]|, i requires 0 <= i < |X[0]| => CellScore(X[j][i], hs[i], alpha, tol, log2)))
  }

  /** Cell [j][i] of the outlier-score matrix, spelt out as the per-cell rule
      (the unfolding the scoring loop uses). */
  lemma OutlierScoresAt(X: seq<seq<real>>, hs: seq<Histogram>, alpha: real, tol: real, log2: real -> real, j: nat, i: nat)
    requires Scorable(X, hs)
    requires j < |X| && i < |X[0]|
    ensures OutlierScores(X, hs, alpha, tol, log2)[j][i]
      == PickScore(Digitize(X[j][i], hs[i].edges), X[j][i], hs[i].edges, ScoreVector(hs[i].density, alpha, log2), tol)
  {
  }

  /** Scoring is per cell: cell [j][i] depends only on the value X[j][i] and
      feature i's histogram, not on the other cells, rows or histograms. */
  lemma CellScoreIsLocal(X: seq<seq<real>>, hs: seq<Histogram>, Y: seq<seq<real>>, gs: seq<Histogram>,
                         alpha: real, tol: real, log2: real -> real, j: nat, k: nat, i: nat)
    requires Scorable(X, hs) && Scorable(Y, gs)
    requires j < |X| && k < |Y| && i < |X[0]| && i < |Y[0]|
    requires X[j][i] == Y[k][i] && hs[i] == gs[i]
    ensures OutlierScores(X, hs, alpha, tol, log2)[j][i] == OutlierScores(Y, gs, alpha, tol, log2)[k][i]
  {
  }

  /** np.sum(m, axis=1) * -1. */
  function NegatedRowSums(m: seq<seq<real>>): (s: seq<real>)
    ensures |s| == |m|
    ensures forall j :: 0 <= j < |m| ==> s[j] == -Sum(m[j])
  {
    seq(|m|, j requires 0 <= j < |m| => -Sum(m[j]))
  }

  /** The decision score of every row of X: the negated row sums of its cell scores. */
  function DecisionScores(X: seq<seq<real>>, hs: seq<Histogram>, alpha: real, tol: real, log2: real -> real)
    : (d: seq<real>)
    requires Scorable(X, hs)
    ensures |d| == |X|
  {
    NegatedRowSums(OutlierScores(X, hs, alpha, tol, log2))
  }

  /** The highest decision score a sample can get: the negated sum of the
      least entries of the features' score vectors. */
  function ScoreCeiling(hs: seq<Histogram>, nFeatures: nat, alpha: real, log2: real -> real): real
    requires nFeatures <= |hs|
    requires forall i :: 0 <= i < nFeatures ==> hs[i].Valid()
  {
    -Sum(seq(nFeatures, i requires 0 <= i < nFeatures =>
      assert hs[i].Valid(); Min(ScoreVector(hs[i].density, alpha, log2))))
  }

  /** No sample, however extreme its values, scores above the ceiling. */
  lemma DecisionScoreBounded(X: seq<seq<real>>, hs: seq<Histogram>, alpha: real, tol: real, log2: real -> real, j: nat)
    requires Scorable(X, hs)
    requires j < |X|
    ensures DecisionScores(X, hs, alpha, tol, log2)[j] <= ScoreCeiling(hs, |X[0]|, alpha, log2)
  {
    var n := |X[0]|;
    var row := OutlierScores(X, hs, alpha, tol, log2)[j];
    var floors := seq(n, i requires 0 <= i < n => Min(ScoreVector(hs[i].density, alpha, log2)));
    forall i | 0 <= i < n
      ensures floors[i] <= row[i]
    {
      CellScoreSaturates(X[j][i], hs[i], alpha, tol, log2);
    }
    SumMonotone(floors, row);
  }

  /** Scoring is per sample: a row's decision score does not depend on the
      other rows scored with it. */
  lemma DecisionScoreIsPerRow(X: seq<seq<real>>, hs: seq<Histogram>, alpha: real, tol: real, log2: real -> real, j: nat)
    requires Scorable(X, hs)
    requires j < |X|
    ensures Scorable([X[j]], hs)
    ensures DecisionScores(X, hs, alpha, tol, log2)[j] == DecisionScores([X[j]], hs, alpha, tol, log2)[0]
  {
    assert OutlierScores(X, hs, alpha, tol, log2)[j] == OutlierScores([X[j]], hs, alpha, tol, log2)[0];
  }

  // ---------------------------------------------------------------------
  // Arrays as values
  // ---------------------------------------------------------------------

  /** Column i of a 2-D array, top to bottom (`a[:, i]`). */
  function Column(a: array2<real>, i: nat): (c: seq<real>)
    reads a
    requires i < a.Length1
    ensures |c| == a.Length0
    ensures forall b :: 0 <= b < a.Length0 ==> c[b] == a[b, i]
  {
    seq(a.Length0, b requires 0 <= b < a.Length0 reads a => a[b, i])
  }

  /** A 2-D array as its sequence of rows. */
  function Rows(a: array2<real>): (m: seq<seq<real>>)
    reads a
    ensures |m| == a.Length0
    ensures forall j :: 0 <= j < a.Length0 ==> |m[j]| == a.Length1
    ensures forall j, i :: 0 <= j < a.Length0 && 0 <= i < a.Length1 ==> m[j][i] == a[j, i]
  {
    seq(a.Length0, j requires 0 <= j < a.Length0 reads a =>
      seq(a.Length1, i requires 0 <= i < a.Length1 reads a => a[j, i]))
  }

  /** An array whose every cell matches a rectangular matrix has that matrix as its rows. */
  lemma RowsAre(a: array2<real>, m: seq<seq<real>>)
    requires |m| == a.Length0
    requires forall j :: 0 <= j < |m| ==> |m[j]| == a.Length1
    requires forall j, i :: 0 <= j < a.Length0 && 0 <= i < a.Length1 ==> a[j, i] == m[j][i]
    ensures Rows(a) == m
  {
    var rows := Rows(a);
    forall j | 0 <= j < |m|
      ensures rows[j] == m[j]
    {
      assert forall i :: 0 <= i < a.Length1 ==> rows[j][i] == m[j][i];
    }
  }

  /** _calculate_outlier_scores: the per-feature, per-sample outlier scores
      of X against the histograms hs (hist_ and bin_edges_ by column), filled
      column by column into a fresh n_samples x n_features array. */
  method CalculateOutlierScores(X: seq<seq<real>>, hs: seq<Histogram>, alpha: real, tol: real, log2: real -> real)
    returns (scores: array2<real>)
    requires Scorable(X, hs)
    ensures fresh(scores)
    ensures Rows(scores) == OutlierScores(X, hs, alpha, tol, log2)
  {
    var nSamples, nFeatures := |X|, |X[0]|;
    ghost var m := OutlierScores(X, hs, alpha, tol, log2);
    scores := new real[nSamples, nFeatures]((_, _) => 0.0);
    for i := 0 to nFeatures
      invariant forall j, c :: 0 <= j < nSamples && 0 <= c < i ==> scores[j, c] == m[j][c]
    {
      ScoreFeature(scores, X, hs, alpha, tol, log2, i);
    }
    RowsAre(scores, m);
  }

  /** The body of the loop over features: digitize column i of X, build
      out_score_i, and fill column i of scores sample by sample. Other
      columns are left as they were. */
  method ScoreFeature(scores: array2<real>, X: seq<seq<real>>, hs: seq<Histogram>, alpha: real, tol: real,
                      log2: real -> real, i: nat)
    requires Scorable(X, hs) && i < |X[0]|
    requires scores.Length0 == |X| && scores.Length1 == |X[0]|
    modifies scores
    ensures forall j, c :: 0 <= j < |X| && 0 <= c < |X[0]| && c != i ==> scores[j, c] == old(scores[j, c])
    ensures forall j :: 0 <= j < |X| ==> scores[j, i] == OutlierScores(X, hs, alpha, tol, log2)[j][i]
  {
    var nSamples := |X|;
    ghost var m := OutlierScores(X, hs, alpha, tol, log2);
    var edges := hs[i].edges;
    var binInds := seq(nSamples, j requires 0 <= j < nSamples => Digitize(X[j][i], edges));
    var outScore := ScoreVector(hs[i].density, alpha, log2);
    assert hs[i].Valid();
    for j := 0 to nSamples
      invariant forall k, c :: 0 <= k < nSamples && 0 <= c < |X[0]| && c != i ==> scores[k, c] == old(scores[k, c])
      invariant forall k :: 0 <= k < j ==> scores[k, i] == m[k][i]
    {
      var score := PickScore(binInds[j], X[j][i], edges, outScore, tol);
      OutlierScoresAt(X, hs, alpha, tol, log2, j, i);
      scores[j, i] := score;
    }
  }

  // ---------------------------------------------------------------------
  // The detector
  // ---------------------------------------------------------------------

  class HBOS {
    const nBins: nat
    const alpha: real
    const tol: real
    /** Stands for np.log2. */
    const log2: real -> real

    /** hist_: n_bins x n_features densities; null until fitted. */
    var hist: array2?<real>
    /** bin_edges_: (n_bins + 1) x n_features edges; null until fitted. */
    var binEdges: array2?<real>
    /** decision_scores_: one score per training sample. */
    var decisionScores: seq<real>

    /** check_is_fitted(self, ['hist_', 'bin_edges_']). */
    predicate Fitted()
      reads this`hist, this`binEdges
    {
      hist != null && binEdges != null
    }

    /** Shapes of the fitted state, and a valid histogram in every column. */
    ghost predicate Valid()
      reads this`hist, this`binEdges, hist, binEdges
    {
      Fitted() ==>
        && hist.Length0 == nBins
        && binEdges.Length0 == nBins + 1
        && hist.Length1 == binEdges.Length1
        && forall i :: 0 <= i < hist.Length1 ==> Feature(i).Valid()
    }

    /** Feature i's histogram: column i of hist_ and of bin_edges_. */
    function Feature(i: nat): Histogram
      reads this`hist, this`binEdges, hist, binEdges
      requires Fitted() && i < hist.Length1 && i < binEdges.Length1
    {
      Histogram(Column(hist, i), Column(binEdges, i))
    }

    /** All fitted histograms, by feature position. */
    function Histograms(): (hs: seq<Histogram>)
      reads this`hist, this`binEdges, hist, binEdges
      requires Fitted() && hist.Length1 == binEdges.Length1
      ensures |hs| == hist.Length1
      ensures forall i :: 0 <= i < hist.Length1 ==> hs[i] == Feature(i)
    {
      var h: array2<real>, e: array2<real> := hist, binEdges;
      seq(h.Length1, i requires 0 <= i < h.Length1 reads h, e => Histogram(Column(h, i), Column(e, i)))
    }

    /** HBOS(n_bins, alpha, tol); check_parameter admits alpha and tol in the open interval (0, 1). */
    constructor (nBins: nat, alpha: real, tol: real, log2: real -> real)
      requires 0.0 < alpha < 1.0 && 0.0 < tol < 1.0
      ensures this.nBins == nBins && this.alpha == alpha && this.tol == tol && this.log2 == log2
      ensures !Fitted() && Valid()
    {
      this.nBins := nBins;
      this.alpha := alpha;
      this.tol := tol;
      this.log2 := log2;
      hist := null;
      binEdges := null;
      decisionScores := [];
    }

    /** HBOS() with the constructor's defaults: n_bins = 10, alpha = 0.1, tol = 0.5. */
    constructor Default(log2: real -> real)
      ensures nBins == 10 && alpha == 0.1 && tol == 0.5 && this.log2 == log2
      ensures !Fitted() && Valid()
    {
      nBins := 10;
      alpha := 0.1;
      tol := 0.5;
      this.log2 := log2;
      hist := null;
      binEdges := null;
      decisionScores := [];
    }

    /** fit(X): allocate hist_ (n_bins x n_features) and bin_edges_
        ((n_bins + 1) x n_features), fill them column by column with each
        feature's histogram, then set decision_scores_ to the negated row
        sums of the training matrix's outlier scores. histograms[i] stands
        for np.histogram(X[:, i], bins=n_bins, density=True). */
    method Fit(X: seq<seq<real>>, histograms: seq<Histogram>)
      requires IsMatrix(X) && |histograms| == |X[0]|
      requires forall i :: 0 <= i < |histograms| ==> histograms[i].Valid() && |histograms[i].density| == nBins
      modifies this
      ensures Valid() && Fitted()
      ensures fresh(hist) && fresh(binEdges)
      ensures hist.Length0 == nBins && binEdges.Length0 == nBins + 1
      ensures hist.Length1 == binEdges.Length1 == |X[0]|
      ensures Histograms() == histograms
      ensures Scorable(X, histograms)
      ensures decisionScores == DecisionScores(X, histograms, alpha, tol, log2)
    {
      var nFeatures := |X[0]|;
      var h := new real[nBins, nFeatures]((_, _) => 0.0);
      var e := new real[nBins + 1, nFeatures]((_, _) => 0.0);
      for i := 0 to nFeatures
        invariant forall c, b :: 0 <= c < i && 0 <= b < nBins ==> h[b, c] == histograms[c].density[b]
        invariant forall c, b :: 0 <= c < i && 0 <= b <= nBins ==> e[b, c] == histograms[c].edges[b]
      {
        forall b | 0 <= b < nBins {
          h[b, i] := histograms[i].density[b];
        }
        forall b | 0 <= b <= nBins {
          e[b, i] := histograms[i].edges[b];
        }
      }
      forall i | 0 <= i < nFeatures
        ensures Column(h, i) == histograms[i].density && Column(e, i) == histograms[i].edges
      {
      }
      hist, binEdges := h, e;
      assert Histograms() == histograms;
      assert Valid();
      var scores := CalculateOutlierScores(X, histograms, alpha, tol, log2);
      decisionScores := NegatedRowSums(Rows(scores));
    }

    /** decision_function(X): the negated row sums of X's outlier scores;
        fails when not fitted, and when X has more features than were
        fitted (the column lookup in bin_edges_ goes out of range). A query
        with fewer features is scored against the leading columns. */
    method DecisionFunction(X: seq<seq<real>>) returns (r: Result<seq<real>>)
      requires Valid() && IsMatrix(X)
      ensures !Fitted() ==> r == Failure(NotFitted)
      ensures Fitted() && |X[0]| > hist.Length1 ==> r == Failure(FeatureOutOfRange(hist.Length1))
      ensures Fitted() && |X[0]| <= hist.Length1 ==>
        && Scorable(X, Histograms())
        && r == Success(DecisionScores(X, Histograms(), alpha, tol, log2))
    {
      if !Fitted() {
        return Failure(NotFitted);
      }
      if |X[0]| > hist.Length1 {
        return Failure(FeatureOutOfRange(hist.Length1));
      }
      var scores := CalculateOutlierScores(X, Histograms(), alpha, tol, log2);
      r := Success(NegatedRowSums(Rows(scores)));
    }
  }

  /** Scoring the training matrix through decision_function after fit
      reproduces decision_scores_. */
  method ScoreTrainingData(d: HBOS, X: seq<seq<real>>, histograms: seq<Histogram>) returns (r: Result<seq<real>>)
    requires IsMatrix(X) && |histograms| == |X[0]|
    requires forall i :: 0 <= i < |histograms| ==> histograms[i].Valid() && |histograms[i].density| == d.nBins
    modifies d
    ensures r == Success(d.decisionScores)
  {
    d.Fit(X, histograms);
    r := d.DecisionFunction(X);
  }
}
