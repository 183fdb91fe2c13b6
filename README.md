# HBOS scoring engine in Dafny

This project models the scoring engine of the histogram-based outlier
detector (HBOS) of `pyod/models/hbos.py` and proves properties of it.

- A feature's histogram is a `Histogram(density, edges)`: `n_bins`
  densities and `n_bins + 1` strictly increasing edges.
- A query value is placed by `np.digitize(v, edges, right=True)`. This is
  `Digitize`, the number of edges strictly below `v`: 0 at or below the
  first edge, `b` when `edges[b-1] < v <= edges[b]`, `n_bins + 1` above the
  last edge.
- A feature's score vector is `log2(hist_[:, i] + alpha)` (`ScoreVector`).
  The per-cell rule (`PickScore`, `CellScore`) gives an in-range value its
  bin's entry. A value outside the range by at most `tol` times the width of
  the edge bin gets that edge bin's entry. A value further out gets the
  least entry.
- `CalculateOutlierScores` fills a fresh `n_samples x n_features` array
  column by column, as the source's nested loops do.
- The detector is the class `HBOS`. Its fields `hist` and `binEdges` are
  the 2-D arrays `hist_` and `bin_edges_`, and they are `null` until
  fitted. `Fit` allocates and fills both arrays column by column, then sets
  `decisionScores` to the negated row sums of the training scores.
  `DecisionFunction` applies the same negated row sum to a query matrix.

Behaviour of the code a caller might not expect, which the model follows:

- A query matrix whose feature count differs from the fitted one is not
  rejected as a whole. With fewer features, the code scores them against
  the leading fitted columns. With more features, the column lookup
  `bin_edges_[:, i]` fails once `i` passes the fitted columns.
  `DecisionFunction` models both cases: the second returns
  `Failure(FeatureOutOfRange(n))`.
- The constructor does not validate `n_bins`.
- The class docstring (`pyod/models/hbos.py:34`) gives 0.1 as the default
  `tol`. The constructor (`pyod/models/hbos.py:48`) uses 0.5, and the
  model's `Default` constructor uses 0.5 too.

`np.histogram` and `np.log2` are not part of this model. `Fit` takes the
per-feature histograms as inputs. `log2` is a `real -> real` parameter of
the detector. Lemmas about score order assume it is strictly increasing.
All values are Dafny `real`s.

## Model

| member | source | states |
|---|---|---|
| `Hbos.Digitize` | pyod/models/hbos.py:113-114 | the bin index of a value lies in `[0, n_bins + 1]` (at most one more than the number of bins) |
| `Hbos.DigitizeCounts` | pyod/models/hbos.py:106-114 | for increasing edges, edge `k` is below `v` exactly when `k` is below the digitize index |
| `Hbos.DigitizeInBin` | pyod/models/hbos.py:106-114 | index `b` (0 < b <= n_bins) exactly when `edges[b-1] < v <= edges[b]` (right-closed bins) |
| `Hbos.DigitizeBelow` | pyod/models/hbos.py:122-124 | index 0 exactly when `v <= edges[0]`, so the first edge itself is index 0 |
| `Hbos.DigitizeAbove` | pyod/models/hbos.py:135-137 | index `n_bins + 1` exactly when `v` exceeds the last edge |
| `Hbos.DigitizeDocExample` | pyod/models/hbos.py:108-111 | the worked digitize example in the source comment yields indices 1, 4, 3, 2, 0, 5, 4 |
| `Hbos.Min` | pyod/models/hbos.py:133 | `np.min(out_score_i)` is an entry of the vector and no entry is smaller |
| `Hbos.ScoreVector` | pyod/models/hbos.py:118 | definition of `out_score_i`: one entry `log2(hist[b] + alpha)` per bin |
| `Hbos.PickScore` | pyod/models/hbos.py:122-148 | on every branch the cell score is an entry of `out_score_i` and is at least its minimum |
| `Hbos.CellScore` | pyod/models/hbos.py:113-148 | the per-cell rule: digitize the value, then take the branch; the result is always one of the feature's bin scores |
| `Hbos.CellScoreInRange` | pyod/models/hbos.py:147-148 | a value with `edges[b-1] < v <= edges[b]` scores `log2(hist[b-1] + alpha)` |
| `Hbos.InteriorEdgeGoesToLowerBin` | pyod/models/hbos.py:113-148 | a value equal to an interior edge `b` scores bin `b-1`, the bin below it |
| `Hbos.CellScoreBelowNear` | pyod/models/hbos.py:124-131 | at or below the first edge, within `tol` times the first bin's width: the first bin's score |
| `Hbos.FirstEdgeScoresFirstBin` | pyod/models/hbos.py:124-131 | the first edge itself (index 0, distance 0) scores the first bin's entry |
| `Hbos.CellScoreBelowFar` | pyod/models/hbos.py:132-133 | below the first edge by more than `tol` times the first bin's width: the minimum score |
| `Hbos.CellScoreAboveNear` | pyod/models/hbos.py:137-144 | above the last edge, within `tol` times the last bin's width: the last bin's score |
| `Hbos.CellScoreAboveFar` | pyod/models/hbos.py:145-146 | above the last edge by more than `tol` times the last bin's width: the minimum score |
| `Hbos.CellScoreSaturates` | pyod/models/hbos.py:118-148 | every cell score equals some bin's `log2(hist[b] + alpha)` and no value, however extreme, scores below the minimum |
| `Hbos.ScoreOrderIsDensityOrder` | pyod/models/hbos.py:118 | with a strictly increasing log, one bin's score is below another's exactly when its density is |
| `Hbos.MinScoreIsLeastDensity` | pyod/models/hbos.py:118 | with a strictly increasing log, the minimum score is the score of the least dense bin |
| `Hbos.WithinToleranceScoresLikeFirstBin` | pyod/models/hbos.py:124-131 | a value below the first edge by at most `tol` bin-widths (such as 0.99 `tol`) scores the same as the first bin's midpoint |
| `Hbos.EndToEndInRange` | pyod/models/hbos.py:113-148 | for edges 1..5 and densities 1/9, 2/9, 3/9, 3/9 (what `np.histogram` gives for 1,2,2,3,3,3,4,4,5), the value 3.5 scores the third bin |
| `Hbos.EndToEndFarAbove` | pyod/models/hbos.py:145-146 | for the same histogram, the value 10 lies far above the last edge and scores the least dense (first) bin |
| `Hbos.OutlierScores` | pyod/models/hbos.py:102-104 | the score matrix has `n_samples` rows of `n_features` cells |
| `Hbos.CellScoreIsLocal` | pyod/models/hbos.py:113-148 | scoring is per cell: two score matrices agree at a cell of feature `i` whenever the two values there and the two histograms of feature `i` agree, whatever the other cells, rows and histograms |
| `Hbos.NegatedRowSums` | pyod/models/hbos.py:79 | definition of `np.sum(outlier_scores, axis=1) * -1`: one entry per row, the negated sum of that row |
| `Hbos.DecisionScores` | pyod/models/hbos.py:87-89 | one decision score per row of the query matrix |
| `Hbos.DecisionScoreBounded` | pyod/models/hbos.py:76-79 | no sample's decision score exceeds the negated sum of the features' minimum scores |
| `Hbos.DecisionScoreIsPerRow` | pyod/models/hbos.py:87-89 | a row's decision score does not depend on the other rows scored with it |
| `Hbos.CalculateOutlierScores` | pyod/models/hbos.py:91-150 | returns a fresh `n_samples x n_features` array whose rows are exactly the per-cell scores |
| `Hbos.ScoreFeature` | pyod/models/hbos.py:113-148 | one pass of the feature loop: column `i` becomes the per-cell scores of feature `i`, other columns unchanged |
| `Hbos.HBOS.Fitted` | pyod/models/hbos.py:84 | definition of `check_is_fitted(self, ['hist_', 'bin_edges_'])`: both arrays are present |
| `Hbos.HBOS.constructor` | pyod/models/hbos.py:48-56 | stores `n_bins`, `alpha`, `tol`; the detector starts unfitted |
| `Hbos.HBOS.Default` | pyod/models/hbos.py:48 | defaults `n_bins = 10`, `alpha = 0.1`, `tol = 0.5`; unfitted |
| `Hbos.HBOS.Fit` | pyod/models/hbos.py:58-81 | fresh `hist_` of `n_bins` rows and `bin_edges_` of `n_bins + 1` rows, one column per feature, holding exactly the given histograms (nothing left from an earlier fit); `decision_scores_` is the negated row sums of the training scores |
| `Hbos.HBOS.DecisionFunction` | pyod/models/hbos.py:83-89 | not fitted: failure; more features than fitted: failure; otherwise the negated row sums of the query's cell scores, with the fitted state unchanged |
| `Hbos.ScoreTrainingData` | pyod/models/hbos.py:76-89 | after fit, scoring the training matrix through decision_function yields `decision_scores_` |

## Left out

- `np.histogram` is not part of this model. This covers edge placement by
  float linspace, widening the range of a constant feature, and density
  normalisation. `Fit` takes each feature's histogram as an input with
  valid shape: `n_bins >= 1` densities, increasing edges, non-negative
  densities.
- Hbos.HBOS.Fit: does not state that `histograms[i]` is the histogram of
  `X[:, i]`, because how `np.histogram` derives it is not modelled.
- Hbos.InteriorEdgeGoesToLowerBin: `np.histogram` counts a value on an
  interior edge in the upper bin (its bins are half-open `[a, b)`), but
  `digitize(..., right=True)` at lines 113-114 scores it with the lower
  bin. Training value 2 in the worked histogram is counted in `[2,3)`
  (density 2/9) but gets the score of `(1,2]` (density 1/9). The model
  follows the scoring code; because histograms are inputs, it does not
  show the mismatch.
- `np.log2` is a parameter. Only the lemmas about score order require it to
  be strictly increasing.
- The check at lines 73-74 that the density mass is `np.isclose` to 1 is
  left out: it is a floating-point tolerance test.
- Floating point in general: values are exact reals, so there is no
  rounding, NaN or infinity.
- `check_parameter` is not modelled as a raised error. Its demand that
  `alpha` and `tol` lie in the open interval (0, 1) is the constructor's
  precondition.
- `n_bins < 1`: `np.histogram` raises for it, so no valid histogram exists
  and `Fit`'s precondition cannot be met.
- `check_array` is left out: matrices are taken as already validated
  (`IsMatrix`: at least one sample and one feature, rectangular).
- `check_is_fitted` is modelled only as the `Fitted()` test on the two
  arrays, which yields a `NotFitted` failure.
- `_set_n_classes`, `contamination` and `_process_decision_scores` are
  left out. They are estimator plumbing (threshold and labels).
- Hbos.CalculateOutlierScores: takes the fitted histograms as a value
  argument instead of reading `self.hist_` and `self.bin_edges_`. The
  callers pass the detector's current columns.
- `n_bins` reassigned after `fit`: the scoring code reads `self.n_bins`
  (lines 137 and 144), which could then disagree with the row count of
  `hist_`. In the model `nBins` is a constant and `Valid()` ties it to
  `hist.Length0`, so that case is not represented.
