# Quality measures of a dimension reduction, modelled in Dafny

This project models the reference implementations that the dimension_reduction
repository keeps next to its quality-measure tests (`src/test_quality_measures.py`),
together with the contracts those tests pin on the measure API:

- the centering matrix J = I - 1 1'/N and double centering -J M J / 2;
- strain: the residual between the double-centred squared high-space distances B and
  the squared low-space distances, over the global denominator sum(B^2), both as one
  number (`old_strain`, modelled as its square) and per point (`old_point_strain`);
- point untrustworthiness: for each point, the penalty (rank - k) * 2 / G_K summed over
  its false neighbours, the indices among its k nearest low-space neighbours that are
  not among its k nearest high-space neighbours; the double loop of
  `knn_to_point_untrustworthiness` is a Dafny method proved against a column-wise
  reference definition;
- distance reconciliation (`pairwise_distance_differences`): each side is data or a
  distance matrix; distances pass through unchanged, and the difference is high - low;
- trustworthiness and continuity: one minus the sum of the point scores;
- the stub estimator whose `fit` stores its argument and whose `transform` returns it.

Exceptions become an `Error` value in a `Result` (`outcomes.dfy`); optional keyword
arguments become an `Option`. All arithmetic is exact (`real`), so float rounding is
not modelled. Matrices carry their shape, so an N x 0 or 0 x N array is representable.

Modules: `Outcomes` (errors, results, options), `Sums` (finite sums and their algebra),
`Matrices` (matrix operations, centering, double centering), `Strain`, `Distances`,
`Untrustworthiness`, `Measures`, `Estimator`.

Two facts about the code that a reader might not expect:

- Identical high and low distance matrices need not give strain 0. The code subtracts
  the squared low distances from B, the double-centred squared high distances, so equal
  inputs can leave a non-zero residual. For two points at distance 1 in both spaces, the
  square of the strain is 13 (`Strain.IdenticalDistancesLeaveResidual`).
- `old_strain` divides without a check. With all-zero high distances it computes 0/0
  (nan) when the low distances are zero too, and x/0 (inf) otherwise. The measure API
  raises ValueError in that case. The model follows the API and returns
  `Err(ZeroDenominator)`.

## Model

| member | source | states |
|---|---|---|
| Matrices.CenteringMatrix | src/test_quality_measures.py:14-21 | J is built as I_N minus the all-ones outer product divided by N, and it is a well-formed matrix |
| Matrices.CenteringMatrixEntries | src/test_quality_measures.py:14-21 | J is N x N, and entry (i, j) is 1 - 1/N on the diagonal and -1/N elsewhere |
| Matrices.CenteringMatrixSumsToZero | src/test_quality_measures.py:14-21 | every row and every column of J sums to zero (J 1 = 0 and 1' J = 0) |
| Matrices.DoublyCenter | src/test_quality_measures.py:24-34 | a non-square matrix is refused with NotSquare, and a square m x m input gives a well-formed m x m result |
| Matrices.DoublyCenteredSumsToZero | src/test_quality_measures.py:24-34 | every row and every column of -J M J / 2 sums to zero |
| Matrices.DoublyCenterZero | src/test_quality_measures.py:24-34 | double centering the zero matrix gives the zero matrix |
| Matrices.SquareEntries | src/test_quality_measures.py:110-113 | the result has the input's shape and entry (i, j) is the square of entry (i, j) |
| Matrices.TotalByColumns | src/test_quality_measures.py:40 | summing all entries row-first gives the same total as column-first |
| Matrices.TotalOfSquares | src/test_quality_measures.py:40 | the sum of squared entries is never negative, and it is zero for the zero matrix |
| Strain.Gram | src/test_quality_measures.py:38 | B exists exactly when the high distances are square, and then it has their size |
| Strain.StrainTerms | src/test_quality_measures.py:37-48 | succeeds exactly when the high distances are square, the low distances have the same shape and sum(B^2) is non-zero; each failure gives its own error; on success the denominator is positive and every row sum of the numerator is non-negative |
| Strain.StrainSquared | src/test_quality_measures.py:37-41 | the square of old_strain fails exactly when the terms fail, with the same error, and is otherwise non-negative |
| Strain.PointStrain | src/test_quality_measures.py:44-48 | one non-negative score per row, failing exactly when the global strain fails |
| Strain.PointStrainSumsToStrainSquared | src/test_quality_measures.py:37-48 | the point strains add up to the square of the global strain, because every row is divided by the same denominator |
| Strain.IdenticalDistancesLeaveResidual | src/test_quality_measures.py:37-41 | two points at distance 1 in both spaces give a squared strain of 13, not 0: the code compares B with the squared low distances, not with the low-space B |
| Strain.ZeroHighDistancesAreDegenerate | src/test_quality_measures.py:410-419 | all-zero high distances make both strain and point strain fail with ZeroDenominator |
| Distances.PairwiseDistances | src/test_quality_measures.py:136-144 | n points give an n x n matrix whose (i, j) entry is the metric of points i and j |
| Distances.Resolve | src/test_quality_measures.py:395-403 | a missing side is a MissingArgument error, a distance matrix passes through unchanged when square and is otherwise refused, and data always gives a square matrix |
| Distances.PairwiseDistanceDifferences | src/test_quality_measures.py:151-160 | a missing side is an error; on success all three matrices have the high side's square shape, distance inputs come back unchanged, and every entry of the difference is high minus low |
| Distances.DistancesPassThrough | src/test_quality_measures.py:151-160 | two square distance matrices of one size come back unchanged, with their difference |
| Distances.DataGivesSquareTriple | src/test_quality_measures.py:136-144 | coordinate inputs with n points each give three n x n matrices |
| Untrustworthiness.SetPenaltyRemove | src/test_quality_measures.py:67-68 | the sum over the false neighbour set may take out any element first, so the order in which the set is visited does not change the score |
| Untrustworthiness.ScoreMatchesReference | src/test_quality_measures.py:65-69 | the sum over set(low) - set(high) equals the reference score that scans the rank row column by column |
| Untrustworthiness.KnnToPointUntrustworthiness | src/test_quality_measures.py:51-70 | fails with MissingArgument when n_neighbors or high_rank is missing; otherwise returns one score per low-space row, in row order, each the penalty sum over that row's distinct false neighbours, and equal to the reference scores |
| Untrustworthiness.NoFalseNeighboursScoresZero | src/test_quality_measures.py:65-69 | a point whose low-space neighbours are all high-space neighbours scores 0 |
| Untrustworthiness.IdenticalNeighboursScoreZero | src/test_quality_measures.py:61-70 | equal neighbour lists in both spaces give every point the score 0 |
| Untrustworthiness.DuplicateNeighbourCountedOnce | src/test_quality_measures.py:65 | repeating a low-space neighbour does not change the score |
| Untrustworthiness.ScoreNonNegative | src/test_quality_measures.py:67-68 | with a positive G_K and false neighbours of high-space rank at least k, the score is non-negative |
| Untrustworthiness.ScoresFromDistances | src/test_quality_measures.py:89-96 | ranking, taking neighbours and scoring reconciled distances gives one score per point |
| Untrustworthiness.PointUntrustworthinessOf | src/test_quality_measures.py:73-96 | a failed distance reconciliation is reported first, then a missing n_neighbors as MissingArgument; otherwise there is one score per point |
| Untrustworthiness.OldPointUntrustworthiness | src/test_quality_measures.py:73-96 | the method that reconciles, checks n_neighbors and runs the scoring loop produces exactly the outcome PointUntrustworthinessOf describes |
| Measures.OneMinusTotal | src/test_quality_measures.py:282-290 | a measure fails when its point scores fail, and otherwise the measure plus the sum of the scores is 1 |
| Measures.PointDiscontinuityOf | src/test_quality_measures.py:325-333 | the same error order as point untrustworthiness, and one score per point |
| Measures.Trustworthiness | src/test_quality_measures.py:247-290 | given point scores p it is 1 - sum(p); given an embedding it fails exactly when the point untrustworthiness fails, with the same error, and is otherwise 1 minus the sum of the point untrustworthiness scores |
| Measures.Continuity | src/test_quality_measures.py:325-333 | given point scores p it is 1 - sum(p); given an embedding it fails exactly when the point discontinuity fails, with the same error, and is otherwise 1 minus the sum of the point discontinuity scores |
| Measures.ContinuityPathsAgree | src/test_quality_measures.py:325-333 | continuity of an embedding equals continuity of that embedding's point discontinuity scores |
| Measures.TrustworthinessPathsAgree | src/test_quality_measures.py:247-255 | trustworthiness of an embedding equals trustworthiness of that embedding's point untrustworthiness scores |
| Measures.ZeroScoresTotalOne | src/test_quality_measures.py:282-290 | all-zero point scores give the measure 1 |
| Measures.SelfEmbeddingFullyTrustworthy | src/test_quality_measures.py:61-70 | an embedding compared with itself has trustworthiness exactly 1 |
| Measures.SelfEmbeddingFullyContinuous | src/test_quality_measures.py:325-333 | an embedding compared with itself has continuity exactly 1 |
| Measures.NonNegativeScoresAtMostOne | src/test_quality_measures.py:256-257 | non-negative point scores keep the measure at or below 1 |
| Estimator.StubEstimator.constructor | src/test_quality_measures.py:99 | a new estimator holds no value |
| Estimator.StubEstimator.Fit | src/test_quality_measures.py:100-101 | fit(X) stores X and nothing else |
| Estimator.StubEstimator.Transform | src/test_quality_measures.py:103-104 | transform ignores its argument and returns the stored value, or fails before any fit |
| Estimator.RefitReplaces | src/test_quality_measures.py:99-104 | after fit(x), transform(y) returns x; a later fit(z) replaces x, so transform returns z |

## Left out

- The final square root of `old_strain` (src/test_quality_measures.py:40): it cannot be computed exactly, so `StrainSquared` is the square of the strain.
- Float behaviour: rounding, nan and infinities, and the tests that compare old and new implementations by exact float64 equality. The model uses exact rationals.
- G_K, `_trustworthiness_normalizating_factor`, is not part of this model. It enters as a non-zero real parameter `gK`.
- `rank_matrix`, `slower_rank_matrix` and `rank_to_knn` are not part of this model. They enter as function parameters. The model relies only on their shapes: n rows of n ranks for an n x n distance matrix, and n rows of column indices below n.
- The metric computation (`metric='euclidean'`) is not part of this model. It enters as a function parameter `Metric`.
- Measures.PointDiscontinuityOf: `point_discontinuity` is not part of this model. It is modelled as the untrustworthiness computation with the roles of the two spaces exchanged.
- Negative numpy indices, which wrap around, are not modelled. Every kNN entry must index its rank row directly, which is a precondition of `KnnToPointUntrustworthiness`.
- Distances.PairwiseDistanceDifferences: numpy broadcasting between a 1 x 1 array and a larger one is not modelled. Matrices of different shapes are a ShapeMismatch error.
- Strain.StrainTerms: `old_strain` and `old_point_strain` never check the shape of the low distances, so numpy broadcasts a 1 x 1, 1 x n or n x 1 low matrix against the n x n B. The model returns ShapeMismatch for every low matrix whose shape differs from B's.
- Strain.StrainTerms: the denominator is shown to be positive on success. The converse, that sum(B^2) = 0 only for B = 0, is not stated.
- The bounds on trustworthiness and continuity are not modelled in general, because they depend on the G_K formula. Only `Measures.NonNegativeScoresAtMostOne` is stated.
- The order of a Python set's iteration is not modelled. The method picks elements in any order, and `SetPenaltyRemove` shows that the exact sum does not depend on it.
- Not modelled, because they are I/O or outside the measures: the one-nearest-neighbour error, the measure and scorer registries, the sklearn `BaseEstimator` base class, logging, the Hypothesis strategies and test harness, and `src/data/datasets.py` (downloads, hashing, unpacking and file readers).
