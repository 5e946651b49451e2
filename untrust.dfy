/** Point untrustworthiness: for every point, the penalty its false neighbours carry.
    A false neighbour of point i is an index among its low-space nearest neighbours that
    is not among its high-space nearest neighbours; it costs (rank_i(j) - k) * 2 / G_K,
    where rank_i(j) is j's rank in row i of the high-space rank matrix and k the number
    of neighbours. */
module Untrustworthiness {
  import opened Outcomes
  import opened Sums
  import opened Matrices
  import opened Distances

  /** The distinct indices of a neighbour row, as `set(row)` builds them. */
  function Members(row: seq<int>): (m: set<int>)
    ensures forall j :: j in m <==> j in row
  {
    set j | j in row
  }

  /** The false neighbours of a point: `set(low).difference(set(high))`. */
  function FalseNeighbours(lowRow: seq<int>, highRow: seq<int>): set<int>
  {
    Members(lowRow) - Members(highRow)
  }

  /** Every entry of a neighbour row indexes a column of the rank row. */
  predicate RowFits(row: seq<int>, rankRow: seq<int>)
  {
    forall t | 0 <= t < |row| :: 0 <= row[t] < |rankRow|
  }

  /** Every index in s indexes a column of the rank row. */
  predicate Indexes(rankRow: seq<int>, s: set<int>)
  {
    forall j | j in s :: 0 <= j < |rankRow|
  }

  /** What the loop over rows needs: a high-space neighbour row and a rank row for every
      low-space row, and low-space neighbours that index their rank row. */
  predicate NeighbourShape(highKnn: seq<seq<int>>, lowKnn: seq<seq<int>>, highRank: seq<seq<int>>)
  {
    |lowKnn| <= |highKnn| && |lowKnn| <= |highRank| &&
    forall i | 0 <= i < |lowKnn| :: RowFits(lowKnn[i], highRank[i])
  }

  /** The cost of one false neighbour j of a point whose high-space rank row is rankRow. */
  function Penalty(rankRow: seq<int>, j: int, k: int, gK: real): real
    requires 0 <= j < |rankRow| && gK != 0.0
  {
    ((rankRow[j] - k) * 2) as real / gK
  }

  // ------------------------------------------------------------ the sum over a set

  lemma NonEmptyHasMember(s: set<int>)
    requires s != {}
    ensures exists x :: x in s
  {
    if forall x :: x !in s {
      assert false;
    }
  }

  ghost function Pick(s: set<int>): (j: int)
    requires s != {}
    ensures j in s
  {
    NonEmptyHasMember(s);
    var x :| x in s; x
  }

  /** The penalties of the indices in s, summed in whatever order the set yields them. */
  ghost function SetPenalty(s: set<int>, rankRow: seq<int>, k: int, gK: real): real
    requires Indexes(rankRow, s) && gK != 0.0
    decreases s
  {
    if s == {} then 0.0
    else
      var j := Pick(s);
      Penalty(rankRow, j, k, gK) + SetPenalty(s - {j}, rankRow, k, gK)
  }

  /** Any element may be taken out first: the set sum does not depend on the order. */
  lemma {:induction false} SetPenaltyRemove(s: set<int>, y: int, rankRow: seq<int>, k: int, gK: real)
    requires Indexes(rankRow, s) && gK != 0.0 && y in s
    ensures SetPenalty(s, rankRow, k, gK) == Penalty(rankRow, y, k, gK) + SetPenalty(s - {y}, rankRow, k, gK)
    decreases s
  {
    var x := Pick(s);
    if y != x {
      SetPenaltyRemove(s - {x}, y, rankRow, k, gK);
      SetPenaltyRemove(s - {y}, x, rankRow, k, gK);
      assert s - {x} - {y} == s - {y} - {x};
    }
  }

  // ------------------------------------------------------- the column-wise reference

  /** What column j of the rank row contributes to the score: its penalty when j is a
      low-space neighbour that is not a high-space neighbour, and nothing otherwise. */
  function ColumnPenalty(lowRow: seq<int>, highRow: seq<int>, rankRow: seq<int>, j: nat, k: int, gK: real): real
    requires j < |rankRow| && gK != 0.0
  {
    if j in lowRow && j !in highRow then Penalty(rankRow, j, k, gK) else 0.0
  }

  function ColumnPenalties(lowRow: seq<int>, highRow: seq<int>, rankRow: seq<int>, k: int, gK: real): (r: seq<real>)
    requires gK != 0.0
    ensures |r| == |rankRow|
    ensures forall j | 0 <= j < |rankRow| :: r[j] == ColumnPenalty(lowRow, highRow, rankRow, j, k, gK)
  {
    seq(|rankRow|, j requires 0 <= j < |rankRow| => ColumnPenalty(lowRow, highRow, rankRow, j, k, gK))
  }

  /** The score of one point, scanning the columns of its rank row in order. */
  function ReferenceScore(lowRow: seq<int>, highRow: seq<int>, rankRow: seq<int>, k: int, gK: real): real
    requires gK != 0.0
  {
    Sum(ColumnPenalties(lowRow, highRow, rankRow, k, gK))
  }

  /** The point scores of every low-space row, in row order. */
  function PointUntrustworthiness(highKnn: seq<seq<int>>, lowKnn: seq<seq<int>>, k: int,
                                  highRank: seq<seq<int>>, gK: real): (r: seq<real>)
    requires gK != 0.0 && NeighbourShape(highKnn, lowKnn, highRank)
  {
    seq(|lowKnn|, i requires 0 <= i < |lowKnn| => ReferenceScore(lowKnn[i], highKnn[i], highRank[i], k, gK))
  }

  lemma FalseNeighboursIndexed(lowRow: seq<int>, highRow: seq<int>, rankRow: seq<int>)
    requires RowFits(lowRow, rankRow)
    ensures Indexes(rankRow, FalseNeighbours(lowRow, highRow))
  {
    forall j | j in FalseNeighbours(lowRow, highRow) ensures 0 <= j < |rankRow| {
      var t :| 0 <= t < |lowRow| && lowRow[t] == j;
    }
  }

  lemma {:induction false} PrefixScore(lowRow: seq<int>, highRow: seq<int>, rankRow: seq<int>, k: int, gK: real, n: nat)
    requires RowFits(lowRow, rankRow) && gK != 0.0 && n <= |rankRow|
    ensures var below := set j | j in FalseNeighbours(lowRow, highRow) && j < n;
      Indexes(rankRow, below) &&
      SetPenalty(below, rankRow, k, gK) == Sum(ColumnPenalties(lowRow, highRow, rankRow, k, gK)[..n])
  {
    var d := FalseNeighbours(lowRow, highRow);
    FalseNeighboursIndexed(lowRow, highRow, rankRow);
    var terms := ColumnPenalties(lowRow, highRow, rankRow, k, gK);
    if n == 0 {
      var below := set j | j in d && j < 0;
      assert below == {};
    } else {
      var m := n - 1;
      PrefixScore(lowRow, highRow, rankRow, k, gK, m);
      var below := set j | j in d && j < n;
      var prev := set j | j in d && j < m;
      assert terms[..n][..m] == terms[..m];
      assert Sum(terms[..n]) == Sum(terms[..m]) + terms[m];
      if m in d {
        assert below - {m} == prev;
        SetPenaltyRemove(below, m, rankRow, k, gK);
      } else {
        assert below == prev;
      }
    }
  }

  /** The set sum over the false neighbours agrees with the column-wise reference score. */
  lemma ScoreMatchesReference(lowRow: seq<int>, highRow: seq<int>, rankRow: seq<int>, k: int, gK: real)
    requires RowFits(lowRow, rankRow) && gK != 0.0
    ensures Indexes(rankRow, FalseNeighbours(lowRow, highRow))
    ensures SetPenalty(FalseNeighbours(lowRow, highRow), rankRow, k, gK) == ReferenceScore(lowRow, highRow, rankRow, k, gK)
  {
    var d := FalseNeighbours(lowRow, highRow);
    FalseNeighboursIndexed(lowRow, highRow, rankRow);
    PrefixScore(lowRow, highRow, rankRow, k, gK, |rankRow|);
    assert (set j | j in d && j < |rankRow|) == d;
    var terms := ColumnPenalties(lowRow, highRow, rankRow, k, gK);
    assert terms[..|rankRow|] == terms;
  }

  // ------------------------------------------------------------------ the loop

  /** `knn_to_point_untrustworthiness`: one score per low-space row, in row order, each the
      sum of the penalties of that row's false neighbours. gK stands for G_K, the
      normalising factor computed from n_neighbors and the number of high-space rows. */
  method KnnToPointUntrustworthiness(highKnn: seq<seq<int>>, lowKnn: seq<seq<int>>, nNeighbors: Option<int>,
                                     highRank: Option<seq<seq<int>>>, gK: real)
    returns (r: Result<seq<real>>)
    requires gK != 0.0
    requires highRank.Some? ==> NeighbourShape(highKnn, lowKnn, highRank.value)
    ensures nNeighbors.None? || highRank.None? ==> r == Err(MissingArgument)
    ensures nNeighbors.Some? && highRank.Some? ==> r.Ok? && |r.value| == |lowKnn|
    ensures r.Ok? ==> forall i | 0 <= i < |lowKnn| ::
      Indexes(highRank.value[i], FalseNeighbours(lowKnn[i], highKnn[i])) &&
      r.value[i] == SetPenalty(FalseNeighbours(lowKnn[i], highKnn[i]), highRank.value[i], nNeighbors.value, gK)
    ensures r.Ok? ==> r.value == PointUntrustworthiness(highKnn, lowKnn, nNeighbors.value, highRank.value, gK)
  {
    if nNeighbors.None? || highRank.None? {
      return Err(MissingArgument);
    }
    var k := nNeighbors.value;
    var rank := highRank.value;
    var pointScores: seq<real> := [];
    var i := 0;
    while i < |lowKnn|
      invariant 0 <= i <= |lowKnn|
      invariant |pointScores| == i
      invariant forall p | 0 <= p < i ::
        Indexes(rank[p], FalseNeighbours(lowKnn[p], highKnn[p])) &&
        pointScores[p] == SetPenalty(FalseNeighbours(lowKnn[p], highKnn[p]), rank[p], k, gK) &&
        pointScores[p] == ReferenceScore(lowKnn[p], highKnn[p], rank[p], k, gK)
    {
      var low := lowKnn[i];
      var trustIndices := Members(low) - Members(highKnn[i]);
      FalseNeighboursIndexed(low, highKnn[i], rank[i]);
      var score := 0.0;
      var rest := trustIndices;
      while rest != {}
        invariant rest <= trustIndices
        invariant score + SetPenalty(rest, rank[i], k, gK) == SetPenalty(trustIndices, rank[i], k, gK)
        decreases rest
      {
        NonEmptyHasMember(rest);
        var j :| j in rest;
        SetPenaltyRemove(rest, j, rank[i], k, gK);
        score := score + Penalty(rank[i], j, k, gK);
        rest := rest - {j};
      }
      ScoreMatchesReference(low, highKnn[i], rank[i], k, gK);
      pointScores := pointScores + [score];
      i := i + 1;
    }
    return Ok(pointScores);
  }

  // ------------------------------------------------------------- properties

  /** A point whose low-space neighbours are all high-space neighbours scores 0. */
  lemma NoFalseNeighboursScoresZero(lowRow: seq<int>, highRow: seq<int>, rankRow: seq<int>, k: int, gK: real)
    requires gK != 0.0
    requires forall t | 0 <= t < |lowRow| :: lowRow[t] in highRow
    ensures ReferenceScore(lowRow, highRow, rankRow, k, gK) == 0.0
  {
    SumOfZeros(ColumnPenalties(lowRow, highRow, rankRow, k, gK));
  }

  /** Identical neighbour rows in both spaces give every point the score 0. */
  lemma IdenticalNeighboursScoreZero(knn: seq<seq<int>>, k: int, highRank: seq<seq<int>>, gK: real)
    requires gK != 0.0 && NeighbourShape(knn, knn, highRank)
    ensures forall i | 0 <= i < |knn| :: PointUntrustworthiness(knn, knn, k, highRank, gK)[i] == 0.0
  {
    forall i | 0 <= i < |knn| ensures PointUntrustworthiness(knn, knn, k, highRank, gK)[i] == 0.0 {
      NoFalseNeighboursScoresZero(knn[i], knn[i], highRank[i], k, gK);
    }
  }

  /** Listing a low-space neighbour twice does not change the score: it is counted once. */
  lemma DuplicateNeighbourCountedOnce(lowRow: seq<int>, highRow: seq<int>, rankRow: seq<int>, x: int, k: int, gK: real)
    requires gK != 0.0 && x in lowRow
    ensures ReferenceScore(lowRow + [x], highRow, rankRow, k, gK) == ReferenceScore(lowRow, highRow, rankRow, k, gK)
  {
    var a := ColumnPenalties(lowRow + [x], highRow, rankRow, k, gK);
    var b := ColumnPenalties(lowRow, highRow, rankRow, k, gK);
    forall j | 0 <= j < |rankRow| ensures a[j] == b[j] {
      assert (j in lowRow + [x]) == (j in lowRow);
    }
    assert a == b;
  }

  /** With a positive G_K and false neighbours ranked at least k in the high space, the
      score of a point is non-negative. */
  lemma ScoreNonNegative(lowRow: seq<int>, highRow: seq<int>, rankRow: seq<int>, k: int, gK: real)
    requires gK > 0.0
    requires forall j | 0 <= j < |rankRow| && j in lowRow && j !in highRow :: rankRow[j] >= k
    ensures ReferenceScore(lowRow, highRow, rankRow, k, gK) >= 0.0
  {
    var terms := ColumnPenalties(lowRow, highRow, rankRow, k, gK);
    forall j | 0 <= j < |rankRow| ensures terms[j] >= 0.0 {
      if j in lowRow && j !in highRow {
        RatioNonNegative(((rankRow[j] - k) * 2) as real, gK);
      }
    }
    SumNonNegative(terms);
  }

  // ------------------------------------------------- from distances to scores

  /** The shape `rank_matrix` gives a square distance matrix of size n: n rows of n ranks. */
  predicate IsRankOfSize(rank: seq<seq<int>>, n: nat)
  {
    |rank| == n && forall i | 0 <= i < n :: |rank[i]| == n
  }

  /** The shape `rank_to_knn` gives n rows of ranks: n rows of column indices below n. */
  predicate IsKnnOfSize(knn: seq<seq<int>>, n: nat)
  {
    |knn| == n && forall i | 0 <= i < n :: forall t | 0 <= t < |knn[i]| :: 0 <= knn[i][t] < n
  }

  /** The contract this model relies on from `rank_matrix` and `rank_to_knn`. */
  ghost predicate RankingShapes(rankMatrix: Matrix -> seq<seq<int>>, rankToKnn: (seq<seq<int>>, int) -> seq<seq<int>>)
  {
    (forall d: Matrix | d.Valid() && d.IsSquare() :: IsRankOfSize(rankMatrix(d), d.rows)) &&
    (forall rank: seq<seq<int>>, k: int | IsRankOfSize(rank, |rank|) :: IsKnnOfSize(rankToKnn(rank, k), |rank|))
  }

  /** The scores of reconciled distances: rank both sides, take k nearest neighbours on
      both, and score the low-space neighbours against the high-space ones. */
  function ScoresFromDistances(d: Reconciled, k: int, rankMatrix: Matrix -> seq<seq<int>>,
                               rankToKnn: (seq<seq<int>>, int) -> seq<seq<int>>, gK: real): (r: seq<real>)
    requires d.high.Valid() && d.high.IsSquare() && d.low.Valid() && SameShape(d.low, d.high)
    requires RankingShapes(rankMatrix, rankToKnn) && gK != 0.0
    ensures |r| == d.high.rows
  {
    var highRank := rankMatrix(d.high);
    var lowRank := rankMatrix(d.low);
    assert IsRankOfSize(highRank, d.high.rows) && IsRankOfSize(lowRank, d.high.rows);
    var highKnn := rankToKnn(highRank, k);
    var lowKnn := rankToKnn(lowRank, k);
    assert IsKnnOfSize(highKnn, d.high.rows) && IsKnnOfSize(lowKnn, d.high.rows);
    PointUntrustworthiness(highKnn, lowKnn, k, highRank, gK)
  }

  /** The outcome `old_point_untrustworthiness` specifies: a failed reconciliation of the
      distances is reported first, a missing n_neighbors next, and otherwise the point
      scores of the reconciled distances. */
  function PointUntrustworthinessOf(high: Side, low: Side, metric: Metric, nNeighbors: Option<int>,
                                    rankMatrix: Matrix -> seq<seq<int>>,
                                    rankToKnn: (seq<seq<int>>, int) -> seq<seq<int>>, gK: real): (r: Result<seq<real>>)
    requires high.Valid() && low.Valid() && gK != 0.0
    requires RankingShapes(rankMatrix, rankToKnn)
    ensures high.Absent? || low.Absent? ==> r.Err?
    ensures PairwiseDistanceDifferences(high, low, metric).Err? ==>
              r == Err(PairwiseDistanceDifferences(high, low, metric).error)
    ensures PairwiseDistanceDifferences(high, low, metric).Ok? ==> (r.Ok? <==> nNeighbors.Some?)
    ensures r.Err? && PairwiseDistanceDifferences(high, low, metric).Ok? ==> r.error == MissingArgument
    ensures r.Ok? ==> |r.value| == PairwiseDistanceDifferences(high, low, metric).value.high.rows
  {
    match PairwiseDistanceDifferences(high, low, metric)
    case Err(e) => Err(e)
    case Ok(d) =>
      if nNeighbors.None? then Err(MissingArgument)
      else Ok(ScoresFromDistances(d, nNeighbors.value, rankMatrix, rankToKnn, gK))
  }

  /** `old_point_untrustworthiness`: reconcile the distances, check n_neighbors, rank both
      sides, take k nearest neighbours and score them with the loop above. The rank and
      kNN computations are parameters, described by the shapes they produce. */
  method OldPointUntrustworthiness(high: Side, low: Side, metric: Metric, nNeighbors: Option<int>,
                                   rankMatrix: Matrix -> seq<seq<int>>,
                                   rankToKnn: (seq<seq<int>>, int) -> seq<seq<int>>, gK: real)
    returns (r: Result<seq<real>>)
    requires high.Valid() && low.Valid() && gK != 0.0
    requires RankingShapes(rankMatrix, rankToKnn)
    ensures r == PointUntrustworthinessOf(high, low, metric, nNeighbors, rankMatrix, rankToKnn, gK)
  {
    var reconciled := PairwiseDistanceDifferences(high, low, metric);
    if reconciled.Err? {
      return Err(reconciled.error);
    }
    if nNeighbors.None? {
      return Err(MissingArgument);
    }
    var k := nNeighbors.value;
    var hd := reconciled.value.high;
    var ld := reconciled.value.low;
    var highRank := rankMatrix(hd);
    var lowRank := rankMatrix(ld);
    assert IsRankOfSize(highRank, hd.rows) && IsRankOfSize(lowRank, hd.rows);
    var highKnn := rankToKnn(highRank, k);
    var lowKnn := rankToKnn(lowRank, k);
    assert IsKnnOfSize(highKnn, hd.rows) && IsKnnOfSize(lowKnn, hd.rows);
    r := KnnToPointUntrustworthiness(highKnn, lowKnn, Some(k), Some(highRank), gK);
  }
}
