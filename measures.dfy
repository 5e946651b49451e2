/** Trustworthiness and continuity: one minus the sum of the point scores, where the
    scores are either supplied (`point_scores=`) or computed from an embedding. */
module Measures {
  import opened Outcomes
  import opened Sums
  import opened Matrices
  import opened Distances
  import opened Untrustworthiness

  /** Where the point scores of a measure come from. */
  datatype ScoreSource =
    | PointScores(scores: seq<real>)
    | Embedding(high: Side, low: Side, nNeighbors: Option<int>)
  {
    predicate Valid() {
      Embedding? ==> high.Valid() && low.Valid()
    }
  }

  /** The distance-reconciliation outcome with the two sides exchanged. */
  function Swapped(d: Reconciled): (r: Reconciled)
    requires d.high.Valid() && d.low.Valid() && SameShape(d.low, d.high)
    ensures r.high == d.low && r.low == d.high
  {
    Reconciled(d.low, d.high, Sub(d.low, d.high))
  }

  /** Point discontinuity: the untrustworthiness computation with the roles of the two
      spaces exchanged, so that a point pays for each high-space neighbour it lost in
      the embedding, weighted by that neighbour's low-space rank. */
  function PointDiscontinuityOf(high: Side, low: Side, metric: Metric, nNeighbors: Option<int>,
                                rankMatrix: Matrix -> seq<seq<int>>,
                                rankToKnn: (seq<seq<int>>, int) -> seq<seq<int>>, gK: real): (r: Result<seq<real>>)
    requires high.Valid() && low.Valid() && gK != 0.0
    requires RankingShapes(rankMatrix, rankToKnn)
    ensures PairwiseDistanceDifferences(high, low, metric).Err? ==>
              r == Err(PairwiseDistanceDifferences(high, low, metric).error)
    ensures PairwiseDistanceDifferences(high, low, metric).Ok? ==> (r.Ok? <==> nNeighbors.Some?)
    ensures r.Err? && PairwiseDistanceDifferences(high, low, metric).Ok? ==> r.error == MissingArgument
    ensures r.Ok? ==> |r.value| == PairwiseDistanceDifferences(high, low, metric).value.high.rows
  {
    match PairwiseDistanceDifferences(high, low, metric)
    case Err(e) => Err(e)
    case Ok(d) =>
      if nNeighbors.None? then Err(MissingArgument)
      else Ok(ScoresFromDistances(Swapped(d), nNeighbors.value, rankMatrix, rankToKnn, gK))
  }

  /** A measure that subtracts its point scores from 1. */
  function OneMinusTotal(scores: Result<seq<real>>): (r: Result<real>)
    ensures r.Ok? <==> scores.Ok?
    ensures scores.Err? ==> r == Err(scores.error)
    ensures r.Ok? ==> r.value + Sum(scores.value) == 1.0
  {
    match scores
    case Err(e) => Err(e)
    case Ok(p) => Ok(1.0 - Sum(p))
  }

  function Trustworthiness(source: ScoreSource, metric: Metric, rankMatrix: Matrix -> seq<seq<int>>,
                           rankToKnn: (seq<seq<int>>, int) -> seq<seq<int>>, gK: real): (r: Result<real>)
    requires source.Valid() && gK != 0.0
    requires RankingShapes(rankMatrix, rankToKnn)
    ensures source.PointScores? ==> r == Ok(1.0 - Sum(source.scores))
    ensures source.Embedding? ==>
      var p := PointUntrustworthinessOf(source.high, source.low, metric, source.nNeighbors, rankMatrix, rankToKnn, gK);
      (r.Ok? <==> p.Ok?) && (p.Err? ==> r == Err(p.error)) && (p.Ok? ==> r.value == 1.0 - Sum(p.value))
  {
    match source
    case PointScores(p) => OneMinusTotal(Ok(p))
    case Embedding(high, low, k) =>
      OneMinusTotal(PointUntrustworthinessOf(high, low, metric, k, rankMatrix, rankToKnn, gK))
  }

  function Continuity(source: ScoreSource, metric: Metric, rankMatrix: Matrix -> seq<seq<int>>,
                      rankToKnn: (seq<seq<int>>, int) -> seq<seq<int>>, gK: real): (r: Result<real>)
    requires source.Valid() && gK != 0.0
    requires RankingShapes(rankMatrix, rankToKnn)
    ensures source.PointScores? ==> r == Ok(1.0 - Sum(source.scores))
    ensures source.Embedding? ==>
      var p := PointDiscontinuityOf(source.high, source.low, metric, source.nNeighbors, rankMatrix, rankToKnn, gK);
      (r.Ok? <==> p.Ok?) && (p.Err? ==> r == Err(p.error)) && (p.Ok? ==> r.value == 1.0 - Sum(p.value))
  {
    match source
    case PointScores(p) => OneMinusTotal(Ok(p))
    case Embedding(high, low, k) =>
      OneMinusTotal(PointDiscontinuityOf(high, low, metric, k, rankMatrix, rankToKnn, gK))
  }

  // ------------------------------------------------------------- properties

  /** Computing trustworthiness from an embedding gives what computing it from that
      embedding's point untrustworthiness gives. */
  lemma TrustworthinessPathsAgree(high: Side, low: Side, k: int, metric: Metric, rankMatrix: Matrix -> seq<seq<int>>,
                                  rankToKnn: (seq<seq<int>>, int) -> seq<seq<int>>, gK: real)
    requires high.Valid() && low.Valid() && gK != 0.0
    requires RankingShapes(rankMatrix, rankToKnn)
    requires PointUntrustworthinessOf(high, low, metric, Some(k), rankMatrix, rankToKnn, gK).Ok?
    ensures var p := PointUntrustworthinessOf(high, low, metric, Some(k), rankMatrix, rankToKnn, gK).value;
      Trustworthiness(Embedding(high, low, Some(k)), metric, rankMatrix, rankToKnn, gK)
        == Trustworthiness(PointScores(p), metric, rankMatrix, rankToKnn, gK)
  {
  }

  /** Computing continuity from an embedding gives what computing it from that
      embedding's point discontinuity gives. */
  lemma ContinuityPathsAgree(high: Side, low: Side, k: int, metric: Metric, rankMatrix: Matrix -> seq<seq<int>>,
                             rankToKnn: (seq<seq<int>>, int) -> seq<seq<int>>, gK: real)
    requires high.Valid() && low.Valid() && gK != 0.0
    requires RankingShapes(rankMatrix, rankToKnn)
    requires PointDiscontinuityOf(high, low, metric, Some(k), rankMatrix, rankToKnn, gK).Ok?
    ensures var p := PointDiscontinuityOf(high, low, metric, Some(k), rankMatrix, rankToKnn, gK).value;
      Continuity(Embedding(high, low, Some(k)), metric, rankMatrix, rankToKnn, gK)
        == Continuity(PointScores(p), metric, rankMatrix, rankToKnn, gK)
  {
  }

  /** All-zero point scores give the measure its best value, 1. */
  lemma ZeroScoresTotalOne(scores: seq<real>)
    requires forall i | 0 <= i < |scores| :: scores[i] == 0.0
    ensures OneMinusTotal(Ok(scores)) == Ok(1.0)
  {
    SumOfZeros(scores);
  }

  /** An embedding compared with itself is perfectly trustworthy. */
  lemma SelfEmbeddingFullyTrustworthy(side: Side, k: int, metric: Metric, rankMatrix: Matrix -> seq<seq<int>>,
                                      rankToKnn: (seq<seq<int>>, int) -> seq<seq<int>>, gK: real)
    requires side.Valid() && gK != 0.0
    requires RankingShapes(rankMatrix, rankToKnn)
    requires PairwiseDistanceDifferences(side, side, metric).Ok?
    ensures Trustworthiness(Embedding(side, side, Some(k)), metric, rankMatrix, rankToKnn, gK) == Ok(1.0)
  {
    var d := PairwiseDistanceDifferences(side, side, metric).value;
    assert d.low == d.high;
    var rank := rankMatrix(d.high);
    var knn := rankToKnn(rank, k);
    assert IsRankOfSize(rank, d.high.rows);
    assert IsKnnOfSize(knn, d.high.rows);
    IdenticalNeighboursScoreZero(knn, k, rank, gK);
    ZeroScoresTotalOne(ScoresFromDistances(d, k, rankMatrix, rankToKnn, gK));
  }

  /** An embedding compared with itself loses no neighbours: continuity is 1. */
  lemma SelfEmbeddingFullyContinuous(side: Side, k: int, metric: Metric, rankMatrix: Matrix -> seq<seq<int>>,
                                     rankToKnn: (seq<seq<int>>, int) -> seq<seq<int>>, gK: real)
    requires side.Valid() && gK != 0.0
    requires RankingShapes(rankMatrix, rankToKnn)
    requires PairwiseDistanceDifferences(side, side, metric).Ok?
    ensures Continuity(Embedding(side, side, Some(k)), metric, rankMatrix, rankToKnn, gK) == Ok(1.0)
  {
    var d := PairwiseDistanceDifferences(side, side, metric).value;
    assert d.low == d.high;
    var rank := rankMatrix(d.high);
    var knn := rankToKnn(rank, k);
    assert IsRankOfSize(rank, d.high.rows);
    assert IsKnnOfSize(knn, d.high.rows);
    IdenticalNeighboursScoreZero(knn, k, rank, gK);
    ZeroScoresTotalOne(ScoresFromDistances(Swapped(d), k, rankMatrix, rankToKnn, gK));
  }

  /** Non-negative point scores keep a measure at or below 1. */
  lemma NonNegativeScoresAtMostOne(scores: seq<real>)
    requires forall i | 0 <= i < |scores| :: scores[i] >= 0.0
    ensures OneMinusTotal(Ok(scores)).value <= 1.0
  {
    SumNonNegative(scores);
  }
}
