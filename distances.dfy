/** `pairwise_distance_differences`: each side is given either as a coordinate matrix
    or as a precomputed distance matrix; the result is the high distances, the low
    distances and their difference high - low. */
module Distances {
  import opened Outcomes
  import opened Matrices

  /** One side of the call: the keyword arguments `*_data` and `*_distances`, at most
      one of which is supplied. */
  datatype Side = Absent | Data(points: Matrix) | DistanceMatrix(distances: Matrix)
  {
    predicate Valid() {
      match this
      case Absent => true
      case Data(x) => x.Valid()
      case DistanceMatrix(d) => d.Valid()
    }
  }

  /** The triple (high_distances, low_distances, high_distances - low_distances). */
  datatype Reconciled = Reconciled(high: Matrix, low: Matrix, difference: Matrix)

  /** The distance function named by `metric`, applied to two points. */
  type Metric = (seq<real>, seq<real>) -> real

  /** The full pairwise distance matrix of the rows of x under the metric. */
  function PairwiseDistances(x: Matrix, metric: Metric): (d: Matrix)
    requires x.Valid()
    ensures d.Valid() && d.rows == x.rows && d.cols == x.rows
    ensures forall i, j | 0 <= i < x.rows && 0 <= j < x.rows :: d.at[i][j] == metric(x.at[i], x.at[j])
  {
    Matrix(x.rows, x.rows,
      seq(x.rows, i requires 0 <= i < x.rows =>
        seq(x.rows, j requires 0 <= j < x.rows => metric(x.at[i], x.at[j]))))
  }

  /** The distance matrix one side stands for: computed from data, or passed through
      unchanged after the squareness check. */
  function Resolve(side: Side, metric: Metric): (r: Result<Matrix>)
    requires side.Valid()
    ensures side.Absent? ==> r == Err(MissingArgument)
    ensures side.DistanceMatrix? ==> r == if side.distances.IsSquare() then Ok(side.distances) else Err(NotSquare)
    ensures side.Data? ==> r.Ok? && r.value.rows == side.points.rows
    ensures r.Ok? ==> r.value.Valid() && r.value.IsSquare()
  {
    match side
    case Absent => Err(MissingArgument)
    case Data(x) => Ok(PairwiseDistances(x, metric))
    case DistanceMatrix(d) => if d.IsSquare() then Ok(d) else Err(NotSquare)
  }

  function PairwiseDistanceDifferences(high: Side, low: Side, metric: Metric): (r: Result<Reconciled>)
    requires high.Valid() && low.Valid()
    ensures high.Absent? || low.Absent? ==> r.Err?
    ensures high.Absent? ==> r == Err(MissingArgument)
    ensures high.DistanceMatrix? && !high.distances.IsSquare() ==> r == Err(NotSquare)
    ensures r.Err? && r.error == ShapeMismatch ==>
              Resolve(high, metric).Ok? && Resolve(low, metric).Ok? &&
              Resolve(high, metric).value.rows != Resolve(low, metric).value.rows
    ensures r.Ok? <==> Resolve(high, metric).Ok? && Resolve(low, metric).Ok?
                       && Resolve(high, metric).value.rows == Resolve(low, metric).value.rows
    ensures r.Ok? ==> r.value.high.Valid() && r.value.low.Valid() && r.value.difference.Valid()
    ensures r.Ok? ==> r.value.high.IsSquare() && SameShape(r.value.low, r.value.high)
                      && SameShape(r.value.difference, r.value.high)
    ensures r.Ok? && high.DistanceMatrix? ==> r.value.high == high.distances
    ensures r.Ok? && low.DistanceMatrix? ==> r.value.low == low.distances
    ensures r.Ok? && high.Data? ==> r.value.high.rows == high.points.rows
    ensures r.Ok? ==> forall i, j | 0 <= i < r.value.high.rows && 0 <= j < r.value.high.cols ::
      r.value.difference.at[i][j] == r.value.high.at[i][j] - r.value.low.at[i][j]
  {
    match Resolve(high, metric)
    case Err(e) => Err(e)
    case Ok(hd) =>
      match Resolve(low, metric)
      case Err(e) => Err(e)
      case Ok(ld) =>
        if !SameShape(hd, ld) then Err(ShapeMismatch)
        else Ok(Reconciled(hd, ld, Sub(hd, ld)))
  }

  /** Given two square distance matrices of one size, the call returns them unchanged
      together with their entrywise difference. */
  lemma DistancesPassThrough(hd: Matrix, ld: Matrix, metric: Metric)
    requires hd.Valid() && ld.Valid() && hd.IsSquare() && SameShape(ld, hd)
    ensures PairwiseDistanceDifferences(DistanceMatrix(hd), DistanceMatrix(ld), metric).Ok?
    ensures PairwiseDistanceDifferences(DistanceMatrix(hd), DistanceMatrix(ld), metric).value.high == hd
    ensures PairwiseDistanceDifferences(DistanceMatrix(hd), DistanceMatrix(ld), metric).value.low == ld
    ensures PairwiseDistanceDifferences(DistanceMatrix(hd), DistanceMatrix(ld), metric).value.difference == Sub(hd, ld)
  {
  }

  /** Coordinate matrices with n points on each side give three n x n matrices. */
  lemma DataGivesSquareTriple(hx: Matrix, lx: Matrix, metric: Metric)
    requires hx.Valid() && lx.Valid() && hx.rows == lx.rows
    ensures PairwiseDistanceDifferences(Data(hx), Data(lx), metric).Ok?
    ensures var t := PairwiseDistanceDifferences(Data(hx), Data(lx), metric).value;
      t.high.rows == t.high.cols == hx.rows && SameShape(t.low, t.high) && SameShape(t.difference, t.high)
  {
  }
}
