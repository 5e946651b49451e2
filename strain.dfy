/** Strain: the residual between the double-centred squared high distances B and the
    squared low distances, normalised by the sum of B's squared entries. The final
    square root of the source's global strain is left out: StrainSquared is its square. */
module Strain {
  import opened Outcomes
  import opened Sums
  import opened Matrices

  /** B = doubly_center_matrix(square_matrix_entries(high_distances)). */
  function Gram(high: Matrix): (r: Result<Matrix>)
    requires high.Valid()
    ensures r.Ok? <==> high.IsSquare()
    ensures r.Err? ==> r.error == NotSquare
    ensures r.Ok? ==> r.value.Valid() && r.value.rows == high.rows && r.value.cols == high.rows
  {
    DoublyCenter(SquareEntries(high))
  }

  /** The shared denominator sum(B ** 2). */
  function Denominator(high: Matrix): real
    requires high.Valid() && high.IsSquare()
  {
    Total(SquareEntries(Gram(high).value))
  }

  /** The numerator matrix top = (B - low ** 2) ** 2 and the denominator, or the error
      the computation stops at: a non-square high matrix, a low matrix whose shape
      differs from B's, or a zero denominator. */
  datatype Terms = Terms(top: Matrix, denominator: real)

  function StrainTerms(high: Matrix, low: Matrix): (r: Result<Terms>)
    requires high.Valid() && low.Valid()
    ensures r.Ok? <==> high.IsSquare() && SameShape(low, high) && Denominator(high) != 0.0
    ensures !high.IsSquare() ==> r == Err(NotSquare)
    ensures high.IsSquare() && !SameShape(low, high) ==> r == Err(ShapeMismatch)
    ensures high.IsSquare() && SameShape(low, high) && Denominator(high) == 0.0 ==> r == Err(ZeroDenominator)
    ensures r.Ok? ==> r.value.top.Valid() && SameShape(r.value.top, high)
    ensures r.Ok? ==> r.value.denominator == Denominator(high) && r.value.denominator > 0.0
    ensures r.Ok? ==> forall i | 0 <= i < high.rows :: RowSums(r.value.top)[i] >= 0.0
    ensures r.Ok? ==> Total(r.value.top) >= 0.0
  {
    match Gram(high)
    case Err(e) => Err(e)
    case Ok(b) =>
      if !SameShape(low, b) then Err(ShapeMismatch)
      else
        var residual := Sub(b, SquareEntries(low));
        var top := SquareEntries(residual);
        var denominator := Total(SquareEntries(b));
        TotalOfSquares(b);
        TotalOfSquares(residual);
        SquaredRowSumsNonNegative(residual);
        if denominator == 0.0 then Err(ZeroDenominator) else Ok(Terms(top, denominator))
  }

  /** `old_strain` without its final square root: sum(top) / sum(B ** 2). */
  function StrainSquared(high: Matrix, low: Matrix): (r: Result<real>)
    requires high.Valid() && low.Valid()
    ensures r.Ok? <==> StrainTerms(high, low).Ok?
    ensures r.Err? ==> r.error == StrainTerms(high, low).error
    ensures r.Ok? ==> r.value >= 0.0
  {
    match StrainTerms(high, low)
    case Err(e) => Err(e)
    case Ok(t) =>
      RatioNonNegative(Total(t.top), t.denominator);
      Ok(Total(t.top) / t.denominator)
  }

  /** `old_point_strain`: each row sum of top over the same global denominator sum(B ** 2). */
  function PointStrain(high: Matrix, low: Matrix): (r: Result<seq<real>>)
    requires high.Valid() && low.Valid()
    ensures r.Ok? <==> StrainTerms(high, low).Ok?
    ensures r.Err? ==> r.error == StrainTerms(high, low).error
    ensures r.Ok? ==> |r.value| == high.rows
    ensures r.Ok? ==> forall i | 0 <= i < |r.value| :: r.value[i] >= 0.0
  {
    match StrainTerms(high, low)
    case Err(e) => Err(e)
    case Ok(t) =>
      var sums := RowSums(t.top);
      var r := seq(t.top.rows, i requires 0 <= i < t.top.rows => sums[i] / t.denominator);
      assert forall i | 0 <= i < |r| :: r[i] >= 0.0 by {
        forall i | 0 <= i < |r| ensures r[i] >= 0.0 {
          RatioNonNegative(sums[i], t.denominator);
        }
      }
      Ok(r)
  }

  // ---------------------------------------------------------------- properties

  /** The point strains add up to the square of the global strain: every row is divided
      by the one global denominator. */
  lemma PointStrainSumsToStrainSquared(high: Matrix, low: Matrix)
    requires high.Valid() && low.Valid()
    ensures PointStrain(high, low).Ok? <==> StrainSquared(high, low).Ok?
    ensures PointStrain(high, low).Ok? ==>
      Sum(PointStrain(high, low).value) == StrainSquared(high, low).value
  {
    if StrainTerms(high, low).Ok? {
      var t := StrainTerms(high, low).value;
      SumDivided(RowSums(t.top), PointStrain(high, low).value, t.denominator);
    }
  }

  /** All-zero high distances make B zero and the denominator zero: strain and
      point strain both fail. */
  lemma ZeroHighDistancesAreDegenerate(high: Matrix, low: Matrix)
    requires high.Valid() && low.Valid()
    requires high.IsSquare() && SameShape(low, high) && IsZero(high)
    ensures StrainSquared(high, low) == Err(ZeroDenominator)
    ensures PointStrain(high, low) == Err(ZeroDenominator)
  {
    var sq := SquareEntries(high);
    assert IsZero(sq);
    DoublyCenterZero(sq);
    TotalOfSquares(Gram(high).value);
  }

  // ---------------------------------------------------------------- an example

  /** Two points at distance 1 from each other. */
  function TwoPointsApart(): (d: Matrix)
    ensures d.Valid() && d.IsSquare() && d.rows == 2
  {
    Matrix(2, 2, [[0.0, 1.0], [1.0, 0.0]])
  }

  lemma CenteringOfTwo()
    ensures Entries(CenteringMatrix(2), 0.5, -0.5, -0.5, 0.5)
  {
    CenteringMatrixEntries(2);
  }

  lemma TwoPointsApartGram()
    ensures Entries(Gram(TwoPointsApart()).value, 0.25, -0.25, -0.25, 0.25)
  {
    var d := TwoPointsApart();
    var sq := SquareEntries(d);
    assert Entries(sq, 0.0, 1.0, 1.0, 0.0);
    CenteringOfTwo();
    var j := CenteringMatrix(2);
    assert Entries(Neg(j), -0.5, 0.5, 0.5, -0.5);
    TwoByTwoProduct(Neg(j), sq, -0.5, 0.5, 0.5, -0.5, 0.0, 1.0, 1.0, 0.0);
    var x := Mul(Neg(j), sq);
    assert Entries(x, 0.5, -0.5, -0.5, 0.5);
    TwoByTwoProduct(x, j, 0.5, -0.5, -0.5, 0.5, 0.5, -0.5, -0.5, 0.5);
    var y := Mul(x, j);
    assert Entries(y, 0.5, -0.5, -0.5, 0.5);
  }

  lemma TwoPointsApartDenominator()
    ensures Denominator(TwoPointsApart()) == 0.25
  {
    TwoPointsApartGram();
    var bb := SquareEntries(Gram(TwoPointsApart()).value);
    assert Entries(bb, 0.0625, 0.0625, 0.0625, 0.0625);
    TotalOfTwoByTwo(bb);
  }

  lemma TwoPointsApartResidual()
    ensures Total(SquareEntries(Sub(Gram(TwoPointsApart()).value, SquareEntries(TwoPointsApart())))) == 3.25
  {
    TwoPointsApartGram();
    var b := Gram(TwoPointsApart()).value;
    var sq := SquareEntries(TwoPointsApart());
    assert Entries(sq, 0.0, 1.0, 1.0, 0.0);
    var residual := Sub(b, sq);
    assert Entries(residual, 0.25, -1.25, -1.25, 0.25);
    var top := SquareEntries(residual);
    assert Entries(top, 0.0625, 1.5625, 1.5625, 0.0625);
    TotalOfTwoByTwo(top);
  }

  /** Equal high and low distances do not give strain 0: for two points at distance 1 in
      both spaces B has entries +-1/4, the residual B - low ** 2 has entries 1/4 and -5/4,
      and the square of the strain is 3.25 / 0.25 = 13. */
  lemma IdenticalDistancesLeaveResidual()
    ensures StrainSquared(TwoPointsApart(), TwoPointsApart()) == Ok(13.0)
  {
    TwoPointsApartDenominator();
    TwoPointsApartResidual();
    var t := StrainTerms(TwoPointsApart(), TwoPointsApart());
    assert t.Ok?;
    assert t.value.denominator == 0.25;
    assert Total(t.value.top) == 3.25;
  }
}
