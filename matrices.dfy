/** Real matrices and the matrix primitives of the quality measures: entrywise
    squaring, the centering matrix J = I - 11'/N, and double centering -J M J / 2.
    Entries are exact reals; numpy's float64 rounding is not modelled. */
module Matrices {
  import opened Outcomes
  import opened Sums

  /** A matrix with its shape kept explicitly, as numpy keeps (rows, cols)
      even when there are no rows. */
  datatype Matrix = Matrix(rows: nat, cols: nat, at: seq<seq<real>>)
  {
    predicate Valid() {
      |at| == rows && forall i | 0 <= i < rows :: |at[i]| == cols
    }

    predicate IsSquare() {
      rows == cols
    }
  }

  predicate SameShape(a: Matrix, b: Matrix) {
    a.rows == b.rows && a.cols == b.cols
  }

  /** Every entry is zero. */
  predicate IsZero(a: Matrix)
    requires a.Valid()
  {
    forall i, j | 0 <= i < a.rows && 0 <= j < a.cols :: a.at[i][j] == 0.0
  }

  // ---------------------------------------------------------------- building blocks

  function Identity(n: nat): (r: Matrix)
    ensures r.Valid() && r.rows == n && r.cols == n
    ensures forall i, j | 0 <= i < n && 0 <= j < n :: r.at[i][j] == if i == j then 1.0 else 0.0
  {
    Matrix(n, n, seq(n, i requires 0 <= i < n => seq(n, j requires 0 <= j < n => if i == j then 1.0 else 0.0)))
  }

  /** The n x 1 column of ones. */
  function OnesColumn(n: nat): (r: Matrix)
    ensures r.Valid() && r.rows == n && r.cols == 1
    ensures forall i | 0 <= i < n :: r.at[i][0] == 1.0
  {
    Matrix(n, 1, seq(n, i => [1.0]))
  }

  function Transpose(a: Matrix): (r: Matrix)
    requires a.Valid()
    ensures r.Valid() && r.rows == a.cols && r.cols == a.rows
    ensures forall i, j | 0 <= i < r.rows && 0 <= j < r.cols :: r.at[i][j] == a.at[j][i]
  {
    Matrix(a.cols, a.rows,
      seq(a.cols, i requires 0 <= i < a.cols => seq(a.rows, j requires 0 <= j < a.rows => a.at[j][i])))
  }

  function Sub(a: Matrix, b: Matrix): (r: Matrix)
    requires a.Valid() && b.Valid() && SameShape(a, b)
    ensures r.Valid() && SameShape(r, a)
    ensures forall i, j | 0 <= i < r.rows && 0 <= j < r.cols :: r.at[i][j] == a.at[i][j] - b.at[i][j]
  {
    Matrix(a.rows, a.cols,
      seq(a.rows, i requires 0 <= i < a.rows =>
        seq(a.cols, j requires 0 <= j < a.cols => a.at[i][j] - b.at[i][j])))
  }

  function Neg(a: Matrix): (r: Matrix)
    requires a.Valid()
    ensures r.Valid() && SameShape(r, a)
    ensures forall i, j | 0 <= i < r.rows && 0 <= j < r.cols :: r.at[i][j] == -a.at[i][j]
  {
    Matrix(a.rows, a.cols,
      seq(a.rows, i requires 0 <= i < a.rows => seq(a.cols, j requires 0 <= j < a.cols => -a.at[i][j])))
  }

  /** Entrywise division. Dividing a matrix without rows by zero divides nothing,
      as numpy does for the empty centering matrix. */
  function DivBy(a: Matrix, d: real): (r: Matrix)
    requires a.Valid()
    requires d != 0.0 || a.rows == 0
    ensures r.Valid() && SameShape(r, a)
    ensures forall i, j | 0 <= i < r.rows && 0 <= j < r.cols :: r.at[i][j] == a.at[i][j] / d
  {
    Matrix(a.rows, a.cols,
      seq(a.rows, i requires 0 <= i < a.rows => seq(a.cols, j requires 0 <= j < a.cols => a.at[i][j] / d)))
  }

  /** The terms a[i][t] * b[t][j] whose sum is entry (i, j) of the product. */
  function DotTerms(a: Matrix, b: Matrix, i: nat, j: nat): (r: seq<real>)
    requires a.Valid() && b.Valid() && a.cols == b.rows
    requires i < a.rows && j < b.cols
    ensures |r| == a.cols
    ensures forall t | 0 <= t < a.cols :: r[t] == a.at[i][t] * b.at[t][j]
  {
    seq(a.cols, t requires 0 <= t < a.cols => a.at[i][t] * b.at[t][j])
  }

  /** The matrix product, numpy's `*` on `np.matrix` operands. */
  function Mul(a: Matrix, b: Matrix): (r: Matrix)
    requires a.Valid() && b.Valid() && a.cols == b.rows
    ensures r.Valid() && r.rows == a.rows && r.cols == b.cols
    ensures forall i, j | 0 <= i < r.rows && 0 <= j < r.cols :: r.at[i][j] == Sum(DotTerms(a, b, i, j))
  {
    Matrix(a.rows, b.cols,
      seq(a.rows, i requires 0 <= i < a.rows =>
        seq(b.cols, j requires 0 <= j < b.cols => Sum(DotTerms(a, b, i, j)))))
  }

  /** Column j as a sequence. */
  function Column(a: Matrix, j: nat): (r: seq<real>)
    requires a.Valid() && j < a.cols
    ensures |r| == a.rows
    ensures forall i | 0 <= i < a.rows :: r[i] == a.at[i][j]
  {
    seq(a.rows, i requires 0 <= i < a.rows => a.at[i][j])
  }

  /** `np.sum(a, axis=1)`: one sum per row. */
  function RowSums(a: Matrix): (r: seq<real>)
    requires a.Valid()
    ensures |r| == a.rows
    ensures forall i | 0 <= i < a.rows :: r[i] == Sum(a.at[i])
  {
    seq(a.rows, i requires 0 <= i < a.rows => Sum(a.at[i]))
  }

  /** `np.sum(a, axis=0)`: one sum per column. */
  function ColumnSums(a: Matrix): (r: seq<real>)
    requires a.Valid()
    ensures |r| == a.cols
    ensures forall j | 0 <= j < a.cols :: r[j] == Sum(Column(a, j))
  {
    seq(a.cols, j requires 0 <= j < a.cols => Sum(Column(a, j)))
  }

  /** `np.sum(a)`: the sum of every entry, taken row by row. */
  function Total(a: Matrix): real
    requires a.Valid()
  {
    Sum(RowSums(a))
  }

  // ---------------------------------------------------------------- the primitives

  /** `square_matrix_entries`: the entrywise (Hadamard) square. */
  function SquareEntries(a: Matrix): (r: Matrix)
    requires a.Valid()
    ensures r.Valid() && SameShape(r, a)
    ensures forall i, j | 0 <= i < r.rows && 0 <= j < r.cols :: r.at[i][j] == a.at[i][j] * a.at[i][j]
  {
    Matrix(a.rows, a.cols,
      seq(a.rows, i requires 0 <= i < a.rows =>
        seq(a.cols, j requires 0 <= j < a.cols => a.at[i][j] * a.at[i][j])))
  }

  /** `old_centering_matrix(N)`: I_N - 1 1' / N, built as the source builds it. */
  function CenteringMatrix(n: nat): (r: Matrix)
    ensures r.Valid()
  {
    Sub(Identity(n), DivBy(Mul(OnesColumn(n), Transpose(OnesColumn(n))), n as real))
  }

  /** `old_doubly_center_matrix(M)`: -J M J / 2 with J the centering matrix of M's size;
      a matrix that is not square is refused. */
  function DoublyCenter(m: Matrix): (r: Result<Matrix>)
    requires m.Valid()
    ensures r.Ok? <==> m.IsSquare()
    ensures r.Err? ==> r.error == NotSquare
    ensures r.Ok? ==> r.value.Valid() && r.value.rows == m.rows && r.value.cols == m.rows
  {
    if m.rows != m.cols then Err(NotSquare)
    else
      var j := CenteringMatrix(m.rows);
      CenteringMatrixEntries(m.rows);
      Ok(DivBy(Mul(Mul(Neg(j), m), j), 2.0))
  }

  // ---------------------------------------------------------------- properties

  /** The centering matrix is N x N with entry (i, j) equal to [i = j] - 1/N. */
  lemma CenteringMatrixEntries(n: nat)
    ensures CenteringMatrix(n).rows == n && CenteringMatrix(n).cols == n
    ensures forall i, j | 0 <= i < n && 0 <= j < n ::
      CenteringMatrix(n).at[i][j] == (if i == j then 1.0 else 0.0) - 1.0 / n as real
  {
    var ones := OnesColumn(n);
    var outer := Mul(ones, Transpose(ones));
    forall i, j | 0 <= i < n && 0 <= j < n ensures outer.at[i][j] == 1.0 {
      var terms := DotTerms(ones, Transpose(ones), i, j);
      assert terms == [1.0];
      assert Sum(terms) == Sum([]) + 1.0;
    }
  }

  /** n copies of -1/n sum to -1. */
  lemma MeanSum(mean: seq<real>, share: real)
    requires |mean| > 0 && share == 1.0 / |mean| as real
    requires forall t | 0 <= t < |mean| :: mean[t] == -share
    ensures Sum(mean) == -1.0
  {
    SumConstant(mean, -share);
  }

  /** A row of the centering matrix sums to zero: one 1 and n terms of -1/n. */
  lemma CenteredRowSumsToZero(s: seq<real>, k: nat)
    requires k < |s|
    requires forall t | 0 <= t < |s| :: s[t] == (if t == k then 1.0 else 0.0) - 1.0 / |s| as real
    ensures Sum(s) == 0.0
  {
    var n := |s|;
    var share := 1.0 / n as real;
    var unit := seq(n, t requires 0 <= t < n => if t == k then 1.0 else 0.0);
    var mean := seq(n, t requires 0 <= t < n => -share);
    forall t | 0 <= t < n ensures s[t] == unit[t] + mean[t] {
    }
    SumAdded(unit, mean, s);
    SumOfSingleTerm(unit, k);
    MeanSum(mean, share);
  }

  /** J 1 = 0 and 1' J = 0: every row and every column of the centering matrix sums to zero. */
  lemma CenteringMatrixSumsToZero(n: nat)
    ensures forall i | 0 <= i < n :: Sum(CenteringMatrix(n).at[i]) == 0.0
    ensures forall j | 0 <= j < n :: Sum(Column(CenteringMatrix(n), j)) == 0.0
  {
    var jm := CenteringMatrix(n);
    CenteringMatrixEntries(n);
    forall i | 0 <= i < n ensures Sum(jm.at[i]) == 0.0 {
      CenteredRowSumsToZero(jm.at[i], i);
    }
    forall j | 0 <= j < n ensures Sum(Column(jm, j)) == 0.0 {
      CenteredRowSumsToZero(Column(jm, j), j);
    }
  }

  /** The matrix without its last row. */
  function AllButLastRow(a: Matrix): (r: Matrix)
    requires a.Valid() && a.rows > 0
    ensures r.Valid() && r.rows == a.rows - 1 && r.cols == a.cols
    ensures forall i | 0 <= i < r.rows :: r.at[i] == a.at[i]
  {
    Matrix(a.rows - 1, a.cols, a.at[..a.rows - 1])
  }

  /** Each column sum is the column sum without the last row plus the last row's entry. */
  lemma ColumnSumsPeelLastRow(a: Matrix)
    requires a.Valid() && a.rows > 0
    ensures forall j | 0 <= j < a.cols ::
      ColumnSums(a)[j] == ColumnSums(AllButLastRow(a))[j] + a.at[a.rows - 1][j]
  {
    var top := AllButLastRow(a);
    forall j | 0 <= j < a.cols
      ensures ColumnSums(a)[j] == ColumnSums(top)[j] + a.at[a.rows - 1][j]
    {
      var c := Column(a, j);
      assert c[..a.rows - 1] == Column(top, j);
    }
  }

  /** The sum of all entries does not depend on whether rows or columns are summed first. */
  lemma {:induction false} TotalByColumns(a: Matrix)
    requires a.Valid()
    ensures Sum(RowSums(a)) == Sum(ColumnSums(a))
    decreases a.rows
  {
    if a.rows == 0 {
      SumOfZeros(ColumnSums(a));
    } else {
      var top := AllButLastRow(a);
      TotalByColumns(top);
      var rs := RowSums(a);
      assert rs[..a.rows - 1] == RowSums(top);
      ColumnSumsPeelLastRow(a);
      SumAdded(ColumnSums(top), a.at[a.rows - 1], ColumnSums(a));
    }
  }

  /** The terms of row i of a b, laid out with one row per column j of the product:
      entry (j, t) is a[i][t] * b[t][j]. */
  function RowTerms(a: Matrix, b: Matrix, i: nat): (r: Matrix)
    requires a.Valid() && b.Valid() && a.cols == b.rows && i < a.rows
    ensures r.Valid() && r.rows == b.cols && r.cols == a.cols
    ensures forall j | 0 <= j < b.cols :: r.at[j] == DotTerms(a, b, i, j)
  {
    Matrix(b.cols, a.cols, seq(b.cols, j requires 0 <= j < b.cols => DotTerms(a, b, i, j)))
  }

  /** The terms of column j of a b, one row per row i of the product:
      entry (i, t) is a[i][t] * b[t][j]. */
  function ColumnTerms(a: Matrix, b: Matrix, j: nat): (r: Matrix)
    requires a.Valid() && b.Valid() && a.cols == b.rows && j < b.cols
    ensures r.Valid() && r.rows == a.rows && r.cols == a.cols
    ensures forall i | 0 <= i < a.rows :: r.at[i] == DotTerms(a, b, i, j)
  {
    Matrix(a.rows, a.cols, seq(a.rows, i requires 0 <= i < a.rows => DotTerms(a, b, i, j)))
  }

  /** Column t of the row terms is row t of b scaled by a[i][t]. */
  lemma RowTermsColumnSum(a: Matrix, b: Matrix, i: nat, t: nat)
    requires a.Valid() && b.Valid() && a.cols == b.rows && i < a.rows && t < a.cols
    ensures Sum(Column(RowTerms(a, b, i), t)) == Sum(b.at[t]) * a.at[i][t]
  {
    var terms := RowTerms(a, b, i);
    var col := Column(terms, t);
    var c := a.at[i][t];
    forall j | 0 <= j < b.cols ensures col[j] == b.at[t][j] * c {
      assert col[j] == terms.at[j][t] == DotTerms(a, b, i, j)[t];
    }
    SumScaled(b.at[t], col, c);
  }

  lemma RowOfProductSumsToZero(a: Matrix, b: Matrix, i: nat)
    requires a.Valid() && b.Valid() && a.cols == b.rows && i < a.rows
    requires forall t | 0 <= t < b.rows :: Sum(b.at[t]) == 0.0
    ensures Sum(Mul(a, b).at[i]) == 0.0
  {
    var terms := RowTerms(a, b, i);
    assert RowSums(terms) == Mul(a, b).at[i];
    TotalByColumns(terms);
    forall t | 0 <= t < a.cols ensures ColumnSums(terms)[t] == 0.0 {
      RowTermsColumnSum(a, b, i, t);
    }
    SumOfZeros(ColumnSums(terms));
  }

  /** Column t of the column terms is column t of a scaled by b[t][j]. */
  lemma ColumnTermsColumnSum(a: Matrix, b: Matrix, j: nat, t: nat)
    requires a.Valid() && b.Valid() && a.cols == b.rows && j < b.cols && t < a.cols
    ensures Sum(Column(ColumnTerms(a, b, j), t)) == Sum(Column(a, t)) * b.at[t][j]
  {
    var terms := ColumnTerms(a, b, j);
    var col := Column(terms, t);
    var colA := Column(a, t);
    var c := b.at[t][j];
    forall i | 0 <= i < a.rows ensures col[i] == colA[i] * c {
      assert col[i] == terms.at[i][t] == DotTerms(a, b, i, j)[t];
    }
    SumScaled(colA, col, c);
  }

  lemma ColumnOfProductSumsToZero(a: Matrix, b: Matrix, j: nat)
    requires a.Valid() && b.Valid() && a.cols == b.rows && j < b.cols
    requires forall t | 0 <= t < a.cols :: Sum(Column(a, t)) == 0.0
    ensures Sum(Column(Mul(a, b), j)) == 0.0
  {
    var terms := ColumnTerms(a, b, j);
    assert RowSums(terms) == Column(Mul(a, b), j);
    TotalByColumns(terms);
    forall t | 0 <= t < a.cols ensures ColumnSums(terms)[t] == 0.0 {
      ColumnTermsColumnSum(a, b, j, t);
    }
    SumOfZeros(ColumnSums(terms));
  }

  /** If every row of b sums to zero, so does every row of a b. */
  lemma ProductRowsSumToZero(a: Matrix, b: Matrix)
    requires a.Valid() && b.Valid() && a.cols == b.rows
    requires forall t | 0 <= t < b.rows :: Sum(b.at[t]) == 0.0
    ensures forall i | 0 <= i < a.rows :: Sum(Mul(a, b).at[i]) == 0.0
  {
    forall i | 0 <= i < a.rows ensures Sum(Mul(a, b).at[i]) == 0.0 {
      RowOfProductSumsToZero(a, b, i);
    }
  }

  /** If every column of a sums to zero, so does every column of a b. */
  lemma ProductColumnsSumToZero(a: Matrix, b: Matrix)
    requires a.Valid() && b.Valid() && a.cols == b.rows
    requires forall t | 0 <= t < a.cols :: Sum(Column(a, t)) == 0.0
    ensures forall j | 0 <= j < b.cols :: Sum(Column(Mul(a, b), j)) == 0.0
  {
    forall j | 0 <= j < b.cols ensures Sum(Column(Mul(a, b), j)) == 0.0 {
      ColumnOfProductSumsToZero(a, b, j);
    }
  }

  /** Every column of -J sums to zero. */
  lemma NegatedCenteringColumnsSumToZero(n: nat)
    ensures forall t | 0 <= t < n :: Sum(Column(Neg(CenteringMatrix(n)), t)) == 0.0
  {
    var jm := CenteringMatrix(n);
    CenteringMatrixEntries(n);
    CenteringMatrixSumsToZero(n);
    forall t | 0 <= t < n ensures Sum(Column(Neg(jm), t)) == 0.0 {
      NegatedColumnSum(jm, t);
    }
  }

  lemma NegatedColumnSum(a: Matrix, t: nat)
    requires a.Valid() && t < a.cols
    ensures Sum(Column(Neg(a), t)) == -Sum(Column(a, t))
  {
    var c := Column(a, t);
    var nc := Column(Neg(a), t);
    forall i | 0 <= i < a.rows ensures nc[i] == c[i] * -1.0 {
    }
    SumScaled(c, nc, -1.0);
  }

  /** Halving every entry keeps zero row and column sums. */
  lemma HalvedSumsToZero(y: Matrix)
    requires y.Valid()
    requires forall i | 0 <= i < y.rows :: Sum(y.at[i]) == 0.0
    requires forall j | 0 <= j < y.cols :: Sum(Column(y, j)) == 0.0
    ensures forall i | 0 <= i < y.rows :: Sum(DivBy(y, 2.0).at[i]) == 0.0
    ensures forall j | 0 <= j < y.cols :: Sum(Column(DivBy(y, 2.0), j)) == 0.0
  {
    var b := DivBy(y, 2.0);
    forall i | 0 <= i < y.rows ensures Sum(b.at[i]) == 0.0 {
      SumDivided(y.at[i], b.at[i], 2.0);
    }
    forall j | 0 <= j < y.cols ensures Sum(Column(b, j)) == 0.0 {
      SumDivided(Column(y, j), Column(b, j), 2.0);
    }
  }

  /** Double centering removes row and column means: every row and every column of
      -J M J / 2 sums to zero. */
  lemma DoublyCenteredSumsToZero(m: Matrix)
    requires m.Valid() && m.IsSquare()
    ensures forall i | 0 <= i < m.rows :: Sum(DoublyCenter(m).value.at[i]) == 0.0
    ensures forall j | 0 <= j < m.rows :: Sum(Column(DoublyCenter(m).value, j)) == 0.0
  {
    var n := m.rows;
    var jm := CenteringMatrix(n);
    CenteringMatrixEntries(n);
    CenteringMatrixSumsToZero(n);
    NegatedCenteringColumnsSumToZero(n);
    var x := Mul(Neg(jm), m);
    ProductColumnsSumToZero(Neg(jm), m);
    var y := Mul(x, jm);
    ProductRowsSumToZero(x, jm);
    ProductColumnsSumToZero(x, jm);
    HalvedSumsToZero(y);
  }

  /** A product with a zero factor on the right is zero. */
  lemma ProductWithZero(a: Matrix, b: Matrix)
    requires a.Valid() && b.Valid() && a.cols == b.rows && IsZero(b)
    ensures IsZero(Mul(a, b))
  {
    forall i, j | 0 <= i < a.rows && 0 <= j < b.cols ensures Mul(a, b).at[i][j] == 0.0 {
      SumOfZeros(DotTerms(a, b, i, j));
    }
  }

  /** Double centering the zero matrix gives the zero matrix. */
  lemma DoublyCenterZero(m: Matrix)
    requires m.Valid() && m.IsSquare() && IsZero(m)
    ensures IsZero(DoublyCenter(m).value)
  {
    var jm := CenteringMatrix(m.rows);
    CenteringMatrixEntries(m.rows);
    var x := Mul(Neg(jm), m);
    ProductWithZero(Neg(jm), m);
    forall i, j | 0 <= i < x.rows && 0 <= j < jm.cols ensures Mul(x, jm).at[i][j] == 0.0 {
      SumOfZeros(DotTerms(x, jm, i, j));
    }
  }

  lemma SquareNonNegative(x: real)
    ensures x * x >= 0.0
  {
  }

  /** Every row sum of an entrywise square is non-negative. */
  lemma SquaredRowSumsNonNegative(a: Matrix)
    requires a.Valid()
    ensures forall i | 0 <= i < a.rows :: RowSums(SquareEntries(a))[i] >= 0.0
  {
    var sq := SquareEntries(a);
    forall i | 0 <= i < a.rows ensures RowSums(sq)[i] >= 0.0 {
      forall j | 0 <= j < a.cols ensures sq.at[i][j] >= 0.0 {
        SquareNonNegative(a.at[i][j]);
      }
      SumNonNegative(sq.at[i]);
    }
  }

  /** The total of an entrywise square is non-negative, and zero for the zero matrix. */
  lemma TotalOfSquares(a: Matrix)
    requires a.Valid()
    ensures Total(SquareEntries(a)) >= 0.0
    ensures IsZero(a) ==> Total(SquareEntries(a)) == 0.0
  {
    var sq := SquareEntries(a);
    var rs := RowSums(sq);
    SquaredRowSumsNonNegative(a);
    SumNonNegative(rs);
    if IsZero(a) {
      forall i | 0 <= i < a.rows ensures rs[i] == 0.0 {
        SumOfZeros(sq.at[i]);
      }
      SumOfZeros(rs);
    }
  }

  // ---------------------------------------------------------------- 2 x 2 arithmetic

  /** The entries of a 2 x 2 matrix, row by row. */
  predicate Entries(m: Matrix, a: real, b: real, c: real, e: real)
  {
    m.Valid() && m.rows == 2 && m.cols == 2 &&
    m.at[0][0] == a && m.at[0][1] == b && m.at[1][0] == c && m.at[1][1] == e
  }

  lemma TwoByTwoProduct(x: Matrix, y: Matrix, a: real, b: real, c: real, e: real,
                        p: real, q: real, r: real, s: real)
    requires Entries(x, a, b, c, e) && Entries(y, p, q, r, s)
    ensures Entries(Mul(x, y), a * p + b * r, a * q + b * s, c * p + e * r, c * q + e * s)
  {
    ProductOfTwo(x, y);
  }

  /** A 2 x 2 product entry by entry. */
  lemma ProductOfTwo(a: Matrix, b: Matrix)
    requires a.Valid() && b.Valid() && a.rows == 2 && a.cols == 2 && b.rows == 2 && b.cols == 2
    ensures forall i, j | 0 <= i < 2 && 0 <= j < 2 ::
      Mul(a, b).at[i][j] == a.at[i][0] * b.at[0][j] + a.at[i][1] * b.at[1][j]
  {
    forall i, j | 0 <= i < 2 && 0 <= j < 2
      ensures Mul(a, b).at[i][j] == a.at[i][0] * b.at[0][j] + a.at[i][1] * b.at[1][j]
    {
      SumOfTwo(DotTerms(a, b, i, j));
    }
  }

  /** The total of a 2 x 2 matrix. */
  lemma TotalOfTwoByTwo(a: Matrix)
    requires a.Valid() && a.rows == 2 && a.cols == 2
    ensures Total(a) == a.at[0][0] + a.at[0][1] + a.at[1][0] + a.at[1][1]
  {
    SumOfTwo(a.at[0]);
    SumOfTwo(a.at[1]);
    SumOfTwo(RowSums(a));
  }
}
