/** Finite sums of reals, the reduction numpy's `np.sum` and Python's `sum` perform. */
module Sums {

  /** The sum of a sequence, peeled from the back so that a prefix sum extends by one term. */
  function Sum(s: seq<real>): real
    decreases |s|
  {
    if |s| == 0 then 0.0 else Sum(s[..|s| - 1]) + s[|s| - 1]
  }

  /** A non-negative amount over a positive one is non-negative. */
  lemma RatioNonNegative(a: real, b: real)
    requires a >= 0.0 && b > 0.0
    ensures a / b >= 0.0
  {
  }

  lemma {:induction false} SumOfZeros(s: seq<real>)
    requires forall i | 0 <= i < |s| :: s[i] == 0.0
    ensures Sum(s) == 0.0
  {
    if |s| > 0 {
      SumOfZeros(s[..|s| - 1]);
    }
  }

  lemma {:induction false} SumNonNegative(s: seq<real>)
    requires forall i | 0 <= i < |s| :: s[i] >= 0.0
    ensures Sum(s) >= 0.0
  {
    if |s| > 0 {
      SumNonNegative(s[..|s| - 1]);
    }
  }

  /** Multiplying every term by c multiplies the sum by c. */
  lemma {:induction false} SumScaled(s: seq<real>, t: seq<real>, c: real)
    requires |t| == |s|
    requires forall i | 0 <= i < |s| :: t[i] == s[i] * c
    ensures Sum(t) == Sum(s) * c
  {
    if |s| > 0 {
      SumScaled(s[..|s| - 1], t[..|t| - 1], c);
    }
  }

  /** Dividing every term by a non-zero d divides the sum by d. */
  lemma {:induction false} SumDivided(s: seq<real>, t: seq<real>, d: real)
    requires d != 0.0
    requires |t| == |s|
    requires forall i | 0 <= i < |s| :: t[i] == s[i] / d
    ensures Sum(t) == Sum(s) / d
  {
    if |s| > 0 {
      SumDivided(s[..|s| - 1], t[..|t| - 1], d);
      assert Sum(t) == Sum(s[..|s| - 1]) / d + s[|s| - 1] / d;
    }
  }

  /** The sum of a termwise sum is the sum of the two sums. */
  lemma {:induction false} SumAdded(s: seq<real>, t: seq<real>, u: seq<real>)
    requires |t| == |s| && |u| == |s|
    requires forall i | 0 <= i < |s| :: u[i] == s[i] + t[i]
    ensures Sum(u) == Sum(s) + Sum(t)
  {
    if |s| > 0 {
      SumAdded(s[..|s| - 1], t[..|t| - 1], u[..|u| - 1]);
    }
  }

  lemma {:induction false} SumConstant(s: seq<real>, c: real)
    requires forall i | 0 <= i < |s| :: s[i] == c
    ensures Sum(s) == |s| as real * c
  {
    if |s| > 0 {
      SumConstant(s[..|s| - 1], c);
    }
  }

  /** A sequence that is zero except at position k sums to its k-th term. */
  lemma {:induction false} SumOfSingleTerm(s: seq<real>, k: nat)
    requires k < |s|
    requires forall i | 0 <= i < |s| && i != k :: s[i] == 0.0
    ensures Sum(s) == s[k]
  {
    var p := s[..|s| - 1];
    if k == |s| - 1 {
      SumOfZeros(p);
    } else {
      SumOfSingleTerm(p, k);
    }
  }

  /** A sum of two terms. */
  lemma SumOfTwo(s: seq<real>)
    requires |s| == 2
    ensures Sum(s) == s[0] + s[1]
  {
    var p := s[..1];
    assert p[..0] == [];
    assert Sum(p) == Sum(p[..0]) + p[0];
    assert Sum(s) == Sum(p) + s[1];
  }
}
