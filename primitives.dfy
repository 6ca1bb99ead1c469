/** The matrix and vector primitives of `src/utils/matrix.js`: a 2×2 real
    matrix `[[a11, a12], [a21, a22]]`, a vector `[x, y]`, and the operations
    every other part of the analysis is built from. */
module Primitives {
  import opened JsMath

  /** The tolerance `EPSILON = 1e-9` used by every comparison of the core. */
  const EPSILON: real := 1.0 / 1000000000.0

  datatype Vec = Vec(x: real, y: real)

  datatype Mat = Mat(a11: real, a12: real, a21: real, a22: real)

  const Identity: Mat := Mat(1.0, 0.0, 0.0, 1.0)

  function Scale(c: real, v: Vec): Vec
  {
    Vec(c * v.x, c * v.y)
  }

  function Dot(u: Vec, v: Vec): real
  {
    u.x * v.x + u.y * v.y
  }

  /** `c·I`, the matrix that scales every vector by `c`. */
  function ScalarMat(c: real): Mat
  {
    Mat(c, 0.0, 0.0, c)
  }

  /** `A − λI`, the matrix called `B` in `eigenvector`. */
  function Shift(A: Mat, lam: real): Mat
  {
    Mat(A.a11 - lam, A.a12, A.a21, A.a22 - lam)
  }

  /** `matmul(A, v)`: the matrix-vector product. */
  function MatMul(A: Mat, v: Vec): Vec
  {
    Vec(A.a11 * v.x + A.a12 * v.y, A.a21 * v.x + A.a22 * v.y)
  }

  /** `matmul` is the linear map of `A`: it respects scaling and sums, and
      the identity leaves every vector alone. */
  lemma MatMulLinear(A: Mat, c: real, u: Vec, w: Vec)
    ensures MatMul(A, Vec(c * u.x + w.x, c * u.y + w.y))
         == Vec(c * MatMul(A, u).x + MatMul(A, w).x, c * MatMul(A, u).y + MatMul(A, w).y)
    ensures MatMul(Identity, u) == u
  {
  }

  /** `trace(A)`: the sum of the diagonal. */
  function Trace(A: Mat): real
  {
    A.a11 + A.a22
  }

  /** `det(A)`: `a11·a22 − a12·a21`. */
  function Det(A: Mat): real
  {
    A.a11 * A.a22 - A.a12 * A.a21
  }

  /** `det(A − λI)` is the characteristic polynomial `λ² − tr(A)·λ + det(A)`. */
  lemma CharPoly(A: Mat, lam: real)
    ensures Det(Shift(A, lam)) == lam * lam - Trace(A) * lam + Det(A)
  {
  }

  /** Applying `A − λI` to `v` gives `A·v − λ·v`. */
  lemma ShiftApply(A: Mat, lam: real, v: Vec)
    ensures MatMul(Shift(A, lam), v) == Vec(MatMul(A, v).x - lam * v.x, MatMul(A, v).y - lam * v.y)
  {
  }

  /** `interpolateMatrix(A, t)`: `(1 − t)·I + t·A`. It starts at the identity,
      ends at `A`, and moves every vector along the straight line from `v`
      to `A·v`. */
  function InterpolateMatrix(A: Mat, t: real): (r: Mat)
    ensures t == 0.0 ==> r == Identity
    ensures t == 1.0 ==> r == A
    ensures forall v: Vec :: MatMul(r, v) == Vec((1.0 - t) * v.x + t * MatMul(A, v).x, (1.0 - t) * v.y + t * MatMul(A, v).y)
    ensures Trace(r) == 2.0 * (1.0 - t) + t * Trace(A)
  {
    var r := Mat((1.0 - t) * 1.0 + t * A.a11, (1.0 - t) * 0.0 + t * A.a12,
                 (1.0 - t) * 0.0 + t * A.a21, (1.0 - t) * 1.0 + t * A.a22);
    assert forall v: Vec :: MatMul(r, v) == Vec((1.0 - t) * v.x + t * MatMul(A, v).x, (1.0 - t) * v.y + t * MatMul(A, v).y) by {
      forall v: Vec
        ensures MatMul(r, v) == Vec((1.0 - t) * v.x + t * MatMul(A, v).x, (1.0 - t) * v.y + t * MatMul(A, v).y)
      {
        InterpolateAction(A, t, v);
      }
    }
    r
  }

  /** `(1 − t)I + tA` sends `v` to the point a fraction `t` of the way from
      `v` to `A·v`. */
  lemma InterpolateAction(A: Mat, t: real, v: Vec)
    ensures var r := Mat((1.0 - t) * 1.0 + t * A.a11, (1.0 - t) * 0.0 + t * A.a12,
                         (1.0 - t) * 0.0 + t * A.a21, (1.0 - t) * 1.0 + t * A.a22);
            MatMul(r, v) == Vec((1.0 - t) * v.x + t * MatMul(A, v).x, (1.0 - t) * v.y + t * MatMul(A, v).y)
  {
  }

  /** The squared norm `x² + y²`. */
  function NormSq(v: Vec): real
  {
    v.x * v.x + v.y * v.y
  }

  /** `length(v)`: the Euclidean norm. */
  function Length(math: Host, v: Vec): (r: real)
    requires math.Valid()
    ensures 0.0 <= r && r * r == NormSq(v)
    ensures r == 0.0 <==> v == Vec(0.0, 0.0)
  {
    SqrtOfNormSq(math, v);
    math.sqrt(NormSq(v))
  }

  lemma SqrtOfNormSq(math: Host, v: Vec)
    requires math.Valid()
    ensures 0.0 <= math.sqrt(NormSq(v)) && math.sqrt(NormSq(v)) * math.sqrt(NormSq(v)) == NormSq(v)
    ensures math.sqrt(NormSq(v)) == 0.0 <==> v == Vec(0.0, 0.0)
  {
    SumOfSquaresZero(v);
    SqrtSquare(math, NormSq(v));
    if v == Vec(0.0, 0.0) {
      SqrtZero(math);
    } else {
      SqrtPositive(math, NormSq(v));
    }
  }

  lemma SumOfSquaresZero(v: Vec)
    ensures 0.0 <= NormSq(v)
    ensures 0.0 < NormSq(v) <==> v != Vec(0.0, 0.0)
  {
    SquareNonNegative(v.x);
    SquareNonNegative(v.y);
    if v.x != 0.0 {
      SquarePositive(v.x);
    } else if v.y != 0.0 {
      assert v.x * v.x == 0.0;
      SquarePositive(v.y);
    }
  }

  /** `normalize(v)`: the unit vector in the direction of `v`, or `[1, 0]`
      when `v` is shorter than `EPSILON`. */
  function Normalize(math: Host, v: Vec): (r: Vec)
    requires math.Valid()
    ensures Length(math, v) < EPSILON ==> r == Vec(1.0, 0.0)
    ensures EPSILON <= Length(math, v) ==> Scale(Length(math, v), r) == v
    ensures Length(math, r) == 1.0
  {
    var len := Length(math, v);
    if len < EPSILON then
      SqrtOf(math, 1.0, 1.0);
      Vec(1.0, 0.0)
    else
      var r := Vec(v.x / len, v.y / len);
      UnitLength(math, v, len, r);
      r
  }

  lemma UnitLength(math: Host, v: Vec, len: real, r: Vec)
    requires math.Valid() && 0.0 < len && len * len == NormSq(v)
    requires r == Vec(v.x / len, v.y / len)
    ensures Scale(len, r) == v
    ensures Length(math, r) == 1.0
  {
    assert Scale(len, r) == v;
    ScaledNormSq(len, r);
    ProductPositive(len, len);
    Cancel(Product(len, len), NormSq(r), 1.0);
    SqrtOf(math, 1.0, 1.0);
  }

  lemma ScaledNormSq(c: real, v: Vec)
    ensures NormSq(Scale(c, v)) == (c * c) * NormSq(v)
  {
  }
}
