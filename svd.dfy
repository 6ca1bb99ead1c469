/** `svd2x2` of `src/utils/matrix.js`: singular values and right singular
    vectors of a 2×2 matrix, read off the eigen-decomposition of `AᵀA`. */
module Svd {
  import opened JsMath
  import opened Optional
  import opened Primitives
  import opened Eigen

  /** The squared Frobenius norm: the sum of the squares of the entries. */
  function FrobeniusSq(A: Mat): real
  {
    A.a11 * A.a11 + A.a12 * A.a12 + A.a21 * A.a21 + A.a22 * A.a22
  }

  /** `AᵀA`, the `ATA` of `svd2x2`. It is symmetric and its trace is the
      squared Frobenius norm of `A`. */
  function AtA(A: Mat): (r: Mat)
    ensures r.a12 == r.a21
    ensures Trace(r) == FrobeniusSq(A)
  {
    Mat(A.a11 * A.a11 + A.a21 * A.a21, A.a11 * A.a12 + A.a21 * A.a22,
        A.a12 * A.a11 + A.a22 * A.a21, A.a12 * A.a12 + A.a22 * A.a22)
  }

  /** The determinant of `AᵀA` is `det(A)²`. */
  lemma AtADet(A: Mat)
    ensures Det(AtA(A)) == Square(Det(A))
  {
  }

  /** The quadratic form of `AᵀA` is the squared length of the image:
      `v·(AᵀA)v = |A·v|²`. */
  lemma Gram(A: Mat, v: Vec)
    ensures Dot(v, MatMul(AtA(A), v)) == NormSq(MatMul(A, v))
  {
  }

  /** `{ singularValues: [σ1, σ2], rightVectors: [v1, v2] }`. */
  datatype SvdResult = SvdResult(sigma1: real, sigma2: real, right1: Vec, right2: Vec)

  /** `svd2x2(A)` as written: `null` unless the eigenvalues of `AᵀA` are of
      the `'real'` (distinct) kind. Since those eigenvalues are never
      complex, it is `null` exactly when they are repeated. */
  function Svd2x2(math: Host, A: Mat): (r: Option<SvdResult>)
    requires math.Valid()
    ensures r.None? <==> Eigenvalues(math, AtA(A)).Repeated?
  {
    AtANotComplex(math, A);
    FromGram(math, AtA(A))
  }

  /** The part of `svd2x2` after `ATA` is formed, on `S = AᵀA`. */
  function FromGram(math: Host, S: Mat): (r: Option<SvdResult>)
    requires math.Valid()
    ensures r.None? <==> !Eigenvalues(math, S).Real?
    ensures r.Some? ==>
      var e := Eigenvalues(math, S);
      && r.value.sigma1 == math.sqrt(Max(0.0, e.lambda1))
      && r.value.sigma2 == math.sqrt(Max(0.0, e.lambda2))
      && r.value.right1 == Eigenvector(math, S, e.lambda1)
      && r.value.right2 == Eigenvector(math, S, e.lambda2)
  {
    var eigs := Eigenvalues(math, S);
    if !eigs.Real? then
      None
    else
      var sigma1 := math.sqrt(Max(0.0, eigs.lambda1));
      var sigma2 := math.sqrt(Max(0.0, eigs.lambda2));
      Some(SvdResult(sigma1, sigma2, Eigenvector(math, S, eigs.lambda1), Eigenvector(math, S, eigs.lambda2)))
  }

  /** The discriminant of `AᵀA` is `(p − q)² + 4r²` for `AᵀA = [[p, r], [r, q]]`,
      so its eigenvalues are never complex. */
  lemma AtANotComplex(math: Host, A: Mat)
    requires math.Valid()
    ensures Eigenvalues(math, AtA(A)).Real? || Eigenvalues(math, AtA(A)).Repeated?
  {
    var S := AtA(A);
    SymmetricDiscriminant(S.a11, S.a22, S.a12);
  }

  lemma SymmetricDiscriminant(p: real, q: real, s: real)
    ensures 0.0 <= Discriminant(Trace(Mat(p, s, s, q)), Det(Mat(p, s, s, q)))
  {
    assert Discriminant(Trace(Mat(p, s, s, q)), Det(Mat(p, s, s, q))) == Square(p - q) + 4.0 * Square(s);
    SquareNonNegative(p - q);
    SquareNonNegative(s);
  }

  /** For a unit eigenvector `v` of `AᵀA` with eigenvalue `λ`, `|A·v|² = λ`;
      in particular `λ ≥ 0`. */
  lemma GramEigenvalue(math: Host, A: Mat, lam: real, v: Vec)
    requires math.Valid() && Length(math, v) == 1.0
    requires MatMul(AtA(A), v) == Scale(lam, v)
    ensures NormSq(MatMul(A, v)) == lam
    ensures 0.0 <= lam
  {
    Gram(A, v);
    assert Dot(v, Scale(lam, v)) == lam * NormSq(v);
    assert NormSq(v) == 1.0;
    SumOfSquaresZero(MatMul(A, v));
  }

  /** Eigenvectors of a symmetric matrix for different eigenvalues are
      orthogonal: `λ(u·w) = (Su)·w = u·(Sw) = μ(u·w)`. */
  lemma SymmetricEigenvectorsOrthogonal(S: Mat, lam: real, u: Vec, mu: real, w: Vec)
    requires S.a12 == S.a21 && lam != mu
    requires MatMul(S, u) == Scale(lam, u) && MatMul(S, w) == Scale(mu, w)
    ensures Dot(u, w) == 0.0
  {
    assert Dot(MatMul(S, u), w) == Dot(u, MatMul(S, w));
    assert (lam - mu) * Dot(u, w) == 0.0;
    Cancel(lam - mu, Dot(u, w), 0.0);
  }

  /** For a symmetric `S` with two distinct eigenvalues, the two vectors
      `svd2x2` picks are orthonormal eigenvectors of `S`. */
  lemma GramVectors(math: Host, S: Mat)
    requires math.Valid() && S.a12 == S.a21 && FromGram(math, S).Some?
    ensures var r := FromGram(math, S).value; var e := Eigenvalues(math, S);
      && Length(math, r.right1) == 1.0 && Length(math, r.right2) == 1.0
      && MatMul(S, r.right1) == Scale(e.lambda1, r.right1)
      && MatMul(S, r.right2) == Scale(e.lambda2, r.right2)
      && Dot(r.right1, r.right2) == 0.0
  {
    var e := Eigenvalues(math, S);
    var r := FromGram(math, S).value;
    DistinctRootEigenvector(math, S, e.lambda1);
    DistinctRootEigenvector(math, S, e.lambda2);
    SymmetricEigenvectorsOrthogonal(S, e.lambda1, r.right1, e.lambda2, r.right2);
  }

  /** When `svd2x2` answers, both right vectors are unit eigenvectors of
      `AᵀA` and they are orthogonal. */
  lemma SvdRightVectors(math: Host, A: Mat)
    requires math.Valid() && Svd2x2(math, A).Some?
    ensures var r := Svd2x2(math, A).value; var e := Eigenvalues(math, AtA(A));
      && Length(math, r.right1) == 1.0 && Length(math, r.right2) == 1.0
      && MatMul(AtA(A), r.right1) == Scale(e.lambda1, r.right1)
      && MatMul(AtA(A), r.right2) == Scale(e.lambda2, r.right2)
      && Dot(r.right1, r.right2) == 0.0
  {
    GramVectors(math, AtA(A));
  }

  /** The singular value of a non-negative eigenvalue squares back to it. */
  lemma SigmaSquare(math: Host, lam: real)
    requires math.Valid() && 0.0 <= lam
    ensures 0.0 <= math.sqrt(Max(0.0, lam))
    ensures Square(math.sqrt(Max(0.0, lam))) == lam
  {
    assert Max(0.0, lam) == lam;
    SqrtSquare(math, lam);
  }

  /** When `svd2x2` answers, both eigenvalues of `AᵀA` are non-negative and
      `A` stretches each right vector by its singular value:
      `|A·vᵢ|² = σᵢ² = λᵢ`. */
  lemma SvdStretch(math: Host, A: Mat)
    requires math.Valid() && Svd2x2(math, A).Some?
    ensures var r := Svd2x2(math, A).value; var e := Eigenvalues(math, AtA(A));
      && 0.0 <= e.lambda2 < e.lambda1
      && NormSq(MatMul(A, r.right1)) == e.lambda1 == Square(r.sigma1)
      && NormSq(MatMul(A, r.right2)) == e.lambda2 == Square(r.sigma2)
  {
    var S := AtA(A);
    var e := Eigenvalues(math, S);
    var r := Svd2x2(math, A).value;
    GramVectors(math, S);
    GramEigenvalue(math, A, e.lambda1, r.right1);
    GramEigenvalue(math, A, e.lambda2, r.right2);
    SigmaSquare(math, e.lambda1);
    SigmaSquare(math, e.lambda2);
  }

  /** When `svd2x2` answers, `σ1 > σ2 ≥ 0`, the squares of the singular
      values add up to the squared Frobenius norm of `A` and their product
      is `|det A|`. */
  lemma SvdSingularValues(math: Host, A: Mat)
    requires math.Valid() && Svd2x2(math, A).Some?
    ensures var r := Svd2x2(math, A).value;
      && 0.0 <= r.sigma2 < r.sigma1
      && Square(r.sigma1) + Square(r.sigma2) == FrobeniusSq(A)
      && Product(r.sigma1, r.sigma2) == Abs(Det(A))
  {
    var S := AtA(A);
    var r := Svd2x2(math, A).value;
    SvdStretch(math, A);
    GramSingularValues(math, S);
    AtADet(A);
    RootOfSquare(Product(r.sigma1, r.sigma2), Det(A));
  }

  /** On `S` itself: for non-negative eigenvalues the singular values are
      ordered, their squares add up to `tr S` and the square of their
      product is `det S`. */
  lemma GramSingularValues(math: Host, S: Mat)
    requires math.Valid() && FromGram(math, S).Some? && 0.0 <= Eigenvalues(math, S).lambda2
    ensures var r := FromGram(math, S).value;
      && 0.0 <= r.sigma2 < r.sigma1
      && Square(r.sigma1) + Square(r.sigma2) == Trace(S)
      && 0.0 <= Product(r.sigma1, r.sigma2) && Square(Product(r.sigma1, r.sigma2)) == Det(S)
  {
    var e := Eigenvalues(math, S);
    var r := FromGram(math, S).value;
    SigmaSquare(math, e.lambda1);
    SigmaSquare(math, e.lambda2);
    SigmaOrder(r.sigma1, r.sigma2, e.lambda1, e.lambda2);
    SigmaProduct(r.sigma1, r.sigma2, e.lambda1, e.lambda2);
    RealVieta(math, S);
  }

  lemma SigmaOrder(s1: real, s2: real, l1: real, l2: real)
    requires 0.0 <= s1 && 0.0 <= s2 && Square(s1) == l1 && Square(s2) == l2 && l2 < l1
    ensures s2 < s1
  {
    SquareCompare(s2, s1);
  }

  lemma SigmaProduct(s1: real, s2: real, l1: real, l2: real)
    requires 0.0 <= s1 && 0.0 <= s2 && Square(s1) == l1 && Square(s2) == l2
    ensures 0.0 <= Product(s1, s2) && Square(Product(s1, s2)) == Product(l1, l2)
  {
    MulLeftMonotone(s1, 0.0, s2);
  }

  /** A non-negative `p` with `p² = d²` is `|d|`. */
  lemma RootOfSquare(p: real, d: real)
    requires 0.0 <= p && Square(p) == Square(d)
    ensures p == Abs(d)
  {
    assert Square(Abs(d)) == Square(d);
    SquareCompare(p, Abs(d));
    SquareCompare(Abs(d), p);
  }

  /** `svd2x2` as written gives up on every matrix whose `AᵀA` is a multiple
      `c·I` of the identity (rotations, reflections, the identity itself
      and their multiples): the eigenvalue of `AᵀA` is then repeated, not
      `'real'`. */
  lemma SvdNullForConformal(math: Host, A: Mat, c: real)
    requires math.Valid() && AtA(A) == ScalarMat(c)
    ensures Svd2x2(math, A) == None
  {
    ScalarNotDefective(math, c);
  }

  /** Concretely: the identity, where every interpolation from `I` to `A`
      starts, gets `null`. */
  lemma SvdNullAtStart(math: Host, A: Mat)
    requires math.Valid()
    ensures Svd2x2(math, InterpolateMatrix(A, 0.0)) == None
  {
    assert InterpolateMatrix(A, 0.0) == Identity;
    assert AtA(Identity) == ScalarMat(1.0);
    SvdNullForConformal(math, Identity, 1.0);
  }

  /** ... and so does every rotation `[[c, −s], [s, c]]` with `c² + s² = 1`,
      among them the `rotation30` and `rotation90` presets. */
  lemma SvdNullRotation(math: Host, c: real, s: real)
    requires math.Valid() && Square(c) + Square(s) == 1.0
    ensures Svd2x2(math, Mat(c, -s, s, c)) == None
  {
    var R := Mat(c, -s, s, c);
    assert AtA(R) == ScalarMat(1.0);
    SvdNullForConformal(math, R, 1.0);
  }

  /** `v` turned a quarter turn counter-clockwise. */
  function Perp(v: Vec): (r: Vec)
    ensures Dot(v, r) == 0.0 && NormSq(r) == NormSq(v)
  {
    Vec(-v.y, v.x)
  }

  /** The decomposition `svd2x2` evidently intends: where it answers, its
      answer; where the eigenvalue `λ` of `AᵀA` is repeated, the equal
      singular values `σ1 = σ2 = √max(0, λ)` with the eigenvector of `λ`
      and its perpendicular as right vectors. It always answers, with
      `σ1 ≥ σ2 ≥ 0` and orthonormal right vectors. */
  function SvdTotal(math: Host, A: Mat): (r: SvdResult)
    requires math.Valid()
    ensures Svd2x2(math, A).Some? ==> r == Svd2x2(math, A).value
    ensures 0.0 <= r.sigma2 <= r.sigma1
    ensures Length(math, r.right1) == 1.0 && Length(math, r.right2) == 1.0
    ensures Dot(r.right1, r.right2) == 0.0
  {
    match Svd2x2(math, A)
    case Some(result) =>
      SvdSingularValues(math, A);
      SvdRightVectors(math, A);
      result
    case None =>
      var lam := Eigenvalues(math, AtA(A)).lam;
      var sigma := math.sqrt(Max(0.0, lam));
      var v1 := Eigenvector(math, AtA(A), lam);
      SvdResult(sigma, sigma, v1, Perp(v1))
  }

  /** For `AᵀA = c·I` the corrected decomposition has `σ1 = σ2 = √c` and
      the standard basis as right vectors. */
  lemma SvdTotalConformal(math: Host, A: Mat, c: real)
    requires math.Valid() && AtA(A) == ScalarMat(c)
    ensures SvdTotal(math, A) == SvdResult(math.sqrt(c), math.sqrt(c), Vec(1.0, 0.0), Vec(0.0, 1.0))
  {
    SvdNullForConformal(math, A, c);
    ScalarNotDefective(math, c);
    ConformalColumns(A, c);
    SqrtOfMax(math, c);
    PerpOfFirstAxis();
  }

  /** ... and `A` stretches both right vectors by that singular value. */
  lemma SvdTotalConformalStretch(math: Host, A: Mat, c: real)
    requires math.Valid() && AtA(A) == ScalarMat(c)
    ensures var r := SvdTotal(math, A);
      && NormSq(MatMul(A, r.right1)) == Square(r.sigma1)
      && NormSq(MatMul(A, r.right2)) == Square(r.sigma2)
  {
    SvdTotalConformal(math, A, c);
    ConformalColumns(A, c);
    SigmaSquare(math, c);
    SqrtOfMax(math, c);
  }

  lemma PerpOfFirstAxis()
    ensures Perp(Vec(1.0, 0.0)) == Vec(0.0, 1.0)
  {
  }

  lemma SqrtOfMax(math: Host, c: real)
    requires 0.0 <= c
    ensures math.sqrt(Max(0.0, c)) == math.sqrt(c)
  {
    assert Max(0.0, c) == c;
  }

  /** For `AᵀA = c·I` both columns of `A` have squared length `c`. */
  lemma ConformalColumns(A: Mat, c: real)
    requires AtA(A) == ScalarMat(c)
    ensures NormSq(MatMul(A, Vec(1.0, 0.0))) == c && NormSq(MatMul(A, Vec(0.0, 1.0))) == c
    ensures 0.0 <= c
  {
    assert MatMul(A, Vec(1.0, 0.0)) == Vec(A.a11, A.a21);
    assert MatMul(A, Vec(0.0, 1.0)) == Vec(A.a12, A.a22);
    SumOfSquaresZero(Vec(A.a11, A.a21));
  }
}
