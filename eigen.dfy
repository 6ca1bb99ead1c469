/** The eigenvalue solver, the eigenvector construction and the
    defectiveness test of `src/utils/matrix.js`. */
module Eigen {
  import opened JsMath
  import opened Primitives

  /** `tr² − 4·det`: the discriminant of the characteristic polynomial
      `λ² − tr·λ + det = 0`. */
  function Discriminant(tr: real, d: real): real
  {
    tr * tr - 4.0 * d
  }

  datatype ComplexValue = ComplexValue(re: real, im: real)

  /** The result of `eigenvalues`, whose `type` tag is `'real'`, `'repeated'`
      or `'complex'`. A repeated eigenvalue is reported as `values: [λ, λ]`;
      here it is the single `lam`. */
  datatype EigenResult =
    | Real(lambda1: real, lambda2: real, discriminant: real)
    | Repeated(lam: real, discriminant: real)
    | Complex(first: ComplexValue, second: ComplexValue, modulus: real, angle: real, discriminant: real)

  /** `eigenvalues(A)`. Exactly one variant is chosen, by comparing the
      discriminant with `EPSILON`. Two distinct real eigenvalues are the two
      roots of the characteristic polynomial, larger first; a complex pair
      has positive imaginary part first, then its conjugate, and its
      modulus squared is the determinant. */
  function Eigenvalues(math: Host, A: Mat): (r: EigenResult)
    requires math.Valid()
    ensures r.Repeated? <==> Abs(Discriminant(Trace(A), Det(A))) < EPSILON
    ensures r.Real? <==> EPSILON <= Discriminant(Trace(A), Det(A))
    ensures r.Complex? <==> Discriminant(Trace(A), Det(A)) <= -EPSILON
    ensures r.Repeated? ==> r.discriminant == 0.0 && 2.0 * r.lam == Trace(A)
    ensures r.Real? ==>
      && r.discriminant == Discriminant(Trace(A), Det(A))
      && r.lambda2 < r.lambda1
      && r.lambda1 + r.lambda2 == Trace(A)
      && r.lambda1 * r.lambda2 == Det(A)
      && Det(Shift(A, r.lambda1)) == 0.0 && Det(Shift(A, r.lambda2)) == 0.0
    ensures r.Complex? ==>
      && r.discriminant == Discriminant(Trace(A), Det(A))
      && 2.0 * r.first.re == Trace(A)
      && 0.0 < r.first.im
      && r.first.re * r.first.re + r.first.im * r.first.im == Det(A)
      && r.second == ComplexValue(r.first.re, -r.first.im)
      && 0.0 < r.modulus && r.modulus * r.modulus == Det(A)
      && r.angle == math.atan2(r.first.im, r.first.re)
  {
    var tr := Trace(A);
    var d := Det(A);
    var disc := Discriminant(tr, d);
    if Abs(disc) < EPSILON then
      Repeated(tr / 2.0, 0.0)
    else if disc > 0.0 then
      var s := math.sqrt(disc);
      RealRoots(math, A, s);
      Real((tr + s) / 2.0, (tr - s) / 2.0, disc)
    else
      var re := tr / 2.0;
      var im := math.sqrt(-disc) / 2.0;
      var modulus := math.sqrt(re * re + im * im);
      ComplexPair(math, A, math.sqrt(-disc));
      Complex(ComplexValue(re, im), ComplexValue(re, -im), modulus, math.atan2(im, re), disc)
  }

  lemma RealRoots(math: Host, A: Mat, s: real)
    requires math.Valid() && EPSILON <= Discriminant(Trace(A), Det(A))
    requires s == math.sqrt(Discriminant(Trace(A), Det(A)))
    ensures 0.0 < s
    ensures ((Trace(A) + s) / 2.0) * ((Trace(A) - s) / 2.0) == Det(A)
    ensures Det(Shift(A, (Trace(A) + s) / 2.0)) == 0.0
    ensures Det(Shift(A, (Trace(A) - s) / 2.0)) == 0.0
  {
    var disc := Discriminant(Trace(A), Det(A));
    SqrtSquare(math, disc);
    SqrtPositive(math, disc);
    CharPoly(A, (Trace(A) + s) / 2.0);
    CharPoly(A, (Trace(A) - s) / 2.0);
  }

  lemma ComplexPair(math: Host, A: Mat, q: real)
    requires math.Valid() && Discriminant(Trace(A), Det(A)) <= -EPSILON
    requires q == math.sqrt(-Discriminant(Trace(A), Det(A)))
    ensures 0.0 < q
    ensures (Trace(A) / 2.0) * (Trace(A) / 2.0) + (q / 2.0) * (q / 2.0) == Det(A)
    ensures 0.0 < Det(A)
    ensures var m := math.sqrt(Det(A)); 0.0 < m && m * m == Det(A)
  {
    var disc := Discriminant(Trace(A), Det(A));
    SqrtSquare(math, -disc);
    SqrtPositive(math, -disc);
    SquareNonNegative(Trace(A));
    assert 4.0 * Det(A) == Square(Trace(A)) - disc;
    SqrtSquare(math, Det(A));
    SqrtPositive(math, Det(A));
  }

  /** Vieta's formulas for two distinct real eigenvalues, with the product
      kept behind `Product`. */
  lemma RealVieta(math: Host, A: Mat)
    requires math.Valid() && Eigenvalues(math, A).Real?
    ensures Eigenvalues(math, A).lambda1 + Eigenvalues(math, A).lambda2 == Trace(A)
    ensures Product(Eigenvalues(math, A).lambda1, Eigenvalues(math, A).lambda2) == Det(A)
  {
  }

  /** `[-B[0][1], B[0][0]]`: perpendicular to row 0 of `B`. */
  function Row0Candidate(B: Mat): Vec
  {
    Vec(-B.a12, B.a11)
  }

  /** `[-B[1][1], B[1][0]]`: perpendicular to row 1 of `B`. */
  function Row1Candidate(B: Mat): Vec
  {
    Vec(-B.a22, B.a21)
  }

  /** The first candidate of `eigenvector`: the row-0 vector of `A − λI`,
      unless both its entries are within `EPSILON` of zero, in which case the
      row-1 vector. */
  function Candidate(A: Mat, lam: real): (v: Vec)
    ensures v == Row0Candidate(Shift(A, lam)) || v == Row1Candidate(Shift(A, lam))
    ensures v == Row1Candidate(Shift(A, lam)) || EPSILON <= Abs(v.x) || EPSILON <= Abs(v.y)
  {
    var B := Shift(A, lam);
    var v := Row0Candidate(B);
    if Abs(v.x) < EPSILON && Abs(v.y) < EPSILON then Row1Candidate(B) else v
  }

  /** The `error` of `eigenvector`: the length of `A·v − λ·v`. */
  function Residual(math: Host, A: Mat, lam: real, v: Vec): (e: real)
    requires math.Valid()
    ensures 0.0 <= e
    ensures e == 0.0 <==> MatMul(A, v) == Scale(lam, v)
  {
    var av := MatMul(A, v);
    var lv := Vec(lam * v.x, lam * v.y);
    Length(math, Vec(av.x - lv.x, av.y - lv.y))
  }

  /** Both candidates lie in the null space of a singular matrix: `B·v` is
      `[0, det B]` for the row-0 vector and `[-det B, 0]` for the row-1 vector. */
  lemma CandidatesInNullSpace(B: Mat)
    ensures MatMul(B, Row0Candidate(B)) == Vec(0.0, Det(B))
    ensures MatMul(B, Row1Candidate(B)) == Vec(-Det(B), 0.0)
  {
  }

  /** `eigenvector(A, λ)`: a unit vector built from a row of `A − λI`, with a
      second fallback to the row-1 vector when `A·v` is further than
      `0.1·|λ|` from `λ·v`. When `λ` is an exact eigenvalue the fallback never
      fires, and a candidate at least `EPSILON` long gives an exact unit
      eigenvector. */
  function Eigenvector(math: Host, A: Mat, lam: real): (r: Vec)
    requires math.Valid()
    ensures Length(math, r) == 1.0
    ensures r == Normalize(math, Row0Candidate(Shift(A, lam))) || r == Normalize(math, Row1Candidate(Shift(A, lam)))
    ensures Det(Shift(A, lam)) == 0.0 ==> r == Normalize(math, Candidate(A, lam))
    ensures Det(Shift(A, lam)) == 0.0 && EPSILON <= Length(math, Candidate(A, lam)) ==>
              MatMul(A, r) == Scale(lam, r)
    ensures A == ScalarMat(lam) ==> r == Vec(1.0, 0.0)
  {
    var v := Candidate(A, lam);
    var error := Residual(math, A, lam, v);
    var chosen := if error > 0.1 * Abs(lam) then Row1Candidate(Shift(A, lam)) else v;
    EigenvectorFacts(math, A, lam, v, error, chosen);
    Normalize(math, chosen)
  }

  lemma EigenvectorFacts(math: Host, A: Mat, lam: real, v: Vec, error: real, chosen: Vec)
    requires math.Valid()
    requires v == Candidate(A, lam) && error == Residual(math, A, lam, v)
    requires chosen == if error > 0.1 * Abs(lam) then Row1Candidate(Shift(A, lam)) else v
    ensures Det(Shift(A, lam)) == 0.0 ==> chosen == v
    ensures Det(Shift(A, lam)) == 0.0 && EPSILON <= Length(math, v) ==>
              MatMul(A, Normalize(math, chosen)) == Scale(lam, Normalize(math, chosen))
    ensures A == ScalarMat(lam) ==> Normalize(math, chosen) == Vec(1.0, 0.0)
  {
    if Det(Shift(A, lam)) == 0.0 {
      CandidateAtRoot(math, A, lam);
      assert chosen == v;
      if EPSILON <= Length(math, v) {
        NormalizedEigenvector(math, A, lam, v);
      }
      if A == ScalarMat(lam) {
        ScalarCandidate(math, lam);
      }
    }
  }

  lemma ScalarCandidate(math: Host, lam: real)
    requires math.Valid()
    ensures Candidate(ScalarMat(lam), lam) == Vec(0.0, 0.0)
    ensures Normalize(math, Vec(0.0, 0.0)) == Vec(1.0, 0.0)
  {
    assert Shift(ScalarMat(lam), lam) == Mat(0.0, 0.0, 0.0, 0.0);
    assert Row0Candidate(Mat(0.0, 0.0, 0.0, 0.0)) == Vec(0.0, 0.0);
    NormalizeZero(math);
  }

  /** `normalize` sends the zero vector to `[1, 0]`. */
  lemma NormalizeZero(math: Host)
    requires math.Valid()
    ensures Normalize(math, Vec(0.0, 0.0)) == Vec(1.0, 0.0)
  {
    assert Length(math, Vec(0.0, 0.0)) == 0.0;
  }

  /** At an exact eigenvalue the candidate is an eigenvector, so the `error`
      is zero and the second fallback does not fire. */
  lemma CandidateAtRoot(math: Host, A: Mat, lam: real)
    requires math.Valid() && Det(Shift(A, lam)) == 0.0
    ensures MatMul(A, Candidate(A, lam)) == Scale(lam, Candidate(A, lam))
    ensures Residual(math, A, lam, Candidate(A, lam)) == 0.0
  {
    var v := Candidate(A, lam);
    CandidatesInNullSpace(Shift(A, lam));
    ShiftApply(A, lam, v);
  }

  /** Scaling an eigenvector to unit length keeps it an eigenvector. */
  lemma NormalizedEigenvector(math: Host, A: Mat, lam: real, v: Vec)
    requires math.Valid() && EPSILON <= Length(math, v)
    requires MatMul(A, v) == Scale(lam, v)
    ensures MatMul(A, Normalize(math, v)) == Scale(lam, Normalize(math, v))
  {
    var len := Length(math, v);
    ScaledEigenvector(A, lam, len, Normalize(math, v));
  }

  /** Dividing an eigenvector by a nonzero length keeps it an eigenvector. */
  lemma ScaledEigenvector(A: Mat, lam: real, len: real, u: Vec)
    requires len != 0.0 && MatMul(A, Scale(len, u)) == Scale(lam, Scale(len, u))
    ensures MatMul(A, u) == Scale(lam, u)
  {
    var w := MatMul(A, u);
    assert MatMul(A, Scale(len, u)) == Scale(len, w);
    assert Scale(lam, Scale(len, u)) == Scale(len, Scale(lam, u));
    Cancel(len, w.x, lam * u.x);
    Cancel(len, w.y, lam * u.y);
  }

  /** A vector with an entry at least `EPSILON` in size is at least
      `EPSILON` long, so `normalize` does not replace it by `[1, 0]`. */
  lemma LongCandidate(math: Host, v: Vec)
    requires math.Valid() && (EPSILON <= Abs(v.x) || EPSILON <= Abs(v.y))
    ensures EPSILON <= Length(math, v)
  {
    var a := if EPSILON <= Abs(v.x) then Abs(v.x) else Abs(v.y);
    SquareNonNegative(v.x);
    SquareNonNegative(v.y);
    assert Square(a) == Square(v.x) || Square(a) == Square(v.y);
    if EPSILON < a {
      SquareStrictMonotone(EPSILON, a);
    }
    assert EPSILON * EPSILON <= NormSq(v);
    SqrtBelow(math, NormSq(v), EPSILON);
  }

  /** For two distinct real eigenvalues the matrix `A − λI` has trace `±√Δ`,
      which is far larger than `EPSILON`; so whichever row the candidate
      comes from, it has an entry at least `EPSILON` in size. */
  lemma DistinctRootCandidate(math: Host, A: Mat, lam: real)
    requires math.Valid() && Eigenvalues(math, A).Real?
    requires lam == Eigenvalues(math, A).lambda1 || lam == Eigenvalues(math, A).lambda2
    ensures EPSILON <= Abs(Candidate(A, lam).x) || EPSILON <= Abs(Candidate(A, lam).y)
  {
    var e := Eigenvalues(math, A);
    var B := Shift(A, lam);
    var t := Abs(e.lambda1 - e.lambda2);
    assert Abs(Trace(B)) == t;
    assert t * t == Discriminant(Trace(A), Det(A));
    if t <= 2.0 * EPSILON {
      if t < 2.0 * EPSILON {
        SquareStrictMonotone(t, 2.0 * EPSILON);
      }
      assert false;
    }
    var c := Candidate(A, lam);
    if c == Row1Candidate(B) && Abs(c.x) < EPSILON && Abs(c.y) < EPSILON {
      assert false;
    }
  }

  /** Both eigenvectors built for two distinct real eigenvalues are exact
      unit eigenvectors. */
  lemma DistinctRootEigenvector(math: Host, A: Mat, lam: real)
    requires math.Valid() && Eigenvalues(math, A).Real?
    requires lam == Eigenvalues(math, A).lambda1 || lam == Eigenvalues(math, A).lambda2
    ensures Length(math, Eigenvector(math, A, lam)) == 1.0
    ensures MatMul(A, Eigenvector(math, A, lam)) == Scale(lam, Eigenvector(math, A, lam))
  {
    DistinctRootCandidate(math, A, lam);
    LongCandidate(math, Candidate(A, lam));
  }

  function Cross(u: Vec, w: Vec): real
  {
    u.x * w.y - u.y * w.x
  }

  /** Eigenvectors of two different eigenvalues are never parallel. */
  lemma DistinctEigenvaluesIndependent(A: Mat, lam: real, u: Vec, mu: real, w: Vec)
    requires lam != mu && u != Vec(0.0, 0.0) && w != Vec(0.0, 0.0)
    requires MatMul(A, u) == Scale(lam, u) && MatMul(A, w) == Scale(mu, w)
    ensures Cross(u, w) != 0.0
  {
    if Cross(u, w) == 0.0 {
      // |u|²·w = (u·w)·u + Cross(u, w)·(−u.y, u.x) = (u·w)·u, so applying A
      // gives |u|²·μ·w = |u|²·λ·w with |u|² > 0 and w non-zero.
      SumOfSquaresZero(u);
      assert false;
    }
  }

  /** The `diff` of `isDefective`: how far `A` is from `λI`, entry by entry. */
  function Deviation(A: Mat, lam: real): (d: real)
    ensures 0.0 <= d
    ensures d == 0.0 <==> A == ScalarMat(lam)
  {
    Abs(A.a11 - lam) + Abs(A.a22 - lam) + Abs(A.a12) + Abs(A.a21)
  }

  /** `isDefective(A)`: false unless the eigenvalue is repeated; then true
      exactly when `A` is more than `EPSILON` away from `λI`. The eigenvector
      the source computes on the way is not used. */
  function IsDefective(math: Host, A: Mat): (r: bool)
    requires math.Valid()
    ensures r ==> Eigenvalues(math, A).Repeated?
    ensures Eigenvalues(math, A).Repeated? ==> (r <==> EPSILON < Deviation(A, Trace(A) / 2.0))
    ensures r ==> A != ScalarMat(Trace(A) / 2.0)
  {
    var eigs := Eigenvalues(math, A);
    if !eigs.Repeated? then
      false
    else
      var lam := eigs.lam;
      var v := Eigenvector(math, A, lam);
      var diff := Abs(A.a11 - lam) + Abs(A.a22 - lam) + Abs(A.a12) + Abs(A.a21);
      diff > EPSILON
  }

  /** A non-zero 2×2 matrix has at most one direction in its null space. */
  lemma NullDirection(B: Mat, u: Vec, w: Vec)
    requires B != Mat(0.0, 0.0, 0.0, 0.0)
    requires MatMul(B, u) == Vec(0.0, 0.0) && MatMul(B, w) == Vec(0.0, 0.0)
    ensures Cross(u, w) == 0.0
  {
    if B.a11 != 0.0 || B.a12 != 0.0 {
      assert B.a11 * Cross(u, w) == 0.0 && B.a12 * Cross(u, w) == 0.0;
      if B.a11 != 0.0 {
        Cancel(B.a11, Cross(u, w), 0.0);
      } else {
        Cancel(B.a12, Cross(u, w), 0.0);
      }
    } else {
      assert B.a21 * Cross(u, w) == 0.0 && B.a22 * Cross(u, w) == 0.0;
      if B.a21 != 0.0 {
        Cancel(B.a21, Cross(u, w), 0.0);
      } else {
        Cancel(B.a22, Cross(u, w), 0.0);
      }
    }
  }

  /** A defective matrix has a single eigendirection: any two eigenvectors
      of its eigenvalue `tr/2` are parallel. */
  lemma DefectiveHasOneEigendirection(math: Host, A: Mat, u: Vec, w: Vec)
    requires math.Valid() && IsDefective(math, A)
    requires MatMul(A, u) == Scale(Trace(A) / 2.0, u) && MatMul(A, w) == Scale(Trace(A) / 2.0, w)
    ensures Cross(u, w) == 0.0
  {
    var lam := Trace(A) / 2.0;
    ShiftApply(A, lam, u);
    ShiftApply(A, lam, w);
    NullDirection(Shift(A, lam), u, w);
  }

  /** `c·I` has the repeated eigenvalue `c` and is never defective. */
  lemma ScalarNotDefective(math: Host, c: real)
    requires math.Valid()
    ensures Eigenvalues(math, ScalarMat(c)) == Repeated(c, 0.0)
    ensures !IsDefective(math, ScalarMat(c))
  {
    assert Discriminant(Trace(ScalarMat(c)), Det(ScalarMat(c))) == 0.0;
  }

  /** A Jordan block `[[c, b], [0, c]]` with `|b| > EPSILON` is defective. */
  lemma JordanBlockDefective(math: Host, c: real, b: real)
    requires math.Valid() && EPSILON < Abs(b)
    ensures Eigenvalues(math, Mat(c, b, 0.0, c)) == Repeated(c, 0.0)
    ensures IsDefective(math, Mat(c, b, 0.0, c))
  {
    assert Discriminant(Trace(Mat(c, b, 0.0, c)), Det(Mat(c, b, 0.0, c))) == 0.0;
  }
}
