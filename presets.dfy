/** The `PRESETS` of `src/utils/matrix.js` and what the analysis says about
    each of them. */
module Presets {
  import opened JsMath
  import opened Optional
  import opened Primitives
  import opened Eigen
  import opened Analysis

  const DiagonalStretch: Mat := Mat(2.0, 0.0, 0.0, 0.5)
  const Shear: Mat := Mat(1.0, 1.0, 0.0, 1.0)
  const Reflection: Mat := Mat(-1.0, 0.0, 0.0, 1.0)
  const SaddlePreset: Mat := Mat(2.0, 0.0, 0.0, -0.5)
  const Rotation90: Mat := Mat(0.0, -1.0, 1.0, 0.0)
  const DefectiveShear: Mat := Mat(1.0, 1.0, 0.0, 1.0)

  /** `[[r·cos θ, −r·sin θ], [r·sin θ, r·cos θ]]` for `c = cos θ`, `s = sin θ`:
      `rotation30` (r = 1, θ = π/6), `spiral` (r = 0.9, θ = 0.3) and
      `expandingSpiral` (r = 1.1, θ = 0.3). */
  function ScaledRotation(r: real, c: real, s: real): Mat
  {
    Mat(r * c, -(r * s), r * s, r * c)
  }

  /** `identity` is a scaling with the single eigenvalue 1. */
  lemma IdentityPresetIsScaling(math: Host)
    requires math.Valid()
    ensures Eigenvalues(math, Identity) == Repeated(1.0, 0.0)
    ensures AnalyzeMatrix(math, Identity).classification == "Repeated Eigenvalue (Scaling)"
    ensures !AnalyzeMatrix(math, Identity).isDefective
  {
    ScalarNotDefective(math, 1.0);
    RepeatedLabelTest(math, Identity);
  }

  /** `diagonalStretch` has eigenvalues 2 and 1/2 on the axes ... */
  lemma DiagonalStretchEigenvalues(math: Host)
    requires math.Valid()
    ensures Eigenvalues(math, DiagonalStretch) == Real(2.0, 0.5, 2.25)
  {
    RealPairOf(math, DiagonalStretch, 2.5, 1.0, 1.5);
  }

  /** ... so it is a "Node": one eigenvalue contracts, the other expands. */
  lemma DiagonalStretchIsNode(math: Host)
    requires math.Valid()
    ensures AnalyzeMatrix(math, DiagonalStretch).classification == "Node"
  {
    DiagonalStretchEigenvalues(math);
    LabelOfVariant(math, DiagonalStretch);
  }

  /** `shear` and `defectiveShear` have the single eigenvalue 1 and only one
      eigendirection: "Defective (Shear-like)". */
  lemma ShearIsDefective(math: Host)
    requires math.Valid()
    ensures Eigenvalues(math, Shear) == Repeated(1.0, 0.0)
    ensures AnalyzeMatrix(math, Shear).classification == "Defective (Shear-like)"
    ensures AnalyzeMatrix(math, DefectiveShear).isDefective
  {
    JordanBlockDefective(math, 1.0, 1.0);
    RepeatedLabelTest(math, Shear);
  }

  /** `reflection` has eigenvalues −1 and 1: "Saddle". */
  lemma ReflectionIsSaddle(math: Host)
    requires math.Valid()
    ensures AnalyzeMatrix(math, Reflection).classification == "Saddle"
  {
    SaddleByDeterminant(math, Reflection);
  }

  /** `saddle` has eigenvalues 2 and −1/2: "Saddle". */
  lemma SaddlePresetIsSaddle(math: Host)
    requires math.Valid()
    ensures AnalyzeMatrix(math, SaddlePreset).classification == "Saddle"
  {
    SaddleByDeterminant(math, SaddlePreset);
  }

  /** `rotation90` has eigenvalues ±i of modulus 1: "Center (Rotation)". */
  lemma Rotation90IsCenter(math: Host)
    requires math.Valid()
    ensures AnalyzeMatrix(math, Rotation90).classification == "Center (Rotation)"
  {
    assert Det(Rotation90) == 1.0 && Abs(Trace(Rotation90)) <= 1.0;
    assert AnalyzeMatrix(math, Rotation90).classification == "Center (Rotation)" by {
      CenterByDeterminant(math, Rotation90);
    }
  }

  /** A negative determinant makes the discriminant positive: a saddle. */
  lemma SaddleByDeterminant(math: Host, A: Mat)
    requires math.Valid() && Det(A) <= -EPSILON
    ensures AnalyzeMatrix(math, A).classification == "Saddle"
  {
    SquareNonNegative(Trace(A));
    assert Discriminant(Trace(A), Det(A)) == Square(Trace(A)) - 4.0 * Det(A);
    assert Eigenvalues(math, A).Real?;
    SaddleIffNegativeDeterminant(math, A);
  }

  /** Determinant 1 and a discriminant at most `−ε`: a centre. */
  lemma CenterByDeterminant(math: Host, A: Mat)
    requires math.Valid() && Det(A) == 1.0 && Abs(Trace(A)) <= 1.0
    ensures AnalyzeMatrix(math, A).classification == "Center (Rotation)"
    ensures AnalyzeMatrix(math, A).eigenvectors == None
  {
    var t := Abs(Trace(A));
    MulLeftMonotone(t, t, 1.0);
    assert t * t <= t * 1.0 == t <= 1.0;
    assert Trace(A) * Trace(A) == t * t;
    assert Discriminant(Trace(A), Det(A)) == Trace(A) * Trace(A) - 4.0;
    assert Eigenvalues(math, A).Complex?;
    SpiralLabels(math, A);
  }

  /** The same, for a matrix of known trace and determinant. */
  lemma RealPairOf(math: Host, A: Mat, tr: real, d: real, s: real)
    requires math.Valid() && Trace(A) == tr && Det(A) == d
    requires 0.0 <= s && s * s == tr * tr - 4.0 * d && EPSILON <= s * s
    ensures Eigenvalues(math, A) == Real((tr + s) / 2.0, (tr - s) / 2.0, s * s)
  {
    RealPair(math, A, s);
  }

  /** A discriminant `s²` with `s ≥ 0` gives the eigenvalues `(tr ± s)/2`. */
  lemma RealPair(math: Host, A: Mat, s: real)
    requires math.Valid() && 0.0 <= s && s * s == Discriminant(Trace(A), Det(A)) && EPSILON <= s * s
    ensures Eigenvalues(math, A) == Real((Trace(A) + s) / 2.0, (Trace(A) - s) / 2.0, s * s)
  {
    SqrtOf(math, s * s, s);
  }

  /** A scaled rotation has determinant `r²` and discriminant `−4r²s²`. */
  lemma ScaledRotationInvariants(r: real, c: real, s: real)
    requires Square(c) + Square(s) == 1.0
    ensures Det(ScaledRotation(r, c, s)) == Square(r)
    ensures Discriminant(Trace(ScaledRotation(r, c, s)), Det(ScaledRotation(r, c, s)))
         == -4.0 * Product(Square(r), Square(s))
  {
    var M := ScaledRotation(r, c, s);
    var rc, rs := r * c, r * s;
    assert Det(M) == Square(rc) + Square(rs);
    assert Square(rc) == Product(Square(r), Square(c));
    assert Square(rs) == Product(Square(r), Square(s));
    assert Product(Square(r), Square(c)) + Product(Square(r), Square(s))
        == Product(Square(r), Square(c) + Square(s));
    assert Trace(M) == 2.0 * rc;
    assert Square(Trace(M)) == 4.0 * Square(rc);
    assert Product(Square(r), Square(c)) == Square(r) - Product(Square(r), Square(s));
  }

  /** With a sine far enough from 0 the eigenvalues `r·e^{±iθ}` are a
      complex pair of modulus `r`, and the label compares `r²` with the
      band `((1 − ε)², (1 + ε)²)`. */
  lemma ScaledRotationLabels(math: Host, r: real, c: real, s: real)
    requires math.Valid() && 0.0 < r && Square(c) + Square(s) == 1.0
    requires EPSILON <= 4.0 * Product(Square(r), Square(s))
    ensures Eigenvalues(math, ScaledRotation(r, c, s)).Complex?
    ensures var l := AnalyzeMatrix(math, ScaledRotation(r, c, s)).classification;
      && (l == "Stable Spiral" <==> Square(r) <= (1.0 - EPSILON) * (1.0 - EPSILON))
      && (l == "Center (Rotation)" <==> (1.0 - EPSILON) * (1.0 - EPSILON) < Square(r) < (1.0 + EPSILON) * (1.0 + EPSILON))
      && (l == "Unstable Spiral" <==> (1.0 + EPSILON) * (1.0 + EPSILON) <= Square(r))
  {
    ScaledRotationInvariants(r, c, s);
    SpiralLabels(math, ScaledRotation(r, c, s));
  }

  /** `rotation30` (`r = 1`, `sin θ = 1/2`) is a "Center (Rotation)". */
  lemma Rotation30IsCenter(math: Host, c: real, s: real)
    requires math.Valid() && Square(c) + Square(s) == 1.0 && s == 0.5
    ensures AnalyzeMatrix(math, ScaledRotation(1.0, c, s)).classification == "Center (Rotation)"
  {
    ScaledRotationLabels(math, 1.0, c, s);
  }

  /** `spiral` (`r = 0.9`, `sin 0.3 ≈ 0.2955`) is a "Stable Spiral". */
  lemma SpiralIsStable(math: Host, c: real, s: real)
    requires math.Valid() && Square(c) + Square(s) == 1.0 && 0.01 <= Square(s)
    ensures AnalyzeMatrix(math, ScaledRotation(0.9, c, s)).classification == "Stable Spiral"
  {
    assert 4.0 * Product(Square(0.9), Square(s)) >= 0.0324;
    ScaledRotationLabels(math, 0.9, c, s);
  }

  /** `expandingSpiral` (`r = 1.1`) is an "Unstable Spiral". */
  lemma ExpandingSpiralIsUnstable(math: Host, c: real, s: real)
    requires math.Valid() && Square(c) + Square(s) == 1.0 && 0.01 <= Square(s)
    ensures AnalyzeMatrix(math, ScaledRotation(1.1, c, s)).classification == "Unstable Spiral"
  {
    assert 4.0 * Product(Square(1.1), Square(s)) >= 0.0484;
    ScaledRotationLabels(math, 1.1, c, s);
  }
}
