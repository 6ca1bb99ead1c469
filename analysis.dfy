/** `analyzeMatrix` and `classifyRegime` of `src/utils/matrix.js`: the
    aggregate that the visualisations read, and the phase-portrait label
    derived from the eigenstructure. */
module Analysis {
  import opened JsMath
  import opened Optional
  import opened Primitives
  import opened Eigen

  /** The object returned by `analyzeMatrix`. */
  datatype AnalysisResult = AnalysisResult(
    trace: real,
    determinant: real,
    eigenvalues: EigenResult,
    eigenvectors: Option<seq<Vec>>,
    classification: string,
    isDefective: bool)

  const RealLabels: set<string> := {"Saddle", "Stable Node", "Unstable Node", "Node"}
  const ComplexLabels: set<string> := {"Center (Rotation)", "Stable Spiral", "Unstable Spiral"}
  const RepeatedLabels: set<string> := {"Defective (Shear-like)", "Repeated Eigenvalue (Scaling)"}

  /** The label for two distinct real eigenvalues. */
  function RealLabel(lambda1: real, lambda2: real): string
  {
    if lambda1 * lambda2 < 0.0 then "Saddle"
    else if Abs(lambda1) < 1.0 && Abs(lambda2) < 1.0 then "Stable Node"
    else if Abs(lambda1) > 1.0 && Abs(lambda2) > 1.0 then "Unstable Node"
    else "Node"
  }

  /** The label for a complex pair of the given modulus. */
  function ComplexLabel(modulus: real): string
  {
    if Abs(modulus - 1.0) < EPSILON then "Center (Rotation)"
    else if modulus < 1.0 then "Stable Spiral"
    else "Unstable Spiral"
  }

  /** The label for a repeated eigenvalue. */
  function RepeatedLabel(defective: bool): string
  {
    if defective then "Defective (Shear-like)" else "Repeated Eigenvalue (Scaling)"
  }

  /** `analyzeMatrix(A)`: trace, determinant and eigenvalues of `A`; one
      eigenvector per real eigenvalue and none for a complex pair; a label
      from the family of the eigenvalue variant; and the defectiveness flag,
      which can only be set for a repeated eigenvalue. */
  function AnalyzeMatrix(math: Host, A: Mat): (r: AnalysisResult)
    requires math.Valid()
    ensures r.trace == Trace(A) && r.determinant == Det(A) && r.eigenvalues == Eigenvalues(math, A)
    ensures r.eigenvectors.None? <==> r.eigenvalues.Complex?
    ensures r.eigenvalues.Real? ==>
              r.eigenvectors == Some([Eigenvector(math, A, r.eigenvalues.lambda1), Eigenvector(math, A, r.eigenvalues.lambda2)])
    ensures r.eigenvalues.Repeated? ==> r.eigenvectors == Some([Eigenvector(math, A, r.eigenvalues.lam)])
    ensures r.eigenvalues.Real? ==> r.classification in RealLabels
    ensures r.eigenvalues.Complex? ==> r.classification in ComplexLabels
    ensures r.eigenvalues.Repeated? ==> r.classification in RepeatedLabels
    ensures r.isDefective == IsDefective(math, A)
    ensures r.isDefective ==> r.eigenvalues.Repeated?
  {
    var tr := Trace(A);
    var d := Det(A);
    var eigs := Eigenvalues(math, A);
    var isDefective := eigs.Repeated? && IsDefective(math, A);
    match eigs
    case Real(lambda1, lambda2, _) =>
      var eigenvectors := [Eigenvector(math, A, lambda1), Eigenvector(math, A, lambda2)];
      AnalysisResult(tr, d, eigs, Some(eigenvectors), RealLabel(lambda1, lambda2), isDefective)
    case Complex(_, _, modulus, _, _) =>
      AnalysisResult(tr, d, eigs, None, ComplexLabel(modulus), isDefective)
    case Repeated(lam, _) =>
      var defective := IsDefective(math, A);
      var eigenvectors := [Eigenvector(math, A, lam)];
      AnalysisResult(tr, d, eigs, Some(eigenvectors), RepeatedLabel(defective), isDefective)
  }

  /** `classifyRegime(tr, det)`: the same three-way split on the
      discriminant as `eigenvalues`, named `'repeated'`, `'two-real'` or
      `'complex'`. */
  function ClassifyRegime(tr: real, det: real): (r: string)
    ensures r == "repeated" <==> Abs(Discriminant(tr, det)) < EPSILON
    ensures r == "two-real" <==> EPSILON <= Discriminant(tr, det)
    ensures r == "complex" <==> Discriminant(tr, det) <= -EPSILON
  {
    var disc := tr * tr - 4.0 * det;
    if Abs(disc) < EPSILON then "repeated"
    else if disc > 0.0 then "two-real"
    else "complex"
  }

  /** The regime named from trace and determinant is the variant the
      eigenvalue solver picks for the same matrix. */
  lemma RegimeMatchesEigenvalues(math: Host, A: Mat)
    requires math.Valid()
    ensures ClassifyRegime(Trace(A), Det(A)) == "repeated" <==> Eigenvalues(math, A).Repeated?
    ensures ClassifyRegime(Trace(A), Det(A)) == "two-real" <==> Eigenvalues(math, A).Real?
    ensures ClassifyRegime(Trace(A), Det(A)) == "complex" <==> Eigenvalues(math, A).Complex?
  {
  }

  /** The label family of `analyzeMatrix` is the regime that
      `classifyRegime` names from the trace and determinant it reports. */
  lemma LabelFamilyMatchesRegime(math: Host, A: Mat)
    requires math.Valid()
    ensures var r := AnalyzeMatrix(math, A);
      && (ClassifyRegime(r.trace, r.determinant) == "two-real" <==> r.classification in RealLabels)
      && (ClassifyRegime(r.trace, r.determinant) == "complex" <==> r.classification in ComplexLabels)
      && (ClassifyRegime(r.trace, r.determinant) == "repeated" <==> r.classification in RepeatedLabels)
  {
    RegimeMatchesEigenvalues(math, A);
  }

  /** For two real eigenvalues the label is "Saddle" exactly when the
      determinant is negative. */
  lemma SaddleIffNegativeDeterminant(math: Host, A: Mat)
    requires math.Valid() && Eigenvalues(math, A).Real?
    ensures AnalyzeMatrix(math, A).classification == "Saddle" <==> Det(A) < 0.0
  {
    var e := Eigenvalues(math, A);
    RealVieta(math, A);
    LabelOfVariant(math, A);
    RealLabelTest(e.lambda1, e.lambda2);
  }

  /** `Product(p, q)` is positive exactly when `p` and `q` are both
      positive or both negative. */
  lemma ProductSign(p: real, q: real)
    ensures 0.0 < Product(p, q) <==> (0.0 < p && 0.0 < q) || (p < 0.0 && q < 0.0)
  {
    if 0.0 < p && 0.0 < q {
      ProductPositive(p, q);
    } else if p < 0.0 && q < 0.0 {
      ProductPositive(-p, -q);
      assert Product(p, q) == Product(-p, -q);
    } else if 0.0 < p && q < 0.0 {
      ProductPositive(p, -q);
      assert Product(p, q) == -Product(p, -q);
    } else if p < 0.0 && 0.0 < q {
      ProductPositive(-p, q);
      assert Product(p, q) == -Product(-p, q);
    } else {
      assert p == 0.0 || q == 0.0;
      assert Product(p, q) == 0.0;
    }
  }

  /** Two reals of the same sign, both smaller than 1 in size, have a product
      below 1. */
  lemma SmallProduct(a: real, b: real)
    requires Abs(a) < 1.0 && Abs(b) < 1.0
    ensures a * b < 1.0
  {
    if 0.0 <= a && 0.0 <= b {
      MulLeftMonotone(a, b, 1.0);
      assert a * b <= a;
    } else if a < 0.0 && b < 0.0 {
      MulLeftMonotone(-a, -b, 1.0);
      assert (-a) * (-b) == a * b && a * b <= -a;
    } else if 0.0 <= a {
      MulLeftMonotone(a, b, 0.0);
    } else {
      MulLeftMonotone(b, a, 0.0);
    }
  }

  /** Two reals beyond 1 on the same side have a product above 1. */
  lemma LargeProduct(a: real, b: real)
    requires (1.0 < a && 1.0 < b) || (a < -1.0 && b < -1.0)
    ensures 1.0 < a * b
  {
    if 1.0 < a {
      MulLeftMonotone(a, 1.0, b);
    } else {
      MulLeftMonotone(-a, 1.0, -b);
    }
  }

  /** The roots `a`, `b` of `λ² − (a+b)·λ + a·b` lie strictly inside
      (−1, 1) exactly when `a·b < 1` and `|a + b| < 1 + a·b`. */
  lemma {:induction false} BothInside(a: real, b: real)
    requires 0.0 <= a * b
    ensures (Abs(a) < 1.0 && Abs(b) < 1.0) <==> (a * b < 1.0 && Abs(a + b) < 1.0 + a * b)
  {
    assert Product(1.0 - a, 1.0 - b) == 1.0 - (a + b) + a * b;
    assert Product(1.0 + a, 1.0 + b) == 1.0 + (a + b) + a * b;
    ProductSign(1.0 - a, 1.0 - b);
    ProductSign(1.0 + a, 1.0 + b);
    if Abs(a) < 1.0 && Abs(b) < 1.0 {
      SmallProduct(a, b);
    } else if (1.0 < a && 1.0 < b) || (a < -1.0 && b < -1.0) {
      LargeProduct(a, b);
    }
  }

  /** Both roots lie beyond 1 in size, on the same side, exactly when
      `1 < a·b` and `|a + b| < 1 + a·b`. */
  lemma {:induction false} BothOutside(a: real, b: real)
    requires 0.0 <= a * b
    ensures (Abs(a) > 1.0 && Abs(b) > 1.0) <==> (1.0 < a * b && Abs(a + b) < 1.0 + a * b)
  {
    assert Product(1.0 - a, 1.0 - b) == 1.0 - (a + b) + a * b;
    assert Product(1.0 + a, 1.0 + b) == 1.0 + (a + b) + a * b;
    ProductSign(1.0 - a, 1.0 - b);
    ProductSign(1.0 + a, 1.0 + b);
    ProductSign(a, b);
    assert Product(a, b) == a * b;
    if (1.0 < a && 1.0 < b) || (a < -1.0 && b < -1.0) {
      LargeProduct(a, b);
    } else if Abs(a) < 1.0 && Abs(b) < 1.0 {
      SmallProduct(a, b);
    }
  }

  /** Which of the three label functions `analyzeMatrix` applies. */
  lemma LabelOfVariant(math: Host, A: Mat)
    requires math.Valid()
    ensures var e := Eigenvalues(math, A); var c := AnalyzeMatrix(math, A).classification;
      && (e.Real? ==> c == RealLabel(e.lambda1, e.lambda2))
      && (e.Complex? ==> c == ComplexLabel(e.modulus))
      && (e.Repeated? ==> c == RepeatedLabel(IsDefective(math, A)))
  {
  }

  /** The saddle and node labels, stated on the eigenvalues themselves. */
  lemma RealLabelTest(a: real, b: real)
    ensures var c := RealLabel(a, b); var p := Product(a, b);
      && (c == "Saddle" <==> p < 0.0)
      && (c == "Stable Node" <==> 0.0 <= p < 1.0 && Abs(a + b) < 1.0 + p)
      && (c == "Unstable Node" <==> 1.0 < p && Abs(a + b) < 1.0 + p)
  {
    if 0.0 <= a * b {
      BothInside(a, b);
      BothOutside(a, b);
    }
  }

  /** For two real eigenvalues the node labels follow the classical
      trace–determinant test: a "Stable Node" has both eigenvalues inside
      (−1, 1), i.e. `0 ≤ det < 1` and `|tr| < 1 + det`; an "Unstable Node"
      has both outside it on the same side, i.e. `det > 1` and
      `|tr| < 1 + det`. */
  lemma NodeLabels(math: Host, A: Mat)
    requires math.Valid() && Eigenvalues(math, A).Real?
    ensures var c := AnalyzeMatrix(math, A).classification;
      && (c == "Stable Node" <==> 0.0 <= Det(A) < 1.0 && Abs(Trace(A)) < 1.0 + Det(A))
      && (c == "Unstable Node" <==> 1.0 < Det(A) && Abs(Trace(A)) < 1.0 + Det(A))
  {
    var e := Eigenvalues(math, A);
    RealVieta(math, A);
    LabelOfVariant(math, A);
    RealLabelTest(e.lambda1, e.lambda2);
  }

  /** The spiral labels, stated on the modulus squared. */
  lemma ComplexLabelTest(m: real)
    requires 0.0 < m
    ensures var c := ComplexLabel(m);
      && (c == "Stable Spiral" <==> m * m <= (1.0 - EPSILON) * (1.0 - EPSILON))
      && (c == "Center (Rotation)" <==> (1.0 - EPSILON) * (1.0 - EPSILON) < m * m < (1.0 + EPSILON) * (1.0 + EPSILON))
      && (c == "Unstable Spiral" <==> (1.0 + EPSILON) * (1.0 + EPSILON) <= m * m)
  {
    SquareCompare(m, 1.0 - EPSILON);
    SquareCompare(1.0 - EPSILON, m);
    SquareCompare(m, 1.0 + EPSILON);
    SquareCompare(1.0 + EPSILON, m);
  }

  /** For a complex pair the label depends on the determinant alone, which
      is the squared modulus: a "Stable Spiral" shrinks (`det ≤ (1 − ε)²`),
      a "Center (Rotation)" keeps its size to within `ε`, and an
      "Unstable Spiral" grows (`det ≥ (1 + ε)²`). */
  lemma SpiralLabels(math: Host, A: Mat)
    requires math.Valid() && Eigenvalues(math, A).Complex?
    ensures var c := AnalyzeMatrix(math, A).classification;
      && (c == "Stable Spiral" <==> Det(A) <= (1.0 - EPSILON) * (1.0 - EPSILON))
      && (c == "Center (Rotation)" <==> (1.0 - EPSILON) * (1.0 - EPSILON) < Det(A) < (1.0 + EPSILON) * (1.0 + EPSILON))
      && (c == "Unstable Spiral" <==> (1.0 + EPSILON) * (1.0 + EPSILON) <= Det(A))
  {
    var m := Eigenvalues(math, A).modulus;
    assert 0.0 < m && m * m == Det(A);
    LabelOfVariant(math, A);
    assert AnalyzeMatrix(math, A).classification == ComplexLabel(m);
    ComplexLabelTest(m);
  }

  /** For a repeated eigenvalue the label is "Defective (Shear-like)"
      exactly when the reported `isDefective` flag is set, that is when `A`
      is more than `ε` away from `λI`; otherwise it is a scaling. */
  lemma RepeatedLabelTest(math: Host, A: Mat)
    requires math.Valid() && Eigenvalues(math, A).Repeated?
    ensures var r := AnalyzeMatrix(math, A);
      && (r.classification == "Defective (Shear-like)" <==> r.isDefective)
      && (r.classification == "Defective (Shear-like)" <==> EPSILON < Deviation(A, Trace(A) / 2.0))
      && (r.classification == "Repeated Eigenvalue (Scaling)" <==> Deviation(A, Trace(A) / 2.0) <= EPSILON)
  {
    LabelOfVariant(math, A);
  }

  /** For two distinct real eigenvalues both reported eigenvectors are
      exact unit eigenvectors of their eigenvalues, and they are not
      parallel: together they span the plane. */
  lemma RealEigenvectors(math: Host, A: Mat)
    requires math.Valid() && Eigenvalues(math, A).Real?
    ensures var r := AnalyzeMatrix(math, A);
      && |r.eigenvectors.value| == 2
      && var u := r.eigenvectors.value[0]; var w := r.eigenvectors.value[1];
      && Length(math, u) == 1.0 && Length(math, w) == 1.0
      && MatMul(A, u) == Scale(r.eigenvalues.lambda1, u)
      && MatMul(A, w) == Scale(r.eigenvalues.lambda2, w)
      && Cross(u, w) != 0.0
  {
    var e := Eigenvalues(math, A);
    var u := Eigenvector(math, A, e.lambda1);
    var w := Eigenvector(math, A, e.lambda2);
    DistinctRootEigenvector(math, A, e.lambda1);
    DistinctRootEigenvector(math, A, e.lambda2);
    DistinctEigenvaluesIndependent(A, e.lambda1, u, e.lambda2, w);
  }
}
