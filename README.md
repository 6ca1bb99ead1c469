# Eigenstructure analysis of 2×2 matrices

This project models the numeric core of an interactive linear-algebra
visualiser, `src/utils/matrix.js`, together with the world-to-canvas
transform `createTransform` of `src/utils/useCanvas.js`. For a 2×2 real
matrix the core computes:

- the trace and the determinant;
- the eigenvalues, reported as one of three kinds: two distinct real
  eigenvalues, a repeated eigenvalue, or a complex-conjugate pair with a
  modulus and an angle;
- a unit eigenvector for each real eigenvalue;
- whether a repeated eigenvalue is defective;
- a phase-portrait label ("Saddle", "Stable Node", "Center (Rotation)", …);
- a 2×2 singular value decomposition read off the eigenvalues of `AᵀA`.

It also covers the sample lattice the vector-field views draw on, and the
preset matrices the interface offers.

The model works over exact reals. JavaScript's `Math` is the datatype
`JsMath.Host`: a pair of functions `sqrt` and `atan2` passed to every
operation that needs them. `Host.Valid()` states that `sqrt` returns the
non-negative square root of a non-negative argument. Nothing else is
assumed about `Math`.

Modules, one per concern of the source:

- `JsMath`: `Math.abs`, `Math.min`, `Math.max`, the `Host` parameter, and
  facts about squares and square roots.
- `Primitives`: `EPSILON = 1e-9`, vectors and matrices, `matmul`, `trace`,
  `det`, `interpolateMatrix`, `normalize` and `length`.
- `Eigen`: `eigenvalues`, `eigenvector` and `isDefective`.
- `Optional`: the `Option` type used for `null`.
- `Analysis`: `analyzeMatrix` with its classification, and `classifyRegime`.
- `Svd`: `svd2x2`, and the corrected decomposition described under
  Findings.
- `Lattice`: `generateLattice`, an imperative method with nested loops,
  proved against the function `LatticePoints`.
- `Transform`: `createTransform`, with its `toScreen` and `toWorld`
  closures.
- `Presets`: the `PRESETS` matrices and the analysis of each.

## Model

| member | source | states |
|---|---|---|
| Primitives.MatMul | src/utils/matrix.js:6-12 | No contract of its own: the row-by-column product; Primitives.MatMulLinear, Primitives.ShiftApply and Svd.Gram state its properties |
| Primitives.MatMulLinear | src/utils/matrix.js:6-12 | `matmul(A, ·)` is linear: `A·(c·u + w) = c·(A·u) + A·w`; and the identity leaves every vector unchanged |
| Primitives.Trace | src/utils/matrix.js:14-16 | No contract of its own: `a11 + a22`; Primitives.CharPoly proves it is the (negated) linear coefficient of `det(A − λI)` |
| Primitives.Det | src/utils/matrix.js:18-20 | No contract of its own: `a11·a22 − a12·a21`; Primitives.CharPoly proves it is the constant coefficient of `det(A − λI)` |
| Primitives.ShiftApply | src/utils/matrix.js:6-12 | Applying `A − λI` to `v` with `matmul` gives `A·v − λ·v`, component by component |
| Primitives.CharPoly | src/utils/matrix.js:14-20 | `det(A − λI) = λ² − trace(A)·λ + det(A)`: trace and determinant are the coefficients of the characteristic polynomial |
| Primitives.InterpolateMatrix | src/utils/matrix.js:22-29 | `(1 − t)I + tA` is the identity at `t = 0` and `A` at `t = 1`; it moves every vector along the straight line from `v` to `A·v`; its trace interpolates linearly |
| Primitives.Normalize | src/utils/matrix.js:31-35 | A vector shorter than `EPSILON` becomes `[1, 0]`; otherwise the result times the original length is the input (same direction); the result always has length 1 |
| Primitives.Length | src/utils/matrix.js:37-39 | The length is non-negative, its square is `x² + y²`, and it is zero exactly for the zero vector |
| Eigen.Eigenvalues | src/utils/matrix.js:42-82 | Exactly one kind is chosen: repeated when `abs(tr² − 4det) < ε`, real when the discriminant is `≥ ε`, complex when it is `≤ −ε`. Repeated: `λ = tr/2`, discriminant reported as 0. Real: `λ2 < λ1`, `λ1 + λ2 = tr`, `λ1·λ2 = det`, and both are roots of the characteristic polynomial. Complex: real part `tr/2`, positive imaginary part first, then its conjugate, `re² + im² = det` and `modulus² = det`, and `angle` is `atan2(im, re)` |
| Eigen.RealVieta | src/utils/matrix.js:55-64 | For two distinct real eigenvalues, their sum is the trace and their product is the determinant |
| Eigen.Eigenvector | src/utils/matrix.js:85-113 | The result has length 1 and is one of the two row candidates, normalised. At an exact eigenvalue the `0.1·abs(λ)` fallback never fires. A candidate at least `ε` long then gives an exact eigenvector. For `A = λI` the result is `[1, 0]` |
| Eigen.CandidateAtRoot | src/utils/matrix.js:94-107 | At an exact eigenvalue the first candidate lies in the null space of `A − λI`, so the residual `error` is 0 |
| Eigen.DistinctRootEigenvector | src/utils/matrix.js:85-113 | For either of two distinct real eigenvalues, the computed eigenvector is an exact unit eigenvector |
| Eigen.DistinctEigenvaluesIndependent | src/utils/matrix.js:140-145 | Eigenvectors of two different eigenvalues are never parallel (their cross product is non-zero) |
| Eigen.IsDefective | src/utils/matrix.js:116-129 | The flag is false unless the eigenvalue is repeated. For a repeated eigenvalue it is true exactly when `abs(a11−λ) + abs(a22−λ) + abs(a12) + abs(a21) > ε` for `λ = tr/2`. A defective matrix is never `λI` |
| Eigen.DefectiveHasOneEigendirection | src/utils/matrix.js:123-128 | For a defective matrix, any two eigenvectors of `tr/2` are parallel: only one eigendirection |
| Eigen.ScalarNotDefective | src/utils/matrix.js:124-128 | `c·I` has the repeated eigenvalue `c` and is not defective |
| Eigen.JordanBlockDefective | src/utils/matrix.js:116-129 | `[[c, b], [0, c]]` with `abs(b) > ε` has the repeated eigenvalue `c` and is defective |
| Analysis.AnalyzeMatrix | src/utils/matrix.js:132-184 | Reports the trace, the determinant and the eigenvalues. Eigenvectors are absent exactly for a complex pair. There are two eigenvectors (of `λ1`, then `λ2`) for distinct real eigenvalues, and one for a repeated eigenvalue. The label comes from the family of the eigenvalue kind. `isDefective` equals the defectiveness test and implies a repeated eigenvalue |
| Analysis.ClassifyRegime | src/utils/matrix.js:223-233 | `'repeated'` iff `abs(disc) < ε`; `'two-real'` iff `disc ≥ ε`; `'complex'` iff `disc ≤ −ε` |
| Analysis.RegimeMatchesEigenvalues | src/utils/matrix.js:223-233 | For the trace and determinant of `A`, the regime named is the eigenvalue kind `eigenvalues(A)` picks, in both directions |
| Analysis.LabelFamilyMatchesRegime | src/utils/matrix.js:132-184 | The label of `analyzeMatrix` is a real, complex or repeated label exactly when `classifyRegime` of its reported trace and determinant says so |
| Analysis.SaddleIffNegativeDeterminant | src/utils/matrix.js:147-148 | For two real eigenvalues the label is "Saddle" exactly when `det < 0` |
| Analysis.RealLabelTest | src/utils/matrix.js:147-155 | On the eigenvalues `a`, `b`: "Saddle" iff `ab < 0`. "Stable Node" iff `0 ≤ ab < 1` and `abs(a+b) < 1 + ab`. "Unstable Node" iff `ab > 1` and `abs(a+b) < 1 + ab` |
| Analysis.BothInside | src/utils/matrix.js:149-150 | For `ab ≥ 0`: both `abs(a) < 1` and `abs(b) < 1` iff `ab < 1` and `abs(a + b) < 1 + ab` |
| Analysis.BothOutside | src/utils/matrix.js:151-152 | For `ab ≥ 0`: both `abs(a) > 1` and `abs(b) > 1` iff `ab > 1` and `abs(a + b) < 1 + ab` |
| Analysis.NodeLabels | src/utils/matrix.js:149-155 | For two real eigenvalues: "Stable Node" iff `0 ≤ det < 1` and `abs(tr) < 1 + det`; "Unstable Node" iff `det > 1` and `abs(tr) < 1 + det` |
| Analysis.ComplexLabelTest | src/utils/matrix.js:158-164 | Spiral labels by the squared modulus: "Stable Spiral" iff `m² ≤ (1−ε)²`; "Center (Rotation)" iff `(1−ε)² < m² < (1+ε)²`; "Unstable Spiral" iff `m² ≥ (1+ε)²` |
| Analysis.SpiralLabels | src/utils/matrix.js:156-164 | For a complex pair the label depends on `det` alone: the same three bands as above, applied to `det` |
| Analysis.RepeatedLabelTest | src/utils/matrix.js:165-173 | For a repeated eigenvalue: "Defective (Shear-like)" iff the reported `isDefective` is set, iff the deviation from `(tr/2)·I` exceeds `ε`; otherwise "Repeated Eigenvalue (Scaling)" |
| Analysis.RealEigenvectors | src/utils/matrix.js:140-145 | For two real eigenvalues, both reported eigenvectors are exact unit eigenvectors, and they are not parallel |
| Svd.AtA | src/utils/matrix.js:189-198 | `ATA` is symmetric and its trace is the squared Frobenius norm of `A` |
| Svd.AtADet | src/utils/matrix.js:189-198 | `det(AᵀA) = det(A)²` |
| Svd.Gram | src/utils/matrix.js:189-198 | `v·(AᵀA)v = abs(A·v)²` |
| Svd.AtANotComplex | src/utils/matrix.js:203-206 | The eigenvalues of `AᵀA` are never a complex pair, so the `'real'` test fails only for a repeated eigenvalue |
| Svd.Svd2x2 | src/utils/matrix.js:187-220 | `null` exactly when the eigenvalue of `AᵀA` is repeated |
| Svd.FromGram | src/utils/matrix.js:200-219 | `null` unless the eigenvalues are real. Otherwise `σi = sqrt(max(0, λi))`, and the right vectors are the computed eigenvectors of `λ1` and `λ2` |
| Svd.SymmetricEigenvectorsOrthogonal | src/utils/matrix.js:212-214 | Eigenvectors of a symmetric matrix for different eigenvalues are orthogonal |
| Svd.SvdRightVectors | src/utils/matrix.js:212-218 | When `svd2x2` answers, both right vectors are unit eigenvectors of `AᵀA` and are orthogonal |
| Svd.SvdStretch | src/utils/matrix.js:208-214 | When it answers, `0 ≤ λ2 < λ1` and `abs(A·vi)² = λi = σi²`: `A` stretches each right vector by its singular value |
| Svd.SvdSingularValues | src/utils/matrix.js:208-210 | When it answers, `0 ≤ σ2 < σ1`, `σ1² + σ2²` is the squared Frobenius norm of `A`, and `σ1·σ2 = abs(det A)` |
| Svd.GramSingularValues | src/utils/matrix.js:208-210 | On `S = AᵀA` with non-negative eigenvalues: the singular values are ordered, their squares sum to `tr S`, and their product squared is `det S` |
| Svd.SvdNullForConformal | src/utils/matrix.js:203-206 | As written, `svd2x2` returns `null` for every `A` with `AᵀA = c·I` |
| Svd.SvdNullAtStart | src/utils/matrix.js:203-206 | As written, `svd2x2` returns `null` at `t = 0` of every interpolation (the identity) |
| Svd.SvdNullRotation | src/utils/matrix.js:203-206 | As written, `svd2x2` returns `null` for every rotation `[[c, −s], [s, c]]` with `c² + s² = 1` |
| Svd.SvdTotal | src/utils/matrix.js:187-220 | The corrected decomposition always answers, and agrees with `svd2x2` wherever that answers. It has `0 ≤ σ2 ≤ σ1` and orthonormal right vectors |
| Svd.SvdTotalConformal | src/utils/matrix.js:203-206 | For `AᵀA = c·I` the corrected decomposition is `σ1 = σ2 = sqrt(c)`, with right vectors `[1, 0]` and `[0, 1]` |
| Svd.SvdTotalConformalStretch | src/utils/matrix.js:208-214 | In that case `A` stretches both right vectors by the common singular value |
| Lattice.Step | src/utils/matrix.js:238 | The step is not finite exactly when `density = 1` (then every coordinate `bounds[0] + 0·step` is `NaN`); otherwise `step·(density − 1) = hi − lo` |
| Lattice.GenerateLattice | src/utils/matrix.js:236-251 | The nested loops return exactly `LatticePoints(density, lo, hi)`: rows, then columns, keeping each point not within `ε` of the origin |
| Lattice.RowSound | src/utils/matrix.js:241-246 | Every point pushed for row `i` is a grid point of that row in an earlier column, and is far from the origin |
| Lattice.RowComplete | src/utils/matrix.js:241-246 | Every grid point of row `i` that is far from the origin is pushed |
| Lattice.LatticeMembership | src/utils/matrix.js:240-248 | For a finite step, a vector is in the lattice iff it is far from the origin and is `[lo + i·step, lo + j·step]` for some `0 ≤ i, j < density` |
| Lattice.NaNLatticeEmpty | src/utils/matrix.js:238-246 | For `density = 1` every coordinate is `NaN`, no comparison holds, and the lattice is empty |
| Lattice.LatticeSize | src/utils/matrix.js:240-247 | At most `density²` points |
| Lattice.GridSpansBounds | src/utils/matrix.js:238-243 | Row and column 0 sit at `bounds[0]`; row and column `density − 1` sit at `bounds[1]` |
| Lattice.LatticeOrdered | src/utils/matrix.js:240-248 | For `bounds[0] < bounds[1]` the points come in strictly increasing row-major order, so none is repeated |
| Transform.CreateTransform | src/utils/useCanvas.js:30-50 | `scale` is `0.9·min(width/worldWidth, height/worldHeight)`. The world centre maps to the canvas centre. The scale is positive for a positive canvas and world box |
| Transform.DefaultTransform | src/utils/useCanvas.js:29-43 | With the default bounds `[-4, 4, -4, 4]`, `scale = 0.9·min(width, height)/8`, the origin maps to the canvas centre and the corner `(4, 4)` to `4·scale` pixels right of and above it |
| Transform.ToScreen | src/utils/useCanvas.js:40-43 | The world centre goes to the canvas centre; Transform.UniformScale, Transform.Orientation and the two round trips state the rest |
| Transform.ToWorld | src/utils/useCanvas.js:44-47 | For a non-zero scale, `toScreen(toWorld(q)) = q`: `toScreen` sends the result back to the given pixel; Transform.WorldRoundTrip proves the other direction |
| Transform.WorldRoundTrip | src/utils/useCanvas.js:40-47 | `toWorld(toScreen(p)) = p` |
| Transform.ScreenRoundTrip | src/utils/useCanvas.js:40-47 | `toScreen(toWorld(q)) = q` |
| Transform.UniformScale | src/utils/useCanvas.js:40-43 | A world displacement `(dx, dy)` becomes `(scale·dx, −scale·dy)` pixels: one scale for both axes, with `y` flipped |
| Transform.Orientation | src/utils/useCanvas.js:40-43 | Moving right in the world moves right on the canvas; moving up moves to a smaller pixel row |
| Transform.WorldBoxOnCanvas | src/utils/useCanvas.js:35-43 | Every point of the world box lands at least 5% of the canvas size inside each edge |
| Presets.IdentityPresetIsScaling | src/utils/matrix.js:255 | `identity` has the repeated eigenvalue 1, is not defective, and is a "Repeated Eigenvalue (Scaling)" |
| Presets.DiagonalStretchEigenvalues | src/utils/matrix.js:256 | `diagonalStretch` has the real eigenvalues 2 and 0.5 |
| Presets.DiagonalStretchIsNode | src/utils/matrix.js:256 | `diagonalStretch` is a "Node" |
| Presets.ShearIsDefective | src/utils/matrix.js:257 | `shear` has the repeated eigenvalue 1 and is "Defective (Shear-like)"; `defectiveShear` is flagged defective |
| Presets.ReflectionIsSaddle | src/utils/matrix.js:258 | `reflection` is a "Saddle" |
| Presets.SaddlePresetIsSaddle | src/utils/matrix.js:259 | `saddle` is a "Saddle" |
| Presets.Rotation90IsCenter | src/utils/matrix.js:264 | `rotation90` is a "Center (Rotation)" |
| Presets.ScaledRotationLabels | src/utils/matrix.js:260-272 | For `r > 0`, `cos² θ + sin² θ = 1` and `ε ≤ 4·r²·sin² θ`, `r·[[cos θ, −sin θ], [sin θ, cos θ]]` has complex eigenvalues, and its label compares `r²` with the band `((1−ε)², (1+ε)²)` |
| Presets.Rotation30IsCenter | src/utils/matrix.js:260-263 | `rotation30` is a "Center (Rotation)" |
| Presets.SpiralIsStable | src/utils/matrix.js:265-268 | `spiral` (`r = 0.9`) is a "Stable Spiral" |
| Presets.ExpandingSpiralIsUnstable | src/utils/matrix.js:269-272 | `expandingSpiral` (`r = 1.1`) is an "Unstable Spiral" |

## Left out

- Floating-point arithmetic: every operation is on exact reals. IEEE rounding, overflow and `Infinity` are not modelled, so every threshold comparison with `EPSILON` is exact.
- `Infinity` and `NaN` are modelled only in `generateLattice` at `density = 1`: the division by zero gives a step that is not finite, every coordinate `bounds[0] + 0·step` is then `NaN`, and the model writes `None` for both.
- `Math.sqrt` and `Math.atan2` are the parameters of `JsMath.Host`. `sqrt` is only assumed to return the non-negative square root of a non-negative argument. `atan2` is unconstrained, so the complex `angle` is stated only as `atan2(im, re)`.
- Eigen.IsDefective: `isDefective` computes an eigenvector that it never uses; the model keeps that call, and it has no effect on the result.
- Eigen.Eigenvector: the exact-eigenvector guarantee is stated only at an exact eigenvalue. At a repeated eigenvalue `tr/2` that is only `ε`-close to a root, the model does not state which vector comes back.
- Lattice.GenerateLattice: `density` is an integer. A fractional density, and the JavaScript array it pushes into (modelled as a returned sequence), are not modelled.
- Transform.CreateTransform: requires a non-zero world width and height. In JavaScript a zero world side gives an infinite quotient: the scale stays finite when only one side is zero (`Math.min` picks the other quotient), is infinite when both are, and is `NaN` when the matching canvas side is 0 as well.
- Transform.ToWorld: requires a non-zero scale, for the same reason.
- Presets.Rotation30IsCenter: takes `cos θ` and `sin θ` as parameters with `cos² + sin² = 1` and `sin θ = 1/2`. `Math.cos`, `Math.sin` and `Math.PI` are not modelled, and in floating point `cos² + sin²` is only approximately 1.
- Presets.SpiralIsStable: takes `cos 0.3` and `sin 0.3` as parameters, with `cos² + sin² = 1` and `sin² ≥ 0.01`, for the same reason.
- Presets.ExpandingSpiralIsUnstable: takes `cos 0.3` and `sin 0.3` as parameters, on the same hypotheses.
- The `PRESETS` object is a set of named constants, not a dictionary.
- The React hook `useCanvas` and the canvas drawing primitives of `src/utils/useCanvas.js` are user-interface code and are not part of this model.

## Findings

| source | as written | input that shows it | evidently intended | confidence | as-written member | corrected member |
|---|---|---|---|---|---|---|
| src/utils/matrix.js:203-206 | `svd2x2` returns `null` unless `eigenvalues(AᵀA)` is of the `'real'` kind. When `AᵀA = c·I`, the discriminant is 0, the kind is `'repeated'`, and the result is `null`. The comment there calls this case impossible | The identity `[[1, 0], [0, 1]]`, which is `interpolateMatrix(A, 0)` for every `A`; `rotation90 = [[0, −1], [1, 0]]`; any rotation or scaled rotation | A decomposition with `σ1 = σ2 = sqrt(max(0, λ))` and an orthonormal pair of right vectors | not executed | Svd.SvdNullForConformal | Svd.SvdTotal |
