/** `generateLattice` of `src/utils/matrix.js`: the sample points on which
    the vector-field views draw arrows. */
module Lattice {
  import opened JsMath
  import opened Optional
  import opened Primitives

  /** The `step` between neighbouring grid lines. For `density = 1` the
      division is by zero, the step is not a finite number, and every
      coordinate `bounds[0] + 0·step` is `NaN`; `None` stands for that. */
  function Step(density: int, lo: real, hi: real): (r: Option<real>)
    ensures r.None? <==> density == 1
    ensures r.Some? ==> r.value * (density - 1) as real == hi - lo
  {
    if density == 1 then None else Some((hi - lo) / (density - 1) as real)
  }

  /** `bounds[0] + i·step`, `NaN` when the step is. */
  function Coordinate(lo: real, step: Option<real>, i: int): (r: Option<real>)
    ensures r.Some? <==> step.Some?
  {
    match step
    case None => None
    case Some(s) => Some(lo + i as real * s)
  }

  /** `Math.abs(x) > EPSILON || Math.abs(y) > EPSILON`; a comparison with
      `NaN` is false. */
  predicate Kept(x: Option<real>, y: Option<real>)
  {
    (x.Some? && Abs(x.value) > EPSILON) || (y.Some? && Abs(y.value) > EPSILON)
  }

  /** Grid line `i` for a finite step: `lo + i·step`. */
  function Line(lo: real, s: real, i: int): real
  {
    lo + i as real * s
  }

  /** The grid point of row `i` and column `j` for a finite step. */
  function GridPoint(lo: real, s: real, i: int, j: int): Vec
  {
    Vec(Line(lo, s, i), Line(lo, s, j))
  }

  /** Further than `EPSILON` from the origin in some coordinate. */
  predicate Far(v: Vec)
  {
    Abs(v.x) > EPSILON || Abs(v.y) > EPSILON
  }

  /** The points the inner loop pushes for row `i`, columns `0 .. n − 1`. */
  function Row(lo: real, step: Option<real>, i: int, n: nat): seq<Vec>
  {
    if n == 0 then []
    else
      var x := Coordinate(lo, step, i);
      var y := Coordinate(lo, step, n - 1);
      Row(lo, step, i, n - 1) + if Kept(x, y) then [Vec(x.value, y.value)] else []
  }

  /** The points pushed for rows `0 .. m − 1`, each with `n` columns. */
  function Grid(lo: real, step: Option<real>, m: nat, n: nat): seq<Vec>
  {
    if m == 0 then [] else Grid(lo, step, m - 1, n) + Row(lo, step, m - 1, n)
  }

  /** The list `generateLattice(density, [lo, hi])` returns. */
  function LatticePoints(density: int, lo: real, hi: real): seq<Vec>
  {
    if density <= 0 then [] else Grid(lo, Step(density, lo, hi), density, density)
  }

  /** `generateLattice(density, [lo, hi])`: rows `i` and columns `j` from 0
      to `density − 1`, keeping each point `[lo + i·step, lo + j·step]` that
      is not within `EPSILON` of the origin, row by row. */
  method GenerateLattice(density: int, lo: real, hi: real) returns (vectors: seq<Vec>)
    ensures vectors == LatticePoints(density, lo, hi)
  {
    vectors := [];
    var step := Step(density, lo, hi);
    var n: nat := if density < 0 then 0 else density;
    var i := 0;
    while i < density
      invariant 0 <= i <= n
      invariant vectors == Grid(lo, step, i, n)
    {
      var j := 0;
      while j < density
        invariant 0 <= j <= n
        invariant vectors == Grid(lo, step, i, n) + Row(lo, step, i, j)
      {
        var x := Coordinate(lo, step, i);
        var y := Coordinate(lo, step, j);
        assert Row(lo, step, i, j + 1) == Row(lo, step, i, j) + if Kept(x, y) then [Vec(x.value, y.value)] else [];
        if Kept(x, y) {
          vectors := vectors + [Vec(x.value, y.value)];
        }
        j := j + 1;
      }
      assert Grid(lo, step, i + 1, n) == Grid(lo, step, i, n) + Row(lo, step, i, n);
      i := i + 1;
    }
  }

  /** Every point of row `i` is one of its first `n` grid points, far
      from the origin. */
  lemma {:induction false} RowSound(lo: real, s: real, i: int, n: nat, v: Vec) returns (j: int)
    requires v in Row(lo, Some(s), i, n)
    ensures 0 <= j < n && v == GridPoint(lo, s, i, j) && Far(v)
  {
    if v in Row(lo, Some(s), i, n - 1) {
      j := RowSound(lo, s, i, n - 1, v);
    } else {
      j := n - 1;
    }
  }

  /** Every grid point of row `i` that is far from the origin is kept. */
  lemma {:induction false} RowComplete(lo: real, s: real, i: int, n: nat, j: int)
    requires 0 <= j < n && Far(GridPoint(lo, s, i, j))
    ensures GridPoint(lo, s, i, j) in Row(lo, Some(s), i, n)
  {
    if j < n - 1 {
      RowComplete(lo, s, i, n - 1, j);
    } else {
      var last := Row(lo, Some(s), i, n);
      assert Coordinate(lo, Some(s), i).value == GridPoint(lo, s, i, j).x;
      assert Coordinate(lo, Some(s), n - 1).value == GridPoint(lo, s, i, j).y;
      assert Kept(Coordinate(lo, Some(s), i), Coordinate(lo, Some(s), n - 1));
      assert last[|last| - 1] == GridPoint(lo, s, i, j);
    }
  }

  lemma {:induction false} GridSound(lo: real, s: real, m: nat, n: nat, v: Vec) returns (i: int, j: int)
    requires v in Grid(lo, Some(s), m, n)
    ensures 0 <= i < m && 0 <= j < n && v == GridPoint(lo, s, i, j) && Far(v)
  {
    if v in Grid(lo, Some(s), m - 1, n) {
      i, j := GridSound(lo, s, m - 1, n, v);
    } else {
      i := m - 1;
      j := RowSound(lo, s, m - 1, n, v);
    }
  }

  lemma {:induction false} GridComplete(lo: real, s: real, m: nat, n: nat, i: int, j: int)
    requires 0 <= i < m && 0 <= j < n && Far(GridPoint(lo, s, i, j))
    ensures GridPoint(lo, s, i, j) in Grid(lo, Some(s), m, n)
  {
    if i < m - 1 {
      GridComplete(lo, s, m - 1, n, i, j);
    } else {
      RowComplete(lo, s, i, n, j);
    }
  }

  /** Sound and complete: for a finite step the lattice holds exactly the
      grid points `[lo + i·step, lo + j·step]`, `0 ≤ i, j < density`, that
      are not within `EPSILON` of the origin. */
  lemma LatticeMembership(density: int, lo: real, hi: real, v: Vec)
    requires density != 1
    ensures var s := Step(density, lo, hi).value;
      v in LatticePoints(density, lo, hi) <==>
        Far(v) && exists i: int, j: int :: 0 <= i < density && 0 <= j < density && v == GridPoint(lo, s, i, j)
  {
    var s := Step(density, lo, hi).value;
    if v in LatticePoints(density, lo, hi) {
      var i, j := GridSound(lo, s, density, density, v);
    }
    if Far(v) && exists i: int, j: int :: 0 <= i < density && 0 <= j < density && v == GridPoint(lo, s, i, j) {
      var i: int, j: int :| 0 <= i < density && 0 <= j < density && v == GridPoint(lo, s, i, j);
      GridComplete(lo, s, density, density, i, j);
    }
  }

  /** With a `NaN` coordinate nothing is ever kept: row by row. */
  lemma {:induction false} NaNRowEmpty(lo: real, i: int, n: nat)
    ensures Row(lo, None, i, n) == []
  {
    if n > 0 {
      NaNRowEmpty(lo, i, n - 1);
    }
  }

  /** A density of 1 divides by zero, and the lattice comes out empty. */
  lemma NaNLatticeEmpty(lo: real, hi: real)
    ensures LatticePoints(1, lo, hi) == []
  {
    assert Step(1, lo, hi) == None;
    assert Grid(lo, None, 1, 1) == Grid(lo, None, 0, 1) + Row(lo, None, 0, 1);
    NaNRowEmpty(lo, 0, 1);
  }

  /** At most one point per grid cell: `|lattice| ≤ density²`. */
  lemma LatticeSize(density: int, lo: real, hi: real)
    ensures 0 <= density ==> |LatticePoints(density, lo, hi)| <= density * density
  {
    if 0 < density {
      GridSize(lo, Step(density, lo, hi), density, density);
    }
  }

  lemma {:induction false} RowSize(lo: real, step: Option<real>, i: int, n: nat)
    ensures |Row(lo, step, i, n)| <= n
  {
    if n > 0 {
      RowSize(lo, step, i, n - 1);
    }
  }

  lemma {:induction false} GridSize(lo: real, step: Option<real>, m: nat, n: nat)
    ensures |Grid(lo, step, m, n)| <= m * n
  {
    if m > 0 {
      GridSize(lo, step, m - 1, n);
      RowSize(lo, step, m - 1, n);
      assert |Grid(lo, step, m, n)| == |Grid(lo, step, m - 1, n)| + |Row(lo, step, m - 1, n)|;
      assert (m - 1) * n + n == m * n;
    }
  }

  /** The grid runs from `lo` to `hi`: row and column 0 sit at `lo`, row and
      column `density − 1` at `hi`. */
  lemma GridSpansBounds(density: int, lo: real, hi: real)
    requires 2 <= density
    ensures var s := Step(density, lo, hi).value;
      GridPoint(lo, s, 0, 0) == Vec(lo, lo) && GridPoint(lo, s, density - 1, density - 1) == Vec(hi, hi)
  {
  }

  /** `u` comes before `w` in row-major order: smaller `x`, or equal `x`
      and smaller `y`. */
  predicate LexLess(u: Vec, w: Vec)
  {
    u.x < w.x || (u.x == w.x && u.y < w.y)
  }

  predicate Increasing(ps: seq<Vec>)
  {
    forall k, l :: 0 <= k < l < |ps| ==> LexLess(ps[k], ps[l])
  }

  /** With a positive step, grid lines further out lie further right. */
  lemma GridLineOrder(lo: real, s: real, i: int, j: int)
    requires 0.0 < s && i < j
    ensures Line(lo, s, i) < Line(lo, s, j)
  {
    ProductPositive((j - i) as real, s);
    assert Product((j - i) as real, s) == j as real * s - i as real * s;
  }

  lemma AppendIncreasing(a: seq<Vec>, b: seq<Vec>)
    requires Increasing(a) && Increasing(b)
    requires forall u, w :: u in a && w in b ==> LexLess(u, w)
    ensures Increasing(a + b)
  {
    forall k, l | 0 <= k < l < |a + b|
      ensures LexLess((a + b)[k], (a + b)[l])
    {
      if l < |a| {
        assert (a + b)[k] == a[k] && (a + b)[l] == a[l];
      } else if |a| <= k {
        assert (a + b)[k] == b[k - |a|] && (a + b)[l] == b[l - |a|];
      } else {
        assert (a + b)[k] in a && (a + b)[l] in b;
      }
    }
  }

  lemma {:induction false} RowIncreasing(lo: real, s: real, i: int, n: nat)
    requires 0.0 < s
    ensures Increasing(Row(lo, Some(s), i, n))
  {
    if n > 0 {
      var prefix := Row(lo, Some(s), i, n - 1);
      RowIncreasing(lo, s, i, n - 1);
      RowBeforeColumn(lo, s, i, n - 1);
      var tail := RowStep(lo, s, i, n);
      AppendIncreasing(prefix, tail);
    }
  }

  /** Row `i` grows by its grid point in column `n − 1`, or not at all. */
  lemma RowStep(lo: real, s: real, i: int, n: nat) returns (tail: seq<Vec>)
    requires 0 < n
    ensures Row(lo, Some(s), i, n) == Row(lo, Some(s), i, n - 1) + tail
    ensures tail == [] || tail == [GridPoint(lo, s, i, n - 1)]
  {
    var p := GridPoint(lo, s, i, n - 1);
    tail := Row(lo, Some(s), i, n)[|Row(lo, Some(s), i, n - 1)|..];
    assert Coordinate(lo, Some(s), i).value == p.x;
    assert Coordinate(lo, Some(s), n - 1).value == p.y;
  }

  /** Every point kept in the first `n` columns of row `i` comes before
      the grid point of column `n`. */
  lemma RowBeforeColumn(lo: real, s: real, i: int, n: nat)
    requires 0.0 < s
    ensures forall u :: u in Row(lo, Some(s), i, n) ==> LexLess(u, GridPoint(lo, s, i, n))
  {
    forall u | u in Row(lo, Some(s), i, n)
      ensures LexLess(u, GridPoint(lo, s, i, n))
    {
      var j := RowSound(lo, s, i, n, u);
      GridLineOrder(lo, s, j, n);
    }
  }

  lemma {:induction false} GridIncreasing(lo: real, s: real, m: nat, n: nat)
    requires 0.0 < s
    ensures Increasing(Grid(lo, Some(s), m, n))
  {
    if m > 0 {
      GridIncreasing(lo, s, m - 1, n);
      RowIncreasing(lo, s, m - 1, n);
      forall u, w | u in Grid(lo, Some(s), m - 1, n) && w in Row(lo, Some(s), m - 1, n)
        ensures LexLess(u, w)
      {
        var i, j := GridSound(lo, s, m - 1, n, u);
        var j' := RowSound(lo, s, m - 1, n, w);
        GridLineOrder(lo, s, i, m - 1);
      }
      AppendIncreasing(Grid(lo, Some(s), m - 1, n), Row(lo, Some(s), m - 1, n));
    }
  }

  /** For `lo < hi` the lattice is listed in strictly increasing row-major
      order (rows by `x`, then columns by `y`), so no point appears twice. */
  lemma LatticeOrdered(density: int, lo: real, hi: real)
    requires lo < hi
    ensures Increasing(LatticePoints(density, lo, hi))
  {
    if density == 1 {
      NaNLatticeEmpty(lo, hi);
    } else if 1 < density {
      GridIncreasing(lo, Step(density, lo, hi).value, density, density);
    }
  }
}
