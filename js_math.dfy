/** The parts of JavaScript's `Math` object that the matrix utilities call.
    `Math.abs`, `Math.min` and `Math.max` are plain functions on reals.
    `Math.sqrt` and `Math.atan2` belong to the host and are not part of this
    model: a `Host` value carries them, and `Host.Valid()` is all the model
    assumes about `sqrt`. Nothing is assumed about `atan2`. */
module JsMath {

  function Abs(x: real): (r: real)
    ensures 0.0 <= r && (r == x || r == -x)
  {
    if x < 0.0 then -x else x
  }

  function Min(a: real, b: real): (r: real)
    ensures r <= a && r <= b && (r == a || r == b)
  {
    if a <= b then a else b
  }

  function Max(a: real, b: real): (r: real)
    ensures a <= r && b <= r && (r == a || r == b)
  {
    if a <= b then b else a
  }

  /** The host's `Math.sqrt` and `Math.atan2`. */
  datatype Host = Host(sqrt: real -> real, atan2: (real, real) -> real)
  {
    /** `sqrt` gives the non-negative square root of every non-negative real. */
    ghost predicate Valid()
    {
      forall x: real :: 0.0 <= x ==> 0.0 <= sqrt(x) && sqrt(x) * sqrt(x) == x
    }
  }

  /** Squaring is strictly increasing on the non-negative reals. */
  lemma SquareStrictMonotone(a: real, b: real)
    requires 0.0 <= a < b
    ensures a * a < b * b
  {
    calc {
      a * a;
    <= { MulLeftMonotone(a, a, b); }
      a * b;
    < { assert 0.0 < b - a; assert (b - a) * b > 0.0; }
      b * b;
    }
  }

  /** On the non-negative reals, comparing squares compares the numbers. */
  lemma SquareCompare(a: real, b: real)
    requires 0.0 <= a && 0.0 <= b
    ensures a < b <==> a * a < b * b
  {
    if a < b {
      SquareStrictMonotone(a, b);
    } else if b < a {
      SquareStrictMonotone(b, a);
    }
  }

  /** `a * a`, kept behind a function so that facts about its sign survive
      the solver's rewriting of `0 < a * a`. */
  function Square(a: real): real
  {
    a * a
  }

  function Product(a: real, b: real): real
  {
    a * b
  }

  lemma ProductPositive(a: real, b: real)
    requires 0.0 < a && 0.0 < b
    ensures 0.0 < Product(a, b)
  {
  }

  lemma SquarePositive(a: real)
    requires a != 0.0
    ensures 0.0 < Square(a)
  {
    if a < 0.0 {
      ProductPositive(-a, -a);
      assert Square(a) == Product(-a, -a);
    } else {
      ProductPositive(a, a);
      assert Square(a) == Product(a, a);
    }
  }

  lemma SquareNonNegative(a: real)
    ensures 0.0 <= Square(a)
  {
    if a != 0.0 {
      SquarePositive(a);
    }
  }

  /** A non-zero factor cancels. */
  lemma Cancel(c: real, a: real, b: real)
    requires c != 0.0 && c * a == c * b
    ensures a == b
  {
    assert c * (a - b) == 0.0;
  }

  lemma MulLeftMonotone(c: real, a: real, b: real)
    requires 0.0 <= c && a <= b
    ensures c * a <= c * b
  {
    assert c * (b - a) >= 0.0;
  }

  lemma SqrtSquare(math: Host, x: real)
    requires math.Valid() && 0.0 <= x
    ensures 0.0 <= math.sqrt(x) && math.sqrt(x) * math.sqrt(x) == x
  {
  }

  /** The square root is the only non-negative real whose square is `x`. */
  lemma SqrtOf(math: Host, x: real, s: real)
    requires math.Valid() && 0.0 <= s && s * s == x
    ensures math.sqrt(x) == s
  {
    var q := math.sqrt(x);
    SqrtSquare(math, x);
    if q < s {
      SquareStrictMonotone(q, s);
    } else if s < q {
      SquareStrictMonotone(s, q);
    }
  }

  lemma SqrtZero(math: Host)
    requires math.Valid()
    ensures math.sqrt(0.0) == 0.0
  {
    SqrtOf(math, 0.0, 0.0);
  }

  lemma SqrtPositive(math: Host, x: real)
    requires math.Valid() && 0.0 < x
    ensures 0.0 < math.sqrt(x)
  {
    SqrtSquare(math, x);
  }

  /** A square root below `e` means the argument is below `e * e`, and conversely. */
  lemma SqrtBelow(math: Host, x: real, e: real)
    requires math.Valid() && 0.0 <= x && 0.0 <= e
    ensures math.sqrt(x) < e <==> x < e * e
  {
    var s := math.sqrt(x);
    SqrtSquare(math, x);
    if s < e {
      SquareStrictMonotone(s, e);
    } else if e < s {
      SquareStrictMonotone(e, s);
    }
  }
}
