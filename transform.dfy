/** `createTransform` of `src/utils/useCanvas.js`: the map between world
    coordinates (the plane the matrix acts on) and canvas pixels. */
module Transform {
  import opened JsMath
  import opened Primitives

  /** `[minX, maxX, minY, maxY]`. */
  datatype WorldBounds = WorldBounds(minX: real, maxX: real, minY: real, maxY: real)

  /** The default `worldBounds = [-4, 4, -4, 4]`. */
  const DefaultBounds: WorldBounds := WorldBounds(-4.0, 4.0, -4.0, 4.0)

  /** What the returned `toScreen` and `toWorld` closures capture: the canvas
      centre, the world centre and the common `scale`. */
  datatype CanvasTransform = CanvasTransform(centerX: real, centerY: real, midX: real, midY: real, scale: real)

  /** `toScreen(x, y)`: world to pixels; `y` grows upwards in the world and
      downwards on the canvas. */
  function ToScreen(t: CanvasTransform, p: Vec): (r: Vec)
    ensures p == Vec(t.midX, t.midY) ==> r == Vec(t.centerX, t.centerY)
  {
    Vec(t.centerX + (p.x - t.midX) * t.scale, t.centerY - (p.y - t.midY) * t.scale)
  }

  /** `toWorld(sx, sy)`: pixels to world; the world point that `toScreen`
      sends to `(sx, sy)`. */
  function ToWorld(t: CanvasTransform, q: Vec): (r: Vec)
    requires t.scale != 0.0
    ensures ToScreen(t, r) == q
  {
    DivThenScale(q.x - t.centerX, t.scale);
    DivThenScale(-(q.y - t.centerY), t.scale);
    Vec((q.x - t.centerX) / t.scale + t.midX, -(q.y - t.centerY) / t.scale + t.midY)
  }

  /** Scaling back a quotient by its divisor gives the dividend. */
  lemma DivThenScale(a: real, s: real)
    requires s != 0.0
    ensures a / s * s == a
  {
  }

  /** `createTransform(width, height, worldBounds)`: one scale for both
      axes, 90% of the one that would just fit the world box, so the box
      keeps its aspect ratio; the world centre sits at the canvas centre. */
  function CreateTransform(width: real, height: real, b: WorldBounds): (t: CanvasTransform)
    requires b.maxX - b.minX != 0.0 && b.maxY - b.minY != 0.0
    ensures t.scale == 0.9 * Min(width / (b.maxX - b.minX), height / (b.maxY - b.minY))
    ensures ToScreen(t, Vec((b.minX + b.maxX) / 2.0, (b.minY + b.maxY) / 2.0)) == Vec(width / 2.0, height / 2.0)
    ensures 0.0 < width && 0.0 < height && b.minX < b.maxX && b.minY < b.maxY ==> 0.0 < t.scale
  {
    var worldWidth := b.maxX - b.minX;
    var worldHeight := b.maxY - b.minY;
    var scale := Min(width / worldWidth, height / worldHeight) * 0.9;
    CanvasTransform(width / 2.0, height / 2.0, (b.minX + b.maxX) / 2.0, (b.minY + b.maxY) / 2.0, scale)
  }

  /** The default box `[-4, 4, -4, 4]`, which every view uses, is 8 wide
      and 8 high: the scale is 90% of the smaller canvas side over 8, the
      origin sits at the canvas centre, and the corner `(4, 4)` lands
      `4·scale` pixels right of and above it. */
  lemma DefaultTransform(width: real, height: real)
    ensures var t := CreateTransform(width, height, DefaultBounds);
      && t.scale == 0.9 * Min(width, height) / 8.0
      && ToScreen(t, Vec(0.0, 0.0)) == Vec(width / 2.0, height / 2.0)
      && ToScreen(t, Vec(4.0, 4.0)) == Vec(width / 2.0 + 4.0 * t.scale, height / 2.0 - 4.0 * t.scale)
  {
    var t := CreateTransform(width, height, DefaultBounds);
    assert Min(width / 8.0, height / 8.0) == Min(width, height) / 8.0;
  }

  /** `toWorld` undoes `toScreen`. */
  lemma WorldRoundTrip(t: CanvasTransform, p: Vec)
    requires t.scale != 0.0
    ensures ToWorld(t, ToScreen(t, p)) == p
  {
    var q := ToScreen(t, p);
    assert (q.x - t.centerX) / t.scale == p.x - t.midX;
    assert -(q.y - t.centerY) / t.scale == p.y - t.midY;
  }

  /** `toScreen` undoes `toWorld`. */
  lemma ScreenRoundTrip(t: CanvasTransform, q: Vec)
    requires t.scale != 0.0
    ensures ToScreen(t, ToWorld(t, q)) == q
  {
    var p := ToWorld(t, q);
    assert (p.x - t.midX) * t.scale == q.x - t.centerX;
    assert (p.y - t.midY) * t.scale == -(q.y - t.centerY);
  }

  /** The same scale on both axes: a world displacement `(dx, dy)` becomes
      the pixel displacement `(scale·dx, −scale·dy)`, wherever it starts. */
  lemma UniformScale(t: CanvasTransform, p: Vec, r: Vec)
    ensures ToScreen(t, r).x - ToScreen(t, p).x == t.scale * (r.x - p.x)
    ensures ToScreen(t, r).y - ToScreen(t, p).y == -(t.scale * (r.y - p.y))
  {
  }

  /** For a positive scale, moving right in the world moves right on the
      canvas, and moving up in the world moves up on the canvas (to a
      smaller pixel row). */
  lemma Orientation(t: CanvasTransform, p: Vec, r: Vec)
    requires 0.0 < t.scale
    ensures p.x < r.x ==> ToScreen(t, p).x < ToScreen(t, r).x
    ensures p.y < r.y ==> ToScreen(t, r).y < ToScreen(t, p).y
  {
    UniformScale(t, p, r);
    if p.x < r.x {
      ProductPositive(t.scale, r.x - p.x);
    }
    if p.y < r.y {
      ProductPositive(t.scale, r.y - p.y);
    }
  }

  /** `|a·s| ≤ (w/2)·s ≤ 0.45·width` for `|a| ≤ w/2` and `0 ≤ s ≤ 0.9·width/w`. */
  lemma MarginBound(a: real, w: real, s: real, width: real)
    requires 0.0 < w && 0.0 < width && Abs(a) <= w / 2.0
    requires 0.0 <= s <= 0.9 * (width / w)
    ensures Abs(a * s) <= 0.45 * width
  {
    MulLeftMonotone(s, Abs(a), w / 2.0);
    MulLeftMonotone(w / 2.0, s, 0.9 * (width / w));
    assert (w / 2.0) * (0.9 * (width / w)) == 0.45 * width;
    assert Abs(a * s) == s * Abs(a);
  }

  /** The 90% margin keeps the whole world box on the canvas: every point
      with `minX ≤ x ≤ maxX` and `minY ≤ y ≤ maxY` lands at least 5% of the
      canvas size inside each edge. */
  lemma WorldBoxOnCanvas(width: real, height: real, b: WorldBounds, p: Vec)
    requires 0.0 < width && 0.0 < height && b.minX < b.maxX && b.minY < b.maxY
    requires b.minX <= p.x <= b.maxX && b.minY <= p.y <= b.maxY
    ensures var q := ToScreen(CreateTransform(width, height, b), p);
      && 0.05 * width <= q.x <= 0.95 * width
      && 0.05 * height <= q.y <= 0.95 * height
  {
    var t := CreateTransform(width, height, b);
    MarginBound(p.x - t.midX, b.maxX - b.minX, t.scale, width);
    MarginBound(p.y - t.midY, b.maxY - b.minY, t.scale, height);
  }
}
