/**
 `Target` and `raster` of `render.py`: the tiled, depth-buffered rasteriser, proved against a
 brute-force one that asks every triangle about every pixel.
 */
module Rasterizer {
  import opened Vectors
  import opened Options
  import opened Clipping

  datatype Color = Color(r: real, g: real, b: real)

  type Shader = Vec3 -> Color

  /** What the buffers hold for one pixel, and what a triangle offers it. Depth is 1/z, so
      larger is nearer and zero is empty. */
  datatype Pixel = Pixel(invz: real, color: Color)

  type Fragment = Option<Pixel>

  // ---- the reference: painting one pixel

  function Draw(p: Pixel, f: Fragment): Pixel { if f.Some? && f.value.invz > p.invz then f.value else p }

  /** Paint a pixel with the fragments offered to it, in order. */
  function Paint(p: Pixel, fs: seq<Fragment>): Pixel
    decreases |fs|
  {
    if |fs| == 0 then p else Draw(Paint(p, fs[..|fs| - 1]), fs[|fs| - 1])
  }

  /** `d` is the nearest depth among the initial one and the offers. */
  ghost predicate Nearest(p: Pixel, fs: seq<Fragment>, d: real) {
    && d >= p.invz
    && (forall k | 0 <= k < |fs| && fs[k].Some? :: fs[k].value.invz <= d)
    && (d == p.invz || exists k :: 0 <= k < |fs| && fs[k].Some? && fs[k].value.invz == d)
  }

  /** Offer `k` is what gets painted, and all earlier offers are strictly farther away. */
  ghost predicate Earliest(p: Pixel, fs: seq<Fragment>, k: int) {
    && 0 <= k < |fs| && fs[k] == Some(Paint(p, fs))
    && forall j | 0 <= j < k && fs[j].Some? :: fs[j].value.invz < Paint(p, fs).invz
  }

  /** The painted depth is the nearest, and the painted pixel is the earliest offer with it. */
  lemma {:induction false} PaintIsEarliestNearest(p: Pixel, fs: seq<Fragment>)
    ensures Nearest(p, fs, Paint(p, fs).invz)
    ensures Paint(p, fs).invz == p.invz ==> Paint(p, fs) == p
    ensures Paint(p, fs).invz > p.invz ==> exists k :: Earliest(p, fs, k)
  {
    if |fs| > 0 {
      var n := |fs| - 1;
      var front, last := fs[..n], fs[n];
      PaintIsEarliestNearest(p, front);
      var d := Paint(p, front).invz;
      assert forall k | 0 <= k < n :: front[k] == fs[k];
      if last.Some? && last.value.invz > d {
        assert Earliest(p, fs, n);
      } else if d > p.invz {
        var k :| Earliest(p, front, k);
        assert Earliest(p, fs, k);
      }
    }
  }

  lemma NearestUnique(p: Pixel, fs: seq<Fragment>, gs: seq<Fragment>, d: real, e: real)
    requires Nearest(p, fs, d) && Nearest(p, gs, e)
    requires forall k | 0 <= k < |fs| && fs[k].Some? :: exists j ::
             0 <= j < |gs| && gs[j].Some? && gs[j].value.invz == fs[k].value.invz
    requires forall k | 0 <= k < |gs| && gs[k].Some? :: exists j ::
             0 <= j < |fs| && fs[j].Some? && fs[j].value.invz == gs[k].value.invz
    ensures d == e
  {
  }

  /** The depth buffer does not depend on the order of the triangles. */
  lemma DepthIgnoresOrder(p: Pixel, fs: seq<Fragment>, gs: seq<Fragment>)
    requires multiset(fs) == multiset(gs)
    ensures Paint(p, fs).invz == Paint(p, gs).invz
  {
    PaintIsEarliestNearest(p, fs);
    PaintIsEarliestNearest(p, gs);
    forall k | 0 <= k < |fs| ensures exists j :: 0 <= j < |gs| && gs[j] == fs[k] {
      assert fs[k] in multiset(fs);
      assert fs[k] in multiset(gs);
    }
    forall k | 0 <= k < |gs| ensures exists j :: 0 <= j < |fs| && fs[j] == gs[k] {
      assert gs[k] in multiset(gs);
      assert gs[k] in multiset(fs);
    }
    NearestUnique(p, fs, gs, Paint(p, fs).invz, Paint(p, gs).invz);
  }

  /** ... nor on the shader: offers with the same depths paint the same depth. */
  lemma {:induction false} DepthIgnoresColor(p: Pixel, q: Pixel, fs: seq<Fragment>, gs: seq<Fragment>)
    requires p.invz == q.invz && |fs| == |gs|
    requires forall k | 0 <= k < |fs| ::
             fs[k].Some? == gs[k].Some? && (fs[k].Some? ==> fs[k].value.invz == gs[k].value.invz)
    ensures Paint(p, fs).invz == Paint(q, gs).invz
  {
    if |fs| > 0 {
      DepthIgnoresColor(p, q, fs[..|fs| - 1], gs[..|gs| - 1]);
    }
  }

  lemma {:induction false} PaintAppend(p: Pixel, fs: seq<Fragment>, gs: seq<Fragment>)
    ensures Paint(p, fs + gs) == Paint(Paint(p, fs), gs)
  {
    if |gs| == 0 {
      assert fs + gs == fs;
    } else {
      var n := |gs| - 1;
      assert (fs + gs)[..|fs + gs| - 1] == fs + gs[..n];
      PaintAppend(p, fs, gs[..n]);
    }
  }

  // ---- one triangle on the screen

  /** A clipped triangle in pixel coordinates, with the reciprocal depth of each corner. */
  datatype Screen = Screen(x0: real, x1: real, x2: real, y0: real, y1: real, y2: real, iz0: real, iz1: real, iz2: real)

  /** Twice the signed area. */
  function Area(s: Screen): real { (s.x1 - s.x0) * (s.y2 - s.y0) - (s.x2 - s.x0) * (s.y1 - s.y0) }

  predicate Degenerate(s: Screen) { Abs(Area(s)) < 0.000000000001 }

  /** Barycentric weights of the point (px, py), written as in the source. */
  function W0(s: Screen, px: real, py: real): real
    requires !Degenerate(s)
  {
    ((s.x1 - s.x0) * (py - s.y0) - (px - s.x0) * (s.y1 - s.y0)) / Area(s)
  }

  function W1(s: Screen, px: real, py: real): real
    requires !Degenerate(s)
  {
    ((px - s.x0) * (s.y2 - s.y0) - (s.x2 - s.x0) * (py - s.y0)) / Area(s)
  }

  predicate Covers(s: Screen, px: real, py: real) {
    !Degenerate(s) && W0(s, px, py) >= 0.0 && W1(s, px, py) >= 0.0 && 1.0 - W0(s, px, py) - W1(s, px, py) >= 0.0
  }

  function InvzAt(s: Screen, px: real, py: real): real
    requires !Degenerate(s)
  {
    MixedInvz(s, W0(s, px, py), W1(s, px, py))
  }

  function MixedInvz(s: Screen, w0: real, w1: real): real { Sum3(1.0 - w0 - w1, w1, w0, s.iz0, s.iz1, s.iz2) }

  function Sum3(x: real, y: real, z: real, a: real, b: real, c: real): real { x * a + y * b + z * c }

  lemma Cramer(ax: real, ay: real, bx: real, by_: real, qx: real, qy: real, area: real, w0: real, w1: real)
    requires area == ax * by_ - bx * ay && area != 0.0
    requires w0 * area == ax * qy - qx * ay && w1 * area == qx * by_ - bx * qy
    ensures w1 * ax + w0 * bx == qx && w1 * ay + w0 * by_ == qy
  {
    assert (w1 * ax + w0 * bx) * area == qx * area by {
      assert w1 * area * ax + w0 * area * bx == (qx * by_ - bx * qy) * ax + (ax * qy - qx * ay) * bx;
    }
    assert (w1 * ay + w0 * by_) * area == qy * area by {
      assert w1 * area * ay + w0 * area * by_ == (qx * by_ - bx * qy) * ay + (ax * qy - qx * ay) * by_;
    }
    Cancel(w1 * ax + w0 * bx, qx, area);
    Cancel(w1 * ay + w0 * by_, qy, area);
  }

  lemma Cancel(u: real, v: real, d: real)
    requires d != 0.0 && u * d == v * d
    ensures u == v
  {
    if u != v {
      var a, b := Abs(u - v), Abs(d);
      MulPositive(a, b);
    }
  }

  /** The weights place the point: it is the mixture of the corners that they say it is. */
  lemma WeightsPlace(s: Screen, px: real, py: real)
    requires !Degenerate(s)
    ensures Places(s, px, py, W0(s, px, py), W1(s, px, py))
  {
    WeightsWeigh(s, px, py);
    WeighedPlaces(s, px, py, W0(s, px, py), W1(s, px, py));
  }

  predicate Places(s: Screen, px: real, py: real, w0: real, w1: real) {
    Mix1(s.x0, s.x1, s.x2, 1.0 - w0 - w1, w1, w0) == px && Mix1(s.y0, s.y1, s.y2, 1.0 - w0 - w1, w1, w0) == py
  }

  /** The defining equations of the weights, without the division. */
  predicate Weigh(s: Screen, px: real, py: real, w0: real, w1: real) {
    && w0 * Area(s) == (s.x1 - s.x0) * (py - s.y0) - (px - s.x0) * (s.y1 - s.y0)
    && w1 * Area(s) == (px - s.x0) * (s.y2 - s.y0) - (s.x2 - s.x0) * (py - s.y0)
  }

  lemma WeightsWeigh(s: Screen, px: real, py: real)
    requires !Degenerate(s)
    ensures Weigh(s, px, py, W0(s, px, py), W1(s, px, py))
  {
    QuotientTimes((s.x1 - s.x0) * (py - s.y0) - (px - s.x0) * (s.y1 - s.y0), Area(s));
    QuotientTimes((px - s.x0) * (s.y2 - s.y0) - (s.x2 - s.x0) * (py - s.y0), Area(s));
  }

  lemma WeighedPlaces(s: Screen, px: real, py: real, w0: real, w1: real)
    requires !Degenerate(s) && Weigh(s, px, py, w0, w1)
    ensures Places(s, px, py, w0, w1)
  {
    Cramer(s.x1 - s.x0, s.y1 - s.y0, s.x2 - s.x0, s.y2 - s.y0, px - s.x0, py - s.y0, Area(s), w0, w1);
    MixRelative(s.x0, s.x1, s.x2, px, w0, w1);
    MixRelative(s.y0, s.y1, s.y2, py, w0, w1);
  }

  lemma QuotientTimes(n: real, d: real)
    requires d != 0.0
    ensures n / d * d == n
  {
  }

  lemma MixRelative(a: real, b: real, c: real, p: real, w0: real, w1: real)
    requires w1 * (b - a) + w0 * (c - a) == p - a
    ensures Mix1(a, b, c, 1.0 - w0 - w1, w1, w0) == p
  {
  }

  // ---- tiles

  function Min3(a: real, b: real, c: real): real { Min(a, Min(b, c)) }

  function Max3(a: real, b: real, c: real): real { Max(a, Max(b, c)) }

  function Ceil(x: real): int { -((-x).Floor) }

  /** The pixel range [First, Past) that a tile spans along one axis of a picture of `n` pixels. */
  function First(a: real, b: real, c: real): int {
    var f := Min3(a, b, c).Floor;
    if f > 0 then f else 0
  }

  function Past(a: real, b: real, c: real, n: int): int {
    var p := Ceil(Max3(a, b, c)) + 1;
    if p < n then p else n
  }

  lemma InRange(a: real, b: real, c: real, i: int, n: int)
    requires 0 <= i < n && Min3(a, b, c) <= i as real + 0.5 <= Max3(a, b, c)
    ensures First(a, b, c) <= i < Past(a, b, c, n)
  {
  }

  predicate InTile(s: Screen, w: int, h: int, i: int, j: int) {
    First(s.x0, s.x1, s.x2) <= i < Past(s.x0, s.x1, s.x2, w) && First(s.y0, s.y1, s.y2) <= j < Past(s.y0, s.y1, s.y2, h)
  }

  /** No covered pixel is outside the tile: looking only there misses nothing. */
  lemma CoveredInTile(s: Screen, w: int, h: int, i: int, j: int)
    requires 0 <= i < w && 0 <= j < h && Covers(s, i as real + 0.5, j as real + 0.5)
    ensures InTile(s, w, h, i, j)
  {
    var px, py := i as real + 0.5, j as real + 0.5;
    var w0, w1 := W0(s, px, py), W1(s, px, py);
    WeightsPlace(s, px, py);
    MixBetween(s.x0, s.x1, s.x2, 1.0 - w0 - w1, w1, w0, Min3(s.x0, s.x1, s.x2), Max3(s.x0, s.x1, s.x2));
    MixBetween(s.y0, s.y1, s.y2, 1.0 - w0 - w1, w1, w0, Min3(s.y0, s.y1, s.y2), Max3(s.y0, s.y1, s.y2));
    InRange(s.x0, s.x1, s.x2, i, w);
    InRange(s.y0, s.y1, s.y2, j, h);
  }

  /** A covered pixel gets a positive reciprocal depth, so zero keeps meaning empty. */
  lemma CoveredInvzPositive(s: Screen, px: real, py: real)
    requires Covers(s, px, py) && s.iz0 > 0.0 && s.iz1 > 0.0 && s.iz2 > 0.0
    ensures InvzAt(s, px, py) > 0.0
  {
    MixedPositive(s, W0(s, px, py), W1(s, px, py));
  }

  lemma MixedPositive(s: Screen, w0: real, w1: real)
    requires s.iz0 > 0.0 && s.iz1 > 0.0 && s.iz2 > 0.0 && w0 >= 0.0 && w1 >= 0.0 && 1.0 - w0 - w1 >= 0.0
    ensures MixedInvz(s, w0, w1) > 0.0
  {
    PositiveMix(s.iz0, s.iz1, s.iz2, 1.0 - w0 - w1, w1, w0);
  }

  lemma PositiveMix(a: real, b: real, c: real, x: real, y: real, z: real)
    requires a > 0.0 && b > 0.0 && c > 0.0 && Bary(x, y, z)
    ensures Sum3(x, y, z, a, b, c) > 0.0
  {
    var lo := Min3(a, b, c);
    Weighted(a - lo, b - lo, c - lo, x, y, z);
    assert lo * (x + y + z) == lo;
  }
}
