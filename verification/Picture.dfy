/**
 What a rendered pixel shows: the consequences of the brute-force form of the rasteriser, in
 terms of triangles, and the exactness of the seg colours after `encode`.
 */
module Picture {
  import opened Vectors
  import opened Options
  import opened Clipping
  import opened Rasterizer
  import opened Drawing

  const EMPTY := Pixel(0.0, Color(0.0, 0.0, 0.0))

  // ---- which triangle an offer comes from

  lemma {:induction false} OfferOwner(of: OffersOf, tris: seq<Triangle>, shades: seq<Shader>, m: nat)
    returns (k: nat, q: nat)
    requires |tris| == |shades| && m < |Offers(of, tris, shades)|
    ensures k < |tris| && q < |of(tris[k], shades[k])| && Offers(of, tris, shades)[m] == of(tris[k], shades[k])[q]
    ensures m == |Offers(of, tris[..k], shades[..k])| + q
  {
    var n := |tris| - 1;
    var front := Offers(of, tris[..n], shades[..n]);
    if m < |front| {
      k, q := OfferOwner(of, tris[..n], shades[..n], m);
      assert tris[..n][..k] == tris[..k] && shades[..n][..k] == shades[..k];
    } else {
      k, q := n, m - |front|;
    }
  }

  lemma {:induction false} OfferPosition(of: OffersOf, tris: seq<Triangle>, shades: seq<Shader>, k: nat, q: nat)
    returns (m: nat)
    requires |tris| == |shades| && k < |tris| && q < |of(tris[k], shades[k])|
    ensures m == |Offers(of, tris[..k], shades[..k])| + q
    ensures m < |Offers(of, tris, shades)| && Offers(of, tris, shades)[m] == of(tris[k], shades[k])[q]
  {
    var n := |tris| - 1;
    if k == n {
      m := |Offers(of, tris[..n], shades[..n])| + q;
    } else {
      m := OfferPosition(of, tris[..n], shades[..n], k, q);
      assert tris[..n][..k] == tris[..k] && shades[..n][..k] == shades[..k];
    }
  }

  lemma {:induction false} OffersMonotone(of: OffersOf, tris: seq<Triangle>, shades: seq<Shader>, j: nat, k: nat)
    requires |tris| == |shades| && j < k <= |tris|
    ensures |Offers(of, tris[..j], shades[..j])| + |of(tris[j], shades[j])| <= |Offers(of, tris[..k], shades[..k])|
    decreases k
  {
    assert tris[..k][..k - 1] == tris[..k - 1] && shades[..k][..k - 1] == shades[..k - 1];
    if j < k - 1 {
      OffersMonotone(of, tris, shades, j, k - 1);
    }
  }

  /** The fragments that triangle `k` offers to a pixel. */
  ghost predicate OffersTo(of: OffersOf, tris: seq<Triangle>, shades: seq<Shader>, k: int, f: Fragment, i: int, j: int)
    requires |tris| == |shades|
  {
    0 <= k < |tris| && exists q :: 0 <= q < |of(tris[k], shades[k])| && of(tris[k], shades[k])[q](i, j) == f
  }

  /** A painted pixel shows the nearest fragment of all triangles, and among equally near ones that
      of the earliest triangle; an untouched pixel was offered nothing nearer. */
  lemma PaintedPixel(of: OffersOf, tris: seq<Triangle>, shades: seq<Shader>, p: Pixel, i: int, j: int)
    requires |tris| == |shades|
    ensures var d := Paint(p, At(Offers(of, tris, shades), i, j));
            && (forall k, f | OffersTo(of, tris, shades, k, f, i, j) && f.Some? :: f.value.invz <= d.invz)
            && (d == p || exists k :: ShownFirst(of, tris, shades, k, d, i, j))
  {
    var offers := Offers(of, tris, shades);
    var fs := At(offers, i, j);
    var d := Paint(p, fs);
    PaintIsEarliestNearest(p, fs);
    forall k, f | OffersTo(of, tris, shades, k, f, i, j) && f.Some? ensures f.value.invz <= d.invz {
      var q :| 0 <= q < |of(tris[k], shades[k])| && of(tris[k], shades[k])[q](i, j) == f;
      var m := OfferPosition(of, tris, shades, k, q);
      assert fs[m] == f;
    }
    if d != p {
      var m :| Earliest(p, fs, m);
      var k, q := OfferOwner(of, tris, shades, m);
      assert of(tris[k], shades[k])[q](i, j) == fs[m];
      forall k', f | 0 <= k' < k && OffersTo(of, tris, shades, k', f, i, j) && f.Some? ensures f.value.invz < d.invz {
        var q' :| 0 <= q' < |of(tris[k'], shades[k'])| && of(tris[k'], shades[k'])[q'](i, j) == f;
        var m' := OfferPosition(of, tris, shades, k', q');
        OffersMonotone(of, tris, shades, k', k);
        assert fs[m'] == f && m' < m;
      }
      assert ShownFirst(of, tris, shades, k, d, i, j);
    }
  }

  /** Triangle `k` offers `d`, and every earlier triangle offers only things farther away. */
  ghost predicate ShownFirst(of: OffersOf, tris: seq<Triangle>, shades: seq<Shader>, k: int, d: Pixel, i: int, j: int)
    requires |tris| == |shades|
  {
    && OffersTo(of, tris, shades, k, Some(d), i, j)
    && forall k', f | 0 <= k' < k && OffersTo(of, tris, shades, k', f, i, j) && f.Some? :: f.value.invz < d.invz
  }

  // ---- the depth buffer depends only on the set of triangles

  /** Whether and how near a triangle reaches a pixel does not depend on its shader. */
  ghost predicate DepthOnly(of: OffersOf) {
    forall t: Triangle, f: Shader, g: Shader {:trigger of(t, f), of(t, g)} :: |of(t, f)| == |of(t, g)| &&
      forall q, i, j | 0 <= q < |of(t, f)| :: SameDepth(of(t, f)[q](i, j), of(t, g)[q](i, j))
  }

  predicate SameDepth(f: Fragment, g: Fragment) { f.Some? == g.Some? && (f.Some? ==> f.value.invz == g.value.invz) }

  lemma BruteForceDepthOnly(vp: Viewport, sqrt: real -> real, t: Triangle, f: Shader, g: Shader)
    ensures var a, b := BruteForce(vp, sqrt)(t, f), BruteForce(vp, sqrt)(t, g);
            |a| == |b| && forall q, i, j | 0 <= q < |a| :: SameDepth(a[q](i, j), b[q](i, j))
  {
    ClipVisible(t);
  }

  lemma BruteForceIsDepthOnly(vp: Viewport, sqrt: real -> real)
    ensures DepthOnly(BruteForce(vp, sqrt))
  {
    forall t: Triangle, f: Shader, g: Shader
      ensures var a, b := BruteForce(vp, sqrt)(t, f), BruteForce(vp, sqrt)(t, g);
              |a| == |b| && forall q, i, j | 0 <= q < |a| :: SameDepth(a[q](i, j), b[q](i, j))
    {
      BruteForceDepthOnly(vp, sqrt, t, f, g);
    }
  }

  /** Two renderings of the same triangles, in any order, repeated or not, and with whatever
      shaders, have the same depth buffer. */
  lemma DepthDependsOnTriangles(vp: Viewport, sqrt: real -> real, a: seq<Triangle>, f: seq<Shader>, b: seq<Triangle>,
                                g: seq<Shader>, p: Pixel, i: int, j: int)
    requires |a| == |f| && |b| == |g|
    requires forall t | t in a :: t in b
    requires forall t | t in b :: t in a
    ensures var of := BruteForce(vp, sqrt);
            Paint(p, At(Offers(of, a, f), i, j)).invz == Paint(p, At(Offers(of, b, g), i, j)).invz
  {
    BruteForceIsDepthOnly(vp, sqrt);
    SameTrianglesSameDepth(BruteForce(vp, sqrt), a, f, b, g, p, i, j);
  }

  lemma SameTrianglesSameDepth(of: OffersOf, a: seq<Triangle>, f: seq<Shader>, b: seq<Triangle>, g: seq<Shader>,
                               p: Pixel, i: int, j: int)
    requires |a| == |f| && |b| == |g| && DepthOnly(of)
    requires forall t | t in a :: t in b
    requires forall t | t in b :: t in a
    ensures Paint(p, At(Offers(of, a, f), i, j)).invz == Paint(p, At(Offers(of, b, g), i, j)).invz
  {
    DepthAtMost(of, a, f, b, g, p, i, j);
    DepthAtMost(of, b, g, a, f, p, i, j);
  }

  lemma DepthAtMost(of: OffersOf, a: seq<Triangle>, f: seq<Shader>, b: seq<Triangle>, g: seq<Shader>,
                    p: Pixel, i: int, j: int)
    requires |a| == |f| && |b| == |g| && DepthOnly(of) && forall t | t in a :: t in b
    ensures Paint(p, At(Offers(of, a, f), i, j)).invz <= Paint(p, At(Offers(of, b, g), i, j)).invz
  {
    var fs, gs := At(Offers(of, a, f), i, j), At(Offers(of, b, g), i, j);
    PaintIsEarliestNearest(p, fs);
    PaintIsEarliestNearest(p, gs);
    if Paint(p, fs).invz > p.invz {
      var m :| Earliest(p, fs, m);
      var k, q := OfferOwner(of, a, f, m);
      assert a[k] in b;
      var l :| 0 <= l < |b| && b[l] == a[k];
      assert |of(b[l], f[k])| == |of(b[l], g[l])|;
      var n := OfferPosition(of, b, g, l, q);
      assert SameDepth(of(b[l], f[k])[q](i, j), of(b[l], g[l])[q](i, j));
      assert fs[m] == of(a[k], f[k])[q](i, j) && gs[n] == of(b[l], g[l])[q](i, j);
    }
  }

  // ---- encode

  datatype Rgb = Rgb(r: nat, g: nat, b: nat)

  predicate Byte(c: Rgb) { c.r <= 255 && c.g <= 255 && c.b <= 255 }

  /** A byte colour in the 0-1 range of the colour buffer. */
  function Unit01(c: Rgb): Color { Color(c.r as real / 255.0, c.g as real / 255.0, c.b as real / 255.0) }

  function EncodeChannel(x: real): (n: nat)
    ensures n <= 255
  {
    var y := Max(0.0, Min(1.0, x)) * 255.0;
    RoundHalfEven(y)
  }

  /** `encode` for one pixel: the background where nothing was drawn. */
  function EncodePixel(p: Pixel, bg: Rgb): Rgb {
    var c := if p.invz <= 0.0 then Unit01(bg) else p.color;
    Rgb(EncodeChannel(c.r), EncodeChannel(c.g), EncodeChannel(c.b))
  }

  lemma ByteSurvives(n: nat)
    requires n <= 255
    ensures EncodeChannel(n as real / 255.0) == n
  {
    var x := n as real / 255.0;
    assert x * 255.0 == n as real;
  }

  /** The colours of the seg view come back bit for bit. */
  lemma FlatColorSurvives(c: Rgb, bg: Rgb, d: real)
    requires Byte(c) && Byte(bg)
    ensures EncodePixel(Pixel(d, Unit01(c)), bg) == if d <= 0.0 then bg else c
  {
    ByteSurvives(c.r);
    ByteSurvives(c.g);
    ByteSurvives(c.b);
    ByteSurvives(bg.r);
    ByteSurvives(bg.g);
    ByteSurvives(bg.b);
  }

  function Colors(cols: seq<Rgb>): seq<Color> { seq(|cols|, k requires 0 <= k < |cols| => Unit01(cols[k])) }

  lemma BruteForceIsFlat(vp: Viewport, sqrt: real -> real, t: Triangle, c: Color, q: nat, i: int, j: int)
    requires q < |BruteForce(vp, sqrt)(t, FlatShader(c))|
    ensures var f := BruteForce(vp, sqrt)(t, FlatShader(c))[q](i, j);
            f.Some? ==> f.value.color == c && f.value.invz > 0.0
  {
    ClipVisible(t);
    var o := Clip(t)[q];
    assert o in Clip(t);
    var s := ScreenOf(vp, o);
    var px, py := i as real + 0.5, j as real + 0.5;
    if Covers(s, px, py) {
      CoveredInvzPositive(s, px, py);
    }
  }

  ghost predicate Touched(of: OffersOf, tris: seq<Triangle>, shades: seq<Shader>, i: int, j: int)
    requires |tris| == |shades|
  {
    exists k, d :: OffersTo(of, tris, shades, k, Some(d), i, j)
  }

  /** The seg view, pixel by pixel: background where no triangle covers the pixel centre, and
      otherwise exactly the colour of the earliest triangle that is nearest there. */
  lemma SegPixel(vp: Viewport, sqrt: real -> real, tris: seq<Triangle>, cols: seq<Rgb>, bg: Rgb, i: int, j: int)
    requires |tris| == |cols| && Byte(bg) && forall k | 0 <= k < |cols| :: Byte(cols[k])
    ensures var of, shades := BruteForce(vp, sqrt), FlatShades(Colors(cols));
            var d := Paint(EMPTY, At(Offers(of, tris, shades), i, j));
            if Touched(of, tris, shades, i, j)
            then exists k :: ShownFirst(of, tris, shades, k, d, i, j) && EncodePixel(d, bg) == cols[k]
            else EncodePixel(d, bg) == bg
  {
    var of, shades := BruteForce(vp, sqrt), FlatShades(Colors(cols));
    forall k, f | OffersTo(of, tris, shades, k, f, i, j) && f.Some?
      ensures f.value.color == Unit01(cols[k]) && f.value.invz > 0.0
    {
      FlatOffer(vp, sqrt, tris, cols, k, f.value, i, j);
    }
    FlatPixel(of, tris, cols, shades, bg, i, j);
  }

  lemma FlatPixel(of: OffersOf, tris: seq<Triangle>, cols: seq<Rgb>, shades: seq<Shader>, bg: Rgb, i: int, j: int)
    requires |tris| == |cols| == |shades| && Byte(bg) && forall k | 0 <= k < |cols| :: Byte(cols[k])
    requires forall k, f | OffersTo(of, tris, shades, k, f, i, j) && f.Some? ::
               f.value.color == Unit01(cols[k]) && f.value.invz > 0.0
    ensures var d := Paint(EMPTY, At(Offers(of, tris, shades), i, j));
            if Touched(of, tris, shades, i, j)
            then exists k :: ShownFirst(of, tris, shades, k, d, i, j) && EncodePixel(d, bg) == cols[k]
            else EncodePixel(d, bg) == bg
  {
    var d := Paint(EMPTY, At(Offers(of, tris, shades), i, j));
    PaintedPixel(of, tris, shades, EMPTY, i, j);
    if Touched(of, tris, shades, i, j) {
      var k, e :| OffersTo(of, tris, shades, k, Some(e), i, j);
      assert e.invz > 0.0 && e.invz <= d.invz;
      var l :| ShownFirst(of, tris, shades, l, d, i, j);
      FlatColorSurvives(cols[l], bg, d.invz);
    } else {
      FlatColorSurvives(Rgb(0, 0, 0), bg, 0.0);
    }
  }

  lemma FlatOffer(vp: Viewport, sqrt: real -> real, tris: seq<Triangle>, cols: seq<Rgb>, k: int, d: Pixel, i: int,
                  j: int)
    requires |tris| == |cols| && OffersTo(BruteForce(vp, sqrt), tris, FlatShades(Colors(cols)), k, Some(d), i, j)
    ensures d.color == Unit01(cols[k]) && d.invz > 0.0
  {
    var of, shades := BruteForce(vp, sqrt), FlatShades(Colors(cols));
    var q :| 0 <= q < |of(tris[k], shades[k])| && of(tris[k], shades[k])[q](i, j) == Some(d);
    BruteForceIsFlat(vp, sqrt, tris[k], Unit01(cols[k]), q, i, j);
  }
}
