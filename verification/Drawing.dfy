/**
 The imperative side of `render.py`: the `Target` buffers, `raster`, the colour-grouped loop of
 the seg view and `encode`.
 */
module Drawing {
  import opened Vectors
  import opened Options
  import opened Clipping
  import opened Rasterizer

  /** Picture size in pixels and the two projection factors (fscale / aspect and fscale). */
  datatype Viewport = Viewport(w: nat, h: nat, kx: real, ky: real)

  /** What a triangle offers to pixel (x, y). */
  type Offer = (int, int) -> Fragment

  predicate Visible(o: Triangle) { Beyond(o.a) && Beyond(o.b) && Beyond(o.c) }

  /** A triangle beyond the near plane, in pixel coordinates. */
  function ScreenOf(vp: Viewport, o: Triangle): (s: Screen)
    requires Visible(o)
    ensures s.iz0 > 0.0 && s.iz1 > 0.0 && s.iz2 > 0.0
  {
    var (a, b, c) := (Cameras.RasterNdc(o.a.pos, vp.kx, vp.ky), Cameras.RasterNdc(o.b.pos, vp.kx, vp.ky),
                      Cameras.RasterNdc(o.c.pos, vp.kx, vp.ky));
    Screen((a.x * 0.5 + 0.5) * vp.w as real, (b.x * 0.5 + 0.5) * vp.w as real, (c.x * 0.5 + 0.5) * vp.w as real,
           (0.5 - a.y * 0.5) * vp.h as real, (0.5 - b.y * 0.5) * vp.h as real, (0.5 - c.y * 0.5) * vp.h as real,
           1.0 / -o.a.pos.z, 1.0 / -o.b.pos.z, 1.0 / -o.c.pos.z)
  }

  /** The perspective-correct normal at a covered point, normalised. */
  function NormalAt(sqrt: real -> real, o: Triangle, s: Screen, px: real, py: real): Vec3
    requires !Degenerate(s) && InvzAt(s, px, py) > 0.0
  {
    var w0, w1 := W0(s, px, py), W1(s, px, py);
    var n := Mul(Mix(Mul(o.a.nrm, s.iz0), Mul(o.b.nrm, s.iz1), Mul(o.c.nrm, s.iz2), 1.0 - w0 - w1, w1, w0),
                 1.0 / InvzAt(s, px, py));
    var ln := Length(sqrt, n);
    if ln < 0.000000000001 then n else Mul(n, 1.0 / ln)
  }

  /** What a visible triangle offers to each pixel centre: brute force, no tile. */
  function OfferOf(vp: Viewport, sqrt: real -> real, shade: Shader, o: Triangle): Offer
    requires Visible(o)
  {
    (i: int, j: int) =>
      var s := ScreenOf(vp, o);
      var px, py := i as real + 0.5, j as real + 0.5;
      if !Covers(s, px, py) then None
      else
        CoveredInvzPositive(s, px, py);
        Some(Pixel(InvzAt(s, px, py), shade(NormalAt(sqrt, o, s, px, py))))
  }

  lemma ClipVisible(t: Triangle)
    ensures forall o | o in Clip(t) :: Visible(o)
  {
    forall o | o in Clip(t) ensures Visible(o) {
      var k :| 0 <= k < |Clip(t)| && Clip(t)[k] == o;
      ClipSound(t, k);
    }
  }

  /** The offers of a triangle with a given shader, as a value. */
  type OffersOf = (Triangle, Shader) -> seq<Offer>

  /** The offers of all triangles in drawing order; triangle k has its own shader. */
  function Offers(of: OffersOf, tris: seq<Triangle>, shades: seq<Shader>): seq<Offer>
    requires |tris| == |shades|
  {
    if |tris| == 0 then []
    else
      var n := |tris| - 1;
      Offers(of, tris[..n], shades[..n]) + of(tris[n], shades[n])
  }

  /** The brute-force renderer: clip a triangle and ask every piece about every pixel. */
  function BruteForce(vp: Viewport, sqrt: real -> real): OffersOf {
    (t: Triangle, shade: Shader) => ClipVisible(t); ClipOffers(vp, sqrt, Clip(t), shade)
  }

  ghost predicate IsBruteForce(of: OffersOf, vp: Viewport, sqrt: real -> real) {
    forall t: Triangle, shade: Shader {:trigger BruteForce(vp, sqrt)(t, shade)} ::
      of(t, shade) == BruteForce(vp, sqrt)(t, shade)
  }

  function ClipOffers(vp: Viewport, sqrt: real -> real, clips: seq<Triangle>, shade: Shader): (os: seq<Offer>)
    requires forall o | o in clips :: Visible(o)
    ensures |os| == |clips| && forall k | 0 <= k < |os| :: os[k] == OfferOf(vp, sqrt, shade, clips[k])
  {
    seq(|clips|, k requires 0 <= k < |clips| => OfferOf(vp, sqrt, shade, clips[k]))
  }

  /** The fragments offered to one pixel. */
  function At(offers: seq<Offer>, i: int, j: int): (fs: seq<Fragment>)
    ensures |fs| == |offers| && forall k | 0 <= k < |fs| :: fs[k] == offers[k](i, j)
  {
    seq(|offers|, k requires 0 <= k < |offers| => offers[k](i, j))
  }

  /** `Target`: colour and reciprocal-depth buffers. */
  class Target {
    const w: nat
    const h: nat
    const color: array2<Color>
    const invz: array2<real>

    constructor (w: nat, h: nat)
      ensures Valid() && this.w == w && this.h == h && fresh(color) && fresh(invz)
      ensures forall i, j | 0 <= i < w && 0 <= j < h :: PixelAt(i, j) == Pixel(0.0, Color(0.0, 0.0, 0.0))
    {
      this.w, this.h := w, h;
      color := new Color[h, w]((_, _) => Color(0.0, 0.0, 0.0));
      invz := new real[h, w]((_, _) => 0.0);
    }

    ghost predicate Valid() {
      color.Length0 == invz.Length0 == h && color.Length1 == invz.Length1 == w
    }

    function PixelAt(i: int, j: int): Pixel
      requires Valid() && 0 <= i < w && 0 <= j < h
      reads color, invz
    {
      Pixel(invz[j, i], color[j, i])
    }

    /** The tile update: every pixel of the tile takes the offer if it is nearer. */
    method DrawTile(x0: int, x1: int, y0: int, y1: int, offer: Offer)
      requires Valid() && 0 <= x0 <= x1 <= w && 0 <= y0 <= y1 <= h
      requires forall i, j | 0 <= i < w && 0 <= j < h && !(x0 <= i < x1 && y0 <= j < y1) :: offer(i, j).None?
      modifies color, invz
      ensures forall i, j | 0 <= i < w && 0 <= j < h :: PixelAt(i, j) == Draw(old(PixelAt(i, j)), offer(i, j))
    {
      for j := y0 to y1
        invariant forall i, k | 0 <= i < w && 0 <= k < h ::
                    PixelAt(i, k) == if k < j then Draw(old(PixelAt(i, k)), offer(i, k)) else old(PixelAt(i, k))
      {
        for i := x0 to x1
          invariant forall l, k | 0 <= l < w && 0 <= k < h ::
                      PixelAt(l, k) == if k < j || (k == j && l < i) then Draw(old(PixelAt(l, k)), offer(l, k))
                                       else old(PixelAt(l, k))
        {
          var f := offer(i, j);
          if f.Some? && f.value.invz > invz[j, i] {
            invz[j, i] := f.value.invz;
            color[j, i] := f.value.color;
          }
        }
      }
    }

    /** Draw one triangle that lies beyond the near plane: only its tile is visited. */
    method DrawTriangle(vp: Viewport, sqrt: real -> real, shade: Shader, o: Triangle)
      requires Valid() && vp.w == w && vp.h == h && Visible(o)
      modifies color, invz
      ensures forall i, j | 0 <= i < w && 0 <= j < h ::
                PixelAt(i, j) == Draw(old(PixelAt(i, j)), OfferOf(vp, sqrt, shade, o)(i, j))
    {
      var offer := OfferOf(vp, sqrt, shade, o);
      var s := ScreenOf(vp, o);
      var x0, x1 := First(s.x0, s.x1, s.x2), Past(s.x0, s.x1, s.x2, w);
      var y0, y1 := First(s.y0, s.y1, s.y2), Past(s.y0, s.y1, s.y2, h);
      OffersOnlyInTile(vp, sqrt, shade, o);
      if x0 >= x1 || y0 >= y1 || Degenerate(s) {
        return;
      }
      DrawTile(x0, x1, y0, y1, offer);
    }

    /** Clip one triangle and draw the pieces. */
    method DrawClipped(vp: Viewport, sqrt: real -> real, shade: Shader, t: Triangle, ghost of: OffersOf)
      requires Valid() && vp.w == w && vp.h == h && IsBruteForce(of, vp, sqrt)
      modifies color, invz
      ensures forall i, j | 0 <= i < w && 0 <= j < h ::
              PixelAt(i, j) == Paint(old(PixelAt(i, j)), At(of(t, shade), i, j))
    {
      var clips := ClipNear(t);
      ClipVisible(t);
      ghost var all := ClipOffers(vp, sqrt, clips, shade);
      assert BruteForce(vp, sqrt)(t, shade) == all;
      for k := 0 to |clips|
        invariant forall i, j | 0 <= i < w && 0 <= j < h ::
                  PixelAt(i, j) == Paint(old(PixelAt(i, j)), At(all[..k], i, j))
      {
        assert clips[k] in clips;
        DrawTriangle(vp, sqrt, shade, clips[k]);
        assert all[..k + 1] == all[..k] + [all[k]];
        forall i, j | 0 <= i < w && 0 <= j < h
          ensures PixelAt(i, j) == Paint(old(PixelAt(i, j)), At(all[..k + 1], i, j))
        {
          PaintStep(old(PixelAt(i, j)), all[..k], all[k], i, j);
        }
      }
      assert all[..|clips|] == all;
    }

    /** `raster`: draw all triangles with one shader. */
    method Raster(vp: Viewport, sqrt: real -> real, tris: seq<Triangle>, shade: Shader, ghost of: OffersOf)
      requires Valid() && vp.w == w && vp.h == h && IsBruteForce(of, vp, sqrt)
      modifies color, invz
      ensures forall i, j | 0 <= i < w && 0 <= j < h ::
                PixelAt(i, j) == Paint(old(PixelAt(i, j)), At(Offers(of, tris, Uniform(shade, |tris|)), i, j))
    {
      for n := 0 to |tris|
        invariant forall i, j | 0 <= i < w && 0 <= j < h ::
                    PixelAt(i, j) == Paint(old(PixelAt(i, j)), At(Offers(of, tris[..n], Uniform(shade, n)), i, j))
      {
        ghost var front := Offers(of, tris[..n], Uniform(shade, n));
        DrawClipped(vp, sqrt, shade, tris[n], of);
        forall i, j | 0 <= i < w && 0 <= j < h
          ensures PixelAt(i, j) == Paint(old(PixelAt(i, j)), At(front + of(tris[n], shade), i, j))
        {
          PaintBoth(old(PixelAt(i, j)), front, of(tris[n], shade), i, j);
        }
        assert tris[..n + 1][..n] == tris[..n] && Uniform(shade, n + 1)[..n] == Uniform(shade, n);
        assert Offers(of, tris[..n + 1], Uniform(shade, n + 1)) == front + of(tris[n], shade);
      }
      assert tris[..|tris|] == tris;
    }

    /** The seg view: consecutive triangles of one colour are drawn together, flat. The result
        is that of a single pass in which every triangle has its own colour. */
    method RasterSeg(vp: Viewport, sqrt: real -> real, tris: seq<Triangle>, cols: seq<Color>, ghost of: OffersOf)
      requires Valid() && vp.w == w && vp.h == h && |tris| == |cols| && IsBruteForce(of, vp, sqrt)
      modifies color, invz
      ensures forall i, j | 0 <= i < w && 0 <= j < h ::
                PixelAt(i, j) == Paint(old(PixelAt(i, j)), At(Offers(of, tris, FlatShades(cols)), i, j))
    {
      var start := 0;
      while start < |tris|
        invariant 0 <= start <= |tris|
        invariant forall i, j | 0 <= i < w && 0 <= j < h ::
                    PixelAt(i, j) == Paint(old(PixelAt(i, j)),
                                           At(Offers(of, tris[..start], FlatShades(cols[..start])), i, j))
      {
        var end := start;
        while end < |tris| && cols[end] == cols[start]
          invariant start <= end <= |tris|
          invariant forall k | start <= k < end :: cols[k] == cols[start]
        {
          end := end + 1;
        }
        Raster(vp, sqrt, tris[start..end], FlatShader(cols[start]), of);
        ghost var front := Offers(of, tris[..start], FlatShades(cols[..start]));
        ghost var group := Offers(of, tris[start..end], Uniform(FlatShader(cols[start]), end - start));
        GroupedOffers(of, tris, cols, start, end);
        forall i, j | 0 <= i < w && 0 <= j < h
          ensures PixelAt(i, j) == Paint(old(PixelAt(i, j)), At(front + group, i, j))
        {
          PaintBoth(old(PixelAt(i, j)), front, group, i, j);
        }
        start := end;
      }
      assert tris[..|tris|] == tris && cols[..|cols|] == cols;
    }
  }

  function Uniform(shade: Shader, n: nat): seq<Shader> { seq(n, _ => shade) }

  function FlatShader(c: Color): Shader { _ => c }

  function FlatShades(cols: seq<Color>): seq<Shader> {
    seq(|cols|, k requires 0 <= k < |cols| => FlatShader(cols[k]))
  }

  lemma PaintStep(p: Pixel, offers: seq<Offer>, o: Offer, i: int, j: int)
    ensures Paint(p, At(offers + [o], i, j)) == Draw(Paint(p, At(offers, i, j)), o(i, j))
  {
    var fs := At(offers + [o], i, j);
    assert fs[..|offers|] == At(offers, i, j);
  }

  lemma PaintBoth(p: Pixel, front: seq<Offer>, back: seq<Offer>, i: int, j: int)
    ensures Paint(p, At(front + back, i, j)) == Paint(Paint(p, At(front, i, j)), At(back, i, j))
  {
    assert At(front + back, i, j) == At(front, i, j) + At(back, i, j);
    PaintAppend(p, At(front, i, j), At(back, i, j));
  }

  lemma OffersOnlyInTile(vp: Viewport, sqrt: real -> real, shade: Shader, o: Triangle)
    requires Visible(o)
    ensures forall i, j | 0 <= i < vp.w && 0 <= j < vp.h && OfferOf(vp, sqrt, shade, o)(i, j).Some? ::
              InTile(ScreenOf(vp, o), vp.w, vp.h, i, j) && !Degenerate(ScreenOf(vp, o))
  {
    forall i, j | 0 <= i < vp.w && 0 <= j < vp.h && OfferOf(vp, sqrt, shade, o)(i, j).Some?
      ensures InTile(ScreenOf(vp, o), vp.w, vp.h, i, j) && !Degenerate(ScreenOf(vp, o))
    {
      CoveredInTile(ScreenOf(vp, o), vp.w, vp.h, i, j);
    }
  }

  lemma {:induction false} OffersAppend(of: OffersOf, a: seq<Triangle>, f: seq<Shader>, b: seq<Triangle>,
                                        g: seq<Shader>)
    requires |a| == |f| && |b| == |g|
    ensures Offers(of, a + b, f + g) == Offers(of, a, f) + Offers(of, b, g)
  {
    if |b| == 0 {
      assert a + b == a && f + g == f;
    } else {
      var n := |b| - 1;
      assert (a + b)[..|a + b| - 1] == a + b[..n] && (f + g)[..|f + g| - 1] == f + g[..n];
      OffersAppend(of, a, f, b[..n], g[..n]);
    }
  }

  /** Drawing a run of one colour with one flat shader offers what its triangles would each offer. */
  lemma GroupedOffers(of: OffersOf, tris: seq<Triangle>, cols: seq<Color>, start: nat, end: nat)
    requires |tris| == |cols| && start < end <= |tris| && forall k | start <= k < end :: cols[k] == cols[start]
    ensures Offers(of, tris[..end], FlatShades(cols[..end])) ==
            Offers(of, tris[..start], FlatShades(cols[..start])) +
            Offers(of, tris[start..end], Uniform(FlatShader(cols[start]), end - start))
  {
    assert tris[..end] == tris[..start] + tris[start..end];
    assert FlatShades(cols[..end]) == FlatShades(cols[..start]) + Uniform(FlatShader(cols[start]), end - start);
    OffersAppend(of, tris[..start], FlatShades(cols[..start]), tris[start..end],
                 Uniform(FlatShader(cols[start]), end - start));
  }
}
