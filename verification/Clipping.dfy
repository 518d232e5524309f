/**
 `clip_near` of `render.py`: cut a view-space triangle at the near plane, keeping exactly the
 part that lies beyond it.
 */
module Clipping {
  import opened Vectors
  import Cameras

  const NEAR := Cameras.NEAR

  /** A corner of a triangle: view-space position and normal, always cut with the same weights. */
  datatype Vertex = Vertex(pos: Vec3, nrm: Vec3)

  datatype Triangle = Triangle(a: Vertex, b: Vertex, c: Vertex) {
    function At(i: int): Vertex
      requires 0 <= i < 3
    {
      if i == 0 then a else if i == 1 then b else c
    }
  }

  predicate Beyond(v: Vertex) { v.pos.z <= -NEAR }

  /** How far beyond the near plane. */
  function Height(v: Vertex): real { -NEAR - v.pos.z }

  function Lerp1(p: real, q: real, t: real): real { p + (q - p) * t }

  function Lerp(p: Vec3, q: Vec3, t: real): Vec3 { Vec3(Lerp1(p.x, q.x, t), Lerp1(p.y, q.y, t), Lerp1(p.z, q.z, t)) }

  /** Where the edge from `u` to `v` meets the near plane. */
  function Cut(u: Vertex, v: Vertex): Vertex
    requires Beyond(u) != Beyond(v)
  {
    var t := (-NEAR - u.pos.z) / (v.pos.z - u.pos.z);
    Vertex(Lerp(u.pos, v.pos, t), Lerp(u.nrm, v.nrm, t))
  }

  /** What edge `i` contributes to the clipped polygon. */
  function EdgePart(t: Triangle, i: int): seq<Vertex>
    requires 0 <= i < 3
  {
    var u, v := t.At(i), t.At((i + 1) % 3);
    (if Beyond(u) then [u] else []) + (if Beyond(u) != Beyond(v) then [Cut(u, v)] else [])
  }

  function Polygon(t: Triangle): seq<Vertex> { EdgePart(t, 0) + EdgePart(t, 1) + EdgePart(t, 2) }

  /** The first `n` triangles of the fan around the first corner of a polygon. */
  function Fan(p: seq<Vertex>, n: nat): (ts: seq<Triangle>)
    requires n == 0 || n + 2 <= |p|
    ensures |ts| == n
  {
    if n == 0 then [] else Fan(p, n - 1) + [Triangle(p[0], p[n], p[n + 1])]
  }

  function Clip(t: Triangle): seq<Triangle> {
    var p := Polygon(t);
    Fan(p, if |p| < 3 then 0 else |p| - 2)
  }

  method CountBeyond(t: Triangle) returns (n: nat)
    ensures n == (if Beyond(t.a) then 1 else 0) + (if Beyond(t.b) then 1 else 0) + (if Beyond(t.c) then 1 else 0)
  {
    n := 0;
    for i := 0 to 3
      invariant n == (if i > 0 && Beyond(t.a) then 1 else 0) + (if i > 1 && Beyond(t.b) then 1 else 0)
                     + (if i > 2 && Beyond(t.c) then 1 else 0)
    {
      if Beyond(t.At(i)) { n := n + 1; }
    }
  }

  method BuildPolygon(t: Triangle) returns (poly: seq<Vertex>)
    ensures poly == Polygon(t)
  {
    poly := [];
    for i := 0 to 3
      invariant i == 0 ==> poly == []
      invariant i == 1 ==> poly == EdgePart(t, 0)
      invariant i == 2 ==> poly == EdgePart(t, 0) + EdgePart(t, 1)
      invariant i == 3 ==> poly == Polygon(t)
    {
      var u, v := t.At(i), t.At((i + 1) % 3);
      ghost var before := poly;
      if Beyond(u) { poly := poly + [u]; }
      if Beyond(u) != Beyond(v) { poly := poly + [Cut(u, v)]; }
      assert poly == before + EdgePart(t, i);
    }
  }

  /** `clip_near`, with its two shortcuts. */
  method ClipNear(t: Triangle) returns (out: seq<Triangle>)
    ensures out == Clip(t)
  {
    var inside := CountBeyond(t);
    if inside == 3 {
      assert Polygon(t) == [t.a, t.b, t.c];
      assert Fan(Polygon(t), 1) == [t];
      return [t];
    }
    if inside == 0 {
      assert Polygon(t) == [];
      return [];
    }
    var poly := BuildPolygon(t);
    out := [];
    var n := if |poly| < 3 then 0 else |poly| - 2;
    for k := 0 to n
      invariant out == Fan(poly, k)
    {
      out := out + [Triangle(poly[0], poly[k + 1], poly[k + 2])];
    }
  }

  // ---- weights

  /** Weights of a point in a triangle: non-negative, adding up to one. */
  predicate Bary(x: real, y: real, z: real) { x >= 0.0 && y >= 0.0 && z >= 0.0 && x + y + z == 1.0 }

  function Mix(p: Vec3, q: Vec3, r: Vec3, x: real, y: real, z: real): Vec3 {
    Vec3(Mix1(p.x, q.x, r.x, x, y, z), Mix1(p.y, q.y, r.y, x, y, z), Mix1(p.z, q.z, r.z, x, y, z))
  }

  function Mix1(p: real, q: real, r: real, x: real, y: real, z: real): real { p * x + q * y + r * z }

  function Point(t: Triangle, x: real, y: real, z: real): Vec3 { Mix(t.a.pos, t.b.pos, t.c.pos, x, y, z) }

  ghost predicate InTriangle(p: Vec3, t: Triangle) {
    exists x, y, z :: Bary(x, y, z) && p == Point(t, x, y, z)
  }

  /** `n` is the normal that the triangle has at `p`: both are mixed with the same weights. */
  ghost predicate OnSurface(p: Vec3, n: Vec3, t: Triangle) {
    exists x, y, z :: Bary(x, y, z) && p == Point(t, x, y, z) && n == NormalMix(t, x, y, z)
  }

  function NormalMix(t: Triangle, x: real, y: real, z: real): Vec3 { Mix(t.a.nrm, t.b.nrm, t.c.nrm, x, y, z) }

  /** The share of the outside end in a cut. */
  function OutShare(i: Vertex, o: Vertex): (mu: real)
    requires Beyond(i) && !Beyond(o)
    ensures 0.0 <= mu < 1.0 && mu * (Height(i) - Height(o)) == Height(i)
  {
    var h, g := Height(i), Height(o);
    var mu := h / (h - g);
    assert mu * (h - g) == h;
    ShareBounds(mu, h, g);
    mu
  }

  lemma ShareBounds(mu: real, h: real, g: real)
    requires h >= 0.0 > g && mu * (h - g) == h
    ensures 0.0 <= mu < 1.0
  {
    if mu < 0.0 { MulPositive(-mu, h - g); }
    if mu >= 1.0 { MulNonNegative(mu - 1.0, h - g); }
  }

  /** Whichever way the edge is walked, the cut is the same mixture of its two ends. */
  lemma CutIsMixture(i: Vertex, o: Vertex)
    requires Beyond(i) && !Beyond(o)
    ensures Cut(i, o).pos == Lerp(i.pos, o.pos, OutShare(i, o))
    ensures Cut(o, i).pos == Lerp(i.pos, o.pos, OutShare(i, o))
    ensures Cut(i, o).nrm == Lerp(i.nrm, o.nrm, OutShare(i, o))
    ensures Cut(o, i).nrm == Lerp(i.nrm, o.nrm, OutShare(i, o))
  {
    var mu := OutShare(i, o);
    var h, g := Height(i), Height(o);
    var t := (-NEAR - o.pos.z) / (i.pos.z - o.pos.z);
    assert t * (g - h) == g by { assert t == g / (g - h); }
    Complement(mu, t, h, g);
    LerpReverse(o.pos, i.pos, t, mu);
    LerpReverse(o.nrm, i.nrm, t, mu);
  }

  lemma Complement(mu: real, t: real, h: real, g: real)
    requires h - g > 0.0 && mu * (h - g) == h && t * (g - h) == g
    ensures t == 1.0 - mu
  {
    assert (t + mu - 1.0) * (h - g) == 0.0;
    if t + mu > 1.0 { MulPositive(t + mu - 1.0, h - g); }
    if t + mu < 1.0 { MulPositive(1.0 - t - mu, h - g); }
  }

  lemma LerpReverse(o: Vec3, i: Vec3, t: real, mu: real)
    requires t == 1.0 - mu
    ensures Lerp(o, i, t) == Lerp(i, o, mu)
  {
  }

  /** A cut lies exactly on the near plane. */
  lemma CutOnPlane(i: Vertex, o: Vertex)
    requires Beyond(i) && !Beyond(o)
    ensures Cut(i, o).pos.z == -NEAR && Cut(o, i).pos.z == -NEAR
  {
    CutIsMixture(i, o);
    var mu := OutShare(i, o);
    assert i.pos.z + (o.pos.z - i.pos.z) * mu == -NEAR;
  }

  // ---- soundness: everything kept is beyond the plane and inside the triangle

  lemma MixOfMixes(a: Vec3, b: Vec3, c: Vec3, x1: real, y1: real, z1: real, x2: real, y2: real, z2: real,
                   x3: real, y3: real, z3: real, x: real, y: real, z: real)
    ensures Mix(Mix(a, b, c, x1, y1, z1), Mix(a, b, c, x2, y2, z2), Mix(a, b, c, x3, y3, z3), x, y, z)
            == Mix(a, b, c, x * x1 + y * x2 + z * x3, x * y1 + y * y2 + z * y3, x * z1 + y * z2 + z * z3)
  {
  }

  lemma BaryOfBarys(x1: real, y1: real, z1: real, x2: real, y2: real, z2: real,
                    x3: real, y3: real, z3: real, x: real, y: real, z: real)
    requires Bary(x1, y1, z1) && Bary(x2, y2, z2) && Bary(x3, y3, z3) && Bary(x, y, z)
    ensures Bary(x * x1 + y * x2 + z * x3, x * y1 + y * y2 + z * y3, x * z1 + y * z2 + z * z3)
  {
    Weighted(x1, x2, x3, x, y, z);
    Weighted(y1, y2, y3, x, y, z);
    Weighted(z1, z2, z3, x, y, z);
    assert x * x1 + x * y1 + x * z1 == x * (x1 + y1 + z1);
    assert y * x2 + y * y2 + y * z2 == y * (x2 + y2 + z2);
    assert z * x3 + z * y3 + z * z3 == z * (x3 + y3 + z3);
  }

  lemma Weighted(u: real, v: real, w: real, x: real, y: real, z: real)
    requires u >= 0.0 && v >= 0.0 && w >= 0.0 && x >= 0.0 && y >= 0.0 && z >= 0.0
    ensures x * u + y * v + z * w >= 0.0
  {
    MulNonNegative(x, u);
    MulNonNegative(y, v);
    MulNonNegative(z, w);
  }

  lemma MixBetween(a: real, b: real, c: real, x: real, y: real, z: real, lo: real, hi: real)
    requires Bary(x, y, z) && lo <= a <= hi && lo <= b <= hi && lo <= c <= hi
    ensures lo <= Mix1(a, b, c, x, y, z) <= hi
  {
    Weighted(a - lo, b - lo, c - lo, x, y, z);
    Weighted(hi - a, hi - b, hi - c, x, y, z);
    assert lo * (x + y + z) == lo && hi * (x + y + z) == hi;
  }

  /** A triangle whose corners lie on another lies on it, with the same normals. */
  lemma SurfaceConvex(t: Triangle, o: Triangle, x: real, y: real, z: real)
    requires Bary(x, y, z)
    requires OnSurface(o.a.pos, o.a.nrm, t) && OnSurface(o.b.pos, o.b.nrm, t) && OnSurface(o.c.pos, o.c.nrm, t)
    ensures OnSurface(Point(o, x, y, z), NormalMix(o, x, y, z), t)
  {
    var x1, y1, z1 :| Bary(x1, y1, z1) && o.a.pos == Point(t, x1, y1, z1) && o.a.nrm == NormalMix(t, x1, y1, z1);
    var x2, y2, z2 :| Bary(x2, y2, z2) && o.b.pos == Point(t, x2, y2, z2) && o.b.nrm == NormalMix(t, x2, y2, z2);
    var x3, y3, z3 :| Bary(x3, y3, z3) && o.c.pos == Point(t, x3, y3, z3) && o.c.nrm == NormalMix(t, x3, y3, z3);
    MixOfMixes(t.a.pos, t.b.pos, t.c.pos, x1, y1, z1, x2, y2, z2, x3, y3, z3, x, y, z);
    MixOfMixes(t.a.nrm, t.b.nrm, t.c.nrm, x1, y1, z1, x2, y2, z2, x3, y3, z3, x, y, z);
    BaryOfBarys(x1, y1, z1, x2, y2, z2, x3, y3, z3, x, y, z);
  }

  /** The corners and edges of a triangle as mixtures of its corners. */
  lemma LerpIsMix(a: Vec3, b: Vec3, c: Vec3, m: real)
    ensures Lerp(a, b, m) == Mix(a, b, c, 1.0 - m, m, 0.0)
    ensures Lerp(a, b, m) == Mix(c, a, b, 0.0, 1.0 - m, m)
    ensures Lerp(a, b, m) == Mix(b, c, a, m, 0.0, 1.0 - m)
  {
  }

  lemma MixSwap(a: Vec3, b: Vec3, c: Vec3, x: real, y: real, z: real)
    ensures Mix(a, b, c, x, y, z) == Mix(b, a, c, y, x, z) == Mix(a, c, b, x, z, y)
            == Mix(c, b, a, z, y, x) == Mix(b, c, a, y, z, x) == Mix(c, a, b, z, x, y)
  {
  }

  lemma EdgeIn(t: Triangle, i: int, m: real)
    requires 0 <= i < 3 && 0.0 <= m <= 1.0
    ensures var u, v := t.At(i), t.At((i + 1) % 3);
            OnSurface(Lerp(u.pos, v.pos, m), Lerp(u.nrm, v.nrm, m), t)
  {
    var n := 1.0 - m;
    LerpIsMix(t.At(i).pos, t.At((i + 1) % 3).pos, t.At((i + 2) % 3).pos, m);
    LerpIsMix(t.At(i).nrm, t.At((i + 1) % 3).nrm, t.At((i + 2) % 3).nrm, m);
    if i == 0 {
      assert Bary(n, m, 0.0);
    } else if i == 1 {
      assert Bary(0.0, n, m);
    } else {
      assert Bary(m, 0.0, n);
    }
  }

  lemma LerpEnds(p: Vec3, q: Vec3, m: real)
    ensures Lerp(p, q, 0.0) == p && Lerp(q, p, 1.0 - m) == Lerp(p, q, m)
  {
  }

  ghost predicate Kept(v: Vertex, t: Triangle) { Beyond(v) && OnSurface(v.pos, v.nrm, t) }

  lemma EdgePartKept(t: Triangle, i: int)
    requires 0 <= i < 3
    ensures forall v | v in EdgePart(t, i) :: Kept(v, t)
  {
    var u, v := t.At(i), t.At((i + 1) % 3);
    LerpEnds(u.pos, v.pos, 0.0);
    LerpEnds(u.nrm, v.nrm, 0.0);
    EdgeIn(t, i, 0.0);
    if Beyond(u) && !Beyond(v) {
      CutIsMixture(u, v);
      CutOnPlane(u, v);
      EdgeIn(t, i, OutShare(u, v));
    } else if Beyond(v) && !Beyond(u) {
      var m := OutShare(v, u);
      CutIsMixture(v, u);
      CutOnPlane(v, u);
      LerpEnds(v.pos, u.pos, m);
      LerpEnds(v.nrm, u.nrm, m);
      EdgeIn(t, i, 1.0 - m);
    }
  }

  lemma {:induction false} FanOf(p: seq<Vertex>, n: nat, k: nat)
    requires (n == 0 || n + 2 <= |p|) && k < n
    ensures Fan(p, n)[k] == Triangle(p[0], p[k + 1], p[k + 2])
  {
    if k < n - 1 {
      FanOf(p, n - 1, k);
    }
  }

  /** Every corner that survives clipping is beyond the near plane, so its reciprocal depth is
      defined and positive; and every point of every surviving triangle is a point of the
      original one, where the normal is the same. */
  lemma ClipSound(t: Triangle, k: nat)
    requires k < |Clip(t)|
    ensures var o := Clip(t)[k]; Beyond(o.a) && Beyond(o.b) && Beyond(o.c)
    ensures forall p, n | OnSurface(p, n, Clip(t)[k]) :: OnSurface(p, n, t)
    ensures forall p | InTriangle(p, Clip(t)[k]) :: InTriangle(p, t)
  {
    var poly := Polygon(t);
    EdgePartKept(t, 0);
    EdgePartKept(t, 1);
    EdgePartKept(t, 2);
    assert forall v | v in poly :: Kept(v, t);
    FanOf(poly, |poly| - 2, k);
    var o := Clip(t)[k];
    assert o.a in poly && o.b in poly && o.c in poly;
    forall x, y, z | Bary(x, y, z) ensures OnSurface(Point(o, x, y, z), NormalMix(o, x, y, z), t) {
      SurfaceConvex(t, o, x, y, z);
    }
  }

  // ---- completeness: nothing beyond the plane is lost

  /** The height of a mixture is the mixture of the heights. */
  lemma MixHeight(t: Triangle, x: real, y: real, z: real)
    requires Bary(x, y, z)
    ensures -NEAR - Point(t, x, y, z).z == x * Height(t.a) + y * Height(t.b) + z * Height(t.c)
  {
    assert NEAR * (x + y + z) == NEAR;
  }

  lemma Quotient(n: real, d: real) returns (q: real)
    requires n >= 0.0 && d > 0.0
    ensures q >= 0.0 && q * d == n
  {
    q := n / d;
    assert q * d == n;
    if q < 0.0 { MulPositive(-q, d); }
  }

  /** The weights of one mixture expressed over two of its corners and a cut. */
  lemma OverCut(a: Vec3, b: Vec3, c: Vec3, m: real, x: real, y: real, z: real, q: real)
    requires q * m == z
    ensures Mix(a, b, Lerp(b, c, m), x, y - q * (1.0 - m), q) == Mix(a, b, c, x, y, z)
  {
  }

  lemma OverTwoCuts1(a: real, b: real, c: real, m: real, n: real, r: real, p: real, q: real)
    ensures Mix1(a, Lerp1(a, b, m), Lerp1(a, c, n), r, p, q)
            == Mix1(a, b, c, r + p * (1.0 - m) + q * (1.0 - n), p * m, q * n)
  {
    assert (b - a) * m * p == b * (p * m) - a * (p * m);
    assert (c - a) * n * q == c * (q * n) - a * (q * n);
  }

  lemma OverTwoCuts(a: Vec3, b: Vec3, c: Vec3, m: real, n: real, r: real, p: real, q: real)
    ensures Mix(a, Lerp(a, b, m), Lerp(a, c, n), r, p, q)
            == Mix(a, b, c, r + p * (1.0 - m) + q * (1.0 - n), p * m, q * n)
  {
    OverTwoCuts1(a.x, b.x, c.x, m, n, r, p, q);
    OverTwoCuts1(a.y, b.y, c.y, m, n, r, p, q);
    OverTwoCuts1(a.z, b.z, c.z, m, n, r, p, q);
  }

  lemma OverFarCuts1(a: real, b: real, c: real, m: real, n: real, x: real, y: real, z: real)
    ensures Mix1(a, Lerp1(b, c, m), Lerp1(a, c, n), x, y, z)
            == Mix1(a, b, c, x + z * (1.0 - n), y * (1.0 - m), y * m + z * n)
  {
    assert (c - b) * m * y == c * (y * m) - b * (y * m);
    assert (c - a) * n * z == c * (z * n) - a * (z * n);
  }

  lemma OverFarCuts(a: Vec3, b: Vec3, c: Vec3, m: real, n: real, x: real, y: real, z: real)
    ensures Mix(a, Lerp(b, c, m), Lerp(a, c, n), x, y, z)
            == Mix(a, b, c, x + z * (1.0 - n), y * (1.0 - m), y * m + z * n)
  {
    OverFarCuts1(a.x, b.x, c.x, m, n, x, y, z);
    OverFarCuts1(a.y, b.y, c.y, m, n, x, y, z);
    OverFarCuts1(a.z, b.z, c.z, m, n, x, y, z);
  }

  predicate Above(ha: real, hb: real, hc: real, a: real, b: real, c: real) { a * ha + b * hb + c * hc >= 0.0 }

  /** One corner on the plane, two in front: only that corner is beyond. */
  lemma OnlyCorner(hb: real, hc: real, a: real, b: real, c: real)
    requires hb < 0.0 && hc < 0.0 && Bary(a, b, c) && Above(0.0, hb, hc, a, b, c)
    ensures b == 0.0 && c == 0.0 && a == 1.0
  {
    MulNonNegative(b, -hb);
    MulNonNegative(c, -hc);
    if b > 0.0 { MulPositive(b, -hb); }
    if c > 0.0 { MulPositive(c, -hc); }
  }

  lemma SharePositive(mu: real, h: real, g: real)
    requires h > 0.0 > g && mu * (h - g) == h && mu >= 0.0
    ensures mu > 0.0
  {
  }

  /** One corner beyond: the weights over that corner and the two cuts. */
  lemma NearCornerWeights(ha: real, hb: real, hc: real, mx: real, my: real, a: real, b: real, c: real)
    returns (x: real, y: real)
    requires ha > 0.0 && hb < 0.0 && hc < 0.0 && mx >= 0.0 && my >= 0.0
    requires mx * (ha - hb) == ha && my * (ha - hc) == ha
    requires Bary(a, b, c) && Above(ha, hb, hc, a, b, c)
    ensures Bary(1.0 - x - y, x, y) && x * mx == b && y * my == c
  {
    SharePositive(mx, ha, hb);
    SharePositive(my, ha, hc);
    x := Quotient(b, mx);
    y := Quotient(c, my);
    assert x * ha == b * (ha - hb) by { assert x * (mx * (ha - hb)) == x * mx * (ha - hb); }
    assert y * ha == c * (ha - hc) by { assert y * (my * (ha - hc)) == y * my * (ha - hc); }
    RestNonNegative(ha, hb, hc, a, b, c, x, y);
  }

  lemma RestNonNegative(ha: real, hb: real, hc: real, a: real, b: real, c: real, x: real, y: real)
    requires ha > 0.0 && Bary(a, b, c) && Above(ha, hb, hc, a, b, c)
    requires x * ha == b * (ha - hb) && y * ha == c * (ha - hc)
    ensures 1.0 - x - y >= 0.0
  {
    var r := 1.0 - x - y;
    assert r * ha == ha - b * (ha - hb) - c * (ha - hc);
    assert a * ha == ha - b * ha - c * ha by { assert a == 1.0 - b - c; }
    assert r * ha == a * ha + b * hb + c * hc;
    if r < 0.0 { MulPositive(-r, ha); }
  }

  /** Weights over one corner and the cuts of its two edges that stand for weights (a, b, c). */
  predicate OneCorner(mx: real, my: real, a: real, b: real, c: real, r: real, x: real, y: real) {
    Bary(r, x, y) && x * mx == b && y * my == c && r + x * (1.0 - mx) + y * (1.0 - my) == a
  }

  lemma OneWeights(ha: real, hb: real, hc: real, mx: real, my: real, a: real, b: real, c: real)
    returns (r: real, x: real, y: real)
    requires ha >= 0.0 && hb < 0.0 && hc < 0.0 && mx >= 0.0 && my >= 0.0
    requires mx * (ha - hb) == ha && my * (ha - hc) == ha
    requires Bary(a, b, c) && Above(ha, hb, hc, a, b, c)
    ensures OneCorner(mx, my, a, b, c, r, x, y)
  {
    if ha == 0.0 {
      OnlyCorner(hb, hc, a, b, c);
      r, x, y := 1.0, 0.0, 0.0;
    } else {
      x, y := NearCornerWeights(ha, hb, hc, mx, my, a, b, c);
      r := 1.0 - x - y;
      CornerWeights(a, b, c, mx, my, r, x, y);
    }
  }

  lemma CoverOne(A: Vertex, B: Vertex, C: Vertex, a: real, b: real, c: real) returns (r: real, x: real, y: real)
    requires Beyond(A) && !Beyond(B) && !Beyond(C)
    requires Bary(a, b, c) && Above(Height(A), Height(B), Height(C), a, b, c)
    ensures Bary(r, x, y)
    ensures Mix(A.pos, Cut(A, B).pos, Cut(A, C).pos, r, x, y) == Mix(A.pos, B.pos, C.pos, a, b, c)
  {
    CutIsMixture(A, B);
    CutIsMixture(A, C);
    var mx, my := OutShare(A, B), OutShare(A, C);
    r, x, y := OneWeights(Height(A), Height(B), Height(C), mx, my, a, b, c);
    OverTwoCuts(A.pos, B.pos, C.pos, mx, my, r, x, y);
  }

  lemma CornerWeights(a: real, b: real, c: real, m: real, n: real, r: real, x: real, y: real)
    requires a + b + c == 1.0 && r + x + y == 1.0 && x * m == b && y * n == c
    ensures r + x * (1.0 - m) + y * (1.0 - n) == a
  {
  }

  /** Weights over the first corner and both cuts, or over both corners and one cut. */
  predicate FarPart(ma: real, mb: real, a: real, b: real, c: real, x: real, y: real, z: real) {
    Bary(x, y, z) && x + z * (1.0 - ma) == a && y * (1.0 - mb) == b && y * mb + z * ma == c
  }

  predicate NearPart(mb: real, a: real, b: real, c: real, x: real, y: real, z: real) {
    Bary(x, y, z) && x == a && z * mb == c && y == b - z * (1.0 - mb)
  }

  /** Two corners beyond, the part away from the second corner: weights over the first corner and
      the two cuts. */
  lemma FarWeights(ha: real, hb: real, hc: real, ma: real, mb: real, a: real, b: real, c: real, y: real)
    returns (x: real, z: real)
    requires ha >= 0.0 && hc < 0.0 && ma >= 0.0 && ma * (ha - hc) == ha && mb * (hb - hc) == hb
    requires Bary(a, b, c) && Above(ha, hb, hc, a, b, c)
    requires y >= 0.0 && y * (1.0 - mb) == b && c - y * mb > 0.0
    ensures FarPart(ma, mb, a, b, c, x, y, z)
  {
    var rest := c - y * mb;
    RestHeight(hb, hc, mb, b, c, y);
    assert a * ha >= rest * -hc;
    MulPositive(rest, -hc);
    SharePositive(ma, ha, hc);
    z := Quotient(rest, ma);
    x := a - z * (1.0 - ma);
    RestShare(ha, hc, ma, rest, z);
    assert x * ha == a * ha - z * (1.0 - ma) * ha;
    if x < 0.0 { MulPositive(-x, ha); }
  }

  lemma RestHeight(hb: real, hc: real, mb: real, b: real, c: real, y: real)
    requires mb * (hb - hc) == hb && y * (1.0 - mb) == b
    ensures (c - y * mb) * -hc == -(b * hb) - c * hc
  {
    assert (1.0 - mb) * (hb - hc) == -hc;
    assert y * mb * -hc == y * mb * ((1.0 - mb) * (hb - hc));
    assert y * mb * ((1.0 - mb) * (hb - hc)) == y * (1.0 - mb) * (mb * (hb - hc));
  }

  lemma RestShare(ha: real, hc: real, ma: real, rest: real, z: real)
    requires ma * (ha - hc) == ha && z * ma == rest
    ensures z * (1.0 - ma) * ha == rest * -hc
  {
    assert (1.0 - ma) * (ha - hc) == -hc;
    assert z * (1.0 - ma) * (ma * (ha - hc)) == z * ma * ((1.0 - ma) * (ha - hc));
  }

  lemma CoverTwo(A: Vertex, B: Vertex, C: Vertex, a: real, b: real, c: real)
    returns (near: bool, x: real, y: real, z: real)
    requires Beyond(A) && Beyond(B) && !Beyond(C)
    requires Bary(a, b, c) && Above(Height(A), Height(B), Height(C), a, b, c)
    ensures Bary(x, y, z)
    ensures Mix(A.pos, B.pos, C.pos, a, b, c) ==
            if near then Mix(A.pos, B.pos, Cut(B, C).pos, x, y, z)
            else Mix(A.pos, Cut(B, C).pos, Cut(A, C).pos, x, y, z)
  {
    CutIsMixture(A, C);
    CutIsMixture(B, C);
    var ma, mb := OutShare(A, C), OutShare(B, C);
    near, x, y, z := TwoWeights(Height(A), Height(B), Height(C), ma, mb, a, b, c);
    if near {
      OverCut(A.pos, B.pos, C.pos, mb, a, b, c, z);
    } else {
      OverFarCuts(A.pos, B.pos, C.pos, mb, ma, x, y, z);
    }
  }

  lemma TwoWeights(ha: real, hb: real, hc: real, ma: real, mb: real, a: real, b: real, c: real)
    returns (near: bool, x: real, y: real, z: real)
    requires ha >= 0.0 && hb >= 0.0 && hc < 0.0 && ma >= 0.0 && 0.0 <= mb < 1.0
    requires ma * (ha - hc) == ha && mb * (hb - hc) == hb
    requires Bary(a, b, c) && Above(ha, hb, hc, a, b, c)
    ensures if near then NearPart(mb, a, b, c, x, y, z) else FarPart(ma, mb, a, b, c, x, y, z)
  {
    if c == 0.0 {
      near, x, y, z := true, a, b, 0.0;
    } else if mb == 0.0 {
      near, y := false, b;
      x, z := FarWeights(ha, hb, hc, ma, mb, a, b, c, y);
    } else {
      var q := Quotient(c, mb);
      if b - q * (1.0 - mb) >= 0.0 {
        near, x, y, z := true, a, b - q * (1.0 - mb), q;
        assert NearPart(mb, a, b, c, x, y, z);
      } else {
        near := false;
        y := FarShare(q, mb, b, c);
        x, z := FarWeights(ha, hb, hc, ma, mb, a, b, c, y);
      }
    }
  }

  lemma FarShare(q: real, mb: real, b: real, c: real) returns (y: real)
    requires 0.0 < mb < 1.0 && q * mb == c && 0.0 <= b < q * (1.0 - mb)
    ensures y >= 0.0 && y * (1.0 - mb) == b && c - y * mb > 0.0
  {
    y := Quotient(b, 1.0 - mb);
    if q <= y {
      MulNonNegative(y - q, 1.0 - mb);
    } else {
      MulPositive(q - y, mb);
    }
  }

  lemma FanTwo(p: seq<Vertex>)
    requires |p| == 4
    ensures Fan(p, 2) == [Triangle(p[0], p[1], p[2]), Triangle(p[0], p[2], p[3])]
  {
    assert Fan(p, 1) == [Triangle(p[0], p[1], p[2])];
  }

  lemma FanOne(p: seq<Vertex>)
    requires |p| == 3
    ensures Fan(p, 1) == [Triangle(p[0], p[1], p[2])]
  {
    assert Fan(p, 0) == [];
  }

  function ClipCases(t: Triangle, a: Vertex, b: Vertex, c: Vertex): seq<Triangle> {
    if Beyond(a) && Beyond(b) && Beyond(c) then [t]
    else if Beyond(a) && Beyond(b) then [Triangle(a, b, Cut(b, c)), Triangle(a, Cut(b, c), Cut(c, a))]
    else if Beyond(b) && Beyond(c) then [Triangle(Cut(a, b), b, c), Triangle(Cut(a, b), c, Cut(c, a))]
    else if Beyond(a) && Beyond(c) then [Triangle(a, Cut(a, b), Cut(b, c)), Triangle(a, Cut(b, c), c)]
    else if Beyond(a) then [Triangle(a, Cut(a, b), Cut(c, a))]
    else if Beyond(b) then [Triangle(Cut(a, b), b, Cut(b, c))]
    else if Beyond(c) then [Triangle(Cut(b, c), c, Cut(c, a))]
    else []
  }

  /** The clipped triangles, by which corners are beyond the plane. */
  lemma ClipShape(t: Triangle)
    ensures Clip(t) == ClipCases(t, t.a, t.b, t.c)
  {
    var p := Polygon(t);
    if |p| == 3 {
      FanOne(p);
    } else if |p| == 4 {
      FanTwo(p);
    }
  }

  /** Membership does not depend on the order of the corners. */
  lemma InTriangleBy(p: Vec3, t: Triangle, a: Vec3, b: Vec3, c: Vec3, x: real, y: real, z: real)
    requires Bary(x, y, z) && p == Mix(a, b, c, x, y, z)
    requires || (t.a.pos, t.b.pos, t.c.pos) == (a, b, c) || (t.a.pos, t.b.pos, t.c.pos) == (b, a, c)
             || (t.a.pos, t.b.pos, t.c.pos) == (a, c, b) || (t.a.pos, t.b.pos, t.c.pos) == (c, b, a)
             || (t.a.pos, t.b.pos, t.c.pos) == (c, a, b)
    ensures InTriangle(p, t)
  {
    MixSwap(a, b, c, x, y, z);
    assert Bary(y, x, z) && Bary(x, z, y) && Bary(z, y, x) && Bary(z, x, y);
    assert p == Point(t, x, y, z) || p == Point(t, y, x, z) || p == Point(t, x, z, y) || p == Point(t, z, y, x)
           || p == Point(t, z, x, y);
  }

  /** Nothing beyond the near plane is lost: every such point of the triangle lies in one of the
      clipped triangles. */
  lemma ClipComplete(t: Triangle, p: Vec3) returns (k: nat)
    requires InTriangle(p, t) && p.z <= -NEAR
    ensures k < |Clip(t)| && InTriangle(p, Clip(t)[k])
  {
    var x, y, z :| Bary(x, y, z) && p == Point(t, x, y, z);
    MixHeight(t, x, y, z);
    ClipShape(t);
    k := 0;
    if Beyond(t.a) && Beyond(t.b) && Beyond(t.c) {
    } else if !Beyond(t.a) && !Beyond(t.b) && !Beyond(t.c) {
      AllInFront(t, x, y, z);
    } else if (Beyond(t.a) && Beyond(t.b)) || (Beyond(t.b) && Beyond(t.c)) || (Beyond(t.a) && Beyond(t.c)) {
      k := CompleteTwo(t, x, y, z);
    } else {
      CompleteOne(t, x, y, z);
    }
  }

  lemma AllInFront(t: Triangle, x: real, y: real, z: real)
    requires Bary(x, y, z) && !Beyond(t.a) && !Beyond(t.b) && !Beyond(t.c)
    ensures !Above(Height(t.a), Height(t.b), Height(t.c), x, y, z)
  {
    MulNonNegative(x, -Height(t.a));
    MulNonNegative(y, -Height(t.b));
    MulNonNegative(z, -Height(t.c));
    if x > 0.0 {
      MulPositive(x, -Height(t.a));
    } else if y > 0.0 {
      MulPositive(y, -Height(t.b));
    } else {
      MulPositive(z, -Height(t.c));
    }
  }

  lemma CompleteOne(t: Triangle, x: real, y: real, z: real)
    requires Bary(x, y, z) && Above(Height(t.a), Height(t.b), Height(t.c), x, y, z)
    requires (Beyond(t.a) && !Beyond(t.b) && !Beyond(t.c)) || (Beyond(t.b) && !Beyond(t.c) && !Beyond(t.a))
             || (Beyond(t.c) && !Beyond(t.a) && !Beyond(t.b))
    ensures |Clip(t)| > 0 && InTriangle(Point(t, x, y, z), Clip(t)[0])
  {
    var p := Point(t, x, y, z);
    ClipShape(t);
    MixSwap(t.a.pos, t.b.pos, t.c.pos, x, y, z);
    if Beyond(t.a) {
      OneCornerKept(p, t.a, t.b, t.c, x, y, z, Clip(t)[0]);
    } else if Beyond(t.b) {
      OneCornerKept(p, t.b, t.c, t.a, y, z, x, Clip(t)[0]);
    } else {
      OneCornerKept(p, t.c, t.a, t.b, z, x, y, Clip(t)[0]);
    }
  }

  lemma CutsAgree(u: Vertex, v: Vertex)
    requires Beyond(u) != Beyond(v)
    ensures Cut(u, v).pos == Cut(v, u).pos
  {
    if Beyond(u) { CutIsMixture(u, v); } else { CutIsMixture(v, u); }
  }

  lemma OneCornerKept(p: Vec3, A: Vertex, B: Vertex, C: Vertex, a: real, b: real, c: real, o: Triangle)
    requires Beyond(A) && !Beyond(B) && !Beyond(C) && p == Mix(A.pos, B.pos, C.pos, a, b, c)
    requires Bary(a, b, c) && Above(Height(A), Height(B), Height(C), a, b, c)
    requires o == Triangle(A, Cut(A, B), Cut(C, A)) || o == Triangle(Cut(C, A), A, Cut(A, B))
    ensures InTriangle(p, o)
  {
    CutsAgree(A, B);
    CutsAgree(A, C);
    var r, x, y := CoverOne(A, B, C, a, b, c);
    InTriangleBy(p, o, A.pos, Cut(A, B).pos, Cut(A, C).pos, r, x, y);
  }

  lemma CompleteTwo(t: Triangle, x: real, y: real, z: real) returns (k: nat)
    requires Bary(x, y, z) && Above(Height(t.a), Height(t.b), Height(t.c), x, y, z)
    requires (Beyond(t.a) && Beyond(t.b) && !Beyond(t.c)) || (Beyond(t.b) && Beyond(t.c) && !Beyond(t.a))
             || (Beyond(t.c) && Beyond(t.a) && !Beyond(t.b))
    ensures k < |Clip(t)| && InTriangle(Point(t, x, y, z), Clip(t)[k])
  {
    var p := Point(t, x, y, z);
    ClipShape(t);
    MixSwap(t.a.pos, t.b.pos, t.c.pos, x, y, z);
    var near: bool;
    if !Beyond(t.c) {
      near := TwoCornersKept(p, t.a, t.b, t.c, x, y, z, Clip(t)[0], Clip(t)[1]);
    } else if !Beyond(t.a) {
      near := TwoCornersKept(p, t.c, t.b, t.a, z, y, x, Clip(t)[0], Clip(t)[1]);
    } else {
      near := TwoCornersKept(p, t.a, t.c, t.b, x, z, y, Clip(t)[1], Clip(t)[0]);
      near := !near;
    }
    k := if near then 0 else 1;
  }

  lemma TwoCornersKept(p: Vec3, A: Vertex, B: Vertex, C: Vertex, a: real, b: real, c: real, o: Triangle, q: Triangle)
    returns (near: bool)
    requires Beyond(A) && Beyond(B) && !Beyond(C) && p == Mix(A.pos, B.pos, C.pos, a, b, c)
    requires Bary(a, b, c) && Above(Height(A), Height(B), Height(C), a, b, c)
    requires o == Triangle(A, B, Cut(B, C)) || o == Triangle(Cut(C, B), B, A) || o == Triangle(A, Cut(C, B), B)
    requires q == Triangle(A, Cut(B, C), Cut(C, A)) || q == Triangle(Cut(C, B), A, Cut(A, C))
             || q == Triangle(A, Cut(A, C), Cut(C, B))
    ensures InTriangle(p, if near then o else q)
  {
    CutsAgree(B, C);
    CutsAgree(A, C);
    var x, y, z;
    near, x, y, z := CoverTwo(A, B, C, a, b, c);
    if near {
      InTriangleBy(p, o, A.pos, B.pos, Cut(B, C).pos, x, y, z);
    } else {
      InTriangleBy(p, q, A.pos, Cut(B, C).pos, Cut(A, C).pos, x, y, z);
    }
  }
}
