/**
 The stair profile of `mesh_stairs`, and why its caps may be fanned from the last profile point: the
 profile is star-shaped around it.
 */
module Staircases {
  import opened Vectors
  import opened Clipping
  import opened Patches

  type Spot = (real, real)

  /** The heights of the steps, and where they begin: from 0 up to 1 in `n` steps. */
  type Levels = int -> real

  ghost predicate LevelLaw(n: nat, level: Levels) {
    n > 0 && level(0) == 0.0 && level(n) == 1.0 && forall a, b | a < b :: level(a) < level(b)
  }

  /** Steps of equal height. */
  function EvenLevels(n: nat): Levels
    requires n > 0
  {
    m => m as real / n as real
  }

  lemma EvenLevelLaw(n: nat)
    requires n > 0
    ensures LevelLaw(n, EvenLevels(n))
  {
    forall a, b | a < b ensures EvenLevels(n)(a) < EvenLevels(n)(b) {
      QuotientsOrdered(a as real, b as real, n as real);
    }
  }

  lemma QuotientsOrdered(a: real, b: real, d: real)
    requires a < b && d > 0.0
    ensures a / d < b / d
  {
    var u, v := a / d, b / d;
    assert u * d == a && v * d == b;
    if u >= v { MulNonNegative(u - v, d); }
  }

  /** Corner `i` of the profile: up and along, step by step, and back down at the far end. */
  function StairCorner(n: nat, level: Levels, i: nat): Spot {
    if i == 2 * n + 1 then (1.0, 0.0) else (level(i / 2), level(if i % 2 == 0 then i / 2 else i / 2 + 1))
  }

  /** The solid below the steps. */
  ghost predicate UnderStairs(n: nat, level: Levels, x: real, y: real) {
    0.0 <= x <= 1.0 && 0.0 <= y && exists m | 0 <= m < n :: level(m) <= x && y <= level(m + 1)
  }

  lemma LevelEnds(n: nat, level: Levels, a: int)
    requires LevelLaw(n, level) && 0 <= a <= n
    ensures 0.0 <= level(a) <= 1.0
  {
    assert a == 0 || level(0) < level(a);
    assert a == n || level(a) < level(n);
  }

  /** The profile of `mesh_stairs`, corner by corner. */
  method StairProfile(steps: nat) returns (pts: seq<Spot>)
    requires steps > 0
    ensures |pts| == 2 * steps + 2
    ensures forall i: nat | i < |pts| :: pts[i] == StairCorner(steps, EvenLevels(steps), i)
  {
    ghost var level := EvenLevels(steps);
    pts := [(0.0, 0.0)];
    var n := steps as real;
    for i := 0 to steps
      invariant |pts| == 2 * i + 1 && forall k: nat | k < |pts| :: pts[k] == StairCorner(steps, level, k)
    {
      var a, b := i as real / n, (i + 1) as real / n;
      pts := pts + [(a, b), (b, b)];
    }
    pts := pts + [(1.0, 0.0)];
  }

  // ---- the fan around the far end of the floor

  /** On which side of the ray from (1, 0) through a corner a point lies; both are given by how far
      they are from the far end and how high. */
  function Turned(run: real, rise: real, n: real, y: real): real { rise * n - run * y }

  function Side(q: Spot, x: real, y: real): real { Turned(1.0 - q.0, q.1, 1.0 - x, y) }

  /** The rays through the corners turn one way, so that some profile edge is met. */
  lemma EdgeMet(n: nat, level: Levels, x: real, y: real) returns (i: nat)
    requires LevelLaw(n, level) && 0.0 <= x <= 1.0 && 0.0 <= y
    ensures i < 2 * n && Side(StairCorner(n, level, i), x, y) <= 0.0 <= Side(StairCorner(n, level, i + 1), x, y)
  {
    LevelEnds(n, level, 0);
    i := 0;
    assert Side(StairCorner(n, level, 0), x, y) <= 0.0 && Side(StairCorner(n, level, 2 * n), x, y) >= 0.0;
    while Side(StairCorner(n, level, i + 1), x, y) < 0.0
      invariant i < 2 * n && Side(StairCorner(n, level, i), x, y) <= 0.0
      decreases 2 * n - i
    {
      assert i + 1 < 2 * n;
      i := i + 1;
    }
  }

  /** `u` and `v` share out a point between two corners and the far end. */
  predicate Weights(c: real, a: real, d: real, b: real, n: real, y: real, u: real, v: real) {
    u >= 0.0 && v >= 0.0 && u + v <= 1.0 && n == u * c + v * d && y == u * a + v * b
  }

  /** The triangle over a riser: both corners are `c` away, at heights `a` and `b`. */
  lemma RiserWeights(c: real, a: real, b: real, n: real, y: real) returns (u: real, v: real)
    requires a < b && c > 0.0 && 0.0 <= n <= c && Turned(c, a, n, y) <= 0.0 <= Turned(c, b, n, y)
    ensures Weights(c, a, c, b, n, y, u, v)
  {
    var s := Fraction(n, c);
    Shrunk(a, y, s, n, c);
    Grown(b, y, s, n, c);
    u, v := Spread(a, b, s, y);
    SumTimes2(u, v, s, c);
  }

  /** The triangle over a tread: both corners are `b` high, at distances `c` and `d`. */
  lemma TreadWeights(c: real, d: real, b: real, n: real, y: real) returns (u: real, v: real)
    requires d < c && b > 0.0 && 0.0 <= y <= b && Turned(c, b, n, y) <= 0.0 <= Turned(d, b, n, y)
    ensures Weights(c, b, d, b, n, y, u, v)
  {
    var s := Fraction(y, b);
    Shrunk(d, n, s, y, b);
    Grown(c, n, s, y, b);
    v, u := Spread(d, c, s, n);
    SumTimes2(u, v, s, b);
  }

  lemma SumTimes2(u: real, v: real, s: real, d: real)
    requires u + v == s
    ensures u * d + v * d == s * d
  {
  }

  lemma Shrunk(a: real, y: real, s: real, n: real, d: real)
    requires d > 0.0 && s * d == n && a * n <= d * y
    ensures a * s <= y
  {
    assert (y - a * s) * d == d * y - a * n;
    if y < a * s { MulPositive(a * s - y, d); }
  }

  lemma Grown(b: real, y: real, s: real, n: real, d: real)
    requires d > 0.0 && s * d == n && d * y <= b * n
    ensures y <= b * s
  {
    assert (b * s - y) * d == b * n - d * y;
    if y > b * s { MulPositive(y - b * s, d); }
  }

  /** Share out `s` between two ends so that they average to `y`. */
  lemma Spread(a: real, b: real, s: real, y: real) returns (u: real, v: real)
    requires a < b && 0.0 <= s <= 1.0 && a * s <= y <= b * s
    ensures u >= 0.0 && v >= 0.0 && u + v == s && u * a + v * b == y
  {
    v := Quotient(y - a * s, b - a);
    u := s - v;
    assert u * (b - a) == b * s - y;
    if u < 0.0 { MulPositive(-u, b - a); }
    assert u * a + v * b == a * s + v * (b - a);
  }

  /** Under the stairs a ray that meets a riser has not passed it yet ... */
  lemma BeforeRiser(n: nat, level: Levels, j: int, x: real, y: real)
    requires LevelLaw(n, level) && 0 <= j < n && UnderStairs(n, level, x, y) && Side((level(j), level(j)), x, y) <= 0.0
    ensures level(j) <= x
  {
    LevelEnds(n, level, j);
    if x < level(j) {
      StepBehind(n, level, j, x, y);
      Outside(level(j), 1.0 - level(j), 1.0 - x, y);
    }
  }

  /** What is behind a step is no higher. */
  lemma StepBehind(n: nat, level: Levels, k: int, x: real, y: real)
    requires LevelLaw(n, level) && 0 <= k <= n && UnderStairs(n, level, x, y) && x < level(k)
    ensures y <= level(k)
  {
    var m :| 0 <= m < n && level(m) <= x && y <= level(m + 1);
    assert m > k ==> level(k) < level(m);
    assert m + 1 < k ==> level(m + 1) < level(k);
  }

  lemma Outside(a: real, c: real, d: real, y: real)
    requires a > 0.0 && c >= 0.0 && d > c && y <= a
    ensures Turned(c, a, d, y) > 0.0
  {
    MulPositive(a, d - c);
    MulNonNegative(c, a - y);
  }

  /** ... and one that meets a tread has not risen above it. */
  lemma BelowTread(n: nat, level: Levels, j: int, x: real, y: real)
    requires LevelLaw(n, level) && 0 <= j < n && UnderStairs(n, level, x, y)
    requires Side((level(j + 1), level(j + 1)), x, y) >= 0.0
    ensures y <= level(j + 1)
  {
    LevelEnds(n, level, j + 1);
    if y > level(j + 1) {
      StepAhead(n, level, j + 1, x, y);
      Above1(level(j + 1), 1.0 - level(j + 1), 1.0 - x, y);
    }
  }

  /** What rises above a step is ahead of it. */
  lemma StepAhead(n: nat, level: Levels, k: int, x: real, y: real)
    requires LevelLaw(n, level) && 0 < k <= n && UnderStairs(n, level, x, y) && y > level(k)
    ensures level(k) <= x && level(k) < 1.0
  {
    var m :| 0 <= m < n && level(m) <= x && y <= level(m + 1);
    LevelEnds(n, level, m + 1);
    assert m > k ==> level(k) < level(m);
    assert m + 1 < k ==> level(m + 1) < level(k);
  }

  lemma Above1(b: real, c: real, d: real, y: real)
    requires b >= 0.0 && c > 0.0 && d <= c && y > b
    ensures Turned(c, b, d, y) < 0.0
  {
    MulPositive(c, y - b);
    MulNonNegative(b, c - d);
  }

  /** A point of the profile plane at depth `z`. */
  function Lifted(q: Spot, z: real): Vec3 { Vec3(q.0, q.1, z) }

  /** Triangle `i` of the fan. */
  ghost predicate InFan(n: nat, level: Levels, i: nat, p: Vec3) {
    InSpan(p, Lifted(StairCorner(n, level, 2 * n + 1), p.z), Lifted(StairCorner(n, level, i), p.z),
           Lifted(StairCorner(n, level, i + 1), p.z))
  }

  lemma InFanBy(n: nat, level: Levels, i: nat, q: Spot, r: Spot, x: real, y: real, z: real, u: real, v: real)
    requires LevelLaw(n, level) && i < 2 * n && q == StairCorner(n, level, i) && r == StairCorner(n, level, i + 1)
    requires Weights(1.0 - q.0, q.1, 1.0 - r.0, r.1, 1.0 - x, y, u, v)
    ensures InFan(n, level, i, Vec3(x, y, z))
  {
    var w := 1.0 - u - v;
    assert Bary(w, u, v);
    FanPoint(q, r, x, y, z, u, v, w);
  }

  lemma FanPoint(q: Spot, r: Spot, x: real, y: real, z: real, u: real, v: real, w: real)
    requires w == 1.0 - u - v && 1.0 - x == u * (1.0 - q.0) + v * (1.0 - r.0) && y == u * q.1 + v * r.1
    ensures Vec3(x, y, z) == Mix(Lifted((1.0, 0.0), z), Lifted(q, z), Lifted(r, z), w, u, v)
  {
    assert z * w + z * u + z * v == z * (w + u + v);
  }

  lemma RiserFanned(n: nat, level: Levels, j: nat, x: real, y: real, z: real)
    requires LevelLaw(n, level) && j < n && UnderStairs(n, level, x, y)
    requires Side((level(j), level(j)), x, y) <= 0.0 <= Side((level(j), level(j + 1)), x, y)
    ensures InFan(n, level, 2 * j, Vec3(x, y, z))
  {
    assert level(j) < level(j + 1);
    assert level(j) < level(n);
    LevelEnds(n, level, j);
    BeforeRiser(n, level, j, x, y);
    RiserCovers(n, level, 2 * j, level(j), level(j + 1), x, y, z);
  }

  lemma RiserCovers(n: nat, level: Levels, i: nat, a: real, b: real, x: real, y: real, z: real)
    requires LevelLaw(n, level) && i < 2 * n && StairCorner(n, level, i) == (a, a)
    requires StairCorner(n, level, i + 1) == (a, b)
    requires a < b && a < 1.0 && a <= x <= 1.0 && Side((a, a), x, y) <= 0.0 <= Side((a, b), x, y)
    ensures InFan(n, level, i, Vec3(x, y, z))
  {
    var u, v := RiserWeights(1.0 - a, a, b, 1.0 - x, y);
    InFanBy(n, level, i, (a, a), (a, b), x, y, z, u, v);
  }

  lemma TreadFanned(n: nat, level: Levels, j: nat, x: real, y: real, z: real)
    requires LevelLaw(n, level) && j < n && UnderStairs(n, level, x, y)
    requires Side((level(j), level(j + 1)), x, y) <= 0.0 <= Side((level(j + 1), level(j + 1)), x, y)
    ensures InFan(n, level, 2 * j + 1, Vec3(x, y, z))
  {
    assert level(j) < level(j + 1);
    LevelEnds(n, level, j);
    BelowTread(n, level, j, x, y);
    TreadCovers(n, level, 2 * j + 1, level(j), level(j + 1), x, y, z);
  }

  lemma TreadCovers(n: nat, level: Levels, i: nat, a: real, b: real, x: real, y: real, z: real)
    requires LevelLaw(n, level) && i < 2 * n && StairCorner(n, level, i) == (a, b)
    requires StairCorner(n, level, i + 1) == (b, b)
    requires 0.0 <= a < b && 0.0 <= y <= b && Side((a, b), x, y) <= 0.0 <= Side((b, b), x, y)
    ensures InFan(n, level, i, Vec3(x, y, z))
  {
    var u, v := TreadWeights(1.0 - a, 1.0 - b, b, 1.0 - x, y);
    InFanBy(n, level, i, (a, b), (b, b), x, y, z, u, v);
  }

  lemma StairsAreFanned(n: nat, level: Levels, x: real, y: real, z: real) returns (i: nat)
    requires LevelLaw(n, level) && UnderStairs(n, level, x, y)
    ensures i < 2 * n && InFan(n, level, i, Vec3(x, y, z))
  {
    i := EdgeMet(n, level, x, y);
    var j := i / 2;
    if i % 2 == 0 {
      assert i == 2 * j;
      RiserFanned(n, level, j, x, y, z);
    } else {
      assert i == 2 * j + 1;
      TreadFanned(n, level, j, x, y, z);
    }
  }

  lemma FanIsUnderStairs(n: nat, level: Levels, i: nat, p: Vec3)
    requires LevelLaw(n, level) && i < 2 * n && InFan(n, level, i, p)
    ensures UnderStairs(n, level, p.x, p.y)
  {
    var far, q, r := StairCorner(n, level, 2 * n + 1), StairCorner(n, level, i), StairCorner(n, level, i + 1);
    var w, u, v :| Bary(w, u, v) && p == Mix(Lifted(far, p.z), Lifted(q, p.z), Lifted(r, p.z), w, u, v);
    var j := i / 2;
    assert level(j) < level(j + 1);
    LevelEnds(n, level, j);
    LevelEnds(n, level, j + 1);
    MixBetween(far.0, q.0, r.0, w, u, v, level(j), 1.0);
    MixBetween(far.1, q.1, r.1, w, u, v, 0.0, level(j + 1));
    assert level(j) <= p.x && p.y <= level(j + 1);
  }

  /** The fan around the far end of the floor covers the solid below the steps, and nothing else. */
  lemma FanIsStairs(n: nat, level: Levels, p: Vec3)
    requires LevelLaw(n, level)
    ensures UnderStairs(n, level, p.x, p.y) <==> exists i: nat :: i < 2 * n && InFan(n, level, i, p)
  {
    if UnderStairs(n, level, p.x, p.y) {
      var i := StairsAreFanned(n, level, p.x, p.y, p.z);
    } else if i: nat :| i < 2 * n && InFan(n, level, i, p) {
      FanIsUnderStairs(n, level, i, p);
    }
  }
}
