/**
 World-space vectors over exact reals. `math.sqrt` is a parameter `sqrt` that only has to
 return a non-negative root (`SqrtLaw`); angles are cosine/sine pairs on the unit circle.
 */
module Vectors {

  datatype Vec3 = Vec3(x: real, y: real, z: real)

  ghost predicate SqrtLaw(sqrt: real -> real) {
    forall x: real | x >= 0.0 :: sqrt(x) >= 0.0 && sqrt(x) * sqrt(x) == x
  }

  function Sub(a: Vec3, b: Vec3): Vec3 { Vec3(a.x - b.x, a.y - b.y, a.z - b.z) }

  function Add(a: Vec3, b: Vec3): Vec3 { Vec3(a.x + b.x, a.y + b.y, a.z + b.z) }

  function Mul(a: Vec3, s: real): Vec3 { Vec3(a.x * s, a.y * s, a.z * s) }

  function Scale(a: Vec3, b: Vec3): Vec3 { Vec3(a.x * b.x, a.y * b.y, a.z * b.z) }

  function Dot(a: Vec3, b: Vec3): real { a.x * b.x + a.y * b.y + a.z * b.z }

  function Cross(a: Vec3, b: Vec3): Vec3 {
    Vec3(a.y * b.z - a.z * b.y, a.z * b.x - a.x * b.z, a.x * b.y - a.y * b.x)
  }

  function Length(sqrt: real -> real, a: Vec3): real { sqrt(Dot(a, a)) }

  function Normalize(sqrt: real -> real, a: Vec3, fallback: Vec3): Vec3 {
    var n := Length(sqrt, a);
    if n > 0.000000001 then Mul(a, 1.0 / n) else fallback
  }

  predicate Unit(a: Vec3) { Dot(a, a) == 1.0 }

  function Abs(x: real): (r: real)
    ensures r >= 0.0 && r >= x && r >= -x && (r == x || r == -x)
  {
    if x < 0.0 then -x else x
  }

  function Min(x: real, y: real): (r: real)
    ensures r <= x && r <= y && (r == x || r == y)
  {
    if x < y then x else y
  }

  function Max(x: real, y: real): (r: real)
    ensures r >= x && r >= y && (r == x || r == y)
  {
    if x > y then x else y
  }

  /** `round` to the nearest integer, ties to even. */
  function RoundHalfEven(x: real): int {
    var f := x.Floor;
    var rest := x - f as real;
    if rest < 0.5 then f else if rest > 0.5 then f + 1 else if f % 2 == 0 then f else f + 1
  }

  lemma SquareNonNegative(x: real)
    ensures x * x >= 0.0
  {
  }

  lemma DotSelfNonNegative(a: Vec3)
    ensures Dot(a, a) >= 0.0
  {
    SquareNonNegative(a.x);
    SquareNonNegative(a.y);
    SquareNonNegative(a.z);
  }

  lemma MulPositive(x: real, y: real)
    requires x > 0.0 && y > 0.0
    ensures x * y > 0.0
  {
  }

  lemma MulNonNegative(x: real, y: real)
    requires x >= 0.0 && y >= 0.0
    ensures x * y >= 0.0
  {
  }

  lemma SquaresOrdered(a: real, b: real)
    requires 0.0 <= a < b
    ensures a * a < b * b
  {
    MulPositive(b - a, b + a);
    assert (b - a) * (b + a) == b * b - a * a;
  }

  /** The root of a square is determined: two non-negative reals with the same square agree. */
  lemma RootUnique(a: real, b: real)
    requires a >= 0.0 && b >= 0.0 && a * a == b * b
    ensures a == b
  {
    if a < b {
      SquaresOrdered(a, b);
    } else if b < a {
      SquaresOrdered(b, a);
    }
  }

  /** Squaring is monotone on the non-negative reals. */
  lemma RootMonotone(a: real, b: real)
    requires b >= 0.0 && a * a <= b * b
    ensures a <= b
  {
    if a > b {
      SquaresOrdered(b, a);
    }
  }

  lemma SqrtMonotone(sqrt: real -> real, u: real, v: real)
    requires SqrtLaw(sqrt) && 0.0 <= u <= v
    ensures 0.0 <= sqrt(u) <= sqrt(v)
  {
    RootMonotone(sqrt(u), sqrt(v));
  }

  lemma LengthSquared(sqrt: real -> real, a: Vec3)
    requires SqrtLaw(sqrt)
    ensures Length(sqrt, a) >= 0.0 && Length(sqrt, a) * Length(sqrt, a) == Dot(a, a)
  {
    DotSelfNonNegative(a);
  }

  /** Above the threshold, normalising yields a unit vector, and Mul by the length undoes it. */
  lemma NormalizeUnit(sqrt: real -> real, a: Vec3, fallback: Vec3)
    requires SqrtLaw(sqrt) && Length(sqrt, a) > 0.000000001
    ensures Unit(Normalize(sqrt, a, fallback))
    ensures Mul(Normalize(sqrt, a, fallback), Length(sqrt, a)) == a
  {
    LengthSquared(sqrt, a);
    var n := Length(sqrt, a);
    var k := 1.0 / n;
    assert k * n == 1.0;
    var r := Normalize(sqrt, a, fallback);
    assert r == Mul(a, k);
    assert Dot(r, r) == k * k * Dot(a, a);
    assert k * k * (n * n) == (k * n) * (k * n);
    assert forall t: real {:trigger t * k} :: t * k * n == t * (k * n);
  }

  /** A positive multiple of a unit vector normalises to that unit vector. */
  lemma NormalizeMultiple(sqrt: real -> real, u: Vec3, s: real, fallback: Vec3)
    requires SqrtLaw(sqrt) && Unit(u) && s > 0.000000001
    ensures Length(sqrt, Mul(u, s)) == s
    ensures Normalize(sqrt, Mul(u, s), fallback) == u
  {
    var a := Mul(u, s);
    LengthSquared(sqrt, a);
    assert Dot(a, a) == s * s * Dot(u, u) == s * s;
    RootUnique(Length(sqrt, a), s);
    var k := 1.0 / s;
    assert s * k == 1.0;
    assert forall t: real {:trigger t * s} :: t * s * k == t * (s * k);
  }
}
