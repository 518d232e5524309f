/**
 `seedream_size` (`recipe.py`): the smallest picture the image service accepts, in the shape of
 the canvas. Arithmetic is exact; the square root is the parameter `sqrt`.
 */
module ImageSizes {
  import opened Options
  import opened Vectors

  const MIN_PIXELS: int := 3_686_400

  /** `canvas.get(key) or default`: a missing or zero entry takes the default. */
  function OrDefault(x: Option<int>, default: int): int { if x.Some? && x.value != 0 then x.value else default }

  /** `up16`: the least multiple of 16 that is not below `x`. */
  function Up16(x: real): (r: int)
    ensures r % 16 == 0 && x <= r as real < x + 16.0
  {
    -((-x / 16.0).Floor) * 16
  }

  lemma Up16Least(x: real, m: int)
    requires m % 16 == 0 && x <= m as real
    ensures Up16(x) <= m
  {
  }

  /** The width that goes with a height. */
  function WidthFor(ratio: real): int -> int { h => Width(ratio, h) }

  function Width(ratio: real, h: int): int { Up16(h as real * ratio) }

  predicate Enough(width: int -> int, h: int) { width(h) * h >= MIN_PIXELS }

  ghost predicate FirstHeight(sqrt: real -> real, ratio: real, h: int)
    requires ratio > 0.0
  {
    h == Up16(sqrt(MIN_PIXELS as real / ratio))
  }

  /** In exact arithmetic the first height is already enough: the area h * h * ratio is. */
  lemma FirstIsEnough(sqrt: real -> real, ratio: real, h: int)
    requires SqrtLaw(sqrt) && ratio > 0.0 && FirstHeight(sqrt, ratio, h)
    ensures h > 0 && Enough(WidthFor(ratio), h)
  {
    var area := MIN_PIXELS as real / ratio;
    var root := sqrt(area);
    RootPositive(area, root);
    SquareGrows(root, h as real);
    DivMul(MIN_PIXELS as real, ratio);
    WidthIs(ratio, h);
    AreaEnough(area, ratio, h, WidthFor(ratio)(h));
  }

  lemma WidthIs(ratio: real, h: int)
    ensures h as real * ratio <= WidthFor(ratio)(h) as real
  {
    assert WidthFor(ratio)(h) == Width(ratio, h);
  }

  lemma DivMul(a: real, b: real)
    requires b > 0.0
    ensures a / b * b == a
  {
  }

  lemma AreaEnough(area: real, ratio: real, h: int, w: int)
    requires ratio > 0.0 && h >= 0 && area <= h as real * h as real && h as real * ratio <= w as real
    requires area * ratio == MIN_PIXELS as real
    ensures w * h >= MIN_PIXELS
  {
    AreaReached(area, ratio, h as real, w as real);
    assert w as real * h as real == (w * h) as real;
  }

  lemma AreaReached(area: real, ratio: real, h: real, w: real)
    requires ratio > 0.0 && h >= 0.0 && area <= h * h && h * ratio <= w
    ensures area * ratio <= w * h
  {
    MulKeeps(area, h * h, ratio);
    MulKeeps(h * ratio, w, h);
  }

  lemma RootPositive(x: real, root: real)
    requires x > 0.0 && root >= 0.0 && root * root == x
    ensures root > 0.0
  {
    assert root == 0.0 ==> root * root == 0.0;
  }

  lemma SquareGrows(a: real, b: real)
    requires 0.0 <= a <= b
    ensures a * a <= b * b
  {
    MulKeeps(a, b, a);
    MulKeeps(a, b, b);
  }

  lemma MulKeeps(a: real, b: real, k: real)
    requires a <= b && k >= 0.0
    ensures a * k <= b * k
  {
  }

  /** The repair loop: raise the height by 16 until the area is enough. */
  method Repair(width: int -> int, first: int) returns (w: int, h: int, ghost repairs: nat)
    requires first >= 0 && forall h | h > 0 :: width(h) > 0
    ensures w == width(h) && h == first + 16 * repairs && Enough(width, h)
    ensures forall j | 0 <= j < repairs :: !Enough(width, first + 16 * j)
  {
    h, w, repairs := first, width(first), 0;
    while w * h < MIN_PIXELS
      invariant w == width(h) && h == first + 16 * repairs
      invariant forall j | 0 <= j < repairs :: !Enough(width, first + 16 * j)
      decreases MIN_PIXELS - h
    {
      HeightBounded(w, h);
      assert !Enough(width, first + 16 * repairs);
      h := h + 16;
      w := width(h);
      repairs := repairs + 1;
    }
  }

  lemma HeightBounded(w: int, h: int)
    requires h >= 0 && (h > 0 ==> w > 0) && w * h < MIN_PIXELS
    ensures h < MIN_PIXELS
  {
    assert h > 0 ==> w * h >= h;
  }

  function Ratio(width: int, height: int): (r: real)
    requires height > 0
    ensures width > 0 ==> r > 0.0
  {
    width as real / height as real
  }

  /** Both sides are multiples of 16 and the area reaches the minimum; the height is the least that
      can do, the width is the shape's width for it rounded up, and the repair loop did nothing.
      The shape is kept exactly for the canvases that `KeepsShape` tells. */
  method SeedreamSize(sqrt: real -> real, canvasWidth: Option<int>, canvasHeight: Option<int>)
    returns (w: int, h: int, ghost repairs: nat)
    requires SqrtLaw(sqrt) && OrDefault(canvasWidth, 1280) > 0 && OrDefault(canvasHeight, 720) > 0
    ensures w % 16 == 0 && h % 16 == 0 && w * h >= MIN_PIXELS && h > 0 && repairs == 0
    ensures RightSize(sqrt, OrDefault(canvasWidth, 1280), OrDefault(canvasHeight, 720), w, h)
  {
    var width, height := OrDefault(canvasWidth, 1280), OrDefault(canvasHeight, 720);
    w, h, repairs := SizeFor(sqrt, Ratio(width, height));
    SizeIsRight(sqrt, width, height, w, h);
  }

  ghost predicate RightSize(sqrt: real -> real, width: int, height: int, w: int, h: int)
    requires width > 0 && height > 0
  {
    && h == LeastHeight(width, height) && w == Width(Ratio(width, height), h)
    && 0.0 <= w as real - h as real * Ratio(width, height) < 16.0 && FirstHeight(sqrt, Ratio(width, height), h)
    && (SameShape(w, h, width, height) <==> KeepsShape(width, height))
  }

  lemma SizeIsRight(sqrt: real -> real, width: int, height: int, w: int, h: int)
    requires SqrtLaw(sqrt) && width > 0 && height > 0
    requires FirstHeight(sqrt, Ratio(width, height), h) && w == Width(Ratio(width, height), h)
    ensures RightSize(sqrt, width, height, w, h)
  {
    FirstIsLeast(sqrt, width, height, h);
    ShapeKeptIff(w, width, height);
  }

  method SizeFor(sqrt: real -> real, ratio: real) returns (w: int, h: int, ghost repairs: nat)
    requires SqrtLaw(sqrt) && ratio > 0.0
    ensures w == Width(ratio, h) && FirstHeight(sqrt, ratio, h) && h > 0 && w * h >= MIN_PIXELS && repairs == 0
    ensures w % 16 == 0 && h % 16 == 0
  {
    var first := Up16(sqrt(MIN_PIXELS as real / ratio));
    FirstIsEnough(sqrt, ratio, first);
    PositiveWidths(ratio);
    w, h, repairs := Repair(WidthFor(ratio), first);
    assert repairs > 0 ==> !Enough(WidthFor(ratio), first + 16 * 0);
  }

  lemma PositiveWidths(ratio: real)
    requires ratio > 0.0
    ensures forall h: int | h > 0 :: WidthFor(ratio)(h) > 0
  {
    forall h: int | h > 0
      ensures WidthFor(ratio)(h) > 0
    {
      assert h as real * ratio > 0.0;
    }
  }

  // ---- the height, from the canvas alone

  /** A picture of the canvas's shape and this height is large enough. */
  predicate Fits(width: int, height: int, h: int) { h * h * width >= MIN_PIXELS * height }

  /** The least positive multiple of 16 that fits. */
  function LeastHeight(width: int, height: int): (h: int)
    requires width > 0 && height > 0
    ensures h % 16 == 0 && h > 0 && Fits(width, height, h)
    ensures forall k | 0 < k < h && k % 16 == 0 :: !Fits(width, height, k)
  {
    LeastFrom(width, height, 16)
  }

  function LeastFrom(width: int, height: int, from: int): (h: int)
    requires width > 0 && height > 0 && from > 0 && from % 16 == 0
    requires forall k | 0 < k < from && k % 16 == 0 :: !Fits(width, height, k)
    ensures h % 16 == 0 && h > 0 && Fits(width, height, h)
    ensures forall k | 0 < k < h && k % 16 == 0 :: !Fits(width, height, k)
    decreases MIN_PIXELS * height - from
  {
    if Fits(width, height, from) then from
    else
      TallFits(width, height, from);
      LeastFrom(width, height, from + 16)
  }

  lemma TallFits(width: int, height: int, h: int)
    requires width > 0 && h > 0 && !Fits(width, height, h)
    ensures h < MIN_PIXELS * height
  {
    assert h * h >= h;
    assert h * h * width >= h * h;
  }

  /** A height fits just when it is not below the root the code takes. */
  lemma FitsIff(width: int, height: int, h: int, area: real, root: real)
    requires width > 0 && height > 0 && h >= 0 && root >= 0.0 && root * root == area
    requires area * width as real == MIN_PIXELS as real * height as real
    ensures Fits(width, height, h) <==> root <= h as real
  {
    var x := h as real;
    assert (x * x) * width as real == (h * h * width) as real;
    if root <= x {
      SquareGrows(root, x);
      MulKeeps(area, x * x, width as real);
    } else {
      SquaresOrdered(x, root);
      MulStrict(x * x, area, width as real);
    }
  }

  lemma MulStrict(a: real, b: real, k: real)
    requires a < b && k > 0.0
    ensures a * k < b * k
  {
  }

  lemma RatioTimes(width: int, height: int)
    requires height > 0
    ensures Ratio(width, height) * height as real == width as real
  {
    DivMul(width as real, height as real);
  }

  lemma AreaTimesWidth(m: real, ratio: real, x: real, y: real)
    requires ratio > 0.0 && ratio * y == x
    ensures m / ratio * x == m * y
  {
    var area := m / ratio;
    DivMul(m, ratio);
    assert area * (ratio * y) == (area * ratio) * y;
  }

  /** The height the code starts from is the least that fits. */
  lemma FirstIsLeast(sqrt: real -> real, width: int, height: int, h: int)
    requires SqrtLaw(sqrt) && width > 0 && height > 0 && FirstHeight(sqrt, Ratio(width, height), h)
    ensures h == LeastHeight(width, height)
  {
    var area := MIN_PIXELS as real / Ratio(width, height);
    RatioTimes(width, height);
    AreaTimesWidth(MIN_PIXELS as real, Ratio(width, height), width as real, height as real);
    FirstIsEnough(sqrt, Ratio(width, height), h);
    LeastAboveRoot(width, height, area, sqrt(area));
  }

  lemma LeastAboveRoot(width: int, height: int, area: real, root: real)
    requires width > 0 && height > 0 && root >= 0.0 && root * root == area
    requires area * width as real == MIN_PIXELS as real * height as real
    ensures Up16(root) == LeastHeight(width, height)
  {
    var least, h := LeastHeight(width, height), Up16(root);
    FitsIff(width, height, least, area, root);
    Up16Least(root, least);
    FitsIff(width, height, h, area, root);
    assert h == 0 ==> !Fits(width, height, h);
  }

  // ---- the shape

  predicate KeepsShape(width: int, height: int)
    requires width > 0 && height > 0
  {
    (LeastHeight(width, height) * width) % (16 * height) == 0
  }

  predicate SameShape(w: int, h: int, width: int, height: int) { w * height == h * width }

  /** The shape is kept exactly just when the height, which the canvas alone decides, times the
      canvas width is a multiple of sixteen times the canvas height. */
  lemma ShapeKeptIff(w: int, width: int, height: int)
    requires width > 0 && height > 0 && w == Width(Ratio(width, height), LeastHeight(width, height))
    ensures SameShape(w, LeastHeight(width, height), width, height) <==> KeepsShape(width, height)
  {
    RatioTimes(width, height);
    WidthIsExactIff(w, LeastHeight(width, height), width, height, Ratio(width, height));
  }

  lemma WidthIsExactIff(w: int, h: int, width: int, height: int, ratio: real)
    requires height > 0 && w == Width(ratio, h) && ratio * height as real == width as real
    ensures SameShape(w, h, width, height) <==> (h * width) % (16 * height) == 0
  {
    WidthBounds(w, h, width, height, ratio);
    SixteenOut(w, height);
    RoundedUpIff(h * width, w / 16, 16 * height);
  }

  lemma SixteenOut(w: int, height: int)
    requires w % 16 == 0
    ensures (w / 16) * (16 * height) == w * height
  {
    var k := w / 16;
    assert w == 16 * k;
  }

  lemma WidthBounds(w: int, h: int, width: int, height: int, ratio: real)
    requires height > 0 && w == Width(ratio, h) && ratio * height as real == width as real
    ensures w % 16 == 0 && h * width <= w * height < h * width + 16 * height
  {
    RealBounds(h as real, ratio, height as real, width as real, w as real);
    RealProduct(w, height);
    RealProduct(h, width);
  }

  lemma RealProduct(a: int, b: int)
    ensures a as real * b as real == (a * b) as real
  {
  }

  lemma RealBounds(x: real, ratio: real, y: real, width: real, w: real)
    requires y > 0.0 && ratio * y == width && x * ratio <= w < x * ratio + 16.0
    ensures x * width <= w * y < x * width + 16.0 * y
  {
    Scaled(x * ratio, w, 16.0, y);
    assert (x * ratio) * y == x * (ratio * y);
  }

  lemma Scaled(a: real, b: real, c: real, k: real)
    requires a <= b < a + c && k > 0.0
    ensures a * k <= b * k < a * k + c * k
  {
    MulKeeps(a, b, k);
    MulStrict(b, a + c, k);
  }

  lemma RoundedUpIff(x: int, k: int, m: int)
    requires m > 0 && x <= k * m < x + m
    ensures k * m == x <==> x % m == 0
  {
    if x % m == 0 {
      var q := x / m;
      assert x == q * m;
      assert k - q >= 1 ==> (k - q) * m >= m;
      assert k - q <= -1 ==> (k - q) * m <= -m;
    }
    if k * m == x {
      MultipleOf(x, k, m);
    }
  }

  lemma MultipleOf(x: int, k: int, m: int)
    requires m > 0 && x == k * m
    ensures x % m == 0
  {
    var q, r := x / m, x % m;
    assert (k - q) * m == r;
    assert k - q >= 1 ==> (k - q) * m >= m;
    assert k - q <= -1 ==> (k - q) * m <= -m;
  }

  /** The 4:3 canvas of 1152 x 864 becomes 2224 x 1664, which is not 4:3; so a canvas of that
      preset and its picture do not have the same shape, contrary to what the code promises. */
  lemma FourThreeIsNotKept(sqrt: real -> real)
    requires SqrtLaw(sqrt)
    ensures var ratio := 1152.0 / 864.0;
            && FirstHeight(sqrt, ratio, 1664) && Up16(1664.0 * ratio) == 2224
            && 2224 * 864 != 1664 * 1152 && !KeepsShape(1152, 864)
  {
    var ratio := 1152.0 / 864.0;
    var area := MIN_PIXELS as real / ratio;
    assert area == 2764800.0;
    var root := sqrt(area);
    if root <= 1648.0 {
      SquareGrows(root, 1648.0);
    }
    if root > 1664.0 {
      SquareGrows(1664.0, root);
    }
    FirstIsLeast(sqrt, 1152, 864, 1664);
  }

  /** The 16:9, 9:16 and 1:1 canvases keep their shape. */
  lemma OthersAreKept(sqrt: real -> real)
    requires SqrtLaw(sqrt)
    ensures FirstHeight(sqrt, 1280.0 / 720.0, 1440) && Up16(1440.0 * (1280.0 / 720.0)) == 2560
    ensures FirstHeight(sqrt, 720.0 / 1280.0, 2560) && Up16(2560.0 * (720.0 / 1280.0)) == 1440
    ensures FirstHeight(sqrt, 1024.0 / 1024.0, 1920) && Up16(1920.0 * (1024.0 / 1024.0)) == 1920
    ensures KeepsShape(1280, 720) && KeepsShape(720, 1280) && KeepsShape(1024, 1024)
  {
    RootIs(sqrt, MIN_PIXELS as real / (1280.0 / 720.0), 1440.0);
    RootIs(sqrt, MIN_PIXELS as real / (720.0 / 1280.0), 2560.0);
    RootIs(sqrt, MIN_PIXELS as real / (1024.0 / 1024.0), 1920.0);
    FirstIsLeast(sqrt, 1280, 720, 1440);
    FirstIsLeast(sqrt, 720, 1280, 2560);
    FirstIsLeast(sqrt, 1024, 1024, 1920);
  }

  lemma RootIs(sqrt: real -> real, x: real, r: real)
    requires SqrtLaw(sqrt) && r > 0.0 && x == r * r
    ensures sqrt(x) == r
  {
    RootUnique(sqrt(x), r);
  }
}
