/** The coordinate mapper: screen pixels to the normalised absolute range
    0..65535 that SendInput reads when MOUSEEVENTF_ABSOLUTE is set. */
module Coordinates {
  import opened Win32

  function Abs(a: int): nat {
    if a < 0 then -a else a
  }

  /** Go's integer `/`: the quotient truncated toward zero. Its remainder is
      smaller than the divisor and has the sign of the dividend (Dafny's own
      `/` is Euclidean and differs for negative operands). */
  function GoQuo(a: int, b: int): (q: int)
    requires b != 0
    ensures Abs(a - b * q) < Abs(b)
    ensures a >= 0 ==> a - b * q >= 0
    ensures a <= 0 ==> a - b * q <= 0
  {
    var m := Abs(a) / Abs(b);
    var q := if (a < 0) == (b < 0) then m else -m;
    TruncatedRemainder(a, b, m, q);
    q
  }

  /** The quotient of the magnitudes, given the sign of the two operands,
      leaves a remainder with the sign of the dividend. */
  lemma TruncatedRemainder(a: int, b: int, m: int, q: int)
    requires b != 0 && m == Abs(a) / Abs(b)
    requires q == if (a < 0) == (b < 0) then m else -m
    ensures Abs(a - b * q) < Abs(b)
    ensures a >= 0 ==> a - b * q >= 0
    ensures a <= 0 ==> a - b * q <= 0
  {
    var aa, bb := Abs(a), Abs(b);
    var rem := aa - bb * m;
    MagnitudeRemainder(aa, bb);
    SignedProducts(bb, m);
    if a < 0 {
      assert b * q == -(bb * m);
      assert a - b * q == -rem;
    } else if a == 0 {
      assert m == 0 && q == 0;
    } else {
      assert b * q == bb * m;
      assert a - b * q == rem;
    }
  }

  lemma MagnitudeRemainder(aa: nat, bb: int)
    requires bb > 0
    ensures 0 <= aa - bb * (aa / bb) < bb
    ensures aa == 0 ==> aa / bb == 0
  {
  }

  lemma SignedProducts(x: int, y: int)
    ensures (-x) * y == -(x * y) && x * (-y) == -(x * y) && (-x) * (-y) == x * y
  {
  }

  /** On a non-negative dividend and a positive divisor Go's division agrees
      with floor division. */
  lemma GoQuoNonNegative(a: int, b: int)
    requires a >= 0 && b > 0
    ensures GoQuo(a, b) == a / b
  {
    var q := GoQuo(a, b);
    var r := a - b * q;
    assert 0 <= r < b;
    assert a == b * q + r;
    DivUnique(a, b, q, r);
  }

  lemma DivUnique(a: int, b: int, q: int, r: int)
    requires b > 0 && 0 <= r < b && a == b * q + r
    ensures q == a / b
  {
    var q', r' := a / b, a % b;
    assert b * (q - q') == r' - r by {
      assert b * q - b * q' == b * (q - q');
    }
    if q > q' {
      MulMonotonic(1, q - q', b);
    } else if q < q' {
      MulMonotonic(1, q' - q, b);
    }
  }

  lemma MulMonotonic(a: int, b: int, c: int)
    requires a <= b && c >= 0
    ensures a * c <= b * c
  {
  }

  /** A multiple of a positive divisor divides exactly. */
  lemma GoQuoExact(k: nat, b: int)
    requires b > 0
    ensures GoQuo(k * b, b) == k
  {
    GoQuoNonNegative(k * b, b);
    DivUnique(k * b, b, k, 0);
  }

  /** GetScreenDimensions, given the two raw values GetSystemMetrics returned
      for SM_CXSCREEN and SM_CYSCREEN: an error naming both when either is
      zero, otherwise both converted to Go's `int`. */
  function ScreenDimensions(width: Uintptr, height: Uintptr): (r: Result<(Int64, Int64), Error>)
    ensures r.Ok? <==> width != 0 && height != 0
    ensures r.Err? ==> r.error == InvalidScreenDimensions(width, height)
    ensures r.Ok? ==> r.value == (ToInt64(width), ToInt64(height))
    ensures r.Ok? ==> r.value.0 != 0 && r.value.1 != 0
  {
    if width == 0 || height == 0 then Err(InvalidScreenDimensions(width, height))
    else Ok((ToInt64(width), ToInt64(height)))
  }

  /** What the display-size query can answer: a width and height that are
      both non-zero, or, when the system reports a zero dimension, an
      InvalidScreenDimensions error carrying the two values. */
  ghost predicate DisplayOracle(display: Result<(Int64, Int64), Error>) {
    match display
    case Ok((width, height)) => width != 0 && height != 0
    case Err(e) => e.InvalidScreenDimensions? && (e.width == 0 || e.height == 0)
  }

  /** Every answer of GetScreenDimensions is one DisplayOracle allows. */
  lemma ScreenDimensionsInOracle(width: Uintptr, height: Uintptr)
    ensures DisplayOracle(ScreenDimensions(width, height))
  {
  }

  /** One axis of the mapping: `int32((v * 65535) / extent)` in 64-bit Go
      arithmetic. The left edge maps to 0, and the pixel just past the far
      edge of a display GetSystemMetrics can report maps to exactly 65535. */
  function AbsoluteAxis(v: Int64, extent: Int64): (a: Int32)
    requires extent != 0
    ensures 0 < extent && v == 0 ==> a == 0
    ensures 0 < extent < 0x8000_0000 && v == extent ==> a == WINDOWS_ABSOLUTE_COORD_MAX
  {
    AxisEdges(extent);
    ToInt32(GoQuo(ToInt64(v * WINDOWS_ABSOLUTE_COORD_MAX), extent))
  }

  /** The quotients at the two edges of a display. */
  lemma AxisEdges(extent: int)
    requires extent != 0
    ensures 0 < extent ==> GoQuo(0, extent) == 0
    ensures 0 < extent ==>
      GoQuo(WINDOWS_ABSOLUTE_COORD_MAX * extent, extent) == WINDOWS_ABSOLUTE_COORD_MAX
  {
    if 0 < extent {
      GoQuoExact(0, extent);
      GoQuoExact(WINDOWS_ABSOLUTE_COORD_MAX, extent);
    }
  }

  /** convertScreenCoordinatesToAbsoluteCoordinates, given the result of the
      display-size query. A query error is returned unchanged. */
  function ScreenToAbsolute(display: Result<(Int64, Int64), Error>, x: Int64, y: Int64)
    : (r: Result<(Int32, Int32), Error>)
    requires DisplayOracle(display)
    ensures display.Err? <==> r.Err?
    ensures display.Err? ==> r.error == display.error
    ensures display.Ok? ==> r.value.0 == AbsoluteAxis(x, display.value.0)
    ensures display.Ok? ==> r.value.1 == AbsoluteAxis(y, display.value.1)
  {
    match display
    case Err(e) => Err(e)
    case Ok((width, height)) => Ok((AbsoluteAxis(x, width), AbsoluteAxis(y, height)))
  }

  /** A pixel inside the display, on a display as wide as GetSystemMetrics
      can report (its result is a C int), maps to the floor of
      v * 65535 / extent, which lies in 0..65534. */
  lemma AxisInRange(v: Int64, extent: Int64)
    requires 0 < extent < 0x8000_0000
    requires 0 <= v < extent
    ensures var a := AbsoluteAxis(v, extent);
      && 0 <= a < WINDOWS_ABSOLUTE_COORD_MAX
      && a * extent <= v * WINDOWS_ABSOLUTE_COORD_MAX < (a + 1) * extent
      && a == v * WINDOWS_ABSOLUTE_COORD_MAX / extent
  {
    var p := v * WINDOWS_ABSOLUTE_COORD_MAX;
    assert 0 <= p < extent * WINDOWS_ABSOLUTE_COORD_MAX < 0x8000_0000_0000_0000;
    assert ToInt64(p) == p;
    QuotientInRange(p, extent);
    var q := GoQuo(p, extent);
    assert ToInt32(q) == q;
  }

  /** The quotient of a dividend below 65535 divisors is a floor quotient
      below 65535. */
  lemma QuotientInRange(p: int, extent: int)
    requires 0 < extent && 0 <= p < extent * WINDOWS_ABSOLUTE_COORD_MAX
    ensures var q := GoQuo(p, extent);
      && 0 <= q < WINDOWS_ABSOLUTE_COORD_MAX
      && q * extent <= p < (q + 1) * extent
      && q == p / extent
  {
    var q := GoQuo(p, extent);
    assert 0 <= p - extent * q < extent;
    if q >= WINDOWS_ABSOLUTE_COORD_MAX {
      MulMonotonic(WINDOWS_ABSOLUTE_COORD_MAX, q, extent);
    }
    if q < 0 {
      MulMonotonic(q, -1, extent);
    }
    assert (q + 1) * extent == q * extent + extent;
    DivUnique(p, extent, q, p - extent * q);
  }

  /** Moving right (or down) on the display never moves the absolute
      coordinate back. */
  lemma AxisMonotonic(v1: Int64, v2: Int64, extent: Int64)
    requires 0 < extent < 0x8000_0000
    requires 0 <= v1 <= v2 < extent
    ensures AbsoluteAxis(v1, extent) <= AbsoluteAxis(v2, extent)
  {
    AxisInRange(v1, extent);
    AxisInRange(v2, extent);
    var a1, a2 := AbsoluteAxis(v1, extent), AbsoluteAxis(v2, extent);
    if a1 > a2 {
      MulMonotonic(a2 + 1, a1, extent);
    }
  }

  /** The whole mapping on a successfully queried display, for a point on it. */
  lemma ScreenToAbsoluteInRange(width: Int64, height: Int64, x: Int64, y: Int64)
    requires 0 < width < 0x8000_0000 && 0 < height < 0x8000_0000
    requires 0 <= x < width && 0 <= y < height
    ensures var r := ScreenToAbsolute(Ok((width, height)), x, y);
      && r.Ok?
      && 0 <= r.value.0 < WINDOWS_ABSOLUTE_COORD_MAX
      && 0 <= r.value.1 < WINDOWS_ABSOLUTE_COORD_MAX
      && r.value.0 == x * WINDOWS_ABSOLUTE_COORD_MAX / width
      && r.value.1 == y * WINDOWS_ABSOLUTE_COORD_MAX / height
  {
    AxisInRange(x, width);
    AxisInRange(y, height);
  }

  /** A 1920x1080 display maps pixel (100, 200) to (3413, 12136). */
  lemma ScreenToAbsoluteExample()
    ensures ScreenToAbsolute(Ok((1920, 1080)), 100, 200) == Ok((3413, 12136))
  {
    GoQuoNonNegative(100 * WINDOWS_ABSOLUTE_COORD_MAX, 1920);
    GoQuoNonNegative(200 * WINDOWS_ABSOLUTE_COORD_MAX, 1080);
  }
}
