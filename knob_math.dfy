/** Value arithmetic of the rotary knob: the affine range mapping, grid
    snapping and the clamp every drag sample ends with. Floats are reals. */
module KnobMath {

  function Abs(x: real): (r: real)
    ensures r >= 0.0 && (r == x || r == -x)
  {
    if x < 0.0 then -x else x
  }

  /** Maps value from [minInput, maxInput] onto [minOutput, maxOutput].
      A zero-width input range yields minOutput instead of a division by zero. */
  function MapRange(value: real, minInput: real, maxInput: real, minOutput: real, maxOutput: real): (r: real)
    ensures maxInput - minInput == 0.0 ==> r == minOutput
  {
    if maxInput - minInput == 0.0 then minOutput
    else minOutput + (maxOutput - minOutput) * ((value - minInput) / (maxInput - minInput))
  }

  /** Rounds value to the nearest multiple of grid (halves round up);
      a zero grid collapses everything to 0. */
  function RoundGrid(value: real, grid: real): (r: real)
    ensures grid == 0.0 ==> r == 0.0
  {
    if grid == 0.0 then 0.0
    else (value / grid + 0.5).Floor as real * grid
  }

  /** The host's ClampValue: below the lower limit gives the lower limit,
      above the upper limit gives the upper limit, otherwise the value. */
  function Clamp(value: real, lowerLimit: real, upperLimit: real): (r: real)
    ensures lowerLimit <= upperLimit ==> lowerLimit <= r <= upperLimit
    ensures lowerLimit <= value <= upperLimit ==> r == value
    ensures lowerLimit <= upperLimit && value <= lowerLimit ==> r == lowerLimit
    ensures lowerLimit <= upperLimit && upperLimit <= value ==> r == upperLimit
  {
    if value < lowerLimit then lowerLimit
    else if value > upperLimit then upperLimit
    else value
  }

  // ---------------------------------------------------------------------
  // MapRange

  lemma DivSelf(x: real)
    requires x != 0.0
    ensures x / x == 1.0
  {
  }

  /** The ends of the input range go to the ends of the output range; the
      lower end does so even when the input range is degenerate. */
  lemma MapRangeEndpoints(a: real, b: real, c: real, d: real)
    ensures MapRange(a, a, b, c, d) == c
    ensures a != b ==> MapRange(b, a, b, c, d) == d
  {
    if a != b {
      DivSelf(b - a);
      assert (d - c) * 1.0 == d - c;
    }
  }

  /** Away from the degenerate case the mapping is affine: differences of
      inputs are scaled by the ratio of the range widths. */
  lemma MapRangeAffine(v: real, w: real, a: real, b: real, c: real, d: real)
    requires a != b
    ensures MapRange(v, a, b, c, d) - MapRange(w, a, b, c, d) == (d - c) / (b - a) * (v - w)
  {
    var k := b - a;
    assert (v - a) / k - (w - a) / k == (v - w) / k;
    assert (d - c) * ((v - a) / k) - (d - c) * ((w - a) / k) == (d - c) * ((v - w) / k);
    assert (d - c) * ((v - w) / k) == (d - c) / k * (v - w);
  }

  /** An increasing input range mapped onto a non-decreasing output range
      keeps the order of values. */
  lemma MapRangeMonotone(v: real, w: real, a: real, b: real, c: real, d: real)
    requires a < b && c <= d && v <= w
    ensures MapRange(v, a, b, c, d) <= MapRange(w, a, b, c, d)
  {
    MapRangeAffine(w, v, a, b, c, d);
    QuotientNonNegative(d - c, b - a);
    ProductNonNegative((d - c) / (b - a), w - v);
  }

  lemma QuotientNonNegative(x: real, y: real)
    requires x >= 0.0 && y > 0.0
    ensures x / y >= 0.0
  {
  }

  lemma ProductNonNegative(x: real, y: real)
    requires x >= 0.0 && y >= 0.0
    ensures x * y >= 0.0
  {
  }

  /** Values inside the input range land inside the output range. */
  lemma MapRangeWithin(v: real, a: real, b: real, c: real, d: real)
    requires a < b && c <= d && a <= v <= b
    ensures c <= MapRange(v, a, b, c, d) <= d
  {
    MapRangeEndpoints(a, b, c, d);
    MapRangeMonotone(a, v, a, b, c, d);
    MapRangeMonotone(v, b, a, b, c, d);
  }

  lemma HalfOverWhole(x: real)
    requires x != 0.0
    ensures (x / 2.0) / x == 0.5
  {
  }

  /** The middle of the input range goes to the middle of the output range. */
  lemma MapRangeMidpoint(a: real, b: real, c: real, d: real)
    requires a != b
    ensures MapRange((a + b) / 2.0, a, b, c, d) == (c + d) / 2.0
  {
    assert (a + b) / 2.0 - a == (b - a) / 2.0;
    HalfOverWhole(b - a);
    assert (d - c) * 0.5 == (d - c) / 2.0;
  }

  /** With both ranges non-degenerate, mapping back with the ranges swapped
      gives the original value. */
  lemma MapRangeInverse(v: real, a: real, b: real, c: real, d: real)
    requires a != b && c != d
    ensures MapRange(MapRange(v, a, b, c, d), c, d, a, b) == v
  {
    var t := (v - a) / (b - a);
    var u := c + (d - c) * t;
    assert MapRange(v, a, b, c, d) == u;
    assert (u - c) / (d - c) == t;
    assert a + (b - a) * t == v;
  }

  // ---------------------------------------------------------------------
  // RoundGrid

  /** The grid index of a value: the integer k with RoundGrid(value, grid) == k * grid. */
  function GridIndex(value: real, grid: real): int
    requires grid != 0.0
  {
    (value / grid + 0.5).Floor
  }

  /** The chosen grid index lies within half a unit of value / grid. */
  lemma GridIndexBounds(value: real, grid: real)
    requires grid != 0.0
    ensures RoundGrid(value, grid) == GridIndex(value, grid) as real * grid
    ensures value / grid - 0.5 < GridIndex(value, grid) as real <= value / grid + 0.5
  {
  }

  /** The same facts with the index handed out as a plain integer. */
  lemma ChosenIndex(value: real, grid: real) returns (f: int)
    requires grid != 0.0
    ensures RoundGrid(value, grid) == f as real * grid
    ensures value / grid - 0.5 < f as real <= value / grid + 0.5
  {
    f := GridIndex(value, grid);
    GridIndexBounds(value, grid);
  }

  /** For a non-zero grid the result is an integer multiple of the grid step. */
  lemma RoundGridIsMultiple(value: real, grid: real)
    requires grid != 0.0
    ensures var r := RoundGrid(value, grid); r / grid == (r / grid).Floor as real
  {
    var k := ChosenIndex(value, grid);
    CancelGrid(RoundGrid(value, grid), k as real, grid);
  }

  lemma UnitsBack(value: real, grid: real)
    requires grid != 0.0
    ensures value == value / grid * grid
  {
  }

  /** With value == u * grid and r == f * grid, the offset r - value is (f - u) * grid. */
  lemma Offset(r: real, value: real, grid: real, f: real, u: real)
    requires r == f * grid && value == u * grid
    ensures r - value == (f - u) * grid
  {
  }

  lemma HalfOfAtMost(x: real, c: real)
    requires x <= 0.5 && c >= 0.0
    ensures x * c <= c / 2.0
  {
    assert (0.5 - x) * c >= 0.0;
  }

  lemma HalfOfAbove(x: real, c: real)
    requires x > -0.5 && c > 0.0
    ensures x * c > -(c / 2.0)
  {
    assert (x + 0.5) * c > 0.0;
  }

  /** (f - u) in (-1/2, 1/2] scaled by a positive grid lies in (-grid/2, grid/2]. */
  lemma HalfStepPositive(d: real, units: real, grid: real)
    requires d == units * grid && -0.5 < units <= 0.5 && grid > 0.0
    ensures -(grid / 2.0) < d <= grid / 2.0
  {
    HalfOfAtMost(units, grid);
    HalfOfAbove(units, grid);
  }

  /** The same scaled by a negative grid lies in [grid/2, -grid/2). */
  lemma HalfStepNegative(d: real, units: real, grid: real)
    requires d == units * grid && -0.5 < units <= 0.5 && grid < 0.0
    ensures grid / 2.0 <= d < -(grid / 2.0)
  {
    var m := -grid;
    assert d == -(units * m);
    HalfOfAtMost(units, m);
    HalfOfAbove(units, m);
  }

  lemma AbsFromBounds(d: real, h: real)
    requires -h <= d <= h
    ensures Abs(d) <= h
  {
  }

  /** The result is within half a grid step of the input; halves round up,
      so the edge value + grid/2 is included and value - grid/2 is not. */
  lemma RoundGridError(value: real, grid: real)
    requires grid != 0.0
    ensures grid > 0.0 ==> value - grid / 2.0 < RoundGrid(value, grid) <= value + grid / 2.0
    ensures grid < 0.0 ==> value + grid / 2.0 <= RoundGrid(value, grid) < value - grid / 2.0
  {
    var f := ChosenIndex(value, grid);
    var u := value / grid;
    var r := RoundGrid(value, grid);
    UnitsBack(value, grid);
    Offset(r, value, grid, f as real, u);
    if grid > 0.0 {
      HalfStepPositive(r - value, f as real - u, grid);
    } else {
      HalfStepNegative(r - value, f as real - u, grid);
    }
  }

  /** In absolute terms: never more than half a grid step away. */
  lemma RoundGridWithinHalfStep(value: real, grid: real)
    ensures grid != 0.0 ==> Abs(RoundGrid(value, grid) - value) <= Abs(grid) / 2.0
  {
    if grid != 0.0 {
      RoundGridError(value, grid);
      AbsFromBounds(RoundGrid(value, grid) - value, Abs(grid) / 2.0);
    }
  }

  lemma CancelGrid(r: real, k: real, grid: real)
    requires grid != 0.0 && r == k * grid
    ensures r / grid == k
  {
  }

  /** The magnitude of a product is the product of the magnitudes. */
  lemma AbsOfProduct(x: real, c: real)
    ensures Abs(x * c) == Abs(x) * Abs(c)
  {
    if x < 0.0 && c < 0.0 {
      assert x * c == (-x) * (-c);
    } else if x < 0.0 {
      assert -(x * c) == (-x) * c;
    } else if c < 0.0 {
      assert -(x * c) == x * (-c);
    }
  }

  lemma ScaleAtMost(a: real, b: real, c: real)
    requires a <= b && c >= 0.0
    ensures a * c <= b * c
  {
    assert (b - a) * c >= 0.0;
  }

  /** A factor of magnitude at least one does not shrink the magnitude. */
  lemma AbsProductAtLeast(m: real, c: real)
    requires Abs(m) >= 1.0
    ensures Abs(m * c) >= Abs(c)
  {
    var am, ac := Abs(m), Abs(c);
    AbsOfProduct(m, c);
    ScaleAtMost(1.0, am, ac);
    calc {
      Abs(m * c);
   == am * ac;
   >= 1.0 * ac;
   == ac;
    }
  }

  lemma GapOfMultiples(k: int, f: int, grid: real)
    ensures k as real * grid - f as real * grid == (k - f) as real * grid
  {
  }

  /** Snapping picks a nearest grid point: no multiple of the grid is closer
      to the value than the result. */
  lemma RoundGridNearest(value: real, grid: real, k: int)
    requires grid != 0.0
    ensures Abs(RoundGrid(value, grid) - value) <= Abs(k as real * grid - value)
  {
    var f := ChosenIndex(value, grid);
    RoundGridWithinHalfStep(value, grid);
    NearerStep(value, grid, RoundGrid(value, grid), f, k);
  }

  /** A multiple within half a step of value is at least as close as any
      other multiple, since two different multiples are a whole step apart. */
  lemma NearerStep(value: real, grid: real, r: real, f: int, k: int)
    requires grid != 0.0 && r == f as real * grid && Abs(r - value) <= Abs(grid) / 2.0
    ensures Abs(r - value) <= Abs(k as real * grid - value)
  {
    if k != f {
      var q := k as real * grid;
      assert Abs(q - r) >= Abs(grid) by {
        GapOfMultiples(k, f, grid);
        AbsProductAtLeast((k - f) as real, grid);
      }
    }
  }

  /** A multiple of the grid is its own grid point. */
  lemma IndexOfMultiple(r: real, k: int, grid: real)
    requires grid != 0.0 && r == k as real * grid
    ensures GridIndex(r, grid) == k
  {
    CancelGrid(r, k as real, grid);
    assert r / grid + 0.5 == k as real + 0.5;
  }

  /** Snapping a snapped value changes nothing. */
  lemma RoundGridIdempotent(value: real, grid: real)
    ensures RoundGrid(RoundGrid(value, grid), grid) == RoundGrid(value, grid)
  {
    if grid != 0.0 {
      var k := ChosenIndex(value, grid);
      var r := RoundGrid(value, grid);
      IndexOfMultiple(r, k, grid);
      GridIndexBounds(r, grid);
    }
  }

  lemma QuotientMonotone(v: real, w: real, grid: real)
    requires v <= w && grid > 0.0
    ensures v / grid <= w / grid
  {
    assert w / grid - v / grid == (w - v) / grid;
    QuotientNonNegative(w - v, grid);
  }

  lemma FloorMonotone(x: real, y: real)
    requires x <= y
    ensures x.Floor <= y.Floor
  {
  }

  /** For a positive grid, snapping keeps the order of values. */
  lemma RoundGridMonotone(v: real, w: real, grid: real)
    requires v <= w && grid > 0.0
    ensures RoundGrid(v, grid) <= RoundGrid(w, grid)
  {
    var i := ChosenIndex(v, grid);
    var j := ChosenIndex(w, grid);
    QuotientMonotone(v, w, grid);
    FloorMonotone(v / grid + 0.5, w / grid + 0.5);
    GridIndexBounds(v, grid);
    GridIndexBounds(w, grid);
    assert i == GridIndex(v, grid) && j == GridIndex(w, grid);
    ProductNonNegative((j - i) as real, grid);
    assert j as real * grid - i as real * grid == (j - i) as real * grid;
  }
}
