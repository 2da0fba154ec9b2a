/** The escape-time evaluator shared by the Rust and the Python renderer,
    over real numbers (an idealisation of the sources' f32 and f64).

    The sources start the iteration at z = c and count that first iterate
    as 1, so Orbit(c, 1) == c, Orbit(c, 2) == c*c + c, and so on. */
module Escape {

  /** A point of the complex plane: x is the real part, y the imaginary part. */
  datatype Point = Point(x: real, y: real)

  function SquaredModulus(z: Point): real {
    z.x * z.x + z.y * z.y
  }

  /** The loops keep going while x2 + y2 < 4.0; a point has escaped once that fails. */
  predicate Escaped(z: Point) {
    SquaredModulus(z) >= 4.0
  }

  /** One step of z -> z*z + c, with the operations the sources use. */
  function Step(c: Point, z: Point): Point {
    Point(z.x * z.x - z.y * z.y + c.x, z.x * z.y * 2.0 + c.y)
  }

  /** The n-th iterate of c, counted from 1. */
  function Orbit(c: Point, n: nat): Point {
    if n <= 1 then c else Step(c, Orbit(c, n - 1))
  }

  /** The first index in [i, max) whose iterate has escaped, or -1 if there is none. */
  function FirstEscapeFrom(c: Point, i: int, max: int): (r: int)
    requires 1 <= i
    ensures r == -1 || i <= r < max
    decreases max - i
  {
    if i >= max then -1
    else if Escaped(Orbit(c, i)) then i
    else FirstEscapeFrom(c, i + 1, max)
  }

  /** The reference meaning of `mandelzahl` / `__mandelzahl`: -1 ("bounded")
      or the escape iteration, which is at least 1 and below the cap. */
  function EscapeTime(c: Point, max: int): (r: int)
    ensures r == -1 || 1 <= r < max
  {
    FirstEscapeFrom(c, 1, max)
  }

  lemma {:induction false} FirstEscapeFromIs(c: Point, i: int, max: int, n: int)
    requires 1 <= i <= n
    ensures FirstEscapeFrom(c, i, max) == n
        ==> n < max && Escaped(Orbit(c, n)) && forall m :: i <= m < n ==> !Escaped(Orbit(c, m))
    ensures n < max && Escaped(Orbit(c, n)) && (forall m :: i <= m < n ==> !Escaped(Orbit(c, m)))
        ==> FirstEscapeFrom(c, i, max) == n
    decreases max - i
  {
    if i < max && !Escaped(Orbit(c, i)) && i < n {
      FirstEscapeFromIs(c, i + 1, max, n);
    }
  }

  lemma {:induction false} FirstEscapeFromNone(c: Point, i: int, max: int)
    requires 1 <= i
    ensures FirstEscapeFrom(c, i, max) == -1 ==> forall m :: i <= m < max ==> !Escaped(Orbit(c, m))
    ensures (forall m :: i <= m < max ==> !Escaped(Orbit(c, m))) ==> FirstEscapeFrom(c, i, max) == -1
    decreases max - i
  {
    if i < max && !Escaped(Orbit(c, i)) {
      FirstEscapeFromNone(c, i + 1, max);
    }
  }

  /** A positive result n is exactly the first iterate below the cap that has escaped. */
  lemma EscapeTimeIsFirstEscape(c: Point, max: int, n: int)
    requires n >= 1
    ensures EscapeTime(c, max) == n
        ==> n < max && Escaped(Orbit(c, n)) && forall m :: 1 <= m < n ==> !Escaped(Orbit(c, m))
    ensures n < max && Escaped(Orbit(c, n)) && (forall m :: 1 <= m < n ==> !Escaped(Orbit(c, m)))
        ==> EscapeTime(c, max) == n
  {
    FirstEscapeFromIs(c, 1, max, n);
  }

  /** The sentinel -1 is returned exactly when no iterate below the cap has escaped. */
  lemma EscapeTimeBounded(c: Point, max: int)
    ensures EscapeTime(c, max) == -1 ==> forall m :: 1 <= m < max ==> !Escaped(Orbit(c, m))
    ensures (forall m :: 1 <= m < max ==> !Escaped(Orbit(c, m))) ==> EscapeTime(c, max) == -1
  {
    FirstEscapeFromNone(c, 1, max);
  }

  lemma OrbitNext(c: Point, n: nat, z: Point)
    requires n >= 1 && Orbit(c, n) == z
    ensures Orbit(c, n + 1) == Step(c, z)
  {
  }

  /** The shape of the sources' loop: test the cap, test escape, take a step. */
  function EscapeFrom(c: Point, z: Point, i: int, max: int): (r: int)
    requires 1 <= i
    decreases max - i
  {
    if i >= max then -1
    else if Escaped(z) then i
    else EscapeFrom(c, Step(c, z), i + 1, max)
  }

  /** One turn of the sources' loop body: from iterate z, held as (zx, zy)
      with x2 = zx*zx and y2 = zy*zy, the updates `zy = zx*zy*2 + cy` and
      `zx = x2 - y2 + cx` take the loop to the next iterate, and the rest of
      the run is unchanged. */
  lemma LoopBodyStep(c: Point, zx: real, zy: real, x2: real, y2: real, i: int, max: int)
    requires 1 <= i < max && x2 == zx * zx && y2 == zy * zy && x2 + y2 < 4.0
    ensures EscapeFrom(c, Point(x2 - y2 + c.x, zx * zy * 2.0 + c.y), i + 1, max)
         == EscapeFrom(c, Point(zx, zy), i, max)
  {
    assert !Escaped(Point(zx, zy));
    assert Step(c, Point(zx, zy)) == Point(x2 - y2 + c.x, zx * zy * 2.0 + c.y);
  }

  /** Where the sources' loop stops: at the cap with -1, otherwise at an
      iterate that has escaped, with its index. */
  lemma LoopExit(c: Point, zx: real, zy: real, x2: real, y2: real, i: int, max: int)
    requires 1 <= i && x2 == zx * zx && y2 == zy * zy && !(i < max && x2 + y2 < 4.0)
    ensures EscapeFrom(c, Point(zx, zy), i, max) == if i >= max then -1 else i
  {
  }

  /** Running the loop from iterate i gives the first escape from i. */
  lemma {:induction false} EscapeFromOrbit(c: Point, i: int, max: int)
    requires 1 <= i
    ensures EscapeFrom(c, Orbit(c, i), i, max) == FirstEscapeFrom(c, i, max)
    decreases max - i
  {
    if i < max && !Escaped(Orbit(c, i)) {
      OrbitNext(c, i, Orbit(c, i));
      EscapeFromOrbit(c, i + 1, max);
    }
  }

  /** A cap of 1 or less stops the loop before its first step. */
  lemma SmallCapIsBounded(c: Point, max: int)
    requires max <= 1
    ensures EscapeTime(c, max) == -1
  {
  }

  /** A start point with squared modulus 4 or more escapes at the first test. */
  lemma OutsideEscapesAtOnce(c: Point, max: int)
    requires max > 1 && SquaredModulus(c) >= 4.0
    ensures EscapeTime(c, max) == 1
  {
  }

  /** The escape iteration of a point does not depend on the cap, once the cap exceeds it. */
  lemma EscapeTimeStable(c: Point, max: int, max': int)
    requires EscapeTime(c, max) >= 1 && EscapeTime(c, max) < max'
    ensures EscapeTime(c, max') == EscapeTime(c, max)
  {
    var n := EscapeTime(c, max);
    EscapeTimeIsFirstEscape(c, max, n);
    EscapeTimeIsFirstEscape(c, max', n);
  }

  /** A point found bounded under some cap is found bounded under every smaller cap. */
  lemma BoundedUnderSmallerCap(c: Point, max: int, max': int)
    requires EscapeTime(c, max) == -1 && max' <= max
    ensures EscapeTime(c, max') == -1
  {
    EscapeTimeBounded(c, max);
    EscapeTimeBounded(c, max');
  }

  /** 0 * 0 + 0 == 0, so the origin is a fixed point of one step. */
  lemma OriginStep(c: Point, n: nat)
    requires n > 1 && c == Point(0.0, 0.0) && Orbit(c, n - 1) == c
    ensures Orbit(c, n) == c
  {
  }

  /** The origin is a fixed point of every step, so its orbit stays at 0. */
  lemma {:induction false} OriginOrbit(c: Point, n: nat)
    requires c == Point(0.0, 0.0)
    ensures Orbit(c, n) == c
  {
    if n > 1 {
      OriginOrbit(c, n - 1);
      OriginStep(c, n);
    }
  }

  /** The origin never escapes, whatever the cap. */
  lemma OriginIsBounded(max: int)
    ensures EscapeTime(Point(0.0, 0.0), max) == -1
  {
    forall m | 1 <= m < max
      ensures !Escaped(Orbit(Point(0.0, 0.0), m))
    {
      OriginOrbit(Point(0.0, 0.0), m);
    }
    EscapeTimeBounded(Point(0.0, 0.0), max);
  }

  /** One step from a real z with |z| <= 1/2, for a real c with |c| <= 1/4,
      stays real and within 1/2. */
  lemma RealAxisStep(c: Point, z: Point)
    requires c.y == 0.0 && -0.25 <= c.x <= 0.25
    requires z.y == 0.0 && -0.5 <= z.x <= 0.5
    ensures Step(c, z).y == 0.0 && -0.5 <= Step(c, z).x <= 0.5
  {
    assert 0.0 <= z.x * z.x <= 0.25 by {
      if z.x < 0.0 {
        assert (-z.x) * (-z.x) <= 0.5 * (-z.x);
      } else {
        assert z.x * z.x <= 0.5 * z.x;
      }
    }
  }

  lemma {:induction false} RealAxisOrbit(c: Point, n: nat)
    requires c.y == 0.0 && -0.25 <= c.x <= 0.25
    ensures Orbit(c, n).y == 0.0 && -0.5 <= Orbit(c, n).x <= 0.5
  {
    if n > 1 {
      RealAxisOrbit(c, n - 1);
      RealAxisStep(c, Orbit(c, n - 1));
    }
  }

  /** Every point of the real axis within 1/4 of the origin stays within 1/2 of it,
      so it never escapes. */
  lemma RealAxisNearOriginIsBounded(c: Point, max: int)
    requires c.y == 0.0 && -0.25 <= c.x <= 0.25
    ensures EscapeTime(c, max) == -1
  {
    forall m | 1 <= m < max
      ensures !Escaped(Orbit(c, m))
    {
      RealAxisOrbit(c, m);
      var z := Orbit(c, m);
      assert z.x * z.x <= 0.25 by {
        if z.x < 0.0 {
          assert (-z.x) * (-z.x) <= 0.5 * (-z.x);
        } else {
          assert z.x * z.x <= 0.5 * z.x;
        }
      }
    }
    EscapeTimeBounded(c, max);
  }
}

/** The fixed window of the plane both renderers draw: real axis [-2, 1),
    imaginary axis [-1, 1), stretched over the requested grid. */
module Viewport {
  import opened Escape

  /** How many times `for _ in 0..n` (Rust) or `for _ in range(0, n)` (Python) iterates. */
  function RangeLength(n: int): (r: nat)
    ensures n <= 0 ==> r == 0
    ensures n >= 0 ==> r == n
  {
    if n < 0 then 0 else n
  }

  /** x = -2.0 + j * (3.0 / w) */
  function ColumnX(j: int, w: int): real
    requires w != 0
  {
    -2.0 + (j as real) * (3.0 / (w as real))
  }

  /** y = -1.0 + k * (2.0 / h) */
  function RowY(k: int, h: int): real
    requires h != 0
  {
    -1.0 + (k as real) * (2.0 / (h as real))
  }

  /** The escape time of the cell in column j, row k of a w x h grid. A zero
      dimension has no cells, so the value -1 given for it is never looked at. */
  function CellEscape(w: int, h: int, max: int, k: int, j: int): int {
    if w != 0 && h != 0 then EscapeTime(Point(ColumnX(j, w), RowY(k, h)), max) else -1
  }

  /** The point the renderers' loops compute for cell (k, j) from the
      precomputed steps `3.0 / w` and `2.0 / h` is that cell's point. */
  lemma CellFromSteps(w: int, h: int, max: int, k: int, j: int, stepW: real, stepH: real)
    requires w != 0 && h != 0 && stepW == 3.0 / (w as real) && stepH == 2.0 / (h as real)
    ensures EscapeTime(Point(-2.0 + (j as real) * stepW, -1.0 + (k as real) * stepH), max)
         == CellEscape(w, h, max, k, j)
  {
    ColumnXFromStep(j, w, stepW);
    RowYFromStep(k, h, stepH);
  }

  /** The renderers compute x from a precomputed step `3.0 / w`. */
  lemma ColumnXFromStep(j: int, w: int, step: real)
    requires w != 0 && step == 3.0 / (w as real)
    ensures -2.0 + (j as real) * step == ColumnX(j, w)
  {
  }

  /** The renderers compute y from a precomputed step `2.0 / h`. */
  lemma RowYFromStep(k: int, h: int, step: real)
    requires h != 0 && step == 2.0 / (h as real)
    ensures -1.0 + (k as real) * step == RowY(k, h)
  {
  }

  /** Columns start at the left edge, go strictly rightwards and stay left of 1. */
  lemma ColumnXInWindow(j: int, w: int)
    requires 0 <= j < w
    ensures -2.0 <= ColumnX(j, w) < 1.0
    ensures j == 0 ==> ColumnX(j, w) == -2.0
    ensures j > 0 ==> ColumnX(j - 1, w) < ColumnX(j, w)
  {
    var s := 3.0 / (w as real);
    assert s > 0.0;
    assert (j as real) * s < (w as real) * s;
    assert (w as real) * s == 3.0;
    assert ((j - 1) as real) * s == (j as real) * s - s;
  }

  /** Rows start at the bottom edge (-1), go strictly upwards and stay below 1. */
  lemma RowYInWindow(k: int, h: int)
    requires 0 <= k < h
    ensures -1.0 <= RowY(k, h) < 1.0
    ensures k == 0 ==> RowY(k, h) == -1.0
    ensures k > 0 ==> RowY(k - 1, h) < RowY(k, h)
  {
    var s := 2.0 / (h as real);
    assert s > 0.0;
    assert (k as real) * s < (h as real) * s;
    assert (h as real) * s == 2.0;
    assert ((k - 1) as real) * s == (k as real) * s - s;
  }
}
