/** The Rust library compiled to WebAssembly: the escape-time counter
    `mandelzahl`, the grid renderer `mandel` and the greeting `greet`.
    f32 arithmetic is idealised as real arithmetic. */
module MandelbrotRs {
  import opened Escape
  import opened Viewport
  import opened CString

  newtype i32 = x: int | -0x8000_0000 <= x < 0x8000_0000

  const DASH: byte := 45     // b'-'
  const STAR: byte := 42     // b'*'
  const NEWLINE: byte := 10  // b'\n'
  const BANG: byte := 33     // b'!'

  /** `'-'` for a point that escaped, `'*'` for one found bounded. */
  function Glyph(mz: int): byte {
    if mz > 0 then DASH else STAR
  }

  /** `mandelzahl`: the counter i starts at 1 and the loop stops at the cap or
      at escape. The i32 counter cannot overflow, since it only grows while below max. */
  method Mandelzahl(cx: real, cy: real, max: i32) returns (r: i32)
    ensures r as int == EscapeTime(Point(cx, cy), max as int)
  {
    ghost var c := Point(cx, cy);
    var zx, zy := cx, cy;
    var i: i32 := 1;
    var x2, y2 := zx * zx, zy * zy;
    EscapeFromOrbit(c, 1, max as int);
    while i < max && x2 + y2 < 4.0
      invariant 1 <= i && (i <= max || i == 1)
      invariant x2 == zx * zx && y2 == zy * zy
      invariant EscapeFrom(c, Point(zx, zy), i as int, max as int) == EscapeTime(c, max as int)
      decreases max as int - i as int
    {
      LoopBodyStep(c, zx, zy, x2, y2, i as int, max as int);
      zy := zx * zy * 2.0 + cy;
      zx := x2 - y2 + cx;
      i := i + 1;
      x2 := zx * zx;
      y2 := zy * zy;
    }
    LoopExit(c, zx, zy, x2, y2, i as int, max as int);
    if i >= max {
      r := -1;
    } else {
      r := i;
    }
  }

  /** The first n glyphs of row k. */
  function RowGlyphs(w: int, h: int, max: int, k: int, n: nat): (s: seq<byte>)
    ensures |s| == n
  {
    if n == 0 then [] else RowGlyphs(w, h, max, k, n - 1) + [Glyph(CellEscape(w, h, max, k, n - 1))]
  }

  /** The first n rows, each closed by a newline. */
  function Rows(w: int, h: int, max: int, n: nat): seq<byte> {
    if n == 0 then [] else Rows(w, h, max, n - 1) + RowGlyphs(w, h, max, n - 1, RangeLength(w)) + [NEWLINE]
  }

  /** The whole output of `mandel(w, h, max)`, before the C-string terminator. */
  function RsGrid(w: int, h: int, max: int): seq<byte> {
    Rows(w, h, max, RangeLength(h))
  }

  lemma {:induction false} RowGlyphsAt(w: int, h: int, max: int, k: int, n: nat, j: int)
    requires 0 <= j < n
    ensures RowGlyphs(w, h, max, k, n)[j] == Glyph(CellEscape(w, h, max, k, j))
  {
    if j < n - 1 {
      RowGlyphsAt(w, h, max, k, n - 1, j);
    }
  }

  lemma {:induction false} RowsLength(w: int, h: int, max: int, n: nat)
    ensures |Rows(w, h, max, n)| == n * (RangeLength(w) + 1)
  {
    if n > 0 {
      RowsLength(w, h, max, n - 1);
      assert n * (RangeLength(w) + 1) == (n - 1) * (RangeLength(w) + 1) + RangeLength(w) + 1;
    }
  }

  /** Earlier rows are never rewritten: the first k rows are a prefix of the first n. */
  lemma {:induction false} RowsPrefix(w: int, h: int, max: int, k: nat, n: nat)
    requires k <= n
    ensures |Rows(w, h, max, k)| <= |Rows(w, h, max, n)|
    ensures Rows(w, h, max, n)[..|Rows(w, h, max, k)|] == Rows(w, h, max, k)
  {
    if k < n {
      RowsPrefix(w, h, max, k, n - 1);
      var prev := Rows(w, h, max, n - 1);
      var m := |Rows(w, h, max, k)|;
      assert Rows(w, h, max, n) == prev + (RowGlyphs(w, h, max, n - 1, RangeLength(w)) + [NEWLINE]);
      assert Rows(w, h, max, n)[..m] == prev[..m];
    }
  }

  /** Row k follows the first k rows: its glyphs, then its newline. */
  lemma RowsAt(w: int, h: int, max: int, n: nat, k: nat, j: nat)
    requires k < n && j <= RangeLength(w)
    ensures |Rows(w, h, max, k)| + j < |Rows(w, h, max, n)|
    ensures Rows(w, h, max, n)[|Rows(w, h, max, k)| + j]
         == if j == RangeLength(w) then NEWLINE else Glyph(CellEscape(w, h, max, k, j))
  {
    RowsPrefix(w, h, max, k + 1, n);
    var before := Rows(w, h, max, k);
    var row := RowGlyphs(w, h, max, k, RangeLength(w));
    var upto := Rows(w, h, max, k + 1);
    assert upto == before + row + [NEWLINE];
    assert Rows(w, h, max, n)[|before| + j] == upto[|before| + j];
    if j < RangeLength(w) {
      RowGlyphsAt(w, h, max, k, RangeLength(w), j);
      assert upto[|before| + j] == row[j];
    }
  }

  /** One row per iteration of the outer loop, each of one glyph per
      iteration of the inner loop plus its newline. */
  lemma RsGridLength(w: int, h: int, max: int)
    ensures |RsGrid(w, h, max)| == RangeLength(h) * (RangeLength(w) + 1)
    ensures h <= 0 ==> RsGrid(w, h, max) == []
  {
    RowsLength(w, h, max, RangeLength(h));
  }

  /** The layout of a rendered grid: h rows of w glyphs, each row closed by a
      newline, rows in increasing k; cell (k, j) is '-' exactly when the point
      at column j, row k escaped. */
  lemma RsGridLayout(w: int, h: int, max: int, k: int, j: int)
    requires 0 <= k < h && 0 <= j <= RangeLength(w)
    ensures k * (RangeLength(w) + 1) + j < |RsGrid(w, h, max)|
    ensures RsGrid(w, h, max)[k * (RangeLength(w) + 1) + j]
         == if j == RangeLength(w) then NEWLINE
            else Glyph(EscapeTime(Point(ColumnX(j, w), RowY(k, h)), max))
  {
    RowsLength(w, h, max, k);
    RowsAt(w, h, max, RangeLength(h), k, j);
  }

  lemma {:induction false} RowGlyphsBytes(w: int, h: int, max: int, k: int, n: nat)
    ensures forall i :: 0 <= i < n ==> RowGlyphs(w, h, max, k, n)[i] in {DASH, STAR}
  {
    if n > 0 {
      RowGlyphsBytes(w, h, max, k, n - 1);
      assert RowGlyphs(w, h, max, k, n) == RowGlyphs(w, h, max, k, n - 1) + [Glyph(CellEscape(w, h, max, k, n - 1))];
    }
  }

  lemma {:induction false} RowsBytes(w: int, h: int, max: int, n: nat)
    ensures forall i :: 0 <= i < |Rows(w, h, max, n)| ==> Rows(w, h, max, n)[i] in {DASH, STAR, NEWLINE}
  {
    if n > 0 {
      RowsBytes(w, h, max, n - 1);
      RowGlyphsBytes(w, h, max, n - 1, RangeLength(w));
      var prev := Rows(w, h, max, n - 1);
      var row := RowGlyphs(w, h, max, n - 1, RangeLength(w));
      assert Rows(w, h, max, n) == prev + row + [NEWLINE];
    }
  }

  /** Every byte of a rendered grid is '-', '*' or '\n'; in particular none is NUL. */
  lemma RsGridBytes(w: int, h: int, max: int)
    ensures forall i :: 0 <= i < |RsGrid(w, h, max)| ==> RsGrid(w, h, max)[i] in {DASH, STAR, NEWLINE}
  {
    RowsBytes(w, h, max, RangeLength(h));
  }

  /** `mandel`: the glyph buffer built row by row. Every byte is '-', '*' or
      '\n', so none is NUL, which `CString::from_vec_unchecked` relies on. */
  method Mandel(w: i32, h: i32, max: i32) returns (output: seq<byte>)
    ensures output == RsGrid(w as int, h as int, max as int)
    ensures forall i :: 0 <= i < |output| ==> output[i] in {DASH, STAR, NEWLINE}
  {
    ghost var width := RangeLength(w as int);
    // Rust divides in f32: 2.0 / 0 and 3.0 / 0 are +inf, but a zero
    // dimension leaves its loop empty, so the step is then never used.
    var stepH, stepW := 0.0, 0.0;
    if h != 0 {
      stepH := 2.0 / (h as real);
    }
    if w != 0 {
      stepW := 3.0 / (w as real);
    }
    output := [];
    var k: i32 := 0;
    while k < h
      invariant 0 <= k as int <= RangeLength(h as int)
      invariant output == Rows(w as int, h as int, max as int, k as int)
    {
      var y := -1.0 + (k as real) * stepH;
      var j: i32 := 0;
      while j < w
        invariant 0 <= j as int <= width
        invariant output == Rows(w as int, h as int, max as int, k as int) + RowGlyphs(w as int, h as int, max as int, k as int, j as int)
      {
        var x := -2.0 + (j as real) * stepW;
        var mz := Mandelzahl(x, y, max);
        CellFromSteps(w as int, h as int, max as int, k as int, j as int, stepW, stepH);
        if mz > 0 {
          output := output + [DASH];
        } else {
          output := output + [STAR];
        }
        j := j + 1;
      }
      output := output + [NEWLINE];
      k := k + 1;
    }
    RsGridBytes(w as int, h as int, max as int);
  }

  /** A 1 x 1 grid is the single cell (-2, -1), which lies outside radius 2. */
  lemma SingleCellGrid()
    ensures RsGrid(1, 1, 100000) == [DASH, NEWLINE]
  {
    var c := Point(ColumnX(0, 1), RowY(0, 1));
    assert c == Point(-2.0, -1.0);
    OutsideEscapesAtOnce(c, 100000);
    assert RowGlyphs(1, 1, 100000, 0, 1) == [DASH];
    assert Rows(1, 1, 100000, 1) == [] + [DASH] + [NEWLINE];
  }

  /** Column 93 of the middle row of a 140 x 50 grid is the point (-1/140, 0),
      on the real axis near the origin, so it is drawn '*'. */
  lemma NearOriginCell(w: int, h: int, max: int)
    requires w == 140 && h == 50
    ensures 25 * 141 + 93 < |RsGrid(w, h, max)|
    ensures RsGrid(w, h, max)[25 * 141 + 93] == STAR
  {
    var near := Point(ColumnX(93, w), RowY(25, h));
    assert near == Point(-1.0 / 140.0, 0.0);
    RealAxisNearOriginIsBounded(near, max);
    RowsLength(w, h, max, 25);
    RowsAt(w, h, max, h, 25, 93);
  }

  /** Column 0 of the middle row of a 140 x 50 grid is the point (-2, 0),
      on the circle of radius 2, so it is drawn '-'. */
  lemma LeftEdgeCell(w: int, h: int, max: int)
    requires w == 140 && h == 50 && max > 1
    ensures 25 * 141 < |RsGrid(w, h, max)|
    ensures RsGrid(w, h, max)[25 * 141] == DASH
  {
    var edge := Point(ColumnX(0, w), RowY(25, h));
    assert edge == Point(-2.0, 0.0);
    OutsideEscapesAtOnce(edge, max);
    RowsLength(w, h, max, 25);
    RowsAt(w, h, max, h, 25, 0);
  }

  /** The picture the WASM host draws, 140 x 50 with cap 100000: the cell of
      the middle row nearest the origin is '*', and the leftmost cell of that
      row, at (-2, 0), is '-'. */
  lemma ReferenceSilhouette(w: int, h: int, max: int)
    requires w == 140 && h == 50 && max == 100000
    ensures |RsGrid(w, h, max)| == 50 * 141
    ensures RsGrid(w, h, max)[25 * 141 + 93] == STAR
    ensures RsGrid(w, h, max)[25 * 141] == DASH
  {
    RsGridLength(w, h, max);
    NearOriginCell(w, h, max);
    LeftEdgeCell(w, h, max);
  }

  /** `sum`: i32 addition, which wraps on overflow in a release build. */
  function Sum(x: i32, y: i32): (r: i32)
    ensures (r as int - (x as int + y as int)) % 0x1_0000_0000 == 0
    ensures -0x8000_0000 <= x as int + y as int < 0x8000_0000 ==> r as int == x as int + y as int
  {
    ((x as int + y as int + 0x8000_0000) % 0x1_0000_0000 - 0x8000_0000) as i32
  }

  /** `greet`: "Hello, " then the subject up to its first NUL, then "!".
      `CStr::from_ptr` demands that a NUL terminates the subject within its buffer. */
  method Greet(subject: seq<byte>) returns (output: seq<byte>)
    requires 0 in subject
    ensures output == Ascii("Hello, ") + CStr(subject) + [BANG]
    ensures |CStr(subject)| < |subject| && subject[|CStr(subject)|] == 0
    ensures forall i :: 0 <= i < |output| ==> output[i] != 0
  {
    var s := CStr(subject);
    output := Ascii("Hello, ");
    output := output + s;
    output := output + [BANG];
  }
}
