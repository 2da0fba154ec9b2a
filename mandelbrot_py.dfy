/** The native Python renderer: `__mandelzahl` and `mandel`. Python floats
    are idealised as real numbers. The builder calls are modelled as the
    evident intent (see README): `StringBuilder` from util.py, one `Add`
    per glyph, and the builder's text as the result. */
module MandelbrotPy {
  import opened Escape
  import opened Viewport
  import opened Util

  /** `'-'` for a point that escaped, `'*'` for one found bounded. */
  function Glyph(mz: int): char {
    if mz > 0 then '-' else '*'
  }

  /** `__mandelzahl`: the same loop as the Rust library's, over an unbounded int cap. */
  method Mandelzahl(cx: real, cy: real, max: int) returns (r: int)
    ensures r == EscapeTime(Point(cx, cy), max)
  {
    ghost var c := Point(cx, cy);
    var zx, zy := cx, cy;
    var i := 1;
    var x2, y2 := zx * zx, zy * zy;
    EscapeFromOrbit(c, 1, max);
    while i < max && x2 + y2 < 4.0
      invariant 1 <= i && (i <= max || i == 1)
      invariant x2 == zx * zx && y2 == zy * zy
      invariant EscapeFrom(c, Point(zx, zy), i, max) == EscapeTime(c, max)
      decreases max - i
    {
      LoopBodyStep(c, zx, zy, x2, y2, i, max);
      zy := zx * zy * 2.0 + cy;
      zx := x2 - y2 + cx;
      i := i + 1;
      x2 := zx * zx;
      y2 := zy * zy;
    }
    LoopExit(c, zx, zy, x2, y2, i, max);
    if i >= max {
      r := -1;
    } else {
      r := i;
    }
  }

  /** The first n glyphs of row k. */
  function RowGlyphs(w: int, h: int, max: int, k: int, n: nat): (s: string)
    ensures |s| == n
  {
    if n == 0 then "" else RowGlyphs(w, h, max, k, n - 1) + [Glyph(CellEscape(w, h, max, k, n - 1))]
  }

  /** The first n rows, one after the other with nothing between them. */
  function Rows(w: int, h: int, max: int, n: nat): string {
    if n == 0 then "" else Rows(w, h, max, n - 1) + RowGlyphs(w, h, max, n - 1, RangeLength(w))
  }

  /** The text `mandel(w, h, max)` builds. */
  function PyGrid(w: int, h: int, max: int): string {
    Rows(w, h, max, RangeLength(h))
  }

  datatype MandelResult = Rendered(text: string) | ZeroDivisionError

  /** `mandel`: a zero dimension fails in `2.0 / float(h)` or `3.0 / float(w)`
      before any glyph is added; otherwise the builder collects one glyph per cell. */
  method Mandel(w: int, h: int, max: int) returns (r: MandelResult)
    ensures r.ZeroDivisionError? <==> (w == 0 || h == 0)
    ensures r.Rendered? ==> r.text == PyGrid(w, h, max)
  {
    ghost var width := RangeLength(w);
    var sb := new StringBuilder();
    if h == 0 {
      return ZeroDivisionError;
    }
    var stepH := 2.0 / (h as real);
    if w == 0 {
      return ZeroDivisionError;
    }
    var stepW := 3.0 / (w as real);
    var k := 0;
    while k < h
      invariant 0 <= k <= RangeLength(h)
      invariant sb.Valid()
      invariant sb.contents == Rows(w, h, max, k)
    {
      var y := -1.0 + (k as real) * stepH;
      var j := 0;
      while j < w
        invariant 0 <= j <= width
        invariant sb.Valid()
        invariant sb.contents == Rows(w, h, max, k) + RowGlyphs(w, h, max, k, j)
      {
        var x := -2.0 + (j as real) * stepW;
        var mz := Mandelzahl(x, y, max);
        CellFromSteps(w, h, max, k, j, stepW, stepH);
        if mz > 0 {
          sb.Add("-");
        } else {
          sb.Add("*");
        }
        j := j + 1;
      }
      k := k + 1;
    }
    var text := sb.Str();
    return Rendered(text);
  }

  lemma {:induction false} RowGlyphsAt(w: int, h: int, max: int, k: int, n: nat, j: int)
    requires 0 <= j < n
    ensures RowGlyphs(w, h, max, k, n)[j] == Glyph(CellEscape(w, h, max, k, j))
  {
    if j < n - 1 {
      RowGlyphsAt(w, h, max, k, n - 1, j);
    }
  }

  lemma {:induction false} RowsLength(w: int, h: int, max: int, n: nat)
    ensures |Rows(w, h, max, n)| == n * RangeLength(w)
  {
    if n > 0 {
      RowsLength(w, h, max, n - 1);
      var width := RangeLength(w);
      assert |Rows(w, h, max, n)| == |Rows(w, h, max, n - 1)| + width;
      assert (n - 1) * width + width == n * width;
    }
  }

  /** Earlier rows are never rewritten: the first k rows are a prefix of the first n. */
  lemma {:induction false} RowsPrefix(w: int, h: int, max: int, k: nat, n: nat)
    requires k <= n
    ensures |Rows(w, h, max, k)| <= |Rows(w, h, max, n)|
    ensures Rows(w, h, max, n)[..|Rows(w, h, max, k)|] == Rows(w, h, max, k)
  {
    if k < n {
      RowsPrefix(w, h, max, k, n - 1);
      var prev := Rows(w, h, max, n - 1);
      var m := |Rows(w, h, max, k)|;
      assert Rows(w, h, max, n) == prev + RowGlyphs(w, h, max, n - 1, RangeLength(w));
      assert Rows(w, h, max, n)[..m] == prev[..m];
    }
  }

  /** Row k follows the first k rows. */
  lemma RowsAt(w: int, h: int, max: int, n: nat, k: nat, j: nat)
    requires k < n && j < RangeLength(w)
    ensures |Rows(w, h, max, k)| + j < |Rows(w, h, max, n)|
    ensures Rows(w, h, max, n)[|Rows(w, h, max, k)| + j] == Glyph(CellEscape(w, h, max, k, j))
  {
    RowsPrefix(w, h, max, k + 1, n);
    var before := Rows(w, h, max, k);
    var row := RowGlyphs(w, h, max, k, RangeLength(w));
    var upto := Rows(w, h, max, k + 1);
    assert upto == before + row;
    assert Rows(w, h, max, n)[|before| + j] == upto[|before| + j];
    RowGlyphsAt(w, h, max, k, RangeLength(w), j);
    assert upto[|before| + j] == row[j];
  }

  /** One glyph per iteration of the two loops. */
  lemma PyGridLength(w: int, h: int, max: int)
    ensures |PyGrid(w, h, max)| == RangeLength(h) * RangeLength(w)
  {
    RowsLength(w, h, max, RangeLength(h));
  }

  /** For positive w and h the text is h rows of w glyphs, rows in increasing k;
      position k * w + j is '-' exactly when the point at column j, row k escaped. */
  lemma PyGridLayout(w: int, h: int, max: int, k: int, j: int)
    requires 0 <= k < h && 0 <= j < w
    ensures k * w + j < |PyGrid(w, h, max)|
    ensures PyGrid(w, h, max)[k * w + j] == Glyph(EscapeTime(Point(ColumnX(j, w), RowY(k, h)), max))
  {
    RowsLength(w, h, max, k);
    RowsAt(w, h, max, h, k, j);
  }

  /** A negative dimension (the other one not zero) renders nothing. */
  lemma PyGridNegative(w: int, h: int, max: int)
    requires w < 0 || h < 0
    ensures PyGrid(w, h, max) == ""
  {
    RowsLength(w, h, max, RangeLength(h));
  }

  lemma {:induction false} RowGlyphsChars(w: int, h: int, max: int, k: int, n: nat)
    ensures forall i :: 0 <= i < n ==> RowGlyphs(w, h, max, k, n)[i] in {'-', '*'}
  {
    if n > 0 {
      RowGlyphsChars(w, h, max, k, n - 1);
      assert RowGlyphs(w, h, max, k, n) == RowGlyphs(w, h, max, k, n - 1) + [Glyph(CellEscape(w, h, max, k, n - 1))];
    }
  }

  lemma {:induction false} RowsChars(w: int, h: int, max: int, n: nat)
    ensures forall i :: 0 <= i < |Rows(w, h, max, n)| ==> Rows(w, h, max, n)[i] in {'-', '*'}
  {
    if n > 0 {
      RowsChars(w, h, max, n - 1);
      RowGlyphsChars(w, h, max, n - 1, RangeLength(w));
      assert Rows(w, h, max, n) == Rows(w, h, max, n - 1) + RowGlyphs(w, h, max, n - 1, RangeLength(w));
    }
  }

  /** Every character of the text is '-' or '*'. */
  lemma PyGridGlyphs(w: int, h: int, max: int)
    ensures forall i :: 0 <= i < |PyGrid(w, h, max)| ==> PyGrid(w, h, max)[i] in {'-', '*'}
  {
    RowsChars(w, h, max, RangeLength(h));
  }

  /** A 1 x 1 grid is the single cell (-2, -1), which lies outside radius 2. */
  lemma SingleCellGrid()
    ensures PyGrid(1, 1, 100000) == "-"
  {
    var c := Point(ColumnX(0, 1), RowY(0, 1));
    assert c == Point(-2.0, -1.0);
    OutsideEscapesAtOnce(c, 100000);
    assert RowGlyphs(1, 1, 100000, 0, 1) == "-";
    assert Rows(1, 1, 100000, 1) == "" + "-";
  }
}
