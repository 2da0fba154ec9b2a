/** The two renderers side by side: the Rust library and the native Python
    module paint the same cells, the Rust one with a newline after each row. */
module Renderers {
  import opened Viewport
  import MandelbrotRs
  import MandelbrotPy

  /** Cell (k, j) sits at k * (w + 1) + j in the Rust bytes and at k * w + j in
      the Python text, and both hold the same glyph. */
  lemma SameCells(w: int, h: int, max: int, k: int, j: int)
    requires 0 <= k < h && 0 <= j < w
    ensures k * (w + 1) + j < |MandelbrotRs.RsGrid(w, h, max)|
    ensures k * w + j < |MandelbrotPy.PyGrid(w, h, max)|
    ensures MandelbrotRs.RsGrid(w, h, max)[k * (w + 1) + j] as int
         == MandelbrotPy.PyGrid(w, h, max)[k * w + j] as int
  {
    MandelbrotRs.RsGridLayout(w, h, max, k, j);
    MandelbrotPy.PyGridLayout(w, h, max, k, j);
  }

  /** The Rust output is one byte per row longer: the row terminators. */
  lemma LengthsDifferByRows(w: int, h: int, max: int)
    ensures |MandelbrotRs.RsGrid(w, h, max)| == |MandelbrotPy.PyGrid(w, h, max)| + RangeLength(h)
  {
    MandelbrotRs.RsGridLength(w, h, max);
    MandelbrotPy.PyGridLength(w, h, max);
    assert RangeLength(h) * (RangeLength(w) + 1) == RangeLength(h) * RangeLength(w) + RangeLength(h);
  }
}
