# Mandelbrot in Rust, WebAssembly and Python — a Dafny model

The repository renders an ASCII picture of the Mandelbrot set three ways:

- a Rust library compiled to WebAssembly (`mandelzahl`, `mandel`, `greet`, `sum`);
- a Python host that loads the WebAssembly module and prints the C strings
  the library hands back (`print_memory`);
- a native Python port (`__mandelzahl`, `mandel`), which writes into a small
  `StringBuilder`.

This project models those operations and proves what they compute.

- `escape.dfy` holds the shared escape-time evaluator.
  - `Escape.EscapeTime` is the reference meaning: the first iterate of
    z -> z*z + c, counted from 1, whose squared modulus reaches 4, below the
    cap. Otherwise it is -1.
  - `Viewport` maps grid cells to points of the window [-2, 1) x [-1, 1).
- `mandelbrot_rs.dfy` models the Rust library.
- `mandelbrot_py.dfy` models the native Python port.
- `util.dfy` models the Python `StringBuilder` class.
- `wasm_driver.dfy` models the Python host of the WebAssembly build,
  with its C-string reading.
- `cstring.dfy` holds bytes and the C-string convention.
- `renderers.dfy` relates the two renderers to each other.

Each loop of the sources is a Dafny `while` loop. It is proved against a
specification function: `EscapeTime` for the two escape loops, and the row
functions `Rows` / `RowGlyphs` for the two renderers.

- `Escape.EscapeFrom` is the shape of the source loop. The lemma
  `Escape.EscapeFromOrbit` connects it to the reference definition over the orbit.
- The layout lemmas (`RowsPrefix`, `RowsAt`, `RowsLength`) locate every
  glyph and every newline in the output.

Floating point (f32 in Rust, f64 in Python) is idealised as real arithmetic.

The native Python module does not run as written; the model follows its evident intent:

- it imports `StringBuilder` from a module `StringBuilder`, while the class
  is in `util.py` (src/mandelbrot-py-native/mandelbrot.py:1);
- it calls `sb.append`, while the class defines `Add` (lines 35 and 37);
- it returns the builder object, not its text (line 39).

The model imports the class from `util`, calls `Add` once per glyph and
returns the builder's text, i.e. what `__str__` gives.

## Model

| member | source | states |
|---|---|---|
| Escape.EscapeTime | src/mandelbrot-rs/src/lib.rs:13-32 | the escape count is -1 (bounded) or an index i with 1 <= i < max |
| Escape.EscapeTimeIsFirstEscape | src/mandelbrot-rs/src/lib.rs:16-31 | a positive result n holds exactly when iterate n is the first escaped iterate and n < max (both directions) |
| Escape.EscapeTimeBounded | src/mandelbrot-rs/src/lib.rs:20-28 | -1 is returned exactly when no iterate below the cap has escaped (both directions) |
| Escape.EscapeFromOrbit | src/mandelbrot-rs/src/lib.rs:14-31 | running the source loop from iterate i gives the first escape at or after i |
| Escape.LoopBodyStep | src/mandelbrot-rs/src/lib.rs:20-25 | one pass of the loop body (zy, then zx from x2 and y2) moves to the next iterate without changing the outcome |
| Escape.LoopExit | src/mandelbrot-rs/src/lib.rs:27-31 | when the loop stops, the result is -1 at the cap, else the current index, which has escaped |
| Escape.SmallCapIsBounded | src/mandelbrot-rs/src/lib.rs:16-28 | with max <= 1 the loop never runs and every point gives -1 |
| Escape.OutsideEscapesAtOnce | src/mandelbrot-rs/src/lib.rs:18-30 | a start point with cx*cx + cy*cy >= 4 and max > 1 gives 1 |
| Escape.EscapeTimeStable | src/mandelbrot-rs/src/lib.rs:20 | a positive escape count does not change when the cap is raised above it |
| Escape.BoundedUnderSmallerCap | src/mandelbrot-rs/src/lib.rs:20 | a point found bounded stays bounded under every smaller cap |
| Escape.OriginIsBounded | src/mandelbrot-rs/src/lib.rs:14-28 | the origin gives -1 for every cap, because its orbit stays 0 |
| Escape.RealAxisNearOriginIsBounded | src/mandelbrot-rs/src/lib.rs:14-28 | every real c with \|c\| <= 1/4 gives -1, since its orbit stays within 1/2 |
| Viewport.CellFromSteps | src/mandelbrot-rs/src/lib.rs:36-43 | the point computed from the precomputed steps is the point of cell (k, j) |
| Viewport.ColumnXInWindow | src/mandelbrot-rs/src/lib.rs:37-43 | columns start at -2, increase strictly and stay below 1 |
| Viewport.RowYInWindow | src/mandelbrot-rs/src/lib.rs:36-41 | rows start at -1, increase strictly and stay below 1 |
| MandelbrotRs.Mandelzahl | src/mandelbrot-rs/src/lib.rs:13-32 | `mandelzahl` returns the escape count of (cx, cy) under max |
| MandelbrotRs.Mandel | src/mandelbrot-rs/src/lib.rs:35-56 | the buffer is the row-by-row grid of glyphs and newlines, and every byte is '-', '*' or '\n' |
| MandelbrotRs.RsGridLength | src/mandelbrot-rs/src/lib.rs:40-54 | the output has RangeLength(h) * (RangeLength(w) + 1) bytes, where RangeLength(n) is n, or 0 when n <= 0; none when h <= 0 |
| MandelbrotRs.RsGridLayout | src/mandelbrot-rs/src/lib.rs:40-53 | byte k*(w+1)+w is '\n'; byte k*(w+1)+j, j < w, is '-' if cell (k, j) escaped, else '*'; rows come in increasing k |
| MandelbrotRs.RowsPrefix | src/mandelbrot-rs/src/lib.rs:40-54 | rows already emitted are never changed by later rows |
| MandelbrotRs.RsGridBytes | src/mandelbrot-rs/src/lib.rs:46-55 | every byte is '-', '*' or '\n', so none is NUL, as `CString::from_vec_unchecked` requires |
| MandelbrotRs.SingleCellGrid | src/mandelbrot-rs/src/lib.rs:35-55 | a 1 x 1 grid is "-\n", since (-2, -1) lies outside radius 2 |
| MandelbrotRs.ReferenceSilhouette | src/mandelbrot-py-wasm/mandelbrot.py:42-46 | in the 140 x 50 picture with cap 100000, the middle row's cell at (-1/140, 0) is '*' and its first cell is '-' |
| MandelbrotRs.Sum | src/mandelbrot-rs/src/lib.rs:59-61 | the result is x + y modulo 2^32, and exactly x + y when that fits in i32 |
| MandelbrotRs.Greet | src/mandelbrot-rs/src/lib.rs:80-87 | the output is "Hello, " then the subject up to its first NUL, then "!"; it contains no NUL |
| CString.CStr | src/mandelbrot-rs/src/lib.rs:81 | the bytes read are a NUL-free prefix of memory that ends at the first NUL or at the end of memory |
| CString.CStrUnique | src/mandelbrot-py-wasm/mandelbrot.py:11-18 | any NUL-free prefix ending at a NUL or at the end of memory is the C string |
| CString.CStrOfTerminated | src/mandelbrot-rs/src/lib.rs:55 | a NUL-free buffer followed by a NUL reads back as itself, whatever follows |
| CString.Ascii | src/mandelbrot-rs/src/lib.rs:82 | a byte-string literal holds the ASCII codes of its characters, one per character |
| MandelbrotPy.Mandelzahl | src/mandelbrot-py-native/mandelbrot.py:4-21 | `__mandelzahl` returns the escape count of (cx, cy) under max |
| MandelbrotPy.Mandel | src/mandelbrot-py-native/mandelbrot.py:24-39 | w == 0 or h == 0 fails with ZeroDivisionError, and only then; otherwise the text is the grid of glyphs, rows one after another |
| MandelbrotPy.PyGridLength | src/mandelbrot-py-native/mandelbrot.py:29-37 | one glyph per iteration of the two loops, and no row terminators |
| MandelbrotPy.PyGridLayout | src/mandelbrot-py-native/mandelbrot.py:29-37 | position k*w+j is '-' if cell (k, j) escaped, else '*' |
| MandelbrotPy.PyGridNegative | src/mandelbrot-py-native/mandelbrot.py:29-31 | a negative w or h gives the empty text |
| MandelbrotPy.PyGridGlyphs | src/mandelbrot-py-native/mandelbrot.py:33-37 | every character is '-' or '*' |
| MandelbrotPy.SingleCellGrid | src/mandelbrot-py-native/mandelbrot.py:24-39 | a 1 x 1 grid is "-" |
| Util.StringBuilder.constructor | src/mandelbrot-py-native/util.py:7-8 | a new builder is empty and has received no strings |
| Util.StringBuilder.Add | src/mandelbrot-py-native/util.py:10-11 | the buffer becomes the old buffer followed by s; Add("") leaves it unchanged; the buffer stays the concatenation of every argument |
| Util.StringBuilder.Str | src/mandelbrot-py-native/util.py:13-14 | returns the concatenation of all Add arguments in call order and changes nothing |
| WasmDriver.PrintMemory | src/mandelbrot-py-wasm/mandelbrot.py:6-22 | returns the index of the first NUL (or the length), prints exactly the bytes before it, none of which is NUL |
| WasmDriver.PrintsMandelGrid | src/mandelbrot-py-wasm/mandelbrot.py:45-48 | the host prints exactly the grid `mandel` built |
| WasmDriver.GreetAndPrint | src/mandelbrot-py-wasm/mandelbrot.py:53-70 | the host writes a NUL-free subject and a NUL, `greet` runs on it, `print_memory` reads its result: the printed bytes are "Hello, " + subject + "!" and the count is their length |
| WasmDriver.PrintsGreeting | src/mandelbrot-py-wasm/mandelbrot.py:53-70 | a NUL-free subject written with a terminator reads back whole, and the greeting printed is "Hello, <subject>!" |
| Renderers.SameCells | src/mandelbrot-py-native/mandelbrot.py:29-37 | the Rust and the Python renderer give cell (k, j) the same glyph |
| Renderers.LengthsDifferByRows | src/mandelbrot-rs/src/lib.rs:53 | the Rust output is a newline per row longer than the Python text |

## Left out

- Floating point: f32 (Rust) and f64 (Python) rounding, and NaN and infinity,
  are idealised as exact real arithmetic. The computed pictures can differ
  from the reals' picture at cells near the set's boundary.
- The Rust `2.0 / h` and `3.0 / w` with a zero dimension give infinity. The
  model uses a step of 0 there. Such a step is never used: its loop runs zero times.
- MandelbrotRs.Greet: requires a NUL inside the subject buffer. This is the
  safety contract of `CStr::from_ptr`; reading past the buffer is not modelled.
- MandelbrotRs.Sum: models the release-build wrap-around. The debug-build
  overflow panic is not modelled.
- `allocate`, `deallocate`, `CString::into_raw` and the `extern "C"` boundary
  are raw-memory and FFI plumbing. A returned C string is modelled as its bytes
  followed by a NUL.
- The WASM host's top level is I/O: the wasmer store, module and instance
  set-up, reading the `.wasm` file, memory views, timing and printing. So are
  `print(...decode())` in `print_memory` and `main.py`. `print_memory`'s
  printed bytes are an out-parameter.
- The placeholder test `it_works` in lib.rs is not modelled.
- WasmDriver.PrintMemory: `bytes(output).decode()` raises `UnicodeDecodeError`
  when the bytes before the NUL are not UTF-8 (memory `[0xFF, 0]`, say), and then
  `print_memory` returns nothing. The model has no decoding, so it returns the
  count for every buffer.
