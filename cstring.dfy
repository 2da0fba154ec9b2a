/** Bytes and the C-string convention (a byte string ends at its first NUL)
    that the Rust library and the WASM driver use to pass text to each other. */
module CString {

  newtype byte = b: int | 0 <= b < 256

  /** The bytes of an ASCII text. */
  function Ascii(s: string): (r: seq<byte>)
    requires forall i :: 0 <= i < |s| ==> s[i] as int < 128
    ensures |r| == |s|
    ensures forall i :: 0 <= i < |s| ==> r[i] as int == s[i] as int
  {
    if s == [] then [] else [s[0] as int as byte] + Ascii(s[1..])
  }

  /** What `CStr::from_ptr(p).to_bytes()` reads from memory starting at p:
      every byte before the first NUL, or all of them when there is none. */
  function CStr(mem: seq<byte>): (r: seq<byte>)
    ensures |r| <= |mem| && r == mem[..|r|]
    ensures forall i :: 0 <= i < |r| ==> r[i] != 0
    ensures |r| == |mem| || mem[|r|] == 0
  {
    if mem == [] || mem[0] == 0 then [] else [mem[0]] + CStr(mem[1..])
  }

  /** The three properties of CStr determine it: any NUL-free prefix that
      stops at a NUL or at the end of memory is CStr(mem). */
  lemma {:induction false} CStrUnique(mem: seq<byte>, p: seq<byte>)
    requires |p| <= |mem| && p == mem[..|p|]
    requires forall i :: 0 <= i < |p| ==> p[i] != 0
    requires |p| == |mem| || mem[|p|] == 0
    ensures p == CStr(mem)
  {
    if p != [] {
      assert mem[0] == p[0] != 0;
      CStrUnique(mem[1..], p[1..]);
    }
  }

  /** A NUL-free byte string followed by a NUL reads back as itself,
      whatever memory holds after the terminator. */
  lemma {:induction false} CStrOfTerminated(p: seq<byte>, rest: seq<byte>)
    requires forall i :: 0 <= i < |p| ==> p[i] != 0
    ensures CStr(p + [0] + rest) == p
  {
    if p != [] {
      assert (p + [0] + rest)[1..] == p[1..] + [0] + rest;
      CStrOfTerminated(p[1..], rest);
    }
  }
}
