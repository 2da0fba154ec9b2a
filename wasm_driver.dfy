/** The Python host of the WebAssembly build: `print_memory` reads a
    C string out of the module's linear memory. */
module WasmDriver {
  import opened CString
  import opened MandelbrotRs

  /** `print_memory(memory)`: walks the memory view from its start and stops
      at the first NUL or at the end of the view. `printed` is the byte string
      handed to `print` (decoding and the console are not modelled); `nth` is
      the returned count, which the caller passes to `deallocate`. */
  method PrintMemory(memory: seq<byte>) returns (nth: nat, printed: seq<byte>)
    ensures nth <= |memory|
    ensures forall i :: 0 <= i < nth ==> memory[i] != 0
    ensures nth == |memory| || memory[nth] == 0
    ensures printed == memory[..nth]
    ensures printed == CStr(memory) && nth == |CStr(memory)|
    ensures |memory| > 0 && memory[0] == 0 ==> nth == 0 && printed == []
  {
    var output: seq<byte> := [];
    nth := 0;
    var memoryLength := |memory|;
    while nth < memoryLength
      invariant nth <= memoryLength
      invariant output == memory[..nth]
      invariant forall i :: 0 <= i < nth ==> memory[i] != 0
    {
      var b := memory[nth];
      if b == 0 {
        break;
      }
      output := output + [b];
      nth := nth + 1;
    }
    printed := output;
    CStrUnique(memory, printed);
  }

  /** `mandel` hands back its grid as a NUL-terminated C string; the host
      prints exactly the grid, whatever memory holds after the terminator. */
  lemma PrintsMandelGrid(w: int, h: int, max: int, rest: seq<byte>)
    ensures CStr(RsGrid(w, h, max) + [0] + rest) == RsGrid(w, h, max)
  {
    RsGridBytes(w, h, max);
    CStrOfTerminated(RsGrid(w, h, max), rest);
  }

  /** The host writes the subject followed by a NUL, `greet` reads it back and
      returns "Hello, <subject>!" as a C string, and the host prints exactly that. */
  lemma PrintsGreeting(subject: seq<byte>, rest: seq<byte>, rest': seq<byte>)
    requires forall i :: 0 <= i < |subject| ==> subject[i] != 0
    ensures CStr(subject + [0] + rest) == subject
    ensures CStr(Ascii("Hello, ") + subject + [BANG] + [0] + rest') == Ascii("Hello, ") + subject + [BANG]
  {
    CStrOfTerminated(subject, rest);
    var greeting := Ascii("Hello, ") + subject + [BANG];
    assert forall i :: 0 <= i < |greeting| ==> greeting[i] != 0;
    CStrOfTerminated(greeting, rest');
  }

  /** The greeting round trip of the host: the subject and a NUL are written
      into memory, `greet` is called on it, and `print_memory` reads the
      C string `greet` returns. What is printed is "Hello, <subject>!". */
  method GreetAndPrint(subject: seq<byte>, rest: seq<byte>, rest': seq<byte>)
      returns (nth: nat, printed: seq<byte>)
    requires forall i :: 0 <= i < |subject| ==> subject[i] != 0
    ensures printed == Ascii("Hello, ") + subject + [BANG]
    ensures nth == |printed|
  {
    PrintsGreeting(subject, rest, rest');
    var greeting := Greet(subject + [0] + rest);
    nth, printed := PrintMemory(greeting + [0] + rest');
  }
}
