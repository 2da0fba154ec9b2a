/** The append-only text buffer of the native Python renderer. */
module Util {

  /** The strings of parts, one after the other. */
  function Concat(parts: seq<string>): string {
    if parts == [] then "" else Concat(parts[..|parts| - 1]) + parts[|parts| - 1]
  }

  /** `StringBuilder`: a StringIO that is only ever written at its end.
      `contents` is what `getvalue()` returns; `added` records every string
      passed to Add, in call order. */
  class StringBuilder {
    var contents: string
    ghost var added: seq<string>

    ghost predicate Valid()
      reads this
    {
      contents == Concat(added)
    }

    /** `__init__`: a fresh, empty buffer. */
    constructor ()
      ensures Valid()
      ensures contents == "" && added == []
    {
      contents := "";
      added := [];
    }

    /** `Add(s)`: the buffer is the old buffer followed by s; Add("") leaves it as it was. */
    method Add(s: string)
      requires Valid()
      modifies this
      ensures Valid()
      ensures added == old(added) + [s]
      ensures contents == old(contents) + s
      ensures s == "" ==> contents == old(contents)
    {
      assert (added + [s])[..|added|] == added;
      contents := contents + s;
      added := added + [s];
    }

    /** `__str__`: every Add argument so far, in call order. It changes nothing,
        so two calls in a row return the same text. */
    method Str() returns (r: string)
      requires Valid()
      ensures r == contents
      ensures r == Concat(added)
    {
      r := contents;
    }
  }
}
