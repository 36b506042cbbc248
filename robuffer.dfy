/** The read-only, rewindable byte cursor over the input (src/robuffer.rs). */
module ROBuffers {
  import opened Wrappers
  import opened Utils

  /** Every character of `s` is 7-bit ASCII. */
  predicate IsAscii(s: string)
  {
    forall i :: 0 <= i < |s| ==> s[i] as int <= 0x7F
  }

  /** The code points of an ASCII string, one byte each, in order. */
  function AsciiBytes(s: string): (r: seq<byte>)
    requires IsAscii(s)
    ensures |r| == |s|
    ensures forall i :: 0 <= i < |s| ==> r[i] == s[i] as int
  {
    if s == [] then [] else [s[0] as int as byte] + AsciiBytes(s[1..])
  }

  class ROBuffer {
    /** The bytes; fixed once the buffer exists. */
    const contents: seq<byte>
    /** Index of the next byte `Next` returns. */
    var offset: nat

    ghost predicate Valid()
      reads this
    {
      offset <= |contents|
    }

    /** The struct literal at the end of `new`: the bytes, read from the start. */
    constructor FromBytes(bytes: seq<byte>)
      ensures Valid()
      ensures contents == bytes && offset == 0
    {
      contents := bytes;
      offset := 0;
    }

    /** `ROBuffer::new`: copies the characters as bytes, failing on the first
        one whose code point is above 0x7F. */
    static method New(ty: string) returns (r: Option<ROBuffer>)
      ensures r.None? <==> !IsAscii(ty)
      ensures r.Some? ==> fresh(r.value) && r.value.Valid()
      ensures r.Some? ==> IsAscii(ty) && r.value.contents == AsciiBytes(ty) && r.value.offset == 0
    {
      var bytes: seq<byte> := [];
      for i := 0 to |ty|
        invariant |bytes| == i
        invariant forall j :: 0 <= j < i ==> ty[j] as int <= 0x7F && bytes[j] == ty[j] as int
      {
        var b := ty[i] as int;
        if b > 0x7F {
          return None;
        }
        bytes := bytes + [b];
      }
      var buf := new ROBuffer.FromBytes(bytes);
      r := Some(buf);
    }

    /** `next`: the byte under the cursor, advancing past it; `None` at the end. */
    method Next() returns (ch: Option<byte>)
      requires Valid()
      modifies this`offset
      ensures Valid()
      ensures old(offset) == |contents| ==> ch.None? && offset == old(offset)
      ensures old(offset) < |contents| ==> ch == Some(contents[old(offset)]) && offset == old(offset) + 1
    {
      if |contents| <= offset {
        return None;
      }
      offset := offset + 1;
      ch := Some(contents[offset - 1]);
    }

    /** `rewind`: steps the cursor back one byte (it panics at offset 0). */
    method Rewind()
      requires Valid() && offset > 0
      modifies this`offset
      ensures Valid()
      ensures offset == old(offset) - 1
    {
      offset := offset - 1;
    }
  }
}
