/** The stream interfaces, as any non-failing stream behaves. */
module Streams {
  import opened Base

  datatype Whence = Current | Begin

  /** `memcpy` between two buffers. */
  method CopyBytes(dst: array<byte>, dstPos: nat, src: array<byte>, srcPos: nat, count: nat)
    requires dst != src
    requires dstPos + count <= dst.Length && srcPos + count <= src.Length
    modifies dst
    ensures dst[dstPos..dstPos + count] == src[srcPos..srcPos + count]
    ensures forall k :: 0 <= k < dst.Length && !(dstPos <= k < dstPos + count) ==> dst[k] == old(dst[k])
  {
    for i := 0 to count
      invariant forall k :: dstPos <= k < dstPos + i ==> dst[k] == src[k - dstPos + srcPos]
      invariant forall k :: 0 <= k < dst.Length && !(dstPos <= k < dstPos + i) ==> dst[k] == old(dst[k])
    {
      dst[dstPos + i] := src[srcPos + i];
    }
    assert dst[dstPos..dstPos + count] == src[srcPos..srcPos + count];
  }

  /**
   A source of bytes.  A read may give fewer bytes than asked for, as `appetite`
   decides, but before the end it gives at least one.
   */
  class InStream {
    const content: seq<byte>
    const appetite: (nat, nat) -> nat
    var pos: nat
    ghost var given: seq<nat>  // how many bytes each read gave

    predicate Valid()
      reads this
    {
      pos <= |content|
    }

    constructor (content: seq<byte>, appetite: (nat, nat) -> nat)
      ensures Valid() && pos == 0 && this.content == content
    {
      this.content, this.appetite := content, appetite;
      pos, given := 0, [];
    }

    predicate End()
      reads this
    {
      pos >= |content|
    }

    method Read(buffer: array<byte>, count: u32) returns (n: u32)
      requires Valid() && count <= buffer.Length
      modifies this`pos, this`given, buffer
      ensures Valid() && n <= count && pos == old(pos) + n && given == old(given) + [n]
      ensures count > 0 && !old(End()) ==> n > 0
      ensures appetite(old(pos), count) >= count ==> n == Min(count, |content| - old(pos))
      ensures buffer[..n] == content[old(pos)..pos]
      ensures buffer[n..] == old(buffer[n..])
    {
      var most := Min(count, |content| - pos);
      var wish := appetite(pos, count);
      n := if most == 0 then 0 else if wish < 1 then 1 else Min(wish, most);
      for i := 0 to n
        invariant pos == old(pos) && given == old(given)
        invariant forall k :: 0 <= k < i ==> buffer[k] == content[pos + k]
        invariant forall k :: i <= k < buffer.Length ==> buffer[k] == old(buffer[k])
      {
        buffer[i] := content[pos + i];
      }
      assert buffer[..n] == content[pos..pos + n];
      assert buffer[n..] == old(buffer[n..]);
      pos := pos + n;
      given := given + [n];
    }

    method Seek(distance: nat, whence: Whence) returns (ok: bool)
      requires Valid()
      requires (if whence.Begin? then 0 else pos) + distance <= |content|
      modifies this`pos
      ensures Valid() && ok
      ensures pos == (if whence.Begin? then 0 else old(pos)) + distance
    {
      if whence.Begin? {
        pos := 0;
      }
      pos := pos + distance;
      ok := true;
    }
  }

  function Flatten(blocks: seq<seq<byte>>): seq<byte> {
    if blocks == [] then [] else Flatten(blocks[..|blocks| - 1]) + blocks[|blocks| - 1]
  }

  lemma FlattenAppend(blocks: seq<seq<byte>>, last: seq<byte>)
    ensures Flatten(blocks + [last]) == Flatten(blocks) + last
  {
    assert (blocks + [last])[..|blocks|] == blocks;
  }

  /** A sink that takes whatever it is given, and remembers in which portions. */
  class OutStream {
    var writes: seq<seq<byte>>

    constructor ()
      ensures writes == []
    {
      writes := [];
    }

    function Contents(): seq<byte>
      reads this
    {
      Flatten(writes)
    }

    method Write(buffer: array<byte>, count: u32) returns (n: u32)
      requires count <= buffer.Length
      modifies this
      ensures n == count
      ensures writes == old(writes) + [buffer[..count]]
      ensures Contents() == old(Contents()) + buffer[..count]
    {
      FlattenAppend(writes, buffer[..count]);
      writes := writes + [buffer[..count]];
      n := count;
    }
  }
}
