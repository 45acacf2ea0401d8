/** The memory stream whose buffer doubles when it is full. */
module MemoryStreams {
  import opened Base
  import opened Streams

  const DEFAULT_SIZE: u32 := 1024

  /** The size that doubling reaches, in unbounded arithmetic. */
  function Grown(size: nat, need: nat): (r: nat)
    requires size > 0
    ensures need <= r
    decreases need - size
  {
    if need <= size then size else Grown(2 * size, need)
  }

  /** No doubling on the way to `need` leaves the range of a `tuint32`. */
  predicate NeverWraps(size: nat, need: nat)
    requires size > 0
    decreases need - size
  {
    need <= size || (2 * size < TWO32 && NeverWraps(2 * size, need))
  }

  /** Doubling stays in range exactly when the size it ends at does. */
  lemma {:induction false} WrapsExactly(size: nat, need: nat)
    requires 0 < size < TWO32
    ensures NeverWraps(size, need) <==> Grown(size, need) < TWO32
    decreases need - size
  {
    if need > size {
      if 2 * size < TWO32 {
        WrapsExactly(2 * size, need);
      } else {
        NeverShrinks(2 * size, need);
      }
    }
  }

  lemma {:induction false} NeverShrinks(size: nat, need: nat)
    requires 0 < size
    ensures Grown(size, need) >= size
    decreases need - size
  {
    if need > size {
      NeverShrinks(2 * size, need);
    }
  }

  /** Up to 2^31 bytes fit, whatever the buffer started with. */
  lemma {:induction false} TwoGibFit(size: nat, need: nat)
    requires 0 < size < TWO32 && need <= 0x8000_0000
    ensures Grown(size, need) < TWO32
    decreases need - size
  {
    if need > size {
      TwoGibFit(2 * size, need);
    }
  }

  /** A buffer that grew is a power of two times larger and less than twice what was needed. */
  lemma {:induction false} GrownShape(size: nat, need: nat) returns (k: nat)
    requires 0 < size
    ensures Grown(size, need) == size * Pow2(k)
    ensures Grown(size, need) != size ==> Grown(size, need) < 2 * need
    decreases need - size
  {
    if need <= size {
      k := 0;
    } else {
      k := GrownShape(2 * size, need);
      assert (2 * size) * Pow2(k) == size * Pow2(k + 1);
      k := k + 1;
    }
  }

  function Double32(a: u32): u32 {
    (a * 2) % TWO32
  }

  class MemoryOutStream {
    var buffer: array<byte>
    var bufferSize: u32
    var bufferPos: u32
    ghost const initialSize: nat
    ghost var moved: nat      // bytes copied by all growth steps together
    ghost var doublings: nat  // how many growth steps there were

    ghost predicate Sized()
      reads this
    {
      && buffer.Length == bufferSize && bufferPos <= bufferSize
      && 0 < initialSize <= bufferSize == initialSize * Pow2(doublings)
      && moved == bufferSize - initialSize
    }

    /** Between calls, a buffer that ever grew is more than half full. */
    ghost predicate Valid()
      reads this
    {
      Sized() && (bufferSize != initialSize ==> bufferSize < 2 * bufferPos)
    }

    /** `data()[..count()]`. */
    function Data(): seq<byte>
      requires bufferPos <= buffer.Length
      reads this, buffer
    {
      buffer[..bufferPos]
    }

    constructor (bufferSize: u32)
      ensures Valid() && fresh(buffer) && Data() == []
      ensures this.bufferSize == initialSize == if bufferSize == 0 then 1024 else bufferSize
    {
      var size := if bufferSize == 0 then DEFAULT_SIZE else bufferSize;
      this.bufferSize, bufferPos := size, 0;
      buffer := new byte[size];
      initialSize, moved, doublings := size, 0, 0;
    }

    /** The body of the growth loop. */
    method Double()
      requires Sized() && 2 * bufferSize < TWO32
      modifies this
      ensures Sized() && fresh(buffer) && bufferSize == 2 * old(bufferSize) && bufferPos == old(bufferPos)
      ensures Data() == old(Data())
    {
      var newSize := Double32(bufferSize);
      var newBuffer := new byte[newSize];
      CopyBytes(newBuffer, 0, buffer, 0, bufferSize);
      assert newBuffer[..bufferPos] == newBuffer[0..bufferSize][..bufferPos];
      moved := moved + bufferSize;
      TwiceAsMuch(initialSize, Pow2(doublings));
      doublings := doublings + 1;
      buffer := newBuffer;
      bufferSize := newSize;
    }

    /** The growth loop. */
    method MakeRoom(count: u32)
      requires Sized() && NeverWraps(bufferSize, bufferPos + count) && bufferPos + count < TWO32
      modifies this
      ensures Sized() && (buffer == old(buffer) || fresh(buffer))
      ensures bufferPos == old(bufferPos) && Data() == old(Data())
      ensures bufferSize == Grown(old(bufferSize), bufferPos + count)
    {
      hide Data;
      ghost var size, need := bufferSize, bufferPos + count;
      while Add32(bufferPos, count) > bufferSize
        invariant Sized() && (buffer == old(buffer) || fresh(buffer))
        invariant bufferPos == old(bufferPos) && Data() == old(Data())
        invariant NeverWraps(bufferSize, need) && Grown(bufferSize, need) == Grown(size, need)
        decreases need - bufferSize
      {
        Double();
      }
    }

    /** The bytes go behind the data. */
    method Put(data: array<byte>, count: u32)
      requires Sized() && count <= data.Length && data != buffer && bufferPos + count <= bufferSize
      modifies this`bufferPos, buffer
      ensures Sized() && bufferPos == old(bufferPos) + count
      ensures Data() == old(Data()) + data[..count]
    {
      CopyBytes(buffer, bufferPos, data, 0, count);
      assert buffer[..bufferPos + count] == buffer[..bufferPos] + buffer[bufferPos..bufferPos + count];
      bufferPos := bufferPos + count;
    }

    method Write(data: array<byte>, count: u32) returns (n: u32)
      requires Valid() && count <= data.Length && data != buffer
      requires NeverWraps(bufferSize, bufferPos + count) && bufferPos + count < TWO32
      modifies this, buffer
      ensures Valid() && n == count && (buffer == old(buffer) || fresh(buffer))
      ensures Data() == old(Data()) + data[..count]
      ensures bufferSize == Grown(old(bufferSize), old(bufferPos) + count)
    {
      hide NeverWraps, Pow2, Grown, Data;
      ghost var shape := GrownShape(bufferSize, bufferPos + count);
      MakeRoom(count);
      Put(data, count);
      return count;
    }

    /**
     Any number of writes, as long as no more than 2^31 bytes are written in all:
     nothing wraps, and the data is their concatenation.
     */
    method WriteAll(pieces: seq<seq<byte>>)
      requires Valid() && bufferPos + |Flatten(pieces)| <= 0x8000_0000
      modifies this, buffer
      ensures Valid() && Data() == old(Data()) + Flatten(pieces)
      ensures bufferSize == initialSize * Pow2(doublings) && moved < bufferSize
      ensures doublings > 0 ==> bufferSize < 2 * |Data()| && moved < 2 * |Data()|
    {
      hide Data, Flatten, NeverWraps, Grown, Pow2;
      ghost var before := Data();
      DataLength();
      NothingFlattened(pieces, before);
      for i := 0 to |pieces|
        invariant Valid() && (buffer == old(buffer) || fresh(buffer))
        invariant Data() == before + Flatten(pieces[..i])
      {
        OnePieceMore(pieces, i, before);
        DataLength();
        WriteOne(pieces[i]);
      }
      assert pieces[..|pieces|] == pieces;
      GrowthIsLinear();
    }

    method WriteOne(piece: seq<byte>)
      requires Valid() && bufferPos + |piece| <= 0x8000_0000
      modifies this, buffer
      ensures Valid() && (buffer == old(buffer) || fresh(buffer))
      ensures Data() == old(Data()) + piece
    {
      hide Data, NeverWraps, Grown, Pow2;
      TwoGibFit(bufferSize, bufferPos + |piece|);
      WrapsExactly(bufferSize, bufferPos + |piece|);
      var data := new byte[|piece|](i requires 0 <= i < |piece| => piece[i]);
      assert data[..data.Length] == piece;
      var n := Write(data, data.Length);
    }

    lemma DataLength()
      requires Valid()
      ensures |Data()| == bufferPos
    {
    }

    /**
     Over any number of writes: the capacity is a power of two times the first
     one, less than twice what was written if it grew, and all growth steps
     together copied fewer bytes than that capacity.
     */
    lemma GrowthIsLinear()
      requires Valid()
      ensures bufferSize == initialSize * Pow2(doublings) && moved < bufferSize
      ensures doublings > 0 ==> bufferSize < 2 * |Data()| && moved < 2 * |Data()|
    {
      if doublings > 0 {
        AtLeastTwice(initialSize, doublings);
      }
    }
  }

  lemma NothingFlattened(pieces: seq<seq<byte>>, before: seq<byte>)
    ensures before == before + Flatten(pieces[..0])
  {
  }

  lemma {:induction false} FlattenGrows(pieces: seq<seq<byte>>, i: nat)
    requires i <= |pieces|
    ensures |Flatten(pieces[..i])| <= |Flatten(pieces)|
    decreases |pieces|
  {
    if i < |pieces| {
      var shorter := pieces[..|pieces| - 1];
      assert shorter[..i] == pieces[..i];
      FlattenGrows(shorter, i);
    } else {
      assert pieces[..i] == pieces;
    }
  }

  lemma OnePieceMore(pieces: seq<seq<byte>>, i: nat, before: seq<byte>)
    requires i < |pieces|
    ensures before + Flatten(pieces[..i + 1]) == before + Flatten(pieces[..i]) + pieces[i]
    ensures |Flatten(pieces[..i])| + |pieces[i]| <= |Flatten(pieces)|
  {
    hide Flatten;
    assert pieces[..i + 1] == pieces[..i] + [pieces[i]];
    FlattenAppend(pieces[..i], pieces[i]);
    FlattenGrows(pieces, i + 1);
  }

  lemma TwiceAsMuch(a: nat, b: nat)
    ensures a * (2 * b) == 2 * (a * b)
  {
  }

  lemma {:induction false} AtLeastTwice(a: nat, k: nat)
    requires a > 0 && k > 0
    ensures a * Pow2(k) >= 2 * a
  {
    TwiceAsMuch(a, Pow2(k - 1));
    if k > 1 {
      AtLeastTwice(a, k - 1);
    } else {
      assert Pow2(0) == 1;
    }
  }
}
