/** Streams with a buffer in front of them. */
module BufferedStreams {
  import opened Base
  import opened Streams

  const DEFAULT_SIZE: u32 := 8192

  // ---------------------------------------------------------------------
  // Reading

  /** What a caller can do with an input stream, and what it then sees. */
  datatype Call = ReadCall(count: u32) | EndCall | SeekCall(distance: u32, whence: Whence)
  datatype Seen = Bytes(data: seq<byte>) | Flag(value: bool)

  /** A cursor over the whole content that always reads in full. */
  function Take(content: seq<byte>, at: nat, count: nat): (data: seq<byte>)
    requires at <= |content|
    ensures |data| == Min(count, |content| - at)
  {
    content[at..at + Min(count, |content| - at)]
  }

  /** Seeks must stay within the content. */
  predicate InRange(content: seq<byte>, at: nat, call: Call) {
    at <= |content| &&
    (call.SeekCall? ==> (if call.whence.Begin? then 0 else at) + call.distance <= |content|)
  }

  function Cursor(content: seq<byte>, at: nat, call: Call): (nat, Seen)
    requires InRange(content, at, call)
  {
    match call
    case ReadCall(count) => (at + |Take(content, at, count)|, Bytes(Take(content, at, count)))
    case EndCall => (at, Flag(at == |content|))
    case SeekCall(distance, whence) => ((if whence.Begin? then 0 else at) + distance, Flag(true))
  }

  predicate AllInRange(content: seq<byte>, at: nat, calls: seq<Call>)
    decreases calls
  {
    calls == [] || (InRange(content, at, calls[0]) && AllInRange(content, Cursor(content, at, calls[0]).0, calls[1..]))
  }

  function Observed(content: seq<byte>, at: nat, calls: seq<Call>): (seen: seq<Seen>)
    requires AllInRange(content, at, calls)
    ensures |seen| == |calls|
    decreases calls
  {
    if calls == [] then []
    else
      var (next, first) := Cursor(content, at, calls[0]);
      [first] + Observed(content, next, calls[1..])
  }

  lemma Append(out: array<byte>, pos: nat, n: nat, content: seq<byte>, from: nat)
    requires pos + n <= out.Length && from + pos + n <= |content|
    requires out[..pos] == content[from..from + pos]
    requires out[pos..pos + n] == content[from + pos..from + pos + n]
    ensures out[..pos + n] == content[from..from + pos + n]
  {
    assert out[..pos + n] == out[..pos] + out[pos..pos + n];
  }

  lemma TakenTo(content: seq<byte>, from: nat, count: nat, n: nat)
    requires from <= |content| && n == Min(count, |content| - from)
    ensures Take(content, from, count) == content[from..from + n]
  {
  }

  /** Where two stretches agree, their first and their last parts agree. */
  lemma SliceOfEqual(a: seq<byte>, i: nat, b: seq<byte>, j: nat, k: nat, n: nat)
    requires n <= k && i + k <= |a| && j + k <= |b| && a[i..i + k] == b[j..j + k]
    ensures a[i..i + n] == b[j..j + n] && a[i + n..i + k] == b[j + n..j + k]
  {
    assert a[i..i + n] == a[i..i + k][..n];
    assert b[j..j + n] == b[j..j + k][..n];
    assert a[i + n..i + k] == a[i..i + k][n..];
    assert b[j + n..j + k] == b[j..j + k][n..];
  }

  class BufferedInStream {
    const stream: InStream
    const buffer: array<byte>
    const bufferSize: u32
    var bufferPos: u32
    var bufferData: u32

    /** The buffered bytes are the ones just before the position of the stream. */
    ghost predicate Valid()
      reads this, stream, buffer
    {
      && stream.Valid()
      && buffer.Length == bufferSize > 0
      && bufferPos + bufferData <= bufferSize
      && bufferData <= stream.pos
      && buffer[bufferPos..bufferPos + bufferData] == stream.content[stream.pos - bufferData..stream.pos]
    }

    /** Where the reader is. */
    ghost function Position(): int
      reads this, stream
    {
      stream.pos - bufferData
    }

    constructor (stream: InStream, bufferSize: u32)
      requires stream.Valid()
      ensures Valid() && fresh(buffer) && this.stream == stream && Position() == stream.pos
      ensures this.bufferSize == if bufferSize == 0 then 8192 else bufferSize
    {
      var size := if bufferSize == 0 then DEFAULT_SIZE else bufferSize;
      this.stream, this.bufferSize := stream, size;
      buffer := new byte[size];
      bufferPos, bufferData := 0, 0;
    }

    function End(): (b: bool)
      requires Valid()
      reads this, stream, buffer
      ensures b <==> Position() == |stream.content|
    {
      stream.End() && bufferData == 0
    }

    /** Bytes leave the buffer, which moves on behind them. */
    method TakeBuffered(out: array<byte>, pos: nat, n: u32)
      requires Valid() && n <= bufferData && pos + n <= out.Length && out != buffer
      modifies this`bufferPos, this`bufferData, out
      ensures Valid() && Position() == old(Position()) + n && bufferData == old(bufferData) - n
      ensures out[pos..pos + n] == stream.content[old(Position())..old(Position()) + n]
      ensures forall k :: 0 <= k < out.Length && !(pos <= k < pos + n) ==> out[k] == old(out[k])
    {
      CopyBytes(out, pos, buffer, bufferPos, n);
      SliceOfEqual(buffer[..], bufferPos, stream.content, Position(), bufferData, n);
      bufferPos := bufferPos + n;
      bufferData := bufferData - n;
    }

    /** `pos` bytes of the content from `from` on have been read, over a beginning of what was there. */
    ghost predicate Got(out: array<byte>, pos: nat, from: nat, was: seq<byte>)
      reads this, stream, buffer, out
    {
      && Valid() && out != buffer && Position() == from + pos
      && pos <= out.Length == |was|
      && out[..pos] == stream.content[from..from + pos]
      && forall k :: pos <= k < out.Length ==> out[k] == was[k]
    }

    /** Buffered bytes continue what was read. */
    method TakeMore(out: array<byte>, pos: nat, n: u32, ghost from: nat, ghost was: seq<byte>)
      requires Got(out, pos, from, was) && n <= bufferData && pos + n <= out.Length
      modifies this`bufferPos, this`bufferData, out
      ensures Got(out, pos + n, from, was) && bufferData == old(bufferData) - n
    {
      TakeBuffered(out, pos, n);
      Append(out, pos, n, stream.content, from);
    }

    /** More bytes are fetched, and what was read stays. */
    method FetchMore(out: array<byte>, pos: nat, ghost from: nat, ghost was: seq<byte>)
      requires Got(out, pos, from, was) && bufferData == 0 && !stream.End()
      modifies this`bufferPos, this`bufferData, stream, buffer
      ensures Got(out, pos, from, was) && stream.pos > old(stream.pos)
    {
      Refill();
    }

    /** The position in the empty buffer does not matter. */
    method Rewind(ghost out: array<byte>, ghost pos: nat, ghost from: nat, ghost was: seq<byte>)
      requires Got(out, pos, from, was) && bufferData == 0
      modifies this`bufferPos
      ensures Got(out, pos, from, was) && bufferPos == 0
    {
      bufferPos := 0;
    }

    lemma NothingGot(out: array<byte>)
      requires Valid() && out != buffer
      ensures Got(out, 0, Position(), out[..])
    {
    }

    lemma GotMeans(out: array<byte>, pos: nat, from: nat, was: seq<byte>)
      requires Got(out, pos, from, was)
      ensures Valid() && Position() == from + pos
      ensures forall k :: pos <= k < out.Length ==> out[k] == was[k]
    {
    }

    lemma GotAll(out: array<byte>, pos: nat, from: nat, was: seq<byte>, count: nat)
      requires Got(out, pos, from, was) && pos <= count && (pos == count || (stream.End() && bufferData == 0))
      ensures pos == |Take(stream.content, from, count)| && out[..pos] == Take(stream.content, from, count)
    {
      TakenTo(stream.content, from, count, pos);
    }

    /** The buffer is empty: fetch more from the stream. */
    method Refill()
      requires Valid() && bufferData == 0 && !stream.End()
      modifies this`bufferPos, this`bufferData, stream, buffer
      ensures Valid() && Position() == old(Position()) && stream.pos > old(stream.pos)
      ensures |stream.given| == |old(stream.given)| + 1
      ensures stream.appetite(old(stream.pos), bufferSize) >= bufferSize ==>
                bufferData == Min(bufferSize, |stream.content| - old(stream.pos))
    {
      bufferPos := 0;
      bufferData := stream.Read(buffer, bufferSize);
    }

    method Read(out: array<byte>, count: u32) returns (n: u32)
      requires Valid() && count <= out.Length && out != buffer
      modifies this, stream, buffer, out
      ensures Valid()
      ensures n == |Take(stream.content, old(Position()), count)| && n <= count
      ensures out[..n] == Take(stream.content, old(Position()), count)
      ensures Position() == old(Position()) + n
      ensures forall k :: n <= k < out.Length ==> out[k] == old(out[k])
      ensures count <= old(bufferData) ==> stream.given == old(stream.given)
      ensures n < count ==> stream.End()
    {
      hide Take, Got;
      ghost var from, was, total := Position(), out[..], count;
      var pos: u32, left: u32 := 0, count;
      NothingGot(out);
      while left > bufferData
        invariant Got(out, pos, from, was) && pos + left == total
        invariant total <= old(bufferData) ==>
                    left == total && bufferData == old(bufferData) && stream.given == old(stream.given)
        decreases |stream.content| - stream.pos
      {
        var portion := bufferData;
        TakeMore(out, pos, portion, from, was);
        left := left - portion;
        pos := pos + portion;
        if stream.End() {
          Rewind(out, pos, from, was);
          GotAll(out, pos, from, was, total);
          GotMeans(out, pos, from, was);
          return pos;
        }
        FetchMore(out, pos, from, was);
      }
      TakeMore(out, pos, left, from, was);
      GotAll(out, pos + left, from, was, total);
      GotMeans(out, pos + left, from, was);
      return pos + left;
    }

    method Seek(distance: u32, whence: Whence) returns (ok: bool)
      requires Valid()
      requires InRange(stream.content, Position(), SeekCall(distance, whence))
      modifies this, stream, buffer
      ensures Valid() && ok
      ensures Position() == (if whence.Begin? then 0 else old(Position())) + distance
    {
      if whence.Begin? {
        var found := stream.Seek(0, Begin);
        bufferPos := 0;
        bufferData := 0;
      }
      if distance == 0 {
        return true;
      }
      ghost var target := Position() + distance;
      var temp := new byte[bufferSize];
      var left: u32 := distance;
      while left > 0
        invariant Valid() && Position() + left == target <= |stream.content|
        decreases left
      {
        var readBytes := if left > bufferSize then bufferSize else left;
        var res := Read(temp, readBytes);
        left := left - res;
      }
      return true;
    }

    /** Any sequence of calls sees what the cursor over the content sees. */
    method Replay(calls: seq<Call>) returns (seen: seq<Seen>)
      requires Valid() && Position() >= 0 && AllInRange(stream.content, Position(), calls)
      modifies this, stream, buffer
      ensures Valid()
      ensures seen == Observed(stream.content, old(Position()), calls)
      decreases |calls|
    {
      if calls == [] {
        return [];
      }
      var first: Seen;
      match calls[0] {
        case ReadCall(count) =>
          var out := new byte[count];
          var n := Read(out, count);
          first := Bytes(out[..n]);
        case EndCall =>
          first := Flag(End());
        case SeekCall(distance, whence) =>
          var ok := Seek(distance, whence);
          first := Flag(ok);
      }
      var rest := Replay(calls[1..]);
      return [first] + rest;
    }
  }

  // ---------------------------------------------------------------------
  // Writing

  /** Every portion has the given size. */
  predicate Blocks(writes: seq<seq<byte>>, size: nat) {
    forall i :: 0 <= i < |writes| ==> |writes[i]| == size
  }

  /** Bytes at the end of the buffer are bytes at the end of what was accepted. */
  lemma Pending(sink: seq<byte>, pending: seq<byte>, more: seq<byte>)
    ensures sink + (pending + more) == (sink + pending) + more
  {
  }

  lemma NextPiece(before: seq<byte>, text: seq<byte>, pos: nat, n: nat)
    requires pos + n <= |text|
    ensures before + text[..pos] + text[pos..pos + n] == before + text[..pos + n]
  {
    assert text[..pos + n] == text[..pos] + text[pos..pos + n];
  }

  lemma NoBlocks(sink: seq<seq<byte>>, size: nat)
    ensures Blocks(sink[|sink|..], size)
  {
  }

  lemma OneMoreBlock(sink: seq<seq<byte>>, writes: seq<seq<byte>>, last: seq<byte>, size: nat)
    requires sink <= writes && Blocks(writes[|sink|..], size) && |last| == size
    ensures sink <= writes + [last] && Blocks((writes + [last])[|sink|..], size)
  {
    assert (writes + [last])[|sink|..] == writes[|sink|..] + [last];
  }

  /** How many bytes are pending after `n` more, when `at` were. */
  function PendingAfter(at: nat, n: nat, size: nat): (r: nat)
    requires at <= size && size > 0
    ensures r <= size
    decreases n, at
  {
    if at + n <= size then at + n else PendingAfter(0, n - (size - at), size)
  }

  /**
   Something is pending after every write that leaves anything to be pending, and
   whole buffers have gone.  A write that fits goes nowhere.
   */
  lemma {:induction false} PendingIsTheRest(at: nat, n: nat, size: nat) returns (blocks: nat)
    requires at <= size && size > 0
    ensures at + n == blocks * size + PendingAfter(at, n, size)
    ensures PendingAfter(at, n, size) == 0 <==> at + n == 0
    ensures blocks == 0 <==> at + n <= size
    decreases n, at
  {
    if at + n <= size {
      blocks := 0;
    } else {
      blocks := PendingIsTheRest(0, n - (size - at), size);
      OneMore(blocks, size);
      blocks := blocks + 1;
    }
  }

  lemma OneMore(k: nat, size: nat)
    ensures (k + 1) * size == k * size + size
  {
  }

  /** Some data is written, and perhaps the stream is flushed after that. */
  datatype OutCall = OutCall(data: seq<byte>, flush: bool)

  function Text(calls: seq<OutCall>): seq<byte> {
    if calls == [] then [] else calls[0].data + Text(calls[1..])
  }

  /** The sum in the loop condition of `write` never wraps, whatever is pending at each call. */
  predicate NoneWraps(at: nat, calls: seq<OutCall>, size: nat)
    requires at <= size && size > 0
    decreases calls
  {
    calls == [] ||
    (&& at + |calls[0].data| < TWO32
     && NoneWraps(if calls[0].flush then 0 else PendingAfter(at, |calls[0].data|, size), calls[1..], size))
  }

  class BufferedOutStream {
    const stream: OutStream
    const buffer: array<byte>
    const bufferSize: u32
    var bufferPos: u32

    predicate Valid()
      reads this
    {
      buffer.Length == bufferSize > 0 && bufferPos <= bufferSize
    }

    /** Everything written so far, whether it has reached the sink or not. */
    ghost function Accepted(): seq<byte>
      requires Valid()
      reads this, stream, buffer
    {
      stream.Contents() + buffer[..bufferPos]
    }

    constructor (stream: OutStream, bufferSize: u32)
      ensures Valid() && fresh(buffer) && this.stream == stream && Accepted() == stream.Contents()
      ensures this.bufferSize == (if bufferSize == 0 then 8192 else bufferSize) && bufferPos == 0
    {
      var size := if bufferSize == 0 then DEFAULT_SIZE else bufferSize;
      this.stream, this.bufferSize := stream, size;
      buffer := new byte[size];
      bufferPos := 0;
    }

    /** Bytes join the pending ones. */
    method Put(data: array<byte>, pos: nat, n: u32)
      requires Valid() && pos + n <= data.Length && data != buffer && bufferPos + n <= bufferSize
      modifies this`bufferPos, buffer
      ensures Valid() && bufferPos == old(bufferPos) + n
      ensures Accepted() == old(Accepted()) + data[pos..pos + n]
    {
      CopyBytes(buffer, bufferPos, data, pos, n);
      assert buffer[..bufferPos + n] == buffer[..bufferPos] + buffer[bufferPos..bufferPos + n];
      Pending(stream.Contents(), buffer[..bufferPos], data[pos..pos + n]);
      bufferPos := bufferPos + n;
    }

    /** Bytes fill the buffer, which then goes to the sink. */
    method FillAndSpill(data: array<byte>, pos: nat, remain: u32)
      requires Valid() && pos + remain <= data.Length && data != buffer && bufferPos + remain == bufferSize
      modifies this, stream, buffer
      ensures Valid() && bufferPos == 0
      ensures Accepted() == old(Accepted()) + data[pos..pos + remain]
      ensures |stream.writes| == |old(stream.writes)| + 1
      ensures stream.writes == old(stream.writes) + [stream.writes[|old(stream.writes)|]]
      ensures |stream.writes[|old(stream.writes)|]| == bufferSize
    {
      Put(data, pos, remain);
      var written := stream.Write(buffer, bufferSize);
      bufferPos := 0;
    }

    method Write(data: array<byte>, count: u32) returns (n: u32)
      requires Valid() && count <= data.Length && data != buffer
      requires bufferPos + count < TWO32
      modifies this, stream, buffer
      ensures Valid() && n == count
      ensures Accepted() == old(Accepted()) + data[..count]
      ensures bufferPos == PendingAfter(old(bufferPos), count, bufferSize)
      ensures old(bufferPos) + count <= bufferSize ==> stream.writes == old(stream.writes)
      ensures old(stream.writes) <= stream.writes
      ensures Blocks(stream.writes[|old(stream.writes)|..], bufferSize)
    {
      hide Accepted, Blocks;
      ghost var before, sink, text := Accepted(), stream.writes, data[..];
      var pos: u32, left: u32 := 0, count;
      NoBlocks(sink, bufferSize);
      assert before + text[..pos] == before;
      while Add32(bufferPos, left) > bufferSize
        invariant Valid() && pos + left == count && bufferPos + left < TWO32
        invariant Accepted() == before + text[..pos] && data[..] == text
        invariant PendingAfter(bufferPos, left, bufferSize) == PendingAfter(old(bufferPos), count, bufferSize)
        invariant old(bufferPos) + count <= bufferSize ==> stream.writes == sink && bufferPos + left <= bufferSize
        invariant sink <= stream.writes && Blocks(stream.writes[|sink|..], bufferSize)
        decreases left, bufferPos
      {
        var remain: u32 := bufferSize - bufferPos;
        ghost var writes := stream.writes;
        FillAndSpill(data, pos, remain);
        OneMoreBlock(sink, writes, stream.writes[|writes|], bufferSize);
        NextPiece(before, text, pos, remain);
        pos := pos + remain;
        left := left - remain;
      }
      Put(data, pos, left);
      NextPiece(before, text, pos, left);
      return pos + left;
    }

    method Flush() returns (n: u32)
      requires Valid()
      modifies this, stream
      ensures Valid() && n == old(bufferPos) && bufferPos == 0
      ensures stream.Contents() == old(Accepted()) == Accepted()
      ensures stream.writes == old(stream.writes) + [old(buffer[..bufferPos])]
    {
      n := stream.Write(buffer, bufferPos);
      bufferPos := 0;
    }

    /** Any sequence of writes and flushes accepts the concatenation of what was written. */
    method WriteAll(calls: seq<OutCall>)
      requires Valid() && NoneWraps(bufferPos, calls, bufferSize)
      modifies this, stream, buffer
      ensures Valid() && Accepted() == old(Accepted()) + Text(calls)
      ensures if calls == [] then bufferPos == old(bufferPos) else calls[|calls| - 1].flush ==> bufferPos == 0
      ensures calls != [] && calls[|calls| - 1].flush ==> stream.Contents() == old(Accepted()) + Text(calls)
      decreases |calls|
    {
      hide Blocks, Accepted, PendingAfter;
      ghost var before := Accepted();
      if calls == [] {
        assert before + Text(calls) == before;
        return;
      }
      OneCall(calls[0]);
      WriteAll(calls[1..]);
      Pending(before, calls[0].data, Text(calls[1..]));
      if bufferPos == 0 {
        NothingPending();
      }
    }

    method OneCall(call: OutCall)
      requires Valid() && bufferPos + |call.data| < TWO32
      modifies this, stream, buffer
      ensures Valid() && Accepted() == old(Accepted()) + call.data
      ensures bufferPos == if call.flush then 0 else PendingAfter(old(bufferPos), |call.data|, bufferSize)
    {
      hide Blocks, Accepted, PendingAfter;
      var data := new byte[|call.data|](i requires 0 <= i < |call.data| => call.data[i]);
      assert data[..data.Length] == call.data;
      var n := Write(data, data.Length);
      if call.flush {
        n := Flush();
      }
    }

    /** Without pending bytes, the sink has everything. */
    lemma NothingPending()
      requires Valid() && bufferPos == 0
      ensures stream.Contents() == Accepted()
    {
    }
  }
}
