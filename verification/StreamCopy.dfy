/** Copying from a source to a sink through a buffer. */
module StreamCopy {
  import opened Base
  import opened Streams

  const BUFFER_SIZE: u32 := 8192

  /** Reports progress, and says whether to give up; `patience` decides when. */
  class Progresser {
    const patience: nat -> bool
    var polls: nat
    var count: nat
    var gaveUp: bool

    constructor (patience: nat -> bool)
      ensures polls == 0 && count == 0 && !gaveUp
    {
      this.patience := patience;
      polls, count, gaveUp := 0, 0, false;
    }

    method Cancelled() returns (c: bool)
      modifies this`polls, this`gaveUp
      ensures c == !patience(old(polls)) && polls == old(polls) + 1
      ensures gaveUp == (old(gaveUp) || c)
    {
      c := !patience(polls);
      polls := polls + 1;
      gaveUp := gaveUp || c;
    }

    method Update(n: nat)
      modifies this`count
      ensures count == old(count) + n
    {
      count := count + n;
    }
  }

  /** The first `size` bytes of a source, filled up with zeros if it is too short. */
  function Padded(rest: seq<byte>, size: nat): (data: seq<byte>)
    ensures |data| == size
  {
    if size <= |rest| then rest[..size] else rest + Zeros(size - |rest|)
  }

  /** The progresser was asked once before each read, and again for a refusal, which was the first one. */
  ghost predicate AskedBeforeEachRead(patience: nat -> bool, before: nat, polls: nat, times: int, finished: bool) {
    && polls == before + times + (if finished then 0 else 1)
    && forall k :: before <= k < polls ==> (patience(k) <==> finished || k < polls - 1)
  }

  /** Copying another portion. */
  lemma CopiedMore(content: seq<byte>, from: nat, mid: nat, to: nat, before: seq<byte>)
    requires from <= mid <= to <= |content|
    ensures before + content[from..mid] + content[mid..to] == before + content[from..to]
  {
    assert content[from..to] == content[from..mid] + content[mid..to];
    assert before + content[from..mid] + content[mid..to] == before + (content[from..mid] + content[mid..to]);
  }

  lemma PaddedMore(sink: seq<byte>, a: nat, b: nat)
    ensures sink + Zeros(a) + Zeros(b) == sink + Zeros(a + b)
  {
    assert Zeros(a) + Zeros(b) == Zeros(a + b);
    assert sink + Zeros(a) + Zeros(b) == sink + (Zeros(a) + Zeros(b));
  }

  method Clear(buffer: array<byte>)
    modifies buffer
    ensures buffer[..] == Zeros(buffer.Length)
  {
    for i := 0 to buffer.Length
      invariant forall k :: 0 <= k < i ==> buffer[k] == 0
    {
      buffer[i] := 0;
    }
  }

  /** Copy until the source ends. */
  method Copy(from: InStream, to: OutStream) returns (ok: bool)
    requires from.Valid()
    modifies from, to
    ensures ok && from.Valid() && from.End()
    ensures to.Contents() == old(to.Contents()) + from.content[old(from.pos)..]
  {
    ghost var begin, before := from.pos, to.Contents();
    var buffer := new byte[BUFFER_SIZE];
    while !from.End()
      invariant from.Valid() && begin <= from.pos
      invariant to.Contents() == before + from.content[begin..from.pos]
      decreases |from.content| - from.pos
    {
      ghost var mid := from.pos;
      var res := from.Read(buffer, BUFFER_SIZE);
      CopiedMore(from.content, begin, mid, from.pos, before);
      var written := to.Write(buffer, res);
    }
    assert from.content[begin..from.pos] == from.content[begin..];
    return true;
  }

  /** How many bytes the source has from a position, up to a limit. */
  function Usable(content: seq<byte>, at: nat, size: nat): nat
    requires at <= |content|
  {
    Min(size, |content| - at)
  }

  /**
   Copy exactly `size` bytes.  Unless cancelled, the sink gets the first bytes of
   the source and then zeros, and the progress reported adds up to `size`; if
   cancelled, it gets a beginning of the source.
   */
  method CopySized(from: InStream, to: OutStream, progresser: Progresser, size: nat) returns (ok: bool)
    requires from.Valid() && !progresser.gaveUp
    modifies from, to, progresser
    ensures from.Valid() && ok == !progresser.gaveUp
    ensures ok ==> to.Contents() == old(to.Contents()) + Padded(from.content[old(from.pos)..], size)
    ensures ok ==> progresser.count == old(progresser.count) + size
    ensures ok ==> from.pos == old(from.pos) + Usable(from.content, old(from.pos), size)
    ensures !ok ==> (&& old(from.pos) <= from.pos <= old(from.pos) + size
                     && to.Contents() == old(to.Contents()) + from.content[old(from.pos)..from.pos]
                     && progresser.count == old(progresser.count) + (from.pos - old(from.pos)))
    ensures AskedBeforeEachRead(progresser.patience, old(progresser.polls), progresser.polls,
                                |from.given| - |old(from.given)|, ok)
  {
    ghost var begin, before, reported := from.pos, to.Contents(), progresser.count;
    ghost var asked, readSoFar := progresser.polls, |from.given|;
    var buffer := new byte[BUFFER_SIZE];
    var left: nat := size;
    while !from.End() && left > 0
      invariant from.Valid() && begin <= from.pos && from.pos - begin + left == size
      invariant to.Contents() == before + from.content[begin..from.pos]
      invariant progresser.count == reported + (size - left) && !progresser.gaveUp
      invariant AskedBeforeEachRead(progresser.patience, asked, progresser.polls, |from.given| - readSoFar, true)
      decreases left
    {
      var stop := progresser.Cancelled();
      if stop {
        return false;
      }
      var toRead := if left < BUFFER_SIZE then left else BUFFER_SIZE;
      ghost var mid := from.pos;
      var res := from.Read(buffer, toRead);
      CopiedMore(from.content, begin, mid, from.pos, before);
      res := to.Write(buffer, res);
      left := left - res;
      progresser.Update(res);
    }
    Pad(to, progresser, buffer, left);
    Exactly(from.content, begin, from.pos, size, before);
    return true;
  }

  /** The second loop of the sized copy. */
  method Pad(to: OutStream, progresser: Progresser, buffer: array<byte>, gap: nat)
    requires buffer.Length == BUFFER_SIZE
    modifies to, progresser`count, buffer
    ensures to.Contents() == old(to.Contents()) + Zeros(gap)
    ensures progresser.count == old(progresser.count) + gap
  {
    ghost var copied := to.Contents();
    assert copied + Zeros(0) == copied;
    var left := gap;
    while left > 0
      invariant 0 <= left <= gap
      invariant to.Contents() == copied + Zeros(gap - left)
      invariant progresser.count == old(progresser.count) + (gap - left)
    {
      var toWrite := if left < BUFFER_SIZE then left else BUFFER_SIZE;
      Clear(buffer);
      assert buffer[..toWrite] == Zeros(toWrite);
      PaddedMore(copied, gap - left, toWrite);
      var res := to.Write(buffer, toWrite);
      left := left - res;
      progresser.Update(res);
    }
  }

  lemma Exactly(content: seq<byte>, begin: nat, at: nat, size: nat, before: seq<byte>)
    requires begin <= at <= |content| && at - begin <= size && (at == |content| || at - begin == size)
    ensures before + content[begin..at] + Zeros(size - (at - begin)) == before + Padded(content[begin..], size)
    ensures at == begin + Usable(content, begin, size)
  {
    var rest := content[begin..];
    assert content[begin..at] == rest[..at - begin];
    assert rest[..at - begin] + Zeros(size - (at - begin)) == Padded(rest, size);
    assert before + content[begin..at] + Zeros(size - (at - begin))
        == before + (content[begin..at] + Zeros(size - (at - begin)));
  }

  /** What the last of some reads gave, or 0 if there was none. */
  function LastOf(given: seq<nat>): nat {
    if given == [] then 0 else given[|given| - 1]
  }

  /**
   The second implementation: it returns without saying whether it was
   cancelled, and while padding it reports the size of the last read again, so
   the total is right exactly if those reports happen to add up to the padding.
   */
  method CanexCopySized(from: InStream, to: OutStream, progresser: Progresser, size: nat) returns (ghost lastRead: nat)
    requires from.Valid() && !progresser.gaveUp
    modifies from, to, progresser
    ensures from.Valid()
    ensures !progresser.gaveUp ==> to.Contents() == old(to.Contents()) + Padded(from.content[old(from.pos)..], size)
    ensures progresser.gaveUp ==>
              (&& old(from.pos) <= from.pos <= old(from.pos) + size
               && to.Contents() == old(to.Contents()) + from.content[old(from.pos)..from.pos]
               && progresser.count == old(progresser.count) + (from.pos - old(from.pos)))
    ensures AskedBeforeEachRead(progresser.patience, old(progresser.polls), progresser.polls,
                                |from.given| - |old(from.given)|, !progresser.gaveUp)
    ensures !progresser.gaveUp ==>
              progresser.count == old(progresser.count) + Usable(from.content, old(from.pos), size)
                                  + Portions(size - Usable(from.content, old(from.pos), size)) * lastRead
    ensures !progresser.gaveUp ==>
              (progresser.count == old(progresser.count) + size
               <==> var gap := size - Usable(from.content, old(from.pos), size); Portions(gap) * lastRead == gap)
    ensures old(from.given) <= from.given && lastRead == LastOf(from.given[|old(from.given)|..])
    ensures old(from.End()) || size == 0 ==> from.given == old(from.given)
    ensures !old(from.End()) && size > 0 && !progresser.gaveUp ==> 0 < lastRead <= BUFFER_SIZE
  {
    ghost var begin, before, reported, given := from.pos, to.Contents(), progresser.count, from.given;
    var buffer := new byte[BUFFER_SIZE];
    ghost var asked := progresser.polls;
    var res: u32 := 0;
    lastRead := 0;
    var left: nat := size;
    while !from.End() && left > 0
      invariant from.Valid() && begin <= from.pos && from.pos - begin + left == size
      invariant to.Contents() == before + from.content[begin..from.pos]
      invariant progresser.count == reported + (size - left) && !progresser.gaveUp
      invariant lastRead == res && (left == size ==> res == 0) && (left < size ==> 0 < res <= BUFFER_SIZE)
      invariant old(from.End()) ==> left == size
      invariant given <= from.given && lastRead == LastOf(from.given[|given|..])
      invariant left == size ==> from.given == given
      invariant AskedBeforeEachRead(progresser.patience, asked, progresser.polls, |from.given| - |given|, true)
      decreases left
    {
      var stop := progresser.Cancelled();
      if stop {
        return;
      }
      var toRead := if left < BUFFER_SIZE then left else BUFFER_SIZE;
      ghost var mid := from.pos;
      res := from.Read(buffer, toRead);
      lastRead := res;
      CopiedMore(from.content, begin, mid, from.pos, before);
      var written := to.Write(buffer, res);
      left := left - res;
      progresser.Update(res);
    }
    CanexPad(to, progresser, buffer, left, res);
    Exactly(from.content, begin, from.pos, size, before);
  }

  /** The second loop of the second implementation. */
  method CanexPad(to: OutStream, progresser: Progresser, buffer: array<byte>, gap: nat, res: u32)
    requires buffer.Length == BUFFER_SIZE
    modifies to, progresser`count, buffer
    ensures to.Contents() == old(to.Contents()) + Zeros(gap)
    ensures progresser.count == old(progresser.count) + Portions(gap) * res
  {
    ghost var copied, reported := to.Contents(), progresser.count;
    assert copied + Zeros(0) == copied;
    var left := gap;
    while left > 0
      invariant 0 <= left <= gap && Portions(left) <= Portions(gap)
      invariant to.Contents() == copied + Zeros(gap - left)
      invariant progresser.count == reported + (Portions(gap) - Portions(left)) * res
    {
      var toWrite := if left < BUFFER_SIZE then left else BUFFER_SIZE;
      Clear(buffer);
      assert buffer[..toWrite] == Zeros(toWrite);
      PaddedMore(copied, gap - left, toWrite);
      var written := to.Write(buffer, toWrite);
      assert Portions(left) == 1 + Portions(left - toWrite);
      OneMoreReport(Portions(gap) - Portions(left), res);
      left := left - toWrite;
      progresser.Update(res);
    }
  }

  lemma OneMoreReport(times: int, amount: int)
    ensures (times + 1) * amount == times * amount + amount
  {
  }

  /** How many writes the padding takes. */
  function Portions(n: nat): (k: nat)
    ensures k == (n + 8191) / 8192
  {
    if n == 0 then 0 else if n < BUFFER_SIZE then 1 else 1 + Portions(n - BUFFER_SIZE)
  }
}
