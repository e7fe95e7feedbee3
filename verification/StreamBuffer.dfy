/** One direction of the chunked duplex pipe of crates/protocol/src/stream_buffer.rs. */
module StreamBuffer {
  import opened Common
  import opened FeedbackCapacity

  const CHUNK: nat := 16 * 1024

  /** A chunk and the capacity its allocation got, at least CHUNK. */
  datatype Chunk = Chunk(bytes: Bytes, capacity: nat)

  datatype Outcome<+T> = Pending | Ready(value: T) | BrokenPipe

  function Flatten(chunks: seq<Chunk>): Bytes {
    if chunks == [] then [] else chunks[0].bytes + Flatten(chunks[1..])
  }

  /** No chunk is empty or over its capacity, and the offset lies inside the first one. */
  predicate Chunked(chunks: seq<Chunk>, offset: nat) {
    && (forall i :: 0 <= i < |chunks| ==> 0 < |chunks[i].bytes| <= chunks[i].capacity)
    && (if chunks == [] then offset == 0 else offset < |chunks[0].bytes|)
  }

  function Rest(chunks: seq<Chunk>, offset: nat): Bytes
    requires Chunked(chunks, offset)
  {
    if chunks == [] then [] else chunks[0].bytes[offset..] + Flatten(chunks[1..])
  }

  lemma {:induction false} FlattenAppend(chunks: seq<Chunk>, chunk: Chunk)
    ensures Flatten(chunks + [chunk]) == Flatten(chunks) + chunk.bytes
  {
    if chunks == [] {
      assert chunks + [chunk] == [chunk];
      assert Flatten([chunk]) == chunk.bytes + Flatten([chunk][1..]);
    } else {
      assert (chunks + [chunk])[1..] == chunks[1..] + [chunk];
      FlattenAppend(chunks[1..], chunk);
    }
  }

  /** A new chunk at the back. */
  lemma PushBack(chunks: seq<Chunk>, offset: nat, bytes: Bytes, capacity: nat)
    requires Chunked(chunks, offset) && 0 < |bytes| <= capacity
    ensures var more := chunks + [Chunk(bytes, capacity)];
      Chunked(more, offset) && Rest(more, offset) == Rest(chunks, offset) + bytes
  {
    var more := chunks + [Chunk(bytes, capacity)];
    if chunks == [] {
      assert more[1..] == [];
    } else {
      assert more[1..] == chunks[1..] + [Chunk(bytes, capacity)];
      FlattenAppend(chunks[1..], Chunk(bytes, capacity));
    }
  }

  function Extended(chunk: Chunk, bytes: Bytes): Chunk { chunk.(bytes := chunk.bytes + bytes) }

  lemma Grown(taken: Bytes, rest: Bytes, piece: Bytes)
    ensures taken + (rest + piece) == taken + rest + piece
  {}

  lemma ExtendOnly(chunk: Chunk, offset: nat, bytes: Bytes)
    requires offset < |chunk.bytes|
    ensures Extended(chunk, bytes).bytes[offset..] + Flatten([]) == chunk.bytes[offset..] + Flatten([]) + bytes
  {}

  lemma ExtendLast(front: Bytes, middle: seq<Chunk>, last: Chunk, bytes: Bytes)
    ensures front + Flatten(middle + [Extended(last, bytes)]) == front + Flatten(middle + [last]) + bytes
  {
    FlattenAppend(middle, last);
    FlattenAppend(middle, Extended(last, bytes));
    Grown(Flatten(middle), last.bytes, bytes);
    Grown(front, Flatten(middle) + last.bytes, bytes);
  }

  /** Bytes added to the last chunk. */
  lemma ExtendBack(chunks: seq<Chunk>, offset: nat, bytes: Bytes)
    requires Chunked(chunks, offset) && chunks != []
    requires |chunks[|chunks| - 1].bytes| + |bytes| <= chunks[|chunks| - 1].capacity
    ensures var more := chunks[|chunks| - 1 := Extended(chunks[|chunks| - 1], bytes)];
      Chunked(more, offset) && Rest(more, offset) == Rest(chunks, offset) + bytes
  {
    var n := |chunks| - 1;
    var more := chunks[n := Extended(chunks[n], bytes)];
    if n == 0 {
      assert more[1..] == [] && chunks[1..] == [];
      ExtendOnly(chunks[0], offset, bytes);
    } else {
      assert chunks[1..] == chunks[1..n] + [chunks[n]] && more[1..] == chunks[1..n] + [Extended(chunks[n], bytes)];
      ExtendLast(chunks[0].bytes[offset..], chunks[1..n], chunks[n], bytes);
    }
  }

  /** What remains after `count` bytes of the front chunk; a finished chunk is popped. */
  function Advance(chunks: seq<Chunk>, offset: nat, count: nat): (seq<Chunk>, nat)
    requires chunks != []
  {
    if offset + count == |chunks[0].bytes| then (chunks[1..], 0) else (chunks, offset + count)
  }

  /** Without an offset, what remains is everything. */
  lemma RestWhole(chunks: seq<Chunk>)
    requires Chunked(chunks, 0)
    ensures Rest(chunks, 0) == Flatten(chunks)
  {
    if chunks != [] {
      assert chunks[0].bytes[0..] == chunks[0].bytes;
    }
  }

  lemma CutFront(front: Bytes, offset: nat, count: nat, tail: Bytes)
    requires offset + count <= |front|
    ensures front[offset..] + tail == front[offset..offset + count] + (front[offset + count..] + tail)
    ensures offset + count == |front| ==> front[offset + count..] + tail == tail
  {}

  lemma ChunkedAdvances(chunks: seq<Chunk>, offset: nat, count: nat)
    requires Chunked(chunks, offset) && chunks != [] && 0 < count <= |chunks[0].bytes| - offset
    ensures var (chunks', offset') := Advance(chunks, offset, count); Chunked(chunks', offset')
  {}

  lemma RestAdvances(chunks: seq<Chunk>, offset: nat, count: nat)
    requires Chunked(chunks, offset) && chunks != [] && 0 < count <= |chunks[0].bytes| - offset
    ensures var (chunks', offset') := Advance(chunks, offset, count);
      Chunked(chunks', offset') &&
        Rest(chunks, offset) == chunks[0].bytes[offset..offset + count] + Rest(chunks', offset')
  {
    ChunkedAdvances(chunks, offset, count);
    CutFront(chunks[0].bytes, offset, count, Flatten(chunks[1..]));
    if offset + count == |chunks[0].bytes| {
      RestWhole(chunks[1..]);
    }
  }

  class Pipe {
    var chunks: seq<Chunk>
    var offset: nat
    var bytes: nat
    const capacity: Capacity
    var writerClosed: bool
    var readerClosed: bool
    ghost var written: Bytes
    ghost var taken: Bytes
    ghost var held: Bytes

    /** The chunks hold `held`, and `bytes` is its length. */
    ghost predicate Stored()
      reads this
    {
      if readerClosed then chunks == [] && bytes == 0
      else Chunked(chunks, offset) && held == Rest(chunks, offset) && bytes == |held|
    }

    /** The pipe holds exactly what was written and not yet read. */
    ghost predicate Valid()
      reads this, capacity
    {
      && WellFormed(capacity.State()) && capacity.initial > 0
      && Stored()
      && (!readerClosed ==> written == taken + held)
    }

    constructor (initial: nat, now: nat)
      requires 0 < initial <= USIZE_MAX
      ensures Valid() && fresh(capacity) && written == taken == [] && !writerClosed && !readerClosed && bytes == 0
    {
      chunks, offset, bytes, writerClosed, readerClosed := [], 0, 0, false, false;
      capacity := new Capacity(initial, now);
      written, taken, held := [], [], [];
    }

    /** Copies from the front chunk. */
    method CopyFront(limit: nat) returns (piece: Bytes)
      requires Stored() && !readerClosed && chunks != [] && limit > 0
      modifies this`chunks, this`offset, this`bytes, this`held
      ensures Stored() && 0 < |piece| <= limit && old(held) == piece + held
    {
      var front := chunks[0].bytes;
      var count := if limit < |front| - offset then limit else |front| - offset;
      RestAdvances(chunks, offset, count);
      piece := front[offset..offset + count];
      var (chunks', offset') := Advance(chunks, offset, count);
      chunks, offset, bytes := chunks', offset', bytes - count;
      held := Rest(chunks', offset');
    }

    /** Copies until the buffer is full or the pipe is empty. */
    method CopyOut(limit: nat) returns (out: Bytes)
      requires Stored() && !readerClosed
      modifies this`chunks, this`offset, this`bytes, this`held
      ensures Stored() && |out| <= limit && old(held) == out + held && (|out| < limit ==> held == [])
    {
      out := [];
      while |out| < limit && chunks != []
        invariant Stored() && |out| <= limit && old(held) == out + held
        decreases limit - |out|
      {
        var piece := CopyFront(limit - |out|);
        Grown(out, piece, held);
        out := out + piece;
      }
    }

    /** Reads up to `limit` bytes in writing order. An empty result for a non-empty buffer is end
        of stream: the writer is closed and everything it wrote was read. */
    method Read(limit: nat, now: nat) returns (r: Outcome<Bytes>)
      requires Valid() && !readerClosed
      modifies this`chunks, this`offset, this`bytes, this`taken, this`held, capacity
      ensures Valid() && !r.BrokenPipe?
      ensures r.Ready? ==> |r.value| <= limit && taken == old(taken) + r.value
      ensures r.Ready? && |r.value| < limit ==> taken == written
      ensures r.Pending? ==> taken == old(taken) == written && !writerClosed
      ensures r.Ready? && r.value == [] && limit > 0 ==> writerClosed && written == taken
    {
      if limit == 0 {
        assert taken + [] == taken;
        return Ready([]);
      }
      var out := CopyOut(limit);
      Grown(taken, out, held);
      taken := taken + out;
      assert held == [] ==> taken + held == taken;
      if out != [] {
        PollKeepsWellFormed(capacity.State(), now);
        capacity.Complete(|out|, now);
        return Ready(out);
      }
      if writerClosed {
        return Ready([]);
      }
      r := Pending;
    }

    /** Appends to the last chunk while it has room, otherwise to a new one. */
    method Append(data: Bytes, reserved: nat) returns (count: nat)
      requires Stored() && !readerClosed && 0 < |data| <= CHUNK <= reserved
      modifies this`chunks, this`bytes, this`held
      ensures Stored() && 0 < count <= |data| && held == old(held) + data[..count] && bytes == old(bytes) + count
    {
      var room := if chunks == [] then 0 else chunks[|chunks| - 1].capacity - |chunks[|chunks| - 1].bytes|;
      count := if 0 < room then Min(|data|, room) else |data|;
      var piece := data[..count];
      if room > 0 {
        ExtendBack(chunks, offset, piece);
        chunks := chunks[|chunks| - 1 := Extended(chunks[|chunks| - 1], piece)];
      } else {
        PushBack(chunks, offset, piece, reserved);
        chunks := chunks + [Chunk(piece, reserved)];
      }
      bytes := bytes + count;
      held := held + piece;
    }

    /** Accepts a prefix, keeping the pipe within the target just read. An empty pipe always
        accepts something. */
    method Write(data: Bytes, now: nat, reserved: nat) returns (r: Outcome<nat>)
      requires Valid() && reserved >= CHUNK
      modifies this`chunks, this`bytes, this`written, this`held, capacity
      ensures Valid()
      ensures r.Ready? ==> r.value <= |data| && written == old(written) + data[..r.value]
      ensures !r.Ready? ==> written == old(written)
      ensures r.BrokenPipe? <==> data != [] && (readerClosed || writerClosed)
      ensures r.Ready? && data != [] ==> 0 < r.value && bytes == old(bytes) + r.value <= capacity.target
      ensures r.Pending? ==> capacity.target <= bytes && bytes > 0
    {
      if data == [] {
        assert written + data[..0] == written;
        return Ready(0);
      }
      if readerClosed || writerClosed {
        return BrokenPipe;
      }
      PollKeepsWellFormed(capacity.State(), now);
      var target := capacity.Target(now);
      var space := if target < bytes then 0 else target - bytes;
      if space == 0 {
        return Pending;
      }
      var offered := data[..Min(Min(space, |data|), CHUNK)];
      var count := Append(offered, reserved);
      assert offered[..count] == data[..count];
      Grown(taken, old(held), data[..count]);
      written := written + data[..count];
      r := Ready(count);
    }

    /** Shutdown, and the drop of the writing side. */
    method CloseWriter()
      requires Valid()
      modifies this`writerClosed
      ensures Valid() && writerClosed
    {
      writerClosed := true;
    }

    /** The drop of the reading side discards what is buffered. */
    method CloseReader()
      requires Valid()
      modifies this`readerClosed, this`chunks, this`bytes
      ensures Valid() && readerClosed && bytes == 0
    {
      readerClosed := true;
      chunks := [];
      bytes := 0;
    }
  }
}
