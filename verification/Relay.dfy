/** The chunk relay of crates/protocol/src/chunk.rs. A stream answers every poll from an arbitrary
    script, so that a run stands for one schedule of pending, partial and failing I/O. */
module Relay {
  import opened Common

  datatype ReadOutcome = ReadPending | Chunk(bytes: Bytes) | ReadError

  datatype WriteOutcome = WritePending | Accept(n: nat) | WriteError

  /** Flush and shutdown. */
  datatype ControlOutcome = ControlPending | ControlOk | ControlError

  /** A native stream: its scripts, and what happened to it so far. */
  datatype Io = Io(
    readScript: seq<ReadOutcome>, given: Bytes, credit: nat,
    writeScript: seq<WriteOutcome>, accepted: Bytes,
    controlScript: seq<ControlOutcome>, shut: bool)

  /** `Prefix` may wrap a stream that is itself a `Prefix`. */
  datatype Stream = Native(io: Io) | Prefix(bytes: Bytes, prefixRead: bool, inner: Stream)

  datatype Poll<T> = Pending | Ready(value: T) | Error

  function Base(s: Stream): Io { if s.Native? then s.io else Base(s.inner) }

  /** The read-ahead not yet handed out, outermost first. */
  function ReadAhead(s: Stream): Bytes { if s.Native? then [] else s.bytes + ReadAhead(s.inner) }

  /** Whether the last chunk came from the native stream, or none was read. */
  predicate FromNative(s: Stream) { s.Native? || (!s.prefixRead && FromNative(s.inner)) }

  /** What reading cannot change, and what writing cannot change. */
  predicate SameWriteSide(s: Stream, t: Stream) {
    Base(s).accepted == Base(t).accepted && Base(s).shut == Base(t).shut
  }

  predicate SameReadSide(s: Stream, t: Stream) {
    && Base(s).given == Base(t).given && Base(s).credit == Base(t).credit
    && ReadAhead(s) == ReadAhead(t) && FromNative(s) == FromNative(t)
  }

  /** `poll_read_chunk`. Read-ahead comes first; only then does the native stream give bytes. */
  function PollRead(s: Stream): (r: (Poll<Bytes>, Stream))
    ensures SameWriteSide(s, r.1) && Base(r.1).credit == Base(s).credit
    ensures r.0.Ready? && !FromNative(r.1) ==>
      ReadAhead(s) == r.0.value + ReadAhead(r.1) && r.0.value != [] && Base(r.1).given == Base(s).given
    ensures r.0.Ready? && FromNative(r.1) ==>
      ReadAhead(s) == ReadAhead(r.1) == [] && Base(r.1).given == Base(s).given + r.0.value
    ensures !r.0.Ready? ==> ReadAhead(s) == ReadAhead(r.1) == [] && FromNative(r.1) && Base(r.1).given == Base(s).given
  {
    match s
    case Native(io) =>
      if io.readScript == [] then (Pending, s)
      else
        var rest := io.(readScript := io.readScript[1..]);
        (match io.readScript[0]
         case ReadPending => (Pending, Native(rest))
         case ReadError => (Error, Native(rest))
         case Chunk(bytes) => (Ready(bytes), Native(rest.(given := io.given + bytes))))
    case Prefix(bytes, _, inner) =>
      if bytes != [] then (Ready(bytes), Prefix([], true, inner))
      else
        var (outcome, next) := PollRead(inner);
        (outcome, Prefix([], false, next))
  }

  /** `poll_write_chunk`: the accepted prefix of the chunk, at most all of it. */
  function PollWrite(s: Stream, bytes: Bytes): (r: (Poll<nat>, Stream))
    ensures SameReadSide(s, r.1) && Base(r.1).shut == Base(s).shut
    ensures |Base(r.1).writeScript| + 1 >= |Base(s).writeScript|
    ensures r.0.Ready? ==> r.0.value <= |bytes| && Base(r.1).accepted == Base(s).accepted + bytes[..r.0.value]
    ensures !r.0.Ready? ==> Base(r.1).accepted == Base(s).accepted
  {
    match s
    case Native(io) =>
      if io.writeScript == [] then (Pending, s)
      else
        var rest := io.(writeScript := io.writeScript[1..]);
        (match io.writeScript[0]
         case WritePending => (Pending, Native(rest))
         case WriteError => (Error, Native(rest))
         case Accept(n) =>
           var m := if n < |bytes| then n else |bytes|;
           (Ready(m), Native(rest.(accepted := io.accepted + bytes[..m]))))
    case Prefix(_, _, inner) =>
      var (outcome, next) := PollWrite(inner, bytes);
      (outcome, s.(inner := next))
  }

  /** `poll_flush` and `poll_shutdown`. */
  function PollControl(s: Stream, closing: bool): (r: (Poll<()>, Stream))
    ensures SameReadSide(s, r.1) && Base(r.1).accepted == Base(s).accepted &&
      Base(r.1).writeScript == Base(s).writeScript
    ensures Base(r.1).shut == (Base(s).shut || (closing && r.0.Ready?))
  {
    match s
    case Native(io) =>
      if io.controlScript == [] then (Pending, s)
      else
        var rest := io.(controlScript := io.controlScript[1..]);
        (match io.controlScript[0]
         case ControlPending => (Pending, Native(rest))
         case ControlError => (Error, Native(rest))
         case ControlOk => (Ready(()), Native(rest.(shut := io.shut || closing))))
    case Prefix(_, _, inner) =>
      var (outcome, next) := PollControl(inner, closing);
      (outcome, s.(inner := next))
  }

  /** `consume_chunk`: a prefix keeps the credit for its own bytes. */
  function Consume(s: Stream, n: nat): (r: Stream)
    ensures SameWriteSide(s, r) && ReadAhead(r) == ReadAhead(s) && FromNative(r) == FromNative(s)
    ensures Base(r).given == Base(s).given
    ensures Base(r).credit == Base(s).credit + if FromNative(s) then n else 0
  {
    match s
    case Native(io) => Native(io.(credit := io.credit + n))
    case Prefix(_, prefixRead, inner) => if prefixRead then s else s.(inner := Consume(inner, n))
  }

  // ---------------------------------------------------------------- one direction

  /** Everything handed out so far, and in which order: the read-ahead, then native bytes. */
  predicate Sourced(r0: Stream, r: Stream, read: Bytes) {
    && Base(r0).given <= Base(r).given
    && ReadAhead(r0) + Base(r).given[|Base(r0).given|..] == read + ReadAhead(r)
    && (Base(r).given != Base(r0).given ==> ReadAhead(r) == [])
    && (!FromNative(r) ==> Base(r).given == Base(r0).given)
  }

  /** The native stream has back the credit for all its bytes except the ones still held. */
  predicate Credited(r0: Stream, r: Stream, held: nat) {
    Base(r).credit + (if FromNative(r) then held else 0) == Base(r0).credit + |Base(r).given| - |Base(r0).given|
  }

  /** What was accepted, followed by what is held, is what was read. */
  predicate Accepted(w0: Stream, w: Stream, read: Bytes, held: Bytes, transferred: nat) {
    && transferred <= |read| && held == read[transferred..]
    && Base(w).accepted == Base(w0).accepted + read[..transferred]
  }

  predicate Ends(w0: Stream, r: Stream, w: Stream, held: Bytes, eof: bool, done: bool) {
    && (eof ==> held == [] && FromNative(r) && ReadAhead(r) == [])
    && (done ==> eof)
    && (Base(w).shut == (Base(w0).shut || done))
  }

  /** What is true between polls, measured from the streams the relay started with. `read` is
      everything the reader handed out. */
  predicate Flows(r0: Stream, w0: Stream, r: Stream, w: Stream,
      read: Bytes, held: Bytes, transferred: nat, eof: bool, done: bool)
  {
    && Sourced(r0, r, read) && Credited(r0, r, |held|)
    && Accepted(w0, w, read, held, transferred) && Ends(w0, r, w, held, eof, done)
  }

  /** Nothing read yet. */
  lemma FlowsAtStart(r0: Stream, w0: Stream)
    ensures Flows(r0, w0, r0, w0, [], [], 0, false, false)
  {
    assert Base(r0).given[|Base(r0).given|..] == [];
  }

  lemma AddAtEnd(ahead: Bytes, before: Bytes, c: Bytes, read: Bytes)
    requires ahead + before == read + []
    ensures ahead + (before + c) == read + c + []
  {
    assert read + [] == read && read + c + [] == read + c;
    assert ahead + (before + c) == ahead + before + c;
  }

  lemma MoveFront(read: Bytes, c: Bytes, rest: Bytes)
    ensures read + (c + rest) == read + c + rest
  {}

  lemma TailGrows(g0: Bytes, g: Bytes, c: Bytes)
    requires g0 <= g
    ensures g0 <= g + c && (g + c)[|g0|..] == g[|g0|..] + c
  {}

  lemma SourcedRead(r0: Stream, r: Stream, read: Bytes)
    requires Sourced(r0, r, read)
    ensures var (outcome, next) := PollRead(r);
      Sourced(r0, next, if outcome.Ready? then read + outcome.value else read)
  {
    var (outcome, next) := PollRead(r);
    if outcome.Ready? {
      if FromNative(next) {
        TailGrows(Base(r0).given, Base(r).given, outcome.value);
        AddAtEnd(ReadAhead(r0), Base(r).given[|Base(r0).given|..], outcome.value, read);
      } else {
        MoveFront(read, outcome.value, ReadAhead(next));
      }
    }
  }

  lemma FlowsRead(r0: Stream, w0: Stream, r: Stream, w: Stream, read: Bytes, transferred: nat)
    requires Flows(r0, w0, r, w, read, [], transferred, false, false)
    ensures var (outcome, next) := PollRead(r);
      if outcome.Ready?
      then Flows(r0, w0, next, w, read + outcome.value, outcome.value, transferred, outcome.value == [], false)
      else Flows(r0, w0, next, w, read, [], transferred, false, false)
  {
    var (outcome, next) := PollRead(r);
    SourcedRead(r0, r, read);
    if outcome.Ready? {
      var more := read + outcome.value;
      assert more[transferred..] == outcome.value && more[..transferred] == read[..transferred];
    }
  }

  lemma AcceptedWrite(w0: Stream, w: Stream, read: Bytes, held: Bytes, transferred: nat)
    requires Accepted(w0, w, read, held, transferred)
    ensures var (outcome, next) := PollWrite(w, held);
      if outcome.Ready? then Accepted(w0, next, read, held[outcome.value..], transferred + outcome.value)
      else Accepted(w0, next, read, held, transferred)
  {
    var (outcome, next) := PollWrite(w, held);
    if outcome.Ready? {
      CutHeld(Base(w0).accepted, read, transferred, outcome.value);
    }
  }

  lemma CutHeld(before: Bytes, read: Bytes, t: nat, n: nat)
    requires t + n <= |read|
    ensures before + read[..t] + read[t..][..n] == before + read[..t + n] && read[t..][n..] == read[t + n..]
  {
    assert read[..t] + read[t..][..n] == read[..t + n];
  }

  /** Returning credit changes nothing about what was read. */
  lemma SourcedConsume(r0: Stream, r: Stream, read: Bytes, n: nat)
    requires Sourced(r0, r, read)
    ensures Sourced(r0, Consume(r, n), read)
  {}

  lemma CreditedConsume(r0: Stream, r: Stream, held: nat, n: nat)
    requires Credited(r0, r, held) && n <= held
    ensures Credited(r0, Consume(r, n), held - n)
  {}

  /** The writer took `n` bytes of the held chunk. */
  lemma FlowsTaken(r0: Stream, w0: Stream, r: Stream, w: Stream, w': Stream, read: Bytes, held: Bytes,
      transferred: nat, n: nat)
    requires Flows(r0, w0, r, w, read, held, transferred, false, false) && n <= |held|
    requires Accepted(w0, w', read, held[n..], transferred + n) && Base(w').shut == Base(w).shut
    ensures Flows(r0, w0, Consume(r, n), w', read, held[n..], transferred + n, false, false)
  {
    SourcedConsume(r0, r, read, n);
    CreditedConsume(r0, r, |held|, n);
  }

  lemma FlowsControl(r0: Stream, w0: Stream, r: Stream, w: Stream, read: Bytes, held: Bytes, transferred: nat,
      eof: bool, closing: bool)
    requires Flows(r0, w0, r, w, read, held, transferred, eof, false) && (closing ==> eof)
    ensures var (outcome, next) := PollControl(w, closing);
      Flows(r0, w0, r, next, read, held, transferred, eof, closing && outcome.Ready?)
  {}

  class Direction {
    var bytes: Bytes
    var transferred: nat
    var eof: bool
    var done: bool
    ghost var read: Bytes

    ghost predicate Moves(r0: Stream, w0: Stream, r: Stream, w: Stream)
      reads this
    {
      Flows(r0, w0, r, w, read, bytes, transferred, eof, done)
    }

    constructor (ghost r0: Stream, ghost w0: Stream)
      ensures Moves(r0, w0, r0, w0) && fresh(this)
    {
      bytes, transferred, eof, done, read := [], 0, false, false, [];
      FlowsAtStart(r0, w0);
    }

    /** Reads when nothing is held. */
    method Fetch(ghost r0: Stream, ghost w0: Stream, reader: Stream, writer: Stream)
        returns (r: Poll<()>, reader': Stream)
      requires Moves(r0, w0, reader, writer) && bytes == [] && !eof
      modifies this
      ensures Moves(r0, w0, reader', writer) && SameWriteSide(reader, reader') && done == old(done)
      ensures r.Ready? ==> eof == (bytes == [])
      ensures !r.Ready? ==> bytes == [] && !eof
    {
      FlowsRead(r0, w0, reader, writer, read, transferred);
      var (outcome, next) := PollRead(reader);
      reader' := next;
      match outcome
      case Pending => r := Pending;
      case Error => r := Error;
      case Ready(chunk) =>
        bytes := chunk;
        read := read + chunk;
        eof := chunk == [];
        r := Ready(());
    }

    /** Offers the held chunk and returns the credit for what was accepted. */
    method Push(ghost r0: Stream, ghost w0: Stream, reader: Stream, writer: Stream)
      returns (r: Poll<()>, reader': Stream, writer': Stream)
      requires Moves(r0, w0, reader, writer) && !eof
      modifies this
      ensures Moves(r0, w0, reader', writer') && SameWriteSide(reader, reader') && SameReadSide(writer, writer') &&
        !eof && !done
      ensures |Base(writer').writeScript| + 1 >= |Base(writer).writeScript|
    {
      AcceptedWrite(w0, writer, read, bytes, transferred);
      var (outcome, next) := PollWrite(writer, bytes);
      reader', writer' := reader, next;
      match outcome
      case Pending => r := Pending;
      case Error => r := Error;
      case Ready(n) =>
        if n == 0 {
          assert bytes[0..] == bytes;
          r := Error;
        } else {
          FlowsTaken(r0, w0, reader, writer, next, read, bytes, transferred, n);
          bytes := bytes[n..];
          reader' := Consume(reader, n);
          transferred := transferred + n;
          r := Ready(());
        }
    }

    /** Flushes while waiting for input, and shuts the writer down after the last byte. */
    method Settle(ghost r0: Stream, ghost w0: Stream, reader: Stream, writer: Stream)
      returns (r: Poll<()>, writer': Stream)
      requires Moves(r0, w0, reader, writer) && !done
      modifies this`done
      ensures Moves(r0, w0, reader, writer') && SameReadSide(writer, writer')
      ensures Base(writer').writeScript == Base(writer).writeScript
      ensures r.Ready? <==> done
    {
      FlowsControl(r0, w0, reader, writer, read, bytes, transferred, eof, eof);
      var (outcome, next) := PollControl(writer, eof);
      writer' := next;
      if outcome.Error? {
        r := Error;
      } else if eof && outcome.Ready? {
        done := true;
        r := Ready(());
      } else {
        r := Pending;
      }
    }

    /** At most 32 writes per poll, so one direction cannot keep the executor. */
    method PollOnce(ghost r0: Stream, ghost w0: Stream, reader: Stream, writer: Stream)
      returns (r: Poll<()>, reader': Stream, writer': Stream)
      requires Moves(r0, w0, reader, writer)
      modifies this
      ensures Moves(r0, w0, reader', writer') && SameWriteSide(reader, reader') && SameReadSide(writer, writer')
      ensures |Base(writer').writeScript| + 32 >= |Base(writer).writeScript|
      ensures r.Ready? <==> done
    {
      reader', writer' := reader, writer;
      if done {
        return Ready(()), reader', writer';
      }
      for i := 0 to 32
        invariant !done && Moves(r0, w0, reader', writer')
        invariant SameWriteSide(reader, reader') && SameReadSide(writer, writer')
        invariant |Base(writer').writeScript| + i >= |Base(writer).writeScript|
      {
        var waiting := false;
        if bytes == [] && !eof {
          var fetched;
          fetched, reader' := Fetch(r0, w0, reader', writer');
          if fetched.Error? {
            return Error, reader', writer';
          }
          waiting := fetched.Pending?;
        }
        if waiting || eof {
          r, writer' := Settle(r0, w0, reader', writer');
          return;
        }
        var pushed;
        pushed, reader', writer' := Push(r0, w0, reader', writer');
        if !pushed.Ready? {
          return pushed, reader', writer';
        }
      }
      r := Pending;
    }
  }

  // ---------------------------------------------------------------- both directions

  /** Everything that went in one way came out on the other side, and the credit went back. */
  predicate Finished(r0: Stream, w0: Stream, r: Stream, w: Stream, transferred: nat) {
    && Base(r0).given <= Base(r).given && ReadAhead(r) == []
    && Base(w).accepted == Base(w0).accepted + ReadAhead(r0) + Base(r).given[|Base(r0).given|..]
    && transferred == |ReadAhead(r0)| + |Base(r).given| - |Base(r0).given|
    && Base(r).credit - Base(r0).credit == |Base(r).given| - |Base(r0).given|
    && Base(w).shut
  }

  lemma DoneIsFinished(r0: Stream, w0: Stream, r: Stream, w: Stream, read: Bytes, held: Bytes, transferred: nat,
      eof: bool)
    requires Flows(r0, w0, r, w, read, held, transferred, eof, true)
    ensures Finished(r0, w0, r, w, transferred)
  {
    assert held == [] && read[..transferred] == read && read + [] == read;
    assert Base(w0).accepted + (ReadAhead(r0) + Base(r).given[|Base(r0).given|..])
        == Base(w0).accepted + ReadAhead(r0) + Base(r).given[|Base(r0).given|..];
  }

  /** The facts one direction keeps survive what the other does to the same streams. */
  lemma FlowsFrame(
    r0: Stream, w0: Stream, r: Stream, w: Stream, r': Stream, w': Stream,
    read: Bytes, held: Bytes, transferred: nat, eof: bool, done: bool)
    requires Flows(r0, w0, r, w, read, held, transferred, eof, done) && SameReadSide(r, r') && SameWriteSide(w, w')
    ensures Flows(r0, w0, r', w', read, held, transferred, eof, done)
  {}

  /** `copy_bidirectional`, polled `rounds` times by its executor. Either it completed, and both
      directions are finished, or it failed or is still pending. */
  method CopyBidirectional(a0: Stream, b0: Stream, rounds: nat) returns (r: Poll<(nat, nat)>, a: Stream, b: Stream)
    ensures r.Ready? ==> Finished(a0, b0, a, b, r.value.0) && Finished(b0, a0, b, a, r.value.1)
    ensures exists read, held, n, eof, done :: Flows(a0, b0, a, b, read, held, n, eof, done)
    ensures exists read, held, n, eof, done :: Flows(b0, a0, b, a, read, held, n, eof, done)
  {
    a, b := a0, b0;
    var upload := new Direction(a0, b0);
    var download := new Direction(b0, a0);
    r := Pending;
    for i := 0 to rounds
      invariant upload != download && fresh(upload) && fresh(download)
      invariant upload.Moves(a0, b0, a, b) && download.Moves(b0, a0, b, a)
      invariant r.Pending?
    {
      var first, second;
      ghost var a1, b1 := a, b;
      first, a, b := upload.PollOnce(a0, b0, a, b);
      FlowsFrame(b0, a0, b1, a1, b, a, download.read, download.bytes, download.transferred, download.eof,
        download.done);
      if first.Error? {
        return Error, a, b;
      }
      a1, b1 := a, b;
      second, b, a := download.PollOnce(b0, a0, b, a);
      FlowsFrame(a0, b0, a1, b1, a, b, upload.read, upload.bytes, upload.transferred, upload.eof, upload.done);
      if second.Error? {
        return Error, a, b;
      }
      if first.Ready? && second.Ready? {
        DoneIsFinished(a0, b0, a, b, upload.read, upload.bytes, upload.transferred, upload.eof);
        DoneIsFinished(b0, a0, b, a, download.read, download.bytes, download.transferred, download.eof);
        return Ready((upload.transferred, download.transferred)), a, b;
      }
    }
  }
}
