/** Both ends of one direction of the duplex pipe of crates/protocol/src/stream_buffer.rs, each on
    its own task: an end registers its waker, then takes the lock, then wakes the other end. One
    step is one registration, one lock section or one wake. */
module PipeWakers {
  import opened Common
  import opened FeedbackCapacity
  import B = StreamBuffer

  /** An `AtomicWaker`: whether it holds a waker, and whether that one fired since. */
  datatype Waker = Waker(registered: bool, woken: bool)

  const ARMED: Waker := Waker(true, false)

  function Woken(w: Waker): Waker { if w.registered then Waker(false, true) else w }

  /** What the lock guards; `written` and `taken` are history. */
  datatype Guarded = Guarded(
    held: Bytes, capacity: Feedback, writerClosed: bool, readerClosed: bool, written: Bytes, taken: Bytes)

  /** An end: between calls, between registration and lock, about to wake the other end. */
  datatype Pc = Idle | Locking(limit: nat, data: Bytes) | Waking(last: bool) | Gone

  /** `asleep`: the last call returned Pending. */
  datatype End = End(pc: Pc, waker: Waker, asleep: bool)

  datatype State = State(guarded: Guarded, reader: End, writer: End)

  datatype Step =
    | Read(limit: nat)
    | LockRead(now: nat)
    | WakeWriter
    | DropReader
    | Write(data: Bytes)
    | LockWrite(now: nat, room: nat)    // `room` is what the last chunk has left
    | WakeReader
    | Shutdown
    | DropWriter

  function Init(initial: nat, now: nat): State {
    var end := End(Idle, Waker(false, false), false);
    State(Guarded([], Feedback(initial, initial, now, 0), false, false, [], []), end, end)
  }

  /** The lock section of a read: what it leaves, and the end that goes on. */
  function ReadOp(g: Guarded, r: End, now: nat): (Guarded, End)
    requires r.pc.Locking?
  {
    var n := Min(r.pc.limit, |g.held|);
    if n > 0 then
      (g.(held := g.held[n..], taken := g.taken + g.held[..n], capacity := Add(Poll(g.capacity, now), n)),
       r.(pc := Waking(false)))
    else (g, r.(pc := Idle, asleep := !g.writerClosed))
  }

  /** What a write of `data` takes. */
  function Accepted(data: Bytes, space: nat, room: nat): nat {
    var offered := Min(Min(space, |data|), B.CHUNK);
    if room > 0 then Min(offered, room) else offered
  }

  function WriteOp(g: Guarded, w: End, now: nat, room: nat): (Guarded, End)
    requires w.pc.Locking?
  {
    if g.readerClosed || g.writerClosed then (g, w.(pc := Idle))
    else
      var f := Poll(g.capacity, now);
      var n := Accepted(w.pc.data, SaturatingSub(f.target, |g.held|), room);
      if SaturatingSub(f.target, |g.held|) == 0 then (g.(capacity := f), w.(pc := Idle, asleep := true))
      else (g.(held := g.held + w.pc.data[..n], written := g.written + w.pc.data[..n], capacity := f),
            w.(pc := Waking(false)))
  }

  function AfterWake(e: End): End
    requires e.pc.Waking?
  {
    e.(pc := if e.pc.last then Gone else Idle)
  }

  function Next(s: State, step: Step): State {
    match step
    case Read(limit) =>
      if !s.reader.pc.Idle? then s
      else if limit == 0 then s.(reader := s.reader.(asleep := false))
      else s.(reader := End(Locking(limit, []), ARMED, false))
    case LockRead(now) =>
      if !s.reader.pc.Locking? then s
      else
        var (g, r) := ReadOp(s.guarded, s.reader, now);
        s.(guarded := g, reader := r)
    case WakeWriter =>
      if !s.reader.pc.Waking? then s
      else s.(reader := AfterWake(s.reader), writer := s.writer.(waker := Woken(s.writer.waker)))
    case DropReader =>
      if !s.reader.pc.Idle? then s
      else s.(guarded := s.guarded.(readerClosed := true, held := []),
              reader := s.reader.(pc := Waking(true), asleep := false))
    case Write(data) =>
      if !s.writer.pc.Idle? then s
      else if data == [] then s.(writer := s.writer.(asleep := false))
      else s.(writer := End(Locking(0, data), ARMED, false))
    case LockWrite(now, room) =>
      if !s.writer.pc.Locking? then s
      else
        var (g, w) := WriteOp(s.guarded, s.writer, now, room);
        s.(guarded := g, writer := w)
    case WakeReader =>
      if !s.writer.pc.Waking? then s
      else s.(writer := AfterWake(s.writer), reader := s.reader.(waker := Woken(s.reader.waker)))
    case Shutdown => CloseWriter(s, false)
    case DropWriter => CloseWriter(s, true)
  }

  /** `poll_shutdown`, and the drop of the writing end. */
  function CloseWriter(s: State, last: bool): State {
    if !s.writer.pc.Idle? then s
    else s.(guarded := s.guarded.(writerClosed := true), writer := s.writer.(pc := Waking(last), asleep := false))
  }

  function Exec(s: State, steps: seq<Step>): State
    decreases |steps|
  {
    if steps == [] then s else Next(Exec(s, steps[..|steps| - 1]), steps[|steps| - 1])
  }

  // ---------------------------------------------------------------- the invariant

  predicate GuardedOk(g: Guarded) {
    && WellFormed(g.capacity) && g.capacity.initial > 0
    && (g.readerClosed ==> g.held == [])
    && (!g.readerClosed ==> g.written == g.taken + g.held)
  }

  /** An end that sleeps or is about to look has not lost its waker. */
  predicate EndOk(e: End) {
    && (e.asleep ==> e.pc.Idle?)
    && (e.asleep || e.pc.Locking? ==> e.waker.registered || e.waker.woken)
    && (e.pc.Locking? ==> e.pc.limit > 0 || e.pc.data != [])
  }

  predicate Sleeps(e: End) { e.asleep && !e.waker.woken }

  /** What a sleeping reader waits for has not happened, or its wake-up is under way. */
  predicate ReaderWaits(s: State) {
    Sleeps(s.reader) ==> s.writer.pc.Waking? || (s.guarded.held == [] && !s.guarded.writerClosed)
  }

  predicate WriterWaits(s: State) {
    Sleeps(s.writer) ==>
      s.reader.pc.Waking? || (0 < s.guarded.capacity.target <= |s.guarded.held| && !s.guarded.readerClosed)
  }

  predicate Inv(s: State) {
    && GuardedOk(s.guarded) && EndOk(s.reader) && EndOk(s.writer)
    && (s.reader.pc.Locking? ==> s.reader.pc.limit > 0)
    && (s.guarded.readerClosed <==> s.reader.pc.Gone? || s.reader.pc == Waking(true))
    && ReaderWaits(s) && WriterWaits(s)
  }

  lemma Split(taken: Bytes, held: Bytes, n: nat)
    requires n <= |held|
    ensures taken + held == taken + held[..n] + held[n..]
  {}

  lemma Joined(taken: Bytes, held: Bytes, data: Bytes)
    ensures taken + held + data == taken + (held + data)
  {}

  lemma ReadKeepsGuarded(g: Guarded, r: End, now: nat)
    requires GuardedOk(g) && r.pc.Locking?
    ensures GuardedOk(ReadOp(g, r, now).0)
  {
    PollKeepsWellFormed(g.capacity, now);
    Split(g.taken, g.held, Min(r.pc.limit, |g.held|));
  }

  lemma WriteKeepsGuarded(g: Guarded, w: End, now: nat, room: nat)
    requires GuardedOk(g) && w.pc.Locking?
    ensures GuardedOk(WriteOp(g, w, now, room).0)
  {
    PollKeepsWellFormed(g.capacity, now);
    var n := Accepted(w.pc.data, SaturatingSub(Poll(g.capacity, now).target, |g.held|), room);
    Joined(g.taken, g.held, w.pc.data[..n]);
  }

  lemma {:induction false} StepKeepsInv(s: State, step: Step)
    requires Inv(s)
    ensures Inv(Next(s, step))
  {
    if step.LockRead? && s.reader.pc.Locking? {
      ReadKeepsGuarded(s.guarded, s.reader, step.now);
    } else if step.LockWrite? && s.writer.pc.Locking? {
      WriteKeepsGuarded(s.guarded, s.writer, step.now, step.room);
    }
  }

  lemma {:induction false} RunKeepsInv(initial: nat, now: nat, steps: seq<Step>)
    requires 0 < initial <= USIZE_MAX
    ensures Inv(Exec(Init(initial, now), steps))
    decreases |steps|
  {
    if steps != [] {
      RunKeepsInv(initial, now, steps[..|steps| - 1]);
      StepKeepsInv(Exec(Init(initial, now), steps[..|steps| - 1]), steps[|steps| - 1]);
    }
  }

  // ---------------------------------------------------------------- the promises

  /** Nobody parked is stranded. A reader that sleeps has its waker registered, and whoever wrote or
      closed since still has to wake it. A writer that sleeps has its waker registered and bytes up to
      the target ahead of it, or whoever read or closed since still has to wake it. */
  lemma NobodyStranded(initial: nat, now: nat, steps: seq<Step>)
    requires 0 < initial <= USIZE_MAX
    ensures var s := Exec(Init(initial, now), steps);
      && (Sleeps(s.reader) ==>
            && s.reader.waker.registered
            && (s.writer.pc.Waking? || (s.guarded.held == [] && !s.guarded.writerClosed)))
      && (Sleeps(s.writer) ==>
            && s.writer.waker.registered
            && (s.reader.pc.Waking? || (0 < s.guarded.capacity.target <= |s.guarded.held| && !s.guarded.readerClosed)))
  {
    RunKeepsInv(initial, now, steps);
  }

  /** The two ends never sleep at the same time. */
  lemma NeverBothAsleep(initial: nat, now: nat, steps: seq<Step>)
    requires 0 < initial <= USIZE_MAX
    ensures var s := Exec(Init(initial, now), steps); !(Sleeps(s.reader) && Sleeps(s.writer))
  {
    RunKeepsInv(initial, now, steps);
  }

  /** Under every interleaving the reader gets the bytes in writing order, and a read that finds
      nothing either sleeps or has read everything up to the writer's close. */
  lemma BytesInOrder(initial: nat, now: nat, steps: seq<Step>, at: nat)
    requires 0 < initial <= USIZE_MAX
    ensures var s := Exec(Init(initial, now), steps);
      && (!s.guarded.readerClosed ==> s.guarded.taken <= s.guarded.written)
      && (s.reader.pc.Locking? ==>
            var s' := Next(s, LockRead(at));
            s'.guarded.taken == s.guarded.taken ==>
              s.guarded.taken == s.guarded.written && (s'.reader.asleep <==> !s.guarded.writerClosed))
  {
    RunKeepsInv(initial, now, steps);
  }
}
