/** The revocable I/O slot of crates/protocol/src/scoped.rs, one atomic operation per step.

    The slot's pointer is null (busy or not set up), the one boxed value, or the permanent
    closed sentinel. The setup task publishes the value, pollers take it and put it back,
    closers (the owner task, the handle and the last reference) swap the sentinel in. The
    value carries a work token of the scope's tracker, released after its I/O is dropped. */
module ScopedSlot {

  datatype Slot = Null | Live | Closed

  /** The atomic pointer, the cancellation token and the tracker, with history counters. */
  datatype Core = Core(
    slot: Slot,
    cancelled: bool,
    tokens: int,           // outstanding tokens of the scope's own tracker
    created: nat,          // history: values boxed
    freed: nat,            // history: values dropped
    panicked: bool)        // history: the "occupied I/O slot" assertion failed

  /** `stream_task` connects in a spawned task; `installed` publishes before it spawns. */
  datatype Mode = Connects | Installs

  datatype Setup =
    | NotStarted
    | TrackValue(mode: Mode)      // take a token for the value
    | CheckValue(mode: Mode)      // then look whether the scope closed meanwhile
    | Publish(mode: Mode)         // holds the boxed value
    | DropValue(mode: Mode)       // the publication found the sentinel
    | DropToken(mode: Mode)
    | TrackTask(mode: Mode)       // `spawn`
    | CheckTask(mode: Mode)
    | Connecting
    | Parked                      // `pending().await`
    | OwnerClose(running: bool)   // `Owner::drop`; `running` while the task's own token is held
    | OwnerFree(running: bool)
    | OwnerToken(running: bool)
    | TaskEnd
    | Ended

  /** One call through `Shared::with`. `late` records that the call began after the close. */
  datatype Poller =
    | Take(late: bool)
    | Operate(late: bool)
    | PutBack(late: bool)
    | FreeValue(late: bool)
    | FreeToken(late: bool)
    | LoadClosed
    | Returned

  datatype Closer = Swap | CloseFree | CloseToken | ClosedDone

  datatype State = State(core: Core, setup: Setup, pollers: seq<Poller>, closers: seq<Closer>)

  datatype Effect<T> = Effect(core: Core, actor: T)

  datatype Step =
    | Start(mode: Mode)
    | AdvanceSetup(connected: bool)
    | BeginPoll
    | AdvancePoller(poller: nat)
    | BeginClose
    | AdvanceCloser(closer: nat)
    | CancelScope

  function Init(): State { State(Core(Null, false, 0, 0, 0, false), NotStarted, [], []) }

  /** `put`: publish into a null slot; otherwise the caller still owns the value and drops it,
      asserting that only the sentinel was in the way. */
  function Put<T>(c: Core, published: T, kept: T): Effect<T> {
    if c.slot.Null? then Effect(c.(slot := Live), published)
    else Effect(c.(panicked := c.panicked || !c.slot.Closed?), kept)
  }

  /** `close`: swap the sentinel in; a published value now belongs to the closer. */
  function SwapClosed<T>(c: Core, taken: T, nothing: T): Effect<T> {
    Effect(c.(slot := Closed), if c.slot.Live? then taken else nothing)
  }

  function DropIo(c: Core): Core { c.(freed := c.freed + 1) }

  function DropGuard(c: Core): Core { c.(tokens := c.tokens - 1) }

  function SetupOp(c: Core, p: Setup, connected: bool): Effect<Setup> {
    match p
    case NotStarted => Effect(c, p)
    case TrackValue(mode) => Effect(c.(tokens := c.tokens + 1), CheckValue(mode))
    case CheckValue(mode) =>
      if c.cancelled then Effect(DropGuard(c), if mode.Installs? then Ended else OwnerClose(true))
      else Effect(c.(created := c.created + 1), Publish(mode))
    case Publish(mode) => Put(c, if mode.Installs? then TrackTask(mode) else Parked, DropValue(mode))
    case DropValue(mode) => Effect(DropIo(c), DropToken(mode))
    case DropToken(mode) => Effect(DropGuard(c), if mode.Installs? then TrackTask(mode) else Parked)
    case TrackTask(mode) => Effect(c.(tokens := c.tokens + 1), CheckTask(mode))
    case CheckTask(mode) =>
      if c.cancelled then Effect(DropGuard(c), OwnerClose(false))
      else Effect(c, if mode.Installs? then Parked else Connecting)
    case Connecting =>
      // A cancelled scope drops the connecting future; a failed connection ends it.
      Effect(c, if c.cancelled || !connected then OwnerClose(true) else TrackValue(Connects))
    case Parked => Effect(c, if c.cancelled then OwnerClose(true) else p)
    case OwnerClose(running) =>
      SwapClosed(c, OwnerFree(running), if running then TaskEnd else Ended)
    case OwnerFree(running) => Effect(DropIo(c), OwnerToken(running))
    case OwnerToken(running) => Effect(DropGuard(c), if running then TaskEnd else Ended)
    case TaskEnd => Effect(DropGuard(c), Ended)
    case Ended => Effect(c, p)
  }

  function PollerOp(c: Core, p: Poller): Effect<Poller> {
    match p
    case Take(late) =>
      if c.slot.Live? then Effect(c.(slot := Null), Operate(late)) else Effect(c, LoadClosed)
    case Operate(late) => Effect(c, PutBack(late))
    case PutBack(late) => Put(c, Returned, FreeValue(late))
    case FreeValue(late) => Effect(DropIo(c), FreeToken(late))
    case FreeToken(_) => Effect(DropGuard(c), Returned)
    case LoadClosed => Effect(c, Returned)
    case Returned => Effect(c, p)
  }

  function CloserOp(c: Core, p: Closer): Effect<Closer> {
    match p
    case Swap => SwapClosed(c, CloseFree, ClosedDone)
    case CloseFree => Effect(DropIo(c), CloseToken)
    case CloseToken => Effect(DropGuard(c), ClosedDone)
    case ClosedDone => Effect(c, p)
  }

  function Next(s: State, step: Step): State {
    match step
    case Start(mode) =>
      if s.setup.NotStarted? then s.(setup := if mode.Installs? then TrackValue(mode) else TrackTask(mode)) else s
    case AdvanceSetup(connected) =>
      var e := SetupOp(s.core, s.setup, connected);
      s.(core := e.core, setup := e.actor)
    case BeginPoll => s.(pollers := s.pollers + [Take(s.core.slot.Closed?)])
    case AdvancePoller(i) =>
      if i < |s.pollers| then
        var e := PollerOp(s.core, s.pollers[i]);
        s.(core := e.core, pollers := s.pollers[i := e.actor])
      else s
    case BeginClose => s.(closers := s.closers + [Swap])
    case AdvanceCloser(i) =>
      if i < |s.closers| then
        var e := CloserOp(s.core, s.closers[i]);
        s.(core := e.core, closers := s.closers[i := e.actor])
      else s
    case CancelScope => s.(core := s.core.(cancelled := true))
  }

  function Exec(s: State, steps: seq<Step>): State
    decreases |steps|
  {
    if steps == [] then s else Next(Exec(s, steps[..|steps| - 1]), steps[|steps| - 1])
  }

  // ---------------------------------------------------------------- ownership

  function SetupOwns(p: Setup): nat { if p.Publish? || p.DropValue? || p.OwnerFree? then 1 else 0 }

  function PollerOwns(p: Poller): nat { if p.Operate? || p.PutBack? || p.FreeValue? then 1 else 0 }

  function CloserOwns(p: Closer): nat { if p.CloseFree? then 1 else 0 }

  function SlotOwns(slot: Slot): nat { if slot.Live? then 1 else 0 }

  function PollersOwn(ps: seq<Poller>): nat { if ps == [] then 0 else PollerOwns(ps[0]) + PollersOwn(ps[1..]) }

  function ClosersOwn(cs: seq<Closer>): nat { if cs == [] then 0 else CloserOwns(cs[0]) + ClosersOwn(cs[1..]) }

  /** How many places hold the boxed value. */
  function Owners(s: State): nat {
    SlotOwns(s.core.slot) + SetupOwns(s.setup) + PollersOwn(s.pollers) + ClosersOwn(s.closers)
  }

  /** The setup task's own token, which `spawn` took for it. */
  function TaskToken(p: Setup): nat {
    match p
    case NotStarted => 0
    case TrackValue(mode) => if mode.Installs? then 0 else 1
    case CheckValue(mode) => if mode.Installs? then 0 else 1
    case Publish(mode) => if mode.Installs? then 0 else 1
    case DropValue(mode) => if mode.Installs? then 0 else 1
    case DropToken(mode) => if mode.Installs? then 0 else 1
    case TrackTask(_) => 0
    case CheckTask(_) => 1
    case Connecting => 1
    case Parked => 1
    case OwnerClose(running) => if running then 1 else 0
    case OwnerFree(running) => if running then 1 else 0
    case OwnerToken(running) => if running then 1 else 0
    case TaskEnd => 1
    case Ended => 0
  }

  /** Tokens of the value between its drop and its guard's, or before it is boxed. */
  function SetupToken(p: Setup): nat { if p.CheckValue? || p.DropToken? || p.OwnerToken? then 1 else 0 }

  function PollersToken(ps: seq<Poller>): nat {
    if ps == [] then 0 else (if ps[0].FreeToken? then 1 else 0) + PollersToken(ps[1..])
  }

  function ClosersToken(cs: seq<Closer>): nat {
    if cs == [] then 0 else (if cs[0].CloseToken? then 1 else 0) + ClosersToken(cs[1..])
  }

  predicate BeforePublication(p: Setup) {
    p.NotStarted? || p.TrackValue? || p.CheckValue? || p.Connecting?
    || (p.TrackTask? && p.mode.Connects?) || (p.CheckTask? && p.mode.Connects?)
  }

  ghost predicate Inv(s: State) {
    && s.core.created == Owners(s) + s.core.freed
    && s.core.created <= 1
    && (BeforePublication(s.setup) ==> s.core.created == 0)
    && s.core.tokens
      == Owners(s) + TaskToken(s.setup) + SetupToken(s.setup) + PollersToken(s.pollers) + ClosersToken(s.closers)
    && !s.core.panicked
    && (forall i :: 0 <= i < |s.pollers| && PollerOwns(s.pollers[i]) == 1 ==> !s.pollers[i].late)
    && (forall i :: 0 <= i < |s.pollers| && s.pollers[i].Take? && s.pollers[i].late ==> s.core.slot.Closed?)
  }
}
