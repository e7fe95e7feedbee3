/** The byte-weighted multi-producer queue of crates/protocol/src/queue.rs as a step machine.

    One step is one atomic operation of `Shared`, taken by one sender task, by one sender
    handle or by the receiver, under sequential consistency. `Next` is total: a step that
    is not enabled changes nothing, so a run is an arbitrary sequence of steps and every
    interleaving is some run.

    The adaptive target (module FeedbackCapacity) only decides how much may be reserved, so
    a task here loads an arbitrary target: what is proved holds whatever the feedback does.
    Module AdaptiveQueue joins the two. */
module ByteQueue {
  import opened Common

  /** An item is represented by its identity. */
  type Item = nat

  datatype Entry = Entry(item: Item, cost: nat)

  datatype Outcome = Sent | Cancelled | Full | Closed

  /** The atomics, the item queue and the waker, with the history the claims speak about. */
  datatype Shared = Shared(
    items: seq<Entry>,
    bytes: int,                // negative would stand for a wrapped counter; no run reaches one
    closed: bool,
    senders: int,
    registered: bool,          // `readable` holds the receiver's waker
    woken: bool,               // that waker has fired since it was registered
    published: seq<Item>,      // history: every publication, in order
    peakTarget: nat,           // history: largest target loaded
    peakCost: nat)             // history: largest cost requested

  /** Program counter of one use of a sender: reserve, then publish or give the permit back. */
  datatype Pc =
    | Enter                    // create and enable the `Notified` future
    | CheckOpen                // first closed check and the cost computation
    | LoadTarget
    | Reserve(target: nat)     // the compare-and-swap on `bytes`
    | Recheck                  // closed check after the reservation
    | Holding                  // the caller owns the permit
    | SendCheck(item: Item)
    | Publish(item: Item)
    | PublishCheck             // closed check after the publication
    | Discarding
    | DiscardRelease(cost: nat)
    | WakeReader
    | ReleasePermit
    | NotifyWaiters
    | Parked                   // awaiting `notified`
    | Finished(outcome: Outcome)

  /** One borrow of sender `handle` asking for `cost` bytes, overhead included; `waits`
      distinguishes `reserve` from `try_reserve`. */
  datatype Task = Task(handle: nat, cost: nat, waits: bool, pc: Pc, notified: bool)

  datatype Handle = Alive | Waking | Dropped

  /** Program counter of the receiver. `left` counts the items a batch may still take. */
  datatype ReceiverPc =
    | Idle
    | Register(left: nat)
    | PopFirst(left: nat)
    | LoadSenders(left: nat)
    | PopLast(left: nat)
    | More(left: nat, cost: nat)
    | Release(cost: nat, left: nat)
    | Notify(left: nat)
    | TryPop
    | TrySenders
    | CloseDiscard
    | CloseRelease(cost: nat)
    | CloseNotify
    | Gone

  datatype Receiver = Receiver(
    pc: ReceiverPc,
    prefix: seq<Item>,         // replayed items, delivered before the queued ones
    hand: seq<Item>,           // taken by the receive call in progress
    consumed: seq<Item>,       // history: items handed out and not replayed since
    asleep: bool,              // the last receive call returned Pending
    ended: bool)               // the last receive call returned None

  datatype State = State(
    overhead: nat,             // size_of::<(T, usize)>().max(1)
    shared: Shared,
    handles: seq<Handle>,
    tasks: seq<Task>,
    receiver: Receiver)

  /** What one atomic operation does to the shared state and to the actor that takes it. */
  datatype Effect<T> = Effect(shared: Shared, actor: T, notify: bool)

  datatype Choice = Go | Target(target: nat) | Send(item: Item) | Cancel

  datatype Step =
    | Clone(handle: nat)
    | DropSender(handle: nat)
    | WakeAfterDrop(handle: nat)
    | Borrow(handle: nat, bytes: nat, waits: bool)
    | Advance(task: nat, choice: Choice)
    | Poll(limit: nat)
    | TryRecv
    | Prepend(count: nat)
    | CloseReceiver
    | AdvanceReceiver

  function Init(overhead: nat): State {
    State(overhead, Shared([], 0, false, 1, false, false, [], 0, 0), [Alive], [],
          Receiver(Idle, [], [], [], false, false))
  }

  // ---------------------------------------------------------------- shared operations

  /** `AtomicWaker::wake` on `readable`. */
  function Wake(sh: Shared): Shared {
    if sh.registered then sh.(registered := false, woken := true) else sh
  }

  function NotifyAll(tasks: seq<Task>): (r: seq<Task>)
    ensures |r| == |tasks|
    ensures forall i :: 0 <= i < |r| ==> r[i] == tasks[i].(notified := true)
  {
    seq(|tasks|, i requires 0 <= i < |tasks| => tasks[i].(notified := true))
  }

  function PopItem(sh: Shared): Shared
    requires sh.items != []
  {
    sh.(items := sh.items[1..])
  }

  // ---------------------------------------------------------------- sender steps

  /** What a reservation that found the queue full does next. */
  function WhenFull(t: Task): Task { t.(pc := if t.waits then Parked else Finished(Full)) }

  predicate Admits(sh: Shared, cost: nat, target: nat) {
    (sh.bytes == 0 || cost <= SaturatingSub(target, sh.bytes)) && sh.bytes + cost <= USIZE_MAX
  }

  predicate Reserving(pc: Pc) {
    pc.Enter? || pc.CheckOpen? || pc.LoadTarget? || pc.Reserve? || pc.Recheck? || pc.Parked?
  }

  predicate Resolving(pc: Pc) {
    pc.Holding? || pc.SendCheck? || pc.Publish? || pc.ReleasePermit? || pc.NotifyWaiters?
  }

  predicate Settling(pc: Pc) {
    pc.PublishCheck? || pc.Discarding? || pc.DiscardRelease? || pc.WakeReader?
  }

  /** `wait_for_capacity` and `try_reserve`. */
  function ReserveOp(sh: Shared, t: Task, choice: Choice): Effect<Task>
    requires Reserving(t.pc)
  {
    match t.pc
    case Enter =>
      Effect(sh, t.(pc := CheckOpen, notified := false), false)
    case CheckOpen =>
      Effect(sh, if sh.closed then t.(pc := Finished(Closed))
                 else if t.cost > USIZE_MAX then WhenFull(t)
                 else t.(pc := LoadTarget), false)
    case LoadTarget =>
      if choice.Target? then
        Effect(sh.(peakTarget := Max(sh.peakTarget, choice.target)), t.(pc := Reserve(choice.target)), false)
      else Effect(sh, t, false)
    case Reserve(target) =>
      if Admits(sh, t.cost, target) then Effect(sh.(bytes := sh.bytes + t.cost), t.(pc := Recheck), false)
      else Effect(sh, WhenFull(t), false)
    case Recheck =>
      Effect(sh, t.(pc := if sh.closed then ReleasePermit else Holding), false)
    case Parked =>
      Effect(sh, if choice.Cancel? then t.(pc := Finished(Cancelled))
                 else if t.notified then t.(pc := Enter)
                 else t, false)
  }

  /** `Permit::send` up to the publication, and `Permit::drop`. */
  function ResolveOp(sh: Shared, t: Task, choice: Choice): Effect<Task>
    requires Resolving(t.pc)
  {
    match t.pc
    case Holding =>
      Effect(sh, if choice.Send? then t.(pc := SendCheck(choice.item))
                 else if choice.Cancel? then t.(pc := ReleasePermit)
                 else t, false)
    case SendCheck(item) =>
      Effect(sh, t.(pc := if sh.closed then ReleasePermit else Publish(item)), false)
    case Publish(item) =>
      Effect(sh.(items := sh.items + [Entry(item, t.cost)], published := sh.published + [item]),
             t.(pc := PublishCheck), false)
    case ReleasePermit =>
      Effect(sh.(bytes := sh.bytes - t.cost), t.(pc := NotifyWaiters), false)
    case NotifyWaiters =>
      Effect(sh, t.(pc := Finished(if sh.closed then Closed else Cancelled)), true)
  }

  /** `Permit::send` after the publication. */
  function SettleOp(sh: Shared, t: Task): Effect<Task>
    requires Settling(t.pc)
  {
    match t.pc
    case PublishCheck =>
      Effect(sh, t.(pc := if sh.closed then Discarding else WakeReader), false)
    case Discarding =>
      if sh.items == [] then Effect(sh, t.(pc := WakeReader), false)
      else Effect(PopItem(sh), t.(pc := DiscardRelease(sh.items[0].cost)), false)
    case DiscardRelease(cost) =>
      Effect(sh.(bytes := sh.bytes - cost), t.(pc := Discarding), false)
    case WakeReader =>
      Effect(Wake(sh), t.(pc := Finished(Sent)), false)
  }

  /** One atomic operation of a sender task. */
  function TaskOp(sh: Shared, t: Task, choice: Choice): Effect<Task> {
    if Reserving(t.pc) then ReserveOp(sh, t, choice)
    else if Resolving(t.pc) then ResolveOp(sh, t, choice)
    else if Settling(t.pc) then SettleOp(sh, t)
    else Effect(sh, t, false)
  }

  /** A permit borrows its sender, so a sender outlives every unfinished use of it. */
  predicate Unused(tasks: seq<Task>, handle: nat) {
    forall i :: 0 <= i < |tasks| && tasks[i].handle == handle ==> tasks[i].pc.Finished?
  }

  function HandleOp(s: State, step: Step): State
    requires step.Clone? || step.DropSender? || step.WakeAfterDrop?
  {
    var h := step.handle;
    if |s.handles| <= h then s else
    match step
    case Clone(_) =>
      if !s.handles[h].Alive? then s
      else s.(handles := s.handles + [Alive], shared := s.shared.(senders := s.shared.senders + 1))
    case DropSender(_) =>
      if !s.handles[h].Alive? || !Unused(s.tasks, h) then s
      else s.(handles := s.handles[h := if s.shared.senders == 1 then Waking else Dropped],
              shared := s.shared.(senders := s.shared.senders - 1))
    case WakeAfterDrop(_) =>
      if !s.handles[h].Waking? then s
      else s.(handles := s.handles[h := Dropped], shared := Wake(s.shared))
  }

  // ---------------------------------------------------------------- receiver steps

  /** The receive call returns what it holds. */
  function Return(r: Receiver): Receiver {
    r.(pc := Idle, consumed := r.consumed + r.hand, hand := [])
  }

  function AfterFirst(r: Receiver, left: nat): Receiver {
    if left > 0 then r.(pc := More(left, 0)) else Return(r)
  }

  function TakePrefix(r: Receiver): Receiver
    requires r.prefix != []
  {
    r.(hand := r.hand + [r.prefix[0]], prefix := r.prefix[1..])
  }

  function TakeItem(sh: Shared, r: Receiver, pc: ReceiverPc): Effect<Receiver>
    requires sh.items != []
  {
    Effect(PopItem(sh), r.(hand := r.hand + [sh.items[0].item], pc := pc), false)
  }

  predicate Receiving(pc: ReceiverPc) {
    pc.Register? || pc.PopFirst? || pc.LoadSenders? || pc.PopLast? || pc.TryPop? || pc.TrySenders?
  }

  predicate Completing(pc: ReceiverPc) { pc.More? || pc.Release? || pc.Notify? }

  predicate Closing(pc: ReceiverPc) { pc.CloseDiscard? || pc.CloseRelease? || pc.CloseNotify? }

  /** `poll_recv` and `try_recv` up to taking an item. */
  function ReceiveOp(sh: Shared, r: Receiver): Effect<Receiver>
    requires Receiving(r.pc)
  {
    match r.pc
    case Register(left) =>
      Effect(sh.(registered := true, woken := false), r.(pc := PopFirst(left)), false)
    case PopFirst(left) =>
      if sh.items == [] then Effect(sh, r.(pc := LoadSenders(left)), false)
      else TakeItem(sh, r, Release(sh.items[0].cost, left))
    case LoadSenders(left) =>
      Effect(sh, if sh.senders == 0 then r.(pc := PopLast(left)) else r.(pc := Idle, asleep := true), false)
    case PopLast(left) =>
      if sh.items == [] then Effect(sh, r.(pc := Idle, ended := true), false)
      else TakeItem(sh, r, Release(sh.items[0].cost, left))
    case TryPop =>
      if sh.items == [] then Effect(sh, r.(pc := TrySenders), false)
      else TakeItem(sh, r, Release(sh.items[0].cost, 0))
    case TrySenders =>
      Effect(sh, r.(pc := Idle), false)
  }

  /** `complete`, and the batch loop of `poll_recv_many`. */
  function CompleteOp(sh: Shared, r: Receiver): Effect<Receiver>
    requires Completing(r.pc)
  {
    match r.pc
    case More(left, cost) =>
      if left > 0 && r.prefix != [] then Effect(sh, TakePrefix(r).(pc := More(left - 1, cost)), false)
      else if left > 0 && sh.items != [] then TakeItem(sh, r, More(left - 1, cost + sh.items[0].cost))
      else Effect(sh, if cost != 0 then r.(pc := Release(cost, 0)) else Return(r), false)
    case Release(cost, left) =>
      Effect(sh.(bytes := sh.bytes - cost), r.(pc := Notify(left)), false)
    case Notify(left) =>
      Effect(sh, AfterFirst(r, left), true)
  }

  /** `Receiver::drop` after it set `closed`. */
  function CloseOp(sh: Shared, r: Receiver): Effect<Receiver>
    requires Closing(r.pc)
  {
    match r.pc
    case CloseDiscard =>
      if sh.items == [] then Effect(sh, r.(pc := CloseNotify), false)
      else Effect(PopItem(sh), r.(pc := CloseRelease(sh.items[0].cost)), false)
    case CloseRelease(cost) =>
      Effect(sh.(bytes := sh.bytes - cost), r.(pc := CloseDiscard), false)
    case CloseNotify =>
      Effect(sh, r.(pc := Gone), true)
  }

  /** One atomic operation of the receive call in progress. */
  function ReceiverOp(sh: Shared, r: Receiver): Effect<Receiver> {
    if Receiving(r.pc) then ReceiveOp(sh, r)
    else if Completing(r.pc) then CompleteOp(sh, r)
    else if Closing(r.pc) then CloseOp(sh, r)
    else Effect(sh, r, false)
  }

  /** A call begins only while the receiver is alive and not inside another call. */
  function BeginCall(sh: Shared, r0: Receiver, step: Step): Effect<Receiver>
    requires r0.pc.Idle?
    requires step.Poll? || step.TryRecv? || step.Prepend? || step.CloseReceiver?
  {
    var r := r0.(asleep := false, ended := false);
    match step
    case Poll(limit) =>
      Effect(sh, if limit == 0 then r0
                 else if r.prefix != [] then AfterFirst(TakePrefix(r), limit - 1)
                 else r.(pc := Register(limit - 1)), false)
    case TryRecv =>
      Effect(sh, if r.prefix != [] then Return(TakePrefix(r)) else r.(pc := TryPop), false)
    case Prepend(count) =>
      // Replay of the last `count` consumed items.
      if count <= |r.consumed| then
        var kept := |r.consumed| - count;
        Effect(sh, r.(prefix := r.consumed[kept..] + r.prefix, consumed := r.consumed[..kept]), false)
      else Effect(sh, r0, false)
    case CloseReceiver =>
      Effect(sh.(closed := true), r.(pc := CloseDiscard), false)
  }

  // ---------------------------------------------------------------- runs

  function Apply(s: State, shared: Shared, tasks: seq<Task>, receiver: Receiver, notify: bool): State {
    s.(shared := shared, tasks := if notify then NotifyAll(tasks) else tasks, receiver := receiver)
  }

  function Next(s: State, step: Step): State {
    match step
    case Borrow(handle, bytes, waits) =>
      if handle < |s.handles| && s.handles[handle].Alive? then
        var cost := bytes + s.overhead;
        s.(tasks := s.tasks + [Task(handle, cost, waits, Enter, false)],
           shared := s.shared.(peakCost := Max(s.shared.peakCost, cost)))
      else s
    case Advance(i, choice) =>
      if i < |s.tasks| then
        var e := TaskOp(s.shared, s.tasks[i], choice);
        Apply(s, e.shared, s.tasks[i := e.actor], s.receiver, e.notify)
      else s
    case AdvanceReceiver =>
      var e := ReceiverOp(s.shared, s.receiver);
      Apply(s, e.shared, s.tasks, e.actor, e.notify)
    case Clone(_) => HandleOp(s, step)
    case DropSender(_) => HandleOp(s, step)
    case WakeAfterDrop(_) => HandleOp(s, step)
    case _ =>
      if s.receiver.pc.Idle? then
        var e := BeginCall(s.shared, s.receiver, step);
        Apply(s, e.shared, s.tasks, e.actor, e.notify)
      else s
  }

  /** The state after a run. */
  function Exec(s: State, steps: seq<Step>): State
    decreases |steps|
  {
    if steps == [] then s else Next(Exec(s, steps[..|steps| - 1]), steps[|steps| - 1])
  }
}
