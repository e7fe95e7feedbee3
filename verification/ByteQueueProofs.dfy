/** What every run of the byte queue keeps: credit accounting, delivery order, no sender
    left parked and no receiver left asleep without a wake-up on its way. */
module ByteQueueProofs {
  import opened Common
  import opened ByteQueue

  // ---------------------------------------------------------------- credits

  function Credits(items: seq<Entry>): nat {
    if items == [] then 0 else items[0].cost + Credits(items[1..])
  }

  /** The credit a task holds: an unresolved permit, or a popped and unreleased item. */
  function Held(t: Task): nat {
    match t.pc
    case Recheck => t.cost
    case Holding => t.cost
    case SendCheck(_) => t.cost
    case Publish(_) => t.cost
    case ReleasePermit => t.cost
    case DiscardRelease(cost) => cost
    case _ => 0
  }

  function HeldByTasks(tasks: seq<Task>): nat {
    if tasks == [] then 0 else Held(tasks[0]) + HeldByTasks(tasks[1..])
  }

  function HeldByReceiver(r: Receiver): nat {
    match r.pc
    case More(_, cost) => cost
    case Release(cost, _) => cost
    case CloseRelease(cost) => cost
    case _ => 0
  }

  /** Every byte of credit is accounted for by a queued item, a permit or a popped item. */
  predicate Accounting(s: State) {
    s.shared.bytes == Credits(s.shared.items) + HeldByTasks(s.tasks) + HeldByReceiver(s.receiver)
  }

  lemma {:induction false} CreditsAppend(items: seq<Entry>, e: Entry)
    ensures Credits(items + [e]) == Credits(items) + e.cost
  {
    if items != [] {
      assert (items + [e])[1..] == items[1..] + [e];
      CreditsAppend(items[1..], e);
    }
  }

  lemma {:induction false} HeldAppend(tasks: seq<Task>, t: Task)
    ensures HeldByTasks(tasks + [t]) == HeldByTasks(tasks) + Held(t)
  {
    if tasks != [] {
      assert (tasks + [t])[1..] == tasks[1..] + [t];
      HeldAppend(tasks[1..], t);
    }
  }

  lemma {:induction false} HeldUpdate(tasks: seq<Task>, i: nat, t: Task)
    requires i < |tasks|
    ensures HeldByTasks(tasks[i := t]) + Held(tasks[i]) == HeldByTasks(tasks) + Held(t)
    ensures Held(tasks[i]) <= HeldByTasks(tasks)
  {
    if i == 0 {
      assert tasks[i := t][1..] == tasks[1..];
    } else {
      assert tasks[i := t][1..] == tasks[1..][i - 1 := t];
      HeldUpdate(tasks[1..], i - 1, t);
    }
  }

  lemma {:induction false} HeldNotified(tasks: seq<Task>)
    ensures HeldByTasks(NotifyAll(tasks)) == HeldByTasks(tasks)
  {
    if tasks != [] {
      assert NotifyAll(tasks)[1..] == NotifyAll(tasks[1..]);
      HeldNotified(tasks[1..]);
    }
  }

  lemma {:induction false} SomeTaskHolds(tasks: seq<Task>)
    requires HeldByTasks(tasks) > 0
    ensures exists i :: 0 <= i < |tasks| && Held(tasks[i]) > 0
  {
    if Held(tasks[0]) == 0 {
      SomeTaskHolds(tasks[1..]);
      var i :| 0 <= i < |tasks[1..]| && Held(tasks[1..][i]) > 0;
      assert Held(tasks[i + 1]) > 0;
    }
  }

  // ---------------------------------------------------------------- one operation of a task

  predicate ItemsPositive(items: seq<Entry>) { forall i :: 0 <= i < |items| ==> items[i].cost > 0 }

  predicate TaskPositive(t: Task) { t.cost > 0 && (t.pc.DiscardRelease? ==> t.pc.cost > 0) }

  /** The task keeps a parked sender waiting for it: it holds credit or owes a notification. */
  predicate TaskOwes(t: Task) { Held(t) > 0 || t.pc.NotifyWaiters? }

  predicate PublisherPc(pc: Pc) { pc.PublishCheck? || pc.WakeReader? }

  predicate SweeperPc(pc: Pc) { pc.PublishCheck? || pc.Discarding? || pc.DiscardRelease? }

  predicate TaskBounded(sh: Shared, t: Task) {
    t.cost <= sh.peakCost && (t.pc.Reserve? ==> t.pc.target <= sh.peakTarget)
  }

  predicate Bounded(sh: Shared) { sh.bytes <= Max(sh.peakTarget, sh.peakCost) && sh.bytes <= USIZE_MAX }

  /** One atomic operation of a task moves credit and creates none. */
  predicate TaskCredit(sh: Shared, t: Task, e: Effect<Task>) {
    e.shared.bytes - Credits(e.shared.items) - Held(e.actor) == sh.bytes - Credits(sh.items) - Held(t)
  }

  /** What else one atomic operation of a task may touch. */
  predicate TaskFrame(sh: Shared, t: Task, e: Effect<Task>) {
    var (sh', t') := (e.shared, e.actor);
    && t'.handle == t.handle && t'.cost == t.cost
    && sh'.closed == sh.closed && sh'.senders == sh.senders
    && sh'.peakCost == sh.peakCost && sh'.peakTarget >= sh.peakTarget
    && (!t.pc.Publish? ==> sh'.published == sh.published)
    && (!t.pc.Publish? && !t.pc.Discarding? ==> sh'.items == sh.items)
    && (ItemsPositive(sh.items) && TaskPositive(t) ==> ItemsPositive(sh'.items) && TaskPositive(t'))
    && (Bounded(sh) && TaskBounded(sh, t) && TaskPositive(t) ==> Bounded(sh') && TaskBounded(sh', t'))
  }

  lemma {:induction false} ReserveCredit(sh: Shared, t: Task, choice: Choice)
    requires Reserving(t.pc)
    ensures TaskCredit(sh, t, ReserveOp(sh, t, choice))
  {}

  lemma {:induction false} ResolveCredit(sh: Shared, t: Task, choice: Choice)
    requires Resolving(t.pc)
    ensures TaskCredit(sh, t, ResolveOp(sh, t, choice))
  {
    if t.pc.Publish? {
      CreditsAppend(sh.items, Entry(t.pc.item, t.cost));
    }
  }

  lemma {:induction false} SettleCredit(sh: Shared, t: Task)
    requires Settling(t.pc)
    ensures TaskCredit(sh, t, SettleOp(sh, t))
  {}

  lemma {:induction false} ReserveFrame(sh: Shared, t: Task, choice: Choice)
    requires Reserving(t.pc)
    ensures TaskFrame(sh, t, ReserveOp(sh, t, choice))
  {}

  lemma {:induction false} ResolveFrame(sh: Shared, t: Task, choice: Choice)
    requires Resolving(t.pc)
    ensures TaskFrame(sh, t, ResolveOp(sh, t, choice))
  {}

  lemma {:induction false} SettleFrame(sh: Shared, t: Task)
    requires Settling(t.pc)
    ensures TaskFrame(sh, t, SettleOp(sh, t))
  {}

  lemma TaskOpCredit(sh: Shared, t: Task, choice: Choice)
    ensures TaskCredit(sh, t, TaskOp(sh, t, choice))
  {
    if Reserving(t.pc) { ReserveCredit(sh, t, choice); }
    else if Resolving(t.pc) { ResolveCredit(sh, t, choice); }
    else if Settling(t.pc) { SettleCredit(sh, t); }
  }

  lemma TaskOpFrame(sh: Shared, t: Task, choice: Choice)
    ensures TaskFrame(sh, t, TaskOp(sh, t, choice))
  {
    if Reserving(t.pc) { ReserveFrame(sh, t, choice); }
    else if Resolving(t.pc) { ResolveFrame(sh, t, choice); }
    else if Settling(t.pc) { SettleFrame(sh, t); }
  }

  /** Past the closed check of this attempt, so only a notification tells it about a close. */
  predicate PastCheck(pc: Pc) { pc.LoadTarget? || pc.Reserve? || pc.Parked? }

  /** How one atomic operation of a task passes on what others wait for. */
  predicate TaskSignals(sh: Shared, t: Task, e: Effect<Task>) {
    var (sh', t') := (e.shared, e.actor);
    // credit and notifications that parked senders wait for
    && (ItemsPositive(sh.items) && TaskPositive(t) && !e.notify && !t.pc.DiscardRelease? ==>
          (sh.items != [] || TaskOwes(t) ==> sh'.items != [] || TaskOwes(t')))
    && (t'.pc.Parked? && !t.pc.Parked? ==> sh' == sh && (sh.bytes != 0 || t.cost > USIZE_MAX))
    && (PastCheck(t'.pc) && !t'.notified ==> (PastCheck(t.pc) && !t.notified) || !sh.closed)
    // the sweep of items published around the close
    && (t'.pc.Discarding? || t'.pc.DiscardRelease? ==> sh.closed || t.pc.Discarding? || t.pc.DiscardRelease?)
    && (sh.closed && (SweeperPc(t.pc) || t.pc.Publish?) ==> SweeperPc(t'.pc) || sh'.items == [])
    // the receiver's wake-up
    && (t.pc.Publish? ==> PublisherPc(t'.pc))
    && (sh.registered || sh.woken ==>
          (sh'.registered || sh'.woken) && (sh.woken ==> sh'.woken)
          && (!sh.closed && PublisherPc(t.pc) ==> PublisherPc(t'.pc) || sh'.woken))
  }

  lemma {:induction false} ReserveSignals(sh: Shared, t: Task, choice: Choice)
    requires Reserving(t.pc)
    ensures TaskSignals(sh, t, ReserveOp(sh, t, choice))
  {}

  lemma {:induction false} ResolveSignals(sh: Shared, t: Task, choice: Choice)
    requires Resolving(t.pc)
    ensures TaskSignals(sh, t, ResolveOp(sh, t, choice))
  {}

  lemma {:induction false} SettleSignals(sh: Shared, t: Task)
    requires Settling(t.pc)
    ensures TaskSignals(sh, t, SettleOp(sh, t))
  {}

  lemma TaskOpSignals(sh: Shared, t: Task, choice: Choice)
    ensures TaskSignals(sh, t, TaskOp(sh, t, choice))
  {
    if Reserving(t.pc) { ReserveSignals(sh, t, choice); }
    else if Resolving(t.pc) { ResolveSignals(sh, t, choice); }
    else if Settling(t.pc) { SettleSignals(sh, t); }
  }

  // ---------------------------------------------------------------- one operation of the receiver

  function Ids(items: seq<Entry>): (r: seq<Item>)
    ensures |r| == |items|
    ensures forall i :: 0 <= i < |r| ==> r[i] == items[i].item
  {
    seq(|items|, i requires 0 <= i < |items| => items[i].item)
  }

  /** The receiver keeps a parked sender waiting for it. */
  predicate ReceiverOwes(r: Receiver) { HeldByReceiver(r) > 0 || r.pc.Notify? || Closing(r.pc) }

  predicate IsClosed(pc: ReceiverPc) { Closing(pc) || pc.Gone? }

  /** Items handed out, then the ones in hand, replayed and queued. */
  function InOrder(sh: Shared, r: Receiver): seq<Item> { r.consumed + r.hand + r.prefix + Ids(sh.items) }

  predicate Delivered(sh: Shared, r: Receiver) {
    && InOrder(sh, r) == sh.published
    && (Receiving(r.pc) ==> r.hand == [] && r.prefix == [])
    && (r.pc.Idle? ==> r.hand == [])
    && (r.ended ==> r.pc.Idle? && r.consumed == sh.published)
  }

  predicate ReceiverCredit(sh: Shared, r: Receiver, e: Effect<Receiver>) {
    e.shared.bytes - Credits(e.shared.items) - HeldByReceiver(e.actor)
      == sh.bytes - Credits(sh.items) - HeldByReceiver(r)
  }

  predicate ReceiverFrame(sh: Shared, r: Receiver, e: Effect<Receiver>) {
    var (sh', r') := (e.shared, e.actor);
    && sh'.closed == sh.closed && sh'.senders == sh.senders && sh'.published == sh.published
    && sh'.peakCost == sh.peakCost && sh'.peakTarget == sh.peakTarget && sh'.bytes <= sh.bytes
    && (IsClosed(r'.pc) <==> IsClosed(r.pc))
    && (ItemsPositive(sh.items) ==> ItemsPositive(sh'.items))
    && (r'.ended ==> r.ended || r.pc.PopLast?)
    && (r'.pc.PopLast? ==> sh.senders == 0 || r.pc.PopLast?)
  }

  predicate ReceiverSignals(sh: Shared, r: Receiver, e: Effect<Receiver>) {
    var (sh', r') := (e.shared, e.actor);
    && (ItemsPositive(sh.items) && !e.notify && (sh.items != [] || ReceiverOwes(r)) ==>
      sh'.items != [] || ReceiverOwes(r'))
    && (Closing(r.pc) && !e.notify ==> Closing(r'.pc))
    && ((r'.pc.CloseNotify? || r'.pc.Gone?) && !(r.pc.CloseNotify? || r.pc.Gone?) ==> sh'.items == [])
    && (r'.asleep ==> r.asleep || (r.pc.LoadSenders? && sh.senders != 0))
  }

  lemma {:induction false} ReceiveCredit(sh: Shared, r: Receiver)
    requires Receiving(r.pc)
    ensures ReceiverCredit(sh, r, ReceiveOp(sh, r))
  {}

  lemma {:induction false} CompleteCredit(sh: Shared, r: Receiver)
    requires Completing(r.pc)
    ensures ReceiverCredit(sh, r, CompleteOp(sh, r))
  {}

  lemma {:induction false} CloseCredit(sh: Shared, r: Receiver)
    requires Closing(r.pc)
    ensures ReceiverCredit(sh, r, CloseOp(sh, r))
  {}

  lemma {:induction false} ReceiveFrame(sh: Shared, r: Receiver)
    requires Receiving(r.pc)
    ensures ReceiverFrame(sh, r, ReceiveOp(sh, r))
  {}

  lemma {:induction false} CompleteFrame(sh: Shared, r: Receiver)
    requires Completing(r.pc)
    ensures ReceiverFrame(sh, r, CompleteOp(sh, r))
  {}

  lemma {:induction false} CloseFrame(sh: Shared, r: Receiver)
    requires Closing(r.pc)
    ensures ReceiverFrame(sh, r, CloseOp(sh, r))
  {}

  lemma ReceiverOpCredit(sh: Shared, r: Receiver)
    ensures ReceiverCredit(sh, r, ReceiverOp(sh, r))
  {
    if Receiving(r.pc) { ReceiveCredit(sh, r); }
    else if Completing(r.pc) { CompleteCredit(sh, r); }
    else if Closing(r.pc) { CloseCredit(sh, r); }
  }

  lemma ReceiverOpFrame(sh: Shared, r: Receiver)
    ensures ReceiverFrame(sh, r, ReceiverOp(sh, r))
  {
    if Receiving(r.pc) { ReceiveFrame(sh, r); }
    else if Completing(r.pc) { CompleteFrame(sh, r); }
    else if Closing(r.pc) { CloseFrame(sh, r); }
  }

  lemma {:induction false} ReceiveSignals(sh: Shared, r: Receiver)
    requires Receiving(r.pc)
    ensures ReceiverSignals(sh, r, ReceiveOp(sh, r))
  {}

  lemma {:induction false} CompleteSignals(sh: Shared, r: Receiver)
    requires Completing(r.pc)
    ensures ReceiverSignals(sh, r, CompleteOp(sh, r))
  {}

  lemma {:induction false} CloseSignals(sh: Shared, r: Receiver)
    requires Closing(r.pc)
    ensures ReceiverSignals(sh, r, CloseOp(sh, r))
  {}

  lemma ReceiverOpSignals(sh: Shared, r: Receiver)
    ensures ReceiverSignals(sh, r, ReceiverOp(sh, r))
  {
    if Receiving(r.pc) { ReceiveSignals(sh, r); }
    else if Completing(r.pc) { CompleteSignals(sh, r); }
    else if Closing(r.pc) { CloseSignals(sh, r); }
  }

  lemma TakeItemInOrder(sh: Shared, r: Receiver, pc: ReceiverPc)
    requires sh.items != [] && r.prefix == []
    ensures var e := TakeItem(sh, r, pc); InOrder(e.shared, e.actor) == InOrder(sh, r)
  {
    assert Ids(sh.items) == [sh.items[0].item] + Ids(sh.items[1..]);
    MoveFirst(r.consumed, r.hand, sh.items[0].item, Ids(sh.items[1..]));
  }

  lemma MoveFirst(consumed: seq<Item>, hand: seq<Item>, item: Item, rest: seq<Item>)
    ensures consumed + hand + [] + ([item] + rest) == consumed + (hand + [item]) + [] + rest
  {}

  lemma TakePrefixInOrder(sh: Shared, r: Receiver)
    requires r.prefix != []
    ensures InOrder(sh, TakePrefix(r)) == InOrder(sh, r)
  {}

  lemma ReturnInOrder(sh: Shared, r: Receiver)
    ensures InOrder(sh, Return(r)) == InOrder(sh, r)
  {}

  lemma {:induction false} ReceiveDelivers(sh: Shared, r: Receiver)
    requires Receiving(r.pc) && Delivered(sh, r)
    ensures var e := ReceiveOp(sh, r); Delivered(e.shared, e.actor)
  {
    if sh.items != [] {
      TakeItemInOrder(sh, r, Release(sh.items[0].cost, 0));
    }
  }

  lemma {:induction false} CompleteDelivers(sh: Shared, r: Receiver)
    requires Completing(r.pc) && Delivered(sh, r)
    ensures var e := CompleteOp(sh, r); Delivered(e.shared, e.actor)
  {
    if r.prefix != [] {
      TakePrefixInOrder(sh, r);
    } else if sh.items != [] {
      TakeItemInOrder(sh, r, Release(sh.items[0].cost, 0));
    }
    ReturnInOrder(sh, r);
  }

  // ---------------------------------------------------------------- the invariant

  function AliveCount(handles: seq<Handle>): nat {
    if handles == [] then 0 else (if handles[0].Alive? then 1 else 0) + AliveCount(handles[1..])
  }

  lemma {:induction false} AliveAppend(handles: seq<Handle>)
    ensures AliveCount(handles + [Alive]) == AliveCount(handles) + 1
  {
    if handles != [] {
      assert (handles + [Alive])[1..] == handles[1..] + [Alive];
      AliveAppend(handles[1..]);
    }
  }

  lemma {:induction false} AliveUpdate(handles: seq<Handle>, i: nat, h: Handle)
    requires i < |handles|
    ensures AliveCount(handles[i := h]) + (if handles[i].Alive? then 1 else 0)
      == AliveCount(handles) + (if h.Alive? then 1 else 0)
    ensures handles[i].Alive? ==> AliveCount(handles) > 0
  {
    if i == 0 {
      assert handles[i := h][1..] == handles[1..];
    } else {
      assert handles[i := h][1..] == handles[1..][i - 1 := h];
      AliveUpdate(handles[1..], i - 1, h);
    }
  }

  ghost predicate Ledger(s: State) {
    && s.overhead > 0
    && Accounting(s)
    && ItemsPositive(s.shared.items) && Bounded(s.shared)
    && (forall i :: 0 <= i < |s.tasks| ==> TaskPositive(s.tasks[i]) && TaskBounded(s.shared, s.tasks[i]))
  }

  /** `senders` counts the live handles, and every unfinished use borrows one of them. */
  ghost predicate Borrowed(s: State) {
    && s.shared.senders == AliveCount(s.handles)
    && (forall i :: 0 <= i < |s.tasks| && !s.tasks[i].pc.Finished? ==>
          s.tasks[i].handle < |s.handles| && s.handles[s.tasks[i].handle].Alive?)
  }

  ghost predicate SomeSweeper(tasks: seq<Task>) { exists i :: 0 <= i < |tasks| && SweeperPc(tasks[i].pc) }

  ghost predicate SomePublisher(tasks: seq<Task>) { exists i :: 0 <= i < |tasks| && PublisherPc(tasks[i].pc) }

  ghost predicate Delivery(s: State) {
    var (sh, r) := (s.shared, s.receiver);
    && (sh.closed <==> IsClosed(r.pc))
    && (!sh.closed ==> Delivered(sh, r))
    && (r.pc.PopLast? || r.ended ==> sh.senders == 0 && !sh.closed)
    && (forall i :: 0 <= i < |s.tasks| && (s.tasks[i].pc.Discarding? || s.tasks[i].pc.DiscardRelease?) ==> sh.closed)
    && (r.pc.CloseNotify? || r.pc.Gone? ==> sh.items == [] || SomeSweeper(s.tasks))
  }

  ghost predicate SomeTaskOwes(tasks: seq<Task>) { exists i :: 0 <= i < |tasks| && TaskOwes(tasks[i]) }

  /** Something is outstanding that ends in a `notify_waiters`. */
  ghost predicate Owed(s: State) {
    s.shared.items != [] || SomeTaskOwes(s.tasks) || ReceiverOwes(s.receiver)
  }

  predicate Waits(t: Task) { t.pc.Parked? && !t.notified && t.cost <= USIZE_MAX }

  ghost predicate Waiters(s: State) {
    && (forall i :: 0 <= i < |s.tasks| && PastCheck(s.tasks[i].pc) && !s.tasks[i].notified && s.shared.closed ==>
          Closing(s.receiver.pc))
    && (forall i :: 0 <= i < |s.tasks| && Waits(s.tasks[i]) ==> Owed(s))
  }

  ghost predicate Reader(s: State) {
    var (sh, r) := (s.shared, s.receiver);
    && (r.asleep ==> r.pc.Idle?)
    && (r.pc.PopFirst? || r.pc.LoadSenders? || r.asleep ==> sh.registered || sh.woken)
    && (r.pc.LoadSenders? || r.asleep ==> sh.woken || sh.items == [] || SomePublisher(s.tasks))
    && (r.asleep ==> sh.woken || sh.senders > 0 || Waking in s.handles)
  }

  ghost predicate Inv(s: State) { Ledger(s) && Borrowed(s) && Delivery(s) && Waiters(s) && Reader(s) }

  // ---------------------------------------------------------------- steps of a task

  lemma {:induction false} TaskKeepsLedger(s: State, i: nat, choice: Choice)
    requires Ledger(s) && i < |s.tasks|
    ensures Ledger(Next(s, Advance(i, choice)))
  {
    var e := TaskOp(s.shared, s.tasks[i], choice);
    TaskOpCredit(s.shared, s.tasks[i], choice);
    TaskOpFrame(s.shared, s.tasks[i], choice);
    HeldUpdate(s.tasks, i, e.actor);
    HeldNotified(s.tasks[i := e.actor]);
  }

  lemma {:induction false} TaskKeepsBorrowed(s: State, i: nat, choice: Choice)
    requires Borrowed(s) && i < |s.tasks|
    ensures Borrowed(Next(s, Advance(i, choice)))
  {
    TaskOpFrame(s.shared, s.tasks[i], choice);
    var s' := Next(s, Advance(i, choice));
    forall j | 0 <= j < |s'.tasks| && !s'.tasks[j].pc.Finished?
      ensures s'.tasks[j].handle < |s'.handles| && s'.handles[s'.tasks[j].handle].Alive?
    {
      assert !s.tasks[j].pc.Finished?;
    }
  }

  lemma PublishInOrder(sh: Shared, r: Receiver, t: Task, choice: Choice)
    requires t.pc.Publish?
    ensures var e := TaskOp(sh, t, choice);
      InOrder(e.shared, r) == InOrder(sh, r) + [t.pc.item] && e.shared.published == sh.published + [t.pc.item]
  {
    var entry := Entry(t.pc.item, t.cost);
    assert Ids(sh.items + [entry]) == Ids(sh.items) + [entry.item];
  }

  lemma {:induction false} TaskKeepsDelivery(s: State, i: nat, choice: Choice)
    requires Delivery(s) && Borrowed(s) && i < |s.tasks|
    ensures Delivery(Next(s, Advance(i, choice)))
  {
    var s' := Next(s, Advance(i, choice));
    var t := s.tasks[i];
    TaskOpFrame(s.shared, t, choice);
    TaskOpSignals(s.shared, t, choice);
    if t.pc.Publish? {
      PublishInOrder(s.shared, s.receiver, t, choice);
      AliveUpdate(s.handles, t.handle, Alive);
    }
    if (s.receiver.pc.CloseNotify? || s.receiver.pc.Gone?) && s'.shared.items != [] {
      if SweeperPc(t.pc) || t.pc.Publish? {
        assert SweeperPc(s'.tasks[i].pc);
      } else {
        var j :| 0 <= j < |s.tasks| && SweeperPc(s.tasks[j].pc);
        assert SweeperPc(s'.tasks[j].pc);
      }
    }
  }

  lemma {:induction false} TaskKeepsOwed(s: State, i: nat, choice: Choice)
    requires Ledger(s) && i < |s.tasks| && Owed(s)
    requires !TaskOp(s.shared, s.tasks[i], choice).notify
    requires s.tasks[i].pc.DiscardRelease? ==> Closing(s.receiver.pc)
    ensures Owed(Next(s, Advance(i, choice)))
  {
    var s' := Next(s, Advance(i, choice));
    TaskOpSignals(s.shared, s.tasks[i], choice);
    if !ReceiverOwes(s.receiver) {
      if s.shared.items != [] || TaskOwes(s.tasks[i]) {
        assert s'.shared.items != [] || TaskOwes(s'.tasks[i]);
      } else {
        var j :| 0 <= j < |s.tasks| && TaskOwes(s.tasks[j]);
        assert TaskOwes(s'.tasks[j]);
      }
    }
  }

  lemma {:induction false} CreditIsOwed(s: State)
    requires Ledger(s) && s.shared.bytes != 0
    ensures Owed(s)
  {
    if s.shared.items == [] && HeldByReceiver(s.receiver) == 0 {
      SomeTaskHolds(s.tasks);
      var j :| 0 <= j < |s.tasks| && Held(s.tasks[j]) > 0;
      assert TaskOwes(s.tasks[j]);
    }
  }

  lemma {:induction false} TaskKeepsWaiters(s: State, i: nat, choice: Choice)
    requires Ledger(s) && Delivery(s) && Waiters(s) && i < |s.tasks|
    ensures Waiters(Next(s, Advance(i, choice)))
  {
    var s' := Next(s, Advance(i, choice));
    var t := s.tasks[i];
    TaskOpFrame(s.shared, t, choice);
    TaskOpSignals(s.shared, t, choice);
    forall j | 0 <= j < |s'.tasks| && Waits(s'.tasks[j])
      ensures Owed(s')
    {
      assert PastCheck(s'.tasks[j].pc);
      if j == i && !t.pc.Parked? {
        CreditIsOwed(s);
        TaskKeepsOwed(s, i, choice);
      } else if j != i || Waits(t) {
        assert Waits(s.tasks[j]) && PastCheck(s.tasks[j].pc);
        TaskKeepsOwed(s, i, choice);
      }
    }
  }

  lemma {:induction false} TaskKeepsReader(s: State, i: nat, choice: Choice)
    requires Delivery(s) && Reader(s) && i < |s.tasks|
    ensures Reader(Next(s, Advance(i, choice)))
  {
    var s' := Next(s, Advance(i, choice));
    var t := s.tasks[i];
    TaskOpFrame(s.shared, t, choice);
    TaskOpSignals(s.shared, t, choice);
    if (s.receiver.pc.LoadSenders? || s.receiver.asleep) && !s'.shared.woken && s'.shared.items != [] {
      if PublisherPc(t.pc) || t.pc.Publish? {
        assert PublisherPc(s'.tasks[i].pc);
      } else {
        var j :| 0 <= j < |s.tasks| && PublisherPc(s.tasks[j].pc);
        assert PublisherPc(s'.tasks[j].pc);
      }
    }
  }

  // ---------------------------------------------------------------- steps of the receiver

  lemma {:induction false} ReceiverKeepsLedger(s: State)
    requires Ledger(s)
    ensures Ledger(Next(s, AdvanceReceiver))
  {
    ReceiverOpCredit(s.shared, s.receiver);
    ReceiverOpFrame(s.shared, s.receiver);
    HeldNotified(s.tasks);
  }

  lemma {:induction false} ReceiverKeepsDelivery(s: State)
    requires Delivery(s)
    ensures Delivery(Next(s, AdvanceReceiver))
  {
    var s' := Next(s, AdvanceReceiver);
    ReceiverOpFrame(s.shared, s.receiver);
    ReceiverOpSignals(s.shared, s.receiver);
    if Receiving(s.receiver.pc) { ReceiveDelivers(s.shared, s.receiver); }
    else if Completing(s.receiver.pc) { CompleteDelivers(s.shared, s.receiver); }
    if (s.receiver.pc.CloseNotify? || s.receiver.pc.Gone?) && s.shared.items != [] {
      var j :| 0 <= j < |s.tasks| && SweeperPc(s.tasks[j].pc);
      assert SweeperPc(s'.tasks[j].pc);
    }
  }

  lemma {:induction false} ReceiverKeepsWaiters(s: State)
    requires Ledger(s) && Delivery(s) && Waiters(s)
    ensures Waiters(Next(s, AdvanceReceiver))
  {
    var s' := Next(s, AdvanceReceiver);
    ReceiverOpFrame(s.shared, s.receiver);
    ReceiverOpSignals(s.shared, s.receiver);
  }

  lemma {:induction false} ReceiverKeepsReader(s: State)
    requires Reader(s) && Borrowed(s)
    ensures Reader(Next(s, AdvanceReceiver))
  {
    var s' := Next(s, AdvanceReceiver);
    ReceiverOpFrame(s.shared, s.receiver);
    ReceiverOpSignals(s.shared, s.receiver);
  }

  // ---------------------------------------------------------------- the remaining steps

  predicate Begins(step: Step) { step.Poll? || step.TryRecv? || step.Prepend? || step.CloseReceiver? }

  lemma {:induction false} BeginKeepsDelivered(sh: Shared, r: Receiver, step: Step)
    requires Begins(step) && r.pc.Idle? && Delivered(sh, r)
    ensures var e := BeginCall(sh, r, step); Delivered(e.shared, e.actor)
  {
    var r' := r.(asleep := false, ended := false);
    match step
    case Poll(limit) =>
      if limit > 0 && r.prefix != [] {
        TakePrefixInOrder(sh, r');
        ReturnInOrder(sh, TakePrefix(r'));
      }
    case TryRecv =>
      if r.prefix != [] {
        TakePrefixInOrder(sh, r');
        ReturnInOrder(sh, TakePrefix(r'));
      }
    case Prepend(count) =>
      if count <= |r.consumed| {
        PrependInOrder(sh, r', |r.consumed| - count);
      }
    case CloseReceiver =>
  }

  /** Replaying consumed items only moves the boundary between consumed and pending. */
  lemma PrependInOrder(sh: Shared, r: Receiver, kept: nat)
    requires kept <= |r.consumed| && r.hand == []
    ensures InOrder(sh, r.(prefix := r.consumed[kept..] + r.prefix, consumed := r.consumed[..kept])) == InOrder(sh, r)
  {
    assert r.consumed == r.consumed[..kept] + r.consumed[kept..];
  }

  /** The beginning of a call touches no credit. */
  lemma BeginKeepsLedger(s: State, step: Step)
    requires Ledger(s) && Borrowed(s) && Begins(step) && s.receiver.pc.Idle?
    ensures var s' := Next(s, step);
      Ledger(s') && Borrowed(s') && s'.tasks == s.tasks && HeldByReceiver(s'.receiver) == 0
  {}

  lemma BeginKeepsDelivery(s: State, step: Step)
    requires Delivery(s) && Begins(step) && s.receiver.pc.Idle?
    ensures Delivery(Next(s, step))
  {
    if !step.CloseReceiver? {
      BeginKeepsDelivered(s.shared, s.receiver, step);
    }
  }

  lemma BeginKeepsWaiters(s: State, step: Step)
    requires Delivery(s) && Waiters(s) && Reader(s) && Begins(step) && s.receiver.pc.Idle?
    ensures Waiters(Next(s, step)) && Reader(Next(s, step))
  {
    var s' := Next(s, step);
    forall i | 0 <= i < |s'.tasks| && Waits(s'.tasks[i])
      ensures Owed(s')
    {
      assert Waits(s.tasks[i]);
    }
  }

  lemma {:induction false} BeginKeepsInv(s: State, step: Step)
    requires Inv(s) && Begins(step)
    ensures Inv(Next(s, step))
  {
    if s.receiver.pc.Idle? {
      BeginKeepsLedger(s, step);
      BeginKeepsDelivery(s, step);
      BeginKeepsWaiters(s, step);
    }
  }

  /** More tasks still owe what the old ones owed. */
  lemma OldTasksRemain(tasks: seq<Task>, tasks': seq<Task>)
    requires |tasks| <= |tasks'| && tasks'[..|tasks|] == tasks
    ensures SomeSweeper(tasks) ==> SomeSweeper(tasks')
    ensures SomePublisher(tasks) ==> SomePublisher(tasks')
    ensures SomeTaskOwes(tasks) ==> SomeTaskOwes(tasks')
  {
    assert forall i :: 0 <= i < |tasks| ==> tasks'[i] == tasks[i];
  }

  lemma {:induction false} BorrowKeepsLedger(s: State, handle: nat, bytes: nat, waits: bool)
    requires Ledger(s) && Borrowed(s)
    ensures var s' := Next(s, Borrow(handle, bytes, waits)); Ledger(s') && Borrowed(s')
  {
    HeldAppend(s.tasks, Task(handle, bytes + s.overhead, waits, Enter, false));
  }

  lemma {:induction false} BorrowKeepsRest(s: State, handle: nat, bytes: nat, waits: bool)
    requires Delivery(s) && Waiters(s) && Reader(s)
    ensures var s' := Next(s, Borrow(handle, bytes, waits)); Delivery(s') && Waiters(s') && Reader(s')
  {
    var s' := Next(s, Borrow(handle, bytes, waits));
    if s'.tasks != s.tasks {
      OldTasksRemain(s.tasks, s'.tasks);
    }
  }

  lemma {:induction false} HandleKeepsCounts(s: State, step: Step)
    requires Ledger(s) && Borrowed(s) && (step.Clone? || step.DropSender? || step.WakeAfterDrop?)
    ensures var s' := Next(s, step); Ledger(s') && Borrowed(s')
  {
    if step.handle < |s.handles| {
      AliveAppend(s.handles);
      AliveUpdate(s.handles, step.handle, Dropped);
      AliveUpdate(s.handles, step.handle, Waking);
    }
  }

  lemma {:induction false} HandleKeepsDelivery(s: State, step: Step)
    requires Borrowed(s) && Delivery(s) && Waiters(s) && (step.Clone? || step.DropSender? || step.WakeAfterDrop?)
    ensures var s' := Next(s, step); Delivery(s') && Waiters(s')
  {
    if step.handle < |s.handles| {
      AliveUpdate(s.handles, step.handle, Dropped);
    }
  }

  lemma {:induction false} HandleKeepsReader(s: State, step: Step)
    requires Borrowed(s) && Reader(s) && (step.Clone? || step.DropSender? || step.WakeAfterDrop?)
    ensures Reader(Next(s, step))
  {
    var s' := Next(s, step);
    var h := step.handle;
    if h < |s.handles| && s' != s {
      match step
      case Clone(_) => AliveAppend(s.handles);
      case DropSender(_) =>
        AliveUpdate(s.handles, h, Dropped);
        if s.shared.senders == 1 { assert s'.handles[h] == Waking; }
      case WakeAfterDrop(_) =>
    }
  }

  lemma {:induction false} StepKeepsInv(s: State, step: Step)
    requires Inv(s)
    ensures Inv(Next(s, step))
  {
    match step
    case Advance(i, choice) =>
      if i < |s.tasks| {
        TaskKeepsLedger(s, i, choice);
        TaskKeepsBorrowed(s, i, choice);
        TaskKeepsDelivery(s, i, choice);
        TaskKeepsWaiters(s, i, choice);
        TaskKeepsReader(s, i, choice);
      }
    case AdvanceReceiver =>
      ReceiverKeepsLedger(s);
      ReceiverOpFrame(s.shared, s.receiver);
      ReceiverKeepsDelivery(s);
      ReceiverKeepsWaiters(s);
      ReceiverKeepsReader(s);
    case Borrow(handle, bytes, waits) =>
      BorrowKeepsLedger(s, handle, bytes, waits);
      BorrowKeepsRest(s, handle, bytes, waits);
    case _ =>
      if Begins(step) {
        BeginKeepsInv(s, step);
      } else {
        HandleKeepsCounts(s, step);
        HandleKeepsDelivery(s, step);
        HandleKeepsReader(s, step);
      }
  }

  /** The invariant holds in every reachable state. */
  lemma {:induction false} RunKeepsInv(overhead: nat, steps: seq<Step>)
    requires overhead > 0
    ensures Inv(Exec(Init(overhead), steps))
    decreases |steps|
  {
    if steps != [] {
      RunKeepsInv(overhead, steps[..|steps| - 1]);
      StepKeepsInv(Exec(Init(overhead), steps[..|steps| - 1]), steps[|steps| - 1]);
    }
  }
}
