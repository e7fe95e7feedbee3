/** The promises of the byte queue, over every run. */
module ByteQueueTheorems {
  import opened Common
  import opened ByteQueue
  import opened ByteQueueProofs

  ghost predicate AllFinished(s: State) {
    forall i :: 0 <= i < |s.tasks| ==> s.tasks[i].pc.Finished?
  }

  lemma {:induction false} FinishedHoldNothing(tasks: seq<Task>)
    requires forall i :: 0 <= i < |tasks| ==> tasks[i].pc.Finished?
    ensures HeldByTasks(tasks) == 0
  {
    if tasks != [] {
      FinishedHoldNothing(tasks[1..]);
    }
  }

  /** `bytes` is exactly the cost of queued items, unresolved permits and popped items whose
      cost is not released yet; it never wraps and stays within the largest target or request. */
  lemma CreditsAreExact(overhead: nat, steps: seq<Step>)
    requires overhead > 0
    ensures var s := Exec(Init(overhead), steps);
      && s.shared.bytes == Credits(s.shared.items) + HeldByTasks(s.tasks) + HeldByReceiver(s.receiver)
      && 0 <= s.shared.bytes <= Max(s.shared.peakTarget, s.shared.peakCost)
      && s.shared.bytes <= USIZE_MAX
  {
    RunKeepsInv(overhead, steps);
  }

  /** Whatever publications race with the close, the queue ends empty and owes no credit. */
  lemma CloseReturnsEveryCredit(overhead: nat, steps: seq<Step>)
    requires overhead > 0
    requires var s := Exec(Init(overhead), steps); s.receiver.pc.Gone? && AllFinished(s)
    ensures var s := Exec(Init(overhead), steps); s.shared.items == [] && s.shared.bytes == 0
  {
    RunKeepsInv(overhead, steps);
    FinishedHoldNothing(Exec(Init(overhead), steps).tasks);
  }

  /** A reservation is admitted exactly when it starts from an empty queue or stays within the
      target it loaded, and fits `usize`. */
  lemma ReservationWithinTarget(overhead: nat, steps: seq<Step>, i: nat, choice: Choice)
    requires overhead > 0
    requires var s := Exec(Init(overhead), steps); i < |s.tasks| && s.tasks[i].pc.Reserve?
    ensures var s := Exec(Init(overhead), steps);
      var s' := Next(s, Advance(i, choice));
      var used, cost, target := s.shared.bytes, s.tasks[i].cost, s.tasks[i].pc.target;
      && (s'.tasks[i].pc.Recheck? <==> (used == 0 || used + cost <= target) && used + cost <= USIZE_MAX)
      && (s'.tasks[i].pc.Recheck? ==> s'.shared.bytes == used + cost)
      && (!s'.tasks[i].pc.Recheck? ==> s'.shared == s.shared)
  {
    RunKeepsInv(overhead, steps);
  }

  lemma ExecSnoc(s: State, steps: seq<Step>, step: Step)
    ensures Exec(s, steps + [step]) == Next(Exec(s, steps), step)
  {
    assert (steps + [step])[..|steps|] == steps;
  }

  /** Every parked sender of this cost has an item, a permit or a notification ahead of it. */
  ghost predicate NoneStranded(s: State, cost: nat) {
    forall i :: 0 <= i < |s.tasks| && s.tasks[i].pc.Parked? && !s.tasks[i].notified && s.tasks[i].cost == cost ==>
      Owed(s)
  }

  ghost predicate NeverStranded(overhead: nat, bytes: nat) {
    forall steps: seq<Step> :: NoneStranded(Exec(Init(overhead), steps), bytes + overhead)
  }

  /** A state with one task and an idle receiver, nothing queued. */
  function Solo(overhead: nat, cost: nat, pc: Pc): State {
    State(overhead, Shared([], 0, false, 1, false, false, [], 0, Max(0, cost)), [Alive],
          [Task(0, cost, true, pc, false)], Receiver(Idle, [], [], [], false, false))
  }

  lemma OversizedRequestParks(overhead: nat, cost: nat)
    requires cost > USIZE_MAX
    ensures Next(Solo(overhead, cost, Enter), Advance(0, Go)) == Solo(overhead, cost, CheckOpen)
    ensures Next(Solo(overhead, cost, CheckOpen), Advance(0, Go)) == Solo(overhead, cost, Parked)
  {}

  lemma OversizedRequestStrands(overhead: nat, bytes: nat)
    requires overhead > 0 && bytes + overhead > USIZE_MAX
    ensures !NeverStranded(overhead, bytes)
  {
    var cost := bytes + overhead;
    var s := Init(overhead);
    var steps := [Borrow(0, bytes, true), Advance(0, Go), Advance(0, Go)];
    assert Next(s, steps[0]) == Solo(overhead, cost, Enter);
    OversizedRequestParks(overhead, cost);
    assert steps == ([] + [steps[0]] + [steps[1]]) + [steps[2]];
    ExecSnoc(s, [], steps[0]);
    ExecSnoc(s, [] + [steps[0]], steps[1]);
    ExecSnoc(s, [] + [steps[0]] + [steps[1]], steps[2]);
    var stuck := Solo(overhead, cost, Parked);
    assert stuck.tasks[0].pc.Parked? && !Owed(stuck);
    assert !NoneStranded(Exec(s, steps), cost);
  }

  /** A waiting sender is safe from being stranded exactly when its cost fits `usize`: an
      overflowing request is told Full and waits for a notification nobody owes it. */
  lemma NoSenderStranded(overhead: nat, bytes: nat)
    requires overhead > 0
    ensures NeverStranded(overhead, bytes) <==> bytes + overhead <= USIZE_MAX
  {
    if bytes + overhead <= USIZE_MAX {
      forall steps: seq<Step>
        ensures NoneStranded(Exec(Init(overhead), steps), bytes + overhead)
      {
        RunKeepsInv(overhead, steps);
      }
    } else {
      OversizedRequestStrands(overhead, bytes);
    }
  }

  /** A receiver that returned Pending and was not woken since has a registered waker, and
      whoever published an item or dropped the last sender meanwhile still has to wake it. */
  lemma NoReceiverStranded(overhead: nat, steps: seq<Step>)
    requires overhead > 0
    ensures var s := Exec(Init(overhead), steps);
      s.receiver.asleep && !s.shared.woken ==>
        && s.shared.registered
        && (s.shared.items == [] || SomePublisher(s.tasks))
        && (s.shared.senders > 0 || Waking in s.handles)
  {
    RunKeepsInv(overhead, steps);
  }

  /** While the receiver lives, what it handed out and did not replay is a prefix of what was
      published, and `poll_recv` ends only once no sender and no undelivered item remain. */
  lemma DeliveryOrder(overhead: nat, steps: seq<Step>)
    requires overhead > 0
    ensures var s := Exec(Init(overhead), steps);
      && (!s.shared.closed ==> s.receiver.consumed <= s.shared.published)
      && (s.receiver.ended ==> s.shared.senders == 0 && AllFinished(s) && s.receiver.consumed == s.shared.published)
  {
    RunKeepsInv(overhead, steps);
    var s := Exec(Init(overhead), steps);
    if s.receiver.ended {
      forall i | 0 <= i < |s.tasks|
        ensures s.tasks[i].pc.Finished?
      {
        if !s.tasks[i].pc.Finished? {
          AliveUpdate(s.handles, s.tasks[i].handle, Alive);
        }
      }
    }
  }

  /** The loop of `prepend`: pushing to the front in reverse keeps the replayed order. */
  method Replay(prefix: seq<Item>, items: seq<Item>) returns (replayed: seq<Item>)
    ensures replayed == items + prefix
  {
    replayed := prefix;
    var i := |items|;
    while i > 0
      invariant 0 <= i <= |items|
      invariant replayed == items[i..] + prefix
    {
      i := i - 1;
      replayed := [items[i]] + replayed;
    }
  }
}
