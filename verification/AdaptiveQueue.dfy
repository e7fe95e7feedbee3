/** The byte queue with its adaptive target, crates/protocol/src/queue.rs as a whole: tasks load
    the target that refreshes publish, and refreshes measure what the receiver gives back. */
module AdaptiveQueue {
  import opened Common
  import Q = ByteQueue
  import ByteQueueTheorems
  import R = SharedRefresh
  import C = FeedbackCapacity

  /** `uncounted` is the cost the receiver gave back and adds to `completed` next; `received` is
      history, all it ever gave back. */
  datatype Ledger = Ledger(capacity: R.State, uncounted: nat, received: nat)

  datatype State = State(queue: Q.State, ledger: Ledger)

  datatype Step =
    | Work(step: Q.Step)
    | StartRefresh(now: nat)
    | Refresh(thread: nat)
    | CountReceived

  function Init(overhead: nat, initial: nat): State { State(Q.Init(overhead), Ledger(R.Init(initial), 0, 0)) }

  /** A task that loads the target loads the published one. */
  function Loaded(s: State, step: Q.Step): Q.Step {
    if step.Advance? && step.choice.Target? then step.(choice := Q.Target(s.ledger.capacity.target)) else step
  }

  /** What the step gives back of the items the receiver took. */
  function GivesBack(q: Q.State, step: Q.Step): nat {
    if step.AdvanceReceiver? && q.receiver.pc.Release? then q.receiver.pc.cost else 0
  }

  /** `complete` counts what it gave back before it notifies. */
  predicate Enabled(s: State, step: Q.Step) {
    step.AdvanceReceiver? && s.queue.receiver.pc.Notify? ==> s.ledger.uncounted == 0
  }

  predicate Works(s: State, step: Step) { step.Work? && Enabled(s, step.step) }

  function NextLedger(l: Ledger, step: Step, back: nat): Ledger {
    match step
    case Work(_) => l.(uncounted := l.uncounted + back, received := l.received + back)
    case StartRefresh(now) => l.(capacity := R.Next(l.capacity, R.Call(now)))
    case Refresh(thread) => l.(capacity := R.Next(l.capacity, R.Advance(thread)))
    case CountReceived => l.(capacity := R.Next(l.capacity, R.FetchAdd(l.uncounted)), uncounted := 0)
  }

  function Next(s: State, step: Step): State {
    if Works(s, step) then
      State(Q.Next(s.queue, Loaded(s, step.step)), NextLedger(s.ledger, step, GivesBack(s.queue, step.step)))
    else s.(ledger := NextLedger(s.ledger, step, 0))
  }

  function Exec(s: State, steps: seq<Step>): State
    decreases |steps|
  {
    if steps == [] then s else Next(Exec(s, steps[..|steps| - 1]), steps[|steps| - 1])
  }

  // ---------------------------------------------------------------- every run is a run of the queue

  /** What a run does to the queue. */
  function QueueSteps(s: State, steps: seq<Step>): seq<Q.Step>
    decreases |steps|
  {
    if steps == [] then []
    else
      var n := |steps| - 1;
      var before := Exec(s, steps[..n]);
      QueueSteps(s, steps[..n])
      + if Works(before, steps[n]) then [Loaded(before, steps[n].step)] else []
  }

  lemma {:induction false} QueueRuns(overhead: nat, initial: nat, steps: seq<Step>)
    ensures Exec(Init(overhead, initial), steps).queue
         == Q.Exec(Q.Init(overhead), QueueSteps(Init(overhead, initial), steps))
    decreases |steps|
  {
    if steps != [] {
      var n := |steps| - 1;
      QueueRuns(overhead, initial, steps[..n]);
      var before := Exec(Init(overhead, initial), steps[..n]);
      var ran := QueueSteps(Init(overhead, initial), steps[..n]);
      if Works(before, steps[n]) {
        ByteQueueTheorems.ExecSnoc(Q.Init(overhead), ran, Loaded(before, steps[n].step));
      } else {
        assert ran + [] == ran;
      }
    }
  }

  // ---------------------------------------------------------------- the bound

  /** The feedback publishes at most 4/125 of what was received, or what it started from. */
  function Allowance(start: nat, received: nat): nat { Max(start, received * 4 / 125) }

  predicate ThreadOk(t: R.Thread, start: nat, received: nat) {
    && (t.LoadTarget? ==> t.sample <= received * 4 / 125)
    && (t.StoreTarget? ==> t.value <= Allowance(start, received))
  }

  /** The capacity started from a target of `start`, and `received` was given back since. */
  ghost predicate CapacityOk(c: R.State, start: nat, uncounted: nat, received: nat) {
    && R.Inv(c) && c.initial <= start && c.completed + uncounted <= received
    && c.target <= Allowance(start, received)
    && (forall i :: 0 <= i < |c.threads| ==> ThreadOk(c.threads[i], start, received))
  }

  lemma {:induction false} RefreshKeepsOk(c: R.State, i: nat, start: nat, uncounted: nat, received: nat)
    requires CapacityOk(c, start, uncounted, received) && i < |c.threads|
    ensures CapacityOk(R.AdvanceThread(c, i), start, uncounted, received)
  {
    R.AdvanceKeepsInv(c, i);
    var t := c.threads[i];
    assert ThreadOk(t, start, received);
    if t.Drain? {
      C.SampleBound(c.completed, t.elapsed);
    } else if t.LoadTarget? {
      C.ShiftNeverGrows(c.target, C.Periods(t.elapsed));
    }
  }

  lemma MoreReceived(c: R.State, start: nat, uncounted: nat, received: nat, back: nat)
    requires CapacityOk(c, start, uncounted, received)
    ensures CapacityOk(c, start, uncounted + back, received + back)
    ensures Allowance(start, received) <= Allowance(start, received + back)
  {
    forall i | 0 <= i < |c.threads|
      ensures ThreadOk(c.threads[i], start, received + back)
    {
      assert ThreadOk(c.threads[i], start, received);
    }
  }

  lemma CallKeepsOk(c: R.State, now: nat, start: nat, uncounted: nat, received: nat)
    requires CapacityOk(c, start, uncounted, received)
    ensures CapacityOk(R.Next(c, R.Call(now)), start, uncounted, received)
  {
    R.StepKeepsInv(c, R.Call(now));
  }

  lemma CountKeepsOk(c: R.State, start: nat, uncounted: nat, received: nat)
    requires CapacityOk(c, start, uncounted, received)
    ensures CapacityOk(R.Next(c, R.FetchAdd(uncounted)), start, 0, received)
  {
    R.StepKeepsInv(c, R.FetchAdd(uncounted));
  }

  ghost predicate Since(l: Ledger, start: nat, base: nat) {
    base <= l.received && CapacityOk(l.capacity, start, l.uncounted, l.received - base)
  }

  lemma WorkKeepsSince(l: Ledger, step: Step, back: nat, start: nat, base: nat)
    requires Since(l, start, base) && step.Work?
    ensures Since(NextLedger(l, step, back), start, base)
  {
    MoreReceived(l.capacity, start, l.uncounted, l.received - base, back);
    assert l.received - base + back == l.received + back - base;
  }

  lemma RefreshKeepsSince(l: Ledger, step: Step, start: nat, base: nat)
    requires Since(l, start, base) && step.Refresh?
    ensures Since(NextLedger(l, step, 0), start, base)
  {
    if step.thread < |l.capacity.threads| {
      RefreshKeepsOk(l.capacity, step.thread, start, l.uncounted, l.received - base);
    }
  }

  lemma {:induction false} StepKeepsSince(l: Ledger, step: Step, back: nat, start: nat, base: nat)
    requires Since(l, start, base)
    ensures Since(NextLedger(l, step, back), start, base)
  {
    match step
    case Work(_) => WorkKeepsSince(l, step, back, start, base);
    case StartRefresh(now) => CallKeepsOk(l.capacity, now, start, l.uncounted, l.received - base);
    case Refresh(_) => RefreshKeepsSince(l, step, start, base);
    case CountReceived => CountKeepsOk(l.capacity, start, l.uncounted, l.received - base);
  }

  lemma StepKeepsInitial(l: Ledger, step: Step, back: nat)
    ensures NextLedger(l, step, back).capacity.initial == l.capacity.initial
  {}

  lemma {:induction false} RunKeepsSince(s: State, steps: seq<Step>, start: nat, base: nat)
    requires Since(s.ledger, start, base)
    ensures Since(Exec(s, steps).ledger, start, base)
    ensures Exec(s, steps).ledger.capacity.initial == s.ledger.capacity.initial
    decreases |steps|
  {
    if steps != [] {
      var before := Exec(s, steps[..|steps| - 1]);
      var step := steps[|steps| - 1];
      RunKeepsSince(s, steps[..|steps| - 1], start, base);
      var back := if Works(before, step) then GivesBack(before.queue, step.step) else 0;
      StepKeepsSince(before.ledger, step, back, start, base);
      StepKeepsInitial(before.ledger, step, back);
    }
  }

  /** Nothing given back waits to be measured. */
  predicate Settled(l: Ledger) { l.uncounted == 0 && l.capacity.completed == 0 && !l.capacity.refreshing }

  lemma SettledStart(l: Ledger, start: nat, base: nat)
    requires Since(l, start, base) && Settled(l)
    ensures Since(l, l.capacity.target, l.received)
  {}

  lemma RiseSince(s: State, later: seq<Step>, start: nat, base: nat)
    requires Since(s.ledger, start, base) && Settled(s.ledger)
    ensures var l := Exec(s, later).ledger;
      && s.ledger.received <= l.received
      && s.ledger.capacity.initial <= l.capacity.target
      && l.capacity.target <= Allowance(s.ledger.capacity.target, l.received - s.ledger.received)
  {
    SettledStart(s.ledger, start, base);
    RunKeepsSince(s, later, s.ledger.capacity.target, s.ledger.received);
  }

  /** From any settled point of any run on, the target rises above where it stood only by what the
      receiver gives back meanwhile: senders that fill the queue and refresh cannot raise it. */
  lemma TargetFollowsConsumption(overhead: nat, initial: nat, steps: seq<Step>, later: seq<Step>)
    requires initial <= USIZE_MAX && Settled(Exec(Init(overhead, initial), steps).ledger)
    ensures var l := Exec(Init(overhead, initial), steps).ledger;
      var l' := Exec(Exec(Init(overhead, initial), steps), later).ledger;
      && l.received <= l'.received
      && initial <= l'.capacity.target <= Allowance(l.capacity.target, l'.received - l.received)
  {
    RunKeepsSince(Init(overhead, initial), steps, initial, 0);
    RiseSince(Exec(Init(overhead, initial), steps), later, initial, 0);
  }

  // ---------------------------------------------------------------- what the queue may hold

  lemma TaskPeak(sh: Q.Shared, t: Q.Task, choice: Q.Choice)
    ensures var peak := Q.TaskOp(sh, t, choice).shared.peakTarget;
      peak == sh.peakTarget || (choice.Target? && peak == Max(sh.peakTarget, choice.target))
  {}

  lemma ReceiverPeak(sh: Q.Shared, r: Q.Receiver)
    ensures Q.ReceiverOp(sh, r).shared.peakTarget == sh.peakTarget
  {}

  /** Only a load of the target moves the largest target loaded. */
  lemma PeakTarget(q: Q.State, step: Q.Step)
    ensures var peak := Q.Next(q, step).shared.peakTarget;
      || peak == q.shared.peakTarget
      || (step.Advance? && step.choice.Target? && peak == Max(q.shared.peakTarget, step.choice.target))
  {
    if step.AdvanceReceiver? {
      ReceiverPeak(q.shared, q.receiver);
    } else if step.Advance? && step.task < |q.tasks| {
      TaskPeak(q.shared, q.tasks[step.task], step.choice);
    }
  }

  lemma PeakStep(s: State, step: Step, initial: nat)
    requires Since(s.ledger, initial, 0) && s.queue.shared.peakTarget <= Allowance(initial, s.ledger.received)
    ensures Next(s, step).queue.shared.peakTarget <= Allowance(initial, s.ledger.received)
  {
    if Works(s, step) {
      PeakTarget(s.queue, Loaded(s, step.step));
    }
  }

  lemma {:induction false} PeakFollowsConsumption(overhead: nat, initial: nat, steps: seq<Step>)
    requires initial <= USIZE_MAX
    ensures var s := Exec(Init(overhead, initial), steps);
      s.queue.shared.peakTarget <= Allowance(initial, s.ledger.received)
    decreases |steps|
  {
    if steps != [] {
      var n := |steps| - 1;
      var before := Exec(Init(overhead, initial), steps[..n]);
      PeakFollowsConsumption(overhead, initial, steps[..n]);
      RunKeepsSince(Init(overhead, initial), steps[..n], initial, 0);
      PeakStep(before, steps[n], initial);
    }
  }

  /** In every run of senders, receiver and refreshes the queue holds at most the initial
      allowance, 4/125 of all the receiver ever took, or one oversized request. */
  lemma BytesFollowConsumption(overhead: nat, initial: nat, steps: seq<Step>)
    requires overhead > 0 && initial <= USIZE_MAX
    ensures var s := Exec(Init(overhead, initial), steps);
      0 <= s.queue.shared.bytes <= Max(Allowance(initial, s.ledger.received), s.queue.shared.peakCost)
  {
    PeakFollowsConsumption(overhead, initial, steps);
    QueueRuns(overhead, initial, steps);
    ByteQueueTheorems.CreditsAreExact(overhead, QueueSteps(Init(overhead, initial), steps));
  }
}
