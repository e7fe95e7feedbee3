/** `try_recv` of crates/protocol/src/queue.rs: it looks at the queue, then at the senders, and does
    not look at the queue again. When its Closed can be trusted. */
module TryRecv {
  import opened Common
  import opened ByteQueue
  import opened ByteQueueProofs
  import opened ByteQueueTheorems

  /** The call is about to load `senders` and to report Closed. */
  predicate ReportsClosed(s: State) { s.receiver.pc.TrySenders? && s.shared.senders == 0 }

  predicate Overlooks(s: State) { ReportsClosed(s) && s.shared.items != [] }

  predicate SenderStep(step: Step) {
    step.Clone? || step.DropSender? || step.WakeAfterDrop? || step.Borrow? || step.Advance?
  }

  predicate SenderSteps(steps: seq<Step>) { forall i :: 0 <= i < |steps| ==> SenderStep(steps[i]) }

  /** From the look at the queue in `s`, after whatever the senders do until the load. */
  predicate OverlooksFrom(s: State, more: seq<Step>) {
    s.receiver.pc.TryPop? && SenderSteps(more) && Overlooks(Exec(Next(s, AdvanceReceiver), more))
  }

  /** No call that looks at the queue with `n` senders left ever misses an item. */
  ghost predicate NeverOverlooks(overhead: nat, n: nat) {
    forall steps: seq<Step>, more: seq<Step> ::
      Exec(Init(overhead), steps).shared.senders == n ==> !OverlooksFrom(Exec(Init(overhead), steps), more)
  }

  // ---------------------------------------------------------------- with no sender left

  lemma {:induction false} NobodyAlive(handles: seq<Handle>)
    requires AliveCount(handles) == 0
    ensures forall h :: 0 <= h < |handles| ==> !handles[h].Alive?
  {
    if handles != [] {
      NobodyAlive(handles[1..]);
      assert forall h :: 0 < h < |handles| ==> handles[h] == handles[1..][h - 1];
    }
  }

  /** Without senders nothing can be published or cloned. */
  lemma NothingHappens(s: State, step: Step)
    requires Borrowed(s) && s.shared.senders == 0 && SenderStep(step)
    ensures var s' := Next(s, step);
      s'.shared.items == s.shared.items && s'.shared.senders == 0 && s'.receiver == s.receiver
      && s'.shared.published == s.shared.published && s'.shared.closed == s.shared.closed
  {
    NobodyAlive(s.handles);
    if step.Advance? && step.task < |s.tasks| {
      assert s.tasks[step.task].pc.Finished?;
    }
  }

  lemma {:induction false} NothingFollows(s: State, more: seq<Step>)
    requires Inv(s) && s.shared.senders == 0 && SenderSteps(more)
    ensures var s' := Exec(s, more);
      Inv(s') && s'.shared.items == s.shared.items && s'.shared.senders == 0 && s'.receiver == s.receiver
      && s'.shared.published == s.shared.published && s'.shared.closed == s.shared.closed
    decreases |more|
  {
    if more != [] {
      var n := |more| - 1;
      NothingFollows(s, more[..n]);
      NothingHappens(Exec(s, more[..n]), more[n]);
      StepKeepsInv(Exec(s, more[..n]), more[n]);
    }
  }

  /** With no sender left at the look, Closed means that everything published was consumed,
      whenever the load happens. */
  lemma ClosedMeansTheEnd(overhead: nat, steps: seq<Step>, more: seq<Step>)
    requires overhead > 0 && SenderSteps(more)
    requires var s := Exec(Init(overhead), steps); s.receiver.pc.TryPop? && s.shared.senders == 0
    ensures var s := Exec(Next(Exec(Init(overhead), steps), AdvanceReceiver), more);
      ReportsClosed(s) ==> s.shared.items == [] && s.receiver.consumed == s.shared.published
  {
    var s := Exec(Init(overhead), steps);
    RunKeepsInv(overhead, steps);
    StepKeepsInv(s, AdvanceReceiver);
    NothingFollows(Next(s, AdvanceReceiver), more);
  }

  // ---------------------------------------------------------------- with a sender left

  lemma {:induction false} ExecAppend(s: State, first: seq<Step>, second: seq<Step>)
    ensures Exec(s, first + second) == Exec(Exec(s, first), second)
    decreases |second|
  {
    if second == [] {
      assert first + second == first;
    } else {
      var n := |second| - 1;
      assert (first + second)[..|first| + n] == first + second[..n];
      ExecAppend(s, first, second[..n]);
    }
  }

  lemma ExecOne(s: State, step: Step)
    ensures Exec(s, [step]) == Next(s, step)
  {
    assert [step][..0] == [];
    assert Exec(s, []) == s;
  }

  lemma ExecFour(s: State, a: Step, b: Step, c: Step, d: Step)
    ensures Exec(s, [a, b, c, d]) == Next(Next(Next(Next(s, a), b), c), d)
  {
    assert [a, b, c, d] == [a] + [b] + [c] + [d];
    ExecOne(s, a);
    ExecAppend(s, [a], [b]);
    ExecOne(Next(s, a), b);
    ExecAppend(s, [a] + [b], [c]);
    ExecOne(Next(Next(s, a), b), c);
    ExecAppend(s, [a] + [b] + [c], [d]);
    ExecOne(Next(Next(Next(s, a), b), c), d);
  }

  lemma {:induction false} SomebodyAlive(handles: seq<Handle>) returns (h: nat)
    requires AliveCount(handles) > 0
    ensures h < |handles| && handles[h].Alive?
  {
    if handles[0].Alive? {
      h := 0;
    } else {
      var k := SomebodyAlive(handles[1..]);
      h := k + 1;
    }
  }

  /** When no use is in progress, every handle can be dropped. */
  lemma {:induction false} DropAll(s: State) returns (steps: seq<Step>)
    requires Inv(s) && AllFinished(s)
    ensures SenderSteps(steps)
    ensures var s' := Exec(s, steps);
      s'.shared.senders == 0 && s'.shared.items == s.shared.items && s'.receiver == s.receiver
    decreases AliveCount(s.handles)
  {
    if s.shared.senders == 0 {
      steps := [];
    } else {
      var h := SomebodyAlive(s.handles);
      var drop := DropSender(h);
      assert Unused(s.tasks, h);
      AliveUpdate(s.handles, h, Waking);
      AliveUpdate(s.handles, h, Dropped);
      StepKeepsInv(s, drop);
      var rest := DropAll(Next(s, drop));
      steps := [drop] + rest;
      ExecOne(s, drop);
      ExecAppend(s, [drop], rest);
    }
  }

  /** `n` handles and one use of the first, without its waiting option. */
  function Raced(overhead: nat, n: nat, sh: Shared, pc: Pc, receiver: ReceiverPc): State {
    State(overhead, sh, seq(n, _ => Alive), [Task(0, overhead, false, pc, false)],
          Receiver(receiver, [], [], [], false, false))
  }

  function Empty(overhead: nat, n: nat): Shared { Shared([], 0, false, n, false, false, [], 0, overhead) }

  function Reserved(overhead: nat, n: nat): Shared { Empty(overhead, n).(bytes := overhead) }

  function Queued(overhead: nat, n: nat): Shared {
    Reserved(overhead, n).(items := [Entry(7, overhead)], published := [7])
  }

  function Cloned(overhead: nat, n: nat): State {
    State(overhead, Shared([], 0, false, n, false, false, [], 0, 0), seq(n, _ => Alive), [],
          Receiver(Idle, [], [], [], false, false))
  }

  lemma {:induction false} CloneUpTo(overhead: nat, n: nat) returns (steps: seq<Step>)
    requires n >= 1
    ensures Exec(Init(overhead), steps) == Cloned(overhead, n)
  {
    if n == 1 {
      steps := [];
      assert seq(1, _ => Alive) == [Alive];
    } else {
      var before := CloneUpTo(overhead, n - 1);
      steps := before + [Clone(0)];
      ExecAppend(Init(overhead), before, [Clone(0)]);
      ExecOne(Cloned(overhead, n - 1), Clone(0));
      assert seq(n - 1, _ => Alive) + [Alive] == seq(n, _ => Alive);
    }
  }

  /** One atomic operation of the one use. */
  lemma RacedMoves(overhead: nat, n: nat, sh: Shared, pc: Pc, r: ReceiverPc, choice: Choice, sh': Shared, pc': Pc)
    requires TaskOp(sh, Task(0, overhead, false, pc, false), choice)
          == Effect(sh', Task(0, overhead, false, pc', false), false)
    ensures Next(Raced(overhead, n, sh, pc, r), Advance(0, choice)) == Raced(overhead, n, sh', pc', r)
  {
    var t := Task(0, overhead, false, pc, false);
    assert [t][0 := Task(0, overhead, false, pc', false)] == [Task(0, overhead, false, pc', false)];
  }

  lemma Reserves(overhead: nat, n: nat)
    requires n >= 1 && 0 < overhead <= USIZE_MAX
    ensures Next(Cloned(overhead, n), Borrow(0, 0, false)) == Raced(overhead, n, Empty(overhead, n), Enter, Idle)
    ensures Exec(Raced(overhead, n, Empty(overhead, n), Enter, Idle),
                 [Advance(0, Go), Advance(0, Go), Advance(0, Target(0)), Advance(0, Go)])
         == Raced(overhead, n, Reserved(overhead, n), Recheck, Idle)
  {
    var sh := Empty(overhead, n);
    ExecFour(Raced(overhead, n, sh, Enter, Idle), Advance(0, Go), Advance(0, Go), Advance(0, Target(0)),
      Advance(0, Go));
    RacedMoves(overhead, n, sh, Enter, Idle, Go, sh, CheckOpen);
    RacedMoves(overhead, n, sh, CheckOpen, Idle, Go, sh, LoadTarget);
    RacedMoves(overhead, n, sh, LoadTarget, Idle, Target(0), sh, Reserve(0));
    RacedMoves(overhead, n, sh, Reserve(0), Idle, Go, Reserved(overhead, n), Recheck);
  }

  lemma Looks(overhead: nat, n: nat)
    ensures Exec(Raced(overhead, n, Reserved(overhead, n), Recheck, Idle),
                 [Advance(0, Go), Advance(0, Send(7)), Advance(0, Go), TryRecv])
         == Raced(overhead, n, Reserved(overhead, n), Publish(7), TryPop)
  {
    var sh := Reserved(overhead, n);
    ExecFour(Raced(overhead, n, sh, Recheck, Idle), Advance(0, Go), Advance(0, Send(7)), Advance(0, Go), TryRecv);
    RacedMoves(overhead, n, sh, Recheck, Idle, Go, sh, Holding);
    RacedMoves(overhead, n, sh, Holding, Idle, Send(7), sh, SendCheck(7));
    RacedMoves(overhead, n, sh, SendCheck(7), Idle, Go, sh, Publish(7));
  }

  lemma FindsNothing(overhead: nat, n: nat)
    ensures Next(Raced(overhead, n, Reserved(overhead, n), Publish(7), TryPop), AdvanceReceiver)
         == Raced(overhead, n, Reserved(overhead, n), Publish(7), TrySenders)
  {}

  lemma PublishesOne(overhead: nat, n: nat)
    ensures Next(Raced(overhead, n, Reserved(overhead, n), Publish(7), TrySenders), Advance(0, Go))
         == Raced(overhead, n, Queued(overhead, n), PublishCheck, TrySenders)
  {
    var (sh, q) := (Reserved(overhead, n), Queued(overhead, n));
    assert sh.items + [Entry(7, overhead)] == q.items && sh.published + [7] == q.published;
    RacedMoves(overhead, n, sh, Publish(7), TrySenders, Go, q, PublishCheck);
  }

  lemma Settles(overhead: nat, n: nat, q: Shared)
    requires !q.closed && !q.registered
    ensures Next(Raced(overhead, n, q, PublishCheck, TrySenders), Advance(0, Go))
         == Raced(overhead, n, q, WakeReader, TrySenders)
    ensures Next(Raced(overhead, n, q, WakeReader, TrySenders), Advance(0, Go))
         == Raced(overhead, n, q, Finished(Sent), TrySenders)
    ensures Next(Raced(overhead, n, q, Finished(Sent), TrySenders), Advance(0, Go))
         == Raced(overhead, n, q, Finished(Sent), TrySenders)
  {
    RacedMoves(overhead, n, q, PublishCheck, TrySenders, Go, q, WakeReader);
    RacedMoves(overhead, n, q, WakeReader, TrySenders, Go, q, Finished(Sent));
    RacedMoves(overhead, n, q, Finished(Sent), TrySenders, Go, q, Finished(Sent));
  }

  lemma Publishes(overhead: nat, n: nat)
    ensures Exec(Raced(overhead, n, Reserved(overhead, n), Publish(7), TrySenders),
                 [Advance(0, Go), Advance(0, Go), Advance(0, Go), Advance(0, Go)])
         == Raced(overhead, n, Queued(overhead, n), Finished(Sent), TrySenders)
  {
    var go := Advance(0, Go);
    PublishesOne(overhead, n);
    Settles(overhead, n, Queued(overhead, n));
    ExecFour(Raced(overhead, n, Reserved(overhead, n), Publish(7), TrySenders), go, go, go, go);
  }

  /** A run to a call that looks at the queue while a permit is about to publish. */
  lemma ReachLook(overhead: nat, n: nat) returns (steps: seq<Step>)
    requires n >= 1 && 0 < overhead <= USIZE_MAX
    ensures Exec(Init(overhead), steps) == Raced(overhead, n, Reserved(overhead, n), Publish(7), TryPop)
  {
    var clones := CloneUpTo(overhead, n);
    var borrow := [Borrow(0, 0, false)];
    var reserve := [Advance(0, Go), Advance(0, Go), Advance(0, Target(0)), Advance(0, Go)];
    var look := [Advance(0, Go), Advance(0, Send(7)), Advance(0, Go), TryRecv];
    Reserves(overhead, n);
    Looks(overhead, n);
    ExecAppend(Init(overhead), clones, borrow);
    ExecOne(Cloned(overhead, n), borrow[0]);
    ExecAppend(Init(overhead), clones + borrow, reserve);
    ExecAppend(Init(overhead), clones + borrow + reserve, look);
    steps := clones + borrow + reserve + look;
  }

  /** Between the look at the queue and the look at the senders, the senders publish and go. */
  lemma PublishAndGo(s: State, queued: State, publish: seq<Step>) returns (more: seq<Step>)
    requires Inv(queued) && AllFinished(queued) && queued.receiver.pc.TrySenders? && queued.shared.items != []
    requires s.receiver.pc.TryPop? && SenderSteps(publish) && Exec(Next(s, AdvanceReceiver), publish) == queued
    ensures OverlooksFrom(s, more)
  {
    var drops := DropAll(queued);
    ExecAppend(Next(s, AdvanceReceiver), publish, drops);
    more := publish + drops;
  }

  lemma QueuedIsReachable(overhead: nat, steps: seq<Step>, s: State, publish: seq<Step>)
    requires overhead > 0 && Exec(Init(overhead), steps) == s
    ensures Inv(Exec(Next(s, AdvanceReceiver), publish))
  {
    RunKeepsInv(overhead, steps + [AdvanceReceiver] + publish);
    ExecAppend(Init(overhead), steps, [AdvanceReceiver]);
    ExecOne(s, AdvanceReceiver);
    ExecAppend(Init(overhead), steps + [AdvanceReceiver], publish);
  }

  /** One run in which `try_recv` reports Closed although a published item is still queued. */
  lemma MissesAnItem(overhead: nat, n: nat)
    requires n >= 1 && 0 < overhead <= USIZE_MAX
    ensures !NeverOverlooks(overhead, n)
  {
    var steps := ReachLook(overhead, n);
    var s := Raced(overhead, n, Reserved(overhead, n), Publish(7), TryPop);
    var publish := [Advance(0, Go), Advance(0, Go), Advance(0, Go), Advance(0, Go)];
    FindsNothing(overhead, n);
    Publishes(overhead, n);
    QueuedIsReachable(overhead, steps, s, publish);
    var more := PublishAndGo(s, Raced(overhead, n, Queued(overhead, n), Finished(Sent), TrySenders), publish);
  }

  /** `try_recv`'s Closed can be trusted exactly when no sender was left when it looked. */
  lemma TrustedExactly(overhead: nat, n: nat)
    requires 0 < overhead <= USIZE_MAX
    ensures NeverOverlooks(overhead, n) <==> n == 0
  {
    if n == 0 {
      forall steps: seq<Step>, more: seq<Step> | Exec(Init(overhead), steps).shared.senders == n
        ensures !OverlooksFrom(Exec(Init(overhead), steps), more)
      {
        if Exec(Init(overhead), steps).receiver.pc.TryPop? && SenderSteps(more) {
          ClosedMeansTheEnd(overhead, steps, more);
        }
      }
    } else {
      MissesAnItem(overhead, n);
    }
  }
}
