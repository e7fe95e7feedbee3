/** `Shared::refresh` of crates/protocol/src/queue.rs, one atomic operation per step, refines
    the sequential `Capacity`. Threads read the clock themselves, so a thread may arrive with
    an instant older than the last refresh. */
module SharedRefresh {
  import opened Common
  import opened FeedbackCapacity

  datatype Thread =
    | Compare(now: nat)                       // load `updated`
    | Acquire(now: nat)                       // swap `refreshing`
    | Reload(now: nat)                        // load `updated` again, inside
    | Drain(now: nat, elapsed: nat)           // swap `completed` with 0
    | LoadTarget(now: nat, elapsed: nat, sample: nat)
    | StoreTarget(now: nat, value: nat)
    | StoreUpdated(now: nat)
    | Unlock
    | Done

  /** `holder` is history: the thread whose swap of `refreshing` found it free. */
  datatype State = State(
    initial: nat, target: nat, updated: nat, completed: nat, refreshing: bool,
    threads: seq<Thread>, holder: int)

  datatype Step = Call(now: nat) | Advance(thread: nat) | FetchAdd(bytes: nat)

  function Init(initial: nat): State { State(initial, initial, 0, 0, false, [], -1) }

  predicate Inside(t: Thread) {
    t.Reload? || t.Drain? || t.LoadTarget? || t.StoreTarget? || t.StoreUpdated? || t.Unlock?
  }

  function Since(updated: nat, now: nat): nat { if now < updated then 0 else now - updated }

  function Go(s: State, i: nat, t: Thread): State
    requires i < |s.threads|
  {
    s.(threads := s.threads[i := t])
  }

  function AdvanceThread(s: State, i: nat): State
    requires i < |s.threads|
  {
    match s.threads[i]
    case Compare(now) =>
      Go(s, i, if Since(s.updated, now) < INTERVAL then Done else Acquire(now))
    case Acquire(now) =>
      if s.refreshing then Go(s, i, Done) else Go(s, i, Reload(now)).(refreshing := true, holder := i)
    case Reload(now) =>
      var elapsed := Since(s.updated, now);
      Go(s, i, if elapsed >= INTERVAL then Drain(now, elapsed) else Unlock)
    case Drain(now, elapsed) =>
      if elapsed > 0 then Go(s, i, LoadTarget(now, elapsed, Sample(s.completed, elapsed))).(completed := 0) else s
    case LoadTarget(now, elapsed, sample) =>
      Go(s, i, StoreTarget(now, Max(Max(sample, ShiftRight(s.target, Periods(elapsed))), s.initial)))
    case StoreTarget(now, value) => Go(s, i, StoreUpdated(now)).(target := value)
    case StoreUpdated(now) => Go(s, i, Unlock).(updated := now)
    case Unlock => Go(s, i, Done).(refreshing := false, holder := -1)
    case Done => s
  }

  function Next(s: State, step: Step): State {
    match step
    case Call(now) => s.(threads := s.threads + [Compare(now)])
    case Advance(i) => if i < |s.threads| then AdvanceThread(s, i) else s
    case FetchAdd(bytes) => s.(completed := (s.completed + bytes) % (USIZE_MAX + 1))   // wraps
  }

  function Exec(s: State, steps: seq<Step>): State
    decreases |steps|
  {
    if steps == [] then s else Next(Exec(s, steps[..|steps| - 1]), steps[|steps| - 1])
  }

  // ---------------------------------------------------------------- mutual exclusion

  /** Only the holder is inside, with the update stamp it measured against still in place. */
  ghost predicate Inv(s: State) {
    && s.initial <= s.target <= USIZE_MAX && s.completed <= USIZE_MAX
    && (s.refreshing <==> s.holder >= 0)
    && (s.holder >= 0 ==> s.holder < |s.threads| && Inside(s.threads[s.holder]))
    && (forall i :: 0 <= i < |s.threads| && Inside(s.threads[i]) ==> i == s.holder)
    && (forall i :: 0 <= i < |s.threads| && Measured(s.threads[i]) ==>
          s.threads[i].elapsed >= INTERVAL && s.threads[i].now == s.updated + s.threads[i].elapsed)
    && (forall i :: 0 <= i < |s.threads| && s.threads[i].LoadTarget? ==> s.threads[i].sample <= USIZE_MAX)
    && (forall i :: 0 <= i < |s.threads| && s.threads[i].StoreTarget? ==> s.initial <= s.threads[i].value <= USIZE_MAX)
  }

  predicate Measured(t: Thread) { t.Drain? || t.LoadTarget? }

  lemma {:induction false} AdvanceKeepsInv(s: State, i: nat)
    requires Inv(s) && i < |s.threads|
    ensures Inv(AdvanceThread(s, i))
  {
    if s.threads[i].LoadTarget? {
      ShiftNeverGrows(s.target, Periods(s.threads[i].elapsed));
    }
  }

  lemma {:induction false} StepKeepsInv(s: State, step: Step)
    requires Inv(s)
    ensures Inv(Next(s, step))
  {
    if step.Advance? && step.thread < |s.threads| {
      AdvanceKeepsInv(s, step.thread);
    }
  }

  // ---------------------------------------------------------------- refinement

  /** The sequential state a concurrent state stands for. A refresh takes effect when its
      thread swaps `completed`; until it has stored target and stamp, they are its locals. */
  ghost function Abstract(s: State): Feedback
    requires Inv(s)
  {
    if s.holder < 0 then Feedback(s.initial, s.target, s.updated, s.completed)
    else
      match s.threads[s.holder]
      case LoadTarget(now, elapsed, sample) =>
        Refresh(Feedback(s.initial, s.target, s.updated, s.completed), elapsed, now, sample).(completed := s.completed)
      case StoreTarget(now, value) => Feedback(s.initial, value, now, s.completed)
      case StoreUpdated(now) => Feedback(s.initial, s.target, now, s.completed)
      case _ => Feedback(s.initial, s.target, s.updated, s.completed)
  }

  /** A refresh step polls the sequential capacity exactly once, at the swap of `completed`;
      every other step of a refresh is invisible. */
  lemma {:induction false} AdvanceRefines(s: State, i: nat)
    requires Inv(s) && i < |s.threads|
    ensures Inv(AdvanceThread(s, i))
    ensures Abstract(AdvanceThread(s, i))
         == if s.threads[i].Drain? then Poll(Abstract(s), s.threads[i].now) else Abstract(s)
    ensures s.threads[i].Drain? ==> Elapsed(Abstract(s), s.threads[i].now) >= INTERVAL
  {
    AdvanceKeepsInv(s, i);
  }

  /** The counter refines the saturating sum of the sequential one exactly while it does not wrap. */
  lemma FetchAddRefines(s: State, bytes: nat)
    requires Inv(s) && bytes <= USIZE_MAX
    ensures Inv(Next(s, FetchAdd(bytes)))
    ensures Abstract(Next(s, FetchAdd(bytes))) == Add(Abstract(s), bytes) <==> s.completed + bytes <= USIZE_MAX
  {
    StepKeepsInv(s, FetchAdd(bytes));
  }

  /** No `fetch_add` of the run wraps the counter. */
  ghost predicate NoWrap(s: State, steps: seq<Step>) {
    forall i :: 0 <= i < |steps| && steps[i].FetchAdd? ==> Exec(s, steps[..i]).completed + steps[i].bytes <= USIZE_MAX
  }

  /** The sequential operations one concurrent step performs: none or one. */
  function OpsOf(s: State, step: Step): seq<Op> {
    match step
    case Call(_) => []
    case FetchAdd(bytes) => [Count(bytes)]
    case Advance(i) => if i < |s.threads| && s.threads[i].Drain? then [PollAt(s.threads[i].now)] else []
  }

  function History(s: State, steps: seq<Step>): seq<Op>
    decreases |steps|
  {
    if steps == [] then []
    else
      var n := |steps| - 1;
      History(s, steps[..n]) + OpsOf(Exec(s, steps[..n]), steps[n])
  }

  lemma RunAppend(f: Feedback, ops: seq<Op>, op: Op)
    ensures Run(f, ops + [op]) == Apply(Run(f, ops), op)
  {
    assert (ops + [op])[..|ops|] == ops;
  }

  lemma {:induction false} StepRefines(s: State, step: Step, f: Feedback, ops: seq<Op>)
    requires Inv(s) && Abstract(s) == Run(f, ops)
    requires step.FetchAdd? ==> s.completed + step.bytes <= USIZE_MAX
    ensures Inv(Next(s, step)) && Abstract(Next(s, step)) == Run(f, ops + OpsOf(s, step))
  {
    StepKeepsInv(s, step);
    assert ops + [] == ops;
    match step
    case Call(_) =>
    case FetchAdd(bytes) =>
      FetchAddRefines(s, bytes);
      RunAppend(f, ops, Count(bytes));
    case Advance(i) =>
      if i < |s.threads| {
        AdvanceRefines(s, i);
        if s.threads[i].Drain? { RunAppend(f, ops, PollAt(s.threads[i].now)); }
      }
  }

  /** Every concurrent run is a run of the sequential capacity: its refreshes and its counts,
      in one order. With no refresh in progress the atomic fields are its fields. */
  lemma {:induction false} RunRefines(initial: nat, steps: seq<Step>)
    requires initial <= USIZE_MAX && NoWrap(Init(initial), steps)
    ensures var s := Exec(Init(initial), steps);
      var f := Run(Feedback(initial, initial, 0, 0), History(Init(initial), steps));
      && Inv(s) && Abstract(s) == f
      && (!s.refreshing ==> f == Feedback(s.initial, s.target, s.updated, s.completed))
    decreases |steps|
  {
    if steps != [] {
      var n := |steps| - 1;
      assert forall i :: 0 <= i < n ==> steps[..n][..i] == steps[..i];
      RunRefines(initial, steps[..n]);
      StepRefines(Exec(Init(initial), steps[..n]), steps[n], Feedback(initial, initial, 0, 0),
        History(Init(initial), steps[..n]));
    }
  }

  /** Whatever the interleaving, wrapping included, a task never loads a target below the
      initial allowance. */
  lemma {:induction false} LoadedTargetNeverBelowInitial(initial: nat, steps: seq<Step>)
    requires initial <= USIZE_MAX
    ensures var s := Exec(Init(initial), steps); Inv(s) && s.initial == initial <= s.target
    decreases |steps|
  {
    if steps != [] {
      var n := |steps| - 1;
      LoadedTargetNeverBelowInitial(initial, steps[..n]);
      StepKeepsInv(Exec(Init(initial), steps[..n]), steps[n]);
    }
  }
}
