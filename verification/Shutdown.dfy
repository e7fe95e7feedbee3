/** Daemon shutdown, crates/daemon/src/lib.rs: the policy worker's serve loop and the drain task,
    interleaved with every move of the resource manager. */
module Shutdown {
  import opened Registry
  import M = ResourceManager
  import ResourceManagerProofs
  import ResourceTheorems

  /** The drain task. The first half is the ordered drain, the second the forced one. */
  datatype DrainPc =
    | AwaitStopping
    | DrainEntries
    | ListEntries
    | AwaitEntries(listed: set<Id>)
    | DrainServices
    | ListServices
    | AwaitServices(listed: set<Id>)
    | ForceAbort
    | ListForcedEntries
    | ListForcedServices(listed: set<Id>)
    | AwaitForced(listed: set<Id>)
    | Signal
    | Ended

  /** The serve loop: `queued` commands wait in the channel, `calls` are being dispatched. */
  datatype Serve = Serve(
    running: bool, evaluating: bool, hooksFinished: bool, closed: bool, exhausted: bool, queued: nat, calls: nat)

  /** The worker with its tokens. `ownerDropped` is set once `Worker::drop` has begun, `failureSeen`
      once `Daemon::wait` saw the worker fail. Before the hooks finish that is a panicked thread: a
      script that does not start is reported through `Worker::wait`, and the owner is dropped. */
  datatype Policy = Policy(
    serve: Serve,
    shutdown: bool, stopping: bool, force: bool, callsDone: bool, ownerDropped: bool, failureSeen: bool)

  datatype State = State(manager: M.State, drain: DrainPc, policy: Policy, released: bool)

  datatype Step =
    | Manage(step: M.Step)
    | AdvanceDrain
    | SeeForce                  // the biased select in `drain` finds `force` cancelled
    | RequestShutdown
    | Deadline                  // the shutdown timeout
    | FailureStops              // `Daemon::wait` saw the worker fail: first `stopping`, then `force`
    | FailureForces
    | OwnerShutsDown            // `Worker::drop`: `shutdown`, then `stopping`, then `force`
    | OwnerStops
    | OwnerForces
    | SendCommand
    | ReceiveCommand
    | FinishCall
    | FinishEvaluation(ok: bool)
    | FinishHooks(ok: bool)
    | CloseCommands
    | DropSenders
    | LeaveLoop                 // the loop's own exit
    | WorkerStops               // the thread ends early: forced, without a running script, or by a panic

  function Init(): State {
    State(M.Init(), AwaitStopping,
          Policy(Serve(true, true, false, false, false, 0, 0), false, false, false, false, false, false), false)
  }

  function InTier(entries: Entries, tier: Tier): set<Id> {
    set id | id in entries && TierOf(entries[id].kind) == tier
  }

  function DrainOp(s: State): State {
    match s.drain
    case AwaitStopping => if s.policy.stopping then s.(drain := DrainEntries) else s
    case DrainEntries => s.(drain := ListEntries, manager := M.Next(s.manager, M.DrainAll(EntryPoint)))
    case ListEntries => s.(drain := AwaitEntries(InTier(s.manager.entries, EntryPoint)))
    case AwaitEntries(listed) =>
      if listed <= s.manager.released && s.policy.callsDone then s.(drain := DrainServices) else s
    case DrainServices => s.(drain := ListServices, manager := M.Next(s.manager, M.DrainAll(Service)))
    case ListServices => s.(drain := AwaitServices(InTier(s.manager.entries, Service)))
    case AwaitServices(listed) => if listed <= s.manager.released then s.(drain := Signal) else s
    case ForceAbort => s.(drain := ListForcedEntries, manager := M.Next(s.manager, M.AbortAll))
    case ListForcedEntries => s.(drain := ListForcedServices(InTier(s.manager.entries, EntryPoint)))
    case ListForcedServices(listed) => s.(drain := AwaitForced(listed + InTier(s.manager.entries, Service)))
    case AwaitForced(listed) => if listed <= s.manager.released then s.(drain := Signal) else s
    case Signal => s.(drain := Ended, released := true)
    case Ended => s
  }

  predicate Ordered(pc: DrainPc) {
    pc.AwaitStopping? || pc.DrainEntries? || pc.ListEntries? || pc.AwaitEntries? || pc.DrainServices?
    || pc.ListServices? || pc.AwaitServices?
  }

  /** The worker thread ends: unfinished calls are dropped and its guard cancels `calls`. */
  function WorkerEnds(p: Policy): Policy {
    p.(serve := p.serve.(running := false, queued := 0, calls := 0), callsDone := true)
  }

  predicate OfLoop(step: Step) {
    step.SendCommand? || step.ReceiveCommand? || step.FinishCall? || step.CloseCommands? || step.DropSenders?
  }

  predicate OfWorker(step: Step) {
    step.FinishEvaluation? || step.FinishHooks? || step.LeaveLoop? || step.WorkerStops?
  }

  predicate OfTokens(step: Step) {
    step.RequestShutdown? || step.Deadline? || step.FailureStops? || step.FailureForces? || step.OwnerShutsDown?
    || step.OwnerStops? || step.OwnerForces?
  }

  /** Commands and calls. */
  function LoopOp(v: Serve, stopping: bool, step: Step): Serve
    requires OfLoop(step)
  {
    match step
    case SendCommand => if v.closed then v else v.(queued := v.queued + 1)
    case ReceiveCommand =>
      if v.exhausted then v
      else if v.queued > 0 then v.(queued := v.queued - 1, calls := v.calls + 1)
      else if v.closed then v.(exhausted := true)
      else v
    case FinishCall => if v.calls > 0 then v.(calls := v.calls - 1) else v
    case CloseCommands => if stopping then v.(closed := true) else v
    case DropSenders => v.(closed := true)
  }

  /** Evaluation, hooks and the ways the worker ends. */
  function WorkerOp(p: Policy, step: Step): Policy
    requires OfWorker(step)
  {
    var v := p.serve;
    match step
    case FinishEvaluation(ok) =>
      if v.evaluating then p.(serve := v.(evaluating := false), shutdown := p.shutdown || !ok) else p
    case FinishHooks(ok) =>
      if !p.shutdown || v.hooksFinished then p
      else
        var stopped := p.(serve := v.(hooksFinished := true), stopping := true);
        if ok then stopped else WorkerEnds(stopped)
    case LeaveLoop =>
      if v.exhausted && v.calls == 0 && !(p.shutdown && !v.hooksFinished) && !v.evaluating then WorkerEnds(p) else p
    case WorkerStops => WorkerEnds(p)
  }

  /** One cancellation of one token. */
  function TokenOp(p: Policy, step: Step): Policy
    requires OfTokens(step)
  {
    match step
    case RequestShutdown => p.(shutdown := true)
    case Deadline => if p.shutdown then p.(force := true) else p
    case FailureStops => if p.serve.running then p else p.(failureSeen := true, stopping := true)
    case FailureForces => if p.failureSeen then p.(force := true) else p
    case OwnerShutsDown => p.(ownerDropped := true, shutdown := true)
    case OwnerStops => if p.ownerDropped then p.(stopping := true) else p
    case OwnerForces => if p.ownerDropped && p.stopping then p.(force := true) else p
  }

  function PolicyOp(p: Policy, step: Step): Policy {
    if OfTokens(step) then TokenOp(p, step)
    else if OfLoop(step) && p.serve.running then p.(serve := LoopOp(p.serve, p.stopping, step))
    else if OfWorker(step) && p.serve.running then WorkerOp(p, step)
    else p
  }

  function Next(s: State, step: Step): State {
    match step
    case Manage(m) =>
      // Only the drain task drains tiers and aborts; everything else may happen at any time.
      if m.DrainAll? || m.AbortAll? then s else s.(manager := M.Next(s.manager, m))
    case AdvanceDrain => DrainOp(s)
    case SeeForce => if s.policy.force && Ordered(s.drain) then s.(drain := ForceAbort) else s
    case _ => s.(policy := PolicyOp(s.policy, step))
  }

  function Exec(s: State, steps: seq<Step>): State
    decreases |steps|
  {
    if steps == [] then s else Next(Exec(s, steps[..|steps| - 1]), steps[|steps| - 1])
  }

  // ---------------------------------------------------------------- the invariant

  /** No policy call is in progress and none can start. */
  predicate NoCalls(v: Serve) { v.calls == 0 && (v.exhausted || !v.running) }

  predicate Stopped(pc: DrainPc) {
    !pc.AwaitStopping? && !pc.DrainEntries? && !pc.ForceAbort?
  }

  predicate Missing(m: M.State, tier: Tier) { InTier(m.entries, tier) == {} }

  /** Every entry of the tier is on the list; nothing new can appear. */
  predicate Listed(m: M.State, tier: Tier, listed: set<Id>) { InTier(m.entries, tier) <= listed }

  /** What holds of the registry when the drain task stands at `pc`. */
  predicate Place(m: M.State, pc: DrainPc, callsDone: bool) {
    && (Stopped(pc) ==> !m.accepting)
    && (pc.AwaitEntries? ==> Listed(m, EntryPoint, pc.listed))
    && (pc.DrainServices? || pc.ListServices? || pc.AwaitServices? ==> Missing(m, EntryPoint) && callsDone)
    && (pc.AwaitServices? ==> Listed(m, Service, pc.listed))
    && (pc.ListForcedServices? ==> Listed(m, EntryPoint, pc.listed))
    && (pc.AwaitForced? ==> m.entries.Keys <= pc.listed)
    && (pc.Signal? || pc.Ended? ==> m.entries.Keys == {})
  }

  predicate Calls(v: Serve, callsDone: bool) {
    && (callsDone ==> NoCalls(v))
    && (v.exhausted ==> v.closed && v.queued == 0)
  }

  predicate PolicyOk(p: Policy) {
    && Calls(p.serve, p.callsDone)
    && (p.stopping ==> p.ownerDropped || p.failureSeen || p.serve.hooksFinished)
  }

  /** The drain task left its first wait for a reason, and its signal is its last act. */
  predicate Started(s: State) {
    && (!s.drain.AwaitStopping? ==> s.policy.stopping || s.policy.force)
    && (s.released ==> s.drain.Ended?)
  }

  ghost predicate Inv(s: State) {
    M.Tracked(s.manager) && Place(s.manager, s.drain, s.policy.callsDone) && PolicyOk(s.policy) && Started(s)
  }

  /** A tier never gains entries once creation has stopped. */
  predicate Shrinks(m: M.State, m': M.State) {
    !m.accepting ==>
      && !m'.accepting
      && m'.entries.Keys <= m.entries.Keys
      && InTier(m'.entries, EntryPoint) <= InTier(m.entries, EntryPoint)
      && InTier(m'.entries, Service) <= InTier(m.entries, Service)
  }

  lemma ManagerShrinks(m: M.State, step: M.Step)
    ensures Shrinks(m, M.Next(m, step))
  {
    if !m.accepting {
      ResourceTheorems.NextOnlyShrinks(m, step);
    }
  }

  lemma PlaceKept(m: M.State, m': M.State, pc: DrainPc, callsDone: bool)
    requires Place(m, pc, callsDone) && Shrinks(m, m')
    ensures Place(m', pc, callsDone)
  {}

  /** A resource whose `released` token fired is no longer registered. */
  lemma ReleasedAreGone(m: M.State, ids: set<Id>)
    requires M.Tracked(m) && ids <= m.released
    ensures ids !! m.entries.Keys
  {
    forall id | id in ids
      ensures id !in m.entries
    {
      assert M.IdOk(m, id);
    }
  }

  lemma EveryTier(entries: Entries)
    ensures entries.Keys == InTier(entries, EntryPoint) + InTier(entries, Service)
  {}

  lemma {:induction false} ManagerMoveKeepsInv(s: State, m: M.Step)
    requires Inv(s)
    ensures M.Tracked(M.Next(s.manager, m)) && Place(M.Next(s.manager, m), s.drain, s.policy.callsDone)
  {
    ResourceManagerProofs.StepTracks(s.manager, m);
    ManagerShrinks(s.manager, m);
    PlaceKept(s.manager, M.Next(s.manager, m), s.drain, s.policy.callsDone);
  }

  lemma StopsAccepting(m: M.State, tier: Tier)
    ensures !M.Next(m, M.DrainAll(tier)).accepting && !M.Next(m, M.AbortAll).accepting
  {}

  lemma {:induction false} DrainTierKeepsInv(s: State)
    requires Inv(s) && (s.drain.DrainEntries? || s.drain.DrainServices? || s.drain.ForceAbort?)
    ensures Inv(DrainOp(s))
  {
    StopsAccepting(s.manager, EntryPoint);
    StopsAccepting(s.manager, Service);
    match s.drain
    case DrainEntries => ManagerMoveKeepsInv(s, M.DrainAll(EntryPoint));
    case DrainServices => ManagerMoveKeepsInv(s, M.DrainAll(Service));
    case ForceAbort => ManagerMoveKeepsInv(s, M.AbortAll);
  }

  lemma {:induction false} AwaitKeepsInv(s: State)
    requires Inv(s) && (s.drain.AwaitEntries? || s.drain.AwaitServices? || s.drain.AwaitForced?)
    ensures Inv(DrainOp(s))
  {
    EveryTier(s.manager.entries);
    if s.drain.listed <= s.manager.released {
      ReleasedAreGone(s.manager, s.drain.listed);
    }
  }

  lemma {:induction false} ListKeepsInv(s: State)
    requires Inv(s)
    requires s.drain.AwaitStopping? || s.drain.ListEntries? || s.drain.ListServices? || s.drain.ListForcedEntries?
      || s.drain.ListForcedServices? || s.drain.Signal? || s.drain.Ended?
    ensures Inv(DrainOp(s))
  {
    EveryTier(s.manager.entries);
  }

  lemma {:induction false} DrainKeepsInv(s: State)
    requires Inv(s)
    ensures Inv(DrainOp(s))
  {
    match s.drain
    case DrainEntries => DrainTierKeepsInv(s);
    case DrainServices => DrainTierKeepsInv(s);
    case ForceAbort => DrainTierKeepsInv(s);
    case AwaitEntries(_) => AwaitKeepsInv(s);
    case AwaitServices(_) => AwaitKeepsInv(s);
    case AwaitForced(_) => AwaitKeepsInv(s);
    case _ => ListKeepsInv(s);
  }

  lemma LoopKeepsCalls(v: Serve, stopping: bool, step: Step, callsDone: bool)
    requires Calls(v, callsDone) && OfLoop(step) && v.running
    ensures Calls(LoopOp(v, stopping, step), callsDone)
    ensures LoopOp(v, stopping, step).hooksFinished == v.hooksFinished
  {}

  lemma WorkerKeepsOk(p: Policy, step: Step)
    requires PolicyOk(p) && OfWorker(step)
    ensures PolicyOk(WorkerOp(p, step))
  {}

  lemma TokenKeepsOk(p: Policy, step: Step)
    requires PolicyOk(p) && OfTokens(step)
    ensures var p' := TokenOp(p, step);
      PolicyOk(p') && p'.callsDone == p.callsDone && (p.stopping ==> p'.stopping) && (p.force ==> p'.force)
  {}

  /** The worker and its tokens keep their invariant, and no token is ever taken back. */
  lemma PolicyKeepsOk(p: Policy, step: Step)
    requires PolicyOk(p)
    ensures var p' := PolicyOp(p, step);
      && PolicyOk(p')
      && (p.callsDone ==> p'.callsDone) && (p.stopping ==> p'.stopping) && (p.force ==> p'.force)
  {
    if OfTokens(step) {
      TokenKeepsOk(p, step);
    } else if OfLoop(step) && p.serve.running {
      LoopKeepsCalls(p.serve, p.stopping, step, p.callsDone);
    } else if OfWorker(step) {
      WorkerKeepsOk(p, step);
    }
  }

  lemma {:induction false} StepKeepsInv(s: State, step: Step)
    requires Inv(s)
    ensures Inv(Next(s, step))
  {
    match step
    case Manage(m) => ManagerMoveKeepsInv(s, m);
    case AdvanceDrain => DrainKeepsInv(s);
    case SeeForce =>
    case _ => PolicyKeepsOk(s.policy, step);
  }

  lemma {:induction false} RunKeepsInv(steps: seq<Step>)
    ensures Inv(Exec(Init(), steps))
    decreases |steps|
  {
    if steps != [] {
      RunKeepsInv(steps[..|steps| - 1]);
      StepKeepsInv(Exec(Init(), steps[..|steps| - 1]), steps[|steps| - 1]);
    }
  }

  // ---------------------------------------------------------------- the promises

  /** Whenever the ordered drain reaches the services, every entry point has been removed from
      the registry, no policy call is in progress and none can start. */
  lemma ServicesDrainLast(steps: seq<Step>)
    requires Exec(Init(), steps).drain.DrainServices?
    ensures var s := Exec(Init(), steps);
      Missing(s.manager, EntryPoint) && NoCalls(s.policy.serve) && !s.manager.accepting
  {
    RunKeepsInv(steps);
  }

  /** While the owner lives, no failure was reported and the deadline has not struck, nothing drains
      before the policy's shutdown hooks finished. */
  lemma HooksRunFirst(steps: seq<Step>)
    ensures HooksBefore(Exec(Init(), steps), false, false, false)
  {
    RunKeepsInv(steps);
  }

  predicate Flagged(p: Policy, owner: bool, failure: bool, force: bool) {
    p.ownerDropped == owner && p.failureSeen == failure && p.force == force
  }

  /** If the run has come to these flags and the drain has begun, the hooks are finished. */
  predicate HooksBefore(s: State, owner: bool, failure: bool, force: bool) {
    Flagged(s.policy, owner, failure, force) && !s.drain.AwaitStopping? ==> s.policy.serve.hooksFinished
  }

  ghost predicate HooksFirst(owner: bool, failure: bool, force: bool) {
    forall steps: seq<Step> :: HooksBefore(Exec(Init(), steps), owner, failure, force)
  }

  lemma ExecSnoc(s: State, steps: seq<Step>, step: Step)
    ensures Exec(s, steps + [step]) == Next(Exec(s, steps), step)
  {
    assert (steps + [step])[..|steps|] == steps;
  }

  lemma ExecTwo(s: State, steps: seq<Step>, first: Step, second: Step)
    ensures Exec(s, steps + [first, second]) == Next(Next(Exec(s, steps), first), second)
  {
    assert steps + [first, second] == steps + [first] + [second];
    calc {
      Exec(s, steps + [first] + [second]);
    == { ExecSnoc(s, steps + [first], second); }
      Next(Exec(s, steps + [first]), second);
    == { ExecSnoc(s, steps, first); }
      Next(Next(Exec(s, steps), first), second);
    }
  }

  /** Nothing drains yet, the hooks have not finished, and the flags are as given. */
  predicate Pending(s: State, owner: bool, failure: bool, force: bool) {
    && s.drain.AwaitStopping? && !s.policy.serve.hooksFinished && Flagged(s.policy, owner, failure, force)
    && (owner || failure ==> s.policy.stopping)
  }

  lemma OwnerComesEarly(s: State, failure: bool, force: bool)
    requires Pending(s, false, failure, force)
    ensures Pending(Next(Next(s, OwnerShutsDown), OwnerStops), true, failure, force)
  {}

  lemma FailureComesEarly(s: State, owner: bool, force: bool)
    requires Pending(s, owner, false, force)
    ensures Pending(Next(Next(s, WorkerStops), FailureStops), owner, true, force)
  {}

  lemma DeadlineComesEarly(s: State, owner: bool, failure: bool)
    requires Pending(s, owner, failure, false)
    ensures Pending(Next(Next(s, RequestShutdown), Deadline), owner, failure, true)
  {}

  /** Each of the owner's drop, a failed worker and the deadline can come before the hooks finish. */
  lemma {:induction false} FlagsComeEarly(owner: bool, failure: bool, force: bool) returns (steps: seq<Step>)
    ensures Pending(Exec(Init(), steps), owner, failure, force)
    decreases owner, failure, force
  {
    if owner {
      steps := FlagsComeEarly(false, failure, force);
      OwnerComesEarly(Exec(Init(), steps), failure, force);
      ExecTwo(Init(), steps, OwnerShutsDown, OwnerStops);
      steps := steps + [OwnerShutsDown, OwnerStops];
    } else if failure {
      steps := FlagsComeEarly(owner, false, force);
      FailureComesEarly(Exec(Init(), steps), owner, force);
      ExecTwo(Init(), steps, WorkerStops, FailureStops);
      steps := steps + [WorkerStops, FailureStops];
    } else if force {
      steps := FlagsComeEarly(owner, failure, false);
      DeadlineComesEarly(Exec(Init(), steps), owner, failure);
      ExecTwo(Init(), steps, RequestShutdown, Deadline);
      steps := steps + [RequestShutdown, Deadline];
    } else {
      steps := [];
    }
  }

  /** A dropped owner, a failed worker and the deadline each overtake the hooks, alone or together. */
  lemma Overtaken(owner: bool, failure: bool, force: bool) returns (steps: seq<Step>)
    requires owner || failure || force
    ensures !HooksBefore(Exec(Init(), steps), owner, failure, force)
  {
    var early := FlagsComeEarly(owner, failure, force);
    var begin := if force then SeeForce else AdvanceDrain;
    ExecSnoc(Init(), early, begin);
    steps := early + [begin];
  }

  /** The policy's shutdown hooks finish before anything drains exactly while the owner lives, no
      failure was reported and the deadline has not struck. */
  lemma HooksFirstExactly(owner: bool, failure: bool, force: bool)
    ensures HooksFirst(owner, failure, force) <==> !owner && !failure && !force
  {
    if owner || failure || force {
      var steps := Overtaken(owner, failure, force);
      assert !HooksBefore(Exec(Init(), steps), owner, failure, force);
    } else {
      forall steps: seq<Step>
        ensures HooksBefore(Exec(Init(), steps), owner, failure, force)
      {
        HooksRunFirst(steps);
      }
    }
  }

  /** Signalling `released`, forced or not, means an empty registry, and it stays empty whatever
      happens afterwards. */
  lemma {:induction false} ReleasedMeansEmptyForever(steps: seq<Step>, later: seq<Step>)
    requires Exec(Init(), steps).released
    ensures var s := Exec(Exec(Init(), steps), later);
      s.released && s.manager.entries == map[] && !s.manager.accepting
    decreases |later|
  {
    RunKeepsInv(steps);
    if later != [] {
      var n := |later| - 1;
      ReleasedMeansEmptyForever(steps, later[..n]);
      ExecAppend(Init(), steps, later[..n]);
      RunKeepsInv(steps + later[..n]);
      ReleasedStays(Exec(Init(), steps + later[..n]), later[n]);
    }
  }

  lemma ReleasedStays(s: State, step: Step)
    requires Inv(s) && s.released
    ensures var s' := Next(s, step); s'.released && s'.manager.entries == map[] && !s'.manager.accepting
  {
    StepKeepsInv(s, step);
    assert s.drain.Ended? && Next(s, step).drain.Ended?;
  }

  lemma {:induction false} ExecAppend(s: State, first: seq<Step>, second: seq<Step>)
    ensures Exec(s, first + second) == Exec(Exec(s, first), second)
    decreases |second|
  {
    if second == [] {
      assert first + second == first;
    } else {
      var n := |second| - 1;
      assert (first + second)[..|first| + n] == first + second[..n];
      ExecAppend(s, first, second[..n]);
    }
  }
}
