/** Single ownership, single release and tracked completion of the scoped I/O value, for every
    interleaving of setup, polling, closing and cancellation. */
module ScopedSlotProofs {
  import opened ScopedSlot

  lemma {:induction false} PollersUpdate(ps: seq<Poller>, i: nat, p: Poller)
    requires i < |ps|
    ensures PollersOwn(ps[i := p]) + PollerOwns(ps[i]) == PollersOwn(ps) + PollerOwns(p)
    ensures PollerOwns(ps[i]) <= PollersOwn(ps)
    ensures PollersToken(ps[i := p]) + (if ps[i].FreeToken? then 1 else 0)
      == PollersToken(ps) + (if p.FreeToken? then 1 else 0)
  {
    if i == 0 {
      assert ps[i := p][1..] == ps[1..];
    } else {
      assert ps[i := p][1..] == ps[1..][i - 1 := p];
      PollersUpdate(ps[1..], i - 1, p);
    }
  }

  lemma {:induction false} PollersAppend(ps: seq<Poller>, late: bool)
    ensures PollersOwn(ps + [Take(late)]) == PollersOwn(ps)
    ensures PollersToken(ps + [Take(late)]) == PollersToken(ps)
  {
    if ps != [] {
      assert (ps + [Take(late)])[1..] == ps[1..] + [Take(late)];
      PollersAppend(ps[1..], late);
    }
  }

  lemma {:induction false} ClosersUpdate(cs: seq<Closer>, i: nat, c: Closer)
    requires i < |cs|
    ensures ClosersOwn(cs[i := c]) + CloserOwns(cs[i]) == ClosersOwn(cs) + CloserOwns(c)
    ensures ClosersToken(cs[i := c]) + (if cs[i].CloseToken? then 1 else 0)
      == ClosersToken(cs) + (if c.CloseToken? then 1 else 0)
  {
    if i == 0 {
      assert cs[i := c][1..] == cs[1..];
    } else {
      assert cs[i := c][1..] == cs[1..][i - 1 := c];
      ClosersUpdate(cs[1..], i - 1, c);
    }
  }

  lemma {:induction false} ClosersAppend(cs: seq<Closer>)
    ensures ClosersOwn(cs + [Swap]) == ClosersOwn(cs) && ClosersToken(cs + [Swap]) == ClosersToken(cs)
  {
    if cs != [] {
      assert (cs + [Swap])[1..] == cs[1..] + [Swap];
      ClosersAppend(cs[1..]);
    }
  }

  /** The invariant as the setup sees it: the others hold `owned` values and `tokens` tokens. */
  predicate Balanced(c: Core, p: Setup, owned: nat, tokens: nat) {
    && c.created == SlotOwns(c.slot) + SetupOwns(p) + owned + c.freed <= 1
    && (BeforePublication(p) ==> c.created == 0)
    && c.tokens == SlotOwns(c.slot) + SetupOwns(p) + owned + TaskToken(p) + SetupToken(p) + tokens
    && !c.panicked
  }

  lemma ValueBalances(c: Core, p: Setup, connected: bool, owned: nat, tokens: nat)
    requires Balanced(c, p, owned, tokens)
    requires p.TrackValue? || p.CheckValue? || p.Publish? || p.DropValue? || p.DropToken?
    ensures var e := SetupOp(c, p, connected); Balanced(e.core, e.actor, owned, tokens)
  {}

  lemma TaskBalances(c: Core, p: Setup, connected: bool, owned: nat, tokens: nat)
    requires Balanced(c, p, owned, tokens)
    requires p.NotStarted? || p.TrackTask? || p.CheckTask? || p.Connecting? || p.Parked? || p.TaskEnd? || p.Ended?
    ensures var e := SetupOp(c, p, connected); Balanced(e.core, e.actor, owned, tokens)
  {}

  lemma OwnerBalances(c: Core, p: Setup, connected: bool, owned: nat, tokens: nat)
    requires Balanced(c, p, owned, tokens) && (p.OwnerClose? || p.OwnerFree? || p.OwnerToken?)
    ensures var e := SetupOp(c, p, connected); Balanced(e.core, e.actor, owned, tokens)
  {}

  /** The setup never reopens the slot. */
  lemma SetupKeepsClosed(c: Core, p: Setup, connected: bool)
    ensures c.slot.Closed? ==> SetupOp(c, p, connected).core.slot.Closed?
  {}

  lemma {:induction false} SetupKeepsInv(s: State, connected: bool)
    requires Inv(s)
    ensures Inv(Next(s, AdvanceSetup(connected)))
  {
    var p := s.setup;
    var owned := PollersOwn(s.pollers) + ClosersOwn(s.closers);
    var tokens := PollersToken(s.pollers) + ClosersToken(s.closers);
    if p.TrackValue? || p.CheckValue? || p.Publish? || p.DropValue? || p.DropToken? {
      ValueBalances(s.core, p, connected, owned, tokens);
    } else if p.OwnerClose? || p.OwnerFree? || p.OwnerToken? {
      OwnerBalances(s.core, p, connected, owned, tokens);
    } else {
      TaskBalances(s.core, p, connected, owned, tokens);
    }
    SetupKeepsClosed(s.core, p, connected);
  }

  lemma {:induction false} PollerKeepsInv(s: State, i: nat)
    requires Inv(s) && i < |s.pollers|
    ensures Inv(Next(s, AdvancePoller(i)))
  {
    PollersUpdate(s.pollers, i, PollerOp(s.core, s.pollers[i]).actor);
  }

  lemma {:induction false} CloserKeepsInv(s: State, i: nat)
    requires Inv(s) && i < |s.closers|
    ensures Inv(Next(s, AdvanceCloser(i)))
  {
    ClosersUpdate(s.closers, i, CloserOp(s.core, s.closers[i]).actor);
  }

  lemma {:induction false} StepKeepsInv(s: State, step: Step)
    requires Inv(s)
    ensures Inv(Next(s, step))
  {
    match step
    case AdvanceSetup(connected) => SetupKeepsInv(s, connected);
    case AdvancePoller(i) => if i < |s.pollers| { PollerKeepsInv(s, i); }
    case AdvanceCloser(i) => if i < |s.closers| { CloserKeepsInv(s, i); }
    case BeginPoll => PollersAppend(s.pollers, s.core.slot.Closed?);
    case BeginClose => ClosersAppend(s.closers);
    case _ =>
  }

  lemma {:induction false} RunKeepsInv(steps: seq<Step>)
    ensures Inv(Exec(Init(), steps))
    decreases |steps|
  {
    if steps != [] {
      RunKeepsInv(steps[..|steps| - 1]);
      StepKeepsInv(Exec(Init(), steps[..|steps| - 1]), steps[|steps| - 1]);
    }
  }

  /** The value exists in exactly one place from its creation until its one drop, and the
      assertion in `put` never fails. */
  lemma SingleOwner(steps: seq<Step>)
    ensures var s := Exec(Init(), steps);
      && s.core.freed <= s.core.created <= 1
      && Owners(s) == s.core.created - s.core.freed
      && !s.core.panicked
  {
    RunKeepsInv(steps);
  }

  ghost predicate Quiet(s: State) {
    && (s.setup.NotStarted? || s.setup.Ended?)
    && (forall i :: 0 <= i < |s.pollers| ==> s.pollers[i].Returned?)
    && (forall i :: 0 <= i < |s.closers| ==> s.closers[i].ClosedDone?)
  }

  lemma {:induction false} QuietOwnNothing(ps: seq<Poller>, cs: seq<Closer>)
    requires forall i :: 0 <= i < |ps| ==> ps[i].Returned?
    requires forall i :: 0 <= i < |cs| ==> cs[i].ClosedDone?
    ensures PollersOwn(ps) == 0 && ClosersOwn(cs) == 0 && PollersToken(ps) == 0 && ClosersToken(cs) == 0
    decreases |ps| + |cs|
  {
    if ps != [] { QuietOwnNothing(ps[1..], cs); }
    else if cs != [] { QuietOwnNothing(ps, cs[1..]); }
  }

  /** Once the slot is closed and every actor has finished, the value has been dropped exactly
      as often as it was created, and every token is back. */
  lemma ClosedMeansFreed(steps: seq<Step>)
    requires var s := Exec(Init(), steps); s.core.slot.Closed? && Quiet(s)
    ensures var s := Exec(Init(), steps); s.core.freed == s.core.created && s.core.tokens == 0
  {
    RunKeepsInv(steps);
    var s := Exec(Init(), steps);
    QuietOwnNothing(s.pollers, s.closers);
  }

  /** A call that began after the close never operates on the value. */
  lemma NoOperationAfterClose(steps: seq<Step>, i: nat)
    requires var s := Exec(Init(), steps); i < |s.pollers| && s.pollers[i].Operate?
    ensures !Exec(Init(), steps).pollers[i].late
  {
    RunKeepsInv(steps);
  }

  /** The sentinel is never replaced. */
  lemma {:induction false} ClosedForever(s: State, steps: seq<Step>)
    requires s.core.slot.Closed?
    ensures Exec(s, steps).core.slot.Closed?
    decreases |steps|
  {
    if steps != [] {
      ClosedForever(s, steps[..|steps| - 1]);
    }
  }

  /** `Scope::wait` needs a moment without outstanding tokens. There is none from the moment
      the setup task or the value is tracked until both are gone. */
  lemma WaitCoversValue(steps: seq<Step>)
    requires Exec(Init(), steps).core.tokens == 0
    ensures var s := Exec(Init(), steps);
      && s.core.freed == s.core.created && Owners(s) == 0
      && (s.setup.NotStarted? || s.setup.Ended? || s.setup.TrackTask? || s.setup == TrackValue(Installs)
          || s.setup == OwnerClose(false))
  {
    RunKeepsInv(steps);
  }

  /** Wherever a value is put back, the slot it meets is empty or holds the sentinel. */
  lemma SlotIsFreeForItsOwner(steps: seq<Step>, i: nat)
    requires var s := Exec(Init(), steps); i < |s.pollers| && PollerOwns(s.pollers[i]) == 1
    ensures !Exec(Init(), steps).core.slot.Live?
    ensures SetupOwns(Exec(Init(), steps).setup) == 0
  {
    RunKeepsInv(steps);
    var s := Exec(Init(), steps);
    PollersUpdate(s.pollers, i, Returned);
  }
}
