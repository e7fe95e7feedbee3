/** The adaptive capacity of crates/protocol/src/queue.rs: the class `Capacity`, and what its
    target does over every run. Instants are nanoseconds. */
module FeedbackCapacity {
  import opened Common

  const INTERVAL: nat := 16_000_000   // FEEDBACK_INTERVAL
  const DELAY: nat := 512_000         // TARGET_DELAY
  const MAX_SHIFT: nat := 63          // usize::BITS - 1

  datatype Feedback = Feedback(initial: nat, target: nat, epoch: nat, completed: nat)

  /** `x >> n`. */
  function ShiftRight(x: nat, n: nat): nat
    decreases n
  {
    if n == 0 then x else ShiftRight(x / 2, n - 1)
  }

  function Elapsed(f: Feedback, now: nat): nat { if now < f.epoch then 0 else now - f.epoch }

  /** The bytes the measured rate completes in DELAY. */
  function Sample(completed: nat, elapsed: nat): nat
    requires elapsed > 0
  {
    Min(completed * DELAY / elapsed, USIZE_MAX)
  }

  function Periods(elapsed: nat): nat { Min(elapsed / INTERVAL, MAX_SHIFT) }

  /** The state after a refresh that measured `sample`. */
  function Refresh(f: Feedback, elapsed: nat, now: nat, sample: nat): Feedback {
    f.(target := Max(Max(sample, ShiftRight(f.target, Periods(elapsed))), f.initial), epoch := now, completed := 0)
  }

  /** What `target(now)` leaves behind. */
  function Poll(f: Feedback, now: nat): Feedback {
    var elapsed := Elapsed(f, now);
    if elapsed < INTERVAL then f
    else Refresh(f, elapsed, now, Sample(f.completed, elapsed))
  }

  function Add(f: Feedback, bytes: nat): Feedback {
    f.(completed := Min(f.completed + bytes, USIZE_MAX))
  }

  class Capacity {
    const initial: nat
    var target: nat
    var epoch: nat
    var completed: nat

    ghost function State(): Feedback
      reads this
    {
      Feedback(initial, target, epoch, completed)
    }

    constructor (initial: nat, now: nat)
      ensures State() == Feedback(initial, initial, now, 0)
    {
      this.initial := initial;
      target := initial;
      epoch := now;
      completed := 0;
    }

    method Target(now: nat) returns (r: nat)
      modifies this
      ensures State() == Poll(old(State()), now)
      ensures r == State().target
    {
      var elapsed := if now < epoch then 0 else now - epoch;
      if elapsed >= INTERVAL {
        var sample := Min(completed * DELAY / elapsed, USIZE_MAX);
        var periods := Min(elapsed / INTERVAL, MAX_SHIFT);
        target := Max(Max(sample, ShiftRight(target, periods)), initial);
        completed := 0;
        epoch := now;
      }
      r := target;
    }

    method Complete(bytes: nat, now: nat)
      modifies this
      ensures State() == Add(Poll(old(State()), now), bytes)
    {
      var _ := Target(now);
      completed := Min(completed + bytes, USIZE_MAX);
    }
  }

  // ---------------------------------------------------------------- every run

  /** `complete` is a poll followed by a count. */
  datatype Op = PollAt(now: nat) | Count(bytes: nat)

  function Apply(f: Feedback, op: Op): Feedback {
    match op
    case PollAt(now) => Poll(f, now)
    case Count(bytes) => Add(f, bytes)
  }

  function Run(f: Feedback, ops: seq<Op>): Feedback
    decreases |ops|
  {
    if ops == [] then f else Apply(Run(f, ops[..|ops| - 1]), ops[|ops| - 1])
  }

  predicate WellFormed(f: Feedback) {
    f.initial <= f.target <= USIZE_MAX && f.completed <= USIZE_MAX
  }

  lemma {:induction false} ShiftNeverGrows(x: nat, n: nat)
    ensures ShiftRight(x, n) <= x
    decreases n
  {
    if n > 0 { ShiftNeverGrows(x / 2, n - 1); }
  }

  /** The measured sample never exceeds 4/125 of the completed bytes, hence never saturates. */
  lemma SampleBound(completed: nat, elapsed: nat)
    requires elapsed >= INTERVAL && completed <= USIZE_MAX
    ensures Sample(completed, elapsed) == completed * DELAY / elapsed <= completed * 4 / 125 <= USIZE_MAX
  {
    var q := completed * DELAY / elapsed;
    assert q * elapsed <= completed * DELAY;
    assert q * INTERVAL <= q * elapsed;
    assert q * 125 <= completed * 4;
  }

  lemma PollKeepsWellFormed(f: Feedback, now: nat)
    requires WellFormed(f)
    ensures WellFormed(Poll(f, now)) && Poll(f, now).initial == f.initial
  {
    ShiftNeverGrows(f.target, Periods(Elapsed(f, now)));
  }

  /** Whatever is polled and completed, the target stays at or above the initial allowance. */
  lemma {:induction false} TargetNeverBelowInitial(initial: nat, epoch: nat, ops: seq<Op>)
    requires initial <= USIZE_MAX
    ensures var f := Run(Feedback(initial, initial, epoch, 0), ops);
      WellFormed(f) && f.initial == initial && f.target >= initial
    decreases |ops|
  {
    if ops != [] {
      TargetNeverBelowInitial(initial, epoch, ops[..|ops| - 1]);
      if ops[|ops| - 1].PollAt? {
        PollKeepsWellFormed(Run(Feedback(initial, initial, epoch, 0), ops[..|ops| - 1]), ops[|ops| - 1].now);
      }
    }
  }

  /** A refresh is bounded by the initial allowance, the decayed target and the completed bytes. */
  lemma RefreshBound(f: Feedback, now: nat)
    requires WellFormed(f) && Elapsed(f, now) >= INTERVAL
    ensures Poll(f, now).target
         <= Max(Max(f.initial, ShiftRight(f.target, Periods(Elapsed(f, now)))), f.completed * 4 / 125)
    ensures Periods(Elapsed(f, now)) >= 1
  {
    SampleBound(f.completed, Elapsed(f, now));
  }

  /** Polls alone, at the given instants. */
  function PollEach(f: Feedback, times: seq<nat>): Feedback
    decreases |times|
  {
    if times == [] then f else PollEach(Poll(f, times[0]), times[1..])
  }

  /** A stalled consumer never raises the target, however often it is polled. */
  lemma {:induction false} StalledNeverRaises(f: Feedback, times: seq<nat>)
    requires WellFormed(f) && f.completed == 0
    ensures var g := PollEach(f, times); g.target <= f.target && g.completed == 0 && WellFormed(g)
    decreases |times|
  {
    if times != [] {
      var g := Poll(f, times[0]);
      ShiftNeverGrows(f.target, Periods(Elapsed(f, times[0])));
      PollKeepsWellFormed(f, times[0]);
      assert Elapsed(f, times[0]) >= INTERVAL ==> Sample(0, Elapsed(f, times[0])) == 0;
      StalledNeverRaises(g, times[1..]);
    }
  }
}
