/** Polling more often while bytes complete: exactly when an extra poll is harmless. */
module FeedbackLoads {
  import opened Common
  import opened FeedbackCapacity
  import opened FeedbackPolling

  // ---------------------------------------------------------------- completions

  /** One call of `complete`: a poll at that instant, then a count. No bytes is a plain poll. */
  datatype Completion = Completion(at: nat, bytes: nat)

  function Complete(f: Feedback, c: Completion): Feedback { Add(Poll(f, c.at), c.bytes) }

  function After(f: Feedback, load: seq<Completion>): Feedback
    decreases |load|
  {
    if load == [] then f else After(Complete(f, load[0]), load[1..])
  }

  /** Calls in the order of time, between two instants. */
  predicate Between(load: seq<Completion>, from: nat, until: nat) {
    && (forall i :: 0 <= i < |load| ==> from <= load[i].at <= until)
    && (forall i, j :: 0 <= i < j < |load| ==> load[i].at <= load[j].at)
  }

  /** The final target with the extra poll is at least the one without it. */
  predicate CompletionsNotLower(f: Feedback, before: seq<Completion>, after: seq<Completion>, extra: nat, last: nat) {
    var g := After(f, before);
    Poll(After(Poll(g, extra), after), last).target >= Poll(After(g, after), last).target
  }

  predicate HarmlessForLoad(f: Feedback, before: seq<Completion>, after: seq<Completion>, first: nat, second: nat) {
    var (extra, last) := (f.epoch + first, f.epoch + first + second);
    WellFormed(f) && f.initial >= 1 && Between(before, f.epoch, extra) && Between(after, extra, last) ==>
      CompletionsNotLower(f, before, after, extra, last)
  }

  /** A poll `first` after the epoch and `second` before the last poll never lowers the final
      target, whatever is completed before and after it. */
  ghost predicate HarmlessForCompletions(first: nat, second: nat) {
    forall f: Feedback, before: seq<Completion>, after: seq<Completion> ::
      HarmlessForLoad(f, before, after, first, second)
  }

  lemma CompleteKeepsWellFormed(f: Feedback, c: Completion)
    requires WellFormed(f)
    ensures WellFormed(Complete(f, c))
  {
    PollKeepsWellFormed(f, c.at);
  }

  /** Nothing is refreshed within one interval of the epoch. */
  lemma {:induction false} QuietLoad(f: Feedback, load: seq<Completion>, until: nat)
    requires Between(load, 0, until) && until < f.epoch + INTERVAL
    ensures After(f, load).target == f.target && After(f, load).epoch == f.epoch
    decreases |load|
  {
    if load != [] {
      QuietLoad(Complete(f, load[0]), load[1..], until);
    }
  }

  lemma {:induction false} LoadKeepsEpoch(f: Feedback, load: seq<Completion>, until: nat)
    requires WellFormed(f) && Between(load, f.epoch, until) && f.epoch <= until
    ensures WellFormed(After(f, load)) && After(f, load).epoch <= until
    decreases |load|
  {
    if load != [] {
      CompleteKeepsWellFormed(f, load[0]);
      LoadKeepsEpoch(Complete(f, load[0]), load[1..], until);
    }
  }

  /** Refreshing later measures less and decays more. */
  lemma LaterIsLower(f: Feedback, early: nat, late: nat)
    requires WellFormed(f) && f.epoch + INTERVAL <= early <= late
    ensures Poll(f, late).target <= Poll(f, early).target
  {
    var (a, b) := (early - f.epoch, late - f.epoch);
    SampleBound(f.completed, a);
    SampleBound(f.completed, b);
    DivAntitone(f.completed * DELAY, a, b);
    ShiftFurther(f.target, Periods(a), Periods(b));
  }

  /** With less than an interval left, one refresh is all that can happen, and the extra poll makes
      it happen first. */
  lemma {:induction false} NothingFollows(g: Feedback, after: seq<Completion>, extra: nat, last: nat)
    requires WellFormed(g) && g.epoch <= extra <= last < extra + INTERVAL && Between(after, extra, last)
    ensures Poll(After(Poll(g, extra), after), last).target >= Poll(After(g, after), last).target
  {
    if g.epoch + INTERVAL <= extra {
      var a := Poll(g, extra);
      QuietLoad(a, after, last);
      if after == [] {
        LaterIsLower(g, extra, last);
      } else {
        var b := Complete(g, after[0]);
        LaterIsLower(g, extra, after[0].at);
        QuietLoad(b, after[1..], last);
      }
    }
  }

  /** Completions shortly before the last poll: the extra poll spreads them over a longer time. */
  lemma SpreadsTheLoad(first: nat, second: nat)
    requires INTERVAL <= first <= second && INTERVAL < second < 2 * INTERVAL
    ensures !HarmlessForLoad(
      Feedback(1, 1, 0, 0), [], [Completion(first + second - INTERVAL, INTERVAL * second)], first, second)
  {
    var f := Feedback(1, 1, 0, 0);
    var (at, bytes, last) := (first + second - INTERVAL, INTERVAL * second, first + second);
    var load := [Completion(at, bytes)];
    assert After(f, []) == f;
    Single(Poll(f, first), load[0]);
    Single(f, load[0]);
    IdlePoll(first);
    IdlePoll(at);
    assert Poll(Poll(f, first), at) == Poll(f, first);
    assert After(Poll(f, first), load) == Feedback(1, 1, first, bytes);
    assert After(f, load) == Feedback(1, 1, at, bytes);
    FreshSample(first, second, bytes, INTERVAL);
    FreshSample(at, INTERVAL, bytes, second);
  }

  lemma IdlePoll(at: nat)
    requires at >= INTERVAL
    ensures Poll(Feedback(1, 1, 0, 0), at) == Feedback(1, 1, at, 0)
  {
    NoSample(at);
    ShiftNeverGrows(1, Periods(at));
  }

  lemma Single(f: Feedback, c: Completion)
    ensures After(f, [c]) == Complete(f, c)
  {
    assert [c][1..] == [];
    assert After(Complete(f, c), []) == Complete(f, c);
  }

  /** A refresh that measures `elapsed * n` bytes. */
  lemma FreshSample(epoch: nat, elapsed: nat, bytes: nat, n: nat)
    requires elapsed >= INTERVAL && bytes == elapsed * n <= USIZE_MAX && n >= 1
    ensures Poll(Feedback(1, 1, epoch, bytes), epoch + elapsed).target == n * DELAY
  {
    SampleBound(bytes, elapsed);
    Exact(elapsed, n, DELAY);
    ShiftNeverGrows(1, Periods(elapsed));
    MulMonotone(DELAY, 1, n);
  }

  lemma Exact(elapsed: nat, n: nat, delay: nat)
    requires elapsed > 0
    ensures elapsed * n * delay / elapsed == n * delay
  {
    assert elapsed * n * delay == (n * delay) * elapsed;
    DivAbove((n * delay) * elapsed, elapsed, n * delay);
    DivBelow((n * delay) * elapsed, elapsed, n * delay + 1);
  }

  /** Two intervals: a late completion refreshes once instead of twice. */
  lemma DecaysOnce()
    ensures !HarmlessForLoad(Feedback(1, 1, 0, 2 * INTERVAL), [], [Completion(INTERVAL + 1, 0)], INTERVAL, INTERVAL)
  {
    var f := Feedback(1, 1, 0, 2 * INTERVAL);
    var c := Completion(INTERVAL + 1, 0);
    assert After(f, []) == f;
    Single(Poll(f, INTERVAL), c);
    Single(f, c);
    FreshSample(0, INTERVAL, 2 * INTERVAL, 2);
    assert Poll(f, INTERVAL) == Feedback(1, 2 * DELAY, INTERVAL, 0);
    assert After(Poll(f, INTERVAL), [c]) == Feedback(1, 2 * DELAY, INTERVAL, 0);
    NoSample(INTERVAL);
    assert ShiftRight(2 * DELAY, 1) == DELAY;
    assert Sample(2 * INTERVAL, INTERVAL + 1) == 1023999;
  }

  lemma HarmlessNearAPoll(f: Feedback, before: seq<Completion>, after: seq<Completion>, first: nat, second: nat)
    requires first < INTERVAL || second < INTERVAL
    ensures HarmlessForLoad(f, before, after, first, second)
  {
    var (extra, last) := (f.epoch + first, f.epoch + first + second);
    if WellFormed(f) && Between(before, f.epoch, extra) && Between(after, extra, last) {
      LoadKeepsEpoch(f, before, extra);
      if second < INTERVAL {
        NothingFollows(After(f, before), after, extra, last);
      } else {
        QuietLoad(f, before, extra);
      }
    }
  }

  lemma PendingLoses(first: nat, second: nat)
    requires first >= INTERVAL && second >= INTERVAL && !(first <= second < 2 * INTERVAL)
    requires first + second <= USIZE_MAX
    ensures !HarmlessForLoad(Feedback(1, 1, 0, first + second), [], [], first, second)
  {
    SampleDecays(first, second);
    NoLoad(Feedback(1, 1, 0, first + second), first, second);
  }

  lemma NoLoad(f: Feedback, first: nat, second: nat)
    requires WellFormed(f) && f.initial >= 1 && !NotLower(f, first, second)
    ensures !HarmlessForLoad(f, [], [], first, second)
  {
    NoLoadAfter(f);
    NoLoadAfter(Poll(f, f.epoch + first));
  }

  lemma NoLoadAfter(f: Feedback)
    ensures After(f, []) == f && Run(f, []) == f
  {}

  /** When every count is a `complete`, an extra poll is harmless for every load exactly when it
      comes within an interval of the epoch or of the last poll. */
  lemma ExtraPollAmongCompletionsExactly(first: nat, second: nat)
    requires first + second <= USIZE_MAX
    ensures HarmlessForCompletions(first, second) <==> first < INTERVAL || second < INTERVAL
  {
    if first < INTERVAL || second < INTERVAL {
      forall f: Feedback, before: seq<Completion>, after: seq<Completion>
        ensures HarmlessForLoad(f, before, after, first, second)
      {
        HarmlessNearAPoll(f, before, after, first, second);
      }
    } else if !(first <= second < 2 * INTERVAL) {
      PendingLoses(first, second);
    } else if second > INTERVAL {
      SpreadsTheLoad(first, second);
    } else {
      DecaysOnce();
    }
  }

  // ---------------------------------------------------------------- counts anywhere

  /** Polls in the order of time, between two instants; counts fall anywhere among them. */
  predicate Timely(ops: seq<Op>, from: nat, until: nat) {
    && (forall i :: 0 <= i < |ops| && ops[i].PollAt? ==> from <= ops[i].now <= until)
    && (forall i, j :: 0 <= i < j < |ops| && ops[i].PollAt? && ops[j].PollAt? ==> ops[i].now <= ops[j].now)
  }

  predicate OpsNotLower(f: Feedback, before: seq<Op>, after: seq<Op>, extra: nat, last: nat) {
    var g := Run(f, before);
    Poll(Run(Poll(g, extra), after), last).target >= Poll(Run(g, after), last).target
  }

  predicate HarmlessForOps(f: Feedback, before: seq<Op>, after: seq<Op>, first: nat, second: nat) {
    var (extra, last) := (f.epoch + first, f.epoch + first + second);
    WellFormed(f) && f.initial >= 1 && Timely(before, f.epoch, extra) && Timely(after, extra, last) ==>
      OpsNotLower(f, before, after, extra, last)
  }

  ghost predicate HarmlessForCounts(first: nat, second: nat) {
    forall f: Feedback, before: seq<Op>, after: seq<Op> :: HarmlessForOps(f, before, after, first, second)
  }

  lemma {:induction false} QuietOps(f: Feedback, ops: seq<Op>, until: nat)
    requires Timely(ops, 0, until) && until < f.epoch + INTERVAL
    ensures Run(f, ops).epoch == f.epoch
    decreases |ops|
  {
    if ops != [] {
      QuietOps(f, ops[..|ops| - 1], until);
    }
  }

  lemma SingleCount(f: Feedback, bytes: nat)
    ensures Run(f, [Count(bytes)]) == Add(f, bytes)
  {
    assert [Count(bytes)][..0] == [];
    assert Run(f, []) == f;
  }

  /** Counts after the extra poll that the last poll no longer measures. */
  lemma CountsTooLate(first: nat, second: nat)
    requires first >= INTERVAL && second < INTERVAL && first + second <= USIZE_MAX
    ensures !HarmlessForOps(Feedback(1, 1, 0, 0), [], [Count(first + second)], first, second)
  {
    var (f, total) := (Feedback(1, 1, 0, 0), first + second);
    assert Run(f, []) == f;
    IdlePoll(first);
    SingleCount(Poll(f, first), total);
    SingleCount(f, total);
    FreshSample(0, total, total, 1);
    assert Poll(Feedback(1, 1, first, total), total) == Feedback(1, 1, first, total);
  }

  /** Twice the rate before the extra poll: it decays to the rate after, the late poll averages. */
  lemma AveragesHigher(first: nat, second: nat)
    requires INTERVAL <= first <= second < 2 * INTERVAL
    ensures !HarmlessForOps(Feedback(1, 1, 0, first * 2), [], [Count(second)], first, second)
  {
    var f := Feedback(1, 1, 0, first * 2);
    assert Run(f, []) == f;
    FreshSample(0, first, first * 2, 2);
    assert Poll(f, first) == Feedback(1, 2 * DELAY, first, 0);
    SingleCount(Poll(f, first), second);
    SingleCount(f, second);
    HalvedAndMeasured(first, second);
    Average(first, second);
  }

  lemma HalvedAndMeasured(first: nat, second: nat)
    requires INTERVAL <= second < 2 * INTERVAL
    ensures Poll(Feedback(1, 2 * DELAY, first, second), first + second).target == DELAY
  {
    SampleBound(second, second);
    Exact(second, 1, DELAY);
    assert Periods(second) == 1 && ShiftRight(2 * DELAY, 1) == DELAY;
  }

  lemma Average(first: nat, second: nat)
    requires INTERVAL <= first <= second < 2 * INTERVAL
    ensures Poll(Feedback(1, 1, 0, first * 2 + second), first + second).target > DELAY
  {
    var (bytes, total) := (first * 2 + second, first + second);
    SampleBound(bytes, total);
    assert bytes * DELAY == total * DELAY + first * DELAY;
    assert first * DELAY >= total;
    DivAbove(bytes * DELAY, total, DELAY + 1);
  }

  lemma PendingCountsLose(first: nat, second: nat)
    requires first >= INTERVAL && second >= INTERVAL && !(first <= second < 2 * INTERVAL)
    requires first + second <= USIZE_MAX
    ensures !HarmlessForOps(Feedback(1, 1, 0, first + second), [], [], first, second)
  {
    SampleDecays(first, second);
    NoOps(Feedback(1, 1, 0, first + second), first, second);
  }

  lemma NoOps(f: Feedback, first: nat, second: nat)
    requires WellFormed(f) && f.initial >= 1 && !NotLower(f, first, second)
    ensures !HarmlessForOps(f, [], [], first, second)
  {
    NoLoadAfter(f);
    NoLoadAfter(Poll(f, f.epoch + first));
  }

  /** When counts may fall anywhere between the polls, an extra poll is harmless for every load
      exactly when it refreshes nothing. */
  lemma ExtraPollAmongCountsExactly(first: nat, second: nat)
    requires first + second <= USIZE_MAX
    ensures HarmlessForCounts(first, second) <==> first < INTERVAL
  {
    if first < INTERVAL {
      forall f: Feedback, before: seq<Op>, after: seq<Op>
        ensures HarmlessForOps(f, before, after, first, second)
      {
        if Timely(before, f.epoch, f.epoch + first) {
          QuietOps(f, before, f.epoch + first);
        }
      }
    } else if second < INTERVAL {
      CountsTooLate(first, second);
    } else if first <= second < 2 * INTERVAL {
      AveragesHigher(first, second);
    } else {
      PendingCountsLose(first, second);
    }
  }
}
