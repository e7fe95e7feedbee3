/** How the target depends on when it is polled: exactly when polling in between can lower it. */
module FeedbackPolling {
  import opened Common
  import opened FeedbackCapacity

  function Pow2(n: nat): nat { if n == 0 then 1 else 2 * Pow2(n - 1) }

  lemma {:induction false} ShiftTwice(x: nat, m: nat, n: nat)
    ensures ShiftRight(ShiftRight(x, m), n) == ShiftRight(x, m + n)
    decreases m
  {
    if m > 0 { ShiftTwice(x / 2, m - 1, n); }
  }

  lemma {:induction false} ShiftMonotone(x: nat, y: nat, n: nat)
    requires x <= y
    ensures ShiftRight(x, n) <= ShiftRight(y, n)
    decreases n
  {
    if n > 0 { ShiftMonotone(x / 2, y / 2, n - 1); }
  }

  lemma ShiftFurther(x: nat, m: nat, n: nat)
    requires m <= n
    ensures ShiftRight(x, n) <= ShiftRight(x, m)
  {
    ShiftTwice(x, m, n - m);
    ShiftNeverGrows(ShiftRight(x, m), n - m);
  }

  lemma {:induction false} ShiftBelow(x: nat, n: nat, bound: nat)
    requires x < Pow2(n) * bound
    ensures ShiftRight(x, n) < bound
    decreases n
  {
    if n > 0 {
      assert Pow2(n) * bound == 2 * (Pow2(n - 1) * bound);
      ShiftBelow(x / 2, n - 1, bound);
    }
  }

  lemma {:induction false} Pow2Grows(n: nat)
    requires n >= 2
    ensures n + 2 <= Pow2(n)
  {
    if n > 2 { Pow2Grows(n - 1); }
  }

  lemma WordShift()
    ensures Pow2(MAX_SHIFT) == 0x8000_0000_0000_0000
  {
    Pow2Sixteen();
    Pow2Split(16, 16);
    Pow2Split(32, 32);
    assert Pow2(64) == 2 * Pow2(63);
  }

  lemma Pow2Sixteen()
    ensures Pow2(16) == 65536
  {
    assert Pow2(2) == 4;
    Pow2Split(2, 2);
    Pow2Split(4, 4);
    Pow2Split(8, 8);
  }

  lemma {:induction false} Pow2Split(m: nat, n: nat)
    ensures Pow2(m + n) == Pow2(m) * Pow2(n)
    decreases n
  {
    if n > 0 { Pow2Split(m, n - 1); }
  }

  // ---------------------------------------------------------------- without completions

  /** Decay in two stages is at most decay in one, once at least one byte is always allowed. */
  lemma TwoDecays(x: nat, first: nat, second: nat)
    requires x <= USIZE_MAX
    ensures Max(ShiftRight(ShiftRight(x, Periods(first)), Periods(second)), 1)
         >= Max(ShiftRight(x, Periods(first + second)), 1)
  {
    var (p, q) := (first / INTERVAL, second / INTERVAL);
    assert p + q <= (first + second) / INTERVAL;
    ShiftTwice(x, Periods(first), Periods(second));
    if p + q <= MAX_SHIFT {
      ShiftFurther(x, p + q, Periods(first + second));
    } else {
      WordShift();
      ShiftBelow(x, MAX_SHIFT, 2);
    }
  }

  lemma StalledTwoPolls(f: Feedback, first: nat, now: nat)
    requires WellFormed(f) && f.initial >= 1 && f.completed == 0 && first <= now
    ensures Poll(Poll(f, first), now).target >= Poll(f, now).target
  {
    var g := Poll(f, first);
    if Elapsed(f, first) >= INTERVAL {
      var (a, b) := (Elapsed(f, first), now - first);
      assert Elapsed(f, now) == a + b;
      assert Sample(0, a) == 0 && Sample(0, a + b) == 0;
      var kept := ShiftRight(f.target, Periods(a));
      if b < INTERVAL {
        ShiftFurther(f.target, Periods(a), Periods(a + b));
      } else {
        assert Sample(0, b) == 0;
        TwoDecays(f.target, a, b);
        ShiftMonotone(kept, g.target, Periods(b));
      }
    }
  }

  predicate Sorted(times: seq<nat>) { forall i, j :: 0 <= i < j < |times| ==> times[i] <= times[j] }

  /** Without completions, no schedule of extra polls leaves a lower target than one late poll. */
  lemma {:induction false} StalledPollingNeverLowers(f: Feedback, times: seq<nat>, now: nat)
    requires WellFormed(f) && f.initial >= 1 && f.completed == 0
    requires Sorted(times) && (forall i :: 0 <= i < |times| ==> times[i] <= now)
    ensures PollEach(f, times + [now]).target >= Poll(f, now).target
    decreases |times|
  {
    if times == [] {
      assert times + [now] == [now];
      assert PollEach(f, [now]) == PollEach(Poll(f, now), []);
    } else {
      var g := Poll(f, times[0]);
      PollKeepsWellFormed(f, times[0]);
      assert (times + [now])[1..] == times[1..] + [now];
      StalledPollingNeverLowers(g, times[1..], now);
      StalledTwoPolls(f, times[0], now);
    }
  }

  // ---------------------------------------------------------------- with pending completions

  /** Polling `first` after the epoch and again `second` later never leaves a lower target than
      polling once at the end, whatever was already completed; nothing completes in between. */
  ghost predicate ExtraPollNeverLowers(first: nat, second: nat) {
    forall f: Feedback :: WellFormed(f) && f.initial >= 1 ==> NotLower(f, first, second)
  }

  predicate NotLower(f: Feedback, first: nat, second: nat) {
    Poll(Poll(f, f.epoch + first), f.epoch + first + second).target >= Poll(f, f.epoch + first + second).target
  }

  lemma CancelMul(a: int, b: int, y: nat)
    requires a * y < b * y
    ensures a < b
  {
    assert (b - a) * y > 0;
  }

  lemma DivAbove(x: nat, y: nat, bound: nat)
    requires y > 0 && bound * y <= x
    ensures bound <= x / y
  {
    assert x < (x / y + 1) * y;
    CancelMul(bound, x / y + 1, y);
  }

  lemma DivBelow(x: nat, y: nat, bound: nat)
    requires y > 0 && x < bound * y
    ensures x / y < bound
  {
    assert (x / y) * y <= x;
    CancelMul(x / y, bound, y);
  }

  lemma DivAntitone(x: nat, y: nat, z: nat)
    requires 0 < y <= z
    ensures x / z <= x / y
  {
    assert (x / z) * y <= (x / z) * z <= x;
    DivAbove(x, y, x / z);
  }

  lemma HalfOfDiv(x: nat, y: nat, z: nat)
    requires 0 < y && 2 * y <= z
    ensures x / z <= x / y / 2
  {
    var q := x / z;
    DivTimes(x, z);
    MulMonotone(q, 2 * y, z);
    DivAbove(x, y, 2 * q);
  }

  lemma DivTimes(x: nat, y: nat)
    requires y > 0
    ensures (x / y) * y <= x
  {}

  lemma MulMonotone(q: nat, a: nat, b: nat)
    requires a <= b
    ensures q * a <= q * b
  {}

  lemma OneDecay(f: Feedback, first: nat, second: nat, early: nat, late: nat)
    requires WellFormed(f) && f.initial >= 1 && INTERVAL <= second < 2 * INTERVAL && late <= early / 2
    ensures var g := Refresh(f, first, f.epoch + first, early);
      Refresh(g, second, g.epoch + second, 0).target >= Refresh(f, first + second, g.epoch + second, late).target
  {
    var g := Refresh(f, first, f.epoch + first, early);
    assert Periods(second) == 1;
    assert ShiftRight(g.target, 1) == g.target / 2;
    TwoDecays(f.target, first, second);
    ShiftMonotone(ShiftRight(f.target, Periods(first)), g.target, 1);
  }

  lemma SampleSurvivesOneDecay(f: Feedback, first: nat, second: nat)
    requires WellFormed(f) && f.initial >= 1
    requires INTERVAL <= first <= second < 2 * INTERVAL
    ensures NotLower(f, first, second)
  {
    var (early, late) := (Sample(f.completed, first), Sample(f.completed, first + second));
    assert late <= early / 2 by {
      SampleBound(f.completed, first);
      SampleBound(f.completed, first + second);
      HalfOfDiv(f.completed * DELAY, first, first + second);
    }
    assert Sample(0, second) == 0;
    OneDecay(f, first, second, early, late);
  }

  lemma SampleSurvivesLatePoll(f: Feedback, first: nat, second: nat)
    requires WellFormed(f) && first >= INTERVAL && second < INTERVAL
    ensures NotLower(f, first, second)
  {
    SampleBound(f.completed, first);
    SampleBound(f.completed, first + second);
    DivAntitone(f.completed * DELAY, first, first + second);
    ShiftFurther(f.target, Periods(first), Periods(first + second));
  }

  /** Enough completions, and the early sample has decayed below what one late sample measures. */
  lemma SampleDecays(first: nat, second: nat)
    requires first >= INTERVAL && second >= INTERVAL && !(first <= second < 2 * INTERVAL)
    requires first + second <= USIZE_MAX
    ensures !NotLower(Feedback(1, 1, 0, first + second), first, second)
  {
    LateSample(first + second);
    SampleBound(first + second, first);
    EarlySample(first, second);
    NoSample(second);
    FarDecay(first, second, Sample(first + second, first), Sample(first + second, first + second));
    TwoRefreshes(first, second);
  }

  lemma LateSample(total: nat)
    requires INTERVAL <= total <= USIZE_MAX
    ensures Sample(total, total) >= DELAY
  {
    SampleBound(total, total);
    DivAbove(total * DELAY, total, DELAY);
  }

  lemma NoSample(elapsed: nat)
    requires elapsed > 0
    ensures Sample(0, elapsed) == 0
  {}

  /** The two polls, and the one late poll, as refreshes. */
  lemma TwoRefreshes(first: nat, second: nat)
    requires first >= INTERVAL && second >= INTERVAL && Sample(0, second) == 0
    ensures var f := Feedback(1, 1, 0, first + second);
      var g := Refresh(f, first, first, Sample(first + second, first));
      && Poll(f, first) == g && Poll(g, first + second) == Refresh(g, second, first + second, 0)
      && Poll(f, first + second) == Refresh(f, first + second, first + second, Sample(first + second, first + second))
  {}

  lemma FarDecay(first: nat, second: nat, early: nat, late: nat)
    requires early < Pow2(Periods(second)) * DELAY && late >= DELAY
    ensures var f := Feedback(1, 1, 0, first + second);
      var g := Refresh(f, first, first, early);
      Refresh(g, second, first + second, 0).target < Refresh(f, first + second, first + second, late).target
  {
    var g := Refresh(Feedback(1, 1, 0, first + second), first, first, early);
    ShiftNeverGrows(1, Periods(first));
    Pow2AtLeast(0, Periods(second));
    ShiftBelow(g.target, Periods(second), DELAY);
  }

  lemma EarlySample(first: nat, second: nat)
    requires first >= INTERVAL && second >= INTERVAL && !(first <= second < 2 * INTERVAL)
    requires first + second <= USIZE_MAX
    ensures (first + second) * DELAY / first < Pow2(Periods(second)) * DELAY
  {
    var (total, k, p) := (first + second, second / INTERVAL, Periods(second));
    if second < first {
      assert p >= 1;
      Pow2AtLeast(1, p);
      Scale(total, first, 2, DELAY);
      DivBelow(total * DELAY, first, 2 * DELAY);
      MulMonotone(DELAY, 2, Pow2(p));
    } else {
      assert k >= 2;
      if k <= MAX_SHIFT { Pow2Grows(k); } else { WordShift(); }
      Ratio(first, second, INTERVAL, k, DELAY);
      MulMonotone(DELAY, k + 2, Pow2(p));
    }
  }

  /** Fewer than k + 1 units on top of at least one unit. */
  lemma Ratio(first: nat, second: nat, unit: nat, k: nat, delay: nat)
    requires first >= unit > 0 && second < (k + 1) * unit && delay > 0
    ensures (first + second) * delay / first < (k + 2) * delay
  {
    MulMonotone(k + 1, unit, first);
    assert first + second < (k + 2) * first;
    Scale(first + second, first, k + 2, delay);
    DivBelow((first + second) * delay, first, (k + 2) * delay);
  }

  lemma Scale(total: nat, first: nat, n: nat, delay: nat)
    requires total < n * first && delay > 0
    ensures total * delay < (n * delay) * first
  {
    MulMonotone(delay, total + 1, n * first);
    assert (n * first) * delay == (n * delay) * first;
  }

  lemma {:induction false} Pow2AtLeast(m: nat, n: nat)
    requires m <= n
    ensures Pow2(m) <= Pow2(n)
    decreases n
  {
    if m < n { Pow2AtLeast(m, n - 1); }
  }

  /** With completions pending and none to come, an extra poll is harmless exactly when it refreshes
      nothing, when the last poll refreshes nothing, or when the last gap is at least the first and
      under two intervals. */
  lemma ExtraPollWhilePendingExactly(first: nat, second: nat)
    requires first + second <= USIZE_MAX
    ensures ExtraPollNeverLowers(first, second)
       <==> first < INTERVAL || second < INTERVAL || first <= second < 2 * INTERVAL
  {
    if first < INTERVAL {
      assert forall f: Feedback :: WellFormed(f) ==> Poll(f, f.epoch + first) == f;
    } else if second < INTERVAL || first <= second < 2 * INTERVAL {
      forall f: Feedback | WellFormed(f) && f.initial >= 1
        ensures NotLower(f, first, second)
      {
        if second < INTERVAL {
          SampleSurvivesLatePoll(f, first, second);
        } else {
          SampleSurvivesOneDecay(f, first, second);
        }
      }
    } else {
      SampleDecays(first, second);
      assert WellFormed(Feedback(1, 1, 0, first + second));
    }
  }
}
