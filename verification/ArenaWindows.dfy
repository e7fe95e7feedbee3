/** Windows of live views that end before the newest one: exactly which positions of the window keep
    the arena's two-block bound for every sequence of packets. */
module ArenaWindows {
  import opened Common
  import opened BlockPool
  import opened PacketArena

  /** The two-block bound for one sequence and the views from `i` to `j`. */
  predicate TwoSuffice(lengths: seq<nat>, i: nat, j: nat) {
    Admissible(lengths) && i <= j <= |lengths| == |Run(lengths).views| ==>
      RetainedUpTo(Run(lengths), i, j) <= Charges(lengths[i..j]) + 2 * BLOCK
  }

  ghost predicate TwoAlwaysSuffice(n: nat, i: nat, j: nat) {
    forall lengths: seq<nat> :: |lengths| == n ==> TwoSuffice(lengths, i, j)
  }

  // ---------------------------------------------------------------- the views of a window alone

  /** What the views from `i` on keep allocated, the tail not counted. */
  function Held(a: Arena, i: nat): nat
    requires i <= |a.views|
  {
    Total(a.sizes, BlocksOf(a.views[i..]))
  }

  /** A window's views and a tail somewhere else. */
  lemma HeldAndTail(lengths: seq<nat>, i: nat, j: nat)
    requires Admissible(lengths) && i <= j <= |lengths|
    ensures |Run(lengths).views| == |lengths| && |Run(lengths[..j]).views| == j
    ensures RetainedUpTo(Run(lengths), i, j) <= Held(Run(lengths[..j]), i) + BLOCK
  {
    var a, b := Run(lengths), Run(lengths[..j]);
    RunSound(lengths);
    RunExtends(lengths, j);
    assert b.views[i..] == a.views[i..j];
    var live := BlocksOf(a.views[i..j]);
    WindowAllocated(lengths[..j], i);
    TotalExtends(b.sizes, a.sizes[|b.sizes|..], live);
    assert b.sizes + a.sizes[|b.sizes|..] == a.sizes;
    TotalUnion(a.sizes, live, Tail(a));
    TotalTail(a.sizes, a.tail);
  }

  lemma WindowAllocated(lengths: seq<nat>, i: nat)
    requires Admissible(lengths) && i <= |lengths|
    ensures |Run(lengths).views| == |lengths|
    ensures forall id :: id in BlocksOf(Run(lengths).views[i..]) ==> id < |Run(lengths).sizes|
  {
    RunSound(lengths);
    var b := Run(lengths);
    forall id | id in BlocksOf(b.views[i..])
      ensures id < |b.sizes|
    {
      var k :| 0 <= k < |b.views[i..]| && b.views[i..][k].block == Some(id);
      ViewsAllocated(lengths, i + k);
    }
  }

  // ---------------------------------------------------------------- windows that start early

  /** With at most half a block before the window, every block but one pays for itself: `free` bytes
      of the tail are not charged to the window, or were already spent on the block before. */
  predicate Paid(a: Arena, i: nat, spent: nat, free: nat)
    requires i <= |a.views|
  {
    && free <= a.used && free <= BLOCK / 2
    && (a.tail.None? ==> Retained(a, i) <= spent)
    && (a.tail.Some? ==> Retained(a, i) + 2 * (a.used - free) <= spent + BLOCK)
  }

  lemma {:induction false} EncodePays(a: Arena, i: nat, spent: nat, free: nat, length: nat) returns (free': nat)
    requires Sound(a) && i <= |a.views| && length <= MAX_LENGTH && Paid(a, i, spent, free)
    ensures |Encode(a, length).views| >= i && Paid(Encode(a, length), i, spent + Charge(length), free')
  {
    free' := free;
    if length > BLOCK / 2 {
      RetainedMore(a, i, length);
      ClassIsTight(length);
    } else if Room(a) < length {
      RetainedMore(a, i, length);
      free' := length;
    } else {
      RetainedSame(a, i, length);
    }
  }

  lemma StartsEarly(lengths: seq<nat>)
    requires Admissible(lengths) && |lengths| <= 1
    ensures Run(lengths).used <= BLOCK / 2
  {
    if |lengths| == 1 {
      assert lengths[..0] == [];
      assert Run(lengths) == Encode(Run(lengths[..0]), lengths[0]);
    }
  }

  lemma {:induction false} EarlyWindowPays(lengths: seq<nat>, i: nat) returns (free: nat)
    requires Admissible(lengths) && i <= |lengths| && i <= 1
    ensures |Run(lengths).views| == |lengths| && Paid(Run(lengths), i, Charges(lengths[i..]), free)
    decreases |lengths|
  {
    RunSound(lengths);
    if i == |lengths| {
      StartsEarly(lengths);
      free := Run(lengths).used;
      NoViews(Run(lengths));
    } else {
      var n := |lengths| - 1;
      var before := lengths[..n];
      RunSound(before);
      var free0 := EarlyWindowPays(before, i);
      free := EncodePays(Run(before), i, Charges(before[i..]), free0, lengths[n]);
      assert lengths[i..][..n - i] == before[i..];
    }
  }

  lemma NoViews(a: Arena)
    requires Sound(a)
    ensures Retained(a, |a.views|) <= BLOCK && (a.tail.None? ==> Retained(a, |a.views|) == 0)
  {
    OnlyTail(a);
    assert a.views[|a.views|..] == [] && BlocksOf([]) == {};
    assert {} + Tail(a) == Tail(a);
    TotalTail(a.sizes, a.tail);
  }

  lemma EarlyWindows(lengths: seq<nat>, i: nat, j: nat)
    requires Admissible(lengths) && i <= j <= |lengths| && i <= 1
    ensures TwoSuffice(lengths, i, j)
  {
    HeldAndTail(lengths, i, j);
    var free := EarlyWindowPays(lengths[..j], i);
    var b := Run(lengths[..j]);
    TotalMonotone(b.sizes, BlocksOf(b.views[i..]), BlocksOf(b.views[i..]) + Tail(b));
    assert lengths[..j][i..] == lengths[i..j];
  }

  // ---------------------------------------------------------------- windows of one view

  lemma LastViewHeld(lengths: seq<nat>, i: nat)
    requires Admissible(lengths) && |lengths| == i + 1
    ensures |Run(lengths).views| == i + 1 && Held(Run(lengths), i) <= Charge(lengths[i]) + BLOCK
  {
    RunSound(lengths);
    RunSound(lengths[..i]);
    var (a, b) := (Run(lengths[..i]), Run(lengths));
    var view := b.views[i];
    assert b.views[i..] == [] + [view];
    BlocksAppend([], view);
    assert BlocksOf([]) == {};
    if lengths[i] > BLOCK / 2 {
      ClassIsTight(lengths[i]);
      TotalAppend(a.sizes, ClassSize(ClassOf(lengths[i])), {|a.sizes|});
      TotalTail(a.sizes, Some(|a.sizes|));
      assert BlocksOf(b.views[i..]) == {|a.sizes|};
    } else {
      TotalTail(b.sizes, b.tail);
      assert view.block == b.tail;
      assert BlocksOf(b.views[i..]) == if b.tail.Some? then {b.tail.value} else {};
    }
  }

  lemma NarrowWindows(lengths: seq<nat>, i: nat, j: nat)
    requires Admissible(lengths) && i <= j <= |lengths| && j <= i + 1
    ensures TwoSuffice(lengths, i, j)
  {
    HeldAndTail(lengths, i, j);
    if j == i {
      assert Run(lengths[..j]).views[i..] == [] && BlocksOf([]) == {};
      TotalTail(Run(lengths[..j]).sizes, None);
    } else {
      LastViewHeld(lengths[..j], i);
      assert lengths[i..j] == [lengths[i]] && [lengths[i]][..0] == [];
      assert Charges([lengths[i]]) == Charges([lengths[i]][..0]) + Charge(lengths[i]);
    }
  }

  // ---------------------------------------------------------------- windows that end late

  lemma WholeWindow(lengths: seq<nat>, i: nat)
    requires Admissible(lengths) && i <= |lengths|
    ensures TwoSuffice(lengths, i, |lengths|)
  {
    MemoryBound(lengths, i);
    var a := Run(lengths);
    assert a.views[i..|lengths|] == a.views[i..] && lengths[i..|lengths|] == lengths[i..];
  }

  /** The packet after the window stays in the window's tail or outside the shared blocks. */
  lemma SameTailAfter(b: Arena, i: nat, length: nat)
    requires Sound(b) && i <= |b.views| && length <= MAX_LENGTH && (length > BLOCK / 2 || length <= Room(b))
    requires forall id :: id in BlocksOf(b.views[i..]) ==> id < |b.sizes|
    ensures |Encode(b, length).views| == |b.views| + 1
    ensures RetainedUpTo(Encode(b, length), i, |b.views|) == Retained(b, i)
  {
    var a := Encode(b, length);
    assert a.views[i..|b.views|] == b.views[i..] && Tail(a) == Tail(b);
    TotalExtends(b.sizes, a.sizes[|b.sizes|..], BlocksOf(b.views[i..]) + Tail(b));
    assert b.sizes + a.sizes[|b.sizes|..] == a.sizes;
  }

  /** The packet after the window opens a block: the window's last block was more than half full. */
  lemma NewTailAfter(b: Arena, i: nat, spent: nat, turned: bool, length: nat)
    requires Sound(b) && i <= |b.views| && length <= BLOCK / 2 && Room(b) < length
    requires Within(b, i, spent, turned) && (turned ==> b.tail.Some?)
    ensures |Encode(b, length).views| == |b.views| + 1
    ensures RetainedUpTo(Encode(b, length), i, |b.views|) <= spent + 2 * BLOCK
  {
    var a := Encode(b, length);
    RetainedMore(b, i, length);
    assert a.views[i..] == a.views[i..|b.views|] + [a.views[|b.views|]];
    BlocksAppend(a.views[i..|b.views|], a.views[|b.views|]);
    TotalMonotone(a.sizes, BlocksOf(a.views[i..|b.views|]) + Tail(a), BlocksOf(a.views[i..]) + Tail(a));
  }

  lemma LateWindows(lengths: seq<nat>, i: nat)
    requires Admissible(lengths) && i < |lengths|
    ensures TwoSuffice(lengths, i, |lengths| - 1)
  {
    var j := |lengths| - 1;
    var turned := WindowWithin(lengths[..j], i);
    var b := Run(lengths[..j]);
    RunSound(lengths);
    assert lengths[..j][i..] == lengths[i..j];
    if lengths[j] <= BLOCK / 2 && Room(b) < lengths[j] {
      NewTailAfter(b, i, Charges(lengths[i..j]), turned, lengths[j]);
    } else {
      WindowAllocated(lengths[..j], i);
      SameTailAfter(b, i, lengths[j]);
      MemoryBound(lengths[..j], i);
    }
  }

  // ---------------------------------------------------------------- windows that need a third block

  function Zeros(n: nat): (r: seq<nat>)
    ensures |r| == n && forall k :: 0 <= k < n ==> r[k] == 0
  {
    seq(n, _ => 0)
  }

  /** Empty packets change nothing but the views. */
  predicate SameBlocks(a: Arena, b: Arena) { a.sizes == b.sizes && a.tail == b.tail && a.used == b.used }

  lemma {:induction false} RunZeros(lengths: seq<nat>, n: nat)
    requires Admissible(lengths)
    ensures Admissible(lengths + Zeros(n)) && SameBlocks(Run(lengths), Run(lengths + Zeros(n)))
    decreases n
  {
    if n == 0 {
      assert lengths + Zeros(0) == lengths;
    } else {
      RunZeros(lengths, n - 1);
      assert lengths + Zeros(n) == lengths + Zeros(n - 1) + [0];
      RunStep(lengths + Zeros(n - 1), 0);
    }
  }

  lemma FillBlock(a: Arena)
    requires a.sizes == [] && a.tail == None && a.used == 0
    ensures var b := Encode(Encode(a, 8192), 8191);
      b.sizes == [BLOCK] && b.tail == Some(0) && b.used == BLOCK - 1
  {}

  /** After `extra` empty packets, a block filled up to its last byte. */
  lemma FillFirst(extra: nat) returns (l: seq<nat>)
    ensures Admissible(l) && |l| == extra + 2
    ensures var a := Run(l); a.sizes == [BLOCK] && a.tail == Some(0) && a.used == BLOCK - 1
  {
    RunZeros([], extra);
    var z := [] + Zeros(extra);
    assert Run([]) == Init();
    FillBlock(Run(z));
    RunStep(z, 8192);
    RunStep(z + [8192], 8191);
    l := z + [8192] + [8191];
  }

  /** Its last byte, `inner` empty packets, and the first byte of the next block. */
  lemma TwoBytes(l: seq<nat>, inner: nat) returns (m: seq<nat>)
    requires Admissible(l)
    requires var a := Run(l); a.sizes == [BLOCK] && a.tail == Some(0) && a.used == BLOCK - 1
    ensures Admissible(m) && |m| == |l| + inner + 2 && m[..|l|] == l && m[|l|..] == [1] + Zeros(inner) + [1]
    ensures var a := Run(m);
      && a.sizes == [BLOCK, BLOCK] && a.tail == Some(1) && a.used == 1 && |a.views| == |m|
      && a.views[|l|].block == Some(0) && a.views[|m| - 1].block == Some(1)
  {
    RunStep(l, 1);
    var first := l + [1];
    RunZeros(first, inner);
    var filled := first + Zeros(inner);
    RunStep(filled, 1);
    m := filled + [1];
    RunSound(l);
    RunSound(first);
    RunSound(filled);
    RunSound(m);
    RunExtends(m, |first|);
    assert m[..|first|] == first;
    assert Run(first).views[|l|].block == Some(0);
    assert Run(m).sizes == [BLOCK] + [BLOCK];
  }

  /** The producer moves on to a third block; `after` empty packets follow. */
  lemma MoveOn(m: seq<nat>, after: nat) returns (lengths: seq<nat>)
    requires Admissible(m)
    requires var a := Run(m); a.sizes == [BLOCK, BLOCK] && a.tail == Some(1) && a.used == 1
    ensures Admissible(lengths) && |lengths| == |m| + after + 2 && lengths[..|m|] == m
    ensures Run(lengths).sizes == [BLOCK, BLOCK, BLOCK] && Run(lengths).tail == Some(2)
  {
    RunStep(m, 8192);
    RunStep(m + [8192], 8192);
    var l := m + [8192] + [8192];
    assert Run(l).sizes == [BLOCK, BLOCK] + [BLOCK];
    RunZeros(l, after);
    lengths := l + Zeros(after);
  }

  lemma ChargesAppend(before: seq<nat>, length: nat)
    ensures Charges(before + [length]) == Charges(before) + Charge(length)
  {
    assert (before + [length])[..|before|] == before;
  }

  lemma {:induction false} ZerosAreFree(before: seq<nat>, n: nat)
    ensures Charges(before + Zeros(n)) == Charges(before)
  {
    if n == 0 {
      assert before + Zeros(0) == before;
    } else {
      ZerosAreFree(before, n - 1);
      ChargesAppend(before + Zeros(n - 1), 0);
      assert before + Zeros(n) == before + Zeros(n - 1) + [0];
    }
  }

  lemma TwoBytesCharge(inner: nat)
    ensures Charges([1] + Zeros(inner) + [1]) == 4
  {
    ZerosAreFree([1], inner);
    ChargesAppend([1] + Zeros(inner), 1);
    ChargesAppend([], 1);
    assert [] + [1] == [1];
  }

  lemma ThreeLive(sizes: seq<nat>, live: set<nat>)
    requires sizes == [BLOCK, BLOCK, BLOCK] && 0 in live && 1 in live && 2 in live
    ensures Total(sizes, live) == 3 * BLOCK
  {
    assert sizes[..2] == [BLOCK, BLOCK] && sizes[..2][..1] == [BLOCK] && sizes[..2][..1][..0] == [];
    assert Total([BLOCK], live) == BLOCK;
    assert Total([BLOCK, BLOCK], live) == 2 * BLOCK;
  }

  /** With two packets before the window, two in it and two after it, two blocks are not enough. */
  lemma ThirdBlockNeeded(n: nat, i: nat, j: nat) returns (lengths: seq<nat>)
    requires 2 <= i && i + 2 <= j && j + 2 <= n
    ensures |lengths| == n && !TwoSuffice(lengths, i, j)
  {
    var l := FillFirst(i - 2);
    var m := TwoBytes(l, j - i - 2);
    lengths := MoveOn(m, n - j - 2);
    RunSound(lengths);
    RunExtends(lengths, j);
    var a := Run(lengths);
    assert a.views[..j] == Run(m).views;
    assert a.views[i] == Run(m).views[i] && a.views[j - 1] == Run(m).views[j - 1];
    var window := a.views[i..j];
    assert window[0].block == Some(0) && window[j - i - 1].block == Some(1);
    assert 0 in BlocksOf(window) && 1 in BlocksOf(window);
    ThreeLive(a.sizes, BlocksOf(window) + Tail(a));
    assert lengths[i..j] == lengths[..j][i..] == m[i..];
    TwoBytesCharge(j - i - 2);
  }

  /** The two-block bound holds for every sequence of packets exactly for windows that start at one
      of the first two packets, hold at most one view, or end at one of the last two. */
  lemma TwoBlocksExactly(n: nat, i: nat, j: nat)
    requires i <= j <= n
    ensures TwoAlwaysSuffice(n, i, j) <==> i <= 1 || j <= i + 1 || n <= j + 1
  {
    if i <= 1 || j <= i + 1 || n <= j + 1 {
      forall lengths: seq<nat> | |lengths| == n
        ensures TwoSuffice(lengths, i, j)
      {
        if Admissible(lengths) {
          if i <= 1 {
            EarlyWindows(lengths, i, j);
          } else if j <= i + 1 {
            NarrowWindows(lengths, i, j);
          } else if n == j {
            WholeWindow(lengths, i);
          } else {
            LateWindows(lengths, i);
          }
        }
      }
    } else {
      var lengths := ThirdBlockNeeded(n, i, j);
    }
  }
}
