/** The packet arena of crates/tun/src/storage.rs: small packets share blocks, large ones get a
    pool block each. A run of `encode` calls is summarised by the blocks it allocated and the views
    it published. */
module PacketArena {
  import opened Common
  import opened BlockPool

  const BLOCK: nat := 16 * 1024

  /** A published packet: the block it keeps alive and its range there. */
  datatype View = View(block: Option<nat>, start: nat, length: nat)

  /** Block sizes by identity, the block the tail lies in and how much of it is used. */
  datatype Arena = Arena(sizes: seq<nat>, tail: Option<nat>, used: nat, views: seq<View>)

  function Init(): Arena { Arena([], None, 0, []) }

  function Room(a: Arena): nat { if a.tail.Some? && a.used <= BLOCK then BLOCK - a.used else 0 }

  function Encode(a: Arena, length: nat): Arena
    requires length <= MAX_LENGTH
  {
    if length > BLOCK / 2 then
      a.(sizes := a.sizes + [ClassSize(ClassOf(length))], views := a.views + [View(Some(|a.sizes|), 0, length)])
    else if Room(a) < length then
      Arena(a.sizes + [BLOCK], Some(|a.sizes|), length, a.views + [View(Some(|a.sizes|), 0, length)])
    else
      a.(used := a.used + length, views := a.views + [View(a.tail, a.used, length)])
  }

  predicate Admissible(lengths: seq<nat>) { forall i :: 0 <= i < |lengths| ==> lengths[i] <= MAX_LENGTH }

  function Run(lengths: seq<nat>): Arena
    requires Admissible(lengths)
    decreases |lengths|
  {
    if lengths == [] then Init() else Encode(Run(lengths[..|lengths| - 1]), lengths[|lengths| - 1])
  }

  // ---------------------------------------------------------------- what is retained

  function Charge(length: nat): nat { 2 * length }

  function Charges(lengths: seq<nat>): nat {
    if lengths == [] then 0 else Charges(lengths[..|lengths| - 1]) + Charge(lengths[|lengths| - 1])
  }

  function BlocksOf(views: seq<View>): set<nat> {
    set i | 0 <= i < |views| && views[i].block.Some? :: views[i].block.value
  }

  function Tail(a: Arena): set<nat> { if a.tail.Some? then {a.tail.value} else {} }

  /** The bytes of the blocks in `live`. */
  function Total(sizes: seq<nat>, live: set<nat>): nat {
    if sizes == [] then 0
    else Total(sizes[..|sizes| - 1], live) + if |sizes| - 1 in live then sizes[|sizes| - 1] else 0
  }

  /** What the views from `i` on and the producer's tail keep allocated. */
  function Retained(a: Arena, i: nat): nat
    requires i <= |a.views|
  {
    Total(a.sizes, BlocksOf(a.views[i..]) + Tail(a))
  }

  lemma {:induction false} TotalMonotone(sizes: seq<nat>, fewer: set<nat>, more: set<nat>)
    requires fewer <= more
    ensures Total(sizes, fewer) <= Total(sizes, more)
  {
    if sizes != [] {
      TotalMonotone(sizes[..|sizes| - 1], fewer, more);
    }
  }

  lemma TotalAppend(sizes: seq<nat>, size: nat, live: set<nat>)
    ensures Total(sizes + [size], live) == Total(sizes, live) + if |sizes| in live then size else 0
  {
    assert (sizes + [size])[..|sizes|] == sizes;
  }

  /** Blocks not allocated yet weigh nothing. */
  lemma {:induction false} TotalIgnores(sizes: seq<nat>, live: set<nat>, id: nat)
    requires id >= |sizes|
    ensures Total(sizes, live + {id}) == Total(sizes, live)
  {
    if sizes != [] {
      TotalIgnores(sizes[..|sizes| - 1], live, id);
    }
  }

  lemma BlocksAppend(views: seq<View>, view: View)
    ensures BlocksOf(views + [view]) == BlocksOf(views) + if view.block.Some? then {view.block.value} else {}
  {
    var more := views + [view];
    forall id
      ensures id in BlocksOf(more) <==> id in BlocksOf(views) + if view.block.Some? then {view.block.value} else {}
    {
      if id in BlocksOf(views) {
        var i :| 0 <= i < |views| && views[i].block == Some(id);
        assert more[i].block == Some(id);
      }
      if view.block == Some(id) {
        assert more[|views|].block == Some(id);
      }
      if id in BlocksOf(more) {
        var i :| 0 <= i < |more| && more[i].block == Some(id);
        assert i < |views| ==> views[i].block == Some(id);
      }
    }
  }

  // ---------------------------------------------------------------- one more packet

  /** The tail lies in an allocated block and is not over-full. */
  predicate Sound(a: Arena) {
    && (a.tail.Some? ==> a.tail.value < |a.sizes| && a.sizes[a.tail.value] == BLOCK && a.used <= BLOCK)
    && (a.tail.None? ==> a.used == 0)
  }

  lemma EncodeKeepsSound(a: Arena, length: nat)
    requires Sound(a) && length <= MAX_LENGTH
    ensures Sound(Encode(a, length)) && |Encode(a, length).views| == |a.views| + 1
  {}

  /** A packet that needs no new block adds none. */
  lemma RetainedSame(a: Arena, i: nat, length: nat)
    requires Sound(a) && i <= |a.views| && length <= BLOCK / 2 && length <= Room(a)
    ensures Retained(Encode(a, length), i) == Retained(a, i)
  {
    var b := Encode(a, length);
    assert b.views[i..] == a.views[i..] + [View(a.tail, a.used, length)];
    BlocksAppend(a.views[i..], View(a.tail, a.used, length));
    assert BlocksOf(b.views[i..]) + Tail(b) == BlocksOf(a.views[i..]) + Tail(a);
  }

  /** A packet with a new block adds at most that block. */
  lemma RetainedMore(a: Arena, i: nat, length: nat)
    requires Sound(a) && i <= |a.views| && length <= MAX_LENGTH && (length > BLOCK / 2 || length > Room(a))
    ensures Retained(Encode(a, length), i)
      <= Retained(a, i) + if length > BLOCK / 2 then ClassSize(ClassOf(length)) else BLOCK
  {
    var b := Encode(a, length);
    var id := |a.sizes|;
    var size := b.sizes[id];
    var held := BlocksOf(a.views[i..]) + Tail(a);
    assert b.views[i..] == a.views[i..] + [View(Some(id), 0, length)];
    BlocksAppend(a.views[i..], View(Some(id), 0, length));
    var live := BlocksOf(b.views[i..]) + Tail(b);
    assert live <= held + {id};
    TotalAppend(a.sizes, size, live);
    TotalMonotone(a.sizes, live, held + {id});
    TotalIgnores(a.sizes, held, id);
  }

  // ---------------------------------------------------------------- the bound

  /** Before the window's first new block only one shared block counts; afterwards the head block
      and the tail do, and every block retired in between paid for itself. */
  predicate Within(a: Arena, i: nat, spent: nat, turned: bool)
    requires i <= |a.views|
  {
    if turned then Retained(a, i) + 2 * a.used <= spent + 2 * BLOCK && 2 * a.used <= spent
    else Retained(a, i) <= spent + BLOCK
  }

  lemma {:induction false} EncodeWithin(a: Arena, i: nat, spent: nat, turned: bool, length: nat)
    requires Sound(a) && i <= |a.views| && length <= MAX_LENGTH && Within(a, i, spent, turned)
    requires turned ==> a.tail.Some?
    ensures var turns := turned || (length <= BLOCK / 2 && Room(a) < length);
      |Encode(a, length).views| >= i && Within(Encode(a, length), i, spent + Charge(length), turns) &&
        (turns ==> Encode(a, length).tail.Some?)
  {
    if length > BLOCK / 2 {
      RetainedMore(a, i, length);
      ClassIsTight(length);
    } else if Room(a) < length {
      RetainedMore(a, i, length);
    } else {
      RetainedSame(a, i, length);
    }
  }

  lemma {:induction false} OnlyTail(a: Arena)
    requires Sound(a)
    ensures Retained(a, |a.views|) <= BLOCK
  {
    assert a.views[|a.views|..] == [] && BlocksOf([]) == {};
    assert {} + Tail(a) == Tail(a);
    TotalTail(a.sizes, a.tail);
  }

  lemma {:induction false} TotalTail(sizes: seq<nat>, tail: Option<nat>)
    requires tail.Some? && tail.value < |sizes| ==> sizes[tail.value] == BLOCK
    ensures Total(sizes, if tail.Some? then {tail.value} else {}) <= BLOCK
    ensures tail.None? || tail.value >= |sizes| ==> Total(sizes, if tail.Some? then {tail.value} else {}) == 0
  {
    if sizes != [] {
      TotalTail(sizes[..|sizes| - 1], tail);
    }
  }

  lemma {:induction false} RunSound(lengths: seq<nat>)
    requires Admissible(lengths)
    ensures Sound(Run(lengths)) && |Run(lengths).views| == |lengths|
    decreases |lengths|
  {
    if lengths != [] {
      RunSound(lengths[..|lengths| - 1]);
      EncodeKeepsSound(Run(lengths[..|lengths| - 1]), lengths[|lengths| - 1]);
    }
  }

  lemma {:induction false} WindowWithin(lengths: seq<nat>, i: nat) returns (turned: bool)
    requires Admissible(lengths) && i <= |lengths|
    ensures Sound(Run(lengths)) && |Run(lengths).views| == |lengths|
    ensures Within(Run(lengths), i, Charges(lengths[i..]), turned) && (turned ==> Run(lengths).tail.Some?)
    decreases |lengths|
  {
    RunSound(lengths);
    if i == |lengths| {
      turned := false;
      OnlyTail(Run(lengths));
    } else {
      var n := |lengths| - 1;
      var before := lengths[..n];
      var turned' := WindowWithin(before, i);
      EncodeWithin(Run(before), i, Charges(before[i..]), turned', lengths[n]);
      turned := turned' || (lengths[n] <= BLOCK / 2 && Room(Run(before)) < lengths[n]);
      assert lengths[i..][..n - i] == before[i..];
    }
  }

  /** Whatever the packet lengths, and wherever the consumer is in the queue, the blocks kept alive
      by the views not yet consumed and by the producer's tail take at most the charged bytes plus
      two blocks. */
  lemma MemoryBound(lengths: seq<nat>, i: nat)
    requires Admissible(lengths) && i <= |lengths|
    ensures |Run(lengths).views| == |lengths|
    ensures Retained(Run(lengths), i) <= Charges(lengths[i..]) + 2 * BLOCK
  {
    var turned := WindowWithin(lengths, i);
  }

  // ---------------------------------------------------------------- windows that end early

  /** What the views from `i` to `j` and the tail keep allocated when later views are gone. */
  function RetainedUpTo(a: Arena, i: nat, j: nat): nat
    requires i <= j <= |a.views|
  {
    Total(a.sizes, BlocksOf(a.views[i..j]) + Tail(a))
  }

  lemma EncodeExtends(a: Arena, length: nat)
    requires length <= MAX_LENGTH
    ensures Encode(a, length).views[..|a.views|] == a.views && a.sizes <= Encode(a, length).sizes
  {}

  /** Later packets leave earlier views and block sizes alone. */
  lemma {:induction false} RunExtends(lengths: seq<nat>, j: nat)
    requires Admissible(lengths) && j <= |lengths|
    ensures |Run(lengths).views| == |lengths| && |Run(lengths[..j]).views| == j
    ensures Run(lengths[..j]).views == Run(lengths).views[..j]
    ensures Run(lengths[..j]).sizes <= Run(lengths).sizes
    decreases |lengths|
  {
    RunSound(lengths);
    RunSound(lengths[..j]);
    if j == |lengths| {
      assert lengths[..j] == lengths;
    } else {
      var n := |lengths| - 1;
      RunExtends(lengths[..n], j);
      assert lengths[..n][..j] == lengths[..j];
      EncodeExtends(Run(lengths[..n]), lengths[n]);
      assert Run(lengths).views[..j] == Run(lengths).views[..n][..j];
    }
  }

  lemma {:induction false} TotalExtends(sizes: seq<nat>, more: seq<nat>, live: set<nat>)
    requires forall id :: id in live ==> id < |sizes|
    ensures Total(sizes + more, live) == Total(sizes, live)
    decreases |more|
  {
    if more == [] {
      assert sizes + more == sizes;
    } else {
      var n := |more| - 1;
      assert (sizes + more)[..|sizes| + n] == sizes + more[..n];
      TotalExtends(sizes, more[..n], live);
    }
  }

  lemma {:induction false} TotalUnion(sizes: seq<nat>, live: set<nat>, tail: set<nat>)
    ensures Total(sizes, live + tail) <= Total(sizes, live) + Total(sizes, tail)
  {
    if sizes != [] {
      TotalUnion(sizes[..|sizes| - 1], live, tail);
    }
  }

  lemma {:induction false} ViewsAllocated(lengths: seq<nat>, k: nat)
    requires Admissible(lengths) && k < |lengths|
    ensures |Run(lengths).views| == |lengths|
    ensures Run(lengths).views[k].block.Some? ==> Run(lengths).views[k].block.value < |Run(lengths).sizes|
    decreases |lengths|
  {
    RunSound(lengths);
    var n := |lengths| - 1;
    RunSound(lengths[..n]);
    if k < n {
      ViewsAllocated(lengths[..n], k);
    }
  }

  /** Three blocks are enough for windows that end before the newest view. */
  lemma InnerWindowBound(lengths: seq<nat>, i: nat, j: nat)
    requires Admissible(lengths) && i <= j <= |lengths|
    ensures |Run(lengths).views| == |lengths|
    ensures RetainedUpTo(Run(lengths), i, j) <= Charges(lengths[i..j]) + 3 * BLOCK
  {
    var a, b := Run(lengths), Run(lengths[..j]);
    RunSound(lengths);
    RunExtends(lengths, j);
    MemoryBound(lengths[..j], i);
    assert lengths[..j][i..] == lengths[i..j] && b.views[i..] == a.views[i..j];
    var live := BlocksOf(a.views[i..j]);
    TotalMonotone(b.sizes, live, live + Tail(b));
    forall id | id in live
      ensures id < |b.sizes|
    {
      var k :| 0 <= k < |b.views[i..]| && b.views[i..][k].block == Some(id);
      ViewsAllocated(lengths[..j], i + k);
    }
    TotalExtends(b.sizes, a.sizes[|b.sizes|..], live);
    assert b.sizes + a.sizes[|b.sizes|..] == a.sizes;
    TotalUnion(a.sizes, live, Tail(a));
    TotalTail(a.sizes, a.tail);
  }

  lemma RunStep(lengths: seq<nat>, length: nat)
    requires Admissible(lengths) && length <= MAX_LENGTH
    ensures Admissible(lengths + [length]) && Run(lengths + [length]) == Encode(Run(lengths), length)
  {
    assert (lengths + [length])[..|lengths|] == lengths;
  }

  // ---------------------------------------------------------------- views stay apart

  /** The ranges of two views share no byte. */
  predicate Apart(v: View, w: View) {
    v.block.Some? && v.block == w.block ==> v.start + v.length <= w.start || w.start + w.length <= v.start
  }

  /** The view lies inside its block, and in the tail's block before what is still unused. */
  predicate Inside(a: Arena, v: View) {
    && (v.block.None? ==> v.length == 0)
    && (v.block.Some? ==>
          && v.block.value < |a.sizes| && v.start + v.length <= a.sizes[v.block.value]
          && (v.block == a.tail ==> v.start + v.length <= a.used))
  }

  predicate Placed(a: Arena) {
    && Sound(a)
    && (forall i :: 0 <= i < |a.views| ==> Inside(a, a.views[i]))
    && (forall i, j :: 0 <= i < j < |a.views| ==> Apart(a.views[i], a.views[j]))
  }

  lemma {:induction false} EncodeStaysApart(a: Arena, length: nat, v: View)
    requires Sound(a) && length <= MAX_LENGTH && Inside(a, v)
    ensures var b := Encode(a, length); Inside(b, v) && Inside(b, b.views[|a.views|]) && Apart(v, b.views[|a.views|])
  {
    ClassIsTight(length);
  }

  lemma {:induction false} EncodeKeepsPlaced(a: Arena, length: nat)
    requires Placed(a) && length <= MAX_LENGTH
    ensures Placed(Encode(a, length))
  {
    var b := Encode(a, length);
    EncodeExtends(a, length);
    EncodeStaysApart(a, length, View(None, 0, 0));
    forall i | 0 <= i < |a.views|
      ensures Inside(b, b.views[i]) && Apart(b.views[i], b.views[|a.views|])
    {
      assert b.views[i] == a.views[i];
      EncodeStaysApart(a, length, a.views[i]);
    }
    assert forall i, j :: 0 <= i < j < |a.views| ==> b.views[i] == a.views[i] && b.views[j] == a.views[j];
  }

  /** Whatever the packet lengths, every view lies inside its block and no two share a byte. */
  lemma {:induction false} ViewsNeverOverlap(lengths: seq<nat>)
    requires Admissible(lengths)
    ensures Placed(Run(lengths))
    decreases |lengths|
  {
    if lengths != [] {
      ViewsNeverOverlap(lengths[..|lengths| - 1]);
      EncodeKeepsPlaced(Run(lengths[..|lengths| - 1]), lengths[|lengths| - 1]);
    }
  }

  // ---------------------------------------------------------------- what a view reads

  /** The bytes written so far, by block and offset. */
  type Memory = map<(int, int), byte>

  function Lengths(packets: seq<Bytes>): seq<nat> { seq(|packets|, i requires 0 <= i < |packets| => |packets[i]|) }

  function Image(block: nat, start: nat, packet: Bytes): (r: Memory)
    ensures forall cell :: cell in r <==> cell.0 == block && start <= cell.1 < start + |packet|
    ensures forall k :: 0 <= k < |packet| ==> r[(block, start + k)] == packet[k]
  {
    if packet == [] then map[]
    else
      var n := |packet| - 1;
      Image(block, start, packet[..n])[(block, start + n) := packet[n]]
  }

  /** The memory after the packet was written through its view. */
  function Written(memory: Memory, v: View, packet: Bytes): Memory
    requires v.block.Some? || packet == []
  {
    if v.block.None? then memory else memory + Image(v.block.value, v.start, packet)
  }

  /** The view gives the packet back. */
  predicate Holds(memory: Memory, v: View, packet: Bytes) {
    && v.length == |packet| && (packet == [] || v.block.Some?)
    && forall k: nat :: k < |packet| ==> HoldsAt(memory, v, packet, k)
  }

  predicate HoldsAt(memory: Memory, v: View, packet: Bytes, k: nat) {
    k < |packet| && v.block.Some? ==>
      var cell := (v.block.value, v.start + k);
      cell in memory && memory[cell] == packet[k]
  }

  /** Writing a packet through a view that stays apart leaves the others readable. */
  lemma WriteLeavesOthers(memory: Memory, v: View, packet: Bytes, w: View, other: Bytes)
    requires Holds(memory, v, packet) && Apart(v, w) && w.length == |other| && (w.block.Some? || other == [])
    ensures Holds(Written(memory, w, other), v, packet)
  {
    forall k: nat | k < |packet|
      ensures HoldsAt(Written(memory, w, other), v, packet, k)
    {
      assert HoldsAt(memory, v, packet, k);
    }
  }

  lemma WriteReadsBack(memory: Memory, v: View, packet: Bytes)
    requires v.length == |packet| && (v.block.Some? || packet == [])
    ensures Holds(Written(memory, v, packet), v, packet)
  {}

  lemma LengthsSnoc(packets: seq<Bytes>)
    requires packets != []
    ensures Lengths(packets)[..|packets| - 1] == Lengths(packets[..|packets| - 1])
  {}

  /** The view of the last packet. */
  function LastView(packets: seq<Bytes>): View
    requires Admissible(Lengths(packets)) && packets != []
  {
    RunSound(Lengths(packets));
    Run(Lengths(packets)).views[|packets| - 1]
  }

  lemma LastFits(packets: seq<Bytes>)
    requires Admissible(Lengths(packets)) && packets != []
    ensures var v := LastView(packets); var p := packets[|packets| - 1];
      v.length == |p| && (v.block.Some? || p == [])
  {
    LengthsSnoc(packets);
    RunSound(Lengths(packets));
    RunSound(Lengths(packets[..|packets| - 1]));
    ViewsNeverOverlap(Lengths(packets));
  }

  /** The memory after encoding the packets one after the other. */
  function Encoded(packets: seq<Bytes>): Memory
    requires Admissible(Lengths(packets))
    decreases |packets|
  {
    if packets == [] then map[]
    else
      LengthsSnoc(packets);
      LastFits(packets);
      Written(Encoded(packets[..|packets| - 1]), LastView(packets), packets[|packets| - 1])
  }

  /** However many packets are encoded later, a published view keeps reading the packet it was
      published for: blocks with live views are never written again where a view lies. */
  lemma {:induction false} ViewsAreImmutable(packets: seq<Bytes>, i: nat)
    requires Admissible(Lengths(packets)) && i < |packets|
    ensures |Run(Lengths(packets)).views| == |packets|
    ensures Holds(Encoded(packets), Run(Lengths(packets)).views[i], packets[i])
    decreases |packets|
  {
    var n := |packets| - 1;
    var views := Run(Lengths(packets)).views;
    RunSound(Lengths(packets));
    LengthsSnoc(packets);
    LastFits(packets);
    if i == n {
      WriteReadsBack(Encoded(packets[..n]), views[n], packets[n]);
    } else {
      ViewsAreImmutable(packets[..n], i);
      RunExtends(Lengths(packets), n);
      ViewsNeverOverlap(Lengths(packets));
      assert views[i] == Run(Lengths(packets[..n])).views[i];
      WriteLeavesOthers(Encoded(packets[..n]), views[i], packets[i], views[n], packets[n]);
    }
  }

  // ---------------------------------------------------------------- in place

  /** One producer's arena. The tail is replaced, never reallocated, so views stay valid. */
  class Storage {
    var sizes: seq<nat>
    var tail: Option<nat>
    var used: nat
    ghost var views: seq<View>

    ghost function Value(): Arena
      reads this
    {
      Arena(sizes, tail, used, views)
    }

    constructor ()
      ensures Value() == Init() && Placed(Value())
    {
      sizes, tail, used, views := [], None, 0, [];
    }

    /** Publishes a view of its own bytes: a range inside its block that no earlier view shares. */
    method EncodePacket(length: nat) returns (view: View)
      requires Placed(Value()) && length <= MAX_LENGTH
      modifies this
      ensures Placed(Value()) && Value() == Encode(old(Value()), length) && views == old(views) + [view]
      ensures view.length == length && Inside(Value(), view)
      ensures forall i :: 0 <= i < |old(views)| ==> Apart(old(views)[i], view)
    {
      ghost var before := Value();
      EncodeKeepsPlaced(before, length);
      if length > BLOCK / 2 {
        view := View(Some(|sizes|), 0, length);
        sizes := sizes + [ClassSize(ClassOf(length))];
      } else {
        if (if tail.Some? then BLOCK - used else 0) < length {
          tail, used := Some(|sizes|), 0;
          sizes := sizes + [BLOCK];
        }
        view := View(tail, used, length);
        used := used + length;
      }
      views := views + [view];
      assert Value() == Encode(before, length);
      assert forall i :: 0 <= i < |before.views| ==> views[i] == before.views[i];
    }
  }
}
