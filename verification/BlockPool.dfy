/** The block pool of crates/protocol/src/pool.rs: power-of-two size classes. */
module BlockPool {

  const MIN_SIZE: nat := 256
  const CLASSES: nat := 10
  const CACHED_PER_CLASS: nat := 32
  const MAX_LENGTH: nat := 131072

  function ClassSize(index: nat): nat { if index == 0 then MIN_SIZE else 2 * ClassSize(index - 1) }

  /** The class of a length: doubling from the smallest size until the length fits. */
  function ClassFrom(index: nat, length: nat): (r: nat)
    ensures r >= index && ClassSize(r) >= length
    ensures r > index ==> ClassSize(r - 1) < length
    decreases if ClassSize(index) < length then length - ClassSize(index) else 0
  {
    SizePositive(index);
    if ClassSize(index) >= length then index else ClassFrom(index + 1, length)
  }

  lemma {:induction false} SizePositive(index: nat)
    ensures ClassSize(index) >= MIN_SIZE
  {
    if index > 0 {
      SizePositive(index - 1);
    }
  }

  lemma {:induction false} SizeGrows(low: nat, high: nat)
    requires low <= high
    ensures ClassSize(low) <= ClassSize(high)
    decreases high - low
  {
    if low < high {
      SizeGrows(low, high - 1);
      SizePositive(high - 1);
    }
  }

  function ClassOf(length: nat): nat { ClassFrom(0, length) }

  lemma LargestClass()
    ensures ClassSize(9) == MAX_LENGTH
  {
    assert ClassSize(2) == 2 * ClassSize(1) && ClassSize(4) == 2 * ClassSize(3);
    assert ClassSize(6) == 2 * ClassSize(5) && ClassSize(8) == 2 * ClassSize(7);
  }

  /** Every admissible length has a class, its block holds the length, the next smaller one would
      not, and a length above the smallest size wastes less than half its block. */
  lemma ClassIsTight(length: nat)
    requires length <= MAX_LENGTH
    ensures ClassOf(length) < CLASSES && length <= ClassSize(ClassOf(length))
    ensures forall index :: 0 <= index < ClassOf(length) ==> ClassSize(index) < length
    ensures length > MIN_SIZE ==> ClassSize(ClassOf(length)) < 2 * length
  {
    var r := ClassOf(length);
    LargestClass();
    if r >= CLASSES {
      SizeGrows(9, r - 1);
    }
    forall index | 0 <= index < r
      ensures ClassSize(index) < length
    {
      SizeGrows(index, r - 1);
    }
  }

  datatype Lease = Lease(capacity: nat, length: nat, index: nat)

  /** Free blocks by class; a block is its capacity. */
  class Pool {
    var cached: seq<seq<nat>>

    /** Every cached block has its class's size, and the caches are bounded. */
    predicate Valid()
      reads this
    {
      && |cached| == CLASSES
      && (forall k :: 0 <= k < CLASSES ==> |cached[k]| <= CACHED_PER_CLASS)
      && (forall k, i :: 0 <= k < CLASSES && 0 <= i < |cached[k]| ==> cached[k][i] == ClassSize(k))
    }

    constructor ()
      ensures Valid()
    {
      cached := seq(CLASSES, _ => []);
    }

    /** A block of the length's class, cached or new. */
    method Acquire(length: nat) returns (lease: Lease)
      requires Valid() && length <= MAX_LENGTH
      modifies this
      ensures Valid() && lease == Lease(ClassSize(ClassOf(length)), length, ClassOf(length))
    {
      ClassIsTight(length);
      var index := ClassOf(length);
      var capacity := ClassSize(index);
      if cached[index] != [] {
        capacity := cached[index][0];
        cached := cached[index := cached[index][1..]];
      }
      lease := Lease(capacity, length, index);
    }

    /** A dropped block goes back to its class unless that cache is full. */
    method Release(lease: Lease)
      requires Valid() && lease.index < CLASSES && lease.capacity == ClassSize(lease.index)
      modifies this
      ensures Valid()
      ensures forall k :: 0 <= k < CLASSES && k != lease.index ==> cached[k] == old(cached)[k]
      ensures cached[lease.index]
        == old(cached)[lease.index] + (if |old(cached)[lease.index]| < CACHED_PER_CLASS then [lease.capacity] else [])
    {
      if |cached[lease.index]| < CACHED_PER_CLASS {
        cached := cached[lease.index := cached[lease.index] + [lease.capacity]];
      } else {
        assert cached[lease.index] + [] == cached[lease.index];
      }
    }
  }
}
