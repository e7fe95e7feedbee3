/** Bounded reassembly of crates/hysteria2/src/wire.rs. Time is a number of nanoseconds. */
module Reassembly {
  import opened Common
  import opened HysteriaText
  import opened HysteriaWire

  const MAX_PENDING: nat := 64
  const MAX_BUFFERED: nat := 256 * 1024
  const RETENTION: nat := 10_000_000_000

  /** Session and packet identity. */
  type Key = (nat, nat)

  datatype Pending = Pending(target: Target, fragments: seq<Option<Bytes>>, bytes: nat, received: nat, created: nat)

  /** `bytes` is an integer here; that it never underflows is proved. */
  datatype Buffer = Buffer(pending: map<Key, Pending>, order: seq<Key>, bytes: int)

  function Filled(fragments: seq<Option<Bytes>>): nat {
    if fragments == [] then 0
    else Filled(fragments[..|fragments| - 1]) + if fragments[|fragments| - 1].Some? then 1 else 0
  }

  function Total(fragments: seq<Option<Bytes>>): nat {
    if fragments == [] then 0
    else
      var last := fragments[|fragments| - 1];
      Total(fragments[..|fragments| - 1]) + if last.Some? then |last.value| else 0
  }

  /** The payloads in index order; holes contribute nothing. */
  function Join(fragments: seq<Option<Bytes>>): Bytes {
    if fragments == [] then []
    else
      var last := fragments[|fragments| - 1];
      Join(fragments[..|fragments| - 1]) + if last.Some? then last.value else []
  }

  predicate EntryOk(p: Pending) {
    && 2 <= |p.fragments| <= 255
    && p.received == Filled(p.fragments) < |p.fragments|
    && p.bytes == Total(p.fragments) <= MAX_PAYLOAD
  }

  function Sum(order: seq<Key>, pending: map<Key, Pending>): nat {
    if order == [] then 0
    else (if order[0] in pending then pending[order[0]].bytes else 0) + Sum(order[1..], pending)
  }

  /** Every listed key is pending. */
  predicate Listed(b: Buffer, i: nat) { i < |b.order| ==> b.order[i] in b.pending }

  /** The order has no duplicates and is sorted by creation. */
  predicate InOrder(b: Buffer, i: nat, j: nat) {
    i < j < |b.order| && b.order[i] in b.pending && b.order[j] in b.pending ==>
      b.order[i] != b.order[j] && b.pending[b.order[i]].created <= b.pending[b.order[j]].created
  }

  predicate Dated(b: Buffer, now: nat, k: Key) { k in b.pending ==> k in b.order && b.pending[k].created <= now }

  predicate Sound(b: Buffer, k: Key) { k in b.pending ==> EntryOk(b.pending[k]) }

  /** `order` is a duplicate-free list of the pending keys, oldest first. */
  ghost predicate Tidy(b: Buffer, now: nat) {
    && (forall i: nat :: Listed(b, i))
    && (forall i: nat, j: nat :: InOrder(b, i, j))
    && (forall k: Key :: Dated(b, now, k))
  }

  ghost predicate Inv(b: Buffer, now: nat) {
    && Tidy(b, now)
    && (forall k: Key :: Sound(b, k))
    && b.bytes == Sum(b.order, b.pending) <= MAX_BUFFERED
    && |b.order| <= MAX_PENDING
  }

  // ---------------------------------------------------------------- what one call does

  function Without(order: seq<Key>, key: Key): seq<Key> {
    if order == [] then []
    else (if order[0] == key then [] else [order[0]]) + Without(order[1..], key)
  }

  function Remove(b: Buffer, key: Key): Buffer {
    if key in b.pending then Buffer(b.pending - {key}, Without(b.order, key), b.bytes - b.pending[key].bytes) else b
  }

  function DropOldest(b: Buffer): Buffer
    requires b.order != []
  {
    var key := b.order[0];
    Buffer(b.pending - {key}, b.order[1..], b.bytes - if key in b.pending then b.pending[key].bytes else 0)
  }

  predicate Fresh(p: Pending, now: nat) { now - p.created < RETENTION }

  function Expire(b: Buffer, now: nat): Buffer
    decreases |b.order|
  {
    if b.order == [] || (b.order[0] in b.pending && Fresh(b.pending[b.order[0]], now)) then b
    else Expire(DropOldest(b), now)
  }

  predicate Fits(b: Buffer, key: Key, length: nat) {
    b.bytes + length <= MAX_BUFFERED && (key in b.pending || |b.pending| < MAX_PENDING)
  }

  function Evict(b: Buffer, key: Key, length: nat): (e: Buffer)
    ensures forall k :: k in e.pending ==> k in b.pending && e.pending[k] == b.pending[k]
    decreases |b.order|
  {
    if Fits(b, key, length) || b.order == [] then b else Evict(DropOldest(b), key, length)
  }

  function NoFragments(count: nat): (r: seq<Option<Bytes>>)
    ensures |r| == count
  {
    seq(count, _ => None)
  }

  function Enter(b: Buffer, key: Key, part: Fragment, now: nat): Buffer {
    if key in b.pending then b
    else Buffer(b.pending[key := Pending(part.target, NoFragments(part.count), 0, 0, now)], b.order + [key], b.bytes)
  }

  function Fill(b: Buffer, key: Key, part: Fragment): Buffer
    requires key in b.pending && part.index < |b.pending[key].fragments|
  {
    var p := b.pending[key];
    Buffer(
      b.pending[key := p.(fragments := p.fragments[part.index := Some(part.payload)],
                          bytes := p.bytes + |part.payload|,
                          received := p.received + 1)],
      b.order,
      b.bytes + |part.payload|)
  }

  datatype Outcome = Nothing | Delivered(session: nat, packet: Packet) | Rejected(error: Error)

  predicate Decoded(part: Fragment) {
    && 1 <= part.count <= 255 && (part.count == 1 || part.index < part.count) && |part.payload| <= MAX_PAYLOAD
  }

  predicate Matches(p: Pending, part: Fragment) { p.target == part.target && |p.fragments| == part.count }

  /** The part after the eviction: a slot that is already filled stays as it is. */
  function Store(b: Buffer, part: Fragment, now: nat): (Buffer, Outcome)
    requires Decoded(part) && part.count > 1
    requires (part.session, part.packet) in b.pending ==>
      |b.pending[(part.session, part.packet)].fragments| == part.count
  {
    var key := (part.session, part.packet);
    var entered := Enter(b, key, part, now);
    if entered.pending[key].fragments[part.index].Some? then (entered, Nothing)
    else
      var filled := Fill(entered, key, part);
      var p := filled.pending[key];
      if p.bytes > MAX_PAYLOAD then (Remove(filled, key), Rejected(Oversized))
      else if p.received != |p.fragments| then (filled, Nothing)
      else (Remove(filled, key), Delivered(part.session, Packet(p.target, Join(p.fragments))))
  }

  function Receive(b: Buffer, part: Fragment, now: nat): (Buffer, Outcome)
    requires Decoded(part)
  {
    var young := Expire(b, now);
    var key := (part.session, part.packet);
    if part.count == 1 then (young, Delivered(part.session, Packet(part.target, part.payload)))
    else if key in young.pending && !Matches(young.pending[key], part) then (Remove(young, key), Rejected(Inconsistent))
    else Store(Evict(young, key, |part.payload|), part, now)
  }
}
