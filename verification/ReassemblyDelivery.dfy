/** Fragmentation and reassembly together: `fragments`, `Fragment::decode` and `receive` of
    crates/hysteria2/src/wire.rs deliver the packet that was sent. */
module ReassemblyDelivery {
  import opened Common
  import opened HysteriaText
  import opened HysteriaWire
  import opened Reassembly
  import opened ReassemblyProofs

  /** The pieces of one packet under one key. */
  datatype Sent = Sent(session: nat, id: nat, target: Target, pieces: seq<Bytes>)

  predicate Sendable(m: Sent) { 1 <= |m.pieces| <= 255 && |Concat(m.pieces)| <= MAX_PAYLOAD }

  function KeyOf(m: Sent): Key { (m.session, m.id) }

  function Part(m: Sent, i: nat): Fragment
    requires i < |m.pieces|
  {
    Fragment(m.session, m.id, i, |m.pieces|, m.target, m.pieces[i])
  }

  predicate IsPart(m: Sent, part: Fragment) {
    part.index < |m.pieces| && part == Part(m, part.index)
  }

  /** The slots once the indices of `seen` arrived. */
  function Slots(pieces: seq<Bytes>, seen: set<nat>): (r: seq<Option<Bytes>>)
    ensures |r| == |pieces|
    ensures forall i :: 0 <= i < |r| ==> r[i] == if i in seen then Some(pieces[i]) else None
  {
    seq(|pieces|, i requires 0 <= i < |pieces| => if i in seen then Some(pieces[i]) else None)
  }

  predicate Complete(m: Sent, seen: set<nat>) { forall i :: 0 <= i < |m.pieces| ==> i in seen }

  /** What the buffer holds of the packet. */
  predicate Collected(b: Buffer, m: Sent, seen: set<nat>) {
    && (seen == {} ==> KeyOf(m) !in b.pending)
    && (seen != {} ==>
          && KeyOf(m) in b.pending
          && b.pending[KeyOf(m)].target == m.target
          && b.pending[KeyOf(m)].fragments == Slots(m.pieces, seen))
  }

  /** Whether the call gets as far as the eviction: an unfragmented datagram and one that does not
      match its packet leave before. */
  predicate Evicts(young: Buffer, part: Fragment) {
    && part.count > 1
    && ((part.session, part.packet) in young.pending ==> Matches(young.pending[(part.session, part.packet)], part))
  }

  /** The call neither expires nor evicts what the buffer holds of the packet. */
  predicate Undisturbed(b: Buffer, m: Sent, part: Fragment, now: nat) {
    KeyOf(m) in b.pending ==>
      var young := Expire(b, now);
      && KeyOf(m) in young.pending
      && (Evicts(young, part) ==> KeyOf(m) in Evict(young, (part.session, part.packet), |part.payload|).pending)
  }

  // ---------------------------------------------------------------- slots of a packet

  lemma {:induction false} SlotsTotal(pieces: seq<Bytes>, seen: set<nat>)
    ensures Total(Slots(pieces, seen)) <= |Concat(pieces)|
  {
    if pieces != [] {
      var n := |pieces| - 1;
      assert Slots(pieces, seen)[..n] == Slots(pieces[..n], seen);
      SlotsTotal(pieces[..n], seen);
    }
  }

  lemma {:induction false} SlotsJoin(pieces: seq<Bytes>, seen: set<nat>)
    requires forall i :: 0 <= i < |pieces| ==> i in seen
    ensures Join(Slots(pieces, seen)) == Concat(pieces)
  {
    if pieces != [] {
      var n := |pieces| - 1;
      assert Slots(pieces, seen)[..n] == Slots(pieces[..n], seen);
      SlotsJoin(pieces[..n], seen);
    }
  }

  lemma FillSlots(pieces: seq<Bytes>, seen: set<nat>, i: nat)
    requires i < |pieces|
    ensures Slots(pieces, seen)[i := Some(pieces[i])] == Slots(pieces, seen + {i})
  {}

  lemma EmptyIsNone(pieces: seq<Bytes>)
    ensures Slots(pieces, {}) == NoFragments(|pieces|)
  {}

  // ---------------------------------------------------------------- one call

  /** Expiry keeps the entry as it is when it keeps it at all, and never invents one. */
  lemma {:induction false} ExpireOnlyRemoves(b: Buffer, now: nat)
    ensures forall k :: k in Expire(b, now).pending ==> k in b.pending && Expire(b, now).pending[k] == b.pending[k]
    decreases |b.order|
  {
    if !(b.order == [] || (b.order[0] in b.pending && Fresh(b.pending[b.order[0]], now))) {
      ExpireOnlyRemoves(DropOldest(b), now);
    }
  }

  lemma RemoveOthers(b: Buffer, key: Key, k: Key)
    requires k != key
    ensures k in Remove(b, key).pending <==> k in b.pending
    ensures k in b.pending ==> Remove(b, key).pending[k] == b.pending[k]
  {}

  /** A fragment of another packet changes nothing for this one. */
  lemma {:induction false} OtherPart(b: Buffer, m: Sent, seen: set<nat>, part: Fragment, now: nat)
    requires Decoded(part) && (part.session, part.packet) != KeyOf(m)
    requires Collected(b, m, seen) && Undisturbed(b, m, part, now)
    ensures Collected(Receive(b, part, now).0, m, seen)
  {
    ExpireOnlyRemoves(b, now);
    var young := Expire(b, now);
    var own := (part.session, part.packet);
    if part.count == 1 {
    } else if own in young.pending && !Matches(young.pending[own], part) {
      RemoveOthers(young, own, KeyOf(m));
    } else {
      StoreOthers(Evict(young, own, |part.payload|), part, now, KeyOf(m));
    }
  }

  lemma StoreOthers(b: Buffer, part: Fragment, now: nat, k: Key)
    requires Decoded(part) && part.count > 1 && k != (part.session, part.packet)
    requires (part.session, part.packet) in b.pending ==>
      |b.pending[(part.session, part.packet)].fragments| == part.count
    ensures k in Store(b, part, now).0.pending <==> k in b.pending
    ensures k in b.pending ==> Store(b, part, now).0.pending[k] == b.pending[k]
  {}

  /** Storing one of the packet's own fragments. */
  lemma {:induction false} StoreOwn(b: Buffer, m: Sent, seen: set<nat>, i: nat, now: nat)
    requires Inv(b, now) && Sendable(m) && |m.pieces| > 1 && i < |m.pieces| && !Complete(m, seen)
    requires Collected(b, m, seen) && Fits(b, KeyOf(m), |m.pieces[i]|) && |m.pieces[i]| <= MAX_PAYLOAD
    ensures var (c, r) := Store(b, Part(m, i), now);
      if Complete(m, seen + {i})
      then r == Delivered(m.session, Packet(m.target, Concat(m.pieces))) && KeyOf(m) !in c.pending
      else r == Nothing && Collected(c, m, seen + {i})
  {
    var key := KeyOf(m);
    var part := Part(m, i);
    var e := Enter(b, key, part, now);
    EnterKeepsInv(b, key, part, now);
    EmptyIsNone(m.pieces);
    assert e.pending[key].fragments == Slots(m.pieces, seen) && e.pending[key].target == m.target;
    if i in seen {
      assert seen + {i} == seen;
    } else {
      FillKeepsInv(e, key, part, now);
      var f := Fill(e, key, part);
      FillSlots(m.pieces, seen, i);
      assert f.pending[key].fragments == Slots(m.pieces, seen + {i});
      SlotsTotal(m.pieces, seen + {i});
      FilledExactly(f.pending[key].fragments);
      SlotsFilled(m, seen + {i});
      if Complete(m, seen + {i}) {
        SlotsJoin(m.pieces, seen + {i});
      }
    }
  }

  lemma SlotsFilled(m: Sent, seen: set<nat>)
    ensures Complete(m, seen) <==> forall i :: 0 <= i < |m.pieces| ==> Slots(m.pieces, seen)[i].Some?
  {
    forall i | 0 <= i < |m.pieces|
      ensures i in seen <==> Slots(m.pieces, seen)[i].Some?
    {}
  }

  /** One of the packet's own fragments: nothing until the last missing index, then the packet. */
  lemma {:induction false} OwnPart(b: Buffer, m: Sent, seen: set<nat>, i: nat, was: nat, now: nat)
    requires Inv(b, was) && was <= now && Sendable(m) && i < |m.pieces| && !Complete(m, seen)
    requires Collected(b, m, seen) && Undisturbed(b, m, Part(m, i), now) && |m.pieces[i]| <= MAX_PAYLOAD
    requires |m.pieces| == 1 ==> seen == {}
    ensures var (c, r) := Receive(b, Part(m, i), now);
      if Complete(m, seen + {i})
      then r == Delivered(m.session, Packet(m.target, Concat(m.pieces))) && KeyOf(m) !in c.pending
      else r == Nothing && Collected(c, m, seen + {i})
  {
    var part := Part(m, i);
    ExpireOnlyRemoves(b, now);
    ExpireIsFullScan(b, was, now);
    var young := Expire(b, now);
    InvLater(young, was, now);
    if |m.pieces| == 1 {
      assert m.pieces == [m.pieces[0]];
      assert Concat(m.pieces) == Concat(m.pieces[..0]) + m.pieces[0];
    } else {
      EvictMakesRoom(young, now, KeyOf(m), |part.payload|);
      var room := Evict(young, KeyOf(m), |part.payload|);
      assert Collected(room, m, seen);
      StoreOwn(room, m, seen, i, now);
    }
  }

  // ---------------------------------------------------------------- whole runs

  predicate Own(m: Sent, part: Fragment) { (part.session, part.packet) == KeyOf(m) }

  /** The indices of the packet among the first events. */
  function Seen(m: Sent, events: seq<Event>): set<nat> {
    if events == [] then {}
    else
      var last := events[|events| - 1].part;
      Seen(m, events[..|events| - 1]) + if Own(m, last) then {last.index} else {}
  }

  predicate Decodable(events: seq<Event>) { forall i :: 0 <= i < |events| ==> Decoded(events[i].part) }

  function After(b: Buffer, events: seq<Event>): Buffer
    requires Decodable(events)
    decreases |events|
  {
    if events == [] then b
    else
      var last := events[|events| - 1];
      Receive(After(b, events[..|events| - 1]), last.part, last.now).0
  }

  function OutcomeOf(b: Buffer, events: seq<Event>): Outcome
    requires Decodable(events) && events != []
  {
    var last := events[|events| - 1];
    Receive(After(b, events[..|events| - 1]), last.part, last.now).1
  }

  /** Any interleaving of the packet's fragments, in any order and with repeats, with other
      packets' fragments, during which what was collected is neither evicted nor expired. */
  predicate Delivery(b: Buffer, m: Sent, start: nat, events: seq<Event>)
    decreases |events|
  {
    && Timely(events) && Decodable(events)
    && (events != [] ==>
          var n := |events| - 1;
          && start <= events[0].now
          && Delivery(b, m, start, events[..n])
          && (Own(m, events[n].part) ==> IsPart(m, events[n].part))
          && Undisturbed(After(b, events[..n]), m, events[n].part, events[n].now))
  }

  function Now(start: nat, events: seq<Event>): nat { if events == [] then start else events[|events| - 1].now }

  lemma {:induction false} AfterKeepsInv(b: Buffer, m: Sent, start: nat, events: seq<Event>)
    requires Inv(b, start) && Delivery(b, m, start, events)
    ensures Inv(After(b, events), Now(start, events))
    decreases |events|
  {
    if events != [] {
      var n := |events| - 1;
      AfterKeepsInv(b, m, start, events[..n]);
      ReceiveKeepsInv(After(b, events[..n]), events[n].part, Now(start, events[..n]), events[n].now);
    }
  }

  /** One more event. */
  lemma {:induction false} DeliverStep(c: Buffer, m: Sent, seen: set<nat>, last: Event, was: nat)
    requires Inv(c, was) && was <= last.now && Sendable(m) && !Complete(m, seen) && Collected(c, m, seen)
    requires Decoded(last.part) && (Own(m, last.part) ==> IsPart(m, last.part)) &&
      Undisturbed(c, m, last.part, last.now)
    requires forall i :: i in seen ==> i < |m.pieces|
    ensures var (d, r) := Receive(c, last.part, last.now);
      var now := seen + if Own(m, last.part) then {last.part.index} else {};
      && (!Complete(m, now) ==> Collected(d, m, now))
      && (Own(m, last.part) ==>
            r == if Complete(m, now) then Delivered(m.session, Packet(m.target, Concat(m.pieces))) else Nothing)
  {
    if Own(m, last.part) {
      OwnPart(c, m, seen, last.part.index, was, last.now);
    } else {
      OtherPart(c, m, seen, last.part, last.now);
      assert seen + {} == seen;
    }
  }

  /** Nothing comes out for this packet until its last missing index arrives, and at that very
      call the original packet does. */
  lemma {:induction false} DeliversOnce(b: Buffer, m: Sent, start: nat, events: seq<Event>)
    requires Inv(b, start) && Sendable(m) && KeyOf(m) !in b.pending && Delivery(b, m, start, events)
    requires forall n :: 0 <= n < |events| ==> !Complete(m, Seen(m, events[..n]))
    ensures !Complete(m, Seen(m, events)) ==> Collected(After(b, events), m, Seen(m, events))
    ensures events != [] && Own(m, events[|events| - 1].part) ==>
      OutcomeOf(b, events)
        == if Complete(m, Seen(m, events)) then Delivered(m.session, Packet(m.target, Concat(m.pieces))) else Nothing
    decreases |events|
  {
    if events != [] {
      var n := |events| - 1;
      var before := events[..n];
      forall k | 0 <= k < n
        ensures !Complete(m, Seen(m, before[..k]))
      {
        assert before[..k] == events[..k];
      }
      DeliversOnce(b, m, start, before);
      AfterKeepsInv(b, m, start, before);
      SeenInside(m, b, start, before);
      DeliverStep(After(b, before), m, Seen(m, before), events[n], Now(start, before));
    }
  }

  lemma {:induction false} SeenInside(m: Sent, b: Buffer, start: nat, events: seq<Event>)
    requires Delivery(b, m, start, events)
    ensures forall i :: i in Seen(m, events) ==> i < |m.pieces|
    decreases |events|
  {
    if events != [] {
      SeenInside(m, b, start, events[..|events| - 1]);
    }
  }

  // ---------------------------------------------------------------- from the packet to its parts

  function SentOf(text: SocketText, session: nat, id: nat, value: Packet, mtu: nat): Sent
    requires Plan(text, value, mtu).Ok?
  {
    Sent(session, id, value.target, Pieces(value.payload, Plan(text, value, mtu).value.1))
  }

  /** The target's text reads back. */
  predicate ReadsBack(text: SocketText, value: Packet, mtu: nat)
    requires Plan(text, value, mtu).Ok?
  {
    value.target.IpTarget? || text.parse(Plan(text, value, mtu).value.0).None?
  }

  /** What `fragments` produces, decoded again, is exactly the parts of the packet. */
  lemma DecodedParts(text: SocketText, session: nat, id: nat, value: Packet, mtu: nat, i: nat)
    requires RoundTrips(text) && WellTyped(value.target) && session < Power(4) && id < Power(2)
    requires Plan(text, value, mtu).Ok? && ReadsBack(text, value, mtu) && i < Plan(text, value, mtu).value.2
    ensures var (address, capacity, _) := Plan(text, value, mtu).value;
      Decode(text, Encoded(session, id, value, address, capacity, i))
        == Ok(Part(SentOf(text, session, id, value, mtu), i))
  {
    var (address, capacity, count) := Plan(text, value, mtu).value;
    AddressRoundTrip(text, value.target);
    StartsInside(|value.payload|, capacity, i);
    var piece := Piece(value.payload, capacity, i);
    assert Part(SentOf(text, session, id, value, mtu), i) == Fragment(session, id, i, count, value.target, piece);
    FragmentRoundTrip(text, session, id, i, count, value.target, address, piece);
  }

  // ---------------------------------------------------------------- from datagrams to the packet

  /** A datagram from the connection. */
  datatype Arrival = Arrival(bytes: Bytes, now: nat)

  /** What reaches `receive`: datagrams that do not decode are skipped. */
  function Arrived(text: SocketText, arrivals: seq<Arrival>): seq<Event> {
    if arrivals == [] then []
    else
      var last := arrivals[|arrivals| - 1];
      var part := Decode(text, last.bytes);
      Arrived(text, arrivals[..|arrivals| - 1]) + if part.Ok? then [Event(part.value, last.now)] else []
  }

  predicate InTime(start: nat, arrivals: seq<Arrival>) {
    && (forall i :: 0 <= i < |arrivals| ==> start <= arrivals[i].now)
    && (forall i, j :: 0 <= i < j < |arrivals| ==> arrivals[i].now <= arrivals[j].now)
  }

  /** One of the datagrams `fragments` makes of the packet. */
  predicate FromPacket(text: SocketText, session: nat, id: nat, value: Packet, mtu: nat, bytes: Bytes)
    requires Plan(text, value, mtu).Ok?
  {
    var (address, capacity, count) := Plan(text, value, mtu).value;
    exists i :: 0 <= i < count && bytes == Encoded(session, id, value, address, capacity, i)
  }

  /** Nobody else uses the packet's identity. */
  predicate OwnIdentity(text: SocketText, session: nat, id: nat, value: Packet, mtu: nat, arrival: Arrival)
    requires Plan(text, value, mtu).Ok?
  {
    var part := Decode(text, arrival.bytes);
    part.Ok? && (part.value.session, part.value.packet) == (session, id) ==>
      FromPacket(text, session, id, value, mtu, arrival.bytes)
  }

  /** At no call is what was collected of the packet evicted or expired. */
  predicate Kept(b: Buffer, m: Sent, events: seq<Event>)
    requires Decodable(events)
  {
    forall n :: 0 <= n < |events| ==> Undisturbed(After(b, events[..n]), m, events[n].part, events[n].now)
  }

  lemma DecodeIsDecoded(text: SocketText, bytes: Bytes)
    requires Decode(text, bytes).Ok?
    ensures Decoded(Decode(text, bytes).value)
  {}

  /** Decoding one of the packet's datagrams gives one of its parts. */
  lemma DecodesToPart(text: SocketText, session: nat, id: nat, value: Packet, mtu: nat, bytes: Bytes)
    requires RoundTrips(text) && WellTyped(value.target) && session < Power(4) && id < Power(2)
    requires Plan(text, value, mtu).Ok? && ReadsBack(text, value, mtu)
    requires FromPacket(text, session, id, value, mtu, bytes)
    ensures Decode(text, bytes).Ok?
    ensures IsPart(SentOf(text, session, id, value, mtu), Decode(text, bytes).value)
    ensures Own(SentOf(text, session, id, value, mtu), Decode(text, bytes).value)
  {
    var (address, capacity, count) := Plan(text, value, mtu).value;
    var i :| 0 <= i < count && bytes == Encoded(session, id, value, address, capacity, i);
    DecodedParts(text, session, id, value, mtu, i);
  }

  lemma {:induction false} ArrivedInTime(text: SocketText, start: nat, arrivals: seq<Arrival>)
    requires InTime(start, arrivals)
    ensures var events := Arrived(text, arrivals);
      && Timely(events) && Decodable(events)
      && (forall i :: 0 <= i < |events| ==>
            start <= events[i].now && arrivals != [] && events[i].now <= arrivals[|arrivals| - 1].now)
  {
    if arrivals != [] {
      var n := |arrivals| - 1;
      ArrivedInTime(text, start, arrivals[..n]);
      if Decode(text, arrivals[n].bytes).Ok? {
        DecodeIsDecoded(text, arrivals[n].bytes);
      }
    }
  }

  /** What arrives under the packet's identity is its parts. */
  lemma {:induction false} ArrivedAreParts(
    text: SocketText, session: nat, id: nat, value: Packet, mtu: nat, arrivals: seq<Arrival>, k: nat)
    requires RoundTrips(text) && WellTyped(value.target) && session < Power(4) && id < Power(2)
    requires Plan(text, value, mtu).Ok? && ReadsBack(text, value, mtu)
    requires forall i :: 0 <= i < |arrivals| ==> OwnIdentity(text, session, id, value, mtu, arrivals[i])
    requires k < |Arrived(text, arrivals)|
    ensures var m := SentOf(text, session, id, value, mtu);
      var part := Arrived(text, arrivals)[k].part;
      Own(m, part) ==> IsPart(m, part)
    decreases |arrivals|
  {
    var n := |arrivals| - 1;
    if k < |Arrived(text, arrivals[..n])| {
      ArrivedAreParts(text, session, id, value, mtu, arrivals[..n], k);
    } else {
      var part := Decode(text, arrivals[n].bytes);
      assert Arrived(text, arrivals)[k].part == part.value && OwnIdentity(text, session, id, value, mtu, arrivals[n]);
      if Own(SentOf(text, session, id, value, mtu), part.value) {
        DecodesToPart(text, session, id, value, mtu, arrivals[n].bytes);
      }
    }
  }

  lemma {:induction false} MakeDelivery(b: Buffer, m: Sent, start: nat, events: seq<Event>)
    requires Timely(events) && Decodable(events) && Kept(b, m, events)
    requires forall i :: 0 <= i < |events| ==> start <= events[i].now
    requires forall i :: 0 <= i < |events| ==> Own(m, events[i].part) ==> IsPart(m, events[i].part)
    ensures Delivery(b, m, start, events)
    decreases |events|
  {
    if events != [] {
      var n := |events| - 1;
      forall k | 0 <= k < n
        ensures Undisturbed(After(b, events[..n][..k]), m, events[..n][k].part, events[..n][k].now)
      {
        assert events[..n][..k] == events[..k];
      }
      MakeDelivery(b, m, start, events[..n]);
    }
  }

  /** Fragmentation round trip. Take the datagrams that `fragments` makes of a packet whose target
      reads back, let them arrive in any order and with any repeats, among any other datagrams that
      neither evict nor expire them: every one of them yields nothing until the last missing index
      arrives, and that one yields exactly the packet. */
  lemma PacketRoundTrip(
    text: SocketText, session: nat, id: nat, value: Packet, mtu: nat, b: Buffer, start: nat, arrivals: seq<Arrival>)
    requires RoundTrips(text) && WellTyped(value.target) && session < Power(4) && id < Power(2)
    requires Plan(text, value, mtu).Ok? && ReadsBack(text, value, mtu)
    requires Inv(b, start) && (session, id) !in b.pending && InTime(start, arrivals)
    requires forall i :: 0 <= i < |arrivals| ==> OwnIdentity(text, session, id, value, mtu, arrivals[i])
    requires arrivals != [] && FromPacket(text, session, id, value, mtu, arrivals[|arrivals| - 1].bytes)
    requires Decodable(Arrived(text, arrivals))
    requires Kept(b, SentOf(text, session, id, value, mtu), Arrived(text, arrivals))
    requires var m := SentOf(text, session, id, value, mtu);
      forall n :: 0 <= n < |Arrived(text, arrivals)| ==> !Complete(m, Seen(m, Arrived(text, arrivals)[..n]))
    ensures var m := SentOf(text, session, id, value, mtu);
      var events := Arrived(text, arrivals);
      && events != []
      && OutcomeOf(b, events) == if Complete(m, Seen(m, events)) then Delivered(session, value) else Nothing
  {
    var m := SentOf(text, session, id, value, mtu);
    var events := Arrived(text, arrivals);
    ArrivedInTime(text, start, arrivals);
    forall k | 0 <= k < |events|
      ensures Own(m, events[k].part) ==> IsPart(m, events[k].part)
    {
      ArrivedAreParts(text, session, id, value, mtu, arrivals, k);
    }
    DecodesToPart(text, session, id, value, mtu, arrivals[|arrivals| - 1].bytes);
    MakeDelivery(b, m, start, events);
    PiecesCover(value.payload, Plan(text, value, mtu).value.1);
    DeliversOnce(b, m, start, events);
  }
}
