/** The TUN transmit loop of crates/tun/src/endpoint.rs: queued items become device calls. The
    packet encoder is a parameter; the device may fail at any call. */
module Transmit {
  import opened Common

  const MAX_PARTS: nat := 64
  const MAX_TOTAL: nat := 65507

  datatype Peer = Peer(v4: bool, address: nat, port: nat)

  datatype Item =
    | Packet(packet: Bytes)
    | TcpGso(packet: Bytes, payload: seq<Bytes>, segmentSize: nat)
    | Datagrams(source: Peer, destination: Peer, payloads: seq<Bytes>)

  /** What the header of a UDP aggregate is built from. */
  datatype Header = Header(source: Peer, destination: Peer, size: nat, total: nat)

  datatype Call =
    | SendBatch(packets: seq<Bytes>)
    | SendTcp(packet: Bytes, payload: seq<Bytes>, segmentSize: nat)
    | SendUdp(header: Header, parts: seq<Bytes>, size: nat)

  /** The encoder: its link size, and how it encodes one datagram. Fragment identifiers make the
      encoding depend on how many datagrams were encoded before. */
  datatype Encoder = Encoder(mtu: nat, encode: (nat, Peer, Peer, Bytes) -> Option<seq<Bytes>>)

  function HeaderLength(source: Peer): nat { if source.v4 then 28 else 48 }

  predicate CanOffload(e: Encoder, source: Peer, destination: Peer, size: nat) {
    source.v4 == destination.v4 && source.port != 0 && size + HeaderLength(source) <= e.mtu
  }

  function MakeHeader(e: Encoder, source: Peer, destination: Peer, size: nat, total: nat): Option<Header> {
    if !CanOffload(e, source, destination, size) || total > (if source.v4 then 65507 else 65527) then None
    else Some(Header(source, destination, size, total))
  }

  // ---------------------------------------------------------------- what should be sent

  /** One unit of traffic, whichever call carries it. */
  datatype Unit = Raw(bytes: Bytes) | Tcp(packet: Bytes, payload: seq<Bytes>, segmentSize: nat)
    | Udp(source: Peer, destination: Peer, datagram: Bytes)

  predicate Offloads(e: Encoder, gso: bool, source: Peer, destination: Peer, payload: Bytes) {
    gso && payload != [] && CanOffload(e, source, destination, |payload|)
  }

  function Raws(packets: seq<Bytes>): (r: seq<Unit>)
    ensures |r| == |packets|
  {
    seq(|packets|, i requires 0 <= i < |packets| => Raw(packets[i]))
  }

  function Udps(source: Peer, destination: Peer, parts: seq<Bytes>): (r: seq<Unit>)
    ensures |r| == |parts|
  {
    seq(|parts|, i requires 0 <= i < |parts| => Udp(source, destination, parts[i]))
  }

  /** Datagrams from index `i` on, one by one: offloaded as they are, encoded, or dropped when they
      have no encoding. `tick` counts the encodings. */
  function DatagramUnits(e: Encoder, gso: bool, source: Peer, destination: Peer, payloads: seq<Bytes>, i: nat,
      tick: nat): seq<Unit>
    requires i <= |payloads|
    decreases |payloads| - i
  {
    if i == |payloads| then []
    else if Offloads(e, gso, source, destination, payloads[i]) then
      [Udp(source, destination, payloads[i])] + DatagramUnits(e, gso, source, destination, payloads, i + 1, tick)
    else
      EncodedUnits(e, tick, source, destination, payloads[i])
      + DatagramUnits(e, gso, source, destination, payloads, i + 1, tick + 1)
  }

  function EncodedUnits(e: Encoder, tick: nat, source: Peer, destination: Peer, payload: Bytes): seq<Unit> {
    var encoded := e.encode(tick, source, destination, payload);
    Raws(if encoded.Some? then encoded.value else [])
  }

  function DatagramTicks(e: Encoder, gso: bool, source: Peer, destination: Peer, payloads: seq<Bytes>, i: nat,
      tick: nat): nat
    requires i <= |payloads|
    decreases |payloads| - i
  {
    if i == |payloads| then tick
    else
      DatagramTicks(e, gso, source, destination, payloads, i + 1,
                    if Offloads(e, gso, source, destination, payloads[i]) then tick else tick + 1)
  }

  function ItemUnits(e: Encoder, gso: bool, item: Item, tick: nat): seq<Unit> {
    match item
    case Packet(packet) => [Raw(packet)]
    case TcpGso(packet, payload, segmentSize) => [Tcp(packet, payload, segmentSize)]
    case Datagrams(source, destination, payloads) => DatagramUnits(e, gso, source, destination, payloads, 0, tick)
  }

  function ItemTicks(e: Encoder, gso: bool, item: Item, tick: nat): nat {
    if item.Datagrams? then DatagramTicks(e, gso, item.source, item.destination, item.payloads, 0, tick) else tick
  }

  /** How many encodings the items take. */
  function Ticks(e: Encoder, gso: bool, items: seq<Item>): nat {
    if items == [] then 0 else ItemTicks(e, gso, items[|items| - 1], Ticks(e, gso, items[..|items| - 1]))
  }

  /** Everything the items ask for, in order. */
  function Expected(e: Encoder, gso: bool, items: seq<Item>): seq<Unit> {
    if items == [] then []
    else
      Expected(e, gso, items[..|items| - 1])
      + ItemUnits(e, gso, items[|items| - 1], Ticks(e, gso, items[..|items| - 1]))
  }

  /** The expected traffic and the encodings after each item. */
  datatype Mark = Mark(units: seq<Unit>, ticks: nat)

  predicate Follows(e: Encoder, gso: bool, item: Item, m: Mark, n: Mark) {
    n == Mark(m.units + ItemUnits(e, gso, item, m.ticks), ItemTicks(e, gso, item, m.ticks))
  }

  predicate Marks(e: Encoder, gso: bool, items: seq<Item>, marks: seq<Mark>) {
    && |marks| == |items| + 1 && marks[0] == Mark([], 0)
    && forall i :: 0 <= i < |items| ==> Follows(e, gso, items[i], marks[i], marks[i + 1])
  }

  lemma ExpectedStep(e: Encoder, gso: bool, items: seq<Item>)
    requires items != []
    ensures var n := |items| - 1;
      Follows(e, gso, items[n], Mark(Expected(e, gso, items[..n]), Ticks(e, gso, items[..n])),
              Mark(Expected(e, gso, items), Ticks(e, gso, items)))
  {}

  lemma MarksAppend(e: Encoder, gso: bool, items: seq<Item>, before: seq<Mark>, last: Mark)
    requires items != [] && Marks(e, gso, items[..|items| - 1], before)
    requires Follows(e, gso, items[|items| - 1], before[|items| - 1], last)
    ensures Marks(e, gso, items, before + [last])
  {
    var marks := before + [last];
    forall i | 0 <= i < |items|
      ensures Follows(e, gso, items[i], marks[i], marks[i + 1])
    {
      if i < |items| - 1 {
        assert items[..|items| - 1][i] == items[i];
      }
    }
  }

  lemma {:induction false} MarksOf(e: Encoder, gso: bool, items: seq<Item>) returns (marks: seq<Mark>)
    ensures Marks(e, gso, items, marks)
    ensures marks[|items|] == Mark(Expected(e, gso, items), Ticks(e, gso, items))
    decreases |items|
  {
    if items == [] {
      marks := [Mark([], 0)];
    } else {
      var before := MarksOf(e, gso, items[..|items| - 1]);
      var last := Mark(Expected(e, gso, items), Ticks(e, gso, items));
      ExpectedStep(e, gso, items);
      MarksAppend(e, gso, items, before, last);
      marks := before + [last];
    }
  }

  lemma {:induction false} MarksGrow(e: Encoder, gso: bool, items: seq<Item>, marks: seq<Mark>, m: nat, n: nat)
    requires Marks(e, gso, items, marks) && m <= n <= |items|
    ensures marks[m].units <= marks[n].units
    decreases n
  {
    if m < n {
      MarksGrow(e, gso, items, marks, m, n - 1);
      assert Follows(e, gso, items[n - 1], marks[n - 1], marks[n]);
    }
  }

  // ---------------------------------------------------------------- what was sent

  function CallUnits(call: Call): seq<Unit> {
    match call
    case SendBatch(packets) => Raws(packets)
    case SendTcp(packet, payload, segmentSize) => [Tcp(packet, payload, segmentSize)]
    case SendUdp(header, parts, _) => Udps(header.source, header.destination, parts)
  }

  function Flatten(calls: seq<Call>): seq<Unit> {
    if calls == [] then [] else Flatten(calls[..|calls| - 1]) + CallUnits(calls[|calls| - 1])
  }

  /** At most 64 datagrams of one size that the header describes; more than one only while the
      total stays within the limit. */
  predicate AggregateOk(e: Encoder, call: Call) {
    call.SendUdp? ==>
      && 1 <= |call.parts| <= MAX_PARTS && call.size > 0
      && (forall i :: 0 <= i < |call.parts| ==> |call.parts[i]| == call.size)
      && call.header.size == call.size && call.header.total == Lengths(call.parts)
      && (|call.parts| > 1 ==> call.header.total <= MAX_TOTAL)
      && CanOffload(e, call.header.source, call.header.destination, call.size)
  }

  predicate AggregatesOk(e: Encoder, calls: seq<Call>) { forall i :: 0 <= i < |calls| ==> AggregateOk(e, calls[i]) }

  function Lengths(parts: seq<Bytes>): nat {
    if parts == [] then 0 else Lengths(parts[..|parts| - 1]) + |parts[|parts| - 1]|
  }

  function CallPackets(call: Call): nat {
    match call
    case SendBatch(packets) => |packets|
    case SendTcp(_, _, _) => 1
    case SendUdp(_, parts, _) => |parts|
  }

  /** What the segments of an aggregate take on the link, each with its own header. */
  function Segments(header: nat, parts: seq<Bytes>): nat {
    if parts == [] then 0 else Segments(header, parts[..|parts| - 1]) + header + |parts[|parts| - 1]|
  }

  function CallBytes(call: Call): nat {
    match call
    case SendBatch(packets) => Lengths(packets)
    case SendTcp(packet, payload, _) => |packet| + Lengths(payload)
    case SendUdp(header, parts, _) => Segments(HeaderLength(header.source), parts)
  }

  function PacketsIn(calls: seq<Call>): nat {
    if calls == [] then 0 else PacketsIn(calls[..|calls| - 1]) + CallPackets(calls[|calls| - 1])
  }

  function BytesIn(calls: seq<Call>): nat {
    if calls == [] then 0 else BytesIn(calls[..|calls| - 1]) + CallBytes(calls[|calls| - 1])
  }

  lemma CallAppend(calls: seq<Call>, call: Call)
    ensures Flatten(calls + [call]) == Flatten(calls) + CallUnits(call)
    ensures PacketsIn(calls + [call]) == PacketsIn(calls) + CallPackets(call)
    ensures BytesIn(calls + [call]) == BytesIn(calls) + CallBytes(call)
  {
    assert (calls + [call])[..|calls|] == calls;
  }

  lemma AggregatesAppend(e: Encoder, calls: seq<Call>, call: Call)
    requires AggregatesOk(e, calls) && AggregateOk(e, call)
    ensures AggregatesOk(e, calls + [call])
  {}

  lemma RawsAppend(a: seq<Bytes>, b: seq<Bytes>)
    ensures Raws(a + b) == Raws(a) + Raws(b)
  {}

  lemma PrefixOfSum(a: seq<Unit>, b: seq<Unit>)
    ensures a <= a + b
  {}

  lemma NothingLeft(a: seq<Unit>)
    ensures a + [] == a
  {}

  lemma Join(a: seq<Unit>, b: seq<Unit>, c: seq<Unit>)
    ensures a + b + c == a + (b + c)
  {}

  /** Parts of one size. */
  lemma {:induction false} EqualParts(parts: seq<Bytes>, size: nat, header: nat)
    requires forall j :: 0 <= j < |parts| ==> |parts[j]| == size
    ensures Lengths(parts) == size * |parts| && Segments(header, parts) == header * |parts| + size * |parts|
  {
    if parts != [] {
      EqualParts(parts[..|parts| - 1], size, header);
      Distribute(size, |parts| - 1);
      Distribute(header, |parts| - 1);
    }
  }

  lemma Distribute(a: nat, n: nat)
    ensures a * (n + 1) == a * n + a
  {}

  // ---------------------------------------------------------------- aggregation

  /** Datagrams of one offloadable size in a row are sent as they are. */
  lemma {:induction false} RowUnits(e: Encoder, gso: bool, source: Peer, destination: Peer, payloads: seq<Bytes>,
      i: nat, tick: nat, k: nat)
    requires i + k <= |payloads| && forall j :: i <= j < i + k ==> Offloads(e, gso, source, destination, payloads[j])
    ensures DatagramUnits(e, gso, source, destination, payloads, i, tick)
         == Udps(source, destination, payloads[i..i + k])
           + DatagramUnits(e, gso, source, destination, payloads, i + k, tick)
    ensures DatagramTicks(e, gso, source, destination, payloads, i, tick)
         == DatagramTicks(e, gso, source, destination, payloads, i + k, tick)
    decreases k
  {
    if k == 0 {
      assert Udps(source, destination, payloads[i..i]) == [];
    } else {
      RowUnits(e, gso, source, destination, payloads, i + 1, tick, k - 1);
      FirstUdp(source, destination, payloads, i, i + k);
      Join([Udp(source, destination, payloads[i])], Udps(source, destination, payloads[i + 1..i + k]),
           DatagramUnits(e, gso, source, destination, payloads, i + k, tick));
    }
  }

  lemma FirstUdp(source: Peer, destination: Peer, payloads: seq<Bytes>, i: nat, j: nat)
    requires i < j <= |payloads|
    ensures Udps(source, destination, payloads[i..j])
         == [Udp(source, destination, payloads[i])] + Udps(source, destination, payloads[i + 1..j])
  {}

  /** How many datagrams one aggregate takes: as many as follow with the same size, up to 64 and
      while the total stays within the limit. */
  method Gather(payloads: seq<Bytes>, i: nat) returns (parts: seq<Bytes>)
    requires i < |payloads| && payloads[i] != []
    ensures 1 <= |parts| <= MAX_PARTS && i + |parts| <= |payloads| && parts == payloads[i..i + |parts|]
    ensures forall j :: i <= j < i + |parts| ==> |payloads[j]| == |payloads[i]|
    ensures |parts| > 1 ==> |payloads[i]| * |parts| <= MAX_TOTAL
    ensures |parts| < MAX_PARTS && i + |parts| < |payloads| && |payloads[i + |parts|]| == |payloads[i]| ==>
      |payloads[i]| * (|parts| + 1) > MAX_TOTAL
  {
    var size := |payloads[i]|;
    parts := [payloads[i]];
    while |parts| < MAX_PARTS && (|parts| + 1) * size <= MAX_TOTAL
      invariant 1 <= |parts| <= MAX_PARTS && i + |parts| <= |payloads| && parts == payloads[i..i + |parts|]
      invariant forall j :: i <= j < i + |parts| ==> |payloads[j]| == size
      invariant |parts| > 1 ==> |parts| * size <= MAX_TOTAL
    {
      if i + |parts| == |payloads| || |payloads[i + |parts|]| != size {
        break;
      }
      parts := parts + [payloads[i + |parts|]];
    }
  }

  /** A gathered aggregate always gets its header. */
  lemma HeaderFits(e: Encoder, source: Peer, destination: Peer, size: nat, parts: nat)
    requires e.mtu <= 65535 && CanOffload(e, source, destination, size) && 1 <= parts &&
      (parts > 1 ==> size * parts <= MAX_TOTAL)
    ensures MakeHeader(e, source, destination, size, size * parts).Some?
  {
    if parts == 1 {
      assert size * parts == size;
    }
  }

  // ---------------------------------------------------------------- the loop

  class Transmitter {
    const encoder: Encoder
    const gso: bool
    var script: seq<bool>       // which of the coming device calls fail
    var calls: seq<Call>        // the calls that succeeded
    var packets: seq<Bytes>
    var tick: nat
    var sentPackets: nat
    var sentBytes: nat

    /** What was sent or waits in `packets`. */
    function Emitted(): seq<Unit>
      reads this
    {
      Flatten(calls) + Raws(packets)
    }

    predicate Counted()
      reads this
    {
      AggregatesOk(encoder, calls) && sentPackets == PacketsIn(calls) && sentBytes == BytesIn(calls) &&
        encoder.mtu <= 65535
    }

    constructor (encoder: Encoder, gso: bool, script: seq<bool>)
      requires encoder.mtu <= 65535
      ensures Counted() && calls == [] && tick == 0 && packets == [] && this.encoder == encoder && this.gso == gso
    {
      this.encoder, this.gso, this.script := encoder, gso, script;
      calls, packets, tick, sentPackets, sentBytes := [], [], 0, 0, 0;
    }

    /** One device call with its counters; a failed call changes nothing but the script. */
    method Send(call: Call, octets: nat) returns (ok: bool)
      requires Counted() && AggregateOk(encoder, call) && octets == CallBytes(call)
      modifies this`script, this`calls, this`sentPackets, this`sentBytes
      ensures Counted()
      ensures ok ==> calls == old(calls) + [call] && Flatten(calls) == old(Flatten(calls)) + CallUnits(call)
      ensures !ok ==> calls == old(calls)
    {
      var fails := script != [] && script[0];
      script := if script == [] then [] else script[1..];
      if fails {
        return false;
      }
      CallAppend(calls, call);
      AggregatesAppend(encoder, calls, call);
      calls := calls + [call];
      sentPackets := sentPackets + CallPackets(call);
      sentBytes := sentBytes + octets;
      ok := true;
    }

    method SendPackets() returns (ok: bool)
      requires Counted()
      modifies this`script, this`calls, this`sentPackets, this`sentBytes, this`packets
      ensures Counted() && Emitted() == old(Emitted()) && (ok ==> packets == [])
    {
      ok := Send(SendBatch(packets), Lengths(packets));
      if ok {
        packets := [];
        NothingWaits(Flatten(calls), packets);
      }
    }

    /** Sends what waits first, so that the order of traffic is kept. */
    method SendAfterPackets(call: Call, octets: nat) returns (ok: bool)
      requires Counted() && AggregateOk(encoder, call) && octets == CallBytes(call)
      modifies this`script, this`calls, this`sentPackets, this`sentBytes, this`packets
      ensures Counted()
      ensures Emitted() == if ok then old(Emitted()) + CallUnits(call) else old(Emitted())
    {
      if packets != [] {
        ok := SendPackets();
        if !ok {
          return;
        }
      }
      NothingWaits(Flatten(calls), packets);
      ok := Send(call, octets);
      NothingWaits(Flatten(calls), packets);
    }

    method SendDatagrams(source: Peer, destination: Peer, payloads: seq<Bytes>) returns (ok: bool)
      requires Counted()
      modifies this
      ensures Counted()
      ensures ok ==>
        && Emitted() == old(Emitted()) + DatagramUnits(encoder, gso, source, destination, payloads, 0, old(tick))
        && tick == DatagramTicks(encoder, gso, source, destination, payloads, 0, old(tick))
      ensures !ok ==>
        Emitted() <= old(Emitted()) + DatagramUnits(encoder, gso, source, destination, payloads, 0, old(tick))
    {
      var i := 0;
      ok := true;
      ghost var wanted := Mark(Emitted() + DatagramUnits(encoder, gso, source, destination, payloads, 0, tick),
                               DatagramTicks(encoder, gso, source, destination, payloads, 0, tick));
      while i < |payloads|
        invariant i <= |payloads| && Counted() && ok && Reaches(source, destination, payloads, i, wanted)
      {
        var n;
        ok, n := SendOn(source, destination, payloads, i, wanted);
        if !ok {
          return;
        }
        i := i + n;
      }
      AllSent(source, destination, payloads, wanted);
    }

    lemma AllSent(source: Peer, destination: Peer, payloads: seq<Bytes>, wanted: Mark)
      requires Reaches(source, destination, payloads, |payloads|, wanted)
      ensures wanted == Mark(Emitted(), tick)
    {
      NothingLeft(Emitted());
    }

    /** One iteration: what is still asked for shrinks by what is sent. */
    method SendOn(source: Peer, destination: Peer, payloads: seq<Bytes>, i: nat, ghost wanted: Mark)
      returns (ok: bool, n: nat)
      requires Counted() && i < |payloads| && Reaches(source, destination, payloads, i, wanted)
      modifies this
      ensures Counted() && 1 <= n <= |payloads| - i
      ensures ok ==> Reaches(source, destination, payloads, i + n, wanted)
      ensures !ok ==> Emitted() <= wanted.units
    {
      PrefixOfSum(Emitted(), DatagramUnits(encoder, gso, source, destination, payloads, i, tick));
      ok, n := SendNext(source, destination, payloads, i);
    }

    /** What was emitted and what the datagrams from `i` on still ask for add up. */
    ghost predicate Reaches(source: Peer, destination: Peer, payloads: seq<Bytes>, i: nat, wanted: Mark)
      requires i <= |payloads|
      reads this
    {
      wanted == Mark(Emitted() + DatagramUnits(encoder, gso, source, destination, payloads, i, tick),
                     DatagramTicks(encoder, gso, source, destination, payloads, i, tick))
    }

    method SendAggregate(source: Peer, destination: Peer, payloads: seq<Bytes>, i: nat) returns (ok: bool, n: nat)
      requires Counted() && i < |payloads| && Offloads(encoder, gso, source, destination, payloads[i])
      modifies this`script, this`calls, this`sentPackets, this`sentBytes, this`packets
      ensures Counted() && 1 <= n <= |payloads| - i
      ensures forall j :: i <= j < i + n ==> Offloads(encoder, gso, source, destination, payloads[j])
      ensures Emitted() == if ok then old(Emitted()) + Udps(source, destination, payloads[i..i + n]) else old(Emitted())
    {
      var size := |payloads[i]|;
      var parts := Gather(payloads, i);
      n := |parts|;
      forall j | 0 <= j < n
        ensures |parts[j]| == size
      {
        assert parts[j] == payloads[i + j];
      }
      EqualParts(parts, size, HeaderLength(source));
      HeaderFits(encoder, source, destination, size, n);
      var header := MakeHeader(encoder, source, destination, size, size * n).value;
      ok := SendAfterPackets(SendUdp(header, parts, size), HeaderLength(source) * n + size * n);
    }

    /** A datagram without an encoding is dropped. */
    method EncodeOne(source: Peer, destination: Peer, payload: Bytes)
      requires Counted()
      modifies this`packets, this`tick
      ensures Counted() && tick == old(tick) + 1
      ensures Emitted() == old(Emitted()) + EncodedUnits(encoder, old(tick), source, destination, payload)
    {
      var encoded := encoder.encode(tick, source, destination, payload);
      tick := tick + 1;
      if encoded.Some? {
        RawsAppend(packets, encoded.value);
        Join(Flatten(calls), Raws(packets), Raws(encoded.value));
        packets := packets + encoded.value;
      } else {
        assert Emitted() + [] == Emitted();
      }
    }

    /** One aggregate, or one encoded datagram. */
    method SendNext(source: Peer, destination: Peer, payloads: seq<Bytes>, i: nat) returns (ok: bool, n: nat)
      requires Counted() && i < |payloads|
      modifies this
      ensures Counted() && 1 <= n <= |payloads| - i
      ensures ok ==>
        && Emitted() + DatagramUnits(encoder, gso, source, destination, payloads, i + n, tick)
           == old(Emitted()) + DatagramUnits(encoder, gso, source, destination, payloads, i, old(tick))
        && DatagramTicks(encoder, gso, source, destination, payloads, i + n, tick)
           == DatagramTicks(encoder, gso, source, destination, payloads, i, old(tick))
      ensures !ok ==> Emitted() == old(Emitted())
    {
      ghost var emitted := Emitted();
      if gso && |payloads[i]| != 0 && CanOffload(encoder, source, destination, |payloads[i]|) {
        ok, n := SendAggregate(source, destination, payloads, i);
        RowUnits(encoder, gso, source, destination, payloads, i, tick, n);
        Join(emitted, Udps(source, destination, payloads[i..i + n]),
          DatagramUnits(encoder, gso, source, destination, payloads, i + n, tick));
      } else {
        ghost var units := EncodedUnits(encoder, tick, source, destination, payloads[i]);
        EncodeOne(source, destination, payloads[i]);
        ok, n := true, 1;
        Join(emitted, units, DatagramUnits(encoder, gso, source, destination, payloads, i + 1, tick));
      }
    }

    method SendItem(item: Item) returns (ok: bool)
      requires Counted()
      modifies this
      ensures Counted()
      ensures ok ==>
        && Emitted() == old(Emitted()) + ItemUnits(encoder, gso, item, old(tick))
        && tick == ItemTicks(encoder, gso, item, old(tick))
      ensures !ok ==> Emitted() <= old(Emitted()) + ItemUnits(encoder, gso, item, old(tick))
    {
      match item
      case Packet(packet) =>
        RawsAppend(packets, [packet]);
        Join(Flatten(calls), Raws(packets), Raws([packet]));
        packets := packets + [packet];
        ok := true;
      case TcpGso(packet, payload, segmentSize) =>
        ok := SendAfterPackets(SendTcp(packet, payload, segmentSize), |packet| + Lengths(payload));
      case Datagrams(source, destination, payloads) => ok := SendDatagrams(source, destination, payloads);
    }

    /** A batch that lies at `first` among all items that are ever queued. */
    method SendEach(ghost all: seq<Item>, ghost marks: seq<Mark>, ghost first: nat, batch: seq<Item>) returns (ok: bool)
      requires Counted() && Marks(encoder, gso, all, marks)
      requires first + |batch| <= |all| && all[first..first + |batch|] == batch && Mark(Emitted(), tick) == marks[first]
      modifies this
      ensures Counted()
      ensures ok ==> Mark(Emitted(), tick) == marks[first + |batch|]
      ensures !ok ==> Emitted() <= marks[|all|].units
    {
      ok := true;
      for i := 0 to |batch|
        invariant ok && Counted() && Mark(Emitted(), tick) == marks[first + i]
      {
        assert batch[i] == all[first + i] &&
          Follows(encoder, gso, all[first + i], marks[first + i], marks[first + i + 1]);
        ok := SendItem(batch[i]);
        if !ok {
          MarksGrow(encoder, gso, all, marks, first + i + 1, |all|);
          return;
        }
      }
    }

    /** One batch from the queue, then whatever still waits. */
    method SendItems(ghost all: seq<Item>, ghost marks: seq<Mark>, ghost first: nat, batch: seq<Item>)
        returns (ok: bool)
      requires Counted() && Marks(encoder, gso, all, marks)
      requires first + |batch| <= |all| && all[first..first + |batch|] == batch
      requires packets == [] && Mark(Flatten(calls), tick) == marks[first]
      modifies this
      ensures Counted()
      ensures ok ==> packets == [] && Mark(Flatten(calls), tick) == marks[first + |batch|]
      ensures !ok ==> Flatten(calls) <= marks[|all|].units
    {
      NothingWaits(Flatten(calls), packets);
      ok := SendEach(all, marks, first, batch);
      if ok {
        ok := SendPackets();
        MarksGrow(encoder, gso, all, marks, first + |batch|, |all|);
      }
      if ok {
        NothingWaits(Flatten(calls), packets);
      } else {
        SentIsShorter(Flatten(calls), Raws(packets), marks[|all|].units);
      }
    }
  }

  /** Batch after batch until the queue is closed. */
  method SendBatches(t: Transmitter, ghost marks: seq<Mark>, batches: seq<seq<Item>>) returns (ok: bool)
    requires t.Counted() && Marks(t.encoder, t.gso, Concat(batches), marks) && t.packets == []
    requires Mark(Flatten(t.calls), t.tick) == marks[0]
    modifies t
    ensures t.Counted()
    ensures ok ==> Flatten(t.calls) == marks[|Concat(batches)|].units
    ensures !ok ==> Flatten(t.calls) <= marks[|Concat(batches)|].units
  {
    ghost var all, first := Concat(batches), 0;
    ok := true;
    for i := 0 to |batches|
      invariant ok && t.Counted() && t.packets == []
      invariant first == |Concat(batches[..i])| <= |all| && Mark(Flatten(t.calls), t.tick) == marks[first]
    {
      BatchAt(batches, i);
      ok := t.SendItems(all, marks, first, batches[i]);
      if !ok {
        return;
      }
      first := first + |batches[i]|;
    }
    assert batches[..|batches|] == batches;
  }

  lemma SentIsShorter(sent: seq<Unit>, waiting: seq<Unit>, all: seq<Unit>)
    requires sent + waiting <= all
    ensures sent <= all
  {}

  lemma NothingWaits(sent: seq<Unit>, packets: seq<Bytes>)
    requires packets == []
    ensures sent + Raws(packets) == sent
  {}

  function Concat(batches: seq<seq<Item>>): seq<Item> {
    if batches == [] then [] else Concat(batches[..|batches| - 1]) + batches[|batches| - 1]
  }

  /** Where a batch lies among all items. */
  lemma {:induction false} BatchAt(batches: seq<seq<Item>>, i: nat)
    requires i < |batches|
    ensures var first := |Concat(batches[..i])|;
      && first + |batches[i]| == |Concat(batches[..i + 1])| <= |Concat(batches)|
      && Concat(batches)[first..first + |batches[i]|] == batches[i]
    decreases |batches|
  {
    var n := |batches| - 1;
    assert batches[..i + 1][..i] == batches[..i];
    if i == n {
      assert batches[..i + 1] == batches;
    } else {
      BatchAt(batches[..n], i);
      assert batches[..n][..i] == batches[..i] && batches[..n][..i + 1] == batches[..i + 1];
    }
  }

  /** The whole worker: what reaches the device, flattened, is what the items ask for, in order and
      once each; after a device failure it is a prefix of that. */
  method Run(encoder: Encoder, gso: bool, script: seq<bool>, batches: seq<seq<Item>>)
    returns (ok: bool, calls: seq<Call>, sentPackets: nat, sentBytes: nat)
    requires encoder.mtu <= 65535
    ensures ok ==> Flatten(calls) == Expected(encoder, gso, Concat(batches))
    ensures !ok ==> Flatten(calls) <= Expected(encoder, gso, Concat(batches))
    ensures AggregatesOk(encoder, calls) && sentPackets == PacketsIn(calls) && sentBytes == BytesIn(calls)
  {
    var t := new Transmitter(encoder, gso, script);
    ghost var marks := MarksOf(encoder, gso, Concat(batches));
    ok := SendBatches(t, marks, batches);
    calls, sentPackets, sentBytes := t.calls, t.sentPackets, t.sentBytes;
  }
}
