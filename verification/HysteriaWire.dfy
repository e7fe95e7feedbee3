/** Datagram framing of crates/hysteria2/src/wire.rs: variable-length integers (section 16 of
    RFC 9000), fragmentation and decoding of one fragment. */
module HysteriaWire {
  import opened Common
  import opened HysteriaText

  const MAX_PAYLOAD: nat := 65507
  const MAX_VARINT: nat := 0x4000_0000_0000_0000

  datatype Packet = Packet(target: Target, payload: Bytes)

  datatype Fragment = Fragment(
    session: nat, packet: nat, index: nat, count: nat, target: Target, payload: Bytes)

  // ---------------------------------------------------------------- big-endian integers

  function Power(n: nat): nat { if n == 0 then 1 else 256 * Power(n - 1) }

  function ToBytes(value: nat, n: nat): (s: Bytes)
    ensures |s| == n
  {
    if n == 0 then [] else ToBytes(value / 256, n - 1) + [value % 256]
  }

  function FromBytes(s: Bytes): nat {
    if s == [] then 0 else FromBytes(s[..|s| - 1]) * 256 + s[|s| - 1] as nat
  }

  lemma {:induction false} BytesRoundTrip(value: nat, n: nat)
    requires value < Power(n)
    ensures FromBytes(ToBytes(value, n)) == value
  {
    if n > 0 {
      assert value / 256 < Power(n - 1);
      BytesRoundTrip(value / 256, n - 1);
      assert ToBytes(value, n)[..n - 1] == ToBytes(value / 256, n - 1);
    }
  }

  // ---------------------------------------------------------------- varints

  /** Big-endian, with the length in the two high bits of the first byte. */
  function WithLength(value: nat, tag: nat): Bytes
    requires tag < 4 && value < 64 * Power(Extra(tag))
  {
    var s := ToBytes(value, Extra(tag) + 1);
    TopFits(value, Extra(tag));
    s[0 := s[0] + tag * 64]
  }

  function Extra(tag: nat): nat
    requires tag < 4
  {
    if tag == 0 then 0 else if tag == 1 then 1 else if tag == 2 then 3 else 7
  }

  lemma Powers()
    ensures Power(0) == 1 && Power(1) == 0x100 && Power(2) == 0x1_0000 && Power(3) == 0x100_0000
    ensures Power(4) == 0x1_0000_0000 && Power(7) == 0x100_0000_0000_0000
  {
    assert Power(2) == 256 * Power(1);
    assert Power(3) == 256 * Power(2);
    assert Power(4) == 256 * Power(3);
    assert Power(5) == 256 * Power(4);
    assert Power(6) == 256 * Power(5);
    assert Power(7) == 256 * Power(6);
  }

  lemma {:induction false} TopFits(value: nat, n: nat)
    requires value < 64 * Power(n)
    ensures ToBytes(value, n + 1)[0] < 64 && value < Power(n + 1)
  {
    if n > 0 {
      assert value / 256 < 64 * Power(n - 1);
      TopFits(value / 256, n - 1);
    } else {
      assert ToBytes(value, 1) == ToBytes(value / 256, 0) + [value % 256];
    }
  }

  /** The shortest form. */
  function Varint(value: nat): Result<Bytes, Error> {
    Powers();
    if value < 0x40 then Ok(WithLength(value, 0))
    else if value < 0x4000 then Ok(WithLength(value, 1))
    else if value < 0x4000_0000 then Ok(WithLength(value, 2))
    else if value < MAX_VARINT then Ok(WithLength(value, 3))
    else Err(InvalidLength)
  }

  /** Reads one varint and returns what follows it. */
  function DecodeVarint(s: Bytes): Option<(nat, Bytes)> {
    if s == [] then None
    else
      var extra := Extra(s[0] / 64);
      if |s| < 1 + extra then None
      else Some((FromBytes([s[0] % 64] + s[1..1 + extra]), s[1 + extra..]))
  }

  lemma DecodeTagged(tag: nat, plain: Bytes, rest: Bytes)
    requires tag < 4 && |plain| == 1 + Extra(tag) && plain[0] < 64
    ensures DecodeVarint(plain[0 := plain[0] + tag * 64] + rest) == Some((FromBytes(plain), rest))
  {
    var s := plain[0 := plain[0] + tag * 64] + rest;
    assert s[0] / 64 == tag && s[0] % 64 == plain[0];
    assert [plain[0]] + s[1..|plain|] == plain && s[|plain|..] == rest;
  }

  /** Every encoding, minimal or not, decodes to its value and leaves the rest alone. */
  lemma LengthRoundTrip(value: nat, tag: nat, rest: Bytes)
    requires tag < 4 && value < 64 * Power(Extra(tag))
    ensures DecodeVarint(WithLength(value, tag) + rest) == Some((value, rest))
  {
    TopFits(value, Extra(tag));
    BytesRoundTrip(value, Extra(tag) + 1);
    DecodeTagged(tag, ToBytes(value, Extra(tag) + 1), rest);
  }

  lemma DivMod(value: nat, unit: nat)
    requires unit > 0
    ensures value / unit * unit + value % unit == value
  {}

  lemma VarintRoundTrip(value: nat, rest: Bytes)
    ensures Varint(value).Ok? <==> value < MAX_VARINT
    ensures Varint(value).Ok? ==> DecodeVarint(Varint(value).value + rest) == Some((value, rest))
  {
    Powers();
    if value < 0x40 {
      LengthRoundTrip(value, 0, rest);
    } else if value < 0x4000 {
      LengthRoundTrip(value, 1, rest);
    } else if value < 0x4000_0000 {
      LengthRoundTrip(value, 2, rest);
    } else if value < MAX_VARINT {
      LengthRoundTrip(value, 3, rest);
    }
  }

  // ---------------------------------------------------------------- fragments

  /** Everything before the payload. */
  function Header(session: nat, packet: nat, index: byte, count: byte, address: Bytes): Bytes
    requires |address| <= MAX_ADDRESS
  {
    Layout(ToBytes(session, 4) + ToBytes(packet, 2), index, count, Tail(address))
  }

  /** Six fixed bytes, the two that change from fragment to fragment, and the rest. */
  function Layout(fixed: Bytes, index: byte, count: byte, tail: Bytes): Bytes { fixed + [index, count] + tail }

  /** The two bytes `fragments` rewrites. */
  lemma Rewrite(fixed: Bytes, a: byte, b: byte, tail: Bytes, c: byte)
    requires |fixed| == 6
    ensures |Layout(fixed, a, b, tail)| == 8 + |tail|
    ensures Layout(fixed, a, b, tail)[6 := c] == Layout(fixed, c, b, tail)
    ensures Layout(fixed, a, b, tail)[7 := c] == Layout(fixed, a, c, tail)
  {}

  function Tail(address: Bytes): Bytes
    requires |address| <= MAX_ADDRESS
  {
    Varint(|address|).value + address
  }

  function Capacity(address: Bytes, mtu: nat): int
    requires |address| <= MAX_ADDRESS
  {
    mtu - |Header(0, 0, 0, 1, address)|
  }

  /** Pieces of `capacity` bytes, at least one even for an empty payload. */
  function Count(length: nat, capacity: nat): (n: nat)
    requires capacity > 0
    ensures n >= 1 && (n - 1) * capacity <= length <= n * capacity
  {
    var n := (length + capacity - 1) / capacity;
    CeilBounds(length, capacity, n);
    if n == 0 then 1 else n
  }

  lemma CeilBounds(length: nat, capacity: nat, n: nat)
    requires capacity > 0 && n == (length + capacity - 1) / capacity
    ensures length <= n * capacity && (n > 0 ==> (n - 1) * capacity <= length) && (n == 0 ==> length == 0)
  {
    var total := length + capacity - 1;
    DivMod(total, capacity);
    assert (n - 1) * capacity == n * capacity - capacity;
  }

  function Piece(payload: Bytes, capacity: nat, index: nat): Bytes
    requires index * capacity <= |payload|
  {
    var end := index * capacity + capacity;
    payload[index * capacity..if end < |payload| then end else |payload|]
  }

  lemma StartsInside(length: nat, capacity: nat, index: nat)
    requires capacity > 0 && index < Count(length, capacity)
    ensures index * capacity <= length
  {
    var n := Count(length, capacity);
    assert index * capacity <= (n - 1) * capacity by {
      Multiply(index, n - 1, capacity);
    }
  }

  lemma Multiply(a: nat, b: nat, c: nat)
    requires a <= b
    ensures a * c <= b * c
  {}

  /** What `fragments` rejects, in its order. */
  function Plan(text: SocketText, value: Packet, mtu: nat): (r: Result<(Bytes, nat, nat), Error>)
    ensures r.Ok? ==>
      |r.value.0| <= MAX_ADDRESS && r.value.1 > 0 && r.value.2 == Count(|value.payload|, r.value.1) <= 255
  {
    if |value.payload| > MAX_PAYLOAD then Err(PayloadTooLong)
    else
      var address := Address(text, value.target);
      if address.Err? then Err(address.error)
      else if Capacity(address.value, mtu) <= 0 then Err(TooSmall)
      else
        var capacity := Capacity(address.value, mtu);
        if Count(|value.payload|, capacity) > 255 then Err(TooMany)
        else Ok((address.value, capacity, Count(|value.payload|, capacity)))
  }

  function Encoded(session: nat, packet: nat, value: Packet, address: Bytes, capacity: nat, index: nat): Bytes
    requires |address| <= MAX_ADDRESS && capacity > 0
    requires index < Count(|value.payload|, capacity) <= 255
  {
    StartsInside(|value.payload|, capacity, index);
    Header(session, packet, index, Count(|value.payload|, capacity), address) + Piece(value.payload, capacity, index)
  }

  /** The loop of `fragments`: one header, rewritten for each piece. */
  method Emit(fixed: Bytes, tail: Bytes, count: byte, payload: Bytes, capacity: nat) returns (r: seq<Bytes>)
    requires |fixed| == 6 && capacity > 0 && count == Count(|payload|, capacity)
    ensures |r| == count
    ensures forall i :: 0 <= i < count ==>
      i * capacity <= |payload| && r[i] == Layout(fixed, i, count, tail) + Piece(payload, capacity, i) &&
        |r[i]| <= 8 + |tail| + capacity
  {
    var header := Layout(fixed, 0, count, tail);
    r := [];
    for index := 0 to count
      invariant |r| == index && header == Layout(fixed, if index == 0 then 0 else index - 1, count, tail)
      invariant forall i :: 0 <= i < index ==>
        i * capacity <= |payload| && r[i] == Layout(fixed, i, count, tail) + Piece(payload, capacity, i) &&
          |r[i]| <= 8 + |tail| + capacity
    {
      Rewrite(fixed, if index == 0 then 0 else index - 1, count, tail, index);
      header := header[6 := index];
      StartsInside(|payload|, capacity, index);
      var start := index * capacity;
      var end := if start + capacity < |payload| then start + capacity else |payload|;
      assert payload[start..end] == Piece(payload, capacity, index);
      r := r + [header + payload[start..end]];
    }
  }

  /** `fragments`. */
  method Fragments(text: SocketText, session: nat, packet: nat, value: Packet, mtu: nat)
      returns (r: Result<seq<Bytes>, Error>)
    ensures r.Ok? <==> Plan(text, value, mtu).Ok?
    ensures r.Err? ==> r.error == Plan(text, value, mtu).error
    ensures r.Ok? ==>
      var (address, capacity, count) := Plan(text, value, mtu).value;
      |r.value| == count
      && (forall i :: 0 <= i < count ==> r.value[i] == Encoded(session, packet, value, address, capacity, i))
      && (forall i :: 0 <= i < count ==> |r.value[i]| <= mtu)
  {
    if |value.payload| > MAX_PAYLOAD {
      return Err(PayloadTooLong);
    }
    var address := Address(text, value.target);
    if address.Err? {
      return Err(address.error);
    }
    var tail := Tail(address.value);
    if mtu <= 8 + |tail| {
      return Err(TooSmall);
    }
    var capacity := mtu - (8 + |tail|);
    var count := Count(|value.payload|, capacity);
    if count > 255 {
      return Err(TooMany);
    }
    var result := Emit(ToBytes(session, 4) + ToBytes(packet, 2), tail, count, value.payload, capacity);
    r := Ok(result);
  }

  /** The fields after the fixed header. */
  function DecodeTail(text: SocketText, tail: Bytes): Result<(Target, Bytes), Error> {
    var field := DecodeVarint(tail);
    if field.None? then Err(Short)
    else
      var (length, rest) := field.value;
      if length > MAX_ADDRESS || length > |rest| then Err(InvalidLength)
      else DecodeTarget(text, rest[..length], rest[length..])
  }

  function DecodeTarget(text: SocketText, address: Bytes, payload: Bytes): Result<(Target, Bytes), Error> {
    if !Utf8(address) then Err(NotUtf8)
    else
      var target := ParseAddress(text, address);
      if target.Err? then Err(target.error)
      else if |payload| > MAX_PAYLOAD then Err(Oversized)
      else Ok((target.value, payload))
  }

  function Decode(text: SocketText, bytes: Bytes): Result<Fragment, Error> {
    if |bytes| < 9 then Err(Short)
    else
      var index, count := bytes[6], bytes[7];
      if count == 0 || (count != 1 && index >= count) then Err(InvalidIndex)
      else
        var tail := DecodeTail(text, bytes[8..]);
        if tail.Err? then Err(tail.error)
        else Ok(Fragment(FromBytes(bytes[..4]), FromBytes(bytes[4..6]), index, count, tail.value.0, tail.value.1))
  }

  lemma DecodeLayout(text: SocketText, four: Bytes, two: Bytes, index: byte, count: byte, tail: Bytes)
    requires |four| == 4 && |two| == 2 && index < count && tail != [] && DecodeTail(text, tail).Ok?
    ensures var (target, payload) := DecodeTail(text, tail).value;
      Decode(text, four + two + [index, count] + tail)
      == Ok(Fragment(FromBytes(four), FromBytes(two), index, count, target, payload))
  {
    var bytes := four + two + [index, count] + tail;
    assert bytes[..4] == four && bytes[4..6] == two && bytes[8..] == tail;
  }

  lemma TailRoundTrip(text: SocketText, address: Bytes, payload: Bytes)
    requires |address| <= MAX_ADDRESS
    ensures Tail(address) + payload != []
    ensures DecodeTail(text, Tail(address) + payload) == DecodeTarget(text, address, payload)
  {
    var rest := address + payload;
    VarintRoundTrip(|address|, rest);
    VarintNonempty(|address|);
    assert Tail(address) + payload == Varint(|address|).value + rest;
    assert rest[..|address|] == address && rest[|address|..] == payload;
  }

  /** Decoding undoes the encoding of each fragment whose target reads back. */
  lemma FragmentRoundTrip(
    text: SocketText, session: nat, packet: nat, index: byte, count: byte,
    target: Target, address: Bytes, payload: Bytes)
    requires session < Power(4) && packet < Power(2) && index < count && |payload| <= MAX_PAYLOAD
    requires |address| <= MAX_ADDRESS && Utf8(address) && ParseAddress(text, address) == Ok(target)
    ensures Decode(text, Header(session, packet, index, count, address) + payload)
         == Ok(Fragment(session, packet, index, count, target, payload))
  {
    BytesRoundTrip(session, 4);
    BytesRoundTrip(packet, 2);
    TailRoundTrip(text, address, payload);
    assert DecodeTarget(text, address, payload) == Ok((target, payload));
    DecodeLayout(text, ToBytes(session, 4), ToBytes(packet, 2), index, count, Tail(address) + payload);
    Regroup(ToBytes(session, 4) + ToBytes(packet, 2), [index, count], Tail(address), payload);
  }

  lemma Regroup(a: Bytes, b: Bytes, c: Bytes, d: Bytes)
    ensures a + b + c + d == a + b + (c + d)
  {}

  lemma VarintNonempty(value: nat)
    requires Varint(value).Ok?
    ensures Varint(value).value != []
  {}

  // ---------------------------------------------------------------- the pieces make up the payload

  function Concat(parts: seq<Bytes>): Bytes {
    if parts == [] then [] else Concat(parts[..|parts| - 1]) + parts[|parts| - 1]
  }

  function Pieces(payload: Bytes, capacity: nat): (r: seq<Bytes>)
    requires capacity > 0
    ensures |r| == Count(|payload|, capacity)
  {
    seq(Count(|payload|, capacity), i requires 0 <= i < Count(|payload|, capacity) =>
      StartsInside(|payload|, capacity, i); Piece(payload, capacity, i))
  }

  /** Where the first `n` pieces end. */
  function End(length: nat, capacity: nat, n: nat): nat { if n * capacity < length then n * capacity else length }

  lemma PieceEnds(payload: Bytes, capacity: nat, n: nat)
    requires capacity > 0 && 0 < n <= Count(|payload|, capacity)
    ensures (n - 1) * capacity <= |payload| &&
      End(|payload|, capacity, n - 1) <= End(|payload|, capacity, n) <= |payload|
    ensures Piece(payload, capacity, n - 1) == payload[End(|payload|, capacity, n - 1)..End(|payload|, capacity, n)]
  {
    StartsInside(|payload|, capacity, n - 1);
    assert (n - 1) * capacity + capacity == n * capacity;
  }

  lemma {:induction false} PiecesPrefix(payload: Bytes, capacity: nat, n: nat)
    requires capacity > 0 && n <= Count(|payload|, capacity)
    ensures Concat(Pieces(payload, capacity)[..n]) == payload[..End(|payload|, capacity, n)]
  {
    if n > 0 {
      PiecesPrefix(payload, capacity, n - 1);
      PieceEnds(payload, capacity, n);
      var parts := Pieces(payload, capacity)[..n];
      assert parts[..n - 1] == Pieces(payload, capacity)[..n - 1];
      assert parts[n - 1] == Piece(payload, capacity, n - 1);
      Adjacent(payload, End(|payload|, capacity, n - 1), End(|payload|, capacity, n));
    } else {
      assert Pieces(payload, capacity)[..0] == [];
    }
  }

  lemma Adjacent(payload: Bytes, i: nat, j: nat)
    requires i <= j <= |payload|
    ensures payload[..i] + payload[i..j] == payload[..j]
  {}

  /** No byte is lost, repeated or moved. */
  lemma PiecesCover(payload: Bytes, capacity: nat)
    requires capacity > 0
    ensures Concat(Pieces(payload, capacity)) == payload
  {
    var n := Count(|payload|, capacity);
    PiecesPrefix(payload, capacity, n);
    assert Pieces(payload, capacity)[..n] == Pieces(payload, capacity);
  }
}
