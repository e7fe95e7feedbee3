/** The padding codec of crates/naive/src/padding.rs: the first frames carry padding, the rest of
    the stream is raw. Padding lengths are inputs. */
module NaivePadding {
  import opened Common

  const FIRST_PADDINGS: nat := 8
  const MAX_PAYLOAD: nat := 65535

  // ---------------------------------------------------------------- encoding

  function Zeros(n: nat): (r: Bytes)
    ensures |r| == n
  {
    seq(n, _ => 0)
  }

  function Frame(bytes: Bytes, padding: byte): Bytes
    requires |bytes| <= MAX_PAYLOAD
  {
    [|bytes| / 256, |bytes| % 256, padding] + bytes + Zeros(padding)
  }

  /** What one write puts on the wire, and how many padded frames remain. */
  function Encode(remaining: nat, bytes: Bytes, padding: byte): (Bytes, nat)
    requires |bytes| <= MAX_PAYLOAD
  {
    if bytes == [] then ([], remaining)
    else if remaining == 0 then (bytes, 0)
    else (Frame(bytes, padding), remaining - 1)
  }

  datatype Write = Write(bytes: Bytes, padding: byte)

  predicate Encodable(writes: seq<Write>) { forall i :: 0 <= i < |writes| ==> |writes[i].bytes| <= MAX_PAYLOAD }

  function Wire(remaining: nat, writes: seq<Write>): Bytes
    requires Encodable(writes)
  {
    if writes == [] then []
    else
      var (wire, left) := Encode(remaining, writes[0].bytes, writes[0].padding);
      wire + Wire(left, writes[1..])
  }

  function Left(remaining: nat, writes: seq<Write>): nat
    requires Encodable(writes)
  {
    if writes == [] then remaining else Left(Encode(remaining, writes[0].bytes, writes[0].padding).1, writes[1..])
  }

  function Input(writes: seq<Write>): Bytes { if writes == [] then [] else writes[0].bytes + Input(writes[1..]) }

  // ---------------------------------------------------------------- decoding

  function Number(high: byte, low: byte): nat { high as int * 256 + low as int }

  function FrameLength(source: Bytes): nat
    requires |source| >= 3
  {
    3 + Number(source[0], source[1]) + source[2] as int
  }

  function Payload(source: Bytes): Bytes
    requires |source| >= 3 && |source| >= FrameLength(source)
  {
    source[3..3 + Number(source[0], source[1])]
  }

  predicate WholeFrame(source: Bytes) { |source| >= 3 && |source| >= FrameLength(source) }

  datatype Decoded = Decoded(output: Bytes, remaining: nat, rest: Bytes)

  /** Everything the buffered bytes yield, and what stays buffered. */
  function Drain(remaining: nat, source: Bytes): Decoded
    decreases |source|
  {
    if source == [] then Decoded([], remaining, [])
    else if remaining == 0 then Decoded(source, 0, [])
    else if !WholeFrame(source) then Decoded([], remaining, source)
    else
      Prepend(Payload(source), Drain(remaining - 1, source[FrameLength(source)..]))
  }

  function Prepend(bytes: Bytes, d: Decoded): Decoded { d.(output := bytes + d.output) }

  lemma PrependNothing(d: Decoded)
    ensures Prepend([], d) == d
  {
    assert [] + d.output == d.output;
  }

  /** Reading the wire in pieces: each read extends the buffer, which is drained. */
  function Read(remaining: nat, pieces: seq<Bytes>): Decoded {
    if pieces == [] then Decoded([], remaining, [])
    else
      var before := Read(remaining, pieces[..|pieces| - 1]);
      var now := Drain(before.remaining, before.rest + pieces[|pieces| - 1]);
      now.(output := before.output + now.output)
  }

  function Concat(pieces: seq<Bytes>): Bytes {
    if pieces == [] then [] else Concat(pieces[..|pieces| - 1]) + pieces[|pieces| - 1]
  }

  // ---------------------------------------------------------------- in place

  class Codec {
    var remaining: nat

    constructor (enabled: bool)
      ensures remaining == if enabled then FIRST_PADDINGS else 0
    {
      remaining := if enabled then FIRST_PADDINGS else 0;
    }

    /** Takes the first frame off the buffer. */
    method TakeFrame(source: Bytes) returns (bytes: Bytes, rest: Bytes)
      requires remaining > 0 && WholeFrame(source)
      modifies this
      ensures |rest| < |source| && remaining == old(remaining) - 1
      ensures Drain(old(remaining), source) == Prepend(bytes, Drain(remaining, rest))
    {
      var payload := Number(source[0], source[1]);
      var padding := source[2] as int;
      bytes := source[3..3 + payload];
      rest := source[3 + payload + padding..];
      remaining := remaining - 1;
    }

    /** One call: skips empty frames, yields one piece, or waits for more bytes. Repeating it until
        nothing comes drains the buffer. */
    method Decode(source: Bytes) returns (item: Option<Bytes>, rest: Bytes)
      modifies this
      ensures Drain(old(remaining), source) == Prepend(if item.Some? then item.value else [], Drain(remaining, rest))
      ensures item.None? ==> Drain(old(remaining), source) == Decoded([], remaining, rest)
      ensures item.Some? ==> item.value != [] && |rest| < |source|
    {
      rest := source;
      PrependNothing(Drain(remaining, rest));
      while rest != []
        invariant |rest| <= |source| && Drain(remaining, rest) == Drain(old(remaining), source)
        invariant Prepend([], Drain(remaining, rest)) == Drain(remaining, rest)
        decreases |rest|
      {
        if remaining == 0 {
          item, rest := Some(rest), [];
          return;
        }
        if |rest| < 3 || |rest| < FrameLength(rest) {
          return None, rest;
        }
        var bytes;
        bytes, rest := TakeFrame(rest);
        if bytes != [] {
          return Some(bytes), rest;
        }
        PrependNothing(Drain(remaining, rest));
      }
      item := None;
    }

    /** One write; the caller clamps it. */
    method EncodeInto(bytes: Bytes, padding: byte, destination: Bytes) returns (ok: bool, written: Bytes)
      modifies this
      ensures ok <==> |bytes| <= MAX_PAYLOAD
      ensures ok ==>
        (written, remaining)
          == (destination + Encode(old(remaining), bytes, padding).0, Encode(old(remaining), bytes, padding).1)
      ensures !ok ==> written == destination && remaining == old(remaining)
    {
      if bytes == [] {
        assert destination + [] == destination;
        return true, destination;
      }
      if |bytes| > MAX_PAYLOAD {
        return false, destination;
      }
      if remaining == 0 {
        return true, destination + bytes;
      }
      written := destination + [|bytes| / 256, |bytes| % 256];
      written := written + [padding];
      written := written + bytes;
      written := written + Zeros(padding);
      remaining := remaining - 1;
      ok := true;
      assert written == destination + Frame(bytes, padding);
    }

    /** `poll_write`: a longer buffer is written in part, so encoding never fails. */
    method PollWrite(bytes: Bytes, padding: byte, destination: Bytes) returns (n: nat, written: Bytes)
      modifies this
      ensures n <= |bytes| && n <= MAX_PAYLOAD && (n == |bytes| || n == MAX_PAYLOAD)
      ensures (written, remaining)
        == (destination + Encode(old(remaining), bytes[..n], padding).0, Encode(old(remaining), bytes[..n], padding).1)
    {
      n := if |bytes| < MAX_PAYLOAD then |bytes| else MAX_PAYLOAD;
      var ok;
      ok, written := EncodeInto(bytes[..n], padding, destination);
    }
  }

  // ---------------------------------------------------------------- splitting does not matter

  /** A whole frame at the front stays the first frame when more bytes follow. */
  lemma PrefixFrame(a: Bytes, b: Bytes)
    requires WholeFrame(a)
    ensures WholeFrame(a + b) && FrameLength(a + b) == FrameLength(a)
    ensures Payload(a + b) == Payload(a) && (a + b)[FrameLength(a)..] == a[FrameLength(a)..] + b
  {
    assert (a + b)[0] == a[0] && (a + b)[1] == a[1] && (a + b)[2] == a[2];
  }

  /** Draining `a` and then the leftover with `b` is draining `a + b`. */
  predicate Splits(remaining: nat, a: Bytes, b: Bytes) {
    var first := Drain(remaining, a);
    var second := Drain(first.remaining, first.rest + b);
    Drain(remaining, a + b) == Decoded(first.output + second.output, second.remaining, second.rest)
  }

  lemma FrameSplits(remaining: nat, a: Bytes, b: Bytes)
    requires remaining > 0 && WholeFrame(a) && Splits(remaining - 1, a[FrameLength(a)..], b)
    ensures Splits(remaining, a, b)
  {
    PrefixFrame(a, b);
    var later := Drain(remaining - 1, a[FrameLength(a)..]);
    var first := Drain(remaining, a);
    var second := Drain(first.remaining, first.rest + b);
    assert first == Prepend(Payload(a), later);
    assert Payload(a) + (later.output + second.output) == first.output + second.output;
  }

  lemma {:induction false} DrainSplit(remaining: nat, a: Bytes, b: Bytes)
    ensures Splits(remaining, a, b)
    decreases |a|
  {
    if a == [] {
      assert a + b == b && [] + b == b;
    } else if remaining == 0 {
      assert [] + b == b;
    } else if WholeFrame(a) {
      DrainSplit(remaining - 1, a[FrameLength(a)..], b);
      FrameSplits(remaining, a, b);
    }
  }

  /** However the wire is cut into reads, the output is that of one read. */
  lemma {:induction false} ReadsDoNotMatter(remaining: nat, pieces: seq<Bytes>)
    ensures Read(remaining, pieces) == Drain(remaining, Concat(pieces))
  {
    if pieces != [] {
      var n := |pieces| - 1;
      ReadsDoNotMatter(remaining, pieces[..n]);
      DrainSplit(remaining, Concat(pieces[..n]), pieces[n]);
    }
  }

  // ---------------------------------------------------------------- one frame

  lemma FrameReads(bytes: Bytes, padding: byte, more: Bytes)
    requires |bytes| <= MAX_PAYLOAD
    ensures var source := Frame(bytes, padding) + more;
      && WholeFrame(source) && FrameLength(source) == |Frame(bytes, padding)|
      && Payload(source) == bytes && source[FrameLength(source)..] == more
  {
    var source := Frame(bytes, padding) + more;
    assert source[0] == |bytes| / 256 && source[1] == |bytes| % 256 && source[2] == padding;
    assert Number(source[0], source[1]) == |bytes|;
  }

  /** An incomplete frame yields nothing and stays buffered. */
  lemma IncompleteYieldsNothing(remaining: nat, bytes: Bytes, padding: byte, n: nat)
    requires remaining > 0 && |bytes| <= MAX_PAYLOAD && n < |Frame(bytes, padding)|
    ensures Drain(remaining, Frame(bytes, padding)[..n]) == Decoded([], remaining, Frame(bytes, padding)[..n])
  {
    FrameReads(bytes, padding, []);
    assert Frame(bytes, padding) + [] == Frame(bytes, padding);
  }

  // ---------------------------------------------------------------- whole streams

  lemma {:induction false} DrainWire(remaining: nat, writes: seq<Write>)
    requires Encodable(writes)
    ensures Drain(remaining, Wire(remaining, writes)) == Decoded(Input(writes), Left(remaining, writes), [])
  {
    if writes != [] {
      var w := writes[0];
      var (wire, left) := Encode(remaining, w.bytes, w.padding);
      var more := Wire(left, writes[1..]);
      DrainWire(left, writes[1..]);
      if w.bytes == [] {
        assert wire + more == more && w.bytes + Input(writes[1..]) == Input(writes[1..]);
      } else if remaining == 0 {
        DrainSplit(0, wire, more);
        assert [] + more == more;
      } else {
        FrameReads(w.bytes, w.padding, more);
      }
    }
  }

  /** For every sequence of writes, every choice of padding and every cut into reads, the decoder
      returns the input, agrees on the mode and keeps nothing back. */
  lemma RoundTrip(enabled: bool, writes: seq<Write>, pieces: seq<Bytes>)
    requires Encodable(writes) && Concat(pieces) == Wire(Initial(enabled), writes)
    ensures Read(Initial(enabled), pieces) == Decoded(Input(writes), Left(Initial(enabled), writes), [])
  {
    ReadsDoNotMatter(Initial(enabled), pieces);
    DrainWire(Initial(enabled), writes);
  }

  function Initial(enabled: bool): nat { if enabled then FIRST_PADDINGS else 0 }

  /** How many bytes the encoder writes before it is in raw mode. */
  function Framed(remaining: nat, writes: seq<Write>): nat
    requires Encodable(writes)
  {
    if writes == [] || remaining == 0 then 0
    else
      var (wire, left) := Encode(remaining, writes[0].bytes, writes[0].padding);
      |wire| + Framed(left, writes[1..])
  }

  /** The decoder is in raw mode after a prefix of the wire exactly when the prefix reaches the
      byte at which the encoder went raw. */
  lemma {:induction false} RawAtTheSameByte(remaining: nat, writes: seq<Write>, n: nat)
    requires Encodable(writes) && n <= |Wire(remaining, writes)|
    ensures Drain(remaining, Wire(remaining, writes)[..n]).remaining == 0 <==>
      Left(remaining, writes) == 0 && n >= Framed(remaining, writes)
  {
    if remaining == 0 {
      StaysRaw(writes);
    } else if writes != [] {
      var w := writes[0];
      var (wire, left) := Encode(remaining, w.bytes, w.padding);
      var more := Wire(left, writes[1..]);
      if w.bytes == [] {
        assert wire + more == more;
        RawAtTheSameByte(remaining, writes[1..], n);
      } else if n < |wire| {
        IncompleteYieldsNothing(remaining, w.bytes, w.padding, n);
        assert (wire + more)[..n] == wire[..n];
      } else {
        RawAtTheSameByte(left, writes[1..], n - |wire|);
        assert (wire + more)[..n] == wire + more[..n - |wire|];
        FrameReads(w.bytes, w.padding, more[..n - |wire|]);
      }
    }
  }

  lemma {:induction false} StaysRaw(writes: seq<Write>)
    requires Encodable(writes)
    ensures Left(0, writes) == 0
  {
    if writes != [] {
      StaysRaw(writes[1..]);
    }
  }
}
