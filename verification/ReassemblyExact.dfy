/** What `receive` of crates/hysteria2/src/wire.rs delivers of a packet whatever else arrives,
    evictions and expiry included. */
module ReassemblyExact {
  import opened Common
  import opened HysteriaText
  import opened HysteriaWire
  import opened Reassembly
  import opened ReassemblyProofs
  import opened ReassemblyDelivery

  // ---------------------------------------------------------------- indices that come and go

  /** One call as one packet sees it: the index that came, and whether what was held is kept. */
  datatype Turn = Turn(index: Option<nat>, kept: bool)

  function Index(turn: Turn): set<nat> { if turn.index.Some? then {turn.index.value} else {} }

  predicate Full(held: set<nat>, count: nat) { forall i :: 0 <= i < count ==> i in held }

  /** The indices held after the turns: dropped together when they are not kept and when they are full. */
  function Held(turns: seq<Turn>, count: nat): set<nat>
    decreases |turns|
  {
    if turns == [] then {} else if Full(Gathered(turns, count), count) then {} else Gathered(turns, count)
  }

  /** What the last turn has together. */
  function Gathered(turns: seq<Turn>, count: nat): set<nat>
    requires turns != []
    decreases |turns|, 0
  {
    var n := |turns| - 1;
    (if turns[n].kept then Held(turns[..n], count) else {}) + Index(turns[n])
  }

  predicate FullAt(turns: seq<Turn>, count: nat, k: nat) {
    k < |turns| && Full(Gathered(turns[..k + 1], count), count)
  }

  function Came(turns: seq<Turn>): set<nat> {
    if turns == [] then {} else Came(turns[..|turns| - 1]) + Index(turns[|turns| - 1])
  }

  /** No index comes twice. */
  predicate Once(turns: seq<Turn>) {
    forall i, j :: 0 <= i < j < |turns| && turns[i].index.Some? ==> turns[i].index != turns[j].index
  }

  lemma {:induction false} CameAt(turns: seq<Turn>, x: nat) returns (p: nat)
    requires x in Came(turns)
    ensures p < |turns| && turns[p].index == Some(x)
    decreases |turns|
  {
    var n := |turns| - 1;
    if turns[n].index == Some(x) {
      p := n;
    } else {
      p := CameAt(turns[..n], x);
    }
  }

  lemma {:induction false} HeldCame(turns: seq<Turn>, count: nat)
    ensures Held(turns, count) <= Came(turns)
    ensures turns != [] ==> Gathered(turns, count) <= Came(turns)
    decreases |turns|
  {
    if turns != [] { HeldCame(turns[..|turns| - 1], count); }
  }

  /** What came and is no longer held does not come again. */
  lemma {:induction false} GoneStaysGone(turns: seq<Turn>, count: nat, x: nat, n: nat, k: nat)
    requires Once(turns) && n <= k <= |turns| && x in Came(turns[..n]) && x !in Held(turns[..n], count)
    ensures x !in Held(turns[..k], count)
    ensures k < |turns| ==> x !in Gathered(turns[..k + 1], count)
    decreases k
  {
    var p := CameAt(turns[..n], x);
    if n < k {
      GoneStaysGone(turns, count, x, n, k - 1);
      assert turns[..k] == turns[..k - 1 + 1];
    }
    if k < |turns| {
      assert turns[..k + 1][..k] == turns[..k];
      assert turns[p].index == Some(x) && turns[k].index != Some(x);
    }
  }

  /** If something held is dropped at turn `n`, no turn is ever full. */
  lemma {:induction false} NeverFull(turns: seq<Turn>, count: nat, n: nat, k: nat, x: nat)
    requires Once(turns) && n < |turns| && !turns[n].kept && x in Held(turns[..n], count) && x < count && k < |turns|
    ensures !FullAt(turns, count, k)
  {
    HeldCame(turns[..n], count);
    var p := CameAt(turns[..n], x);
    assert turns[..n + 1][..n] == turns[..n];
    assert x !in Gathered(turns[..n + 1], count) && x !in Held(turns[..n + 1], count);
    if k > n {
      GoneStaysGone(turns, count, x, n + 1, k);
    } else if k < n && Full(Gathered(turns[..k + 1], count), count) {
      HeldCame(turns[..k + 1], count);
      assert x in Gathered(turns[..k + 1], count);
      GoneStaysGone(turns, count, x, k + 1, n);
    }
  }

  /** While everything is kept and never full, everything that came is held. */
  lemma {:induction false} KeptIsHeld(turns: seq<Turn>, count: nat)
    requires forall i :: 0 <= i < |turns| ==> turns[i].kept
    requires forall k: nat :: !FullAt(turns, count, k)
    ensures Held(turns, count) == Came(turns)
    decreases |turns|
  {
    if turns != [] {
      var n := |turns| - 1;
      forall k: nat
        ensures !FullAt(turns[..n], count, k)
      {
        assert k < n ==> turns[..n][..k + 1] == turns[..k + 1];
        assert !FullAt(turns, count, k);
      }
      KeptIsHeld(turns[..n], count);
      assert turns[..n + 1] == turns && !FullAt(turns, count, n);
    }
  }

  // ---------------------------------------------------------------- one call

  /** What the call leaves of the indices held. */
  function Left(b: Buffer, m: Sent, held: set<nat>, part: Fragment, now: nat): set<nat> {
    if Undisturbed(b, m, part, now) then held else {}
  }

  lemma LeftAfterExpiry(b: Buffer, m: Sent, held: set<nat>, part: Fragment, now: nat)
    requires Collected(b, m, held)
    ensures var left := Left(b, m, held, part, now);
      && (!Evicts(Expire(b, now), part) ==> Collected(Expire(b, now), m, left))
      && (Evicts(Expire(b, now), part) ==>
            Collected(Evict(Expire(b, now), (part.session, part.packet), |part.payload|), m, left))
  {
    ExpireOnlyRemoves(b, now);
  }

  lemma {:induction false} OtherPartLeaves(b: Buffer, m: Sent, held: set<nat>, part: Fragment, now: nat)
    requires Decoded(part) && !Own(m, part) && Collected(b, m, held)
    ensures Collected(Receive(b, part, now).0, m, Left(b, m, held, part, now))
  {
    LeftAfterExpiry(b, m, held, part, now);
    var young := Expire(b, now);
    var own := (part.session, part.packet);
    if part.count == 1 {
    } else if own in young.pending && !Matches(young.pending[own], part) {
      RemoveOthers(young, own, KeyOf(m));
    } else {
      StoreOthers(Evict(young, own, |part.payload|), part, now, KeyOf(m));
    }
  }

  /** What the packet's own part finds: an entry of the same packet, or none. */
  lemma OwnPartMatches(b: Buffer, m: Sent, held: set<nat>, i: nat, now: nat)
    requires Collected(b, m, held) && i < |m.pieces| && |m.pieces| > 1
    ensures Evicts(Expire(b, now), Part(m, i))
  {
    ExpireOnlyRemoves(b, now);
  }

  lemma NothingIsIncomplete(m: Sent)
    requires Sendable(m)
    ensures !Complete(m, {})
  {
    var none: set<nat> := {};
    assert 0 < |m.pieces| && 0 !in none;
  }

  /** What the call for one of the packet's own parts does, `all` being held with it. */
  predicate Answers(m: Sent, all: set<nat>, c: Buffer, r: Outcome) {
    if Complete(m, all)
    then r == Delivered(m.session, Packet(m.target, Concat(m.pieces))) && KeyOf(m) !in c.pending
    else r == Nothing && Collected(c, m, all)
  }

  lemma {:induction false} OwnPartStored(b: Buffer, m: Sent, held: set<nat>, i: nat, was: nat, now: nat)
    requires Inv(b, was) && was <= now && Sendable(m) && i < |m.pieces| && |m.pieces| > 1 && !Complete(m, held)
    requires Collected(b, m, held) && |m.pieces[i]| <= MAX_PAYLOAD
    ensures var (c, r) := Receive(b, Part(m, i), now); Answers(m, Left(b, m, held, Part(m, i), now) + {i}, c, r)
  {
    var part := Part(m, i);
    var young := Expire(b, now);
    ExpireIsFullScan(b, was, now);
    InvLater(young, was, now);
    OwnPartMatches(b, m, held, i, now);
    LeftAfterExpiry(b, m, held, part, now);
    NothingIsIncomplete(m);
    EvictMakesRoom(young, now, KeyOf(m), |part.payload|);
    StoreOwn(Evict(young, KeyOf(m), |part.payload|), m, Left(b, m, held, part, now), i, now);
  }

  lemma OnlyPart(b: Buffer, m: Sent, now: nat)
    requires Sendable(m) && |m.pieces| == 1 && Collected(b, m, {}) && |m.pieces[0]| <= MAX_PAYLOAD
    ensures var (c, r) := Receive(b, Part(m, 0), now); Answers(m, {0}, c, r)
  {
    ExpireOnlyRemoves(b, now);
    assert m.pieces == [m.pieces[0]];
    assert Concat(m.pieces) == Concat(m.pieces[..0]) + m.pieces[0];
  }

  // ---------------------------------------------------------------- whole runs

  /** Any traffic in the order of time in which the packet's identity carries the packet's parts. */
  predicate Traffic(m: Sent, start: nat, events: seq<Event>) {
    && Timely(events) && Decodable(events)
    && (forall i :: 0 <= i < |events| ==> start <= events[i].now)
    && (forall i :: 0 <= i < |events| && Own(m, events[i].part) ==> IsPart(m, events[i].part))
  }

  function TurnOf(b: Buffer, m: Sent, event: Event): Turn {
    Turn(if Own(m, event.part) then Some(event.part.index) else None, Undisturbed(b, m, event.part, event.now))
  }

  /** The calls as the packet sees them. */
  function Turns(b: Buffer, m: Sent, events: seq<Event>): (r: seq<Turn>)
    requires Decodable(events)
    ensures |r| == |events|
    ensures forall k :: 0 <= k < |r| ==> r[k] == TurnOf(After(b, events[..k]), m, events[k])
  {
    seq(|events|, k requires 0 <= k < |events| => TurnOf(After(b, events[..k]), m, events[k]))
  }

  lemma TurnInPrefix(b: Buffer, m: Sent, events: seq<Event>, n: nat, k: nat)
    requires Decodable(events) && k < n <= |events|
    ensures Turns(b, m, events)[k] == Turns(b, m, events[..n])[k]
  {
    var prefix := events[..n];
    assert prefix[..k] == events[..k] && prefix[k] == events[k];
  }

  lemma TurnsPrefix(b: Buffer, m: Sent, events: seq<Event>, n: nat)
    requires Decodable(events) && n <= |events|
    ensures Turns(b, m, events)[..n] == Turns(b, m, events[..n])
  {
    var all, prefix := Turns(b, m, events), Turns(b, m, events[..n]);
    forall k | 0 <= k < n
      ensures all[k] == prefix[k]
    {
      TurnInPrefix(b, m, events, n, k);
    }
  }

  /** The indices in the buffer after the events, and those the last call has together. */
  function HeldAfter(b: Buffer, m: Sent, events: seq<Event>): set<nat>
    requires Decodable(events)
  {
    Held(Turns(b, m, events), |m.pieces|)
  }

  function GatheredAt(b: Buffer, m: Sent, events: seq<Event>): set<nat>
    requires Decodable(events) && events != []
  {
    Gathered(Turns(b, m, events), |m.pieces|)
  }

  /** The buffer holds exactly these indices of the packet, and they are not all. */
  predicate Holding(m: Sent, c: Buffer, held: set<nat>) {
    Collected(c, m, held) && !Complete(m, held) && forall i :: i in held ==> i < |m.pieces|
  }

  /** What an own part answers when `all` are together with it. */
  function Answer(m: Sent, all: set<nat>): Outcome {
    if Complete(m, all) then Delivered(m.session, Packet(m.target, Concat(m.pieces))) else Nothing
  }

  /** What the buffer holds of the packet, and what came out of the last call. */
  predicate Exact(b: Buffer, m: Sent, events: seq<Event>)
    requires Decodable(events)
  {
    && Holding(m, After(b, events), HeldAfter(b, m, events))
    && (events != [] && Own(m, events[|events| - 1].part) ==>
          OutcomeOf(b, events) == Answer(m, GatheredAt(b, m, events)))
  }

  /** One more call. */
  lemma {:induction false} CallIsExact(c: Buffer, m: Sent, held: set<nat>, last: Event, was: nat)
    requires Inv(c, was) && was <= last.now && Sendable(m) && Holding(m, c, held)
    requires Decoded(last.part) && (Own(m, last.part) ==> IsPart(m, last.part))
    ensures var (d, r) := Receive(c, last.part, last.now);
      var all := Left(c, m, held, last.part, last.now) + if Own(m, last.part) then {last.part.index} else {};
      && Holding(m, d, if Full(all, |m.pieces|) then {} else all)
      && (Own(m, last.part) ==> r == Answer(m, all))
  {
    NothingIsIncomplete(m);
    if !Own(m, last.part) {
      OtherPartLeaves(c, m, held, last.part, last.now);
      assert Left(c, m, held, last.part, last.now) + {} == Left(c, m, held, last.part, last.now);
    } else if |m.pieces| > 1 {
      OwnPartStored(c, m, held, last.part.index, was, last.now);
    } else {
      assert held == {} by {
        assert forall i :: i in held ==> i == 0;
      }
      OnlyPart(c, m, last.now);
      assert {} + {0} == {0};
    }
  }

  /** The turn's bookkeeping. */
  lemma GatherTurn(b: Buffer, m: Sent, events: seq<Event>)
    requires Decodable(events) && events != []
    ensures var n := |events| - 1;
      var last := events[n];
      GatheredAt(b, m, events)
        == Left(After(b, events[..n]), m, HeldAfter(b, m, events[..n]), last.part, last.now)
           + if Own(m, last.part) then {last.part.index} else {}
    ensures HeldAfter(b, m, events)
      == if Full(GatheredAt(b, m, events), |m.pieces|) then {} else GatheredAt(b, m, events)
  {
    TurnsPrefix(b, m, events, |events| - 1);
  }

  lemma TrafficPrefix(m: Sent, start: nat, events: seq<Event>, n: nat)
    requires Traffic(m, start, events) && n <= |events|
    ensures Traffic(m, start, events[..n])
  {}

  lemma {:induction false} TrafficKeepsInv(b: Buffer, m: Sent, start: nat, events: seq<Event>)
    requires Inv(b, start) && Traffic(m, start, events)
    ensures Inv(After(b, events), Now(start, events))
    decreases |events|
  {
    if events != [] {
      var n := |events| - 1;
      TrafficPrefix(m, start, events, n);
      TrafficKeepsInv(b, m, start, events[..n]);
      ReceiveKeepsInv(After(b, events[..n]), events[n].part, Now(start, events[..n]), events[n].now);
    }
  }

  /** Whatever arrives, is evicted or expires, the buffer holds of the packet exactly the indices that
      came since they were last dropped, and the packet comes out exactly at a call that completes them. */
  lemma {:induction false} DeliveryIsExact(b: Buffer, m: Sent, start: nat, events: seq<Event>)
    requires Inv(b, start) && Sendable(m) && KeyOf(m) !in b.pending && Traffic(m, start, events)
    ensures Exact(b, m, events)
    decreases |events|
  {
    NothingIsIncomplete(m);
    if events != [] {
      var n := |events| - 1;
      TrafficPrefix(m, start, events, n);
      DeliveryIsExact(b, m, start, events[..n]);
      TrafficKeepsInv(b, m, start, events[..n]);
      CallIsExact(After(b, events[..n]), m, HeldAfter(b, m, events[..n]), events[n], Now(start, events[..n]));
      GatherTurn(b, m, events);
    }
  }

  // ---------------------------------------------------------------- when each part arrives once

  /** No index of the packet arrives twice. */
  predicate EachOnce(m: Sent, events: seq<Event>) {
    forall i, j :: 0 <= i < j < |events| && Own(m, events[i].part) && Own(m, events[j].part) ==>
      events[i].part.index != events[j].part.index
  }

  /** The packet comes out at the call for event `k`. */
  predicate ComesOutAt(b: Buffer, m: Sent, events: seq<Event>, k: nat)
    requires Decodable(events)
  {
    && k < |events| && Own(m, events[k].part)
    && OutcomeOf(b, events[..k + 1]) == Delivered(m.session, Packet(m.target, Concat(m.pieces)))
  }

  ghost predicate ComesOut(b: Buffer, m: Sent, events: seq<Event>)
    requires Decodable(events)
  {
    exists k: nat :: ComesOutAt(b, m, events, k)
  }

  /** The packet comes out at an own part exactly when the indices are full there. */
  lemma ComesOutWhenFull(b: Buffer, m: Sent, start: nat, events: seq<Event>, k: nat)
    requires Inv(b, start) && Sendable(m) && KeyOf(m) !in b.pending && Traffic(m, start, events) && k < |events|
    ensures ComesOutAt(b, m, events, k)
      <==> Own(m, events[k].part) && FullAt(Turns(b, m, events), |m.pieces|, k)
  {
    TrafficPrefix(m, start, events, k + 1);
    DeliveryIsExact(b, m, start, events[..k + 1]);
    TurnsPrefix(b, m, events, k + 1);
  }

  /** Without an own part nothing gets full. */
  lemma OnlyOwnFills(b: Buffer, m: Sent, start: nat, events: seq<Event>, k: nat)
    requires Inv(b, start) && Sendable(m) && KeyOf(m) !in b.pending && Traffic(m, start, events) && k < |events|
    requires !Own(m, events[k].part)
    ensures !FullAt(Turns(b, m, events), |m.pieces|, k)
  {
    NothingIsIncomplete(m);
    TrafficPrefix(m, start, events, k);
    DeliveryIsExact(b, m, start, events[..k]);
    TurnsPrefix(b, m, events, k);
    var turns := Turns(b, m, events);
    assert turns[..k + 1][..k] == turns[..k];
    assert Held(turns[..k], |m.pieces|) + {} == Held(turns[..k], |m.pieces|);
  }

  lemma TurnsOnce(b: Buffer, m: Sent, events: seq<Event>)
    requires Decodable(events) && EachOnce(m, events)
    ensures Once(Turns(b, m, events))
  {
    forall i | 0 <= i < |events|
      ensures Turns(b, m, events)[i].index == if Own(m, events[i].part) then Some(events[i].part.index) else None
    {}
  }

  lemma {:induction false} CameIsSeen(b: Buffer, m: Sent, events: seq<Event>)
    requires Decodable(events)
    ensures Came(Turns(b, m, events)) == Seen(m, events)
    decreases |events|
  {
    if events != [] {
      var n := |events| - 1;
      CameIsSeen(b, m, events[..n]);
      TurnsPrefix(b, m, events, n);
    }
  }

  lemma {:induction false} LostForGood(b: Buffer, m: Sent, start: nat, events: seq<Event>, n: nat, k: nat)
    requires Inv(b, start) && Sendable(m) && KeyOf(m) !in b.pending && Traffic(m, start, events) && EachOnce(m, events)
    requires n < |events| && !Undisturbed(After(b, events[..n]), m, events[n].part, events[n].now)
    ensures !ComesOutAt(b, m, events, k)
  {
    if k < |events| {
      TrafficPrefix(m, start, events, n);
      DeliveryIsExact(b, m, start, events[..n]);
      var x :| x in HeldAfter(b, m, events[..n]);
      TurnsPrefix(b, m, events, n);
      TurnsOnce(b, m, events);
      NeverFull(Turns(b, m, events), |m.pieces|, n, k, x);
      ComesOutWhenFull(b, m, start, events, k);
    }
  }

  lemma {:induction false} KeptComesOut(b: Buffer, m: Sent, start: nat, events: seq<Event>)
    requires Inv(b, start) && Sendable(m) && KeyOf(m) !in b.pending && Traffic(m, start, events)
    requires Kept(b, m, events) && Complete(m, Seen(m, events))
    ensures ComesOut(b, m, events)
  {
    var turns := Turns(b, m, events);
    forall i | 0 <= i < |turns|
      ensures turns[i].kept
    {
      assert Undisturbed(After(b, events[..i]), m, events[i].part, events[i].now);
    }
    CameIsSeen(b, m, events);
    DeliveryIsExact(b, m, start, events);
    if forall k: nat :: !FullAt(turns, |m.pieces|, k) {
      KeptIsHeld(turns, |m.pieces|);
      assert false;
    } else {
      var k: nat :| FullAt(turns, |m.pieces|, k);
      if !Own(m, events[k].part) {
        OnlyOwnFills(b, m, start, events, k);
      }
      ComesOutWhenFull(b, m, start, events, k);
      assert ComesOutAt(b, m, events, k);
    }
  }

  /** When every part arrives exactly once, in whatever order and among whatever else, the packet
      comes out if and only if what was collected of it is never evicted or expired. */
  lemma DeliveredExactlyWhenKept(b: Buffer, m: Sent, start: nat, events: seq<Event>)
    requires Inv(b, start) && Sendable(m) && KeyOf(m) !in b.pending && Traffic(m, start, events)
    requires EachOnce(m, events) && Complete(m, Seen(m, events))
    ensures ComesOut(b, m, events) <==> Kept(b, m, events)
  {
    if Kept(b, m, events) {
      KeptComesOut(b, m, start, events);
    } else {
      var n :| 0 <= n < |events| && !Undisturbed(After(b, events[..n]), m, events[n].part, events[n].now);
      forall k: nat
        ensures !ComesOutAt(b, m, events, k)
      {
        LostForGood(b, m, start, events, n, k);
      }
    }
  }
}
