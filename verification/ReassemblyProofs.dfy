/** What every call of `receive` keeps. */
module ReassemblyProofs {
  import opened Common
  import opened HysteriaText
  import opened HysteriaWire
  import opened Reassembly

  // ---------------------------------------------------------------- sums

  lemma {:induction false} SumFrame(order: seq<Key>, p: map<Key, Pending>, q: map<Key, Pending>)
    requires forall i :: 0 <= i < |order| ==> order[i] in p && order[i] in q && p[order[i]].bytes == q[order[i]].bytes
    ensures Sum(order, p) == Sum(order, q)
  {
    if order != [] {
      SumFrame(order[1..], p, q);
    }
  }

  lemma {:induction false} SumConcat(a: seq<Key>, b: seq<Key>, p: map<Key, Pending>)
    ensures Sum(a + b, p) == Sum(a, p) + Sum(b, p)
  {
    if a == [] {
      assert a + b == b;
    } else {
      assert (a + b)[1..] == a[1..] + b;
      SumConcat(a[1..], b, p);
    }
  }

  /** The order without position `i`. */
  function Skip(order: seq<Key>, i: nat): (r: seq<Key>)
    requires i < |order|
    ensures |r| == |order| - 1
    ensures forall j :: 0 <= j < |r| ==> r[j] == order[if j < i then j else j + 1]
  {
    order[..i] + order[i + 1..]
  }

  lemma SumSkip(order: seq<Key>, i: nat, p: map<Key, Pending>)
    requires i < |order| && order[i] in p
    ensures Sum(order, p) == p[order[i]].bytes + Sum(Skip(order, i), p)
  {
    var tail := order[i..];
    assert order == order[..i] + tail && tail[1..] == order[i + 1..];
    SumConcat(order[..i], tail, p);
    SumConcat(order[..i], order[i + 1..], p);
  }

  lemma {:induction false} WithoutSkips(order: seq<Key>, i: nat)
    requires i < |order| && forall j :: 0 <= j < |order| && j != i ==> order[j] != order[i]
    ensures Without(order, order[i]) == Skip(order, i)
  {
    var key := order[i];
    if i == 0 {
      WithoutAbsent(order[1..], key);
      assert Skip(order, 0) == order[1..];
    } else {
      WithoutSkips(order[1..], i - 1);
      assert Skip(order, i) == [order[0]] + Skip(order[1..], i - 1);
    }
  }

  lemma {:induction false} WithoutAbsent(order: seq<Key>, key: Key)
    requires forall j :: 0 <= j < |order| ==> order[j] != key
    ensures Without(order, key) == order
  {
    if order != [] {
      WithoutAbsent(order[1..], key);
    }
  }

  // ---------------------------------------------------------------- slots

  lemma {:induction false} FillSlot(f: seq<Option<Bytes>>, i: nat, x: Bytes)
    requires i < |f| && f[i].None?
    ensures Filled(f[i := Some(x)]) == Filled(f) + 1 && Total(f[i := Some(x)]) == Total(f) + |x|
  {
    var n := |f| - 1;
    var g := f[i := Some(x)];
    if i == n {
      assert g[..n] == f[..n];
    } else {
      assert g[..n] == f[..n][i := Some(x)];
      FillSlot(f[..n], i, x);
    }
  }

  lemma {:induction false} EmptySlots(n: nat)
    ensures Filled(NoFragments(n)) == 0 && Total(NoFragments(n)) == 0
  {
    if n > 0 {
      assert NoFragments(n)[..n - 1] == NoFragments(n - 1);
      EmptySlots(n - 1);
    }
  }

  /** `received` reaches the count exactly when no hole is left. */
  lemma {:induction false} FilledExactly(f: seq<Option<Bytes>>)
    ensures Filled(f) <= |f| && (Filled(f) == |f| <==> forall i :: 0 <= i < |f| ==> f[i].Some?)
  {
    if f != [] {
      FilledExactly(f[..|f| - 1]);
    }
  }

  // ---------------------------------------------------------------- removals

  /** Taking the key at position `i` out. */
  function Cut(b: Buffer, i: nat): Buffer
    requires i < |b.order| && b.order[i] in b.pending
  {
    Buffer(b.pending - {b.order[i]}, Skip(b.order, i), b.bytes - b.pending[b.order[i]].bytes)
  }

  lemma Unique(b: Buffer, now: nat, i: nat, j: nat)
    requires Tidy(b, now) && i < |b.order| && j < |b.order| && i != j
    ensures b.order[i] != b.order[j]
  {
    assert Listed(b, i) && Listed(b, j) && InOrder(b, i, j) && InOrder(b, j, i);
  }

  lemma RemoveCuts(b: Buffer, now: nat, i: nat)
    requires Tidy(b, now) && i < |b.order| && b.order[i] in b.pending
    ensures Remove(b, b.order[i]) == Cut(b, i)
  {
    forall j | 0 <= j < |b.order| && j != i
      ensures b.order[j] != b.order[i]
    {
      Unique(b, now, i, j);
    }
    WithoutSkips(b.order, i);
  }

  lemma DropCuts(b: Buffer)
    requires b.order != [] && b.order[0] in b.pending
    ensures DropOldest(b) == Cut(b, 0)
  {
    assert Skip(b.order, 0) == b.order[1..];
  }

  lemma {:induction false} CutTidy(b: Buffer, now: nat, i: nat)
    requires Tidy(b, now) && i < |b.order| && b.order[i] in b.pending
    ensures Tidy(Cut(b, i), now)
  {
    var c := Cut(b, i);
    forall j: nat
      ensures Listed(c, j)
    {
      if j < |c.order| {
        var from := if j < i then j else j + 1;
        assert Listed(b, from);
        Unique(b, now, from, i);
      }
    }
    forall j: nat, k: nat
      ensures InOrder(c, j, k)
    {
      assert InOrder(b, if j < i then j else j + 1, if k < i then k else k + 1);
    }
    forall k: Key
      ensures Dated(c, now, k)
    {
      assert Dated(b, now, k);
      if k in c.pending {
        var j :| 0 <= j < |b.order| && b.order[j] == k;
        assert c.order[if j < i then j else j - 1] == k;
      }
    }
  }

  lemma {:induction false} CutSum(b: Buffer, now: nat, i: nat)
    requires Tidy(b, now) && i < |b.order| && b.order[i] in b.pending && b.bytes == Sum(b.order, b.pending)
    ensures Cut(b, i).bytes == Sum(Cut(b, i).order, Cut(b, i).pending)
  {
    var c := Cut(b, i);
    SumSkip(b.order, i, b.pending);
    forall j | 0 <= j < |c.order|
      ensures c.order[j] in b.pending && c.order[j] in c.pending
    {
      var from := if j < i then j else j + 1;
      assert Listed(b, from);
      Unique(b, now, from, i);
    }
    SumFrame(c.order, b.pending, c.pending);
  }

  /** The invariant, with nothing said about the slots of one packet. */
  ghost predicate InvExcept(b: Buffer, now: nat, key: Key) {
    && Tidy(b, now)
    && (forall k: Key :: k != key ==> Sound(b, k))
    && b.bytes == Sum(b.order, b.pending) <= MAX_BUFFERED
    && |b.order| <= MAX_PENDING
  }

  lemma {:induction false} CutKeepsInv(b: Buffer, now: nat, i: nat)
    requires i < |b.order| && b.order[i] in b.pending && InvExcept(b, now, b.order[i])
    ensures Inv(Cut(b, i), now)
  {
    CutTidy(b, now, i);
    CutSum(b, now, i);
    forall k: Key
      ensures Sound(Cut(b, i), k)
    {
      assert k != b.order[i] ==> Sound(b, k);
    }
  }

  /** A removal takes exactly its own bytes, which are there to be taken. */
  lemma RemoveKeepsInv(b: Buffer, now: nat, key: Key)
    requires InvExcept(b, now, key) && key in b.pending
    ensures Inv(Remove(b, key), now) && b.bytes >= b.pending[key].bytes
  {
    assert Dated(b, now, key);
    var i :| 0 <= i < |b.order| && b.order[i] == key;
    RemoveCuts(b, now, i);
    CutKeepsInv(b, now, i);
  }

  lemma DropOldestKeepsInv(b: Buffer, now: nat)
    requires Inv(b, now) && b.order != []
    ensures b.order[0] in b.pending && Inv(DropOldest(b), now) && Remove(b, b.order[0]) == DropOldest(b)
  {
    assert Listed(b, 0);
    DropCuts(b);
    RemoveCuts(b, now, 0);
    CutKeepsInv(b, now, 0);
  }

  // ---------------------------------------------------------------- expiry and eviction

  /** The oldest packet is at the front. */
  lemma FrontIsOldest(b: Buffer, was: nat, now: nat, k: Key)
    requires Tidy(b, was) && b.order != [] && b.order[0] in b.pending && k in b.pending
    requires Fresh(b.pending[b.order[0]], now)
    ensures Fresh(b.pending[k], now)
  {
    assert Dated(b, was, k);
    var i :| 0 <= i < |b.order| && b.order[i] == k;
    assert InOrder(b, 0, i);
  }

  predicate Survives(b: Buffer, e: Buffer, now: nat, k: Key) {
    && (k in e.pending <==> k in b.pending && Fresh(b.pending[k], now))
    && (k in e.pending ==> e.pending[k] == b.pending[k])
  }

  /** The expiry loop looks at the oldest packet only, yet removes exactly the packets a full scan
      would: those not created within the retention time. */
  lemma {:induction false} ExpireIsFullScan(b: Buffer, was: nat, now: nat)
    requires Inv(b, was)
    ensures Inv(Expire(b, now), was)
    ensures forall k: Key :: Survives(b, Expire(b, now), now, k)
    decreases |b.order|
  {
    if b.order == [] {
      forall k: Key
        ensures Survives(b, b, now, k)
      {
        assert Dated(b, was, k);
      }
    } else {
      DropOldestKeepsInv(b, was);
      if Fresh(b.pending[b.order[0]], now) {
        forall k: Key
          ensures Survives(b, b, now, k)
        {
          if k in b.pending {
            FrontIsOldest(b, was, now, k);
          }
        }
      } else {
        ExpireIsFullScan(DropOldest(b), was, now);
        forall k: Key
          ensures Survives(b, Expire(b, now), now, k)
        {
          assert Survives(DropOldest(b), Expire(DropOldest(b), now), now, k);
        }
      }
    }
  }

  /** As many pending packets as order entries. */
  lemma {:induction false} TidySize(b: Buffer, now: nat)
    requires Inv(b, now)
    ensures |b.pending| == |b.order|
    decreases |b.order|
  {
    if b.order != [] {
      DropOldestKeepsInv(b, now);
      TidySize(DropOldest(b), now);
      assert b.pending.Keys == DropOldest(b).pending.Keys + {b.order[0]};
    } else {
      forall k: Key
        ensures k !in b.pending
      {
        assert Dated(b, now, k);
      }
      assert b.pending.Keys == {};
    }
  }

  /** After the eviction the fragment fits: an empty buffer has room for every fragment. */
  lemma {:induction false} EvictMakesRoom(b: Buffer, now: nat, key: Key, length: nat)
    requires Inv(b, now) && length <= MAX_PAYLOAD
    ensures Inv(Evict(b, key, length), now) && Fits(Evict(b, key, length), key, length)
    decreases |b.order|
  {
    if !Fits(b, key, length) {
      if b.order == [] {
        TidySize(b, now);
      } else {
        DropOldestKeepsInv(b, now);
        EvictMakesRoom(DropOldest(b), now, key, length);
      }
    }
  }

  /** The buffer without its `n` oldest packets. */
  function Dropped(b: Buffer, n: nat): Buffer
    requires n <= |b.order|
    decreases n
  {
    if n == 0 then b else Dropped(DropOldest(b), n - 1)
  }

  /** How many packets the eviction takes. */
  function Victims(b: Buffer, key: Key, length: nat): (n: nat)
    ensures n <= |b.order|
    decreases |b.order|
  {
    if Fits(b, key, length) || b.order == [] then 0 else 1 + Victims(DropOldest(b), key, length)
  }

  lemma {:induction false} EvictDrops(b: Buffer, key: Key, length: nat)
    ensures Evict(b, key, length) == Dropped(b, Victims(b, key, length))
    decreases |b.order|
  {
    if !(Fits(b, key, length) || b.order == []) {
      EvictDrops(DropOldest(b), key, length);
    }
  }

  /** Eviction takes the oldest packets first, and no more than needed: with any fewer gone, the
      fragment would not fit. */
  lemma {:induction false} EvictIsMinimal(b: Buffer, key: Key, length: nat, n: nat)
    requires n < Victims(b, key, length)
    ensures Evict(b, key, length) == Dropped(b, Victims(b, key, length)) && !Fits(Dropped(b, n), key, length)
    decreases |b.order|
  {
    EvictDrops(b, key, length);
    if n > 0 {
      EvictIsMinimal(DropOldest(b), key, length, n - 1);
    }
  }

  // ---------------------------------------------------------------- storing a fragment

  lemma {:induction false} EnterTidy(b: Buffer, key: Key, part: Fragment, now: nat)
    requires Tidy(b, now) && key !in b.pending
    ensures Tidy(Enter(b, key, part, now), now)
  {
    var e := Enter(b, key, part, now);
    forall i: nat
      ensures Listed(e, i)
    {
      assert Listed(b, i);
    }
    forall i: nat, j: nat
      ensures InOrder(e, i, j)
    {
      assert InOrder(b, i, j) && Listed(b, i) && Listed(b, j);
      if i < |b.order| {
        assert Dated(b, now, b.order[i]);
      }
    }
    forall k: Key
      ensures Dated(e, now, k)
    {
      assert Dated(b, now, k);
      if k == key {
        assert e.order[|b.order|] == key;
      } else if k in b.pending {
        var i :| 0 <= i < |b.order| && b.order[i] == k;
        assert e.order[i] == k;
      }
    }
  }

  lemma {:induction false} EnterKeepsInv(b: Buffer, key: Key, part: Fragment, now: nat)
    requires Inv(b, now) && Decoded(part) && part.count > 1 && Fits(b, key, 0)
    ensures Inv(Enter(b, key, part, now), now) && Enter(b, key, part, now).bytes == b.bytes
  {
    if key !in b.pending {
      var e := Enter(b, key, part, now);
      EnterTidy(b, key, part, now);
      EmptySlots(part.count);
      TidySize(b, now);
      forall i | 0 <= i < |b.order|
        ensures b.order[i] in b.pending && b.order[i] in e.pending &&
          b.pending[b.order[i]].bytes == e.pending[b.order[i]].bytes
      {
        assert Listed(b, i);
      }
      SumConcat(b.order, [key], e.pending);
      SumFrame(b.order, b.pending, e.pending);
      assert Sum([key], e.pending) == e.pending[key].bytes + Sum([key][1..], e.pending);
      forall k: Key
        ensures Sound(e, k)
      {
        assert Sound(b, k);
      }
    }
  }

  lemma {:induction false} FillTidy(b: Buffer, key: Key, part: Fragment, now: nat)
    requires Tidy(b, now) && key in b.pending && part.index < |b.pending[key].fragments|
    ensures Tidy(Fill(b, key, part), now)
  {
    var f := Fill(b, key, part);
    forall i: nat
      ensures Listed(f, i)
    {
      assert Listed(b, i);
    }
    forall i: nat, j: nat
      ensures InOrder(f, i, j)
    {
      assert InOrder(b, i, j);
    }
    forall k: Key
      ensures Dated(f, now, k)
    {
      assert Dated(b, now, k);
    }
  }

  lemma {:induction false} FillSum(b: Buffer, key: Key, part: Fragment, now: nat)
    requires Tidy(b, now) && key in b.pending && part.index < |b.pending[key].fragments| &&
      b.bytes == Sum(b.order, b.pending)
    ensures Fill(b, key, part).bytes == Sum(b.order, Fill(b, key, part).pending)
  {
    var f := Fill(b, key, part);
    assert Dated(b, now, key);
    var i :| 0 <= i < |b.order| && b.order[i] == key;
    SumSkip(b.order, i, b.pending);
    SumSkip(b.order, i, f.pending);
    var others := Skip(b.order, i);
    forall j | 0 <= j < |others|
      ensures others[j] in b.pending && others[j] != key
    {
      var from := if j < i then j else j + 1;
      assert Listed(b, from);
      Unique(b, now, from, i);
    }
    SumFrame(others, b.pending, f.pending);
  }

  lemma {:induction false} FillKeepsInv(b: Buffer, key: Key, part: Fragment, now: nat)
    requires Inv(b, now) && key in b.pending && part.index < |b.pending[key].fragments|
    requires b.pending[key].fragments[part.index].None? && b.bytes + |part.payload| <= MAX_BUFFERED
    ensures InvExcept(Fill(b, key, part), now, key)
    ensures var p := Fill(b, key, part).pending[key];
      p.received == Filled(p.fragments) && p.bytes == Total(p.fragments) && 2 <= |p.fragments| <= 255
  {
    FillTidy(b, key, part, now);
    FillSum(b, key, part, now);
    FillSlot(b.pending[key].fragments, part.index, part.payload);
    assert Sound(b, key);
    forall k: Key | k != key
      ensures Sound(Fill(b, key, part), k)
    {
      assert Sound(b, k);
    }
  }

  /** A filled packet that is neither complete nor too long is sound again. */
  lemma FilledIsSound(b: Buffer, now: nat, key: Key)
    requires InvExcept(b, now, key) && key in b.pending && EntryOk(b.pending[key])
    ensures Inv(b, now)
  {
    forall k: Key
      ensures Sound(b, k)
    {
      assert k != key ==> Sound(b, k);
    }
  }

  lemma {:induction false} StoreKeepsInv(b: Buffer, part: Fragment, now: nat)
    requires Inv(b, now) && Decoded(part) && part.count > 1
    requires Fits(b, (part.session, part.packet), |part.payload|)
    requires (part.session, part.packet) in b.pending ==>
      |b.pending[(part.session, part.packet)].fragments| == part.count
    ensures Inv(Store(b, part, now).0, now)
  {
    var key := (part.session, part.packet);
    var e := Enter(b, key, part, now);
    EnterKeepsInv(b, key, part, now);
    if e.pending[key].fragments[part.index].None? {
      FillKeepsInv(e, key, part, now);
      var f := Fill(e, key, part);
      FilledExactly(f.pending[key].fragments);
      if EntryOk(f.pending[key]) {
        FilledIsSound(f, now, key);
      } else {
        RemoveKeepsInv(f, now, key);
      }
    }
  }

  lemma InvLater(b: Buffer, was: nat, now: nat)
    requires Inv(b, was) && was <= now
    ensures Inv(b, now)
  {
    forall k: Key
      ensures Dated(b, now, k)
    {
      assert Dated(b, was, k);
    }
  }

  lemma SoundExcept(b: Buffer, now: nat, key: Key)
    requires Inv(b, now)
    ensures InvExcept(b, now, key)
  {}

  /** Every call keeps the bounds, the order and the counters. */
  lemma {:induction false} ReceiveKeepsInv(b: Buffer, part: Fragment, was: nat, now: nat)
    requires Inv(b, was) && was <= now && Decoded(part)
    ensures Inv(Receive(b, part, now).0, now)
  {
    var key := (part.session, part.packet);
    var young := Expire(b, now);
    ExpireIsFullScan(b, was, now);
    InvLater(young, was, now);
    if part.count != 1 {
      if key in young.pending && !Matches(young.pending[key], part) {
        SoundExcept(young, now, key);
        RemoveKeepsInv(young, now, key);
      } else {
        EvictMakesRoom(young, now, key, |part.payload|);
        StoreKeepsInv(Evict(young, key, |part.payload|), part, now);
      }
    }
  }

  /** What a call leaves pending was there before or was created by it. */
  lemma StoredIsFresh(b: Buffer, part: Fragment, now: nat, key: Key)
    requires Decoded(part) && part.count > 1
    requires (part.session, part.packet) in b.pending ==>
      |b.pending[(part.session, part.packet)].fragments| == part.count
    requires key in Store(b, part, now).0.pending
    ensures var p := Store(b, part, now).0.pending[key];
      p.created == now || (key in b.pending && p.created == b.pending[key].created)
  {}

  /** Nothing older than the retention time survives a call. */
  lemma {:induction false} NothingStaleSurvives(b: Buffer, part: Fragment, was: nat, now: nat, key: Key)
    requires Inv(b, was) && was <= now && Decoded(part) && key in Receive(b, part, now).0.pending
    ensures Fresh(Receive(b, part, now).0.pending[key], now)
  {
    ExpireIsFullScan(b, was, now);
    var young := Expire(b, now);
    assert Survives(b, young, now, key);
    var own := (part.session, part.packet);
    if part.count != 1 && !(own in young.pending && !Matches(young.pending[own], part)) {
      StoredIsFresh(Evict(young, own, |part.payload|), part, now, key);
    }
  }

  // ---------------------------------------------------------------- in place

  class Reassembler {
    var pending: map<Key, Pending>
    var order: seq<Key>
    var bytes: int

    function Value(): Buffer
      reads this
    {
      Buffer(pending, order, bytes)
    }

    constructor ()
      ensures Value() == Buffer(map[], [], 0) && Inv(Value(), 0)
    {
      pending, order, bytes := map[], [], 0;
    }

    method RemoveKey(key: Key)
      modifies this
      ensures Value() == Remove(old(Value()), key)
    {
      if key !in pending {
        return;
      }
      bytes := bytes - pending[key].bytes;
      pending := pending - {key};
      order := Without(order, key);
    }

    /** The expiry loop; it ends because every listed key is pending. */
    method ExpireOld(ghost was: nat, now: nat)
      requires Inv(Value(), was)
      modifies this
      ensures Inv(Value(), was) && Value() == Expire(old(Value()), now)
    {
      while order != []
        invariant Inv(Value(), was) && Expire(Value(), now) == Expire(old(Value()), now)
        decreases |order|
      {
        var key := order[0];
        DropOldestKeepsInv(Value(), was);
        if key in pending && Fresh(pending[key], now) {
          return;
        }
        RemoveKey(key);
      }
    }

    method EvictOld(key: Key, length: nat, ghost now: nat)
      requires Inv(Value(), now) && length <= MAX_PAYLOAD
      modifies this
      ensures Inv(Value(), now) && Value() == Evict(old(Value()), key, length) && Fits(Value(), key, length)
    {
      EvictMakesRoom(Value(), now, key, length);
      while bytes + length > MAX_BUFFERED || (key !in pending && |pending| >= MAX_PENDING)
        invariant Inv(Value(), now) && Evict(Value(), key, length) == Evict(old(Value()), key, length)
        decreases |order|
      {
        if order == [] {
          break;
        }
        DropOldestKeepsInv(Value(), now);
        RemoveKey(order[0]);
      }
    }

    /** Concatenates the fragments of a complete packet. */
    static method Collect(fragments: seq<Option<Bytes>>) returns (payload: Bytes)
      requires forall i :: 0 <= i < |fragments| ==> fragments[i].Some?
      ensures payload == Join(fragments)
    {
      payload := [];
      for i := 0 to |fragments|
        invariant payload == Join(fragments[..i])
      {
        assert fragments[..i + 1][..i] == fragments[..i];
        payload := payload + fragments[i].value;
      }
      assert fragments[..|fragments|] == fragments;
    }

    /** The entry of the packet, new if need be. */
    method EnterPart(key: Key, part: Fragment, now: nat)
      requires Inv(Value(), now) && Decoded(part) && part.count > 1 && Fits(Value(), key, 0)
      modifies this
      ensures Inv(Value(), now) && Value() == Enter(old(Value()), key, part, now)
    {
      EnterKeepsInv(Value(), key, part, now);
      if key !in pending {
        order := order + [key];
        pending := pending[key := Pending(part.target, NoFragments(part.count), 0, 0, now)];
      }
    }

    /** The empty slot of the fragment. */
    method FillPart(key: Key, part: Fragment, ghost now: nat)
      requires Inv(Value(), now) && key in pending && part.index < |pending[key].fragments|
      requires pending[key].fragments[part.index].None? && bytes + |part.payload| <= MAX_BUFFERED
      modifies this
      ensures InvExcept(Value(), now, key) && Value() == Fill(old(Value()), key, part)
      ensures var p := Value().pending[key]; p.received == Filled(p.fragments)
    {
      FillKeepsInv(Value(), key, part, now);
      var p := pending[key];
      p := p.(
        bytes := p.bytes + |part.payload|,
        received := p.received + 1,
        fragments := p.fragments[part.index := Some(part.payload)]);
      bytes := bytes + |part.payload|;
      pending := pending[key := p];
    }

    /** The entry and its slot, after the eviction. */
    method StorePart(part: Fragment, now: nat) returns (r: Outcome)
      requires Inv(Value(), now) && Decoded(part) && part.count > 1
      requires Fits(Value(), (part.session, part.packet), |part.payload|)
      requires (part.session, part.packet) in pending ==> |pending[(part.session, part.packet)].fragments| == part.count
      modifies this
      ensures Inv(Value(), now) && (Value(), r) == Store(old(Value()), part, now)
    {
      StoreKeepsInv(Value(), part, now);
      var key := (part.session, part.packet);
      EnterPart(key, part, now);
      if pending[key].fragments[part.index].Some? {
        return Nothing;
      }
      FillPart(key, part, now);
      var p := pending[key];
      if p.bytes > MAX_PAYLOAD {
        RemoveKey(key);
        return Rejected(Oversized);
      }
      if p.received != |p.fragments| {
        return Nothing;
      }
      FilledExactly(p.fragments);
      RemoveKey(key);
      var payload := Collect(p.fragments);
      r := Delivered(part.session, Packet(p.target, payload));
    }

    method ReceivePart(part: Fragment, ghost was: nat, now: nat) returns (r: Outcome)
      requires Inv(Value(), was) && was <= now && Decoded(part)
      modifies this
      ensures Inv(Value(), now) && (Value(), r) == Receive(old(Value()), part, now)
    {
      ReceiveKeepsInv(Value(), part, was, now);
      ExpireOld(was, now);
      InvLater(Value(), was, now);
      if part.count == 1 {
        return Delivered(part.session, Packet(part.target, part.payload));
      }
      var key := (part.session, part.packet);
      if key in pending && (pending[key].target != part.target || |pending[key].fragments| != part.count) {
        RemoveKey(key);
        return Rejected(Inconsistent);
      }
      EvictOld(key, |part.payload|, now);
      r := StorePart(part, now);
    }
  }

  // ---------------------------------------------------------------- runs

  datatype Event = Event(part: Fragment, now: nat)

  predicate Timely(events: seq<Event>) {
    && (forall i :: 0 <= i < |events| ==> Decoded(events[i].part))
    && (forall i, j :: 0 <= i < j < |events| ==> events[i].now <= events[j].now)
  }

  function Run(events: seq<Event>): Buffer
    requires forall i :: 0 <= i < |events| ==> Decoded(events[i].part)
    decreases |events|
  {
    if events == [] then Buffer(map[], [], 0)
    else
      var last := events[|events| - 1];
      Receive(Run(events[..|events| - 1]), last.part, last.now).0
  }

  function Clock(events: seq<Event>): nat { if events == [] then 0 else events[|events| - 1].now }

  /** Every run of calls, whatever the fragments. */
  lemma {:induction false} RunKeepsInv(events: seq<Event>)
    requires Timely(events)
    ensures Inv(Run(events), Clock(events))
    decreases |events|
  {
    if events != [] {
      var n := |events| - 1;
      RunKeepsInv(events[..n]);
      ReceiveKeepsInv(Run(events[..n]), events[n].part, Clock(events[..n]), events[n].now);
    }
  }
}
