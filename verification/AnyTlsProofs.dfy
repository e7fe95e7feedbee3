/** Every step of the AnyTLS client keeps its invariant. */
module AnyTlsProofs {
  import opened Common
  import opened SessionPool
  import opened AnyTls
  import A = SessionActor
  import SessionActorProofs

  // ---------------------------------------------------------------- openers of one actor

  lemma QueuedClaims(a: A.Actor, m: A.Message)
    requires m in a.messages && m.Open?
    ensures m.opener in Claimants(a)
  {}

  lemma StreamClaims(a: A.Actor, sid: A.Sid)
    requires sid in a.streams
    ensures a.streams[sid].opener in Claimants(a)
  {}

  /** The same streams with the same openers, and no `Open` that was not queued. */
  predicate SameOpeners(a: A.Actor, b: A.Actor) {
    && a.streams.Keys == b.streams.Keys
    && (forall sid :: sid in a.streams ==> a.streams[sid].opener == b.streams[sid].opener)
    && (forall m :: m in b.messages && m.Open? ==> m in a.messages)
  }

  /** A step that queues no `Open` and keeps every stream's opener claims nothing new. */
  lemma SameClaims(a: A.Actor, b: A.Actor)
    requires Distinct(a) && SameOpeners(a, b)
    ensures Distinct(b) && Claimants(b) <= Claimants(a)
  {
    forall o | o in Claimants(b)
      ensures o in Claimants(a)
    {
      if sid :| sid in b.streams && b.streams[sid].opener == o {
        StreamClaims(a, sid);
      } else {
        var m :| m in b.messages && m.Open? && m.opener == o;
        QueuedClaims(a, m);
      }
    }
  }

  lemma OpenClaims(a: A.Actor)
    requires A.Inv(a) && A.Ready(a) && a.messages != [] && a.messages[0].Open? && Distinct(a)
    ensures Distinct(A.HandleMessage(a)) && Claimants(A.HandleMessage(a)) <= Claimants(a)
  {
    var b := A.HandleMessage(a);
    var opener := a.messages[0].opener;
    QueuedClaims(a, a.messages[0]);
    SessionActorProofs.OpenFindsFree(a);
    if b.alive {
      forall m | m in b.messages
        ensures !m.Open?
      {
        var i :| 0 <= i < |b.messages| && b.messages[i] == m;
        assert !A.Opens(b.messages[i]);
      }
      assert a.messages[0] in a.messages;
      forall o | o in Claimants(b)
        ensures o in Claimants(a)
      {
        var sid :| sid in b.streams && b.streams[sid].opener == o;
        if sid in a.streams && sid != b.nextSid {
          StreamClaims(a, sid);
        }
      }
    } else {
      SameClaims(a, b);
    }
  }

  predicate OpensByMessage(a: A.Actor, step: A.Step) {
    step.Receive? && A.Ready(a) && a.messages != [] && a.messages[0].Open?
  }

  lemma StreamKeepsOpeners(a: A.Actor, step: A.Step)
    requires step.Write? || step.FlushStream? || step.Shutdown? || step.DropStream?
    ensures SameOpeners(a, A.HandleStream(a, step))
  {}

  lemma MessageKeepsOpeners(a: A.Actor)
    requires a.messages != [] && !a.messages[0].Open?
    ensures SameOpeners(a, A.HandleMessage(a))
  {}

  lemma KeepsOpeners(a: A.Actor, step: A.Step)
    requires !OpensByMessage(a, step)
    ensures SameOpeners(a, A.Next(a, step))
  {
    match step
    case Receive => if A.Ready(a) && a.messages != [] { MessageKeepsOpeners(a); }
    case ReceiveDropped =>
    case Act(_) =>
    case Flushed =>
    case Die =>
    case _ => StreamKeepsOpeners(a, step);
  }

  lemma {:induction false} MoveClaims(a: A.Actor, step: A.Step)
    requires A.Inv(a) && Distinct(a)
    ensures Distinct(A.Next(a, step)) && Claimants(A.Next(a, step)) <= Claimants(a)
  {
    if OpensByMessage(a, step) {
      OpenClaims(a);
    } else {
      KeepsOpeners(a, step);
      SameClaims(a, A.Next(a, step));
    }
  }

  // ---------------------------------------------------------------- the pool changes

  /** What pruning, reusing and draining have in common: slots only disappear, and only slots of
      idle or dead sessions do. */
  predicate Thinned(p: Pool, q: Pool) {
    q.sequence == p.sequence && q.sessions.Keys <= p.sessions.Keys && forall id :: id in q.idle ==> id in p.idle
  }

  lemma {:induction false} ThinningKeepsInv(s: State, pool: Pool)
    requires Inv(s) && Valid(pool) && Thinned(s.pool, pool)
    ensures Inv(WithPool(s, pool))
  {
    var t := WithPool(s, pool);
    forall id: Id
      ensures ActorOk(t, id)
      ensures Pooled(t, id)
      ensures Owned(t, id)
    {
      assert ActorOk(s, id) && Pooled(s, id) && Owned(s, id);
      if id in s.actors {
        forall o | o in Claimants(s.actors[id])
          ensures At(t, o) == Published(id)
        {}
        if exists o :: At(s, o) == Inserting(id) {
          var o :| At(s, o) == Inserting(id);
          assert At(t, o) == Inserting(id);
        }
      }
    }
    forall o: A.Opener
      ensures OpenerOk(t, o)
    {
      assert OpenerOk(s, o);
    }
    forall o: A.Opener, p: A.Opener
      ensures PairOk(t, o, p)
    {
      assert PairOk(s, o, p);
    }
  }

  lemma TickKeepsInv(s: State, now: nat)
    requires Inv(s)
    ensures Inv(Next(s, Tick(now)))
  {
    PruneKeepsValid(s.pool, ClosedSessions(s), now, s.timeout);
    ThinningKeepsInv(s, Prune(s.pool, ClosedSessions(s), now, s.timeout));
  }

  lemma DrainKeepsInv(s: State)
    requires Inv(s)
    ensures Inv(Next(s, DrainPool))
  {
    DrainKeepsValid(s.pool);
    ThinningKeepsInv(s, Drain(s.pool));
  }

  // ---------------------------------------------------------------- the opener changes

  /** Only opener `o` moves, and it was not yet published. */
  ghost predicate OnlyOpener(s: State, t: State, o: A.Opener) {
    && (forall p :: p != o ==> At(t, p) == At(s, p))
    && !At(s, o).Published?
    && t.openers.Keys == s.openers.Keys + {o}
    && s.nextOpener <= t.nextOpener && o < t.nextOpener
  }

  /** The parts of the invariant about the other openers and the untouched sessions. */
  lemma {:induction false} OpenerMoves(s: State, t: State, o: A.Opener)
    requires Inv(s) && OnlyOpener(s, t, o) && Valid(t.pool)
    requires t.actors == s.actors && t.pool == s.pool && s.closing <= t.closing
    requires Holding(At(t, o)) ==>
      Holding(At(s, o)) && At(t, o).id == At(s, o).id && At(t, o).Inserting? == At(s, o).Inserting?
    requires At(s, o).Inserting? && !At(t, o).Inserting? ==> At(s, o).id in t.closing
    ensures Inv(t)
  {
    forall id: Id
      ensures ActorOk(t, id)
      ensures Pooled(t, id)
      ensures Owned(t, id)
    {
      assert ActorOk(s, id) && Pooled(s, id) && Owned(s, id);
      if exists p :: At(s, p) == Inserting(id) {
        var p :| At(s, p) == Inserting(id);
        assert At(t, p) == Inserting(id) || id in t.closing;
      }
    }
    forall p: A.Opener
      ensures OpenerOk(t, p)
    {
      assert OpenerOk(s, p);
    }
    forall p: A.Opener, q: A.Opener
      ensures PairOk(t, p, q)
    {
      assert PairOk(s, p, q);
    }
  }

  lemma RequestKeepsInv(s: State)
    requires Inv(s)
    ensures Inv(Next(s, Request))
  {
    assert OpenerOk(s, s.nextOpener);
    OpenerMoves(s, Next(s, Request), s.nextOpener);
  }

  lemma AbandonKeepsInv(s: State, o: A.Opener)
    requires Inv(s)
    ensures Inv(Next(s, Abandon(o)))
  {
    assert OpenerOk(s, o);
    if DoAbandon(s, o) != s {
      OpenerMoves(s, DoAbandon(s, o), o);
    }
  }

  /** Handing out an idle session. */
  lemma {:induction false} GiveOut(s: State, o: A.Opener, id: Id)
    requires Inv(s) && At(s, o) == Requesting && id in s.actors && A.Free(s.actors[id])
    requires id !in s.pool.idle && (forall p :: Holding(At(s, p)) ==> At(s, p).id != id)
    ensures Inv(Set(s, o, Publishing(id)))
  {
    var t := Set(s, o, Publishing(id));
    forall k: Id
      ensures ActorOk(t, k)
      ensures Pooled(t, k)
      ensures Owned(t, k)
    {
      assert ActorOk(s, k) && Pooled(s, k) && Owned(s, k);
      if exists p :: At(s, p) == Inserting(k) {
        var p :| At(s, p) == Inserting(k);
        assert At(t, p) == Inserting(k);
      }
    }
    forall p: A.Opener
      ensures OpenerOk(t, p)
    {
      assert OpenerOk(s, p);
    }
    forall p: A.Opener, q: A.Opener
      ensures PairOk(t, p, q)
    {
      assert PairOk(s, p, q);
      assert Holding(At(s, p)) ==> At(s, p).id != id;
      assert Holding(At(s, q)) ==> At(s, q).id != id;
    }
  }

  lemma {:induction false} TakeKeepsInv(s: State, o: A.Opener, now: nat)
    requires Inv(s)
    ensures Inv(Next(s, TakeIdle(o, now)))
  {
    if At(s, o) == Requesting {
      var closed := ClosedSessions(s);
      var (pool, found) := Reuse(s.pool, closed, now, s.timeout);
      ReuseTakesTheNewest(s.pool, closed, now, s.timeout);
      PruneKeepsValid(s.pool, closed, now, s.timeout);
      assert Thinned(s.pool, pool);
      ThinningKeepsInv(s, pool);
      var t := WithPool(s, pool);
      if found.Some? {
        assert Pooled(s, found.value);
        forall p | Holding(At(t, p))
          ensures At(t, p).id != found.value
        {
          assert OpenerOk(s, p);
        }
        GiveOut(t, o, found.value);
      } else {
        assert OpenerOk(t, o);
        OpenerMoves(t, Set(t, o, Connecting), o);
      }
    }
  }

  lemma StartIsOk()
    ensures A.Inv(A.Start()) && Distinct(A.Start()) && Claimants(A.Start()) == {} && A.Free(A.Start())
  {
    forall sid: A.Sid
      ensures A.FlowOk(A.Start(), sid)
    {}
  }

  lemma StartKeepsActors(s: State, o: A.Opener, k: Id)
    requires Inv(s) && At(s, o) == Connecting && s.pool.sequence < MAX_SEQUENCE
    ensures var t := DoStart(s, o, true); ActorOk(t, k) && Pooled(t, k) && Owned(t, k)
  {
    var t := DoStart(s, o, true);
    var id := s.pool.sequence + 1;
    StartIsOk();
    assert Pooled(s, id) && ActorOk(s, k) && Pooled(s, k) && Owned(s, k);
    if exists p :: At(s, p) == Inserting(k) {
      var p :| At(s, p) == Inserting(k);
      assert At(t, p) == Inserting(k);
    }
    assert At(t, o) == Inserting(id);
  }

  lemma {:induction false} StartKeepsInv(s: State, o: A.Opener, ok: bool)
    requires Inv(s)
    ensures Inv(Next(s, StartSession(o, ok)))
  {
    var t := DoStart(s, o, ok);
    assert OpenerOk(s, o);
    if At(s, o) == Connecting && ok && s.pool.sequence < MAX_SEQUENCE {
      var id := s.pool.sequence + 1;
      StartIsOk();
      assert Pooled(s, id);
      forall k: Id
        ensures ActorOk(t, k)
        ensures Pooled(t, k)
        ensures Owned(t, k)
      {
        StartKeepsActors(s, o, k);
      }
      forall p: A.Opener
        ensures OpenerOk(t, p)
      {
        assert OpenerOk(s, p);
      }
      forall p: A.Opener, q: A.Opener
        ensures PairOk(t, p, q)
      {
        assert PairOk(s, p, q) && OpenerOk(s, p) && OpenerOk(s, q);
      }
    } else if t != s {
      OpenerMoves(s, t, o);
    }
  }

  lemma {:induction false} InsertKeepsInv(s: State, o: A.Opener)
    requires Inv(s)
    ensures Inv(Next(s, Insert(o)))
  {
    if At(s, o).Inserting? {
      var t := DoInsert(s, o);
      var id := At(s, o).id;
      assert OpenerOk(s, o);
      forall k: Id
        ensures ActorOk(t, k)
        ensures Pooled(t, k)
        ensures Owned(t, k)
      {
        assert ActorOk(s, k) && Pooled(s, k) && Owned(s, k);
        if k != id && exists p :: At(s, p) == Inserting(k) {
          var p :| At(s, p) == Inserting(k);
          assert At(t, p) == Inserting(k);
        }
      }
      forall p: A.Opener
        ensures OpenerOk(t, p)
      {
        assert OpenerOk(s, p) && PairOk(s, p, o);
      }
      forall p: A.Opener, q: A.Opener
        ensures PairOk(t, p, q)
      {
        assert PairOk(s, p, q);
      }
    }
  }

  // ---------------------------------------------------------------- the actor changes

  lemma PublishClaims(a: A.Actor, o: A.Opener)
    requires Distinct(a) && o !in Claimants(a)
    ensures var b := a.(messages := a.messages + [A.Open(o)]); Distinct(b) && Claimants(b) == Claimants(a) + {o}
  {
    var b := a.(messages := a.messages + [A.Open(o)]);
    assert A.Open(o) in b.messages;
    forall m, i | m in b.messages && i in b.streams
      ensures m.Open? ==> m.opener != b.streams[i].opener
    {
      StreamClaims(a, i);
    }
    forall p
      ensures p in Claimants(b) <==> p in Claimants(a) + {o}
    {
      if p in Claimants(a) {
        if sid :| sid in a.streams && a.streams[sid].opener == p {
          StreamClaims(b, sid);
        } else {
          var m :| m in a.messages && m.Open? && m.opener == p;
          assert m in b.messages;
          QueuedClaims(b, m);
        }
      }
      QueuedClaims(b, A.Open(o));
    }
  }

  lemma PublishKeepsActors(s: State, o: A.Opener, k: Id)
    requires Inv(s) && At(s, o).Publishing? && At(s, o).id in s.actors && s.actors[At(s, o).id].alive
    ensures var t := DoPublish(s, o); ActorOk(t, k) && Pooled(t, k) && Owned(t, k)
  {
    var id := At(s, o).id;
    var t := DoPublish(s, o);
    assert OpenerOk(s, o) && ActorOk(s, id);
    assert ActorOk(s, k) && Pooled(s, k) && Owned(s, k);
    SessionActorProofs.PublishKeepsInv(s.actors[id], o);
    assert o !in Claimants(s.actors[id]);
    PublishClaims(s.actors[id], o);
    if exists p :: At(s, p) == Inserting(k) {
      var p :| At(s, p) == Inserting(k);
      assert At(t, p) == Inserting(k);
    }
  }

  lemma {:induction false} PublishKeepsInv(s: State, o: A.Opener)
    requires Inv(s)
    ensures Inv(Next(s, Publish(o)))
  {
    if At(s, o).Publishing? {
      var t := DoPublish(s, o);
      var id := At(s, o).id;
      assert OpenerOk(s, o) && ActorOk(s, id);
      if !s.actors[id].alive {
        OpenerMoves(s, t, o);
      } else {
        forall k: Id
          ensures ActorOk(t, k)
          ensures Pooled(t, k)
          ensures Owned(t, k)
        {
          PublishKeepsActors(s, o, k);
        }
        forall p: A.Opener
          ensures OpenerOk(t, p)
        {
          assert OpenerOk(s, p) && PairOk(s, p, o);
        }
        forall p: A.Opener, q: A.Opener
          ensures PairOk(t, p, q)
        {
          assert PairOk(s, p, q);
        }
      }
    }
  }

  /** Only the actor of one session changes, it claims nothing new and a free one stays free. */
  lemma {:induction false} ActorMoves(s: State, id: Id, b: A.Actor)
    requires Inv(s) && id in s.actors
    requires A.Inv(b) && Distinct(b) && Claimants(b) <= Claimants(s.actors[id])
    requires A.Free(s.actors[id]) ==> A.Free(b)
    requires b.alive ==> s.actors[id].alive
    ensures Inv(s.(actors := s.actors[id := b]))
  {
    var t := s.(actors := s.actors[id := b]);
    forall k: Id
      ensures ActorOk(t, k)
      ensures Pooled(t, k)
      ensures Owned(t, k)
    {
      assert ActorOk(s, k) && Pooled(s, k) && Owned(s, k);
      if exists p :: At(s, p) == Inserting(k) {
        var p :| At(s, p) == Inserting(k);
        assert At(t, p) == Inserting(k);
      }
    }
    forall p: A.Opener
      ensures OpenerOk(t, p)
    {
      assert OpenerOk(s, p);
    }
    forall p: A.Opener, q: A.Opener
      ensures PairOk(t, p, q)
    {
      assert PairOk(s, p, q);
    }
  }

  lemma AliveStays(a: A.Actor, step: A.Step)
    ensures A.Next(a, step).alive ==> a.alive
  {}

  lemma {:induction false} MoveKeepsInv(s: State, id: Id, step: A.Step)
    requires Inv(s)
    ensures Inv(Next(s, Move(id, step)))
  {
    if id in s.actors {
      var a := s.actors[id];
      assert ActorOk(s, id);
      SessionActorProofs.StepKeepsInv(a, step);
      MoveClaims(a, step);
      AliveStays(a, step);
      if A.Free(a) {
        SessionActorProofs.FreeStaysFree(a, step);
      }
      ActorMoves(s, id, A.Next(a, step));
    }
  }

  /** A session calling back is neither idle nor held by an opener, so marking it idle is legal. */
  lemma CallerIsBusy(s: State, id: Id)
    requires Inv(s) && id in s.actors && s.actors[id].pc.CallingIdle?
    ensures id !in s.pool.idle && (id in s.pool.sessions ==> s.pool.sessions[id].None?)
    ensures forall o :: Holding(At(s, o)) ==> At(s, o).id != id
  {
    assert Pooled(s, id);
    assert id in s.pool.idle <==> id in s.pool.sessions && s.pool.sessions[id].Some?;
    forall o | Holding(At(s, o))
      ensures At(s, o).id != id
    {
      assert OpenerOk(s, o);
    }
  }

  lemma {:induction false} MarkKeepsInv(s: State, id: Id, now: nat)
    requires Inv(s) && id in s.actors && s.actors[id].alive && A.Free(s.actors[id]) && id !in s.pool.idle
    requires forall o :: Holding(At(s, o)) ==> At(s, o).id != id
    ensures Inv(WithPool(s, MarkIdle(s.pool, id, now)))
  {
    var t := WithPool(s, MarkIdle(s.pool, id, now));
    MarkIdleKeepsValid(s.pool, id, now);
    forall k: Id
      ensures ActorOk(t, k)
      ensures Pooled(t, k)
      ensures Owned(t, k)
    {
      assert ActorOk(s, k) && Pooled(s, k) && Owned(s, k);
      if exists p :: At(s, p) == Inserting(k) {
        var p :| At(s, p) == Inserting(k);
        assert At(t, p) == Inserting(k);
      }
    }
    forall p: A.Opener
      ensures OpenerOk(t, p)
    {
      assert OpenerOk(s, p);
    }
    forall p: A.Opener, q: A.Opener
      ensures PairOk(t, p, q)
    {
      assert PairOk(s, p, q);
    }
  }

  lemma {:induction false} CallIdleKeepsInv(s: State, id: Id, now: nat)
    requires Inv(s)
    ensures Inv(Next(s, CallIdle(id, now)))
  {
    if id in s.actors && s.actors[id].alive && s.actors[id].pc.CallingIdle? {
      assert ActorOk(s, id);
      CallerIsBusy(s, id);
      var b := s.actors[id].(pc := A.Running);
      SessionActorProofs.CalledIdleKeepsInv(s.actors[id]);
      SameClaims(s.actors[id], b);
      ActorMoves(s, id, b);
      var t := s.(actors := s.actors[id := b]);
      forall o | Holding(At(t, o))
        ensures At(t, o).id != id
      {
        assert At(s, o) == At(t, o);
      }
      MarkKeepsInv(t, id, now);
    }
  }

  lemma {:induction false} StepKeepsInv(s: State, step: Step)
    requires Inv(s)
    ensures Inv(Next(s, step))
  {
    match step
    case Request => RequestKeepsInv(s);
    case TakeIdle(o, now) => TakeKeepsInv(s, o, now);
    case StartSession(o, ok) => StartKeepsInv(s, o, ok);
    case Insert(o) => InsertKeepsInv(s, o);
    case Publish(o) => PublishKeepsInv(s, o);
    case Abandon(o) => AbandonKeepsInv(s, o);
    case Tick(now) => TickKeepsInv(s, now);
    case DrainPool => DrainKeepsInv(s);
    case CallIdle(id, now) => CallIdleKeepsInv(s, id, now);
    case Move(id, a) => MoveKeepsInv(s, id, a);
  }

  lemma {:induction false} RunKeepsInv(timeout: nat, steps: seq<Step>)
    ensures Inv(Exec(Init(timeout), steps))
    decreases |steps|
  {
    if steps != [] {
      RunKeepsInv(timeout, steps[..|steps| - 1]);
      StepKeepsInv(Exec(Init(timeout), steps[..|steps| - 1]), steps[|steps| - 1]);
    }
  }

  // ---------------------------------------------------------------- the promises

  /** The idle list has no duplicates and names exactly the pooled sessions with `idle_since`
      set; once draining it is empty for good. */
  lemma IdleListIsExact(timeout: nat, steps: seq<Step>)
    ensures Valid(Exec(Init(timeout), steps).pool)
  {
    RunKeepsInv(timeout, steps);
  }

  lemma {:induction false} DrainingIsForever(s: State, steps: seq<Step>)
    requires s.pool.draining
    ensures Exec(s, steps).pool.draining
    decreases |steps|
  {
    if steps != [] {
      DrainingIsForever(s, steps[..|steps| - 1]);
    }
  }

  lemma DrainedStaysEmpty(timeout: nat, before: seq<Step>, after: seq<Step>)
    ensures Exec(Next(Exec(Init(timeout), before), DrainPool), after).pool.idle == []
  {
    var s := Next(Exec(Init(timeout), before), DrainPool);
    DrainingIsForever(s, after);
    assert (before + [DrainPool])[..|before|] == before;
    ExecAppend(Init(timeout), before + [DrainPool], after);
    RunKeepsInv(timeout, before + [DrainPool] + after);
  }

  lemma {:induction false} ExecAppend(s: State, first: seq<Step>, second: seq<Step>)
    ensures Exec(s, first + second) == Exec(Exec(s, first), second)
    decreases |second|
  {
    if second == [] {
      assert first + second == first;
    } else {
      var n := |second| - 1;
      assert (first + second)[..|first| + n] == first + second[..n];
      ExecAppend(s, first, second[..n]);
    }
  }

  /** A session that is held by an opener, has an `Open` queued, serves a stream or is closing one
      is not idle, so it is not handed out again; and no two openers hold the same session. */
  lemma HandedOutOnce(timeout: nat, steps: seq<Step>, o: A.Opener, p: A.Opener, id: Id)
    ensures var s := Exec(Init(timeout), steps);
      && (Holding(At(s, o)) ==> At(s, o).id !in s.pool.idle)
      && (id in s.actors && !A.Free(s.actors[id]) ==> id !in s.pool.idle && (Holding(At(s, o)) ==> At(s, o).id != id))
      && (Holding(At(s, o)) && Holding(At(s, p)) && At(s, o).id == At(s, p).id ==> o == p)
  {
    RunKeepsInv(timeout, steps);
    var s := Exec(Init(timeout), steps);
    assert OpenerOk(s, o) && OpenerOk(s, p) && PairOk(s, o, p) && Pooled(s, id);
  }

  /** An `Open` never meets a busy session. */
  lemma OpenNeverMeetsBusy(timeout: nat, steps: seq<Step>, id: Id)
    requires var s := Exec(Init(timeout), steps);
      id in s.actors && A.Ready(s.actors[id]) && s.actors[id].messages != [] && s.actors[id].messages[0].Open?
    ensures Exec(Init(timeout), steps).actors[id].entries == {}
  {
    RunKeepsInv(timeout, steps);
    assert ActorOk(Exec(Init(timeout), steps), id);
    SessionActorProofs.OpenFindsFree(Exec(Init(timeout), steps).actors[id]);
  }

  /** Late messages never close a newer stream: whenever a queued message or drop takes an entry
      away, the holder of that very stream shut it down or dropped it. */
  lemma LateMessagesCloseNothing(timeout: nat, steps: seq<Step>, id: Id, sid: A.Sid)
    requires id in Exec(Init(timeout), steps).actors && sid in Exec(Init(timeout), steps).actors[id].entries
    ensures SessionActorProofs.ClosedByHolder(Exec(Init(timeout), steps).actors[id], sid)
  {
    RunKeepsInv(timeout, steps);
    assert ActorOk(Exec(Init(timeout), steps), id);
    SessionActorProofs.OnlyItsHolderCloses(Exec(Init(timeout), steps).actors[id], sid);
  }

  /** Late data never reaches a newer stream: what a session sends under a stream's identity is
      always a prefix of what that stream's own holder wrote, nothing is missing while it is open,
      and the frames make sense to the peer: one stream at a time, identities counting up, data
      only between SYN and FIN. */
  lemma StreamsStayApart(timeout: nat, steps: seq<Step>, id: Id, sid: A.Sid)
    requires var s := Exec(Init(timeout), steps); id in s.actors && sid in s.actors[id].streams
    ensures var a := Exec(Init(timeout), steps).actors[id];
      && A.Pushed(a.wire, sid) <= a.streams[sid].written
      && (sid in a.entries ==> a.streams[sid].written == A.Pushed(a.wire, sid) + A.Queued(a.messages, sid))
      && A.Track(a.wire).View?
  {
    RunKeepsInv(timeout, steps);
    assert ActorOk(Exec(Init(timeout), steps), id);
    assert A.FlowOk(Exec(Init(timeout), steps).actors[id], sid);
  }

  /** Each opener is served by one stream of one session at most. */
  lemma OneStreamPerOpener(timeout: nat, steps: seq<Step>, id: Id, k: Id, sid: A.Sid, other: A.Sid)
    requires var s := Exec(Init(timeout), steps);
      && id in s.actors && sid in s.actors[id].streams
      && k in s.actors && other in s.actors[k].streams
      && s.actors[id].streams[sid].opener == s.actors[k].streams[other].opener
    ensures id == k && sid == other
  {
    RunKeepsInv(timeout, steps);
    var s := Exec(Init(timeout), steps);
    assert ActorOk(s, id) && ActorOk(s, k);
    StreamClaims(s.actors[id], sid);
    StreamClaims(s.actors[k], other);
  }

  /** No session leaks: a live one is in the pool, about to enter it, or being closed. */
  lemma NoSessionLeaks(timeout: nat, steps: seq<Step>, id: Id)
    requires id in Exec(Init(timeout), steps).actors && Exec(Init(timeout), steps).actors[id].alive
    ensures var s := Exec(Init(timeout), steps);
      id in s.pool.sessions || id in s.closing || exists o :: At(s, o) == Inserting(id)
  {
    RunKeepsInv(timeout, steps);
    assert Owned(Exec(Init(timeout), steps), id);
  }

  /** The pool's own assertions hold at every callback: a session marked idle was not idle. */
  lemma MarkedSessionsWereBusy(timeout: nat, steps: seq<Step>, id: Id)
    requires var s := Exec(Init(timeout), steps);
      id in s.actors && s.actors[id].pc.CallingIdle? && id in s.pool.sessions
    ensures Exec(Init(timeout), steps).pool.sessions[id].None?
  {
    RunKeepsInv(timeout, steps);
    CallerIsBusy(Exec(Init(timeout), steps), id);
  }
}
