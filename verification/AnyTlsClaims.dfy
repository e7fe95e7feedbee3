/** No AnyTLS session is lost: whoever could use it again can. */
module AnyTlsClaims {
  import opened Common
  import opened SessionPool
  import opened AnyTls
  import opened AnyTlsProofs
  import A = SessionActor
  import SessionActorProofs

  /** Everybody who holds a session in `s` still holds it in `t`. */
  ghost predicate HoldersStay(s: State, t: State) {
    forall p :: Holding(At(s, p)) ==> Holding(At(t, p)) && At(t, p).id == At(s, p).id
  }

  lemma HeldStays(s: State, t: State, id: Id)
    requires HoldersStay(s, t) && HeldBySomeone(s, id)
    ensures HeldBySomeone(t, id)
  {
    var o :| Holding(At(s, o)) && At(s, o).id == id;
    assert Holding(At(t, o)) && At(t, o).id == id;
  }

  /** Steps that take no session away from a holder or from the idle list without closing it. */
  lemma {:induction false} QuietStep(s: State, t: State)
    requires Claims(s) && HoldersStay(s, t) && t.actors == s.actors && s.closing <= t.closing
    requires forall id :: id in s.pool.idle ==> id in t.pool.idle || id in t.closing
    ensures Claims(t)
  {
    forall id: Id
      ensures Claimed(t, id)
    {
      assert Claimed(s, id);
      if HeldBySomeone(s, id) {
        HeldStays(s, t, id);
      }
    }
  }

  lemma RequestKeepsClaims(s: State)
    requires Inv(s) && Claims(s)
    ensures Claims(Next(s, Request))
  {
    var t := Next(s, Request);
    forall p | Holding(At(s, p))
      ensures Holding(At(t, p)) && At(t, p).id == At(s, p).id
    {
      assert OpenerOk(s, p);
    }
    QuietStep(s, t);
  }

  /** A pruned or drained session that was idle is closed. */
  lemma ThinningKeepsClaims(s: State, pool: Pool)
    requires Inv(s) && Claims(s)
    requires forall id :: id in s.pool.idle ==> id in pool.idle || id !in pool.sessions
    ensures Claims(WithPool(s, pool))
  {
    var t := WithPool(s, pool);
    forall id | id in s.pool.idle
      ensures id in t.pool.idle || id in t.closing
    {
      assert id in s.pool.idle <==> id in s.pool.sessions && s.pool.sessions[id].Some?;
    }
    assert forall p :: At(t, p) == At(s, p);
    QuietStep(s, t);
  }

  lemma PruneCloses(p: Pool, closed: set<Id>, now: nat, timeout: nat, id: Id)
    requires Valid(p) && id in p.idle
    ensures id in Prune(p, closed, now, timeout).idle || id !in Prune(p, closed, now, timeout).sessions
  {
    PruneKeepsValid(p, closed, now, timeout);
  }

  lemma TickKeepsClaims(s: State, now: nat)
    requires Inv(s) && Claims(s)
    ensures Claims(WithPool(s, Prune(s.pool, ClosedSessions(s), now, s.timeout)))
  {
    forall id | id in s.pool.idle
      ensures id in Prune(s.pool, ClosedSessions(s), now, s.timeout).idle ||
        id !in Prune(s.pool, ClosedSessions(s), now, s.timeout).sessions
    {
      PruneCloses(s.pool, ClosedSessions(s), now, s.timeout, id);
    }
    ThinningKeepsClaims(s, Prune(s.pool, ClosedSessions(s), now, s.timeout));
  }

  lemma DrainKeepsClaims(s: State)
    requires Inv(s) && Claims(s)
    ensures Claims(Next(s, DrainPool))
  {
    DrainKeepsValid(s.pool);
    ThinningKeepsClaims(s, Drain(s.pool));
  }

  /** An opener that held nothing gets the newest idle session, or none. */
  lemma {:induction false} HandOut(s: State, o: A.Opener, pc: OpenerPc, pool: Pool)
    requires Claims(s) && !Holding(At(s, o))
    requires forall id :: id in s.pool.idle ==> id in pool.idle || (Holding(pc) && pc.id == id)
    ensures Claims(Set(s.(pool := pool), o, pc))
  {
    var t := Set(s.(pool := pool), o, pc);
    assert At(t, o) == pc;
    forall id: Id
      ensures Claimed(t, id)
    {
      assert Claimed(s, id);
      if HeldBySomeone(s, id) {
        assert HoldersStay(s, t);
        HeldStays(s, t, id);
      }
    }
  }

  /** Reuse is a prune, then handing out the last of what is left. */
  lemma ReuseIsPop(p: Pool, closed: set<Id>, now: nat, timeout: nat)
    requires Valid(p)
    ensures var pruned := Prune(p, closed, now, timeout);
      var (pool, found) := Reuse(p, closed, now, timeout);
      && pool.sessions.Keys == pruned.sessions.Keys
      && (found.None? ==> pool == pruned && pruned.idle == [])
      && (found.Some? ==> pruned.idle == pool.idle + [found.value])
  {
    PruneKeepsValid(p, closed, now, timeout);
    if Prune(p, closed, now, timeout).idle != [] {
      PopKeepsValid(Prune(p, closed, now, timeout));
    }
  }

  lemma WithPoolTwice(s: State, first: Pool, second: Pool)
    requires second.sessions.Keys == first.sessions.Keys
    ensures WithPool(s, second) == WithPool(s, first).(pool := second)
  {}

  lemma {:induction false} TakeKeepsClaims(s: State, o: A.Opener, now: nat)
    requires Inv(s) && Claims(s)
    ensures Claims(Next(s, TakeIdle(o, now)))
  {
    if At(s, o) == Requesting {
      TickKeepsClaims(s, now);
      var pruned := Prune(s.pool, ClosedSessions(s), now, s.timeout);
      var (pool, found) := Reuse(s.pool, ClosedSessions(s), now, s.timeout);
      ReuseIsPop(s.pool, ClosedSessions(s), now, s.timeout);
      WithPoolTwice(s, pruned, pool);
      HandOut(WithPool(s, pruned), o, if found.Some? then Publishing(found.value) else Connecting, pool);
    }
  }

  /** An opener lets go of its session only by closing it. */
  lemma {:induction false} LetGo(s: State, t: State, o: A.Opener)
    requires Claims(s) && t.actors == s.actors && t.pool == s.pool && s.closing <= t.closing
    requires (forall p :: p != o ==> At(t, p) == At(s, p)) &&
      (Holding(At(s, o)) && !Holding(At(t, o)) ==> At(s, o).id in t.closing)
    requires Holding(At(s, o)) && Holding(At(t, o)) ==> At(t, o).id == At(s, o).id
    ensures Claims(t)
  {
    forall id: Id
      ensures Claimed(t, id)
    {
      assert Claimed(s, id);
      if HeldBySomeone(s, id) {
        var p :| Holding(At(s, p)) && At(s, p).id == id;
        assert id in t.closing || (Holding(At(t, p)) && At(t, p).id == id);
      }
    }
  }

  lemma {:induction false} StartKeepsClaims(s: State, o: A.Opener, ok: bool)
    requires Inv(s) && Claims(s)
    ensures Claims(Next(s, StartSession(o, ok)))
  {
    var t := DoStart(s, o, ok);
    if At(s, o) == Connecting {
      if ok && s.pool.sequence < MAX_SEQUENCE {
        assert At(t, o) == Inserting(s.pool.sequence + 1);
        forall id: Id
          ensures Claimed(t, id)
        {
          assert Claimed(s, id) && Pooled(s, id);
          if HeldBySomeone(s, id) {
            assert HoldersStay(s, t);
            HeldStays(s, t, id);
          }
        }
      } else {
        LetGo(s, t, o);
      }
    }
  }

  lemma {:induction false} InsertKeepsClaims(s: State, o: A.Opener)
    requires Inv(s) && Claims(s)
    ensures Claims(Next(s, Insert(o)))
  {
    if At(s, o).Inserting? {
      var t := DoInsert(s, o);
      assert HoldersStay(s, t);
      QuietStep(s, t);
    }
  }

  lemma {:induction false} PublishKeepsClaims(s: State, o: A.Opener)
    requires Inv(s) && Claims(s)
    ensures Claims(Next(s, Publish(o)))
  {
    if At(s, o).Publishing? {
      var t := DoPublish(s, o);
      var id := At(s, o).id;
      assert OpenerOk(s, o);
      if !s.actors[id].alive {
        LetGo(s, t, o);
      } else {
        assert A.Opens(t.actors[id].messages[|s.actors[id].messages|]);
        forall k: Id
          ensures Claimed(t, k)
        {
          assert Claimed(s, k);
          if k != id && HeldBySomeone(s, k) {
            var p :| Holding(At(s, p)) && At(s, p).id == k;
            assert Holding(At(t, p)) && At(t, p).id == k;
          }
        }
      }
    }
  }

  lemma {:induction false} MoveKeepsClaims(s: State, id: Id, step: A.Step)
    requires Inv(s) && Claims(s)
    ensures Claims(Next(s, Move(id, step)))
  {
    if id in s.actors {
      var t := Next(s, Move(id, step));
      var a := s.actors[id];
      assert ActorOk(s, id);
      AliveStays(a, step);
      if !A.Free(a) && t.actors[id].alive {
        SessionActorProofs.BusyStaysBusy(a, step);
      }
      assert forall p :: At(t, p) == At(s, p);
      forall k: Id
        ensures Claimed(t, k)
      {
        assert Claimed(s, k);
        if HeldBySomeone(s, k) {
          HeldStays(s, t, k);
        }
      }
    }
  }

  /** The callback puts the session back, or a draining pool closes it. */
  lemma {:induction false} CallIdleKeepsClaims(s: State, id: Id, now: nat)
    requires Inv(s) && Claims(s)
    ensures Claims(Next(s, CallIdle(id, now)))
  {
    if id in s.actors && s.actors[id].alive && s.actors[id].pc.CallingIdle? {
      var t := Next(s, CallIdle(id, now));
      CallerIsBusy(s, id);
      assert Owned(s, id);
      assert forall p :: At(t, p) == At(s, p);
      forall p
        ensures At(s, p) != Inserting(id)
      {
        assert Holding(At(s, p)) ==> At(s, p).id != id;
      }
      MarkIdleKeepsValid(s.pool, id, now);
      forall k: Id
        ensures Claimed(t, k)
      {
        assert Claimed(s, k);
        if HeldBySomeone(s, k) {
          HeldStays(s, t, k);
        }
      }
    }
  }

  lemma {:induction false} StepKeepsClaims(s: State, step: Step)
    requires Inv(s) && Claims(s)
    ensures Claims(Next(s, step))
  {
    match step
    case Request => RequestKeepsClaims(s);
    case TakeIdle(o, now) => TakeKeepsClaims(s, o, now);
    case StartSession(o, ok) => StartKeepsClaims(s, o, ok);
    case Insert(o) => InsertKeepsClaims(s, o);
    case Publish(o) => PublishKeepsClaims(s, o);
    case Abandon(o) => LetGo(s, Next(s, step), o);
    case Tick(now) => TickKeepsClaims(s, now);
    case DrainPool => DrainKeepsClaims(s);
    case CallIdle(id, now) => CallIdleKeepsClaims(s, id, now);
    case Move(id, a) => MoveKeepsClaims(s, id, a);
  }

  /** In every run a live session that no stream, no queued Open and no pending callback uses is
      idle, held by an opener, or being closed: no session is lost to reuse. */
  lemma {:induction false} NoSessionLost(timeout: nat, steps: seq<Step>)
    ensures Claims(Exec(Init(timeout), steps))
    decreases |steps|
  {
    if steps != [] {
      var n := |steps| - 1;
      NoSessionLost(timeout, steps[..n]);
      RunKeepsInv(timeout, steps[..n]);
      StepKeepsClaims(Exec(Init(timeout), steps[..n]), steps[n]);
    }
  }
}
