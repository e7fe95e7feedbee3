/** The AnyTLS client of crates/anytls/src/client.rs: openers, the idle pool and every session
    actor, interleaved step by step. */
module AnyTls {
  import opened Common
  import opened SessionPool
  import A = SessionActor

  /** `Client::connect`: take an idle session or build one, then publish an `Open` to it. */
  datatype OpenerPc = Requesting | Connecting | Inserting(id: Id) | Publishing(id: Id) | Published(id: Id) | Failed

  datatype State = State(
    pool: Pool,
    actors: map<Id, A.Actor>,
    openers: map<A.Opener, OpenerPc>,
    nextOpener: nat,
    closing: set<Id>,           // sessions whose scope was closed
    timeout: nat)

  datatype Step =
    | Request
    | TakeIdle(opener: A.Opener, now: nat)
    | StartSession(opener: A.Opener, ok: bool)
    | Insert(opener: A.Opener)
    | Publish(opener: A.Opener)
    | Abandon(opener: A.Opener)
    | Tick(now: nat)
    | DrainPool
    | CallIdle(id: Id, now: nat)
    | Move(id: Id, step: A.Step)

  function Init(timeout: nat): State { State(Pool(map[], [], 0, false), map[], map[], 0, {}, timeout) }

  function ClosedSessions(s: State): set<Id> { set id | id in s.actors && !s.actors[id].alive }

  /** Dropping a slot closes the scope of its session. */
  function WithPool(s: State, pool: Pool): State {
    s.(pool := pool, closing := s.closing + (s.pool.sessions.Keys - pool.sessions.Keys))
  }

  function At(s: State, o: A.Opener): OpenerPc { if o in s.openers then s.openers[o] else Failed }

  function Set(s: State, o: A.Opener, pc: OpenerPc): State { s.(openers := s.openers[o := pc]) }

  function DoTake(s: State, o: A.Opener, now: nat): State {
    if At(s, o) != Requesting then s else
    var (pool, found) := Reuse(s.pool, ClosedSessions(s), now, s.timeout);
    Set(WithPool(s, pool), o, if found.Some? then Publishing(found.value) else Connecting)
  }

  /** A connected transport gets a session identity and an actor. */
  function DoStart(s: State, o: A.Opener, ok: bool): State {
    if At(s, o) != Connecting then s
    else if !ok || s.pool.sequence >= MAX_SEQUENCE then Set(s, o, Failed)
    else
      var id := s.pool.sequence + 1;
      Set(s, o, Inserting(id)).(pool := s.pool.(sequence := id), actors := s.actors[id := A.Start()])
  }

  function DoInsert(s: State, o: A.Opener): State {
    if !At(s, o).Inserting? then s else
    var id := At(s, o).id;
    Set(s, o, Publishing(id)).(pool := s.pool.(sessions := s.pool.sessions[id := None]))
  }

  /** `Handle::open`, up to the queued message; a closed channel fails the opener. */
  function DoPublish(s: State, o: A.Opener): State {
    if !At(s, o).Publishing? then s else
    var id := At(s, o).id;
    if id !in s.actors || !s.actors[id].alive then Set(s, o, Failed).(closing := s.closing + {id})
    else
      var a := s.actors[id];
      Set(s, o, Published(id)).(actors := s.actors[id := a.(messages := a.messages + [A.Open(o)])])
  }

  /** Cancelling an opener before publication closes the session it holds. */
  function DoAbandon(s: State, o: A.Opener): State {
    match At(s, o)
    case Inserting(id) => Set(s, o, Failed).(closing := s.closing + {id})
    case Publishing(id) => Set(s, o, Failed).(closing := s.closing + {id})
    case Requesting => Set(s, o, Failed)
    case Connecting => Set(s, o, Failed)
    case _ => s
  }

  function DoCallIdle(s: State, id: Id, now: nat): State {
    if id !in s.actors || !s.actors[id].alive || !s.actors[id].pc.CallingIdle? then s
    else WithPool(s, MarkIdle(s.pool, id, now)).(actors := s.actors[id := s.actors[id].(pc := A.Running)])
  }

  function Next(s: State, step: Step): State {
    match step
    case Request => s.(openers := s.openers[s.nextOpener := Requesting], nextOpener := s.nextOpener + 1)
    case TakeIdle(o, now) => DoTake(s, o, now)
    case StartSession(o, ok) => DoStart(s, o, ok)
    case Insert(o) => DoInsert(s, o)
    case Publish(o) => DoPublish(s, o)
    case Abandon(o) => DoAbandon(s, o)
    case Tick(now) => WithPool(s, Prune(s.pool, ClosedSessions(s), now, s.timeout))
    case DrainPool => WithPool(s, Drain(s.pool))
    case CallIdle(id, now) => DoCallIdle(s, id, now)
    case Move(id, a) => if id in s.actors then s.(actors := s.actors[id := A.Next(s.actors[id], a)]) else s
  }

  function Exec(s: State, steps: seq<Step>): State
    decreases |steps|
  {
    if steps == [] then s else Next(Exec(s, steps[..|steps| - 1]), steps[|steps| - 1])
  }

  // ---------------------------------------------------------------- the invariant

  predicate Holding(pc: OpenerPc) { pc.Inserting? || pc.Publishing? }

  /** Openers served by a session, or queued at it. */
  function Claimants(a: A.Actor): set<A.Opener> {
    (set sid | sid in a.streams :: a.streams[sid].opener) + (set m | m in a.messages && m.Open? :: m.opener)
  }

  /** No opener gets two streams. */
  predicate Distinct(a: A.Actor) {
    && (forall i, j | i in a.streams && j in a.streams :: i != j ==> a.streams[i].opener != a.streams[j].opener)
    && (forall m, i | m in a.messages && i in a.streams :: m.Open? ==> m.opener != a.streams[i].opener)
  }

  ghost predicate ActorOk(s: State, id: Id) {
    id in s.actors ==>
      && A.Inv(s.actors[id])
      && Distinct(s.actors[id])
      && (forall o :: o in Claimants(s.actors[id]) ==> At(s, o) == Published(id))
  }

  predicate Pooled(s: State, id: Id) {
    && (id in s.pool.sessions ==> id in s.actors)
    && (id in s.actors ==> 1 <= id <= s.pool.sequence)
    && (id in s.pool.idle ==> id in s.actors && A.Free(s.actors[id]))
  }

  /** A live session is pooled, about to be, or being closed. */
  ghost predicate Owned(s: State, id: Id) {
    id in s.actors && s.actors[id].alive ==>
      id in s.pool.sessions || id in s.closing || exists o :: At(s, o) == Inserting(id)
  }

  predicate OpenerOk(s: State, o: A.Opener) {
    && (o in s.openers ==> o < s.nextOpener)
    && (Holding(At(s, o)) ==>
          var id := At(s, o).id;
          id in s.actors && A.Free(s.actors[id]) && id !in s.pool.idle)
    && (At(s, o).Inserting? ==> At(s, o).id !in s.pool.sessions)
  }

  /** A session is handed out to one opener at a time. */
  predicate PairOk(s: State, o: A.Opener, p: A.Opener) {
    Holding(At(s, o)) && Holding(At(s, p)) && At(s, o).id == At(s, p).id ==> o == p
  }

  ghost predicate Inv(s: State) {
    && Valid(s.pool)
    && (forall id: Id :: ActorOk(s, id))
    && (forall id: Id :: Pooled(s, id))
    && (forall id: Id :: Owned(s, id))
    && (forall o: A.Opener :: OpenerOk(s, o))
    && (forall o: A.Opener, p: A.Opener :: PairOk(s, o, p))
  }

  ghost predicate HeldBySomeone(s: State, id: Id) { exists o :: Holding(At(s, o)) && At(s, o).id == id }

  /** A live session that nobody uses can be used again, is about to be used, or is being closed. */
  ghost predicate Claimed(s: State, id: Id) {
    id in s.actors && s.actors[id].alive && A.Free(s.actors[id]) ==>
      id in s.pool.idle || id in s.closing || HeldBySomeone(s, id)
  }

  ghost predicate Claims(s: State) { forall id: Id :: Claimed(s, id) }
}
