/** A stream that its holder shuts down is sent completely: the close waits behind the data. */
module AnyTlsDelivery {
  import opened SessionPool
  import opened AnyTls
  import opened AnyTlsProofs
  import opened SessionActorProofs
  import A = SessionActor

  /** Nothing of a stream is queued behind its close. */
  predicate CloseIsLast(a: A.Actor) {
    forall i, j :: 0 <= i < j < |a.messages| && a.messages[i].Close? && a.messages[j].Data? ==>
      a.messages[i].sid != a.messages[j].sid
  }

  lemma TakenKeepsLast(a: A.Actor, b: A.Actor)
    requires CloseIsLast(a) && a.messages != [] && (b.messages == a.messages[1..] || b.messages == [])
    ensures CloseIsLast(b)
  {}

  /** After a shutdown the holder's writes are refused. */
  lemma StreamKeepsLast(a: A.Actor, step: A.Step)
    requires A.Signed(a) && CloseIsLast(a)
    requires step.Write? || step.FlushStream? || step.Shutdown? || step.DropStream?
    ensures CloseIsLast(A.HandleStream(a, step))
  {}

  lemma {:induction false} MoveKeepsLast(a: A.Actor, step: A.Step)
    requires A.Signed(a) && CloseIsLast(a)
    ensures CloseIsLast(A.Next(a, step))
  {
    match step
    case Receive => if A.Ready(a) && a.messages != [] { TakenKeepsLast(a, A.Next(a, step)); }
    case ReceiveDropped =>
    case Act(_) =>
    case Flushed =>
    case Die =>
    case _ => StreamKeepsLast(a, step);
  }

  predicate LastAt(s: State, id: Id) { id in s.actors ==> CloseIsLast(s.actors[id]) }

  lemma {:induction false} StepKeepsLast(s: State, step: Step, id: Id)
    requires Inv(s) && LastAt(s, id)
    ensures LastAt(Next(s, step), id)
  {
    assert ActorOk(s, id);
    if step.Move? && step.id == id && id in s.actors {
      MoveKeepsLast(s.actors[id], step.step);
    }
  }

  lemma {:induction false} RunKeepsLast(timeout: nat, steps: seq<Step>, id: Id)
    ensures LastAt(Exec(Init(timeout), steps), id)
    decreases |steps|
  {
    if steps != [] {
      var before := steps[..|steps| - 1];
      RunKeepsInv(timeout, before);
      RunKeepsLast(timeout, before, id);
      StepKeepsLast(Exec(Init(timeout), before), steps[|steps| - 1], id);
    }
  }

  // ---------------------------------------------------------------- what the close finds

  /** No chunk of the stream is queued. */
  lemma {:induction false} NothingQueued(messages: seq<A.Message>, sid: A.Sid)
    requires forall i :: 0 <= i < |messages| && messages[i].Data? ==> messages[i].sid != sid
    ensures A.Queued(messages, sid) == []
  {
    if messages != [] { NothingQueued(messages[1..], sid); }
  }

  /** The actor is about to close the stream because its holder shut it down. */
  predicate Closes(a: A.Actor, sid: A.Sid) {
    A.Ready(a) && a.messages != [] && a.messages[0] == A.Close(sid) && sid in a.entries
  }

  /** The stream is over and all its holder wrote was sent. */
  predicate Delivered(a: A.Actor, sid: A.Sid) {
    && sid in a.streams && sid <= a.nextSid && a.streams[sid].shutdown && sid !in a.entries
    && A.Pushed(a.wire, sid) == a.streams[sid].written
  }

  lemma CloseFindsEverythingSent(a: A.Actor, sid: A.Sid)
    requires A.Inv(a) && CloseIsLast(a) && Closes(a, sid)
    ensures sid in a.streams && A.Pushed(a.wire, sid) == a.streams[sid].written
    ensures A.Next(a, A.Receive).wire == a.wire + [A.Fin(sid)] && Delivered(A.Next(a, A.Receive), sid)
    ensures A.Next(a, A.Receive).streams == a.streams
  {
    assert A.FlowOk(a, sid);
    NothingQueued(a.messages[1..], sid);
    Nothing(A.Pushed(a.wire, sid));
    PushedAppend(a.wire, A.Fin(sid), sid);
  }

  // ---------------------------------------------------------------- and it stays so

  /** Nothing was sent for stream `sid`, which stays over. */
  predicate Silent(a: A.Actor, b: A.Actor, sid: A.Sid) {
    A.Pushed(b.wire, sid) == A.Pushed(a.wire, sid) && sid !in b.entries && sid <= b.nextSid
  }

  lemma CloseIsSilent(a: A.Actor, other: A.Sid, sid: A.Sid)
    requires sid !in a.entries && sid <= a.nextSid
    ensures Silent(a, A.CloseStream(a, other), sid)
  {
    PushedAppend(a.wire, A.Fin(other), sid);
  }

  lemma ActionIsSilent(a: A.Actor, action: A.Action, sid: A.Sid)
    requires sid !in a.entries && sid <= a.nextSid
    ensures Silent(a, A.HandleAction(a, action), sid)
  {
    match action
    case SendFrame => PushedAppend(a.wire, A.Control, sid);
    case Deliver(_) =>
    case PushFull(other) => CloseIsSilent(a, other, sid);
    case CloseLocal(other) => PushedAppend(a.wire, A.PeerFin(other), sid);
    case CloseRemote(other) => CloseIsSilent(a, other, sid);
    case Fail =>
  }

  lemma MessageIsSilent(a: A.Actor, sid: A.Sid)
    requires A.Inv(a) && A.Ready(a) && a.messages != [] && sid !in a.entries && sid <= a.nextSid
    ensures Silent(a, A.HandleMessage(a), sid)
  {
    match a.messages[0]
    case Open(opener) =>
      OpenFindsFree(a);
      OpeningFrames(a.wire, a.started, a.nextSid + 1, opener, sid);
    case Data(other, chunk) => PushedAppend(a.wire, A.Psh(other, chunk), sid);
    case Flush(_) =>
    case Close(other) => CloseIsSilent(a.(messages := a.messages[1..]), other, sid);
  }

  /** Nothing is sent for a stream that is over. */
  lemma {:induction false} SilentAfterwards(a: A.Actor, step: A.Step, sid: A.Sid)
    requires A.Inv(a) && sid !in a.entries && sid <= a.nextSid
    ensures Silent(a, A.Next(a, step), sid)
  {
    match step
    case Receive => if A.Ready(a) && a.messages != [] { MessageIsSilent(a, sid); }
    case ReceiveDropped =>
      if A.Ready(a) && a.dropped != [] { CloseIsSilent(a.(dropped := a.dropped[1..]), a.dropped[0], sid); }
    case Act(action) => ActionIsSilent(a, action, sid);
    case _ =>
  }

  lemma KeepsWritten(a: A.Actor, step: A.Step, sid: A.Sid)
    requires sid in a.streams && sid <= a.nextSid && a.streams[sid].shutdown
    ensures var b := A.Next(a, step);
      sid in b.streams && b.streams[sid].shutdown && b.streams[sid].written == a.streams[sid].written
  {}

  /** Session `id` delivered `written` on stream `sid`. */
  predicate Done(s: State, id: Id, sid: A.Sid, written: seq<A.Chunk>) {
    id in s.actors && Delivered(s.actors[id], sid) && s.actors[id].streams[sid].written == written
  }

  lemma {:induction false} StepKeepsDone(s: State, step: Step, id: Id, sid: A.Sid, written: seq<A.Chunk>)
    requires Inv(s) && Done(s, id, sid, written)
    ensures Done(Next(s, step), id, sid, written)
  {
    assert ActorOk(s, id) && Pooled(s, id);
    if step.Move? && step.id == id {
      SilentAfterwards(s.actors[id], step.step, sid);
      KeepsWritten(s.actors[id], step.step, sid);
    }
  }

  lemma {:induction false} RunKeepsDone(timeout: nat, steps: seq<Step>, later: seq<Step>,
      id: Id, sid: A.Sid, written: seq<A.Chunk>)
    requires Done(Exec(Init(timeout), steps), id, sid, written)
    ensures Done(Exec(Exec(Init(timeout), steps), later), id, sid, written)
    decreases |later|
  {
    if later != [] {
      var n := |later| - 1;
      RunKeepsDone(timeout, steps, later[..n], id, sid, written);
      ExecAppend(Init(timeout), steps, later[..n]);
      RunKeepsInv(timeout, steps + later[..n]);
      StepKeepsDone(Exec(Exec(Init(timeout), steps), later[..n]), later[n], id, sid, written);
    }
  }

  /** In every run, when a holder's shutdown closes its stream, all the holder ever wrote went out
      before the FIN, and in every continuation exactly that stays sent under the stream's identity. */
  lemma ShutdownSendsEverything(timeout: nat, steps: seq<Step>, id: Id, sid: A.Sid, later: seq<Step>)
    requires var s := Exec(Init(timeout), steps); id in s.actors && Closes(s.actors[id], sid)
    ensures var s := Exec(Init(timeout), steps);
      var a := s.actors[id];
      var closed := Next(s, Move(id, A.Receive));
      && sid in a.streams && A.Pushed(a.wire, sid) == a.streams[sid].written
      && closed.actors[id].wire == a.wire + [A.Fin(sid)]
      && Done(Exec(closed, later), id, sid, a.streams[sid].written)
  {
    var s := Exec(Init(timeout), steps);
    RunKeepsInv(timeout, steps);
    RunKeepsLast(timeout, steps, id);
    assert ActorOk(s, id) && LastAt(s, id);
    CloseFindsEverythingSent(s.actors[id], sid);
    var all := steps + [Move(id, A.Receive)];
    assert all[..|steps|] == steps;
    RunKeepsDone(timeout, all, later, id, sid, s.actors[id].streams[sid].written);
  }
}
