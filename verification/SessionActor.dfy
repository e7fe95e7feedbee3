/** One client session actor of crates/anytls/src/session.rs, with the logical streams it hands
    out (crates/anytls/src/stream.rs) and the frames it passes to its writer. */
module SessionActor {
  import opened Common

  type Sid = nat
  type Opener = nat
  type Chunk = Bytes

  const MAX_SID: nat := 0xFFFF_FFFF

  datatype Message = Open(opener: Opener) | Data(sid: Sid, chunk: Chunk) | Flush(sid: Sid) | Close(sid: Sid)

  /** Frames in the order they were passed to the writer; `PeerFin` records when the actor acted
      on the peer's FIN, which is never echoed. */
  datatype Frame =
    | Settings
    | Control                   // whatever the protocol engine answers, such as a heartbeat
    | Syn(sid: Sid)
    | Address(sid: Sid, opener: Opener)
    | Psh(sid: Sid, chunk: Chunk)
    | Fin(sid: Sid)
    | PeerFin(sid: Sid)

  /** A logical stream: who asked for it, what its holder wrote so far, and whether the holder
      received it, shut it down, dropped it. */
  datatype Stream = Stream(opener: Opener, written: seq<Chunk>, given: bool, shutdown: bool, dropped: bool)

  /** Where the actor waits: for input, for the writer to flush an opening or a FIN, or before
      calling the pool's idle callback. */
  datatype Pc = Running | Opening(sid: Sid) | Finishing | CallingIdle

  datatype Actor = Actor(
    alive: bool, entries: set<Sid>, nextSid: nat, started: bool, pc: Pc,
    messages: seq<Message>, dropped: seq<Sid>, streams: map<Sid, Stream>, wire: seq<Frame>)

  /** What the protocol engine asks for. A push either reaches the stream's own queue or finds it
      full or closed. */
  datatype Action =
    | SendFrame
    | Deliver(sid: Sid)
    | PushFull(sid: Sid)
    | CloseLocal(sid: Sid)
    | CloseRemote(sid: Sid)
    | Fail

  datatype Step =
    | Receive
    | ReceiveDropped
    | Act(action: Action)
    | Flushed
    | Write(sid: Sid, chunk: Chunk)
    | FlushStream(sid: Sid)
    | Shutdown(sid: Sid)
    | DropStream(sid: Sid)
    | Die

  function Start(): Actor { Actor(true, {}, 0, false, Running, [], [], map[], []) }

  /** The task ends: its channels close and the entries are dropped. */
  function Dead(a: Actor): Actor { a.(alive := false, entries := {}, pc := Running, messages := [], dropped := []) }

  /** `Message::Open`. */
  function OpenStream(a: Actor, opener: Opener): Actor {
    if a.entries != {} || a.nextSid >= MAX_SID then Dead(a)
    else
      var sid := a.nextSid + 1;
      a.(nextSid := sid,
         entries := {sid},
         streams := a.streams[sid := Stream(opener, [], false, false, false)],
         wire := a.wire + (if a.started then [] else [Settings]) + [Syn(sid), Address(sid, opener)],
         started := true,
         pc := Opening(sid))
  }

  /** `close`, up to the wait for the FIN to be flushed. */
  function CloseStream(a: Actor, sid: Sid): Actor {
    if sid in a.entries then a.(entries := a.entries - {sid}, wire := a.wire + [Fin(sid)], pc := Finishing) else a
  }

  function HandleMessage(a: Actor): Actor
    requires a.messages != []
  {
    var rest := a.(messages := a.messages[1..]);
    match a.messages[0]
    case Open(opener) => OpenStream(rest, opener)
    case Data(sid, chunk) => if sid in a.entries then rest.(wire := a.wire + [Psh(sid, chunk)]) else rest
    case Flush(_) => rest
    case Close(sid) => CloseStream(rest, sid)
  }

  /** One action of the protocol engine. A full receive queue closes the stream. */
  function HandleAction(a: Actor, action: Action): Actor {
    match action
    case SendFrame => a.(wire := a.wire + [Control])
    case Deliver(_) => a
    case PushFull(sid) => CloseStream(a, sid)
    case CloseLocal(sid) =>
      if sid in a.entries then
        var rest := a.(entries := a.entries - {sid}, wire := a.wire + [PeerFin(sid)]);
        rest.(pc := if rest.entries == {} then CallingIdle else Running)
      else a
    case CloseRemote(sid) => CloseStream(a, sid)
    case Fail => Dead(a)
  }

  function HandleFlushed(a: Actor): Actor {
    match a.pc
    case Opening(sid) =>
      if sid in a.streams then a.(pc := Running, streams := a.streams[sid := a.streams[sid].(given := true)]) else a
    case Finishing => a.(pc := if a.entries == {} then CallingIdle else Running)
    case _ => a
  }

  predicate Usable(a: Actor, sid: Sid) {
    a.alive && sid in a.streams && a.streams[sid].given && !a.streams[sid].dropped
  }

  /** What the holder of a stream does. It may act on a stream whose close it has not seen yet. */
  function HandleStream(a: Actor, step: Step): Actor
    requires step.Write? || step.FlushStream? || step.Shutdown? || step.DropStream?
  {
    if !Usable(a, step.sid) then a else
    var stream := a.streams[step.sid];
    match step
    case Write(sid, chunk) =>
      if stream.shutdown then a
      else a.(messages := a.messages + [Data(sid, chunk)],
              streams := a.streams[sid := stream.(written := stream.written + [chunk])])
    case FlushStream(sid) => a.(messages := a.messages + [Flush(sid)])
    case Shutdown(sid) =>
      if stream.shutdown then a
      else a.(messages := a.messages + [Close(sid)], streams := a.streams[sid := stream.(shutdown := true)])
    case DropStream(sid) =>
      a.(dropped := a.dropped + [sid], streams := a.streams[sid := stream.(dropped := true)])
  }

  predicate Ready(a: Actor) { a.alive && a.pc.Running? }

  function Next(a: Actor, step: Step): Actor {
    match step
    case Receive => if Ready(a) && a.messages != [] then HandleMessage(a) else a
    case ReceiveDropped =>
      if Ready(a) && a.dropped != [] then CloseStream(a.(dropped := a.dropped[1..]), a.dropped[0]) else a
    case Act(action) => if Ready(a) then HandleAction(a, action) else a
    case Flushed => if a.alive then HandleFlushed(a) else a
    case Die => Dead(a)
    case _ => HandleStream(a, step)
  }

  // ---------------------------------------------------------------- what is on the wire

  /** A peer's view of the frames: how many streams were opened, and which one is open. */
  datatype View = Rejected | View(count: nat, open: bool)

  function Observe(view: View, frame: Frame): View {
    match view
    case Rejected => Rejected
    case View(count, open) =>
      match frame
      case Settings => if count == 0 then view else Rejected
      case Control => view
      case Syn(sid) => if sid == count + 1 && !open then View(sid, true) else Rejected
      case Address(sid, _) => if sid == count && open then view else Rejected
      case Psh(sid, _) => if sid == count && open then view else Rejected
      case Fin(sid) => if sid == count && open then View(count, false) else Rejected
      case PeerFin(sid) => if sid == count && open then View(count, false) else Rejected
  }

  function Track(wire: seq<Frame>): View {
    if wire == [] then View(0, false) else Observe(Track(wire[..|wire| - 1]), wire[|wire| - 1])
  }

  /** The chunks sent for one stream. */
  function Pushed(wire: seq<Frame>, sid: Sid): seq<Chunk> {
    if wire == [] then []
    else
      var frame := wire[|wire| - 1];
      Pushed(wire[..|wire| - 1], sid) + (if frame.Psh? && frame.sid == sid then [frame.chunk] else [])
  }

  /** The chunks of one stream still queued for the actor. */
  function Queued(messages: seq<Message>, sid: Sid): seq<Chunk> {
    if messages == [] then []
    else
      (if messages[0].Data? && messages[0].sid == sid then [messages[0].chunk] else []) + Queued(messages[1..], sid)
  }

  predicate Opens(m: Message) { m.Open? }

  predicate NoOpen(messages: seq<Message>) { forall i :: 0 <= i < |messages| ==> !Opens(messages[i]) }

  predicate OneOpen(messages: seq<Message>) {
    forall i, j :: 0 <= i < j < |messages| ==> !(Opens(messages[i]) && Opens(messages[j]))
  }

  /** Nobody uses the session or is about to. */
  predicate Free(a: Actor) { a.entries == {} && a.pc.Running? && NoOpen(a.messages) }

  // ---------------------------------------------------------------- the invariant

  /** At most one claim on the session: a queued `Open`, the entry, or a close under way. */
  predicate Exclusive(a: Actor) {
    && (a.entries == {} || a.entries == {a.nextSid})
    && OneOpen(a.messages)
    && (a.entries != {} || !a.pc.Running? ==> NoOpen(a.messages))
    && (a.pc.Finishing? || a.pc.CallingIdle? ==> a.entries == {})
    && (a.pc.Opening? ==> a.entries == {a.nextSid} && a.pc.sid == a.nextSid)
    && (!a.alive ==> a.entries == {} && a.pc.Running? && a.messages == [])
  }

  /** Stream identities are never reused, and messages name streams that were handed out. */
  ghost predicate Named(a: Actor) {
    && 0 !in a.entries
    && (forall sid: Sid :: sid in a.streams <==> 1 <= sid <= a.nextSid)
    && (forall i :: 0 <= i < |a.messages| && !Opens(a.messages[i]) ==> a.messages[i].sid in a.streams)
  }

  /** The frames follow the protocol, and the peer's view agrees with the entry. */
  predicate OnWire(a: Actor) {
    && Track(a.wire).View?
    && Track(a.wire).count == a.nextSid
    && (a.started <==> a.nextSid > 0)
    && (a.alive ==> (Track(a.wire).open <==> a.entries != {}))
  }

  /** What was sent for a stream, and what is queued while it is open, is what its holder wrote. */
  predicate FlowOk(a: Actor, sid: Sid) {
    && (sid in a.streams ==> Pushed(a.wire, sid) <= a.streams[sid].written)
    && (sid in a.entries && sid in a.streams ==>
      a.streams[sid].written == Pushed(a.wire, sid) + Queued(a.messages, sid))
    && (sid !in a.streams ==> Pushed(a.wire, sid) == [] && Queued(a.messages, sid) == [])
  }

  /** A queued close or drop was sent by the holder of the stream it names. */
  predicate Signed(a: Actor) {
    && (forall i :: 0 <= i < |a.messages| && a.messages[i].Close? ==>
          a.messages[i].sid in a.streams && a.streams[a.messages[i].sid].shutdown)
    && (forall i :: 0 <= i < |a.dropped| ==> a.dropped[i] in a.streams && a.streams[a.dropped[i]].dropped)
  }

  ghost predicate Inv(a: Actor) {
    Exclusive(a) && Named(a) && Signed(a) && OnWire(a) && forall sid: Sid :: FlowOk(a, sid)
  }
}
