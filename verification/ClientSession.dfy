/** The session actor of crates/anytls/src/session.rs as the object its loop updates in place. */
module ClientSession {
  import opened SessionActor
  import opened SessionActorProofs

  /** How often a FIN, ours or the peer's, was taken for stream `sid`. */
  function Ends(wire: seq<Frame>, sid: Sid): nat {
    if wire == [] then 0
    else
      var frame := wire[|wire| - 1];
      Ends(wire[..|wire| - 1], sid) + if (frame.Fin? || frame.PeerFin?) && frame.sid == sid then 1 else 0
  }

  /** On frames a peer accepts, every stream but the open one ended exactly once. */
  lemma {:induction false} EndsOnce(wire: seq<Frame>, sid: Sid)
    requires Track(wire).View?
    ensures var view := Track(wire);
      Ends(wire, sid) == if 1 <= sid <= view.count && !(view.open && sid == view.count) then 1 else 0
    ensures Track(wire).open ==> Track(wire).count >= 1
  {
    if wire != [] {
      EndsOnce(wire[..|wire| - 1], sid);
    }
  }

  lemma Opened(a: Actor, opener: Opener)
    requires Inv(a) && Ready(a) && NoOpen(a.messages) && a.entries == {} && a.nextSid < MAX_SID
    ensures var b := OpenStream(a, opener);
      && Inv(b) && b.alive && b.nextSid !in a.streams && b.nextSid in b.streams
      && Track(b.wire) == View(b.nextSid, true) && Ends(b.wire, b.nextSid) == 0
  {
    OpenKeepsInv(a, opener);
    EndsOnce(OpenStream(a, opener).wire, a.nextSid + 1);
  }

  lemma Performed(a: Actor, action: Action)
    requires Inv(a) && Ready(a)
    ensures var b := HandleAction(a, action);
      && Inv(b) && b.entries <= a.entries
      && (forall sid :: sid in a.entries && b.alive && sid !in b.entries ==> Ends(b.wire, sid) == 1)
      && (forall sid :: sid in b.entries ==> Ends(b.wire, sid) == 0)
  {
    ActionKeepsInv(a, action);
    EndsOnce(HandleAction(a, action).wire, a.nextSid);
  }

  class Session {
    var alive: bool
    var entries: set<Sid>
    var nextSid: nat
    var started: bool
    var pc: Pc
    var messages: seq<Message>
    var dropped: seq<Sid>
    var streams: map<Sid, Stream>
    var wire: seq<Frame>

    function Value(): Actor
      reads this
    {
      Actor(alive, entries, nextSid, started, pc, messages, dropped, streams, wire)
    }

    ghost predicate Valid()
      reads this
    {
      Inv(Value())
    }

    constructor ()
      ensures Valid() && Value() == Start()
    {
      alive, entries, nextSid, started, pc := true, {}, 0, false, Running;
      messages, dropped, streams, wire := [], [], map[], [];
    }

    method Stop()
      requires Valid()
      modifies this
      ensures Valid() && Value() == Dead(old(Value()))
    {
      DeadKeepsInv(Value());
      alive, entries, pc, messages, dropped := false, {}, Running, [], [];
    }

    /** A stream gets an identity that no stream had before, and the peer sees it open; a session
        that is in use or out of identities ends instead. */
    method Open(opener: Opener)
      requires Valid() && Ready(Value()) && NoOpen(messages)
      modifies this
      ensures Valid() && Value() == OpenStream(old(Value()), opener)
      ensures alive <==> old(entries) == {} && old(nextSid) < MAX_SID
      ensures alive ==> entries == {nextSid} && nextSid !in old(streams) && streams[nextSid].opener == opener
      ensures alive ==> Track(wire) == View(nextSid, true) && Ends(wire, nextSid) == 0
      ensures forall sid :: sid in old(streams) ==> sid in streams && streams[sid] == old(streams)[sid]
    {
      if entries != {} || nextSid >= MAX_SID {
        Stop();
        return;
      }
      Opened(Value(), opener);
      ghost var next := OpenStream(Value(), opener);
      nextSid := nextSid + 1;
      entries := entries + {nextSid};
      streams := streams[nextSid := Stream(opener, [], false, false, false)];
      if !started {
        wire := wire + [Settings];
        started := true;
      }
      wire := wire + [Syn(nextSid), Address(nextSid, opener)];
      pc := Opening(nextSid);
      assert wire == next.wire && Value() == next;
    }

    /** An open stream gets its one FIN; for any other nothing happens. */
    method CloseEntry(sid: Sid)
      requires Valid() && Ready(Value())
      modifies this
      ensures Valid() && Value() == CloseStream(old(Value()), sid)
      ensures sid !in entries && entries <= old(entries)
      ensures sid in old(entries) ==> Ends(old(wire), sid) == 0 && Ends(wire, sid) == 1
      ensures sid !in old(entries) ==> wire == old(wire) && entries == old(entries)
      ensures streams == old(streams) && messages == old(messages)
    {
      CloseKeepsInv(Value(), sid);
      if sid in entries {
        EndsOnce(wire, sid);
        entries := entries - {sid};
        wire := wire + [Fin(sid)];
        pc := Finishing;
        EndsOnce(wire, sid);
      }
    }

    /** Whatever the message, a stream that stays open has the same bytes sent or queued, in the
        same order. */
    method TakeMessage()
      requires Valid() && Ready(Value()) && messages != []
      modifies this
      ensures Valid() && Value() == HandleMessage(old(Value()))
      ensures forall sid :: sid in entries && sid in old(entries) ==>
        Pushed(wire, sid) + Queued(messages, sid) == old(Pushed(wire, sid) + Queued(messages, sid))
    {
      MessageKeepsInv(Value());
      StaysOpen(Value());
      var message := messages[0];
      match message
      case Open(opener) =>
        OpenFindsFree(Value());
        TakeKeepsInv(Value());
        messages := messages[1..];
        Open(opener);
      case Data(sid, chunk) =>
        messages := messages[1..];
        if sid in entries {
          wire := wire + [Psh(sid, chunk)];
        }
      case Flush(_) => messages := messages[1..];
      case Close(sid) =>
        TakeKeepsInv(Value());
        messages := messages[1..];
        CloseEntry(sid);
    }

    /** One notice that a stream was dropped. */
    method TakeDropped()
      requires Valid() && Ready(Value()) && dropped != []
      modifies this
      ensures Valid() && Value() == CloseStream(old(Value()).(dropped := old(dropped)[1..]), old(dropped)[0])
      ensures old(dropped)[0] !in entries && Ends(wire, old(dropped)[0]) == 1
    {
      DroppedKeepsInv(Value());
      var sid := dropped[0];
      assert sid in streams;
      dropped := dropped[1..];
      if sid in entries {
        entries := entries - {sid};
        wire := wire + [Fin(sid)];
        pc := Finishing;
      }
      EndsOnce(wire, sid);
    }

    /** An action opens no stream, and the FIN of a stream is taken once, whichever side sent it. */
    method Perform(action: Action)
      requires Valid() && Ready(Value())
      modifies this
      ensures Valid() && Value() == HandleAction(old(Value()), action)
      ensures entries <= old(entries)
      ensures forall sid :: sid in old(entries) && alive && sid !in entries ==> Ends(wire, sid) == 1
      ensures forall sid :: sid in entries ==> Ends(wire, sid) == 0
    {
      Performed(Value(), action);
      match action
      case SendFrame => wire := wire + [Control];
      case Deliver(_) =>
      case PushFull(sid) => CloseEntry(sid);
      case CloseRemote(sid) => CloseEntry(sid);
      case Fail => Stop();
      case CloseLocal(sid) => PeerClosed(sid);
    }

    method PeerClosed(sid: Sid)
      requires Valid() && Ready(Value())
      modifies this
      ensures Valid() && Value() == HandleAction(old(Value()), CloseLocal(sid))
      ensures sid in old(entries) ==> Ends(old(wire), sid) == 0 && Ends(wire, sid) == 1
      ensures sid !in old(entries) ==> Value() == old(Value())
    {
      ActionKeepsInv(Value(), CloseLocal(sid));
      if sid in entries {
        EndsOnce(wire, sid);
        entries := entries - {sid};
        wire := wire + [PeerFin(sid)];
        if entries == {} {
          pc := CallingIdle;
        }
        EndsOnce(wire, sid);
      }
    }
  }

  /** What is sent or queued of a stream open before and after a message is what was written. */
  lemma StaysOpen(a: Actor)
    requires a.messages != [] && Inv(a) && Inv(HandleMessage(a))
    ensures var b := HandleMessage(a);
      forall sid :: sid in a.entries && sid in b.entries ==>
        Pushed(b.wire, sid) + Queued(b.messages, sid) == Pushed(a.wire, sid) + Queued(a.messages, sid)
  {
    var b := HandleMessage(a);
    forall sid | sid in a.entries && sid in b.entries
      ensures Pushed(b.wire, sid) + Queued(b.messages, sid) == Pushed(a.wire, sid) + Queued(a.messages, sid)
    {
      assert FlowOk(a, sid) && FlowOk(b, sid);
    }
  }
}
