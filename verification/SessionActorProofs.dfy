/** Every step of a session actor keeps its invariant. */
module SessionActorProofs {
  import opened SessionActor

  lemma PushedAppend(wire: seq<Frame>, frame: Frame, sid: Sid)
    ensures Pushed(wire + [frame], sid)
      == Pushed(wire, sid) + (if frame.Psh? && frame.sid == sid then [frame.chunk] else [])
    ensures Track(wire + [frame]) == Observe(Track(wire), frame)
  {
    assert (wire + [frame])[..|wire|] == wire;
  }

  lemma {:induction false} QueuedAppend(messages: seq<Message>, m: Message, sid: Sid)
    ensures Queued(messages + [m], sid) == Queued(messages, sid) + (if m.Data? && m.sid == sid then [m.chunk] else [])
  {
    if messages == [] {
      assert messages + [m] == [m];
    } else {
      assert (messages + [m])[1..] == messages[1..] + [m];
      QueuedAppend(messages[1..], m, sid);
    }
  }

  /** The frames of an opening: SYN and address, after the settings on the first one. */
  lemma OpeningFrames(wire: seq<Frame>, started: bool, sid: Sid, opener: Opener, other: Sid)
    requires sid >= 1 && Track(wire) == View(sid - 1, false)
    requires started <==> sid > 1
    ensures var sent := wire + (if started then [] else [Settings]) + [Syn(sid), Address(sid, opener)];
      Track(sent) == View(sid, true) && Pushed(sent, other) == Pushed(wire, other)
  {
    var first := wire + if started then [] else [Settings];
    if started {
      assert first == wire;
    } else {
      PushedAppend(wire, Settings, other);
    }
    PushedAppend(first, Syn(sid), other);
    PushedAppend(first + [Syn(sid)], Address(sid, opener), other);
    assert first + [Syn(sid)] + [Address(sid, opener)] == first + [Syn(sid), Address(sid, opener)];
  }

  lemma DeadKeepsInv(a: Actor)
    requires Inv(a)
    ensures Inv(Dead(a))
  {
    var d := Dead(a);
    forall sid: Sid
      ensures FlowOk(d, sid)
    {
      assert FlowOk(a, sid);
    }
  }

  lemma OpenFlows(a: Actor, opener: Opener, other: Sid)
    requires FlowOk(a, other) && Named(a) && a.entries == {} && a.nextSid < MAX_SID
    requires Track(a.wire) == View(a.nextSid, false) && (a.started <==> a.nextSid > 0)
    ensures FlowOk(OpenStream(a, opener), other)
  {
    OpeningFrames(a.wire, a.started, a.nextSid + 1, opener, other);
  }

  lemma {:induction false} OpenKeepsInv(a: Actor, opener: Opener)
    requires Inv(a) && a.alive && a.entries == {} && a.pc.Running? && NoOpen(a.messages) && a.nextSid < MAX_SID
    ensures Inv(OpenStream(a, opener))
  {
    forall other: Sid
      ensures FlowOk(OpenStream(a, opener), other)
    {
      assert FlowOk(a, other);
      OpenFlows(a, opener, other);
    }
    OpeningFrames(a.wire, a.started, a.nextSid + 1, opener, 0);
  }

  /** A close removes the entry and sends one FIN for it. */
  lemma {:induction false} CloseKeepsInv(a: Actor, sid: Sid)
    requires Inv(a) && Ready(a)
    ensures Inv(CloseStream(a, sid))
  {
    if sid in a.entries {
      var b := CloseStream(a, sid);
      assert sid == a.nextSid && b.entries == {};
      forall other: Sid
        ensures FlowOk(b, other)
      {
        assert FlowOk(a, other);
        PushedAppend(a.wire, Fin(sid), other);
      }
      PushedAppend(a.wire, Fin(sid), 0);
    }
  }

  lemma {:induction false} ControlKeepsInv(a: Actor)
    requires Inv(a) && Ready(a)
    ensures Inv(HandleAction(a, SendFrame))
  {
    forall other: Sid
      ensures FlowOk(HandleAction(a, SendFrame), other)
    {
      assert FlowOk(a, other);
      PushedAppend(a.wire, Control, other);
    }
    PushedAppend(a.wire, Control, 0);
  }

  lemma {:induction false} PeerFinKeepsInv(a: Actor, sid: Sid)
    requires Inv(a) && Ready(a) && sid in a.entries
    ensures Inv(HandleAction(a, CloseLocal(sid)))
  {
    var b := HandleAction(a, CloseLocal(sid));
    assert sid == a.nextSid && b.entries == {};
    forall other: Sid
      ensures FlowOk(b, other)
    {
      assert FlowOk(a, other);
      PushedAppend(a.wire, PeerFin(sid), other);
    }
    PushedAppend(a.wire, PeerFin(sid), 0);
  }

  lemma {:induction false} ActionKeepsInv(a: Actor, action: Action)
    requires Inv(a) && Ready(a)
    ensures Inv(HandleAction(a, action))
  {
    match action
    case SendFrame => ControlKeepsInv(a);
    case Deliver(_) =>
    case PushFull(sid) => CloseKeepsInv(a, sid);
    case CloseRemote(sid) => CloseKeepsInv(a, sid);
    case Fail => DeadKeepsInv(a);
    case CloseLocal(sid) => if sid in a.entries { PeerFinKeepsInv(a, sid); }
  }

  /** Taking a message that carries no data for an open stream off the queue. */
  lemma {:induction false} TakeKeepsInv(a: Actor)
    requires Inv(a) && Ready(a) && a.messages != []
    requires a.messages[0].Data? ==> a.messages[0].sid !in a.entries
    ensures Inv(a.(messages := a.messages[1..]))
  {
    var b := a.(messages := a.messages[1..]);
    forall sid: Sid
      ensures FlowOk(b, sid)
    {
      assert FlowOk(a, sid);
    }
  }

  lemma Shift(p: seq<Chunk>, c: Chunk, q: seq<Chunk>)
    ensures p + ([c] + q) == p + [c] + q && p + [c] <= p + ([c] + q)
  {}

  lemma Nothing(p: seq<Chunk>)
    ensures p + [] == p && [] + p == p
  {}

  lemma DataFlows(a: Actor, sid: Sid)
    requires FlowOk(a, sid) && a.messages != [] && a.messages[0].Data? && a.messages[0].sid in a.entries
    ensures FlowOk(HandleMessage(a), sid)
  {
    var m := a.messages[0];
    PushedAppend(a.wire, Psh(m.sid, m.chunk), sid);
    if m.sid == sid {
      Shift(Pushed(a.wire, sid), m.chunk, Queued(a.messages[1..], sid));
    } else {
      Nothing(Pushed(a.wire, sid));
      Nothing(Queued(a.messages[1..], sid));
    }
  }

  lemma {:induction false} DataKeepsInv(a: Actor)
    requires Inv(a) && Ready(a) && a.messages != [] && a.messages[0].Data? && a.messages[0].sid in a.entries
    ensures Inv(HandleMessage(a))
  {
    forall sid: Sid
      ensures FlowOk(HandleMessage(a), sid)
    {
      assert FlowOk(a, sid);
      DataFlows(a, sid);
    }
    PushedAppend(a.wire, Psh(a.messages[0].sid, a.messages[0].chunk), 0);
  }

  /** An `Open` that reaches the actor finds it free. */
  lemma OpenFindsFree(a: Actor)
    requires Exclusive(a) && Ready(a) && a.messages != [] && a.messages[0].Open?
    ensures a.entries == {} && NoOpen(a.messages[1..])
  {
    assert Opens(a.messages[0]);
  }

  lemma {:induction false} MessageKeepsInv(a: Actor)
    requires Inv(a) && Ready(a) && a.messages != []
    ensures Inv(HandleMessage(a))
  {
    var rest := a.(messages := a.messages[1..]);
    match a.messages[0]
    case Open(opener) =>
      OpenFindsFree(a);
      TakeKeepsInv(a);
      if a.nextSid < MAX_SID {
        OpenKeepsInv(rest, opener);
      } else {
        DeadKeepsInv(rest);
      }
    case Data(sid, chunk) =>
      if sid in a.entries {
        DataKeepsInv(a);
      } else {
        TakeKeepsInv(a);
      }
    case Flush(_) => TakeKeepsInv(a);
    case Close(sid) =>
      TakeKeepsInv(a);
      CloseKeepsInv(rest, sid);
  }

  lemma {:induction false} FlushedKeepsInv(a: Actor)
    requires Inv(a) && a.alive
    ensures Inv(HandleFlushed(a))
  {
    var b := HandleFlushed(a);
    forall sid: Sid
      ensures FlowOk(b, sid)
    {
      assert FlowOk(a, sid);
    }
  }

  /** Appending a message about a known stream. */
  lemma NoOpenAppend(messages: seq<Message>, m: Message)
    requires !Opens(m)
    ensures NoOpen(messages) ==> NoOpen(messages + [m])
    ensures OneOpen(messages) ==> OneOpen(messages + [m])
  {}

  lemma StreamKeepsSigned(a: Actor, step: Step)
    requires Named(a) && Signed(a) && (step.Write? || step.FlushStream? || step.Shutdown? || step.DropStream?)
    ensures Signed(HandleStream(a, step))
  {}

  lemma {:induction false} StreamKeepsInv(a: Actor, step: Step)
    requires Inv(a) && (step.Write? || step.FlushStream? || step.Shutdown? || step.DropStream?)
    ensures Inv(HandleStream(a, step))
  {
    StreamKeepsSigned(a, step);
    if Usable(a, step.sid) {
      var b := HandleStream(a, step);
      if b.messages != a.messages {
        NoOpenAppend(a.messages, b.messages[|a.messages|]);
      }
      forall sid: Sid
        ensures FlowOk(b, sid)
      {
        assert FlowOk(a, sid);
        if b.messages != a.messages {
          QueuedAppend(a.messages, b.messages[|a.messages|], sid);
        }
      }
    }
  }

  lemma {:induction false} DroppedKeepsInv(a: Actor)
    requires Inv(a) && Ready(a) && a.dropped != []
    ensures Inv(CloseStream(a.(dropped := a.dropped[1..]), a.dropped[0]))
  {
    var b := a.(dropped := a.dropped[1..]);
    forall sid: Sid
      ensures FlowOk(b, sid)
    {
      assert FlowOk(a, sid);
    }
    CloseKeepsInv(b, a.dropped[0]);
  }

  lemma {:induction false} StepKeepsInv(a: Actor, step: Step)
    requires Inv(a)
    ensures Inv(Next(a, step))
  {
    match step
    case Receive => if Ready(a) && a.messages != [] { MessageKeepsInv(a); }
    case ReceiveDropped => if Ready(a) && a.dropped != [] { DroppedKeepsInv(a); }
    case Act(action) => if Ready(a) { ActionKeepsInv(a, action); }
    case Flushed => if a.alive { FlushedKeepsInv(a); }
    case Die => DeadKeepsInv(a);
    case _ => StreamKeepsInv(a, step);
  }

  /** The pool publishes one `Open` to a free session. */
  lemma {:induction false} PublishKeepsInv(a: Actor, opener: Opener)
    requires Inv(a) && a.alive && Free(a)
    ensures Inv(a.(messages := a.messages + [Open(opener)]))
  {
    var b := a.(messages := a.messages + [Open(opener)]);
    forall sid: Sid
      ensures FlowOk(b, sid)
    {
      assert FlowOk(a, sid);
      QueuedAppend(a.messages, Open(opener), sid);
    }
  }

  /** After the idle callback the actor is free again. */
  lemma {:induction false} CalledIdleKeepsInv(a: Actor)
    requires Inv(a) && a.alive && a.pc.CallingIdle?
    ensures Inv(a.(pc := Running)) && Free(a.(pc := Running))
  {
    var b := a.(pc := Running);
    forall sid: Sid
      ensures FlowOk(b, sid)
    {
      assert FlowOk(a, sid);
    }
  }

  /** A free session stays free until somebody publishes to it. */
  lemma FreeStaysFree(a: Actor, step: Step)
    requires Inv(a) && Free(a)
    ensures Free(Next(a, step))
  {
    if step.Write? || step.FlushStream? || step.Shutdown? || step.DropStream? {
      var b := HandleStream(a, step);
      if b.messages != a.messages {
        NoOpenAppend(a.messages, b.messages[|a.messages|]);
      }
    } else if step.Receive? && Ready(a) && a.messages != [] {
      assert !Opens(a.messages[0]);
    }
  }

  /** A session in use stays in use until its idle callback, unless it dies. */
  lemma BusyStaysBusy(a: Actor, step: Step)
    requires Inv(a) && !Free(a) && Next(a, step).alive
    ensures !Free(Next(a, step))
  {
    if a.entries == {} && a.pc.Running? {
      var i :| 0 <= i < |a.messages| && Opens(a.messages[i]);
      var b := Next(a, step);
      if step.Receive? && i > 0 {
        assert Ready(a) ==> b.messages == a.messages[1..] && b.messages[i - 1] == a.messages[i];
      } else if !step.Receive? {
        assert |b.messages| > i && b.messages[i] == a.messages[i];
      }
    }
  }

  /** A message takes an entry away only when that stream's own holder shut it down or dropped it. */
  predicate ClosedByHolder(a: Actor, sid: Sid) {
    && sid in a.streams
    && (sid !in Next(a, Receive).entries ==> a.streams[sid].shutdown)
    && (sid !in Next(a, ReceiveDropped).entries ==> a.streams[sid].dropped)
  }

  lemma OnlyItsHolderCloses(a: Actor, sid: Sid)
    requires Inv(a) && sid in a.entries
    ensures ClosedByHolder(a, sid)
  {
    if Ready(a) && a.messages != [] {
      var m := a.messages[0];
      if m.Open? {
        OpenFindsFree(a);
      }
      assert m.Close? ==> m.sid in a.streams && a.streams[m.sid].shutdown;
    }
  }
}
