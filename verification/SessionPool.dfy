/** The idle-session pool of crates/anytls/src/client.rs. */
module SessionPool {
  import opened Common

  type Id = nat

  const MAX_SEQUENCE: nat := 0xFFFF_FFFF_FFFF_FFFF

  /** `sessions` maps each pooled session to its `idle_since`. */
  datatype Pool = Pool(sessions: map<Id, Option<nat>>, idle: seq<Id>, sequence: nat, draining: bool)

  /** The idle list holds exactly the pooled sessions with `idle_since` set, once each. */
  ghost predicate Valid(p: Pool) {
    && NoDuplicates(p.idle)
    && (forall id: Id :: id in p.idle <==> id in p.sessions && p.sessions[id].Some?)
    && (p.draining ==> p.idle == [])
  }

  /** What `prune` keeps: live sessions that are busy or not idle for too long. */
  predicate Kept(p: Pool, closed: set<Id>, now: nat, timeout: nat, id: Id) {
    id in p.sessions && id !in closed && (p.sessions[id].Some? ==> now - p.sessions[id].value < timeout)
  }

  function Retain(ids: seq<Id>, keep: set<Id>): (r: seq<Id>)
    ensures forall id :: id in r <==> id in ids && id in keep
    ensures NoDuplicates(ids) ==> NoDuplicates(r)
  {
    if ids == [] then []
    else
      var last := ids[|ids| - 1];
      assert ids == ids[..|ids| - 1] + [last];
      Retain(ids[..|ids| - 1], keep) + (if last in keep then [last] else [])
  }

  function Prune(p: Pool, closed: set<Id>, now: nat, timeout: nat): Pool {
    var kept := map id | id in p.sessions && Kept(p, closed, now, timeout, id) :: p.sessions[id];
    p.(sessions := kept, idle := Retain(p.idle, kept.Keys))
  }

  function Reuse(p: Pool, closed: set<Id>, now: nat, timeout: nat): (Pool, Option<Id>) {
    var pruned := Prune(p, closed, now, timeout);
    if pruned.idle == [] then (pruned, None)
    else
      var id := pruned.idle[|pruned.idle| - 1];
      (Pop(pruned), Some(id))
  }

  function MarkIdle(p: Pool, id: Id, now: nat): Pool {
    if p.draining then p.(sessions := p.sessions - {id})
    else if id in p.sessions then p.(sessions := p.sessions[id := Some(now)], idle := p.idle + [id])
    else p
  }

  function Drain(p: Pool): Pool {
    p.(draining := true, idle := [], sessions := map id | id in p.sessions && p.sessions[id].None? :: p.sessions[id])
  }

  lemma PruneKeepsValid(p: Pool, closed: set<Id>, now: nat, timeout: nat)
    requires Valid(p)
    ensures Valid(Prune(p, closed, now, timeout))
    ensures forall id :: id in Prune(p, closed, now, timeout).idle <==>
      id in p.idle && Kept(p, closed, now, timeout, id)
  {
    var kept := Prune(p, closed, now, timeout);
    forall id: Id
      ensures id in kept.idle <==> id in kept.sessions && kept.sessions[id].Some?
    {
      assert id in p.idle <==> id in p.sessions && p.sessions[id].Some?;
    }
  }

  /** The last retained identity is the last one worth keeping. */
  lemma {:induction false} RetainLast(ids: seq<Id>, keep: set<Id>) returns (k: nat)
    requires Retain(ids, keep) != []
    ensures k < |ids| && ids[k] in keep
    ensures Retain(ids, keep)[|Retain(ids, keep)| - 1] == ids[k]
    ensures forall j :: k < j < |ids| ==> ids[j] !in keep
  {
    k := |ids| - 1;
    if ids[k] !in keep {
      assert Retain(ids, keep) == Retain(ids[..k], keep);
      k := RetainLast(ids[..k], keep);
    }
  }

  /** The pool after handing out its last idle session. */
  function Pop(p: Pool): Pool
    requires p.idle != []
  {
    p.(idle := p.idle[..|p.idle| - 1], sessions := p.sessions[p.idle[|p.idle| - 1] := None])
  }

  lemma PopKeepsValid(p: Pool)
    requires Valid(p) && p.idle != []
    ensures Valid(Pop(p)) && p.idle[|p.idle| - 1] !in Pop(p).idle
    ensures p.idle[|p.idle| - 1] in p.sessions && p.sessions[p.idle[|p.idle| - 1]].Some?
  {
    var q := Pop(p);
    var id := p.idle[|p.idle| - 1];
    assert p.idle == q.idle + [id] && id in p.idle;
    forall k: Id
      ensures k in q.idle <==> k in q.sessions && q.sessions[k].Some?
    {
      assert k in p.idle <==> k in p.sessions && p.sessions[k].Some?;
    }
  }

  /** Reuse takes the session that became idle last among those still usable, fails only when
      there is none, and hands it out to one caller. */
  lemma ReuseTakesTheNewest(p: Pool, closed: set<Id>, now: nat, timeout: nat)
    requires Valid(p)
    ensures var (q, r) := Reuse(p, closed, now, timeout);
      && Valid(q)
      && (r.None? <==> forall id :: id in p.idle ==> !Kept(p, closed, now, timeout, id))
      && (r.Some? ==>
            && r.value in p.idle && Kept(p, closed, now, timeout, r.value)
            && r.value !in q.idle && r.value in q.sessions && q.sessions[r.value].None?
            && exists k :: 0 <= k < |p.idle| && p.idle[k] == r.value
                           && forall j :: k < j < |p.idle| ==> !Kept(p, closed, now, timeout, p.idle[j]))
  {
    PruneKeepsValid(p, closed, now, timeout);
    var pruned := Prune(p, closed, now, timeout);
    if pruned.idle != [] {
      PopKeepsValid(pruned);
      var k := RetainLast(p.idle, pruned.sessions.Keys);
      assert p.idle[k] in pruned.idle;
    } else {
      forall id | id in p.idle
        ensures !Kept(p, closed, now, timeout, id)
      {
        assert id !in pruned.idle;
      }
    }
  }

  /** A session that is not already idle becomes idle; a draining pool lets it go instead. */
  lemma MarkIdleKeepsValid(p: Pool, id: Id, now: nat)
    requires Valid(p) && id !in p.idle
    ensures var q := MarkIdle(p, id, now);
      && Valid(q)
      && (forall k :: k in q.idle <==> k in p.idle || (k == id && id in p.sessions && !p.draining))
  {
    var q := MarkIdle(p, id, now);
    forall k: Id
      ensures k in q.idle <==> k in q.sessions && q.sessions[k].Some?
    {
      assert k in p.idle <==> k in p.sessions && p.sessions[k].Some?;
    }
  }

  lemma DrainKeepsValid(p: Pool)
    requires Valid(p)
    ensures Valid(Drain(p)) && forall id :: id in Drain(p).sessions <==> id in p.sessions && id !in p.idle
  {
    forall id: Id
      ensures id in Drain(p).sessions <==> id in p.sessions && id !in p.idle
    {
      assert id in p.idle <==> id in p.sessions && p.sessions[id].Some?;
    }
  }

  // ---------------------------------------------------------------- in place

  class SharedPool {
    var sessions: map<Id, Option<nat>>
    var idle: seq<Id>
    var sequence: nat
    var draining: bool

    function Value(): Pool
      reads this
    {
      Pool(sessions, idle, sequence, draining)
    }

    constructor ()
      ensures Value() == Pool(map[], [], 0, false) && Valid(Value())
    {
      sessions := map[];
      idle := [];
      sequence := 0;
      draining := false;
    }

    method PruneIdle(closed: set<Id>, now: nat, timeout: nat)
      requires Valid(Value())
      modifies this
      ensures Valid(Value()) && Value() == Prune(old(Value()), closed, now, timeout)
    {
      PruneKeepsValid(Value(), closed, now, timeout);
      sessions := map id | id in sessions && Kept(Value(), closed, now, timeout, id) :: sessions[id];
      idle := Retain(idle, sessions.Keys);
    }

    /** Never finds an idle identity without its session, nor one whose `idle_since` is unset. */
    method TakeNewest() returns (id: Id)
      requires Valid(Value()) && idle != []
      modifies this
      ensures Valid(Value()) && Value() == Pop(old(Value())) && id == old(idle)[|old(idle)| - 1]
    {
      PopKeepsValid(Value());
      id := idle[|idle| - 1];
      idle := idle[..|idle| - 1];
      sessions := sessions[id := None];
    }

    method ReuseIdle(closed: set<Id>, now: nat, timeout: nat) returns (r: Option<Id>)
      requires Valid(Value())
      modifies this
      ensures Valid(Value()) && (Value(), r) == Reuse(old(Value()), closed, now, timeout)
    {
      PruneIdle(closed, now, timeout);
      if idle == [] {
        return None;
      }
      var id := TakeNewest();
      r := Some(id);
    }

    method Mark(id: Id, now: nat)
      requires Valid(Value()) && (id in sessions ==> sessions[id].None?)
      modifies this
      ensures Valid(Value()) && Value() == MarkIdle(old(Value()), id, now)
    {
      assert id in Value().idle <==> id in Value().sessions && Value().sessions[id].Some?;
      MarkIdleKeepsValid(Value(), id, now);
      if draining {
        sessions := sessions - {id};
      } else if id in sessions {
        sessions := sessions[id := Some(now)];
        idle := idle + [id];
      }
    }

    method DrainIdle()
      requires Valid(Value())
      modifies this
      ensures Valid(Value()) && Value() == Drain(old(Value()))
    {
      DrainKeepsValid(Value());
      draining := true;
      sessions := map id | id in sessions && sessions[id].None? :: sessions[id];
      idle := [];
    }
  }
}
