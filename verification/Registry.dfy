/** The resource registry of crates/daemon/src/resources.rs. The functions say what one lock
    section does to the registry; the class performs it in place. */
module Registry {
  import opened Common

  type Id = nat

  datatype Kind = Inbound | Dialer | DnsService

  datatype Tier = EntryPoint | Service

  function TierOf(kind: Kind): Tier { if kind.Inbound? then EntryPoint else Service }

  /** `open` is the admission token not yet cancelled, `aborted` the abort token cancelled. */
  datatype Entry = Entry(
    kind: Kind, live: bool, open: bool, aborted: bool, deadline: Option<nat>, uses: Option<Id>, users: nat)

  type Entries = map<Id, Entry>

  datatype Ending = Abort | Drain(deadline: Option<nat>)

  datatype Error = Missing | WrongKind | InUse(users: nat) | ShuttingDown

  function NewEntry(kind: Kind, uses: Option<Id>): Entry { Entry(kind, true, true, false, None, uses, 0) }

  /** Whether `reserve` accepts `id` as something to create a dialer or a DNS service on. */
  function Reservable(entries: Entries, id: Id): Result<(), Error> {
    if id !in entries || !entries[id].open || !entries[id].live then Err(Missing)
    else if !entries[id].kind.Dialer? then Err(WrongKind)
    else Ok(())
  }

  function AddUser(entries: Entries, id: Id): Entries
    requires id in entries
  {
    entries[id := entries[id].(users := entries[id].users + 1)]
  }

  function ReleaseUser(entries: Entries, id: Id): Entries {
    if id in entries then entries[id := entries[id].(users := SaturatingSub(entries[id].users, 1))] else entries
  }

  /** Admission stops; the resource underneath loses one user. */
  function StopAdmission(entries: Entries, id: Id): Entries
    requires id in entries && entries[id].open
  {
    var closed := entries[id := entries[id].(open := false)];
    if entries[id].uses.Some? then ReleaseUser(closed, entries[id].uses.value) else closed
  }

  function SetDeadline(entries: Entries, id: Id, ending: Ending): Entries
    requires id in entries
  {
    if ending.Drain? && ending.deadline.Some? then entries[id := entries[id].(deadline := ending.deadline)] else entries
  }

  function SetAborted(entries: Entries, id: Id, ending: Ending): Entries {
    if ending.Abort? && id in entries then entries[id := entries[id].(aborted := true)] else entries
  }

  /** `end`: a later abort cuts a drain short, a later drain changes nothing. */
  function End(entries: Entries, id: Id, ending: Ending): Entries {
    if id !in entries then entries
    else if entries[id].open then SetAborted(StopAdmission(SetDeadline(entries, id, ending), id), id, ending)
    else SetAborted(entries, id, ending)
  }

  /** `terminate`: policy cannot end a resource that others use. */
  function Terminate(entries: Entries, id: Id, ending: Ending): Result<Entries, Error> {
    if id !in entries then Ok(entries)
    else if entries[id].users != 0 then Err(InUse(entries[id].users))
    else Ok(End(entries, id, ending))
  }

  predicate OpenInTier(entries: Entries, tier: Tier, id: Id) {
    id in entries && entries[id].open && TierOf(entries[id].kind) == tier
  }

  /** The members of `ids` that were created on `id`. */
  function UsersAmong(entries: Entries, ids: set<Id>, id: Id): set<Id> {
    set d | d in ids && d in entries && entries[d].uses == Some(id)
  }

  /** Admission stops on all of `ids` at once. */
  function StopAll(entries: Entries, ids: set<Id>): Entries {
    map id | id in entries :: entries[id].(
      open := entries[id].open && id !in ids,
      users := SaturatingSub(entries[id].users, |UsersAmong(entries, ids, id)|))
  }

  function OpenOf(entries: Entries, tier: Tier): set<Id> {
    set id | id in entries && OpenInTier(entries, tier, id)
  }

  /** `drain_tier` on the entries. */
  function DrainTier(entries: Entries, tier: Tier): Entries { StopAll(entries, OpenOf(entries, tier)) }

  function TakeLive(entries: Entries, id: Id): Entries {
    if id in entries then entries[id := entries[id].(live := false)] else entries
  }

  // ---------------------------------------------------------------- in place

  predicate OpenDialer(entries: Entries, id: Id) {
    id in entries && entries[id].open && entries[id].live && entries[id].kind.Dialer?
  }

  /** One more user of `id`, and nothing else changed. */
  predicate OneMore(before: Entries, after: Entries, id: Id) {
    && id in before && before.Keys == after.Keys && after[id].users == before[id].users + 1
    && forall k :: k in before ==> after[k] == before[k].(users := after[k].users)
                                   && (k != id ==> after[k].users == before[k].users)
  }

  /** What ending `id` means for entry `k`: it is closed if it is `id`, it loses a user if `id` was
      open and stood on it, and it keeps everything else. */
  predicate Ended(before: Entries, after: Entries, id: Id, ending: Ending, k: Id)
    requires k in before && k in after
  {
    var loses := id in before && before[id].open && before[id].uses == Some(k);
    var dated := k == id && before[k].open && ending.Drain? && ending.deadline.Some?;
    && after[k].kind == before[k].kind && after[k].live == before[k].live && after[k].uses == before[k].uses
    && (after[k].open <==> before[k].open && k != id)
    && (after[k].aborted <==> before[k].aborted || (k == id && ending.Abort?))
    && after[k].users == (if loses then SaturatingSub(before[k].users, 1) else before[k].users)
    && after[k].deadline == (if dated then ending.deadline else before[k].deadline)
  }

  lemma EndedAt(entries: Entries, id: Id, ending: Ending, k: Id)
    requires k in entries
    ensures End(entries, id, ending).Keys == entries.Keys
    ensures Ended(entries, End(entries, id, ending), id, ending, k)
  {}

  lemma EndedEverywhere(entries: Entries, id: Id, ending: Ending)
    ensures End(entries, id, ending).Keys == entries.Keys
    ensures forall k :: k in entries ==> Ended(entries, End(entries, id, ending), id, ending, k)
  {
    forall k | k in entries
      ensures k in End(entries, id, ending) && Ended(entries, End(entries, id, ending), id, ending, k)
    {
      EndedAt(entries, id, ending, k);
    }
  }

  class Table {
    var accepting: bool
    var entries: Entries

    constructor ()
      ensures accepting && entries == map[]
    {
      accepting := true;
      entries := map[];
    }

    method Reserve(id: Id) returns (r: Result<(), Error>)
      modifies this
      ensures accepting == old(accepting)
      ensures r == Reservable(old(entries), id)
      ensures entries == if r.Ok? then AddUser(old(entries), id) else old(entries)
      ensures r.Ok? <==> OpenDialer(old(entries), id)
      ensures r.Ok? ==> OneMore(old(entries), entries, id)
    {
      if id !in entries || !entries[id].open {
        return Err(Missing);
      }
      var entry := entries[id];
      if !entry.live {
        return Err(Missing);
      }
      if !entry.kind.Dialer? {
        return Err(WrongKind);
      }
      entries := entries[id := entry.(users := entry.users + 1)];
      r := Ok(());
    }

    method Register(id: Id, kind: Kind, uses: Option<Id>) returns (r: Result<(), Error>)
      modifies this
      ensures accepting == old(accepting)
      ensures r == if old(accepting) then Ok(()) else Err(ShuttingDown)
      ensures entries == if r.Ok? then old(entries)[id := NewEntry(kind, uses)] else old(entries)
    {
      if !accepting {
        return Err(ShuttingDown);
      }
      entries := entries[id := Entry(kind, true, true, false, None, uses, 0)];
      r := Ok(());
    }

    method EndEntry(id: Id, ending: Ending)
      modifies this
      ensures accepting == old(accepting)
      ensures entries == End(old(entries), id, ending)
      ensures entries.Keys == old(entries).Keys
      ensures forall k :: k in entries ==> Ended(old(entries), entries, id, ending, k)
    {
      ghost var before := entries;
      if id !in entries {
        return;
      }
      var entry := entries[id];
      if entry.open {
        if ending.Drain? && ending.deadline.Some? {
          entries := entries[id := entries[id].(deadline := ending.deadline)];
        }
        entries := entries[id := entries[id].(open := false)];
        if entry.uses.Some? && entry.uses.value in entries {
          var used := entries[entry.uses.value];
          entries := entries[entry.uses.value := used.(users := SaturatingSub(used.users, 1))];
        }
      }
      if ending.Abort? {
        entries := entries[id := entries[id].(aborted := true)];
      }
      EndedEverywhere(before, id, ending);
    }

    method TerminateEntry(id: Id, ending: Ending) returns (r: Result<(), Error>)
      modifies this
      ensures accepting == old(accepting)
      ensures r.Ok? <==> Terminate(old(entries), id, ending).Ok?
      ensures entries == if r.Ok? then Terminate(old(entries), id, ending).value else old(entries)
      ensures r.Err? <==> id in old(entries) && old(entries)[id].users > 0
      ensures r.Ok? && id in entries ==> !entries[id].open
    {
      if id !in entries {
        return Ok(());
      }
      if entries[id].users != 0 {
        return Err(InUse(entries[id].users));
      }
      EndEntry(id, ending);
      r := Ok(());
    }

    /** One iteration of the drain: one more of the entries of `before` is stopped. */
    method DrainEntry(id: Id, ghost before: Entries, ghost done: set<Id>)
      requires entries == StopAll(before, done)
      requires id in before && before[id].open && id !in done
      modifies this
      ensures accepting == old(accepting)
      ensures entries == StopAll(before, done + {id})
    {
      StopOneMore(before, done, id);
      EndEntry(id, Ending.Drain(None));
    }

    /** Collects the open entries of the tier, then ends them one by one in whatever order the
        map yielded them; the outcome does not depend on that order. */
    method Drain(tier: Tier)
      modifies this
      ensures !accepting
      ensures entries == DrainTier(old(entries), tier)
    {
      accepting := false;
      ghost var before := entries;
      var ids := OpenOf(entries, tier);
      var left := ids;
      ghost var done: set<Id> := {};
      StopNone(before);
      while left != {}
        invariant !accepting
        invariant forall id :: id in ids <==> id in left || id in done
        invariant forall id :: id in left ==> id !in done
        invariant entries == StopAll(before, done)
        decreases left
      {
        var id :| id in left;
        assert id in ids && OpenInTier(before, tier, id);
        DrainEntry(id, before, done);
        left, done := left - {id}, done + {id};
      }
      assert done == ids;
    }
  }

  lemma StopNone(entries: Entries)
    ensures StopAll(entries, {}) == entries
  {
    forall id | id in entries
      ensures UsersAmong(entries, {}, id) == {}
    {}
  }

  /** What ending one open entry does to every entry. */
  lemma StopOne(entries: Entries, id: Id, k: Id)
    requires id in entries && entries[id].open && k in entries
    ensures var next := End(entries, id, Ending.Drain(None));
      && next.Keys == entries.Keys
      && next[k] == entries[k].(open := entries[k].open && k != id,
                                users := if entries[id].uses == Some(k) then SaturatingSub(entries[k].users, 1)
                                         else entries[k].users)
  {}

  lemma OneMoreUser(entries: Entries, done: set<Id>, id: Id, k: Id)
    requires id in entries && id !in done
    ensures |UsersAmong(entries, done + {id}, k)|
      == |UsersAmong(entries, done, k)| + if entries[id].uses == Some(k) then 1 else 0
  {
    var was := UsersAmong(entries, done, k);
    assert UsersAmong(entries, done + {id}, k) == if entries[id].uses == Some(k) then was + {id} else was;
  }

  predicate SameAt(a: Entries, b: Entries, k: Id) { (k in a <==> k in b) && (k in a && k in b ==> a[k] == b[k]) }

  lemma SameEverywhere(a: Entries, b: Entries)
    requires forall k: Id :: SameAt(a, b, k)
    ensures a == b
  {
    forall k: Id
      ensures k in a <==> k in b
      ensures k in a ==> k in b && a[k] == b[k]
    {
      assert SameAt(a, b, k);
    }
  }

  lemma StopOneMoreAt(entries: Entries, done: set<Id>, id: Id, k: Id)
    requires id in entries && entries[id].open && id !in done
    ensures SameAt(End(StopAll(entries, done), id, Ending.Drain(None)), StopAll(entries, done + {id}), k)
  {
    var now := StopAll(entries, done);
    assert id in now && now[id].open;
    StopOne(now, id, id);
    if k in entries {
      StopOne(now, id, k);
      OneMoreUser(entries, done, id, k);
    }
  }

  /** Ending one more open entry extends the set of stopped ones. */
  lemma StopOneMore(entries: Entries, done: set<Id>, id: Id)
    requires id in entries && entries[id].open && id !in done
    ensures id in StopAll(entries, done) && StopAll(entries, done)[id].open
    ensures End(StopAll(entries, done), id, Ending.Drain(None)) == StopAll(entries, done + {id})
  {
    forall k: Id
      ensures SameAt(End(StopAll(entries, done), id, Ending.Drain(None)), StopAll(entries, done + {id}), k)
    {
      StopOneMoreAt(entries, done, id, k);
    }
    SameEverywhere(End(StopAll(entries, done), id, Ending.Drain(None)), StopAll(entries, done + {id}));
  }

  /** A later drain changes nothing, and a later abort changes nothing but the abort token: no
      second release of the use, no second deadline. */
  lemma EndingTwice(entries: Entries, id: Id, first: Ending, second: Ending)
    requires id in entries
    ensures var once := End(entries, id, first);
      && id in once && !once[id].open
      && End(once, id, second) == if second.Abort? then once[id := once[id].(aborted := true)] else once
  {
    var once := End(entries, id, first);
    assert id in once && !once[id].open;
  }
}
