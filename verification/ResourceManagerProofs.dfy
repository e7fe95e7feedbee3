/** Reference counts and standing of resources, for every interleaving of creations, failures,
    closes, drains and supervisors. */
module ResourceManagerProofs {
  import opened Common
  import opened Registry
  import opened ResourceManager

  // ---------------------------------------------------------------- tracking

  lemma ReserveTracks(s: State, id: Id, k: Id)
    requires IdOk(s, k) && IdOk(s, id)
    requires At(s, id, Wanting) && s.creations[id].wants.Some? ==> IdOk(s, s.creations[id].wants.value)
    ensures IdOk(DoReserve(s, id), k)
  {}

  lemma RegisterTracks(s: State, id: Id, k: Id)
    requires IdOk(s, k) && IdOk(s, id)
    ensures IdOk(DoRegister(s, id), k)
  {}

  lemma FailTracks(s: State, id: Id, k: Id)
    requires IdOk(s, k)
    ensures IdOk(DoFail(s, id), k)
  {}

  lemma DropTracks(s: State, id: Id, k: Id)
    requires IdOk(s, k)
    ensures IdOk(DoDrop(s, id), k)
  {}

  lemma SuperviseTracksSelf(s: State, id: Id)
    requires IdOk(s, id)
    ensures IdOk(DoSupervise(s, id), id)
  {}

  /** A supervisor changes nothing about another resource. */
  lemma SuperviseLeavesEntry(s: State, id: Id, k: Id)
    requires k != id
    ensures var s' := DoSupervise(s, id);
      && s'.creations == s.creations && s'.next == s.next
      && (k in s'.entries <==> k in s.entries) && (k in s.entries ==> s'.entries[k] == s.entries[k])
  {}

  lemma SuperviseLeavesTokens(s: State, id: Id, k: Id)
    requires k != id
    ensures var s' := DoSupervise(s, id);
      && s'.supervisors.Keys == s.supervisors.Keys && (k in s.supervisors ==> s'.supervisors[k] == s.supervisors[k])
      && (k in s'.cancelled <==> k in s.cancelled) && (k in s'.released <==> k in s.released)
  {}

  lemma SuperviseTracks(s: State, id: Id, k: Id)
    requires IdOk(s, k) && IdOk(s, id)
    ensures IdOk(DoSupervise(s, id), k)
  {
    if k == id {
      SuperviseTracksSelf(s, id);
    } else {
      SuperviseLeavesEntry(s, id, k);
      SuperviseLeavesTokens(s, id, k);
    }
  }

  lemma TerminateTracks(s: State, id: Id, ending: Ending, k: Id)
    requires IdOk(s, k)
    ensures IdOk(Next(s, TerminateBy(id, ending)), k)
  {
    if id in s.entries {
      EndedAt(s.entries, id, ending, id);
      if k in s.entries { EndedAt(s.entries, id, ending, k); }
    }
  }

  lemma {:induction false} StepTracks(s: State, step: Step)
    requires Tracked(s)
    ensures Tracked(Next(s, step))
  {
    var s' := Next(s, step);
    forall k: Id
      ensures IdOk(s', k)
    {
      assert IdOk(s, k);
      match step
      case Reserve(id) =>
        assert IdOk(s, id);
        if At(s, id, Wanting) && s.creations[id].wants.Some? { assert IdOk(s, s.creations[id].wants.value); }
        ReserveTracks(s, id, k);
      case FailBuild(id) => FailTracks(s, id, k);
      case Register(id) => assert IdOk(s, id); RegisterTracks(s, id, k);
      case DropReservation(id) => DropTracks(s, id, k);
      case TerminateBy(id, ending) => TerminateTracks(s, id, ending, k);
      case Supervise(id) => assert IdOk(s, id); SuperviseTracks(s, id, k);
      case Create(_, _) => assert IdOk(s, s.next + 1);
      case DrainAll(_) =>
      case AbortAll =>
      case Propagate(id) => assert IdOk(s, id);
      case StopItself(id) => assert IdOk(s, id);
    }
  }

  // ---------------------------------------------------------------- counting

  /** How an update of one creation changes who reserves `k`. */
  lemma HoldersUpdate(creations: map<Id, Creation>, id: Id, c: Creation, k: Id)
    ensures var before := Holders(creations, k);
      var after := Holders(creations[id := c], k);
      && (c.reservation == Some(k) ==> after == before + {id})
      && (c.reservation != Some(k) ==> after == before - {id})
      && (id in before <==> id in creations && creations[id].reservation == Some(k))
  {}

  /** Entries that differ in neither use nor openness have the same dependents. */
  lemma SameDependents(entries: Entries, entries': Entries, k: Id)
    requires entries'.Keys == entries.Keys
    requires forall d :: d in entries ==> entries'[d].open == entries[d].open && entries'[d].uses == entries[d].uses
    ensures Dependents(entries', k) == Dependents(entries, k)
  {}

  lemma ReservedCounts(s: State, id: Id, below: Id, k: Id)
    requires CountOk(s, k) && At(s, id, Wanting) && s.creations[id].reservation.None? && below in s.entries
    ensures var c := s.creations[id].(pc := Holding, reservation := Some(below));
      CountOk(SetCreation(s, id, c).(entries := AddUser(s.entries, below)), k)
  {
    HoldersUpdate(s.creations, id, s.creations[id].(pc := Holding, reservation := Some(below)), k);
    SameDependents(s.entries, AddUser(s.entries, below), k);
  }

  lemma UnreservedCounts(s: State, id: Id, c: Creation, k: Id)
    requires CountOk(s, k) && id in s.creations && s.creations[id].reservation.None? && c.reservation.None?
    ensures CountOk(SetCreation(s, id, c), k)
  {
    HoldersUpdate(s.creations, id, c, k);
    assert Holders(s.creations[id := c], k) == Holders(s.creations, k);
  }

  lemma ReserveCounts(s: State, id: Id, k: Id)
    requires CountOk(s, k) && (id in s.creations ==> CreationOk(s, s.creations[id]))
    ensures CountOk(DoReserve(s, id), k)
  {
    if At(s, id, Wanting) {
      var c := s.creations[id];
      if c.wants.Some? && Reservable(s.entries, c.wants.value).Ok? {
        ReservedCounts(s, id, c.wants.value, k);
      } else {
        UnreservedCounts(s, id, DoReserve(s, id).creations[id], k);
      }
    }
  }

  lemma FailCounts(s: State, id: Id, k: Id)
    requires CountOk(s, k)
    ensures CountOk(DoFail(s, id), k)
  {
    var s' := DoFail(s, id);
    if At(s, id, Holding) && k in s'.entries {
      HoldersUpdate(s.creations, id, s'.creations[id], k);
      assert Holders(s'.creations, k) == Holders(s.creations, k);
    }
  }

  /** No one counts on an entry that is not registered yet. */
  lemma FreshHasNoUsers(s: State, id: Id)
    requires Tracked(s) && id !in s.supervisors
    ensures Dependents(s.entries, id) == {} && Holders(s.creations, id) == {}
  {
    forall d | d in s.entries
      ensures s.entries[d].uses != Some(id)
    {
      assert IdOk(s, d);
    }
    forall c | c in s.creations
      ensures s.creations[c].reservation != Some(id)
    {
      assert IdOk(s, c);
    }
  }

  lemma AddDependent(entries: Entries, id: Id, e: Entry, k: Id)
    requires id !in entries && e.open
    ensures id !in Dependents(entries, k)
    ensures Dependents(entries[id := e], k)
      == if e.uses == Some(k) then Dependents(entries, k) + {id} else Dependents(entries, k)
  {}

  lemma RegisterCounts(s: State, id: Id, k: Id)
    requires Tracked(s) && CountOk(s, k)
    ensures CountOk(DoRegister(s, id), k)
  {
    var s' := DoRegister(s, id);
    if At(s, id, Holding) && k in s'.entries {
      var c := s.creations[id];
      assert IdOk(s, id);
      HoldersUpdate(s.creations, id, s'.creations[id], k);
      if s.accepting {
        FreshHasNoUsers(s, id);
        AddDependent(s.entries, id, NewEntry(c.kind, c.reservation), k);
      } else {
        assert Holders(s'.creations, k) == Holders(s.creations, k);
      }
    }
  }

  lemma DropCounts(s: State, id: Id, k: Id)
    requires CountOk(s, k)
    ensures CountOk(DoDrop(s, id), k)
  {
    var s' := DoDrop(s, id);
    if At(s, id, Failing) && k in s'.entries {
      HoldersUpdate(s.creations, id, s'.creations[id], k);
      SameDependents(s.entries, s'.entries, k);
    }
  }

  lemma EndDependents(entries: Entries, id: Id, ending: Ending, k: Id)
    requires id in entries && k in entries
    ensures Dependents(End(entries, id, ending), k) == Dependents(entries, k) - {id}
    ensures id in Dependents(entries, k) <==> entries[id].open && entries[id].uses == Some(k)
  {
    forall d: Id
      ensures d in Dependents(End(entries, id, ending), k) <==> d in Dependents(entries, k) - {id}
    {
      EndedAt(entries, id, ending, id);
      if d in entries { EndedAt(entries, id, ending, d); }
    }
  }

  lemma TerminateCounts(s: State, id: Id, ending: Ending, k: Id)
    requires CountOk(s, k)
    ensures CountOk(Next(s, TerminateBy(id, ending)), k)
  {
    if id in s.entries {
      EndedAt(s.entries, id, ending, id);
      if k in s.entries {
        EndedAt(s.entries, id, ending, k);
        EndDependents(s.entries, id, ending, k);
      }
    }
  }

  lemma DrainCounts(s: State, tier: Tier, k: Id)
    requires CountOk(s, k)
    ensures CountOk(Next(s, DrainAll(tier)), k)
  {
    var s' := Next(s, DrainAll(tier));
    if k in s.entries {
      var stopped := UsersAmong(s.entries, OpenOf(s.entries, tier), k);
      assert stopped <= Dependents(s.entries, k);
      assert Dependents(s'.entries, k) == Dependents(s.entries, k) - stopped;
    }
  }

  /** A supervisor only touches an entry that is no longer open. */
  lemma SuperviseCounts(s: State, id: Id, k: Id)
    requires CountOk(s, k) && IdOk(s, id) && StandOk(s, id)
    ensures CountOk(DoSupervise(s, id), k)
  {
    var s' := DoSupervise(s, id);
    forall d: Id
      ensures d in Dependents(s'.entries, k) <==> d in Dependents(s.entries, k)
    {
      if d != id { SuperviseLeavesEntry(s, id, d); }
    }
    if k in s'.entries {
      assert Dependents(s'.entries, k) == Dependents(s.entries, k);
    }
  }

  lemma CreateCounts(s: State, kind: Kind, wants: Option<Id>, k: Id)
    requires CountOk(s, k) && IdOk(s, s.next + 1)
    ensures CountOk(Next(s, Create(kind, wants)), k)
  {
    var c := Creation(kind, wants, None, Wanting);
    HoldersUpdate(s.creations, s.next + 1, c, k);
    assert Holders(s.creations[s.next + 1 := c], k) == Holders(s.creations, k);
  }

  lemma {:induction false} StepCounts(s: State, step: Step)
    requires Tracked(s) && Counted(s) && Standing(s)
    ensures Counted(Next(s, step))
  {
    var s' := Next(s, step);
    forall k: Id
      ensures CountOk(s', k)
    {
      assert CountOk(s, k);
      match step
      case Reserve(id) => assert IdOk(s, id); ReserveCounts(s, id, k);
      case FailBuild(id) => FailCounts(s, id, k);
      case Register(id) => RegisterCounts(s, id, k);
      case DropReservation(id) => DropCounts(s, id, k);
      case TerminateBy(id, ending) => TerminateCounts(s, id, ending, k);
      case DrainAll(tier) => DrainCounts(s, tier, k);
      case Supervise(id) => assert IdOk(s, id) && StandOk(s, id); SuperviseCounts(s, id, k);
      case Create(kind, wants) => assert IdOk(s, s.next + 1); CreateCounts(s, kind, wants, k);
      case AbortAll =>
      case Propagate(_) =>
      case StopItself(_) =>
    }
  }

  // ---------------------------------------------------------------- standing

  lemma ReserveStands(s: State, id: Id, k: Id)
    requires StandOk(s, k)
    ensures StandOk(DoReserve(s, id), k)
  {}

  lemma FailStands(s: State, id: Id, k: Id)
    requires StandOk(s, k)
    ensures StandOk(DoFail(s, id), k)
  {}

  lemma RegisterStands(s: State, id: Id, k: Id)
    requires StandOk(s, k) && StandOk(s, id) && IdOk(s, id)
    ensures StandOk(DoRegister(s, id), k)
  {}

  lemma DropStands(s: State, id: Id, k: Id)
    requires StandOk(s, k)
    ensures StandOk(DoDrop(s, id), k)
  {}

  lemma SuperviseStands(s: State, id: Id, k: Id)
    requires StandOk(s, k) && StandOk(s, id) && !s.aborted
    ensures StandOk(DoSupervise(s, id), k)
  {}

  /** A resource nobody uses can be closed without anything open standing on it. */
  lemma TerminateStands(s: State, id: Id, ending: Ending, k: Id)
    requires StandOk(s, k) && CountOk(s, id)
    ensures StandOk(Next(s, TerminateBy(id, ending)), k)
  {
    var s' := Next(s, TerminateBy(id, ending));
    if id in s.entries && s.entries[id].users == 0 {
      assert Dependents(s.entries, id) == {} && Holders(s.creations, id) == {} by {
        assert |Dependents(s.entries, id)| == 0 && |Holders(s.creations, id)| == 0;
      }
      EndedAt(s.entries, id, ending, id);
      if k in s.entries {
        EndedAt(s.entries, id, ending, k);
        if s.entries[k].open && s.entries[k].uses.Some? {
          assert k !in Dependents(s.entries, id);
          EndedAt(s.entries, id, ending, s.entries[k].uses.value);
        }
      }
      if s.accepting && k in s.creations && s.creations[k].reservation.Some? {
        assert k !in Holders(s.creations, id);
        EndedAt(s.entries, id, ending, s.creations[k].reservation.value);
      }
    }
  }

  /** Draining a tier stops the services it contains together, and entry points carry nothing. */
  lemma DrainStands(s: State, tier: Tier, k: Id)
    requires StandOk(s, k) && IdOk(s, k)
    ensures StandOk(Next(s, DrainAll(tier)), k)
  {}

  lemma PropagateStands(s: State, id: Id, k: Id)
    requires StandOk(s, k) && StandOk(s, id)
    requires id in s.entries && s.entries[id].uses.Some? ==> StandOk(s, s.entries[id].uses.value)
    ensures StandOk(Next(s, Propagate(id)), k)
  {}

  lemma {:induction false} StepStands(s: State, step: Step)
    requires Tracked(s) && Counted(s) && Standing(s) && !Next(s, step).aborted
    ensures Standing(Next(s, step))
  {
    var s' := Next(s, step);
    forall k: Id
      ensures StandOk(s', k)
    {
      assert StandOk(s, k);
      match step
      case Reserve(id) => ReserveStands(s, id, k);
      case FailBuild(id) => FailStands(s, id, k);
      case Register(id) => assert StandOk(s, id) && IdOk(s, id); RegisterStands(s, id, k);
      case DropReservation(id) => DropStands(s, id, k);
      case TerminateBy(id, ending) => assert CountOk(s, id); TerminateStands(s, id, ending, k);
      case DrainAll(tier) => assert IdOk(s, k); DrainStands(s, tier, k);
      case Supervise(id) => assert StandOk(s, id); SuperviseStands(s, id, k);
      case Propagate(id) =>
        assert StandOk(s, id);
        if id in s.entries && s.entries[id].uses.Some? { assert StandOk(s, s.entries[id].uses.value); }
        PropagateStands(s, id, k);
      case StopItself(_) =>
      case Create(_, _) => assert IdOk(s, s.next + 1);
      case AbortAll =>
    }
  }

  lemma {:induction false} StepKeepsInv(s: State, step: Step)
    requires Inv(s)
    ensures Inv(Next(s, step))
  {
    StepTracks(s, step);
    if !Next(s, step).aborted {
      StepCounts(s, step);
      StepStands(s, step);
    }
  }

  lemma {:induction false} RunKeepsInv(steps: seq<Step>)
    ensures Inv(Exec(Init(), steps))
    decreases |steps|
  {
    if steps != [] {
      RunKeepsInv(steps[..|steps| - 1]);
      StepKeepsInv(Exec(Init(), steps[..|steps| - 1]), steps[|steps| - 1]);
    }
  }
}
