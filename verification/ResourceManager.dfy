/** The resource manager of crates/daemon/src/resources.rs as a step machine: one step is one
    registry lock section, or one move of a supervisor or of a cancellation token. */
module ResourceManager {
  import opened Common
  import opened Registry

  /** A creation holds its reservation until the entry is registered or the creation fails. */
  datatype CreationPc = Wanting | Holding | Failing | Registered | Failed

  datatype Creation = Creation(kind: Kind, wants: Option<Id>, reservation: Option<Id>, pc: CreationPc)

  /** The supervisor of one entry: wait for the end, drain, close and wait for the scope, drop
      the native state, remove the entry, signal the waiters. */
  datatype Supervisor = Watching | Draining | ClosingScope | TakingLive | Removing | Signalling | Gone

  datatype State = State(
    accepting: bool,
    entries: Entries,
    creations: map<Id, Creation>,
    supervisors: map<Id, Supervisor>,
    next: nat,
    aborted: bool,              // the root scope is closed
    cancelled: set<Id>,         // scopes cancelled by their supervisor, their carrier or their own work
    released: set<Id>)          // `released` tokens that fired

  datatype Step =
    | Create(kind: Kind, wants: Option<Id>)
    | Reserve(id: Id)
    | FailBuild(id: Id)
    | Register(id: Id)
    | DropReservation(id: Id)
    | TerminateBy(id: Id, ending: Ending)
    | DrainAll(tier: Tier)
    | AbortAll
    | Supervise(id: Id)
    | Propagate(id: Id)
    | StopItself(id: Id)        // an inbound's own work closes its scope, as a TUN endpoint does

  function Init(): State { State(true, map[], map[], map[], 0, false, {}, {}) }

  /** Inbounds stand alone, a dialer may have a carrier, a DNS service always has a dialer. */
  predicate Configurable(kind: Kind, wants: Option<Id>) {
    (kind.Inbound? ==> wants.None?) && (kind.DnsService? ==> wants.Some?)
  }

  function SetCreation(s: State, id: Id, c: Creation): State { s.(creations := s.creations[id := c]) }

  function ScopeCancelled(s: State, id: Id): bool { s.aborted || id in s.cancelled }

  /** A dialer's clients live in a scope below its carrier's. */
  predicate CarrierCancelled(s: State, id: Id) {
    id in s.entries && s.entries[id].kind.Dialer? && s.entries[id].uses.Some? && s.entries[id].uses.value in s.cancelled
  }

  predicate At(s: State, id: Id, pc: CreationPc) { id in s.creations && s.creations[id].pc == pc }

  /** `reserve`, for a creation that needs a resource to stand on. */
  function DoReserve(s: State, id: Id): State {
    if !At(s, id, Wanting) then s else
    var c := s.creations[id];
    if c.wants.None? then SetCreation(s, id, c.(pc := Holding))
    else if Reservable(s.entries, c.wants.value).Ok? then
      SetCreation(s, id, c.(pc := Holding, reservation := c.wants)).(entries := AddUser(s.entries, c.wants.value))
    else SetCreation(s, id, c.(pc := Failed))
  }

  /** Building failed, or the creation was cancelled. */
  function DoFail(s: State, id: Id): State {
    if At(s, id, Holding) then SetCreation(s, id, s.creations[id].(pc := Failing)) else s
  }

  /** The last lock section of `create`: the reservation becomes the entry's use. */
  function DoRegister(s: State, id: Id): State {
    if !At(s, id, Holding) then s else
    var c := s.creations[id];
    if !s.accepting then SetCreation(s, id, c.(pc := Failing))
    else SetCreation(s, id, c.(pc := Registered, reservation := None)).(
           entries := s.entries[id := NewEntry(c.kind, c.reservation)],
           supervisors := s.supervisors[id := Watching])
  }

  /** `Reservation::drop`. */
  function DoDrop(s: State, id: Id): State {
    if !At(s, id, Failing) then s else
    var c := s.creations[id];
    SetCreation(s, id, c.(pc := Failed, reservation := None)).(
      entries := if c.reservation.Some? then ReleaseUser(s.entries, c.reservation.value) else s.entries)
  }

  function DoSupervise(s: State, id: Id): State {
    if id !in s.supervisors then s else
    match s.supervisors[id]
    case Watching =>
      if ScopeCancelled(s, id) || (id in s.entries && !s.entries[id].open) then
        s.(supervisors := s.supervisors[id := Draining])
      else s
    case Draining =>
      // Ends on an abort, a cancelled scope, the deadline or idleness: at any time.
      s.(supervisors := s.supervisors[id := ClosingScope])
    case ClosingScope =>
      s.(supervisors := s.supervisors[id := TakingLive], cancelled := s.cancelled + {id})
    case TakingLive =>
      s.(supervisors := s.supervisors[id := Removing], entries := TakeLive(s.entries, id))
    case Removing =>
      s.(supervisors := s.supervisors[id := Signalling], entries := s.entries - {id})
    case Signalling =>
      s.(supervisors := s.supervisors[id := Gone], released := s.released + {id})
    case Gone => s
  }

  function Next(s: State, step: Step): State {
    match step
    case Create(kind, wants) =>
      if s.accepting && Configurable(kind, wants) then
        s.(next := s.next + 1, creations := s.creations[s.next + 1 := Creation(kind, wants, None, Wanting)])
      else s
    case Reserve(id) => DoReserve(s, id)
    case FailBuild(id) => DoFail(s, id)
    case Register(id) => DoRegister(s, id)
    case DropReservation(id) => DoDrop(s, id)
    case TerminateBy(id, ending) =>
      var r := Terminate(s.entries, id, ending);
      if r.Ok? then s.(entries := r.value) else s
    case DrainAll(tier) => s.(accepting := false, entries := DrainTier(s.entries, tier))
    case AbortAll => s.(accepting := false, aborted := true)
    case Supervise(id) => DoSupervise(s, id)
    case Propagate(id) => if CarrierCancelled(s, id) then s.(cancelled := s.cancelled + {id}) else s
    case StopItself(id) =>
      if id in s.entries && s.entries[id].kind.Inbound? then s.(cancelled := s.cancelled + {id}) else s
  }

  function Exec(s: State, steps: seq<Step>): State
    decreases |steps|
  {
    if steps == [] then s else Next(Exec(s, steps[..|steps| - 1]), steps[|steps| - 1])
  }

  // ---------------------------------------------------------------- the invariant

  /** Open resources created on `id`. */
  function Dependents(entries: Entries, id: Id): set<Id> {
    set d | d in entries && entries[d].open && entries[d].uses == Some(id)
  }

  /** Creations in flight that reserved `id`. */
  function Holders(creations: map<Id, Creation>, id: Id): set<Id> {
    set c | c in creations && creations[c].reservation == Some(id)
  }

  predicate Present(v: Supervisor) { !v.Signalling? && !v.Gone? }

  predicate BeforeTake(v: Supervisor) { v.Watching? || v.Draining? || v.ClosingScope? || v.TakingLive? }

  predicate CreationOk(s: State, c: Creation) {
    && (c.reservation.Some? ==> (c.pc.Holding? || c.pc.Failing?) && c.reservation.value in s.supervisors)
    && (c.kind.Inbound? ==> c.wants.None? && c.reservation.None?)
  }

  predicate EntryOk(s: State, id: Id)
    requires id in s.entries && id in s.supervisors
  {
    && (s.entries[id].live <==> BeforeTake(s.supervisors[id]))
    && (s.entries[id].uses.Some? ==> s.entries[id].uses.value in s.supervisors && !s.entries[id].kind.Inbound?)
  }

  /** Identities are fresh, and a registered entry follows its supervisor. */
  predicate IdOk(s: State, id: Id) {
    && (id in s.supervisors <==> At(s, id, Registered))
    && (id in s.creations ==> id <= s.next && CreationOk(s, s.creations[id]))
    && (id in s.entries <==> id in s.supervisors && Present(s.supervisors[id]))
    && (id in s.entries ==> EntryOk(s, id))
    && (id in s.released <==> id in s.supervisors && s.supervisors[id].Gone?)
    && (id in s.cancelled ==> id in s.supervisors)
  }

  ghost predicate Tracked(s: State) {
    (forall id: Id :: IdOk(s, id)) && (s.aborted ==> !s.accepting)
  }

  /** `users` is exact. */
  predicate CountOk(s: State, id: Id) {
    id in s.entries ==> s.entries[id].users == |Dependents(s.entries, id)| + |Holders(s.creations, id)|
  }

  ghost predicate Counted(s: State) { forall id: Id :: CountOk(s, id) }

  /** What an open resource or an admissible creation stands on is an open dialer. */
  predicate StandOk(s: State, id: Id) {
    && (id in s.entries && s.entries[id].open && s.entries[id].uses.Some? ==>
      OpenDialer(s.entries, s.entries[id].uses.value))
    && (s.accepting && id in s.creations && s.creations[id].reservation.Some? ==>
      OpenDialer(s.entries, s.creations[id].reservation.value))
    && (id in s.entries && s.entries[id].open && !s.entries[id].kind.Inbound? ==>
          id !in s.cancelled && id in s.supervisors && s.supervisors[id].Watching?)
  }

  ghost predicate Standing(s: State) { forall id: Id :: StandOk(s, id) }

  ghost predicate Inv(s: State) {
    Tracked(s) && (!s.aborted ==> Counted(s) && Standing(s))
  }
}
