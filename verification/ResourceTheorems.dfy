/** What the resource manager promises, over every run. */
module ResourceTheorems {
  import opened Common
  import opened Registry
  import opened ResourceManager
  import opened ResourceManagerProofs

  /** Until the abort, `users` is the number of open resources created on the entry plus the
      number of creations that reserved it. */
  lemma UsersAreExact(steps: seq<Step>, id: Id)
    requires !Exec(Init(), steps).aborted && id in Exec(Init(), steps).entries
    ensures var s := Exec(Init(), steps);
      s.entries[id].users == |Dependents(s.entries, id)| + |Holders(s.creations, id)|
  {
    RunKeepsInv(steps);
    assert CountOk(Exec(Init(), steps), id);
  }

  /** Until the abort, whatever an open resource was created on is an open dialer whose scope
      nobody cancelled. */
  lemma OpenStandsOnOpen(steps: seq<Step>, id: Id)
    requires var s := Exec(Init(), steps);
      !s.aborted && id in s.entries && s.entries[id].open && s.entries[id].uses.Some?
    ensures var s := Exec(Init(), steps);
      var below := s.entries[id].uses.value;
      OpenDialer(s.entries, below) && !ScopeCancelled(s, below) && !ScopeCancelled(s, id)
  {
    RunKeepsInv(steps);
    var s := Exec(Init(), steps);
    assert IdOk(s, id) && StandOk(s, id) && StandOk(s, s.entries[id].uses.value);
  }

  /** Policy is refused exactly while something open stands on the resource or reserves it. */
  lemma CloseRefusedExactlyWhileUsed(steps: seq<Step>, id: Id, ending: Ending)
    requires !Exec(Init(), steps).aborted && id in Exec(Init(), steps).entries
    ensures var s := Exec(Init(), steps);
      Terminate(s.entries, id, ending).Err? <==> Dependents(s.entries, id) != {} || Holders(s.creations, id) != {}
  {
    UsersAreExact(steps, id);
  }

  /** Every use is released once: whenever a failed creation or an ending resource gives its use
      back, it is still counted, and the count drops by exactly one. */
  lemma UsesAreReleasedOnce(steps: seq<Step>, id: Id, below: Id)
    requires var s := Exec(Init(), steps); !s.aborted && below in s.entries
    ensures var s := Exec(Init(), steps);
      && (At(s, id, Failing) && s.creations[id].reservation == Some(below) ==>
            s.entries[below].users > 0 && DoDrop(s, id).entries[below].users == s.entries[below].users - 1)
      && (id in s.entries && s.entries[id].open && s.entries[id].uses == Some(below) ==>
            s.entries[below].users > 0
            && forall ending ::
                 && End(s.entries, id, ending).Keys == s.entries.Keys
                 && End(s.entries, id, ending)[below].users == s.entries[below].users - 1)
  {
    UsersAreExact(steps, below);
    var s := Exec(Init(), steps);
    if At(s, id, Failing) && s.creations[id].reservation == Some(below) {
      assert id in Holders(s.creations, below);
    }
    if id in s.entries && s.entries[id].open && s.entries[id].uses == Some(below) {
      assert id in Dependents(s.entries, below);
      forall ending
        ensures End(s.entries, id, ending).Keys == s.entries.Keys &&
          End(s.entries, id, ending)[below].users == s.entries[below].users - 1
      {
        EndedAt(s.entries, id, ending, below);
      }
    }
  }

  /** A resource whose release was signalled is out of the registry, and an entry is taken out only
      after its native state was dropped. */
  lemma ReleasedMeansDestroyed(steps: seq<Step>, id: Id)
    ensures var s := Exec(Init(), steps);
      && (id in s.released ==> id !in s.entries)
      && (id in s.supervisors && s.supervisors[id].Removing? ==> id in s.entries && !s.entries[id].live)
  {
    RunKeepsInv(steps);
    assert IdOk(Exec(Init(), steps), id);
  }

  /** Once creation stops, the registry only shrinks. */
  lemma {:induction false} NothingRegistersLater(s: State, steps: seq<Step>)
    requires !s.accepting
    ensures var s' := Exec(s, steps); !s'.accepting && s'.entries.Keys <= s.entries.Keys
    decreases |steps|
  {
    if steps != [] {
      NothingRegistersLater(s, steps[..|steps| - 1]);
      NextOnlyShrinks(Exec(s, steps[..|steps| - 1]), steps[|steps| - 1]);
    }
  }

  lemma NextOnlyShrinks(s: State, step: Step)
    requires !s.accepting
    ensures var s' := Next(s, step);
      && !s'.accepting && s'.entries.Keys <= s.entries.Keys && s.released <= s'.released
      && (forall id :: id in s'.entries ==> s'.entries[id].kind == s.entries[id].kind)
  {
    if step.TerminateBy? && step.id in s.entries {
      forall k | k in s.entries
        ensures End(s.entries, step.id, step.ending).Keys == s.entries.Keys
        ensures End(s.entries, step.id, step.ending)[k].kind == s.entries[k].kind
      {
        EndedAt(s.entries, step.id, step.ending, k);
      }
    }
  }
}
