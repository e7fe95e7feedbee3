/** The association index of crates/hysteria2/src/udp.rs: a map from association to its last
    activity, and the same pairs in an ordered set. */
module Associations {
  import opened Common

  type Id = nat
  type Time = nat

  /** The order of the activity set. */
  predicate Before(x: (Time, Id), y: (Time, Id)) { x.0 < y.0 || (x.0 == y.0 && x.1 <= y.1) }

  predicate IsFirst(activity: set<(Time, Id)>, x: (Time, Id)) {
    x in activity && forall y :: y in activity ==> Before(x, y)
  }

  lemma {:induction false} FirstExists(activity: set<(Time, Id)>) returns (x: (Time, Id))
    requires activity != {}
    ensures IsFirst(activity, x)
    decreases |activity|
  {
    x :| x in activity;
    var rest := activity - {x};
    if rest != {} {
      var y := FirstExists(rest);
      if Before(y, x) {
        x := y;
      }
      forall z | z in activity
        ensures Before(x, z)
      {
        assert z in rest || activity - rest == {z};
      }
    } else {
      assert activity == {x};
    }
  }

  lemma HasFirst(activity: set<(Time, Id)>)
    requires activity != {}
    ensures exists x :: IsFirst(activity, x)
  {
    var x := FirstExists(activity);
  }

  function First(activity: set<(Time, Id)>): (x: (Time, Id))
    requires activity != {}
    ensures IsFirst(activity, x)
  {
    HasFirst(activity);
    var first :| IsFirst(activity, first);
    first
  }

  predicate Expired(active: Time, retention: nat, now: Time) { active + retention <= now }

  /** What a full scan for expired associations would leave. */
  function Scan(entries: map<Id, Time>, retention: nat, now: Time): map<Id, Time> {
    map id | id in entries && !Expired(entries[id], retention, now) :: entries[id]
  }

  /** The activity set mirrors the map. */
  predicate Mirrors(entries: map<Id, Time>, activity: set<(Time, Id)>) {
    && (forall id :: id in entries ==> (entries[id], id) in activity)
    && (forall x :: x in activity ==> x.1 in entries && entries[x.1] == x.0)
  }

  lemma {:induction false} SameSize(entries: map<Id, Time>, activity: set<(Time, Id)>)
    requires Mirrors(entries, activity)
    ensures |entries| == |activity|
    decreases |activity|
  {
    if activity == {} {
      assert entries.Keys == {};
    } else {
      var x :| x in activity;
      var fewer := entries - {x.1};
      assert entries.Keys == fewer.Keys + {x.1};
      assert activity == (activity - {x}) + {x};
      SameSize(fewer, activity - {x});
    }
  }

  class ServerAssociations {
    var entries: map<Id, Time>
    var activity: set<(Time, Id)>

    predicate Valid()
      reads this
    {
      Mirrors(entries, activity)
    }

    constructor ()
      ensures Valid() && entries == map[]
    {
      entries := map[];
      activity := {};
    }

    method Insert(id: Id, active: Time)
      requires Valid()
      modifies this
      ensures Valid() && entries == old(entries)[id := active]
    {
      Remove(id);
      activity := activity + {(active, id)};
      entries := entries[id := active];
    }

    /** What is removed from the map is always in the set. */
    method Remove(id: Id)
      requires Valid()
      modifies this
      ensures Valid() && entries == old(entries) - {id}
      ensures id in old(entries) ==> activity == old(activity) - {(old(entries)[id], id)}
    {
      if id in entries {
        var active := entries[id];
        entries := entries - {id};
        assert (active, id) in activity;
        activity := activity - {(active, id)};
      }
    }

    method Touch(id: Id, now: Time)
      requires Valid() && id in entries
      modifies this
      ensures Valid() && entries == old(entries)[id := now]
    {
      assert (entries[id], id) in activity;
      activity := activity - {(entries[id], id)};
      entries := entries[id := now];
      activity := activity + {(now, id)};
    }

    /** The earliest expiry of all associations, exactly. */
    method NextExpiry(retention: nat) returns (r: Option<Time>)
      requires Valid()
      ensures r.None? <==> entries == map[]
      ensures r.Some? ==>
        && (exists id :: id in entries && entries[id] + retention == r.value)
        && (forall id :: id in entries ==> r.value <= entries[id] + retention)
    {
      if activity == {} {
        NoneLeft(entries, activity);
        return None;
      }
      var first := First(activity);
      assert first.1 in entries;
      forall id | id in entries
        ensures first.0 <= entries[id]
      {
        assert Before(first, (entries[id], id));
      }
      r := Some(first.0 + retention);
    }

    /** Looking only at the least recently active association removes exactly what a full scan
        would. */
    method Expire(retention: nat, now: Time)
      requires Valid()
      modifies this
      ensures Valid() && entries == Scan(old(entries), retention, now)
      ensures |entries| == |activity|
    {
      while activity != {}
        invariant Valid() && Scan(entries, retention, now) == Scan(old(entries), retention, now)
        decreases |activity|
      {
        var first := First(activity);
        if !Expired(first.0, retention, now) {
          NothingExpired(entries, activity, retention, now);
          break;
        }
        SkipExpired(entries, first.1, retention, now);
        Remove(first.1);
      }
      if activity == {} {
        NoneLeft(entries, activity);
      }
      SameSize(entries, activity);
    }
  }

  lemma NothingExpired(entries: map<Id, Time>, activity: set<(Time, Id)>, retention: nat, now: Time)
    requires Mirrors(entries, activity) && activity != {} && !Expired(First(activity).0, retention, now)
    ensures Scan(entries, retention, now) == entries
  {
    forall id | id in entries
      ensures !Expired(entries[id], retention, now)
    {
      assert Before(First(activity), (entries[id], id));
    }
  }

  lemma SkipExpired(entries: map<Id, Time>, id: Id, retention: nat, now: Time)
    requires id in entries && Expired(entries[id], retention, now)
    ensures Scan(entries - {id}, retention, now) == Scan(entries, retention, now)
  {}

  lemma NoneLeft(entries: map<Id, Time>, activity: set<(Time, Id)>)
    requires Mirrors(entries, activity) && activity == {}
    ensures entries == map[]
  {
    SameSize(entries, activity);
  }
}
