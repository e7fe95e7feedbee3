/** Scopes of crates/protocol/src/control.rs: a cancellation token with its ancestry, and the
    trackers that a scope's work is counted on. The last tracker is the scope's own. */
module ScopeTracking {
  import opened Common

  /** History: `home` is the scope whose token and tracker this one was made with, itself unless
      `tracked_by` made it; `above` are the homes it was made a child of or tracked by, directly or
      through others, and its own; `origin` is the scope that `child` or `tracked_by` took. */
  datatype Scope = Scope(lineage: seq<nat>, trackers: seq<nat>, home: nat, above: set<nat>, origin: Option<nat>)

  /** The tokens `track` took for `scope`; `live` until they are given back. Until `checked`, the
      call has not looked whether the scope closed. */
  datatype Guard = Guard(scope: nat, trackers: seq<nat>, live: bool, checked: bool)

  /** Token and tracker identities are allocated in order; `counts[t]` are tracker t's tokens. */
  datatype World = World(tokens: nat, cancelled: set<nat>, counts: seq<int>, guards: seq<Guard>, scopes: seq<Scope>)

  datatype Step =
    | New
    | Child(scope: nat)
    | TrackedBy(scope: nat, caller: nat)
    | Close(scope: nat)
    | Track(scope: nat)         // takes the tokens
    | Check(guard: nat)         // fails when the scope is closed, and gives the tokens back
    | Release(guard: nat)

  function Init(): World { World(0, {}, [], [], []) }

  function Own(s: Scope): (t: nat)
    requires s.trackers != []
    ensures t in s.trackers
  {
    s.trackers[|s.trackers| - 1]
  }

  /** A token is cancelled when it or an ancestor was. */
  predicate IsClosed(w: World, s: Scope) { exists t :: t in s.lineage && t in w.cancelled }

  function Counted(counts: seq<int>, trackers: seq<nat>, delta: int): (r: seq<int>)
    ensures |r| == |counts|
    ensures forall t :: 0 <= t < |counts| ==> r[t] == counts[t] + if t in trackers then delta else 0
  {
    seq(|counts|, t requires 0 <= t < |counts| => counts[t] + if t in trackers then delta else 0)
  }

  /** The trackers after inserting the missing ones of `callers` at the front, one by one. */
  function Merged(trackers: seq<nat>, callers: seq<nat>): seq<nat>
    decreases |callers|
  {
    if callers == [] then trackers
    else if callers[0] in trackers then Merged(trackers, callers[1..])
    else Merged([callers[0]] + trackers, callers[1..])
  }

  const NOTHING: Scope := Scope([], [], 0, {}, None)

  /** A scope with a new token and a new tracker, below `parent`. */
  function Derived(w: World, parent: Scope, origin: Option<nat>): World {
    var (lineage, trackers) := (parent.lineage + [w.tokens], parent.trackers + [|w.counts|]);
    w.(tokens := w.tokens + 1, counts := w.counts + [0],
       scopes := w.scopes + [Scope(lineage, trackers, |w.scopes|, parent.above + {|w.scopes|}, origin)])
  }

  /** The guard gives its tokens back. */
  function GiveBack(w: World, g: nat): World
    requires g < |w.guards|
  {
    w.(counts := Counted(w.counts, w.guards[g].trackers, -1), guards := w.guards[g := w.guards[g].(live := false)])
  }

  function Next(w: World, step: Step): World {
    match step
    case New => Derived(w, NOTHING, None)
    case Child(i) => if i < |w.scopes| then Derived(w, w.scopes[i], Some(i)) else w
    case TrackedBy(i, j) =>
      if i < |w.scopes| && j < |w.scopes| then
        var (s, caller) := (w.scopes[i], w.scopes[j]);
        var trackers := Merged(s.trackers, caller.trackers);
        w.(scopes := w.scopes + [Scope(s.lineage, trackers, s.home, s.above + caller.above, Some(i))])
      else w
    case Close(i) =>
      if i < |w.scopes| && w.scopes[i].lineage != [] then
        w.(cancelled := w.cancelled + {w.scopes[i].lineage[|w.scopes[i].lineage| - 1]})
      else w
    case Track(i) =>
      if i < |w.scopes| then
        w.(counts := Counted(w.counts, w.scopes[i].trackers, 1),
           guards := w.guards + [Guard(i, w.scopes[i].trackers, true, false)])
      else w
    case Check(g) =>
      if g < |w.guards| && w.guards[g].live && !w.guards[g].checked && w.guards[g].scope < |w.scopes| then
        if IsClosed(w, w.scopes[w.guards[g].scope]) then GiveBack(w, g)
        else w.(guards := w.guards[g := w.guards[g].(checked := true)])
      else w
    case Release(g) =>
      if g < |w.guards| && w.guards[g].live && w.guards[g].checked then GiveBack(w, g) else w
  }

  function Exec(w: World, steps: seq<Step>): World
    decreases |steps|
  {
    if steps == [] then w else Next(Exec(w, steps[..|steps| - 1]), steps[|steps| - 1])
  }

  // ---------------------------------------------------------------- tracked_by

  /** The loop of `tracked_by`. */
  method Merge(trackers: seq<nat>, callers: seq<nat>) returns (r: seq<nat>)
    ensures r == Merged(trackers, callers)
  {
    r := trackers;
    var i := 0;
    while i < |callers|
      invariant 0 <= i <= |callers|
      invariant Merged(trackers, callers) == Merged(r, callers[i..])
    {
      if callers[i] !in r {
        r := [callers[i]] + r;
      }
      i := i + 1;
    }
  }

  /** Both sets of trackers, without duplicates, and the scope's own tracker still last. */
  lemma {:induction false} MergedTrackers(trackers: seq<nat>, callers: seq<nat>)
    requires trackers != [] && NoDuplicates(trackers)
    ensures var r := Merged(trackers, callers);
      && r != [] && NoDuplicates(r) && r[|r| - 1] == trackers[|trackers| - 1]
      && (forall t :: t in r <==> t in trackers || t in callers)
    decreases |callers|
  {
    if callers != [] {
      var next := if callers[0] in trackers then trackers else [callers[0]] + trackers;
      MergedTrackers(next, callers[1..]);
      assert forall t :: t in callers <==> t == callers[0] || t in callers[1..];
    }
  }

  // ---------------------------------------------------------------- accounting

  function LiveOn(guards: seq<Guard>, t: nat): nat {
    if guards == [] then 0 else (if guards[0].live && t in guards[0].trackers then 1 else 0) + LiveOn(guards[1..], t)
  }

  lemma {:induction false} LiveAppend(guards: seq<Guard>, g: Guard, t: nat)
    ensures LiveOn(guards + [g], t) == LiveOn(guards, t) + if g.live && t in g.trackers then 1 else 0
  {
    if guards != [] {
      assert (guards + [g])[1..] == guards[1..] + [g];
      LiveAppend(guards[1..], g, t);
    }
  }

  lemma {:induction false} LiveRelease(guards: seq<Guard>, i: nat, t: nat)
    requires i < |guards| && guards[i].live
    ensures LiveOn(guards[i := guards[i].(live := false)], t)
      == LiveOn(guards, t) - if t in guards[i].trackers then 1 else 0
    ensures t in guards[i].trackers ==> LiveOn(guards, t) > 0
  {
    if i == 0 {
      assert guards[i := guards[i].(live := false)][1..] == guards[1..];
    } else {
      assert guards[i := guards[i].(live := false)][1..] == guards[1..][i - 1 := guards[1..][i - 1].(live := false)];
      LiveRelease(guards[1..], i - 1, t);
    }
  }

  lemma {:induction false} LiveChecked(guards: seq<Guard>, i: nat, t: nat)
    requires i < |guards|
    ensures LiveOn(guards[i := guards[i].(checked := true)], t) == LiveOn(guards, t)
  {
    if i == 0 {
      assert guards[i := guards[i].(checked := true)][1..] == guards[1..];
    } else {
      assert guards[i := guards[i].(checked := true)][1..]
        == guards[1..][i - 1 := guards[1..][i - 1].(checked := true)];
      LiveChecked(guards[1..], i - 1, t);
    }
  }

  lemma {:induction false} FreshTracker(guards: seq<Guard>, t: nat)
    requires forall g :: 0 <= g < |guards| ==> t !in guards[g].trackers
    ensures LiveOn(guards, t) == 0
  {
    if guards != [] { FreshTracker(guards[1..], t); }
  }

  predicate ScopeOk(scopes: seq<Scope>, trackers: nat, i: nat) {
    i < |scopes| ==>
      var s := scopes[i];
      && s.trackers != [] && NoDuplicates(s.trackers) && (forall t :: t in s.trackers ==> t < trackers)
      && s.home <= i && scopes[s.home].home == s.home
      && scopes[s.home].trackers != [] && Own(s) == Own(scopes[s.home])
  }

  /** The work of scope `i` is counted on j's own tracker exactly when j is above it. */
  predicate CountedOn(scopes: seq<Scope>, i: nat, j: nat) {
    i < |scopes| && j < |scopes| && scopes[j].home == j && scopes[j].trackers != [] ==>
      (j in scopes[i].above <==> Own(scopes[j]) in scopes[i].trackers)
  }

  predicate AboveOk(scopes: seq<Scope>, i: nat) {
    i < |scopes| ==> forall j :: j in scopes[i].above ==> j < |scopes|
  }

  ghost predicate ScopesOk(scopes: seq<Scope>, trackers: nat) {
    && (forall i: nat :: ScopeOk(scopes, trackers, i)) && (forall i: nat :: AboveOk(scopes, i))
    && (forall i: nat, j: nat :: CountedOn(scopes, i, j))
  }

  predicate GuardOk(w: World, g: nat) {
    g < |w.guards| ==>
      var guard := w.guards[g];
      && guard.scope < |w.scopes| && guard.trackers == w.scopes[guard.scope].trackers
      && (forall t :: t in guard.trackers ==> t < |w.counts|)
  }

  predicate CountOk(w: World, t: nat) { t < |w.counts| ==> w.counts[t] == LiveOn(w.guards, t) }

  /** Each tracker counts exactly the live guards on it, and each scope's work is counted on
      the own tracker of the scopes above it and of no other. */
  ghost predicate Inv(w: World) {
    && ScopesOk(w.scopes, |w.counts|)
    && (forall t: nat :: CountOk(w, t)) && (forall g: nat :: GuardOk(w, g))
  }

  lemma {:induction false} DerivedCounted(w: World, parent: Scope, origin: Option<nat>, p: nat, i: nat, j: nat)
    requires ScopesOk(w.scopes, |w.counts|)
    requires parent == NOTHING || (p < |w.scopes| && parent == w.scopes[p])
    ensures CountedOn(Derived(w, parent, origin).scopes, i, j)
  {
    var scopes := Derived(w, parent, origin).scopes;
    assert ScopeOk(w.scopes, |w.counts|, i) && AboveOk(w.scopes, i) && ScopeOk(w.scopes, |w.counts|, j);
    if i < |w.scopes| {
      assert CountedOn(w.scopes, i, j);
    } else if i == |w.scopes| && parent != NOTHING {
      assert ScopeOk(w.scopes, |w.counts|, p) && AboveOk(w.scopes, p) && CountedOn(w.scopes, p, j);
    }
  }

  lemma {:induction false} DerivedScopes(w: World, parent: Scope, origin: Option<nat>, p: nat)
    requires ScopesOk(w.scopes, |w.counts|)
    requires parent == NOTHING || (p < |w.scopes| && parent == w.scopes[p])
    ensures ScopesOk(Derived(w, parent, origin).scopes, |Derived(w, parent, origin).counts|)
  {
    var scopes := Derived(w, parent, origin).scopes;
    var trackers := |Derived(w, parent, origin).counts|;
    assert ScopeOk(w.scopes, |w.counts|, p) && AboveOk(w.scopes, p);
    assert forall k :: 0 <= k < |parent.trackers| ==> parent.trackers[k] in parent.trackers;
    forall i: nat
      ensures ScopeOk(scopes, trackers, i) && AboveOk(scopes, i)
    {
      assert ScopeOk(w.scopes, |w.counts|, i) && AboveOk(w.scopes, i);
    }
    forall i: nat, j: nat
      ensures CountedOn(scopes, i, j)
    {
      DerivedCounted(w, parent, origin, p, i, j);
    }
  }

  lemma {:induction false} DeriveKeepsInv(w: World, parent: Scope, origin: Option<nat>, p: nat)
    requires Inv(w)
    requires parent == NOTHING || (p < |w.scopes| && parent == w.scopes[p])
    ensures Inv(Derived(w, parent, origin))
  {
    var w' := Derived(w, parent, origin);
    DerivedScopes(w, parent, origin, p);
    forall g: nat
      ensures GuardOk(w', g) && (g < |w.guards| ==> |w.counts| !in w.guards[g].trackers)
    {
      assert GuardOk(w, g);
    }
    FreshTracker(w.guards, |w.counts|);
    forall t: nat
      ensures CountOk(w', t)
    {
      assert CountOk(w, t);
    }
  }

  lemma {:induction false} TrackedScopes(w: World, i: nat, j: nat)
    requires ScopesOk(w.scopes, |w.counts|) && i < |w.scopes| && j < |w.scopes|
    ensures ScopesOk(Next(w, TrackedBy(i, j)).scopes, |w.counts|)
  {
    var scopes := Next(w, TrackedBy(i, j)).scopes;
    var n := |w.scopes|;
    assert ScopeOk(w.scopes, |w.counts|, i) && ScopeOk(w.scopes, |w.counts|, j);
    assert AboveOk(w.scopes, i) && AboveOk(w.scopes, j);
    MergedTrackers(w.scopes[i].trackers, w.scopes[j].trackers);
    forall k: nat
      ensures ScopeOk(scopes, |w.counts|, k) && AboveOk(scopes, k) && CountedOn(scopes, n, k)
    {
      assert ScopeOk(w.scopes, |w.counts|, k) && AboveOk(w.scopes, k);
      assert CountedOn(w.scopes, i, k) && CountedOn(w.scopes, j, k);
    }
    forall k: nat, m: nat
      ensures CountedOn(scopes, k, m)
    {
      assert CountedOn(w.scopes, k, m);
    }
  }

  lemma {:induction false} TrackedByKeepsInv(w: World, i: nat, j: nat)
    requires Inv(w) && i < |w.scopes| && j < |w.scopes|
    ensures Inv(Next(w, TrackedBy(i, j)))
  {
    var w' := Next(w, TrackedBy(i, j));
    TrackedScopes(w, i, j);
    forall t: nat
      ensures CountOk(w', t) && GuardOk(w', t)
    {
      assert CountOk(w, t) && GuardOk(w, t);
    }
  }

  lemma {:induction false} TrackKeepsInv(w: World, i: nat)
    requires Inv(w) && i < |w.scopes|
    ensures Inv(Next(w, Track(i)))
  {
    var w' := Next(w, Track(i));
    var guard := w'.guards[|w.guards|];
    assert ScopeOk(w.scopes, |w.counts|, i);
    forall t: nat
      ensures CountOk(w', t) && GuardOk(w', t)
    {
      assert CountOk(w, t) && GuardOk(w, t);
      LiveAppend(w.guards, guard, t);
    }
  }

  lemma {:induction false} GiveBackKeepsInv(w: World, g: nat)
    requires Inv(w) && g < |w.guards| && w.guards[g].live
    ensures Inv(GiveBack(w, g))
  {
    var w' := GiveBack(w, g);
    forall t: nat
      ensures CountOk(w', t) && GuardOk(w', t)
    {
      assert CountOk(w, t) && GuardOk(w, t);
      LiveRelease(w.guards, g, t);
    }
  }

  lemma {:induction false} CheckKeepsInv(w: World, g: nat)
    requires Inv(w) && g < |w.guards| && w.guards[g].live
    ensures Inv(Next(w, Check(g)))
  {
    var w' := Next(w, Check(g));
    GiveBackKeepsInv(w, g);
    if w' != w && w' != GiveBack(w, g) {
      forall t: nat
        ensures CountOk(w', t) && GuardOk(w', t)
      {
        assert CountOk(w, t) && GuardOk(w, t);
        LiveChecked(w.guards, g, t);
      }
    }
  }

  lemma {:induction false} CloseKeepsInv(w: World, step: Step)
    requires Inv(w) && step.Close?
    ensures Inv(Next(w, step))
  {
    forall t: nat
      ensures CountOk(Next(w, step), t) && GuardOk(Next(w, step), t)
    {
      assert CountOk(w, t) && GuardOk(w, t);
    }
  }

  lemma {:induction false} StepKeepsInv(w: World, step: Step)
    requires Inv(w)
    ensures Inv(Next(w, step))
  {
    match step
    case New => DeriveKeepsInv(w, NOTHING, None, 0);
    case Child(i) => if i < |w.scopes| { DeriveKeepsInv(w, w.scopes[i], Some(i), i); }
    case TrackedBy(i, j) => if i < |w.scopes| && j < |w.scopes| { TrackedByKeepsInv(w, i, j); }
    case Close(_) => CloseKeepsInv(w, step);
    case Track(i) => if i < |w.scopes| { TrackKeepsInv(w, i); }
    case Check(g) => if g < |w.guards| && w.guards[g].live { CheckKeepsInv(w, g); }
    case Release(g) => if g < |w.guards| && w.guards[g].live { GiveBackKeepsInv(w, g); }
  }

  lemma {:induction false} RunKeepsInv(steps: seq<Step>)
    ensures Inv(Exec(Init(), steps))
    decreases |steps|
  {
    if steps != [] {
      RunKeepsInv(steps[..|steps| - 1]);
      StepKeepsInv(Exec(Init(), steps[..|steps| - 1]), steps[|steps| - 1]);
    }
  }

  lemma {:induction false} SomeLive(guards: seq<Guard>, t: nat) returns (g: nat)
    requires LiveOn(guards, t) > 0
    ensures g < |guards| && guards[g].live && t in guards[g].trackers
  {
    if guards[0].live && t in guards[0].trackers {
      g := 0;
    } else {
      g := SomeLive(guards[1..], t);
      g := g + 1;
    }
  }

  /** Guard `g` stands for work of scope `outer`, of a scope below it, or of one tracked by these. */
  predicate Registered(w: World, g: nat, outer: nat) {
    && g < |w.guards| && w.guards[g].live && w.guards[g].scope < |w.scopes|
    && outer < |w.scopes| && w.scopes[outer].home in w.scopes[w.guards[g].scope].above
  }

  /** The scope's own tracker holds tokens, so `wait` on it cannot complete. */
  predicate Busy(w: World, outer: nat) {
    && outer < |w.scopes| && w.scopes[outer].trackers != []
    && Own(w.scopes[outer]) < |w.counts| && w.counts[Own(w.scopes[outer])] > 0
  }

  lemma RegisteredOnOwn(w: World, g: nat, outer: nat)
    requires Inv(w) && outer < |w.scopes| && w.scopes[outer].trackers != [] && g < |w.guards| && w.guards[g].live
    ensures Registered(w, g, outer) <==> Own(w.scopes[outer]) in w.guards[g].trackers
  {
    assert GuardOk(w, g) && ScopeOk(w.scopes, |w.counts|, outer);
    assert CountedOn(w.scopes, w.guards[g].scope, w.scopes[outer].home);
  }

  /** In every run, `wait` on a scope completes exactly when no work of that scope, of a
      descendant, or of a scope tracked by one of them is registered. */
  lemma WaitIsExact(steps: seq<Step>, outer: nat)
    requires outer < |Exec(Init(), steps).scopes|
    ensures Busy(Exec(Init(), steps), outer) <==> exists g: nat :: Registered(Exec(Init(), steps), g, outer)
  {
    RunKeepsInv(steps);
    var w := Exec(Init(), steps);
    assert ScopeOk(w.scopes, |w.counts|, outer);
    var own := Own(w.scopes[outer]);
    assert CountOk(w, own);
    if LiveOn(w.guards, own) > 0 {
      var g := SomeLive(w.guards, own);
      RegisteredOnOwn(w, g, outer);
    }
    forall g: nat | Registered(w, g, outer)
      ensures LiveOn(w.guards, own) > 0
    {
      RegisteredOnOwn(w, g, outer);
      LiveRelease(w.guards, g, own);
    }
  }

  // ---------------------------------------------------------------- cancellation

  function Token(s: Scope): (t: nat)
    requires s.lineage != []
    ensures t in s.lineage
  {
    s.lineage[|s.lineage| - 1]
  }

  /** Made from scope `i` by any number of `child` and `tracked_by` calls. */
  predicate Descends(scopes: seq<Scope>, i: nat, k: nat)
    decreases k
  {
    k == i || (k < |scopes| && scopes[k].origin.Some? && scopes[k].origin.value < k
               && Descends(scopes, i, scopes[k].origin.value))
  }

  lemma {:induction false} DescendsGrows(scopes: seq<Scope>, s: Scope, i: nat, k: nat)
    requires k < |scopes|
    ensures Descends(scopes + [s], i, k) == Descends(scopes, i, k)
    ensures Descends(scopes, i, k) ==> i <= k
    decreases k
  {
    if k != i && scopes[k].origin.Some? && scopes[k].origin.value < k {
      DescendsGrows(scopes, s, i, scopes[k].origin.value);
    }
  }

  /** Tokens come from `child` and `new`, and a copy has its home's token. */
  predicate TokensOk(w: World, k: nat) {
    k < |w.scopes| ==>
      var s := w.scopes[k];
      && s.lineage != [] && (forall t :: t in s.lineage ==> t < w.tokens)
      && s.home <= k && w.scopes[s.home].home == s.home
      && w.scopes[s.home].lineage != [] && Token(w.scopes[s.home]) == Token(s)
  }

  /** The token of scope `j` is an ancestor of scope k's exactly when k was made from j. */
  predicate LineageOk(scopes: seq<Scope>, j: nat, k: nat) {
    j < |scopes| && k < |scopes| && scopes[j].home == j && scopes[j].lineage != [] ==>
      (Token(scopes[j]) in scopes[k].lineage <==> Descends(scopes, j, k))
  }

  ghost predicate Ancestry(w: World) {
    (forall k: nat :: TokensOk(w, k)) && (forall j: nat, k: nat :: LineageOk(w.scopes, j, k))
  }

  lemma {:induction false} GrowKeepsLineage(w: World, step: Step, j: nat, k: nat)
    requires Ancestry(w) && (step.New? || step.Child? || step.TrackedBy?)
    ensures LineageOk(Next(w, step).scopes, j, k)
  {
    var w' := Next(w, step);
    var n := |w.scopes|;
    if |w'.scopes| == n + 1 {
      var s := w'.scopes[n];
      assert w'.scopes == w.scopes + [s];
      assert LineageOk(w.scopes, j, k) && TokensOk(w, j) && TokensOk(w, k);
      if k < n {
        DescendsGrows(w.scopes, s, j, k);
        if step.TrackedBy? { assert TokensOk(w, step.scope); }
      } else if k == n && s.origin.Some? {
        DescendsGrows(w.scopes, s, j, s.origin.value);
        assert LineageOk(w.scopes, j, s.origin.value) && TokensOk(w, s.origin.value);
      }
    } else {
      assert w' == w && LineageOk(w.scopes, j, k);
    }
  }

  lemma {:induction false} StepKeepsAncestry(w: World, step: Step)
    requires Ancestry(w)
    ensures Ancestry(Next(w, step))
  {
    forall k: nat
      ensures TokensOk(Next(w, step), k)
    {
      assert TokensOk(w, k);
      if step.Child? || step.TrackedBy? { assert TokensOk(w, step.scope); }
    }
    if step.New? || step.Child? || step.TrackedBy? {
      forall j: nat, k: nat
        ensures LineageOk(Next(w, step).scopes, j, k)
      {
        GrowKeepsLineage(w, step, j, k);
      }
    } else {
      assert Next(w, step).scopes == w.scopes;
    }
  }

  lemma {:induction false} RunKeepsAncestry(steps: seq<Step>)
    ensures Ancestry(Exec(Init(), steps))
    decreases |steps|
  {
    if steps != [] {
      RunKeepsAncestry(steps[..|steps| - 1]);
      StepKeepsAncestry(Exec(Init(), steps[..|steps| - 1]), steps[|steps| - 1]);
    }
  }

  /** In every run, closing a scope closes exactly the scopes made from it, at any depth:
      being tracked by it closes nothing. */
  lemma CloseIsExact(steps: seq<Step>, i: nat, k: nat)
    requires i < |Exec(Init(), steps).scopes| && k < |Exec(Init(), steps).scopes|
    ensures var w := Exec(Init(), steps);
      IsClosed(Next(w, Close(i)), w.scopes[k]) <==> IsClosed(w, w.scopes[k]) || Descends(w.scopes, w.scopes[i].home, k)
  {
    var w := Exec(Init(), steps);
    RunKeepsAncestry(steps);
    assert TokensOk(w, i) && TokensOk(w, k) && LineageOk(w.scopes, w.scopes[i].home, k);
    assert Next(w, Close(i)).cancelled == w.cancelled + {Token(w.scopes[i])};
  }

  /** Scopes are never changed and cancellations never taken back. */
  lemma {:induction false} NothingReopens(w: World, steps: seq<Step>)
    ensures w.scopes <= Exec(w, steps).scopes && w.cancelled <= Exec(w, steps).cancelled
    decreases |steps|
  {
    if steps != [] {
      NothingReopens(w, steps[..|steps| - 1]);
    }
  }
}
