/** Scale-up places as many of the missing instances as any scheduler could, lowest first
    (scheduler/scheduler.go). */
module ScaleUp {
  import opened Naming
  import opened Api
  import opened Collections
  import opened Store
  import opened Placement
  import opened Reconcile
  import opened Safety

  /** The definition read has the version the deployment names, and no host has the empty name. */
  ghost predicate Proper(job: Job, views: map<string, HostView>) {
    job.def.version == job.dep.taskVersion && "" !in views
  }

  lemma IdsDiffer(job: Job, i: int)
    ensures forall j :: job.IdAt(j) == job.IdAt(i) ==> j == i
  {
    forall j | job.IdAt(j) == job.IdAt(i) ensures j == i {
      IdInjectiveInCluster(job.cluster, job.dep.name, job.dep.taskVersion, j, job.dep.name, job.dep.taskVersion, i);
    }
  }

  /** The instances the deployment wants and the task map lacks. */
  ghost function Missing(job: Job, m: Tasks): set<int> {
    MissingBelow(job, m, job.dep.desired)
  }

  ghost function MissingBelow(job: Job, m: Tasks, n: int): set<int> {
    set j | 0 <= j < n && job.IdAt(j) !in m
  }

  /** A task as this run leaves it: on a known host, current, not rejected. */
  ghost predicate Fresh(job: Job, t: Task, views: map<string, HostView>) {
    t.host in views && !t.rejected && t.def.version == job.dep.taskVersion
  }

  ghost predicate NoHostMatches(job: Job, views: map<string, HostView>) {
    forall h :: h in views ==> !Matches(views[h], job.def)
  }

  /** The task map extends `kept` by fresh tasks for instances below `i` only. */
  ghost predicate Extends(job: Job, s: State, i: int, kept: Tasks) {
    && (forall id :: id in kept ==> id in s.taskMap && s.taskMap[id] == kept[id])
    && (forall id :: id in s.taskMap && id !in kept ==> Fresh(job, s.taskMap[id], s.views) && IsInstance(job, id, i))
  }

  ghost predicate Tallied(job: Job, s: State, kept: Tasks) {
    && |s.taskMap| == |kept| + |s.placed|
    && |Missing(job, kept)| == |s.placed| + |Missing(job, s.taskMap)|
  }

  ghost predicate IsInstance(job: Job, id: string, below: int) {
    exists j :: 0 <= j < below && job.IdAt(j) == id
  }

  /** Of the instances below `i`, one still missing means that no host takes another copy, and that
      nothing above it was placed. */
  ghost predicate LowestFirst(job: Job, s: State, i: int, kept: Tasks) {
    forall j :: 0 <= j < i && job.IdAt(j) !in s.taskMap ==>
      && NoHostMatches(job, s.views)
      && forall m :: j < m && job.IdAt(m) in s.taskMap ==> job.IdAt(m) in kept
  }

  ghost predicate Filling(job: Job, s: State, i: int, kept: Tasks) {
    0 <= i && Extends(job, s, i, kept) && Tallied(job, s, kept) && LowestFirst(job, s, i, kept)
  }

  /** Scale-up in progress or finished; or not needed at all. */
  ghost predicate Filled(job: Job, s: State) {
    match s.phase
    case Up(i, kept) =>
      s.count - s.removed < job.dep.desired && Filling(job, s, i, kept) && (i == 0 || i <= job.dep.desired)
    case Done(kept) =>
      if s.count - s.removed < job.dep.desired
      then Filling(job, s, if job.dep.desired > 0 then job.dep.desired else 0, kept)
      else s.taskMap == kept && s.placed == []
    case _ => s.placed == []
  }

  lemma InstanceBelow(job: Job, m: int, below: int)
    requires IsInstance(job, job.IdAt(m), below)
    ensures 0 <= m < below
  {
    IdsDiffer(job, m);
  }

  lemma MissingOneLess(job: Job, m: Tasks, i: int, t: Task)
    requires 0 <= i < job.dep.desired && job.IdAt(i) !in m
    ensures |Missing(job, m[job.IdAt(i) := t])| == |Missing(job, m)| - 1
  {
    IdsDiffer(job, i);
    assert i in Missing(job, m);
    assert Missing(job, m[job.IdAt(i) := t]) == Missing(job, m) - {i};
  }

  lemma MoreInstances(job: Job, s: State, i: int, kept: Tasks)
    requires Extends(job, s, i, kept)
    ensures Extends(job, s, i + 1, kept)
  {
    forall x | x in s.taskMap && x !in kept ensures IsInstance(job, x, i + 1) {
      assert IsInstance(job, x, i);
    }
  }

  lemma PlacedExtends(job: Job, s: State, s': State, host: string, provided: map<string, nat>, i: int, kept: Tasks)
    requires Proper(job, s.views) && s.phase == Up(i, kept) && 0 <= i
    requires PlacedOn(job, s, s', host, provided) && Extends(job, s, i, kept)
    ensures s'.taskMap == s.taskMap[job.IdAt(i) := NewlyPlaced(job, i, host, provided)]
    ensures Extends(job, s', i + 1, kept)
  {
    NewTaskKeepsMadeId(job.cluster, job.def, job.dep, i);
    assert NewlyPlaced(job, i, host, provided).Id() == job.IdAt(i);
    forall x | x in s'.taskMap && x !in kept ensures Fresh(job, s'.taskMap[x], s'.views) && IsInstance(job, x, i + 1) {
      if x != job.IdAt(i) {
        assert IsInstance(job, x, i);
      }
    }
  }

  lemma PlacedFilling(job: Job, s: State, s': State, host: string, provided: map<string, nat>, i: int, kept: Tasks)
    requires Proper(job, s.views) && s.phase == Up(i, kept) && 0 <= i < job.dep.desired
    requires PlacedOn(job, s, s', host, provided) && Filling(job, s, i, kept)
    ensures Filling(job, s', i + 1, kept)
  {
    var t := NewlyPlaced(job, i, host, provided);
    PlacedExtends(job, s, s', host, provided, i, kept);
    MissingOneLess(job, s.taskMap, i, t);
    assert Tallied(job, s', kept);
    assert forall j :: 0 <= j < i ==> job.IdAt(j) in s.taskMap;
  }

  lemma PassedFilling(job: Job, s: State, s': State, i: int, kept: Tasks)
    requires Proper(job, s.views) && s.phase == Up(i, kept) && 0 <= i
    requires Passed(job, s, s') && Filling(job, s, i, kept)
    ensures Filling(job, s', i + 1, kept)
  {
    MoreInstances(job, s, i, kept);
    PassedLowestFirst(job, s, i, kept);
    PhaseKeepsExtends(job, s, s', i + 1, kept);
  }

  lemma PassedLowestFirst(job: Job, s: State, i: int, kept: Tasks)
    requires "" !in s.views && LowestFirst(job, s, i, kept) && Extends(job, s, i, kept)
    requires job.IdAt(i) in s.taskMap || NoHostMatches(job, s.views)
    ensures LowestFirst(job, s, i + 1, kept)
  {
    forall m | i < m && job.IdAt(m) in s.taskMap ensures job.IdAt(m) in kept {
      if job.IdAt(m) !in kept {
        InstanceBelow(job, m, i);
      }
    }
  }

  lemma PhaseKeepsExtends(job: Job, s: State, s': State, i: int, kept: Tasks)
    requires s'.taskMap == s.taskMap && s'.views == s.views && s'.placed == s.placed
    requires Extends(job, s, i, kept) && LowestFirst(job, s, i, kept) && Tallied(job, s, kept)
    ensures Extends(job, s', i, kept) && LowestFirst(job, s', i, kept) && Tallied(job, s', kept)
  {
  }

  lemma PhaseKeepsFilling(job: Job, s: State, s': State, i: int, kept: Tasks)
    requires s'.taskMap == s.taskMap && s'.views == s.views && s'.placed == s.placed && Filling(job, s, i, kept)
    ensures Filling(job, s', i, kept)
  {
  }

  /** A scale-up pass either finishes, passes the instance over, or places it. */
  lemma UpCases(job: Job, s: State, s': State) returns (host: string, provided: map<string, nat>)
    requires s.phase.Up? && Moves(job, s, s')
    ensures s'.count == s.count
    ensures
      if s.phase.next >= job.dep.desired then s' == s.(phase := Done(s.phase.kept))
      else Passed(job, s, s') || PlacedOn(job, s, s', host, provided)
  {
    host, provided := "", map[];
    if s.phase.next < job.dep.desired && !Passed(job, s, s') {
      host, provided :| PlacedOn(job, s, s', host, provided);
    }
  }

  lemma FillingIsFilled(job: Job, s: State, i: int, kept: Tasks)
    requires s.count - s.removed < job.dep.desired && Filling(job, s, i, kept)
    requires s.phase == Up(i, kept) ==> i == 0 || i <= job.dep.desired
    requires s.phase == Up(i, kept) ||
             (s.phase == Done(kept) && i == if job.dep.desired > 0 then job.dep.desired else 0)
    ensures Filled(job, s)
  {
  }

  lemma FinishFilled(job: Job, s: State, s': State)
    requires s.phase.Up? && Filled(job, s) && s.phase.next >= job.dep.desired && s' == s.(phase := Done(s.phase.kept))
    ensures Filled(job, s')
  {
    PhaseKeepsFilling(job, s, s', s.phase.next, s.phase.kept);
    FillingIsFilled(job, s', s.phase.next, s.phase.kept);
  }

  lemma PassedFilled(job: Job, s: State, s': State)
    requires Proper(job, s.views) && s.phase.Up? && Filled(job, s) && s.phase.next < job.dep.desired
    requires Passed(job, s, s') && s'.count == s.count
    ensures Filled(job, s')
  {
    PassedFilling(job, s, s', s.phase.next, s.phase.kept);
    FillingIsFilled(job, s', s.phase.next + 1, s.phase.kept);
  }

  lemma PlacedFilled(job: Job, s: State, s': State, host: string, provided: map<string, nat>)
    requires Proper(job, s.views) && s.phase.Up? && Filled(job, s) && s.phase.next < job.dep.desired
    requires PlacedOn(job, s, s', host, provided) && s'.count == s.count
    ensures Filled(job, s')
  {
    PlacedFilling(job, s, s', host, provided, s.phase.next, s.phase.kept);
    FillingIsFilled(job, s', s.phase.next + 1, s.phase.kept);
  }

  lemma UpFilled(job: Job, s: State, s': State)
    requires Proper(job, s.views) && s.phase.Up? && Filled(job, s) && Moves(job, s, s')
    ensures Filled(job, s')
  {
    var host, provided := UpCases(job, s, s');
    if s.phase.next >= job.dep.desired {
      FinishFilled(job, s, s');
    } else if Passed(job, s, s') {
      PassedFilled(job, s, s');
    } else {
      PlacedFilled(job, s, s', host, provided);
    }
  }

  lemma StepFilled(job: Job, s: State, s': State)
    requires Proper(job, s.views) && Filled(job, s) && Moves(job, s, s')
    ensures Filled(job, s')
  {
    match s.phase
    case Cleaning(todo) =>
      if todo != {} {
        var key :| key in s.phase.todo && key in s.taskMap && Cleaned(job, s, s', key);
      }
    case Down(i) =>
    case Up(i, kept) =>
      UpFilled(job, s, s');
    case Done(_) =>
  }

  ghost predicate SafeAndFilled(job: Job, s0: State, s: State) {
    Safe(job, s0, s) && Filled(job, s)
  }

  lemma FilledThroughout(job: Job, run: seq<State>, k: nat)
    requires IsRun(job, run) && k < |run| && Proper(job, run[0].views)
    requires Keyed(run[0].store) && run[0] == Start(job, run[0].store, run[0].views)
    ensures SafeAndFilled(job, run[0], run[k])
  {
    var s0 := run[0];
    assert SafeAndFilled(job, s0, s0);
    forall s, s' | SafeAndFilled(job, s0, s) && Step(job, s, s') ensures SafeAndFilled(job, s0, s') {
      StepSafe(job, s0, s, s');
      StepMoves(job, s, s');
      StepFilled(job, s, s');
    }
    Invariant(job, run, s => SafeAndFilled(job, s0, s));
  }

  /** No assignment the hosts could have taken covers more of the missing instances. */
  lemma CoversMost(job: Job, s0: State, s: State, a: multiset<string>)
    requires Carries(job, s0, s) && s.phase.Done?
    requires Filling(job, s, if job.dep.desired > 0 then job.dep.desired else 0, s.phase.kept)
    requires Feasible(s0.views, job.def, a)
    ensures Missing(job, s.taskMap) == {} || |a| <= |s.placed|
  {
    HostsOfSize(s.placed);
    if Missing(job, s.taskMap) != {} {
      var j :| j in Missing(job, s.taskMap);
      assert NoHostMatches(job, s.views);
      ExhaustedIsMaximal(s0.views, s.views, job.def, HostsOf(s.placed), a);
    }
  }

  /** What is placed fits and no assignment that the hosts could have taken covers more of the missing
      instances; the lowest of them were placed. */
  ghost predicate Optimal(job: Job, views: map<string, HostView>, s: State, kept: Tasks) {
    var missing, left := Missing(job, kept), Missing(job, s.taskMap);
    && Feasible(views, job.def, HostsOf(s.placed)) && |HostsOf(s.placed)| == |s.placed|
    && |s.placed| + |left| == |missing|
    && (forall a :: Feasible(views, job.def, a) ==> Min(|a|, |missing|) <= |s.placed|)
    && (forall j, m :: j in left && m in missing && j < m ==> m in left)
  }

  lemma FillingIsOptimal(job: Job, s0: State, s: State)
    requires SafeAndFilled(job, s0, s) && s.phase.Done? && s.count - s.removed < job.dep.desired
    ensures Optimal(job, s0.views, s, s.phase.kept)
  {
    HostsOfSize(s.placed);
    forall a | Feasible(s0.views, job.def, a) ensures Min(|a|, |Missing(job, s.phase.kept)|) <= |s.placed| {
      CoversMost(job, s0, s, a);
    }
  }

  /** Scale-up is optimal, whatever the ranker and the iteration orders. */
  lemma ScaleUpIsOptimal(job: Job, store: Tasks, views: map<string, HostView>, run: seq<State>)
    requires Keyed(store) && FullRun(job, store, views, run) && Proper(job, views)
    requires Last(run).count - Last(run).removed < job.dep.desired
    ensures Optimal(job, views, Last(run), Last(run).phase.kept)
  {
    FilledThroughout(job, run, |run| - 1);
    FillingIsOptimal(job, run[0], Last(run));
  }

  /** In numbers: scale-up adds the lesser of the missing instances and the slots of all hosts. */
  lemma ScaleUpFillsSlots(job: Job, store: Tasks, views: map<string, HostView>, run: seq<State>)
    requires Keyed(store) && FullRun(job, store, views, run) && Proper(job, views)
    requires Last(run).count - Last(run).removed < job.dep.desired
    ensures
      var s, missing := Last(run), |Missing(job, Last(run).phase.kept)|;
      |s.placed| == Min(missing, TotalSlots(views, job.def, missing))
  {
    ScaleUpIsOptimal(job, store, views, run);
    var s, missing := Last(run), |Missing(job, Last(run).phase.kept)|;
    SlotBagFeasible(views, job.def, missing);
    FeasibleWithinSlots(views, job.def, HostsOf(s.placed), missing);
  }

  // ----- Counting instances -----

  /** Every task in the map is an instance below `n`. */
  ghost predicate AllInstances(job: Job, m: Tasks, n: int) {
    forall id :: id in m ==> IsInstance(job, id, n)
  }

  lemma WithoutTop(job: Job, m: Tasks, n: nat)
    requires AllInstances(job, m, n + 1)
    ensures AllInstances(job, m - {job.IdAt(n)}, n)
  {
    forall x | x in m && x != job.IdAt(n) ensures IsInstance(job, x, n) {
      assert IsInstance(job, x, n + 1);
    }
  }

  lemma MissingTop(job: Job, m: Tasks, n: nat)
    ensures
      var rest := MissingBelow(job, m - {job.IdAt(n)}, n);
      MissingBelow(job, m, n + 1) == if job.IdAt(n) in m then rest else rest + {n}
  {
    IdsDiffer(job, n);
    var rest := MissingBelow(job, m - {job.IdAt(n)}, n);
    assert rest == MissingBelow(job, m, n);
  }

  lemma NoInstances(job: Job, m: Tasks)
    requires AllInstances(job, m, 0)
    ensures |m| == 0 && |MissingBelow(job, m, 0)| == 0
  {
    assert m.Keys == {};
    assert MissingBelow(job, m, 0) == {};
  }

  lemma CountTop(job: Job, m: Tasks, n: nat)
    ensures
      var rest := m - {job.IdAt(n)};
      |m| + |MissingBelow(job, m, n + 1)| == |rest| + |MissingBelow(job, rest, n)| + 1
  {
    MissingTop(job, m, n);
    if job.IdAt(n) in m {
      WithoutKey(m, job.IdAt(n));
    } else {
      assert m - {job.IdAt(n)} == m;
    }
  }

  /** A map of instances below `n` holds as many tasks as instances. */
  lemma {:induction false} InstancesCount(job: Job, m: Tasks, n: nat)
    requires AllInstances(job, m, n)
    ensures |m| + |MissingBelow(job, m, n)| == n
    decreases n
  {
    if n == 0 {
      NoInstances(job, m);
    } else {
      WithoutTop(job, m, n - 1);
      CountTop(job, m, n - 1);
      InstancesCount(job, m - {job.IdAt(n - 1)}, n - 1);
    }
  }
}
