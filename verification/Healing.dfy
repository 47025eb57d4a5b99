/** Self-healing: one run replaces the rejected and homeless tasks of a deployment whose tasks are
    all current (scheduler/scheduler.go). */
module Healing {
  import opened Api
  import opened Store
  import opened Placement
  import opened Reconcile
  import opened Safety
  import opened ScaleUp

  /** All tasks are current and within the desired instances. */
  ghost predicate AllCurrent(job: Job, s0: State) {
    && job.dep.desired >= 0
    && AllInstances(job, s0.taskMap, job.dep.desired)
    && forall key :: key in s0.taskMap ==> !Old(job, s0.taskMap[key])
  }

  /** The tasks not yet visited and, of the others, the sound ones. */
  ghost function Remaining(s0: State, todo: set<string>): Tasks {
    map key | key in s0.taskMap && (key in todo || Sound(s0.taskMap[key], s0.views)) :: s0.taskMap[key]
  }

  ghost function Survivors(s0: State): Tasks {
    Remaining(s0, {})
  }

  /** `removed` may overstate the removals, but is zero only if there were none. */
  ghost predicate Heals(s0: State, s: State) {
    s.count == |s0.taskMap| && s.removed >= 0 &&
    match s.phase
    case Cleaning(todo) =>
      s.views == s0.views && s.taskMap == Remaining(s0, todo) && (s.removed == 0 ==> s.taskMap == s0.taskMap)
    case Down(_) => false
    case Up(_, kept) => kept == Survivors(s0) && (s.removed == 0 ==> kept == s0.taskMap)
    case Done(kept) => kept == Survivors(s0) && (s.removed == 0 ==> kept == s0.taskMap)
  }

  lemma RemainingVisited(s0: State, todo: set<string>, key: string)
    requires key in todo && key in s0.taskMap
    ensures Remaining(s0, todo - {key})
         == if Sound(s0.taskMap[key], s0.views) then Remaining(s0, todo) else Remaining(s0, todo) - {key}
  {
  }

  lemma CleanedHeals(job: Job, s0: State, s: State, s': State, key: string)
    requires AllCurrent(job, s0) && Heals(s0, s) && s.phase.Cleaning?
    requires key in s.phase.todo && key in s.taskMap && Cleaned(job, s, s', key) && s'.count == s.count
    ensures Heals(s0, s')
  {
    assert s.taskMap[key] == s0.taskMap[key];
    RemainingVisited(s0, s.phase.todo, key);
  }

  lemma CleaningDoneHeals(job: Job, s0: State, s: State, s': State)
    requires AllCurrent(job, s0) && Heals(s0, s) && s.phase == Cleaning({}) && s' == s.(phase := AfterCleaning(job, s))
    ensures Heals(s0, s')
  {
    InstancesCount(job, s0.taskMap, job.dep.desired);
    assert s.count - s.removed <= job.dep.desired;
  }

  lemma UpHeals(job: Job, s0: State, s: State, s': State)
    requires Heals(s0, s) && s.phase.Up? && Moves(job, s, s')
    ensures Heals(s0, s')
  {
    var host, provided := UpCases(job, s, s');
  }

  lemma StepHeals(job: Job, s0: State, s: State, s': State)
    requires AllCurrent(job, s0) && Heals(s0, s) && Moves(job, s, s')
    ensures Heals(s0, s')
  {
    if s.phase.Up? {
      UpHeals(job, s0, s, s');
    } else if s.phase.Cleaning? && s.phase.todo == {} {
      CleaningDoneHeals(job, s0, s, s');
    } else if s.phase.Cleaning? {
      var key :| key in s.phase.todo && key in s.taskMap && Cleaned(job, s, s', key);
      CleanedHeals(job, s0, s, s', key);
    }
  }

  lemma HealsThroughout(job: Job, run: seq<State>, k: nat)
    requires IsRun(job, run) && k < |run| && AllCurrent(job, run[0])
    requires Keyed(run[0].store) && run[0] == Start(job, run[0].store, run[0].views)
    ensures Heals(run[0], run[k])
  {
    var s0 := run[0];
    assert Heals(s0, s0) by {
      assert Remaining(s0, s0.taskMap.Keys) == s0.taskMap;
    }
    forall s, s' | (Agrees(job, s) && Heals(s0, s)) && Step(job, s, s') ensures Agrees(job, s') && Heals(s0, s') {
      StepMoves(job, s, s');
      StepAgrees(job, s, s');
      StepHeals(job, s0, s, s');
    }
    Invariant(job, run, s => Agrees(job, s) && Heals(s0, s));
  }

  /** The task map holds exactly the desired instances. */
  ghost predicate Exactly(job: Job, m: Tasks) {
    AllInstances(job, m, job.dep.desired) && Missing(job, m) == {}
  }

  ghost predicate Within(m: Tasks, m0: Tasks) {
    forall id :: id in m ==> id in m0 && m[id] == m0[id]
  }

  /** Some assignment that the hosts can take covers `n` copies. */
  ghost predicate Capacity(views: map<string, HostView>, def: TaskDefinition, n: nat) {
    exists a :: Feasible(views, def, a) && |a| >= n
  }

  /** The tasks of `kept` are untouched, and what was added is fresh and one of the desired instances. */
  ghost predicate KeepsAndAdds(job: Job, s: State, kept: Tasks) {
    && (forall id :: id in kept ==> id in s.taskMap && s.taskMap[id] == kept[id])
    && (forall id :: id in s.taskMap && id !in kept ==>
          Fresh(job, s.taskMap[id], s.views) && IsInstance(job, id, job.dep.desired))
  }

  /** As many of the instances missing from `kept` were placed as can fit, lowest first; all of them
      exactly when capacity allows. */
  ghost predicate FillsAsFits(job: Job, views: map<string, HostView>, s: State, kept: Tasks) {
    var missing, left := Missing(job, kept), Missing(job, s.taskMap);
    && |s.placed| + |left| == |missing|
    && (left == {} <==> Capacity(views, job.def, |missing|))
    && (forall a :: Feasible(views, job.def, a) ==> Min(|a|, |missing|) <= |s.placed|)
    && (forall j, m :: j in left && m in missing && j < m ==> m in left)
  }

  lemma FillingFits(job: Job, store: Tasks, views: map<string, HostView>, run: seq<State>)
    requires Keyed(store) && FullRun(job, store, views, run) && Proper(job, views)
    requires Last(run).count - Last(run).removed < job.dep.desired
    ensures FillsAsFits(job, views, Last(run), Last(run).phase.kept)
  {
    ScaleUpIsOptimal(job, store, views, run);
    CapacityMet(job, views, Last(run), Last(run).phase.kept);
  }

  lemma FillingAdds(job: Job, s: State, kept: Tasks)
    requires s.phase == Done(kept) && s.count - s.removed < job.dep.desired && Filled(job, s)
    ensures KeepsAndAdds(job, s, kept)
  {
    var i := if job.dep.desired > 0 then job.dep.desired else 0;
    forall id | id in s.taskMap && id !in kept ensures IsInstance(job, id, job.dep.desired) {
      assert IsInstance(job, id, i);
    }
  }

  lemma CapacityMet(job: Job, views: map<string, HostView>, s: State, kept: Tasks)
    requires Feasible(views, job.def, HostsOf(s.placed)) && |HostsOf(s.placed)| == |s.placed|
    requires |s.placed| + |Missing(job, s.taskMap)| == |Missing(job, kept)|
    requires forall a :: Feasible(views, job.def, a) ==> Min(|a|, |Missing(job, kept)|) <= |s.placed|
    ensures Missing(job, s.taskMap) == {} <==> Capacity(views, job.def, |Missing(job, kept)|)
  {
    assert Missing(job, s.taskMap) == {} <==> |Missing(job, s.taskMap)| == 0;
    if Missing(job, s.taskMap) == {} {
      assert |HostsOf(s.placed)| >= |Missing(job, kept)|;
    }
  }

  lemma NothingToFill(job: Job, views: map<string, HostView>, s: State, kept: Tasks)
    requires s.taskMap == kept && s.placed == [] && Missing(job, kept) == {}
    ensures FillsAsFits(job, views, s, kept) && KeepsAndAdds(job, s, kept)
  {
    var none: multiset<string> := multiset{};
    assert Feasible(views, job.def, none) && |none| == 0;
  }

  lemma SurvivorsAreInstances(job: Job, s0: State, s: State)
    requires AllCurrent(job, s0) && KeepsAndAdds(job, s, Survivors(s0))
    ensures AllInstances(job, s.taskMap, job.dep.desired)
  {
    forall id | id in s.taskMap ensures IsInstance(job, id, job.dep.desired) {
      if id in Survivors(s0) {
        assert id in s0.taskMap;
      }
    }
  }

  /** From any current tasks within the desired instances, some of them rejected or on unknown hosts,
      one run keeps exactly the sound ones and adds only fresh tasks for missing instances: all of
      them exactly when capacity allows, and otherwise the lowest ones, as many as can fit. */
  lemma OneRunHeals(job: Job, store: Tasks, views: map<string, HostView>, run: seq<State>)
    requires Keyed(store) && FullRun(job, store, views, run) && Proper(job, views) && AllCurrent(job, run[0])
    ensures
      var s, kept := Last(run), Survivors(run[0]);
      && s.taskMap == Live(job, s.store)
      && KeepsAndAdds(job, s, kept) && FillsAsFits(job, views, s, kept)
      && AllInstances(job, s.taskMap, job.dep.desired)
      && (Exactly(job, s.taskMap) <==> Capacity(views, job.def, |Missing(job, kept)|))
  {
    HealsThroughout(job, run, |run| - 1);
    FilledThroughout(job, run, |run| - 1);
    var s, s0, kept := Last(run), run[0], Survivors(run[0]);
    if s.count - s.removed < job.dep.desired {
      FillingFits(job, store, views, run);
      FillingAdds(job, s, kept);
    } else {
      InstancesCount(job, s0.taskMap, job.dep.desired);
      NothingToFill(job, views, s, kept);
    }
    SurvivorsAreInstances(job, s0, s);
  }
}
