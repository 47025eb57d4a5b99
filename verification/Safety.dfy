/** What holds after every single write of a run, for every iteration order and every choice of
    hosts and ports (scheduler/scheduler.go). */
module Safety {
  import opened Naming
  import opened Api
  import opened Collections
  import opened Store
  import opened Placement
  import opened Reconcile

  function HostsOf(placed: seq<Put>): multiset<string> {
    if placed == [] then multiset{} else HostsOf(placed[..|placed| - 1]) + multiset{placed[|placed| - 1].host}
  }

  lemma {:induction false} HostsOfSize(placed: seq<Put>)
    ensures |HostsOf(placed)| == |placed|
  {
    if placed != [] {
      HostsOfSize(placed[..|placed| - 1]);
    }
  }

  /** The records that bear another cluster-and-deployment name. */
  ghost function Foreign(job: Job, store: Tasks): Tasks {
    map id | id in store && store[id].Name() != TaskName(job.cluster, job.dep.name) :: store[id]
  }

  lemma WriteKeepsForeign(job: Job, store: Tasks, t: Task)
    requires Keyed(store) && t.Name() == TaskName(job.cluster, job.dep.name)
    ensures Foreign(job, store[t.Id() := t]) == Foreign(job, store)
  {
    if t.Id() in store {
      var u := store[t.Id()];
      IdInjective(t.cluster, t.deployment, t.def.version, t.instance,
                  u.cluster, u.deployment, u.def.version, u.instance);
    }
  }

  ghost predicate Framed(job: Job, s0: State, s: State) {
    job.Named() ==> Foreign(job, s.store) == Foreign(job, s0.store)
  }

  /** `count - removed` never overstates what is left, although `removed` can count a task more
      than once. */
  ghost predicate Counted(s0: State, s: State) {
    && s.count == s0.count
    && (s.phase.Cleaning? || s.phase.Down? ==> s.count - s.removed <= |s.taskMap|)
  }

  /** Hosts carry what they carried at the start and the tasks of this run, which all fitted. */
  ghost predicate Carries(job: Job, s0: State, s: State) {
    && Loaded(s0.views, s.views, job.def, HostsOf(s.placed))
    && (s.phase.Cleaning? || s.phase.Down? ==> s.placed == [] && s.views == s0.views)
  }

  /** The run's start is `s0`. */
  ghost predicate Safe(job: Job, s0: State, s: State) {
    Agrees(job, s) && Framed(job, s0, s) && Counted(s0, s) && Carries(job, s0, s)
  }

  lemma StepFramed(job: Job, s0: State, s: State, s': State)
    requires Agrees(job, s) && Framed(job, s0, s) && Moves(job, s, s')
    ensures Framed(job, s0, s')
  {
    if job.Named() {
      match s.phase
      case Cleaning(todo) =>
        if todo != {} {
          var key :| key in todo && key in s.taskMap && Cleaned(job, s, s', key);
          WriteKeepsForeign(job, s.store, s.taskMap[key].(scheduled := false));
        }
      case Down(i) =>
        if i > job.dep.desired - 1 && job.IdAt(i) in s.taskMap {
          WriteKeepsForeign(job, s.store, s.taskMap[job.IdAt(i)].(scheduled := false));
        }
      case Up(i, kept) =>
        if i < job.dep.desired && !Passed(job, s, s') {
          var host, provided :| PlacedOn(job, s, s', host, provided);
          WriteKeepsForeign(job, s.store, NewlyPlaced(job, i, host, provided));
        }
      case Done(_) =>
    }
  }

  lemma CleanedCounted(job: Job, s0: State, s: State, s': State, key: string)
    requires s.phase.Cleaning? && key in s.taskMap && Cleaned(job, s, s', key)
    requires s.count - s.removed <= |s.taskMap|
    ensures s.count - s'.removed <= |s'.taskMap|
  {
    WithoutKey(s.taskMap, key);
  }

  lemma ShrunkByOne(job: Job, s: State, s': State)
    requires s.phase.Down? && Shrunk(job, s, s')
    ensures |s.taskMap| - |s'.taskMap| == s'.removed - s.removed
    ensures s.removed <= s'.removed <= s.removed + 1
  {
    if job.IdAt(s.phase.next) in s.taskMap {
      WithoutKey(s.taskMap, job.IdAt(s.phase.next));
    }
  }

  lemma StepCounted(job: Job, s0: State, s: State, s': State)
    requires Counted(s0, s) && Moves(job, s, s')
    ensures Counted(s0, s')
  {
    if s.phase.Cleaning? && s.phase.todo != {} {
      var key :| key in s.phase.todo && key in s.taskMap && Cleaned(job, s, s', key);
      CleanedCounted(job, s0, s, s', key);
    } else if s.phase.Down? && s.phase.next > job.dep.desired - 1 {
      ShrunkByOne(job, s, s');
    }
  }

  lemma PlacedCarries(job: Job, s0: State, s: State, s': State, host: string, provided: map<string, nat>)
    requires Carries(job, s0, s) && s.phase.Up? && PlacedOn(job, s, s', host, provided)
    ensures Carries(job, s0, s')
  {
    LoadOneMore(s0.views, s.views, job.def, HostsOf(s.placed), host);
    assert s'.placed[..|s'.placed| - 1] == s.placed;
  }

  lemma StepCarries(job: Job, s0: State, s: State, s': State)
    requires Carries(job, s0, s) && Moves(job, s, s')
    ensures Carries(job, s0, s')
  {
    if s.phase.Up? && s.phase.next < job.dep.desired && !Passed(job, s, s') {
      var host, provided :| PlacedOn(job, s, s', host, provided);
      PlacedCarries(job, s0, s, s', host, provided);
    }
  }

  lemma StepSafe(job: Job, s0: State, s: State, s': State)
    requires Safe(job, s0, s) && Step(job, s, s')
    ensures Safe(job, s0, s')
  {
    StepMoves(job, s, s');
    StepAgrees(job, s, s');
    StepFramed(job, s0, s, s');
    StepCounted(job, s0, s, s');
    StepCarries(job, s0, s, s');
  }

  /** Every state of every run is safe. */
  lemma SafeThroughout(job: Job, run: seq<State>, k: nat)
    requires IsRun(job, run) && k < |run|
    requires Keyed(run[0].store) && run[0] == Start(job, run[0].store, run[0].views)
    ensures Safe(job, run[0], run[k])
  {
    forall s, s' | Safe(job, run[0], s) && Step(job, s, s') ensures Safe(job, run[0], s') {
      StepSafe(job, run[0], s, s');
    }
    Invariant(job, run, s => Safe(job, run[0], s));
  }

  /** Whatever a run has placed fits: in every state of every run each host has given up exactly what the
      tasks placed on it take, no resource that was non-negative has become negative, and tasks with
      fixed ports never share a host or take a port reserved before. */
  lemma NoOvercommit(job: Job, run: seq<State>, k: nat, h: string)
    requires IsRun(job, run) && k < |run| && h in run[k].views
    requires Keyed(run[0].store) && run[0] == Start(job, run[0].store, run[0].views)
    ensures h in run[0].views
    ensures
      var v0, v, n := run[0].views[h], run[k].views[h], HostsOf(run[k].placed)[h];
      Withdrawn(v0, v, n, TotalCounts(job.def.containers)) && NoneOverdrawn(v0, v)
    ensures
      var v0, n, fixed := run[0].views[h], HostsOf(run[k].placed)[h], FixedPorts(job.def.containers);
      fixed != [] && n > 0 ==> n == 1 && forall p :: p in fixed ==> p !in v0.reserved
  {
    SafeThroughout(job, run, k);
    var placed := HostsOf(run[k].placed);
    LoadedNeverOvercommits(run[0].views, run[k].views, job.def, placed, h);
    if FixedPorts(job.def.containers) != [] && placed[h] > 0 {
      LoadedPortsDisjoint(run[0].views, run[k].views, job.def, placed, h);
    }
  }

  /** Dropping a task for nothing but its age leaves at least the minimum in the task map. */
  lemma AgeRemovalLeavesMin(job: Job, s0: State, s: State, key: string)
    requires Safe(job, s0, s) && s.phase.Cleaning? && key in s.phase.todo
    requires Sound(s.taskMap[key], s.views) && key !in Clean(job, s, key).taskMap
    ensures Old(job, s.taskMap[key]) && |Clean(job, s, key).taskMap| >= job.dep.min
  {
    CleanInTotal(job, s, key);
    WithoutKey(s.taskMap, key);
  }

  // ----- How few tasks a run can leave scheduled on its way -----

  ghost function Unsound(s0: State): set<string> {
    set key | key in s0.taskMap && !Sound(s0.taskMap[key], s0.views)
  }

  function Min(a: int, b: int): int {
    if a <= b then a else b
  }

  /** Until scale-up the task map only shrinks and the hosts do not change. */
  ghost predicate Shrinks(s0: State, s: State) {
    s.phase.Cleaning? || s.phase.Down? ==>
      s.views == s0.views && forall key :: key in s.taskMap ==> key in s0.taskMap && s.taskMap[key] == s0.taskMap[key]
  }

  ghost function UnsoundGone(s0: State, s: State): nat {
    |Unsound(s0) - s.taskMap.Keys|
  }

  ghost predicate Floored(job: Job, s0: State, s: State) {
    var floor := Min(|s0.taskMap|, job.dep.min);
    match s.phase
    case Cleaning(_) => |s.taskMap| + UnsoundGone(s0, s) >= floor
    case Down(i) => i >= job.dep.desired - 1 && |s.taskMap| >= i + 1
    case _ => |s.taskMap| >= floor - |Unsound(s0)|
  }

  lemma UnsoundGoneOneMore(s0: State, s: State, key: string, s': State)
    requires key in s.taskMap && s'.taskMap == s.taskMap - {key} && key in Unsound(s0)
    ensures UnsoundGone(s0, s') == UnsoundGone(s0, s) + 1
  {
    assert Unsound(s0) - s'.taskMap.Keys == (Unsound(s0) - s.taskMap.Keys) + {key};
  }

  lemma CleanedFloored(job: Job, s0: State, s: State, s': State, key: string)
    requires s.phase.Cleaning? && key in s.taskMap && Cleaned(job, s, s', key)
    requires s.count - s.removed <= |s.taskMap| && Shrinks(s0, s) && Floored(job, s0, s)
    ensures Floored(job, s0, s')
  {
    if Drops(job, s, s.taskMap[key]) {
      WithoutKey(s.taskMap, key);
      if key in Unsound(s0) {
        UnsoundGoneOneMore(s0, s, key, s');
      } else {
        assert |s.taskMap| > job.dep.min;
      }
    }
  }

  lemma StepShrinks(job: Job, s0: State, s: State, s': State)
    requires Shrinks(s0, s) && Moves(job, s, s')
    ensures Shrinks(s0, s')
  {
    if s.phase.Cleaning? && s.phase.todo != {} {
      var key :| key in s.phase.todo && key in s.taskMap && Cleaned(job, s, s', key);
    }
  }

  lemma PlacedGrows(job: Job, s: State, s': State, host: string, provided: map<string, nat>)
    requires s.phase.Up? && PlacedOn(job, s, s', host, provided)
    ensures |s.taskMap| <= |s'.taskMap|
  {
    SubsetSize(s.taskMap.Keys, s'.taskMap.Keys);
  }

  lemma UpFloored(job: Job, s0: State, s: State, s': State)
    requires s.phase.Up? && Floored(job, s0, s) && Moves(job, s, s')
    ensures Floored(job, s0, s')
  {
    if s.phase.next < job.dep.desired && !Passed(job, s, s') {
      var host, provided :| PlacedOn(job, s, s', host, provided);
      PlacedGrows(job, s, s', host, provided);
    }
  }

  lemma DownFloored(job: Job, s0: State, s: State, s': State)
    requires s.phase.Down? && Floored(job, s0, s) && Moves(job, s, s') && job.dep.min <= job.dep.desired
    ensures Floored(job, s0, s')
  {
    if s.phase.next > job.dep.desired - 1 {
      ShrunkByOne(job, s, s');
    }
  }

  lemma StepFloored(job: Job, s0: State, s: State, s': State)
    requires job.dep.min <= job.dep.desired
    requires Counted(s0, s) && Shrinks(s0, s) && Floored(job, s0, s) && Moves(job, s, s')
    ensures Floored(job, s0, s')
  {
    match s.phase
    case Cleaning(todo) =>
      if todo != {} {
        var key :| key in s.phase.todo && key in s.taskMap && Cleaned(job, s, s', key);
        CleanedFloored(job, s0, s, s', key);
      } else {
        SubsetSize(Unsound(s0) - s.taskMap.Keys, Unsound(s0));
      }
    case Down(i) =>
      DownFloored(job, s0, s, s');
    case Up(i, kept) =>
      UpFloored(job, s0, s, s');
    case Done(_) =>
  }

  ghost predicate SafeAndFloored(job: Job, s0: State, s: State) {
    Safe(job, s0, s) && Shrinks(s0, s) && Floored(job, s0, s)
  }

  lemma StepSafeAndFloored(job: Job, s0: State, s: State, s': State)
    requires job.dep.min <= job.dep.desired && SafeAndFloored(job, s0, s) && Step(job, s, s')
    ensures SafeAndFloored(job, s0, s')
  {
    StepSafe(job, s0, s, s');
    StepMoves(job, s, s');
    StepShrinks(job, s0, s, s');
    StepFloored(job, s0, s, s');
  }

  lemma StartSafe(job: Job, store: Tasks, views: map<string, HostView>)
    requires Keyed(store)
    ensures Safe(job, Start(job, store, views), Start(job, store, views))
  {
    var s := Start(job, store, views);
    assert Agrees(job, s);
    assert HostsOf(s.placed) == multiset{};
  }

  lemma StartFloored(job: Job, store: Tasks, views: map<string, HostView>)
    requires Keyed(store)
    ensures SafeAndFloored(job, Start(job, store, views), Start(job, store, views))
  {
    StartSafe(job, store, views);
  }

  lemma FlooredThroughout(job: Job, run: seq<State>, k: nat)
    requires IsRun(job, run) && k < |run| && job.dep.min <= job.dep.desired
    requires Keyed(run[0].store) && run[0] == Start(job, run[0].store, run[0].views)
    ensures SafeAndFloored(job, run[0], run[k])
  {
    var s0 := run[0];
    StartFloored(job, s0.store, s0.views);
    StepsKeepFloored(job, s0);
    Invariant(job, run, s => SafeAndFloored(job, s0, s));
  }

  lemma StepsKeepFloored(job: Job, s0: State)
    requires job.dep.min <= job.dep.desired
    ensures forall s, s' :: SafeAndFloored(job, s0, s) && Step(job, s, s') ==> SafeAndFloored(job, s0, s')
  {
    forall s, s' | SafeAndFloored(job, s0, s) && Step(job, s, s') ensures SafeAndFloored(job, s0, s') {
      StepSafeAndFloored(job, s0, s, s');
    }
  }

  lemma FlooredHasMinimum(job: Job, s0: State, s: State)
    requires Agrees(job, s) && Floored(job, s0, s) && job.dep.min <= job.dep.desired
    ensures |Live(job, s.store)| >= Min(|s0.taskMap|, job.dep.min) - |Unsound(s0)|
  {
    SubsetSize(Unsound(s0) - s.taskMap.Keys, Unsound(s0));
  }

  /** In every state of every run of a deployment with Min <= Desired, at least min(n, Min) of the n
      tasks stay scheduled, less one for each that had to go because it was rejected or homeless. */
  lemma MinimumStaysScheduled(job: Job, run: seq<State>, k: nat)
    requires IsRun(job, run) && k < |run| && job.dep.min <= job.dep.desired
    requires Keyed(run[0].store) && run[0] == Start(job, run[0].store, run[0].views)
    ensures |Live(job, run[k].store)| >= Min(|run[0].taskMap|, job.dep.min) - |Unsound(run[0])|
  {
    FlooredThroughout(job, run, k);
    FlooredHasMinimum(job, run[0], run[k]);
  }
}
