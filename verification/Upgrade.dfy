/** Rolling upgrade: from healthy tasks of any versions, two runs leave exactly the desired instances
    of the current version, and when they do not (scheduler/scheduler.go). */
module Upgrade {
  import opened Naming
  import opened Api
  import opened Collections
  import opened Store
  import opened Placement
  import opened Reconcile
  import opened Safety
  import opened ScaleUp
  import opened Healing

  ghost function OldKeys(job: Job, m: Tasks): set<string> {
    set key | key in m && Old(job, m[key])
  }

  ghost function CurrentPart(job: Job, m: Tasks): Tasks {
    map key | key in m && !Old(job, m[key]) :: m[key]
  }

  /** The task map of a valid deployment: every task sound, the current ones among the desired
      instances, the others of any other version. */
  ghost predicate Upgradable(job: Job, m: Tasks, views: map<string, HostView>) {
    && 0 <= job.dep.min <= job.dep.desired
    && Keyed(m)
    && (forall key :: key in m ==> Sound(m[key], views))
    && AllInstances(job, CurrentPart(job, m), job.dep.desired)
  }

  function Max(a: int, b: int): int {
    if a >= b then a else b
  }

  /** How many old tasks a cleanup over `n` tasks can drop. */
  function Quota(job: Job, n: int): int {
    Max(0, n - job.dep.min)
  }

  lemma InstanceIsCurrent(job: Job, t: Task, j: int)
    requires t.Id() == job.IdAt(j)
    ensures !Old(job, t)
  {
    IdInjective(t.cluster, t.deployment, t.def.version, t.instance, job.cluster, job.dep.name, job.dep.taskVersion, j);
  }

  lemma SplitByAge(job: Job, m: Tasks)
    ensures |m| == |OldKeys(job, m)| + |CurrentPart(job, m)|
  {
    assert m.Keys == OldKeys(job, m) + CurrentPart(job, m).Keys;
  }

  /** The current tasks and the missing instances make up the desired number. */
  lemma CurrentCount(job: Job, m: Tasks)
    requires Keyed(m) && job.dep.desired >= 0 && AllInstances(job, CurrentPart(job, m), job.dep.desired)
    ensures |CurrentPart(job, m)| + |Missing(job, m)| == job.dep.desired
    ensures |m| == |OldKeys(job, m)| + |CurrentPart(job, m)|
  {
    var c := CurrentPart(job, m);
    InstancesCount(job, c, job.dep.desired);
    forall j | job.IdAt(j) in m ensures job.IdAt(j) in c {
      InstanceIsCurrent(job, m[job.IdAt(j)], j);
    }
    assert Missing(job, c) == Missing(job, m);
    SplitByAge(job, m);
  }

  /** `m` is the start's task map without `gone` of its old tasks. */
  ghost predicate Thinned(job: Job, m0: Tasks, m: Tasks, gone: int) {
    && (forall key :: key in m ==> key in m0 && m[key] == m0[key])
    && (forall key :: key in m0 && !Old(job, m0[key]) ==> key in m)
    && |m| == |m0| - gone
  }

  ghost predicate Upgrades(job: Job, s0: State, s: State) {
    var n, aged := |s0.taskMap|, OldKeys(job, s0.taskMap);
    s.count == n &&
    match s.phase
    case Cleaning(todo) =>
      && s.views == s0.views && s.removed == Min(|aged - todo|, Quota(job, n))
      && Thinned(job, s0.taskMap, s.taskMap, s.removed)
    case Down(_) => false
    case Up(_, kept) => s.removed == Min(|aged|, Quota(job, n)) && Thinned(job, s0.taskMap, kept, s.removed)
    case Done(kept) => s.removed == Min(|aged|, Quota(job, n)) && Thinned(job, s0.taskMap, kept, s.removed)
  }

  lemma VisitOld(job: Job, m0: Tasks, todo: set<string>, key: string)
    requires key in todo && key in m0
    ensures
      var aged := OldKeys(job, m0);
      |aged - (todo - {key})| == |aged - todo| + if Old(job, m0[key]) then 1 else 0
  {
    var aged := OldKeys(job, m0);
    if key in aged {
      assert aged - (todo - {key}) == (aged - todo) + {key};
    } else {
      assert aged - (todo - {key}) == aged - todo;
    }
  }

  lemma ThinnedByOne(job: Job, m0: Tasks, m: Tasks, gone: int, key: string)
    requires Thinned(job, m0, m, gone) && key in m && Old(job, m[key])
    ensures Thinned(job, m0, m - {key}, gone + 1)
  {
    WithoutKey(m, key);
  }

  lemma CleanedUpgrades(job: Job, s0: State, s: State, s': State, key: string)
    requires Upgradable(job, s0.taskMap, s0.views) && Upgrades(job, s0, s) && s.phase.Cleaning?
    requires key in s.phase.todo && key in s.taskMap && Cleaned(job, s, s', key) && s'.count == s.count
    ensures Upgrades(job, s0, s')
  {
    VisitOld(job, s0.taskMap, s.phase.todo, key);
    assert Sound(s.taskMap[key], s.views);
    if Drops(job, s, s.taskMap[key]) {
      ThinnedByOne(job, s0.taskMap, s.taskMap, s.removed, key);
    }
  }

  lemma CleaningDoneUpgrades(job: Job, s0: State, s: State, s': State)
    requires Upgradable(job, s0.taskMap, s0.views) && Upgrades(job, s0, s)
    requires s.phase == Cleaning({}) && s' == s.(phase := AfterCleaning(job, s))
    ensures Upgrades(job, s0, s')
  {
    CurrentCount(job, s0.taskMap);
    assert OldKeys(job, s0.taskMap) - {} == OldKeys(job, s0.taskMap);
    assert s.count - s.removed <= job.dep.desired;
  }

  lemma UpUpgrades(job: Job, s0: State, s: State, s': State)
    requires Upgrades(job, s0, s) && s.phase.Up? && Moves(job, s, s')
    ensures Upgrades(job, s0, s')
  {
    var host, provided := UpCases(job, s, s');
  }

  lemma StepUpgrades(job: Job, s0: State, s: State, s': State)
    requires Upgradable(job, s0.taskMap, s0.views) && Upgrades(job, s0, s) && Moves(job, s, s')
    ensures Upgrades(job, s0, s')
  {
    if s.phase.Up? {
      UpUpgrades(job, s0, s, s');
    } else if s.phase.Cleaning? && s.phase.todo == {} {
      CleaningDoneUpgrades(job, s0, s, s');
    } else if s.phase.Cleaning? {
      var key :| key in s.phase.todo && key in s.taskMap && Cleaned(job, s, s', key);
      CleanedUpgrades(job, s0, s, s', key);
    }
  }

  lemma UpgradesThroughout(job: Job, run: seq<State>, k: nat)
    requires IsRun(job, run) && k < |run| && Upgradable(job, run[0].taskMap, run[0].views)
    requires Keyed(run[0].store) && run[0] == Start(job, run[0].store, run[0].views)
    ensures Upgrades(job, run[0], run[k])
  {
    var s0 := run[0];
    assert Upgrades(job, s0, s0) by {
      assert OldKeys(job, s0.taskMap) - s0.taskMap.Keys == {};
    }
    forall s, s' | (Agrees(job, s) && Upgrades(job, s0, s)) && Step(job, s, s')
      ensures Agrees(job, s') && Upgrades(job, s0, s')
    {
      StepMoves(job, s, s');
      StepAgrees(job, s, s');
      StepUpgrades(job, s0, s, s');
    }
    Invariant(job, run, s => Agrees(job, s) && Upgrades(job, s0, s));
  }

  lemma ThinnedOldKeys(job: Job, m0: Tasks, m: Tasks, gone: int)
    requires Thinned(job, m0, m, gone)
    ensures |OldKeys(job, m)| == |OldKeys(job, m0)| - gone
    ensures CurrentPart(job, m) == CurrentPart(job, m0)
  {
    SplitByAge(job, m0);
    SplitByAge(job, m);
    assert CurrentPart(job, m) == CurrentPart(job, m0);
  }

  lemma ThinnedMissing(job: Job, m0: Tasks, m: Tasks, gone: int)
    requires Keyed(m0) && Thinned(job, m0, m, gone)
    ensures Missing(job, m) == Missing(job, m0)
  {
    forall j | job.IdAt(j) in m0 ensures job.IdAt(j) in m {
      InstanceIsCurrent(job, m0[job.IdAt(j)], j);
    }
  }

  lemma AddedOldKeys(job: Job, s: State, kept: Tasks)
    requires KeepsAndAdds(job, s, kept)
    ensures OldKeys(job, s.taskMap) == OldKeys(job, kept)
  {
  }

  /** What a run over sound tasks leaves: `kept` is what it found without the old tasks it could spare.
      What is kept is untouched, and where the minimum leaves room the missing instances are added as far
      as they fit. */
  ghost predicate Upgraded(job: Job, views: map<string, HostView>, m0: Tasks, s: State, kept: Tasks) {
    var n := |m0|;
    var gone := Min(|OldKeys(job, m0)|, Quota(job, n));
    && Thinned(job, m0, kept, gone) && Missing(job, kept) == Missing(job, m0)
    && KeepsAndAdds(job, s, kept)
    && if n - gone < job.dep.desired then FillsAsFits(job, views, s, kept) else s.taskMap == kept
  }

  /** After a run over sound tasks: the old ones it could spare are gone, the others and the current
      ones are untouched, and if the minimum left room as many of the missing instances as can fit are
      there, the lowest first. */
  lemma OneRunUpgrades(job: Job, store: Tasks, views: map<string, HostView>, run: seq<State>)
    requires Keyed(store) && FullRun(job, store, views, run) && Proper(job, views)
    requires Upgradable(job, run[0].taskMap, views)
    ensures
      var m0, s := run[0].taskMap, Last(run);
      && Upgraded(job, views, m0, s, s.phase.kept)
      && |OldKeys(job, s.taskMap)| == |OldKeys(job, m0)| - Min(|OldKeys(job, m0)|, Quota(job, |m0|))
      && Upgradable(job, s.taskMap, views)
      && s.taskMap == Live(job, s.store) && s.views.Keys == views.Keys
  {
    UpgradesThroughout(job, run, |run| - 1);
    FilledThroughout(job, run, |run| - 1);
    var s, m0 := Last(run), run[0].taskMap;
    var kept := s.phase.kept;
    ThinnedOldKeys(job, m0, kept, s.removed);
    ThinnedMissing(job, m0, kept, s.removed);
    if s.count - s.removed < job.dep.desired {
      FillingFits(job, store, views, run);
      FillingAdds(job, s, kept);
    }
    AddedOldKeys(job, s, kept);
    StillUpgradable(job, m0, s, kept, views);
  }

  lemma StillUpgradable(job: Job, m0: Tasks, s: State, kept: Tasks, views: map<string, HostView>)
    requires Upgradable(job, m0, views) && Thinned(job, m0, kept, |m0| - |kept|)
    requires Keyed(s.taskMap) && s.views.Keys == views.Keys
    requires s.taskMap == kept || KeepsAndAdds(job, s, kept)
    ensures Upgradable(job, s.taskMap, views)
  {
    StillSound(job, m0, s, kept, views);
    StillInstances(job, m0, s, kept);
  }

  lemma StillSound(job: Job, m0: Tasks, s: State, kept: Tasks, views: map<string, HostView>)
    requires (forall key :: key in m0 ==> Sound(m0[key], views)) && Thinned(job, m0, kept, |m0| - |kept|)
    requires s.views.Keys == views.Keys && (s.taskMap == kept || KeepsAndAdds(job, s, kept))
    ensures forall key :: key in s.taskMap ==> Sound(s.taskMap[key], views)
  {
  }

  lemma StillInstances(job: Job, m0: Tasks, s: State, kept: Tasks)
    requires AllInstances(job, CurrentPart(job, m0), job.dep.desired) && Thinned(job, m0, kept, |m0| - |kept|)
    requires s.taskMap == kept || KeepsAndAdds(job, s, kept)
    ensures AllInstances(job, CurrentPart(job, s.taskMap), job.dep.desired)
  {
    forall id | id in CurrentPart(job, s.taskMap) ensures IsInstance(job, id, job.dep.desired) {
      if id in kept {
        assert id in CurrentPart(job, m0);
      }
    }
  }

  /** The next run starts from what this one left: the deployment's scheduled tasks are the same,
      known hosts are still known. Anything else may have changed. */
  ghost predicate FollowedBy(job: Job, first: State, store: Tasks, views: map<string, HostView>) {
    Keyed(store) && Live(job, store) == Live(job, first.store) && first.views.Keys <= views.Keys && "" !in views
  }

  lemma UpgradableOnMoreHosts(job: Job, m: Tasks, views: map<string, HostView>, more: map<string, HostView>)
    requires Upgradable(job, m, views) && views.Keys <= more.Keys
    ensures Upgradable(job, m, more)
  {
  }

  lemma ExactlyMeansNoneMissingNorOld(job: Job, m: Tasks, views: map<string, HostView>)
    requires Upgradable(job, m, views)
    ensures Exactly(job, m) <==> Missing(job, m) == {} && |OldKeys(job, m)| == 0
  {
    if Exactly(job, m) {
      forall key | key in m ensures !Old(job, m[key]) {
        assert IsInstance(job, key, job.dep.desired);
        var j :| 0 <= j < job.dep.desired && job.IdAt(j) == key;
        InstanceIsCurrent(job, m[key], j);
      }
      assert OldKeys(job, m) == {};
    } else if |OldKeys(job, m)| == 0 {
      assert OldKeys(job, m) == {};
      forall key | key in m ensures IsInstance(job, key, job.dep.desired) {
        assert key !in OldKeys(job, m);
        assert key in CurrentPart(job, m);
      }
    }
  }

  /** The upgrade can make room: the minimum is below the desired number, or there are fewer tasks
      than desired to begin with, or no current instance is missing. */
  ghost predicate HasRoom(job: Job, m: Tasks) {
    job.dep.min < job.dep.desired || |m| < job.dep.desired || Missing(job, m) == {}
  }

  /** A run that has room and capacity ends with every current instance present. */
  lemma RoomFillsInstances(job: Job, store: Tasks, views: map<string, HostView>, run: seq<State>)
    requires Keyed(store) && FullRun(job, store, views, run) && Proper(job, views)
    requires Upgradable(job, run[0].taskMap, views) && HasRoom(job, run[0].taskMap)
    requires Capacity(views, job.def, |Missing(job, run[0].taskMap)|)
    ensures Missing(job, Last(run).taskMap) == {}
  {
    OneRunUpgrades(job, store, views, run);
    CurrentCount(job, run[0].taskMap);
  }

  /** No instance was added, and there is no room for one. */
  ghost predicate Stalled(job: Job, m0: Tasks, m: Tasks) {
    Within(m, m0) && Missing(job, m) == Missing(job, m0) && !HasRoom(job, m)
  }

  /** A run without room adds no instance and keeps as many tasks as desired: it has no room again. */
  lemma NoRoomStalls(job: Job, store: Tasks, views: map<string, HostView>, run: seq<State>)
    requires Keyed(store) && FullRun(job, store, views, run) && Proper(job, views)
    requires Upgradable(job, run[0].taskMap, views) && !HasRoom(job, run[0].taskMap)
    ensures Stalled(job, run[0].taskMap, Last(run).taskMap)
  {
    OneRunUpgrades(job, store, views, run);
    UpgradedStalls(job, views, run[0].taskMap, Last(run), Last(run).phase.kept);
  }

  lemma UpgradedStalls(job: Job, views: map<string, HostView>, m0: Tasks, s: State, kept: Tasks)
    requires Upgradable(job, m0, views) && !HasRoom(job, m0) && Upgraded(job, views, m0, s, kept)
    ensures Stalled(job, m0, s.taskMap)
  {
    CurrentCount(job, m0);
    assert s.taskMap == kept;
  }

  /** A run over a map with no instance missing drops every old task. */
  lemma FullMapDropsOld(job: Job, store: Tasks, views: map<string, HostView>, run: seq<State>)
    requires Keyed(store) && FullRun(job, store, views, run) && Proper(job, views)
    requires Upgradable(job, run[0].taskMap, views) && Missing(job, run[0].taskMap) == {}
    ensures Exactly(job, Last(run).taskMap)
  {
    OneRunUpgrades(job, store, views, run);
    CurrentCount(job, run[0].taskMap);
    ExactlyMeansNoneMissingNorOld(job, Last(run).taskMap, views);
  }

  // ----- Any number of runs -----

  datatype Turn = Turn(store: Tasks, views: map<string, HostView>, run: seq<State>)

  /** One whole run after the other, each from what the one before left. */
  ghost predicate Chain(job: Job, turns: seq<Turn>) {
    forall k :: 0 <= k < |turns| ==> TurnAt(job, turns, k)
  }

  ghost predicate TurnAt(job: Job, turns: seq<Turn>, k: nat)
    requires k < |turns|
  {
    var t := turns[k];
    && Keyed(t.store) && FullRun(job, t.store, t.views, t.run) && Proper(job, t.views)
    && (k > 0 ==> turns[k - 1].run != [] && FollowedBy(job, Last(turns[k - 1].run), t.store, t.views))
  }

  ghost predicate StartsUpgradable(job: Job, turns: seq<Turn>) {
    turns != [] && turns[0].run != [] && Upgradable(job, turns[0].run[0].taskMap, turns[0].views)
  }

  lemma {:induction false} ChainUpgradable(job: Job, turns: seq<Turn>, k: nat)
    requires Chain(job, turns) && StartsUpgradable(job, turns) && k < |turns|
    ensures turns[k].run != [] && Upgradable(job, turns[k].run[0].taskMap, turns[k].views)
    ensures k > 0 ==> turns[k - 1].run != [] && turns[k].run[0].taskMap == Last(turns[k - 1].run).taskMap
  {
    assert TurnAt(job, turns, k);
    if k > 0 {
      var t := turns[k - 1];
      ChainUpgradable(job, turns, k - 1);
      assert TurnAt(job, turns, k - 1);
      OneRunUpgrades(job, t.store, t.views, t.run);
      UpgradableOnMoreHosts(job, Last(t.run).taskMap, t.views, turns[k].views);
    }
  }

  /** What was scheduled before the first turn and after each. */
  ghost function Maps(turns: seq<Turn>): seq<Tasks>
    requires turns != [] && forall k :: 0 <= k < |turns| ==> turns[k].run != []
  {
    [turns[0].run[0].taskMap] + seq(|turns|, k requires 0 <= k < |turns| => Last(turns[k].run).taskMap)
  }

  /** What one run makes of a map without room, and of one with no instance missing. */
  ghost predicate Leads(job: Job, m: Tasks, m': Tasks) {
    (!HasRoom(job, m) ==> Stalled(job, m, m')) && (Missing(job, m) == {} ==> Exactly(job, m'))
  }

  lemma TurnLeads(job: Job, turns: seq<Turn>, k: nat)
    requires Chain(job, turns) && StartsUpgradable(job, turns) && k < |turns|
    ensures turns[k].run != [] && Leads(job, turns[k].run[0].taskMap, Last(turns[k].run).taskMap)
  {
    var t := turns[k];
    ChainUpgradable(job, turns, k);
    assert TurnAt(job, turns, k);
    if !HasRoom(job, t.run[0].taskMap) {
      NoRoomStalls(job, t.store, t.views, t.run);
    } else if Missing(job, t.run[0].taskMap) == {} {
      FullMapDropsOld(job, t.store, t.views, t.run);
    }
  }

  ghost predicate AllLead(job: Job, ms: seq<Tasks>) {
    forall k :: 0 <= k < |ms| - 1 ==> LeadsAt(job, ms, k)
  }

  ghost predicate LeadsAt(job: Job, ms: seq<Tasks>, k: nat)
    requires k + 1 < |ms|
  {
    Leads(job, ms[k], ms[k + 1])
  }

  lemma ChainRuns(job: Job, turns: seq<Turn>)
    requires Chain(job, turns)
    ensures forall k :: 0 <= k < |turns| ==> turns[k].run != []
  {
    forall k | 0 <= k < |turns| ensures turns[k].run != [] {
      assert TurnAt(job, turns, k);
    }
  }

  lemma MapsLeadAt(job: Job, turns: seq<Turn>, k: nat)
    requires k < |turns| && forall i :: 0 <= i < |turns| ==> turns[i].run != []
    requires Leads(job, turns[k].run[0].taskMap, Last(turns[k].run).taskMap)
    requires k > 0 ==> turns[k].run[0].taskMap == Last(turns[k - 1].run).taskMap
    ensures LeadsAt(job, Maps(turns), k)
  {
    var ms := Maps(turns);
    assert ms[k + 1] == Last(turns[k].run).taskMap;
    assert ms[k] == turns[k].run[0].taskMap;
  }

  lemma ChainLeadsAt(job: Job, turns: seq<Turn>, k: nat)
    requires Chain(job, turns) && StartsUpgradable(job, turns) && k < |turns|
    requires forall i :: 0 <= i < |turns| ==> turns[i].run != []
    ensures LeadsAt(job, Maps(turns), k)
  {
    ChainUpgradable(job, turns, k);
    TurnLeads(job, turns, k);
    MapsLeadAt(job, turns, k);
  }

  lemma ChainLeads(job: Job, turns: seq<Turn>)
    requires Chain(job, turns) && StartsUpgradable(job, turns)
    ensures forall k :: 0 <= k < |turns| ==> turns[k].run != []
    ensures AllLead(job, Maps(turns))
  {
    ChainRuns(job, turns);
    forall k | 0 <= k < |turns| ensures LeadsAt(job, Maps(turns), k) {
      ChainLeadsAt(job, turns, k);
    }
  }

  lemma TurnIsListed(job: Job, turns: seq<Turn>, k: nat)
    requires Chain(job, turns) && k < |turns|
    ensures turns[k].run != [] && Last(turns[k].run).taskMap == Live(job, Last(turns[k].run).store)
  {
    assert TurnAt(job, turns, k);
    SafeThroughout(job, turns[k].run, |turns[k].run| - 1);
  }

  /** Without room no number of runs adds an instance. */
  lemma {:induction false} NeverRoom(job: Job, ms: seq<Tasks>, k: nat)
    requires AllLead(job, ms) && 0 < k < |ms| && !HasRoom(job, ms[0])
    ensures Stalled(job, ms[0], ms[k])
  {
    assert LeadsAt(job, ms, k - 1);
    if k > 1 {
      NeverRoom(job, ms, k - 1);
    }
  }

  /** Once no instance is missing, every run leaves exactly the desired instances. */
  lemma {:induction false} StaysExact(job: Job, ms: seq<Tasks>, k: nat)
    requires AllLead(job, ms) && 1 < k < |ms| && Missing(job, ms[1]) == {}
    ensures Exactly(job, ms[k])
  {
    assert LeadsAt(job, ms, k - 1);
    if k > 2 {
      StaysExact(job, ms, k - 1);
    }
  }

  /** Without room no number of runs moves the deployment off its old tasks. */
  lemma NoRoomStallsForever(job: Job, turns: seq<Turn>, k: nat)
    requires Chain(job, turns) && StartsUpgradable(job, turns) && k < |turns|
    requires !HasRoom(job, turns[0].run[0].taskMap)
    ensures turns[k].run != [] && Stalled(job, turns[0].run[0].taskMap, Last(turns[k].run).taskMap)
  {
    ChainLeads(job, turns);
    NeverRoom(job, Maps(turns), k + 1);
  }

  /** With room and capacity the second run and every further one leave exactly the desired instances. */
  lemma RoomUpgrades(job: Job, turns: seq<Turn>, k: nat)
    requires Chain(job, turns) && StartsUpgradable(job, turns) && 0 < k < |turns|
    requires HasRoom(job, turns[0].run[0].taskMap)
    requires Capacity(turns[0].views, job.def, |Missing(job, turns[0].run[0].taskMap)|)
    ensures turns[k].run != [] && Exactly(job, Last(turns[k].run).taskMap)
  {
    ChainLeads(job, turns);
    assert TurnAt(job, turns, 0);
    RoomFillsInstances(job, turns[0].store, turns[0].views, turns[0].run);
    assert Maps(turns)[1] == Last(turns[0].run).taskMap;
    StaysExact(job, Maps(turns), k + 1);
  }

  /** Two runs turn sound tasks of any versions into exactly the desired current instances, which every
      further run keeps, if and only if the deployment has room to begin with, given capacity for the
      missing ones. In particular a deployment whose minimum equals its desired number never moves off that
      many old tasks, however often it is scheduled. */
  lemma RunsUpgrade(job: Job, turns: seq<Turn>, k: nat)
    requires Chain(job, turns) && StartsUpgradable(job, turns) && 0 < k < |turns|
    requires Capacity(turns[0].views, job.def, |Missing(job, turns[0].run[0].taskMap)|)
    ensures turns[k].run != []
    ensures Exactly(job, Live(job, Last(turns[k].run).store)) <==> HasRoom(job, turns[0].run[0].taskMap)
  {
    TurnIsListed(job, turns, k);
    if HasRoom(job, turns[0].run[0].taskMap) {
      RoomUpgrades(job, turns, k);
    } else {
      NoRoomStallsForever(job, turns, k);
    }
  }

  lemma FirstRunKeeps(job: Job, store: Tasks, views: map<string, HostView>, run: seq<State>)
    requires Keyed(store) && FullRun(job, store, views, run) && Proper(job, views)
    requires Upgradable(job, run[0].taskMap, views) && CurrentPart(job, run[0].taskMap) == map[]
    ensures |OldKeys(job, Last(run).taskMap)| == Min(|run[0].taskMap|, job.dep.min)
    ensures AllInstances(job, CurrentPart(job, Last(run).taskMap), job.dep.desired)
  {
    OneRunUpgrades(job, store, views, run);
    SplitByAge(job, run[0].taskMap);
  }

  /** From old tasks only, the first run ends with exactly min(n, Min) of them beside all the new
      instances. */
  lemma FirstRunOfUpgrade(job: Job, store: Tasks, views: map<string, HostView>, run: seq<State>)
    requires Keyed(store) && FullRun(job, store, views, run) && Proper(job, views)
    requires Upgradable(job, run[0].taskMap, views) && Capacity(views, job.def, |Missing(job, run[0].taskMap)|)
    requires CurrentPart(job, run[0].taskMap) == map[] && job.dep.min < job.dep.desired
    ensures Missing(job, Last(run).taskMap) == {}
    ensures |OldKeys(job, Last(run).taskMap)| == Min(|run[0].taskMap|, job.dep.min)
    ensures AllInstances(job, CurrentPart(job, Last(run).taskMap), job.dep.desired)
  {
    RoomFillsInstances(job, store, views, run);
    FirstRunKeeps(job, store, views, run);
  }

  /** Cleanup over sound tasks drops min(old, max(0, n - Min)) of them, in whatever order. */
  lemma CleanupDropsQuota(job: Job, run: seq<State>, k: nat)
    requires IsRun(job, run) && k < |run| && Upgradable(job, run[0].taskMap, run[0].views)
    requires Keyed(run[0].store) && run[0] == Start(job, run[0].store, run[0].views)
    requires run[k].phase == Cleaning({})
    ensures
      var n, m := |run[0].taskMap|, run[k].taskMap;
      && |m| == n - Min(|OldKeys(job, run[0].taskMap)|, Quota(job, n))
      && CurrentPart(job, m) == CurrentPart(job, run[0].taskMap)
  {
    UpgradesThroughout(job, run, k);
    assert OldKeys(job, run[0].taskMap) - {} == OldKeys(job, run[0].taskMap);
    ThinnedOldKeys(job, run[0].taskMap, run[k].taskMap, run[k].removed);
  }
}
