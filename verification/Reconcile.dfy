/** One run of the default scheduler as a state machine (scheduler/scheduler.go, `Schedule`):
    cleanup in any order, then scale down, then scale up. */
module Reconcile {
  import opened Api
  import opened Store
  import opened Placement
  import opened Rankers
  import Ports

  /** What one run is about: the cluster, the deployment and the task definition read for it. */
  datatype Job = Job(cluster: string, dep: Deployment, def: TaskDefinition)
  {
    function IdAt(i: int): string {
      MakeTaskId(cluster, dep, i)
    }

    ghost predicate Named() {
      cluster != "" && dep.name != ""
    }
  }

  /** A task of this run, by the host it went to. */
  datatype Put = Put(instance: int, host: string)

  /** Where the run is. `kept` remembers the task map as scale-up found it. */
  datatype Phase = Cleaning(todo: set<string>) | Down(next: int) | Up(next: int, kept: Tasks) | Done(kept: Tasks)

  datatype State = State(store: Tasks, taskMap: Tasks, views: map<string, HostView>,
                         count: int, removed: int, placed: seq<Put>, phase: Phase)

  ghost predicate Mine(job: Job, t: Task) {
    && (job.cluster != "" ==> t.cluster == job.cluster)
    && (job.dep.name != "" ==> t.deployment == job.dep.name)
  }

  function ScheduledQuery(job: Job): TaskQuery {
    TaskQuery(job.cluster, job.dep.name, "", false, true, false, false)
  }

  /** The deployment's scheduled tasks in the store. */
  ghost function Live(job: Job, store: Tasks): Tasks {
    map id | id in store && store[id].scheduled && Mine(job, store[id]) :: store[id]
  }

  lemma LiveIsListed(job: Job, store: Tasks, health: Task -> Status)
    ensures Select(store, ScheduledQuery(job), health) == Live(job, store)
  {
  }

  ghost function Start(job: Job, store: Tasks, views: map<string, HostView>): State {
    var live := Live(job, store);
    State(store, live, views, |live|, 0, [], Cleaning(live.Keys))
  }

  /** Write the task back unscheduled and forget it. */
  function Drop(s: State, key: string, t: Task): State {
    s.(store := s.store[t.Id() := t.(scheduled := false)], taskMap := s.taskMap - {key}, removed := s.removed + 1)
  }

  /** One pass of the cleanup loop: three tests in a row, each of which can drop the task. */
  function Clean(job: Job, s: State, key: string): (s': State)
    requires key in s.taskMap && s.phase.Cleaning?
    ensures s'.views == s.views && s'.placed == s.placed && s'.count == s.count
    ensures s'.phase == Cleaning(s.phase.todo - {key})
  {
    var s' := DropOld(job, DropUnsound(s, key, s.taskMap[key]), key, s.taskMap[key]);
    s'.(phase := Cleaning(s.phase.todo - {key}))
  }

  function DropUnsound(s: State, key: string, t: Task): State {
    var s' := if t.host !in s.views then Drop(s, key, t) else s;
    if t.rejected then Drop(s', key, t) else s'
  }

  function DropOld(job: Job, s: State, key: string, t: Task): State {
    if s.count - s.removed > job.dep.min && t.def.version != job.dep.taskVersion then Drop(s, key, t) else s
  }

  /** One pass of the scale-down loop. */
  function Remove(job: Job, s: State, i: int): State {
    var id := job.IdAt(i);
    var s1 := if id in s.taskMap then Drop(s, id, s.taskMap[id]) else s;
    s1.(phase := Down(i - 1))
  }

  function NewlyPlaced(job: Job, i: int, host: string, provided: map<string, nat>): Task {
    NewTask(job.cluster, job.def, job.dep, i).(host := host, providedPorts := provided, scheduled := true)
  }

  /** The record of a placed task says nothing but where it goes and which ports it got. */
  lemma PlacedRecord(job: Job, i: int, host: string, provided: map<string, nat>)
    ensures
      var t := NewlyPlaced(job, i, host, provided);
      && t.cluster == job.cluster && t.deployment == job.dep.name && t.instance == i && t.def == job.def
      && t.host == host && t.providedPorts == provided && t.scheduled && !t.rejected && t.rejectReason == ""
  {
  }

  /** One successful pass of the scale-up loop. */
  function Place(job: Job, s: State, i: int, host: string, provided: map<string, nat>): State
    requires host in s.views && s.phase.Up?
  {
    var t := NewlyPlaced(job, i, host, provided);
    s.(store := s.store[t.Id() := t], taskMap := s.taskMap[t.Id() := t],
       views := s.views[host := Placed(s.views[host], job.def)],
       placed := s.placed + [Put(i, host)], phase := Up(i + 1, s.phase.kept))
  }

  /** Every port the definition leaves open, and no other, is provided with a port in range that
      is not reserved on the host. */
  ghost predicate Provides(def: TaskDefinition, v: HostView, provided: map<string, nat>) {
    (forall name :: name in provided <==> name in OpenPorts(def.containers)) && Ports.InRange(provided, v.reserved)
  }

  /** On a task as it is placed every port mapping resolves to a usable host port: its own fixed one,
      or one drawn from the range that the host has not reserved. */
  lemma PlacedTaskResolvesPorts(job: Job, v: HostView, i: int, host: string, provided: map<string, nat>,
                                c: Container, p: PortMapping)
    requires Provides(job.def, v, provided) && c in job.def.containers && p in c.ports
    ensures
      var port := Resolved(p, NewlyPlaced(job, i, host, provided)).host;
      && port != 0
      && if p.host != 0 then port == p.host else Ports.LOW_PORT <= port <= Ports.MAX_PORT && port !in v.reserved
  {
    OpenPortsMember(job.def.containers, p.name);
  }

  function AfterDown(job: Job, s: State): Phase {
    if s.count - s.removed < job.dep.desired then Up(0, s.taskMap) else Done(s.taskMap)
  }

  function AfterCleaning(job: Job, s: State): Phase {
    if s.count - s.removed > job.dep.desired then Down(s.count - s.removed - 1) else AfterDown(job, s)
  }

  ghost predicate Step(job: Job, s: State, s': State) {
    match s.phase
    case Cleaning(todo) =>
      (todo == {} && s' == s.(phase := AfterCleaning(job, s))) ||
      (exists key :: key in todo && key in s.taskMap && s' == Clean(job, s, key))
    case Down(i) =>
      if i > job.dep.desired - 1 then s' == Remove(job, s, i) else s' == s.(phase := AfterDown(job, s))
    case Up(i, kept) =>
      if i >= job.dep.desired then s' == s.(phase := Done(kept))
      else if job.IdAt(i) in s.taskMap then s' == s.(phase := Up(i + 1, kept))
      else exists order :: Enumerates(order, s.views.Keys) && PlaceStep(job, s, i, order, s')
    case Done(_) => false
  }

  /** Instance `i` is missing and the hosts are met in the given order. */
  ghost predicate PlaceStep(job: Job, s: State, i: int, order: seq<string>, s': State)
    requires Enumerates(order, s.views.Keys) && s.phase.Up?
  {
    EnumeratesMembers(order, s.views.Keys);
    var host := Selected(job.dep.scheduler, order, s.views, job.def);
    if host == "" then s' == s.(phase := Up(i + 1, s.phase.kept))
    else
      && host in s.views
      && exists provided :: Provides(job.def, s.views[host], provided) && s' == Place(job, s, i, host, provided)
  }

  ghost predicate StepAt(job: Job, run: seq<State>, k: nat)
    requires k + 1 < |run|
  {
    Step(job, run[k], run[k + 1])
  }

  ghost predicate IsRun(job: Job, run: seq<State>) {
    run != [] && forall k :: 0 <= k < |run| - 1 ==> StepAt(job, run, k)
  }

  ghost function Last(run: seq<State>): State
    requires run != []
  {
    run[|run| - 1]
  }

  lemma PairIsRun(job: Job, s: State, s': State)
    requires Step(job, s, s')
    ensures IsRun(job, [s, s'])
  {
  }

  lemma RunIsPair(job: Job, s: State, s': State)
    requires IsRun(job, [s, s'])
    ensures Step(job, s, s')
  {
    assert StepAt(job, [s, s'], 0);
  }

  lemma RunGoesOn(job: Job, run: seq<State>, s': State)
    requires IsRun(job, run) && Step(job, Last(run), s')
    ensures IsRun(job, run + [s']) && Last(run + [s']) == s' && (run + [s'])[0] == run[0]
  {
    var run' := run + [s'];
    forall k | 0 <= k < |run'| - 1 ensures StepAt(job, run', k) {
      if k < |run| - 1 {
        assert StepAt(job, run, k);
      }
    }
  }

  /** A whole run over the given store and hosts. */
  ghost predicate FullRun(job: Job, store: Tasks, views: map<string, HostView>, run: seq<State>) {
    IsRun(job, run) && run[0] == Start(job, store, views) && Last(run).phase.Done?
  }

  /** What the start has and every step keeps, every state of a run has. */
  lemma Invariant(job: Job, run: seq<State>, p: State -> bool)
    requires IsRun(job, run) && p(run[0])
    requires forall s, s' :: p(s) && Step(job, s, s') ==> p(s')
    ensures forall k :: 0 <= k < |run| ==> p(run[k])
  {
    forall k | 0 <= k < |run| ensures p(run[k]) {
      InvariantAt(job, run, p, k);
    }
  }

  lemma {:induction false} InvariantAt(job: Job, run: seq<State>, p: State -> bool, k: nat)
    requires IsRun(job, run) && k < |run| && p(run[0])
    requires forall s, s' :: p(s) && Step(job, s, s') ==> p(s')
    ensures p(run[k])
  {
    if k > 0 {
      InvariantAt(job, run, p, k - 1);
      assert StepAt(job, run, k - 1);
    }
  }

  // ----- The task map and the store -----

  /** The task map is exactly the deployment's scheduled tasks in the store, and cleanup still has
      before it tasks it has not touched. */
  ghost predicate Agrees(job: Job, s: State) {
    && Keyed(s.store)
    && s.taskMap == Live(job, s.store)
    && (s.phase.Cleaning? ==> s.phase.todo <= s.taskMap.Keys)
  }

  /** Known host and not rejected: cleanup has no reason but age to drop the task. */
  ghost predicate Sound(t: Task, views: map<string, HostView>) {
    t.host in views && !t.rejected
  }

  ghost predicate Old(job: Job, t: Task) {
    t.def.version != job.dep.taskVersion
  }

  ghost predicate Drops(job: Job, s: State, t: Task) {
    !Sound(t, s.views) || (Old(job, t) && s.count - s.removed > job.dep.min)
  }

  /** How many of the three tests hit; the last one sees what the first two have counted. */
  ghost function Hits(job: Job, s: State, t: Task): nat {
    var unsound := (if t.host !in s.views then 1 else 0) + if t.rejected then 1 else 0;
    unsound + if Old(job, t) && s.count - (s.removed + unsound) > job.dep.min then 1 else 0
  }

  /** What a cleanup pass comes to: it drops its task once, whichever of the three tests hit, but counts
      a removal for each test that did. */
  ghost predicate Cleaned(job: Job, s: State, s': State, key: string)
    requires key in s.taskMap && s.phase.Cleaning?
  {
    var t := s.taskMap[key];
    && t.Id() == key && Mine(job, t)
    && s'.views == s.views && s'.placed == s.placed
    && s'.phase == Cleaning(s.phase.todo - {key})
    && (if Drops(job, s, t) then
          && s'.taskMap == s.taskMap - {key} && s'.store == s.store[key := t.(scheduled := false)]
        else
          s'.taskMap == s.taskMap && s'.store == s.store)
    && s'.removed == s.removed + Hits(job, s, t)
  }

  lemma DropAgain(s: State, key: string, t: Task)
    ensures Drop(Drop(s, key, t), key, t) == Drop(s, key, t).(removed := s.removed + 2)
  {
    assert s.taskMap - {key} - {key} == s.taskMap - {key};
  }

  lemma CleanInTotal(job: Job, s: State, key: string)
    requires Agrees(job, s) && s.phase.Cleaning? && key in s.taskMap
    ensures Clean(job, s, key).count == s.count && Cleaned(job, s, Clean(job, s, key), key)
  {
    var t := s.taskMap[key];
    var once := Drop(s, key, t);
    DropAgain(s, key, t);
    DropAgain(once, key, t);
    var s2 := DropUnsound(s, key, t);
    assert s2 == if Sound(t, s.views) then s else once.(removed := s2.removed);
  }

  /** What a scale-down pass comes to. */
  ghost predicate Shrunk(job: Job, s: State, s': State)
    requires s.phase.Down?
  {
    var id := job.IdAt(s.phase.next);
    && s'.views == s.views && s'.placed == s.placed && s'.phase == Down(s.phase.next - 1)
    && (if id in s.taskMap then
          && s.taskMap[id].Id() == id && Mine(job, s.taskMap[id])
          && s'.taskMap == s.taskMap - {id} && s'.removed == s.removed + 1
          && s'.store == s.store[id := s.taskMap[id].(scheduled := false)]
        else
          s'.taskMap == s.taskMap && s'.store == s.store && s'.removed == s.removed)
  }

  /** The instance is placed on a host that matches. */
  ghost predicate PlacedOn(job: Job, s: State, s': State, host: string, provided: map<string, nat>)
    requires s.phase.Up?
  {
    && job.IdAt(s.phase.next) !in s.taskMap
    && host in s.views && Matches(s.views[host], job.def) && Provides(job.def, s.views[host], provided)
    && s' == Place(job, s, s.phase.next, host, provided)
  }

  /** The instance is there already, or no host can take it. */
  ghost predicate Passed(job: Job, s: State, s': State)
    requires s.phase.Up?
  {
    && s' == s.(phase := Up(s.phase.next + 1, s.phase.kept))
    && (job.IdAt(s.phase.next) in s.taskMap || "" in s.views
        || forall h :: h in s.views ==> !Matches(s.views[h], job.def))
  }

  /** What one step comes to. */
  ghost predicate Moves(job: Job, s: State, s': State) {
    s'.count == s.count &&
    match s.phase
    case Cleaning(todo) =>
      if todo == {} then s' == s.(phase := AfterCleaning(job, s))
      else exists key :: key in todo && key in s.taskMap && Cleaned(job, s, s', key)
    case Down(i) =>
      if i > job.dep.desired - 1 then Shrunk(job, s, s') else s' == s.(phase := AfterDown(job, s))
    case Up(i, kept) =>
      if i >= job.dep.desired then s' == s.(phase := Done(kept))
      else Passed(job, s, s') || exists host, provided :: PlacedOn(job, s, s', host, provided)
    case Done(_) => false
  }

  lemma PlaceStepMoves(job: Job, s: State, order: seq<string>, s': State)
    requires s.phase.Up? && job.IdAt(s.phase.next) !in s.taskMap
    requires Enumerates(order, s.views.Keys) && PlaceStep(job, s, s.phase.next, order, s')
    ensures s'.count == s.count
    ensures Passed(job, s, s') || exists host, provided :: PlacedOn(job, s, s', host, provided)
  {
    EnumeratesMembers(order, s.views.Keys);
    var host := Selected(job.dep.scheduler, order, s.views, job.def);
    FirstMatchSound(Rank(Scored(RankerOf(job.dep.scheduler), order, s.views)), s.views, job.def);
    if host == "" {
      if "" !in s.views {
        SelectionSoundAndComplete(job.dep.scheduler, order, s.views, job.def);
      }
    } else {
      var provided :| Provides(job.def, s.views[host], provided) && s' == Place(job, s, s.phase.next, host, provided);
      assert PlacedOn(job, s, s', host, provided);
    }
  }

  lemma StepMoves(job: Job, s: State, s': State)
    requires Agrees(job, s) && Step(job, s, s')
    ensures Moves(job, s, s')
  {
    match s.phase
    case Cleaning(todo) =>
      if todo != {} {
        var key :| key in todo && key in s.taskMap && s' == Clean(job, s, key);
        CleanInTotal(job, s, key);
      }
    case Down(i) =>
    case Up(i, kept) =>
      if i < job.dep.desired && job.IdAt(i) !in s.taskMap {
        var order :| Enumerates(order, s.views.Keys) && PlaceStep(job, s, i, order, s');
        PlaceStepMoves(job, s, order, s');
      }
    case Done(_) =>
  }

  lemma UnscheduleAgrees(job: Job, store: Tasks, key: string, t: Task)
    requires Keyed(store) && t.Id() == key && Mine(job, t)
    ensures Keyed(store[key := t.(scheduled := false)])
    ensures Live(job, store[key := t.(scheduled := false)]) == Live(job, store) - {key}
  {
  }

  lemma ScheduleAgrees(job: Job, store: Tasks, key: string, t: Task)
    requires Keyed(store) && t.Id() == key && Mine(job, t) && t.scheduled
    ensures Keyed(store[key := t])
    ensures Live(job, store[key := t]) == Live(job, store)[key := t]
  {
  }

  lemma CleanedAgrees(job: Job, s: State, s': State, key: string)
    requires Agrees(job, s) && s.phase.Cleaning? && key in s.phase.todo && key in s.taskMap
    requires Cleaned(job, s, s', key)
    ensures Agrees(job, s')
  {
    UnscheduleAgrees(job, s.store, key, s.taskMap[key]);
  }

  lemma ShrunkAgrees(job: Job, s: State, s': State)
    requires Agrees(job, s) && s.phase.Down? && Shrunk(job, s, s')
    ensures Agrees(job, s')
  {
    var id := job.IdAt(s.phase.next);
    if id in s.taskMap {
      UnscheduleAgrees(job, s.store, id, s.taskMap[id]);
    }
  }

  lemma PlacedAgrees(job: Job, s: State, s': State, host: string, provided: map<string, nat>)
    requires Agrees(job, s) && s.phase.Up? && PlacedOn(job, s, s', host, provided)
    ensures Agrees(job, s')
  {
    var t := NewlyPlaced(job, s.phase.next, host, provided);
    ScheduleAgrees(job, s.store, t.Id(), t);
  }

  /** After every pass the task map is what a fresh listing of the store would give. */
  lemma StepAgrees(job: Job, s: State, s': State)
    requires Agrees(job, s) && Moves(job, s, s')
    ensures Agrees(job, s')
  {
    if s.phase.Cleaning? && s.phase.todo != {} {
      var key :| key in s.phase.todo && key in s.taskMap && Cleaned(job, s, s', key);
      CleanedAgrees(job, s, s', key);
    } else if s.phase.Down? && s.phase.next > job.dep.desired - 1 {
      ShrunkAgrees(job, s, s');
    } else if s.phase.Up? && s.phase.next < job.dep.desired && !Passed(job, s, s') {
      var host, provided :| PlacedOn(job, s, s', host, provided);
      PlacedAgrees(job, s, s', host, provided);
    }
  }
}
