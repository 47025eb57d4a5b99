/** What the counters of a run say about its task map, and when exactly (scheduler/scheduler.go). */
module Counting {
  import opened Api
  import opened Collections
  import opened Store
  import opened Placement
  import opened Reconcile
  import opened Safety

  ghost predicate RunFrom(job: Job, store: Tasks, views: map<string, HostView>, run: seq<State>) {
    IsRun(job, run) && run[0] == Start(job, store, views)
  }

  /** Nothing has been counted twice. */
  ghost predicate Exact(s: State) {
    s.phase.Cleaning? || s.phase.Down? ==> s.count - s.removed == |s.taskMap|
  }

  /** At most one of the cleanup tests can hit each task. */
  ghost predicate OneReasonEach(job: Job, s0: State) {
    forall key :: key in s0.taskMap ==> OneReason(job, s0, s0.taskMap[key])
  }

  ghost predicate OneReason(job: Job, s0: State, t: Task) {
    && (t.host in s0.views || !t.rejected)
    && (!Sound(t, s0.views) && Old(job, t) ==> |s0.taskMap| - 1 <= job.dep.min)
  }

  /** The most a pass can count: a task of an unknown host, rejected and old is counted three times. */
  lemma CountedThrice(job: Job, s: State, key: string)
    requires Agrees(job, s) && s.phase.Cleaning? && key in s.taskMap
    ensures
      var t, s' := s.taskMap[key], Clean(job, s, key);
      s'.removed == s.removed + 3
      <==> t.host !in s.views && t.rejected && Old(job, t) && s.count - s.removed - 2 > job.dep.min
    ensures Clean(job, s, key).removed != s.removed ==> |Clean(job, s, key).taskMap| == |s.taskMap| - 1
  {
    CleanInTotal(job, s, key);
    WithoutKey(s.taskMap, key);
  }

  ghost predicate ExactSoFar(job: Job, s0: State, s: State) {
    Safe(job, s0, s) && Shrinks(s0, s) && Exact(s) && s.removed >= 0
  }

  lemma CleanedExact(job: Job, s0: State, s: State, s': State, key: string)
    requires OneReasonEach(job, s0) && ExactSoFar(job, s0, s) && s.count == |s0.taskMap|
    requires s.phase.Cleaning? && key in s.taskMap && Cleaned(job, s, s', key) && s'.count == s.count
    ensures Exact(s') && s'.removed >= 0
  {
    assert OneReason(job, s0, s.taskMap[key]);
    WithoutKey(s.taskMap, key);
  }

  lemma ShrunkExact(job: Job, s: State, s': State)
    requires Exact(s) && s.phase.Down? && Shrunk(job, s, s') && s'.count == s.count && s.removed >= 0
    ensures Exact(s') && s'.removed >= 0
  {
    ShrunkByOne(job, s, s');
  }

  lemma MoveExact(job: Job, s0: State, s: State, s': State)
    requires OneReasonEach(job, s0) && ExactSoFar(job, s0, s) && s.count == |s0.taskMap| && Moves(job, s, s')
    ensures Exact(s') && s'.removed >= 0
  {
    if s.phase.Cleaning? && s.phase.todo != {} {
      var key :| key in s.phase.todo && key in s.taskMap && Cleaned(job, s, s', key);
      CleanedExact(job, s0, s, s', key);
    } else if s.phase.Down? && s.phase.next > job.dep.desired - 1 {
      ShrunkExact(job, s, s');
    } else if s.phase.Up? {
      UpNotCounted(job, s, s');
    }
  }

  lemma UpNotCounted(job: Job, s: State, s': State)
    requires s.phase.Up? && Moves(job, s, s')
    ensures Exact(s') && s'.removed == s.removed
  {
  }

  lemma StepExact(job: Job, s0: State, s: State, s': State)
    requires OneReasonEach(job, s0) && ExactSoFar(job, s0, s) && s0.count == |s0.taskMap| && Step(job, s, s')
    ensures ExactSoFar(job, s0, s')
  {
    StepSafe(job, s0, s, s');
    StepMoves(job, s, s');
    StepShrinks(job, s0, s, s');
    MoveExact(job, s0, s, s');
  }

  lemma ExactThroughout(job: Job, store: Tasks, views: map<string, HostView>, run: seq<State>)
    requires Keyed(store) && RunFrom(job, store, views, run) && OneReasonEach(job, run[0])
    ensures Exact(Last(run))
  {
    var s0 := run[0];
    StartFloored(job, store, views);
    forall s, s' | ExactSoFar(job, s0, s) && Step(job, s, s') ensures ExactSoFar(job, s0, s') {
      StepExact(job, s0, s, s');
    }
    Invariant(job, run, s => ExactSoFar(job, s0, s));
  }

  lemma SecondReason(job: Job, s: State, key: string)
    requires Agrees(job, s) && s.phase.Cleaning? && key in s.taskMap && !OneReason(job, s, s.taskMap[key])
    requires s.removed == 0 && s.count == |s.taskMap|
    ensures !Exact(Clean(job, s, key))
  {
    CleanInTotal(job, s, key);
    WithoutKey(s.taskMap, key);
  }

  /** A task with two reasons is counted twice by the run that comes to it first. */
  lemma FirstCountedTwice(job: Job, store: Tasks, views: map<string, HostView>, key: string) returns (run: seq<State>)
    requires Keyed(store) && key in Live(job, store)
    requires !OneReason(job, Start(job, store, views), store[key])
    ensures RunFrom(job, store, views, run) && !Exact(Last(run))
  {
    var s := Start(job, store, views);
    SecondReason(job, s, key);
    run := [s, Clean(job, s, key)];
    PairIsRun(job, s, Clean(job, s, key));
  }

  /** A run that comes first to such a task of three reasons has lost one task and counted three. */
  lemma OneGoneThreeCounted(job: Job, store: Tasks, views: map<string, HostView>, key: string) returns (run: seq<State>)
    requires Keyed(store) && key in Live(job, store) && |Live(job, store)| - 2 > job.dep.min
    requires store[key].host !in views && store[key].rejected && Old(job, store[key])
    ensures RunFrom(job, store, views, run) && Last(run).phase.Cleaning?
    ensures Last(run).removed == 3 && |Last(run).taskMap| == Last(run).count - 1
  {
    var s := Start(job, store, views);
    CountedThrice(job, s, key);
    run := [s, Clean(job, s, key)];
    PairIsRun(job, s, Clean(job, s, key));
  }

  /** Over all runs and orders, `count - removed` is the number of tasks left throughout cleanup and
      scale-down exactly if no task is both homeless and rejected, and none that is either is old while
      there is more than one task above the minimum. */
  lemma CountIsExact(job: Job, store: Tasks, views: map<string, HostView>)
    requires Keyed(store)
    ensures (forall run :: RunFrom(job, store, views, run) ==> Exact(Last(run)))
       <==> OneReasonEach(job, Start(job, store, views))
  {
    var s0 := Start(job, store, views);
    if OneReasonEach(job, s0) {
      forall run | RunFrom(job, store, views, run) ensures Exact(Last(run)) {
        ExactThroughout(job, store, views, run);
      }
    } else {
      var key :| key in s0.taskMap && !OneReason(job, s0, s0.taskMap[key]);
      var run := FirstCountedTwice(job, store, views, key);
    }
  }
}
