/** Scale-down visits only the instances below the number of tasks (scheduler/scheduler.go). */
module ScaleDown {
  import opened Store
  import opened Placement
  import opened Reconcile
  import opened Safety
  import opened ScaleUp

  /** All tasks are sound and current, in whatever instances, and there are too many of them. */
  ghost predicate Surplus(job: Job, s0: State) {
    && |s0.taskMap| > job.dep.desired
    && forall key :: key in s0.taskMap ==> Sound(s0.taskMap[key], s0.views) && !Old(job, s0.taskMap[key])
  }

  ghost predicate IsBetween(job: Job, id: string, lo: int, hi: int) {
    exists i :: lo <= i < hi && job.IdAt(i) == id
  }

  /** The tasks but for the instances from `lo` up to `hi`. */
  ghost function Outside(job: Job, m: Tasks, lo: int, hi: int): Tasks {
    map id | id in m && !IsBetween(job, id, lo, hi) :: m[id]
  }

  ghost predicate AllBetween(job: Job, m: Tasks, lo: int, hi: int) {
    forall i :: lo <= i < hi ==> job.IdAt(i) in m
  }

  function Present(job: Job, m: Tasks, lo: int, hi: int): nat
    decreases hi - lo
  {
    if lo >= hi then 0 else (if job.IdAt(lo) in m then 1 else 0) + Present(job, m, lo + 1, hi)
  }

  lemma {:induction false} AllPresent(job: Job, m: Tasks, lo: int, hi: int)
    requires lo <= hi
    ensures Present(job, m, lo, hi) <= hi - lo
    ensures Present(job, m, lo, hi) == hi - lo <==> AllBetween(job, m, lo, hi)
    decreases hi - lo
  {
    if lo < hi {
      AllPresent(job, m, lo + 1, hi);
    }
  }

  lemma OneMoreOutside(job: Job, m: Tasks, i: int, hi: int)
    requires i < hi
    ensures Outside(job, m, i, hi) == Outside(job, m, i + 1, hi) - {job.IdAt(i)}
    ensures job.IdAt(i) in m <==> job.IdAt(i) in Outside(job, m, i + 1, hi)
  {
    IdsDiffer(job, i);
    forall id ensures IsBetween(job, id, i, hi) <==> id == job.IdAt(i) || IsBetween(job, id, i + 1, hi) {
    }
    assert !IsBetween(job, job.IdAt(i), i + 1, hi);
  }

  /** The surplus instances above `i` are gone, and each was counted once. */
  ghost predicate Lowered(job: Job, s0: State, s: State, i: int) {
    var n := |s0.taskMap|;
    && s.taskMap == Outside(job, s0.taskMap, i + 1, n)
    && s.removed == Present(job, s0.taskMap, i + 1, n)
    && |s.taskMap| == n - s.removed
  }

  ghost predicate Lowers(job: Job, s0: State, s: State) {
    s.count == |s0.taskMap| &&
    match s.phase
    case Cleaning(_) => s.removed == 0 && s.taskMap == s0.taskMap && s.views == s0.views
    case Down(i) => job.dep.desired - 1 <= i < |s0.taskMap| && Lowered(job, s0, s, i)
    case Up(_, _) => false
    case Done(_) => Lowered(job, s0, s, job.dep.desired - 1)
  }

  lemma ShrunkLowers(job: Job, s0: State, s: State, s': State)
    requires Lowers(job, s0, s) && s.phase.Down? && s.phase.next > job.dep.desired - 1
    requires Shrunk(job, s, s') && s'.count == s.count
    ensures Lowers(job, s0, s')
  {
    var i := s.phase.next;
    OneMoreOutside(job, s0.taskMap, i, |s0.taskMap|);
    ShrunkByOne(job, s, s');
    assert s'.taskMap == s.taskMap - {job.IdAt(i)};
  }

  lemma CleanedLowers(job: Job, s0: State, s: State, s': State, key: string)
    requires Surplus(job, s0) && Lowers(job, s0, s) && s.phase.Cleaning? && s'.count == s.count
    requires key in s.phase.todo && key in s.taskMap && Cleaned(job, s, s', key)
    ensures Lowers(job, s0, s')
  {
    assert !Drops(job, s, s.taskMap[key]);
  }

  lemma CleaningDoneLowers(job: Job, s0: State, s: State, s': State)
    requires Surplus(job, s0) && Lowers(job, s0, s) && s.phase.Cleaning? && s' == s.(phase := AfterCleaning(job, s))
    ensures Lowers(job, s0, s')
  {
    var n := |s0.taskMap|;
    assert Outside(job, s0.taskMap, n, n) == s0.taskMap;
  }

  lemma DownDoneLowers(job: Job, s0: State, s: State, s': State)
    requires Surplus(job, s0) && Lowers(job, s0, s) && s.phase.Down? && s.phase.next <= job.dep.desired - 1
    requires s' == s.(phase := AfterDown(job, s))
    ensures Lowers(job, s0, s')
  {
    AllPresent(job, s0.taskMap, job.dep.desired, |s0.taskMap|);
  }

  lemma StepLowers(job: Job, s0: State, s: State, s': State)
    requires Surplus(job, s0) && Lowers(job, s0, s) && Moves(job, s, s')
    ensures Lowers(job, s0, s')
  {
    if s.phase.Cleaning? && s.phase.todo == {} {
      CleaningDoneLowers(job, s0, s, s');
    } else if s.phase.Cleaning? {
      var key :| key in s.phase.todo && key in s.taskMap && Cleaned(job, s, s', key);
      CleanedLowers(job, s0, s, s', key);
    } else if s.phase.next > job.dep.desired - 1 {
      ShrunkLowers(job, s0, s, s');
    } else {
      DownDoneLowers(job, s0, s, s');
    }
  }

  lemma LowersThroughout(job: Job, run: seq<State>, k: nat)
    requires IsRun(job, run) && k < |run| && Surplus(job, run[0])
    requires Keyed(run[0].store) && run[0] == Start(job, run[0].store, run[0].views)
    ensures Agrees(job, run[k]) && Lowers(job, run[0], run[k])
  {
    var s0 := run[0];
    forall s, s' | (Agrees(job, s) && Lowers(job, s0, s)) && Step(job, s, s')
      ensures Agrees(job, s') && Lowers(job, s0, s')
    {
      StepMoves(job, s, s');
      StepAgrees(job, s, s');
      StepLowers(job, s0, s, s');
    }
    Invariant(job, run, s => Agrees(job, s) && Lowers(job, s0, s));
  }

  lemma LoweredToDesired(job: Job, s0: State, s: State)
    requires Surplus(job, s0) && Lowered(job, s0, s, job.dep.desired - 1)
    ensures s.taskMap == Outside(job, s0.taskMap, job.dep.desired, |s0.taskMap|)
    ensures |s.taskMap| <= job.dep.desired <==> AllBetween(job, s0.taskMap, job.dep.desired, |s0.taskMap|)
  {
    AllPresent(job, s0.taskMap, job.dep.desired, |s0.taskMap|);
  }

  /** From n sound current tasks, more than desired, one run removes exactly the instances from the desired
      number up to n, and so leaves no more than desired exactly if all of those instances are there. */
  lemma OneRunScalesDown(job: Job, store: Tasks, views: map<string, HostView>, run: seq<State>)
    requires Keyed(store) && FullRun(job, store, views, run) && Surplus(job, run[0])
    ensures
      var m0, m := run[0].taskMap, Last(run).taskMap;
      && m == Live(job, Last(run).store)
      && m == Outside(job, m0, job.dep.desired, |m0|)
      && (|m| <= job.dep.desired <==> AllBetween(job, m0, job.dep.desired, |m0|))
  {
    LowersThroughout(job, run, |run| - 1);
    LoweredToDesired(job, run[0], Last(run));
  }
}
