/** The run a scheduler follows while it writes, and what that says about its writes
    (scheduler/scheduler.go). */
module Traces {
  import opened Store
  import opened Placement
  import opened Reconcile
  import opened Safety

  /** The run leads from the store and hosts given first to those given last, and what was logged on
      the way are stores of its states. */
  ghost predicate Ran(job: Job, store: Tasks, views: map<string, HostView>, run: seq<State>,
                      log: seq<Tasks>, store': Tasks, views': map<string, HostView>)
  {
    && IsRun(job, run) && run[0] == Start(job, store, views)
    && Last(run).store == store' && Last(run).views == views'
    && Logged(log, run)
  }

  ghost predicate AllAre(log: seq<Tasks>, store: Tasks) {
    forall k :: 0 <= k < |log| ==> log[k] == store
  }

  /** Every table written is the store of some state of the run. */
  ghost predicate Logged(log: seq<Tasks>, run: seq<State>) {
    forall k {:trigger InRun(log[k], run)} :: 0 <= k < |log| ==> InRun(log[k], run)
  }

  ghost predicate InRun(store: Tasks, run: seq<State>) {
    exists j :: 0 <= j < |run| && run[j].store == store
  }

  lemma ExtendRun(job: Job, run: seq<State>, s': State, log: seq<Tasks>, more: seq<Tasks>)
    requires IsRun(job, run) && Step(job, Last(run), s') && Logged(log, run)
    requires AllAre(more, s'.store)
    ensures IsRun(job, run + [s']) && Last(run + [s']) == s' && (run + [s'])[0] == run[0]
    ensures Logged(log + more, run + [s'])
  {
    var run' := run + [s'];
    RunGoesOn(job, run, s');
    forall k | 0 <= k < |log + more| ensures InRun((log + more)[k], run') {
      if k < |log| {
        assert InRun(log[k], run);
        var j :| 0 <= j < |run| && run[j].store == log[k];
        assert run'[j].store == log[k];
      } else {
        assert run'[|run|].store == more[k - |log|];
      }
    }
  }

  lemma CleanStep(job: Job, s: State, key: string)
    requires s.phase.Cleaning? && key in s.phase.todo && key in s.taskMap
    ensures IsRun(job, [s, Clean(job, s, key)])
  {
    PairIsRun(job, s, Clean(job, s, key));
  }

  lemma RemoveStep(job: Job, s: State)
    requires s.phase.Down? && s.phase.next > job.dep.desired - 1
    ensures IsRun(job, [s, Remove(job, s, s.phase.next)])
  {
    PairIsRun(job, s, Remove(job, s, s.phase.next));
  }

  lemma TurnStep(job: Job, s: State, phase: Phase)
    requires Turns(job, s, phase)
    ensures IsRun(job, [s, s.(phase := phase)])
  {
    PairIsRun(job, s, s.(phase := phase));
  }

  /** The run so far and the length of the store's log when it began. */
  datatype Trace = Trace(run: seq<State>, base: nat)
  {
    /** The run has reached `s`, and all that was logged since it began are stores of its states. */
    ghost predicate Follows(job: Job, log: seq<Tasks>, s: State) {
      && IsRun(job, run) && Last(run) == s
      && base <= |log| && Logged(log[base..], run)
    }

    ghost predicate Continues(t: Trace) {
      run != [] && t.run != [] && run[0] == t.run[0] && base == t.base
    }

    ghost function Extend(job: Job, log: seq<Tasks>, s: State, s': State, more: seq<Tasks>): (t: Trace)
      requires Follows(job, log, s) && IsRun(job, [s, s']) && AllAre(more, s'.store)
      ensures t.Continues(this) && t.Follows(job, log + more, s')
    {
      RunIsPair(job, s, s');
      ExtendRun(job, run, s', log[base..], more);
      assert (log + more)[base..] == log[base..] + more;
      Trace(run + [s'], base)
    }

    ghost function ExtendByCleaning(job: Job, log: seq<Tasks>, s: State, key: string, more: seq<Tasks>): (t: Trace)
      requires s.phase.Cleaning? && key in s.phase.todo && key in s.taskMap
      requires Follows(job, log, s) && AllAre(more, Clean(job, s, key).store)
      ensures t.Continues(this) && t.Follows(job, log + more, Clean(job, s, key))
    {
      CleanStep(job, s, key);
      Extend(job, log, s, Clean(job, s, key), more)
    }

    ghost function ExtendByRemoving(job: Job, log: seq<Tasks>, s: State, more: seq<Tasks>): (t: Trace)
      requires s.phase.Down? && s.phase.next > job.dep.desired - 1
      requires Follows(job, log, s) && AllAre(more, Remove(job, s, s.phase.next).store)
      ensures t.Continues(this) && t.Follows(job, log + more, Remove(job, s, s.phase.next))
    {
      RemoveStep(job, s);
      Extend(job, log, s, Remove(job, s, s.phase.next), more)
    }

    /** A step that leaves everything but the phase. */
    ghost function Turn(job: Job, log: seq<Tasks>, s: State, phase: Phase): (t: Trace)
      requires Follows(job, log, s) && Turns(job, s, phase)
      ensures t.Continues(this) && t.Follows(job, log, s.(phase := phase))
    {
      TurnStep(job, s, phase);
      assert log + [] == log;
      Extend(job, log, s, s.(phase := phase), [])
    }
  }

  ghost predicate Turns(job: Job, s: State, phase: Phase) {
    match s.phase
    case Cleaning(todo) => todo == {} && phase == AfterCleaning(job, s)
    case Down(i) => i <= job.dep.desired - 1 && phase == AfterDown(job, s)
    case Up(i, kept) =>
      if i >= job.dep.desired then phase == Done(kept) else job.IdAt(i) in s.taskMap && phase == Up(i + 1, kept)
    case Done(_) => false
  }

  /** Every single write of a run, finished or not, leaves at least min(n, Min) tasks of the deployment
      scheduled, less one for each that was rejected or homeless, keeps every record in its place, and
      touches no record under another cluster-and-deployment name. */
  lemma EveryWriteIsSafe(job: Job, store: Tasks, views: map<string, HostView>, run: seq<State>,
                         log: seq<Tasks>, store': Tasks, views': map<string, HostView>, k: nat)
    requires Keyed(store) && Ran(job, store, views, run, log, store', views') && k < |log|
    requires job.dep.min <= job.dep.desired
    ensures Keyed(log[k])
    ensures |Live(job, log[k])| >= Min(|Live(job, store)|, job.dep.min) - |Unsound(run[0])|
    ensures job.Named() ==> Foreign(job, log[k]) == Foreign(job, store)
  {
    assert InRun(log[k], run);
    var j :| 0 <= j < |run| && run[j].store == log[k];
    SafeThroughout(job, run, j);
    MinimumStaysScheduled(job, run, j);
  }
}
