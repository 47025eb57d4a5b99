/** Scaling a deployment and rescheduling it, over and over (actions/tools.go,
    scheduler/scheduler.go). */
module Scaling {
  import opened Api
  import opened Store
  import opened Placement
  import opened Reconcile
  import opened Safety
  import opened ScaleUp
  import opened Healing

  /** The deployment after `Scale`: the bounds give way to the new number. */
  function Scaled(d: Deployment, desired: int): Deployment {
    d.(min := if desired < d.min then desired else d.min,
       max := if desired > d.max then desired else d.max,
       desired := desired)
  }

  datatype ScaleError = NoService | NotFound

  method Scale(a: MockStore, serviceName: string, desired: int) returns (err: Option<ScaleError>)
    modifies a`deployments
    ensures serviceName == "" ==> err == Some(NoService)
    ensures serviceName != "" && serviceName !in old(a.deployments) ==> err == Some(NotFound)
    ensures err.Some? ==> a.deployments == old(a.deployments)
    ensures err.None? ==>
              && serviceName in old(a.deployments)
              && var d := old(a.deployments)[serviceName];
                 a.deployments == old(a.deployments)[d.name := Scaled(d, desired)]
  {
    if serviceName == "" {
      return Some(NoService);
    }
    if serviceName !in a.deployments {
      return Some(NotFound);
    }
    var deploy := a.deployments[serviceName];
    if desired < deploy.min {
      deploy := deploy.(min := desired);
    }
    if desired > deploy.max {
      deploy := deploy.(max := desired);
    }
    deploy := deploy.(desired := desired);
    a.deployments := a.deployments[deploy.name := deploy];
    return None;
  }

  /** Scaling always leaves the bounds in order, and moves a bound no further than it must. */
  lemma ScaledInRange(d: Deployment, desired: int)
    requires d.min <= d.max
    ensures var d' := Scaled(d, desired); d'.InRange() && d'.desired == desired && d'.min <= d.min && d.max <= d'.max
    ensures var d' := Scaled(d, desired); d.min <= desired <= d.max <==> d'.min == d.min && d'.max == d.max
    ensures var d' := Scaled(d, desired); d'.min == d.min || d'.min == desired < d.min
    ensures var d' := Scaled(d, desired); d'.max == d.max || d'.max == desired > d.max
    ensures Scaled(d, desired) == d.(min := Scaled(d, desired).min, max := Scaled(d, desired).max, desired := desired)
  {
  }

  /** The tasks are the instances below `k`, all current and sound. */
  ghost predicate Prefix(job: Job, m: Tasks, k: nat, views: map<string, HostView>) {
    Contiguous(job, m, k) && forall id :: id in m ==> Fresh(job, m[id], views)
  }

  ghost predicate Contiguous(job: Job, m: Tasks, k: nat) {
    AllInstances(job, m, k) && forall j :: 0 <= j < k ==> job.IdAt(j) in m
  }

  ghost predicate Scales(job: Job, k: nat, s0: State, s: State) {
    s.count == k &&
    match s.phase
    case Cleaning(_) => s.removed == 0 && s.taskMap == s0.taskMap && s.views == s0.views
    case Down(i) =>
      && job.dep.desired - 1 <= i < k && s.removed == k - Above(i)
      && Contiguous(job, s.taskMap, Above(i)) && Within(s.taskMap, s0.taskMap)
    case Up(_, kept) => s.removed == 0 && k < job.dep.desired && kept == s0.taskMap
    case Done(kept) =>
      if k < job.dep.desired then s.removed == 0 && kept == s0.taskMap
      else
        var left := Above(job.dep.desired - 1);
        s.count - s.removed == left && Contiguous(job, kept, left) && Within(kept, s0.taskMap)
  }

  /** The number of instances up to and including `i`. */
  function Above(i: int): nat {
    if i < 0 then 0 else i + 1
  }

  lemma ContiguousCount(job: Job, m: Tasks, k: nat)
    requires Contiguous(job, m, k)
    ensures |m| == k
  {
    InstancesCount(job, m, k);
    assert MissingBelow(job, m, k) == {};
  }

  lemma RemoveTop(job: Job, m: Tasks, i: int)
    requires Contiguous(job, m, Above(i))
    ensures Contiguous(job, m - {job.IdAt(i)}, Above(i - 1))
    ensures job.IdAt(i) in m <==> i >= 0
  {
    IdsDiffer(job, i);
    if i >= 0 {
      WithoutTop(job, m, i);
    } else {
      NoInstances(job, m);
    }
  }

  lemma ShrunkScales(job: Job, k: nat, s0: State, s: State, s': State)
    requires Scales(job, k, s0, s) && s.phase.Down? && s.phase.next > job.dep.desired - 1
    requires Shrunk(job, s, s') && s'.count == s.count
    ensures Scales(job, k, s0, s')
  {
    var i := s.phase.next;
    RemoveTop(job, s.taskMap, i);
    if i < 0 {
      assert s.taskMap - {job.IdAt(i)} == s.taskMap;
    }
  }

  lemma CleaningScales(job: Job, k: nat, s0: State, s: State, s': State)
    requires Prefix(job, s0.taskMap, k, s0.views) && Scales(job, k, s0, s) && s.phase.Cleaning? && Moves(job, s, s')
    ensures Scales(job, k, s0, s')
  {
    if s.phase.todo != {} {
      var key :| key in s.phase.todo && key in s.taskMap && Cleaned(job, s, s', key);
      assert !Drops(job, s, s.taskMap[key]);
    }
  }

  lemma UpScales(job: Job, k: nat, s0: State, s: State, s': State)
    requires Scales(job, k, s0, s) && s.phase.Up? && Moves(job, s, s')
    ensures Scales(job, k, s0, s')
  {
    var host, provided := UpCases(job, s, s');
  }

  lemma StepScales(job: Job, k: nat, s0: State, s: State, s': State)
    requires Prefix(job, s0.taskMap, k, s0.views) && Scales(job, k, s0, s) && Moves(job, s, s')
    ensures Scales(job, k, s0, s')
  {
    if s.phase.Cleaning? {
      CleaningScales(job, k, s0, s, s');
    } else if s.phase.Up? {
      UpScales(job, k, s0, s, s');
    } else if s.phase.Down? && s.phase.next > job.dep.desired - 1 {
      ShrunkScales(job, k, s0, s, s');
    }
  }

  lemma ScalesThroughout(job: Job, k: nat, run: seq<State>, n: nat)
    requires IsRun(job, run) && n < |run| && Prefix(job, run[0].taskMap, k, run[0].views)
    requires Keyed(run[0].store) && run[0] == Start(job, run[0].store, run[0].views)
    ensures Scales(job, k, run[0], run[n])
  {
    var s0 := run[0];
    ContiguousCount(job, s0.taskMap, k);
    forall s, s' | (Agrees(job, s) && Scales(job, k, s0, s)) && Step(job, s, s')
      ensures Agrees(job, s') && Scales(job, k, s0, s')
    {
      StepMoves(job, s, s');
      StepAgrees(job, s, s');
      StepScales(job, k, s0, s, s');
    }
    Invariant(job, run, s => Agrees(job, s) && Scales(job, k, s0, s));
  }

  /** The least missing instance, from `i` on. */
  lemma {:induction false} FirstMissing(job: Job, m: Tasks, i: nat) returns (j: nat)
    requires i <= job.dep.desired && forall n :: 0 <= n < i ==> job.IdAt(n) in m
    ensures j <= job.dep.desired && forall n :: 0 <= n < j ==> job.IdAt(n) in m
    ensures j < job.dep.desired ==> job.IdAt(j) !in m
    decreases job.dep.desired - i
  {
    if i == job.dep.desired || job.IdAt(i) !in m {
      j := i;
    } else {
      j := FirstMissing(job, m, i + 1);
    }
  }

  lemma GrownPrefix(job: Job, s: State, k: nat, kept: Tasks, views: map<string, HostView>) returns (k': nat)
    requires s.phase == Done(kept) && k < job.dep.desired && s.count - s.removed < job.dep.desired && Filled(job, s)
    requires Prefix(job, kept, k, views) && s.views.Keys == views.Keys
    ensures Prefix(job, s.taskMap, k', views) && k <= k' <= job.dep.desired
    ensures k' == job.dep.desired <==> Missing(job, s.taskMap) == {}
  {
    k' := FirstMissing(job, s.taskMap, k);
    forall id | id in s.taskMap ensures IsInstance(job, id, k') {
      GrownInstance(job, s, k, k', kept, id);
    }
    if k' < job.dep.desired {
      assert k' in Missing(job, s.taskMap);
    }
  }

  lemma GrownInstance(job: Job, s: State, k: nat, k': nat, kept: Tasks, id: string)
    requires Filling(job, s, job.dep.desired, kept) && Contiguous(job, kept, k) && k <= k' <= job.dep.desired
    requires k' < job.dep.desired ==> job.IdAt(k') !in s.taskMap
    requires id in s.taskMap
    ensures IsInstance(job, id, k')
  {
    if id in kept {
      assert IsInstance(job, id, k);
    } else {
      assert IsInstance(job, id, job.dep.desired);
      var j :| 0 <= j < job.dep.desired && job.IdAt(j) == id;
      assert j <= k';
    }
  }

  /** From the instances below `k`, one run ends with the instances below some `k'`: the desired
      number when scaling down, and when scaling up too exactly if capacity suffices. */
  lemma OneRunScales(job: Job, store: Tasks, views: map<string, HostView>, run: seq<State>, k: nat) returns (k': nat)
    requires Keyed(store) && FullRun(job, store, views, run) && Proper(job, views)
    requires Prefix(job, run[0].taskMap, k, views)
    ensures Prefix(job, Last(run).taskMap, k', views) && Last(run).taskMap == Live(job, Last(run).store)
    ensures k >= job.dep.desired ==> k' == Above(job.dep.desired - 1)
    ensures k < job.dep.desired ==> k <= k' <= job.dep.desired
    ensures k < job.dep.desired ==> (k' == job.dep.desired <==> Capacity(views, job.def, job.dep.desired - k))
  {
    ScalesThroughout(job, k, run, |run| - 1);
    FilledThroughout(job, run, |run| - 1);
    var s, kept := Last(run), Last(run).phase.kept;
    if k < job.dep.desired {
      FillingFits(job, store, views, run);
      k' := GrownPrefix(job, s, k, kept, views);
      PrefixMissing(job, kept, k);
    } else {
      k' := Above(job.dep.desired - 1);
    }
  }

  lemma PrefixMissing(job: Job, m: Tasks, k: nat)
    requires Contiguous(job, m, k) && k <= job.dep.desired
    ensures |Missing(job, m)| == job.dep.desired - k
  {
    forall id | id in m ensures IsInstance(job, id, job.dep.desired) {
      assert IsInstance(job, id, k);
    }
    InstancesCount(job, m, job.dep.desired);
    ContiguousCount(job, m, k);
  }

  /** One call of `Scale` and the run that follows it. */
  datatype Round = Round(desired: int, store: Tasks, views: map<string, HostView>, run: seq<State>)

  function ScaledJob(job: Job, desired: int): Job {
    job.(dep := Scaled(job.dep, desired))
  }

  /** The round starts from the scheduled tasks that `s` left and knows at least its hosts; what the
      hosts offer may have changed. */
  ghost predicate Follows(job: Job, s: State, r: Round) {
    && Keyed(r.store) && Live(job, r.store) == s.taskMap
    && s.views.Keys <= r.views.Keys && "" !in r.views
    && FullRun(ScaledJob(job, r.desired), r.store, r.views, r.run)
  }

  ghost predicate Rounds(job: Job, s: State, rounds: seq<Round>)
    decreases |rounds|
  {
    rounds == [] ||
    (Follows(job, s, rounds[0]) && Rounds(ScaledJob(job, rounds[0].desired), Last(rounds[0].run), rounds[1..]))
  }

  ghost function FinalState(s: State, rounds: seq<Round>): State
    decreases |rounds|
  {
    if rounds == [] || rounds[0].run == [] then s else FinalState(Last(rounds[0].run), rounds[1..])
  }

  function FinalJob(job: Job, rounds: seq<Round>): Job
    decreases |rounds|
  {
    if rounds == [] then job else FinalJob(ScaledJob(job, rounds[0].desired), rounds[1..])
  }

  lemma PrefixOfScaled(job: Job, desired: int, m: Tasks, k: nat, views: map<string, HostView>, more: map<string,
                       HostView>)
    requires Prefix(job, m, k, views) && views.Keys <= more.Keys
    ensures Prefix(ScaledJob(job, desired), m, k, more)
  {
    var job' := ScaledJob(job, desired);
    assert forall j :: job'.IdAt(j) == job.IdAt(j);
    forall id | id in m ensures IsInstance(job', id, k) {
      assert IsInstance(job, id, k);
    }
  }

  /** A round that found `k` tasks leaves `k'`: the desired number when scaling down, and when scaling up
      exactly if its hosts have room for the instances still missing. */
  ghost predicate Reaches(job: Job, r: Round, k: nat, k': nat) {
    if k >= r.desired then k' == Above(r.desired - 1)
    else k <= k' <= r.desired && (k' == r.desired <==> Capacity(r.views, job.def, r.desired - k))
  }

  /** The last round does so, whatever number of tasks it found. */
  ghost predicate LastReaches(job: Job, rounds: seq<Round>, k': nat) {
    rounds == [] ||
    (rounds[|rounds| - 1].run != [] &&
     Reaches(job, rounds[|rounds| - 1], |rounds[|rounds| - 1].run[0].taskMap|, k'))
  }

  lemma StartOfRound(job: Job, s: State, r: Round)
    requires Follows(job, s, r)
    ensures r.run[0].taskMap == s.taskMap && r.run[0].views == r.views
  {
    assert Live(ScaledJob(job, r.desired), r.store) == Live(job, r.store);
  }

  lemma HostsStay(job: Job, store: Tasks, views: map<string, HostView>, run: seq<State>)
    requires Keyed(store) && FullRun(job, store, views, run)
    ensures Last(run).views.Keys == views.Keys
  {
    SafeThroughout(job, run, |run| - 1);
  }

  lemma OneRound(job: Job, s: State, r: Round, k: nat) returns (k': nat)
    requires Follows(job, s, r) && Prefix(job, s.taskMap, k, s.views) && job.def.version == job.dep.taskVersion
    ensures r.run != [] && Prefix(ScaledJob(job, r.desired), Last(r.run).taskMap, k', Last(r.run).views)
    ensures |r.run[0].taskMap| == k && Reaches(job, r, k, k')
  {
    var job' := ScaledJob(job, r.desired);
    PrefixOfScaled(job, r.desired, s.taskMap, k, s.views, r.views);
    ContiguousCount(job, s.taskMap, k);
    StartOfRound(job, s, r);
    k' := OneRunScales(job', r.store, r.views, r.run, k);
    HostsStay(job', r.store, r.views, r.run);
  }

  lemma {:induction false} RoundsKeepRange(job: Job, rounds: seq<Round>)
    requires job.dep.InRange()
    ensures FinalJob(job, rounds).dep.InRange()
    decreases |rounds|
  {
    if rounds != [] {
      RoundsKeepRange(ScaledJob(job, rounds[0].desired), rounds[1..]);
    }
  }

  /** Over any sequence of rounds, even where capacity runs out, the scheduled tasks stay a prefix of
      the instances and the bounds of the deployment stay in order; the last round ends with exactly the
      desired ones when scaling down, and when scaling up exactly if its hosts have room for those that
      were missing. */
  lemma RoundsKeepPrefix(job: Job, s: State, rounds: seq<Round>, k: nat) returns (k': nat)
    requires Rounds(job, s, rounds) && Prefix(job, s.taskMap, k, s.views)
    requires job.def.version == job.dep.taskVersion && job.dep.InRange()
    ensures Prefix(FinalJob(job, rounds), FinalState(s, rounds).taskMap, k', FinalState(s, rounds).views)
    ensures FinalJob(job, rounds).dep.InRange()
    ensures rounds == [] ==> k' == k
    ensures LastReaches(job, rounds, k')
  {
    RoundsKeepRange(job, rounds);
    k' := RoundByRound(job, s, rounds, k);
  }

  lemma {:induction false} RoundByRound(job: Job, s: State, rounds: seq<Round>, k: nat) returns (k': nat)
    requires Rounds(job, s, rounds) && Prefix(job, s.taskMap, k, s.views) && job.def.version == job.dep.taskVersion
    ensures Prefix(FinalJob(job, rounds), FinalState(s, rounds).taskMap, k', FinalState(s, rounds).views)
    ensures rounds == [] ==> k' == k
    ensures LastReaches(job, rounds, k')
    decreases |rounds|, 1
  {
    k' := k;
    if rounds != [] {
      k' := OneRound(job, s, rounds[0], k);
      k' := LaterRounds(job, s, rounds, k');
    }
  }

  lemma LaterRounds(job: Job, s: State, rounds: seq<Round>, k: nat) returns (k': nat)
    requires rounds != [] && Rounds(job, s, rounds) && rounds[0].run != [] && job.def.version == job.dep.taskVersion
    requires Prefix(ScaledJob(job, rounds[0].desired), Last(rounds[0].run).taskMap, k, Last(rounds[0].run).views)
    requires Reaches(job, rounds[0], |rounds[0].run[0].taskMap|, k)
    ensures Prefix(FinalJob(job, rounds), FinalState(s, rounds).taskMap, k', FinalState(s, rounds).views)
    ensures LastReaches(job, rounds, k')
    decreases |rounds|, 0
  {
    RoundsLater(job, s, rounds);
    k' := RoundByRound(ScaledJob(job, rounds[0].desired), Last(rounds[0].run), rounds[1..], k);
    LastOfLater(job, rounds, k');
  }

  lemma RoundsLater(job: Job, s: State, rounds: seq<Round>)
    requires rounds != [] && Rounds(job, s, rounds) && rounds[0].run != []
    ensures
      var job', s' := ScaledJob(job, rounds[0].desired), Last(rounds[0].run);
      && Rounds(job', s', rounds[1..])
      && FinalJob(job, rounds) == FinalJob(job', rounds[1..]) && FinalState(s, rounds) == FinalState(s', rounds[1..])
  {
  }

  lemma LastOfLater(job: Job, rounds: seq<Round>, k: nat)
    requires rounds != [] && LastReaches(ScaledJob(job, rounds[0].desired), rounds[1..], k)
    ensures |rounds| == 1 || LastReaches(job, rounds, k)
  {
    if |rounds| > 1 {
      assert rounds[1..][|rounds| - 2] == rounds[|rounds| - 1];
    }
  }
}
