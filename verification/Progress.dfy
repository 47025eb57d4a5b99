/** Every run ends, and there is one (scheduler/scheduler.go). */
module Progress {
  import opened Api
  import opened Store
  import opened Placement
  import opened Rankers
  import opened Reconcile
  import opened Safety
  import Ports

  function Rest(a: int, b: int): nat {
    if a >= b then a - b else 0
  }

  /** A bound on the passes still to come. */
  ghost function PassesLeft(job: Job, s: State): nat {
    match s.phase
    case Cleaning(todo) => |todo| + Rest(s.count - s.removed, job.dep.desired) + Rest(job.dep.desired, 0) + 3
    case Down(i) => Rest(i + 1, job.dep.desired) + Rest(job.dep.desired, 0) + 2
    case Up(i, _) => Rest(job.dep.desired, i) + 1
    case Done(_) => 0
  }

  lemma DroppingPasses(job: Job, s: State, s': State, key: string)
    requires s.phase.Cleaning? && key in s.phase.todo && key in s.taskMap
    requires Cleaned(job, s, s', key) && s'.count == s.count
    ensures PassesLeft(job, s') < PassesLeft(job, s)
  {
    assert s.phase.todo == (s.phase.todo - {key}) + {key};
  }

  lemma CleaningPasses(job: Job, s: State, s': State)
    requires s.phase.Cleaning? && Moves(job, s, s')
    ensures PassesLeft(job, s') < PassesLeft(job, s)
  {
    if s.phase.todo != {} {
      var key :| key in s.phase.todo && key in s.taskMap && Cleaned(job, s, s', key);
      DroppingPasses(job, s, s', key);
    } else {
      assert s'.phase == AfterCleaning(job, s);
    }
  }

  lemma PlacingPasses(job: Job, s: State, s': State)
    requires s.phase.Up? && Moves(job, s, s')
    ensures PassesLeft(job, s') < PassesLeft(job, s)
  {
  }

  lemma StepPasses(job: Job, s: State, s': State)
    requires Moves(job, s, s')
    ensures PassesLeft(job, s') < PassesLeft(job, s)
  {
    if s.phase.Cleaning? {
      CleaningPasses(job, s, s');
    } else if s.phase.Up? {
      PlacingPasses(job, s, s');
    }
  }

  lemma StepInRunPasses(job: Job, run: seq<State>, k: nat)
    requires IsRun(job, run) && k + 1 < |run|
    requires Keyed(run[0].store) && run[0] == Start(job, run[0].store, run[0].views)
    ensures PassesLeft(job, run[k + 1]) < PassesLeft(job, run[k])
  {
    SafeThroughout(job, run, k);
    assert StepAt(job, run, k);
    StepMoves(job, run[k], run[k + 1]);
    StepPasses(job, run[k], run[k + 1]);
  }

  /** Every run ends: it is no longer than its task map, its surplus and the desired number allow. */
  lemma {:induction false} RunsAreBounded(job: Job, run: seq<State>, k: nat)
    requires IsRun(job, run) && k < |run|
    requires Keyed(run[0].store) && run[0] == Start(job, run[0].store, run[0].views)
    ensures k + PassesLeft(job, run[k]) <= PassesLeft(job, run[0])
  {
    if k > 0 {
      RunsAreBounded(job, run, k - 1);
      StepInRunPasses(job, run, k - 1);
    }
  }

  // ----- Runs go on -----

  /** There is a port to provide. */
  ghost predicate HasFreePort(v: HostView) {
    exists p: nat :: Ports.LOW_PORT <= p <= Ports.MAX_PORT && p !in v.reserved
  }

  /** There is no port to draw, or every host that matches has a free one. */
  ghost predicate Drawable(def: TaskDefinition, views: map<string, HostView>) {
    OpenPorts(def.containers) == [] || forall h :: h in views && Matches(views[h], def) ==> HasFreePort(views[h])
  }

  lemma SomePorts(def: TaskDefinition, v: HostView) returns (provided: map<string, nat>)
    requires OpenPorts(def.containers) == [] || HasFreePort(v)
    ensures Provides(def, v, provided)
  {
    var names := OpenPorts(def.containers);
    if names == [] {
      provided := map[];
    } else {
      var p: nat :| Ports.LOW_PORT <= p <= Ports.MAX_PORT && p !in v.reserved;
      provided := map name | name in names :: p;
    }
  }

  lemma {:induction false} SomeOrder(keys: set<string>) returns (order: seq<string>)
    ensures Enumerates(order, keys)
  {
    if keys == {} {
      order := [];
    } else {
      var n :| n in keys;
      order := SomeOrder(keys - {n});
      assert keys == keys - {n} + {n};
      order := order + [n];
    }
  }

  lemma NextPlacement(job: Job, s: State) returns (s': State)
    requires s.phase.Up? && s.phase.next < job.dep.desired && job.IdAt(s.phase.next) !in s.taskMap
    requires Drawable(job.def, s.views)
    ensures Step(job, s, s')
  {
    var order := SomeOrder(s.views.Keys);
    EnumeratesMembers(order, s.views.Keys);
    var host := Selected(job.dep.scheduler, order, s.views, job.def);
    FirstMatchSound(Rank(Scored(RankerOf(job.dep.scheduler), order, s.views)), s.views, job.def);
    if host == "" {
      s' := s.(phase := Up(s.phase.next + 1, s.phase.kept));
    } else {
      var provided := SomePorts(job.def, s.views[host]);
      s' := Place(job, s, s.phase.next, host, provided);
    }
    assert PlaceStep(job, s, s.phase.next, order, s');
  }

  lemma NextStep(job: Job, s: State) returns (s': State)
    requires Agrees(job, s) && !s.phase.Done? && Drawable(job.def, s.views)
    ensures Step(job, s, s')
  {
    match s.phase
    case Cleaning(todo) =>
      if todo == {} {
        s' := s.(phase := AfterCleaning(job, s));
      } else {
        var key :| key in todo;
        s' := Clean(job, s, key);
      }
    case Down(i) =>
      s' := if i > job.dep.desired - 1 then Remove(job, s, i) else s.(phase := AfterDown(job, s));
    case Up(i, kept) =>
      if i >= job.dep.desired {
        s' := s.(phase := Done(kept));
      } else if job.IdAt(i) in s.taskMap {
        s' := s.(phase := Up(i + 1, kept));
      } else {
        s' := NextPlacement(job, s);
      }
  }

  /** A host that has taken copies and still matches has the ports reserved that it had. */
  lemma MatchingHostKeepsPorts(before: HostView, def: TaskDefinition, n: nat)
    requires Matches(Copies(before, def, n), def)
    ensures forall p :: p in Copies(before, def, n).reserved <==> p in before.reserved
  {
    CopiesInTotal(before, def, n);
    var fixed := FixedPorts(def.containers);
    if n > 0 && fixed != [] {
      assert fixed[0] in fixed;
      assert fixed[0] in Copies(before, def, n).reserved;
    }
  }

  lemma StaysDrawable(job: Job, s0: State, s: State)
    requires Carries(job, s0, s)
    requires OpenPorts(job.def.containers) == [] || forall h :: h in s0.views ==> HasFreePort(s0.views[h])
    ensures Drawable(job.def, s.views)
  {
    forall h | h in s.views && Matches(s.views[h], job.def) && OpenPorts(job.def.containers) != []
      ensures HasFreePort(s.views[h])
    {
      var n := HostsOf(s.placed)[h];
      MatchingHostKeepsPorts(s0.views[h], job.def, n);
      var p: nat :| Ports.LOW_PORT <= p <= Ports.MAX_PORT && p !in s0.views[h].reserved;
      assert p !in s.views[h].reserved;
    }
  }

  /** From any store and hosts, as long as every host has a free port or none is to be drawn, there is a
      run that ends. */
  lemma SomeRunEnds(job: Job, store: Tasks, views: map<string, HostView>) returns (run: seq<State>)
    requires Keyed(store)
    requires OpenPorts(job.def.containers) == [] || forall h :: h in views ==> HasFreePort(views[h])
    ensures FullRun(job, store, views, run)
  {
    run := [Start(job, store, views)];
    run := GoOn(job, store, views, run);
  }

  /** Every run that has not ended goes on to an end: no choice on the way leads into a dead end. */
  lemma {:induction false} GoOn(job: Job, store: Tasks, views: map<string, HostView>, run: seq<State>)
    returns (run': seq<State>)
    requires Keyed(store) && IsRun(job, run) && run[0] == Start(job, store, views)
    requires OpenPorts(job.def.containers) == [] || forall h :: h in views ==> HasFreePort(views[h])
    ensures FullRun(job, store, views, run') && run <= run'
    decreases PassesLeft(job, Last(run))
  {
    run' := run;
    SafeThroughout(job, run, |run| - 1);
    if !Last(run).phase.Done? {
      StaysDrawable(job, run[0], Last(run));
      var s' := NextStep(job, Last(run));
      StepMoves(job, Last(run), s');
      StepPasses(job, Last(run), s');
      RunGoesOn(job, run, s');
      run' := GoOn(job, store, views, run + [s']);
    }
  }
}
