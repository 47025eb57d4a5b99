/** How one pass of scale-up prepares its placement, and how many draws the port searches of a run take
    (scheduler/scheduler.go). */
module Supply {
  import opened Api
  import opened Placement
  import opened Rankers
  import opened Reconcile
  import Ports

  /** A host chosen matches, and none is chosen exactly when none matches, provided none has an empty
      name. */
  ghost predicate SoundChoice(host: string, views: map<string, HostView>, def: TaskDefinition) {
    && (host != "" ==> host in views && Matches(views[host], def))
    && ("" !in views ==> (host == "" <==> forall n :: n in views ==> !Matches(views[n], def)))
  }

  lemma SelectedIsSound(scheduler: string, order: seq<string>, views: map<string, HostView>, def: TaskDefinition)
    requires Enumerates(order, views.Keys) && forall h :: h in order ==> h in views
    ensures SoundChoice(Selected(scheduler, order, views, def), views, def)
  {
    FirstMatchSound(Rankers.Rank(Scored(RankerOf(scheduler), order, views)), views, def);
    if "" !in views {
      SelectionSoundAndComplete(scheduler, order, views, def);
    }
  }

  lemma NoHostStep(job: Job, s: State, order: seq<string>)
    requires s.phase.Up? && s.phase.next < job.dep.desired && job.IdAt(s.phase.next) !in s.taskMap
    requires Enumerates(order, s.views.Keys) && (forall h :: h in order ==> h in s.views)
    requires Selected(job.dep.scheduler, order, s.views, job.def) == ""
    ensures IsRun(job, [s, s.(phase := Up(s.phase.next + 1, s.phase.kept))])
  {
    var s' := s.(phase := Up(s.phase.next + 1, s.phase.kept));
    assert PlaceStep(job, s, s.phase.next, order, s');
    PairIsRun(job, s, s');
  }

  lemma PlacedStep(job: Job, s: State, order: seq<string>, provided: map<string, nat>)
    requires s.phase.Up? && s.phase.next < job.dep.desired && job.IdAt(s.phase.next) !in s.taskMap
    requires Enumerates(order, s.views.Keys) && (forall h :: h in order ==> h in s.views)
    requires Selected(job.dep.scheduler, order, s.views, job.def) in s.views
    requires Selected(job.dep.scheduler, order, s.views, job.def) != ""
    requires Provides(job.def, s.views[Selected(job.dep.scheduler, order, s.views, job.def)], provided)
    ensures IsRun(job, [s, Place(job, s, s.phase.next, Selected(job.dep.scheduler, order, s.views, job.def), provided)])
  {
    var s' := Place(job, s, s.phase.next, Selected(job.dep.scheduler, order, s.views, job.def), provided);
    assert PlaceStep(job, s, s.phase.next, order, s');
    PairIsRun(job, s, s');
  }

  // ----- When the draws suffice -----

  /** One search for each of so many open ports ends, within `cost` positive draws in all. */
  ghost predicate Searchable(reserved: seq<nat>, names: nat, cost: nat) {
    !Ports.Walled(reserved) && names * Ports.SearchCost(reserved) <= cost
  }

  /** The draws are enough for `n` placements: there is no open port to draw, or they are positive, no host
      that could be selected is walled, and there are `cost` draws for each placement. */
  ghost predicate Supplied(views: map<string, HostView>, def: TaskDefinition, draws: seq<nat>, n: int, cost: nat) {
    OpenPorts(def.containers) == [] ||
    (&& Ports.Positive(draws) && |draws| >= n * cost
     && forall h :: h in views && Matches(views[h], def) ==>
          Searchable(views[h].reserved, |OpenPorts(def.containers)|, cost))
  }

  ghost predicate Suffices(views: map<string, HostView>, def: TaskDefinition, draws: seq<nat>, n: int) {
    exists cost: nat :: Supplied(views, def, draws, n, cost)
  }

  function Draw(def: TaskDefinition, last: nat, reserved: seq<nat>, draws: seq<nat>): Ports.Drawn {
    Ports.DrawAll(OpenPorts(def.containers), map[], last, reserved, draws)
  }

  lemma SuppliedDraws(views: map<string, HostView>, host: string, def: TaskDefinition, last: nat, draws: seq<nat>,
                      n: int, cost: nat)
    requires Supplied(views, def, draws, n, cost) && n > 0 && host in views && Matches(views[host], def)
    ensures var d := Draw(def, last, views[host].reserved, draws); d.Drawn? && Supplied(views, def, d.left, n - 1, cost)
  {
    var names := OpenPorts(def.containers);
    if names != [] {
      assert n * cost == (n - 1) * cost + cost && (n - 1) * cost >= 0;
      assert Searchable(views[host].reserved, |names|, cost);
      Ports.DrawingEnds(names, map[], last, views[host].reserved, draws);
    }
  }

  lemma SuppliedFewer(views: map<string, HostView>, def: TaskDefinition, draws: seq<nat>, n: int, cost: nat)
    requires Supplied(views, def, draws, n, cost)
    ensures Supplied(views, def, draws, n - 1, cost)
  {
    assert n * cost == (n - 1) * cost + cost;
  }

  /** A host that has taken a task and can take another has the ports reserved that it had. */
  lemma SuppliedAfter(views: map<string, HostView>, host: string, def: TaskDefinition, draws: seq<nat>, n: int,
                      cost: nat)
    requires Supplied(views, def, draws, n, cost) && host in views && Matches(views[host], def)
    ensures Supplied(views[host := Placed(views[host], def)], def, draws, n, cost)
  {
    var v, fixed := views[host], FixedPorts(def.containers);
    if fixed == [] {
      assert Placed(v, def).reserved == v.reserved;
    } else {
      assert fixed[0] in fixed && fixed[0] in Placed(v, def).reserved;
    }
  }

  /** What preparing instance `i` for the selected host comes to: no task and no draw if there is no such
      host, a task with its open ports drawn, or draws that ran out. */
  ghost predicate Prepared(job: Job, i: int, host: string, views: map<string, HostView>, last: nat, draws: seq<nat>,
                           task: Option<Task>, left: seq<nat>, searching: bool)
  {
    if host == "" then !searching && task == None && left == draws
    else
      && host in views
      && match Draw(job.def, last, views[host].reserved, draws)
         case Drawn(ports, _, rest) => !searching && task == Some(NewlyPlaced(job, i, host, ports)) && left == rest
         case Dry => searching && task == None
  }

  /** Some host matches and has ports to draw. */
  ghost predicate Stuck(views: map<string, HostView>, def: TaskDefinition) {
    OpenPorts(def.containers) != [] && exists h :: h in views && Matches(views[h], def)
  }

  /** The draws suffice for the instances scale-up has not come to yet. */
  ghost predicate Provisioned(job: Job, s: State, draws: seq<nat>)
    requires s.phase.Up?
  {
    Suffices(s.views, job.def, draws, job.dep.desired - s.phase.next)
  }

  /** A pass that draws nothing. */
  lemma PassGoesOn(job: Job, s: State, draws: seq<nat>)
    requires s.phase.Up? && s.phase.next < job.dep.desired
    ensures Provisioned(job, s, draws) ==> Provisioned(job, s.(phase := Up(s.phase.next + 1, s.phase.kept)), draws)
  {
    if Provisioned(job, s, draws) {
      var n := job.dep.desired - s.phase.next;
      var cost: nat :| Supplied(s.views, job.def, draws, n, cost);
      SuppliedFewer(s.views, job.def, draws, n, cost);
    }
  }

  /** The state once the prepared task, if any, is committed. */
  ghost function After(job: Job, s: State, task: Option<Task>): State
    requires s.phase.Up?
  {
    if task.Some? && task.value.host in s.views
    then Place(job, s, s.phase.next, task.value.host, task.value.providedPorts)
    else s.(phase := Up(s.phase.next + 1, s.phase.kept))
  }

  /** What is prepared makes a step. Draws that suffice end this search, and what is left suffices for the
      rest. */
  lemma PreparedStep(job: Job, s: State, order: seq<string>, last: nat, draws: seq<nat>,
                     task: Option<Task>, left: seq<nat>, searching: bool)
    requires s.phase.Up? && s.phase.next < job.dep.desired && job.IdAt(s.phase.next) !in s.taskMap
    requires Enumerates(order, s.views.Keys) && forall h :: h in order ==> h in s.views
    requires
      var host := Selected(job.dep.scheduler, order, s.views, job.def);
      && SoundChoice(host, s.views, job.def)
      && Prepared(job, s.phase.next, host, s.views, last, draws, task, left, searching)
    ensures task.Some? ==> task.value.host in s.views
    ensures task.Some? ==> task.value == NewlyPlaced(job, s.phase.next, task.value.host, task.value.providedPorts)
    ensures if searching then task == None && Stuck(s.views, job.def) else IsRun(job, [s, After(job, s, task)])
    ensures Provisioned(job, s, draws) ==> !searching && Provisioned(job, After(job, s, task), left)
  {
    var host := Selected(job.dep.scheduler, order, s.views, job.def);
    PreparedProvides(job, s, host, last, draws, task, left, searching);
    if Provisioned(job, s, draws) {
      PreparedGoesOn(job, s, host, last, draws, task, left, searching);
    }
    if task.Some? {
      PlacedStep(job, s, order, task.value.providedPorts);
    } else if !searching {
      NoHostStep(job, s, order);
    }
  }

  lemma PreparedGoesOn(job: Job, s: State, host: string, last: nat, draws: seq<nat>,
                       task: Option<Task>, left: seq<nat>, searching: bool)
    requires s.phase.Up? && s.phase.next < job.dep.desired && SoundChoice(host, s.views, job.def)
    requires Prepared(job, s.phase.next, host, s.views, last, draws, task, left, searching)
    requires Provisioned(job, s, draws)
    ensures !searching && Provisioned(job, After(job, s, task), left)
  {
    var n := job.dep.desired - s.phase.next;
    if host == "" {
      PassGoesOn(job, s, draws);
    } else {
      var cost: nat :| Supplied(s.views, job.def, draws, n, cost);
      SuppliedDraws(s.views, host, job.def, last, draws, n, cost);
      SuppliedAfter(s.views, host, job.def, left, n - 1, cost);
    }
  }

  lemma PreparedProvides(job: Job, s: State, host: string, last: nat, draws: seq<nat>,
                         task: Option<Task>, left: seq<nat>, searching: bool)
    requires s.phase.Up? && SoundChoice(host, s.views, job.def)
    requires Prepared(job, s.phase.next, host, s.views, last, draws, task, left, searching)
    ensures searching ==> Stuck(s.views, job.def)
    ensures task.Some? ==> host in s.views && Provides(job.def, s.views[host], task.value.providedPorts)
  {
    if host != "" {
      Ports.DrawnSound(OpenPorts(job.def.containers), map[], last, s.views[host].reserved, draws);
    }
  }
}
