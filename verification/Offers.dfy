/** The host views a run keeps up to date, against what the agents would publish
    (scheduler/scheduler.go, agent/agent.go). */
module Offers {
  import opened Naming
  import opened Api
  import opened Store
  import opened Placement
  import opened Rankers
  import opened Reconcile
  import opened Safety
  import opened Publishing

  function IdPlaced(job: Job, i: int): string {
    NewTask(job.cluster, job.def, job.dep, i).Id()
  }

  function LaunchOf(job: Job, p: Put): Launch {
    Launch(IdPlaced(job, p.instance), job.def)
  }

  /** The tasks placed on one host. */
  function LaunchesOn(job: Job, placed: seq<Put>, h: string): seq<Launch> {
    if placed == [] then []
    else
      var ls, p := LaunchesOn(job, placed[..|placed| - 1], h), placed[|placed| - 1];
      if p.host == h then ls + [LaunchOf(job, p)] else ls
  }

  lemma LaunchesSnoc(job: Job, front: seq<Put>, p: Put, h: string)
    ensures LaunchesOn(job, front + [p], h)
         == if p.host == h then LaunchesOn(job, front, h) + [LaunchOf(job, p)] else LaunchesOn(job, front, h)
    ensures HostsOf(front + [p])[h] == HostsOf(front)[h] + if p.host == h then 1 else 0
  {
    assert (front + [p])[..|front|] == front;
  }

  lemma OneMoreCopy(job: Job, front: seq<Put>, p: Put, h: string, v: HostView)
    requires PlacedAll(v, Launched(LaunchesOn(job, front, h))) == Copies(v, job.def, HostsOf(front)[h])
    ensures PlacedAll(v, Launched(LaunchesOn(job, front + [p], h))) == Copies(v, job.def, HostsOf(front + [p])[h])
  {
    LaunchesSnoc(job, front, p, h);
    if p.host == h {
      var ls := LaunchesOn(job, front, h);
      LaunchSnoc(map[], ls, LaunchOf(job, p));
      PlacedAllSnoc(v, Launched(ls), job.def);
    }
  }

  lemma {:induction false} CopiesAreLaunches(job: Job, placed: seq<Put>, h: string, v: HostView)
    ensures PlacedAll(v, Launched(LaunchesOn(job, placed, h))) == Copies(v, job.def, HostsOf(placed)[h])
  {
    if placed != [] {
      var n := |placed| - 1;
      CopiesAreLaunches(job, placed[..n], h, v);
      OneMoreCopy(job, placed[..n], placed[n], h, v);
      assert placed[..n] + [placed[n]] == placed;
    }
  }

  // ----- What is placed again -----

  ghost predicate AllOf(defs: seq<TaskDefinition>, def: TaskDefinition) {
    forall i :: 0 <= i < |defs| ==> defs[i] == def
  }

  lemma {:induction false} UsedByCopies(defs: seq<TaskDefinition>, def: TaskDefinition)
    requires AllOf(defs, def)
    ensures
      var u, c := Used(defs), TotalCounts(def.containers);
      u == Usage(|defs| * c.memory, |defs| * c.cpuUnits, |defs| * c.diskUse)
  {
    if defs != [] {
      var front, c := defs[..|defs| - 1], TotalCounts(def.containers);
      assert defs == front + [def];
      UsedByCopies(front, def);
      UsedSnoc(front, def);
      OneMore(|front|, c.memory);
      OneMore(|front|, c.cpuUnits);
      OneMore(|front|, c.diskUse);
    }
  }

  lemma {:induction false} PortsOfCopies(defs: seq<TaskDefinition>, def: TaskDefinition)
    requires AllOf(defs, def)
    ensures UsedPorts(defs) == [] <==> defs == [] || FixedPorts(def.containers) == []
  {
    if defs != [] {
      PortsOfCopies(defs[..|defs| - 1], def);
    }
  }

  lemma OneMore(n: nat, x: int)
    ensures (n + 1) * x == n * x + x
  {
  }

  lemma {:induction false} AgainIsCopies(job: Job, m: map<string, TaskDefinition>, placed: seq<Put>, h: string)
    ensures AllOf(Again(m, LaunchesOn(job, placed, h)), job.def)
  {
    if placed != [] {
      var front, p := placed[..|placed| - 1], placed[|placed| - 1];
      assert placed == front + [p];
      AgainIsCopies(job, m, front, h);
      LaunchesSnoc(job, front, p, h);
      LaunchSnoc(m, LaunchesOn(job, front, h), LaunchOf(job, p));
    }
  }

  /** Every instance is placed once, in ascending order. */
  ghost predicate Ascending(placed: seq<Put>) {
    forall a, b :: 0 <= a < b < |placed| ==> placed[a].instance < placed[b].instance
  }

  ghost predicate Climbs(s: State) {
    && (s.phase.Cleaning? || s.phase.Down? ==> s.placed == [])
    && Ascending(s.placed)
    && (s.phase.Up? ==> forall a :: 0 <= a < |s.placed| ==> s.placed[a].instance < s.phase.next)
  }

  lemma StepClimbs(job: Job, s: State, s': State)
    requires Climbs(s) && Moves(job, s, s')
    ensures Climbs(s')
  {
    if s.phase.Up? && s.phase.next < job.dep.desired && !Passed(job, s, s') {
      var host, provided :| PlacedOn(job, s, s', host, provided);
    }
  }

  lemma ClimbsThroughout(job: Job, run: seq<State>, k: nat)
    requires IsRun(job, run) && k < |run|
    requires Keyed(run[0].store) && run[0] == Start(job, run[0].store, run[0].views)
    ensures Climbs(run[k])
  {
    forall s, s' | (Agrees(job, s) && Climbs(s)) && Step(job, s, s') ensures Agrees(job, s') && Climbs(s') {
      StepMoves(job, s, s');
      StepAgrees(job, s, s');
      StepClimbs(job, s, s');
    }
    Invariant(job, run, s => Agrees(job, s) && Climbs(s));
  }

  /** Some task placed on the host has an id among these. */
  ghost predicate PlacesOneOf(job: Job, placed: seq<Put>, h: string, ids: set<string>) {
    exists p :: p in placed && p.host == h && IdPlaced(job, p.instance) in ids
  }

  lemma PlacesSnoc(job: Job, front: seq<Put>, p: Put, h: string, ids: set<string>)
    ensures PlacesOneOf(job, front + [p], h, ids)
       <==> PlacesOneOf(job, front, h, ids) || (p.host == h && IdPlaced(job, p.instance) in ids)
  {
    forall q ensures q in front + [p] <==> q in front || q == p {
    }
  }

  lemma {:induction false} RecordedIds(job: Job, m: map<string, TaskDefinition>, placed: seq<Put>, h: string,
                                       id: string)
    ensures id in Recorded(m, LaunchesOn(job, placed, h)) <==> id in m || PlacesOneOf(job, placed, h, {id})
  {
    if placed != [] {
      var front, p := placed[..|placed| - 1], placed[|placed| - 1];
      assert placed == front + [p];
      RecordedIds(job, m, front, h, id);
      PlacesSnoc(job, front, p, h, {id});
      LaunchesSnoc(job, front, p, h);
      LaunchSnoc(m, LaunchesOn(job, front, h), LaunchOf(job, p));
    }
  }

  lemma NotPlacedBefore(job: Job, front: seq<Put>, p: Put, h: string)
    requires Ascending(front + [p])
    ensures !PlacesOneOf(job, front, h, {IdPlaced(job, p.instance)})
  {
    forall q | q in front ensures IdPlaced(job, q.instance) != IdPlaced(job, p.instance) {
      var a :| 0 <= a < |front| && front[a] == q;
      assert (front + [p])[a] == q && (front + [p])[|front|] == p;
      var name, version := job.dep.name, job.def.version;
      IdInjectiveInCluster(job.cluster, name, version, q.instance, name, version, p.instance);
    }
  }

  /** Nothing is placed again exactly if no task placed on the host was recorded before. */
  lemma {:induction false} AgainMeansRecorded(job: Job, m: map<string, TaskDefinition>, placed: seq<Put>, h: string)
    requires Ascending(placed)
    ensures Again(m, LaunchesOn(job, placed, h)) == [] <==> !PlacesOneOf(job, placed, h, m.Keys)
  {
    if placed != [] {
      var front, p := placed[..|placed| - 1], placed[|placed| - 1];
      assert placed == front + [p];
      AgainMeansRecorded(job, m, front, h);
      PlacesSnoc(job, front, p, h, m.Keys);
      LaunchesSnoc(job, front, p, h);
      LaunchSnoc(m, LaunchesOn(job, front, h), LaunchOf(job, p));
      NotPlacedBefore(job, front, p, h);
      RecordedIds(job, m, front, h, IdPlaced(job, p.instance));
    }
  }

  ghost predicate Weightless(def: TaskDefinition) {
    TotalCounts(def.containers) == Usage(0, 0, 0) && FixedPorts(def.containers) == []
  }

  lemma AgainTakesNothing(job: Job, m: map<string, TaskDefinition>, placed: seq<Put>, h: string)
    requires Ascending(placed)
    ensures TakesNothing(Again(m, LaunchesOn(job, placed, h)))
       <==> !PlacesOneOf(job, placed, h, m.Keys) || Weightless(job.def)
  {
    var again, c := Again(m, LaunchesOn(job, placed, h)), TotalCounts(job.def.containers);
    AgainMeansRecorded(job, m, placed, h);
    AgainIsCopies(job, m, placed, h);
    UsedByCopies(again, job.def);
    PortsOfCopies(again, job.def);
    NoneOfProduct(|again|, c.memory);
    NoneOfProduct(|again|, c.cpuUnits);
    NoneOfProduct(|again|, c.diskUse);
  }

  lemma NoneOfProduct(n: nat, x: int)
    ensures n * x == 0 <==> n == 0 || x == 0
  {
  }

  /** In every state of every run that started from a host view as its agent published it, the scheduler's
      view makes the same offer as the agent would publish with the tasks placed there, in any order,
      exactly if none of them was recorded by the agent already or the task takes nothing. A rejected task
      that returns to its host is such a case. */
  lemma RunKeepsOffers(job: Job, run: seq<State>, k: nat, h: string, base: Resources,
                       m: map<string, TaskDefinition>, order: seq<string>, order': seq<string>)
    requires IsRun(job, run) && k < |run| && h in run[k].views
    requires Keyed(run[0].store) && run[0] == Start(job, run[0].store, run[0].views)
    requires Enumerates(order, m.Keys) && (forall id :: id in order ==> id in m)
    requires h in run[0].views && run[0].views[h] == Published(base, InOrder(order, m))
    requires Enumerates(order', Recorded(m, LaunchesOn(job, run[k].placed, h)).Keys)
    ensures forall id :: id in order' ==> id in Recorded(m, LaunchesOn(job, run[k].placed, h))
    ensures SameOffer(run[k].views[h], Published(base, InOrder(order', Recorded(m, LaunchesOn(job, run[k].placed, h)))))
       <==> !PlacesOneOf(job, run[k].placed, h, m.Keys) || Weightless(job.def)
  {
    SafeThroughout(job, run, k);
    ClimbsThroughout(job, run, k);
    OfferOfCopies(job, run[k].placed, h, base, m, order, order', run[k].views[h]);
  }

  lemma OfferOfCopies(job: Job, placed: seq<Put>, h: string, base: Resources, m: map<string, TaskDefinition>,
                      order: seq<string>, order': seq<string>, v: HostView)
    requires Ascending(placed) && Enumerates(order, m.Keys) && (forall id :: id in order ==> id in m)
    requires v == Copies(Published(base, InOrder(order, m)), job.def, HostsOf(placed)[h])
    requires Enumerates(order', Recorded(m, LaunchesOn(job, placed, h)).Keys)
    ensures forall id :: id in order' ==> id in Recorded(m, LaunchesOn(job, placed, h))
    ensures SameOffer(v, Published(base, InOrder(order', Recorded(m, LaunchesOn(job, placed, h)))))
       <==> !PlacesOneOf(job, placed, h, m.Keys) || Weightless(job.def)
  {
    CopiesAreLaunches(job, placed, h, Published(base, InOrder(order, m)));
    IncrementalEqualsRecomputed(base, m, order, LaunchesOn(job, placed, h), order');
    AgainTakesNothing(job, m, placed, h);
  }
}
