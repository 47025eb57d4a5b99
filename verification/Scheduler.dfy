/** The default scheduler (scheduler/scheduler.go): its run, statement by statement, follows the
    state machine of module Reconcile. Draws and the answers of the other API calls are inputs. */
module Scheduler {
  import opened Api
  import opened Store
  import opened Placement
  import opened Rankers
  import opened Preference
  import opened Reconcile
  import opened Traces
  import opened Supply
  import Ports

  class Host {
    const name: string
    var draining: bool
    var memory: int
    var cpuUnits: int
    var diskSpace: int
    var reservedPorts: seq<nat>

    constructor (name: string, draining: bool, view: HostView)
      ensures this.name == name && this.draining == draining && View() == view
    {
      this.name := name;
      this.draining := draining;
      memory, cpuUnits, diskSpace, reservedPorts := view.memory, view.cpuUnits, view.diskSpace, view.reserved;
    }

    function View(): HostView
      reads this
    {
      HostView(memory, cpuUnits, diskSpace, reservedPorts)
    }

    /** Give up what one copy of the task takes. */
    method Take(def: TaskDefinition)
      modifies this
      ensures View() == Placed(old(View()), def) && draining == old(draining)
      ensures memory == old(memory) - TotalCounts(def.containers).memory
      ensures cpuUnits == old(cpuUnits) - TotalCounts(def.containers).cpuUnits
      ensures diskSpace == old(diskSpace) - TotalCounts(def.containers).diskUse
      ensures reservedPorts == old(reservedPorts) + FixedPorts(def.containers)
    {
      var c := def.Counts();
      memory := memory - c.memory;
      diskSpace := diskSpace - c.diskUse;
      cpuUnits := cpuUnits - c.cpuUnits;
      var ports := def.AllPorts();
      reservedPorts := reservedPorts + ports;
    }
  }

  datatype Mismatch = NoMemory | NoCpu | NoDisk | PortTaken(port: nat)

  /** How a run ended: in an error before it read any task, or underway; a run that has not finished is
      inside the port search, out of draws. */
  datatype Outcome = NoCluster | HostsUnreadable | NoHosts | NoDefinition | Underway(finished: bool)

  ghost function HostSet(listed: Option<seq<Host>>): set<Host> {
    if listed.Some? then HostsIn(listed.value) else {}
  }

  ghost function HostsIn(listed: seq<Host>): set<Host> {
    set h | h in listed
  }

  lemma ScoreOneMore(score: HostView -> int, order: seq<string>, n: string, views: map<string, HostView>)
    requires n in views && forall h :: h in order ==> h in views
    ensures forall h :: h in order + [n] ==> h in views
    ensures Rankers.Rank(Scored(score, order + [n], views))
         == Insert(Rankers.Rank(Scored(score, order, views)), RankedHost(n, score(views[n])))
  {
    var met, r := Scored(score, order, views), RankedHost(n, score(views[n]));
    assert Scored(score, order + [n], views) == met + [r];
    assert (met + [r])[..|met|] == met;
  }

  function Indexed(ts: seq<Task>): Tasks {
    if ts == [] then map[] else Indexed(ts[..|ts| - 1])[ts[|ts| - 1].Id() := ts[|ts| - 1]]
  }

  lemma {:induction false} IndexedMembers(ts: seq<Task>, id: string)
    ensures id in Indexed(ts) <==> exists t :: t in ts && t.Id() == id
    ensures id in Indexed(ts) ==> Indexed(ts)[id] in ts && Indexed(ts)[id].Id() == id
  {
    if ts != [] {
      var front := ts[..|ts| - 1];
      IndexedMembers(front, id);
      assert forall t :: t in ts <==> t in front || t == ts[|ts| - 1];
    }
  }

  /** Indexing a listing of a table gives the table. */
  lemma IndexedListing(ts: seq<Task>, live: Tasks)
    requires Keyed(live) && Lists(ts, live)
    ensures Indexed(ts) == live
  {
    forall id ensures id in Indexed(ts) <==> id in live {
      IndexedMembers(ts, id);
      if id in live {
        assert Holds(live, live[id]);
      }
    }
    forall id | id in live ensures Indexed(ts)[id] == live[id] {
      IndexedMembers(ts, id);
      assert Holds(live, Indexed(ts)[id]);
    }
  }

  /** Every host is ranked once with its score, a worst one last. */
  ghost predicate RanksAll(rs: seq<RankedHost>, score: HostView -> int, views: map<string, HostView>) {
    && LastIsLeast(rs) && |rs| == |views|
    && (forall r :: r in rs ==> r.name in views && r.score == score(views[r.name]))
    && forall n :: n in views ==> exists r :: r in rs && r.name == n
  }

  lemma RankOfHosts(score: HostView -> int, order: seq<string>, views: map<string, HostView>)
    requires Enumerates(order, views.Keys) && forall h :: h in order ==> h in views
    ensures RanksAll(Rankers.Rank(Scored(score, order, views)), score, views)
  {
    var scored := Scored(score, order, views);
    RankLastIsLeast(scored);
    SameMembers(scored);
    assert |multiset(order)| == |order| && |multiset(views.Keys)| == |views.Keys|;
    forall r | r in scored ensures r.name in views && r.score == score(views[r.name]) {
      var k :| 0 <= k < |scored| && scored[k] == r;
      assert order[k] in order;
    }
    EnumeratesMembers(order, views.Keys);
    forall n | n in views ensures exists r :: r in Rankers.Rank(scored) && r.name == n {
      var k :| 0 <= k < |order| && order[k] == n;
      assert scored[k] in scored;
    }
  }

  /** The known hosts once the listed ones that are not draining have been put in, one after the other. */
  ghost function SyncedHosts(before: map<string, Host>, listed: seq<Host>): map<string, Host>
    reads listed
  {
    if listed == [] then before
    else
      var h, known := listed[|listed| - 1], SyncedHosts(before, listed[..|listed| - 1]);
      if h.draining then known else known[h.name := h]
  }

  ghost predicate Listed(n: string, listed: seq<Host>)
    reads listed
  {
    exists h :: h in listed && !h.draining && h.name == n
  }

  /** `h` is the last one listed under the name that is not draining. */
  ghost predicate LastListed(n: string, listed: seq<Host>, h: Host)
    reads listed
  {
    exists k :: 0 <= k < |listed| && listed[k] == h && !h.draining && h.name == n
                && forall j :: k < j < |listed| ==> listed[j].draining || listed[j].name != n
  }

  /** A host is known if it was known before or is listed and not draining, and is then the one listed, the
      last if there are several. */
  lemma {:induction false} SyncedHostsKnown(before: map<string, Host>, listed: seq<Host>, n: string)
    ensures n in SyncedHosts(before, listed) <==> n in before || Listed(n, listed)
    ensures n in SyncedHosts(before, listed) ==>
              var h := SyncedHosts(before, listed)[n];
              if Listed(n, listed) then LastListed(n, listed, h) else n in before && h == before[n]
  {
    if listed != [] {
      var front, h := listed[..|listed| - 1], listed[|listed| - 1];
      SyncedHostsKnown(before, front, n);
      assert forall x :: x in listed <==> x in front || x == h;
      if !h.draining && h.name == n {
        assert listed[|front|] == h && LastListed(n, listed, h);
      } else if Listed(n, front) {
        var known := SyncedHosts(before, front)[n];
        var k :| 0 <= k < |front| && front[k] == known
                 && forall j :: k < j < |front| ==> front[j].draining || front[j].name != n;
        assert listed[k] == known && forall j :: k < j < |listed| ==> listed[j].draining || listed[j].name != n;
      }
    }
  }

  lemma SyncedHostsValues(before: map<string, Host>, listed: seq<Host>)
    ensures SyncedHosts(before, listed).Values <= before.Values + HostsIn(listed)
  {
    forall h | h in SyncedHosts(before, listed).Values ensures h in before.Values + HostsIn(listed) {
      var n :| n in SyncedHosts(before, listed) && SyncedHosts(before, listed)[n] == h;
      SyncedHostsKnown(before, listed, n);
    }
  }

  ghost function ViewsOf(hosts: map<string, Host>): map<string, HostView>
    reads hosts.Values
  {
    map n | n in hosts :: hosts[n].View()
  }

  /** What the loops hold is the state's. */
  ghost predicate Mirrors(s: State, store: Tasks, taskMap: Tasks, removed: int) {
    s.store == store && s.taskMap == taskMap && s.removed == removed
  }

  /** The run is finished if the draws suffice for it; otherwise scale-up may stand before a host that matches
      and has ports to draw. */
  ghost predicate Ended(job: Job, views: map<string, HostView>, run: seq<State>, draws: seq<nat>, finished: bool) {
    && run != []
    && (if finished then Last(run).phase.Done? else Last(run).phase.Up? && Stuck(Last(run).views, job.def))
    && (Suffices(views, job.def, draws, job.dep.desired) ==> finished)
  }

  class DefaultScheduler {
    var cluster: Option<string>
    var hosts: map<string, Host>
    var maxPort: map<string, nat>

    constructor ()
      ensures Valid() && cluster == None && hosts == map[] && maxPort == map[]
    {
      cluster, hosts, maxPort := None, map[], map[];
    }

    ghost predicate Valid()
      reads `hosts
    {
      forall n :: n in hosts ==> hosts[n].name == n
    }

    ghost function Views(): map<string, HostView>
      reads `hosts, hosts.Values
    {
      ViewsOf(hosts)
    }

    method SetCluster(c: string)
      modifies `cluster
      ensures cluster == Some(c)
    {
      cluster := Some(c);
    }

    /** Draining hosts are skipped, but a host once known is never forgotten. */
    method SyncHosts(listed: seq<Host>)
      requires Valid()
      modifies `hosts
      ensures Valid() && hosts == SyncedHosts(old(hosts), listed)
    {
      for i := 0 to |listed|
        invariant Valid() && hosts == SyncedHosts(old(hosts), listed[..i])
      {
        var h := listed[i];
        assert listed[..i + 1][..i] == listed[..i];
        if h.draining {
          continue;
        }
        hosts := hosts[h.name := h];
      }
      assert listed[..|listed|] == listed;
    }

    /** The ranking of the hosts, met in some order. */
    method Rank(score: HostView -> int) returns (rs: seq<RankedHost>, ghost order: seq<string>)
      requires Valid()
      ensures Enumerates(order, hosts.Keys) && forall h :: h in order ==> h in hosts
      ensures rs == Rankers.Rank(Scored(score, order, Views()))
      ensures RanksAll(rs, score, Views())
    {
      rs, order := [], [];
      ghost var views := Views();
      var todo := hosts.Keys;
      while todo != {}
        invariant todo <= hosts.Keys && Enumerates(order, hosts.Keys - todo)
        invariant forall h :: h in order ==> h in views
        invariant rs == Rankers.Rank(Scored(score, order, views))
        decreases todo
      {
        var n :| n in todo;
        var r := RankedHost(hosts[n].name, score(hosts[n].View()));
        ScoreOneMore(score, order, n, views);
        EnumerateOneMore(order, hosts.Keys, todo, n);
        rs := InsertHost(rs, r);
        order := order + [n];
        todo := todo - {n};
      }
      assert hosts.Keys - todo == hosts.Keys;
      RankOfHosts(score, order, views);
    }

    static method InsertHost(rs: seq<RankedHost>, r: RankedHost) returns (rs': seq<RankedHost>)
      ensures rs' == Insert(rs, r)
    {
      if |rs| > 0 {
        if r.score >= rs[0].score {
          rs' := [r] + rs;
        } else if r.score <= rs[|rs| - 1].score {
          rs' := rs + [r];
        } else {
          rs' := Splice(rs, r);
        }
      } else {
        rs' := rs + [r];
      }
    }

    /** The inner loop of the ranking: splice before the first bracketing pair's left member. */
    static method Splice(rs: seq<RankedHost>, r: RankedHost) returns (rs': seq<RankedHost>)
      requires rs != []
      ensures rs' == var k := Slot(rs, r.score, 0); if k < |rs| then rs[..k] + [r] + rs[k..] else rs
    {
      for i := 0 to |rs| - 1
        invariant Slot(rs, r.score, 0) == Slot(rs, r.score, i)
      {
        if r.score <= rs[i].score && r.score >= rs[i + 1].score {
          return rs[..i] + ([r] + rs[i..]);
        }
      }
      return rs;
    }

    /** The reasons against a host, in the order they are looked for. */
    method MatchHost(t: Task, cand: Host) returns (err: Option<Mismatch>)
      ensures err == None <==> Matches(cand.View(), t.def)
      ensures
        var c := TotalCounts(t.def.containers);
        var short := cand.memory < c.memory || cand.cpuUnits < c.cpuUnits;
        && (err == Some(NoMemory) <==> cand.memory < c.memory)
        && (err == Some(NoCpu) <==> cand.memory >= c.memory && cand.cpuUnits < c.cpuUnits)
        && (err == Some(NoDisk) <==> !short && cand.diskSpace < c.diskUse)
      ensures err.Some? && err.value.PortTaken? ==>
                err.value.port in FixedPorts(t.def.containers) && err.value.port in cand.reservedPorts
    {
      var counts := t.def.Counts();
      if cand.memory - counts.memory < 0 {
        return Some(NoMemory);
      }
      if cand.cpuUnits - counts.cpuUnits < 0 {
        return Some(NoCpu);
      }
      if cand.diskSpace - counts.diskUse < 0 {
        return Some(NoDisk);
      }
      var taken := FixedPortTaken(t.def.containers, cand.reservedPorts);
      return if taken.Some? then Some(PortTaken(taken.value)) else None;
    }

    /** The loop over the ports of the containers. */
    static method FixedPortTaken(cs: seq<Container>, reserved: seq<nat>) returns (taken: Option<nat>)
      ensures taken == None <==> forall p :: p in FixedPorts(cs) ==> p !in reserved
      ensures taken.Some? ==> taken.value in FixedPorts(cs) && taken.value in reserved
    {
      for i := 0 to |cs|
        invariant forall p :: p in FixedPorts(cs[..i]) ==> p !in reserved
      {
        var ps := cs[i].ports;
        for k := 0 to |ps|
          invariant forall p :: p in HostPorts(ps[..k]) ==> p !in reserved
        {
          if ps[k].host != 0 && ps[k].host in reserved {
            assert cs[i] in cs && ps[k] in cs[i].ports;
            FixedPortsMember(cs, ps[k].host);
            return Some(ps[k].host);
          }
          assert ps[..k + 1][..k] == ps[..k];
        }
        assert ps[..|ps|] == ps && cs[..i + 1][..i] == cs[..i];
      }
      assert cs[..|cs|] == cs;
      return None;
    }

    /** The first host of the ranking that matches; the empty name if there is none. */
    method SelectHost(name: string, t: Task) returns (host: string, ghost order: seq<string>)
      requires Valid()
      ensures Enumerates(order, Views().Keys) && forall h :: h in order ==> h in Views()
      ensures host == Selected(name, order, Views(), t.def)
      ensures SoundChoice(host, Views(), t.def) && SureChoice(host, name, Views(), t.def)
    {
      var ranking;
      ranking, order := RankFor(name);
      host := FirstFit(ranking, t);
      SelectedIsSound(name, order, Views(), t.def);
      SelectedIsSure(name, order, Views(), t.def);
    }

    /** The ranking that a scheduler of this name asks for. */
    method RankFor(name: string) returns (ranking: seq<RankedHost>, ghost order: seq<string>)
      requires Valid()
      ensures Enumerates(order, Views().Keys) && forall h :: h in order ==> h in Views()
      ensures ranking == Rankers.Rank(Scored(RankerOf(name), order, Views()))
      ensures forall r :: r in ranking ==>
                && r.name in hosts
                && var weight := 8 * hosts[r.name].memory + 4 * hosts[r.name].cpuUnits + hosts[r.name].diskSpace;
                   r.score == if name == "binpack" then 1000000 - weight else weight
    {
      if name == "binpack" {
        ranking, order := Rank(PackScore);
      } else {
        ranking, order := Rank(SpreadScore);
      }
    }

    /** The loop over the ranking. */
    method FirstFit(ranking: seq<RankedHost>, t: Task) returns (host: string)
      requires Valid()
      ensures host == FirstMatch(ranking, Views(), t.def)
    {
      ghost var views := Views();
      for i := 0 to |ranking|
        invariant FirstMatch(ranking, views, t.def) == FirstMatch(ranking[i..], views, t.def)
      {
        var r := ranking[i];
        if r.name !in hosts {
          continue;
        }
        var cand := hosts[r.name];
        var err := MatchHost(t, cand);
        if err.Some? {
          continue;
        }
        return cand.name;
      }
      return "";
    }

    method UpdateHost(t: Task)
      requires Valid() && t.host in hosts
      modifies hosts[t.host]
      ensures Valid() && Views() == old(Views())[t.host := Placed(old(Views())[t.host], t.def)]
    {
      ghost var before := Views();
      var h := hosts[t.host];
      h.Take(t.def);
      forall n | n in hosts ensures hosts[n].View() == before[t.host := Placed(before[t.host], t.def)][n] {
        if n != t.host {
          assert hosts[n] != h;
        }
      }
      assert Views().Keys == before.Keys;
    }

    function LastPort(host: string): nat
      reads `maxPort
    {
      LastIn(maxPort, host)
    }

    /** The port search on a host; `None` when the draws ran out first. */
    method SelectPort(host: string, draws: seq<nat>) returns (found: Option<nat>, left: seq<nat>)
      requires host in hosts
      modifies `maxPort
      ensures
        var last := if host in old(maxPort) then old(maxPort)[host] else 0;
        match Ports.SelectPort(last, hosts[host].reservedPorts, draws)
        case Found(port, rest, _) => found == Some(port) && left == rest && maxPort == old(maxPort)[host := port]
        case Searching => found == None && left == [] && maxPort == old(maxPort)
    {
      if draws == [] {
        return None, [];
      }
      var reserved := hosts[host].reservedPorts;
      var p: nat := LastPort(host) + draws[0] % Ports.FIRST_JUMP;
      if p < Ports.FIRST_PORT {
        p := p + Ports.FIRST_PORT;
      }
      left := draws[1..];
      ghost var wrapped := false;
      while true
        invariant maxPort == old(maxPort)
        invariant Ports.SelectPort(LastPort(host), reserved, draws) == Ports.SearchFrom(p, reserved, left, wrapped)
        decreases |left|, p
      {
        if p in reserved {
          if left == [] {
            return None, [];
          }
          p := p + left[0] % Ports.JUMP;
          left := left[1..];
          continue;
        }
        if p > Ports.MAX_PORT {
          p := Ports.LOW_PORT;
          wrapped := true;
          continue;
        }
        maxPort := maxPort[host := p];
        return Some(p), left;
      }
    }

    /** The ports the definition leaves open, each drawn for itself; `None` when the draws ran out first. */
    method ProvidePorts(t: Task, draws: seq<nat>) returns (provided: Option<map<string, nat>>, left: seq<nat>)
      requires t.host in hosts
      modifies `maxPort
      ensures forall h :: h != t.host ==> LastPort(h) == old(LastPort(h))
      ensures
        match Draw(t.def, old(LastPort(t.host)), hosts[t.host].reservedPorts, draws)
        case Drawn(ports, last, rest) => provided == Some(ports) && left == rest && LastPort(t.host) == last
        case Dry => provided == None
    {
      var ports: map<string, nat> := map[];
      left := draws;
      var cs := t.def.containers;
      ghost var reserved := hosts[t.host].reservedPorts;
      ghost var all := Draw(t.def, LastPort(t.host), reserved, draws);
      for i := 0 to |cs|
        invariant forall h :: h != t.host ==> LastPort(h) == old(LastPort(h))
        invariant all == Ports.DrawAll(OpenPorts(cs[i..]), ports, LastPort(t.host), reserved, left)
      {
        var ps := cs[i].ports;
        ghost var later := OpenPorts(cs[i + 1..]);
        assert cs[i..][1..] == cs[i + 1..] && ps[0..] == ps;
        for k := 0 to |ps|
          invariant forall h :: h != t.host ==> LastPort(h) == old(LastPort(h))
          invariant all == Ports.DrawAll(OpenIn(ps[k..]) + later, ports, LastPort(t.host), reserved, left)
        {
          OpenInNext(ps, k, later);
          if ps[k].host == 0 {
            var selected;
            selected, left := SelectPort(t.host, left);
            if selected.None? {
              return None, left;
            }
            ports := ports[ps[k].name := selected.value];
          }
        }
        assert OpenIn(ps[|ps|..]) + later == later;
      }
      return Some(ports), left;
    }

    /** The state of the run, as module Reconcile sees it. */
    ghost function Snap(a: MockStore, taskMap: Tasks, count: int, removed: int, placed: seq<Put>, phase: Phase): State
      reads `hosts, hosts.Values, a`tasks
    {
      State(a.tasks, taskMap, Views(), count, removed, placed, phase)
    }

    /** Write the task back unscheduled, count it and forget it. */
    method Unschedule(a: MockStore, key: string, t: Task, taskMap: Tasks, removed: int, ghost s: State)
      returns (taskMap': Tasks, removed': int)
      requires Mirrors(s, a.tasks, taskMap, removed)
      modifies a`tasks, a`log
      ensures Mirrors(Drop(s, key, t), a.tasks, taskMap', removed')
      ensures a.log == old(a.log) + [a.tasks]
    {
      a.PutTask(t.(scheduled := false));
      removed' := removed + 1;
      taskMap' := taskMap - {key};
    }

    /** One pass of the cleanup loop, which may write the same record up to three times. */
    method CleanOne(a: MockStore, d: Deployment, key: string, taskMap: Tasks, count: int, removed: int,
                    ghost job: Job, ghost s: State)
      returns (taskMap': Tasks, removed': int, ghost more: seq<Tasks>)
      requires job.dep == d && key in taskMap && s.phase.Cleaning?
      requires Mirrors(s, a.tasks, taskMap, removed) && s.count == count && s.views.Keys == hosts.Keys
      modifies a`tasks, a`log
      ensures Mirrors(Clean(job, s, key), a.tasks, taskMap', removed')
      ensures a.log == old(a.log) + more && AllAre(more, a.tasks)
    {
      var t := taskMap[key];
      taskMap', removed', more := CleanUnsound(a, key, t, taskMap, removed, s);
      ghost var s', dropped := DropUnsound(s, key, t), old(a.tasks)[t.Id() := t.(scheduled := false)];
      if count - removed' > d.min && t.def.version != d.taskVersion {
        taskMap', removed' := Unschedule(a, key, t, taskMap', removed', s');
        assert AllAre(more, dropped) && a.tasks == dropped;
        more := more + [a.tasks];
      }
    }

    /** The first two tests of the pass. */
    method CleanUnsound(a: MockStore, key: string, t: Task, taskMap: Tasks, removed: int, ghost s: State)
      returns (taskMap': Tasks, removed': int, ghost more: seq<Tasks>)
      requires Mirrors(s, a.tasks, taskMap, removed) && s.views.Keys == hosts.Keys
      modifies a`tasks, a`log
      ensures Mirrors(DropUnsound(s, key, t), a.tasks, taskMap', removed')
      ensures a.log == old(a.log) + more && AllAre(more, a.tasks)
      ensures if more == [] then a.tasks == old(a.tasks) else a.tasks == old(a.tasks)[t.Id() := t.(scheduled := false)]
    {
      taskMap', removed', more := taskMap, removed, [];
      ghost var s', dropped := s, old(a.tasks)[t.Id() := t.(scheduled := false)];
      if t.host !in hosts {
        taskMap', removed' := Unschedule(a, key, t, taskMap', removed', s');
        s', more := Drop(s', key, t), more + [a.tasks];
      }
      assert AllAre(more, dropped);
      if t.rejected {
        taskMap', removed' := Unschedule(a, key, t, taskMap', removed', s');
        more := more + [a.tasks];
        assert a.tasks == dropped;
      }
    }

    /** The cleanup loop, over the task map in any order. */
    method Cleanup(a: MockStore, d: Deployment, tasks: Tasks, count: int, ghost job: Job, ghost trace: Trace)
      returns (taskMap: Tasks, removed: int, ghost trace': Trace)
      requires Valid() && job.dep == d
      requires trace.Follows(job, a.log, Snap(a, tasks, count, 0, [], Cleaning(tasks.Keys)))
      modifies a`tasks, a`log
      ensures trace'.Continues(trace)
      ensures trace'.Follows(job, a.log, Snap(a, taskMap, count, removed, [], Cleaning({})))
    {
      taskMap, removed, trace' := tasks, 0, trace;
      var todo := tasks.Keys;
      while todo != {}
        invariant todo <= taskMap.Keys && trace'.Continues(trace)
        invariant trace'.Follows(job, a.log, Snap(a, taskMap, count, removed, [], Cleaning(todo)))
        decreases todo
      {
        var key :| key in todo;
        ghost var s, log, more := Snap(a, taskMap, count, removed, [], Cleaning(todo)), a.log, [];
        taskMap, removed, more := CleanOne(a, d, key, taskMap, count, removed, job, s);
        todo := todo - {key};
        assert Snap(a, taskMap, count, removed, [], Cleaning(todo)) == Clean(job, s, key);
        trace' := trace'.ExtendByCleaning(job, log, s, key, more);
      }
    }

    /** The scale-down loop, from the highest number down. */
    method ScaleDown(a: MockStore, c: string, d: Deployment, tasks: Tasks, count: int, already: int,
                     ghost job: Job, ghost trace: Trace)
      returns (taskMap: Tasks, removed: int, ghost trace': Trace, ghost end: int)
      requires Valid() && job.dep == d && job.cluster == c
      requires trace.Follows(job, a.log, Snap(a, tasks, count, already, [], Down(count - already - 1)))
      modifies a`tasks, a`log
      ensures trace'.Continues(trace) && end <= d.desired - 1
      ensures trace'.Follows(job, a.log, Snap(a, taskMap, count, removed, [], Down(end)))
    {
      taskMap, removed, trace' := tasks, already, trace;
      var i := count - removed - 1;
      while i > d.desired - 1
        invariant trace'.Continues(trace)
        invariant trace'.Follows(job, a.log, Snap(a, taskMap, count, removed, [], Down(i)))
      {
        ghost var s, log, more := Snap(a, taskMap, count, removed, [], Down(i)), a.log, [];
        var id := MakeTaskId(c, d, i);
        if id in taskMap {
          taskMap, removed := Unschedule(a, id, taskMap[id], taskMap, removed, s);
          more := [a.tasks];
        }
        i := i - 1;
        assert Snap(a, taskMap, count, removed, [], Down(i)) == Remove(job, s, i + 1) && a.log == log + more;
        trace' := trace'.ExtendByRemoving(job, log, s, more);
      }
      end := i;
    }

    /** Take the resources, write the task and remember it. */
    method Commit(a: MockStore, t: Task, taskMap: Tasks, ghost job: Job, ghost s: State) returns (taskMap': Tasks)
      requires Valid() && t.host in hosts && s.phase.Up? && t == NewlyPlaced(job, s.phase.next, t.host, t.providedPorts)
      requires s == Snap(a, taskMap, s.count, s.removed, s.placed, s.phase)
      modifies a`tasks, a`log, hosts[t.host]
      ensures Valid() && a.log == old(a.log) + [a.tasks]
      ensures
        var s' := Place(job, s, s.phase.next, t.host, t.providedPorts);
        s' == Snap(a, taskMap', s'.count, s'.removed, s'.placed, s'.phase)
    {
      UpdateHost(t);
      a.PutTask(t);
      taskMap' := taskMap[t.Id() := t];
    }

    /** Pick a host for the instance and draw its open ports. No task means that no host was picked, or
        that the draws ran out inside the port search. */
    method Draft(c: string, d: Deployment, def: TaskDefinition, i: int, draws: seq<nat>, ghost job: Job)
      returns (task: Option<Task>, left: seq<nat>, searching: bool, ghost order: seq<string>)
      requires Valid() && job == Job(c, d, def)
      modifies `maxPort
      ensures Enumerates(order, Views().Keys) && forall h :: h in order ==> h in Views()
      ensures
        var host := Selected(d.scheduler, order, Views(), def);
        && SoundChoice(host, Views(), def)
        && Prepared(job, i, host, Views(), old(LastPort(host)), draws, task, left, searching)
    {
      task, left, searching := None, draws, false;
      var t := NewTask(c, def, d, i);
      var selectedHost;
      selectedHost, order := SelectHost(d.scheduler, t);
      if selectedHost == "" {
        return;
      }
      t := t.(host := selectedHost);
      var provided;
      provided, left := ProvidePorts(t, draws);
      if provided.None? {
        searching := true;
        return;
      }
      t := t.(providedPorts := provided.value);
      t := t.(scheduled := true);
      task := Some(t);
    }

    /** A prepared task makes a step; the search goes on only for a host that matches, and not if the draws
        suffice. */
    method Prepare(c: string, d: Deployment, def: TaskDefinition, i: int, draws: seq<nat>, ghost job: Job,
                   ghost s: State)
      returns (task: Option<Task>, left: seq<nat>, searching: bool)
      requires Valid() && job == Job(c, d, def) && s.views == Views()
      requires s.phase.Up? && s.phase.next == i < d.desired && job.IdAt(i) !in s.taskMap
      modifies `maxPort
      ensures task.Some? ==>
                && task.value.host in hosts
                && task.value == NewlyPlaced(job, i, task.value.host, task.value.providedPorts)
      ensures if searching then task == None && Stuck(s.views, def) else IsRun(job, [s, After(job, s, task)])
      ensures Provisioned(job, s, draws) ==> !searching && Provisioned(job, After(job, s, task), left)
    {
      ghost var order;
      ghost var ports := maxPort;
      task, left, searching, order := Draft(c, d, def, i, draws, job);
      ghost var last := LastIn(ports, Selected(d.scheduler, order, s.views, def));
      PreparedStep(job, s, order, last, draws, task, left, searching);
    }

    /** One pass of the scale-up loop over a missing instance. A pass whose draws run out stays inside
        the port search and has written nothing. */
    method PlaceOne(a: MockStore, c: string, d: Deployment, def: TaskDefinition, i: int, taskMap: Tasks, count: int,
                    removed: int, draws: seq<nat>, ghost job: Job, ghost s: State, ghost trace: Trace)
      returns (taskMap': Tasks, left: seq<nat>, searching: bool, ghost trace': Trace, ghost s': State)
      requires Valid() && job == Job(c, d, def)
      requires i < d.desired && job.IdAt(i) !in taskMap
      requires s.phase.Up? && s == Snap(a, taskMap, count, removed, s.placed, Up(i, s.phase.kept))
      requires trace.Follows(job, a.log, s)
      modifies a`tasks, a`log, `maxPort, hosts.Values
      ensures Valid() && trace'.Continues(trace) && trace'.Follows(job, a.log, s')
      ensures s' == Snap(a, taskMap', count, removed, s'.placed, s'.phase)
      ensures if searching then s' == s && Stuck(s.views, def) && a.log == old(a.log)
              else s'.phase == Up(i + 1, s.phase.kept)
      ensures Provisioned(job, s, draws) ==> !searching && s'.phase.Up? && Provisioned(job, s', left)
    {
      taskMap', s', trace' := taskMap, s, trace;
      var task;
      task, left, searching := Prepare(c, d, def, i, draws, job, s);
      if searching {
        return;
      }
      s' := After(job, s, task);
      ghost var log, more := a.log, [];
      if task.Some? {
        taskMap' := Commit(a, task.value, taskMap, job, s);
        more := [a.tasks];
      }
      assert a.log == log + more;
      trace' := trace.Extend(job, log, s, s', more);
    }

    /** The scale-up loop. It finishes if the draws suffice; a pass that does not stands before a host that
        matches and ports to draw. */
    method ScaleUp(a: MockStore, c: string, d: Deployment, def: TaskDefinition, tasks: Tasks, count: int, removed: int,
                   draws: seq<nat>, ghost job: Job, ghost trace: Trace)
      returns (taskMap: Tasks, searching: bool, ghost trace': Trace, ghost s: State)
      requires Valid() && job == Job(c, d, def)
      requires trace.Follows(job, a.log, Snap(a, tasks, count, removed, [], Up(0, tasks)))
      modifies a`tasks, a`log, `maxPort, hosts.Values
      ensures Valid() && trace'.Continues(trace) && trace'.Follows(job, a.log, s)
      ensures s == Snap(a, taskMap, count, removed, s.placed, s.phase)
      ensures if searching then s.phase.Up? && Stuck(s.views, def) else s.phase == Done(tasks)
      ensures Suffices(old(Views()), def, draws, d.desired) ==> !searching
    {
      taskMap, searching, trace' := tasks, false, trace;
      var left := draws;
      var i := 0;
      s := Snap(a, tasks, count, removed, [], Up(0, tasks));
      while i < d.desired
        invariant 0 <= i && Valid() && hosts == old(hosts) && trace'.Continues(trace)
        invariant s == Snap(a, taskMap, count, removed, s.placed, Up(i, tasks)) && trace'.Follows(job, a.log, s)
        invariant Suffices(old(Views()), def, draws, d.desired) ==> Provisioned(job, s, left)
        decreases d.desired - i
      {
        var id := MakeTaskId(c, d, i);
        if id !in taskMap {
          taskMap, left, searching, trace', s :=
            PlaceOne(a, c, d, def, i, taskMap, count, removed, left, job, s, trace');
          if searching {
            return;
          }
        } else {
          PassGoesOn(job, s, left);
          trace' := trace'.Turn(job, a.log, s, Up(i + 1, tasks));
          s := s.(phase := Up(i + 1, tasks));
        }
        i := i + 1;
      }
      trace' := trace'.Turn(job, a.log, s, Done(tasks));
      s := s.(phase := Done(tasks));
    }

    /** Index the listed tasks by id. */
    static method IndexTasks(ts: seq<Task>) returns (taskMap: Tasks)
      ensures taskMap == Indexed(ts)
    {
      taskMap := map[];
      for i := 0 to |ts|
        invariant taskMap == Indexed(ts[..i])
      {
        assert ts[..i + 1][..i] == ts[..i];
        taskMap := taskMap[ts[i].Id() := ts[i]];
      }
      assert ts[..|ts|] == ts;
    }

    /** One run: `listed` and `found` are what `ListHosts` and `GetTaskDefinition` answer, `None` for an
        error. A run that got past the checks is a run of the state machine from the store as it was and
        the hosts as they were known and listed, a full one if it finished, as it does if the draws
        suffice; one that is still drawing ports stands before a host that matches. A run that did not get
        past the checks wrote nothing. */
    method Schedule(a: MockStore, d: Deployment, listed: Option<seq<Host>>, found: Option<TaskDefinition>,
                    draws: seq<nat>)
      returns (outcome: Outcome, ghost job: Job, ghost views: map<string, HostView>, ghost run: seq<State>)
      requires Valid() && Keyed(a.tasks)
      modifies this, a`tasks, a`log, hosts.Values, HostSet(listed)
      ensures Valid() && cluster == old(cluster)
      ensures outcome == NoCluster <==> old(cluster).None?
      ensures outcome == HostsUnreadable <==> old(cluster).Some? && listed.None?
      ensures outcome == NoHosts <==> old(cluster).Some? && listed.Some? && hosts == map[]
      ensures outcome == NoDefinition <==> old(cluster).Some? && listed.Some? && hosts != map[] && found.None?
      ensures outcome.Underway? <==> old(cluster).Some? && listed.Some? && hosts != map[] && found.Some?
      ensures !outcome.Underway? ==> a.tasks == old(a.tasks) && a.log == old(a.log)
      ensures outcome.Underway? ==> old(cluster).Some? && found.Some? && job == Job(old(cluster).value, d, found.value)
      ensures hosts == if old(cluster).Some? && listed.Some? then old(SyncedHosts(hosts, listed.value)) else old(hosts)
      ensures outcome.Underway? ==> listed.Some? && views == old(ViewsOf(SyncedHosts(hosts, listed.value)))
      ensures outcome.Underway? ==>
                |old(a.log)| <= |a.log| && Ran(job, old(a.tasks), views, run, a.log[|old(a.log)|..], a.tasks, Views())
      ensures outcome.Underway? ==> Ended(job, views, run, draws, outcome.finished)
    {
      run, views := [], map[];
      job := Job("", d, TaskDefinition("", 0, 0, []));
      var fault := Check(listed, found);
      if fault.Some? {
        return fault.value, job, views, run;
      }
      job := Job(cluster.value, d, found.value);
      views := Views();
      assert views == old(ViewsOf(SyncedHosts(hosts, listed.value)));
      var finished;
      finished, run := Reconcile(a, cluster.value, d, found.value, draws, job);
      outcome := Underway(finished);
    }

    /** What must be there before a run can start; the hosts are synced on the way. */
    method Check(listed: Option<seq<Host>>, found: Option<TaskDefinition>) returns (fault: Option<Outcome>)
      requires Valid()
      modifies `hosts
      ensures Valid()
      ensures fault == Some(NoCluster) <==> cluster.None?
      ensures fault == Some(HostsUnreadable) <==> cluster.Some? && listed.None?
      ensures fault == Some(NoHosts) <==> cluster.Some? && listed.Some? && hosts == map[]
      ensures fault == Some(NoDefinition) <==> cluster.Some? && listed.Some? && hosts != map[] && found.None?
      ensures fault == None <==> cluster.Some? && listed.Some? && hosts != map[] && found.Some?
      ensures hosts == if cluster.Some? && listed.Some? then SyncedHosts(old(hosts), listed.value) else old(hosts)
      ensures hosts.Values <= old(hosts.Values) + HostSet(listed)
    {
      if cluster.None? {
        return Some(NoCluster);
      }
      if listed.None? {
        return Some(HostsUnreadable);
      }
      SyncHosts(listed.value);
      SyncedHostsValues(old(hosts), listed.value);
      assert |hosts| == |hosts.Keys|;
      if |hosts| == 0 {
        return Some(NoHosts);
      }
      assert hosts.Keys != {};
      return if found.None? then Some(NoDefinition) else None;
    }

    /** The listing and then the three loops. */
    method Reconcile(a: MockStore, c: string, d: Deployment, def: TaskDefinition, draws: seq<nat>, ghost job: Job)
      returns (finished: bool, ghost run: seq<State>)
      requires Valid() && Keyed(a.tasks) && job == Job(c, d, def)
      modifies a`tasks, a`log, `maxPort, hosts.Values
      ensures |old(a.log)| <= |a.log|
      ensures Ran(job, old(a.tasks), old(Views()), run, a.log[|old(a.log)|..], a.tasks, Views())
      ensures Ended(job, old(Views()), run, draws, finished)
    {
      var tasks := a.ListTasks(TaskQuery(c, d.name, "", false, true, false, false));
      LiveIsListed(job, a.tasks, StatusIn(a.health));
      var taskMap := IndexTasks(tasks);
      IndexedListing(tasks, Live(job, a.tasks));
      finished, run := RunLoops(a, c, d, def, taskMap, |tasks|, draws, job);
    }

    method RunLoops(a: MockStore, c: string, d: Deployment, def: TaskDefinition, tasks: Tasks, count: int,
                    draws: seq<nat>, ghost job: Job)
      returns (finished: bool, ghost run: seq<State>)
      requires Valid() && job == Job(c, d, def)
      requires Snap(a, tasks, count, 0, [], Cleaning(tasks.Keys)) == Start(job, a.tasks, Views())
      modifies a`tasks, a`log, `maxPort, hosts.Values
      ensures |old(a.log)| <= |a.log|
      ensures Ran(job, old(a.tasks), old(Views()), run, a.log[|old(a.log)|..], a.tasks, Views())
      ensures Ended(job, old(Views()), run, draws, finished)
    {
      ghost var s := Snap(a, tasks, count, 0, [], Cleaning(tasks.Keys));
      ghost var begin := Trace([s], |a.log|);
      ghost var trace: Trace;
      var taskMap, removed;
      taskMap, removed, trace := Descend(a, c, d, tasks, count, job, begin);
      finished := true;
      if count - removed < d.desired {
        var searching;
        taskMap, searching, trace, s := ScaleUp(a, c, d, def, taskMap, count, removed, draws, job, trace);
        finished := !searching;
      }
      run := trace.run;
    }

    /** Cleanup and then, if there are still too many, scale-down. */
    method Descend(a: MockStore, c: string, d: Deployment, tasks: Tasks, count: int, ghost job: Job, ghost trace: Trace)
      returns (taskMap: Tasks, removed: int, ghost trace': Trace)
      requires Valid() && job.dep == d && job.cluster == c
      requires trace.Follows(job, a.log, Snap(a, tasks, count, 0, [], Cleaning(tasks.Keys)))
      modifies a`tasks, a`log
      ensures trace'.Continues(trace)
      ensures
        var next := if count - removed < d.desired then Up(0, taskMap) else Done(taskMap);
        trace'.Follows(job, a.log, Snap(a, taskMap, count, removed, [], next))
    {
      taskMap, removed, trace' := Cleanup(a, d, tasks, count, job, trace);
      ghost var s := Snap(a, taskMap, count, removed, [], Cleaning({}));
      trace' := trace'.Turn(job, a.log, s, AfterCleaning(job, s));
      if count - removed > d.desired {
        ghost var end: int;
        taskMap, removed, trace', end := ScaleDown(a, c, d, taskMap, count, removed, job, trace');
        s := Snap(a, taskMap, count, removed, [], Down(end));
        trace' := trace'.Turn(job, a.log, s, AfterDown(job, s));
      }
    }
  }

  lemma OpenInNext(ps: seq<PortMapping>, k: nat, later: seq<string>)
    requires k < |ps|
    ensures
      var names, rest := OpenIn(ps[k..]) + later, OpenIn(ps[k + 1..]) + later;
      if ps[k].host == 0 then names != [] && names[0] == ps[k].name && names[1..] == rest else names == rest
  {
    assert ps[k..][1..] == ps[k + 1..];
    if ps[k].host == 0 {
      assert OpenIn(ps[k..]) == [ps[k].name] + OpenIn(ps[k + 1..]);
    }
  }

  function LastIn(maxPort: map<string, nat>, host: string): nat {
    if host in maxPort then maxPort[host] else 0
  }

}
