/** Records of the api package: task definitions, tasks, deployments and health states. */
module Api {
  import opened Naming

  datatype Option<+T> = None | Some(value: T)
  {
    function GetOr(default: T): T {
      if Some? then value else default
    }
  }

  datatype PortMapping = PortMapping(name: string, container: nat, host: nat)

  /** `checks` is the number of health checks. */
  datatype Container = Container(name: string, ports: seq<PortMapping>, checks: nat,
                                 memory: int, cpuUnits: int, diskUse: int, essential: bool)
  {
    /** A port the definition leaves open is looked up among the ports provided for the task;
        a name that was never provided reads as zero. */
    method PortsForTask(t: Task) returns (mappings: seq<PortMapping>)
      ensures |mappings| == |ports|
      ensures forall k :: 0 <= k < |ports| ==> mappings[k] == Resolved(ports[k], t)
      ensures forall k :: 0 <= k < |ports| ==>
                && mappings[k].name == ports[k].name && mappings[k].container == ports[k].container
                && mappings[k].host ==
                   if ports[k].host != 0 then ports[k].host
                   else if ports[k].name in t.providedPorts then t.providedPorts[ports[k].name] else 0
    {
      mappings := [];
      for n := 0 to |ports|
        invariant |mappings| == n
        invariant forall k :: 0 <= k < n ==> mappings[k] == Resolved(ports[k], t)
      {
        var p := ports[n];
        var host := p.host;
        if host == 0 {
          host := if p.name in t.providedPorts then t.providedPorts[p.name] else 0;
        }
        mappings := mappings + [PortMapping(p.name, p.container, host)];
      }
    }
  }

  function Resolved(p: PortMapping, t: Task): PortMapping {
    if p.host != 0 then p
    else if p.name in t.providedPorts then p.(host := t.providedPorts[p.name])
    else p
  }

  datatype Counts = Usage(memory: int, cpuUnits: int, diskUse: int)
  {
    function Plus(c: Counts): Counts {
      Usage(memory + c.memory, cpuUnits + c.cpuUnits, diskUse + c.diskUse)
    }
  }

  datatype TaskDefinition = TaskDefinition(name: string, version: nat, gracePeriod: int, containers: seq<Container>)
  {
    /** All the fixed host ports the task needs. */
    method AllPorts() returns (ports: seq<nat>)
      ensures ports == FixedPorts(containers)
    {
      ports := [];
      for i := 0 to |containers|
        invariant ports == FixedPorts(containers[..i])
      {
        var ps := containers[i].ports;
        for k := 0 to |ps|
          invariant ports == FixedPorts(containers[..i]) + HostPorts(ps[..k])
        {
          assert ps[..k + 1][..k] == ps[..k];
          if ps[k].host != 0 {
            ports := ports + [ps[k].host];
          }
        }
        assert ps[..|ps|] == ps;
        assert containers[..i + 1][..i] == containers[..i];
      }
      assert containers[..|containers|] == containers;
    }

    /** What one copy of the task takes from a host. */
    method Counts() returns (counts: Counts)
      ensures counts == TotalCounts(containers)
    {
      counts := Usage(0, 0, 0);
      for i := 0 to |containers|
        invariant counts == TotalCounts(containers[..i])
      {
        var c := containers[i];
        counts := counts.(diskUse := counts.diskUse + c.diskUse);
        counts := counts.(cpuUnits := counts.cpuUnits + c.cpuUnits);
        counts := counts.(memory := counts.memory + c.memory);
        assert containers[..i + 1][..i] == containers[..i];
      }
      assert containers[..|containers|] == containers;
    }
  }

  function HostPorts(ps: seq<PortMapping>): seq<nat> {
    if ps == [] then []
    else HostPorts(ps[..|ps| - 1]) + if ps[|ps| - 1].host != 0 then [ps[|ps| - 1].host] else []
  }

  function FixedPorts(cs: seq<Container>): seq<nat> {
    if cs == [] then [] else FixedPorts(cs[..|cs| - 1]) + HostPorts(cs[|cs| - 1].ports)
  }

  function TotalCounts(cs: seq<Container>): Counts {
    if cs == [] then Usage(0, 0, 0)
    else
      var c := cs[|cs| - 1];
      TotalCounts(cs[..|cs| - 1]).Plus(Usage(c.memory, c.cpuUnits, c.diskUse))
  }

  lemma CountsOfOne(c: Container)
    ensures TotalCounts([c]) == Usage(c.memory, c.cpuUnits, c.diskUse)
  {
    assert TotalCounts([c][..0]) == Usage(0, 0, 0);
  }

  /** What containers take together is what they take apart; with `CountsOfOne` this settles the totals. */
  lemma {:induction false} CountsAddUp(a: seq<Container>, b: seq<Container>)
    ensures
      var c, x, y := TotalCounts(a + b), TotalCounts(a), TotalCounts(b);
      && c.memory == x.memory + y.memory && c.cpuUnits == x.cpuUnits + y.cpuUnits
      && c.diskUse == x.diskUse + y.diskUse
  {
    if b == [] {
      assert a + b == a;
    } else {
      var n := |b| - 1;
      CountsAddUp(a, b[..n]);
      assert (a + b)[..|a| + n] == a + b[..n];
    }
  }

  lemma Associate<T>(a: seq<T>, b: seq<T>, c: seq<T>)
    ensures (a + b) + c == a + (b + c)
  {
  }

  /** The fixed ports come in the order of the containers and, in each, of its mappings; with
      `FixedPortsOfOne` this settles them. */
  lemma {:induction false} HostPortsAddUp(p: seq<PortMapping>, q: seq<PortMapping>)
    ensures HostPorts(p + q) == HostPorts(p) + HostPorts(q)
  {
    if q == [] {
      assert p + q == p;
    } else {
      var n := |q| - 1;
      HostPortsAddUp(p, q[..n]);
      assert (p + q)[..|p| + n] == p + q[..n] && (p + q)[|p| + n] == q[n];
      var last := if q[n].host != 0 then [q[n].host] else [];
      assert HostPorts(p + q) == HostPorts(p + q[..n]) + last && HostPorts(q) == HostPorts(q[..n]) + last;
      Associate(HostPorts(p), HostPorts(q[..n]), last);
    }
  }

  lemma {:induction false} FixedPortsAddUp(a: seq<Container>, b: seq<Container>)
    ensures FixedPorts(a + b) == FixedPorts(a) + FixedPorts(b)
  {
    if b == [] {
      assert a + b == a;
    } else {
      var n := |b| - 1;
      FixedPortsAddUp(a, b[..n]);
      assert (a + b)[..|a| + n] == a + b[..n] && (a + b)[|a| + n] == b[n];
      var last := HostPorts(b[n].ports);
      assert FixedPorts(a + b) == FixedPorts(a + b[..n]) + last && FixedPorts(b) == FixedPorts(b[..n]) + last;
      Associate(FixedPorts(a), FixedPorts(b[..n]), last);
    }
  }

  lemma FixedPortsOfOne(c: Container, m: PortMapping)
    ensures FixedPorts([c]) == HostPorts(c.ports) && HostPorts([m]) == if m.host != 0 then [m.host] else []
  {
    assert [c][..0] == [] && [m][..0] == [];
    assert FixedPorts([c]) == [] + HostPorts(c.ports);
  }

  lemma {:induction false} HostPortsMember(ps: seq<PortMapping>, p: nat)
    ensures p in HostPorts(ps) <==> p != 0 && exists m :: m in ps && m.host == p
  {
    if ps != [] {
      var rest := ps[..|ps| - 1];
      assert forall m :: m in ps <==> m in rest || m == ps[|ps| - 1];
      HostPortsMember(rest, p);
    }
  }

  /** `AllPorts` lists a port exactly when some container fixes it, and never port zero. */
  lemma {:induction false} FixedPortsMember(cs: seq<Container>, p: nat)
    ensures p in FixedPorts(cs) <==> p != 0 && exists c, m :: c in cs && m in c.ports && m.host == p
  {
    if cs != [] {
      var rest := cs[..|cs| - 1];
      assert forall c :: c in cs <==> c in rest || c == cs[|cs| - 1];
      HostPortsMember(cs[|cs| - 1].ports, p);
      FixedPortsMember(rest, p);
    }
  }

  /** The names of the mappings that leave the host port open. */
  function OpenIn(ps: seq<PortMapping>): seq<string> {
    if ps == [] then [] else (if ps[0].host == 0 then [ps[0].name] else []) + OpenIn(ps[1..])
  }

  function OpenPorts(cs: seq<Container>): seq<string> {
    if cs == [] then [] else OpenIn(cs[0].ports) + OpenPorts(cs[1..])
  }

  lemma {:induction false} OpenInMember(ps: seq<PortMapping>, name: string)
    ensures name in OpenIn(ps) <==> exists m :: m in ps && m.host == 0 && m.name == name
  {
    if ps != [] {
      OpenInMember(ps[1..], name);
      assert forall m :: m in ps <==> m == ps[0] || m in ps[1..];
    }
  }

  /** A name is open exactly when some container leaves its host port open. */
  lemma {:induction false} OpenPortsMember(cs: seq<Container>, name: string)
    ensures name in OpenPorts(cs) <==> exists c, m :: c in cs && m in c.ports && m.host == 0 && m.name == name
  {
    if cs != [] {
      OpenInMember(cs[0].ports, name);
      OpenPortsMember(cs[1..], name);
      assert forall c :: c in cs <==> c == cs[0] || c in cs[1..];
    }
  }

  lemma {:induction false} OpenInAddsUp(p: seq<PortMapping>, q: seq<PortMapping>)
    ensures OpenIn(p + q) == OpenIn(p) + OpenIn(q)
  {
    if p == [] {
      assert p + q == q;
    } else {
      OpenInAddsUp(p[1..], q);
      assert (p + q)[0] == p[0] && (p + q)[1..] == p[1..] + q;
      var head := if p[0].host == 0 then [p[0].name] else [];
      assert OpenIn(p + q) == head + OpenIn(p[1..] + q) && OpenIn(p) == head + OpenIn(p[1..]);
      Associate(head, OpenIn(p[1..]), OpenIn(q));
    }
  }

  lemma {:induction false} OpenPortsAddUp(a: seq<Container>, b: seq<Container>)
    ensures OpenPorts(a + b) == OpenPorts(a) + OpenPorts(b)
  {
    if a == [] {
      assert a + b == b;
    } else {
      OpenPortsAddUp(a[1..], b);
      assert (a + b)[0] == a[0] && (a + b)[1..] == a[1..] + b;
      assert OpenPorts(a + b) == OpenIn(a[0].ports) + OpenPorts(a[1..] + b);
      Associate(OpenIn(a[0].ports), OpenPorts(a[1..]), OpenPorts(b));
    }
  }

  lemma OpenPortsOfOne(c: Container, m: PortMapping)
    ensures OpenPorts([c]) == OpenIn(c.ports) && OpenIn([m]) == if m.host == 0 then [m.name] else []
  {
    assert [c][1..] == [] && [m][1..] == [];
    assert OpenPorts([c]) == OpenIn(c.ports) + [];
  }

  ghost predicate NonNegative(def: TaskDefinition) {
    var c := TotalCounts(def.containers);
    0 <= c.memory && 0 <= c.cpuUnits && 0 <= c.diskUse
  }

  datatype Status = Pending | Starting | Started | Running | Warning | Failing | Stopping | Stopped | Exited
  {
    predicate Healthy() {
      this == Running || this == Started
    }
  }

  datatype Task = Task(cluster: string, def: TaskDefinition, deployment: string, instance: int, host: string,
                       scheduled: bool, rejected: bool, rejectReason: string, providedPorts: map<string, nat>)
  {
    function Name(): string {
      TaskName(cluster, deployment)
    }

    function Id(): string {
      IdOf(cluster, deployment, def.version, instance)
    }

    method HasChecks() returns (b: bool)
      ensures b == Checked(def)
    {
      for i := 0 to |def.containers|
        invariant forall k :: 0 <= k < i ==> def.containers[k].checks == 0
      {
        if def.containers[i].checks > 0 {
          return true;
        }
      }
      return false;
    }
  }

  predicate Checked(def: TaskDefinition) {
    exists c :: c in def.containers && c.checks > 0
  }

  function NewTask(cluster: string, def: TaskDefinition, d: Deployment, instance: int): Task {
    Task(cluster, def, d.name, instance, "", false, false, "", map[])
  }

  function MakeTaskId(cluster: string, d: Deployment, i: int): string {
    IdOf(cluster, d.name, d.taskVersion, i)
  }

  /** The id the scheduler looks an instance up under is the id it stores the new task under
      exactly when the definition it was handed has the version the deployment names. */
  lemma NewTaskKeepsMadeId(cluster: string, def: TaskDefinition, d: Deployment, i: int)
    ensures NewTask(cluster, def, d, i).Id() == MakeTaskId(cluster, d, i) <==> def.version == d.taskVersion
  {
    IdInjectiveInCluster(cluster, d.name, def.version, i, d.name, d.taskVersion, i);
  }

  datatype Deployment = Deployment(name: string, scheduler: string, taskName: string, taskVersion: nat,
                                   desired: int, min: int, max: int, maxAttempts: int)
  {
    ghost predicate InRange() {
      min <= desired <= max
    }

    /** `found` is whether the task definition could be read. */
    method Validate(found: bool) returns (errors: seq<string>)
      ensures errors == [] <==> found && name != "" && InRange()
      ensures "task (" + taskName + ") does not exist" in errors <==> !found
      ensures "service name is blank" in errors <==> name == ""
      ensures "min is greater than max" in errors <==> min > max
      ensures "min is greater than desired" in errors <==> min > desired
      ensures "max is less than desired" in errors <==> max < desired
    {
      errors := [];
      ghost var missing := "task (" + taskName + ") does not exist";
      assert missing[0] == 't';
      if !found {
        errors := errors + ["task (" + taskName + ") does not exist"];
        assert errors[0] == missing;
      }
      assert "service name is blank"[0] == 's' && "max is less than desired"[1] == 'a';
      if name == "" {
        errors := errors + ["service name is blank"];
      }
      if min > max {
        errors := errors + ["min is greater than max"];
      }
      if min > desired {
        errors := errors + ["min is greater than desired"];
      }
      if max < desired {
        errors := errors + ["max is less than desired"];
      }
    }
  }
}
