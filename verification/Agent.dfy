/** The agent: what one sync decides about a task, what starting and stopping do to its record, and
    what the host publishes (agent/agent.go, agent/state.go). Clock readings, health answers, process
    probes, port probes and executor results are inputs. */
module Agent {
  import opened Naming
  import opened Api
  import opened Store
  import opened Placement
  import opened Rankers
  import opened Publishing

  /** A task's local record. A record that was never started has the zero time. */
  datatype Record = Record(startedAt: Option<int>, attempts: int, state: Status, task: Task)

  datatype Action = Start(task: Task) | Stop(task: Task)

  /** What the executor says about a container's process; no executor or an error is `Unsure`. */
  datatype Probe = Unsure | Alive | Dead

  datatype Lookup = NoDeployment | Unreadable | Found(maxAttempts: int)

  /** The answers one sync of a task gets. `now` is read for the grace period and `stamp` later. */
  datatype Answers = Answers(status: Option<Status>, probes: seq<Probe>, deployment: Lookup, busy: set<nat>,
                             now: int, stamp: int)

  /** The record looked up, made on first sight; the first task seen stays in it. */
  function RecordFor(rec: Option<Record>, task: Task): Record {
    rec.GetOr(Record(None, 0, Pending, task))
  }

  ghost predicate SomeEssentialDead(cs: seq<Container>, probes: seq<Probe>) {
    exists k :: 0 <= k < |cs| && k < |probes| && cs[k].essential && probes[k] == Dead
  }

  function FirstBusy(ports: seq<nat>, busy: set<nat>): Option<nat> {
    if ports == [] then None
    else if ports[0] in busy then Some(ports[0])
    else FirstBusy(ports[1..], busy)
  }

  predicate Due(task: Task, rec: Record, status: Status) {
    && task.scheduled && !task.rejected && rec.state != Starting
    && ((!status.Healthy() && Checked(task.def)) || (!Checked(task.def) && rec.attempts == 0))
  }

  predicate TooSoon(rec: Record, grace: int, now: int) {
    rec.startedAt.Some? && rec.startedAt.value + grace > now
  }

  function Reject(task: Task, reason: string): Task {
    task.(rejectReason := reason, rejected := true)
  }

  /** What a sync leaves: the record, the task written back if it was rejected, whether the task was
      reported as exited, and the action asked for. */
  datatype Outcome = Outcome(rec: Option<Record>, written: Option<Task>, exited: bool, action: Option<Action>)

  function Refreshed(rec: Option<Record>, task: Task, status: Status): Record {
    var r := RecordFor(rec, task).(state := status);
    if status.Healthy() then r.(attempts := 0) else r
  }

  ghost function Sync(task: Task, rec: Option<Record>, ans: Answers): Outcome {
    if ans.status == None then Outcome(rec, None, false, None)
    else
      var r := Refreshed(rec, task, ans.status.value);
      var exited := SomeEssentialDead(task.def.containers, ans.probes);
      match ans.deployment
      case NoDeployment => Outcome(Some(r), Some(Reject(task, "no deployment found")), exited, None)
      case Unreadable => Outcome(Some(r), None, exited, None)
      case Found(maxAttempts) =>
        var d := Decide(task, r, if exited then Exited else ans.status.value, maxAttempts, ans);
        Outcome(Some(d.rec), d.written, exited, d.action)
  }

  datatype Decision = Decision(rec: Record, written: Option<Task>, action: Option<Action>)

  /** Whether to start the task, reject it, stop it or leave it. */
  function Decide(task: Task, r: Record, status: Status, maxAttempts: int, ans: Answers): Decision {
    if Due(task, r, status) then
      var busy := FirstBusy(FixedPorts(task.def.containers), ans.busy);
      if TooSoon(r, task.def.gracePeriod, ans.now) then Decision(r, None, None)
      else if r.attempts > maxAttempts then Decision(r, Some(Reject(task, "too many attempts")), None)
      else if busy.Some? then Decision(r, Some(Reject(task, "port not available: " + Natural(busy.value))), None)
      else Decision(r.(startedAt := Some(ans.stamp), state := Starting), None, Some(Start(task)))
    else if !task.scheduled then Decision(r, None, Some(Stop(task)))
    else Decision(r, None, None)
  }

  /** The record once a start has begun. */
  function Begun(rec: Option<Record>, task: Task, now: int): Record {
    var r := RecordFor(rec, task);
    r.(state := Starting, startedAt := Some(now), attempts := r.attempts + 1)
  }

  function RecordAt(states: map<string, Record>, id: string): Option<Record> {
    if id in states then Some(states[id]) else None
  }

  function WithRecord(states: map<string, Record>, id: string, rec: Option<Record>): map<string, Record> {
    if rec.Some? then states[id := rec.value] else states - {id}
  }

  lemma SameRecord(states: map<string, Record>, id: string)
    ensures WithRecord(states, id, RecordAt(states, id)) == states
  {
  }

  lemma WrittenTwice(states: map<string, Record>, id: string, r: Record, r': Record)
    ensures states[id := r][id := r'] == states[id := r']
  {
  }

  /** What the executor made of starting or stopping one container. */
  datatype Result = NoExecutor | Failed | Done

  function Definitions(states: map<string, Record>): map<string, TaskDefinition> {
    map id | id in states :: states[id].task.def
  }

  class Agent {
    const api: MockStore
    var states: map<string, Record>

    constructor (api: MockStore)
      ensures this.api == api && states == map[]
    {
      this.api := api;
      states := map[];
    }

    method Get(id: string, task: Task) returns (r: Record)
      modifies `states
      ensures r == RecordFor(RecordAt(old(states), id), task) && states == old(states)[id := r]
      ensures r == if id in old(states) then old(states)[id] else Record(None, 0, Pending, task)
    {
      if id !in states {
        states := states[id := Record(None, 0, Pending, task)];
      }
      r := states[id];
    }

    method Del(id: string)
      modifies `states
      ensures states == old(states) - {id}
    {
      if id in states {
        states := states - {id};
      }
    }

    /** Decide about one task and carry out what is decided at once; starts and stops are only asked for. */
    method SyncTask(t: Task, ans: Answers) returns (act: Option<Action>)
      modifies `states, api`tasks, api`log, api`health
      ensures
        var o := Sync(t, RecordAt(old(states), t.Id()), ans);
        && act == o.action
        && states == WithRecord(old(states), t.Id(), o.rec)
        && api.tasks == (if o.written.Some? then old(api.tasks)[t.Id() := o.written.value] else old(api.tasks))
        && api.health == (if o.exited then old(api.health)[t.Id() := Exited] else old(api.health))
    {
      if ans.status.None? {
        SameRecord(states, t.Id());
        return None;
      }
      var state := Refresh(t, ans.status.value);
      var taskState := CheckProcesses(t, ans.probes, ans.status.value);
      ghost var between := states;
      act := Resolve(t, state, taskState, ans);
      WrittenTwice(old(states), t.Id(), state, states[t.Id()]);
      assert states == between[t.Id() := states[t.Id()]];
    }

    /** Take over the reported status; a healthy one clears the attempts. */
    method Refresh(t: Task, status: Status) returns (state: Record)
      modifies `states
      ensures state == Refreshed(RecordAt(old(states), t.Id()), t, status)
      ensures states == old(states)[t.Id() := state]
    {
      state := Get(t.Id(), t);
      state := state.(state := status);
      if state.state.Healthy() {
        state := state.(attempts := 0);
      }
      states := states[t.Id() := state];
    }

    /** What follows once the processes are checked: no deployment means rejection. */
    method Resolve(t: Task, state: Record, taskState: Status, ans: Answers) returns (act: Option<Action>)
      requires t.Id() in states && states[t.Id()] == state
      modifies `states, api`tasks, api`log
      ensures ans.deployment.Found? ==>
                var o := Decide(t, state, taskState, ans.deployment.maxAttempts, ans);
                && act == o.action && states == old(states)[t.Id() := o.rec]
                && api.tasks == if o.written.Some? then old(api.tasks)[t.Id() := o.written.value] else old(api.tasks)
      ensures ans.deployment.Unreadable? ==> act == None && states == old(states) && api.tasks == old(api.tasks)
      ensures ans.deployment.NoDeployment? ==>
                && act == None && states == old(states)
                && api.tasks == old(api.tasks)[t.Id() := Reject(t, "no deployment found")]
    {
      if ans.deployment.NoDeployment? {
        RejectTask(t, "no deployment found");
        return None;
      }
      if ans.deployment.Unreadable? {
        return None;
      }
      act := TryStart(t, state, taskState, ans.deployment.maxAttempts, ans);
    }

    /** The loop over the essential containers: a dead process makes the task exited. */
    method CheckProcesses(t: Task, probes: seq<Probe>, status: Status) returns (status': Status)
      modifies api`health
      ensures
        var dead := SomeEssentialDead(t.def.containers, probes);
        && status' == (if dead then Exited else status)
        && api.health == (if dead then old(api.health)[t.Id() := Exited] else old(api.health))
    {
      status' := status;
      var cs := t.def.containers;
      for k := 0 to |cs|
        invariant status' == if SomeEssentialDead(cs[..k], probes) then Exited else status
        invariant api.health == if SomeEssentialDead(cs[..k], probes) then old(api.health)[t.Id() := Exited]
                                else old(api.health)
      {
        ProbeOneMore(cs, probes, k);
        if cs[k].essential && k < |probes| && probes[k] == Dead {
          api.PutTaskState(t.Id(), Exited);
          status' := Exited;
        }
      }
      assert cs[..|cs|] == cs;
    }

    /** Write the task back as rejected. */
    method RejectTask(t: Task, reason: string)
      modifies api`tasks, api`log
      ensures api.tasks == old(api.tasks)[t.Id() := Reject(t, reason)]
    {
      var task := t;
      task := task.(rejectReason := reason);
      task := task.(rejected := true);
      api.PutTask(task);
    }

    /** The last part of the sync, once the deployment is known. */
    method TryStart(t: Task, state: Record, taskState: Status, maxAttempts: int, ans: Answers)
      returns (act: Option<Action>)
      requires t.Id() in states && states[t.Id()] == state
      modifies `states, api`tasks, api`log
      ensures
        var o := Decide(t, state, taskState, maxAttempts, ans);
        && act == o.action
        && states == old(states)[t.Id() := o.rec]
        && api.tasks == (if o.written.Some? then old(api.tasks)[t.Id() := o.written.value] else old(api.tasks))
    {
      var checks := t.HasChecks();
      if t.scheduled && !t.rejected && state.state != Starting &&
         ((!taskState.Healthy() && checks) || (!checks && state.attempts == 0))
      {
        if state.startedAt.Some? && state.startedAt.value + t.def.gracePeriod > ans.now {
          return None;
        }
        if state.attempts > maxAttempts {
          RejectTask(t, "too many attempts");
          return None;
        }
        var busy := BusyPort(t, ans.busy);
        if busy.Some? {
          RejectTask(t, "port not available: " + Natural(busy.value));
          return None;
        }
        states := states[t.Id() := state.(startedAt := Some(ans.stamp), state := Starting)];
        return Some(Start(t));
      }
      if !t.scheduled {
        return Some(Stop(t));
      }
      return None;
    }

    /** The loop that tries to bind each fixed port. */
    static method BusyPort(t: Task, busy: set<nat>) returns (port: Option<nat>)
      ensures port == FirstBusy(FixedPorts(t.def.containers), busy)
    {
      var ports := t.def.AllPorts();
      for k := 0 to |ports|
        invariant FirstBusy(ports, busy) == FirstBusy(ports[k..], busy)
      {
        if ports[k] in busy {
          return Some(ports[k]);
        }
      }
      return None;
    }

    /** Start a task's containers in order. The attempt counts from its beginning, whatever becomes of
        the containers; the task is reported started only if all of them ran. */
    method StartTask(t: Task, putOk: bool, now: int, results: seq<Result>) returns (ok: bool)
      requires |results| == |t.def.containers|
      modifies `states, api`health
      ensures !putOk ==> !ok && states == old(states) && api.health == old(api.health)
      ensures putOk ==>
                && states == old(states)[t.Id() := Begun(RecordAt(old(states), t.Id()), t, now)]
                && states[t.Id()].startedAt == Some(now) && states[t.Id()].state == Starting
                && states[t.Id()].attempts == 1 + (if t.Id() in old(states) then old(states)[t.Id()].attempts else 0)
                && states[t.Id()].task == (if t.Id() in old(states) then old(states)[t.Id()].task else t)
                && ok == (forall k :: 0 <= k < |results| ==> results[k] == Done)
                && api.health == old(api.health)[t.Id() := if ok then Started else Starting]
    {
      if !putOk {
        return false;
      }
      api.PutTaskState(t.Id(), Starting);
      var state := Get(t.Id(), t);
      state := state.(state := Starting);
      state := state.(startedAt := Some(now));
      state := state.(attempts := state.attempts + 1);
      states := states[t.Id() := state];
      for k := 0 to |t.def.containers|
        invariant forall j :: 0 <= j < k ==> results[j] == Done
      {
        if results[k] != Done {
          return false;
        }
      }
      api.PutTaskState(t.Id(), Started);
      return true;
    }

    /** Stop a task's containers in order and forget the task; a container that will not stop keeps it. */
    method StopTask(t: Task, putOk: bool, results: seq<Result>) returns (ok: bool)
      requires |results| == |t.def.containers|
      modifies `states, api`tasks, api`log, api`health
      ensures ok == (putOk && forall k :: 0 <= k < |results| ==> results[k] != Failed)
      ensures ok ==> states == old(states) - {t.Id()} && api.tasks == old(api.tasks) - {t.Id()}
      ensures !ok ==> states == old(states) && api.tasks == old(api.tasks)
      ensures api.health == if putOk then old(api.health)[t.Id() := if ok then Stopped else Stopping]
                            else old(api.health)
    {
      if !putOk {
        return false;
      }
      api.PutTaskState(t.Id(), Stopping);
      for k := 0 to |t.def.containers|
        invariant forall j :: 0 <= j < k ==> results[j] != Failed
      {
        if results[k] == Failed {
          return false;
        }
      }
      api.DelTask(t);
      Del(t.Id());
      api.PutTaskState(t.Id(), Stopped);
      return true;
    }

    /** Take what the recorded tasks use off the host's own resources. */
    method PublishState(base: Resources) returns (view: HostView, ghost order: seq<string>)
      ensures Enumerates(order, Definitions(states).Keys) && forall id :: id in order ==> id in Definitions(states)
      ensures Definitions(states).Keys == states.Keys
      ensures forall id :: id in states ==> Definitions(states)[id] == states[id].task.def
      ensures view == Published(base, InOrder(order, Definitions(states)))
      ensures OfferedInAnyOrder(view, base, Definitions(states))
    {
      var used, reserved;
      used, reserved, order := AddUp();
      PublishedAlike(base, order, Definitions(states));
      view := HostView(base.memory - used.memory, base.cpuUnits - used.cpuUnits, base.diskSpace - used.diskUse,
                       reserved);
    }

    /** The loop over the recorded tasks, met in any order. */
    method AddUp() returns (used: Counts, reserved: seq<nat>, ghost order: seq<string>)
      ensures Charged(order, Definitions(states).Keys, Definitions(states), used, reserved)
    {
      reserved := [];
      used := Usage(0, 0, 0);
      ghost var defs := Definitions(states);
      order := [];
      var todo := states.Keys;
      while todo != {}
        invariant todo <= defs.Keys && Charged(order, defs.Keys - todo, defs, used, reserved)
        decreases todo
      {
        var id :| id in todo;
        used, reserved := Charge(states[id].task.def, used, reserved);
        ChargedOneMore(order, todo, defs, id);
        order := order + [id];
        todo := todo - {id};
      }
      assert defs.Keys - todo == defs.Keys;
    }

    /** Add one recorded task to the totals. */
    static method Charge(def: TaskDefinition, used: Counts, reserved: seq<nat>)
      returns (used': Counts, reserved': seq<nat>)
      ensures used' == used.Plus(TotalCounts(def.containers)) && reserved' == reserved + FixedPorts(def.containers)
    {
      var all := def.AllPorts();
      FixedPortsMember(def.containers, 0);
      var open := WithoutZero(all);
      reserved' := reserved + open;
      var counts := def.Counts();
      used' := Usage(used.memory + counts.memory, used.cpuUnits + counts.cpuUnits, used.diskUse + counts.diskUse);
    }

    /** The loop over a definition's ports, which skips port zero; there is none to skip. */
    static method WithoutZero(ports: seq<nat>) returns (open: seq<nat>)
      ensures 0 !in ports ==> open == ports
      ensures forall p :: p in open <==> p in ports && p != 0
    {
      open := [];
      for k := 0 to |ports|
        invariant 0 !in ports ==> open == ports[..k]
        invariant forall p :: p in open <==> p in ports[..k] && p != 0
      {
        assert ports[..k + 1] == ports[..k] + [ports[k]];
        if ports[k] == 0 {
          continue;
        }
        open := open + [ports[k]];
      }
      assert ports[..|ports|] == ports;
    }
  }

  /** Some order of exactly these keys. */
  ghost predicate Ordering(o: seq<string>, keys: set<string>) {
    Enumerates(o, keys) && forall k :: k in o ==> k in keys
  }

  /** What the tasks met so far take. */
  ghost predicate Charged(order: seq<string>, met: set<string>, defs: map<string, TaskDefinition>, used: Counts,
                          reserved: seq<nat>)
  {
    && Enumerates(order, met) && (forall id :: id in order ==> id in defs)
    && used == Used(InOrder(order, defs)) && reserved == UsedPorts(InOrder(order, defs))
  }

  lemma ChargedOneMore(order: seq<string>, todo: set<string>, defs: map<string, TaskDefinition>, id: string)
    requires id in todo && todo <= defs.Keys
    requires Enumerates(order, defs.Keys - todo) && forall o :: o in order ==> o in defs
    ensures Charged(order + [id], defs.Keys - (todo - {id}), defs,
                    Used(InOrder(order, defs)).Plus(TotalCounts(defs[id].containers)),
                    UsedPorts(InOrder(order, defs)) + FixedPorts(defs[id].containers))
  {
    InOrderSnoc(order, id, defs);
    UsedSnoc(InOrder(order, defs), defs[id]);
    EnumerateOneMore(order, defs.Keys, todo, id);
  }

  /** Every order of the tasks would publish the same resources and ports. */
  ghost predicate OfferedInAnyOrder(view: HostView, base: Resources, defs: map<string, TaskDefinition>) {
    forall o :: Ordering(o, defs.Keys) ==> SameOffer(view, Published(base, InOrder(o, defs)))
  }

  lemma PublishedAlike(base: Resources, order: seq<string>, defs: map<string, TaskDefinition>)
    requires Ordering(order, defs.Keys)
    ensures OfferedInAnyOrder(Published(base, InOrder(order, defs)), base, defs)
  {
    forall o | Ordering(o, defs.Keys)
      ensures SameOffer(Published(base, InOrder(order, defs)), Published(base, InOrder(o, defs)))
    {
      InOrderPermutes(order, o, defs);
      PublishedInAnyOrder(base, InOrder(order, defs), InOrder(o, defs));
    }
  }

  lemma ProbeOneMore(cs: seq<Container>, probes: seq<Probe>, k: nat)
    requires k < |cs|
    ensures SomeEssentialDead(cs[..k + 1], probes) <==>
              SomeEssentialDead(cs[..k], probes) || (cs[k].essential && k < |probes| && probes[k] == Dead)
  {
    assert cs[..k + 1] == cs[..k] + [cs[k]];
    if SomeEssentialDead(cs[..k], probes) {
      var j :| 0 <= j < k && j < |probes| && cs[..k][j].essential && probes[j] == Dead;
      assert cs[..k + 1][j] == cs[..k][j];
    }
    if cs[k].essential && k < |probes| && probes[k] == Dead {
      assert cs[..k + 1][k] == cs[k];
    }
  }
}
