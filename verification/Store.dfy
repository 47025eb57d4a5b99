/** The task store: the in-memory reference store and the key-value store with its prefix scan
    (backends/mock/mock_api.go, backends/consul/consul_api.go). */
module Store {
  import opened Naming
  import opened Api
  import opened Collections

  type Tasks = map<string, Task>

  datatype TaskQuery = TaskQuery(byCluster: string, byDeployment: string, byHost: string,
                                 running: bool, scheduled: bool, failing: bool, rejected: bool)

  /** A store holds every record under the record's own id. */
  ghost predicate Keyed(tasks: Tasks) {
    forall id :: id in tasks ==> tasks[id].Id() == id
  }

  /** The record passes every filter of the query; an empty string does not filter. */
  ghost predicate Wanted(q: TaskQuery, t: Task, status: Status) {
    && (q.failing ==> !status.Healthy())
    && (q.running ==> status.Healthy())
    && (q.scheduled ==> t.scheduled)
    && (q.rejected ==> t.rejected)
    && (q.byHost != "" ==> t.host == q.byHost)
    && (q.byCluster != "" ==> t.cluster == q.byCluster)
    && (q.byDeployment != "" ==> t.deployment == q.byDeployment)
  }

  /** The records of a full scan that the query wants. */
  ghost function Select(tasks: Tasks, q: TaskQuery, health: Task -> Status): Tasks {
    map id | id in tasks && Wanted(q, tasks[id], health(tasks[id])) :: tasks[id]
  }

  /** `ts` is the records of `m`, each once, in some order. */
  ghost predicate Lists(ts: seq<Task>, m: Tasks) {
    |ts| == |m| && forall t :: t in ts <==> Holds(m, t)
  }

  ghost predicate Holds(m: Tasks, t: Task) {
    exists id :: id in m && m[id] == t
  }

  /** The wanted records among those the iteration has left behind. */
  ghost function Seen(tasks: Tasks, todo: set<string>, q: TaskQuery, health: Task -> Status): Tasks {
    map id | id in tasks && id !in todo && Wanted(q, tasks[id], health(tasks[id])) :: tasks[id]
  }

  lemma SeenOneMore(tasks: Tasks, todo: set<string>, q: TaskQuery, health: Task -> Status, id: string, ts: seq<Task>)
    requires id in todo && id in tasks
    requires Lists(ts, Seen(tasks, todo, q, health))
    ensures Wanted(q, tasks[id], health(tasks[id])) ==> Lists(ts + [tasks[id]], Seen(tasks, todo - {id}, q, health))
    ensures !Wanted(q, tasks[id], health(tasks[id])) ==> Lists(ts, Seen(tasks, todo - {id}, q, health))
  {
    var seen, next := Seen(tasks, todo, q, health), Seen(tasks, todo - {id}, q, health);
    if Wanted(q, tasks[id], health(tasks[id])) {
      assert next == seen[id := tasks[id]];
      ListsOneMore(ts, seen, id, tasks[id]);
    } else {
      assert next == seen;
    }
  }

  lemma ListsOneMore(ts: seq<Task>, m: Tasks, id: string, t: Task)
    requires Lists(ts, m) && id !in m
    ensures Lists(ts + [t], m[id := t])
  {
    var m' := m[id := t];
    assert m'.Keys == m.Keys + {id};
    assert id in m' && m'[id] == t;
    forall x | Holds(m, x) ensures Holds(m', x) {
      var i :| i in m && m[i] == x;
      assert i in m' && m'[i] == x;
    }
  }

  function StatusIn(health: map<string, Status>): Task -> Status {
    (t: Task) => if t.Id() in health then health[t.Id()] else Pending
  }

  class MockStore {
    var tasks: Tasks
    var health: map<string, Status>
    var deployments: map<string, Deployment>
    /** What the task table looked like after each write. */
    ghost var log: seq<Tasks>

    constructor ()
      ensures tasks == map[] && health == map[] && deployments == map[] && log == []
    {
      tasks, health, deployments, log := map[], map[], map[], [];
    }

    method PutTask(t: Task)
      modifies `tasks, `log
      ensures tasks == old(tasks)[t.Id() := t]
      ensures log == old(log) + [tasks]
    {
      tasks := tasks[t.Id() := t];
      log := log + [tasks];
    }

    method DelTask(t: Task)
      modifies `tasks, `log
      ensures tasks == old(tasks) - {t.Id()}
      ensures log == old(log) + [tasks]
    {
      if t.Id() in tasks {
        tasks := tasks - {t.Id()};
      }
      log := log + [tasks];
    }

    method GetTaskState(t: Task) returns (status: Status)
      ensures status == StatusIn(health)(t)
      ensures status == if t.Id() in health then health[t.Id()] else Pending
    {
      status := if t.Id() in health then health[t.Id()] else Pending;
    }

    method PutTaskState(id: string, status: Status)
      modifies `health
      ensures health == old(health)[id := status]
    {
      health := health[id := status];
    }

    /** The map is iterated in any order. */
    method ListTasks(q: TaskQuery) returns (ts: seq<Task>)
      ensures Lists(ts, Select(tasks, q, StatusIn(health)))
    {
      ts := [];
      var todo := tasks.Keys;
      while todo != {}
        invariant todo <= tasks.Keys
        invariant Lists(ts, Seen(tasks, todo, q, StatusIn(health)))
        decreases todo
      {
        var id :| id in todo;
        SeenOneMore(tasks, todo, q, StatusIn(health), id, ts);
        todo := todo - {id};
        var t := tasks[id];
        if q.failing || q.running {
          var state := GetTaskState(t);
          if q.failing && state.Healthy() {
            continue;
          } else if q.running && !state.Healthy() {
            continue;
          }
        }
        if q.scheduled && !t.scheduled { continue; }
        if q.rejected && !t.rejected { continue; }
        if q.byHost != "" && t.host != q.byHost { continue; }
        if q.byCluster != "" && q.byCluster != t.cluster { continue; }
        if q.byDeployment != "" && q.byDeployment != t.deployment { continue; }
        ts := ts + [t];
      }
      assert Seen(tasks, todo, q, StatusIn(health)) == Select(tasks, q, StatusIn(health));
    }
  }

  const TASK_PREFIX := "state/tasks/"

  function ScanPrefix(q: TaskQuery): string {
    if q.byCluster != "" && q.byDeployment != "" then TASK_PREFIX + q.byCluster + "-" + q.byDeployment
    else if q.byCluster != "" then TASK_PREFIX + q.byCluster + "-"
    else TASK_PREFIX
  }

  /** The entries whose key starts with the prefix. */
  function Under(kv: Tasks, prefix: string): Tasks {
    map key | key in kv && prefix <= key :: kv[key]
  }

  /** The entries under the query's prefix that pass its filters. */
  ghost function Scan(kv: Tasks, q: TaskQuery, health: Task -> Status): Tasks {
    Select(Under(kv, ScanPrefix(q)), q, health)
  }

  /** Reading a status can fail; `Known` is the answers where it does not. */
  function Known(health: Task -> Option<Status>): Task -> Status {
    (t: Task) => if health(t).Some? then health(t).value else Pending
  }

  ghost predicate AllKnown(entries: Tasks, todo: set<string>, health: Task -> Option<Status>) {
    forall key :: key in entries && key !in todo ==> health(entries[key]).Some?
  }

  class ConsulStore {
    var kv: Tasks

    method PutTask(t: Task)
      modifies this
      ensures kv == old(kv)[TASK_PREFIX + t.Id() := t]
    {
      kv := kv[TASK_PREFIX + t.Id() := t];
    }

    method DelTask(t: Task)
      modifies this
      ensures kv == old(kv) - {TASK_PREFIX + t.Id()}
    {
      kv := kv - {TASK_PREFIX + t.Id()};
    }

    /** Fails exactly when the query asks for health and some entry under the prefix has none to read. */
    method ListTasks(q: TaskQuery, health: Task -> Option<Status>) returns (ts: seq<Task>, failed: bool)
      ensures failed <==> (q.failing || q.running) && exists key ::
                            key in kv && Reaches(q, key) && health(kv[key]).None?
      ensures !failed ==> Lists(ts, Scan(kv, q, Known(health)))
    {
      var prefix := TASK_PREFIX;
      if q.byCluster != "" && q.byDeployment != "" {
        prefix := prefix + q.byCluster + "-" + q.byDeployment;
      } else if q.byCluster != "" {
        prefix := prefix + q.byCluster + "-";
      }
      ts, failed := Collect(Under(kv, prefix), q, health);
      UnreadableUnder(kv, q, health);
    }

    /** The loop over the entries found, in any order. */
    static method Collect(entries: Tasks, q: TaskQuery, health: Task -> Option<Status>)
      returns (ts: seq<Task>, failed: bool)
      ensures failed <==> (q.failing || q.running) && !AllKnown(entries, {}, health)
      ensures !failed ==> Lists(ts, Select(entries, q, Known(health)))
    {
      ts, failed := [], false;
      var todo := entries.Keys;
      while todo != {}
        invariant todo <= entries.Keys
        invariant q.failing || q.running ==> AllKnown(entries, todo, health)
        invariant Lists(ts, Seen(entries, todo, q, Known(health)))
        decreases todo
      {
        var key :| key in todo;
        SeenOneMore(entries, todo, q, Known(health), key, ts);
        var t := entries[key];
        var answer := health(t);
        if (q.failing || q.running) && answer.None? {
          return ts, true;
        }
        todo := todo - {key};
        if q.failing || q.running {
          if q.failing && answer.value.Healthy() {
            continue;
          } else if q.running && !answer.value.Healthy() {
            continue;
          }
        }
        if q.scheduled && !t.scheduled { continue; }
        if q.rejected && !t.rejected { continue; }
        if q.byHost != "" && t.host != q.byHost { continue; }
        if q.byCluster != "" && q.byCluster != t.cluster { continue; }
        if q.byDeployment != "" && q.byDeployment != t.deployment { continue; }
        ts := ts + [t];
      }
      assert Seen(entries, todo, q, Known(health)) == Select(entries, q, Known(health));
    }
  }

  /** The key is a task's, of the cluster and with a deployment's name as asked for. */
  ghost predicate Reaches(q: TaskQuery, key: string) {
    && "state/tasks/" <= key
    && (q.byCluster != "" ==> "state/tasks/" + q.byCluster + "-" <= key)
    && (q.byCluster != "" && q.byDeployment != "" ==> "state/tasks/" + q.byCluster + "-" + q.byDeployment <= key)
  }

  lemma ScanReaches(q: TaskQuery, key: string)
    ensures ScanPrefix(q) <= key <==> Reaches(q, key)
  {
    PrefixOfPrefix(TASK_PREFIX, q.byCluster + "-", key);
    assert TASK_PREFIX + (q.byCluster + "-") == TASK_PREFIX + q.byCluster + "-";
    PrefixOfPrefix(TASK_PREFIX + q.byCluster + "-", q.byDeployment, key);
  }

  /** The entries that a scan can fail on. */
  lemma UnreadableUnder(kv: Tasks, q: TaskQuery, health: Task -> Option<Status>)
    ensures !AllKnown(Under(kv, ScanPrefix(q)), {}, health)
       <==> exists key :: key in kv && Reaches(q, key) && health(kv[key]).None?
  {
    forall key ensures key in Under(kv, ScanPrefix(q)) <==> key in kv && Reaches(q, key) {
      ScanReaches(q, key);
    }
  }

  lemma PrefixOfPrefix(a: string, b: string, s: string)
    ensures a + b <= s ==> a <= s
  {
    if a + b <= s {
      assert a == (a + b)[..|a|];
    }
  }

  // ----- The filters -----

  lemma NoFilterWantsAll(t: Task, status: Status)
    ensures Wanted(TaskQuery("", "", "", false, false, false, false), t, status)
  {
  }

  /** Each filter, beside whatever others, keeps exactly the records it names. */
  lemma ClusterNarrows(q: TaskQuery, t: Task, status: Status, x: string)
    requires x != ""
    ensures Wanted(q.(byCluster := x), t, status) <==> Wanted(q.(byCluster := ""), t, status) && t.cluster == x
  {
  }

  lemma DeploymentNarrows(q: TaskQuery, t: Task, status: Status, x: string)
    requires x != ""
    ensures Wanted(q.(byDeployment := x), t, status) <==> Wanted(q.(byDeployment := ""), t, status) && t.deployment == x
  {
  }

  lemma HostNarrows(q: TaskQuery, t: Task, status: Status, x: string)
    requires x != ""
    ensures Wanted(q.(byHost := x), t, status) <==> Wanted(q.(byHost := ""), t, status) && t.host == x
  {
  }

  lemma FlagsNarrow(q: TaskQuery, t: Task, status: Status)
    ensures Wanted(q.(scheduled := true), t, status) <==> Wanted(q.(scheduled := false), t, status) && t.scheduled
    ensures Wanted(q.(rejected := true), t, status) <==> Wanted(q.(rejected := false), t, status) && t.rejected
  {
  }

  lemma HealthNarrows(q: TaskQuery, t: Task, status: Status)
    ensures Wanted(q.(running := true), t, status)
       <==> Wanted(q.(running := false), t, status) && (status == Running || status == Started)
    ensures Wanted(q.(failing := true), t, status)
       <==> Wanted(q.(failing := false), t, status) && status != Running && status != Started
  {
  }

  /** The key-value store holds the same records, each under the prefixed id. */
  ghost predicate Represents(kv: Tasks, tasks: Tasks) {
    && (forall id :: id in tasks ==> TASK_PREFIX + id in kv && kv[TASK_PREFIX + id] == tasks[id])
    && (forall key :: key in kv ==> TASK_PREFIX <= key && key[|TASK_PREFIX|..] in tasks)
  }

  lemma PutKeepsRepresents(kv: Tasks, tasks: Tasks, t: Task)
    requires Represents(kv, tasks)
    ensures Represents(kv[TASK_PREFIX + t.Id() := t], tasks[t.Id() := t])
  {
    PrefixedKeys(kv, tasks);
    var id := t.Id();
    var kv', tasks' := kv[TASK_PREFIX + id := t], tasks[id := t];
    forall key | key in kv' ensures TASK_PREFIX <= key && key[|TASK_PREFIX|..] in tasks' {
      if key == TASK_PREFIX + id {
        assert key[|TASK_PREFIX|..] == id;
      }
    }
    forall i | i in tasks' ensures TASK_PREFIX + i in kv' && kv'[TASK_PREFIX + i] == tasks'[i] {
      SamePrefix(i, id);
    }
  }

  /** A put or a delete in both stores keeps them in agreement. */
  lemma WritesKeepRepresents(kv: Tasks, tasks: Tasks, t: Task)
    requires Represents(kv, tasks) && Keyed(tasks)
    ensures Keyed(tasks[t.Id() := t]) && Represents(kv[TASK_PREFIX + t.Id() := t], tasks[t.Id() := t])
    ensures Keyed(tasks - {t.Id()}) && Represents(kv - {TASK_PREFIX + t.Id()}, tasks - {t.Id()})
  {
    PutKeepsRepresents(kv, tasks, t);
    RepresentsWithout(kv, tasks, t.Id());
  }

  lemma SamePrefix(i: string, j: string)
    ensures TASK_PREFIX + i == TASK_PREFIX + j <==> i == j
  {
    assert (TASK_PREFIX + i)[|TASK_PREFIX|..] == i && (TASK_PREFIX + j)[|TASK_PREFIX|..] == j;
  }

  lemma PrefixedKeys(kv: Tasks, tasks: Tasks)
    requires Represents(kv, tasks)
    ensures forall key :: key in kv ==> key == TASK_PREFIX + key[|TASK_PREFIX|..]
  {
  }

  /** A record the query wants always lies under the query's prefix. */
  lemma WantedLiesUnderPrefix(q: TaskQuery, t: Task, status: Status)
    requires Wanted(q, t, status)
    ensures ScanPrefix(q) <= TASK_PREFIX + t.Id()
  {
    var tail := "-" + Natural(t.def.version) + "-" + Integer(t.instance);
    assert t.Id() == t.Name() + tail;
    if q.byCluster != "" {
      assert TASK_PREFIX + t.Id() == (TASK_PREFIX + t.cluster + "-") + (t.deployment + tail);
      assert TASK_PREFIX + t.Id() == (TASK_PREFIX + t.cluster + "-" + t.deployment) + tail;
    }
  }

  /** The prefix scan finds exactly the records of the full scan, for every query and every health. */
  lemma PrefixScanAgrees(kv: Tasks, tasks: Tasks, q: TaskQuery, health: Task -> Status)
    requires Keyed(tasks) && Represents(kv, tasks)
    ensures Represents(Scan(kv, q, health), Select(tasks, q, health))
    ensures |Scan(kv, q, health)| == |Select(tasks, q, health)|
    ensures forall ts :: Lists(ts, Scan(kv, q, health)) <==> Lists(ts, Select(tasks, q, health))
  {
    var scan, full := Scan(kv, q, health), Select(tasks, q, health);
    ScanRepresentsSelect(kv, tasks, q, health);
    SameSize(scan, full);
    forall ts ensures Lists(ts, scan) <==> Lists(ts, full) {
      SameListing(ts, scan, full);
    }
  }

  lemma SameListing(ts: seq<Task>, kv: Tasks, tasks: Tasks)
    requires Represents(kv, tasks)
    ensures Lists(ts, kv) <==> Lists(ts, tasks)
  {
    SameSize(kv, tasks);
    forall t: Task ensures Holds(kv, t) <==> Holds(tasks, t) {
      SameRecords(kv, tasks, t);
    }
  }

  lemma ScanRepresentsSelect(kv: Tasks, tasks: Tasks, q: TaskQuery, health: Task -> Status)
    requires Keyed(tasks) && Represents(kv, tasks)
    ensures Represents(Scan(kv, q, health), Select(tasks, q, health))
  {
    var scan, full := Scan(kv, q, health), Select(tasks, q, health);
    forall id | id in full ensures TASK_PREFIX + id in scan && scan[TASK_PREFIX + id] == full[id] {
      WantedLiesUnderPrefix(q, full[id], health(full[id]));
    }
    PrefixedKeys(kv, tasks);
    forall key | key in scan ensures TASK_PREFIX <= key && key[|TASK_PREFIX|..] in full {
      assert key in kv && kv[key] == scan[key] == tasks[key[|TASK_PREFIX|..]];
    }
  }

  lemma SameRecords(kv: Tasks, tasks: Tasks, t: Task)
    requires Represents(kv, tasks)
    ensures Holds(kv, t) <==> Holds(tasks, t)
  {
    PrefixedKeys(kv, tasks);
    if Holds(kv, t) {
      var key :| key in kv && kv[key] == t;
      assert key[|TASK_PREFIX|..] in tasks;
    }
    if Holds(tasks, t) {
      var id :| id in tasks && tasks[id] == t;
      assert TASK_PREFIX + id in kv;
    }
  }

  lemma {:induction false} SameSize(kv: Tasks, tasks: Tasks)
    requires Represents(kv, tasks)
    ensures |kv| == |tasks|
    decreases |tasks|
  {
    if tasks == map[] {
      assert kv.Keys == {};
    } else {
      var id :| id in tasks;
      RepresentsWithout(kv, tasks, id);
      SameSize(kv - {TASK_PREFIX + id}, tasks - {id});
      WithoutKey(kv, TASK_PREFIX + id);
      WithoutKey(tasks, id);
    }
  }

  lemma RepresentsWithout(kv: Tasks, tasks: Tasks, id: string)
    requires Represents(kv, tasks)
    ensures Represents(kv - {TASK_PREFIX + id}, tasks - {id})
  {
    PrefixedKeys(kv, tasks);
    forall i | i in tasks ensures TASK_PREFIX + i == TASK_PREFIX + id <==> i == id {
      SamePrefix(i, id);
    }
  }
}
