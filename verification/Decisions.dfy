/** What one sync decides, told on the task, the record and the answers alone (agent/agent.go). */
module Decisions {
  import opened Naming
  import opened Api
  import opened Agent

  /** The executor found the process of an essential container dead. */
  ghost predicate ProcessDead(task: Task, ans: Answers) {
    exists k :: 0 <= k < |task.def.containers| && k < |ans.probes|
                && task.def.containers[k].essential && ans.probes[k] == Dead
  }

  ghost predicate ReportedHealthy(ans: Answers) {
    ans.status == Some(Running) || ans.status == Some(Started)
  }

  /** The attempts that count: a healthy report clears them. */
  ghost function Tries(rec: Option<Record>, ans: Answers): int {
    if rec.None? || ReportedHealthy(ans) then 0 else rec.value.attempts
  }

  ghost predicate HasCheck(task: Task) {
    exists c :: c in task.def.containers && c.checks > 0
  }

  /** The deployment is there, the task is to run and is not being started; it has health checks and is not
      healthy, or has none and was never tried; and no start was asked for within the grace period. */
  ghost predicate NeedsStart(task: Task, rec: Option<Record>, ans: Answers) {
    && ans.status.Some? && ans.deployment.Found?
    && task.scheduled && !task.rejected && ans.status != Some(Starting)
    && (if HasCheck(task) then ProcessDead(task, ans) || !ReportedHealthy(ans) else Tries(rec, ans) == 0)
    && (rec.Some? && rec.value.startedAt.Some? ==> rec.value.startedAt.value + task.def.gracePeriod <= ans.now)
  }

  ghost predicate PortsFree(task: Task, ans: Answers) {
    forall p :: p in FixedPorts(task.def.containers) ==> p !in ans.busy
  }

  lemma {:induction false} FirstBusyIsFirst(ports: seq<nat>, busy: set<nat>) returns (k: nat)
    ensures FirstBusy(ports, busy) == None <==> forall p :: p in ports ==> p !in busy
    ensures FirstBusy(ports, busy).Some? ==>
              && k < |ports| && FirstBusy(ports, busy) == Some(ports[k]) && ports[k] in busy
              && forall j :: 0 <= j < k ==> ports[j] !in busy
  {
    k := 0;
    if ports != [] && ports[0] !in busy {
      k := FirstBusyIsFirst(ports[1..], busy);
      assert forall p :: p in ports <==> p == ports[0] || p in ports[1..];
      k := k + 1;
    }
  }

  /** A sync asks for a start exactly if the task needs one, its attempts are within the limit and its ports
      are free. */
  lemma StartsExactly(task: Task, rec: Option<Record>, ans: Answers)
    ensures Sync(task, rec, ans).action == Some(Start(task))
       <==> NeedsStart(task, rec, ans) && Tries(rec, ans) <= ans.deployment.maxAttempts && PortsFree(task, ans)
  {
    var k := FirstBusyIsFirst(FixedPorts(task.def.containers), ans.busy);
  }

  /** It asks for a stop exactly if the task is not to run, and never for anything else. */
  lemma StopsExactly(task: Task, rec: Option<Record>, ans: Answers)
    ensures Sync(task, rec, ans).action == Some(Stop(task))
       <==> ans.status.Some? && ans.deployment.Found? && !task.scheduled
    ensures var act := Sync(task, rec, ans).action; act.Some? ==> act.value == Start(task) || act.value == Stop(task)
  {
  }

  /** It rejects the task, and then says why, exactly if the deployment is gone or the task needs a start that
      the limit or a port forbids; the port named is the first that is not free. */
  lemma RejectsExactly(task: Task, rec: Option<Record>, ans: Answers) returns (k: nat)
    ensures
      var needed, w := NeedsStart(task, rec, ans), Sync(task, rec, ans).written;
      var ports := FixedPorts(task.def.containers);
      if ans.status.Some? && ans.deployment.NoDeployment?
      then w == Some(task.(rejected := true, rejectReason := "no deployment found"))
      else if needed && Tries(rec, ans) > ans.deployment.maxAttempts
      then w == Some(task.(rejected := true, rejectReason := "too many attempts"))
      else if needed && !PortsFree(task, ans)
      then && k < |ports| && ports[k] in ans.busy && (forall j :: 0 <= j < k ==> ports[j] !in ans.busy)
           && w == Some(task.(rejected := true, rejectReason := "port not available: " + Natural(ports[k])))
      else w == None
  {
    k := FirstBusyIsFirst(FixedPorts(task.def.containers), ans.busy);
  }

  /** The record takes over the status and the attempts that count; a start asked for is stamped. Without a
      status nothing changes. */
  lemma RecordExactly(task: Task, rec: Option<Record>, ans: Answers)
    ensures ans.status.None? ==> Sync(task, rec, ans).rec == rec
    ensures ans.status.Some? ==>
              var r, asked := Sync(task, rec, ans).rec, Sync(task, rec, ans).action == Some(Start(task));
              && r.Some?
              && r.value.task == (if rec.Some? then rec.value.task else task)
              && r.value.attempts == Tries(rec, ans)
              && r.value.startedAt ==
                 (if asked then Some(ans.stamp) else if rec.Some? then rec.value.startedAt else None)
              && r.value.state == (if asked then Starting else ans.status.value)
  {
  }

  lemma ExitsExactly(task: Task, rec: Option<Record>, ans: Answers)
    ensures Sync(task, rec, ans).exited <==> ans.status.Some? && ProcessDead(task, ans)
  {
  }
}
