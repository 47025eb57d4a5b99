/** One task on one agent over time: syncs that queue starts, runners that execute them at any later
    moment and in any order, and stops that forget the record (agent/agent.go, agent/state.go). */
module Attempts {
  import opened Api
  import opened Agent
  import opened Decisions

  /** `recent` are the stamps of the starts in flight queued since the last stop, `stale` counts those
      queued before it, `debt` how many were in flight when that stop was executed, and `last` is the
      stamp of the latest start asked for since it. */
  datatype World = World(rec: Option<Record>, clock: int, recent: seq<int>, stale: nat, debt: nat, last: Option<int>)

  /** `accepted` is whether the queue took the action before the sync gave up on it. */
  datatype Event =
    | Synced(task: Task, ans: Answers, accepted: bool)
    | RanRecent(task: Task, k: nat, putOk: bool, now: int)
    | RanStale(task: Task, putOk: bool, now: int)
    | Stopped(now: int)

  ghost predicate AsksStart(w: World, e: Event) {
    e.Synced? && var act := Sync(e.task, w.rec, e.ans).action; act.Some? && act.value.Start?
  }

  /** Time does not go back, the task keeps its grace period and the deployment its attempt limit, and
      a runner takes a start that is there. */
  ghost predicate Enabled(w: World, e: Event, grace: int, max: int) {
    match e
    case Synced(task, ans, _) =>
      && w.clock <= ans.now <= ans.stamp && task.def.gracePeriod == grace
      && (ans.deployment.Found? ==> ans.deployment.maxAttempts == max)
    case RanRecent(task, k, _, now) => w.clock <= now && k < |w.recent|
    case RanStale(task, _, now) => w.clock <= now && w.stale > 0
    case Stopped(now) => w.clock <= now
  }

  function Ran(rec: Option<Record>, task: Task, putOk: bool, now: int): Option<Record> {
    if putOk then Some(Begun(rec, task, now)) else rec
  }

  ghost function Next(w: World, e: Event): World
    requires e.RanRecent? ==> e.k < |w.recent|
    requires e.RanStale? ==> w.stale > 0
  {
    match e
    case Synced(task, ans, accepted) =>
      var w' := w.(rec := Sync(task, w.rec, ans).rec, clock := ans.stamp);
      if AsksStart(w, e)
      then w'.(recent := if accepted then w.recent + [ans.stamp] else w.recent, last := Some(ans.stamp))
      else w'
    case RanRecent(task, k, putOk, now) =>
      w.(rec := Ran(w.rec, task, putOk, now), clock := now, recent := w.recent[..k] + w.recent[k + 1..])
    case RanStale(task, putOk, now) =>
      w.(rec := Ran(w.rec, task, putOk, now), clock := now, stale := w.stale - 1)
    case Stopped(now) =>
      World(None, now, [], w.stale + |w.recent|, w.stale + |w.recent|, None)
  }

  /** A sync that asks for a start moves only the start time and the local state; any sync leaves the
      attempts alone or clears them. */
  lemma SyncRecord(task: Task, rec: Option<Record>, ans: Answers)
    requires ans.status.Some?
    ensures
      var o, r := Sync(task, rec, ans), RecordFor(rec, task);
      && o.rec.Some?
      && (o.rec.value.attempts == r.attempts || o.rec.value.attempts == 0)
      && (o.rec.value.startedAt == r.startedAt || o.rec.value.startedAt == Some(ans.stamp))
  {
  }

  /** What had to hold for a start to be asked for. */
  lemma StartNeeds(task: Task, rec: Option<Record>, ans: Answers)
    requires var act := Sync(task, rec, ans).action; act.Some? && act.value.Start?
    ensures NeedsStart(task, rec, ans) && PortsFree(task, ans)
    ensures
      var o, r := Sync(task, rec, ans), RecordFor(rec, task);
      && o.written == None
      && o.rec.Some? && o.rec.value.startedAt == Some(ans.stamp)
      && o.rec.value.attempts <= ans.deployment.maxAttempts
      && (o.rec.value.attempts == r.attempts || o.rec.value.attempts == 0)
  {
    StartsExactly(task, rec, ans);
  }

  lemma {:induction false} NoneBusy(ports: seq<nat>, busy: set<nat>)
    ensures FirstBusy(ports, busy) == None <==> forall p :: p in ports ==> p !in busy
  {
    if ports != [] {
      NoneBusy(ports[1..], busy);
    }
  }

  // ----- Spacing -----

  ghost function StartedAt(w: World): Option<int> {
    if w.rec.Some? then w.rec.value.startedAt else None
  }

  /** The recorded start time never falls behind the latest start asked for, nor runs ahead. */
  ghost predicate Spaced(w: World) {
    && (w.last.Some? ==> StartedAt(w).Some? && w.last.value <= StartedAt(w).value)
    && (StartedAt(w).Some? ==> StartedAt(w).value <= w.clock)
  }

  lemma NextSpaced(w: World, e: Event, grace: int, max: int)
    requires Spaced(w) && Enabled(w, e, grace, max)
    ensures Spaced(Next(w, e))
    ensures AsksStart(w, e) && w.last.Some? ==> e.ans.stamp >= w.last.value + grace
  {
    if e.Synced? {
      if e.ans.status.Some? {
        SyncRecord(e.task, w.rec, e.ans);
      }
      if AsksStart(w, e) {
        StartNeeds(e.task, w.rec, e.ans);
      }
    }
  }

  ghost predicate History(ws: seq<World>, es: seq<Event>, grace: int, max: int) {
    && |ws| == |es| + 1
    && forall k :: 0 <= k < |es| ==> Follows(ws, es, k, grace, max)
  }

  ghost predicate Follows(ws: seq<World>, es: seq<Event>, k: nat, grace: int, max: int)
    requires k < |es| < |ws|
  {
    Enabled(ws[k], es[k], grace, max) && ws[k + 1] == Next(ws[k], es[k])
  }

  lemma {:induction false} SpacedThroughout(ws: seq<World>, es: seq<Event>, grace: int, max: int, k: nat)
    requires History(ws, es, grace, max) && Spaced(ws[0]) && k < |ws|
    ensures Spaced(ws[k])
  {
    if k > 0 {
      SpacedThroughout(ws, es, grace, max, k - 1);
      assert Follows(ws, es, k - 1, grace, max);
      NextSpaced(ws[k - 1], es[k - 1], grace, max);
    }
  }

  /** While no stop intervenes, the latest start asked for is remembered. */
  lemma {:induction false} LastRemembered(ws: seq<World>, es: seq<Event>, grace: int, max: int, i: nat, j: nat)
    requires History(ws, es, grace, max) && Spaced(ws[0]) && i < j <= |es| && AsksStart(ws[i], es[i])
    requires forall k :: i < k < j ==> !es[k].Stopped?
    requires grace >= 0
    ensures ws[j].last.Some? && ws[j].last.value >= es[i].ans.stamp
  {
    assert Follows(ws, es, j - 1, grace, max);
    SpacedThroughout(ws, es, grace, max, j - 1);
    NextSpaced(ws[j - 1], es[j - 1], grace, max);
    if i < j - 1 {
      LastRemembered(ws, es, grace, max, i, j - 1);
    }
  }

  /** Two starts of a task asked for without a stop executed between them are at least the grace period
      apart, however syncs and runners interleave. */
  lemma StartsAreSpaced(ws: seq<World>, es: seq<Event>, grace: int, max: int, i: nat, j: nat)
    requires History(ws, es, grace, max) && Spaced(ws[0]) && grace >= 0
    requires i < j < |es| && AsksStart(ws[i], es[i]) && AsksStart(ws[j], es[j])
    requires forall k :: i < k < j ==> !es[k].Stopped?
    ensures es[j].ans.stamp >= es[i].ans.stamp + grace
  {
    LastRemembered(ws, es, grace, max, i, j);
    SpacedThroughout(ws, es, grace, max, j);
    assert Follows(ws, es, j, grace, max);
    NextSpaced(ws[j], es[j], grace, max);
  }

  /** Without a stop the recorded start time never goes back. */
  lemma NextStartedAt(w: World, e: Event, grace: int, max: int)
    requires Spaced(w) && Enabled(w, e, grace, max) && !e.Stopped? && StartedAt(w).Some?
    ensures StartedAt(Next(w, e)).Some? && StartedAt(w).value <= StartedAt(Next(w, e)).value
  {
    if e.Synced? && e.ans.status.Some? {
      SyncRecord(e.task, w.rec, e.ans);
    }
  }

  /** A runner executes a start, and its first write succeeds. */
  ghost predicate Executes(e: Event) {
    (e.RanRecent? || e.RanStale?) && e.putOk
  }

  lemma {:induction false} ExecutionRemembered(ws: seq<World>, es: seq<Event>, grace: int, max: int, i: nat, j: nat)
    requires History(ws, es, grace, max) && Spaced(ws[0]) && i < j <= |es| && Executes(es[i])
    requires forall k :: i < k < j ==> !es[k].Stopped?
    ensures StartedAt(ws[j]).Some? && StartedAt(ws[j]).value >= es[i].now
  {
    assert Follows(ws, es, j - 1, grace, max);
    SpacedThroughout(ws, es, grace, max, j - 1);
    if i < j - 1 {
      ExecutionRemembered(ws, es, grace, max, i, j - 1);
      NextStartedAt(ws[j - 1], es[j - 1], grace, max);
    }
  }

  /** After a start is executed, and until a stop, no start is asked for within the grace period, counted from
      the execution and not from when the start was asked for. */
  lemma ExecutedStartsAreSpaced(ws: seq<World>, es: seq<Event>, grace: int, max: int, i: nat, j: nat)
    requires History(ws, es, grace, max) && Spaced(ws[0])
    requires i < j < |es| && Executes(es[i]) && AsksStart(ws[j], es[j])
    requires forall k :: i < k < j ==> !es[k].Stopped?
    ensures es[j].ans.now >= es[i].now + grace
  {
    ExecutionRemembered(ws, es, grace, max, i, j);
    assert Follows(ws, es, j, grace, max);
    StartNeeds(es[j].task, ws[j].rec, es[j].ans);
  }

  // ----- The attempt budget -----

  ghost function Count(w: World): int {
    if w.rec.Some? then w.rec.value.attempts else 0
  }

  function Cap(max: int): nat {
    if max < 0 then 0 else max + 1
  }

  /** Every start still in flight at a sync is executed before its grace period ends. */
  ghost predicate Timely(w: World, e: Event, grace: int) {
    e.Synced? ==> forall k :: 0 <= k < |w.recent| ==> e.ans.now < w.recent[k] + grace
  }

  ghost predicate Budgeted(w: World, max: int) {
    && Count(w) >= 0 && w.stale <= w.debt
    && Count(w) + |w.recent| + w.stale <= Cap(max) + w.debt
    && Behind(w)
  }

  ghost predicate Behind(w: World) {
    forall k :: 0 <= k < |w.recent| ==> BehindAt(w, k)
  }

  ghost predicate BehindAt(w: World, k: nat)
    requires k < |w.recent|
  {
    StartedAt(w).Some? && w.recent[k] <= StartedAt(w).value
  }

  lemma SyncBudgeted(w: World, e: Event, grace: int, max: int)
    requires Spaced(w) && Budgeted(w, max) && Enabled(w, e, grace, max) && Timely(w, e, grace) && e.Synced?
    ensures Budgeted(Next(w, e), max)
  {
    assert w.recent == [] || BehindAt(w, 0);
    if e.ans.status.Some? {
      SyncRecord(e.task, w.rec, e.ans);
    }
    if AsksStart(w, e) {
      StartNeeds(e.task, w.rec, e.ans);
      assert w.recent == [];
    }
    var w' := Next(w, e);
    forall k | 0 <= k < |w'.recent| ensures BehindAt(w', k) {
      assert k < |w.recent| ==> BehindAt(w, k);
    }
  }

  lemma NextBudgeted(w: World, e: Event, grace: int, max: int)
    requires Spaced(w) && Budgeted(w, max) && Enabled(w, e, grace, max) && Timely(w, e, grace)
    ensures Budgeted(Next(w, e), max)
  {
    if e.Synced? {
      SyncBudgeted(w, e, grace, max);
    } else if e.RanRecent? {
      RunBudgeted(w, e, grace, max);
    } else if e.RanStale? {
      RunStaleBudgeted(w, e, grace, max);
    }
  }

  /** A start in flight was asked for no later than the record's start time, before a run and after it. */
  lemma StillBehind(w: World, k: nat, task: Task, putOk: bool, now: int)
    requires Spaced(w) && Behind(w)
    requires k < |w.recent| && w.clock <= now
    ensures
      var rec := Ran(w.rec, task, putOk, now);
      rec.Some? && rec.value.startedAt.Some? && w.recent[k] <= rec.value.startedAt.value
  {
    assert BehindAt(w, k);
  }

  lemma RunStaleBudgeted(w: World, e: Event, grace: int, max: int)
    requires Spaced(w) && Budgeted(w, max) && Enabled(w, e, grace, max) && e.RanStale?
    ensures Budgeted(Next(w, e), max)
  {
    var w' := Next(w, e);
    forall k | 0 <= k < |w'.recent| ensures BehindAt(w', k) {
      StillBehind(w, k, e.task, e.putOk, e.now);
    }
    assert Behind(w');
  }

  lemma RunBudgeted(w: World, e: Event, grace: int, max: int)
    requires Spaced(w) && Budgeted(w, max) && Enabled(w, e, grace, max) && e.RanRecent?
    ensures Budgeted(Next(w, e), max)
  {
    var w' := Next(w, e);
    StillBehind(w, e.k, e.task, e.putOk, e.now);
    forall k | 0 <= k < |w'.recent| ensures BehindAt(w', k) {
      var k' := if k < e.k then k else k + 1;
      StillBehind(w, k', e.task, e.putOk, e.now);
      assert w'.recent[k] == w.recent[k'];
    }
    assert Behind(w');
  }

  /** Attempts made and starts in flight together never exceed MaxAttempts + 1, beyond the starts that
      were already in flight when the task was last stopped. */
  lemma {:induction false} BudgetHolds(ws: seq<World>, es: seq<Event>, grace: int, max: int, k: nat)
    requires History(ws, es, grace, max) && Spaced(ws[0]) && Budgeted(ws[0], max) && k < |ws|
    requires forall i :: 0 <= i < |es| ==> Timely(ws[i], es[i], grace)
    ensures Budgeted(ws[k], max)
  {
    if k > 0 {
      BudgetHolds(ws, es, grace, max, k - 1);
      SpacedThroughout(ws, es, grace, max, k - 1);
      assert Follows(ws, es, k - 1, grace, max);
      NextBudgeted(ws[k - 1], es[k - 1], grace, max);
    }
  }

  /** Attempts and starts in flight. */
  ghost function Load(w: World): int {
    Count(w) + |w.recent| + w.stale
  }

  ghost function QueuedUpTo(ws: seq<World>, es: seq<Event>, k: nat): nat
    requires k <= |es| < |ws|
  {
    if k == 0 then 0
    else QueuedUpTo(ws, es, k - 1) + if AsksStart(ws[k - 1], es[k - 1]) && es[k - 1].accepted then 1 else 0
  }

  ghost function LostUpTo(es: seq<Event>, k: nat): nat
    requires k <= |es|
  {
    if k == 0 then 0
    else LostUpTo(es, k - 1) + if (es[k - 1].RanRecent? || es[k - 1].RanStale?) && !es[k - 1].putOk then 1 else 0
  }

  /** Syncs never see the task healthy and it is never stopped. */
  ghost predicate NeverHealthy(es: seq<Event>) {
    forall k :: 0 <= k < |es| ==>
      !es[k].Stopped? && (es[k].Synced? && es[k].ans.status.Some? ==> !es[k].ans.status.value.Healthy())
  }

  lemma NextLoad(w: World, e: Event, grace: int, max: int)
    requires Enabled(w, e, grace, max) && !e.Stopped?
    requires e.Synced? && e.ans.status.Some? ==> !e.ans.status.value.Healthy()
    ensures
      var queued := if AsksStart(w, e) && e.accepted then 1 else 0;
      var lost := if (e.RanRecent? || e.RanStale?) && !e.putOk then 1 else 0;
      Load(Next(w, e)) == Load(w) + queued - lost && Next(w, e).debt == w.debt
  {
  }

  lemma {:induction false} LoadCounts(ws: seq<World>, es: seq<Event>, grace: int, max: int, k: nat)
    requires History(ws, es, grace, max) && NeverHealthy(es) && k <= |es|
    ensures Load(ws[k]) == Load(ws[0]) + QueuedUpTo(ws, es, k) - LostUpTo(es, k) && ws[k].debt == ws[0].debt
  {
    if k > 0 {
      LoadCounts(ws, es, grace, max, k - 1);
      assert Follows(ws, es, k - 1, grace, max);
      NextLoad(ws[k - 1], es[k - 1], grace, max);
    }
  }

  /** A task that never turns healthy is started at most MaxAttempts + 1 times: in any history from the
      first sight of the task, the starts queued, less those whose first write failed, stay within it. */
  lemma RestartsAreBounded(ws: seq<World>, es: seq<Event>, grace: int, max: int, clock: int)
    requires History(ws, es, grace, max) && ws[0] == World(None, clock, [], 0, 0, None) && NeverHealthy(es)
    requires forall i :: 0 <= i < |es| ==> Timely(ws[i], es[i], grace)
    ensures QueuedUpTo(ws, es, |es|) - LostUpTo(es, |es|) <= Cap(max)
  {
    BudgetHolds(ws, es, grace, max, |es|);
    LoadCounts(ws, es, grace, max, |es|);
  }

  // ----- When the limit is kept -----

  /** A start that is queued finds its attempts and the starts in flight together within the limit. The
      sync itself looks at the attempts only. */
  ghost predicate WithinLimit(w: World, e: Event, max: int) {
    AsksStart(w, e) && e.accepted ==>
      e.ans.status.Some? && Refreshed(w.rec, e.task, e.ans.status.value).attempts + |w.recent| + w.stale <= max
  }

  lemma NextLimit(w: World, e: Event, grace: int, max: int)
    requires Enabled(w, e, grace, max) && Count(w) >= 0
    ensures Count(Next(w, e)) >= 0
    ensures if AsksStart(w, e) && e.accepted then Load(Next(w, e)) <= Cap(max) <==> WithinLimit(w, e, max)
            else Load(Next(w, e)) <= Load(w)
  {
    if AsksStart(w, e) {
      StartNeeds(e.task, w.rec, e.ans);
    }
  }

  lemma {:induction false} NeverNegative(ws: seq<World>, es: seq<Event>, grace: int, max: int, k: nat)
    requires History(ws, es, grace, max) && Count(ws[0]) >= 0 && k < |ws|
    ensures Count(ws[k]) >= 0
  {
    if k > 0 {
      NeverNegative(ws, es, grace, max, k - 1);
      assert Follows(ws, es, k - 1, grace, max);
      NextLimit(ws[k - 1], es[k - 1], grace, max);
    }
  }

  lemma {:induction false} LimitKept(ws: seq<World>, es: seq<Event>, grace: int, max: int, k: nat)
    requires History(ws, es, grace, max) && Count(ws[0]) >= 0 && Load(ws[0]) <= Cap(max) && k < |ws|
    requires forall i :: 0 <= i < |es| ==> WithinLimit(ws[i], es[i], max)
    ensures Load(ws[k]) <= Cap(max)
  {
    if k > 0 {
      LimitKept(ws, es, grace, max, k - 1);
      NeverNegative(ws, es, grace, max, k - 1);
      assert Follows(ws, es, k - 1, grace, max);
      NextLimit(ws[k - 1], es[k - 1], grace, max);
    }
  }

  /** Attempts and starts in flight stay at MaxAttempts + 1 or below throughout a history exactly if no start
      is queued while the attempts and the starts already in flight are together over the limit. */
  lemma LimitKeptExactly(ws: seq<World>, es: seq<Event>, grace: int, max: int)
    requires History(ws, es, grace, max) && Count(ws[0]) >= 0 && Load(ws[0]) <= Cap(max)
    ensures (forall k :: 0 <= k < |ws| ==> Load(ws[k]) <= Cap(max))
       <==> forall k :: 0 <= k < |es| ==> WithinLimit(ws[k], es[k], max)
  {
    if forall k :: 0 <= k < |es| ==> WithinLimit(ws[k], es[k], max) {
      forall k | 0 <= k < |ws| ensures Load(ws[k]) <= Cap(max) {
        LimitKept(ws, es, grace, max, k);
      }
    } else {
      var k :| 0 <= k < |es| && !WithinLimit(ws[k], es[k], max);
      NeverNegative(ws, es, grace, max, k);
      assert Follows(ws, es, k, grace, max);
      NextLimit(ws[k], es[k], grace, max);
      assert Load(ws[k + 1]) > Cap(max);
    }
  }

  // ----- Over budget -----

  /** From event `i` up to `j` no stop is executed and no sync sees the task healthy. */
  ghost predicate Undisturbed(es: seq<Event>, i: nat, j: nat)
    requires j <= |es|
  {
    forall k :: i <= k < j ==> !es[k].Stopped? && !SeesHealthy(es[k])
  }

  ghost predicate SeesHealthy(e: Event) {
    e.Synced? && e.ans.status.Some? && e.ans.status.value.Healthy()
  }

  /** No start is asked for from event `i` up to `j`. */
  ghost predicate NoStarts(ws: seq<World>, es: seq<Event>, i: nat, j: nat)
    requires j <= |es| <= |ws|
  {
    forall k :: i <= k < j ==> !AsksStart(ws[k], es[k])
  }

  lemma NextOverBudget(w: World, e: Event, grace: int, max: int)
    requires Enabled(w, e, grace, max) && Count(w) > max && !e.Stopped? && !SeesHealthy(e)
    ensures Count(Next(w, e)) > max && !AsksStart(w, e)
  {
  }

  /** Once over its budget a task stays there, and is not started, until it is stopped or seen healthy. */
  lemma {:induction false} OverBudgetStays(ws: seq<World>, es: seq<Event>, grace: int, max: int, i: nat, j: nat)
    requires History(ws, es, grace, max) && i <= j <= |es| && Count(ws[i]) > max && Undisturbed(es, i, j)
    ensures Count(ws[j]) > max && NoStarts(ws, es, i, j)
  {
    if i < j {
      OverBudgetStays(ws, es, grace, max, i, j - 1);
      assert Follows(ws, es, j - 1, grace, max);
      NextOverBudget(ws[j - 1], es[j - 1], grace, max);
    }
  }

  /** A sync that finds the task due, its deployment there and the grace period over. */
  ghost predicate Judges(w: World, e: Event) {
    && e.Synced? && e.ans.status.Some? && e.ans.deployment.Found?
    && var r := Refreshed(w.rec, e.task, e.ans.status.value);
       var status := if SomeEssentialDead(e.task.def.containers, e.ans.probes) then Exited else e.ans.status.value;
       Due(e.task, r, status) && !TooSoon(r, e.task.def.gracePeriod, e.ans.now)
  }

  ghost function Written(w: World, e: Event): Option<Task>
    requires e.Synced?
  {
    Sync(e.task, w.rec, e.ans).written
  }

  /** Every later sync reads the task as it was written. */
  ghost predicate Reads(es: seq<Event>, j: nat, n: nat, task: Task)
    requires n <= |es|
  {
    forall k :: j < k < n && es[k].Synced? ==> es[k].task == task
  }

  lemma RejectedAsksNothing(w: World, e: Event)
    requires e.Synced? ==> e.task.rejected
    ensures !AsksStart(w, e)
  {
  }

  /** While every sync reads a rejected task no start is asked for, and none is queued. */
  lemma {:induction false} RejectedNeverStarts(ws: seq<World>, es: seq<Event>, grace: int, max: int, i: nat, j: nat)
    requires History(ws, es, grace, max) && i <= j <= |es|
    requires forall k :: i <= k < j && es[k].Synced? ==> es[k].task.rejected
    ensures NoStarts(ws, es, i, j) && QueuedUpTo(ws, es, j) == QueuedUpTo(ws, es, i)
  {
    forall k | i <= k < j ensures !AsksStart(ws[k], es[k]) {
      RejectedAsksNothing(ws[k], es[k]);
    }
    NoneQueued(ws, es, i, j);
  }

  lemma {:induction false} NoneQueued(ws: seq<World>, es: seq<Event>, i: nat, j: nat)
    requires i <= j <= |es| < |ws| && NoStarts(ws, es, i, j)
    ensures QueuedUpTo(ws, es, j) == QueuedUpTo(ws, es, i)
  {
    if i < j {
      NoneQueued(ws, es, i, j - 1);
    }
  }

  /** Once a task is over its budget, and neither stopped nor seen healthy, the first sync that finds it due
      outside its grace period rejects it. No start is asked for before that, nor after it while syncs read
      the record as it was written, whatever else happens. */
  lemma OverBudgetIsRejected(ws: seq<World>, es: seq<Event>, grace: int, max: int, i: nat, j: nat, n: nat)
    requires History(ws, es, grace, max) && i <= j < n <= |es| && Count(ws[i]) > max
    requires Undisturbed(es, i, j + 1) && Judges(ws[j], es[j])
    ensures Written(ws[j], es[j]) == Some(Reject(es[j].task, "too many attempts"))
    ensures Reads(es, j, n, Reject(es[j].task, "too many attempts")) ==> NoStarts(ws, es, i, n)
  {
    OverBudgetStays(ws, es, grace, max, i, j);
    OverBudgetStays(ws, es, grace, max, i, j + 1);
    assert Follows(ws, es, j, grace, max);
    if Reads(es, j, n, Reject(es[j].task, "too many attempts")) {
      RejectedNeverStarts(ws, es, grace, max, j + 1, n);
    }
  }

  // ----- The budget's conditions are needed -----

  /** A history told from its beginning. */
  datatype Tale = Tale(ws: seq<World>, es: seq<Event>)
  {
    ghost predicate Told(w: World, grace: int, max: int) {
      History(ws, es, grace, max) && ws[0] == w
    }

    ghost predicate AllTimely(grace: int)
      requires |ws| == |es| + 1
    {
      forall k :: 0 <= k < |es| ==> Timely(ws[k], es[k], grace)
    }

    ghost function End(): World
      requires |ws| == |es| + 1
    {
      ws[|es|]
    }

    ghost function Then(e: Event): Tale
      requires |ws| == |es| + 1
      requires e.RanRecent? ==> e.k < |End().recent|
      requires e.RanStale? ==> End().stale > 0
    {
      Tale(ws + [Next(End(), e)], es + [e])
    }
  }

  lemma ThenTold(tale: Tale, e: Event, w: World, grace: int, max: int)
    requires tale.Told(w, grace, max) && Enabled(tale.End(), e, grace, max)
    ensures tale.Then(e).Told(w, grace, max) && tale.Then(e).End() == Next(tale.End(), e)
    ensures tale.AllTimely(grace) && Timely(tale.End(), e, grace) ==> tale.Then(e).AllTimely(grace)
  {
    var tale' := tale.Then(e);
    forall k | 0 <= k < |tale'.es| ensures Follows(tale'.ws, tale'.es, k, grace, max) {
      if k < |tale.es| {
        assert Follows(tale.ws, tale.es, k, grace, max);
      }
    }
  }

  /** A task that can be started, with health checks that fail. */
  ghost predicate Startable(task: Task, grace: int) {
    task.scheduled && !task.rejected && Checked(task.def) && task.def.gracePeriod == grace
  }

  function SyncAt(task: Task, max: int, t: int): Event {
    Synced(task, Answers(Some(Failing), [], Found(max), {}, t, t), true)
  }

  lemma SyncStarts(w: World, task: Task, grace: int, max: int, t: int)
    requires Startable(task, grace) && Count(w) <= max && w.clock <= t
    requires StartedAt(w).Some? ==> StartedAt(w).value + grace <= t
    ensures
      var e := SyncAt(task, max, t);
      var w' := Next(w, e);
      && Enabled(w, e, grace, max) && AsksStart(w, e) && w'.rec.Some?
      && w'.recent == w.recent + [t] && Count(w') == Count(w) && StartedAt(w') == Some(t)
      && w'.clock == t && w'.stale == w.stale && w'.debt == w.debt
  {
    NoneBusy(FixedPorts(task.def.containers), {});
  }

  /** No start is in flight and the latest is outside its grace period by the given time. */
  ghost predicate Idle(w: World, grace: int, t: int) {
    w.recent == [] && w.clock <= t && (StartedAt(w).Some? ==> StartedAt(w).value + grace <= t)
  }

  ghost predicate StopFree(es: seq<Event>) {
    forall k :: 0 <= k < |es| ==> !es[k].Stopped?
  }

  /** One start after the other, each executed at once. */
  lemma {:induction false} Starts(w: World, task: Task, grace: int, max: int, n: nat) returns (tale: Tale, t: int)
    requires Startable(task, grace) && grace >= 0 && Count(w) == 0 && n <= max + 1 && Idle(w, grace, w.clock)
    ensures tale.Told(w, grace, max) && tale.AllTimely(grace) && StopFree(tale.es)
    ensures
      var w' := tale.End();
      Count(w') == n && Idle(w', grace, t) && w'.stale == w.stale && w'.debt == w.debt
    decreases n
  {
    if n == 0 {
      tale, t := Tale([w], []), w.clock;
    } else {
      tale, t := Starts(w, task, grace, max, n - 1);
      var w1, sync, run := tale.End(), SyncAt(task, max, t), RanRecent(task, 0, true, t);
      SyncStarts(w1, task, grace, max, t);
      ThenTold(tale, sync, w, grace, max);
      tale := tale.Then(sync);
      assert tale.End().recent == [t];
      ThenTold(tale, run, w, grace, max);
      tale := tale.Then(run);
      t := t + grace;
    }
  }

  /** The debt is needed, for every limit: in a history whose starts are all timely, a stop executed while a
      start is in flight forgets it, so that attempts and starts in flight come to one more than the limit
      allows. */
  lemma StopForgetsStarts(task: Task, grace: int, max: int, clock: int) returns (tale: Tale)
    requires Startable(task, grace) && grace >= 0 && max >= 0
    ensures tale.Told(World(None, clock, [], 0, 0, None), grace, max) && tale.AllTimely(grace)
    ensures Load(tale.End()) == Cap(max) + 1 && tale.End().debt == 1
  {
    var w := World(None, clock, [], 0, 0, None);
    var sync, stop := SyncAt(task, max, clock), Event.Stopped(clock);
    tale := Tale([w], []);
    SyncStarts(w, task, grace, max, clock);
    ThenTold(tale, sync, w, grace, max);
    tale := tale.Then(sync);
    ThenTold(tale, stop, w, grace, max);
    tale := tale.Then(stop);
    var rest, t := Starts(tale.End(), task, grace, max, max);
    Joined(tale, rest, w, grace, max);
    tale := Tale(tale.ws + rest.ws[1..], tale.es + rest.es);
    SyncStarts(tale.End(), task, grace, max, t);
    ThenTold(tale, SyncAt(task, max, t), w, grace, max);
    tale := tale.Then(SyncAt(task, max, t));
  }

  lemma Joined(a: Tale, b: Tale, w: World, grace: int, max: int)
    requires a.Told(w, grace, max) && b.Told(a.End(), grace, max)
    ensures
      var c := Tale(a.ws + b.ws[1..], a.es + b.es);
      c.Told(w, grace, max) && c.End() == b.End() && (a.AllTimely(grace) && b.AllTimely(grace) ==> c.AllTimely(grace))
  {
    var c := Tale(a.ws + b.ws[1..], a.es + b.es);
    var n := |a.es|;
    forall k | 0 <= k < |c.ws| ensures c.ws[k] == if k <= n then a.ws[k] else b.ws[k - n] {
    }
    forall k | 0 <= k < |c.es| ensures Follows(c.ws, c.es, k, grace, max) {
      if k < n {
        assert Follows(a.ws, a.es, k, grace, max);
      } else {
        assert Follows(b.ws, b.es, k - n, grace, max);
      }
    }
    if a.AllTimely(grace) && b.AllTimely(grace) {
      forall k | 0 <= k < |c.es| ensures Timely(c.ws[k], c.es[k], grace) {
        if k >= n {
          assert Timely(b.ws[k - n], b.es[k - n], grace);
        }
      }
    }
  }

  /** So is the timeliness, for every limit: in a history without a stop, where only the last sync comes after
      the grace period of a start still in the queue, that start is queued again. */
  lemma LateStartsPileUp(task: Task, grace: int, max: int, clock: int) returns (tale: Tale)
    requires Startable(task, grace) && grace >= 0 && max >= 0
    ensures tale.Told(World(None, clock, [], 0, 0, None), grace, max) && StopFree(tale.es)
    ensures forall k :: 0 <= k < |tale.es| - 1 ==> Timely(tale.ws[k], tale.es[k], grace)
    ensures Load(tale.End()) == Cap(max) + 1 && tale.End().debt == 0
  {
    var w, t := World(None, clock, [], 0, 0, None), clock;
    tale, t := Starts(w, task, grace, max, max);
    SyncStarts(tale.End(), task, grace, max, t);
    ThenTold(tale, SyncAt(task, max, t), w, grace, max);
    tale := tale.Then(SyncAt(task, max, t));
    assert tale.AllTimely(grace);
    SyncStarts(tale.End(), task, grace, max, t + grace);
    ThenTold(tale, SyncAt(task, max, t + grace), w, grace, max);
    tale := tale.Then(SyncAt(task, max, t + grace));
  }
}
