# Sked: a verified model

This project models the core of the Sked container scheduler and proves what its design promises.

- **The reconcile run** (`Reconcile`, `Safety`, `Counting`, `Progress`, `ScaleUp`, `ScaleDown`, `Healing`,
  `Upgrade`, `Scaling`). `Schedule` brings the scheduled tasks of one deployment to the desired number: it
  drops homeless, rejected and old-version tasks, scales down, and scales up by first fit over a ranked
  host list. `Reconcile` states it as a state machine in which every iteration order, ranking and port is a
  free choice; one step is one pass of one loop. The other modules prove theorems about every state, every
  run and sequences of runs of that machine.
- **The scheduler object** (`Scheduler`, with `Rankers`, `Preference`, `Placement`, `Ports`, `Supply` and
  `Traces`). The class `DefaultScheduler` works on mutable hosts and a mutable store, loop by loop.
  `Schedule` is proved to follow the state machine from the store as it was and the hosts as they were
  known and listed, to finish if the random draws suffice, and to write only tables that are the stores
  of its run's states, so the theorems about runs are theorems about its writes (`EveryWriteIsSafe`).
- **The agent** (`Agent`, `Decisions`, `Attempts`, `Publishing`, `Offers`). One sync, start and stop of a
  task, their interleaving over time with the start queue, and the host view that `PublishState`
  recomputes and the scheduler maintains incrementally.
- **The queue** (`Queue`) of scheduling requests, in place on an array, against a latest-push priority map.
- **Ids and the store** (`Naming`, `Api`, `Store`): when two ids are the same string, and why the prefix
  scan of the key-value store agrees with the full scan of the in-memory store.

Answers of calls outside the model are inputs: what `ListHosts`, `GetTaskDefinition` and health or
deployment lookups return, clock readings, random draws, process and port probes, executor results. An
error is an answer too, except of the in-memory store, whose writes and plain listings cannot fail. A map
is iterated in any order: a method takes any remaining key, and the state machine any permutation.
Integers are unbounded.

Three hypotheses recur. `Keyed` says that the store holds each record under its own id, which every write
keeps. `Proper` says that the definition read has the version the deployment names, and that no host has
an empty name: a store keyed by name and version gives the first, and `NewTaskKeepsMadeId` shows why it
is needed, since otherwise the scheduler looks instances up under ids it never stores. `Named` says that
cluster and deployment have names, which validation demands.

## Where the code and its description differ

- The rankings are described as best first. The splice goes in at the wrong neighbour, so they need not
  be (`SpliceBreaksOrder`). `InsertKeepsDescending`, `RankDescending` and `AllOrdersDescending` say
  exactly when they are. Host selection stays sound and complete either way, but it can pass over a better
  host; `SelectsBestExactly` says exactly when it cannot.
- A rolling upgrade never finishes when the minimum equals the desired number and at least that many tasks
  run while a current instance is missing: old tasks above the minimum go, but no number of runs adds an
  instance (`NoRoomStallsForever`). `RunsUpgrade` has the exact condition.
- `removed` can count one task three times (`CountedThrice`), so that `count - removed` is in general only a
  lower bound for the task map (`Counted`, in `SafeThroughout`). `CountIsExact` says exactly when it is the
  number of tasks left.
- Scale-down looks only at the instances below the number of tasks, so that it can leave too many;
  `OneRunScalesDown` says exactly when it does not.
- A provided port is not added to the reserved ones, so the same port can be given out twice: after a first
  draw of zero (`ZeroDrawRepeats`) and after a wrap (`WrapRepeats`). `SelectedPortSound` says exactly when a
  search that did not wrap goes beyond the last port.
- The search for a port need not end. With positive draws it is sure to end exactly if the reserved ports
  are no wall (`SearchEndsUnlessWalled`, `LadderIsWall`), and with draws that may be zero exactly if no
  first draw leads to a reserved port (`AnyDrawsEnd`).
- A task placed under an id that its agent still records, such as a rejected one that returns to its host,
  is charged twice by the scheduler and once by the agent. `IncrementalEqualsRecomputed` and
  `RunKeepsOffers` say exactly when the two views agree.
- The attempt budget counts only what the record remembers: a stop executed while a start is in flight
  (`StopForgetsStarts`), or a start left in the queue beyond the grace period (`LateStartsPileUp`), lets
  more starts through. `BudgetHolds` has the bound for every history whose starts are timely, and
  `LimitKeptExactly` says which starts break the limit.

## Model

| member | source | states |
|---|---|---|
| Naming.IdInjective | api/task.go:52-69 | two task ids are the same string exactly when name, version and instance agree, with any dashes in the names and any sign of the instances |
| Naming.IdInjectiveInCluster | api/task.go:52-69 | within a cluster an id determines deployment, version and instance |
| Naming.NaturalReads | api/task.go:52-69 | a version or instance is printed as the decimal numeral that reads as it, without leading zeros |
| Naming.IdReads | api/task.go:52-69 | an id is cluster, deployment, version and instance in this order, joined by dashes, the numbers in decimal |
| Naming.NameCollision | api/task.go:67-69 | names from two clusters are the same string exactly when one cluster name continues the other after a dash that its deployment makes up for |
| Api.NewTaskKeepsMadeId | api/task.go:5-15 | a new task is stored under the id the scheduler looks it up by exactly when the definition has the deployment's version |
| Api.Task.HasChecks | api/task.go:30-37 | true exactly when some container has a health check |
| Api.TaskDefinition.AllPorts | api/task_definition.go:25-37 | collects the fixed ports of all containers in order |
| Api.FixedPortsMember | api/task_definition.go:25-37 | a port is collected exactly when some container fixes it, and zero never is |
| Api.FixedPortsAddUp | api/task_definition.go:25-37 | the fixed ports of containers are those of the first followed by those of the others |
| Api.FixedPortsOfOne | api/task_definition.go:25-37 | a container has the fixed ports of its mappings, and a mapping its own port unless that is zero |
| Api.OpenPortsMember | scheduler/scheduler.go:170-183 | a name is provided for exactly when some container leaves its host port open |
| Api.OpenPortsAddUp | scheduler/scheduler.go:170-183 | ports are drawn for the open names of the containers in order, one for each open mapping |
| Api.OpenPortsOfOne | scheduler/scheduler.go:170-183 | a container has the open names of its mappings, and a mapping its own name exactly if its host port is zero |
| Api.TaskDefinition.Counts | api/task_definition.go:45-53 | adds up what the containers take |
| Api.CountsOfOne | api/task_definition.go:45-53 | one container takes its own memory, processor units and disk |
| Api.CountsAddUp | api/task_definition.go:45-53 | what containers take together is the sum, resource by resource, of what they take apart |
| Api.Container.PortsForTask | api/task_definition.go:130-147 | each mapping keeps its name and container port, and its host port or, if that is zero, the port provided under its name |
| Api.Deployment.Validate | api/deployment.go:20-43 | reports each of the errors exactly when it applies, and so none exactly when the definition exists, the name is not blank and min <= desired <= max |
| Store.MockStore.PutTask | backends/mock/mock_api.go:268-275 | stores the record under its id and changes no other |
| Store.MockStore.DelTask | backends/mock/mock_api.go:277-286 | removes the record under the id, if any |
| Store.MockStore.ListTasks | backends/mock/mock_api.go:288-332 | returns each record that passes all filters once, and nothing else, in any iteration order |
| Store.NoFilterWantsAll | backends/mock/mock_api.go:288-332 | a query without filters wants every record |
| Store.ClusterNarrows | backends/mock/mock_api.go:288-332 | beside any other filters, the cluster filter keeps exactly the records of that cluster |
| Store.DeploymentNarrows | backends/mock/mock_api.go:288-332 | beside any other filters, the deployment filter keeps exactly the records of that deployment |
| Store.HostNarrows | backends/mock/mock_api.go:288-332 | beside any other filters, the host filter keeps exactly the records on that host |
| Store.FlagsNarrow | backends/mock/mock_api.go:288-332 | beside any other filters, the scheduled and the rejected filter keep exactly the scheduled and the rejected records |
| Store.HealthNarrows | backends/mock/mock_api.go:288-332 | beside any other filters, the running filter keeps exactly the records reported running or started, the failing filter the others |
| Store.MockStore.GetTaskState | backends/mock/mock_api.go:363-367 | the stored state, pending if there is none |
| Store.MockStore.PutTaskState | backends/mock/mock_api.go:369-374 | sets one state |
| Store.ConsulStore.PutTask | backends/consul/consul_api.go:433-439 | stores the record under its prefixed id |
| Store.ConsulStore.ListTasks | backends/consul/consul_api.go:362-420 | lists the wanted records under the query's prefix, and fails exactly when health is asked for and cannot be read for a record whose key starts with the cluster, and the deployment's name if given |
| Store.ConsulStore.Collect | backends/consul/consul_api.go:380-419 | the loop over the entries found keeps exactly those that pass all filters |
| Store.PrefixScanAgrees | backends/consul/consul_api.go:362-420 | for every query and every health the prefix scan lists the same records as the full scan |
| Store.WantedLiesUnderPrefix | backends/consul/consul_api.go:364-372 | a record a query wants always has a key under the query's prefix |
| Store.WritesKeepRepresents | backends/consul/consul_api.go:433-444 | puts and deletes keep the two stores in agreement |
| Placement.FitsInTotal | scheduler/scheduler.go:240-277 | k copies can be placed one after the other exactly when k times the need fits each resource and, with fixed ports, k is at most one and none is reserved |
| Placement.LoadOneMore | scheduler/scheduler.go:265-277 | taking the resources of one more matching task keeps the account of what each host carries |
| Placement.ExhaustedIsMaximal | scheduler/scheduler.go:240-309 | once no host matches, what is placed includes every assignment the hosts could have taken |
| Placement.FeasibleWithinSlots | scheduler/scheduler.go:240-277 | no assignment the hosts can take has more tasks than the hosts have slots |
| Placement.SlotBagFeasible | scheduler/scheduler.go:240-277 | all slots of all hosts can be taken together |
| Placement.LoadedNeverOvercommits | scheduler/scheduler.go:240-277 | loaded hosts have given up exactly the placed needs, and each resource that was not negative still is not |
| Placement.LoadedPortsDisjoint | scheduler/scheduler.go:254-260 | tasks with fixed ports never share a host nor take a reserved port |
| Rankers.SlotExists | scheduler/rankers.go:25-30 | a score strictly between first and last is bracketed by an adjacent pair even in an unsorted list, so the splice always happens |
| Rankers.SlotIsFirst | scheduler/rankers.go:25-30 | the splice takes the first bracketing pair |
| Rankers.RankPermutes | scheduler/rankers.go:14-38 | the ranking loses and invents no host |
| Rankers.TiesReverse | scheduler/rankers.go:20-24 | hosts of one score are ranked in the reverse of the order they are met |
| Rankers.RankLastIsLeast | scheduler/rankers.go:14-38 | the last ranked host has a least score |
| Rankers.InsertKeepsDescending | scheduler/rankers.go:20-31 | a sorted ranking stays sorted exactly when the newcomer is not strictly between first and last |
| Rankers.RankDescending | scheduler/rankers.go:14-38 | the ranking is best first exactly when each host met is an extreme of those so far |
| Rankers.AllOrdersDescending | scheduler/rankers.go:14-38 | every iteration order gives a ranking best first exactly when at most two scores occur |
| Rankers.SpliceBreaksOrder | scheduler/rankers.go:27 | scores 10, 5 and then 7 are ranked 7, 10, 5 |
| Rankers.SelectionSoundAndComplete | scheduler/scheduler.go:279-309 | for every ranker and order the selected host matches, and none is selected exactly when none matches |
| Preference.SelectsBestExactly | scheduler/scheduler.go:279-309 | with scheduler "binpack" the least, otherwise the greatest weight 8 memory + 4 cpu + disk is preferred; a most preferred matching host is selected in every iteration order exactly if the hosts in the way, preferred to some host but not to some matching host that is not most preferred, are fewer than the most preferred ones |
| Preference.ExtremesSelectBest | scheduler/scheduler.go:279-309 | in one iteration order a most preferred matching host is selected if each host met is an extreme of those so far |
| Ports.SelectedPortSound | scheduler/scheduler.go:207-238 | a selected port is in 8000-65535 and not reserved; unless the search wrapped it is at least the last one, and above it exactly if the first draw is positive, the last one is below 9000 or it has been reserved |
| Ports.SearchByCases | scheduler/scheduler.go:215-236 | the first candidate is the last port plus the draw modulo 2000, 9000 higher if that is below 9000; it is taken if free and at most 65535, left by the draw modulo 1000 if reserved, and else 8000 is next |
| Ports.PicksIncrease | scheduler/scheduler.go:215-236 | between wraps the ports selected on one host never decrease, and repeat exactly while each first draw stays on a free last port |
| Ports.ZeroDrawRepeats | scheduler/scheduler.go:215-236 | a zero first draw gives out a free last port again |
| Ports.WrapRepeats | scheduler/scheduler.go:215-236 | a wrap can lead back to a port given out before: with nothing reserved and draws of 1999, after 29 selections |
| Ports.SearchEndsUnlessWalled | scheduler/scheduler.go:207-238 | from whatever last port, positive draws are sure to end the search exactly if port 8000 is free or some 999 consecutive ports of the range are; twice as many as there are reserved ports, and one, are then enough |
| Ports.LadderIsWall | scheduler/scheduler.go:223-237 | 58 reserved ports can wall the range |
| Ports.AnyDrawsEnd | scheduler/scheduler.go:207-238 | draws that may be zero are sure to end the search exactly if no first draw leads to a reserved port, at once or by the wrap |
| Ports.DrawnSound | scheduler/scheduler.go:170-183 | drawing for all open ports gives each of them and no other a port in range that is not reserved, takes at least one draw for each, and the last port drawn is the one remembered |
| Ports.DrawOneMore | scheduler/scheduler.go:170-183 | one more name is drawn for from the last port and the draws that the others left |
| Ports.DrawingEndsUnlessWalled | scheduler/scheduler.go:170-183 | positive draws are sure to provide all open ports exactly if there are none or the range is not walled |
| Reconcile.LiveIsListed | scheduler/scheduler.go:84-97 | the task map starts as the deployment's scheduled tasks in the store, whatever their health |
| Reconcile.CleanInTotal | scheduler/scheduler.go:111-139 | a cleanup pass drops its task once, exactly when it is homeless, rejected, or old with count - removed above the minimum, and counts a removal for each of the three tests that hits, the last one seeing what the others counted |
| Reconcile.StepMoves | scheduler/scheduler.go:111-197 | what each pass of each loop changes and leaves |
| Reconcile.StepAgrees | scheduler/scheduler.go:111-197 | after each pass the task map is what a fresh listing of the store would give |
| Reconcile.PlacedTaskResolvesPorts | scheduler/scheduler.go:170-183 | every port mapping of a placed task resolves to its fixed port or to one in range that the host had not reserved |
| Reconcile.PlacedRecord | scheduler/scheduler.go:160-188 | the record of a placed task is that of its cluster, deployment, instance and definition, scheduled on its host with its ports, and not rejected |
| Reconcile.Invariant | scheduler/scheduler.go:61-205 | what the start has and every step keeps holds in every state of a run |
| Counting.CountedThrice | scheduler/scheduler.go:111-139 | a pass counts its task three times exactly when it is homeless, rejected and old with count - removed more than two above the minimum |
| Counting.OneGoneThreeCounted | scheduler/scheduler.go:111-139 | from any store with such a task there is a run that has lost one task and counted three |
| Counting.CountIsExact | scheduler/scheduler.go:111-153 | count - removed is the number of tasks left throughout cleanup and scale-down, in every run and order, exactly if no task is both homeless and rejected and none that is either is old while n - 1 > Min |
| Safety.SafeThroughout | scheduler/scheduler.go:94-197 | in every state of every run: task map equals store listing, records of other deployments untouched, count - removed at most the task map's size, hosts carry exactly what was placed |
| Safety.NoOvercommit | scheduler/scheduler.go:156-197 | in every state each host's drop is the need of the tasks placed on it, no resource has become negative, and fixed ports stay disjoint |
| Safety.AgeRemovalLeavesMin | scheduler/scheduler.go:131-138 | a task dropped for its age alone leaves at least Min in the task map |
| Safety.MinimumStaysScheduled | scheduler/scheduler.go:111-197 | in every state of every run at least min(n, Min) tasks are scheduled, less one per rejected or homeless task |
| Progress.RunsAreBounded | scheduler/scheduler.go:111-197 | every run ends: its steps are bounded by its task map, its surplus and the desired number |
| Progress.GoOn | scheduler/scheduler.go:111-197 | every run that has not ended can go on to an end, whatever was chosen so far, as long as there is no port to draw or every host has a free one in range |
| Progress.SomeRunEnds | scheduler/scheduler.go:61-205 | from any store and hosts there is a run that ends, as long as there is no port to draw or every host has a free one in range |
| ScaleUp.ScaleUpIsOptimal | scheduler/scheduler.go:156-197 | what scale-up adds fits, no feasible assignment covers more missing instances, and the lowest are placed first |
| ScaleUp.FilledThroughout | scheduler/scheduler.go:156-197 | during scale-up kept tasks are untouched, added ones fresh, and one instance left out means that no host takes another |
| ScaleUp.InstancesCount | scheduler/scheduler.go:143-159 | tasks and missing instances together make up the desired number |
| ScaleUp.ScaleUpFillsSlots | scheduler/scheduler.go:156-197 | scale-up adds exactly the lesser of the missing instances and the slots of all hosts, whatever the rankings |
| Healing.OneRunHeals | scheduler/scheduler.go:99-197 | from current tasks, some rejected or homeless, one run keeps exactly the sound ones and fills the lowest missing instances that fit: all of them exactly when capacity allows |
| Upgrade.CleanupDropsQuota | scheduler/scheduler.go:111-139 | over sound tasks cleanup drops exactly min(old, max(0, n - Min)) old ones and no current one, in any order |
| Upgrade.OneRunUpgrades | scheduler/scheduler.go:94-197 | one run over sound tasks of any versions drops the old ones it can spare, leaves the others untouched, and where the minimum leaves room adds as many missing instances as can fit, the lowest first |
| Upgrade.FirstRunOfUpgrade | scheduler/scheduler.go:94-197 | from old tasks only, the first run leaves exactly min(n, Min) of them beside all new instances |
| Upgrade.RunsUpgrade | scheduler/scheduler.go:94-197 | two runs, and any number more, leave exactly the desired current instances if and only if Min < Desired, or fewer tasks than desired ran, or no current instance was missing |
| Upgrade.NoRoomStallsForever | scheduler/scheduler.go:132-156 | without such room no number of runs adds an instance or makes room |
| ScaleDown.OneRunScalesDown | scheduler/scheduler.go:142-153 | from n sound current tasks in any instances, more than desired, one run removes exactly the instances from the desired number up to n, and leaves no more than desired exactly if all of those are there |
| Scaling.Scale | actions/tools.go:23-43 | the error cases, and otherwise the deployment with the new number and the bounds moved to admit it |
| Scaling.ScaledInRange | actions/tools.go:33-41 | scaling leaves min <= desired <= max and moves a bound only when it must |
| Scaling.OneRunScales | scheduler/scheduler.go:142-197 | from the instances below k a run leaves the instances below k': the desired number going down, and going up exactly if capacity suffices |
| Scaling.RoundsKeepPrefix | actions/tools.go:23-43 | over any sequence of scalings and runs the tasks stay a prefix of the instances and the bounds stay in order; the last round ends with exactly the desired ones when scaling down, and when scaling up exactly if its hosts have room for those missing |
| Scheduler.DefaultScheduler.SyncHosts | scheduler/scheduler.go:42-59 | puts in the listed hosts that are not draining, one after the other |
| Scheduler.SyncedHostsKnown | scheduler/scheduler.go:51-57 | a host is known exactly if it was before or is listed and not draining, and is then the one listed, the last if there are several; none is forgotten |
| Scheduler.DefaultScheduler.Rank | scheduler/rankers.go:14-38 | computes the ranking of the known hosts in some order: every host once with its score, a worst one last |
| Scheduler.DefaultScheduler.RankFor | scheduler/scheduler.go:22-24 | for "binpack" a host scores 1000000 less its weight 8 memory + 4 cpu + disk, for any other name its weight |
| Scheduler.DefaultScheduler.MatchHost | scheduler/scheduler.go:240-263 | objects exactly when a resource falls short or a fixed port is reserved, and names memory, then cpu, then disk, then such a port |
| Scheduler.DefaultScheduler.SelectHost | scheduler/scheduler.go:279-309 | returns the first matching host of the ranking the deployment asks for; the host returned matches, without empty names none is returned exactly when none matches, and where a most preferred one is sure it is one |
| Scheduler.DefaultScheduler.UpdateHost | scheduler/scheduler.go:265-277 | charges the task to its host and changes no other host |
| Scheduler.DefaultScheduler.SelectPort | scheduler/scheduler.go:207-238 | performs the port search and remembers the port found |
| Scheduler.DefaultScheduler.ProvidePorts | scheduler/scheduler.go:170-183 | draws one port for each open name, as the search gives them, and provides none exactly when the draws run out |
| Supply.SuppliedDraws | scheduler/scheduler.go:170-183 | draws that suffice for n placements end the search on any host that matches and leave enough for n - 1 |
| Supply.PreparedStep | scheduler/scheduler.go:158-195 | a prepared placement is a step of the state machine; the search goes on only for a host that matches and has ports to draw, and never if the draws suffice |
| Scheduler.DefaultScheduler.CleanOne | scheduler/scheduler.go:111-139 | one cleanup pass, write by write |
| Scheduler.DefaultScheduler.ScaleDown | scheduler/scheduler.go:142-153 | the scale-down loop follows the state machine |
| Scheduler.DefaultScheduler.PlaceOne | scheduler/scheduler.go:158-195 | one placement is a step of the state machine; it has written nothing while the port search goes on, which it does only before a host that matches and has open ports, and never if the draws suffice |
| Scheduler.DefaultScheduler.ScaleUp | scheduler/scheduler.go:156-197 | the scale-up loop follows the state machine, and finishes if the draws suffice |
| Scheduler.DefaultScheduler.Check | scheduler/scheduler.go:62-82 | fails exactly without a cluster, else if the hosts cannot be read, else if none is known, else without a definition; the hosts are then the known ones with the listing put in |
| Scheduler.DefaultScheduler.Schedule | scheduler/scheduler.go:61-205 | fails exactly as the checks do, and then writes nothing; otherwise it is a run of the state machine from the store as it was and the hosts as they were known and listed, with what they offered then; each table written is the store of one of its states; it finishes if the draws suffice |
| Traces.EveryWriteIsSafe | scheduler/scheduler.go:114-194 | each single write of a run keeps the minimum scheduled, the records keyed and the other deployments untouched |
| Queue.SchedulerQueue.Enqueue | master/queue.go:37-45 | in place, under a loop over the old slice: removes the one earlier occurrence, keeps the order of the others and appends |
| Queue.SchedulerQueue.Pop | master/queue.go:54-56 | takes the last value |
| Queue.WithoutCuts | master/queue.go:38-43 | a value that occurs once is cut out where it stands |
| Queue.QueueRefinesPriorities | master/queue.go:37-71 | over any run of pushes and pops the queue has no duplicates and each pop gets the pending value pushed most recently |
| Queue.LatestIsUnique | master/queue.go:54-56 | the pending value pushed last is unique and is the one popped |
| Publishing.PublishedInAnyOrder | agent/agent.go:161-205 | the published resources and ports do not depend on the iteration order |
| Publishing.NothingUsed | agent/agent.go:189-192 | a host without tasks publishes its own resources and no port |
| Publishing.IncrementalEqualsRecomputed | agent/agent.go:161-205 | placing any tasks on a published view gives the same resources and the same multiset of ports as publishing over the records with them, in any orders, exactly if those placed under ids recorded already take nothing |
| Offers.RunKeepsOffers | agent/agent.go:161-205 | in every state of every run from a published view, the scheduler's view of a host is the offer its agent would publish with the tasks placed there exactly if none of them was recorded already or the task takes nothing |
| Publishing.SameOfferSameDecisions | scheduler/scheduler.go:240-263 | hosts with equal resources and ports in any order are matched and ranked alike |
| Agent.Agent.Get | agent/state.go:38-53 | finds the record or makes one, keeping the first task seen |
| Agent.Agent.Del | agent/state.go:55-65 | forgets the record |
| Agent.Agent.SyncTask | agent/agent.go:217-327 | the record, the rejection written, the exit reported and the action of one sync, for all answers |
| Agent.Agent.StartTask | agent/agent.go:102-130 | stamps the record with the time of the start and counts the attempt, whatever becomes of the containers, and reports the task started only if all of them ran |
| Agent.Agent.StopTask | agent/agent.go:133-157 | forgets the task exactly when every container stopped or had no executor |
| Agent.Agent.PublishState | agent/agent.go:161-205 | computes the published view over every record, in some order; any other order would give the same resources and the same multiset of ports |
| Decisions.StartsExactly | agent/agent.go:281-316 | a sync asks for a start exactly if the deployment is there, the task is scheduled, not rejected and not being started, has checks and is not healthy or has none and was not tried, is outside its grace period, within its attempts, and its ports are free |
| Decisions.StopsExactly | agent/agent.go:319-323 | a sync asks for a stop exactly if the task is not scheduled, and for nothing else |
| Decisions.RejectsExactly | agent/agent.go:252-311 | a sync rejects a task exactly if its deployment is gone, or it needs a start that the limit or a busy port forbids, and says which, the first busy port by number |
| Decisions.RecordExactly | agent/agent.go:218-229 | the record takes over the status, a healthy one clears the attempts, and only a start asked for is stamped |
| Decisions.ExitsExactly | agent/agent.go:231-250 | the task is reported exited exactly if the process of an essential container is dead |
| Attempts.StartsAreSpaced | agent/agent.go:108-110 | two starts asked for without a stop between are at least the grace period apart, in every interleaving |
| Attempts.ExecutedStartsAreSpaced | agent/agent.go:108-111 | after a start is executed, until a stop, none is asked for within the grace period counted from the execution, in every interleaving |
| Attempts.BudgetHolds | agent/agent.go:281-316 | with timely starts, attempts and starts in flight never exceed MaxAttempts + 1 beyond those in flight at the last stop |
| Attempts.LimitKeptExactly | agent/agent.go:281-316 | attempts and starts in flight stay at MaxAttempts + 1 or below throughout a history exactly if no start is queued while they are together over the limit |
| Attempts.RestartsAreBounded | agent/agent.go:281-316 | a task that never turns healthy is started at most MaxAttempts + 1 times |
| Attempts.OverBudgetStays | agent/agent.go:281-296 | in every history a task over budget stays so, and is not started, until it is stopped or seen healthy |
| Attempts.OverBudgetIsRejected | agent/agent.go:281-316 | in every history a task over budget is not started until it is stopped or seen healthy; the first sync that finds it due outside its grace period writes the rejection, and while syncs read that record no start follows |
| Attempts.RejectedNeverStarts | agent/agent.go:281 | in every history, as long as syncs read a rejected record none asks for a start and none is queued |
| Attempts.StopForgetsStarts | agent/agent.go:152-154 | for every limit of zero or more there is a history with timely starts and one stop in which attempts and starts in flight exceed the limit by one |
| Attempts.LateStartsPileUp | agent/agent.go:284-287 | for every limit of zero or more there is a history without a stop, with one sync after the grace period of a start still queued, in which they do |

## Left out

- Scheduler.DefaultScheduler.Schedule: one run is atomic; concurrent runs on one scheduler object, which the design leaves to agents to sort out by rejecting, are not modelled.
- Scheduler.DefaultScheduler.SelectPort: the endless loop becomes a search over a finite supply of draws, and a search that outlasts it is a run not finished yet.
- Scheduler.DefaultScheduler.CleanOne: task records are values, so a record shared by reference between the task map and the in-memory store changes with the write, not one statement before it.
- Scheduler.DefaultScheduler.Schedule: runs on the in-memory store; failed writes and a failed listing of another backend are not modelled.
- Agent.Agent.SyncTask: the failure kept in a record for display is not modelled.
- Agent.Agent.StartTask: the writes before and after the containers run are one method; in `Attempts` a sync can still see any health at any moment, because health is an input there.
- Agent.Agent.PublishState: the health address and the observed resources of the host are not modelled.
- Locks: the read-write locks are not modelled, nor that the in-memory listing takes its own lock twice when asked for health.
- Scheduler locks and their cluster-wide wrapper: the in-memory version excludes nobody, so there is no exclusion to prove.
- Consul client calls, service registration, watches, encoding, HTTP, command line, logging: I/O.
- Executors and process commands: their results are inputs.
- Saving and loading the agent's records between sessions, and the sync loop's wait for room in the queue, which `Attempts` has as a choice.
- Garbage collection, event matching, health thresholds, durations and services: true but easy.
- Service discovery: it writes to a channel that nothing reads.
- Progress after a failed start: the state stays at starting, so nothing is claimed about it.
