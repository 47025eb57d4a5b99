/** What a host offers, what one copy of a task takes from it, and how many copies fit
    (scheduler/scheduler.go, api/host.go). */
module Placement {
  import opened Api

  /** The part of a host record that placement reads: the calculated resources and the
      reserved ports. */
  datatype HostView = HostView(memory: int, cpuUnits: int, diskSpace: int, reserved: seq<nat>)

  /** `matchHost` finds nothing to object to. */
  ghost predicate Matches(v: HostView, def: TaskDefinition) {
    var c := TotalCounts(def.containers);
    && c.memory <= v.memory && c.cpuUnits <= v.cpuUnits && c.diskUse <= v.diskSpace
    && forall p :: p in FixedPorts(def.containers) ==> p !in v.reserved
  }

  /** The host after `updateHost` for one task. */
  function Placed(v: HostView, def: TaskDefinition): HostView {
    var c := TotalCounts(def.containers);
    HostView(v.memory - c.memory, v.cpuUnits - c.cpuUnits, v.diskSpace - c.diskUse,
             v.reserved + FixedPorts(def.containers))
  }

  /** The host after `k` copies of the same task. */
  function Copies(v: HostView, def: TaskDefinition, k: nat): HostView {
    if k == 0 then v else Placed(Copies(v, def, k - 1), def)
  }

  /** `k` copies can be placed one after the other, each passing `matchHost`. */
  ghost predicate Fits(v: HostView, def: TaskDefinition, k: nat) {
    k == 0 || (Fits(v, def, k - 1) && Matches(Copies(v, def, k - 1), def))
  }

  lemma {:induction false} FitsFewer(v: HostView, def: TaskDefinition, j: nat, k: nat)
    requires j <= k && Fits(v, def, k)
    ensures Fits(v, def, j)
  {
    if j < k {
      FitsFewer(v, def, j, k - 1);
    }
  }

  lemma {:induction false} CopiesInTotal(v: HostView, def: TaskDefinition, k: nat)
    ensures
      var c, w := TotalCounts(def.containers), Copies(v, def, k);
      && w.memory == v.memory - k * c.memory
      && w.cpuUnits == v.cpuUnits - k * c.cpuUnits
      && w.diskSpace == v.diskSpace - k * c.diskUse
      && forall p :: p in w.reserved <==> p in v.reserved || (k > 0 && p in FixedPorts(def.containers))
  {
    if k > 0 {
      CopiesInTotal(v, def, k - 1);
    }
  }

  /** How many copies fit: as many as each resource holds, and no second one where the
      definition fixes a port. */
  ghost predicate FitsTogether(v: HostView, def: TaskDefinition, k: nat) {
    var c, ports := TotalCounts(def.containers), FixedPorts(def.containers);
    && k * c.memory <= v.memory && k * c.cpuUnits <= v.cpuUnits && k * c.diskUse <= v.diskSpace
    && (ports == [] || k == 1)
    && forall p :: p in ports ==> p !in v.reserved
  }

  lemma {:induction false} FitsInTotal(v: HostView, def: TaskDefinition, k: nat)
    requires NonNegative(def)
    ensures Fits(v, def, k) <==> k == 0 || FitsTogether(v, def, k)
  {
    if k > 0 {
      FitsInTotal(v, def, k - 1);
      NextCopyFits(v, def, k);
    }
  }

  lemma NextCopyFits(v: HostView, def: TaskDefinition, k: nat)
    requires NonNegative(def) && k > 0
    ensures FitsTogether(v, def, k)
       <==> (k == 1 || FitsTogether(v, def, k - 1)) && Matches(Copies(v, def, k - 1), def)
  {
    CopiesInTotal(v, def, k - 1);
    var c, ports := TotalCounts(def.containers), FixedPorts(def.containers);
    OneCopyLess(k, c.memory);
    OneCopyLess(k, c.cpuUnits);
    OneCopyLess(k, c.diskUse);
    if ports != [] {
      assert ports[0] in ports;
    }
  }

  lemma OneCopyLess(k: nat, c: int)
    requires k > 0 && c >= 0
    ensures k * c == (k - 1) * c + c && (k - 1) * c <= k * c
  {
  }

  /** An assignment of copies to hosts, as a multiset of host names, that the hosts can take. */
  ghost predicate Feasible(views: map<string, HostView>, def: TaskDefinition, a: multiset<string>) {
    forall h :: h in a ==> h in views && Fits(views[h], def, a[h])
  }

  /** `views` is `before` with the copies in `placed` put on it, all of which fitted. */
  ghost predicate Loaded(before: map<string, HostView>, views: map<string, HostView>, def: TaskDefinition,
                         placed: multiset<string>)
  {
    && views.Keys == before.Keys
    && Feasible(before, def, placed)
    && forall h :: h in views ==> views[h] == Copies(before[h], def, placed[h])
  }

  lemma LoadOneMore(before: map<string, HostView>, views: map<string, HostView>, def: TaskDefinition,
                    placed: multiset<string>, host: string)
    requires Loaded(before, views, def, placed)
    requires host in views && Matches(views[host], def)
    ensures Loaded(before, views[host := Placed(views[host], def)], def, placed + multiset{host})
  {
    var more := placed + multiset{host};
    var after := views[host := Placed(views[host], def)];
    assert more[host] == placed[host] + 1;
    assert Copies(before[host], def, more[host]) == after[host];
    assert Fits(before[host], def, placed[host]);
    forall h | h in after ensures after[h] == Copies(before[h], def, more[h]) {
      if h != host {
        assert more[h] == placed[h];
      }
    }
    forall h | h in more ensures h in before && Fits(before[h], def, more[h]) {
      if h != host {
        assert more[h] == placed[h] && h in placed;
      }
    }
    assert Feasible(before, def, more);
  }

  /** Once no host matches, no assignment the hosts could have taken is larger. */
  lemma ExhaustedIsMaximal(before: map<string, HostView>, views: map<string, HostView>, def: TaskDefinition,
                           placed: multiset<string>, a: multiset<string>)
    requires Loaded(before, views, def, placed)
    requires forall h :: h in views ==> !Matches(views[h], def)
    requires Feasible(before, def, a)
    ensures a <= placed && |a| <= |placed|
  {
    forall h ensures a[h] <= placed[h] {
      if a[h] > placed[h] {
        FitsFewer(before[h], def, placed[h] + 1, a[h]);
      }
    }
    assert placed == a + (placed - a);
  }

  /** `w` is `v` without what `n` copies take. */
  ghost predicate Withdrawn(v: HostView, w: HostView, n: nat, c: Counts) {
    && v.memory - w.memory == n * c.memory
    && v.cpuUnits - w.cpuUnits == n * c.cpuUnits
    && v.diskSpace - w.diskSpace == n * c.diskUse
  }

  /** No resource has gone from non-negative to negative. */
  ghost predicate NoneOverdrawn(v: HostView, w: HostView) {
    && (v.memory >= 0 ==> w.memory >= 0)
    && (v.cpuUnits >= 0 ==> w.cpuUnits >= 0)
    && (v.diskSpace >= 0 ==> w.diskSpace >= 0)
  }

  /** Each host has given up exactly what the copies on it take, and a resource that was not negative
      still is not. */
  lemma LoadedNeverOvercommits(before: map<string, HostView>, views: map<string, HostView>, def: TaskDefinition,
                               placed: multiset<string>, h: string)
    requires Loaded(before, views, def, placed) && h in views
    ensures Withdrawn(before[h], views[h], placed[h], TotalCounts(def.containers))
    ensures NoneOverdrawn(before[h], views[h])
  {
    CopiesInTotal(before[h], def, placed[h]);
    if placed[h] > 0 {
      assert h in placed;
      assert Matches(Copies(before[h], def, placed[h] - 1), def);
    }
  }

  /** Copies on one host never share a fixed port, nor take one that was reserved before. */
  lemma LoadedPortsDisjoint(before: map<string, HostView>, views: map<string, HostView>, def: TaskDefinition,
                            placed: multiset<string>, h: string)
    requires Loaded(before, views, def, placed) && h in placed
    requires FixedPorts(def.containers) != []
    ensures placed[h] == 1
    ensures forall p :: p in FixedPorts(def.containers) ==> p !in before[h].reserved
  {
    assert FixedPorts(def.containers)[0] in FixedPorts(def.containers);
    CopiesInTotal(before[h], def, placed[h] - 1);
    FitsFewer(before[h], def, 1, placed[h]);
    assert Copies(before[h], def, 0) == before[h];
  }

  // ----- Slots -----

  /** How many copies the host takes, counted up to a limit. */
  ghost function Slots(v: HostView, def: TaskDefinition, limit: nat): (k: nat)
    ensures k <= limit && Fits(v, def, k)
    ensures forall j: nat :: j <= limit && Fits(v, def, j) ==> j <= k
  {
    if limit == 0 || Fits(v, def, limit) then limit else Slots(v, def, limit - 1)
  }

  /** Each of the given hosts as often as it has slots. */
  ghost function SlotBag(views: map<string, HostView>, hosts: set<string>, def: TaskDefinition,
                         limit: nat): multiset<string>
    requires hosts <= views.Keys
  {
    if hosts == {} then multiset{}
    else
      var h := Any(hosts);
      SlotBag(views, hosts - {h}, def, limit)[h := Slots(views[h], def, limit)]
  }

  ghost function Any(hosts: set<string>): (h: string)
    requires hosts != {}
    ensures h in hosts
  {
    var h :| h in hosts; h
  }

  lemma {:induction false} SlotBagCounts(views: map<string, HostView>, hosts: set<string>, def: TaskDefinition,
                                         limit: nat, h: string)
    requires hosts <= views.Keys
    ensures SlotBag(views, hosts, def, limit)[h] == if h in hosts then Slots(views[h], def, limit) else 0
  {
    if hosts != {} {
      SlotBagCounts(views, hosts - {Any(hosts)}, def, limit, h);
    }
  }

  /** The slots of all hosts together. */
  ghost function TotalSlots(views: map<string, HostView>, def: TaskDefinition, limit: nat): nat {
    |SlotBag(views, views.Keys, def, limit)|
  }

  lemma SlotBagFeasible(views: map<string, HostView>, def: TaskDefinition, limit: nat)
    ensures Feasible(views, def, SlotBag(views, views.Keys, def, limit))
  {
    var bag := SlotBag(views, views.Keys, def, limit);
    forall h | h in bag ensures h in views && Fits(views[h], def, bag[h]) {
      SlotBagCounts(views, views.Keys, def, limit, h);
    }
  }

  lemma FeasibleWithinSlots(views: map<string, HostView>, def: TaskDefinition, a: multiset<string>, limit: nat)
    requires Feasible(views, def, a) && |a| <= limit
    ensures |a| <= TotalSlots(views, def, limit)
  {
    var bag := SlotBag(views, views.Keys, def, limit);
    forall h ensures a[h] <= bag[h] {
      SlotBagCounts(views, views.Keys, def, limit, h);
      CountWithinSize(a, h);
    }
    assert bag == a + (bag - a);
  }

  lemma CountWithinSize(a: multiset<string>, h: string)
    ensures a[h] <= |a|
  {
    var rest := a[h := 0];
    assert a == rest + multiset{}[h := a[h]];
  }
}
