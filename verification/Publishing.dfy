/** The host view the agent recomputes from its task records, against the one the scheduler keeps up
    to date while it places (agent/agent.go `PublishState`, scheduler/scheduler.go `updateHost`). */
module Publishing {
  import opened Api
  import opened Placement
  import opened Rankers

  /** What a host has to give before any task (api/host.go). */
  datatype Resources = Resources(memory: int, cpuUnits: int, diskSpace: int)

  /** Together, what the tasks of these definitions take. */
  function Used(defs: seq<TaskDefinition>): Counts {
    if defs == [] then Usage(0, 0, 0)
    else Used(defs[..|defs| - 1]).Plus(TotalCounts(defs[|defs| - 1].containers))
  }

  function UsedPorts(defs: seq<TaskDefinition>): seq<nat> {
    if defs == [] then [] else UsedPorts(defs[..|defs| - 1]) + FixedPorts(defs[|defs| - 1].containers)
  }

  /** What a host with the given resources publishes while it runs these tasks. */
  function Published(base: Resources, defs: seq<TaskDefinition>): HostView {
    Less(base, Used(defs), UsedPorts(defs))
  }

  function Less(base: Resources, used: Counts, ports: seq<nat>): HostView {
    HostView(base.memory - used.memory, base.cpuUnits - used.cpuUnits, base.diskSpace - used.diskUse, ports)
  }

  /** The same resources and the same ports, in whatever order. */
  ghost predicate SameOffer(v: HostView, w: HostView) {
    && v.memory == w.memory && v.cpuUnits == w.cpuUnits && v.diskSpace == w.diskSpace
    && multiset(v.reserved) == multiset(w.reserved)
  }

  /** Hosts with the same offer are matched and ranked the same. */
  lemma SameOfferSameDecisions(v: HostView, w: HostView, def: TaskDefinition, scheduler: string)
    requires SameOffer(v, w)
    ensures Matches(v, def) <==> Matches(w, def)
    ensures RankerOf(scheduler)(v) == RankerOf(scheduler)(w)
  {
    assert forall p :: p in v.reserved <==> p in multiset(v.reserved);
    assert forall p :: p in w.reserved <==> p in multiset(w.reserved);
  }

  /** A host without tasks offers all it has. */
  lemma NothingUsed(base: Resources)
    ensures Published(base, []) == HostView(base.memory, base.cpuUnits, base.diskSpace, [])
  {
  }

  /** Several tasks placed one after the other. */
  function PlacedAll(v: HostView, defs: seq<TaskDefinition>): HostView {
    if defs == [] then v else Placed(PlacedAll(v, defs[..|defs| - 1]), defs[|defs| - 1])
  }

  lemma PlacedAllSnoc(v: HostView, defs: seq<TaskDefinition>, def: TaskDefinition)
    ensures PlacedAll(v, defs + [def]) == Placed(PlacedAll(v, defs), def)
  {
    assert (defs + [def])[..|defs|] == defs;
  }

  lemma {:induction false} PlacedAllPublishes(base: Resources, before: seq<TaskDefinition>, defs: seq<TaskDefinition>)
    ensures PlacedAll(Published(base, before), defs) == Published(base, before + defs)
  {
    if defs == [] {
      assert before + defs == before;
    } else {
      var rest := defs[..|defs| - 1];
      PlacedAllPublishes(base, before, rest);
      assert (before + defs)[..|before + defs| - 1] == before + rest;
    }
  }

  lemma LastOfConcat<T>(a: seq<T>, b: seq<T>)
    requires b != []
    ensures a + b == (a + b[..|b| - 1]) + [b[|b| - 1]]
  {
  }

  lemma UsedSnoc(a: seq<TaskDefinition>, x: TaskDefinition)
    ensures Used(a + [x]) == Used(a).Plus(TotalCounts(x.containers))
    ensures UsedPorts(a + [x]) == UsedPorts(a) + FixedPorts(x.containers)
  {
    assert (a + [x])[..|a|] == a;
  }

  lemma {:induction false} UsedSplit(a: seq<TaskDefinition>, x: TaskDefinition, b: seq<TaskDefinition>)
    ensures Used(a + [x] + b) == Used(a + b).Plus(TotalCounts(x.containers))
    decreases |b|
  {
    if b == [] {
      assert a + [x] + b == a + [x] && a + b == a;
      UsedSnoc(a, x);
    } else {
      var n := |b| - 1;
      UsedSplit(a, x, b[..n]);
      LastOfConcat(a + [x], b);
      LastOfConcat(a, b);
      UsedSnoc(a + [x] + b[..n], b[n]);
      UsedSnoc(a + b[..n], b[n]);
    }
  }

  /** The used ports without their order. */
  ghost function PortBag(defs: seq<TaskDefinition>): multiset<nat> {
    if defs == [] then multiset{} else PortBag(defs[..|defs| - 1]) + multiset(FixedPorts(defs[|defs| - 1].containers))
  }

  lemma {:induction false} PortBagOfUsedPorts(defs: seq<TaskDefinition>)
    ensures multiset(UsedPorts(defs)) == PortBag(defs)
  {
    if defs != [] {
      PortBagOfUsedPorts(defs[..|defs| - 1]);
    }
  }

  lemma PortBagSnoc(a: seq<TaskDefinition>, x: TaskDefinition)
    ensures PortBag(a + [x]) == PortBag(a) + multiset(FixedPorts(x.containers))
  {
    assert (a + [x])[..|a|] == a;
  }

  lemma SwapAddends(a: multiset<nat>, b: multiset<nat>, c: multiset<nat>)
    ensures a + b + c == a + c + b
  {
  }

  lemma PortBagStep(more: seq<TaskDefinition>, less: seq<TaskDefinition>, x: TaskDefinition, y: TaskDefinition)
    requires PortBag(more) == PortBag(less) + multiset(FixedPorts(x.containers))
    ensures PortBag(more + [y]) == PortBag(less + [y]) + multiset(FixedPorts(x.containers))
  {
    PortBagSnoc(more, y);
    PortBagSnoc(less, y);
    SwapAddends(PortBag(less), multiset(FixedPorts(x.containers)), multiset(FixedPorts(y.containers)));
  }

  lemma {:induction false} PortBagSplit(a: seq<TaskDefinition>, x: TaskDefinition, b: seq<TaskDefinition>)
    ensures PortBag(a + [x] + b) == PortBag(a + b) + multiset(FixedPorts(x.containers))
    decreases |b|
  {
    if b == [] {
      assert a + [x] + b == a + [x] && a + b == a;
      PortBagSnoc(a, x);
    } else {
      var n := |b| - 1;
      PortBagSplit(a, x, b[..n]);
      PortBagStep(a + [x] + b[..n], a + b[..n], x, b[n]);
      LastOfConcat(a + [x], b);
      LastOfConcat(a, b);
    }
  }

  /** Of two arrangements of the same values, the last of one can be found and cut out of the other. */
  lemma FindLast<T>(a: seq<T>, b: seq<T>) returns (i: nat)
    requires multiset(a) == multiset(b) && a != []
    ensures i < |b| == |a| && b[i] == a[|a| - 1]
    ensures multiset(a[..|a| - 1]) == multiset(b[..i] + b[i + 1..])
    ensures b == b[..i] + [b[i]] + b[i + 1..] && a == a[..|a| - 1] + [a[|a| - 1]]
  {
    var x := a[|a| - 1];
    assert |multiset(a)| == |a| && |multiset(b)| == |b|;
    assert x in multiset(a);
    assert x in b;
    i :| 0 <= i < |b| && b[i] == x;
    assert a == a[..|a| - 1] + [x];
    CutOut(b, i);
    assert multiset(a[..|a| - 1]) == multiset(a) - multiset{x};
    assert multiset(b[..i] + b[i + 1..]) == multiset(b) - multiset{x};
  }

  lemma CutOut<T>(b: seq<T>, i: nat)
    requires i < |b|
    ensures b == b[..i] + [b[i]] + b[i + 1..]
    ensures multiset(b) == multiset(b[..i] + b[i + 1..]) + multiset{b[i]}
  {
    assert b == b[..i] + [b[i]] + b[i + 1..];
    assert multiset(b[..i] + [b[i]] + b[i + 1..]) == multiset(b[..i]) + multiset{b[i]} + multiset(b[i + 1..]);
  }

  /** The order in which the records are added up does not matter. */
  lemma {:induction false} PublishedInAnyOrder(base: Resources, a: seq<TaskDefinition>, b: seq<TaskDefinition>)
    requires multiset(a) == multiset(b)
    ensures SameOffer(Published(base, a), Published(base, b))
    decreases |a|
  {
    if a == [] {
      assert |multiset(b)| == |b|;
    } else {
      var i := FindLast(a, b);
      var rest, x := a[..|a| - 1], b[i];
      PublishedInAnyOrder(base, rest, b[..i] + b[i + 1..]);
      UsedSplit(b[..i], x, b[i + 1..]);
      PortBagSplit(b[..i], x, b[i + 1..]);
      PortBagOfUsedPorts(b);
      PortBagOfUsedPorts(b[..i] + b[i + 1..]);
      UsedSnoc(rest, x);
    }
  }

  /** The definitions of the tasks in `m`, in the order of the keys. */
  function InOrder(order: seq<string>, m: map<string, TaskDefinition>): seq<TaskDefinition>
    requires forall k :: k in order ==> k in m
  {
    if order == [] then [] else InOrder(order[..|order| - 1], m) + [m[order[|order| - 1]]]
  }

  lemma InOrderSnoc(a: seq<string>, x: string, m: map<string, TaskDefinition>)
    requires (forall k :: k in a ==> k in m) && x in m
    ensures InOrder(a + [x], m) == InOrder(a, m) + [m[x]]
  {
    assert (a + [x])[..|a|] == a;
  }

  lemma {:induction false} InOrderSplit(a: seq<string>, x: string, b: seq<string>, m: map<string, TaskDefinition>)
    requires (forall k :: k in a ==> k in m) && (forall k :: k in b ==> k in m) && x in m
    ensures multiset(InOrder(a + [x] + b, m)) == multiset(InOrder(a + b, m)) + multiset{m[x]}
    decreases |b|
  {
    if b == [] {
      assert a + [x] + b == a + [x] && a + b == a;
      InOrderSnoc(a, x, m);
    } else {
      var n := |b| - 1;
      InOrderSplit(a, x, b[..n], m);
      LastOfConcat(a + [x], b);
      LastOfConcat(a, b);
      InOrderSnoc(a + [x] + b[..n], b[n], m);
      InOrderSnoc(a + b[..n], b[n], m);
    }
  }

  lemma {:induction false} InOrderPermutes(a: seq<string>, b: seq<string>, m: map<string, TaskDefinition>)
    requires multiset(a) == multiset(b) && (forall k :: k in a ==> k in m) && (forall k :: k in b ==> k in m)
    ensures multiset(InOrder(a, m)) == multiset(InOrder(b, m))
    decreases |a|
  {
    if a == [] {
      assert |multiset(b)| == |b|;
    } else {
      var i := FindLast(a, b);
      var rest, x := a[..|a| - 1], b[i];
      InOrderPermutes(rest, b[..i] + b[i + 1..], m);
      InOrderSplit(b[..i], x, b[i + 1..], m);
      InOrderSnoc(rest, x, m);
    }
  }

  lemma {:induction false} SameInLarger(order: seq<string>, m: map<string, TaskDefinition>,
                                        m': map<string, TaskDefinition>)
    requires (forall k :: k in order ==> k in m) && (forall k :: k in m ==> k in m' && m'[k] == m[k])
    ensures InOrder(order, m) == InOrder(order, m')
  {
    if order != [] {
      SameInLarger(order[..|order| - 1], m, m');
    }
  }

  // ----- Tasks placed on a published view -----

  /** A task placed on the host, by the id it is recorded under. */
  datatype Launch = Launch(id: string, def: TaskDefinition)

  function Launched(ls: seq<Launch>): seq<TaskDefinition> {
    if ls == [] then [] else Launched(ls[..|ls| - 1]) + [ls[|ls| - 1].def]
  }

  /** The agent's records once it has seen these tasks too; a record that is there stays as it is. */
  function Recorded(m: map<string, TaskDefinition>, ls: seq<Launch>): map<string, TaskDefinition> {
    if ls == [] then m
    else
      var r, l := Recorded(m, ls[..|ls| - 1]), ls[|ls| - 1];
      if l.id in r then r else r[l.id := l.def]
  }

  /** The definitions of the tasks placed under an id that was recorded already. */
  function Again(m: map<string, TaskDefinition>, ls: seq<Launch>): seq<TaskDefinition> {
    if ls == [] then []
    else
      var front, l := ls[..|ls| - 1], ls[|ls| - 1];
      if l.id in Recorded(m, front) then Again(m, front) + [l.def] else Again(m, front)
  }

  lemma RecordOneMore(order: seq<string>, r: map<string, TaskDefinition>, id: string, def: TaskDefinition)
    requires Enumerates(order, r.Keys) && id !in r
    ensures Enumerates(order + [id], r[id := def].Keys)
    ensures (forall k :: k in order ==> k in r) && forall k :: k in order + [id] ==> k in r[id := def]
    ensures InOrder(order + [id], r[id := def]) == InOrder(order, r) + [def]
  {
    EnumeratesMembers(order, r.Keys);
    var r' := r[id := def];
    assert r'.Keys == r.Keys + {id};
    SameInLarger(order, r, r');
    InOrderSnoc(order, id, r');
  }

  /** Counted with repetitions, the definitions recorded and those placed are the ones recorded afterwards
      and those placed again. */
  lemma {:induction false} RecordedAndAgain(order: seq<string>, m: map<string, TaskDefinition>, ls: seq<Launch>)
    returns (order': seq<string>)
    requires Enumerates(order, m.Keys)
    ensures Enumerates(order', Recorded(m, ls).Keys)
    ensures (forall k :: k in order ==> k in m) && forall k :: k in order' ==> k in Recorded(m, ls)
    ensures multiset(InOrder(order, m)) + multiset(Launched(ls))
         == multiset(InOrder(order', Recorded(m, ls))) + multiset(Again(m, ls))
    decreases |ls|
  {
    EnumeratesMembers(order, m.Keys);
    if ls == [] {
      order' := order;
    } else {
      var front, l := ls[..|ls| - 1], ls[|ls| - 1];
      assert ls == front + [l];
      LaunchSnoc(m, front, l);
      var o := RecordedAndAgain(order, m, front);
      AddToBoth(InOrder(order, m), Launched(front), InOrder(o, Recorded(m, front)), Again(m, front), l.def);
      if l.id in Recorded(m, front) {
        order' := o;
      } else {
        RecordOneMore(o, Recorded(m, front), l.id, l.def);
        order' := o + [l.id];
      }
    }
  }

  lemma LaunchSnoc(m: map<string, TaskDefinition>, ls: seq<Launch>, l: Launch)
    ensures Launched(ls + [l]) == Launched(ls) + [l.def]
    ensures
      var r := Recorded(m, ls);
      && Recorded(m, ls + [l]) == (if l.id in r then r else r[l.id := l.def])
      && Again(m, ls + [l]) == (if l.id in r then Again(m, ls) + [l.def] else Again(m, ls))
  {
    assert (ls + [l])[..|ls|] == ls;
  }

  lemma AddToBoth<T>(a: seq<T>, b: seq<T>, c: seq<T>, d: seq<T>, x: T)
    requires multiset(a) + multiset(b) == multiset(c) + multiset(d)
    ensures multiset(a) + multiset(b + [x]) == multiset(c) + multiset(d + [x])
    ensures multiset(a) + multiset(b + [x]) == multiset(c + [x]) + multiset(d)
  {
    var more := multiset(a) + multiset(b) + multiset{x};
    assert multiset(a) + multiset(b + [x]) == more;
    assert multiset(c) + multiset(d + [x]) == multiset(c) + multiset(d) + multiset{x};
    assert multiset(c + [x]) + multiset(d) == multiset(c) + multiset(d) + multiset{x};
  }

  lemma {:induction false} UsedConcat(a: seq<TaskDefinition>, b: seq<TaskDefinition>)
    ensures Used(a + b) == Used(a).Plus(Used(b)) && UsedPorts(a + b) == UsedPorts(a) + UsedPorts(b)
    decreases |b|
  {
    if b == [] {
      assert a + b == a;
    } else {
      LastOfConcat(a, b);
      UsedConcat(a, b[..|b| - 1]);
      UsedSnoc(a + b[..|b| - 1], b[|b| - 1]);
    }
  }

  ghost predicate TakesNothing(defs: seq<TaskDefinition>) {
    Used(defs) == Usage(0, 0, 0) && UsedPorts(defs) == []
  }

  lemma SameOfferWithMore(base: Resources, a: seq<TaskDefinition>, b: seq<TaskDefinition>)
    ensures SameOffer(Published(base, a + b), Published(base, a)) <==> TakesNothing(b)
  {
    UsedConcat(a, b);
    SameLess(base, Used(a), UsedPorts(a), Used(b), UsedPorts(b));
  }

  lemma SameLess(base: Resources, u: Counts, ports: seq<nat>, more: Counts, morePorts: seq<nat>)
    ensures SameOffer(Less(base, u.Plus(more), ports + morePorts), Less(base, u, ports))
       <==> more == Usage(0, 0, 0) && morePorts == []
  {
    SamePortsWithMore(ports, morePorts);
  }

  lemma SamePortsWithMore(a: seq<nat>, b: seq<nat>)
    ensures multiset(a + b) == multiset(a) <==> b == []
  {
    assert |multiset(a + b)| == |a + b| && |multiset(a)| == |a|;
    if b == [] {
      assert a + b == a;
    }
  }

  /** Starting from a view published over the recorded tasks, placing further ones gives the same offer as
      publishing over the records with them exactly if the tasks placed under ids that were recorded
      already take nothing, whatever the two iteration orders and the order of placement: the scheduler
      charges such a task twice, the agent once. */
  lemma IncrementalEqualsRecomputed(base: Resources, m: map<string, TaskDefinition>, order: seq<string>,
                                    ls: seq<Launch>, order': seq<string>)
    requires Enumerates(order, m.Keys) && Enumerates(order', Recorded(m, ls).Keys)
    ensures (forall k :: k in order ==> k in m) && (forall k :: k in order' ==> k in Recorded(m, ls))
    ensures SameOffer(PlacedAll(Published(base, InOrder(order, m)), Launched(ls)),
                      Published(base, InOrder(order', Recorded(m, ls))))
       <==> TakesNothing(Again(m, ls))
  {
    EnumeratesMembers(order', Recorded(m, ls).Keys);
    var grown := RecordedAndAgain(order, m, ls);
    InOrderPermutes(grown, order', Recorded(m, ls));
    var placed, recorded := InOrder(order, m) + Launched(ls), InOrder(order', Recorded(m, ls));
    PlacedAllPublishes(base, InOrder(order, m), Launched(ls));
    assert multiset(placed) == multiset(recorded + Again(m, ls));
    PublishedInAnyOrder(base, placed, recorded + Again(m, ls));
    SameOfferWithMore(base, recorded, Again(m, ls));
  }
}
