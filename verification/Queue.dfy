/** The master's queue of scheduling requests (master/queue.go): a slice in which a repeated push
    moves the value to the end, and from whose end it pops. */
module Queue {
  import opened Api

  /** The values of `s` other than `v`, in order. */
  function Without<T(==)>(s: seq<T>, v: T): seq<T> {
    if s == [] then []
    else Without(s[..|s| - 1], v) + if s[|s| - 1] == v then [] else [s[|s| - 1]]
  }

  ghost predicate NoDuplicates<T>(s: seq<T>) {
    forall i, j :: 0 <= i < j < |s| ==> s[i] != s[j]
  }

  lemma {:induction false} WithoutAbsent<T>(s: seq<T>, v: T)
    requires v !in s
    ensures Without(s, v) == s
  {
    if s != [] {
      WithoutAbsent(s[..|s| - 1], v);
    }
  }

  /** A value that occurs once is cut out where it stands. */
  lemma {:induction false} WithoutCuts<T>(s: seq<T>, i: nat)
    requires NoDuplicates(s) && i < |s|
    ensures Without(s, s[i]) == s[..i] + s[i + 1..]
  {
    var n := |s| - 1;
    if i == n {
      assert s[i] !in s[..n];
      WithoutAbsent(s[..n], s[i]);
    } else {
      WithoutCuts(s[..n], i);
      assert s[..n][..i] == s[..i] && s[i + 1..] == s[..n][i + 1..] + [s[n]];
    }
  }

  lemma {:induction false} WithoutMembers<T>(s: seq<T>, v: T, x: T)
    ensures x in Without(s, v) <==> x in s && x != v
  {
    if s != [] {
      WithoutMembers(s[..|s| - 1], v, x);
      assert x in s <==> x in s[..|s| - 1] || x == s[|s| - 1];
    }
  }

  /** A slice header over a backing array: the queue is the first `len` cells of `cells`. */
  class SchedulerQueue<T(==,0)> {
    var cells: array<T>
    var len: nat

    constructor (capacity: nat)
      ensures Valid() && Contents() == [] && fresh(cells)
    {
      cells := new T[capacity];
      len := 0;
    }

    ghost predicate Valid()
      reads this, cells
    {
      len <= cells.Length && NoDuplicates(cells[..len])
    }

    ghost function Contents(): seq<T>
      reads this, cells
      requires len <= cells.Length
    {
      cells[..len]
    }

    /** The loop ranges over the slice as it was, reading cells as they are: a removal shifts the rest
        left under it. It matches at most once, so no index runs past the shortened slice. */
    method Enqueue(val: T)
      requires Valid()
      modifies this, cells
      ensures Valid() && (cells == old(cells) || fresh(cells))
      ensures Contents() == Without(old(Contents()), val) + [val]
    {
      ghost var was := Contents();
      var n := len;
      ghost var found := false;
      for i := 0 to n
        invariant cells == old(cells) && n == |was| <= cells.Length
        invariant !found ==> len == n && cells[..n] == was && val !in was[..i]
        invariant found ==> len + 1 == n && cells[..len] == Without(was, val)
        invariant found ==> forall j :: i <= j < n ==> cells[j] != val
      {
        if cells[i] == val {
          assert !found;
          WithoutCuts(was, i);
          ShiftLeft(i);
          assert cells[..len] == was[..i] + was[i + 1..];
          found := true;
        }
      }
      if !found {
        assert was[..n] == was;
        WithoutAbsent(was, val);
      }
      Append(val, was);
    }

    /** `append(queue[:i], queue[i+1:]...)`, in place. */
    method ShiftLeft(i: nat)
      requires i < len <= cells.Length
      modifies this, cells
      ensures cells == old(cells) && len == old(len) - 1
      ensures cells[..len] == old(cells[..i]) + old(cells[i + 1..len])
      ensures forall k :: len <= k < cells.Length ==> cells[k] == old(cells[k])
    {
      for k := i to len - 1
        invariant cells == old(cells) && len == old(len)
        invariant forall m :: 0 <= m < i ==> cells[m] == old(cells[m])
        invariant forall m :: i <= m < k ==> cells[m] == old(cells[m + 1])
        invariant forall m :: k <= m < cells.Length ==> cells[m] == old(cells[m])
      {
        cells[k] := cells[k + 1];
      }
      len := len - 1;
    }

    /** `append(queue, val)`: into the next cell, or into a larger array when there is none. */
    method Append(val: T, ghost was: seq<T>)
      requires len <= cells.Length && NoDuplicates(was) && Contents() == Without(was, val)
      modifies this, cells
      ensures Valid() && (cells == old(cells) || fresh(cells))
      ensures Contents() == old(Contents()) + [val]
    {
      if len == cells.Length {
        var larger := new T[2 * len + 1];
        forall k | 0 <= k < len {
          larger[k] := cells[k];
        }
        cells := larger;
      }
      cells[len] := val;
      len := len + 1;
      PushKeepsDistinct(was, val);
      assert Contents() == old(Contents()) + [val];
    }

    /** Serve a waiting pop: only while the queue is not empty. */
    method Pop() returns (val: T)
      requires Valid() && len > 0
      modifies `len
      ensures Valid() && val == old(Contents())[|old(Contents())| - 1]
      ensures Contents() == old(Contents())[..|old(Contents())| - 1]
    {
      val := cells[len - 1];
      len := len - 1;
    }
  }

  lemma {:induction false} WithoutKeepsDistinct<T>(s: seq<T>, v: T)
    requires NoDuplicates(s)
    ensures NoDuplicates(Without(s, v))
  {
    if s != [] {
      var rest := s[..|s| - 1];
      WithoutKeepsDistinct(rest, v);
      WithoutMembers(rest, v, s[|s| - 1]);
    }
  }

  lemma PushKeepsDistinct<T>(s: seq<T>, v: T)
    requires NoDuplicates(s)
    ensures NoDuplicates(Without(s, v) + [v])
  {
    WithoutKeepsDistinct(s, v);
    WithoutMembers(s, v, v);
  }

  // ----- The queue as a priority map -----

  datatype Op<T> = Push(val: T) | Pop

  /** The pending values, each with the time of its latest push. */
  datatype Priorities<T> = Priorities(clock: nat, at: map<T, nat>)

  /** A pop while nothing is pending goes on waiting. */
  function QueueStep<T(==)>(q: seq<T>, op: Op<T>): (seq<T>, Option<T>) {
    match op
    case Push(v) => (Without(q, v) + [v], None)
    case Pop => if q == [] then (q, None) else (q[..|q| - 1], Some(q[|q| - 1]))
  }

  ghost predicate Latest<T>(p: Priorities<T>, v: T) {
    v in p.at && forall u :: u in p.at ==> p.at[u] <= p.at[v]
  }

  /** Pop takes a pending value pushed no earlier than any other. */
  ghost predicate PendingStep<T>(p: Priorities<T>, op: Op<T>, p': Priorities<T>, out: Option<T>) {
    match op
    case Push(v) => p' == Priorities(p.clock + 1, p.at[v := p.clock]) && out == None
    case Pop =>
      if p.at == map[] then p' == p && out == None
      else out.Some? && Latest(p, out.value) && p' == p.(at := p.at - {out.value})
  }

  /** The queue lists the pending values in the order of their latest pushes. */
  ghost predicate Ordered<T(!new)>(q: seq<T>, p: Priorities<T>) {
    && (forall v :: v in q <==> v in p.at)
    && (forall i, j :: 0 <= i < j < |q| ==> p.at[q[i]] < p.at[q[j]])
    && (forall v :: v in p.at ==> p.at[v] < p.clock)
  }

  /** Values other than the one pushed keep their order. */
  lemma {:induction false} WithoutOrder<T>(q: seq<T>, v: T, p: Priorities<T>)
    requires forall u :: u in q ==> u in p.at
    requires forall i, j :: 0 <= i < j < |q| ==> p.at[q[i]] < p.at[q[j]]
    ensures forall u :: u in Without(q, v) ==> u in q
    ensures forall i, j :: 0 <= i < j < |Without(q, v)| ==> p.at[Without(q, v)[i]] < p.at[Without(q, v)[j]]
  {
    if q != [] {
      var rest := q[..|q| - 1];
      WithoutOrder(rest, v, p);
      forall u | u in Without(rest, v) ensures p.at[u] < p.at[q[|q| - 1]] {
        var i :| 0 <= i < |rest| && rest[i] == u;
        assert q[i] == u;
      }
    }
  }

  lemma PushRefines<T(!new)>(q: seq<T>, v: T, p: Priorities<T>)
    requires Ordered(q, p)
    ensures Ordered(Without(q, v) + [v], Priorities(p.clock + 1, p.at[v := p.clock]))
  {
    var rest, p' := Without(q, v), Priorities(p.clock + 1, p.at[v := p.clock]);
    WithoutOrder(q, v, p);
    forall x ensures x in rest <==> x in q && x != v {
      WithoutMembers(q, v, x);
    }
    assert forall x :: x in rest + [v] <==> x in p'.at;
    forall i, j | 0 <= i < j < |rest + [v]| ensures p'.at[(rest + [v])[i]] < p'.at[(rest + [v])[j]] {
      assert rest[i] in rest;
      if j < |rest| {
        assert rest[j] in rest;
      }
    }
  }

  lemma PopRefines<T(!new)>(q: seq<T>, p: Priorities<T>)
    requires Ordered(q, p) && q != []
    ensures
      var v := q[|q| - 1];
      Latest(p, v) && Ordered(q[..|q| - 1], p.(at := p.at - {v}))
  {
    var v, rest := q[|q| - 1], q[..|q| - 1];
    forall u | u in p.at ensures p.at[u] <= p.at[v] && (u in rest <==> u != v) {
      LastIsLatest(q, p, u);
    }
  }

  lemma LastIsLatest<T(!new)>(q: seq<T>, p: Priorities<T>, u: T)
    requires Ordered(q, p) && u in p.at
    ensures q != [] && q[|q| - 1] in p.at && p.at[u] <= p.at[q[|q| - 1]]
    ensures u in q[..|q| - 1] <==> u != q[|q| - 1]
  {
    assert u in q;
    var i :| 0 <= i < |q| && q[i] == u;
    assert q[|q| - 1] in q;
    if i < |q| - 1 {
      assert q[..|q| - 1][i] == u;
    }
  }

  lemma StepRefines<T(!new)>(q: seq<T>, p: Priorities<T>, op: Op<T>) returns (p': Priorities<T>)
    requires Ordered(q, p)
    ensures PendingStep(p, op, p', QueueStep(q, op).1) && Ordered(QueueStep(q, op).0, p')
  {
    match op {
      case Push(v) =>
        PushRefines(q, v, p);
        p' := Priorities(p.clock + 1, p.at[v := p.clock]);
      case Pop =>
        if q == [] {
          assert p.at == map[];
          p' := p;
        } else {
          PopRefines(q, p);
          p' := p.(at := p.at - {q[|q| - 1]});
          assert q[|q| - 1] in p.at;
        }
    }
  }

  function Run<T(==)>(q: seq<T>, ops: seq<Op<T>>): (seq<T>, seq<Option<T>>)
    decreases |ops|
  {
    if ops == [] then (q, [])
    else
      var (q', out) := QueueStep(q, ops[0]);
      var (q'', outs) := Run(q', ops[1..]);
      (q'', [out] + outs)
  }

  ghost predicate PendingRun<T(!new)>(p: Priorities<T>, ops: seq<Op<T>>, p': Priorities<T>, outs: seq<Option<T>>)
    decreases |ops|
  {
    |outs| == |ops| &&
    if ops == [] then p' == p
    else exists mid :: PendingStep(p, ops[0], mid, outs[0]) && PendingRun(mid, ops[1..], p', outs[1..])
  }

  /** Over any run of pushes and pops the queue behaves as the priority map: it never holds a value
      twice, and every pop that is served gets the pending value pushed most recently. */
  lemma {:induction false} QueueRefinesPriorities<T(!new)>(q: seq<T>, p: Priorities<T>, ops: seq<Op<T>>)
    returns (p': Priorities<T>)
    requires Ordered(q, p)
    ensures PendingRun(p, ops, p', Run(q, ops).1)
    ensures Ordered(Run(q, ops).0, p') && NoDuplicates(Run(q, ops).0)
    decreases |ops|
  {
    if ops == [] {
      p' := p;
    } else {
      var (q1, out) := QueueStep(q, ops[0]);
      var mid := StepRefines(q, p, ops[0]);
      p' := QueueRefinesPriorities(q1, mid, ops[1..]);
      var outs := Run(q, ops).1;
      assert outs[0] == out && outs[1..] == Run(q1, ops[1..]).1;
      assert PendingStep(p, ops[0], mid, outs[0]) && PendingRun(mid, ops[1..], p', outs[1..]);
    }
  }

  /** The pending value pushed last is unique, so the priority map leaves pop no choice. */
  lemma LatestIsUnique<T(!new)>(q: seq<T>, p: Priorities<T>, v: T)
    requires Ordered(q, p) && Latest(p, v)
    ensures q != [] && v == q[|q| - 1]
  {
    var i :| 0 <= i < |q| && q[i] == v;
    assert q[|q| - 1] in p.at;
  }
}
