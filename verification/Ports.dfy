/** The random port search of `selectPort` (scheduler/scheduler.go). The random source is a finite
    supply of draws; `rand.Intn(n)` takes the next one modulo n. */
module Ports {
  import opened Collections

  const LOW_PORT := 8000
  const FIRST_PORT := 9000
  const MAX_PORT := 65535
  const FIRST_JUMP := 2000
  const JUMP := 1000

  /** `Searching` is a search still in its loop when the draws ran out. `left` is the unused supply,
      `wrapped` whether the search passed the top of the range. */
  datatype Search = Found(port: nat, left: seq<nat>, wrapped: bool) | Searching

  function FirstCandidate(maxPort: nat, draw: nat): nat {
    var p := maxPort + draw % FIRST_JUMP;
    if p < FIRST_PORT then p + FIRST_PORT else p
  }

  function SearchFrom(p: nat, reserved: seq<nat>, draws: seq<nat>, wrapped: bool): Search
    decreases |draws|, if p > MAX_PORT then 1 else 0
  {
    if p in reserved then
      if draws == [] then Searching
      else SearchFrom(p + draws[0] % JUMP, reserved, draws[1..], wrapped)
    else if p > MAX_PORT then SearchFrom(LOW_PORT, reserved, draws, true)
    else Found(p, draws, wrapped)
  }

  /** The whole call: one draw for the first candidate, then the loop. */
  function SelectPort(maxPort: nat, reserved: seq<nat>, draws: seq<nat>): Search {
    if draws == [] then Searching
    else SearchFrom(FirstCandidate(maxPort, draws[0]), reserved, draws[1..], false)
  }

  lemma {:induction false} SearchSound(p: nat, reserved: seq<nat>, draws: seq<nat>, wrapped: bool)
    requires p >= LOW_PORT
    ensures
      var s := SearchFrom(p, reserved, draws, wrapped);
      s.Found? ==>
        && LOW_PORT <= s.port <= MAX_PORT && s.port !in reserved
        && |s.left| <= |draws| && s.left == draws[|draws| - |s.left|..]
        && (wrapped ==> s.wrapped) && (!s.wrapped ==> s.port >= p)
    decreases |draws|, if p > MAX_PORT then 1 else 0
  {
    if p in reserved {
      if draws != [] {
        SearchSound(p + draws[0] % JUMP, reserved, draws[1..], wrapped);
      }
    } else if p > MAX_PORT {
      SearchSound(LOW_PORT, reserved, draws, true);
    }
  }

  /** Where the search looks: first up to 1999 above the last port, and then 9000 higher if that is below
      9000; from a reserved port up to 999 above it; and at 8000 when it has passed 65535. */
  lemma SearchByCases(maxPort: nat, reserved: seq<nat>, draws: seq<nat>)
    requires |draws| >= 2
    ensures
      var p := maxPort + draws[0] % 2000;
      var q := if p < 9000 then p + 9000 else p;
      var next := q + draws[1] % 1000;
      && (q !in reserved && q <= 65535 ==> SelectPort(maxPort, reserved, draws) == Found(q, draws[1..], false))
      && (q !in reserved && q > 65535 && 8000 !in reserved ==>
            SelectPort(maxPort, reserved, draws) == Found(8000, draws[1..], true))
      && (q in reserved && next !in reserved && next <= 65535 ==>
            SelectPort(maxPort, reserved, draws) == Found(next, draws[2..], false))
  {
    var q := FirstCandidate(maxPort, draws[0]);
    var rest := draws[1..];
    assert rest[1..] == draws[2..] && rest[0] == draws[1];
    if q !in reserved && q > MAX_PORT {
      assert SearchFrom(q, reserved, rest, false) == SearchFrom(LOW_PORT, reserved, rest, true);
    } else if q in reserved {
      assert SearchFrom(q, reserved, rest, false) == SearchFrom(q + draws[1] % 1000, reserved, rest[1..], false);
    }
  }

  /** The first candidate is the last port itself, and it is free. */
  predicate Stays(maxPort: nat, reserved: seq<nat>, draw: nat) {
    draw % FIRST_JUMP == 0 && FIRST_PORT <= maxPort && maxPort !in reserved
  }

  /** A selected port lies in the range and is not reserved. Unless the search wrapped it is at least the
      last one selected on the host, and above it exactly if the first draw did not stay there. */
  lemma SelectedPortSound(maxPort: nat, reserved: seq<nat>, draws: seq<nat>)
    ensures
      var s := SelectPort(maxPort, reserved, draws);
      s.Found? ==>
        && LOW_PORT <= s.port <= MAX_PORT && s.port !in reserved && |s.left| < |draws|
        && (!s.wrapped ==> s.port >= maxPort && (s.port > maxPort <==> !Stays(maxPort, reserved, draws[0])))
  {
    if draws != [] {
      SearchSound(FirstCandidate(maxPort, draws[0]), reserved, draws[1..], false);
    }
  }

  /** One selection on a host: what was reserved, what was drawn, and the port that came out. */
  datatype Pick = Pick(reserved: seq<nat>, draws: seq<nat>, port: nat)

  function LastBefore(maxPort: nat, picks: seq<Pick>, k: nat): nat
    requires k < |picks|
  {
    if k == 0 then maxPort else picks[k - 1].port
  }

  ghost predicate PickedAt(maxPort: nat, picks: seq<Pick>, k: nat)
    requires k < |picks|
  {
    var s := SelectPort(LastBefore(maxPort, picks, k), picks[k].reserved, picks[k].draws);
    picks[k].draws != [] && s.Found? && !s.wrapped && s.port == picks[k].port
  }

  /** Successive selections on one host, none wrapping. */
  ghost predicate Picks(maxPort: nat, picks: seq<Pick>) {
    forall k :: 0 <= k < |picks| ==> PickedAt(maxPort, picks, k)
  }

  ghost predicate StaysAt(maxPort: nat, picks: seq<Pick>, k: nat)
    requires k < |picks| && picks[k].draws != []
  {
    Stays(LastBefore(maxPort, picks, k), picks[k].reserved, picks[k].draws[0])
  }

  lemma NextPick(maxPort: nat, picks: seq<Pick>, k: nat)
    requires Picks(maxPort, picks) && k < |picks|
    ensures picks[k].draws != [] && LastBefore(maxPort, picks, k) <= picks[k].port
    ensures LastBefore(maxPort, picks, k) == picks[k].port <==> StaysAt(maxPort, picks, k)
  {
    assert PickedAt(maxPort, picks, k);
    SelectedPortSound(LastBefore(maxPort, picks, k), picks[k].reserved, picks[k].draws);
  }

  /** Every selection between the two stayed on its port. */
  ghost predicate AllStay(maxPort: nat, picks: seq<Pick>, i: nat, j: nat)
    requires i <= j < |picks|
  {
    i == j || (AllStay(maxPort, picks, i, j - 1) && picks[j].draws != [] && StaysAt(maxPort, picks, j))
  }

  /** Between wraps the ports selected on one host never decrease, and two of them are the same exactly
      if every selection after the first of the two stayed on its port. */
  lemma {:induction false} PicksIncrease(maxPort: nat, picks: seq<Pick>, i: nat, j: nat)
    requires Picks(maxPort, picks) && i < j < |picks|
    ensures picks[i].port <= picks[j].port
    ensures picks[i].port == picks[j].port <==> AllStay(maxPort, picks, i, j)
  {
    NextPick(maxPort, picks, j);
    if i < j - 1 {
      PicksIncrease(maxPort, picks, i, j - 1);
    } else {
      assert AllStay(maxPort, picks, i, i);
    }
  }

  /** A zero first draw can give out the same port twice: providing a port does not reserve it. */
  lemma ZeroDrawRepeats(port: nat, reserved: seq<nat>, draws: seq<nat>)
    requires FIRST_PORT <= port <= MAX_PORT && port !in reserved
    requires draws != [] && draws[0] % FIRST_JUMP == 0
    ensures SelectPort(port, reserved, draws) == Found(port, draws[1..], false)
  {
  }

  /** So can a wrap: on a host with nothing reserved, draws of 1999 lead from port 8000 up and after 29
      selections back to it. */
  lemma WrapRepeats(k: nat)
    requires k < 29
    ensures SelectPort(LOW_PORT + 1999 * k, [], [1999])
         == if k < 28 then Found(LOW_PORT + 1999 * (k + 1), [], false) else Found(LOW_PORT, [], true)
  {
    var p := FirstCandidate(LOW_PORT + 1999 * k, 1999);
    var none: seq<nat> := [];
    assert [1999][1..] == none;
    assert SearchFrom(LOW_PORT, none, none, true) == Found(LOW_PORT, none, true);
    assert SearchFrom(p, none, none, false)
        == if k < 28 then Found(p, none, false) else SearchFrom(LOW_PORT, none, none, true);
  }

  // ----- A port for every open name -----

  /** `Dry` is a search still in its loop when the draws ran out. */
  datatype Drawn = Drawn(ports: map<string, nat>, last: nat, left: seq<nat>) | Dry

  /** One selection for each name in turn, on a host where `last` was the last port selected. */
  function DrawAll(names: seq<string>, ports: map<string, nat>, last: nat, reserved: seq<nat>, draws: seq<nat>): Drawn {
    if names == [] then Drawn(ports, last, draws)
    else
      match SelectPort(last, reserved, draws)
      case Found(p, left, _) => DrawAll(names[1..], ports[names[0] := p], p, reserved, left)
      case Searching => Dry
  }

  /** The ports are in range and not reserved. */
  ghost predicate InRange(ports: map<string, nat>, reserved: seq<nat>) {
    forall name :: name in ports ==> LOW_PORT <= ports[name] <= MAX_PORT && ports[name] !in reserved
  }

  /** Every name gets a port in range that is not reserved. */
  lemma {:induction false} DrawnSound(names: seq<string>, ports: map<string, nat>, last: nat, reserved: seq<nat>,
                                      draws: seq<nat>)
    requires InRange(ports, reserved)
    ensures
      var d := DrawAll(names, ports, last, reserved, draws);
      d.Drawn? ==>
        && InRange(d.ports, reserved) && (forall name :: name in d.ports <==> name in ports || name in names)
        && |d.left| + |names| <= |draws|
        && d.last == if names == [] then last else d.ports[names[|names| - 1]]
    decreases |names|
  {
    if names != [] {
      SelectedPortSound(last, reserved, draws);
      match SelectPort(last, reserved, draws)
      case Found(p, left, _) =>
        DrawnSound(names[1..], ports[names[0] := p], p, reserved, left);
        assert forall name :: name in names <==> name == names[0] || name in names[1..];
      case Searching =>
    }
  }

  /** One name more is drawn for last, from the last port and the draws that the others left. */
  lemma {:induction false} DrawOneMore(names: seq<string>, name: string, ports: map<string, nat>, last: nat,
                                       reserved: seq<nat>, draws: seq<nat>)
    ensures DrawAll(names + [name], ports, last, reserved, draws)
         == match DrawAll(names, ports, last, reserved, draws)
            case Dry => Dry
            case Drawn(ports', last', left) =>
              match SelectPort(last', reserved, left)
              case Searching => Dry
              case Found(p, left', _) => Drawn(ports'[name := p], p, left')
    decreases |names|
  {
    if names == [] {
      assert [name][1..] == [];
      assert names + [name] == [name];
    } else {
      assert (names + [name])[1..] == names[1..] + [name];
      match SelectPort(last, reserved, draws)
      case Found(p, left, _) => DrawOneMore(names[1..], name, ports[names[0] := p], p, reserved, left);
      case Searching =>
    }
  }

  // ----- When the search ends -----

  function Distinct(reserved: seq<nat>): set<nat> {
    set r | r in reserved
  }

  ghost predicate Positive(draws: seq<nat>) {
    forall k :: 0 <= k < |draws| ==> draws[k] % JUMP > 0
  }

  /** A jump from `x` can land on a reserved port. */
  ghost predicate Blocked(reserved: seq<nat>, x: nat) {
    exists r :: r in reserved && x < r < x + JUMP
  }

  /** The lowest port is reserved, and from there jumps can climb from one reserved port to the next
      until one leads out of the range. */
  ghost predicate Walled(reserved: seq<nat>) {
    LOW_PORT in reserved && forall x: nat :: LOW_PORT <= x <= MAX_PORT + 1 - JUMP ==> Blocked(reserved, x)
  }

  /** Every positive supply of at least `n` draws lets the search end. */
  ghost predicate EndsWithin(maxPort: nat, reserved: seq<nat>, n: nat) {
    forall draws :: Positive(draws) && |draws| >= n ==> SelectPort(maxPort, reserved, draws).Found?
  }

  ghost function ReservedFrom(reserved: seq<nat>, p: nat): set<nat> {
    set r | r in reserved && r >= p
  }

  lemma JumpLeavesFewer(reserved: seq<nat>, p: nat, next: nat)
    requires p in reserved && p < next
    ensures |ReservedFrom(reserved, next)| < |ReservedFrom(reserved, p)|
  {
    var here := ReservedFrom(reserved, p);
    assert p in here;
    SubsetSize(ReservedFrom(reserved, next), here - {p});
  }

  /** From the lowest port, a gap too wide to jump over ends the search. */
  lemma {:induction false} GapCatches(p: nat, reserved: seq<nat>, draws: seq<nat>, wrapped: bool, gap: nat)
    requires LOW_PORT <= p < gap + JUMP <= MAX_PORT + 1 && !Blocked(reserved, gap)
    requires Positive(draws) && |draws| >= |ReservedFrom(reserved, p)|
    ensures
      var s := SearchFrom(p, reserved, draws, wrapped);
      s.Found? && |draws| - |s.left| <= |ReservedFrom(reserved, p)|
    decreases |draws|
  {
    if p in reserved {
      assert p <= gap;
      assert p in ReservedFrom(reserved, p);
      var next := p + draws[0] % JUMP;
      assert draws[0] % JUMP > 0;
      JumpLeavesFewer(reserved, p, next);
      GapCatches(next, reserved, draws[1..], wrapped, gap);
    }
  }

  lemma LowestPortEnds(reserved: seq<nat>, draws: seq<nat>, wrapped: bool)
    requires !Walled(reserved) && Positive(draws) && |draws| >= |Distinct(reserved)|
    ensures
      var s := SearchFrom(LOW_PORT, reserved, draws, wrapped);
      s.Found? && |draws| - |s.left| <= |Distinct(reserved)|
  {
    if LOW_PORT in reserved {
      var gap: nat :| LOW_PORT <= gap <= MAX_PORT + 1 - JUMP && !Blocked(reserved, gap);
      SubsetSize(ReservedFrom(reserved, LOW_PORT), Distinct(reserved));
      GapCatches(LOW_PORT, reserved, draws, wrapped, gap);
    }
  }

  /** With positive draws and no wall the search ends, from wherever it is. */
  lemma {:induction false} SearchEnds(p: nat, reserved: seq<nat>, draws: seq<nat>, wrapped: bool)
    requires !Walled(reserved) && Positive(draws)
    requires |draws| >= |ReservedFrom(reserved, p)| + |Distinct(reserved)|
    ensures
      var s := SearchFrom(p, reserved, draws, wrapped);
      s.Found? && |draws| - |s.left| <= |ReservedFrom(reserved, p)| + |Distinct(reserved)|
    decreases |draws|
  {
    if p in reserved {
      assert p in ReservedFrom(reserved, p);
      var next := p + draws[0] % JUMP;
      assert draws[0] % JUMP > 0;
      JumpLeavesFewer(reserved, p, next);
      SearchEnds(next, reserved, draws[1..], wrapped);
    } else if p > MAX_PORT {
      LowestPortEnds(reserved, draws, true);
    }
  }

  /** How many draws one selection can take. */
  function SearchCost(reserved: seq<nat>): nat {
    2 * |Distinct(reserved)| + 1
  }

  lemma SelectionEnds(maxPort: nat, reserved: seq<nat>, draws: seq<nat>)
    requires !Walled(reserved) && Positive(draws) && |draws| >= SearchCost(reserved)
    ensures
      var s := SelectPort(maxPort, reserved, draws);
      s.Found? && |draws| - |s.left| <= SearchCost(reserved) && Positive(s.left)
  {
    var p := FirstCandidate(maxPort, draws[0]);
    SubsetSize(ReservedFrom(reserved, p), Distinct(reserved));
    SearchEnds(p, reserved, draws[1..], false);
    SearchSound(p, reserved, draws[1..], false);
    var s := SelectPort(maxPort, reserved, draws);
    assert s.left == draws[|draws| - |s.left|..];
  }

  /** Behind a wall the search can go on for as long as it likes. */
  lemma {:induction false} WalledSearchGoesOn(p: nat, reserved: seq<nat>, n: nat, wrapped: bool)
    returns (draws: seq<nat>)
    requires Walled(reserved) && p >= LOW_PORT && (p in reserved || p > MAX_PORT)
    ensures |draws| == n && Positive(draws) && SearchFrom(p, reserved, draws, wrapped).Searching?
    decreases n, if p in reserved then 0 else 1
  {
    if p !in reserved {
      draws := WalledSearchGoesOn(LOW_PORT, reserved, n, true);
    } else if n == 0 {
      draws := [];
    } else {
      var next := Rung(p, reserved);
      var rest := WalledSearchGoesOn(next, reserved, n - 1, wrapped);
      draws := [next - p] + rest;
      assert draws[1..] == rest;
    }
  }

  /** The next reserved port that a jump can reach, or one outside the range. */
  lemma Rung(p: nat, reserved: seq<nat>) returns (next: nat)
    requires Walled(reserved) && p >= LOW_PORT
    ensures p < next < p + JUMP && (next in reserved || next > MAX_PORT)
  {
    if p > MAX_PORT + 1 - JUMP {
      next := p + JUMP - 1;
    } else {
      assert Blocked(reserved, p);
      next :| next in reserved && p < next < p + JUMP;
    }
  }

  /** A first draw that leads behind the wall. */
  lemma FirstRung(maxPort: nat, reserved: seq<nat>) returns (draw: nat)
    requires Walled(reserved)
    ensures draw % JUMP > 0
    ensures var p := FirstCandidate(maxPort, draw); p >= LOW_PORT && (p in reserved || p > MAX_PORT)
  {
    if maxPort <= LOW_PORT {
      var next := Rung(maxPort + FIRST_PORT, reserved);
      draw := next - maxPort - FIRST_PORT;
    } else if maxPort < FIRST_PORT {
      var next := Rung(FIRST_PORT - 1, reserved);
      if next == maxPort + JUMP {
        next := Rung(next, reserved);
      }
      draw := next - maxPort;
    } else {
      var next := Rung(maxPort, reserved);
      draw := next - maxPort;
    }
  }

  lemma WalledSelectionGoesOn(maxPort: nat, reserved: seq<nat>, n: nat)
    requires Walled(reserved)
    ensures !EndsWithin(maxPort, reserved, n)
  {
    var draw := FirstRung(maxPort, reserved);
    var rest := WalledSearchGoesOn(FirstCandidate(maxPort, draw), reserved, n, false);
    var draws := [draw] + rest;
    assert draws[1..] == rest;
    assert Positive(draws) && SelectPort(maxPort, reserved, draws).Searching?;
  }

  /** From whatever last port, positive draws are sure to end the search exactly when the reserved ports
      are no wall; twice as many as there are reserved ports, and one, are then enough. */
  lemma SearchEndsUnlessWalled(maxPort: nat, reserved: seq<nat>)
    ensures (exists n: nat :: EndsWithin(maxPort, reserved, n)) <==> !Walled(reserved)
    ensures !Walled(reserved) ==> EndsWithin(maxPort, reserved, SearchCost(reserved))
  {
    if Walled(reserved) {
      forall n: nat ensures !EndsWithin(maxPort, reserved, n) {
        WalledSelectionGoesOn(maxPort, reserved, n);
      }
    } else {
      forall draws | Positive(draws) && |draws| >= SearchCost(reserved)
        ensures SelectPort(maxPort, reserved, draws).Found?
      {
        SelectionEnds(maxPort, reserved, draws);
      }
      assert EndsWithin(maxPort, reserved, SearchCost(reserved));
    }
  }

  /** With no wall, drawing all ports ends, and takes no more than so many draws for each. */
  lemma {:induction false} DrawingEnds(names: seq<string>, ports: map<string, nat>, last: nat, reserved: seq<nat>,
                                       draws: seq<nat>)
    requires !Walled(reserved) && Positive(draws) && |draws| >= |names| * SearchCost(reserved)
    ensures
      var d := DrawAll(names, ports, last, reserved, draws);
      d.Drawn? && |draws| - |d.left| <= |names| * SearchCost(reserved) && Positive(d.left)
    decreases |names|
  {
    if names != [] {
      assert |names| * SearchCost(reserved) == |names[1..]| * SearchCost(reserved) + SearchCost(reserved);
      SelectionEnds(last, reserved, draws);
      var s := SelectPort(last, reserved, draws);
      DrawingEnds(names[1..], ports[names[0] := s.port], s.port, reserved, s.left);
    }
  }

  ghost predicate DrawnWithin(names: seq<string>, last: nat, reserved: seq<nat>, n: nat) {
    forall draws :: Positive(draws) && |draws| >= n ==> DrawAll(names, map[], last, reserved, draws).Drawn?
  }

  /** Positive draws are sure to provide all the ports exactly when there are none to provide or the
      reserved ports are no wall. */
  lemma DrawingEndsUnlessWalled(names: seq<string>, last: nat, reserved: seq<nat>)
    ensures (exists n: nat :: DrawnWithin(names, last, reserved, n)) <==> names == [] || !Walled(reserved)
  {
    if names == [] {
      assert DrawnWithin(names, last, reserved, 0);
    } else if Walled(reserved) {
      forall n: nat ensures !DrawnWithin(names, last, reserved, n) {
        WalledSelectionGoesOn(last, reserved, n);
      }
    } else {
      forall draws | Positive(draws) && |draws| >= |names| * SearchCost(reserved)
        ensures DrawAll(names, map[], last, reserved, draws).Drawn?
      {
        DrawingEnds(names, map[], last, reserved, draws);
      }
      assert DrawnWithin(names, last, reserved, |names| * SearchCost(reserved));
    }
  }

  /** There are walls: 58 ports, each 999 above the one before. */
  const LADDER := seq(58, (k: nat) => LOW_PORT + 999 * k)

  lemma LadderIsWall()
    ensures Walled(LADDER)
  {
    assert LADDER[0] == LOW_PORT;
    forall x: nat | LOW_PORT <= x <= MAX_PORT + 1 - JUMP ensures Blocked(LADDER, x) {
      var k := (x - LOW_PORT) / 999 + 1;
      assert LADDER[k] in LADDER && x < LADDER[k] < x + JUMP;
    }
  }

  /** Draws of zero never leave a reserved port. */
  lemma {:induction false} ZeroDrawsNeverEnd(p: nat, reserved: seq<nat>, draws: seq<nat>, wrapped: bool)
    requires p in reserved && forall k :: 0 <= k < |draws| ==> draws[k] % JUMP == 0
    ensures SearchFrom(p, reserved, draws, wrapped).Searching?
    decreases |draws|
  {
    if draws != [] {
      ZeroDrawsNeverEnd(p, reserved, draws[1..], wrapped);
    }
  }

  /** The first draw leads to a free port at once. */
  ghost predicate FreeAtOnce(maxPort: nat, reserved: seq<nat>, draw: nat) {
    var p := FirstCandidate(maxPort, draw);
    p !in reserved && (p > MAX_PORT ==> LOW_PORT !in reserved)
  }

  ghost predicate EndsWithinAny(maxPort: nat, reserved: seq<nat>, n: nat) {
    forall draws: seq<nat> :: |draws| >= n ==> SelectPort(maxPort, reserved, draws).Found?
  }

  /** Draws that may be zero are sure to end the search exactly when every first draw leads to a free
      port at once. */
  lemma AnyDrawsEnd(maxPort: nat, reserved: seq<nat>)
    ensures (exists n: nat :: EndsWithinAny(maxPort, reserved, n))
       <==> forall draw :: FreeAtOnce(maxPort, reserved, draw)
  {
    if draw :| !FreeAtOnce(maxPort, reserved, draw) {
      forall n: nat ensures !EndsWithinAny(maxPort, reserved, n) {
        ZerosGoOn(maxPort, reserved, draw, n);
      }
    } else {
      forall draws: seq<nat> | |draws| >= 1 ensures SelectPort(maxPort, reserved, draws).Found? {
        assert FreeAtOnce(maxPort, reserved, draws[0]);
        var rest := draws[1..];
        assert LOW_PORT !in reserved ==> SearchFrom(LOW_PORT, reserved, rest, true).Found?;
        assert SearchFrom(FirstCandidate(maxPort, draws[0]), reserved, rest, false).Found?;
      }
      assert EndsWithinAny(maxPort, reserved, 1);
    }
  }

  lemma ZerosGoOn(maxPort: nat, reserved: seq<nat>, draw: nat, n: nat)
    requires !FreeAtOnce(maxPort, reserved, draw)
    ensures !EndsWithinAny(maxPort, reserved, n)
  {
    var zeros := seq(n, (k: nat) => 0);
    var draws := [draw] + zeros;
    assert draws[1..] == zeros;
    var p := FirstCandidate(maxPort, draw);
    if p in reserved {
      ZeroDrawsNeverEnd(p, reserved, zeros, false);
    } else {
      ZeroDrawsNeverEnd(LOW_PORT, reserved, zeros, true);
    }
    assert SelectPort(maxPort, reserved, draws).Searching?;
  }
}
