/** The host rankings (scheduler/rankers.go). */
module Rankers {
  import opened Api
  import opened Placement

  const MEM_WEIGHT := 8
  const DISK_WEIGHT := 1
  const CPU_WEIGHT := 4
  const PACK_MAX_SCORE := 1000000

  datatype RankedHost = RankedHost(name: string, score: int)

  function Score(v: HostView): int {
    v.cpuUnits * CPU_WEIGHT + v.diskSpace * DISK_WEIGHT + v.memory * MEM_WEIGHT
  }

  /** The first place from `i` on whose two neighbours bracket `score`, or the length if none does. */
  function Slot(rs: seq<RankedHost>, score: int, i: nat): (k: nat)
    requires i <= |rs|
    ensures i <= k <= |rs|
    ensures k < |rs| ==> k + 1 < |rs| && rs[k + 1].score <= score <= rs[k].score
    decreases |rs| - i
  {
    if i + 1 >= |rs| then |rs|
    else if score <= rs[i].score && score >= rs[i + 1].score then i
    else Slot(rs, score, i + 1)
  }

  /** One pass of the loop: in front, at the end, or spliced in before the slot's left neighbour. */
  function Insert(rs: seq<RankedHost>, r: RankedHost): seq<RankedHost> {
    if rs == [] then [r]
    else if r.score >= rs[0].score then [r] + rs
    else if r.score <= rs[|rs| - 1].score then rs + [r]
    else
      var k := Slot(rs, r.score, 0);
      if k < |rs| then rs[..k] + [r] + rs[k..] else rs
  }

  /** The ranking of hosts met in the given order. */
  function Rank(order: seq<RankedHost>): seq<RankedHost> {
    if order == [] then [] else Insert(Rank(order[..|order| - 1]), order[|order| - 1])
  }

  /** A score strictly between the first and the last is bracketed by some adjacent pair, sorted
      list or not, so the splice always happens. */
  lemma {:induction false} SlotExists(rs: seq<RankedHost>, score: int, i: nat)
    requires i < |rs| && rs[i].score >= score > rs[|rs| - 1].score
    ensures Slot(rs, score, i) < |rs|
    decreases |rs| - i
  {
    if !(score <= rs[i].score && score >= rs[i + 1].score) {
      SlotExists(rs, score, i + 1);
    }
  }

  lemma {:induction false} SlotIsFirst(rs: seq<RankedHost>, score: int, i: nat, j: nat)
    requires i <= j && j + 1 < |rs| && j < Slot(rs, score, i)
    ensures !(rs[j + 1].score <= score <= rs[j].score)
    decreases |rs| - i
  {
    if i < j {
      SlotIsFirst(rs, score, i + 1, j);
    }
  }

  function Position(rs: seq<RankedHost>, score: int): (k: nat)
    ensures k <= |rs|
  {
    if rs == [] || score >= rs[0].score then 0
    else if score <= rs[|rs| - 1].score then |rs|
    else Slot(rs, score, 0)
  }

  /** Inserting adds the host once and moves no other host past another. */
  lemma InsertPlaces(rs: seq<RankedHost>, r: RankedHost)
    ensures var k := Position(rs, r.score); Insert(rs, r) == rs[..k] + [r] + rs[k..]
    ensures rs != [] && rs[|rs| - 1].score < r.score < rs[0].score ==>
              var k := Position(rs, r.score); k < |rs| && r.score <= rs[k].score
  {
    if rs != [] && rs[|rs| - 1].score < r.score < rs[0].score {
      SlotExists(rs, r.score, 0);
    }
  }

  /** The ranking loses no host and invents none, in any order. */
  lemma {:induction false} RankPermutes(order: seq<RankedHost>)
    ensures multiset(Rank(order)) == multiset(order)
  {
    if order != [] {
      var rest, r := order[..|order| - 1], order[|order| - 1];
      RankPermutes(rest);
      InsertPlaces(Rank(rest), r);
      SplicePermutes(Rank(rest), Position(Rank(rest), r.score), r);
      LastMultiset(order);
    }
  }

  lemma LastMultiset<T>(s: seq<T>)
    requires s != []
    ensures multiset(s) == multiset(s[..|s| - 1]) + multiset{s[|s| - 1]}
  {
    assert s == s[..|s| - 1] + [s[|s| - 1]];
  }

  lemma SplicePermutes<T>(s: seq<T>, k: nat, x: T)
    requires k <= |s|
    ensures multiset(s[..k] + [x] + s[k..]) == multiset(s) + multiset{x}
  {
    assert s == s[..k] + s[k..];
  }

  function Reversed<T>(s: seq<T>): seq<T> {
    if s == [] then [] else [s[|s| - 1]] + Reversed(s[..|s| - 1])
  }

  /** Hosts of one score are ranked in the reverse of the order they are met. */
  lemma {:induction false} TiesReverse(order: seq<RankedHost>, score: int)
    requires forall k :: 0 <= k < |order| ==> order[k].score == score
    ensures Rank(order) == Reversed(order)
  {
    if order != [] {
      var rest := order[..|order| - 1];
      TiesReverse(rest, score);
      if rest != [] {
        assert Rank(rest)[0] == rest[|rest| - 1];
      }
    }
  }

  ghost predicate LastIsLeast(rs: seq<RankedHost>) {
    forall j :: 0 <= j < |rs| ==> rs[|rs| - 1].score <= rs[j].score
  }

  /** The last host always has the least score. */
  lemma {:induction false} RankLastIsLeast(order: seq<RankedHost>)
    ensures LastIsLeast(Rank(order))
  {
    if order != [] {
      var rest, r := order[..|order| - 1], order[|order| - 1];
      RankLastIsLeast(rest);
      InsertPlaces(Rank(rest), r);
      assert Rank(order) == Insert(Rank(rest), r);
    }
  }

  ghost predicate Descending(rs: seq<RankedHost>) {
    forall i, j :: 0 <= i < j < |rs| ==> rs[i].score >= rs[j].score
  }

  /** A sorted ranking stays sorted exactly when the newcomer does not fall strictly between the
      first and the last: a splice goes in front of the better neighbour. */
  lemma InsertKeepsDescending(rs: seq<RankedHost>, r: RankedHost)
    requires rs != [] && Descending(rs)
    ensures Descending(Insert(rs, r)) <==> r.score >= rs[0].score || r.score <= rs[|rs| - 1].score
  {
    InsertPlaces(rs, r);
    var k, s := Position(rs, r.score), Insert(rs, r);
    if rs[|rs| - 1].score < r.score < rs[0].score {
      if r.score == rs[k].score {
        SlotBefore(rs, r.score, 0);
      }
      assert s[k] == r && s[k + 1] == rs[k];
    }
  }

  /** In a sorted list the slot found below a greater first score lies before every equal score. */
  lemma {:induction false} SlotBefore(rs: seq<RankedHost>, score: int, i: nat)
    requires i < |rs| && Descending(rs) && rs[|rs| - 1].score < score < rs[i].score
    ensures Slot(rs, score, i) < |rs| && rs[Slot(rs, score, i)].score > score
    decreases |rs| - i
  {
    if score < rs[i + 1].score {
      SlotBefore(rs, score, i + 1);
    }
  }

  lemma InsertKeepsInversion(rs: seq<RankedHost>, r: RankedHost)
    requires !Descending(rs)
    ensures !Descending(Insert(rs, r))
  {
    InsertPlaces(rs, r);
    var k, s := Position(rs, r.score), Insert(rs, r);
    var i, j :| 0 <= i < j < |rs| && rs[i].score < rs[j].score;
    var i', j' := if i < k then i else i + 1, if j < k then j else j + 1;
    assert s[i'] == rs[i] && s[j'] == rs[j];
  }

  /** Every host is no worse than all met before it, or no better than all met before it. */
  ghost predicate MeetsExtremesOnly(order: seq<RankedHost>) {
    forall k :: 0 <= k < |order| ==> Extreme(order[..k], order[k].score)
  }

  ghost predicate Extreme(met: seq<RankedHost>, score: int) {
    (forall r :: r in met ==> score >= r.score) || (forall r :: r in met ==> score <= r.score)
  }

  /** The ranking comes out best first exactly when each host met is an extreme of those so far. */
  lemma {:induction false} RankDescending(order: seq<RankedHost>)
    ensures Descending(Rank(order)) <==> MeetsExtremesOnly(order)
  {
    if order != [] {
      var n := |order| - 1;
      var rest, r := order[..n], order[n];
      ExtremesOfLonger(order);
      RankDescending(rest);
      if !Descending(Rank(rest)) {
        InsertKeepsInversion(Rank(rest), r);
      } else if n > 0 {
        SameMembers(rest);
        InsertKeepsDescending(Rank(rest), r);
        ExtremeOfDescending(rest, Rank(rest), r.score);
      } else {
        assert Rank(rest) == [] && Insert(Rank(rest), r) == [r];
      }
    }
  }

  lemma ExtremesOfLonger(order: seq<RankedHost>)
    requires order != []
    ensures
      var n := |order| - 1;
      MeetsExtremesOnly(order) <==> MeetsExtremesOnly(order[..n]) && Extreme(order[..n], order[n].score)
  {
    var n := |order| - 1;
    var rest := order[..n];
    forall k | 0 <= k < n ensures rest[..k] == order[..k] {
    }
    if MeetsExtremesOnly(rest) && Extreme(rest, order[n].score) {
      forall k | 0 <= k < |order| ensures Extreme(order[..k], order[k].score) {
      }
    }
  }

  lemma SameMembers(order: seq<RankedHost>)
    ensures forall r :: r in Rank(order) <==> r in order
    ensures |Rank(order)| == |order|
  {
    RankPermutes(order);
    assert |multiset(Rank(order))| == |multiset(order)|;
    assert forall r :: r in Rank(order) <==> r in multiset(Rank(order));
    assert forall r :: r in order <==> r in multiset(order);
  }

  lemma ExtremeOfDescending(met: seq<RankedHost>, rs: seq<RankedHost>, score: int)
    requires rs != [] && Descending(rs) && forall r :: r in rs <==> r in met
    ensures Extreme(met, score) <==> score >= rs[0].score || score <= rs[|rs| - 1].score
  {
    assert rs[0] in met && rs[|rs| - 1] in met;
    forall r | r in met ensures rs[|rs| - 1].score <= r.score <= rs[0].score {
      var j :| 0 <= j < |rs| && rs[j] == r;
    }
  }

  ghost predicate AtMostTwoScores(hosts: multiset<RankedHost>) {
    forall a, b, c :: a in hosts && b in hosts && c in hosts ==>
      a.score == b.score || a.score == c.score || b.score == c.score
  }

  /** Every iteration order gives a sorted ranking exactly when at most two scores occur. */
  lemma AllOrdersDescending(hosts: multiset<RankedHost>)
    ensures (forall order :: multiset(order) == hosts ==> Descending(Rank(order))) <==> AtMostTwoScores(hosts)
  {
    if AtMostTwoScores(hosts) {
      forall order | multiset(order) == hosts ensures Descending(Rank(order)) {
        TwoScoresAreExtreme(order);
        RankDescending(order);
      }
    } else {
      var high, mid, low := ThreeScores(hosts);
      var order := UnsortedOrder(hosts, high, mid, low);
    }
  }

  lemma ThreeScores(hosts: multiset<RankedHost>) returns (high: RankedHost, mid: RankedHost, low: RankedHost)
    requires !AtMostTwoScores(hosts)
    ensures high in hosts && mid in hosts && low in hosts && high.score > mid.score > low.score
  {
    var a, b, c :| a in hosts && b in hosts && c in hosts
                   && a.score != b.score && a.score != c.score && b.score != c.score;
    high, low, mid := a, b, c;
    if high.score < low.score {
      high, low := low, high;
    }
    if mid.score > high.score {
      high, mid := mid, high;
    }
    if mid.score < low.score {
      low, mid := mid, low;
    }
  }

  lemma TwoScoresAreExtreme(order: seq<RankedHost>)
    requires AtMostTwoScores(multiset(order))
    ensures MeetsExtremesOnly(order)
  {
    forall k | 0 <= k < |order| ensures Extreme(order[..k], order[k].score) {
      assert order[k] in multiset(order);
      assert forall r :: r in order[..k] ==> r in multiset(order);
    }
  }

  lemma UnsortedOrder(hosts: multiset<RankedHost>, high: RankedHost, mid: RankedHost, low: RankedHost)
    returns (order: seq<RankedHost>)
    requires high in hosts && mid in hosts && low in hosts && high.score > mid.score > low.score
    ensures multiset(order) == hosts && !Descending(Rank(order))
  {
    var rest := Listing(hosts - multiset{high, low, mid});
    order := [high, low, mid] + rest;
    assert multiset([high, low, mid]) + multiset(rest) == hosts;
    MiddleIsNoExtreme(high, mid, low, rest);
    RankDescending(order);
  }

  lemma MiddleIsNoExtreme(high: RankedHost, mid: RankedHost, low: RankedHost, rest: seq<RankedHost>)
    requires high.score > mid.score > low.score
    ensures !MeetsExtremesOnly([high, low, mid] + rest)
  {
    var order := [high, low, mid] + rest;
    assert order[..2] == [high, low] && order[2] == mid;
    assert high in order[..2] && low in order[..2];
    assert !Extreme(order[..2], order[2].score);
  }

  lemma Listing<T>(m: multiset<T>) returns (s: seq<T>)
    ensures multiset(s) == m
    decreases |m|
  {
    if m == multiset{} {
      s := [];
    } else {
      var x :| x in m;
      s := Listing(m - multiset{x});
      s := [x] + s;
    }
  }

  /** The intended order fails already for scores 10, 5 and then 7. */
  lemma SpliceBreaksOrder(a: string, b: string, c: string)
    ensures Rank([RankedHost(a, 10), RankedHost(b, 5), RankedHost(c, 7)])
         == [RankedHost(c, 7), RankedHost(a, 10), RankedHost(b, 5)]
  {
    var x, y, z := RankedHost(a, 10), RankedHost(b, 5), RankedHost(c, 7);
    assert [x][..0] == [] && [x, y][..1] == [x] && [x, y, z][..2] == [x, y];
    assert Rank([]) == [];
    assert Rank([x]) == [x];
    assert Rank([x, y]) == [x, y];
    assert Slot([x, y], 7, 0) == 0;
  }

  function SpreadScore(v: HostView): int {
    Score(v)
  }

  function PackScore(v: HostView): int {
    PACK_MAX_SCORE - Score(v)
  }

  /** The ranker registered under the deployment's scheduler name; other names mean spread. */
  function RankerOf(scheduler: string): HostView -> int {
    if scheduler == "binpack" then PackScore else SpreadScore
  }

  /** The hosts in the order the map is iterated, with their scores. */
  function Scored(score: HostView -> int, order: seq<string>, views: map<string, HostView>): seq<RankedHost>
    requires forall h :: h in order ==> h in views
  {
    seq(|order|, k requires 0 <= k < |order| => RankedHost(order[k], score(views[order[k]])))
  }

  ghost predicate Enumerates(order: seq<string>, keys: set<string>) {
    multiset(order) == multiset(keys)
  }

  lemma EnumerateOneMore(order: seq<string>, keys: set<string>, todo: set<string>, n: string)
    requires n in todo && todo <= keys && Enumerates(order, keys - todo)
    ensures Enumerates(order + [n], keys - (todo - {n}))
  {
    assert keys - (todo - {n}) == (keys - todo) + {n};
  }

  /** The first host of the ranking that matches, or the empty name. */
  ghost function FirstMatch(ranking: seq<RankedHost>, views: map<string, HostView>, def: TaskDefinition): string {
    if ranking == [] then ""
    else if ranking[0].name in views && Matches(views[ranking[0].name], def) then ranking[0].name
    else FirstMatch(ranking[1..], views, def)
  }

  /** What `selectHost` returns when the map is iterated in the given order. */
  ghost function Selected(scheduler: string, order: seq<string>, views: map<string, HostView>,
                          def: TaskDefinition): string
    requires forall h :: h in order ==> h in views
  {
    FirstMatch(Rank(Scored(RankerOf(scheduler), order, views)), views, def)
  }

  lemma {:induction false} FirstMatchSound(ranking: seq<RankedHost>, views: map<string, HostView>, def: TaskDefinition)
    ensures
      var h := FirstMatch(ranking, views, def);
      && (h != "" ==> h in views && Matches(views[h], def))
      && (h == "" ==> forall r :: r in ranking && r.name != "" && r.name in views ==>
                        "" in views || !Matches(views[r.name], def))
  {
    if ranking != [] {
      FirstMatchSound(ranking[1..], views, def);
    }
  }

  lemma EnumeratesMembers(order: seq<string>, keys: set<string>)
    requires Enumerates(order, keys)
    ensures forall h :: h in order <==> h in keys
  {
    assert forall h :: h in order <==> h in multiset(order);
  }

  /** Host selection is sound and complete under every ranker and every iteration order: it returns
      a host that matches, and the empty name exactly when no host matches. */
  lemma SelectionSoundAndComplete(scheduler: string, order: seq<string>, views: map<string, HostView>,
                                  def: TaskDefinition)
    requires Enumerates(order, views.Keys) && "" !in views
    ensures forall h :: h in order ==> h in views
    ensures
      var h := Selected(scheduler, order, views, def);
      && (h != "" ==> h in views && Matches(views[h], def))
      && (h == "" <==> forall n :: n in views ==> !Matches(views[n], def))
  {
    EnumeratesMembers(order, views.Keys);
    var scored := Scored(RankerOf(scheduler), order, views);
    SameMembers(scored);
    FirstMatchSound(Rank(scored), views, def);
    forall n | n in views ensures exists r :: r in Rank(scored) && r.name == n {
      var k :| 0 <= k < |order| && order[k] == n;
      assert scored[k] in scored;
    }
  }
}
