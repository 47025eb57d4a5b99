/** Which of the matching hosts a ranker prefers, and when the one selected is sure to be a best one
    (scheduler/rankers.go, scheduler/scheduler.go `selectHost`). */
module Preference {
  import opened Api
  import opened Collections
  import opened Placement
  import opened Rankers

  // ----- Ranked hosts -----

  /** The best of those that fit. */
  ghost function Best(fits: set<RankedHost>): set<RankedHost> {
    set r | r in fits && forall q :: q in fits ==> q.score <= r.score
  }

  ghost predicate HasLower(hosts: set<RankedHost>, r: RankedHost) {
    exists l :: l in hosts && l.score < r.score
  }

  ghost predicate NoBetterThanSecond(fits: set<RankedHost>, r: RankedHost) {
    exists m :: m in fits - Best(fits) && r.score <= m.score
  }

  /** The hosts above the lowest score that are no better than some host that fits but is not a best one. */
  ghost function InTheWay(hosts: set<RankedHost>, fits: set<RankedHost>): set<RankedHost> {
    set r | r in hosts && HasLower(hosts, r) && NoBetterThanSecond(fits, r)
  }

  ghost function FirstIn(rs: seq<RankedHost>, fits: set<RankedHost>): Option<RankedHost> {
    if rs == [] then None else if rs[0] in fits then Some(rs[0]) else FirstIn(rs[1..], fits)
  }

  lemma {:induction false} FirstInAt(rs: seq<RankedHost>, fits: set<RankedHost>) returns (i: nat)
    ensures FirstIn(rs, fits) == None ==> forall j :: 0 <= j < |rs| ==> rs[j] !in fits
    ensures FirstIn(rs, fits).Some? ==>
              i < |rs| && FirstIn(rs, fits) == Some(rs[i]) && rs[i] in fits && forall j :: 0 <= j < i ==> rs[j] !in fits
  {
    i := 0;
    if rs != [] && rs[0] !in fits {
      i := FirstInAt(rs[1..], fits);
      i := i + 1;
    }
  }

  // ----- Few hosts in the way leave a best one in front -----

  /** Some host no better than `cut` is ranked before `b`. */
  ghost predicate Behind(rs: seq<RankedHost>, cut: int, b: RankedHost) {
    exists i, j :: 0 <= j < i < |rs| && rs[i] == b && rs[j].score <= cut
  }

  ghost function BehindSet(rs: seq<RankedHost>, best: set<RankedHost>, cut: int): set<RankedHost> {
    set b | b in best && Behind(rs, cut, b)
  }

  ghost predicate AllScore(best: set<RankedHost>, top: int) {
    forall b :: b in best ==> b.score == top
  }

  /** All before the slot, and its left neighbour, are better than the newcomer. */
  lemma {:induction false} AboveSlot(rs: seq<RankedHost>, score: int, i: nat, j: nat)
    requires i <= j < |rs| && j <= Slot(rs, score, i) && rs[i].score > score
    ensures rs[j].score > score
    decreases j
  {
    if i < j {
      AboveSlot(rs, score, i, j - 1);
      SlotIsFirst(rs, score, i, j - 1);
    }
  }

  /** An inserted host stands at its position and the others where they stood before it or one further. */
  lemma InsertAt(rs: seq<RankedHost>, r: RankedHost, i: nat)
    requires i < |rs| + 1
    ensures
      var p, s := Position(rs, r.score), Insert(rs, r);
      && |s| == |rs| + 1 && p <= |rs| && s[p] == r
      && s[i] == if i < p then rs[i] else if i == p then r else rs[i - 1]
  {
    InsertPlaces(rs, r);
  }

  /** Where the newcomer goes: in front of all, behind all, or between a better host and one no better,
      with only better ones before. */
  lemma PositionCases(rs: seq<RankedHost>, score: int)
    requires LastIsLeast(rs)
    ensures
      var p := Position(rs, score);
      || (p == 0 && (rs == [] || score >= rs[0].score))
      || (p == |rs| && forall j :: 0 <= j < |rs| ==> rs[j].score >= score)
      || (p + 1 < |rs| && rs[p + 1].score <= score && forall j :: 0 <= j <= p ==> rs[j].score > score)
  {
    if rs != [] && rs[|rs| - 1].score < score < rs[0].score {
      SlotExists(rs, score, 0);
      var p := Slot(rs, score, 0);
      forall j | 0 <= j <= p ensures rs[j].score > score {
        AboveSlot(rs, score, 0, j);
      }
    }
  }

  /** A newcomer above the cut puts no best host behind, and a best one does not end up behind. */
  lemma HighInsert(rs: seq<RankedHost>, r: RankedHost, best: set<RankedHost>, cut: int, top: int)
    requires LastIsLeast(rs) && AllScore(best, top) && cut < top && cut < r.score
    ensures BehindSet(Insert(rs, r), best, cut) <= BehindSet(rs, best, cut)
  {
    var s, p := Insert(rs, r), Position(rs, r.score);
    forall b | b in best && Behind(s, cut, b) ensures Behind(rs, cut, b) {
      var i, j :| 0 <= j < i < |s| && s[i] == b && s[j].score <= cut;
      InsertAt(rs, r, i);
      InsertAt(rs, r, j);
      if i == p {
        PositionCases(rs, r.score);
        assert false;
      }
      var i', j' := if i < p then i else i - 1, if j < p then j else j - 1;
      assert rs[i'] == b && rs[j'].score <= cut;
    }
  }

  /** A newcomer below the cut puts at most one more best host behind. */
  lemma LowInsert(rs: seq<RankedHost>, r: RankedHost, best: set<RankedHost>, cut: int, top: int)
    requires LastIsLeast(rs) && AllScore(best, top) && cut < top && r.score <= cut
    ensures |BehindSet(Insert(rs, r), best, cut)| <= |BehindSet(rs, best, cut)| + 1
  {
    var s, p := Insert(rs, r), Position(rs, r.score);
    var was, now := BehindSet(rs, best, cut), BehindSet(s, best, cut);
    forall b | b in now ensures b in was || (p < |rs| && b == rs[p]) {
      var i, j :| 0 <= j < i < |s| && s[i] == b && s[j].score <= cut;
      InsertAt(rs, r, i);
      InsertAt(rs, r, j);
      if i != p + 1 {
        StillBehind(rs, r, cut, b, i, j);
      }
    }
    if p < |rs| {
      SubsetSize(now, was + {rs[p]});
    } else {
      SubsetSize(now, was);
    }
  }

  /** Of the best hosts behind only the one right after the newcomer can be new there. */
  lemma StillBehind(rs: seq<RankedHost>, r: RankedHost, cut: int, b: RankedHost, i: nat, j: nat)
    requires LastIsLeast(rs) && r.score <= cut < b.score
    requires j < i < |Insert(rs, r)| && Insert(rs, r)[i] == b && Insert(rs, r)[j].score <= cut
    requires i != Position(rs, r.score) + 1
    ensures Behind(rs, cut, b)
  {
    var p := Position(rs, r.score);
    InsertPlaces(rs, r);
    InsertAt(rs, r, i);
    InsertAt(rs, r, j);
    PositionCases(rs, r.score);
    if i < p {
      assert rs[i] == b && rs[j].score <= cut;
    } else {
      var q := if p == 0 && rs[0].score <= cut then 0 else p + 1;
      assert rs[i - 1] == b && rs[q].score <= cut;
    }
  }

  /** The hosts of the least score stand at the end. */
  ghost predicate LeastAtEnd(rs: seq<RankedHost>, least: int) {
    forall i, j :: 0 <= i < j < |rs| && rs[i].score <= least ==> rs[j].score <= least
  }

  ghost predicate AtLeast(rs: seq<RankedHost>, least: int) {
    forall i :: 0 <= i < |rs| ==> rs[i].score >= least
  }

  lemma InsertLeastAtEnd(rs: seq<RankedHost>, r: RankedHost, least: int)
    requires LastIsLeast(rs) && LeastAtEnd(rs, least) && AtLeast(rs, least) && r.score >= least
    ensures LeastAtEnd(Insert(rs, r), least)
  {
    var s, p := Insert(rs, r), Position(rs, r.score);
    PositionCases(rs, r.score);
    forall i, j | 0 <= i < j < |s| && s[i].score <= least ensures s[j].score <= least {
      InsertAt(rs, r, i);
      InsertAt(rs, r, j);
    }
  }

  /** A newcomer of the least score puts no best host behind. */
  lemma LeastInsert(rs: seq<RankedHost>, r: RankedHost, best: set<RankedHost>, cut: int, top: int)
    requires LastIsLeast(rs) && LeastAtEnd(rs, r.score) && AtLeast(rs, r.score)
    requires AllScore(best, top) && r.score <= cut < top
    ensures BehindSet(Insert(rs, r), best, cut) <= BehindSet(rs, best, cut)
  {
    var s, p := Insert(rs, r), Position(rs, r.score);
    PositionCases(rs, r.score);
    forall b | b in best && Behind(s, cut, b) ensures Behind(rs, cut, b) {
      var i, j :| 0 <= j < i < |s| && s[i] == b && s[j].score <= cut;
      InsertAt(rs, r, i);
      InsertAt(rs, r, j);
      assert p != 0;
      assert rs[i] == b && rs[j].score <= cut;
    }
  }

  ghost function Lows(order: seq<RankedHost>, least: int, cut: int): set<RankedHost> {
    set r | r in order && least < r.score <= cut
  }

  ghost predicate Distinct(order: seq<RankedHost>) {
    forall i, j :: 0 <= i < j < |order| ==> order[i] != order[j]
  }

  lemma {:induction false} RankKeepsLeast(order: seq<RankedHost>, least: int)
    requires AtLeast(order, least)
    ensures AtLeast(Rank(order), least) && LeastAtEnd(Rank(order), least)
  {
    if order != [] {
      var n := |order| - 1;
      RankKeepsLeast(order[..n], least);
      RankLastIsLeast(order[..n]);
      InsertLeastAtEnd(Rank(order[..n]), order[n], least);
      InsertAtLeast(Rank(order[..n]), order[n], least);
    }
  }

  lemma InsertAtLeast(rs: seq<RankedHost>, r: RankedHost, least: int)
    requires AtLeast(rs, least) && r.score >= least
    ensures AtLeast(Insert(rs, r), least)
  {
    InsertPlaces(rs, r);
  }

  /** No more best hosts are behind than there are hosts in the way. */
  lemma {:induction false} FewBehind(order: seq<RankedHost>, best: set<RankedHost>, least: int, cut: int, top: int)
    requires Distinct(order) && AtLeast(order, least) && AllScore(best, top) && cut < top
    ensures |BehindSet(Rank(order), best, cut)| <= |Lows(order, least, cut)|
  {
    if order == [] {
      assert BehindSet(Rank(order), best, cut) == {};
    } else {
      var n := |order| - 1;
      FewBehind(order[..n], best, least, cut, top);
      RankLastIsLeast(order[..n]);
      RankKeepsLeast(order[..n], least);
      OneMoreBehind(order[..n], order[n], best, least, cut, top);
      assert order[..n] + [order[n]] == order;
    }
  }

  lemma OneMoreLow(rest: seq<RankedHost>, r: RankedHost, least: int, cut: int)
    requires r !in rest
    ensures
      var lows := Lows(rest, least, cut);
      Lows(rest + [r], least, cut) == if least < r.score <= cut then lows + {r} else lows
    ensures r !in Lows(rest, least, cut)
  {
  }

  lemma OneMoreBehind(rest: seq<RankedHost>, r: RankedHost, best: set<RankedHost>, least: int, cut: int, top: int)
    requires r !in rest && r.score >= least && AllScore(best, top) && cut < top
    requires |BehindSet(Rank(rest), best, cut)| <= |Lows(rest, least, cut)|
    requires LastIsLeast(Rank(rest)) && LeastAtEnd(Rank(rest), least) && AtLeast(Rank(rest), least)
    ensures |BehindSet(Insert(Rank(rest), r), best, cut)| <= |Lows(rest + [r], least, cut)|
  {
    OneMoreLow(rest, r, least, cut);
    BehindAfterInsert(Rank(rest), r, best, least, cut, top);
  }

  lemma BehindAfterInsert(rs: seq<RankedHost>, r: RankedHost, best: set<RankedHost>, least: int, cut: int, top: int)
    requires LastIsLeast(rs) && LeastAtEnd(rs, least) && AtLeast(rs, least)
    requires r.score >= least && AllScore(best, top) && cut < top
    ensures |BehindSet(Insert(rs, r), best, cut)|
         <= |BehindSet(rs, best, cut)| + if least < r.score <= cut then 1 else 0
  {
    if least < r.score <= cut {
      LowInsert(rs, r, best, cut, top);
    } else {
      if r.score > cut {
        HighInsert(rs, r, best, cut, top);
      } else {
        LeastInsert(rs, r, best, cut, top);
      }
      SubsetSize(BehindSet(Insert(rs, r), best, cut), BehindSet(rs, best, cut));
    }
  }

  lemma {:induction false} MaxOf(s: set<RankedHost>) returns (m: RankedHost)
    requires s != {}
    ensures m in s && forall r :: r in s ==> r.score <= m.score
  {
    m :| m in s;
    if s != {m} {
      var rest := s - {m};
      var m' := MaxOf(rest);
      assert forall r :: r in s ==> r == m || r in rest;
      m := if m'.score > m.score then m' else m;
    }
  }

  lemma {:induction false} MinOf(s: set<RankedHost>) returns (m: RankedHost)
    requires s != {}
    ensures m in s && forall r :: r in s ==> r.score >= m.score
  {
    m :| m in s;
    if s != {m} {
      var rest := s - {m};
      var m' := MinOf(rest);
      assert forall r :: r in s ==> r == m || r in rest;
      m := if m'.score < m.score then m' else m;
    }
  }

  /** Fewer hosts in the way than best ones leave a best one ahead of all that is not above `cut`. */
  lemma SomeBestAhead(order: seq<RankedHost>, best: set<RankedHost>, least: int, cut: int, top: int)
    returns (b: RankedHost)
    requires Distinct(order) && AtLeast(order, least) && AllScore(best, top) && cut < top
    requires |Lows(order, least, cut)| < |best|
    ensures b in best && !Behind(Rank(order), cut, b)
  {
    FewBehind(order, best, least, cut, top);
    var behind := BehindSet(Rank(order), best, cut);
    if best <= behind {
      SubsetSize(best, behind);
      assert false;
    }
    b :| b in best && b !in behind;
  }

  lemma FirstIsBest(rs: seq<RankedHost>, fits: set<RankedHost>, cut: int, b: RankedHost)
    requires b in rs && b in Best(fits) && !Behind(rs, cut, b)
    requires forall r :: r in fits - Best(fits) ==> r.score <= cut
    ensures FirstIn(rs, fits).Some? && FirstIn(rs, fits).value in Best(fits)
  {
    var i := FirstInAt(rs, fits);
    var k :| 0 <= k < |rs| && rs[k] == b;
    if i < k {
      assert rs[i].score > cut by {
        assert rs[k] == b;
      }
    }
  }

  /** With fewer hosts in the way than best ones, a best one is selected in every order. */
  lemma FewInTheWay(hosts: set<RankedHost>, fits: set<RankedHost>, order: seq<RankedHost>)
    requires fits != {} && fits <= hosts && Distinct(order) && forall r :: r in order <==> r in hosts
    requires |InTheWay(hosts, fits)| < |Best(fits)|
    ensures FirstIn(Rank(order), fits).Some? && FirstIn(Rank(order), fits).value in Best(fits)
  {
    var best := Best(fits);
    var top := MaxOf(fits);
    var low := MinOf(hosts);
    SameMembers(order);
    if fits == best {
      var i := FirstInAt(Rank(order), fits);
      assert top in Rank(order);
    } else {
      var m := MaxOf(fits - best);
      assert m.score < top.score by {
        assert exists q :: q in fits && q.score > m.score;
      }
      assert AllScore(best, top.score);
      assert Lows(order, low.score, m.score) == InTheWay(hosts, fits) by {
        LowsAreInTheWay(hosts, fits, order, low, m);
      }
      var b := SomeBestAhead(order, best, low.score, m.score, top.score);
      FirstIsBest(Rank(order), fits, m.score, b);
    }
  }

  lemma LowsAreInTheWay(hosts: set<RankedHost>, fits: set<RankedHost>, order: seq<RankedHost>, low: RankedHost,
                        m: RankedHost)
    requires forall r :: r in order <==> r in hosts
    requires low in hosts && forall r :: r in hosts ==> r.score >= low.score
    requires m in fits - Best(fits) && forall r :: r in fits - Best(fits) ==> r.score <= m.score
    ensures Lows(order, low.score, m.score) == InTheWay(hosts, fits)
  {
    forall r ensures r in Lows(order, low.score, m.score) <==> r in InTheWay(hosts, fits) {
      if r in Lows(order, low.score, m.score) {
        assert HasLower(hosts, r) && NoBetterThanSecond(fits, r);
      }
    }
  }

  // ----- Enough of them can put another one in front -----

  /** `n` of the hosts, in ascending order. */
  lemma {:induction false} PickAscending(s: set<RankedHost>, n: nat)
    returns (ys: seq<RankedHost>, picked: set<RankedHost>)
    requires n <= |s|
    ensures |ys| == n && picked <= s && multiset(ys) == multiset(picked)
    ensures forall i, j :: 0 <= i < j < n ==> ys[i].score <= ys[j].score
    decreases n
  {
    if n == 0 {
      ys, picked := [], {};
    } else {
      var x := MaxOf(s);
      ys, picked := PickAscending(s - {x}, n - 1);
      MembersOf(ys, picked);
      ys, picked := ys + [x], picked + {x};
    }
  }

  lemma MembersOf(ys: seq<RankedHost>, s: set<RankedHost>)
    requires multiset(ys) == multiset(s)
    ensures forall r :: r in ys <==> r in s
  {
    assert forall r :: r in ys <==> r in multiset(ys);
  }

  /** A best host, the lowest host, and then by turns one in the way and one more best host. */
  function Alternate(bs: seq<RankedHost>, ys: seq<RankedHost>, l: RankedHost): seq<RankedHost>
    requires |bs| == |ys| > 0
  {
    var n := |bs| - 1;
    if n == 0 then [bs[0], l, ys[0]] else Alternate(bs[..n], ys[..n], l) + [bs[n], ys[n]]
  }

  lemma InFront(rs: seq<RankedHost>, b: RankedHost, y: RankedHost)
    requires |rs| > 1 && rs[|rs| - 1].score < y.score < b.score && rs[0].score <= y.score
    ensures Insert(Insert(rs, b), y) == [y, b] + rs
  {
    assert Insert(rs, b) == [b] + rs;
    assert ([b] + rs)[1] == rs[0] && ([b] + rs)[|rs|] == rs[|rs| - 1];
    assert Slot([b] + rs, y.score, 0) == 0;
  }

  lemma RankTwoMore(order: seq<RankedHost>, b: RankedHost, y: RankedHost)
    ensures Rank(order + [b, y]) == Insert(Insert(Rank(order), b), y)
  {
    assert (order + [b, y])[..|order| + 1] == order + [b];
    assert (order + [b])[..|order|] == order;
  }

  lemma RankThree(b: RankedHost, l: RankedHost, y: RankedHost)
    requires l.score < y.score < b.score
    ensures Rank([b, l, y]) == [y, b, l]
  {
    assert [b][..0] == [] && [b, l][..1] == [b] && [b, l, y][..2] == [b, l];
    assert Rank([]) == [];
    assert Rank([b]) == [b];
    assert Rank([b, l]) == [b, l];
    assert Slot([b, l], y.score, 0) == 0;
  }

  /** Every host in the way goes in front of all, the last one last. */
  lemma {:induction false} AlternateRanks(bs: seq<RankedHost>, ys: seq<RankedHost>, l: RankedHost)
    requires |bs| == |ys| > 0
    requires forall j :: 0 <= j < |ys| ==> l.score < ys[j].score
    requires forall i, j :: 0 <= i < |bs| && 0 <= j < |ys| ==> ys[j].score < bs[i].score
    requires forall i, j :: 0 <= i < j < |ys| ==> ys[i].score <= ys[j].score
    ensures
      var rs := Rank(Alternate(bs, ys, l));
      |rs| > 1 && rs[0] == ys[|ys| - 1] && rs[|rs| - 1] == l
    decreases |bs|
  {
    var n := |bs| - 1;
    if n == 0 {
      RankThree(bs[0], l, ys[0]);
    } else {
      AlternateRanks(bs[..n], ys[..n], l);
      var front := Alternate(bs[..n], ys[..n], l);
      RankTwoMore(front, bs[n], ys[n]);
      InFront(Rank(front), bs[n], ys[n]);
    }
  }

  lemma {:induction false} AlternateBag(bs: seq<RankedHost>, ys: seq<RankedHost>, l: RankedHost)
    requires |bs| == |ys| > 0
    ensures multiset(Alternate(bs, ys, l)) == multiset(bs) + multiset(ys) + multiset{l}
    decreases |bs|
  {
    var n := |bs| - 1;
    if n > 0 {
      AlternateBag(bs[..n], ys[..n], l);
      LastMultiset(bs);
      LastMultiset(ys);
      TwoMoreInBag(Alternate(bs[..n], ys[..n], l), bs[n], ys[n]);
      Regroup(multiset(bs[..n]), multiset(ys[..n]), multiset{l}, multiset{bs[n]}, multiset{ys[n]});
    }
  }

  lemma TwoMoreInBag<T>(s: seq<T>, x: T, y: T)
    ensures multiset(s + [x, y]) == multiset(s) + (multiset{x} + multiset{y})
  {
    assert s + [x, y] == (s + [x]) + [y];
  }

  lemma Regroup<T>(a: multiset<T>, b: multiset<T>, c: multiset<T>, x: multiset<T>, y: multiset<T>)
    ensures (a + b + c) + (x + y) == (a + x) + (b + y) + c
  {
  }

  /** `m` is ahead of all best hosts. */
  ghost predicate Ahead(rs: seq<RankedHost>, m: RankedHost, best: set<RankedHost>) {
    exists i :: 0 <= i < |rs| && rs[i] == m && forall j :: 0 <= j <= i ==> rs[j] !in best
  }

  lemma InsertKeepsAhead(rs: seq<RankedHost>, r: RankedHost, m: RankedHost, best: set<RankedHost>)
    requires Ahead(rs, m, best) && r !in best
    ensures Ahead(Insert(rs, r), m, best)
  {
    var i :| 0 <= i < |rs| && rs[i] == m && forall j :: 0 <= j <= i ==> rs[j] !in best;
    var s, p := Insert(rs, r), Position(rs, r.score);
    var i' := if i < p then i else i + 1;
    InsertAt(rs, r, i');
    forall j | 0 <= j <= i' ensures s[j] !in best {
      InsertAt(rs, r, j);
    }
  }

  lemma {:induction false} RestKeepsAhead(order: seq<RankedHost>, rest: seq<RankedHost>, m: RankedHost,
                                          best: set<RankedHost>)
    requires Ahead(Rank(order), m, best) && forall r :: r in rest ==> r !in best
    ensures Ahead(Rank(order + rest), m, best)
    decreases |rest|
  {
    if rest == [] {
      assert order + rest == order;
    } else {
      var n := |rest| - 1;
      RestKeepsAhead(order, rest[..n], m, best);
      assert (order + rest)[..|order| + n] == order + rest[..n];
      InsertKeepsAhead(Rank(order + rest[..n]), rest[n], m, best);
    }
  }

  lemma AheadIsFirst(rs: seq<RankedHost>, fits: set<RankedHost>, m: RankedHost)
    requires Ahead(rs, m, Best(fits)) && m in fits
    ensures FirstIn(rs, fits).Some? && FirstIn(rs, fits).value !in Best(fits)
  {
    var i := FirstInAt(rs, fits);
    var k :| 0 <= k < |rs| && rs[k] == m && forall j :: 0 <= j <= k ==> rs[j] !in Best(fits);
  }

  /** With as many hosts in the way as best ones, some order selects another. */
  lemma EnoughInTheWay(hosts: set<RankedHost>, fits: set<RankedHost>) returns (order: seq<RankedHost>)
    requires fits != {} && fits <= hosts && |InTheWay(hosts, fits)| >= |Best(fits)|
    ensures multiset(order) == multiset(hosts)
    ensures FirstIn(Rank(order), fits).Some? && FirstIn(Rank(order), fits).value !in Best(fits)
  {
    var best, way := Best(fits), InTheWay(hosts, fits);
    SomeBest(fits);
    var l, m := LowestAndSecond(hosts, fits);
    AllAreHosts(hosts, fits, l);
    var bs := Listing(multiset(best));
    assert |multiset(bs)| == |bs| && |multiset(best)| == |best|;
    order := SecondInFront(hosts, best, bs, way, l, m);
    AheadIsFirst(Rank(order), fits, m);
  }

  lemma SomeBest(fits: set<RankedHost>)
    requires fits != {}
    ensures Best(fits) != {} && |Best(fits)| > 0
  {
    var top := MaxOf(fits);
    assert top in Best(fits);
  }

  lemma AllAreHosts(hosts: set<RankedHost>, fits: set<RankedHost>, l: RankedHost)
    requires fits <= hosts && l in hosts
    ensures Best(fits) + InTheWay(hosts, fits) + {l} <= hosts
  {
  }

  lemma NotAllBest(fits: set<RankedHost>, w: RankedHost)
    requires NoBetterThanSecond(fits, w)
    ensures fits - Best(fits) != {}
  {
    var m :| m in fits - Best(fits) && w.score <= m.score;
  }

  /** The lowest host, and the best of those that fit but are not best ones. */
  lemma LowestAndSecond(hosts: set<RankedHost>, fits: set<RankedHost>) returns (l: RankedHost, m: RankedHost)
    requires fits <= hosts && InTheWay(hosts, fits) != {}
    ensures m in fits && m in InTheWay(hosts, fits) && l in hosts
    ensures Apart(Best(fits), InTheWay(hosts, fits), l, m)
  {
    var w :| w in InTheWay(hosts, fits);
    NotAllBest(fits, w);
    l := MinOf(hosts);
    m := MaxOf(fits - Best(fits));
    SecondIsInTheWay(hosts, fits, w, m);
    WayIsApart(hosts, fits, l, m);
  }

  lemma SecondInFront(hosts: set<RankedHost>, best: set<RankedHost>, bs: seq<RankedHost>, way: set<RankedHost>,
                      l: RankedHost, m: RankedHost) returns (order: seq<RankedHost>)
    requires best + way + {l} <= hosts && best != {} && Apart(best, way, l, m) && m in way
    requires |bs| == |best| <= |way| && multiset(bs) == multiset(best)
    ensures multiset(order) == multiset(hosts) && Ahead(Rank(order), m, best)
  {
    var ys, picked := PickAscending(way - {m}, |best| - 1);
    MembersOf(ys, picked);
    assert multiset(ys + [m]) == multiset(picked + {m});
    order := PutInFront(hosts, best, bs, picked + {m}, ys + [m], l, m);
  }

  lemma SecondIsInTheWay(hosts: set<RankedHost>, fits: set<RankedHost>, w: RankedHost, m: RankedHost)
    requires w in InTheWay(hosts, fits) && fits <= hosts
    requires m in fits - Best(fits) && forall r :: r in fits - Best(fits) ==> r.score <= m.score
    ensures m in InTheWay(hosts, fits)
  {
    var l :| l in hosts && l.score < w.score;
    assert HasLower(hosts, m);
  }

  ghost predicate Apart(best: set<RankedHost>, lows: set<RankedHost>, l: RankedHost, m: RankedHost) {
    (forall y :: y in lows ==> l.score < y.score <= m.score) && forall b :: b in best ==> m.score < b.score
  }

  lemma WayIsApart(hosts: set<RankedHost>, fits: set<RankedHost>, l: RankedHost, m: RankedHost)
    requires forall r :: r in hosts ==> r.score >= l.score
    requires m in fits - Best(fits) && forall r :: r in fits - Best(fits) ==> r.score <= m.score
    ensures Apart(Best(fits), InTheWay(hosts, fits), l, m)
  {
  }

  /** One host in the way, ranked before all best hosts, stays there whoever is met after. */
  lemma PutInFront(hosts: set<RankedHost>, best: set<RankedHost>, bs: seq<RankedHost>, lows: set<RankedHost>,
                   ys: seq<RankedHost>, l: RankedHost, m: RankedHost) returns (order: seq<RankedHost>)
    requires best + lows + {l} <= hosts && best != {} && Apart(best, lows, l, m)
    requires |bs| == |ys| > 0 && multiset(bs) == multiset(best) && multiset(ys) == multiset(lows)
    requires ys[|ys| - 1] == m && forall i, j :: 0 <= i < j < |ys| ==> ys[i].score <= ys[j].score
    ensures multiset(order) == multiset(hosts) && Ahead(Rank(order), m, best)
  {
    MembersOf(bs, best);
    MembersOf(ys, lows);
    var front := Alternate(bs, ys, l);
    AlternateBag(bs, ys, l);
    AlternateAhead(bs, ys, l, best);
    var rest;
    order, rest := Complete(hosts, best, lows, l, front);
    RestKeepsAhead(front, rest, m, best);
  }

  lemma AlternateAhead(bs: seq<RankedHost>, ys: seq<RankedHost>, l: RankedHost, best: set<RankedHost>)
    requires |bs| == |ys| > 0
    requires forall r :: r in bs <==> r in best
    requires forall y :: y in ys ==> l.score < y.score && y !in best
    requires forall b, y :: b in bs && y in ys ==> y.score < b.score
    requires forall i, j :: 0 <= i < j < |ys| ==> ys[i].score <= ys[j].score
    ensures Ahead(Rank(Alternate(bs, ys, l)), ys[|ys| - 1], best)
  {
    AlternateRanks(bs, ys, l);
    var rs := Rank(Alternate(bs, ys, l));
    assert rs[0] == ys[|ys| - 1] && rs[0] !in best;
  }

  lemma Complete(hosts: set<RankedHost>, best: set<RankedHost>, lows: set<RankedHost>, l: RankedHost,
                 front: seq<RankedHost>) returns (order: seq<RankedHost>, rest: seq<RankedHost>)
    requires best !! lows && l !in best && l !in lows && best + lows + {l} <= hosts
    requires multiset(front) == multiset(best) + multiset(lows) + multiset{l}
    ensures order == front + rest && multiset(order) == multiset(hosts)
    ensures forall r :: r in rest ==> r !in best
  {
    var used := best + lows + {l};
    assert multiset(front) == multiset(used);
    rest := Listing(multiset(hosts - used));
    MembersOf(rest, hosts - used);
    order := front + rest;
    assert hosts == used + (hosts - used);
    assert multiset(hosts) == multiset(used) + multiset(hosts - used);
  }

  // ----- Hosts by name -----

  /** What a host still has, weighed: memory eightfold, processor units fourfold, disk once. */
  function Weight(v: HostView): int {
    8 * v.memory + 4 * v.cpuUnits + v.diskSpace
  }

  /** Binpack prefers hosts that have less, any other scheduler those that have more. */
  ghost predicate Prefers(scheduler: string, v: HostView, w: HostView) {
    if scheduler == "binpack" then Weight(v) < Weight(w) else Weight(v) > Weight(w)
  }

  ghost predicate Candidate(views: map<string, HostView>, def: TaskDefinition, n: string) {
    n in views && Matches(views[n], def)
  }

  /** The matching hosts to which no other is preferred. */
  ghost function BestHosts(scheduler: string, views: map<string, HostView>, def: TaskDefinition): set<string> {
    set n | n in views && Matches(views[n], def)
            && forall m :: Candidate(views, def, m) ==> !Prefers(scheduler, views[m], views[n])
  }

  /** The hosts preferred to some host but not to some matching host that is not a best one. */
  ghost function HostsInTheWay(scheduler: string, views: map<string, HostView>, def: TaskDefinition): set<string> {
    set n | n in views && PreferredToSome(scheduler, views, n) && NotToSecond(scheduler, views, def, n)
  }

  ghost predicate PreferredToSome(scheduler: string, views: map<string, HostView>, n: string)
    requires n in views
  {
    exists l :: l in views && Prefers(scheduler, views[n], views[l])
  }

  ghost predicate NotToSecond(scheduler: string, views: map<string, HostView>, def: TaskDefinition, n: string)
    requires n in views
  {
    exists m :: Candidate(views, def, m) && m !in BestHosts(scheduler, views, def)
                && !Prefers(scheduler, views[n], views[m])
  }

  function Ranked(scheduler: string, views: map<string, HostView>, n: string): RankedHost
    requires n in views
  {
    RankedHost(n, RankerOf(scheduler)(views[n]))
  }

  ghost function RankedSet(scheduler: string, views: map<string, HostView>, names: set<string>): set<RankedHost>
    requires names <= views.Keys
  {
    set n | n in names :: Ranked(scheduler, views, n)
  }

  lemma ScoreIsPreference(scheduler: string, v: HostView, w: HostView)
    ensures Prefers(scheduler, v, w) <==> RankerOf(scheduler)(v) > RankerOf(scheduler)(w)
  {
  }

  lemma {:induction false} RankedSetSize(scheduler: string, views: map<string, HostView>, names: set<string>)
    requires names <= views.Keys
    ensures |RankedSet(scheduler, views, names)| == |names|
  {
    if names != {} {
      var n :| n in names;
      var rest := names - {n};
      RankedSetSize(scheduler, views, rest);
      var all, fewer := RankedSet(scheduler, views, names), RankedSet(scheduler, views, rest);
      assert all == fewer + {Ranked(scheduler, views, n)};
      assert Ranked(scheduler, views, n) !in fewer;
    } else {
      assert RankedSet(scheduler, views, names) == {};
    }
  }

  ghost function Candidates(views: map<string, HostView>, def: TaskDefinition): set<string> {
    set n | n in views && Matches(views[n], def)
  }

  lemma InRankedSet(scheduler: string, views: map<string, HostView>, names: set<string>, n: string)
    requires names <= views.Keys && n in views
    ensures Ranked(scheduler, views, n) in RankedSet(scheduler, views, names) <==> n in names
  {
  }

  lemma BestByName(scheduler: string, views: map<string, HostView>, def: TaskDefinition)
    ensures BestHosts(scheduler, views, def) <= Candidates(views, def) <= views.Keys
    ensures Best(RankedSet(scheduler, views, Candidates(views, def)))
         == RankedSet(scheduler, views, BestHosts(scheduler, views, def))
  {
    var fits, best := RankedSet(scheduler, views, Candidates(views, def)), BestHosts(scheduler, views, def);
    forall n | n in Candidates(views, def)
      ensures Ranked(scheduler, views, n) in Best(fits) <==> n in best
    {
      if n in best {
        forall q | q in fits ensures q.score <= Ranked(scheduler, views, n).score {
          assert Candidate(views, def, q.name);
          ScoreIsPreference(scheduler, views[q.name], views[n]);
        }
      }
      if Ranked(scheduler, views, n) in Best(fits) {
        forall m | Candidate(views, def, m) ensures !Prefers(scheduler, views[m], views[n]) {
          assert Ranked(scheduler, views, m) in fits;
          ScoreIsPreference(scheduler, views[m], views[n]);
        }
      }
    }
  }

  lemma WayByName(scheduler: string, views: map<string, HostView>, def: TaskDefinition)
    ensures HostsInTheWay(scheduler, views, def) <= views.Keys && Candidates(views, def) <= views.Keys
    ensures InTheWay(RankedSet(scheduler, views, views.Keys), RankedSet(scheduler, views, Candidates(views, def)))
         == RankedSet(scheduler, views, HostsInTheWay(scheduler, views, def))
  {
    var hosts, fits := RankedSet(scheduler, views, views.Keys), RankedSet(scheduler, views, Candidates(views, def));
    BestByName(scheduler, views, def);
    forall n | n in views
      ensures Ranked(scheduler, views, n) in InTheWay(hosts, fits) <==> n in HostsInTheWay(scheduler, views, def)
    {
      LowerByName(scheduler, views, n);
      SecondByName(scheduler, views, def, n);
    }
  }

  lemma LowerByName(scheduler: string, views: map<string, HostView>, n: string)
    requires n in views
    ensures HasLower(RankedSet(scheduler, views, views.Keys), Ranked(scheduler, views, n))
       <==> PreferredToSome(scheduler, views, n)
  {
    var hosts, r := RankedSet(scheduler, views, views.Keys), Ranked(scheduler, views, n);
    if HasLower(hosts, r) {
      var l :| l in hosts && l.score < r.score;
      ScoreIsPreference(scheduler, views[n], views[l.name]);
    }
    if PreferredToSome(scheduler, views, n) {
      var l :| l in views && Prefers(scheduler, views[n], views[l]);
      ScoreIsPreference(scheduler, views[n], views[l]);
      assert Ranked(scheduler, views, l) in hosts;
    }
  }

  lemma SecondByName(scheduler: string, views: map<string, HostView>, def: TaskDefinition, n: string)
    requires n in views
    ensures Candidates(views, def) <= views.Keys
    ensures NoBetterThanSecond(RankedSet(scheduler, views, Candidates(views, def)), Ranked(scheduler, views, n))
       <==> NotToSecond(scheduler, views, def, n)
  {
    var fits, r := RankedSet(scheduler, views, Candidates(views, def)), Ranked(scheduler, views, n);
    BestByName(scheduler, views, def);
    if NoBetterThanSecond(fits, r) {
      var m :| m in fits - Best(fits) && r.score <= m.score;
      ScoreIsPreference(scheduler, views[n], views[m.name]);
      assert Candidate(views, def, m.name);
    }
    if NotToSecond(scheduler, views, def, n) {
      var m :| Candidate(views, def, m) && m !in BestHosts(scheduler, views, def)
               && !Prefers(scheduler, views[n], views[m]);
      ScoreIsPreference(scheduler, views[n], views[m]);
      InRankedSet(scheduler, views, BestHosts(scheduler, views, def), m);
      assert Ranked(scheduler, views, m) in fits - Best(fits);
    }
  }

  // ----- The host selected -----

  lemma {:induction false} FirstMatchIsFirst(scheduler: string, rs: seq<RankedHost>, views: map<string, HostView>,
                                             def: TaskDefinition)
    requires forall r :: r in rs ==> r.name in views && r == Ranked(scheduler, views, r.name)
    ensures Candidates(views, def) <= views.Keys
    ensures
      var first := FirstIn(rs, RankedSet(scheduler, views, Candidates(views, def)));
      FirstMatch(rs, views, def) == if first.Some? then first.value.name else ""
  {
    if rs != [] {
      InRankedSet(scheduler, views, Candidates(views, def), rs[0].name);
      FirstMatchIsFirst(scheduler, rs[1..], views, def);
    }
  }

  ghost predicate OrderOf(order: seq<string>, views: map<string, HostView>) {
    Enumerates(order, views.Keys) && forall h :: h in order ==> h in views
  }

  lemma TwiceInBag<T>(s: seq<T>, i: nat, j: nat)
    requires i < j < |s| && s[i] == s[j]
    ensures multiset(s)[s[i]] > 1
  {
    assert s == s[..j] + s[j..];
    assert s[i] in s[..j] && s[j] in s[j..];
    assert multiset(s) == multiset(s[..j]) + multiset(s[j..]);
  }

  lemma DistinctFromSet<T>(order: seq<T>, keys: set<T>)
    requires multiset(order) == multiset(keys)
    ensures forall i, j :: 0 <= i < j < |order| ==> order[i] != order[j]
    ensures forall x :: x in order <==> x in keys
  {
    forall i, j | 0 <= i < j < |order| ensures order[i] != order[j] {
      if order[i] == order[j] {
        TwiceInBag(order, i, j);
      }
    }
    assert forall x :: x in order <==> x in multiset(order);
  }

  lemma {:induction false} BagOfDistinct<T>(s: seq<T>, keys: set<T>)
    requires forall i, j :: 0 <= i < j < |s| ==> s[i] != s[j]
    requires forall x :: x in s <==> x in keys
    ensures multiset(s) == multiset(keys)
  {
    if s == [] {
      assert keys == {};
    } else {
      var n := |s| - 1;
      assert s == s[..n] + [s[n]];
      forall x ensures x in s[..n] <==> x in keys - {s[n]} {
        if x in keys && x != s[n] {
          var i :| 0 <= i < |s| && s[i] == x;
          assert s[..n][i] == x;
        }
      }
      BagOfDistinct(s[..n], keys - {s[n]});
      assert multiset(keys) == multiset(keys - {s[n]}) + multiset{s[n]};
    }
  }

  lemma ScoredHosts(scheduler: string, order: seq<string>, views: map<string, HostView>)
    requires OrderOf(order, views)
    ensures
      var scored := Scored(RankerOf(scheduler), order, views);
      && Distinct(scored) && (forall r :: r in scored <==> r in RankedSet(scheduler, views, views.Keys))
      && forall r :: r in Rank(scored) ==> r.name in views && r == Ranked(scheduler, views, r.name)
  {
    var scored := Scored(RankerOf(scheduler), order, views);
    DistinctFromSet(order, views.Keys);
    forall r | r in RankedSet(scheduler, views, views.Keys) ensures r in scored {
      assert r.name in order;
      var k :| 0 <= k < |order| && order[k] == r.name;
      assert scored[k] == r;
    }
    SameMembers(scored);
  }

  lemma SelectedIsFirst(scheduler: string, order: seq<string>, views: map<string, HostView>, def: TaskDefinition)
    requires OrderOf(order, views) && Candidates(views, def) <= views.Keys
    ensures
      var fits := RankedSet(scheduler, views, Candidates(views, def));
      var first := FirstIn(Rank(Scored(RankerOf(scheduler), order, views)), fits);
      Selected(scheduler, order, views, def) == if first.Some? then first.value.name else ""
  {
    ScoredHosts(scheduler, order, views);
    FirstMatchIsFirst(scheduler, Rank(Scored(RankerOf(scheduler), order, views)), views, def);
  }

  lemma FewSelectBest(scheduler: string, order: seq<string>, views: map<string, HostView>, def: TaskDefinition)
    requires OrderOf(order, views) && Candidates(views, def) != {}
    requires |HostsInTheWay(scheduler, views, def)| < |BestHosts(scheduler, views, def)|
    ensures Selected(scheduler, order, views, def) in BestHosts(scheduler, views, def)
  {
    var hosts, fits := RankedSet(scheduler, views, views.Keys), RankedSet(scheduler, views, Candidates(views, def));
    BestByName(scheduler, views, def);
    WayByName(scheduler, views, def);
    RankedSetSize(scheduler, views, BestHosts(scheduler, views, def));
    RankedSetSize(scheduler, views, HostsInTheWay(scheduler, views, def));
    ScoredHosts(scheduler, order, views);
    SelectedIsFirst(scheduler, order, views, def);
    var n :| n in Candidates(views, def);
    assert Ranked(scheduler, views, n) in fits;
    FewInTheWay(hosts, fits, Scored(RankerOf(scheduler), order, views));
  }

  /** Where a best host is sure to be selected, this is one. */
  ghost predicate SureChoice(host: string, scheduler: string, views: map<string, HostView>, def: TaskDefinition) {
    Candidates(views, def) != {} && |HostsInTheWay(scheduler, views, def)| < |BestHosts(scheduler, views, def)| ==>
      host in BestHosts(scheduler, views, def)
  }

  lemma SelectedIsSure(scheduler: string, order: seq<string>, views: map<string, HostView>, def: TaskDefinition)
    requires OrderOf(order, views)
    ensures SureChoice(Selected(scheduler, order, views, def), scheduler, views, def)
  {
    if Candidates(views, def) != {} && |HostsInTheWay(scheduler, views, def)| < |BestHosts(scheduler, views, def)| {
      FewSelectBest(scheduler, order, views, def);
    }
  }

  lemma EnoughSelectAnother(scheduler: string, views: map<string, HostView>, def: TaskDefinition)
    returns (order: seq<string>)
    requires Candidates(views, def) != {}
    requires |HostsInTheWay(scheduler, views, def)| >= |BestHosts(scheduler, views, def)|
    ensures OrderOf(order, views) && Selected(scheduler, order, views, def) !in BestHosts(scheduler, views, def)
  {
    var hosts, fits := RankedSet(scheduler, views, views.Keys), RankedSet(scheduler, views, Candidates(views, def));
    BestByName(scheduler, views, def);
    WayByName(scheduler, views, def);
    RankedSetSize(scheduler, views, BestHosts(scheduler, views, def));
    RankedSetSize(scheduler, views, HostsInTheWay(scheduler, views, def));
    var n :| n in Candidates(views, def);
    assert Ranked(scheduler, views, n) in fits;
    var ranked := EnoughInTheWay(hosts, fits);
    order := NamesOf(scheduler, ranked, views);
    SelectedIsFirst(scheduler, order, views, def);
    var first := FirstIn(Rank(ranked), fits);
    var i := FirstInAt(Rank(ranked), fits);
    InRankedSet(scheduler, views, BestHosts(scheduler, views, def), first.value.name);
  }

  lemma NamesOf(scheduler: string, ranked: seq<RankedHost>, views: map<string, HostView>) returns (order: seq<string>)
    requires multiset(ranked) == multiset(RankedSet(scheduler, views, views.Keys))
    ensures OrderOf(order, views) && Scored(RankerOf(scheduler), order, views) == ranked
  {
    order := seq(|ranked|, k requires 0 <= k < |ranked| => ranked[k].name);
    DistinctFromSet(ranked, RankedSet(scheduler, views, views.Keys));
    forall k | 0 <= k < |ranked| ensures order[k] in views && ranked[k] == Ranked(scheduler, views, order[k]) {
      assert ranked[k] in ranked;
    }
    forall n | n in views ensures n in order {
      assert Ranked(scheduler, views, n) in ranked;
      var k :| 0 <= k < |ranked| && ranked[k] == Ranked(scheduler, views, n);
      assert order[k] == n;
    }
    BagOfDistinct(order, views.Keys);
  }

  /** A best one of the matching hosts is selected in every iteration order exactly if there are fewer hosts in
      the way than best ones. */
  lemma SelectsBestExactly(scheduler: string, views: map<string, HostView>, def: TaskDefinition)
    requires exists n :: Candidate(views, def, n)
    ensures (forall order :: OrderOf(order, views) ==>
               Selected(scheduler, order, views, def) in BestHosts(scheduler, views, def))
       <==> |HostsInTheWay(scheduler, views, def)| < |BestHosts(scheduler, views, def)|
  {
    var n :| Candidate(views, def, n);
    assert n in Candidates(views, def);
    if |HostsInTheWay(scheduler, views, def)| < |BestHosts(scheduler, views, def)| {
      forall order | OrderOf(order, views)
        ensures Selected(scheduler, order, views, def) in BestHosts(scheduler, views, def)
      {
        FewSelectBest(scheduler, order, views, def);
      }
    } else {
      var order := EnoughSelectAnother(scheduler, views, def);
    }
  }

  lemma DescendingFirstIsBest(rs: seq<RankedHost>, fits: set<RankedHost>)
    requires Descending(rs) && fits != {} && forall q :: q in fits ==> q in rs
    ensures FirstIn(rs, fits).Some? && FirstIn(rs, fits).value in Best(fits) && FirstIn(rs, fits).value in rs
  {
    var i := FirstInAt(rs, fits);
    var n :| n in fits;
    assert FirstIn(rs, fits).Some?;
    forall q | q in fits ensures q.score <= rs[i].score {
      var k :| 0 <= k < |rs| && rs[k] == q;
    }
  }

  /** In one order alone it is enough that each host met is an extreme of those so far. */
  lemma ExtremesSelectBest(scheduler: string, order: seq<string>, views: map<string, HostView>, def: TaskDefinition)
    requires OrderOf(order, views) && exists n :: Candidate(views, def, n)
    requires MeetsExtremesOnly(Scored(RankerOf(scheduler), order, views))
    ensures Selected(scheduler, order, views, def) in BestHosts(scheduler, views, def)
  {
    var scored, fits := Scored(RankerOf(scheduler), order, views), RankedSet(scheduler, views, Candidates(views, def));
    var n :| Candidate(views, def, n);
    assert Ranked(scheduler, views, n) in fits;
    RankDescending(scored);
    ScoredHosts(scheduler, order, views);
    SelectedIsFirst(scheduler, order, views, def);
    BestByName(scheduler, views, def);
    SameMembers(scored);
    assert forall q :: q in fits ==> q in Rank(scored);
    DescendingFirstIsBest(Rank(scored), fits);
    InRankedSet(scheduler, views, BestHosts(scheduler, views, def), FirstIn(Rank(scored), fits).value.name);
  }
}
