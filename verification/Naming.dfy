/** Task ids as the store keys them, and when two ids are the same string (api/task.go). */
module Naming {

  function Digit(d: nat): (c: char)
    requires d < 10
  {
    (d as char) + '0'
  }

  ghost predicate IsDigit(c: char) {
    '0' <= c <= '9'
  }

  /** The decimal numeral of an unsigned number, as the `%v` verb prints it. */
  function Natural(n: nat): string {
    if n < 10 then [Digit(n)] else Natural(n / 10) + [Digit(n % 10)]
  }

  /** The decimal numeral of a signed number. */
  function Integer(i: int): string {
    if i < 0 then "-" + Natural(-i) else Natural(i)
  }

  /** `Task.Name`. */
  function TaskName(cluster: string, deployment: string): string {
    cluster + "-" + deployment
  }

  /** The common format of `Task.ID` and `MakeTaskId`. */
  function IdOf(cluster: string, deployment: string, version: nat, instance: int): string {
    TaskName(cluster, deployment) + "-" + Natural(version) + "-" + Integer(instance)
  }

  lemma {:induction false} NaturalIsDigits(n: nat)
    ensures Natural(n) != []
    ensures forall k :: 0 <= k < |Natural(n)| ==> IsDigit(Natural(n)[k])
  {
    if n >= 10 {
      NaturalIsDigits(n / 10);
    }
  }

  /** The number that a string of decimal digits stands for. */
  function Reading(s: string): int {
    if s == [] then 0 else 10 * Reading(s[..|s| - 1]) + (s[|s| - 1] as int - '0' as int)
  }

  /** Decimal digits, with no zero in front. */
  ghost predicate IsNumeral(s: string) {
    s != [] && (forall k :: 0 <= k < |s| ==> '0' <= s[k] <= '9') && (|s| > 1 ==> s[0] != '0')
  }

  lemma {:induction false} NaturalReads(n: nat)
    ensures IsNumeral(Natural(n)) && Reading(Natural(n)) == n && (n > 0 ==> Natural(n)[0] != '0')
  {
    if n >= 10 {
      NaturalReads(n / 10);
      assert Natural(n)[..|Natural(n)| - 1] == Natural(n / 10);
    }
  }

  /** An id is the two names and the numerals of version and instance, joined by dashes. */
  lemma IdReads(c: string, d: string, v: nat, i: int) returns (version: string, number: string)
    ensures IdOf(c, d, v, i) == c + "-" + d + "-" + version + "-" + (if i < 0 then "-" + number else number)
    ensures IsNumeral(version) && Reading(version) == v
    ensures IsNumeral(number) && Reading(number) == if i < 0 then -i else i
  {
    version, number := Natural(v), Natural(if i < 0 then -i else i);
    NaturalReads(v);
    NaturalReads(if i < 0 then -i else i);
  }

  lemma {:induction false} NaturalInjective(m: nat, n: nat)
    requires Natural(m) == Natural(n)
    ensures m == n
  {
    NaturalIsDigits(m / 10);
    NaturalIsDigits(n / 10);
    var s, t := Natural(m), Natural(n);
    assert s[|s| - 1] == t[|t| - 1];
    assert Digit(m % 10) == Digit(n % 10);
    if m >= 10 && n >= 10 {
      assert s[..|s| - 1] == Natural(m / 10) && t[..|t| - 1] == Natural(n / 10);
      NaturalInjective(m / 10, n / 10);
    }
  }

  /** A numeral after the last dash can be cut off in one way only. */
  lemma CutNumeral(a: string, m: nat, b: string, n: nat)
    requires a + "-" + Natural(m) == b + "-" + Natural(n)
    ensures a == b && m == n
  {
    var s := a + "-" + Natural(m);
    NaturalIsDigits(m);
    NaturalIsDigits(n);
    assert s[|a|] == '-';
    assert s == b + "-" + Natural(n) && s[|b|] == '-';
    assert |a| == |b|;
    assert a == s[..|a|] && b == s[..|b|];
    assert Natural(m) == s[|a| + 1..] && Natural(n) == s[|b| + 1..];
    NaturalInjective(m, n);
  }

  /** A signed numeral is an unsigned one behind a stem: with a negative number the stem
      takes the sign. */
  function Stem(a: string, i: int): string {
    if i < 0 then a + "-" else a
  }

  lemma StemNumeral(a: string, i: int)
    ensures a + "-" + Integer(i) == Stem(a, i) + "-" + Natural(if i < 0 then -i else i)
  {
    if i < 0 {
      assert a + "-" + ("-" + Natural(-i)) == (a + "-") + "-" + Natural(-i);
    }
  }

  /** A signed numeral can be cut off in one way only when what stands before the dash ends
      in a digit. */
  lemma CutInteger(a: string, i: int, b: string, j: int)
    requires a != [] && IsDigit(a[|a| - 1]) && b != [] && IsDigit(b[|b| - 1])
    requires a + "-" + Integer(i) == b + "-" + Integer(j)
    ensures a == b && i == j
  {
    StemNumeral(a, i);
    StemNumeral(b, j);
    CutNumeral(Stem(a, i), if i < 0 then -i else i, Stem(b, j), if j < 0 then -j else j);
    var s := Stem(a, i);
    assert s[|s| - 1] == if i < 0 then '-' else a[|a| - 1];
    assert s == Stem(b, j) && s[|s| - 1] == if j < 0 then '-' else b[|b| - 1];
    assert a == s[..|a|] && b == s[..|b|];
  }

  /** Two ids agree exactly when name, version and instance agree, whatever dashes the
      names contain and whatever sign the instances have. */
  lemma IdInjective(c: string, d: string, v: nat, i: int, c': string, d': string, v': nat, i': int)
    ensures IdOf(c, d, v, i) == IdOf(c', d', v', i')
       <==> TaskName(c, d) == TaskName(c', d') && v == v' && i == i'
  {
    if IdOf(c, d, v, i) == IdOf(c', d', v', i') {
      var a, b := TaskName(c, d) + "-" + Natural(v), TaskName(c', d') + "-" + Natural(v');
      NaturalIsDigits(v);
      NaturalIsDigits(v');
      assert a[|a| - 1] == Natural(v)[|Natural(v)| - 1];
      assert b[|b| - 1] == Natural(v')[|Natural(v')| - 1];
      CutInteger(a, i, b, i');
      CutNumeral(TaskName(c, d), v, TaskName(c', d'), v');
    }
  }

  /** Names of different clusters agree exactly when one cluster's name continues the other's
      after a dash and its deployment's name is the tail of the other's deployment. */
  ghost predicate Continues(c: string, d: string, c': string, d': string) {
    exists x: string :: c' == c + "-" + x && d == x + "-" + d'
  }

  lemma NameCollision(c: string, d: string, c': string, d': string)
    ensures TaskName(c, d) == TaskName(c', d')
       <==> (c == c' && d == d') || Continues(c, d, c', d') || Continues(c', d', c, d)
  {
    if TaskName(c, d) == TaskName(c', d') {
      if |c| < |c'| {
        NameSplit(c, d, c', d');
      } else if |c'| < |c| {
        NameSplit(c', d', c, d);
      } else {
        assert c == TaskName(c, d)[..|c|] && c' == TaskName(c', d')[..|c|];
        assert d == TaskName(c, d)[|c| + 1..] && d' == TaskName(c', d')[|c| + 1..];
      }
    }
    if Continues(c, d, c', d') {
      var x :| c' == c + "-" + x && d == x + "-" + d';
      assert TaskName(c, d) == c + "-" + (x + "-" + d') == (c + "-" + x) + "-" + d';
    }
    if Continues(c', d', c, d) {
      var x :| c == c' + "-" + x && d' == x + "-" + d;
      assert TaskName(c', d') == c' + "-" + (x + "-" + d) == (c' + "-" + x) + "-" + d;
    }
  }

  lemma NameSplit(c: string, d: string, c': string, d': string)
    requires TaskName(c, d) == TaskName(c', d') && |c| < |c'|
    ensures Continues(c, d, c', d')
  {
    var s := TaskName(c, d);
    var x := s[|c| + 1..|c'|];
    assert s[..|c'|] == c' && s[|c'|] == '-' && s[|c'| + 1..] == d';
    assert c' == s[..|c|] + [s[|c|]] + x;
    assert d == s[|c| + 1..] == x + [s[|c'|]] + s[|c'| + 1..];
  }

  /** Within one cluster an id names one deployment, one version and one instance. */
  lemma IdInjectiveInCluster(c: string, d: string, v: nat, i: int, d': string, v': nat, i': int)
    ensures IdOf(c, d, v, i) == IdOf(c, d', v', i') <==> d == d' && v == v' && i == i'
  {
    IdInjective(c, d, v, i, c, d', v', i');
    if TaskName(c, d) == TaskName(c, d') {
      assert d == TaskName(c, d)[|c| + 1..] && d' == TaskName(c, d')[|c| + 1..];
    }
  }
}
