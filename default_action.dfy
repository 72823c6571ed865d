/**
 * The default action of a state in `fillReduce`: the rule with the most
 * reduce entries, the higher rule number on a tie, and the error action
 * when no entry reduces by a rule above 0.
 */
module Defaults {
  import opened Automaton
  import opened Sorting

  /** How many entries reduce by rule `v`. */
  function NumCount(s: seq<Reduce>, v: int): nat
  {
    if s == [] then 0 else NumCount(s[..|s| - 1], v) + if s[|s| - 1].number == v then 1 else 0
  }

  lemma {:induction false} NumCountAppend(p: seq<Reduce>, q: seq<Reduce>, v: int)
    ensures NumCount(p + q, v) == NumCount(p, v) + NumCount(q, v)
    decreases |q|
  {
    if q != [] {
      NumCountAppend(p, q[..|q| - 1], v);
      assert (p + q)[..|p + q| - 1] == p + q[..|q| - 1];
    } else {
      assert p + q == p;
    }
  }

  lemma MultisetRemove(a: seq<Reduce>, p: seq<Reduce>, q: seq<Reduce>, x: Reduce)
    requires multiset(a + [x]) == multiset(p + [x] + q)
    ensures multiset(a) == multiset(p + q)
  {
    var A, B := multiset(a), multiset(p + q);
    assert multiset(a + [x]) == A + multiset{x};
    assert multiset(p + [x] + q) == B + multiset{x};
    assert A == (A + multiset{x}) - multiset{x};
    assert B == (B + multiset{x}) - multiset{x};
  }

  /** The count depends on the entries only, not on their order. */
  lemma {:induction false} NumCountPerm(a: seq<Reduce>, b: seq<Reduce>, v: int)
    requires multiset(a) == multiset(b)
    ensures NumCount(a, v) == NumCount(b, v)
    decreases |a|
  {
    if a == [] {
      assert |b| == |multiset(b)| == |multiset(a)| == 0;
    } else {
      var x := a[|a| - 1];
      var a' := a[..|a| - 1];
      assert a == a' + [x];
      assert x in multiset(b);
      var i :| 0 <= i < |b| && b[i] == x;
      var p, q := b[..i], b[i + 1..];
      assert b == p + [x] + q;
      MultisetRemove(a', p, q, x);
      NumCountPerm(a', p + q, v);
      NumCountAppend(p + [x], q, v);
      NumCountAppend(p, [x], v);
      NumCountAppend(p, q, v);
      assert [x][..0] == [];
    }
  }

  lemma {:induction false} NumCountPositive(s: seq<Reduce>, v: int)
    requires NumCount(s, v) > 0
    ensures exists i :: 0 <= i < |s| && s[i].number == v
  {
    if s[|s| - 1].number != v {
      NumCountPositive(s[..|s| - 1], v);
      var i :| 0 <= i < |s| - 1 && s[..|s| - 1][i].number == v;
      assert s[i].number == v;
    }
  }

  /**
   * `d` is the default action for the entries `s`: -1 exactly when no entry
   * reduces by a rule above 0, and otherwise such a rule with the most
   * entries, the highest-numbered among those with as many.
   */
  ghost predicate IsDefault(s: seq<Reduce>, d: int)
  {
    && (d == -1 <==> forall i :: 0 <= i < |s| ==> s[i].number <= 0)
    && (d != -1 ==>
          && d > 0 && NumCount(s, d) > 0
          && forall v :: v > 0 ==> NumCount(s, v) <= NumCount(s, d) && (NumCount(s, v) == NumCount(s, d) ==> v <= d))
  }

  /** The comparator of the first sort: rule numbers descending, then symbols ascending. */
  function ByRuleDesc(rd: Reduce): seq<int>
  {
    [-rd.number, rd.sym]
  }

  ghost predicate NumbersDescending(s: seq<Reduce>)
  {
    forall i, j :: 0 <= i < j < |s| ==> s[i].number >= s[j].number
  }

  lemma SortedDescending(s: seq<Reduce>)
    requires SortedBy(s, ByRuleDesc)
    ensures NumbersDescending(s)
  {
    forall i, j | 0 <= i < j < |s|
      ensures s[i].number >= s[j].number
    {
      assert LexLe(ByRuleDesc(s[i]), ByRuleDesc(s[j]));
    }
  }

  lemma BeforeRun(s: seq<Reduce>, k: nat)
    requires NumbersDescending(s) && k < |s|
    requires k == 0 || s[k - 1].number != s[k].number
    ensures forall i :: 0 <= i < k ==> s[i].number > s[k].number
  {
  }

  lemma AfterRun(s: seq<Reduce>, k: nat, j: nat)
    requires NumbersDescending(s) && k < j <= |s|
    requires j == |s| || s[j].number != s[k].number
    requires forall i :: k <= i < j ==> s[i].number == s[k].number
    ensures forall i :: j <= i < |s| ==> s[i].number < s[k].number
  {
    if j < |s| {
      assert s[j - 1].number == s[k].number;
    }
  }

  lemma {:induction false} NumCountNone(s: seq<Reduce>, lo: nat, hi: nat, v: int)
    requires lo <= hi <= |s|
    requires forall i :: lo <= i < hi ==> s[i].number != v
    ensures NumCount(s[lo..hi], v) == 0
    decreases hi - lo
  {
    if lo < hi {
      NumCountNone(s, lo, hi - 1, v);
      assert s[lo..hi][..hi - lo - 1] == s[lo..hi - 1];
    }
  }

  lemma {:induction false} NumCountAll(s: seq<Reduce>, lo: nat, hi: nat, v: int)
    requires lo <= hi <= |s|
    requires forall i :: lo <= i < hi ==> s[i].number == v
    ensures NumCount(s[lo..hi], v) == hi - lo
    decreases hi - lo
  {
    if lo < hi {
      NumCountAll(s, lo, hi - 1, v);
      assert s[lo..hi][..hi - lo - 1] == s[lo..hi - 1];
    }
  }

  lemma ThreeParts(s: seq<Reduce>, k: nat, j: nat)
    requires k <= j <= |s|
    ensures s == s[0..k] + s[k..j] + s[j..|s|]
  {
  }

  /** In entries ordered by descending rule, a maximal run of rule `v` holds all of its entries. */
  lemma RunCount(s: seq<Reduce>, k: nat, j: nat)
    requires NumbersDescending(s) && k < j <= |s|
    requires k == 0 || s[k - 1].number != s[k].number
    requires j == |s| || s[j].number != s[k].number
    requires forall i :: k <= i < j ==> s[i].number == s[k].number
    ensures NumCount(s, s[k].number) == j - k
  {
    var v := s[k].number;
    BeforeRun(s, k);
    AfterRun(s, k, j);
    ThreeParts(s, k, j);
    NumCountAppend(s[0..k] + s[k..j], s[j..|s|], v);
    NumCountAppend(s[0..k], s[k..j], v);
    NumCountNone(s, 0, k, v);
    NumCountAll(s, k, j, v);
    NumCountNone(s, j, |s|, v);
  }

  /** What the run scan knows once the runs before `j` are counted. */
  ghost predicate ScanSoFar(s: seq<Reduce>, j: nat, maxn: nat, d: int)
    requires j <= |s|
  {
    && (maxn == 0 <==> d == -1)
    && (d == -1 ==> forall i :: 0 <= i < j ==> s[i].number <= 0)
    && (d != -1 ==> d > 0 && NumCount(s, d) == maxn && forall i :: j <= i < |s| ==> s[i].number <= d)
    && (forall i :: 0 <= i < j && s[i].number > 0 ==>
          NumCount(s, s[i].number) <= maxn && (NumCount(s, s[i].number) == maxn ==> s[i].number <= d))
  }

  /** The run of equal rule numbers starting at `k`: where it ends. */
  method RuleRunEnd(s: seq<Reduce>, k: nat) returns (j: nat)
    requires k < |s|
    ensures k < j <= |s| && (j == |s| || s[j].number != s[k].number)
    ensures forall i :: k <= i < j ==> s[i].number == s[k].number
  {
    j := k;
    while j < |s| && s[j].number == s[k].number
      invariant k <= j <= |s|
      invariant forall i :: k <= i < j ==> s[i].number == s[k].number
    {
      j := j + 1;
    }
  }

  /** Counting the run from `k` to `j` and keeping it when it is longer and of a rule above 0. */
  lemma ScanStep(s: seq<Reduce>, k: nat, j: nat, maxn: nat, d: int)
    requires NumbersDescending(s) && k < j <= |s| && ScanSoFar(s, k, maxn, d)
    requires k == 0 || s[k - 1].number != s[k].number
    requires j == |s| || s[j].number != s[k].number
    requires forall i :: k <= i < j ==> s[i].number == s[k].number
    ensures j - k > maxn && s[k].number > 0 ==> ScanSoFar(s, j, j - k, s[k].number)
    ensures !(j - k > maxn && s[k].number > 0) ==> ScanSoFar(s, j, maxn, d)
  {
    RunCount(s, k, j);
  }

  lemma ScanDone(tmpr: seq<Reduce>, s: seq<Reduce>, maxn: nat, d: int)
    requires multiset(tmpr) == multiset(s) && ScanSoFar(s, |s|, maxn, d)
    ensures IsDefault(tmpr, d)
  {
    forall v | v > 0
      ensures NumCount(tmpr, v) <= maxn && (NumCount(tmpr, v) == maxn && maxn > 0 ==> v <= d)
    {
      NumCountPerm(tmpr, s, v);
      if NumCount(s, v) > 0 {
        NumCountPositive(s, v);
      }
    }
    NumCountPerm(tmpr, s, d);
    forall i | 0 <= i < |tmpr|
      ensures tmpr[i] in s
    {
      assert tmpr[i] in multiset(s);
    }
    if d != -1 {
      NumCountPositive(s, d);
      var i :| 0 <= i < |s| && s[i].number == d;
      assert s[i] in multiset(tmpr);
    }
  }

  /**
   * The default-action choice of `fillReduce` when no transition is on the
   * error token: the entries are sorted by descending rule number and each
   * run of one rule is counted; a run longer than every earlier one, of a
   * rule above 0, becomes the default.
   */
  method ChooseDefault(tmpr: seq<Reduce>) returns (d: int)
    ensures IsDefault(tmpr, d)
  {
    var s := SortBy(tmpr, ByRuleDesc);
    SortedDescending(s);
    d := -1;
    var maxn: nat := 0;
    var j := 0;
    while j < |s|
      invariant j <= |s| && (j == 0 || j == |s| || s[j - 1].number != s[j].number)
      invariant ScanSoFar(s, j, maxn, d)
    {
      var k := j;
      j := RuleRunEnd(s, k);
      ScanStep(s, k, j, maxn, d);
      if j - k > maxn && s[k].number > 0 {
        maxn := j - k;
        d := s[k].number;
      }
    }
    ScanDone(tmpr, s, maxn, d);
  }
}
