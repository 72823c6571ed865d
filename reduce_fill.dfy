/**
 * The per-state part of `fillReduce`: shift/reduce and reduce/reduce
 * conflict resolution over the completed items of a state, the choice of
 * the default reduction, and the final sorted reduce list with its nil
 * sentinel.
 *
 * A state's transitions are read here through `thr`, the symbols their
 * targets are entered through, in the state's transition order.
 */
module Reduces {
  import opened Grammar
  import opened Automaton
  import opened Precedence
  import opened Sorting
  import opened Defaults

  /** The symbols that have an entry in a reduce list. */
  function Syms(rs: seq<Reduce>): set<nat>
  {
    set i | 0 <= i < |rs| :: rs[i].sym
  }

  /** No symbol has two entries. */
  ghost predicate SymsDistinct(rs: seq<Reduce>)
  {
    forall i, j :: 0 <= i < j < |rs| ==> rs[i].sym != rs[j].sym
  }

  /** A state's transition symbols: codes, in strictly ascending order. */
  ghost predicate ThroughsOk(g: Grammar, thr: seq<nat>)
  {
    && g.WF()
    && (forall k :: 0 <= k < |thr| ==> thr[k] < g.N())
    && (forall k1, k2 :: 0 <= k1 < k2 < |thr| ==> thr[k1] < thr[k2])
  }

  /** Terminal codes precede nonterminal ones, so the terminal transitions come first. */
  lemma TerminalsFirst(g: Grammar, thr: seq<nat>, k1: nat, k2: nat)
    requires ThroughsOk(g, thr) && k1 < k2 < |thr| && g.symbols[thr[k2]].terminal
    ensures g.symbols[thr[k1]].terminal
  {
  }

  /** How `fillReduce` reads the comparison of rule `r` with the symbol `e`. */
  function Rel(g: Grammar, r: nat, e: nat): Outcome
    requires r < |g.prods| && e < |g.symbols|
  {
    Classify(ComparePrecedence(g.prods[r], g.symbols[e]))
  }

  /** Transition `k` is still there, on a terminal the lookahead set `look` holds. */
  predicate Hit(g: Grammar, thr: seq<nat>, kept: seq<bool>, look: set<nat>, k: nat)
  {
    k < |thr| && k < |kept| && thr[k] < |g.symbols| && kept[k] && g.symbols[thr[k]].terminal && thr[k] in look
  }

  /** Rule `r` wins over transition `k` or makes it an error: the transition is removed. */
  predicate Removes(g: Grammar, r: nat, thr: seq<nat>, kept: seq<bool>, look: set<nat>, k: nat)
    requires r < |g.prods|
  {
    Hit(g, thr, kept, look, k) && (Rel(g, r, thr[k]) == ErrorEntry || Rel(g, r, thr[k]) == ReduceWins)
  }

  /** Transition `k` wins, ties or makes an error: the symbol leaves the lookahead copy. */
  predicate Clears(g: Grammar, r: nat, thr: seq<nat>, kept: seq<bool>, look: set<nat>, k: nat)
    requires r < |g.prods|
  {
    Hit(g, thr, kept, look, k) && Rel(g, r, thr[k]) != ReduceWins
  }

  predicate Errs(g: Grammar, r: nat, thr: seq<nat>, kept: seq<bool>, look: set<nat>, k: nat)
    requires r < |g.prods|
  {
    Hit(g, thr, kept, look, k) && Rel(g, r, thr[k]) == ErrorEntry
  }

  predicate Ties(g: Grammar, r: nat, thr: seq<nat>, kept: seq<bool>, look: set<nat>, k: nat)
    requires r < |g.prods|
  {
    Hit(g, thr, kept, look, k) && Rel(g, r, thr[k]) == Unresolved
  }

  /** The transitions left after rule `r` with lookahead set `look` is resolved against them. */
  function KeptAfter(g: Grammar, r: nat, thr: seq<nat>, kept: seq<bool>, look: set<nat>): (kept': seq<bool>)
    requires r < |g.prods|
    ensures |kept'| == |kept|
  {
    seq(|kept|, k requires 0 <= k < |kept| => kept[k] && !Removes(g, r, thr, kept, look, k))
  }

  ghost function Cleared(g: Grammar, r: nat, thr: seq<nat>, kept: seq<bool>, look: set<nat>, n: nat): set<nat>
    requires r < |g.prods|
  {
    set k | 0 <= k < n && Clears(g, r, thr, kept, look, k) :: thr[k]
  }

  ghost function Errored(g: Grammar, r: nat, thr: seq<nat>, kept: seq<bool>, look: set<nat>, n: nat): set<nat>
    requires r < |g.prods|
  {
    set k | 0 <= k < n && Errs(g, r, thr, kept, look, k) :: thr[k]
  }

  ghost function Tied(g: Grammar, r: nat, thr: seq<nat>, kept: seq<bool>, look: set<nat>, n: nat): set<nat>
    requires r < |g.prods|
  {
    set k | 0 <= k < n && Ties(g, r, thr, kept, look, k) :: thr[k]
  }

  /** Extending a comparison set by one transition. */
  lemma SetsStep(g: Grammar, r: nat, thr: seq<nat>, kept: seq<bool>, look: set<nat>, n: nat)
    requires ThroughsOk(g, thr) && r < |g.prods| && n < |thr|
    ensures Cleared(g, r, thr, kept, look, n + 1) ==
              Cleared(g, r, thr, kept, look, n) + (if Clears(g, r, thr, kept, look, n) then {thr[n]} else {})
    ensures Errored(g, r, thr, kept, look, n + 1) ==
              Errored(g, r, thr, kept, look, n) + (if Errs(g, r, thr, kept, look, n) then {thr[n]} else {})
    ensures Tied(g, r, thr, kept, look, n + 1) ==
              Tied(g, r, thr, kept, look, n) + (if Ties(g, r, thr, kept, look, n) then {thr[n]} else {})
    ensures thr[n] !in Cleared(g, r, thr, kept, look, n) + Errored(g, r, thr, kept, look, n) + Tied(g, r, thr, kept, look, n)
  {
  }

  /** Transitions past the first nonterminal one are on nonterminals and add nothing. */
  lemma SetsRest(g: Grammar, r: nat, thr: seq<nat>, kept: seq<bool>, look: set<nat>, n: nat)
    requires ThroughsOk(g, thr) && r < |g.prods| && n <= |thr|
    requires n < |thr| ==> !g.symbols[thr[n]].terminal
    ensures Cleared(g, r, thr, kept, look, |thr|) == Cleared(g, r, thr, kept, look, n)
    ensures Errored(g, r, thr, kept, look, |thr|) == Errored(g, r, thr, kept, look, n)
    ensures Tied(g, r, thr, kept, look, |thr|) == Tied(g, r, thr, kept, look, n)
    ensures forall k :: n <= k < |thr| ==> !Hit(g, thr, kept, look, k)
  {
  }

  lemma SymsAppend(a: seq<Reduce>, b: seq<Reduce>)
    ensures Syms(a + b) == Syms(a) + Syms(b)
  {
    var c := a + b;
    forall x | x in Syms(c)
      ensures x in Syms(a) + Syms(b)
    {
      var i :| 0 <= i < |c| && c[i].sym == x;
      if i >= |a| {
        assert b[i - |a|].sym == x;
      }
    }
    forall x | x in Syms(b)
      ensures x in Syms(c)
    {
      var i :| 0 <= i < |b| && b[i].sym == x;
      assert c[|a| + i].sym == x;
    }
    assert forall i :: 0 <= i < |a| ==> c[i] == a[i];
  }

  lemma SymsOne(x: Reduce)
    ensures Syms([x]) == {x.sym}
  {
    assert [x][0].sym == x.sym;
  }

  /** Growing a prefix by one entry; with distinct symbols the new one is not among the earlier. */
  lemma SymsPrefixStep(rs: seq<Reduce>, i: nat)
    requires SymsDistinct(rs) && i < |rs|
    ensures Syms(rs[..i + 1]) == Syms(rs[..i]) + {rs[i].sym}
    ensures rs[i].sym !in Syms(rs[..i])
  {
    assert rs[..i + 1] == rs[..i] + [rs[i]];
    SymsAppend(rs[..i], [rs[i]]);
    SymsOne(rs[i]);
  }

  lemma MeetStep(a: set<nat>, b: set<nat>, x: nat)
    requires x !in b
    ensures |a * (b + {x})| == |a * b| + if x in a then 1 else 0
  {
    if x in a {
      assert a * (b + {x}) == a * b + {x};
    } else {
      assert a * (b + {x}) == a * b;
    }
  }

  /** The transitions left once those before `n` are resolved. */
  function KeptUpTo(g: Grammar, r: nat, thr: seq<nat>, kept: seq<bool>, look: set<nat>, n: nat): (kept': seq<bool>)
    requires r < |g.prods|
    ensures |kept'| == |kept|
  {
    seq(|kept|, i requires 0 <= i < |kept| => kept[i] && !(i < n && Removes(g, r, thr, kept, look, i)))
  }

  lemma KeptStep(g: Grammar, r: nat, thr: seq<nat>, kept: seq<bool>, look: set<nat>, n: nat)
    requires r < |g.prods| && n < |kept|
    ensures KeptUpTo(g, r, thr, kept, look, n)[n] == kept[n]
    ensures KeptUpTo(g, r, thr, kept, look, n + 1) ==
              if Removes(g, r, thr, kept, look, n) then KeptUpTo(g, r, thr, kept, look, n)[n := false]
              else KeptUpTo(g, r, thr, kept, look, n)
  {
  }

  lemma KeptRest(g: Grammar, r: nat, thr: seq<nat>, kept: seq<bool>, look: set<nat>, n: nat)
    requires r < |g.prods| && n <= |kept|
    requires forall k :: n <= k < |kept| ==> !Hit(g, thr, kept, look, k)
    ensures KeptUpTo(g, r, thr, kept, look, n) == KeptAfter(g, r, thr, kept, look)
  {
  }

  lemma AlookStep(g: Grammar, r: nat, thr: seq<nat>, kept: seq<bool>, look: set<nat>, k: nat, alook: set<nat>)
    requires ThroughsOk(g, thr) && r < |g.prods| && k < |thr|
    requires alook == look - Cleared(g, r, thr, kept, look, k)
    ensures (thr[k] in alook <==> thr[k] in look)
    ensures (if Clears(g, r, thr, kept, look, k) then alook - {thr[k]} else alook) == look - Cleared(g, r, thr, kept, look, k + 1)
  {
    SetsStep(g, r, thr, kept, look, k);
  }

  lemma ErrsStep(g: Grammar, r: nat, thr: seq<nat>, kept: seq<bool>, look: set<nat>, k: nat, errs: seq<Reduce>)
    requires ThroughsOk(g, thr) && r < |g.prods| && k < |thr|
    requires Syms(errs) == Errored(g, r, thr, kept, look, k)
    ensures Syms(if Errs(g, r, thr, kept, look, k) then errs + [Reduce(thr[k], -1)] else errs) == Errored(g, r, thr, kept, look, k + 1)
  {
    SetsStep(g, r, thr, kept, look, k);
    if Errs(g, r, thr, kept, look, k) {
      SymsAppend(errs, [Reduce(thr[k], -1)]);
      SymsOne(Reduce(thr[k], -1));
    }
  }

  lemma TiedStep(g: Grammar, r: nat, thr: seq<nat>, kept: seq<bool>, look: set<nat>, k: nat, srerr: nat)
    requires ThroughsOk(g, thr) && r < |g.prods| && k < |thr|
    requires srerr == |Tied(g, r, thr, kept, look, k)|
    ensures (if Ties(g, r, thr, kept, look, k) then srerr + 1 else srerr) == |Tied(g, r, thr, kept, look, k + 1)|
  {
    SetsStep(g, r, thr, kept, look, k);
  }

  /** Error entries: ascending symbols below `bound`, all with rule number -1. */
  ghost predicate ErrEntries(errs: seq<Reduce>, bound: int)
  {
    && (forall i :: 0 <= i < |errs| ==> errs[i].number == -1 && errs[i].sym < bound)
    && (forall i, j :: 0 <= i < j < |errs| ==> errs[i].sym < errs[j].sym)
  }

  lemma ErrEntriesStep(errs: seq<Reduce>, x: nat, add: bool, bound: int)
    requires ErrEntries(errs, x) && x < bound
    ensures ErrEntries(if add then errs + [Reduce(x, -1)] else errs, bound)
  {
  }

  /** Conflicts put in front keep the older ones as the suffix. */
  lemma PrependKeeps(front: seq<Conflict>, c: seq<Conflict>, n: nat, tail: seq<Conflict>)
    requires n <= |c| && c[n..] == tail
    ensures (front + c)[|front| + n..] == tail
  {
    assert (front + c)[|front| + n..] == c[n..];
  }

  /** Two suffix steps make one. */
  lemma SuffixChain(c2: seq<Conflict>, c1: seq<Conflict>, c0: seq<Conflict>, a: nat, b: nat)
    requires b <= |c2| && c2[b..] == c1 && a <= |c1| && c1[a..] == c0
    ensures c2[b + a..] == c0
  {
  }

  lemma PrefixSplit(s: seq<Reduce>, p: seq<Reduce>)
    requires |s| >= |p| && s[..|p|] == p
    ensures s == p + s[|p|..]
  {
  }

  /** The shift/reduce conflicts the loop records over the first `n` transitions, newest first. */
  function SrConfs(g: Grammar, r: nat, shifts: seq<nat>, thr: seq<nat>, kept: seq<bool>, look: set<nat>, n: nat): seq<Conflict>
    requires r < |g.prods| && n <= |shifts|
  {
    if n == 0 then []
    else (if Ties(g, r, thr, kept, look, n - 1) then [ShiftReduce(shifts[n - 1], r, thr[n - 1])] else [])
         + SrConfs(g, r, shifts, thr, kept, look, n - 1)
  }

  /** A recorded shift/reduce conflict names a tied transition's target, the rule and the transition's symbol. */
  lemma {:induction false} SrConfsMember(g: Grammar, r: nat, shifts: seq<nat>, thr: seq<nat>, kept: seq<bool>, look: set<nat>,
                                         n: nat, c: Conflict)
    requires r < |g.prods| && n <= |shifts|
    ensures c in SrConfs(g, r, shifts, thr, kept, look, n) <==>
              exists k :: 0 <= k < n && Ties(g, r, thr, kept, look, k) && c == ShiftReduce(shifts[k], r, thr[k])
    decreases n
  {
    if n > 0 {
      SrConfsMember(g, r, shifts, thr, kept, look, n - 1, c);
    }
  }

  /** The conflicts after one more transition: its conflict, if it ties, in front. */
  lemma SrConfsStep(g: Grammar, r: nat, shifts: seq<nat>, thr: seq<nat>, kept: seq<bool>, look: set<nat>, k: nat,
                    conf: seq<Conflict>, conf0: seq<Conflict>, conf1: seq<Conflict>)
    requires r < |g.prods| && k < |shifts|
    requires conf0 == SrConfs(g, r, shifts, thr, kept, look, k) + conf
    requires conf1 == (if Ties(g, r, thr, kept, look, k) then [ShiftReduce(shifts[k], r, thr[k])] else []) + conf0
    ensures conf1 == SrConfs(g, r, shifts, thr, kept, look, k + 1) + conf
  {
  }

  /** What the conflicts in front amount to, once the loop is done. */
  lemma SrConfsFront(g: Grammar, r: nat, shifts: seq<nat>, thr: seq<nat>, kept: seq<bool>, look: set<nat>,
                     conf: seq<Conflict>, conf': seq<Conflict>, srerr: nat)
    requires r < |g.prods| && |thr| <= |shifts|
    requires |conf'| == |conf| + srerr && conf' == SrConfs(g, r, shifts, thr, kept, look, |thr|) + conf
    ensures forall c :: c in conf'[..srerr] <==>
              exists k :: 0 <= k < |thr| && Ties(g, r, thr, kept, look, k) && c == ShiftReduce(shifts[k], r, thr[k])
  {
    assert conf'[..srerr] == SrConfs(g, r, shifts, thr, kept, look, |thr|);
    forall c
      ensures c in conf'[..srerr] <==>
              exists k :: 0 <= k < |thr| && Ties(g, r, thr, kept, look, k) && c == ShiftReduce(shifts[k], r, thr[k])
    {
      SrConfsMember(g, r, shifts, thr, kept, look, |thr|, c);
    }
  }

  /** Transitions that are not hit record nothing. */
  lemma {:induction false} SrConfsRest(g: Grammar, r: nat, shifts: seq<nat>, thr: seq<nat>, kept: seq<bool>, look: set<nat>,
                                       n: nat, m: nat)
    requires r < |g.prods| && n <= m <= |shifts|
    requires forall k :: n <= k < m ==> !Hit(g, thr, kept, look, k)
    ensures SrConfs(g, r, shifts, thr, kept, look, m) == SrConfs(g, r, shifts, thr, kept, look, n)
    decreases m
  {
    if m > n {
      SrConfsRest(g, r, shifts, thr, kept, look, n, m - 1);
    }
  }

  /** One transition of the shift/reduce loop: the branches on the comparison result. */
  method ResolveOne(g: Grammar, shifts: seq<nat>, thr: seq<nat>, kept: seq<bool>, r: nat, look: set<nat>, k: nat,
                    kept': seq<bool>, alook: set<nat>, tmpr: seq<Reduce>, conf: seq<Conflict>, srerr: nat)
    returns (kept'': seq<bool>, alook': set<nat>, tmpr': seq<Reduce>, conf': seq<Conflict>, srerr': nat)
    requires ThroughsOk(g, thr) && r < |g.prods| && |shifts| == |thr| == |kept| == |kept'| && k < |thr|
    requires kept'[k] == kept[k] && (thr[k] in alook <==> thr[k] in look)
    requires kept'[k] ==> g.symbols[thr[k]].terminal
    ensures kept'' == if Removes(g, r, thr, kept, look, k) then kept'[k := false] else kept'
    ensures alook' == if Clears(g, r, thr, kept, look, k) then alook - {thr[k]} else alook
    ensures tmpr' == if Errs(g, r, thr, kept, look, k) then tmpr + [Reduce(thr[k], -1)] else tmpr
    ensures conf' == (if Ties(g, r, thr, kept, look, k) then [ShiftReduce(shifts[k], r, thr[k])] else []) + conf
    ensures srerr' == if Ties(g, r, thr, kept, look, k) then srerr + 1 else srerr
  {
    kept'', alook', tmpr', conf', srerr' := kept', alook, tmpr, conf, srerr;
    if kept'[k] {
      var e := thr[k];
      if e in alook {
        var rel := ComparePrecedence(g.prods[r], g.symbols[e]);
        if rel == NON_ASSOC {
          alook' := alook - {e};
          kept'' := kept'[k := false];
          tmpr' := tmpr + [Reduce(e, -1)];
        } else if rel < 0 {
          kept'' := kept'[k := false];
        } else if rel > 0 {
          alook' := alook - {e};
        } else {
          alook' := alook - {e};
          srerr' := srerr + 1;
          conf' := [ShiftReduce(shifts[k], r, e)] + conf;
        }
      }
    }
  }

  /**
   * The shift/reduce loop of `fillReduce` for a completed item of rule `r`
   * with lookahead set `look`: over the remaining transitions up to the
   * first on a nonterminal, each whose symbol is in the lookahead copy is
   * resolved by `comparePrecedence`. NON_ASSOC clears the bit, removes the
   * transition and adds an error entry; a negative result removes the
   * transition; a positive one clears the bit; zero clears the bit and
   * records a shift/reduce conflict.
   */
  method ResolveShifts(g: Grammar, shifts: seq<nat>, thr: seq<nat>, kept: seq<bool>, r: nat, look: set<nat>,
                       tmpr: seq<Reduce>, conf: seq<Conflict>)
    returns (kept': seq<bool>, alook: set<nat>, tmpr': seq<Reduce>, conf': seq<Conflict>, srerr: nat)
    requires ThroughsOk(g, thr) && r < |g.prods| && |shifts| == |thr| == |kept|
    requires forall k :: 0 <= k < |thr| && !g.symbols[thr[k]].terminal ==> kept[k]
    ensures kept' == KeptAfter(g, r, thr, kept, look)
    ensures alook == look - Cleared(g, r, thr, kept, look, |thr|)
    ensures |tmpr'| >= |tmpr| && tmpr'[..|tmpr|] == tmpr
    ensures Syms(tmpr'[|tmpr|..]) == Errored(g, r, thr, kept, look, |thr|) && SymsDistinct(tmpr'[|tmpr|..])
    ensures forall i :: |tmpr| <= i < |tmpr'| ==> tmpr'[i].number == -1
    ensures |conf'| == |conf| + srerr && conf'[srerr..] == conf
    ensures srerr == |Tied(g, r, thr, kept, look, |thr|)|
    ensures conf' == SrConfs(g, r, shifts, thr, kept, look, |thr|) + conf
    ensures forall c :: c in conf'[..srerr] <==>
              exists k :: 0 <= k < |thr| && Ties(g, r, thr, kept, look, k) && c == ShiftReduce(shifts[k], r, thr[k])
  {
    kept', alook, conf', srerr := kept, look, conf, 0;
    var errs: seq<Reduce> := [];
    var k := 0;
    while k < |thr| && (!kept'[k] || g.symbols[thr[k]].terminal)
      invariant k <= |thr| && kept' == KeptUpTo(g, r, thr, kept, look, k)
      invariant alook == look - Cleared(g, r, thr, kept, look, k)
      invariant Syms(errs) == Errored(g, r, thr, kept, look, k)
      invariant ErrEntries(errs, if k < |thr| then thr[k] else g.N())
      invariant |conf'| == |conf| + srerr && conf'[srerr..] == conf
      invariant srerr == |Tied(g, r, thr, kept, look, k)|
      invariant conf' == SrConfs(g, r, shifts, thr, kept, look, k) + conf
    {
      KeptStep(g, r, thr, kept, look, k);
      AlookStep(g, r, thr, kept, look, k, alook);
      ErrsStep(g, r, thr, kept, look, k, errs);
      TiedStep(g, r, thr, kept, look, k, srerr);
      ErrEntriesStep(errs, thr[k], Errs(g, r, thr, kept, look, k), if k + 1 < |thr| then thr[k + 1] else g.N());
      ghost var conf0, sr0 := conf', srerr;
      kept', alook, errs, conf', srerr := ResolveOne(g, shifts, thr, kept, r, look, k, kept', alook, errs, conf', srerr);
      PrependKeeps(if Ties(g, r, thr, kept, look, k) then [ShiftReduce(shifts[k], r, thr[k])] else [], conf0, sr0, conf);
      SrConfsStep(g, r, shifts, thr, kept, look, k, conf, conf0, conf');
      k := k + 1;
    }
    SetsRest(g, r, thr, kept, look, k);
    KeptRest(g, r, thr, kept, look, k);
    SrConfsRest(g, r, shifts, thr, kept, look, k, |thr|);
    SrConfsFront(g, r, shifts, thr, kept, look, conf, conf', srerr);
    tmpr' := tmpr + errs;
    assert tmpr'[|tmpr|..] == errs;
  }

  /** How the reduce/reduce loop leaves an entry: the lower rule number wins a shared symbol. */
  function RrEntry(rd: Reduce, r: nat, alook: set<nat>): Reduce
  {
    if rd.sym in alook && r < rd.number then Reduce(rd.sym, r) else rd
  }

  /** The conflicts the reduce/reduce loop records over the first `n` entries, newest first. */
  function RrConfs(tmpr: seq<Reduce>, r: nat, alook: set<nat>, n: nat): seq<Conflict>
    requires n <= |tmpr|
  {
    if n == 0 then []
    else (if tmpr[n - 1].sym in alook then [ReduceReduce(tmpr[n - 1].number, r, tmpr[n - 1].sym)] else [])
         + RrConfs(tmpr, r, alook, n - 1)
  }

  /** One conflict per collected entry whose symbol is in the lookahead copy. */
  lemma {:induction false} RrConfsCount(tmpr: seq<Reduce>, r: nat, alook: set<nat>, n: nat)
    requires SymsDistinct(tmpr) && n <= |tmpr|
    ensures |RrConfs(tmpr, r, alook, n)| == |alook * Syms(tmpr[..n])|
  {
    if n > 0 {
      var x := tmpr[n - 1].sym;
      RrConfsCount(tmpr, r, alook, n - 1);
      SymsPrefixStep(tmpr, n - 1);
      MeetStep(alook, Syms(tmpr[..n - 1]), x);
      assert |RrConfs(tmpr, r, alook, n)| == |RrConfs(tmpr, r, alook, n - 1)| + if x in alook then 1 else 0;
    } else {
      assert tmpr[..0] == [];
    }
  }

  /** Every conflict pairs rule `r` with an entry whose symbol is in the lookahead copy. */
  lemma {:induction false} RrConfsFrom(tmpr: seq<Reduce>, r: nat, alook: set<nat>, n: nat)
    requires n <= |tmpr|
    ensures forall c :: c in RrConfs(tmpr, r, alook, n) ==>
              exists i :: 0 <= i < n && tmpr[i].sym in alook && c == ReduceReduce(tmpr[i].number, r, tmpr[i].sym)
  {
    if n > 0 {
      RrConfsFrom(tmpr, r, alook, n - 1);
    }
  }

  /**
   * The reduce/reduce loop of `fillReduce`: every entry already collected
   * whose symbol is still in the lookahead copy is a conflict with rule
   * `r`; the entry keeps the lower rule number and the symbol leaves the
   * copy.
   */
  method ResolveReduces(r: nat, alook: set<nat>, tmpr: seq<Reduce>, conf: seq<Conflict>)
    returns (alook': set<nat>, tmpr': seq<Reduce>, conf': seq<Conflict>, rrerr: nat)
    requires SymsDistinct(tmpr)
    ensures alook' == alook - Syms(tmpr)
    ensures |tmpr'| == |tmpr|
    ensures forall i :: 0 <= i < |tmpr| ==> tmpr'[i].sym == tmpr[i].sym
    ensures forall i :: 0 <= i < |tmpr| && tmpr[i].sym in alook ==> tmpr'[i].number == if r < tmpr[i].number then r else tmpr[i].number
    ensures forall i :: 0 <= i < |tmpr| && tmpr[i].sym !in alook ==> tmpr'[i] == tmpr[i]
    ensures |conf'| == |conf| + rrerr && conf'[rrerr..] == conf
    ensures rrerr == |alook * Syms(tmpr)|
    ensures forall c :: c in conf'[..rrerr] ==>
              exists i :: 0 <= i < |tmpr| && tmpr[i].sym in alook && c == ReduceReduce(tmpr[i].number, r, tmpr[i].sym)
  {
    alook', tmpr', conf', rrerr := alook, tmpr, conf, 0;
    for i := 0 to |tmpr|
      invariant alook' == alook - Syms(tmpr[..i])
      invariant |tmpr'| == |tmpr| && tmpr'[i..] == tmpr[i..]
      invariant forall j :: 0 <= j < i ==> tmpr'[j] == RrEntry(tmpr[j], r, alook)
      invariant conf' == RrConfs(tmpr, r, alook, i) + conf && rrerr == |RrConfs(tmpr, r, alook, i)|
    {
      SymsPrefixStep(tmpr, i);
      var rd := tmpr[i];
      if rd.sym in alook' {
        rrerr := rrerr + 1;
        conf' := [ReduceReduce(rd.number, r, rd.sym)] + conf';
        if r < rd.number {
          tmpr' := tmpr'[i := Reduce(rd.sym, r)];
        }
        alook' := alook' - {rd.sym};
      }
    }
    RrConfsCount(tmpr, r, alook, |tmpr|);
    RrConfsFrom(tmpr, r, alook, |tmpr|);
    assert tmpr[..|tmpr|] == tmpr;
    assert conf'[..rrerr] == RrConfs(tmpr, r, alook, |tmpr|);
  }

  /**
   * The last loop of an item in `fillReduce`: an entry reducing by rule `r`
   * for every symbol left in the lookahead copy, in ascending code order.
   */
  method AddRemaining(g: Grammar, r: nat, alook: set<nat>, tmpr: seq<Reduce>) returns (tmpr': seq<Reduce>)
    requires forall e :: e in alook ==> e < g.N()
    ensures |tmpr'| >= |tmpr| && tmpr'[..|tmpr|] == tmpr
    ensures Syms(tmpr'[|tmpr|..]) == alook
    ensures forall i :: |tmpr| <= i < |tmpr'| ==> tmpr'[i].number == r
    ensures forall i, j :: |tmpr| <= i < j < |tmpr'| ==> tmpr'[i].sym < tmpr'[j].sym
  {
    var added: seq<Reduce> := [];
    for e := 0 to g.N()
      invariant Syms(added) == set x | x in alook && x < e
      invariant forall i :: 0 <= i < |added| ==> added[i].number == r && added[i].sym < e
      invariant forall i, j :: 0 <= i < j < |added| ==> added[i].sym < added[j].sym
    {
      if e in alook {
        SymsAppend(added, [Reduce(e, r)]);
        SymsOne(Reduce(e, r));
        added := added + [Reduce(e, r)];
      }
    }
    tmpr' := tmpr + added;
    assert tmpr'[|tmpr|..] == added;
  }

  /*
   * What the item loop of `fillReduce` keeps, over the first `n` items of a
   * state, the transitions still kept and the entries `tmpr` collected.
   */

  /** The items of a state as the reduce stage reads them: valid, with lookaheads of symbol codes. */
  ghost predicate ItemsOk(g: Grammar, items: seq<Lr1>)
  {
    forall j :: 0 <= j < |items| ==> ValidItem(g, items[j].item) && forall e :: e in items[j].look ==> e < g.N()
  }

  /** Item `j` is a completed item: its rule is reduced in the state. */
  ghost predicate TailAt(g: Grammar, items: seq<Lr1>, j: int)
  {
    0 <= j < |items| && ValidItem(g, items[j].item) && IsTail(g, items[j].item)
  }

  /** The symbols of the transitions still kept. */
  function KeptSyms(thr: seq<nat>, kept: seq<bool>): set<nat>
  {
    set k | 0 <= k < |thr| && k < |kept| && kept[k] :: thr[k]
  }

  /** Transitions on nonterminals are never removed. */
  ghost predicate NonterminalsKept(g: Grammar, thr: seq<nat>, kept: seq<bool>)
    requires ThroughsOk(g, thr) && |kept| == |thr|
  {
    forall k :: 0 <= k < |thr| && !g.symbols[thr[k]].terminal ==> kept[k]
  }

  /** No symbol of a kept transition on a terminal is among `syms`. */
  ghost predicate ShiftsNotReduced(g: Grammar, thr: seq<nat>, kept: seq<bool>, syms: set<nat>)
    requires ThroughsOk(g, thr) && |kept| == |thr|
  {
    forall k :: 0 <= k < |thr| && kept[k] && g.symbols[thr[k]].terminal ==> thr[k] !in syms
  }

  /** Every lookahead symbol of a completed item among the first `n` is shifted or has an entry. */
  ghost predicate LooksCovered(g: Grammar, thr: seq<nat>, items: seq<Lr1>, n: nat, kept: seq<bool>, syms: set<nat>)
  {
    forall j, e :: 0 <= j < n && TailAt(g, items, j) && e in items[j].look ==> e in syms || e in KeptSyms(thr, kept)
  }

  /**
   * An entry reduces by the rule of a completed item among the first `n`
   * whose lookahead holds its symbol, or is an error entry that such an
   * item's non-associative comparison put there.
   */
  ghost predicate EntrySound(g: Grammar, items: seq<Lr1>, n: nat, rd: Reduce)
  {
    && (rd.number >= 0 ==>
          exists j :: 0 <= j < n && TailAt(g, items, j) && items[j].item.rule == rd.number && rd.sym in items[j].look)
    && (rd.number < 0 ==>
          && rd.number == -1 && rd.sym < g.N()
          && exists j :: 0 <= j < n && TailAt(g, items, j) && rd.sym in items[j].look &&
                         Rel(g, items[j].item.rule, rd.sym) == ErrorEntry)
  }

  ghost predicate EntriesSound(g: Grammar, items: seq<Lr1>, n: nat, tmpr: seq<Reduce>)
  {
    forall i :: 0 <= i < |tmpr| ==> EntrySound(g, items, n, tmpr[i])
  }

  /** A completed item among the first `n` reduces on transition `k`'s symbol and wins or makes it an error. */
  ghost predicate Beaten(g: Grammar, thr: seq<nat>, items: seq<Lr1>, n: nat, k: nat)
    requires ThroughsOk(g, thr) && k < |thr|
  {
    exists j :: 0 <= j < n && TailAt(g, items, j) && thr[k] in items[j].look &&
                (Rel(g, items[j].item.rule, thr[k]) == ErrorEntry || Rel(g, items[j].item.rule, thr[k]) == ReduceWins)
  }

  /** Every removed transition was beaten. */
  ghost predicate RemovedBeaten(g: Grammar, thr: seq<nat>, items: seq<Lr1>, n: nat, kept: seq<bool>)
    requires ThroughsOk(g, thr) && |kept| == |thr|
  {
    forall k :: 0 <= k < |thr| && !kept[k] ==> Beaten(g, thr, items, n, k)
  }

  /** A kept transition on a terminal wins or ties against every completed item reducing on its symbol. */
  ghost predicate KeptWins(g: Grammar, thr: seq<nat>, items: seq<Lr1>, n: nat, kept: seq<bool>)
    requires ThroughsOk(g, thr) && |kept| == |thr|
  {
    forall k, j :: 0 <= k < |thr| && kept[k] && g.symbols[thr[k]].terminal && 0 <= j < n && TailAt(g, items, j) &&
                   thr[k] in items[j].look ==>
                   Rel(g, items[j].item.rule, thr[k]) == ShiftWins || Rel(g, items[j].item.rule, thr[k]) == Unresolved
  }

  ghost predicate TableOk(g: Grammar, thr: seq<nat>, items: seq<Lr1>, n: nat, kept: seq<bool>, tmpr: seq<Reduce>)
  {
    && ThroughsOk(g, thr) && |kept| == |thr| && ItemsOk(g, items) && n <= |items|
    && NonterminalsKept(g, thr, kept)
    && ShiftsNotReduced(g, thr, kept, Syms(tmpr))
    && SymsDistinct(tmpr)
    && LooksCovered(g, thr, items, n, kept, Syms(tmpr))
    && EntriesSound(g, items, n, tmpr)
    && RemovedBeaten(g, thr, items, n, kept)
    && KeptWins(g, thr, items, n, kept)
  }

  /**
   * Completed item `j` meets transition `k`, on a terminal of its lookahead
   * set that no earlier completed item took away, and the precedences leave
   * the choice open: a shift/reduce conflict.
   */
  ghost predicate TieAt(g: Grammar, thr: seq<nat>, items: seq<Lr1>, j: nat, k: nat)
    requires ThroughsOk(g, thr) && k < |thr|
  {
    && TailAt(g, items, j) && g.symbols[thr[k]].terminal && thr[k] in items[j].look
    && Rel(g, items[j].item.rule, thr[k]) == Unresolved && !Beaten(g, thr, items, j, k)
  }

  /** The shift/reduce conflicts among `confs` are exactly those of the completed items among the first `n`. */
  ghost predicate SrRecorded(g: Grammar, shifts: seq<nat>, thr: seq<nat>, items: seq<Lr1>, n: nat, confs: seq<Conflict>)
    requires ThroughsOk(g, thr) && |shifts| == |thr|
  {
    forall c :: c in confs && c.ShiftReduce? <==>
      exists j, k :: 0 <= j < n && 0 <= k < |thr| && TieAt(g, thr, items, j, k) &&
                     c == ShiftReduce(shifts[k], items[j].item.rule, thr[k])
  }

  /**
   * A reduce/reduce conflict of completed item `j`: its rule against an
   * entry that the items before `j` account for, on a symbol of `j`'s
   * lookahead set.
   */
  ghost predicate RrAt(g: Grammar, items: seq<Lr1>, j: nat, c: Conflict)
  {
    && c.ReduceReduce? && TailAt(g, items, j) && items[j].item.rule == c.rule2 && c.sym in items[j].look
    && EntrySound(g, items, j, Reduce(c.sym, c.rule1))
  }

  /** Every reduce/reduce conflict among `confs` belongs to a completed item among the first `n`. */
  ghost predicate RrRecorded(g: Grammar, items: seq<Lr1>, n: nat, confs: seq<Conflict>)
  {
    forall c :: c in confs && c.ReduceReduce? ==> exists j :: 0 <= j < n && RrAt(g, items, j, c)
  }

  /** While item `n` runs, a transition is still there exactly when no earlier completed item beat it. */
  lemma TiesIff(g: Grammar, thr: seq<nat>, items: seq<Lr1>, n: nat, kept: seq<bool>, tmpr: seq<Reduce>, k: nat)
    requires TableOk(g, thr, items, n, kept, tmpr) && TailAt(g, items, n) && k < |thr|
    ensures Ties(g, items[n].item.rule, thr, kept, items[n].look, k) <==> TieAt(g, thr, items, n, k)
  {
    var r, look := items[n].item.rule, items[n].look;
    if g.symbols[thr[k]].terminal && thr[k] in look && Rel(g, r, thr[k]) == Unresolved {
      if kept[k] {
        assert KeptWins(g, thr, items, n, kept);
      } else {
        assert RemovedBeaten(g, thr, items, n, kept);
      }
    }
  }

  /**
   * The conflicts one completed item adds: its shift/reduce conflicts,
   * exactly, and reduce/reduce conflicts of its own.
   */
  lemma ItemConflicts(g: Grammar, shifts: seq<nat>, thr: seq<nat>, items: seq<Lr1>, n: nat, kept: seq<bool>,
                      tmpr: seq<Reduce>, conf: seq<Conflict>, conf1: seq<Conflict>, conf': seq<Conflict>, rrerr: nat,
                      tmpr1: seq<Reduce>, alook1: set<nat>)
    requires TableOk(g, thr, items, n, kept, tmpr) && TailAt(g, items, n) && |shifts| == |thr|
    requires conf1 == SrConfs(g, items[n].item.rule, shifts, thr, kept, items[n].look, |thr|) + conf
    requires alook1 == items[n].look - Cleared(g, items[n].item.rule, thr, kept, items[n].look, |thr|)
    requires |tmpr1| >= |tmpr| && tmpr1[..|tmpr|] == tmpr
    requires Syms(tmpr1[|tmpr|..]) == Errored(g, items[n].item.rule, thr, kept, items[n].look, |thr|)
    requires |conf'| == |conf1| + rrerr && conf'[rrerr..] == conf1
    requires forall c :: c in conf'[..rrerr] ==>
               exists i :: 0 <= i < |tmpr1| && tmpr1[i].sym in alook1 &&
                           c == ReduceReduce(tmpr1[i].number, items[n].item.rule, tmpr1[i].sym)
    ensures forall c :: c in conf' && c.ShiftReduce? <==>
              (c in conf && c.ShiftReduce?) ||
              exists k :: 0 <= k < |thr| && TieAt(g, thr, items, n, k) && c == ShiftReduce(shifts[k], items[n].item.rule, thr[k])
    ensures forall c :: c in conf' && c.ReduceReduce? ==> c in conf || RrAt(g, items, n, c)
  {
    var r, look := items[n].item.rule, items[n].look;
    var sr := SrConfs(g, r, shifts, thr, kept, look, |thr|);
    assert conf' == conf'[..rrerr] + sr + conf;
    forall i | |tmpr| <= i < |tmpr1|
      ensures tmpr1[i].sym !in alook1
    {
      assert tmpr1[|tmpr|..][i - |tmpr|] == tmpr1[i];
      assert tmpr1[i].sym in Errored(g, r, thr, kept, look, |thr|);
    }
    forall c | c in conf'[..rrerr]
      ensures RrAt(g, items, n, c)
    {
      var i :| 0 <= i < |tmpr1| && tmpr1[i].sym in alook1 && c == ReduceReduce(tmpr1[i].number, r, tmpr1[i].sym);
      assert tmpr1[i] == tmpr[i];
      assert EntriesSound(g, items, n, tmpr);
    }
    forall c
      ensures c in sr <==> exists k :: 0 <= k < |thr| && TieAt(g, thr, items, n, k) && c == ShiftReduce(shifts[k], r, thr[k])
    {
      SrConfsMember(g, r, shifts, thr, kept, look, |thr|, c);
      forall k | 0 <= k < |thr|
        ensures Ties(g, r, thr, kept, look, k) <==> TieAt(g, thr, items, n, k)
      {
        TiesIff(g, thr, items, n, kept, tmpr, k);
      }
    }
  }

  /** One more item keeps the conflicts recorded exactly (shift/reduce) and soundly (reduce/reduce). */
  lemma RecordedStep(g: Grammar, shifts: seq<nat>, thr: seq<nat>, items: seq<Lr1>, n: nat, conf: seq<Conflict>, conf': seq<Conflict>)
    requires ThroughsOk(g, thr) && |shifts| == |thr|
    requires SrRecorded(g, shifts, thr, items, n, conf) && RrRecorded(g, items, n, conf)
    requires forall c :: c in conf' && c.ShiftReduce? <==>
               (c in conf && c.ShiftReduce?) ||
               exists k :: 0 <= k < |thr| && TieAt(g, thr, items, n, k) && c == ShiftReduce(shifts[k], items[n].item.rule, thr[k])
    requires forall c :: c in conf' && c.ReduceReduce? ==> c in conf || RrAt(g, items, n, c)
    ensures SrRecorded(g, shifts, thr, items, n + 1, conf') && RrRecorded(g, items, n + 1, conf')
  {
  }

  /**
   * The set-level view of one completed item's pass, rule `r` and lookahead
   * set `look`: `syms0` the symbols with an entry before it, `syms1` those
   * after the shift/reduce loop, `alook2` what the reduce/reduce loop
   * leaves of the lookahead copy and `syms3` the symbols after the item.
   */
  ghost predicate ItemPass(g: Grammar, thr: seq<nat>, kept: seq<bool>, r: nat, look: set<nat>,
                           kept': seq<bool>, syms0: set<nat>, syms1: set<nat>, alook2: set<nat>, syms3: set<nat>)
    requires r < |g.prods|
  {
    && kept' == KeptAfter(g, r, thr, kept, look)
    && syms1 == syms0 + Errored(g, r, thr, kept, look, |thr|)
    && alook2 == look - Cleared(g, r, thr, kept, look, |thr|) - syms1
    && syms3 == syms1 + alook2
  }

  lemma StepShiftsNotReduced(g: Grammar, thr: seq<nat>, kept: seq<bool>, r: nat, look: set<nat>,
                             kept': seq<bool>, syms0: set<nat>, syms1: set<nat>, alook2: set<nat>, syms3: set<nat>)
    requires ThroughsOk(g, thr) && |kept| == |thr| && r < |g.prods|
    requires ItemPass(g, thr, kept, r, look, kept', syms0, syms1, alook2, syms3)
    requires ShiftsNotReduced(g, thr, kept, syms0)
    ensures ShiftsNotReduced(g, thr, kept', syms3)
  {
    forall k | 0 <= k < |thr| && kept'[k] && g.symbols[thr[k]].terminal
      ensures thr[k] !in syms3
    {
      if thr[k] in look {
        assert Clears(g, r, thr, kept, look, k);
      }
    }
  }

  lemma StepLooksCovered(g: Grammar, thr: seq<nat>, items: seq<Lr1>, n: nat, kept: seq<bool>,
                         kept': seq<bool>, syms0: set<nat>, syms1: set<nat>, alook2: set<nat>, syms3: set<nat>)
    requires ThroughsOk(g, thr) && |kept| == |thr| && ItemsOk(g, items) && TailAt(g, items, n)
    requires ItemPass(g, thr, kept, items[n].item.rule, items[n].look, kept', syms0, syms1, alook2, syms3)
    requires LooksCovered(g, thr, items, n, kept, syms0)
    ensures LooksCovered(g, thr, items, n + 1, kept', syms3)
  {
    var r, look := items[n].item.rule, items[n].look;
    forall j, e | 0 <= j < n + 1 && TailAt(g, items, j) && e in items[j].look
      ensures e in syms3 || e in KeptSyms(thr, kept')
    {
      if e in look && e in Cleared(g, r, thr, kept, look, |thr|) {
        var k :| 0 <= k < |thr| && Clears(g, r, thr, kept, look, k) && thr[k] == e;
        if !Removes(g, r, thr, kept, look, k) {
          assert kept'[k];
        }
      } else if e in look {
      } else if e !in syms0 {
        assert j < n;
        var k :| 0 <= k < |thr| && k < |kept| && kept[k] && thr[k] == e;
        assert kept'[k];
      }
    }
  }

  lemma DistinctAppend(a: seq<Reduce>, b: seq<Reduce>)
    requires SymsDistinct(a) && SymsDistinct(b) && Syms(a) !! Syms(b)
    ensures SymsDistinct(a + b)
  {
    var c := a + b;
    forall i, j | 0 <= i < j < |c|
      ensures c[i].sym != c[j].sym
    {
      if j < |a| {
        assert c[i] == a[i] && c[j] == a[j];
      } else if i >= |a| {
        assert c[i] == b[i - |a|] && c[j] == b[j - |a|];
      } else {
        assert c[i] == a[i] && c[j] == b[j - |a|];
        assert a[i].sym in Syms(a) && b[j - |a|].sym in Syms(b);
      }
    }
  }

  lemma SymsSame(a: seq<Reduce>, b: seq<Reduce>)
    requires |a| == |b| && forall i :: 0 <= i < |a| ==> a[i].sym == b[i].sym
    ensures Syms(a) == Syms(b) && (SymsDistinct(a) ==> SymsDistinct(b))
  {
    forall x | x in Syms(b)
      ensures x in Syms(a)
    {
      var i :| 0 <= i < |b| && b[i].sym == x;
      assert a[i].sym == x;
    }
  }

  /** The new error entries are on kept terminal transitions, which have no entry yet. */
  lemma ErroredFresh(g: Grammar, thr: seq<nat>, kept: seq<bool>, r: nat, look: set<nat>, syms0: set<nat>)
    requires ThroughsOk(g, thr) && |kept| == |thr| && r < |g.prods|
    requires ShiftsNotReduced(g, thr, kept, syms0)
    ensures Errored(g, r, thr, kept, look, |thr|) !! syms0
  {
  }

  lemma EntriesAppend(g: Grammar, items: seq<Lr1>, n: nat, a: seq<Reduce>, b: seq<Reduce>)
    requires EntriesSound(g, items, n, a) && EntriesSound(g, items, n, b)
    ensures EntriesSound(g, items, n, a + b)
  {
    var c := a + b;
    forall i | 0 <= i < |c|
      ensures EntrySound(g, items, n, c[i])
    {
      if i >= |a| {
        assert c[i] == b[i - |a|];
      }
    }
  }

  lemma EntriesGrow(g: Grammar, items: seq<Lr1>, n: nat, tmpr: seq<Reduce>)
    requires EntriesSound(g, items, n, tmpr)
    ensures EntriesSound(g, items, n + 1, tmpr)
  {
    forall i | 0 <= i < |tmpr|
      ensures EntrySound(g, items, n + 1, tmpr[i])
    {
      assert EntrySound(g, items, n, tmpr[i]);
    }
  }

  /** The error entries of item `n` are sound with item `n` as witness. */
  lemma ErrsSound(g: Grammar, thr: seq<nat>, kept: seq<bool>, items: seq<Lr1>, n: nat, errs: seq<Reduce>)
    requires ThroughsOk(g, thr) && |kept| == |thr| && TailAt(g, items, n)
    requires Syms(errs) == Errored(g, items[n].item.rule, thr, kept, items[n].look, |thr|)
    requires forall i :: 0 <= i < |errs| ==> errs[i].number == -1
    ensures EntriesSound(g, items, n + 1, errs)
  {
    var r, look := items[n].item.rule, items[n].look;
    forall i | 0 <= i < |errs|
      ensures EntrySound(g, items, n + 1, errs[i])
    {
      assert errs[i].sym in Syms(errs);
      var k :| 0 <= k < |thr| && Errs(g, r, thr, kept, look, k) && thr[k] == errs[i].sym;
      assert TailAt(g, items, n) && errs[i].sym in items[n].look;
    }
  }

  /** Entries the reduce/reduce loop of item `n` lowered to its rule are sound with item `n` as witness. */
  lemma RrSound(g: Grammar, items: seq<Lr1>, n: nat, alook: set<nat>, a: seq<Reduce>, b: seq<Reduce>)
    requires TailAt(g, items, n) && alook <= items[n].look
    requires EntriesSound(g, items, n + 1, a) && |a| == |b|
    requires forall i :: 0 <= i < |a| ==> b[i] == a[i] || (b[i] == Reduce(a[i].sym, items[n].item.rule) && a[i].sym in alook)
    ensures EntriesSound(g, items, n + 1, b)
  {
    forall i | 0 <= i < |b|
      ensures EntrySound(g, items, n + 1, b[i])
    {
      if b[i] != a[i] {
        assert items[n].item.rule == b[i].number && b[i].sym in items[n].look;
      } else {
        assert EntrySound(g, items, n + 1, a[i]);
      }
    }
  }

  /** The entries item `n` adds for its remaining lookahead symbols are sound with item `n` as witness. */
  lemma AddsSound(g: Grammar, items: seq<Lr1>, n: nat, alook: set<nat>, adds: seq<Reduce>)
    requires TailAt(g, items, n) && alook <= items[n].look
    requires Syms(adds) == alook && forall i :: 0 <= i < |adds| ==> adds[i].number == items[n].item.rule
    ensures EntriesSound(g, items, n + 1, adds)
  {
    forall i | 0 <= i < |adds|
      ensures EntrySound(g, items, n + 1, adds[i])
    {
      assert adds[i].sym in Syms(adds);
      assert items[n].item.rule == adds[i].number && adds[i].sym in items[n].look;
    }
  }

  lemma StepRemovedBeaten(g: Grammar, thr: seq<nat>, items: seq<Lr1>, n: nat, kept: seq<bool>, kept': seq<bool>)
    requires ThroughsOk(g, thr) && |kept| == |thr| && TailAt(g, items, n)
    requires kept' == KeptAfter(g, items[n].item.rule, thr, kept, items[n].look)
    requires RemovedBeaten(g, thr, items, n, kept)
    ensures RemovedBeaten(g, thr, items, n + 1, kept')
  {
    forall k | 0 <= k < |thr| && !kept'[k]
      ensures Beaten(g, thr, items, n + 1, k)
    {
      if kept[k] {
        assert TailAt(g, items, n) && thr[k] in items[n].look;
      } else {
        assert Beaten(g, thr, items, n, k);
      }
    }
  }

  lemma StepKeptWins(g: Grammar, thr: seq<nat>, items: seq<Lr1>, n: nat, kept: seq<bool>, kept': seq<bool>)
    requires ThroughsOk(g, thr) && |kept| == |thr| && TailAt(g, items, n)
    requires kept' == KeptAfter(g, items[n].item.rule, thr, kept, items[n].look)
    requires KeptWins(g, thr, items, n, kept)
    ensures KeptWins(g, thr, items, n + 1, kept')
  {
    forall k, j | 0 <= k < |thr| && kept'[k] && g.symbols[thr[k]].terminal && 0 <= j < n + 1 && TailAt(g, items, j) &&
                  thr[k] in items[j].look
      ensures Rel(g, items[j].item.rule, thr[k]) == ShiftWins || Rel(g, items[j].item.rule, thr[k]) == Unresolved
    {
      if j == n {
        assert Hit(g, thr, kept, items[n].look, k);
      }
    }
  }

  /** An item that is not completed changes nothing. */
  lemma TableSkip(g: Grammar, thr: seq<nat>, items: seq<Lr1>, n: nat, kept: seq<bool>, tmpr: seq<Reduce>)
    requires TableOk(g, thr, items, n, kept, tmpr) && n < |items| && !TailAt(g, items, n)
    ensures TableOk(g, thr, items, n + 1, kept, tmpr)
  {
    EntriesGrow(g, items, n, tmpr);
    forall k | 0 <= k < |thr| && !kept[k]
      ensures Beaten(g, thr, items, n + 1, k)
    {
      assert Beaten(g, thr, items, n, k);
    }
  }

  /** The entries after the reduce/reduce loop: each unchanged, or taken over by rule `r`. */
  lemma RrForm(r: nat, alook: set<nat>, a: seq<Reduce>, b: seq<Reduce>)
    requires |b| == |a|
    requires forall i :: 0 <= i < |a| ==> b[i].sym == a[i].sym
    requires forall i :: 0 <= i < |a| && a[i].sym in alook ==> b[i].number == if r < a[i].number then r else a[i].number
    requires forall i :: 0 <= i < |a| && a[i].sym !in alook ==> b[i] == a[i]
    ensures forall i :: 0 <= i < |a| ==> b[i] == a[i] || (b[i] == Reduce(a[i].sym, r) && a[i].sym in alook)
  {
  }

  /** One completed item's pass keeps the table invariant, stated on the results of its three loops. */
  lemma ItemStep(g: Grammar, thr: seq<nat>, items: seq<Lr1>, n: nat, kept: seq<bool>, tmpr: seq<Reduce>,
                 kept': seq<bool>, alook1: set<nat>, errs: seq<Reduce>, tmpr1: seq<Reduce>,
                 tmpr2: seq<Reduce>, alook2: set<nat>, adds: seq<Reduce>)
    requires TableOk(g, thr, items, n, kept, tmpr) && TailAt(g, items, n)
    requires kept' == KeptAfter(g, items[n].item.rule, thr, kept, items[n].look)
    requires alook1 == items[n].look - Cleared(g, items[n].item.rule, thr, kept, items[n].look, |thr|)
    requires Syms(errs) == Errored(g, items[n].item.rule, thr, kept, items[n].look, |thr|) && SymsDistinct(errs)
    requires forall i :: 0 <= i < |errs| ==> errs[i].number == -1
    requires tmpr1 == tmpr + errs
    requires alook2 == alook1 - Syms(tmpr1)
    requires |tmpr2| == |tmpr1|
    requires forall i :: 0 <= i < |tmpr1| ==> tmpr2[i].sym == tmpr1[i].sym
    requires forall i :: 0 <= i < |tmpr1| && tmpr1[i].sym in alook1 ==>
               tmpr2[i].number == if items[n].item.rule < tmpr1[i].number then items[n].item.rule else tmpr1[i].number
    requires forall i :: 0 <= i < |tmpr1| && tmpr1[i].sym !in alook1 ==> tmpr2[i] == tmpr1[i]
    requires Syms(adds) == alook2 && forall i :: 0 <= i < |adds| ==> adds[i].number == items[n].item.rule
    requires SymsDistinct(adds)
    ensures TableOk(g, thr, items, n + 1, kept', tmpr2 + adds)
  {
    var r, look := items[n].item.rule, items[n].look;
    RrForm(r, alook1, tmpr1, tmpr2);
    ErroredFresh(g, thr, kept, r, look, Syms(tmpr));
    DistinctAppend(tmpr, errs);
    SymsAppend(tmpr, errs);
    SymsSame(tmpr1, tmpr2);
    SymsAppend(tmpr2, adds);
    DistinctAppend(tmpr2, adds);
    var syms3 := Syms(tmpr2 + adds);
    assert ItemPass(g, thr, kept, r, look, kept', Syms(tmpr), Syms(tmpr1), alook2, syms3);
    StepShiftsNotReduced(g, thr, kept, r, look, kept', Syms(tmpr), Syms(tmpr1), alook2, syms3);
    StepLooksCovered(g, thr, items, n, kept, kept', Syms(tmpr), Syms(tmpr1), alook2, syms3);
    StepRemovedBeaten(g, thr, items, n, kept, kept');
    StepKeptWins(g, thr, items, n, kept, kept');
    EntriesGrow(g, items, n, tmpr);
    ErrsSound(g, thr, kept, items, n, errs);
    EntriesAppend(g, items, n + 1, tmpr, errs);
    RrSound(g, items, n, alook1, tmpr1, tmpr2);
    AddsSound(g, items, n, alook2, adds);
    EntriesAppend(g, items, n + 1, tmpr2, adds);
  }

  /** The error entries of the shift/reduce loop are for symbols without an entry yet. */
  lemma ErrsFresh(g: Grammar, thr: seq<nat>, items: seq<Lr1>, n: nat, kept: seq<bool>, tmpr: seq<Reduce>,
                  r: nat, look: set<nat>, tmpr1: seq<Reduce>)
    requires TableOk(g, thr, items, n, kept, tmpr) && r < |g.prods|
    requires |tmpr1| >= |tmpr| && tmpr1[..|tmpr|] == tmpr
    requires Syms(tmpr1[|tmpr|..]) == Errored(g, r, thr, kept, look, |thr|) && SymsDistinct(tmpr1[|tmpr|..])
    ensures SymsDistinct(tmpr1)
  {
    PrefixSplit(tmpr1, tmpr);
    ErroredFresh(g, thr, kept, r, look, Syms(tmpr));
    DistinctAppend(tmpr, tmpr1[|tmpr|..]);
  }

  /** The entries appended after position `p`, taken as a list of their own, keep their rule and their order. */
  lemma SuffixOf(xs: seq<Reduce>, p: nat, v: int)
    requires p <= |xs| && forall i :: p <= i < |xs| ==> xs[i].number == v
    ensures forall i :: 0 <= i < |xs[p..]| ==> xs[p..][i].number == v
    ensures (forall i, j :: p <= i < j < |xs| ==> xs[i].sym < xs[j].sym) ==> SymsDistinct(xs[p..])
  {
    forall i | 0 <= i < |xs[p..]|
      ensures xs[p..][i] == xs[p + i]
    {
    }
  }

  /** `ItemStep` from the results of the three loops as they state them. */
  lemma ItemDone(g: Grammar, thr: seq<nat>, items: seq<Lr1>, n: nat, kept: seq<bool>, tmpr: seq<Reduce>,
                 r: nat, look: set<nat>, kept': seq<bool>, alook1: set<nat>, tmpr1: seq<Reduce>,
                 alook2: set<nat>, tmpr2: seq<Reduce>, tmpr3: seq<Reduce>)
    requires TableOk(g, thr, items, n, kept, tmpr) && TailAt(g, items, n)
    requires r == items[n].item.rule && look == items[n].look
    requires kept' == KeptAfter(g, r, thr, kept, look)
    requires alook1 == look - Cleared(g, r, thr, kept, look, |thr|)
    requires |tmpr1| >= |tmpr| && tmpr1[..|tmpr|] == tmpr
    requires Syms(tmpr1[|tmpr|..]) == Errored(g, r, thr, kept, look, |thr|) && SymsDistinct(tmpr1[|tmpr|..])
    requires forall i :: |tmpr| <= i < |tmpr1| ==> tmpr1[i].number == -1
    requires alook2 == alook1 - Syms(tmpr1)
    requires |tmpr2| == |tmpr1|
    requires forall i :: 0 <= i < |tmpr1| ==> tmpr2[i].sym == tmpr1[i].sym
    requires forall i :: 0 <= i < |tmpr1| && tmpr1[i].sym in alook1 ==> tmpr2[i].number == if r < tmpr1[i].number then r else tmpr1[i].number
    requires forall i :: 0 <= i < |tmpr1| && tmpr1[i].sym !in alook1 ==> tmpr2[i] == tmpr1[i]
    requires |tmpr3| >= |tmpr2| && tmpr3[..|tmpr2|] == tmpr2
    requires Syms(tmpr3[|tmpr2|..]) == alook2
    requires forall i :: |tmpr2| <= i < |tmpr3| ==> tmpr3[i].number == r
    requires forall i, j :: |tmpr2| <= i < j < |tmpr3| ==> tmpr3[i].sym < tmpr3[j].sym
    ensures TableOk(g, thr, items, n + 1, kept', tmpr3)
  {
    var errs, adds := tmpr1[|tmpr|..], tmpr3[|tmpr2|..];
    PrefixSplit(tmpr1, tmpr);
    PrefixSplit(tmpr3, tmpr2);
    SuffixOf(tmpr1, |tmpr|, -1);
    SuffixOf(tmpr3, |tmpr2|, r);
    ItemStep(g, thr, items, n, kept, tmpr, kept', alook1, errs, tmpr1, tmpr2, alook2, adds);
  }

  /** How many of the conflicts are shift/reduce ones. */
  function CountSr(cs: seq<Conflict>): (n: nat)
    ensures n <= |cs|
  {
    if cs == [] then 0 else (if cs[0].ShiftReduce? then 1 else 0) + CountSr(cs[1..])
  }

  /** How many of the conflicts are reduce/reduce ones. */
  function CountRr(cs: seq<Conflict>): (n: nat)
    ensures n <= |cs|
  {
    if cs == [] then 0 else (if cs[0].ReduceReduce? then 1 else 0) + CountRr(cs[1..])
  }

  /** Every conflict is of one kind or the other. */
  lemma {:induction false} CountBoth(cs: seq<Conflict>)
    ensures CountSr(cs) + CountRr(cs) == |cs|
  {
    if cs != [] {
      CountBoth(cs[1..]);
    }
  }

  /** Both counts add up over a concatenation. */
  lemma {:induction false} CountAppend(a: seq<Conflict>, b: seq<Conflict>)
    ensures CountSr(a + b) == CountSr(a) + CountSr(b)
    ensures CountRr(a + b) == CountRr(a) + CountRr(b)
  {
    if a != [] {
      assert (a + b)[1..] == a[1..] + b;
      CountAppend(a[1..], b);
    } else {
      assert a + b == b;
    }
  }

  /** A list of shift/reduce conflicts only is counted in full on that side and not at all on the other. */
  lemma {:induction false} CountAllSr(cs: seq<Conflict>)
    requires forall c :: c in cs ==> c.ShiftReduce?
    ensures CountSr(cs) == |cs| && CountRr(cs) == 0
  {
    if cs != [] {
      assert forall c :: c in cs[1..] ==> c in cs;
      CountAllSr(cs[1..]);
    }
  }

  /** A list of reduce/reduce conflicts only is counted in full on that side and not at all on the other. */
  lemma {:induction false} CountAllRr(cs: seq<Conflict>)
    requires forall c :: c in cs ==> c.ReduceReduce?
    ensures CountRr(cs) == |cs| && CountSr(cs) == 0
  {
    if cs != [] {
      assert forall c :: c in cs[1..] ==> c in cs;
      CountAllRr(cs[1..]);
    }
  }

  /**
   * The conflicts of one completed item: `sr` shift/reduce ones prepended to
   * `conf`, then `rr` reduce/reduce ones prepended to that.
   */
  lemma ItemCounts(conf: seq<Conflict>, conf1: seq<Conflict>, conf2: seq<Conflict>, sr: nat, rr: nat)
    requires |conf1| == |conf| + sr && conf1[sr..] == conf && forall c :: c in conf1[..sr] ==> c.ShiftReduce?
    requires |conf2| == |conf1| + rr && conf2[rr..] == conf1 && forall c :: c in conf2[..rr] ==> c.ReduceReduce?
    ensures forall i :: 0 <= i < rr ==> conf2[i].ReduceReduce?
    ensures forall i :: rr <= i < rr + sr ==> conf2[i].ShiftReduce?
    ensures CountSr(conf2) == CountSr(conf) + sr && CountRr(conf2) == CountRr(conf) + rr
  {
    assert conf1 == conf1[..sr] + conf;
    assert conf2 == conf2[..rr] + conf1;
    CountAllSr(conf1[..sr]);
    CountAllRr(conf2[..rr]);
    CountAppend(conf1[..sr], conf);
    CountAppend(conf2[..rr], conf1);
    forall i | 0 <= i < rr
      ensures conf2[i].ReduceReduce?
    {
      assert conf2[i] in conf2[..rr];
    }
    forall i | rr <= i < rr + sr
      ensures conf2[i].ShiftReduce?
    {
      assert conf2[i] == conf1[i - rr] && conf1[i - rr] in conf1[..sr];
    }
  }

  /**
   * One item of the item loop of `fillReduce`: nothing for an item that is
   * not completed; otherwise the shift/reduce loop, the reduce/reduce loop
   * over the entries collected so far, and an entry for every symbol left.
   */
  method CollectItem(g: Grammar, shifts: seq<nat>, thr: seq<nat>, items: seq<Lr1>, n: nat,
                     kept: seq<bool>, tmpr: seq<Reduce>, conf: seq<Conflict>)
    returns (kept': seq<bool>, tmpr': seq<Reduce>, conf': seq<Conflict>, srerr: nat, rrerr: nat)
    requires TableOk(g, thr, items, n, kept, tmpr) && n < |items| && |shifts| == |thr|
    ensures TableOk(g, thr, items, n + 1, kept', tmpr')
    ensures |conf'| == |conf| + srerr + rrerr && conf'[srerr + rrerr..] == conf
    ensures forall i :: 0 <= i < rrerr ==> conf'[i].ReduceReduce?
    ensures forall i :: rrerr <= i < rrerr + srerr ==> conf'[i].ShiftReduce?
    ensures CountSr(conf') == CountSr(conf) + srerr && CountRr(conf') == CountRr(conf) + rrerr
    ensures forall c :: c in conf' && c.ShiftReduce? <==>
              (c in conf && c.ShiftReduce?) ||
              exists k :: 0 <= k < |thr| && TieAt(g, thr, items, n, k) && c == ShiftReduce(shifts[k], items[n].item.rule, thr[k])
    ensures forall c :: c in conf' && c.ReduceReduce? ==> c in conf || RrAt(g, items, n, c)
  {
    var x := items[n];
    if !IsTail(g, x.item) {
      TableSkip(g, thr, items, n, kept, tmpr);
      return kept, tmpr, conf, 0, 0;
    }
    var r := x.item.rule;
    var alook1, tmpr1, conf1;
    kept', alook1, tmpr1, conf1, srerr := ResolveShifts(g, shifts, thr, kept, r, x.look, tmpr, conf);
    ErrsFresh(g, thr, items, n, kept, tmpr, r, x.look, tmpr1);
    var alook2, tmpr2;
    alook2, tmpr2, conf', rrerr := ResolveReduces(r, alook1, tmpr1, conf1);
    tmpr' := AddRemaining(g, r, alook2, tmpr2);
    SuffixChain(conf', conf1, conf, srerr, rrerr);
    ItemCounts(conf, conf1, conf', srerr, rrerr);
    ItemConflicts(g, shifts, thr, items, n, kept, tmpr, conf, conf1, conf', rrerr, tmpr1, alook1);
    ItemDone(g, thr, items, n, kept, tmpr, r, x.look, kept', alook1, tmpr1, alook2, tmpr2, tmpr');
  }

  /**
   * The item loop of `fillReduce` over one state: the transitions kept,
   * the entries collected and the conflicts recorded, with the counts of
   * shift/reduce and reduce/reduce conflicts.
   */
  method CollectReduces(g: Grammar, shifts: seq<nat>, thr: seq<nat>, items: seq<Lr1>)
    returns (kept: seq<bool>, tmpr: seq<Reduce>, conf: seq<Conflict>, srerr: nat, rrerr: nat)
    requires ThroughsOk(g, thr) && ItemsOk(g, items) && |shifts| == |thr|
    ensures TableOk(g, thr, items, |items|, kept, tmpr)
    ensures |conf| == srerr + rrerr
    ensures srerr == CountSr(conf) && rrerr == CountRr(conf)
    ensures SrRecorded(g, shifts, thr, items, |items|, conf) && RrRecorded(g, items, |items|, conf)
  {
    kept, tmpr, conf, srerr, rrerr := seq(|thr|, _ => true), [], [], 0, 0;
    for n := 0 to |items|
      invariant TableOk(g, thr, items, n, kept, tmpr)
      invariant |conf| == srerr + rrerr
      invariant srerr == CountSr(conf) && rrerr == CountRr(conf)
      invariant SrRecorded(g, shifts, thr, items, n, conf) && RrRecorded(g, items, n, conf)
    {
      var sr, rr;
      ghost var conf0 := conf;
      kept, tmpr, conf, sr, rr := CollectItem(g, shifts, thr, items, n, kept, tmpr, conf);
      RecordedStep(g, shifts, thr, items, n, conf0, conf);
      srerr, rrerr := srerr + sr, rrerr + rr;
    }
  }

  lemma {:induction false} SymsCard(s: seq<Reduce>)
    ensures |Syms(s)| <= |s|
    ensures |Syms(s)| == |s| <==> SymsDistinct(s)
  {
    if s != [] {
      var s', x := s[..|s| - 1], s[|s| - 1];
      assert s == s' + [x];
      SymsCard(s');
      SymsAppend(s', [x]);
      SymsOne(x);
      if x.sym in Syms(s') {
        var i :| 0 <= i < |s'| && s'[i].sym == x.sym;
        assert s[i].sym == s[|s| - 1].sym;
      } else if SymsDistinct(s') {
        DistinctAppend(s', [x]);
      } else {
        var i, j :| 0 <= i < j < |s'| && s'[i].sym == s'[j].sym;
        assert s[i].sym == s[j].sym;
      }
    }
  }

  /** `array_filter` of the entries against the default action. */
  function Squeezed(s: seq<Reduce>, d: int): (r: seq<Reduce>)
    ensures forall x :: x in r <==> x in s && x.number != d
    ensures Syms(r) <= Syms(s) && (SymsDistinct(s) ==> SymsDistinct(r))
  {
    if s == [] then []
    else
      var s', x := s[..|s| - 1], s[|s| - 1];
      var r' := Squeezed(s', d);
      assert s == s' + [x];
      SymsAppend(s', [x]);
      SymsOne(x);
      var r := if x.number != d then r' + [x] else r';
      SymsAppend(r', [x]);
      assert SymsDistinct(s) ==> SymsDistinct(s') && x.sym !in Syms(s');
      assert SymsDistinct(s) ==> SymsDistinct(r) by {
        if SymsDistinct(s) && x.number != d {
          DistinctAppend(r', [x]);
        }
      }
      r
  }

  /** The comparator of the final sort: symbols ascending, then rule numbers. */
  function BySym(rd: Reduce): seq<int>
  {
    [rd.sym, rd.number]
  }

  /**
   * A state's final reduce list for entries `tmpr` and default action `d`:
   * the entries that do not reduce by `d`, by ascending symbol, one per
   * symbol, then the nil sentinel carrying `d`.
   */
  ghost predicate ReduceList(g: Grammar, tmpr: seq<Reduce>, d: int, rs: seq<Reduce>)
  {
    && |rs| >= 1 && rs[|rs| - 1] == Reduce(g.nil, d)
    && (forall x :: x in rs[..|rs| - 1] <==> x in tmpr && x.number != d)
    && (SymsDistinct(tmpr) ==> forall i, j :: 0 <= i < j < |rs| - 1 ==> rs[i].sym < rs[j].sym)
  }

  /** Squeezing out the default, sorting by symbol and appending the nil sentinel. */
  method FinalList(g: Grammar, tmpr: seq<Reduce>, d: int) returns (rs: seq<Reduce>)
    ensures ReduceList(g, tmpr, d, rs)
  {
    var sq := Squeezed(tmpr, d);
    var sorted := SortBy(sq, BySym);
    forall x
      ensures x in sorted <==> x in sq
    {
      assert x in sorted <==> x in multiset(sorted);
    }
    if SymsDistinct(tmpr) {
      assert Syms(sorted) == Syms(sq);
      SymsCard(sq);
      SymsCard(sorted);
      forall i, j | 0 <= i < j < |sorted|
        ensures sorted[i].sym < sorted[j].sym
      {
        assert LexLe(BySym(sorted[i]), BySym(sorted[j]));
      }
    }
    rs := sorted + [Reduce(g.nil, d)];
    assert rs[..|rs| - 1] == sorted;
  }

  /** `array_values` after the removals: the kept transitions, in their order. */
  function Compact(xs: seq<nat>, kept: seq<bool>): (r: seq<nat>)
    requires |kept| == |xs|
    ensures |r| <= |xs|
    ensures forall k :: 0 <= k < |xs| && kept[k] ==> xs[k] in r
    ensures forall x :: x in r ==> exists k :: 0 <= k < |xs| && kept[k] && xs[k] == x
    ensures (forall k :: 0 <= k < |xs| ==> kept[k]) ==> r == xs
  {
    if xs == [] then []
    else
      var r' := Compact(xs[..|xs| - 1], kept[..|kept| - 1]);
      assert xs == xs[..|xs| - 1] + [xs[|xs| - 1]];
      if kept[|kept| - 1] then r' + [xs[|xs| - 1]] else r'
  }

  /** The first loop of `fillReduce` on a state: -1 when a transition is on the error token. */
  method ErrorShift(g: Grammar, thr: seq<nat>) returns (t: int)
    ensures t == -1 <==> g.errorToken in thr
    ensures t == 0 || t == -1
  {
    t := 0;
    for k := 0 to |thr|
      invariant t == -1 <==> g.errorToken in thr[..k]
      invariant t == 0 || t == -1
    {
      assert thr[..k + 1] == thr[..k] + [thr[k]];
      if thr[k] == g.errorToken {
        t := -1;
      }
    }
    assert thr[..|thr|] == thr;
  }

  /**
   * `fillReduce` on one state, whose transitions are entered through the
   * symbols `thr`: the entries and conflicts of its completed items, the
   * default action, the final reduce list and the kept transitions.
   */
  method FillState(g: Grammar, st: State, thr: seq<nat>)
    returns (st': State, kept: seq<bool>, tmpr: seq<Reduce>, d: int, srerr: nat, rrerr: nat)
    requires ThroughsOk(g, thr) && ItemsOk(g, st.items) && |st.shifts| == |thr|
    ensures TableOk(g, thr, st.items, |st.items|, kept, tmpr)
    ensures g.errorToken in thr ==> d == -1
    ensures g.errorToken !in thr ==> IsDefault(tmpr, d)
    ensures ReduceList(g, tmpr, d, st'.reduce)
    ensures st'.through == st.through && st'.items == st.items && st'.number == st.number
    ensures st'.shifts == Compact(st.shifts, kept)
    ensures |st'.conflict| == |st.conflict| + srerr + rrerr && st'.conflict[srerr + rrerr..] == st.conflict
    ensures CountSr(st'.conflict) == CountSr(st.conflict) + srerr && CountRr(st'.conflict) == CountRr(st.conflict) + rrerr
    ensures SrRecorded(g, st.shifts, thr, st.items, |st.items|, st'.conflict[..srerr + rrerr])
    ensures RrRecorded(g, st.items, |st.items|, st'.conflict[..srerr + rrerr])
  {
    var conf;
    kept, tmpr, conf, srerr, rrerr := CollectReduces(g, st.shifts, thr, st.items);
    d := ErrorShift(g, thr);
    if d == 0 {
      d := ChooseDefault(tmpr);
    }
    var rs := FinalList(g, tmpr, d);
    st' := st.(shifts := Compact(st.shifts, kept), reduce := rs, conflict := conf + st.conflict);
    assert st'.conflict[srerr + rrerr..] == st.conflict;
    assert st'.conflict[..srerr + rrerr] == conf;
    CountAppend(conf, st.conflict);
  }
}
