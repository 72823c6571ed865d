/**
 * The whole-automaton part of `fillReduce`: each state's reduce table filled
 * from the built automaton, the states after the initial one ordered by
 * their number of table entries, and the state numbers that follow.
 */
module Tables {
  import opened Grammar
  import opened Automaton
  import opened Sorting
  import opened Lookaheads
  import opened Defaults
  import opened Reduces

  /** The symbols a state's transitions are entered through, in transition order. */
  function ThroughsOf(store: seq<State>, shifts: seq<nat>): (thr: seq<nat>)
    ensures |thr| == |shifts|
  {
    seq(|shifts|, k requires 0 <= k < |shifts| => if shifts[k] < |store| then store[shifts[k]].through else 0)
  }

  /** A built automaton hands every state to the reduce stage in the form it reads. */
  lemma StateInputs(g: Grammar, store: seq<State>, h: nat)
    requires Built(g, store) && h < |store|
    ensures ThroughsOk(g, ThroughsOf(store, store[h].shifts)) && ItemsOk(g, store[h].items)
  {
    assert GotoOk(g, store, h);
    assert WellShaped(g, store[h]);
    var thr := ThroughsOf(store, store[h].shifts);
    forall k | 0 <= k < |thr|
      ensures thr[k] < g.N()
    {
      assert WellShaped(g, store[store[h].shifts[k]]);
    }
    forall j | 0 <= j < |store[h].items|
      ensures ValidItem(g, store[h].items[j].item)
    {
      assert ItemsOf(store[h].items)[j] == store[h].items[j].item;
    }
  }

  /**
   * `st` is state `st0` with its reduce table filled: `kept` the transitions
   * that survive, `tmpr` the entries collected and `d` the default action.
   */
  ghost predicate Filled(g: Grammar, st0: State, thr: seq<nat>, st: State, kept: seq<bool>, tmpr: seq<Reduce>, d: int)
  {
    && ThroughsOk(g, thr) && ItemsOk(g, st0.items) && |st0.shifts| == |thr|
    && TableOk(g, thr, st0.items, |st0.items|, kept, tmpr)
    && (g.errorToken in thr ==> d == -1)
    && (g.errorToken !in thr ==> IsDefault(tmpr, d))
    && ReduceList(g, tmpr, d, st.reduce)
    && st.through == st0.through && st.items == st0.items
    && st.shifts == Compact(st0.shifts, kept)
    && |st.conflict| >= |st0.conflict| && st.conflict[|st.conflict| - |st0.conflict|..] == st0.conflict
    && SrRecorded(g, st0.shifts, thr, st0.items, |st0.items|, st.conflict[..|st.conflict| - |st0.conflict|])
    && RrRecorded(g, st0.items, |st0.items|, st.conflict[..|st.conflict| - |st0.conflict|])
  }

  /** State `h` of `store0`, filled; its number is not part of the filling. */
  ghost predicate FilledAt(g: Grammar, store0: seq<State>, h: nat, st: State)
    requires h < |store0|
  {
    exists kept, tmpr, d ::
      Filled(g, store0[h], ThroughsOf(store0, store0[h].shifts), st.(number := store0[h].number), kept, tmpr, d)
  }

  /** The shift/reduce conflicts recorded in the states below `n`. */
  function AddedSr(s0: seq<State>, s1: seq<State>, n: nat): int
    requires n <= |s0| && n <= |s1|
  {
    if n == 0 then 0 else AddedSr(s0, s1, n - 1) + CountSr(s1[n - 1].conflict) - CountSr(s0[n - 1].conflict)
  }

  /** The reduce/reduce conflicts recorded in the states below `n`. */
  function AddedRr(s0: seq<State>, s1: seq<State>, n: nat): int
    requires n <= |s0| && n <= |s1|
  {
    if n == 0 then 0 else AddedRr(s0, s1, n - 1) + CountRr(s1[n - 1].conflict) - CountRr(s0[n - 1].conflict)
  }

  lemma {:induction false} AddedFrame(s0: seq<State>, s1: seq<State>, s2: seq<State>, n: nat)
    requires n <= |s0| && n <= |s1| && n <= |s2|
    requires forall h :: 0 <= h < n ==> s1[h].conflict == s2[h].conflict
    ensures AddedSr(s0, s1, n) == AddedSr(s0, s2, n) && AddedRr(s0, s1, n) == AddedRr(s0, s2, n)
  {
    if n > 0 {
      AddedFrame(s0, s1, s2, n - 1);
    }
  }

  /** The number of a state's transitions on terminals. */
  function TerminalShifts(g: Grammar, store: seq<State>, shifts: seq<nat>): nat
  {
    if shifts == [] then 0
    else TerminalShifts(g, store, shifts[..|shifts| - 1]) +
         (var t := shifts[|shifts| - 1];
          if t < |store| && store[t].through < |g.symbols| && g.symbols[store[t].through].terminal then 1 else 0)
  }

  /**
   * The comparator of the state sort: more terminal transitions plus
   * non-default reduce entries first, then more non-default reduce entries.
   */
  function StateKey(g: Grammar, store: seq<State>, h: nat): seq<int>
  {
    if h < |store| then
      var nr := |store[h].reduce| - 1;
      [-(TerminalShifts(g, store, store[h].shifts) + nr), -nr]
    else []
  }

  /** The states after the first are in the order of the state sort. */
  ghost predicate StatesOrdered(g: Grammar, store: seq<State>, states: seq<nat>)
  {
    forall i, j :: 1 <= i < j < |states| ==> LexLe(StateKey(g, store, states[i]), StateKey(g, store, states[j]))
  }

  /** `states` lists every handle of `store` exactly once. */
  ghost predicate HandlesPerm(store: seq<State>, states: seq<nat>)
  {
    && |states| == |store|
    && (forall i :: 0 <= i < |states| ==> states[i] < |store|)
    && (forall i, j :: 0 <= i < j < |states| ==> states[i] != states[j])
  }

  lemma {:induction false} DistinctCount(a: seq<nat>, x: nat)
    requires forall i, j :: 0 <= i < j < |a| ==> a[i] != a[j]
    ensures multiset(a)[x] <= 1
  {
    if a != [] {
      var a' := a[..|a| - 1];
      assert a == a' + [a[|a| - 1]];
      DistinctCount(a', x);
      if a[|a| - 1] == x {
        assert x !in a';
      }
    }
  }

  /** Reordering keeps a list of distinct handles distinct. */
  lemma PermDistinct(a: seq<nat>, b: seq<nat>)
    requires multiset(a) == multiset(b)
    requires forall i, j :: 0 <= i < j < |a| ==> a[i] != a[j]
    ensures forall i, j :: 0 <= i < j < |b| ==> b[i] != b[j]
  {
    forall i, j | 0 <= i < j < |b|
      ensures b[i] != b[j]
    {
      DistinctCount(a, b[i]);
      assert b == b[..j] + b[j..];
    }
  }

  /** The test that sets `nnonleafstates`: transitions, or a reduce list led by the nil sentinel. */
  predicate NonLeaf(g: Grammar, st: State)
  {
    |st.shifts| > 0 || (|st.reduce| > 0 && st.reduce[0].sym == g.nil)
  }

  /** Renumbering a state leaves it filled. */
  lemma FilledRenumber(g: Grammar, store0: seq<State>, h: nat, st: State, n: int)
    requires h < |store0| && FilledAt(g, store0, h, st)
    ensures FilledAt(g, store0, h, st.(number := n))
  {
    assert st.(number := n).(number := store0[h].number) == st.(number := store0[h].number);
  }

  /** Two stores that differ only in state numbers. */
  ghost predicate SameButNumbers(s1: seq<State>, s2: seq<State>)
  {
    |s1| == |s2| && forall h :: 0 <= h < |s1| ==> s2[h] == s1[h].(number := s2[h].number)
  }

  lemma {:induction false} TerminalShiftsSame(g: Grammar, s1: seq<State>, s2: seq<State>, shifts: seq<nat>)
    requires SameButNumbers(s1, s2)
    ensures TerminalShifts(g, s1, shifts) == TerminalShifts(g, s2, shifts)
  {
    if shifts != [] {
      TerminalShiftsSame(g, s1, s2, shifts[..|shifts| - 1]);
      var t := shifts[|shifts| - 1];
      if t < |s1| {
        assert s2[t].through == s1[t].through;
      }
    }
  }

  /** State numbers do not take part in the state sort. */
  lemma OrderedRenumber(g: Grammar, s1: seq<State>, s2: seq<State>, states: seq<nat>)
    requires SameButNumbers(s1, s2) && StatesOrdered(g, s1, states)
    ensures StatesOrdered(g, s2, states)
  {
    forall h: nat
      ensures StateKey(g, s1, h) == StateKey(g, s2, h)
    {
      if h < |s1| {
        assert s2[h].reduce == s1[h].reduce && s2[h].shifts == s1[h].shifts;
        TerminalShiftsSame(g, s1, s2, s1[h].shifts);
      }
    }
  }

  /** The per-state loop has filled the states below `i` and left the rest as built. */
  ghost predicate FilledUpTo(g: Grammar, s0: seq<State>, s: seq<State>, i: nat)
  {
    && i <= |s0| == |s|
    && (forall h :: 0 <= h < |s| ==> s[h].through == s0[h].through)
    && (forall h :: i <= h < |s| ==> s[h] == s0[h])
    && (forall h {:trigger FilledAt(g, s0, h, s[h])} :: 0 <= h < i ==> FilledAt(g, s0, h, s[h]))
    && (forall h :: 0 <= h < i ==> s[h].number == s0[h].number)
  }

  /** A state's transitions read the same symbols while the loop runs. */
  lemma ThroughsSame(g: Grammar, s0: seq<State>, s: seq<State>, i: nat)
    requires FilledUpTo(g, s0, s, i) && i < |s|
    ensures ThroughsOf(s, s[i].shifts) == ThroughsOf(s0, s0[i].shifts)
  {
  }

  lemma FillStep(g: Grammar, s0: seq<State>, s: seq<State>, i: nat, st: State)
    requires FilledUpTo(g, s0, s, i) && i < |s|
    requires FilledAt(g, s0, i, st) && st.number == s0[i].number
    ensures FilledUpTo(g, s0, s[i := st], i + 1)
  {
  }

  lemma AddedStep(s0: seq<State>, s: seq<State>, i: nat, st: State)
    requires i < |s| == |s0|
    ensures AddedSr(s0, s[i := st], i + 1) == AddedSr(s0, s, i) + CountSr(st.conflict) - CountSr(s0[i].conflict)
    ensures AddedRr(s0, s[i := st], i + 1) == AddedRr(s0, s, i) + CountRr(st.conflict) - CountRr(s0[i].conflict)
  {
    AddedFrame(s0, s, s[i := st], i);
  }

  /** The results of `FillState` make the state filled. */
  lemma FilledWitness(g: Grammar, s0: seq<State>, h: nat, thr: seq<nat>, st: State, kept: seq<bool>, tmpr: seq<Reduce>, d: int)
    requires h < |s0| && thr == ThroughsOf(s0, s0[h].shifts)
    requires ThroughsOk(g, thr) && ItemsOk(g, s0[h].items) && |s0[h].shifts| == |thr|
    requires TableOk(g, thr, s0[h].items, |s0[h].items|, kept, tmpr)
    requires g.errorToken in thr ==> d == -1
    requires g.errorToken !in thr ==> IsDefault(tmpr, d)
    requires ReduceList(g, tmpr, d, st.reduce)
    requires st.through == s0[h].through && st.items == s0[h].items
    requires st.shifts == Compact(s0[h].shifts, kept)
    requires |st.conflict| >= |s0[h].conflict| && st.conflict[|st.conflict| - |s0[h].conflict|..] == s0[h].conflict
    requires SrRecorded(g, s0[h].shifts, thr, s0[h].items, |s0[h].items|, st.conflict[..|st.conflict| - |s0[h].conflict|])
    requires RrRecorded(g, s0[h].items, |s0[h].items|, st.conflict[..|st.conflict| - |s0[h].conflict|])
    ensures FilledAt(g, s0, h, st)
  {
    assert Filled(g, s0[h], thr, st.(number := s0[h].number), kept, tmpr, d);
  }

  /** Every state of `s` is the state of `s0` with the same handle, filled. */
  ghost predicate AllFilled(g: Grammar, s0: seq<State>, s: seq<State>)
  {
    |s| == |s0| && forall h {:trigger FilledAt(g, s0, h, s[h])} :: 0 <= h < |s| ==> FilledAt(g, s0, h, s[h])
  }

  /**
   * Each state's number is its position in `states`, and `nonleaf` is the
   * last position of a non-leaf state, or `nonleaf0` when there is none.
   */
  ghost predicate Numbered(g: Grammar, store: seq<State>, states: seq<nat>, nonleaf0: int, nonleaf: int)
    requires HandlesPerm(store, states)
  {
    && (forall i :: 0 <= i < |states| ==> store[states[i]].number == i)
    && (forall i :: 0 <= i < |states| && NonLeaf(g, store[states[i]]) ==>
          i <= nonleaf < |states| && NonLeaf(g, store[states[nonleaf]]))
    && (nonleaf == nonleaf0 || (0 <= nonleaf < |states| && NonLeaf(g, store[states[nonleaf]])))
  }

  /** The handles in creation order list every handle once. */
  lemma HandlesInOrder(store: seq<State>, states: seq<nat>)
    requires |states| == |store| && forall i :: 0 <= i < |states| ==> states[i] == i
    ensures HandlesPerm(store, states)
  {
  }

  /** Renumbering keeps every state filled and every conflict counted. */
  lemma FilledAll(g: Grammar, s0: seq<State>, s1: seq<State>, s2: seq<State>)
    requires FilledUpTo(g, s0, s1, |s1|) && SameButNumbers(s1, s2)
    ensures AllFilled(g, s0, s2)
    ensures AddedSr(s0, s1, |s1|) == AddedSr(s0, s2, |s2|) && AddedRr(s0, s1, |s1|) == AddedRr(s0, s2, |s2|)
  {
    forall h | 0 <= h < |s2|
      ensures FilledAt(g, s0, h, s2[h])
    {
      FilledRenumber(g, s0, h, s1[h], s2[h].number);
    }
    AddedFrame(s0, s1, s2, |s1|);
  }

  /** `FillState` on the state with handle `h` of the built automaton `s0`. */
  method FillAt(g: Grammar, ghost s0: seq<State>, h: nat, st0: State, thr: seq<nat>) returns (st: State, srerr: nat, rrerr: nat)
    requires Built(g, s0) && h < |s0| && st0 == s0[h] && thr == ThroughsOf(s0, s0[h].shifts)
    ensures FilledAt(g, s0, h, st) && st.number == st0.number
    ensures CountSr(st.conflict) == CountSr(st0.conflict) + srerr && CountRr(st.conflict) == CountRr(st0.conflict) + rrerr
  {
    StateInputs(g, s0, h);
    var kept, tmpr, d;
    st, kept, tmpr, d, srerr, rrerr := FillState(g, st0, thr);
    FilledWitness(g, s0, h, thr, st, kept, tmpr, d);
  }

  /**
   * The per-state loop of `fillReduce` over a built automaton: each state in
   * handle order gets its reduce table, and the conflicts found are counted.
   */
  method FillAll(g: Grammar, s0: seq<State>) returns (s: seq<State>, srerr: nat, rrerr: nat)
    requires Built(g, s0)
    ensures FilledUpTo(g, s0, s, |s0|)
    ensures srerr == AddedSr(s0, s, |s0|) && rrerr == AddedRr(s0, s, |s0|)
  {
    s, srerr, rrerr := s0, 0, 0;
    for h := 0 to |s0|
      invariant FilledUpTo(g, s0, s, h)
      invariant srerr == AddedSr(s0, s, h) && rrerr == AddedRr(s0, s, h)
    {
      ThroughsSame(g, s0, s, h);
      var st, sr, rr := FillAt(g, s0, h, s[h], ThroughsOf(s, s[h].shifts));
      FillStep(g, s0, s, h, st);
      AddedStep(s0, s, h, st);
      s := s[h := st];
      srerr, rrerr := srerr + sr, rrerr + rr;
    }
  }
}
