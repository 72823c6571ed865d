/**
 * The pieces of LR(0) kernel construction that work on item lists alone:
 * collecting the direct GOTO candidates of a state, expanding one
 * nonterminal into its indirect candidates, and the facts about a stored
 * state and a store update that the construction loop relies on.
 */
module Kernels {
  import opened Grammar
  import opened Sorting
  import opened Automaton

  /** What the items of a stored state look like from the outside. */
  lemma {:induction false} NonTailFacts(g: Grammar, store: seq<State>, h: nat)
    requires g.WF() && StoreOk(g, store) && h < |store|
    ensures forall j :: 0 <= j < |store[h].items| ==> ValidItem(g, store[h].items[j].item)
    ensures forall j :: 0 <= j < |store[h].items| && HasNext(g, store[h].items[j].item) ==>
              store[h].items[j].item.pos >= 2 || store[h].items[j].item == Item(0, 1)
    ensures forall j1, j2 ::
              0 <= j1 < j2 < |store[h].items| && HasNext(g, store[h].items[j1].item) && HasNext(g, store[h].items[j2].item)
              ==> ItemLt(store[h].items[j1].item, store[h].items[j2].item)
  {
    var st := store[h];
    var its := ItemsOf(st.items);
    var n := KernelLen(its);
    assert WellShaped(g, st);
    forall j | 0 <= j < |st.items|
      ensures ValidItem(g, st.items[j].item)
    {
      assert its[j] == st.items[j].item;
    }
    forall j | 0 <= j < |st.items| && HasNext(g, st.items[j].item)
      ensures j < n && st.items[j].item == Kernel(st.items)[j]
    {
      assert its[j] == st.items[j].item;
    }
    if h > 0 {
      assert EnteredThrough(g, st);
    }
    forall j | 0 <= j < |st.items| && HasNext(g, st.items[j].item)
      ensures st.items[j].item.pos >= 2 || st.items[j].item == Item(0, 1)
    {
      if h == 0 {
        assert j < |Kernel(st.items)|;
      }
    }
  }

  /** The successor items of the non-tail items of `xs`, in list order. */
  function DirectOf(g: Grammar, xs: seq<Lr1>): seq<Item>
    decreases |xs|
  {
    if xs == [] then []
    else
      var n := |xs| - 1;
      DirectOf(g, xs[..n]) + (if HasNext(g, xs[n].item) then [Slice(xs[n].item)] else [])
  }

  /** An item is a direct candidate exactly when it is the successor of some non-tail item. */
  lemma {:induction false} DirectOfMember(g: Grammar, xs: seq<Lr1>, y: Item)
    ensures y in DirectOf(g, xs) <==> exists j :: 0 <= j < |xs| && HasNext(g, xs[j].item) && y == Slice(xs[j].item)
    decreases |xs|
  {
    if xs != [] {
      var n := |xs| - 1;
      DirectOfMember(g, xs[..n], y);
      if exists j :: 0 <= j < |xs| && HasNext(g, xs[j].item) && y == Slice(xs[j].item) {
        var j :| 0 <= j < |xs| && HasNext(g, xs[j].item) && y == Slice(xs[j].item);
        if j < n {
          assert xs[..n][j] == xs[j];
        }
      }
      if y in DirectOf(g, xs[..n]) {
        var j :| 0 <= j < n && HasNext(g, xs[..n][j].item) && y == Slice(xs[..n][j].item);
        assert xs[..n][j] == xs[j];
      }
    }
  }

  /** The direct candidates are the successors of the non-tail items. */
  lemma DirectAdvances(g: Grammar, xs: seq<Lr1>)
    ensures ItemSet(DirectOf(g, xs)) == Advances(g, xs)
  {
    forall y
      ensures y in DirectOf(g, xs) <==> y in Advances(g, xs)
    {
      DirectOfMember(g, xs, y);
    }
  }

  /** Non-tail items in strict order have successors in strict order. */
  lemma {:induction false} DirectOfStrict(g: Grammar, xs: seq<Lr1>)
    requires forall j1, j2 :: 0 <= j1 < j2 < |xs| && HasNext(g, xs[j1].item) && HasNext(g, xs[j2].item) ==>
               ItemLt(xs[j1].item, xs[j2].item)
    ensures StrictItems(DirectOf(g, xs))
    decreases |xs|
  {
    if xs != [] {
      var n := |xs| - 1;
      var pre := xs[..n];
      forall j1, j2 | 0 <= j1 < j2 < |pre| && HasNext(g, pre[j1].item) && HasNext(g, pre[j2].item)
        ensures ItemLt(pre[j1].item, pre[j2].item)
      {
        assert pre[j1] == xs[j1] && pre[j2] == xs[j2];
      }
      DirectOfStrict(g, pre);
      if HasNext(g, xs[n].item) {
        var d := DirectOf(g, pre);
        forall k | 0 <= k < |d|
          ensures ItemLt(d[k], Slice(xs[n].item))
        {
          DirectOfMember(g, pre, d[k]);
          var j :| 0 <= j < |pre| && HasNext(g, pre[j].item) && d[k] == Slice(pre[j].item);
          assert pre[j] == xs[j];
        }
      }
    }
  }

  /**
   * The first loop of `computeKernels`: for every non-tail item, in list
   * order, its successor item, entered from the augmented start symbol with
   * a blank lookahead set.
   */
  method DirectGotos(g: Grammar, items: seq<Lr1>) returns (tmp: seq<Lr1>)
    ensures ItemsOf(tmp) == DirectOf(g, items)
    ensures forall k :: 0 <= k < |tmp| ==> tmp[k].left == g.startPrime && tmp[k].look == {}
  {
    tmp := [];
    for j := 0 to |items|
      invariant ItemsOf(tmp) == DirectOf(g, items[..j])
      invariant forall k :: 0 <= k < |tmp| ==> tmp[k].left == g.startPrime && tmp[k].look == {}
    {
      assert items[..j + 1][..j] == items[..j];
      if HasNext(g, items[j].item) {
        tmp := tmp + [Lr1(g.startPrime, {}, Slice(items[j].item))];
      }
    }
    assert items[..|items|] == items;
  }

  /** `it` is a closure candidate of nonterminal `x`: a production of `x` with its dot after the first right-hand symbol. */
  ghost predicate FromSymbol(g: Grammar, it: Item, x: nat)
    requires g.WF()
  {
    it.rule < |g.prods| && it.pos == 2 && g.Lhs(it.rule) == x && x < g.N() && it.rule in g.byLhs[x]
  }

  /** The position-2 items of the productions in `chain` that have a right-hand side, in chain order. */
  function Expansion(g: Grammar, chain: seq<nat>): seq<Item>
    decreases |chain|
  {
    if chain == [] then []
    else
      var n := |chain| - 1;
      Expansion(g, chain[..n]) +
        (if chain[n] < |g.prods| && |g.prods[chain[n]].body| >= 2 then [Item(chain[n], 2)] else [])
  }

  lemma {:induction false} ExpansionMember(g: Grammar, chain: seq<nat>, y: Item)
    ensures y in Expansion(g, chain) <==>
              y.pos == 2 && y.rule in chain && y.rule < |g.prods| && |g.prods[y.rule].body| >= 2
    decreases |chain|
  {
    if chain != [] {
      var n := |chain| - 1;
      ExpansionMember(g, chain[..n], y);
      assert chain == chain[..n] + [chain[n]];
    }
  }

  /** A chain without repeats expands without repeats. */
  lemma {:induction false} ExpansionDistinct(g: Grammar, chain: seq<nat>)
    requires forall i, j :: 0 <= i < j < |chain| ==> chain[i] != chain[j]
    ensures forall i, j :: 0 <= i < j < |Expansion(g, chain)| ==> Expansion(g, chain)[i] != Expansion(g, chain)[j]
    decreases |chain|
  {
    if chain != [] {
      var n := |chain| - 1;
      var pre := chain[..n];
      ExpansionDistinct(g, pre);
      var e := Expansion(g, pre);
      forall k | 0 <= k < |e|
        ensures e[k] != Item(chain[n], 2)
      {
        ExpansionMember(g, pre, e[k]);
        var i :| 0 <= i < |pre| && pre[i] == e[k].rule;
      }
    }
  }

  /**
   * The inner loop of the indirect GOTO collection: each production of `x`
   * with a right-hand side contributes its item at position 2, entered from `x`.
   */
  method ExpandSymbol(g: Grammar, list: seq<Lr1>, x: nat) returns (list': seq<Lr1>)
    requires g.WF() && x < g.N()
    ensures |list'| == |list| + |Expansion(g, g.byLhs[x])| && list <= list'
    ensures forall k :: 0 <= k < |Expansion(g, g.byLhs[x])| ==>
              list'[|list| + k] == Lr1(x, {}, Expansion(g, g.byLhs[x])[k])
    ensures forall k :: |list| <= k < |list'| ==>
              list'[k].left == x && list'[k].look == {} && FromSymbol(g, list'[k].item, x) &&
              ValidItem(g, list'[k].item)
    ensures forall r :: r in g.byLhs[x] && |g.prods[r].body| >= 2 ==> Item(r, 2) in ItemsOf(list')
    ensures DistinctItems(list) && (forall k :: 0 <= k < |list| ==> !FromSymbol(g, list[k].item, x)) ==>
              DistinctItems(list')
  {
    var chain := g.byLhs[x];
    list' := list;
    for j := 0 to |chain|
      invariant |list'| == |list| + |Expansion(g, chain[..j])| && list <= list'
      invariant forall k :: 0 <= k < |Expansion(g, chain[..j])| ==>
                  list'[|list| + k] == Lr1(x, {}, Expansion(g, chain[..j])[k])
    {
      assert chain[..j + 1][..j] == chain[..j];
      if |g.prods[chain[j]].body| >= 2 {
        list' := list' + [Lr1(x, {}, Item(chain[j], 2))];
      }
    }
    assert chain[..|chain|] == chain;
    ExpandedFacts(g, list, x, list');
  }

  /** What the appended expansion amounts to, item by item. */
  lemma ExpandedFacts(g: Grammar, list: seq<Lr1>, x: nat, list': seq<Lr1>)
    requires g.WF() && x < g.N()
    requires |list'| == |list| + |Expansion(g, g.byLhs[x])| && list <= list'
    requires forall k :: 0 <= k < |Expansion(g, g.byLhs[x])| ==>
               list'[|list| + k] == Lr1(x, {}, Expansion(g, g.byLhs[x])[k])
    ensures forall k :: |list| <= k < |list'| ==>
              list'[k].left == x && list'[k].look == {} && FromSymbol(g, list'[k].item, x) &&
              ValidItem(g, list'[k].item)
    ensures forall r :: r in g.byLhs[x] && |g.prods[r].body| >= 2 ==> Item(r, 2) in ItemsOf(list')
    ensures DistinctItems(list) && (forall k :: 0 <= k < |list| ==> !FromSymbol(g, list[k].item, x)) ==>
              DistinctItems(list')
  {
    var chain := g.byLhs[x];
    var e := Expansion(g, chain);
    assert forall k :: |list| <= k < |list'| ==> list'[k] == Lr1(x, {}, e[k - |list|]);
    forall k | |list| <= k < |list'|
      ensures FromSymbol(g, list'[k].item, x) && ValidItem(g, list'[k].item)
    {
      assert list'[k].item == e[k - |list|];
      ExpansionMember(g, chain, e[k - |list|]);
    }
    forall r | r in chain && |g.prods[r].body| >= 2
      ensures Item(r, 2) in ItemsOf(list')
    {
      ExpansionMember(g, chain, Item(r, 2));
      var k :| 0 <= k < |e| && e[k] == Item(r, 2);
      assert ItemsOf(list')[|list| + k] == Item(r, 2);
    }
    if DistinctItems(list) && (forall k :: 0 <= k < |list| ==> !FromSymbol(g, list[k].item, x)) {
      ExpansionDistinct(g, chain);
      forall k1, k2 | 0 <= k1 < k2 < |list'|
        ensures list'[k1].item != list'[k2].item
      {
        if k1 >= |list| {
          assert list'[k1].item == e[k1 - |list|] && list'[k2].item == e[k2 - |list|];
        } else if k2 >= |list| {
          assert list'[k1] == list[k1];
        }
      }
    }
  }

  /**
   * A stretch of the sorted candidate list whose items all follow `sym` is a
   * kernel run: ordered by key with distinct keys, its items are strictly
   * ordered by rule and position.
   */
  lemma SortedRun(g: Grammar, list: seq<Lr1>, start: nat, end: nat, sym: nat)
    requires g.WF() && start < end <= |list|
    requires SortedBy(list, KernelOrder(g)) && KeysDistinct(list, KernelOrder(g))
    requires forall k :: 0 <= k < |list| ==> ValidItem(g, list[k].item) && list[k].item.pos >= 2 && list[k].left < g.N()
    requires forall k :: start <= k < end ==> Before(g, list[k].item) == sym
    ensures KernelRun(g, sym, list[start..end])
  {
    var sub := list[start..end];
    forall i, j | 0 <= i < j < |sub|
      ensures ItemLt(ItemsOf(sub)[i], ItemsOf(sub)[j])
    {
      assert sub[i] == list[start + i] && sub[j] == list[start + j];
      assert KernelOrder(g)(list[start + i]) == KernelKey(g, list[start + i]);
      assert KernelOrder(g)(list[start + j]) == KernelKey(g, list[start + j]);
      KeyItemOrder(g, sub[i], sub[j]);
    }
  }

  /** The candidate after a finished run follows a strictly larger symbol. */
  lemma NextRunAbove(g: Grammar, list: seq<Lr1>, k: nat, m: nat)
    requires g.WF() && k < m < |list|
    requires SortedBy(list, KernelOrder(g))
    requires ValidItem(g, list[k].item) && ValidItem(g, list[m].item)
    requires Before(g, list[k].item) != Before(g, list[m].item)
    ensures Before(g, list[k].item) < Before(g, list[m].item)
  {
    assert KernelOrder(g)(list[k]) == KernelKey(g, list[k]);
    assert KernelOrder(g)(list[m]) == KernelKey(g, list[m]);
    KeySymbolOrder(g, list[k], list[m]);
  }

  /** The inner loop of "compute next states": the end of the run of items that follow `list[start]`'s symbol. */
  method RunEnd(g: Grammar, list: seq<Lr1>, start: nat) returns (end: nat)
    requires g.WF() && start < |list| && forall k :: 0 <= k < |list| ==> ValidItem(g, list[k].item)
    ensures start < end <= |list|
    ensures forall k :: start <= k < end ==> Before(g, list[k].item) == Before(g, list[start].item)
    ensures end < |list| ==> Before(g, list[end].item) != Before(g, list[start].item)
  {
    var sym := Before(g, list[start].item);
    end := start;
    while end < |list| && Before(g, list[end].item) == sym
      invariant start <= end <= |list|
      invariant forall k :: start <= k < end ==> Before(g, list[k].item) == sym
    {
      end := end + 1;
    }
  }

  /** The items of the first `n` entries of the list. */
  ghost function Upto(list: seq<Lr1>, n: nat): set<Item>
  {
    set k | 0 <= k < n && k < |list| :: list[k].item
  }

  lemma UptoSplit(list: seq<Lr1>, start: nat, end: nat)
    requires start <= end <= |list|
    ensures Upto(list, end) == Upto(list, start) + ItemSet(ItemsOf(list[start..end]))
  {
    var sub := list[start..end];
    forall y | y in ItemSet(ItemsOf(sub))
      ensures y in Upto(list, end)
    {
      var j :| 0 <= j < |sub| && ItemsOf(sub)[j] == y;
      assert list[start + j].item == y;
    }
    forall k | start <= k < end
      ensures list[k].item in ItemSet(ItemsOf(sub))
    {
      assert ItemsOf(sub)[k - start] == list[k].item;
    }
  }

  /**
   * After the state of run `list[start..end]` is found or created as `h`,
   * the successor items of the targets so far are the items up to `end`.
   */
  lemma SuccAfterRun(s0: seq<State>, store: seq<State>, nextst: seq<nat>, h: nat, list: seq<Lr1>, start: nat, end: nat)
    requires s0 <= store && h < |store| && start <= end <= |list|
    requires forall k :: 0 <= k < |nextst| ==> nextst[k] < |s0|
    requires Succ(s0, nextst) == Upto(list, start)
    requires Kernel(store[h].items) == ItemsOf(list[start..end])
    ensures Succ(store, nextst + [h]) == Upto(list, end)
  {
    assert SameKernels(s0, store);
    SuccStable(s0, store, nextst);
    SuccAppend(store, nextst, h);
    UptoSplit(list, start, end);
  }

  /** Targets that are existing non-initial states, in strictly increasing symbol order. */
  ghost predicate TargetsOk(store: seq<State>, nextst: seq<nat>)
  {
    && (forall k :: 0 <= k < |nextst| ==> 0 < nextst[k] < |store|)
    && (forall k1, k2 :: 0 <= k1 < k2 < |nextst| ==> store[nextst[k1]].through < store[nextst[k2]].through)
  }

  /** A target on a symbol above the last one extends the targets in order, also across store growth. */
  lemma TargetsExtend(s0: seq<State>, store: seq<State>, nextst: seq<nat>, h: nat)
    requires s0 <= store && TargetsOk(s0, nextst) && 0 < h < |store|
    requires |nextst| > 0 ==> s0[nextst[|nextst| - 1]].through < store[h].through
    ensures TargetsOk(store, nextst + [h])
  {
    var n' := nextst + [h];
    forall k1, k2 | 0 <= k1 < k2 < |n'|
      ensures store[n'[k1]].through < store[n'[k2]].through
    {
      assert store[nextst[k1]] == s0[nextst[k1]];
      if k2 < |nextst| {
        assert store[nextst[k2]] == s0[nextst[k2]];
      } else if k1 < |nextst| - 1 {
        assert s0[nextst[k1]].through < s0[nextst[|nextst| - 1]].through;
      }
    }
  }

  /** The direct candidates of a stored state's items are valid items past position 1, and past 2 except for rule 0. */
  lemma DirectOfShape(g: Grammar, xs: seq<Lr1>, y: Item)
    requires g.WF() && forall j :: 0 <= j < |xs| ==> ValidItem(g, xs[j].item)
    requires forall j :: 0 <= j < |xs| && HasNext(g, xs[j].item) ==> xs[j].item.pos >= 2 || xs[j].item == Item(0, 1)
    requires y in DirectOf(g, xs)
    ensures ValidItem(g, y) && y.pos >= 2 && (y.pos >= 3 || y.rule == 0)
  {
    DirectOfMember(g, xs, y);
  }

  /** Permuting a list keeps the set of its items. */
  lemma PermutedItems(a: seq<Lr1>, b: seq<Lr1>)
    requires multiset(a) == multiset(b)
    ensures ItemSet(ItemsOf(a)) == ItemSet(ItemsOf(b))
  {
    forall y | y in ItemSet(ItemsOf(a))
      ensures y in ItemSet(ItemsOf(b))
    {
      var j :| 0 <= j < |a| && ItemsOf(a)[j] == y;
      assert a[j] in multiset(b);
      var m :| 0 <= m < |b| && b[m] == a[j];
      assert ItemsOf(b)[m] == y;
    }
    forall y | y in ItemSet(ItemsOf(b))
      ensures y in ItemSet(ItemsOf(a))
    {
      var j :| 0 <= j < |b| && ItemsOf(b)[j] == y;
      assert b[j] in multiset(a);
      var m :| 0 <= m < |a| && a[m] == b[j];
      assert ItemsOf(a)[m] == y;
    }
  }

  /** Setting a state's transitions keeps the store invariant. */
  lemma ShiftsKeepStore(g: Grammar, store: seq<State>, i: nat, nextst: seq<nat>)
    requires g.WF() && StoreOk(g, store) && i < |store|
    ensures StoreOk(g, store[i := store[i].(shifts := nextst)])
  {
    var s' := store[i := store[i].(shifts := nextst)];
    assert forall h :: 0 <= h < |store| ==> s'[h].through == store[h].through && s'[h].items == store[h].items;
    assert WellShaped(g, s'[i]) && (i > 0 ==> EnteredThrough(g, s'[i])) by {
      assert WellShaped(g, store[i]);
      if i > 0 {
        assert EnteredThrough(g, store[i]);
      }
    }
  }

  /** Setting a state's transitions keeps the per-symbol index exact. */
  lemma ShiftsKeepIndex(g: Grammar, store: seq<State>, index: seq<seq<nat>>, i: nat, nextst: seq<nat>)
    requires IndexOk(g, store, index) && i < |store|
    ensures IndexOk(g, store[i := store[i].(shifts := nextst)], index)
  {
    var s' := store[i := store[i].(shifts := nextst)];
    assert forall h :: 0 <= h < |store| ==> s'[h].through == store[h].through;
  }

  /** Setting a state's transitions changes nothing the store invariants or the measure look at. */
  lemma ShiftsUpdate(g: Grammar, store: seq<State>, index: seq<seq<nat>>, i: nat, nextst: seq<nat>)
    requires g.WF() && StoreOk(g, store) && IndexOk(g, store, index) && i < |store|
    ensures StoreOk(g, store[i := store[i].(shifts := nextst)])
    ensures IndexOk(g, store[i := store[i].(shifts := nextst)], index)
    ensures SameKernels(store, store[i := store[i].(shifts := nextst)])
    ensures Unborn(g, store[i := store[i].(shifts := nextst)]) == Unborn(g, store)
  {
    ShiftsKeepStore(g, store, i, nextst);
    ShiftsKeepIndex(g, store, index, i, nextst);
    CreatedFrame(store, store[i := store[i].(shifts := nextst)]);
  }

  /** Growing the store or setting another state's transitions keeps the transitions of the first `n` states. */
  lemma GotosKept(g: Grammar, s0: seq<State>, s1: seq<State>, n: nat)
    requires g.WF() && n <= |s0| && SameKernels(s0, s1)
    requires forall h :: 0 <= h < n ==> s1[h].shifts == s0[h].shifts && GotoOk(g, s0, h)
    ensures forall h :: 0 <= h < n ==> GotoOk(g, s1, h)
  {
    forall h | 0 <= h < n
      ensures GotoOk(g, s1, h)
    {
      GotoOkFrame(g, s0, s1, h);
    }
  }

  /**
   * State `i` given targets `nextst` whose kernels hold the successor of every
   * non-tail item of `i`, are closed under expansion and hold nothing the
   * closure rounds do not reach from those successors meets the transition
   * invariant.
   */
  lemma GotoAfterUpdate(g: Grammar, store: seq<State>, i: nat, nextst: seq<nat>)
    requires g.WF() && i < |store| && TargetsOk(store, nextst)
    requires forall j :: 0 <= j < |store[i].items| && HasNext(g, store[i].items[j].item) ==>
               Slice(store[i].items[j].item) in Succ(store, nextst)
    requires SuccClosed(g, Succ(store, nextst))
    requires Reached(g, Advances(g, store[i].items), Succ(store, nextst))
    ensures GotoOk(g, store[i := store[i].(shifts := nextst)], i)
  {
    var s' := store[i := store[i].(shifts := nextst)];
    assert SameKernels(store, s');
    SuccStable(store, s', nextst);
    forall k1, k2 | 0 <= k1 < k2 < |nextst|
      ensures s'[nextst[k1]].through < s'[nextst[k2]].through
    {
      assert s'[nextst[k1]].through == store[nextst[k1]].through;
      assert s'[nextst[k2]].through == store[nextst[k2]].through;
    }
  }

  /** The store with state `i`'s transitions set to `nextst`. */
  function WithShifts(store: seq<State>, i: nat, nextst: seq<nat>): (s': seq<State>)
    requires i < |store|
    ensures |s'| == |store| && s'[i].shifts == nextst
    ensures forall h :: 0 <= h < |store| ==> s'[h] == if h == i then store[i].(shifts := nextst) else store[h]
  {
    store[i := store[i].(shifts := nextst)]
  }

  /** Setting state `i`'s transitions to targets that meet the transition invariant keeps every invariant. */
  lemma ShiftsStep(g: Grammar, store: seq<State>, index: seq<seq<nat>>, i: nat, nextst: seq<nat>)
    requires g.WF() && StoreOk(g, store) && IndexOk(g, store, index) && i < |store|
    requires forall h :: 0 <= h < i ==> GotoOk(g, store, h)
    requires TargetsOk(store, nextst) && SuccClosed(g, Succ(store, nextst))
    requires forall j :: 0 <= j < |store[i].items| && HasNext(g, store[i].items[j].item) ==>
               Slice(store[i].items[j].item) in Succ(store, nextst)
    requires Reached(g, Advances(g, store[i].items), Succ(store, nextst))
    ensures StoreOk(g, WithShifts(store, i, nextst))
    ensures IndexOk(g, WithShifts(store, i, nextst), index)
    ensures Unborn(g, WithShifts(store, i, nextst)) == Unborn(g, store)
    ensures forall h :: 0 <= h <= i ==> GotoOk(g, WithShifts(store, i, nextst), h)
  {
    var s' := WithShifts(store, i, nextst);
    GotoAfterUpdate(g, store, i, nextst);
    ShiftsUpdate(g, store, index, i, nextst);
    GotosKept(g, store, s', i);
  }
}
