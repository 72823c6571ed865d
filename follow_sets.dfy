/**
 * The three contributions `computeFollow` makes to the FOLLOW table for one
 * state: FIRST of what follows the transition symbol in each target's
 * kernel, the lookahead sets of items whose remaining symbols after the next
 * one are nullable, and FOLLOW of the expanded symbol for kernel items whose
 * rest is nullable.
 */
module FollowSets {
  import opened Grammar
  import opened FirstSets
  import opened Automaton
  import opened Lookaheads

  lemma RestCoded(g: Grammar, it: Item)
    requires g.WF() && ValidItem(g, it)
    ensures Coded(g, Rest(g, it))
  {
    assert g.ProdOk(it.rule);
  }

  /** FIRST of the symbols from an item's dot to the end of its body. */
  function RestFirst(g: Grammar, first: seq<set<nat>>, nullable: seq<bool>, it: Item): set<nat>
    requires g.WF() && |first| == g.N() && |nullable| == g.N() && ValidItem(g, it)
  {
    RestCoded(g, it);
    FirstOfSeq(g, first, nullable, Rest(g, it))
  }

  /** The symbols from an item's dot to the end of its body can all derive the empty string. */
  predicate RestNullable(g: Grammar, nullable: seq<bool>, it: Item)
    requires g.WF() && |nullable| == g.N() && ValidItem(g, it)
  {
    RestCoded(g, it);
    IsSeqNullable(g, nullable, Rest(g, it))
  }

  ghost predicate ValidItems(g: Grammar, xs: seq<Lr1>)
  {
    forall k :: 0 <= k < |xs| ==> ValidItem(g, xs[k].item)
  }

  /** A well-shaped state's items are valid, with symbol codes for their `left`s and lookaheads. */
  lemma ShapedItems(g: Grammar, st: State)
    requires g.WF() && WellShaped(g, st)
    ensures ValidItems(g, st.items) && LeftsOk(g, st.items) && LooksOk(g, st.items) && st.through < g.N()
  {
    forall k | 0 <= k < |st.items|
      ensures ValidItem(g, st.items[k].item)
    {
      assert ItemsOf(st.items)[k] == st.items[k].item;
    }
  }

  /** The union of FIRST of the rests of the first `n` items. */
  ghost function KernelFirsts(g: Grammar, first: seq<set<nat>>, nullable: seq<bool>, xs: seq<Lr1>, n: nat): set<nat>
    requires g.WF() && |first| == g.N() && |nullable| == g.N() && ValidItems(g, xs) && n <= |xs|
  {
    if n == 0 then {}
    else KernelFirsts(g, first, nullable, xs, n - 1) + RestFirst(g, first, nullable, xs[n - 1].item)
  }

  lemma {:induction false} KernelFirstsMeans(g: Grammar, first: seq<set<nat>>, nullable: seq<bool>, xs: seq<Lr1>, n: nat, t: nat)
    requires g.WF() && |first| == g.N() && |nullable| == g.N() && ValidItems(g, xs) && n <= |xs|
    ensures t in KernelFirsts(g, first, nullable, xs, n) <==>
              exists j :: 0 <= j < n && t in RestFirst(g, first, nullable, xs[j].item)
  {
    if n > 0 {
      KernelFirstsMeans(g, first, nullable, xs, n - 1, t);
    }
  }

  lemma {:induction false} KernelFirstsCodes(g: Grammar, first: seq<set<nat>>, nullable: seq<bool>, xs: seq<Lr1>, n: nat)
    requires g.WF() && |first| == g.N() && |nullable| == g.N() && ValidItems(g, xs) && n <= |xs|
    requires TerminalSets(g, first)
    ensures forall t :: t in KernelFirsts(g, first, nullable, xs, n) ==> t < g.N() && g.symbols[t].terminal
  {
    if n > 0 {
      KernelFirstsCodes(g, first, nullable, xs, n - 1);
      var it := xs[n - 1].item;
      RestCoded(g, it);
      forall t | t in RestFirst(g, first, nullable, it)
        ensures t < g.N() && g.symbols[t].terminal
      {
        FirstOfSeqMeans(g, first, nullable, Rest(g, it), t);
      }
    }
  }

  /**
   * The first loop of `computeFollow` for one target: for each item before
   * the first head item, `computeFirst` adds FIRST of the item's rest to `p`.
   */
  method FirstIntoFollow(g: Grammar, first: seq<set<nat>>, nullable: seq<bool>, xs: seq<Lr1>, p: set<nat>)
    returns (p': set<nat>)
    requires g.WF() && |first| == g.N() && |nullable| == g.N() && ValidItems(g, xs)
    ensures p' == p + KernelFirsts(g, first, nullable, xs, HeadFree(ItemsOf(xs)))
  {
    var hf := HeadFree(ItemsOf(xs));
    p' := p;
    var j := 0;
    while j < |xs| && !IsHead(xs[j].item)
      invariant j <= hf && p' == p + KernelFirsts(g, first, nullable, xs, j)
    {
      assert ItemsOf(xs)[j] == xs[j].item;
      RestCoded(g, xs[j].item);
      p' := ComputeFirst(g, first, nullable, p', xs[j].item);
      j := j + 1;
    }
    assert j == |xs| || IsHead(ItemsOf(xs)[j]);
  }

  /**
   * Item `it` passes its lookahead set to FOLLOW of `s`: `s` is the
   * nonterminal after its dot and what follows `s` in the body is nullable.
   */
  predicate FeedsFollow(g: Grammar, nullable: seq<bool>, it: Item, s: nat)
    requires g.WF() && |nullable| == g.N()
  {
    && HasNext(g, it)
    && After(g, it) == s
    && !g.symbols[s].terminal
    && RestNullable(g, nullable, Slice(it))
  }

  /** The union of the lookahead sets of the first `n` items that feed FOLLOW of `s`. */
  ghost function LooksInto(g: Grammar, nullable: seq<bool>, xs: seq<Lr1>, s: nat, n: nat): set<nat>
    requires g.WF() && |nullable| == g.N() && n <= |xs|
  {
    if n == 0 then {}
    else LooksInto(g, nullable, xs, s, n - 1) + (if FeedsFollow(g, nullable, xs[n - 1].item, s) then xs[n - 1].look else {})
  }

  lemma {:induction false} LooksIntoMeans(g: Grammar, nullable: seq<bool>, xs: seq<Lr1>, s: nat, n: nat, t: nat)
    requires g.WF() && |nullable| == g.N() && n <= |xs|
    ensures t in LooksInto(g, nullable, xs, s, n) <==>
              exists j :: 0 <= j < n && FeedsFollow(g, nullable, xs[j].item, s) && t in xs[j].look
  {
    if n > 0 {
      LooksIntoMeans(g, nullable, xs, s, n - 1, t);
    }
  }

  /** FOLLOW `fol'` is `fol` with the lookaheads of the items into each symbol added. */
  ghost predicate LooksAdded(g: Grammar, nullable: seq<bool>, xs: seq<Lr1>, fol: seq<set<nat>>, fol': seq<set<nat>>)
    requires g.WF() && |nullable| == g.N() && |fol| == g.N() && ValidItems(g, xs)
  {
    |fol'| == g.N() && forall s :: 0 <= s < g.N() ==> fol'[s] == fol[s] + LooksInto(g, nullable, xs, s, |xs|)
  }

  /**
   * The second loop of `computeFollow`: every item whose next symbol is a
   * nonterminal followed by a nullable rest adds its lookahead set to
   * FOLLOW of that nonterminal.
   */
  method LooksIntoFollow(g: Grammar, nullable: seq<bool>, xs: seq<Lr1>, fol: seq<set<nat>>)
    returns (fol': seq<set<nat>>)
    requires g.WF() && |nullable| == g.N() && |fol| == g.N() && ValidItems(g, xs)
    ensures LooksAdded(g, nullable, xs, fol, fol')
  {
    fol' := fol;
    for j := 0 to |xs|
      invariant |fol'| == g.N()
      invariant forall s :: 0 <= s < g.N() ==> fol'[s] == fol[s] + LooksInto(g, nullable, xs, s, j)
    {
      var it := xs[j].item;
      if !IsTail(g, it) {
        var s := After(g, it);
        if !g.symbols[s].terminal && RestNullable(g, nullable, Slice(it)) {
          fol' := fol'[s := fol'[s] + xs[j].look];
        }
      }
    }
  }

  /**
   * `orbits` into one entry of a table of symbol-code sets: the table grows,
   * stays bounded, and the measure drops exactly when the entry gains a code.
   */
  lemma UnionInto(n: nat, fol: seq<set<nat>>, s: nat, src: set<nat>)
    requires |fol| == n && s < n && Bounded(n, fol) && forall t :: t in src ==> t < n
    ensures var fol' := fol[s := fol[s] + src];
      && Bounded(n, fol') && Grown(fol, fol')
      && PendingSets(n, fol') <= PendingSets(n, fol)
      && (!(src <= fol[s]) ==> PendingSets(n, fol') < PendingSets(n, fol))
      && (src <= fol[s] ==> fol' == fol)
  {
    var fol' := fol[s := fol[s] + src];
    PendingSetsShrink(n, fol, fol');
    if !(src <= fol[s]) {
      var u :| u in src && u !in fol[s];
      PendingSetsStrict(n, fol, fol', s, u);
    } else {
      assert fol[s] + src == fol[s];
    }
  }

  /**
   * The closure the nested fixpoint of `computeFollow` reaches for a target
   * entered through a nonterminal: FOLLOW of the symbol that brought in each
   * kernel item with a nullable rest is contained in FOLLOW of the target's symbol.
   */
  ghost predicate ChainClosed(g: Grammar, nullable: seq<bool>, t: State, fol: seq<set<nat>>)
    requires g.WF() && |nullable| == g.N() && |fol| == g.N() && WellShaped(g, t)
  {
    ShapedItems(g, t);
    forall j :: 0 <= j < HeadFree(ItemsOf(t.items)) && RestNullable(g, nullable, t.items[j].item) &&
                t.items[j].left != g.startPrime ==>
      fol[t.items[j].left] <= fol[t.through]
  }

  /**
   * One target's part of a pass of the nested fixpoint: FOLLOW of the
   * target's symbol takes in FOLLOW of the `left` of each kernel item with a
   * nullable rest; `changed` reports whether it grew.
   */
  method ChainInto(g: Grammar, nullable: seq<bool>, t: State, fol: seq<set<nat>>)
    returns (fol': seq<set<nat>>, changed: bool)
    requires g.WF() && |nullable| == g.N() && |fol| == g.N() && WellShaped(g, t) && Bounded(g.N(), fol)
    ensures |fol'| == g.N() && Bounded(g.N(), fol') && Grown(fol, fol')
    ensures fol' == fol[t.through := fol'[t.through]]
    ensures changed ==> PendingSets(g.N(), fol') < PendingSets(g.N(), fol)
    ensures !changed ==> fol' == fol && ChainClosed(g, nullable, t, fol)
  {
    ShapedItems(g, t);
    var xs := t.items;
    var hf := HeadFree(ItemsOf(xs));
    var s := t.through;
    fol' := fol;
    changed := false;
    var j := 0;
    while j < |xs| && !IsHead(xs[j].item)
      invariant j <= hf && |fol'| == g.N() && Bounded(g.N(), fol') && Grown(fol, fol')
      invariant fol' == fol[s := fol'[s]]
      invariant changed ==> PendingSets(g.N(), fol') < PendingSets(g.N(), fol)
      invariant !changed ==> fol' == fol
      invariant !changed ==> forall j' :: (0 <= j' < j && RestNullable(g, nullable, xs[j'].item) &&
                               xs[j'].left != g.startPrime) ==> fol[xs[j'].left] <= fol[s]
    {
      assert ItemsOf(xs)[j] == xs[j].item;
      if RestNullable(g, nullable, xs[j].item) && xs[j].left != g.startPrime {
        var src := fol'[xs[j].left];
        changed := changed || !(src <= fol'[s]);
        UnionInto(g.N(), fol', s, src);
        fol' := fol'[s := fol'[s] + src];
      }
      j := j + 1;
    }
    assert j == |xs| || IsHead(ItemsOf(xs)[j]);
  }

  lemma {:induction false} LooksIntoCodes(g: Grammar, nullable: seq<bool>, xs: seq<Lr1>, s: nat, n: nat)
    requires g.WF() && |nullable| == g.N() && n <= |xs| && LooksOk(g, xs)
    ensures forall t :: t in LooksInto(g, nullable, xs, s, n) ==> t < g.N()
  {
    if n > 0 {
      LooksIntoCodes(g, nullable, xs, s, n - 1);
    }
  }

  /** FOLLOW of a target's symbol holds FIRST of what follows that symbol in the target's kernel. */
  ghost predicate FirstsIn(g: Grammar, first: seq<set<nat>>, nullable: seq<bool>, t: State, fol: seq<set<nat>>)
    requires g.WF() && |first| == g.N() && |nullable| == g.N() && |fol| == g.N() && WellShaped(g, t)
  {
    ShapedItems(g, t);
    !g.symbols[t.through].terminal ==>
      KernelFirsts(g, first, nullable, t.items, HeadFree(ItemsOf(t.items))) <= fol[t.through]
  }

  /** `FirstsIn` for every target of state `h`. */
  ghost predicate TargetsFirstsIn(g: Grammar, first: seq<set<nat>>, nullable: seq<bool>, store: seq<State>, h: nat, fol: seq<set<nat>>)
    requires Built(g, store) && h < |store| && |first| == g.N() && |nullable| == g.N() && |fol| == g.N()
  {
    ShiftsBound(g, store, h);
    forall k :: 0 <= k < |store[h].shifts| ==> FirstsIn(g, first, nullable, store[store[h].shifts[k]], fol)
  }

  /** Every FOLLOW entry holds the lookahead sets of the items of `xs` that feed it. */
  ghost predicate LooksIn(g: Grammar, nullable: seq<bool>, xs: seq<Lr1>, fol: seq<set<nat>>)
    requires g.WF() && |nullable| == g.N() && |fol| == g.N()
  {
    forall s :: 0 <= s < g.N() ==> LooksInto(g, nullable, xs, s, |xs|) <= fol[s]
  }

  /** `ChainClosed` for every target of state `h` entered through a nonterminal. */
  ghost predicate TargetsChained(g: Grammar, nullable: seq<bool>, store: seq<State>, h: nat, fol: seq<set<nat>>)
    requires Built(g, store) && h < |store| && |nullable| == g.N() && |fol| == g.N()
  {
    ShiftsBound(g, store, h);
    forall k :: 0 <= k < |store[h].shifts| && !g.symbols[store[store[h].shifts[k]].through].terminal ==>
      ChainClosed(g, nullable, store[store[h].shifts[k]], fol)
  }

  /** What the first two loops of `computeFollow` establish survives further growth of the table. */
  lemma FollowFactsGrow(g: Grammar, first: seq<set<nat>>, nullable: seq<bool>, store: seq<State>, h: nat, a: seq<set<nat>>, b: seq<set<nat>>)
    requires Built(g, store) && h < |store| && |first| == g.N() && |nullable| == g.N() && |a| == g.N() && Grown(a, b)
    ensures TargetsFirstsIn(g, first, nullable, store, h, a) ==> TargetsFirstsIn(g, first, nullable, store, h, b)
    ensures LooksIn(g, nullable, store[h].items, a) ==> LooksIn(g, nullable, store[h].items, b)
  {
    ShiftsBound(g, store, h);
    if TargetsFirstsIn(g, first, nullable, store, h, a) {
      forall k | 0 <= k < |store[h].shifts|
        ensures FirstsIn(g, first, nullable, store[store[h].shifts[k]], b)
      {
        var t := store[store[h].shifts[k]];
        assert FirstsIn(g, first, nullable, t, a);
        assert a[t.through] <= b[t.through];
      }
    }
  }

  lemma {:induction false} KernelFirstsSame(g: Grammar, first: seq<set<nat>>, nullable: seq<bool>, xs: seq<Lr1>, ys: seq<Lr1>, n: nat)
    requires g.WF() && |first| == g.N() && |nullable| == g.N() && ValidItems(g, xs) && n <= |xs| == |ys|
    requires forall k :: 0 <= k < |xs| ==> ys[k].item == xs[k].item
    ensures ValidItems(g, ys) && KernelFirsts(g, first, nullable, ys, n) == KernelFirsts(g, first, nullable, xs, n)
  {
    if n > 0 {
      KernelFirstsSame(g, first, nullable, xs, ys, n - 1);
    }
  }

  lemma {:induction false} LooksIntoSame(g: Grammar, nullable: seq<bool>, xs: seq<Lr1>, ys: seq<Lr1>, s: nat, n: nat)
    requires g.WF() && |nullable| == g.N() && n <= |xs| == |ys|
    requires forall k :: 0 <= k < |xs| ==> ys[k].item == xs[k].item
    requires forall k :: 0 <= k < |xs| && ys[k].look != xs[k].look ==> ValidItem(g, xs[k].item) && IsTail(g, xs[k].item)
    ensures LooksInto(g, nullable, ys, s, n) == LooksInto(g, nullable, xs, s, n)
  {
    if n > 0 {
      LooksIntoSame(g, nullable, xs, ys, s, n - 1);
    }
  }

  /**
   * Growing only the lookahead sets of head-and-tail items keeps what the
   * first two loops of `computeFollow` established for a state.
   */
  lemma FollowFactsShape(g: Grammar, first: seq<set<nat>>, nullable: seq<bool>, a: seq<State>, b: seq<State>, h: nat, fol: seq<set<nat>>)
    requires Built(g, a) && Built(g, b) && OnlyHeadTails(g, a, b) && h < |a|
    requires |first| == g.N() && |nullable| == g.N() && |fol| == g.N()
    ensures TargetsFirstsIn(g, first, nullable, a, h, fol) ==> TargetsFirstsIn(g, first, nullable, b, h, fol)
    ensures LooksIn(g, nullable, a[h].items, fol) ==> LooksIn(g, nullable, b[h].items, fol)
  {
    ShapeFacts(a, b, h);
    ShiftsBound(g, a, h);
    if TargetsFirstsIn(g, first, nullable, a, h, fol) {
      forall k | 0 <= k < |b[h].shifts|
        ensures FirstsIn(g, first, nullable, b[b[h].shifts[k]], fol)
      {
        var t := a[h].shifts[k];
        ShapeFacts(a, b, t);
        assert FirstsIn(g, first, nullable, a[t], fol);
        assert WellShaped(g, a[t]) && WellShaped(g, b[t]);
        ShapedItems(g, a[t]);
        KernelFirstsSame(g, first, nullable, a[t].items, b[t].items, HeadFree(ItemsOf(a[t].items)));
      }
    }
    if LooksIn(g, nullable, a[h].items, fol) {
      forall s | 0 <= s < g.N()
        ensures LooksInto(g, nullable, b[h].items, s, |b[h].items|) <= fol[s]
      {
        LooksIntoSame(g, nullable, a[h].items, b[h].items, s, |a[h].items|);
      }
    }
  }

  /**
   * The closure the last pass of `computeLookaheads` leaves at state `h`:
   * its lookahead sets are propagated to its successors, and FOLLOW holds
   * the contributions of the first two loops of `computeFollow`.
   */
  ghost predicate LooksClosed(g: Grammar, first: seq<set<nat>>, nullable: seq<bool>, store: seq<State>, fol: seq<set<nat>>, h: nat)
    requires Built(g, store) && h < |store| && |first| == g.N() && |nullable| == g.N() && |fol| == g.N()
  {
    && Propagated(g, store, h)
    && TargetsFirstsIn(g, first, nullable, store, h, fol)
    && LooksIn(g, nullable, store[h].items, fol)
  }

  /** `LooksClosed` for the states before `n`. */
  ghost predicate ClosedBelow(g: Grammar, first: seq<set<nat>>, nullable: seq<bool>, store: seq<State>, fol: seq<set<nat>>, n: nat)
    requires Built(g, store) && n <= |store| && |first| == g.N() && |nullable| == g.N() && |fol| == g.N()
  {
    forall h :: 0 <= h < n ==> LooksClosed(g, first, nullable, store, fol, h)
  }

  lemma ClosedBelowExtend(g: Grammar, first: seq<set<nat>>, nullable: seq<bool>, store: seq<State>, fol: seq<set<nat>>, n: nat)
    requires Built(g, store) && n < |store| && |first| == g.N() && |nullable| == g.N() && |fol| == g.N()
    requires ClosedBelow(g, first, nullable, store, fol, n) && LooksClosed(g, first, nullable, store, fol, n)
    ensures ClosedBelow(g, first, nullable, store, fol, n + 1)
  {
  }

  /**
   * Within the last pass of `computeLookaheads`, what later states do (grow
   * FOLLOW, grow the sets of empty-production items) keeps the closure of
   * the states already visited.
   */
  lemma ClosedBelowKeep(g: Grammar, first: seq<set<nat>>, nullable: seq<bool>, a: seq<State>, b: seq<State>,
                        fa: seq<set<nat>>, fb: seq<set<nat>>, n: nat)
    requires Built(g, a) && Built(g, b) && OnlyHeadTails(g, a, b) && n <= |a|
    requires |first| == g.N() && |nullable| == g.N() && |fa| == g.N() && Grown(fa, fb)
    requires ClosedBelow(g, first, nullable, a, fa, n)
    ensures ClosedBelow(g, first, nullable, b, fb, n)
  {
    forall h | 0 <= h < n
      ensures LooksClosed(g, first, nullable, b, fb, h)
    {
      assert LooksClosed(g, first, nullable, a, fa, h);
      PropagatedKeep(g, a, b, h);
      FollowFactsGrow(g, first, nullable, a, h, fa, fb);
      FollowFactsShape(g, first, nullable, a, b, h, fb);
    }
  }

  lemma FirstsInGrow(g: Grammar, first: seq<set<nat>>, nullable: seq<bool>, t: State, a: seq<set<nat>>, b: seq<set<nat>>)
    requires g.WF() && |first| == g.N() && |nullable| == g.N() && |a| == g.N() && WellShaped(g, t)
    requires Grown(a, b) && FirstsIn(g, first, nullable, t, a)
    ensures FirstsIn(g, first, nullable, t, b)
  {
    ShapedItems(g, t);
  }

  /** The first loop of `computeFollow` for one target `t`. */
  method FirstsIntoTarget(g: Grammar, first: seq<set<nat>>, nullable: seq<bool>, t: State, fol: seq<set<nat>>)
    returns (fol': seq<set<nat>>)
    requires g.WF() && WellShaped(g, t) && |fol| == g.N() && Bounded(g.N(), fol)
    requires |first| == g.N() && |nullable| == g.N() && TerminalSets(g, first)
    ensures |fol'| == g.N() && Bounded(g.N(), fol') && Grown(fol, fol')
    ensures FirstsIn(g, first, nullable, t, fol')
  {
    ShapedItems(g, t);
    fol' := fol;
    if !g.symbols[t.through].terminal {
      KernelFirstsCodes(g, first, nullable, t.items, HeadFree(ItemsOf(t.items)));
      var p := FirstIntoFollow(g, first, nullable, t.items, fol[t.through]);
      fol' := fol[t.through := p];
    }
  }

  /**
   * The first loop of `computeFollow`: for each target of state `h`
   * entered through a nonterminal, `computeFirst` adds to FOLLOW of that
   * nonterminal FIRST of the rest of each kernel item.
   */
  method TargetFirsts(g: Grammar, first: seq<set<nat>>, nullable: seq<bool>, store: seq<State>, h: nat, fol: seq<set<nat>>)
    returns (fol': seq<set<nat>>)
    requires Built(g, store) && h < |store| && |fol| == g.N() && Bounded(g.N(), fol)
    requires |first| == g.N() && |nullable| == g.N() && TerminalSets(g, first)
    ensures |fol'| == g.N() && Bounded(g.N(), fol') && Grown(fol, fol')
    ensures TargetsFirstsIn(g, first, nullable, store, h, fol')
  {
    ShiftsBound(g, store, h);
    fol' := FirstsIntoShifts(g, first, nullable, store, store[h].shifts, fol);
  }

  /** The loop of `TargetFirsts` over the handles `shifts` of well-shaped states. */
  method FirstsIntoShifts(g: Grammar, first: seq<set<nat>>, nullable: seq<bool>, store: seq<State>, shifts: seq<nat>, fol: seq<set<nat>>)
    returns (fol': seq<set<nat>>)
    requires g.WF() && |fol| == g.N() && Bounded(g.N(), fol)
    requires |first| == g.N() && |nullable| == g.N() && TerminalSets(g, first)
    requires forall k :: 0 <= k < |shifts| ==> shifts[k] < |store| && WellShaped(g, store[shifts[k]])
    ensures |fol'| == g.N() && Bounded(g.N(), fol') && Grown(fol, fol')
    ensures forall k :: 0 <= k < |shifts| ==> FirstsIn(g, first, nullable, store[shifts[k]], fol')
  {
    fol' := fol;
    for k := 0 to |shifts|
      invariant |fol'| == g.N() && Bounded(g.N(), fol') && Grown(fol, fol')
      invariant forall k' :: 0 <= k' < k ==> FirstsIn(g, first, nullable, store[shifts[k']], fol')
    {
      ghost var prev := fol';
      fol' := FirstsIntoTarget(g, first, nullable, store[shifts[k]], fol');
      GrownTrans(fol, prev, fol');
      forall k' | 0 <= k' < k
        ensures FirstsIn(g, first, nullable, store[shifts[k']], fol')
      {
        FirstsInGrow(g, first, nullable, store[shifts[k']], prev, fol');
      }
    }
  }

  /**
   * One pass of the nested fixpoint of `computeFollow` over the targets of
   * state `h` entered through a nonterminal; `changed` reports whether any
   * FOLLOW set grew.
   */
  method ChainPass(g: Grammar, nullable: seq<bool>, store: seq<State>, h: nat, fol: seq<set<nat>>)
    returns (fol': seq<set<nat>>, changed: bool)
    requires Built(g, store) && h < |store| && |fol| == g.N() && Bounded(g.N(), fol) && |nullable| == g.N()
    ensures |fol'| == g.N() && Bounded(g.N(), fol') && Grown(fol, fol')
    ensures changed ==> PendingSets(g.N(), fol') < PendingSets(g.N(), fol)
    ensures !changed ==> fol' == fol && TargetsChained(g, nullable, store, h, fol)
  {
    ShiftsBound(g, store, h);
    fol', changed := ChainShifts(g, nullable, store, store[h].shifts, fol);
  }

  /** The loop of `ChainPass` over the handles `shifts` of well-shaped states. */
  method ChainShifts(g: Grammar, nullable: seq<bool>, store: seq<State>, shifts: seq<nat>, fol: seq<set<nat>>)
    returns (fol': seq<set<nat>>, changed: bool)
    requires g.WF() && |fol| == g.N() && Bounded(g.N(), fol) && |nullable| == g.N()
    requires forall k :: 0 <= k < |shifts| ==> shifts[k] < |store| && WellShaped(g, store[shifts[k]]) && store[shifts[k]].through < g.N()
    ensures |fol'| == g.N() && Bounded(g.N(), fol') && Grown(fol, fol')
    ensures changed ==> PendingSets(g.N(), fol') < PendingSets(g.N(), fol)
    ensures !changed ==> fol' == fol && forall k :: 0 <= k < |shifts| && !g.symbols[store[shifts[k]].through].terminal ==>
              ChainClosed(g, nullable, store[shifts[k]], fol)
  {
    fol', changed := fol, false;
    for k := 0 to |shifts|
      invariant |fol'| == g.N() && Bounded(g.N(), fol') && Grown(fol, fol')
      invariant PendingSets(g.N(), fol') <= PendingSets(g.N(), fol)
      invariant changed ==> PendingSets(g.N(), fol') < PendingSets(g.N(), fol)
      invariant !changed ==> fol' == fol
      invariant !changed ==> forall k' :: 0 <= k' < k && !g.symbols[store[shifts[k']].through].terminal ==>
                  ChainClosed(g, nullable, store[shifts[k']], fol)
    {
      var t := store[shifts[k]];
      if !g.symbols[t.through].terminal {
        ghost var prev := fol';
        var c;
        fol', c := ChainInto(g, nullable, t, fol');
        PendingSetsShrink(g.N(), prev, fol');
        GrownTrans(fol, prev, fol');
        changed := changed || c;
      }
    }
  }


  /**
   * What a pass of `computeLookaheads` has done after its first `n` states,
   * from the automaton `a` and FOLLOW table `fa` it started with.
   */
  ghost predicate PassSoFar(g: Grammar, first: seq<set<nat>>, nullable: seq<bool>, a: seq<State>, fa: seq<set<nat>>,
                            b: seq<State>, fb: seq<set<nat>>, changed: bool, n: nat)
    requires Built(g, b) && n <= |b| && |first| == g.N() && |nullable| == g.N() && |fb| == g.N()
  {
    && SameShape(a, b) && LooksGrown(a, b) && Grown(fa, fb)
    && PendingLook(g.N(), b) <= PendingLook(g.N(), a)
    && (changed ==> PendingLook(g.N(), b) < PendingLook(g.N(), a))
    && (!changed ==> ClosedBelow(g, first, nullable, b, fb, n))
  }

  /** One more state of the pass. */
  lemma PassStep(g: Grammar, first: seq<set<nat>>, nullable: seq<bool>, a: seq<State>, fa: seq<set<nat>>,
                 s0: seq<State>, f0: seq<set<nat>>, s1: seq<State>, f1: seq<set<nat>>, changed: bool, c: bool, n: nat)
    requires Built(g, s0) && Built(g, s1) && n < |s0| && |first| == g.N() && |nullable| == g.N() && |f0| == g.N()
    requires PassSoFar(g, first, nullable, a, fa, s0, f0, changed, n)
    requires SameShape(s0, s1) && LooksGrown(s0, s1) && Grown(f0, f1)
    requires PendingLook(g.N(), s1) <= PendingLook(g.N(), s0)
    requires c ==> PendingLook(g.N(), s1) < PendingLook(g.N(), s0)
    requires !c ==> OnlyHeadTails(g, s0, s1) && LooksClosed(g, first, nullable, s1, f1, n)
    ensures PassSoFar(g, first, nullable, a, fa, s1, f1, changed || c, n + 1)
  {
    SameShapeTrans(a, s0, s1);
    LooksGrownTrans(a, s0, s1);
    GrownTrans(fa, f0, f1);
    if !changed && !c {
      ClosedBelowKeep(g, first, nullable, s0, s1, f0, f1, n);
      ClosedBelowExtend(g, first, nullable, s1, f1, n);
    }
  }
}
