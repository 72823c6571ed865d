/**
 * What the lookahead stage works on: the automaton as kernel construction
 * leaves it, lookahead sets that grow one union at a time while nothing
 * else about a state changes, and the closure facts the propagation and
 * FOLLOW computations establish.
 */
module Lookaheads {
  import opened Grammar
  import opened FirstSets
  import opened Automaton

  /** The automaton after kernel construction: the store invariant and every state's transitions. */
  ghost predicate Built(g: Grammar, store: seq<State>)
  {
    && g.WF()
    && StoreOk(g, store)
    && forall h :: 0 <= h < |store| ==> GotoOk(g, store, h)
  }

  /** The transitions of a built automaton lead to states other than the initial one. */
  lemma ShiftsBound(g: Grammar, store: seq<State>, h: nat)
    requires Built(g, store) && h < |store|
    ensures forall k :: 0 <= k < |store[h].shifts| ==> 0 < store[h].shifts[k] < |store|
  {
    assert GotoOk(g, store, h);
  }

  /** An item list with its lookahead sets left out. */
  function Blank(xs: seq<Lr1>): seq<Lr1>
  {
    seq(|xs|, k requires 0 <= k < |xs| => xs[k].(look := {}))
  }

  /** `b` differs from `a` at most in lookahead sets. */
  ghost predicate SameShape(a: seq<State>, b: seq<State>)
  {
    && |a| == |b|
    && forall h :: 0 <= h < |a| ==>
         b[h].(items := []) == a[h].(items := []) && Blank(b[h].items) == Blank(a[h].items)
  }

  /** Every lookahead set of `a` is contained in the corresponding set of `b`. */
  ghost predicate LooksGrown(a: seq<State>, b: seq<State>)
  {
    && |a| == |b|
    && forall h, j :: 0 <= h < |a| && 0 <= j < |a[h].items| && j < |b[h].items| ==>
         a[h].items[j].look <= b[h].items[j].look
  }

  /** The (state, item, symbol) triples not yet in a lookahead set: the measure of the lookahead loop. */
  ghost function PendingLook(n: nat, store: seq<State>): set<(nat, nat, nat)>
  {
    set h, j, t | 0 <= h < |store| && 0 <= j < |store[h].items| && 0 <= t < n && t !in store[h].items[j].look
      :: (h, j, t)
  }

  /**
   * `b` is `a` after part of a lookahead pass: still built, same shape,
   * sets only grown; `changed` exactly when the pending triples shrank,
   * and `b` is `a` itself when not.
   */
  ghost predicate LooksAdvance(g: Grammar, a: seq<State>, b: seq<State>, changed: bool)
  {
    && Built(g, b) && SameShape(a, b) && LooksGrown(a, b)
    && PendingLook(g.N(), b) <= PendingLook(g.N(), a)
    && (changed ==> PendingLook(g.N(), b) < PendingLook(g.N(), a))
    && (!changed ==> b == a)
  }

  lemma LooksAdvanceTrans(g: Grammar, a: seq<State>, b: seq<State>, c: seq<State>, c1: bool, c2: bool)
    requires LooksAdvance(g, a, b, c1)
    requires Built(g, c) && SameShape(b, c) && LooksGrown(b, c)
    requires PendingLook(g.N(), c) <= PendingLook(g.N(), b)
    requires c2 ==> PendingLook(g.N(), c) < PendingLook(g.N(), b)
    requires !c2 ==> c == b
    ensures LooksAdvance(g, a, c, c1 || c2)
  {
    SameShapeTrans(a, b, c);
    LooksGrownTrans(a, b, c);
  }

  /** The store with the lookahead set of item `j` of state `h` replaced. */
  function SetLook(store: seq<State>, h: nat, j: nat, look: set<nat>): (s': seq<State>)
    requires h < |store| && j < |store[h].items|
    ensures |s'| == |store| && |s'[h].items| == |store[h].items| && s'[h].items[j].look == look
  {
    store[h := store[h].(items := store[h].items[j := store[h].items[j].(look := look)])]
  }

  lemma ShapeFacts(a: seq<State>, b: seq<State>, h: nat)
    requires SameShape(a, b) && h < |a|
    ensures b[h].through == a[h].through && b[h].shifts == a[h].shifts
    ensures b[h].reduce == a[h].reduce && b[h].conflict == a[h].conflict && b[h].number == a[h].number
    ensures |b[h].items| == |a[h].items|
    ensures forall j :: 0 <= j < |a[h].items| ==> b[h].items[j].item == a[h].items[j].item && b[h].items[j].left == a[h].items[j].left
    ensures ItemsOf(b[h].items) == ItemsOf(a[h].items)
  {
    assert b[h].(items := []).through == a[h].(items := []).through;
    assert |Blank(b[h].items)| == |Blank(a[h].items)|;
    forall j | 0 <= j < |a[h].items|
      ensures b[h].items[j].item == a[h].items[j].item && b[h].items[j].left == a[h].items[j].left
    {
      assert Blank(b[h].items)[j] == Blank(a[h].items)[j];
    }
  }

  lemma SameShapeTrans(a: seq<State>, b: seq<State>, c: seq<State>)
    requires SameShape(a, b) && SameShape(b, c)
    ensures SameShape(a, c)
  {
  }

  lemma LooksGrownTrans(a: seq<State>, b: seq<State>, c: seq<State>)
    requires SameShape(a, b) && LooksGrown(a, b) && LooksGrown(b, c)
    ensures LooksGrown(a, c)
  {
    forall h, j | 0 <= h < |a| && 0 <= j < |a[h].items| && j < |c[h].items|
      ensures a[h].items[j].look <= c[h].items[j].look
    {
      ShapeFacts(a, b, h);
    }
  }

  /** Growing lookahead sets never adds pending triples. */
  lemma PendingShrinks(n: nat, a: seq<State>, b: seq<State>)
    requires SameShape(a, b) && LooksGrown(a, b)
    ensures PendingLook(n, b) <= PendingLook(n, a)
  {
    forall x | x in PendingLook(n, b)
      ensures x in PendingLook(n, a)
    {
      var h, j, t := x.0, x.1, x.2;
      ShapeFacts(a, b, h);
    }
  }

  /** Replacing one lookahead set keeps the shape and all the other sets. */
  lemma SetLookFacts(store: seq<State>, h: nat, j: nat, look: set<nat>)
    requires h < |store| && j < |store[h].items|
    ensures SameShape(store, SetLook(store, h, j, look))
    ensures forall h', j' :: 0 <= h' < |store| && 0 <= j' < |store[h'].items| && (h', j') != (h, j) ==>
              SetLook(store, h, j, look)[h'].items[j'].look == store[h'].items[j'].look
    ensures look == store[h].items[j].look ==> SetLook(store, h, j, look) == store
  {
    var s' := SetLook(store, h, j, look);
    assert Blank(s'[h].items) == Blank(store[h].items) by {
      forall k | 0 <= k < |store[h].items|
        ensures Blank(s'[h].items)[k] == Blank(store[h].items)[k]
      {
      }
    }
    forall h' | 0 <= h' < |store|
      ensures s'[h'].(items := []) == store[h'].(items := []) && Blank(s'[h'].items) == Blank(store[h'].items)
    {
    }
    if look == store[h].items[j].look {
      assert store[h].items[j := store[h].items[j].(look := look)] == store[h].items;
    }
  }

  /**
   * `orbits` into one lookahead set: the union keeps the shape, grows that
   * set, and when it adds a symbol code the set lacked, the measure drops.
   */
  lemma AddLook(n: nat, store: seq<State>, h: nat, j: nat, src: set<nat>)
    requires h < |store| && j < |store[h].items|
    requires forall t :: t in src ==> t < n
    ensures var s' := SetLook(store, h, j, store[h].items[j].look + src);
      && SameShape(store, s') && LooksGrown(store, s')
      && PendingLook(n, s') <= PendingLook(n, store)
      && (!(src <= store[h].items[j].look) ==> PendingLook(n, s') < PendingLook(n, store))
      && (src <= store[h].items[j].look ==> s' == store)
  {
    var L := store[h].items[j].look + src;
    var s' := SetLook(store, h, j, L);
    SetLookFacts(store, h, j, L);
    PendingShrinks(n, store, s');
    if !(src <= store[h].items[j].look) {
      var t :| t in src && t !in store[h].items[j].look;
      assert (h, j, t) in PendingLook(n, store) && (h, j, t) !in PendingLook(n, s');
    }
    if src <= store[h].items[j].look {
      assert L == store[h].items[j].look;
    }
  }

  /** Changing lookahead sets only, to sets of symbol codes, keeps the automaton built. */
  lemma BuiltShape(g: Grammar, a: seq<State>, b: seq<State>)
    requires Built(g, a) && SameShape(a, b)
    requires forall h :: 0 <= h < |b| ==> LooksOk(g, b[h].items)
    ensures Built(g, b)
  {
    forall h | 0 <= h < |a|
      ensures b[h].through == a[h].through && ItemsOf(b[h].items) == ItemsOf(a[h].items) && b[h].shifts == a[h].shifts
      ensures LeftsOk(g, b[h].items) && Kernel(b[h].items) == Kernel(a[h].items)
    {
      ShapeFacts(a, b, h);
      assert WellShaped(g, a[h]);
    }
    assert SameKernels(a, b);
    forall h | 0 <= h < |b|
      ensures WellShaped(g, b[h]) && (h > 0 ==> EnteredThrough(g, b[h]))
    {
      assert WellShaped(g, a[h]);
      if h > 0 {
        assert EnteredThrough(g, a[h]);
      }
    }
    forall h | 0 <= h < |b|
      ensures GotoOk(g, b, h)
    {
      GotoOkFrame(g, a, b, h);
    }
  }

  /** `orbits` into a lookahead set of a built automaton, from a set of symbol codes, keeps it built. */
  lemma AddLookBuilt(g: Grammar, store: seq<State>, h: nat, j: nat, src: set<nat>)
    requires Built(g, store) && h < |store| && j < |store[h].items|
    requires forall t :: t in src ==> t < g.N()
    ensures Built(g, SetLook(store, h, j, store[h].items[j].look + src))
  {
    var s' := SetLook(store, h, j, store[h].items[j].look + src);
    SetLookFacts(store, h, j, store[h].items[j].look + src);
    forall h' | 0 <= h' < |s'|
      ensures LooksOk(g, s'[h'].items)
    {
      assert WellShaped(g, store[h']);
      forall k, t | 0 <= k < |s'[h'].items| && t in s'[h'].items[k].look
        ensures t < g.N()
      {
        if (h', k) != (h, j) {
          assert t in store[h'].items[k].look;
        }
      }
    }
    BuiltShape(g, store, s');
  }

  /** Every lookahead set of the store holds symbol codes only. */
  lemma BuiltLooks(g: Grammar, store: seq<State>, h: nat, j: nat)
    requires Built(g, store) && h < |store| && j < |store[h].items|
    ensures forall t :: t in store[h].items[j].look ==> t < g.N()
    ensures ValidItem(g, store[h].items[j].item) && store[h].items[j].left < g.N()
  {
    assert WellShaped(g, store[h]);
    assert ItemsOf(store[h].items)[j] == store[h].items[j].item;
  }

  /**
   * Item `m` of the `k`-th target of state `h` is the successor of item `j`
   * of `h`: the target is entered through the symbol after `j`'s dot, and
   * `m` is `j` with the dot moved over it.
   */
  ghost predicate TargetItem(g: Grammar, store: seq<State>, h: nat, j: nat, k: nat, m: nat)
    requires g.WF()
  {
    && h < |store| && j < |store[h].items| && k < |store[h].shifts| && store[h].shifts[k] < |store|
    && m < |store[store[h].shifts[k]].items|
    && HasNext(g, store[h].items[j].item)
    && store[store[h].shifts[k]].through == After(g, store[h].items[j].item)
    && store[store[h].shifts[k]].items[m].item == Slice(store[h].items[j].item)
  }

  /** A kernel item of a target sits in that target's item list, just past the target's symbol. */
  lemma SuccTarget(g: Grammar, store: seq<State>, shifts: seq<nat>, y: Item) returns (k: nat, m: nat)
    requires Built(g, store) && y in Succ(store, shifts)
    requires forall k :: 0 <= k < |shifts| ==> 0 < shifts[k] < |store|
    ensures k < |shifts| && m < |store[shifts[k]].items|
    ensures store[shifts[k]].items[m].item == y && ValidItem(g, y) && store[shifts[k]].through == Before(g, y)
  {
    SuccMember(store, shifts, y);
    k :| 0 <= k < |shifts| && shifts[k] < |store| && y in Kernel(store[shifts[k]].items);
    var t := shifts[k];
    assert WellShaped(g, store[t]) && EnteredThrough(g, store[t]);
    var ker := Kernel(store[t].items);
    m :| 0 <= m < |ker| && ker[m] == y;
    assert store[t].items[m].item == ItemsOf(store[t].items)[m];
  }

  /** What the transition invariant says about one shifting item. */
  lemma GotoSlice(g: Grammar, store: seq<State>, h: nat, j: nat)
    requires g.WF() && h < |store| && GotoOk(g, store, h)
    requires j < |store[h].items| && HasNext(g, store[h].items[j].item)
    ensures Slice(store[h].items[j].item) in Succ(store, store[h].shifts)
    ensures forall k :: 0 <= k < |store[h].shifts| ==> 0 < store[h].shifts[k] < |store|
  {
  }

  /** Moving the dot over the symbol after it puts that symbol just before the dot. */
  lemma SliceBefore(g: Grammar, it: Item)
    requires HasNext(g, it)
    ensures ValidItem(g, Slice(it)) && Before(g, Slice(it)) == After(g, it)
  {
  }

  /** Every shifting item of a built automaton has its successor in a target. */
  lemma TargetExists(g: Grammar, store: seq<State>, h: nat, j: nat)
    requires Built(g, store) && h < |store| && j < |store[h].items| && HasNext(g, store[h].items[j].item)
    ensures exists k: nat, m: nat :: TargetItem(g, store, h, j, k, m)
  {
    var x := store[h].items[j].item;
    var shifts := store[h].shifts;
    GotoSlice(g, store, h, j);
    SliceBefore(g, x);
    var k, m := SuccTarget(g, store, shifts, Slice(x));
    assert TargetItem(g, store, h, j, k, m);
  }

  /** The successor of an item lies in one target and at one place in it. */
  lemma TargetUnique(g: Grammar, store: seq<State>, h: nat, j: nat, k: nat, m: nat, k': nat, m': nat)
    requires Built(g, store) && TargetItem(g, store, h, j, k, m) && TargetItem(g, store, h, j, k', m')
    ensures k == k' && m == m'
  {
    assert GotoOk(g, store, h);
    assert k == k';
    var t := store[h].shifts[k];
    assert WellShaped(g, store[t]);
    var its := ItemsOf(store[t].items);
    assert its[m] == store[t].items[m].item && its[m'] == store[t].items[m'].item;
    assert m < KernelLen(its) && m' < KernelLen(its);
    var ker := Kernel(store[t].items);
    assert ker[m] == its[m] && ker[m'] == its[m'];
    assert StrictItems(ker);
  }

  /** Item `j` of state `h` has passed its lookahead set to its successor. */
  ghost predicate PropagatedAt(g: Grammar, store: seq<State>, h: nat, j: nat)
    requires g.WF()
  {
    forall k: nat, m: nat :: TargetItem(g, store, h, j, k, m) ==>
      store[h].items[j].look <= store[store[h].shifts[k]].items[m].look
  }

  /**
   * The propagation closure of state `h`: every shifting item's lookahead
   * set is contained in that of its successor in the target state.
   */
  ghost predicate Propagated(g: Grammar, store: seq<State>, h: nat)
    requires g.WF() && h < |store|
  {
    forall j :: 0 <= j < |store[h].items| ==> PropagatedAt(g, store, h, j)
  }

  /** `a` and `b` differ only in grown lookahead sets of items that are heads and tails. */
  ghost predicate OnlyHeadTails(g: Grammar, a: seq<State>, b: seq<State>)
  {
    && SameShape(a, b) && LooksGrown(a, b)
    && forall h, j :: (0 <= h < |a| && 0 <= j < |a[h].items| && j < |b[h].items| &&
         b[h].items[j].look != a[h].items[j].look) ==>
           ValidItem(g, a[h].items[j].item) && IsHead(a[h].items[j].item) && IsTail(g, a[h].items[j].item)
  }

  lemma OnlyHeadTailsTrans(g: Grammar, a: seq<State>, b: seq<State>, c: seq<State>)
    requires OnlyHeadTails(g, a, b) && OnlyHeadTails(g, b, c)
    ensures OnlyHeadTails(g, a, c)
  {
    LooksGrownTrans(a, b, c);
    forall h, j | 0 <= h < |a| && 0 <= j < |a[h].items| && j < |c[h].items| && c[h].items[j].look != a[h].items[j].look
      ensures ValidItem(g, a[h].items[j].item) && IsHead(a[h].items[j].item) && IsTail(g, a[h].items[j].item)
    {
      ShapeFacts(a, b, h);
    }
  }

  /** Growing the sets of head-and-tail items keeps every propagation closure. */
  lemma PropagatedKeep(g: Grammar, a: seq<State>, b: seq<State>, h: nat)
    requires g.WF() && OnlyHeadTails(g, a, b) && h < |a| && Propagated(g, a, h)
    ensures Propagated(g, b, h)
  {
    ShapeFacts(a, b, h);
    forall j: nat, k: nat, m: nat | j < |b[h].items| && TargetItem(g, b, h, j, k, m)
      ensures b[h].items[j].look <= b[b[h].shifts[k]].items[m].look
    {
      var t := b[h].shifts[k];
      ShapeFacts(a, b, t);
      assert TargetItem(g, a, h, j, k, m);
      assert PropagatedAt(g, a, h, j);
      assert a[h].items[j].look == b[h].items[j].look;
    }
  }

  /** `foreach ($p->shifts as $t)` up to the target entered through `sym`, known to be at `kw` or before. */
  method FindTransition(store: seq<State>, shifts: seq<nat>, sym: nat, ghost kw: nat) returns (k: nat)
    requires kw < |shifts| && (forall k :: 0 <= k < |shifts| ==> shifts[k] < |store|)
    requires store[shifts[kw]].through == sym
    ensures k <= kw && store[shifts[k]].through == sym
  {
    k := 0;
    while store[shifts[k]].through != sym
      invariant k <= kw
      decreases kw - k
    {
      k := k + 1;
    }
  }

  /** The walk over a target's items up to the one holding `y`, known to be at `mw` or before. */
  method FindItem(items: seq<Lr1>, y: Item, ghost mw: nat) returns (m: nat)
    requires mw < |items| && items[mw].item == y
    ensures m <= mw && items[m].item == y
  {
    m := 0;
    while items[m].item != y
      invariant m <= mw
      decreases mw - m
    {
      m := m + 1;
    }
  }

  /**
   * The searches of the first inner loop of `computeLookaheads`: for an
   * item with a symbol after its dot, the transition entered through that
   * symbol, then the successor item in its target.
   */
  method FindSuccessor(g: Grammar, store: seq<State>, h: nat, j: nat) returns (k: nat, m: nat)
    requires Built(g, store) && h < |store| && j < |store[h].items| && HasNext(g, store[h].items[j].item)
    ensures TargetItem(g, store, h, j, k, m)
  {
    TargetExists(g, store, h, j);
    ghost var kw: nat, mw: nat :| TargetItem(g, store, h, j, kw, mw);
    assert GotoOk(g, store, h);
    var shifts := store[h].shifts;
    k := FindTransition(store, shifts, After(g, store[h].items[j].item), kw);
    assert k == kw;
    m := FindItem(store[shifts[k]].items, Slice(store[h].items[j].item), mw);
  }

  /**
   * One item's part of the first inner loop of `computeLookaheads`: an item
   * with a symbol after its dot unions its lookahead set into that of its
   * successor; `changed` reports whether the successor's set grew.
   */
  method PassLook(g: Grammar, store: seq<State>, h: nat, j: nat) returns (store': seq<State>, changed: bool)
    requires Built(g, store) && h < |store| && j < |store[h].items|
    ensures Built(g, store') && SameShape(store, store') && LooksGrown(store, store')
    ensures PendingLook(g.N(), store') <= PendingLook(g.N(), store)
    ensures changed ==> PendingLook(g.N(), store') < PendingLook(g.N(), store)
    ensures !changed ==> store' == store && PropagatedAt(g, store, h, j)
  {
    BuiltLooks(g, store, h, j);
    var x := store[h].items[j];
    if IsTail(g, x.item) {
      return store, false;
    }
    var k, m := FindSuccessor(g, store, h, j);
    var t := store[h].shifts[k];
    AddLook(g.N(), store, t, m, x.look);
    AddLookBuilt(g, store, t, m, x.look);
    changed := !(x.look <= store[t].items[m].look);
    store' := SetLook(store, t, m, store[t].items[m].look + x.look);
    if !changed {
      forall k': nat, m': nat | TargetItem(g, store, h, j, k', m')
        ensures store[h].items[j].look <= store[store[h].shifts[k']].items[m'].look
      {
        TargetUnique(g, store, h, j, k, m, k', m');
      }
    }
  }

  /** The first inner loop of `computeLookaheads` over every item of state `h`. */
  method PropagateState(g: Grammar, store: seq<State>, h: nat) returns (store': seq<State>, changed: bool)
    requires Built(g, store) && h < |store|
    ensures Built(g, store') && SameShape(store, store') && LooksGrown(store, store')
    ensures PendingLook(g.N(), store') <= PendingLook(g.N(), store)
    ensures changed ==> PendingLook(g.N(), store') < PendingLook(g.N(), store)
    ensures !changed ==> store' == store && Propagated(g, store, h)
  {
    store', changed := store, false;
    for j := 0 to |store[h].items|
      invariant LooksAdvance(g, store, store', changed)
      invariant !changed ==> forall j' :: 0 <= j' < j ==> PropagatedAt(g, store, h, j')
    {
      ShapeFacts(store, store', h);
      ghost var prev := store';
      var c;
      store', c := PassLook(g, store', h, j);
      LooksAdvanceTrans(g, store, prev, store', changed, c);
      changed := changed || c;
    }
  }

  /** Every item of state `t` not brought in by the augmented start symbol holds FOLLOW of its `left`. */
  ghost predicate FollowInLooks(g: Grammar, store: seq<State>, t: nat, fol: seq<set<nat>>)
    requires Built(g, store) && t < |store| && |fol| == g.N()
  {
    forall m :: 0 <= m < |store[t].items| && store[t].items[m].left != g.startPrime ==>
      (BuiltLooks(g, store, t, m);
       fol[store[t].items[m].left] <= store[t].items[m].look)
  }

  /**
   * One item's part of the second inner loop of `computeLookaheads`: item
   * `m` of state `t`, unless its `left` is the augmented start symbol,
   * takes in FOLLOW of its `left`; `changed` reports whether its set grew.
   */
  method FollowIntoItem(g: Grammar, store: seq<State>, t: nat, m: nat, fol: seq<set<nat>>) returns (store': seq<State>, changed: bool)
    requires Built(g, store) && t < |store| && m < |store[t].items| && |fol| == g.N() && Bounded(g.N(), fol)
    ensures Built(g, store') && SameShape(store, store') && LooksGrown(store, store')
    ensures PendingLook(g.N(), store') <= PendingLook(g.N(), store)
    ensures changed ==> PendingLook(g.N(), store') < PendingLook(g.N(), store)
    ensures !changed ==> store' == store && (store[t].items[m].left != g.startPrime ==>
              (BuiltLooks(g, store, t, m);
               fol[store[t].items[m].left] <= store[t].items[m].look))
  {
    BuiltLooks(g, store, t, m);
    var x := store[t].items[m];
    if x.left == g.startPrime {
      return store, false;
    }
    var src := fol[x.left];
    AddLook(g.N(), store, t, m, src);
    AddLookBuilt(g, store, t, m, src);
    changed := !(src <= x.look);
    store' := SetLook(store, t, m, x.look + src);
  }

  /**
   * The second inner loop of `computeLookaheads` for one target: each item
   * whose `left` is not the augmented start symbol takes in FOLLOW of its
   * `left`; `changed` reports whether any set grew.
   */
  method FollowIntoItems(g: Grammar, store: seq<State>, t: nat, fol: seq<set<nat>>) returns (store': seq<State>, changed: bool)
    requires Built(g, store) && t < |store| && |fol| == g.N() && Bounded(g.N(), fol)
    ensures Built(g, store') && SameShape(store, store') && LooksGrown(store, store')
    ensures PendingLook(g.N(), store') <= PendingLook(g.N(), store)
    ensures changed ==> PendingLook(g.N(), store') < PendingLook(g.N(), store)
    ensures !changed ==> store' == store && FollowInLooks(g, store, t, fol)
  {
    store', changed := store, false;
    for m := 0 to |store[t].items|
      invariant LooksAdvance(g, store, store', changed)
      invariant !changed ==> forall m' :: 0 <= m' < m && store[t].items[m'].left != g.startPrime ==>
                  (BuiltLooks(g, store, t, m');
                   fol[store[t].items[m'].left] <= store[t].items[m'].look)
    {
      ShapeFacts(store, store', t);
      ghost var prev := store';
      var c;
      store', c := FollowIntoItem(g, store', t, m, fol);
      LooksAdvanceTrans(g, store, prev, store', changed, c);
      changed := changed || c;
    }
  }

  /** `FollowInLooks` for the first `k` of the targets `shifts`. */
  ghost predicate FollowInTargets(g: Grammar, store: seq<State>, shifts: seq<nat>, fol: seq<set<nat>>, k: nat)
    requires Built(g, store) && |fol| == g.N() && k <= |shifts|
    requires forall k' :: 0 <= k' < |shifts| ==> shifts[k'] < |store|
  {
    forall k' :: 0 <= k' < k ==> FollowInLooks(g, store, shifts[k'], fol)
  }

  lemma FollowInTargetsStep(g: Grammar, store: seq<State>, shifts: seq<nat>, fol: seq<set<nat>>, k: nat)
    requires Built(g, store) && |fol| == g.N() && k < |shifts|
    requires forall k' :: 0 <= k' < |shifts| ==> shifts[k'] < |store|
    requires FollowInTargets(g, store, shifts, fol, k) && FollowInLooks(g, store, shifts[k], fol)
    ensures FollowInTargets(g, store, shifts, fol, k + 1)
  {
  }

  /** The second inner loop of `computeLookaheads` over every target of state `h`. */
  method FollowIntoTargets(g: Grammar, store: seq<State>, h: nat, fol: seq<set<nat>>) returns (store': seq<State>, changed: bool)
    requires Built(g, store) && h < |store| && |fol| == g.N() && Bounded(g.N(), fol)
    ensures Built(g, store') && SameShape(store, store') && LooksGrown(store, store')
    ensures PendingLook(g.N(), store') <= PendingLook(g.N(), store)
    ensures changed ==> PendingLook(g.N(), store') < PendingLook(g.N(), store)
    ensures !changed ==> store' == store
    ensures !changed ==> forall k :: 0 <= k < |store[h].shifts| ==>
              store[h].shifts[k] < |store| && FollowInLooks(g, store, store[h].shifts[k], fol)
  {
    ShiftsBound(g, store, h);
    var shifts := store[h].shifts;
    store', changed := store, false;
    for k := 0 to |shifts|
      invariant LooksAdvance(g, store, store', changed)
      invariant !changed ==> FollowInTargets(g, store, shifts, fol, k)
    {
      ghost var prev := store';
      var c;
      store', c := FollowIntoItems(g, store', shifts[k], fol);
      LooksAdvanceTrans(g, store, prev, store', changed, c);
      if !changed && !c {
        FollowInTargetsStep(g, store, shifts, fol, k);
      }
      changed := changed || c;
    }
  }

  /** Growing the lookahead set of one head-and-tail item changes nothing else. */
  lemma AddLookHeadTail(g: Grammar, store: seq<State>, h: nat, j: nat, src: set<nat>)
    requires Built(g, store) && h < |store| && j < |store[h].items|
    requires ValidItem(g, store[h].items[j].item) && IsHead(store[h].items[j].item) && IsTail(g, store[h].items[j].item)
    requires forall t :: t in src ==> t < g.N()
    ensures OnlyHeadTails(g, store, SetLook(store, h, j, store[h].items[j].look + src))
  {
    AddLook(g.N(), store, h, j, src);
    SetLookFacts(store, h, j, store[h].items[j].look + src);
  }

  /** Every head-and-tail item of state `h` below position `n` holds FOLLOW of its left-hand symbol. */
  ghost predicate HeadTailsFedBelow(g: Grammar, store: seq<State>, h: nat, fol: seq<set<nat>>, n: nat)
    requires g.WF() && h < |store| && |fol| == g.N()
  {
    forall j :: (0 <= j < n && j < |store[h].items| && ValidItem(g, store[h].items[j].item) &&
                 IsHead(store[h].items[j].item) && IsTail(g, store[h].items[j].item)) ==>
      fol[Before(g, store[h].items[j].item)] <= store[h].items[j].look
  }

  /** Every head-and-tail item of state `h` holds FOLLOW of its left-hand symbol. */
  ghost predicate HeadTailsFed(g: Grammar, store: seq<State>, h: nat, fol: seq<set<nat>>)
    requires g.WF() && h < |store| && |fol| == g.N()
  {
    HeadTailsFedBelow(g, store, h, fol, |store[h].items|)
  }

  /** Growing the sets keeps the items already fed; item `j` fed as well extends the prefix by one. */
  lemma HeadTailsFedStep(g: Grammar, a: seq<State>, b: seq<State>, h: nat, fol: seq<set<nat>>, j: nat)
    requires g.WF() && h < |a| && |fol| == g.N() && j < |a[h].items|
    requires SameShape(a, b) && LooksGrown(a, b) && HeadTailsFedBelow(g, a, h, fol, j)
    requires ValidItem(g, b[h].items[j].item) && IsHead(b[h].items[j].item) && IsTail(g, b[h].items[j].item) ==>
               fol[Before(g, b[h].items[j].item)] <= b[h].items[j].look
    ensures HeadTailsFedBelow(g, b, h, fol, j + 1)
  {
    ShapeFacts(a, b, h);
  }

  /**
   * The third inner loop of `computeLookaheads`: every item of state `h`
   * that is both a head and a tail item (an empty production) takes in
   * FOLLOW of its left-hand symbol. No other set changes.
   */
  method HeadTailsInto(g: Grammar, store: seq<State>, h: nat, fol: seq<set<nat>>) returns (store': seq<State>)
    requires Built(g, store) && h < |store| && |fol| == g.N() && Bounded(g.N(), fol)
    ensures Built(g, store') && OnlyHeadTails(g, store, store') && HeadTailsFed(g, store', h, fol)
  {
    store' := store;
    for j := 0 to |store[h].items|
      invariant Built(g, store') && OnlyHeadTails(g, store, store')
      invariant HeadTailsFedBelow(g, store', h, fol, j)
    {
      ShapeFacts(store, store', h);
      BuiltLooks(g, store', h, j);
      ghost var prev := store';
      var x := store'[h].items[j];
      if IsTail(g, x.item) && IsHead(x.item) {
        var src := fol[Before(g, x.item)];
        AddLookHeadTail(g, store', h, j, src);
        AddLookBuilt(g, store', h, j, src);
        SetLookFacts(store', h, j, x.look + src);
        store' := SetLook(store', h, j, x.look + src);
        OnlyHeadTailsTrans(g, store, prev, store');
      }
      HeadTailsFedStep(g, prev, store', h, fol, j);
    }
    ShapeFacts(store, store', h);
  }

  /**
   * The three inner loops of `computeLookaheads` for state `h`, after its
   * `computeFollow`: propagation to the successors, FOLLOW of each target
   * item's `left`, and FOLLOW into the empty-production items. Only the
   * first two report `changed`; when neither does, the third is the only
   * change and the state's propagation closure holds.
   */
  method UpdateLooks(g: Grammar, store: seq<State>, h: nat, fol: seq<set<nat>>) returns (store': seq<State>, changed: bool)
    requires Built(g, store) && h < |store| && |fol| == g.N() && Bounded(g.N(), fol)
    ensures Built(g, store') && SameShape(store, store') && LooksGrown(store, store')
    ensures PendingLook(g.N(), store') <= PendingLook(g.N(), store)
    ensures changed ==> PendingLook(g.N(), store') < PendingLook(g.N(), store)
    ensures !changed ==> OnlyHeadTails(g, store, store') && Propagated(g, store', h)
  {
    var s1, c1 := PropagateState(g, store, h);
    var s2, c2 := FollowIntoTargets(g, s1, h, fol);
    store' := HeadTailsInto(g, s2, h, fol);
    SameShapeTrans(store, s1, s2);
    LooksGrownTrans(store, s1, s2);
    SameShapeTrans(store, s2, store');
    LooksGrownTrans(store, s2, store');
    PendingShrinks(g.N(), s2, store');
    if !c1 && !c2 {
      PropagatedKeep(g, store, store', h);
    }
    changed := c1 || c2;
  }
}
