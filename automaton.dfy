/**
 * The automaton's values: LR(1) items as they sit in a state's item list,
 * reduce entries, conflicts and states, together with the kernel of an item
 * list and the invariants the state store keeps while it is built.
 */
module Automaton {
  import opened Grammar
  import opened Sorting

  /**
   * An item of a state. `left` is the symbol whose expansion brought the item
   * in (the augmented start symbol for successor and closure items) and
   * `look` its lookahead set, a value of its own.
   */
  datatype Lr1 = Lr1(left: nat, look: set<nat>, item: Item)

  /** A reduce-table entry: on `sym` reduce by rule `number` (-1: error). */
  datatype Reduce = Reduce(sym: nat, number: int)

  /** A recorded conflict; `target` is the handle of the shift's target state. */
  datatype Conflict =
    | ShiftReduce(target: nat, rule: nat, sym: nat)
    | ReduceReduce(rule1: int, rule2: nat, sym: nat)

  /**
   * An automaton state. `shifts` holds target handles in transition-symbol
   * order, `conflict` the recorded conflicts newest first.
   */
  datatype State = State(
    through: nat,
    items: seq<Lr1>,
    shifts: seq<nat>,
    reduce: seq<Reduce>,
    conflict: seq<Conflict>,
    number: int)

  function ItemsOf(xs: seq<Lr1>): seq<Item>
  {
    seq(|xs|, k requires 0 <= k < |xs| => xs[k].item)
  }

  /** The number of leading items that are not head items: the first head item sits there. */
  function HeadFree(its: seq<Item>): (r: nat)
    ensures r <= |its|
    ensures forall k :: 0 <= k < r ==> !IsHead(its[k])
    ensures r < |its| ==> IsHead(its[r])
  {
    if its == [] || IsHead(its[0]) then 0 else 1 + HeadFree(its[1..])
  }

  /** The kernel's length: the first item and the items before the next head item. */
  function KernelLen(its: seq<Item>): (r: nat)
    ensures its == [] ==> r == 0
    ensures its != [] ==> 1 <= r <= |its|
  {
    if its == [] then 0 else 1 + HeadFree(its[1..])
  }

  /** The kernel of an item list: what precedes the closure items appended after it. */
  function Kernel(xs: seq<Lr1>): seq<Item>
  {
    ItemsOf(xs)[..KernelLen(ItemsOf(xs))]
  }

  /**
   * `isSameSet(p, q)`: the items of `q` match the first items of `p` one by
   * one, and `p` ends there or goes on with a head item (a closure item).
   */
  predicate IsSameSet(p: seq<Lr1>, q: seq<Lr1>)
  {
    && |q| <= |p|
    && (forall k :: 0 <= k < |q| ==> p[k].item == q[k].item)
    && (|q| == |p| || IsHead(p[|q|].item))
  }

  /** A candidate kernel: nonempty, with no head item after its first item. */
  ghost predicate KernelShaped(q: seq<Lr1>)
  {
    |q| >= 1 && forall k :: 1 <= k < |q| ==> !IsHead(q[k].item)
  }

  /** The structural match is exactly equality of kernels. */
  lemma SameSetIffKernel(p: seq<Lr1>, q: seq<Lr1>)
    requires |p| >= 1 && KernelShaped(q)
    ensures IsSameSet(p, q) <==> Kernel(p) == ItemsOf(q)
  {
    var its := ItemsOf(p);
    var tl := its[1..];
    var hf := HeadFree(tl);
    if IsSameSet(p, q) {
      forall k | 0 <= k < |q| - 1
        ensures !IsHead(tl[k])
      {
        assert tl[k] == q[k + 1].item;
      }
      if |q| < |p| {
        assert tl[|q| - 1] == p[|q|].item;
      }
      assert hf == |q| - 1;
      assert Kernel(p) == ItemsOf(q);
    }
    if Kernel(p) == ItemsOf(q) {
      assert hf + 1 == |q|;
      forall k | 0 <= k < |q|
        ensures p[k].item == q[k].item
      {
        assert Kernel(p)[k] == ItemsOf(q)[k];
      }
      if |q| < |p| {
        assert tl[hf] == p[|q|].item;
      }
    }
  }

  /** The order the kernel sort leaves items of one transition symbol in: by rule, then by position. */
  predicate ItemLt(a: Item, b: Item)
  {
    a.rule < b.rule || (a.rule == b.rule && a.pos < b.pos)
  }

  ghost predicate StrictItems(s: seq<Item>)
  {
    forall i, j :: 0 <= i < j < |s| ==> ItemLt(s[i], s[j])
  }

  ghost function ItemSet(s: seq<Item>): set<Item>
  {
    set y | y in s
  }

  /** Two strictly ordered item sequences with the same members are the same sequence. */
  lemma {:induction false} StrictSetEq(a: seq<Item>, b: seq<Item>)
    requires StrictItems(a) && StrictItems(b) && ItemSet(a) == ItemSet(b)
    ensures a == b
    decreases |a|
  {
    if a == [] {
      assert forall k :: 0 <= k < |b| ==> b[k] in ItemSet(b);
    } else {
      assert a[0] in ItemSet(a);
      assert b != [];
      assert b[0] in ItemSet(b);
      var i :| 0 <= i < |a| && a[i] == b[0];
      var j :| 0 <= j < |b| && b[j] == a[0];
      assert a[0] == b[0];
      forall y | y in ItemSet(a[1..])
        ensures y in ItemSet(b[1..])
      {
        var m :| 0 <= m < |a[1..]| && a[1..][m] == y;
        assert y == a[m + 1] && ItemLt(a[0], y);
        assert y in ItemSet(b);
        var n :| 0 <= n < |b| && b[n] == y;
        assert n != 0;
        assert b[1..][n - 1] == y;
      }
      forall y | y in ItemSet(b[1..])
        ensures y in ItemSet(a[1..])
      {
        var m :| 0 <= m < |b[1..]| && b[1..][m] == y;
        assert y == b[m + 1] && ItemLt(b[0], y);
        assert y in ItemSet(a);
        var n :| 0 <= n < |a| && a[n] == y;
        assert n != 0;
        assert a[1..][n - 1] == y;
      }
      StrictSetEq(a[1..], b[1..]);
      assert a == [a[0]] + a[1..] && b == [b[0]] + b[1..];
    }
  }

  /** Every item of the grammar. */
  ghost function AllItems(g: Grammar): set<Item>
  {
    set r, p | 0 <= r < |g.prods| && 1 <= p <= |g.prods[r].body| :: Item(r, p)
  }

  /** Every (transition symbol, kernel item set) a state could be created with. */
  ghost function Universe(g: Grammar): set<(nat, set<Item>)>
  {
    set s, k | 0 <= s < g.N() && k <= AllItems(g) :: (s, k)
  }

  /** The (transition symbol, kernel item set) of every state created so far. */
  ghost function Created(store: seq<State>): set<(nat, set<Item>)>
  {
    set h | 0 <= h < |store| :: (store[h].through, ItemSet(Kernel(store[h].items)))
  }

  /** The states not yet created: the measure that bounds kernel construction. */
  ghost function Unborn(g: Grammar, store: seq<State>): set<(nat, set<Item>)>
  {
    Universe(g) - Created(store)
  }

  /** Every item's `left` is a symbol code. */
  ghost predicate LeftsOk(g: Grammar, xs: seq<Lr1>)
  {
    forall k :: 0 <= k < |xs| ==> xs[k].left < g.N()
  }

  /** Every item's lookahead set holds symbol codes only. */
  ghost predicate LooksOk(g: Grammar, xs: seq<Lr1>)
  {
    forall k, t :: 0 <= k < |xs| && t in xs[k].look ==> t < g.N()
  }

  /** An item `findEmpty` appends: an empty production with its dot after the left-hand symbol. */
  ghost predicate ClosureLr1(g: Grammar, x: Lr1)
  {
    && x.left == g.startPrime && x.look == {} && x.item.pos == 1
    && x.item.rule < |g.prods| && |g.prods[x.item.rule].body| == 1
  }

  /**
   * A state's item list as state creation leaves it: valid items, a kernel
   * strictly ordered by rule and position, then closure items, each the head
   * and tail of an empty production.
   */
  ghost predicate WellShaped(g: Grammar, st: State)
    requires g.WF()
  {
    var its := ItemsOf(st.items);
    && |its| >= 1
    && st.through < g.N()
    && (forall j :: 0 <= j < |its| ==> ValidItem(g, its[j]))
    && (forall j :: KernelLen(its) <= j < |its| ==> IsHead(its[j]) && IsTail(g, its[j]))
    && StrictItems(Kernel(st.items))
    && LeftsOk(g, st.items)
    && LooksOk(g, st.items)
  }

  /** Each kernel item of a non-initial state has its dot just past the state's transition symbol. */
  ghost predicate EnteredThrough(g: Grammar, st: State)
    requires g.WF() && WellShaped(g, st)
  {
    var ker := Kernel(st.items);
    forall j :: 0 <= j < |ker| ==> ker[j].pos >= 2 && Before(g, ker[j]) == st.through
  }

  /**
   * The store as kernel construction keeps it: well-shaped states, the initial
   * state first, and no two states with the same transition symbol and kernel.
   */
  ghost predicate StoreOk(g: Grammar, store: seq<State>)
    requires g.WF()
  {
    && (forall h :: 0 <= h < |store| ==> WellShaped(g, store[h]))
    && (|store| > 0 ==> store[0].through == g.nil && Kernel(store[0].items) == [Item(0, 1)])
    && (forall h :: 0 < h < |store| ==> EnteredThrough(g, store[h]))
    && (forall h1, h2 :: 0 <= h1 < h2 < |store| && store[h1].through == store[h2].through ==>
          Kernel(store[h1].items) != Kernel(store[h2].items))
  }

  /** `statesThrough`: per symbol, exactly the handles of the states entered through it. */
  ghost predicate IndexOk(g: Grammar, store: seq<State>, index: seq<seq<nat>>)
  {
    && |index| == g.N()
    && (forall s, j :: 0 <= s < |index| && 0 <= j < |index[s]| ==>
          index[s][j] < |store| && store[index[s][j]].through == s)
    && (forall h :: 0 <= h < |store| ==> store[h].through < |index| && h in index[store[h].through])
  }

  /** The kernel items of the targets of `shifts`. */
  ghost function Succ(store: seq<State>, shifts: seq<nat>): set<Item>
  {
    if shifts == [] then {}
    else
      var t := shifts[|shifts| - 1];
      Succ(store, shifts[..|shifts| - 1]) + (if t < |store| then ItemSet(Kernel(store[t].items)) else {})
  }

  lemma SuccAppend(store: seq<State>, shifts: seq<nat>, t: nat)
    ensures Succ(store, shifts + [t]) ==
            Succ(store, shifts) + (if t < |store| then ItemSet(Kernel(store[t].items)) else {})
  {
    assert (shifts + [t])[..|shifts|] == shifts;
  }

  lemma {:induction false} SuccMember(store: seq<State>, shifts: seq<nat>, y: Item)
    requires y in Succ(store, shifts)
    ensures exists k :: 0 <= k < |shifts| && shifts[k] < |store| && y in Kernel(store[shifts[k]].items)
    decreases |shifts|
  {
    var n := |shifts| - 1;
    if n < |shifts| && shifts[n] < |store| && y in ItemSet(Kernel(store[shifts[n]].items)) {
    } else {
      SuccMember(store, shifts[..n], y);
      var k :| 0 <= k < n && shifts[..n][k] < |store| && y in Kernel(store[shifts[..n][k]].items);
      assert shifts[..n][k] == shifts[k];
    }
  }

  lemma {:induction false} SuccHas(store: seq<State>, shifts: seq<nat>, k: nat, y: Item)
    requires k < |shifts| && shifts[k] < |store| && y in Kernel(store[shifts[k]].items)
    ensures y in Succ(store, shifts)
    decreases |shifts|
  {
    var n := |shifts| - 1;
    if k < n {
      assert shifts[..n][k] == shifts[k];
      SuccHas(store, shifts[..n], k, y);
    }
  }

  /** `s2` extends `s1` (or equals it) without touching transition symbols or items. */
  ghost predicate SameKernels(s1: seq<State>, s2: seq<State>)
  {
    |s1| <= |s2| &&
    forall h :: 0 <= h < |s1| ==> s2[h].through == s1[h].through && ItemsOf(s2[h].items) == ItemsOf(s1[h].items)
  }

  lemma {:induction false} SuccStable(s1: seq<State>, s2: seq<State>, shifts: seq<nat>)
    requires SameKernels(s1, s2)
    requires forall k :: 0 <= k < |shifts| ==> shifts[k] < |s1|
    ensures Succ(s1, shifts) == Succ(s2, shifts)
    decreases |shifts|
  {
    if shifts != [] {
      SuccStable(s1, s2, shifts[..|shifts| - 1]);
    }
  }

  /**
   * Production `r`'s closure step: if `y`'s transition symbol is a nonterminal,
   * every production of it with a right-hand side contributes its item at position 2.
   */
  ghost predicate SuccClosed(g: Grammar, s: set<Item>)
    requires g.WF()
  {
    forall y, r :: y in s && ValidItem(g, y) && !g.symbols[Before(g, y)].terminal &&
                   r < |g.prods| && r in g.byLhs[Before(g, y)] && |g.prods[r].body| >= 2 ==>
      Item(r, 2) in s
  }

  /**
   * One round of the closure step: the position-2 item of every production,
   * with a right-hand side, of a nonterminal just before a dot in `s`.
   */
  ghost function Expand(g: Grammar, s: set<Item>): set<Item>
    requires g.WF()
  {
    set y, r | y in s && ValidItem(g, y) && !g.symbols[Before(g, y)].terminal && r in g.byLhs[Before(g, y)] &&
               r < |g.prods| && |g.prods[r].body| >= 2 :: Item(r, 2)
  }

  /** A set is closed exactly when a closure round adds nothing to it. */
  lemma ExpandClosed(g: Grammar, s: set<Item>)
    requires g.WF()
    ensures SuccClosed(g, s) <==> Expand(g, s) <= s
  {
    if Expand(g, s) <= s {
      forall y, r | y in s && ValidItem(g, y) && !g.symbols[Before(g, y)].terminal &&
                    r < |g.prods| && r in g.byLhs[Before(g, y)] && |g.prods[r].body| >= 2
        ensures Item(r, 2) in s
      {
        assert Item(r, 2) in Expand(g, s);
      }
    }
  }

  /** What `n` closure rounds reach from `d`. */
  ghost function Reach(g: Grammar, d: set<Item>, n: nat): set<Item>
    requires g.WF()
  {
    if n == 0 then d else Reach(g, d, n - 1) + Expand(g, Reach(g, d, n - 1))
  }

  /** The successor items of the non-tail items of `xs`. */
  ghost function Advances(g: Grammar, xs: seq<Lr1>): set<Item>
  {
    set j | 0 <= j < |xs| && HasNext(g, xs[j].item) :: Slice(xs[j].item)
  }

  /** Every item of `s` is reached from `d` by some number of closure rounds. */
  ghost predicate Reached(g: Grammar, d: set<Item>, s: set<Item>)
    requires g.WF()
  {
    forall y :: y in s ==> exists n: nat :: y in Reach(g, d, n)
  }

  /** More rounds reach more. */
  lemma {:induction false} ReachMono(g: Grammar, d: set<Item>, m: nat, n: nat)
    requires g.WF() && m <= n
    ensures Reach(g, d, m) <= Reach(g, d, n)
    decreases n
  {
    if m < n {
      ReachMono(g, d, m, n - 1);
    }
  }

  /** A closed set that contains `d` contains everything the rounds reach from `d`. */
  lemma {:induction false} ReachLeast(g: Grammar, d: set<Item>, s: set<Item>, n: nat)
    requires g.WF() && d <= s && SuccClosed(g, s)
    ensures Reach(g, d, n) <= s
    decreases n
  {
    if n > 0 {
      ReachLeast(g, d, s, n - 1);
      ExpandClosed(g, s);
      var p := Reach(g, d, n - 1);
      forall z | z in Expand(g, p)
        ensures z in Expand(g, s)
      {
        var y, r :| y in p && ValidItem(g, y) && !g.symbols[Before(g, y)].terminal && r in g.byLhs[Before(g, y)] &&
                    r < |g.prods| && |g.prods[r].body| >= 2 && z == Item(r, 2);
      }
    }
  }

  /**
   * The transitions of state `h`: targets in strictly increasing symbol
   * order, the successor of every non-tail item among the targets' kernels,
   * those kernels closed under expanding the nonterminal just passed, and
   * nothing in them that the closure rounds do not reach from the successors.
   */
  ghost predicate GotoOk(g: Grammar, store: seq<State>, h: nat)
    requires g.WF() && h < |store|
  {
    var st := store[h];
    && (forall k :: 0 <= k < |st.shifts| ==> 0 < st.shifts[k] < |store|)
    && (forall k1, k2 :: 0 <= k1 < k2 < |st.shifts| ==>
          store[st.shifts[k1]].through < store[st.shifts[k2]].through)
    && (forall j :: 0 <= j < |st.items| && ValidItem(g, st.items[j].item) && !IsTail(g, st.items[j].item) ==>
          Slice(st.items[j].item) in Succ(store, st.shifts))
    && SuccClosed(g, Succ(store, st.shifts))
    && Reached(g, Advances(g, st.items), Succ(store, st.shifts))
  }

  /**
   * The targets' kernels of a state are exactly the LR(0) GOTO items of its
   * items: what the closure rounds reach from the successors of its
   * non-tail items.
   */
  lemma GotoExact(g: Grammar, store: seq<State>, h: nat, y: Item)
    requires g.WF() && h < |store| && GotoOk(g, store, h)
    ensures y in Succ(store, store[h].shifts) <==> exists n: nat :: y in Reach(g, Advances(g, store[h].items), n)
  {
    var st := store[h];
    var d, s := Advances(g, st.items), Succ(store, st.shifts);
    assert d <= s by {
      forall z | z in d
        ensures z in s
      {
        var j :| 0 <= j < |st.items| && HasNext(g, st.items[j].item) && z == Slice(st.items[j].item);
      }
    }
    if n: nat :| y in Reach(g, d, n) {
      ReachLeast(g, d, s, n);
    }
  }

  lemma GotoOkFrame(g: Grammar, s1: seq<State>, s2: seq<State>, h: nat)
    requires g.WF() && h < |s1| && SameKernels(s1, s2) && s2[h].shifts == s1[h].shifts
    requires GotoOk(g, s1, h)
    ensures GotoOk(g, s2, h)
  {
    SuccStable(s1, s2, s1[h].shifts);
    forall j | 0 <= j < |s2[h].items|
      ensures s2[h].items[j].item == s1[h].items[j].item
    {
      assert ItemsOf(s2[h].items)[j] == ItemsOf(s1[h].items)[j];
    }
    assert Advances(g, s2[h].items) == Advances(g, s1[h].items);
  }
  /**
   * A run of the sorted candidate list handed to state creation: valid items
   * past position 1, all just past `through`, strictly ordered.
   */
  ghost predicate KernelRun(g: Grammar, through: nat, sub: seq<Lr1>)
    requires g.WF()
  {
    && |sub| >= 1
    && (forall k :: 0 <= k < |sub| ==>
          ValidItem(g, sub[k].item) && sub[k].item.pos >= 2 && Before(g, sub[k].item) == through &&
          sub[k].left < g.N())
    && StrictItems(ItemsOf(sub))
  }

  /** The (transition symbol, rule, position) key of the kernel sort's comparator. */
  function KernelKey(g: Grammar, x: Lr1): seq<int>
  {
    [if ValidItem(g, x.item) then Before(g, x.item) else 0, x.item.rule, x.item.pos]
  }

  /** The kernel sort's comparator as a key function. */
  function KernelOrder(g: Grammar): Lr1 -> seq<int>
  {
    x => KernelKey(g, x)
  }

  /** Keys in order put the transition symbols in order. */
  lemma KeySymbolOrder(g: Grammar, a: Lr1, b: Lr1)
    requires ValidItem(g, a.item) && ValidItem(g, b.item)
    requires LexLe(KernelKey(g, a), KernelKey(g, b))
    ensures Before(g, a.item) <= Before(g, b.item)
  {
  }

  /** Distinct keys in order, on the same transition symbol, put the items in strict order. */
  lemma KeyItemOrder(g: Grammar, a: Lr1, b: Lr1)
    requires ValidItem(g, a.item) && ValidItem(g, b.item) && Before(g, a.item) == Before(g, b.item)
    requires LexLe(KernelKey(g, a), KernelKey(g, b)) && KernelKey(g, a) != KernelKey(g, b)
    ensures ItemLt(a.item, b.item)
  {
    var ka, kb := KernelKey(g, a), KernelKey(g, b);
    assert ka[1..] == [a.item.rule, a.item.pos] && kb[1..] == [b.item.rule, b.item.pos];
    assert ka[1..][1..] == [a.item.pos] && kb[1..][1..] == [b.item.pos];
    assert LexLe(ka[1..], kb[1..]);
    assert a.item.rule < b.item.rule || LexLe(ka[1..][1..], kb[1..][1..]);
  }

  /** No two entries of the list carry the same item. */
  ghost predicate DistinctItems(xs: seq<Lr1>)
  {
    forall a, b :: 0 <= a < b < |xs| ==> xs[a].item != xs[b].item
  }

  lemma DistinctKeys(g: Grammar, xs: seq<Lr1>)
    requires DistinctItems(xs)
    ensures KeysDistinct(xs, KernelOrder(g))
  {

  }

  lemma CreatedAppend(store: seq<State>, st: State)
    ensures Created(store + [st]) == Created(store) + {(st.through, ItemSet(Kernel(st.items)))}
  {
    var s' := store + [st];
    forall x | x in Created(s')
      ensures x in Created(store) + {(st.through, ItemSet(Kernel(st.items)))}
    {
      var h :| 0 <= h < |s'| && x == (s'[h].through, ItemSet(Kernel(s'[h].items)));
      if h < |store| {
        assert s'[h] == store[h];
      }
    }
    forall x | x in Created(store)
      ensures x in Created(s')
    {
      var h :| 0 <= h < |store| && x == (store[h].through, ItemSet(Kernel(store[h].items)));
      assert s'[h] == store[h];
    }
    assert s'[|store|] == st;
  }

  /** A well-shaped state's kernel is one of the candidates the measure counts. */
  lemma KernelInUniverse(g: Grammar, st: State)
    requires g.WF() && WellShaped(g, st)
    ensures (st.through, ItemSet(Kernel(st.items))) in Universe(g)
  {
    var ker := Kernel(st.items);
    forall y | y in ItemSet(ker)
      ensures y in AllItems(g)
    {
      var j :| 0 <= j < |ker| && ker[j] == y;
      assert ItemsOf(st.items)[j] == y;
      assert ValidItem(g, y);
      assert y == Item(y.rule, y.pos);
    }
  }

  /** A state whose kernel differs from every state's with the same symbol adds a new pair. */
  lemma FreshPair(g: Grammar, store: seq<State>, st: State)
    requires g.WF() && StoreOk(g, store) && WellShaped(g, st)
    requires forall h :: 0 <= h < |store| && store[h].through == st.through ==>
               Kernel(store[h].items) != Kernel(st.items)
    ensures (st.through, ItemSet(Kernel(st.items))) !in Created(store)
  {
    if (st.through, ItemSet(Kernel(st.items))) in Created(store) {
      var h :| 0 <= h < |store| &&
        (st.through, ItemSet(Kernel(st.items))) == (store[h].through, ItemSet(Kernel(store[h].items)));
      assert WellShaped(g, store[h]);
      StrictSetEq(Kernel(store[h].items), Kernel(st.items));
      assert false;
    }
  }

  /** Replacing states by ones with the same transition symbols and items keeps the measure. */
  lemma CreatedFrame(s1: seq<State>, s2: seq<State>)
    requires SameKernels(s1, s2) && |s1| == |s2|
    ensures Created(s1) == Created(s2)
  {
    forall x | x in Created(s1)
      ensures x in Created(s2)
    {
      var h :| 0 <= h < |s1| && x == (s1[h].through, ItemSet(Kernel(s1[h].items)));
      assert x == (s2[h].through, ItemSet(Kernel(s2[h].items)));
    }
    forall x | x in Created(s2)
      ensures x in Created(s1)
    {
      var h :| 0 <= h < |s2| && x == (s2[h].through, ItemSet(Kernel(s2[h].items)));
      assert x == (s1[h].through, ItemSet(Kernel(s1[h].items)));
    }
  }
  /** The kernel of the initial state: the augmented start rule with its dot at the start. */
  ghost predicate InitialRun(sub: seq<Lr1>)
  {
    ItemsOf(sub) == [Item(0, 1)]
  }

  /** A candidate kernel from either source has no head item after its first item. */
  lemma RunShaped(g: Grammar, through: nat, sub: seq<Lr1>)
    requires g.WF() && (InitialRun(sub) || KernelRun(g, through, sub))
    ensures KernelShaped(sub) && forall k :: 0 <= k < |sub| ==> ValidItem(g, sub[k].item)
  {
    if InitialRun(sub) {
      assert |sub| == 1 && sub[0].item == ItemsOf(sub)[0];
    } else {
      forall k | 1 <= k < |sub|
        ensures !IsHead(sub[k].item)
      {
      }
    }
  }

  /**
   * A new state's item list — the candidate kernel `sub` followed by closure
   * items that are heads and tails of empty productions — is well shaped and
   * has `sub` as its kernel.
   */
  lemma NewStateShape(g: Grammar, through: nat, sub: seq<Lr1>, items: seq<Lr1>)
    requires g.WF() && through < g.N()
    requires InitialRun(sub) || KernelRun(g, through, sub)
    requires LeftsOk(g, sub)
    requires |items| >= |sub| && forall k :: 0 <= k < |sub| ==> items[k] == sub[k].(look := {})
    requires forall k :: |sub| <= k < |items| ==> ClosureLr1(g, items[k])
    ensures WellShaped(g, State(through, items, [], [], [], 0))
    ensures Kernel(items) == ItemsOf(sub)
    ensures KernelRun(g, through, sub) ==> EnteredThrough(g, State(through, items, [], [], [], 0))
  {
    RunShaped(g, through, sub);
    SameSetIffKernel(items, sub);
    forall j | 0 <= j < |items|
      ensures ValidItem(g, ItemsOf(items)[j])
    {
      if j < |sub| {
        assert ItemsOf(items)[j] == sub[j].item;
        if InitialRun(sub) {
          assert sub[j].item == ItemsOf(sub)[0];
        }
      }
    }
    forall i, j | 0 <= i < j < |Kernel(items)|
      ensures ItemLt(Kernel(items)[i], Kernel(items)[j])
    {
      assert Kernel(items)[i] == sub[i].item && Kernel(items)[j] == sub[j].item;
      assert ItemsOf(sub)[i] == sub[i].item && ItemsOf(sub)[j] == sub[j].item;
    }
    if KernelRun(g, through, sub) {
      forall j | 0 <= j < |Kernel(items)|
        ensures Kernel(items)[j].pos >= 2 && Before(g, Kernel(items)[j]) == through
      {
        assert Kernel(items)[j] == ItemsOf(sub)[j] == sub[j].item;
      }
    }
  }

  /** When no state entered through `through` matches `sub` structurally, none has its kernel. */
  lemma NoMatchFresh(g: Grammar, store: seq<State>, through: nat, sub: seq<Lr1>, items: seq<Lr1>)
    requires g.WF() && StoreOk(g, store) && KernelShaped(sub) && Kernel(items) == ItemsOf(sub)
    requires forall h :: 0 <= h < |store| && store[h].through == through ==> !IsSameSet(store[h].items, sub)
    ensures forall h :: 0 <= h < |store| && store[h].through == through ==> Kernel(store[h].items) != Kernel(items)
  {
    forall h | 0 <= h < |store| && store[h].through == through
      ensures Kernel(store[h].items) != Kernel(items)
    {
      assert WellShaped(g, store[h]);
      SameSetIffKernel(store[h].items, sub);
    }
  }

  /** The initial state's kernel never matches a candidate kernel of a transition. */
  lemma NotInitial(g: Grammar, store: seq<State>, through: nat, sub: seq<Lr1>)
    requires g.WF() && StoreOk(g, store) && |store| > 0 && KernelRun(g, through, sub)
    ensures !IsSameSet(store[0].items, sub)
  {
    RunShaped(g, through, sub);
    assert WellShaped(g, store[0]);
    SameSetIffKernel(store[0].items, sub);
    assert ItemsOf(sub)[0] == sub[0].item;
  }

  /** Appending a fresh well-shaped state keeps the store invariant. */
  lemma StoreOkAppend(g: Grammar, store: seq<State>, st: State)
    requires g.WF() && StoreOk(g, store) && WellShaped(g, st)
    requires |store| == 0 ==> st.through == g.nil && Kernel(st.items) == [Item(0, 1)]
    requires |store| > 0 ==> EnteredThrough(g, st)
    requires forall h :: 0 <= h < |store| && store[h].through == st.through ==>
               Kernel(store[h].items) != Kernel(st.items)
    ensures StoreOk(g, store + [st])
  {
    var s' := store + [st];
    assert forall h :: 0 <= h < |store| ==> s'[h] == store[h];
    assert s'[|store|] == st;
  }

  /** Recording the new handle under its transition symbol keeps the index exact. */
  lemma IndexOkAppend(g: Grammar, store: seq<State>, index: seq<seq<nat>>, st: State)
    requires IndexOk(g, store, index) && st.through < |index|
    ensures IndexOk(g, store + [st], index[st.through := index[st.through] + [|store|]])
  {
    var s' := store + [st];
    var index' := index[st.through := index[st.through] + [|store|]];
    forall x, j | 0 <= x < |index'| && 0 <= j < |index'[x]|
      ensures index'[x][j] < |s'| && s'[index'[x][j]].through == x
    {
      if x == st.through && j == |index[x]| {
      } else {
        assert index'[x][j] == index[x][j];
      }
    }
    forall h | 0 <= h < |s'|
      ensures s'[h].through < |index'| && h in index'[s'[h].through]
    {
      if h < |store| {
        assert s'[h] == store[h];
        assert h in index[store[h].through];
      } else {
        assert index'[st.through][|index[st.through]|] == h;
      }
    }
  }

  /** A fresh well-shaped state is one fewer unborn state. */
  lemma UnbornAppend(g: Grammar, store: seq<State>, st: State)
    requires g.WF() && StoreOk(g, store) && WellShaped(g, st)
    requires forall h :: 0 <= h < |store| && store[h].through == st.through ==>
               Kernel(store[h].items) != Kernel(st.items)
    ensures Unborn(g, store + [st]) < Unborn(g, store)
  {
    FreshPair(g, store, st);
    KernelInUniverse(g, st);
    CreatedAppend(store, st);
  }
}
