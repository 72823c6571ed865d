/**
 * The LALR(1) automaton builder. The generator object holds the
 * symbol-indexed tables (EMPTY flags, nullable, FIRST, FOLLOW), the visited
 * markers, the state objects and the counters, and each stage updates them
 * in place.
 *
 * State objects are reached through handles: `store[h]` is the state whose
 * handle is `h` (its creation index), `states` is the generator's list of
 * handles and `statesThrough[s]` lists the handles of the states entered
 * through symbol `s`.
 */
module Lalr {
  import opened Grammar
  import opened FirstSets
  import opened Automaton
  import opened Sorting
  import opened Kernels
  import opened Lookaheads
  import opened FollowSets
  import opened Defaults
  import opened Reduces
  import opened Tables

  /** computeEmpty's test: production `r` has no body[1], or body[1] carries EMPTY. */
  predicate EmptyFires(g: Grammar, empty: seq<bool>, r: nat)
    requires r < |g.prods| && |empty| == g.N() && g.WF()
  {
    assert g.ProdOk(r);
    |g.prods[r].body| == 1 || empty[g.prods[r].body[1]]
  }

  /** Production `r` justifies an EMPTY flag on `s`. */
  ghost predicate EmptyJustified(g: Grammar, empty: seq<bool>, r: nat, s: nat)
    requires |empty| == g.N() && g.WF()
  {
    r < |g.prods| && g.Lhs(r) == s && EmptyFires(g, empty, r)
  }

  lemma EmptyFiresGrow(g: Grammar, e: seq<bool>, e': seq<bool>, r: nat)
    requires g.WF() && r < |g.prods| && |e| == g.N() && GrownFlags(e, e')
    ensures EmptyFires(g, e, r) ==> EmptyFires(g, e', r)
  {
    assert g.ProdOk(r);
  }

  lemma TerminalSetsAdd(g: Grammar, fs: seq<set<nat>>, h: nat, a: set<nat>)
    requires TerminalSets(g, fs) && h < |fs|
    requires forall t :: t in a ==> t < g.N() && g.symbols[t].terminal
    ensures TerminalSets(g, fs[h := fs[h] + a])
  {
    var fs' := fs[h := fs[h] + a];
    forall s, t | 0 <= s < |fs'| && t in fs'[s]
      ensures t < g.N() && g.symbols[t].terminal
    {
      if s != h || t !in a {
        assert t in fs[s];
      }
    }
  }

  ghost function Unset(e: seq<bool>): set<nat>
  {
    set s | 0 <= s < |e| && !e[s]
  }

  /** The right-hand side of production `r`. */
  function Rhs(g: Grammar, r: nat): (rhs: seq<nat>)
    requires g.WF() && r < |g.prods|
    ensures Coded(g, rhs)
  {
    assert g.ProdOk(r);
    g.prods[r].body[1..]
  }

  /** Production `r` is closed under the nullable/FIRST rules of the tables. */
  ghost predicate FirstClosed(g: Grammar, first: seq<set<nat>>, nullable: seq<bool>, r: nat)
    requires g.WF() && r < |g.prods| && |first| == g.N() && |nullable| == g.N()
  {
    var h := g.Lhs(r);
    assert g.ProdOk(r);
    && FirstOfSeq(g, first, nullable, Rhs(g, r)) <= first[h]
    && (IsSeqNullable(g, nullable, Rhs(g, r)) ==> nullable[h])
  }

  /**
   * One symbol of the scan: `acc` is FIRST of the left-hand side so far and
   * `target` what it must end as once the rest from `s` is merged.
   */
  lemma ScanSymbol(g: Grammar, fs: seq<set<nat>>, nl: seq<bool>, rhs: seq<nat>, s: nat, acc: set<nat>, target: set<nat>)
    requires |fs| == g.N() && |nl| == g.N() && Coded(g, rhs) && s < |rhs|
    requires acc + FirstOfSeq(g, fs, nl, rhs[s..]) == target
    ensures g.symbols[rhs[s]].terminal ==> acc + {rhs[s]} == target
    ensures !g.symbols[rhs[s]].terminal && !nl[rhs[s]] ==> acc + fs[rhs[s]] == target
    ensures !g.symbols[rhs[s]].terminal && nl[rhs[s]] ==> acc + fs[rhs[s]] + FirstOfSeq(g, fs, nl, rhs[s + 1..]) == target
  {
    assert rhs[s..][1..] == rhs[s + 1..];
  }

  /** Merging `add` into `acc` changes it from `a0` exactly when it already had, or `add` brings something new. */
  lemma GrowStep(a0: set<nat>, acc: set<nat>, add: set<nat>)
    requires a0 <= acc
    ensures a0 <= acc + add
    ensures (acc + add != a0) <==> (acc != a0 || !(add <= acc))
  {
    if !(add <= acc) {
      var t :| t in add && t !in acc;
      assert t !in a0;
    }
  }

  lemma UpdateTwice(fs: seq<set<nat>>, h: nat, a: set<nat>, b: set<nat>)
    requires h < |fs|
    ensures fs[h := a][h := b] == fs[h := b]
  {
  }

  /**
   * One production's step of a `firstNullablePrecomp` pass: scans the
   * right-hand side, merging into FIRST of the left-hand side the first
   * terminal met or the FIRST of each nonterminal met, and stops after a
   * terminal or a nonterminal that is not nullable. `grew` reports whether
   * FIRST of the left-hand side changed, `reachedEnd` whether the scan ran
   * off the end of the body.
   */
  method ScanProduction(g: Grammar, fs: seq<set<nat>>, nl: seq<bool>, r: nat)
    returns (fs': seq<set<nat>>, grew: bool, reachedEnd: bool)
    requires g.WF() && r < |g.prods| && |fs| == g.N() && |nl| == g.N() && TerminalSets(g, fs)
    ensures fs' == fs[g.Lhs(r) := fs[g.Lhs(r)] + FirstOfSeq(g, fs, nl, Rhs(g, r))]
    ensures TerminalSets(g, fs')
    ensures grew <==> fs'[g.Lhs(r)] != fs[g.Lhs(r)]
    ensures reachedEnd <==> IsSeqNullable(g, nl, Rhs(g, r))
  {
    assert g.ProdOk(r);
    fs', grew, reachedEnd := ScanBody(g, fs, nl, g.prods[r].body);
  }

  /** The loop of `ScanProduction` over a production body `body`, left-hand side first. */
  method ScanBody(g: Grammar, fs: seq<set<nat>>, nl: seq<bool>, body: seq<nat>)
    returns (fs': seq<set<nat>>, grew: bool, reachedEnd: bool)
    requires |fs| == g.N() && |nl| == g.N() && TerminalSets(g, fs)
    requires |body| >= 1 && Coded(g, body)
    ensures fs' == fs[body[0] := fs[body[0]] + FirstOfSeq(g, fs, nl, body[1..])]
    ensures TerminalSets(g, fs')
    ensures grew <==> fs'[body[0]] != fs[body[0]]
    ensures reachedEnd <==> IsSeqNullable(g, nl, body[1..])
  {
    var h := body[0];
    ghost var rhs := body[1..];
    assert Coded(g, rhs);
    ghost var target := fs[h] + FirstOfSeq(g, fs, nl, rhs);
    IsSeqNullableMeans(g, nl, rhs);
    var acc := fs[h];
    grew := false;
    reachedEnd := true;
    var s := 1;
    while s < |body|
      invariant 1 <= s <= |body|
      invariant acc + FirstOfSeq(g, fs, nl, rhs[s - 1..]) == target
      invariant fs[h] <= acc && (grew <==> acc != fs[h])
      invariant forall t :: t in acc ==> t < g.N() && g.symbols[t].terminal
      invariant NullablePrefix(g, nl, rhs, s - 1)
    {
      var x := body[s];
      assert rhs[s - 1] == x;
      ScanSymbol(g, fs, nl, rhs, s - 1, acc, target);
      if g.symbols[x].terminal {
        if x !in acc {
          grew := true;
        }
        GrowStep(fs[h], acc, {x});
        acc := acc + {x};
        reachedEnd := false;
        break;
      }
      if !(fs[x] <= acc) {
        grew := true;
      }
      GrowStep(fs[h], acc, fs[x]);
      acc := acc + fs[x];
      if !nl[x] {
        reachedEnd := false;
        break;
      }
      s := s + 1;
    }
    if reachedEnd {
      assert rhs[s - 1..] == [];
    }
    assert acc == target;
    TerminalSetsAdd(g, fs, h, acc);
    fs' := fs[h := acc];
  }

  /** The direct GOTO candidates of a stored state: valid, distinct, and one for each non-tail item. */
  lemma DirectFacts(g: Grammar, store: seq<State>, i: nat, tmp: seq<Lr1>)
    requires g.WF() && StoreOk(g, store) && i < |store| && ItemsOf(tmp) == DirectOf(g, store[i].items)
    ensures forall k :: 0 <= k < |tmp| ==>
              ValidItem(g, tmp[k].item) && tmp[k].item.pos >= 2 && (tmp[k].item.pos >= 3 || tmp[k].item.rule == 0)
    ensures DistinctItems(tmp)
    ensures forall j :: 0 <= j < |store[i].items| && HasNext(g, store[i].items[j].item) ==>
              Slice(store[i].items[j].item) in ItemSet(ItemsOf(tmp))
  {
    var items := store[i].items;
    NonTailFacts(g, store, i);
    forall k | 0 <= k < |tmp|
      ensures ValidItem(g, tmp[k].item) && tmp[k].item.pos >= 2 && (tmp[k].item.pos >= 3 || tmp[k].item.rule == 0)
    {
      assert ItemsOf(tmp)[k] == tmp[k].item;
      DirectOfShape(g, items, tmp[k].item);
    }
    DirectOfStrict(g, items);
    forall a, b | 0 <= a < b < |tmp|
      ensures tmp[a].item != tmp[b].item
    {
      assert ItemsOf(tmp)[a] == tmp[a].item && ItemsOf(tmp)[b] == tmp[b].item;
    }
    forall j | 0 <= j < |items| && HasNext(g, items[j].item)
      ensures Slice(items[j].item) in ItemSet(ItemsOf(tmp))
    {
      DirectOfMember(g, items, Slice(items[j].item));
    }
  }

  /** Sorting the candidate list keeps its items, so what held of the list holds of the sorted list. */
  lemma SortedFacts(g: Grammar, items: seq<Lr1>, tmp: seq<Lr1>, list: seq<Lr1>, sorted: seq<Lr1>)
    requires g.WF() && multiset(list) == multiset(sorted) && tmp <= list
    requires forall k :: 0 <= k < |list| ==> ValidItem(g, list[k].item) && list[k].item.pos >= 2 && list[k].left < g.N()
    requires SuccClosed(g, ItemSet(ItemsOf(list)))
    requires forall j :: 0 <= j < |items| && HasNext(g, items[j].item) ==> Slice(items[j].item) in ItemSet(ItemsOf(tmp))
    ensures forall k :: 0 <= k < |sorted| ==> ValidItem(g, sorted[k].item) && sorted[k].item.pos >= 2 && sorted[k].left < g.N()
    ensures forall j :: 0 <= j < |items| && HasNext(g, items[j].item) ==> Slice(items[j].item) in ItemSet(ItemsOf(sorted))
    ensures SuccClosed(g, ItemSet(ItemsOf(sorted)))
  {
    PermutedItems(list, sorted);
    forall k | 0 <= k < |sorted|
      ensures ValidItem(g, sorted[k].item) && sorted[k].item.pos >= 2 && sorted[k].left < g.N()
    {
      assert sorted[k] in multiset(list);
    }
    forall j | 0 <= j < |items| && HasNext(g, items[j].item)
      ensures Slice(items[j].item) in ItemSet(ItemsOf(list))
    {
      var k :| 0 <= k < |tmp| && ItemsOf(tmp)[k] == Slice(items[j].item);
      assert ItemsOf(list)[k] == ItemsOf(tmp)[k];
    }
  }

  /**
   * One position of the indirect GOTO collection: the nonterminal before
   * the dot of entry `tp`, met for the first time, is marked and its
   * productions appended.
   */
  method VisitSymbol(g: Grammar, tmp: seq<Lr1>, list: seq<Lr1>, vis: seq<bool>, tp: nat, ghost distinct: bool)
    returns (list': seq<Lr1>, vis': seq<bool>)
    requires g.WF() && |vis| == g.N() && tp < |list|
    requires IndirectShape(g, tmp, list, vis) && Covered(g, list, vis) && MarkedUpTo(g, list, vis, tp)
    requires distinct ==> DistinctItems(list) && forall k :: 0 <= k < |tmp| ==> tmp[k].item.pos >= 3 || tmp[k].item.rule == 0
    ensures |vis'| == g.N() && tp < |list'|
    ensures IndirectShape(g, tmp, list', vis') && Covered(g, list', vis') && MarkedUpTo(g, list', vis', tp + 1)
    ensures distinct ==> DistinctItems(list')
    ensures Unset(vis') < Unset(vis) || (vis' == vis && list' == list)
  {
    list', vis' := list, vis;
    var x := Before(g, list[tp].item);
    if !g.symbols[x].terminal && !vis[x] {
      assert x != g.startPrime by {
        assert g.ProdOk(list[tp].item.rule);
      }
      assert x in Unset(vis);
      vis' := vis[x := true];
      list' := ExpandSymbol(g, list, x);
      ExpandKeeps(g, tmp, list, list', x, vis, distinct, tp);
      MarkedGrow(g, list, list', vis, vis', tp);
      assert list'[tp] == list[tp];
    }
    MarkedStep(g, list', vis', tp);
  }

  /**
   * The loop of the indirect GOTO collection of `computeKernels`; `vis`
   * holds the visited flags it leaves behind.
   */
  method CloseGotos(g: Grammar, tmp: seq<Lr1>) returns (list: seq<Lr1>, vis: seq<bool>)
    requires g.WF() && forall k :: 0 <= k < |tmp| ==> ValidItem(g, tmp[k].item) && tmp[k].item.pos >= 2
    requires LeftsOk(g, tmp)
    ensures |vis| == g.N() && tmp <= list
    ensures forall k :: 0 <= k < |list| ==> ValidItem(g, list[k].item) && list[k].item.pos >= 2 && list[k].left < g.N()
    ensures forall k :: |tmp| <= k < |list| ==>
              list[k].item.pos == 2 && list[k].item.rule < |g.prods| &&
              list[k].left == g.Lhs(list[k].item.rule) && list[k].look == {}
    ensures forall k :: |tmp| <= k < |list| ==> FromEarlier(g, list, k)
    ensures forall k :: 0 <= k < |list| ==> list[k].item in Reach(g, ItemSet(ItemsOf(tmp)), k)
    ensures SuccClosed(g, ItemSet(ItemsOf(list)))
    ensures DistinctItems(tmp) && (forall k :: 0 <= k < |tmp| ==> tmp[k].item.pos >= 3 || tmp[k].item.rule == 0) ==>
              DistinctItems(list)
  {
    vis := seq(g.N(), _ => false);
    ghost var distinct := DistinctItems(tmp) && forall k :: 0 <= k < |tmp| ==> tmp[k].item.pos >= 3 || tmp[k].item.rule == 0;
    list := tmp;
    var tp := 0;
    while tp < |list|
      invariant |vis| == g.N() && tp <= |list|
      invariant IndirectShape(g, tmp, list, vis) && Covered(g, list, vis)
      invariant MarkedUpTo(g, list, vis, tp)
      invariant distinct ==> DistinctItems(list)
      decreases Unset(vis), |list| - tp
    {
      list, vis := VisitSymbol(g, tmp, list, vis, tp, distinct);
      tp := tp + 1;
    }
    CoveredClosed(g, list, vis);
    forall k | 0 <= k < |list|
      ensures list[k].item in Reach(g, ItemSet(ItemsOf(tmp)), k)
    {
      ListReach(g, tmp, list, k);
    }
    forall k | 0 <= k < |list|
      ensures list[k].left < g.N()
    {
      if k < |tmp| {
        assert list[k] == tmp[k];
      }
    }
  }

  /**
   * One pass of `firstNullablePrecomp` over every production; `changed`
   * reports whether a FIRST set or a nullable flag grew, and a pass that
   * changes nothing finds every production closed.
   */
  method FirstNullablePass(g: Grammar, fs: seq<set<nat>>, nl: seq<bool>)
    returns (fs': seq<set<nat>>, nl': seq<bool>, changed: bool)
    requires g.WF() && |fs| == g.N() && |nl| == g.N() && TerminalSets(g, fs)
    ensures |fs'| == g.N() && |nl'| == g.N()
    ensures TerminalSets(g, fs') && Grown(fs, fs') && GrownFlags(nl, nl')
    ensures changed ==> PendingSets(g.N(), fs') < PendingSets(g.N(), fs) ||
                        (PendingSets(g.N(), fs') == PendingSets(g.N(), fs) && Unset(nl') < Unset(nl))
    ensures !changed ==> fs' == fs && nl' == nl && forall r :: 0 <= r < |g.prods| ==> FirstClosed(g, fs, nl, r)
  {
    fs', nl' := fs, nl;
    ghost var wh: nat, wt: nat, wFirst := 0, 0, false;
    changed := false;
    for r := 0 to |g.prods|
      invariant |fs'| == g.N() && |nl'| == g.N()
      invariant TerminalSets(g, fs') && Grown(fs, fs') && GrownFlags(nl, nl')
      invariant !changed ==> fs' == fs && nl' == nl
      invariant changed && wFirst ==> wh < g.N() && wt < g.N() && wt in fs'[wh] && wt !in fs[wh]
      invariant changed && !wFirst ==> wh < g.N() && nl'[wh] && !nl[wh]
      invariant !changed ==> forall r' :: 0 <= r' < r ==> FirstClosed(g, fs, nl, r')
    {
      var h := g.Lhs(r);
      var fs1, grew, reachedEnd := ScanProduction(g, fs', nl', r);
      if grew {
        ghost var t: nat :| t in fs1[h] && t !in fs'[h];
        if !changed || !wFirst {
          wh, wt, wFirst := h, t, true;
        }
        changed := true;
      } else {
        assert fs1 == fs';
      }
      fs' := fs1;
      if reachedEnd && !nl'[h] {
        if !changed {
          wh, wFirst := h, false;
        }
        nl' := nl'[h := true];
        changed := true;
      }
    }
    if changed {
      PendingSetsShrink(g.N(), fs, fs');
      if wFirst {
        PendingSetsStrict(g.N(), fs, fs', wh, wt);
      } else {
        assert wh in Unset(nl) && wh !in Unset(nl');
      }
    }
  }

  /**
   * What `findEmpty` guarantees for production `r` of a visited symbol: an
   * empty production's item is in the list, and a first right-hand symbol
   * that is an EMPTY nonterminal has been visited too.
   */
  ghost predicate RuleClosed(g: Grammar, empty: seq<bool>, vis: seq<bool>, list: seq<Lr1>, r: nat)
    requires g.WF() && |empty| == g.N() && |vis| == g.N()
  {
    r < |g.prods| ==>
      && (|g.prods[r].body| == 1 ==> Lr1(g.startPrime, {}, Item(r, 1)) in list)
      && (|g.prods[r].body| >= 2 && !g.symbols[g.RhsStart(r)].terminal && empty[g.RhsStart(r)] ==>
            vis[g.RhsStart(r)])
  }

  ghost predicate EmptyClosed(g: Grammar, empty: seq<bool>, vis: seq<bool>, list: seq<Lr1>, v: nat)
    requires g.WF() && |empty| == g.N() && |vis| == g.N() && v < g.N()
  {
    forall j :: 0 <= j < |g.byLhs[v]| ==> RuleClosed(g, empty, vis, list, g.byLhs[v][j])
  }

  lemma RuleClosedGrow(g: Grammar, empty: seq<bool>, vis: seq<bool>, vis': seq<bool>, list: seq<Lr1>, list': seq<Lr1>, r: nat)
    requires g.WF() && |empty| == g.N() && |vis| == g.N() && GrownFlags(vis, vis') && list <= list'
    requires RuleClosed(g, empty, vis, list, r)
    ensures RuleClosed(g, empty, vis', list', r)
  {
    if r < |g.prods| && |g.prods[r].body| == 1 {
      var x := Lr1(g.startPrime, {}, Item(r, 1));
      var i :| 0 <= i < |list| && list[i] == x;
      assert list'[i] == x;
    }
  }

  /** Items appended by `findEmpty` on `x`, or under it, belong to symbols it newly visited. */
  lemma AppendedKeeps(g: Grammar, x: nat, list: seq<Lr1>, list0: seq<Lr1>, list': seq<Lr1>,
                      vis0: seq<bool>, vis: seq<bool>, vis': seq<bool>)
    requires g.WF() && |vis0| == g.N() && x < g.N() && !vis0[x]
    requires GrownFlags(vis0, vis) && GrownFlags(vis, vis') && list <= list0 <= list'
    requires forall k :: |list| <= k < |list0| ==>
               ClosureLr1(g, list0[k]) && vis[g.Lhs(list0[k].item.rule)] && !vis0[g.Lhs(list0[k].item.rule)]
    requires forall k :: |list0| <= k < |list'| ==>
               ClosureLr1(g, list'[k]) && vis'[g.Lhs(list'[k].item.rule)] &&
               (!vis[g.Lhs(list'[k].item.rule)] || g.Lhs(list'[k].item.rule) == x)
    ensures forall k :: |list| <= k < |list'| ==>
              ClosureLr1(g, list'[k]) && vis'[g.Lhs(list'[k].item.rule)] && !vis0[g.Lhs(list'[k].item.rule)]
  {
    forall k | |list| <= k < |list'|
      ensures ClosureLr1(g, list'[k]) && vis'[g.Lhs(list'[k].item.rule)] && !vis0[g.Lhs(list'[k].item.rule)]
    {
      if k < |list0| {
        assert list'[k] == list0[k];
      }
    }
  }

  /** Once production `j` of the chain is closed, the first `j + 1` stay closed as marks and items are added. */
  lemma RulesStep(g: Grammar, empty: seq<bool>, chain: seq<nat>, j: nat, vis: seq<bool>, vis': seq<bool>,
                  list: seq<Lr1>, list': seq<Lr1>)
    requires g.WF() && |empty| == g.N() && |vis| == g.N() && |vis'| == g.N() && GrownFlags(vis, vis') && list <= list'
    requires j < |chain| && forall j' :: 0 <= j' < j ==> RuleClosed(g, empty, vis, list, chain[j'])
    requires RuleClosed(g, empty, vis', list', chain[j])
    ensures forall j' :: 0 <= j' < j + 1 ==> RuleClosed(g, empty, vis', list', chain[j'])
  {
    forall j' | 0 <= j' < j
      ensures RuleClosed(g, empty, vis', list', chain[j'])
    {
      RuleClosedGrow(g, empty, vis, vis', list, list', chain[j']);
    }
  }

  lemma EmptyClosedGrow(g: Grammar, empty: seq<bool>, vis: seq<bool>, vis': seq<bool>, list: seq<Lr1>, list': seq<Lr1>)
    requires g.WF() && |empty| == g.N() && |vis| == g.N() && GrownFlags(vis, vis') && list <= list'
    ensures forall v :: 0 <= v < g.N() && EmptyClosed(g, empty, vis, list, v) ==> EmptyClosed(g, empty, vis', list', v)
  {
    forall v, j | 0 <= v < g.N() && EmptyClosed(g, empty, vis, list, v) && 0 <= j < |g.byLhs[v]|
      ensures RuleClosed(g, empty, vis', list', g.byLhs[v][j])
    {
      RuleClosedGrow(g, empty, vis, vis', list, list', g.byLhs[v][j]);
    }
  }

  /**
   * One step of `findEmpty`'s descent: `v` is the nonterminal first
   * right-hand symbol of a production listed for `u`.
   */
  ghost predicate EmptyLink(g: Grammar, u: nat, v: nat)
    requires g.WF() && u < g.N()
  {
    exists j :: 0 <= j < |g.byLhs[u]| && g.byLhs[u][j] < |g.prods| && |g.prods[g.byLhs[u][j]].body| >= 2 &&
                g.RhsStart(g.byLhs[u][j]) == v && !g.symbols[v].terminal
  }

  /** A descent `findEmpty` can make: EMPTY symbols, each linked to the next. */
  ghost predicate EmptyPath(g: Grammar, empty: seq<bool>, p: seq<nat>)
    requires g.WF() && |empty| == g.N()
  {
    && (forall i :: 0 <= i < |p| ==> p[i] < g.N() && empty[p[i]])
    && (forall i :: 0 <= i < |p| - 1 ==> EmptyLink(g, p[i], p[i + 1]))
  }

  /** `findEmpty` started at `x` can descend to `v`. */
  ghost predicate EmptyReaches(g: Grammar, empty: seq<bool>, x: nat, v: nat)
    requires g.WF() && |empty| == g.N()
  {
    exists p :: |p| >= 1 && p[0] == x && p[|p| - 1] == v && EmptyPath(g, empty, p)
  }

  /** An EMPTY symbol reaches itself; a descent only starts at an EMPTY symbol. */
  lemma EmptyReachesSelf(g: Grammar, empty: seq<bool>, x: nat, v: nat)
    requires g.WF() && |empty| == g.N()
    ensures x < g.N() && empty[x] ==> EmptyReaches(g, empty, x, x)
    ensures EmptyReaches(g, empty, x, v) ==> x < g.N() && empty[x]
  {
    if x < g.N() && empty[x] {
      assert EmptyPath(g, empty, [x]);
    }
    if EmptyReaches(g, empty, x, v) {
      var p :| |p| >= 1 && p[0] == x && p[|p| - 1] == v && EmptyPath(g, empty, p);
      assert p[0] < g.N() && empty[p[0]];
    }
  }

  /** A link from an EMPTY symbol extends a descent backwards. */
  lemma EmptyPrepend(g: Grammar, empty: seq<bool>, x: nat, y: nat, v: nat)
    requires g.WF() && |empty| == g.N() && x < g.N() && empty[x]
    requires EmptyLink(g, x, y) && EmptyReaches(g, empty, y, v)
    ensures EmptyReaches(g, empty, x, v)
  {
    var p :| |p| >= 1 && p[0] == y && p[|p| - 1] == v && EmptyPath(g, empty, p);
    var q := [x] + p;
    forall i | 0 <= i < |q| - 1
      ensures EmptyLink(g, q[i], q[i + 1])
    {
      if i > 0 {
        assert q[i] == p[i - 1] && q[i + 1] == p[i];
      }
    }
    assert EmptyPath(g, empty, q);
  }

  /** After a recursive `findEmpty` from a linked symbol `y`, every symbol newly visited since `vis0` is still reached from `x`. */
  lemma DescentKeeps(g: Grammar, empty: seq<bool>, x: nat, y: nat, vis0: seq<bool>, vis: seq<bool>, vis': seq<bool>)
    requires g.WF() && |empty| == g.N() && |vis0| == g.N() && |vis| == g.N() && |vis'| == g.N()
    requires x < g.N() && empty[x] && EmptyLink(g, x, y)
    requires forall v :: 0 <= v < g.N() && vis[v] && !vis0[v] ==> EmptyReaches(g, empty, x, v)
    requires forall v :: 0 <= v < g.N() && vis'[v] && !vis[v] ==> EmptyReaches(g, empty, y, v)
    ensures forall v :: 0 <= v < g.N() && vis'[v] && !vis0[v] ==> EmptyReaches(g, empty, x, v)
  {
    forall v | 0 <= v < g.N() && vis'[v] && !vis0[v]
      ensures EmptyReaches(g, empty, x, v)
    {
      if !vis[v] {
        EmptyPrepend(g, empty, x, y, v);
      }
    }
  }

  /** The item's dot stands before an EMPTY nonterminal. */
  ghost predicate OpensEmpty(g: Grammar, empty: seq<bool>, it: Item)
    requires g.WF() && |empty| == g.N()
  {
    ValidItem(g, it) && !IsTail(g, it) && !g.symbols[After(g, it)].terminal && empty[After(g, it)]
  }

  /** `makeState` reaches `v` from the symbol after the dot of one of the first `n` items. */
  ghost predicate OpenedBy(g: Grammar, empty: seq<bool>, items: seq<Lr1>, n: nat, v: nat)
    requires g.WF() && |empty| == g.N() && n <= |items|
  {
    exists k :: 0 <= k < n && OpensEmpty(g, empty, items[k].item) && EmptyReaches(g, empty, After(g, items[k].item), v)
  }

  /**
   * What `makeState`'s second loop has done after the first `k` items:
   * appended only closure items of visited symbols, visited the symbol
   * after each dot that opens an EMPTY nonterminal, and closed each
   * visited symbol, every one of which the items so far open.
   */
  ghost predicate EmptiesSoFar(g: Grammar, empty: seq<bool>, vis: seq<bool>, items: seq<Lr1>, k: nat, r: seq<Lr1>)
    requires g.WF() && |empty| == g.N() && |vis| == g.N() && k <= |items| <= |r|
    requires forall k' :: 0 <= k' < |items| ==> ValidItem(g, items[k'].item)
  {
    && (forall k' :: |items| <= k' < |r| ==> ClosureLr1(g, r[k']) && vis[g.Lhs(r[k'].item.rule)])
    && (forall k' :: 0 <= k' < k && OpensEmpty(g, empty, items[k'].item) ==> vis[After(g, items[k'].item)])
    && (forall v :: 0 <= v < g.N() && vis[v] ==> empty[v] && EmptyClosed(g, empty, vis, r, v))
    && (forall v :: 0 <= v < g.N() && vis[v] ==> OpenedBy(g, empty, items, k, v))
  }

  /** What `findEmpty` from the symbol after item `k`'s dot guarantees extends the loop's progress to item `k`. */
  lemma EmptiesFound(g: Grammar, empty: seq<bool>, items: seq<Lr1>, k: nat, vis: seq<bool>, vis': seq<bool>,
                     r: seq<Lr1>, r': seq<Lr1>)
    requires g.WF() && |empty| == g.N() && |vis| == g.N() && k < |items| <= |r|
    requires forall k' :: 0 <= k' < |items| ==> ValidItem(g, items[k'].item)
    requires EmptiesSoFar(g, empty, vis, items, k, r)
    requires ValidItem(g, items[k].item) && !IsTail(g, items[k].item) && !g.symbols[After(g, items[k].item)].terminal
    requires GrownFlags(vis, vis') && r <= r'
    requires forall k' :: |r| <= k' < |r'| ==> ClosureLr1(g, r'[k']) && vis'[g.Lhs(r'[k'].item.rule)]
    requires forall v :: 0 <= v < g.N() && vis'[v] && !vis[v] ==> empty[v] && EmptyClosed(g, empty, vis', r', v)
    requires forall v :: 0 <= v < g.N() && vis'[v] && !vis[v] ==> EmptyReaches(g, empty, After(g, items[k].item), v)
    requires empty[After(g, items[k].item)] ==> vis'[After(g, items[k].item)]
    ensures |items| <= |r'| && r'[..|items|] == r[..|items|]
    ensures EmptiesSoFar(g, empty, vis', items, k + 1, r')
  {
    assert r'[..|items|] == r[..|items|];
    AppendedFound(g, items, vis, vis', r, r');
    OpenedFound(g, empty, items, k, vis, vis');
    ClosedFound(g, empty, vis, vis', r, r');
    OpenedStep(g, empty, items, k, vis, vis');
  }

  /** An item whose dot is at the tail or before a terminal adds nothing to the loop's work. */
  lemma EmptiesSkip(g: Grammar, empty: seq<bool>, items: seq<Lr1>, k: nat, vis: seq<bool>, r: seq<Lr1>)
    requires g.WF() && |empty| == g.N() && |vis| == g.N() && k < |items| <= |r|
    requires forall k' :: 0 <= k' < |items| ==> ValidItem(g, items[k'].item)
    requires EmptiesSoFar(g, empty, vis, items, k, r)
    requires IsTail(g, items[k].item) || g.symbols[After(g, items[k].item)].terminal
    ensures EmptiesSoFar(g, empty, vis, items, k + 1, r)
  {
    OpenedStep(g, empty, items, k, vis, vis);
  }

  /** The items appended so far stay closure items of visited symbols. */
  lemma AppendedFound(g: Grammar, items: seq<Lr1>, vis: seq<bool>, vis': seq<bool>, r: seq<Lr1>, r': seq<Lr1>)
    requires g.WF() && |vis| == g.N() && |items| <= |r| && GrownFlags(vis, vis') && r <= r'
    requires forall k' :: |items| <= k' < |r| ==> ClosureLr1(g, r[k']) && vis[g.Lhs(r[k'].item.rule)]
    requires forall k' :: |r| <= k' < |r'| ==> ClosureLr1(g, r'[k']) && vis'[g.Lhs(r'[k'].item.rule)]
    ensures forall k' :: |items| <= k' < |r'| ==> ClosureLr1(g, r'[k']) && vis'[g.Lhs(r'[k'].item.rule)]
  {
    forall k' | |items| <= k' < |r'|
      ensures ClosureLr1(g, r'[k']) && vis'[g.Lhs(r'[k'].item.rule)]
    {
      if k' < |r| {
        assert r'[k'] == r[k'];
      }
    }
  }

  /** Item `k`'s EMPTY nonterminal after the dot is now visited, and the earlier ones stay visited. */
  lemma OpenedFound(g: Grammar, empty: seq<bool>, items: seq<Lr1>, k: nat, vis: seq<bool>, vis': seq<bool>)
    requires g.WF() && |empty| == g.N() && |vis| == g.N() && k < |items| && GrownFlags(vis, vis')
    requires forall k' :: 0 <= k' < |items| ==> ValidItem(g, items[k'].item)
    requires forall k' :: 0 <= k' < k && OpensEmpty(g, empty, items[k'].item) ==> vis[After(g, items[k'].item)]
    requires ValidItem(g, items[k].item) && !IsTail(g, items[k].item) && !g.symbols[After(g, items[k].item)].terminal
    requires empty[After(g, items[k].item)] ==> vis'[After(g, items[k].item)]
    ensures forall k' :: 0 <= k' < k + 1 && OpensEmpty(g, empty, items[k'].item) ==> vis'[After(g, items[k'].item)]
  {
  }

  /** Every symbol visited so far stays closed as marks and items are added. */
  lemma ClosedFound(g: Grammar, empty: seq<bool>, vis: seq<bool>, vis': seq<bool>, r: seq<Lr1>, r': seq<Lr1>)
    requires g.WF() && |empty| == g.N() && |vis| == g.N() && GrownFlags(vis, vis') && r <= r'
    requires forall v :: 0 <= v < g.N() && vis[v] ==> empty[v] && EmptyClosed(g, empty, vis, r, v)
    requires forall v :: 0 <= v < g.N() && vis'[v] && !vis[v] ==> empty[v] && EmptyClosed(g, empty, vis', r', v)
    ensures forall v :: 0 <= v < g.N() && vis'[v] ==> empty[v] && EmptyClosed(g, empty, vis', r', v)
  {
    EmptyClosedGrow(g, empty, vis, vis', r, r');
  }

  /** One round of `makeState`'s second loop keeps every visited symbol opened by an item so far. */
  lemma OpenedStep(g: Grammar, empty: seq<bool>, items: seq<Lr1>, k: nat, vis: seq<bool>, vis': seq<bool>)
    requires g.WF() && |empty| == g.N() && k < |items| && |vis| == g.N() && |vis'| == g.N()
    requires forall v :: 0 <= v < g.N() && vis[v] ==> OpenedBy(g, empty, items, k, v)
    requires forall v :: 0 <= v < g.N() && vis'[v] && !vis[v] ==>
               ValidItem(g, items[k].item) && !IsTail(g, items[k].item) && !g.symbols[After(g, items[k].item)].terminal &&
               EmptyReaches(g, empty, After(g, items[k].item), v)
    ensures forall v :: 0 <= v < g.N() && vis'[v] ==> OpenedBy(g, empty, items, k + 1, v)
  {
    forall v | 0 <= v < g.N() && vis'[v]
      ensures OpenedBy(g, empty, items, k + 1, v)
    {
      if vis[v] {
        var k' :| 0 <= k' < k && OpensEmpty(g, empty, items[k'].item) && EmptyReaches(g, empty, After(g, items[k'].item), v);
      } else {
        EmptyReachesSelf(g, empty, After(g, items[k].item), v);
        assert OpensEmpty(g, empty, items[k].item);
      }
    }
  }

  /**
   * Entry `k` is a production, at position 2, of the nonterminal just
   * before the dot of an earlier entry.
   */
  ghost predicate FromEarlier(g: Grammar, list: seq<Lr1>, k: nat)
    requires g.WF() && k < |list|
  {
    exists k' :: 0 <= k' < k && ValidItem(g, list[k'].item) && !g.symbols[Before(g, list[k'].item)].terminal &&
                 FromSymbol(g, list[k].item, Before(g, list[k'].item))
  }

  /**
   * The indirect collection's list so far: `tmp` followed by position-2
   * items, each entered from its production's left-hand symbol, which is
   * marked and stands just before the dot of an earlier entry.
   */
  ghost predicate IndirectShape(g: Grammar, tmp: seq<Lr1>, list: seq<Lr1>, vis: seq<bool>)
    requires g.WF() && |vis| == g.N()
  {
    && tmp <= list
    && (forall k :: 0 <= k < |list| ==> ValidItem(g, list[k].item) && list[k].item.pos >= 2)
    && (forall k :: |tmp| <= k < |list| ==>
          list[k].item.pos == 2 && list[k].item.rule < |g.prods| &&
          list[k].left == g.Lhs(list[k].item.rule) && list[k].look == {} && vis[g.Lhs(list[k].item.rule)])
    && (forall k :: |tmp| <= k < |list| ==> FromEarlier(g, list, k))
  }

  /**
   * Each entry of the indirect collection's list is reached from the direct
   * candidates in no more closure rounds than its index.
   */
  lemma {:induction false} ListReach(g: Grammar, tmp: seq<Lr1>, list: seq<Lr1>, k: nat)
    requires g.WF() && tmp <= list && k < |list|
    requires forall i :: 0 <= i < |list| ==> ValidItem(g, list[i].item)
    requires forall i :: |tmp| <= i < |list| ==> FromEarlier(g, list, i)
    ensures list[k].item in Reach(g, ItemSet(ItemsOf(tmp)), k)
    decreases k
  {
    var d := ItemSet(ItemsOf(tmp));
    if k < |tmp| {
      assert ItemsOf(tmp)[k] == list[k].item;
      ReachMono(g, d, 0, k);
    } else {
      assert FromEarlier(g, list, k);
      var k' :| 0 <= k' < k && ValidItem(g, list[k'].item) && !g.symbols[Before(g, list[k'].item)].terminal &&
                FromSymbol(g, list[k].item, Before(g, list[k'].item));
      ListReach(g, tmp, list, k');
      assert list[k].item == Item(list[k].item.rule, 2);
      assert list[k].item in Expand(g, Reach(g, d, k'));
      ReachMono(g, d, k' + 1, k);
    }
  }

  /** A permutation of such a list has every item reached. */
  lemma SortedReached(g: Grammar, d: set<Item>, list: seq<Lr1>, sorted: seq<Lr1>)
    requires g.WF() && multiset(list) == multiset(sorted)
    requires forall k :: 0 <= k < |list| ==> list[k].item in Reach(g, d, k)
    ensures Reached(g, d, ItemSet(ItemsOf(sorted)))
  {
    PermutedItems(list, sorted);
    forall y | y in ItemSet(ItemsOf(sorted))
      ensures exists n: nat :: y in Reach(g, d, n)
    {
      var k :| 0 <= k < |list| && ItemsOf(list)[k] == y;
      assert y in Reach(g, d, k);
    }
  }

  /** Every marked symbol's productions with a right-hand side are in the list at position 2. */
  ghost predicate Covered(g: Grammar, list: seq<Lr1>, vis: seq<bool>)
    requires g.WF() && |vis| == g.N()
  {
    forall v, r :: 0 <= v < g.N() && vis[v] && r in g.byLhs[v] && |g.prods[r].body| >= 2 ==> Item(r, 2) in ItemsOf(list)
  }

  /** Every nonterminal just before a dot in the first `n` entries is marked. */
  ghost predicate MarkedUpTo(g: Grammar, list: seq<Lr1>, vis: seq<bool>, n: nat)
    requires g.WF() && |vis| == g.N() && n <= |list| && forall k :: 0 <= k < n ==> ValidItem(g, list[k].item)
  {
    forall k :: 0 <= k < n && !g.symbols[Before(g, list[k].item)].terminal ==> vis[Before(g, list[k].item)]
  }

  /** Passing an entry whose symbol is a terminal or already marked keeps the marking invariant. */
  lemma MarkedStep(g: Grammar, list: seq<Lr1>, vis: seq<bool>, n: nat)
    requires g.WF() && |vis| == g.N() && n < |list| && forall k :: 0 <= k < |list| ==> ValidItem(g, list[k].item)
    requires MarkedUpTo(g, list, vis, n)
    requires !g.symbols[Before(g, list[n].item)].terminal ==> vis[Before(g, list[n].item)]
    ensures MarkedUpTo(g, list, vis, n + 1)
  {
  }

  /** Growing the list and the marks keeps the marking invariant on the old entries. */
  lemma MarkedGrow(g: Grammar, pre: seq<Lr1>, list: seq<Lr1>, vis: seq<bool>, vis': seq<bool>, n: nat)
    requires g.WF() && |vis| == g.N() && GrownFlags(vis, vis') && n <= |pre| && pre <= list
    requires forall k :: 0 <= k < |pre| ==> ValidItem(g, pre[k].item)
    requires MarkedUpTo(g, pre, vis, n)
    ensures MarkedUpTo(g, list, vis', n)
  {
    forall k | 0 <= k < n
      ensures list[k] == pre[k]
    {
    }
  }

  /** Expanding an unmarked nonterminal and marking it keeps the collection's invariants. */
  lemma ExpandKeeps(g: Grammar, tmp: seq<Lr1>, pre: seq<Lr1>, list: seq<Lr1>, x: nat, vis: seq<bool>, distinct: bool, tp: nat)
    requires g.WF() && |vis| == g.N() && x < g.N() && !vis[x] && x != g.startPrime
    requires tp < |pre| && ValidItem(g, pre[tp].item) && Before(g, pre[tp].item) == x && !g.symbols[x].terminal
    requires IndirectShape(g, tmp, pre, vis) && Covered(g, pre, vis)
    requires distinct ==> DistinctItems(pre) && forall k :: 0 <= k < |tmp| ==> tmp[k].item.pos >= 3 || tmp[k].item.rule == 0
    requires pre <= list
    requires forall k :: |pre| <= k < |list| ==>
               list[k].left == x && list[k].look == {} && FromSymbol(g, list[k].item, x) && ValidItem(g, list[k].item)
    requires forall r :: r in g.byLhs[x] && |g.prods[r].body| >= 2 ==> Item(r, 2) in ItemsOf(list)
    requires DistinctItems(pre) && (forall k :: 0 <= k < |pre| ==> !FromSymbol(g, pre[k].item, x)) ==> DistinctItems(list)
    ensures IndirectShape(g, tmp, list, vis[x := true]) && Covered(g, list, vis[x := true])
    ensures distinct ==> DistinctItems(list)
  {
    var vis' := vis[x := true];
    forall k | 0 <= k < |list|
      ensures ValidItem(g, list[k].item) && list[k].item.pos >= 2
    {
      if k < |pre| {
        assert list[k] == pre[k];
      }
    }
    forall k | |tmp| <= k < |list|
      ensures list[k].item.pos == 2 && list[k].item.rule < |g.prods| &&
              list[k].left == g.Lhs(list[k].item.rule) && list[k].look == {} && vis'[g.Lhs(list[k].item.rule)]
    {
      if k < |pre| {
        assert list[k] == pre[k];
      }
    }
    FromEarlierKeeps(g, tmp, pre, list, x, tp);
    forall v, r | 0 <= v < g.N() && vis'[v] && r in g.byLhs[v] && |g.prods[r].body| >= 2
      ensures Item(r, 2) in ItemsOf(list)
    {
      if v != x {
        var k :| 0 <= k < |pre| && ItemsOf(pre)[k] == Item(r, 2);
        assert ItemsOf(list)[k] == Item(r, 2);
      }
    }
    if distinct {
      forall k | 0 <= k < |pre|
        ensures !FromSymbol(g, pre[k].item, x)
      {
        if k < |tmp| && pre[k].item.rule == 0 {
          assert tmp[k] == pre[k];
          assert g.Lhs(0) == g.startPrime;
        }
      }
    }
  }

  /** Appending expansions of the symbol before an existing entry's dot keeps every appended entry from an earlier one. */
  lemma FromEarlierKeeps(g: Grammar, tmp: seq<Lr1>, pre: seq<Lr1>, list: seq<Lr1>, x: nat, tp: nat)
    requires g.WF() && |tmp| <= |pre| && pre <= list
    requires tp < |pre| && ValidItem(g, pre[tp].item) && Before(g, pre[tp].item) == x && !g.symbols[x].terminal
    requires forall k :: |tmp| <= k < |pre| ==> FromEarlier(g, pre, k)
    requires forall k :: |pre| <= k < |list| ==> FromSymbol(g, list[k].item, x)
    ensures forall k :: |tmp| <= k < |list| ==> FromEarlier(g, list, k)
  {
    forall k | |tmp| <= k < |list|
      ensures FromEarlier(g, list, k)
    {
      if k < |pre| {
        assert FromEarlier(g, pre, k);
        var k' :| 0 <= k' < k && ValidItem(g, pre[k'].item) && !g.symbols[Before(g, pre[k'].item)].terminal &&
                  FromSymbol(g, pre[k].item, Before(g, pre[k'].item));
        assert list[k'] == pre[k'] && list[k] == pre[k];
      } else {
        assert list[tp] == pre[tp];
      }
    }
  }

  /** A list whose marked symbols are covered, with every nonterminal before a dot marked, is closed. */
  lemma CoveredClosed(g: Grammar, list: seq<Lr1>, vis: seq<bool>)
    requires g.WF() && |vis| == g.N() && Covered(g, list, vis)
    requires forall k :: 0 <= k < |list| ==> ValidItem(g, list[k].item)
    requires MarkedUpTo(g, list, vis, |list|)
    ensures SuccClosed(g, ItemSet(ItemsOf(list)))
  {
    forall y, r | y in ItemSet(ItemsOf(list)) && ValidItem(g, y) && !g.symbols[Before(g, y)].terminal &&
                  r < |g.prods| && r in g.byLhs[Before(g, y)] && |g.prods[r].body| >= 2
      ensures Item(r, 2) in ItemSet(ItemsOf(list))
    {
      var k :| 0 <= k < |list| && ItemsOf(list)[k] == y;
    }
  }

  class Generator {
    const g: Grammar
    /** The EMPTY flag of every symbol, the one part of the symbols this generator changes. */
    var empty: seq<bool>
    var nullable: seq<bool>
    var first: seq<set<nat>>
    var follow: seq<set<nat>>
    var visited: seq<bool>
    var store: seq<State>
    var states: seq<nat>
    var statesThrough: seq<seq<nat>>
    var nnonleafstates: int
    var nsrerr: nat
    var nrrerr: nat

    ghost predicate Valid()
      reads this`empty, this`nullable, this`first, this`follow, this`visited
    {
      && g.WF()
      && |empty| == g.N() && |nullable| == g.N() && |first| == g.N() && |follow| == g.N()
      && |visited| == g.N()
      && TerminalSets(g, first)
      && Bounded(g.N(), follow)
    }

    /** The tables as `compute` initialises them before the stages run. */
    constructor (gr: Grammar)
      requires gr.WF()
      ensures Valid() && g == gr
      ensures empty == seq(gr.N(), s requires 0 <= s < gr.N() => gr.symbols[s].empty)
      ensures nullable == seq(gr.N(), _ => false)
      ensures first == seq(gr.N(), _ => {}) && follow == seq(gr.N(), _ => {})
      ensures store == [] && states == [] && statesThrough == seq(gr.N(), _ => [])
      ensures nnonleafstates == 0 && nsrerr == 0 && nrrerr == 0
    {
      g := gr;
      empty := seq(gr.N(), s requires 0 <= s < gr.N() => gr.symbols[s].empty);
      nullable := seq(gr.N(), _ => false);
      first := seq(gr.N(), _ => {});
      follow := seq(gr.N(), _ => {});
      visited := seq(gr.N(), _ => false);
      store := [];
      states := [];
      statesThrough := seq(gr.N(), _ => []);
      nnonleafstates := 0;
      nsrerr := 0;
      nrrerr := 0;
    }

    /**
     * `computeEmpty`: repeats passes over the productions, flagging a
     * left-hand symbol EMPTY when its production has no body[1] or its
     * body[1] is already flagged, until a pass flags nothing.
     */
    method ComputeEmpty()
      requires Valid()
      modifies this`empty
      ensures Valid()
      ensures GrownFlags(old(empty), empty)
      ensures forall r :: 0 <= r < |g.prods| && EmptyFires(g, empty, r) ==> empty[g.Lhs(r)]
      ensures forall s :: 0 <= s < g.N() && empty[s] && !old(empty)[s] ==>
                exists r :: EmptyJustified(g, empty, r, s)
    {
      var e := empty;
      ghost var why: map<nat, nat> := map[];
      var changed := true;
      while changed
        invariant |e| == g.N() && GrownFlags(empty, e)
        invariant forall s :: 0 <= s < g.N() && e[s] && !empty[s] ==> s in why && EmptyJustified(g, e, why[s], s)
        invariant !changed ==> forall r :: 0 <= r < |g.prods| && EmptyFires(g, e, r) ==> e[g.Lhs(r)]
        decreases Unset(e), if changed then 1 else 0
      {
        ghost var e0 := e;
        ghost var flagged: nat := 0;
        changed := false;
        for r := 0 to |g.prods|
          invariant |e| == g.N() && GrownFlags(e0, e) && GrownFlags(empty, e)
          invariant forall s :: 0 <= s < g.N() && e[s] && !empty[s] ==> s in why && EmptyJustified(g, e, why[s], s)
          invariant !changed ==> e == e0
          invariant changed ==> flagged < g.N() && e[flagged] && !e0[flagged]
          invariant !changed ==> forall r' :: 0 <= r' < r && EmptyFires(g, e, r') ==> e[g.Lhs(r')]
        {
          assert g.ProdOk(r);
          var left := g.prods[r].body[0];
          if EmptyFires(g, e, r) && !e[left] {
            forall r' | 0 <= r' < |g.prods|
              ensures EmptyFires(g, e, r') ==> EmptyFires(g, e[left := true], r')
            {
              EmptyFiresGrow(g, e, e[left := true], r');
            }
            e := e[left := true];
            why := why[left := r];
            flagged := left;
            changed := true;
          }
        }
        if changed {
          assert flagged in Unset(e0) && flagged !in Unset(e);
        }
      }
      empty := e;
    }

    /**
     * `firstNullablePrecomp`: repeats passes over the productions; each pass
     * scans a right-hand side, adding the first terminal met, or the FIRST
     * of each nonterminal met while those nonterminals are nullable, to FIRST
     * of the left-hand side, and marks the left-hand side nullable when the
     * scan runs off the end. It stops after a pass that changes nothing.
     */
    method FirstNullablePrecomp()
      requires Valid()
      modifies this`first, this`nullable
      ensures Valid()
      ensures Grown(old(first), first) && GrownFlags(old(nullable), nullable)
      ensures forall r :: 0 <= r < |g.prods| ==> FirstClosed(g, first, nullable, r)
    {
      var fs: seq<set<nat>> := first;
      var nl := nullable;
      ghost var first0, nullable0 := first, nullable;
      var changed := true;
      while changed
        invariant |fs| == g.N() && |nl| == g.N()
        invariant TerminalSets(g, fs) && Grown(first0, fs) && GrownFlags(nullable0, nl)
        invariant !changed ==> forall r :: 0 <= r < |g.prods| ==> FirstClosed(g, fs, nl, r)
        decreases PendingSets(g.N(), fs), Unset(nl), if changed then 1 else 0
      {
        ghost var fs0 := fs;
        fs, nl, changed := FirstNullablePass(g, fs, nl);
        GrownTrans(first0, fs0, fs);
      }
      first := fs;
      nullable := nl;
    }

    /** Handle `i` is at position `i` of `states`: the list is every handle, in creation order. */
    ghost predicate StatesAreHandles()
      reads this`states, this`store
    {
      |states| == |store| && forall i :: 0 <= i < |states| ==> states[i] == i
    }

    /**
     * `findEmpty`: on first meeting an EMPTY symbol `x`, marks it visited and
     * walks its productions, appending the item of each empty production and
     * recursing into the first right-hand symbol of the others when it is a
     * nonterminal. Returns the list with the appended items.
     */
    method FindEmpty(list: seq<Lr1>, x: nat) returns (list': seq<Lr1>)
      requires Valid() && x < g.N()
      modifies this`visited
      decreases Unset(visited)
      ensures Valid() && GrownFlags(old(visited), visited)
      ensures list <= list'
      ensures forall k :: |list| <= k < |list'| ==>
                ClosureLr1(g, list'[k]) && visited[g.Lhs(list'[k].item.rule)] && !old(visited)[g.Lhs(list'[k].item.rule)]
      ensures forall v :: 0 <= v < g.N() && visited[v] && !old(visited)[v] ==>
                empty[v] && EmptyClosed(g, empty, visited, list', v)
      ensures forall v :: 0 <= v < g.N() && visited[v] && !old(visited)[v] ==> EmptyReaches(g, empty, x, v)
      ensures empty[x] ==> visited[x]
    {
      list' := list;
      if !visited[x] && empty[x] {
        ghost var vis0 := visited;
        visited := visited[x := true];
        EmptyReachesSelf(g, empty, x, x);
        var chain := g.byLhs[x];
        for j := 0 to |chain|
          invariant Valid() && GrownFlags(vis0, visited) && visited[x]
          invariant list <= list'
          invariant forall k :: |list| <= k < |list'| ==>
                      ClosureLr1(g, list'[k]) && visited[g.Lhs(list'[k].item.rule)] && !vis0[g.Lhs(list'[k].item.rule)]
          invariant forall v :: 0 <= v < g.N() && visited[v] && !vis0[v] && v != x ==>
                      empty[v] && EmptyClosed(g, empty, visited, list', v)
          invariant forall v :: 0 <= v < g.N() && visited[v] && !vis0[v] ==> EmptyReaches(g, empty, x, v)
          invariant forall j' :: 0 <= j' < j ==> RuleClosed(g, empty, visited, list', chain[j'])
        {
          var r := chain[j];
          ghost var visPre, listPre := visited, list';
          if |g.prods[r].body| == 1 {
            list' := list' + [Lr1(g.startPrime, {}, Item(r, 1))];
            assert list'[|list'| - 1] == Lr1(g.startPrime, {}, Item(r, 1));
          } else if !g.symbols[g.RhsStart(r)].terminal {
            assert x in Unset(vis0) && x !in Unset(visited);
            var y := g.RhsStart(r);
            list' := FindEmpty(list', y);
            assert EmptyLink(g, x, y);
            DescentKeeps(g, empty, x, y, vis0, visPre, visited);
          }
          AppendedKeeps(g, x, list, listPre, list', vis0, visPre, visited);
          RulesStep(g, empty, chain, j, visPre, visited, listPre, list');
          EmptyClosedGrow(g, empty, visPre, visited, listPre, list');
        }
      }
    }

    /**
     * The first half of `makeState`: each item takes the lookahead set of the
     * first earlier item with the same `left` (never for the start symbol), or
     * else a blank set. The sets are all blank at this point, so every item
     * ends with a blank one and is otherwise unchanged.
     */
    method ShareLooks(items: seq<Lr1>) returns (out: seq<Lr1>)
      ensures |out| == |items| && forall k :: 0 <= k < |items| ==> out[k] == items[k].(look := {})
    {
      out := [];
      for k := 0 to |items|
        invariant |out| == k && forall k' :: 0 <= k' < k ==> out[k'] == items[k'].(look := {})
      {
        var look: set<nat> := {};
        if items[k].left != g.startPrime {
          var q := 0;
          while q < k
            invariant 0 <= q <= k && look == {}
          {
            if items[q].left == items[k].left {
              look := out[q].look;
              break;
            }
            q := q + 1;
          }
        }
        out := out + [items[k].(look := look)];
      }
    }

    /**
     * `makeState`: shares the items' lookahead sets, then, with the visited
     * marks cleared, appends the empty-production items reachable from each
     * nonterminal right after a dot.
     */
    method MakeState(items: seq<Lr1>) returns (r: seq<Lr1>)
      requires Valid() && forall k :: 0 <= k < |items| ==> ValidItem(g, items[k].item)
      modifies this`visited
      ensures Valid()
      ensures |r| >= |items|
      ensures forall k :: 0 <= k < |items| ==> r[k] == items[k].(look := {})
      ensures forall k :: |items| <= k < |r| ==> ClosureLr1(g, r[k]) && visited[g.Lhs(r[k].item.rule)]
      ensures forall k :: 0 <= k < |items| && OpensEmpty(g, empty, items[k].item) ==> visited[After(g, items[k].item)]
      ensures forall v :: 0 <= v < g.N() && visited[v] ==> empty[v] && EmptyClosed(g, empty, visited, r, v)
      ensures forall v :: 0 <= v < g.N() && visited[v] ==> OpenedBy(g, empty, items, |items|, v)
    {
      var out := ShareLooks(items);
      visited := seq(g.N(), _ => false);
      r := AddEmpties(items, out);
    }

    /**
     * The second half of `makeState`: from cleared visited marks, runs
     * `findEmpty` on each nonterminal right after a dot, appending to `out`.
     */
    method AddEmpties(items: seq<Lr1>, out: seq<Lr1>) returns (r: seq<Lr1>)
      requires Valid() && forall k :: 0 <= k < |items| ==> ValidItem(g, items[k].item)
      requires |out| == |items| && forall v :: 0 <= v < g.N() ==> !visited[v]
      modifies this`visited
      ensures Valid()
      ensures |r| >= |items| && r[..|items|] == out
      ensures forall k :: |items| <= k < |r| ==> ClosureLr1(g, r[k]) && visited[g.Lhs(r[k].item.rule)]
      ensures forall k :: 0 <= k < |items| && OpensEmpty(g, empty, items[k].item) ==> visited[After(g, items[k].item)]
      ensures forall v :: 0 <= v < g.N() && visited[v] ==> empty[v] && EmptyClosed(g, empty, visited, r, v)
      ensures forall v :: 0 <= v < g.N() && visited[v] ==> OpenedBy(g, empty, items, |items|, v)
    {
      r := out;
      for k := 0 to |items|
        invariant Valid() && |r| >= |items| && r[..|items|] == out
        invariant EmptiesSoFar(g, empty, visited, items, k, r)
      {
        r := EmptiesAt(items, k, r);
      }
    }

    /** One round of `makeState`'s second loop: `findEmpty` from the symbol after the dot of item `k`. */
    method EmptiesAt(items: seq<Lr1>, k: nat, r: seq<Lr1>) returns (r': seq<Lr1>)
      requires Valid() && k < |items| <= |r| && forall k' :: 0 <= k' < |items| ==> ValidItem(g, items[k'].item)
      requires EmptiesSoFar(g, empty, visited, items, k, r)
      modifies this`visited
      ensures Valid() && |items| <= |r'| && r'[..|items|] == r[..|items|]
      ensures EmptiesSoFar(g, empty, visited, items, k + 1, r')
    {
      r' := r;
      if !IsTail(g, items[k].item) && !g.symbols[After(g, items[k].item)].terminal {
        ghost var visPre := visited;
        r' := FindEmpty(r, After(g, items[k].item));
        EmptiesFound(g, empty, items, k, visPre, visited, r, r');
      } else {
        EmptiesSkip(g, empty, items, k, visited, r);
      }
    }

    /** The search half of `findOrCreateState`: a state entered through `through` matching `sub`. */
    method Lookup(through: nat, sub: seq<Lr1>) returns (found: bool, h: nat)
      requires Valid() && IndexOk(g, store, statesThrough) && through < g.N()
      ensures found ==> h < |store| && store[h].through == through && IsSameSet(store[h].items, sub)
      ensures !found ==> forall h' :: 0 <= h' < |store| && store[h'].through == through ==>
                !IsSameSet(store[h'].items, sub)
    {
      var cands := statesThrough[through];
      for j := 0 to |cands|
        invariant forall j' :: 0 <= j' < j ==> !IsSameSet(store[cands[j']].items, sub)
      {
        if IsSameSet(store[cands[j]].items, sub) {
          return true, cands[j];
        }
      }
      forall h' | 0 <= h' < |store| && store[h'].through == through
        ensures !IsSameSet(store[h'].items, sub)
      {
        assert h' in cands;
      }
      return false, 0;
    }

    /**
     * `findOrCreateState`: the state entered through `through` whose items
     * match `sub` structurally, or else a new state built from `sub` by
     * `makeState` and registered in `states` and `statesThrough`.
     */
    method FindOrCreateState(through: nat, sub: seq<Lr1>) returns (h: nat)
      requires Valid() && StoreOk(g, store) && IndexOk(g, store, statesThrough) && StatesAreHandles()
      requires through < g.N()
      requires || (|store| == 0 && through == g.nil && InitialRun(sub))
               || (|store| > 0 && KernelRun(g, through, sub))
      requires LeftsOk(g, sub)
      modifies this`store, this`states, this`statesThrough, this`visited
      ensures Valid() && StoreOk(g, store) && IndexOk(g, store, statesThrough) && StatesAreHandles()
      ensures old(store) <= store && |store| <= |old(store)| + 1
      ensures h < |store| && store[h].through == through && Kernel(store[h].items) == ItemsOf(sub)
      ensures |old(store)| > 0 ==> h > 0
      ensures Unborn(g, store) <= Unborn(g, old(store))
      ensures |store| > |old(store)| ==> Unborn(g, store) < Unborn(g, old(store))
    {
      if |store| > 0 {
        NotInitial(g, store, through, sub);
      }
      var found;
      found, h := Lookup(through, sub);
      RunShaped(g, through, sub);
      if found {
        assert WellShaped(g, store[h]);
        SameSetIffKernel(store[h].items, sub);
        return;
      }
      var items := MakeState(sub);
      NewStateShape(g, through, sub, items);
      NoMatchFresh(g, store, through, sub, items);
      h := |store|;
      Register(State(through, items, [], [], [], 0));
    }

    /** The creating half of `findOrCreateState`: a fresh state joins `states` and `statesThrough`. */
    method Register(st: State)
      requires Valid() && StoreOk(g, store) && IndexOk(g, store, statesThrough) && StatesAreHandles()
      requires WellShaped(g, st) && st.through < g.N()
      requires |store| == 0 ==> st.through == g.nil && Kernel(st.items) == [Item(0, 1)]
      requires |store| > 0 ==> EnteredThrough(g, st)
      requires forall h :: 0 <= h < |store| && store[h].through == st.through ==>
                 Kernel(store[h].items) != Kernel(st.items)
      modifies this`store, this`states, this`statesThrough
      ensures store == old(store) + [st] && states == old(states) + [|old(store)|]
      ensures statesThrough == old(statesThrough)[st.through := old(statesThrough)[st.through] + [|old(store)|]]
      ensures Valid() && StoreOk(g, store) && IndexOk(g, store, statesThrough) && StatesAreHandles()
      ensures Unborn(g, store) < Unborn(g, old(store))
    {
      var s0, ix0, h := store, statesThrough, |store|;
      StoreOkAppend(g, s0, st);
      IndexOkAppend(g, s0, ix0, st);
      UnbornAppend(g, s0, st);
      var handles := states + [h];
      assert forall i :: 0 <= i < |handles| ==> handles[i] == i;
      store, states, statesThrough := s0 + [st], handles, ix0[st.through := ix0[st.through] + [h]];
    }

    /**
     * The indirect GOTO collection of `computeKernels`: walking the growing
     * list, the first time a nonterminal is met just before a dot, every
     * production of it with a right-hand side is appended at position 2.
     */
    method IndirectGotos(tmp: seq<Lr1>) returns (list: seq<Lr1>)
      requires Valid() && forall k :: 0 <= k < |tmp| ==> ValidItem(g, tmp[k].item) && tmp[k].item.pos >= 2
      requires LeftsOk(g, tmp)
      modifies this`visited
      ensures Valid() && tmp <= list
      ensures forall k :: 0 <= k < |list| ==> ValidItem(g, list[k].item) && list[k].item.pos >= 2 && list[k].left < g.N()
      ensures forall k :: |tmp| <= k < |list| ==>
                list[k].item.pos == 2 && list[k].item.rule < |g.prods| &&
                list[k].left == g.Lhs(list[k].item.rule) && list[k].look == {}
      ensures forall k :: |tmp| <= k < |list| ==> FromEarlier(g, list, k)
      ensures forall k :: 0 <= k < |list| ==> list[k].item in Reach(g, ItemSet(ItemsOf(tmp)), k)
      ensures SuccClosed(g, ItemSet(ItemsOf(list)))
      ensures DistinctItems(tmp) && (forall k :: 0 <= k < |tmp| ==> tmp[k].item.pos >= 3 || tmp[k].item.rule == 0) ==>
                DistinctItems(list)
    {
      var vis;
      list, vis := CloseGotos(g, tmp);
      visited := vis;
    }

    /**
     * One round of the "compute next states" loop: the run starting at
     * `start` becomes the next target.
     */
    method AddRun(list: seq<Lr1>, start: nat, nextst: seq<nat>) returns (end: nat, nextst': seq<nat>)
      requires Valid() && StoreOk(g, store) && IndexOk(g, store, statesThrough) && StatesAreHandles() && |store| > 0
      requires start < |list| && forall k :: 0 <= k < |list| ==> ValidItem(g, list[k].item) && list[k].item.pos >= 2 && list[k].left < g.N()
      requires SortedBy(list, KernelOrder(g)) && KeysDistinct(list, KernelOrder(g))
      requires TargetsOk(store, nextst) && Succ(store, nextst) == Upto(list, start)
      requires |nextst| > 0 ==> store[nextst[|nextst| - 1]].through < Before(g, list[start].item)
      modifies this`store, this`states, this`statesThrough, this`visited
      ensures Valid() && StoreOk(g, store) && IndexOk(g, store, statesThrough) && StatesAreHandles()
      ensures start < end <= |list| && old(store) <= store
      ensures |store| == |old(store)| || Unborn(g, store) < Unborn(g, old(store))
      ensures TargetsOk(store, nextst') && Succ(store, nextst') == Upto(list, end) && |nextst'| == |nextst| + 1
      ensures end < |list| ==> store[nextst'[|nextst'| - 1]].through < Before(g, list[end].item)
    {
      var sym := Before(g, list[start].item);
      end := RunEnd(g, list, start);
      SortedRun(g, list, start, end, sym);
      if end < |list| {
        NextRunAbove(g, list, start, end);
      }
      nextst' := AddTarget(list, start, end, nextst, sym);
    }

    /** The run `list[start..end]`, all following `sym`, becomes the next target. */
    method AddTarget(list: seq<Lr1>, start: nat, end: nat, nextst: seq<nat>, sym: nat) returns (nextst': seq<nat>)
      requires Valid() && StoreOk(g, store) && IndexOk(g, store, statesThrough) && StatesAreHandles() && |store| > 0
      requires start < end <= |list| && sym < g.N() && KernelRun(g, sym, list[start..end])
      requires TargetsOk(store, nextst) && Succ(store, nextst) == Upto(list, start)
      requires |nextst| > 0 ==> store[nextst[|nextst| - 1]].through < sym
      modifies this`store, this`states, this`statesThrough, this`visited
      ensures Valid() && StoreOk(g, store) && IndexOk(g, store, statesThrough) && StatesAreHandles()
      ensures old(store) <= store
      ensures |store| == |old(store)| || Unborn(g, store) < Unborn(g, old(store))
      ensures TargetsOk(store, nextst') && Succ(store, nextst') == Upto(list, end) && |nextst'| == |nextst| + 1
      ensures store[nextst'[|nextst'| - 1]].through == sym
    {
      ghost var s0 := store;
      var h := FindOrCreateState(sym, list[start..end]);
      SuccAfterRun(s0, store, nextst, h, list, start, end);
      TargetsExtend(s0, store, nextst, h);
      nextst' := nextst + [h];
    }

    /**
     * The "compute next states" loop of `computeKernels`: cuts the sorted
     * candidate list into runs of one transition symbol and finds or creates
     * the state of each run, in symbol order.
     */
    method NextStates(list: seq<Lr1>) returns (nextst: seq<nat>)
      requires Valid() && StoreOk(g, store) && IndexOk(g, store, statesThrough) && StatesAreHandles() && |store| > 0
      requires forall k :: 0 <= k < |list| ==> ValidItem(g, list[k].item) && list[k].item.pos >= 2 && list[k].left < g.N()
      requires SortedBy(list, KernelOrder(g)) && KeysDistinct(list, KernelOrder(g))
      modifies this`store, this`states, this`statesThrough, this`visited
      ensures Valid() && StoreOk(g, store) && IndexOk(g, store, statesThrough) && StatesAreHandles()
      ensures old(store) <= store
      ensures |store| == |old(store)| || Unborn(g, store) < Unborn(g, old(store))
      ensures TargetsOk(store, nextst)
      ensures Succ(store, nextst) == ItemSet(ItemsOf(list))
    {
      nextst := [];
      var tp := 0;
      while tp < |list|
        invariant Valid() && StoreOk(g, store) && IndexOk(g, store, statesThrough) && StatesAreHandles()
        invariant tp <= |list| && old(store) <= store
        invariant |store| == |old(store)| || Unborn(g, store) < Unborn(g, old(store))
        invariant TargetsOk(store, nextst) && Succ(store, nextst) == Upto(list, tp)
        invariant |nextst| > 0 && tp < |list| ==> store[nextst[|nextst| - 1]].through < Before(g, list[tp].item)
        decreases |list| - tp
      {
        tp, nextst := AddRun(list, tp, nextst);
      }
      UptoSplit(list, 0, |list|);
      assert list[0..|list|] == list;
    }

    /**
     * The GOTO candidates of state `i`, as `computeKernels` collects them:
     * the direct ones, the indirect ones, sorted by transition symbol, rule
     * and position.
     */
    method Candidates(i: nat) returns (sorted: seq<Lr1>)
      requires Valid() && StoreOk(g, store) && i < |store|
      modifies this`visited
      ensures Valid()
      ensures forall k :: 0 <= k < |sorted| ==> ValidItem(g, sorted[k].item) && sorted[k].item.pos >= 2 && sorted[k].left < g.N()
      ensures SortedBy(sorted, KernelOrder(g)) && KeysDistinct(sorted, KernelOrder(g))
      ensures forall j :: 0 <= j < |store[i].items| && HasNext(g, store[i].items[j].item) ==>
                Slice(store[i].items[j].item) in ItemSet(ItemsOf(sorted))
      ensures SuccClosed(g, ItemSet(ItemsOf(sorted)))
      ensures Reached(g, Advances(g, store[i].items), ItemSet(ItemsOf(sorted)))
    {
      var items := store[i].items;
      var tmp := DirectGotos(g, items);
      DirectFacts(g, store, i, tmp);
      DirectAdvances(g, items);
      var list := IndirectGotos(tmp);
      DistinctKeys(g, list);
      sorted := SortBy(list, KernelOrder(g));
      SortedFacts(g, items, tmp, list, sorted);
      SortedReached(g, ItemSet(ItemsOf(tmp)), list, sorted);
    }

    /** The found or created targets of state `i`'s candidates, in symbol order. */
    method Targets(i: nat) returns (nextst: seq<nat>)
      requires Valid() && StoreOk(g, store) && IndexOk(g, store, statesThrough) && StatesAreHandles() && i < |store|
      requires forall h :: 0 <= h < i ==> GotoOk(g, store, h)
      modifies this`store, this`states, this`statesThrough, this`visited
      ensures Valid() && StoreOk(g, store) && IndexOk(g, store, statesThrough) && StatesAreHandles()
      ensures old(store) <= store
      ensures |store| == |old(store)| || Unborn(g, store) < Unborn(g, old(store))
      ensures forall h :: 0 <= h < i ==> GotoOk(g, store, h)
      ensures TargetsOk(store, nextst) && SuccClosed(g, Succ(store, nextst))
      ensures forall j :: 0 <= j < |store[i].items| && HasNext(g, store[i].items[j].item) ==>
                Slice(store[i].items[j].item) in Succ(store, nextst)
      ensures Reached(g, Advances(g, store[i].items), Succ(store, nextst))
    {
      var sorted := Candidates(i);
      ghost var s0 := store;
      nextst := NextStates(sorted);
      assert store[i] == s0[i];
      assert SameKernels(s0, store);
      GotosKept(g, s0, store, i);
    }

    /** `$p->shifts = $nextst`: state `i` gets its transitions. */
    method SetShifts(i: nat, nextst: seq<nat>)
      requires Valid() && StoreOk(g, store) && IndexOk(g, store, statesThrough) && StatesAreHandles() && i < |store|
      requires forall h :: 0 <= h < i ==> GotoOk(g, store, h)
      requires TargetsOk(store, nextst) && SuccClosed(g, Succ(store, nextst))
      requires forall j :: 0 <= j < |store[i].items| && HasNext(g, store[i].items[j].item) ==>
                 Slice(store[i].items[j].item) in Succ(store, nextst)
      requires Reached(g, Advances(g, store[i].items), Succ(store, nextst))
      modifies this`store
      ensures store == old(store)[i := old(store)[i].(shifts := nextst)]
      ensures Valid() && StoreOk(g, store) && IndexOk(g, store, statesThrough) && StatesAreHandles()
      ensures Unborn(g, store) == Unborn(g, old(store))
      ensures forall h :: 0 <= h <= i ==> GotoOk(g, store, h)
    {
      ShiftsStep(g, store, statesThrough, i, nextst);
      store := WithShifts(store, i, nextst);
    }

    /**
     * One round of `computeKernels`' loop over the states: the found or
     * created targets of state `i`'s candidates become its transitions.
     */
    method KernelStep(i: nat)
      requires Valid() && StoreOk(g, store) && IndexOk(g, store, statesThrough) && StatesAreHandles() && i < |store|
      requires forall h :: 0 <= h < i ==> GotoOk(g, store, h)
      modifies this`store, this`states, this`statesThrough, this`visited
      ensures Valid() && StoreOk(g, store) && IndexOk(g, store, statesThrough) && StatesAreHandles()
      ensures |old(store)| <= |store| && forall h :: 0 <= h <= i ==> GotoOk(g, store, h)
      ensures || (|store| == |old(store)| && Unborn(g, store) == Unborn(g, old(store)))
              || Unborn(g, store) < Unborn(g, old(store))
    {
      var nextst := Targets(i);
      SetShifts(i, nextst);
    }

    /** The first call of `computeKernels`: the initial state, entered through the nil symbol. */
    method InitialState()
      requires Valid() && |store| == 0 && |states| == 0 && |statesThrough| == g.N()
      requires forall s :: 0 <= s < |statesThrough| ==> statesThrough[s] == []
      modifies this`store, this`states, this`statesThrough, this`visited
      ensures Valid() && StoreOk(g, store) && IndexOk(g, store, statesThrough) && StatesAreHandles()
      ensures |store| == 1 && store[0].through == g.nil && Kernel(store[0].items) == [Item(0, 1)]
    {
      var start := [Lr1(g.startPrime, {}, Item(0, 1))];
      assert InitialRun(start) by {
        assert ItemsOf(start)[0] == Item(0, 1);
      }
      var h0 := FindOrCreateState(g.nil, start);
    }

    /**
     * `computeKernels`: creates the initial state from the augmented start
     * rule, then, for every state in creation order (including those created
     * on the way), computes its transitions. Every state then has a target
     * for each symbol its items can shift, and the targets' kernels are
     * closed under expanding the symbol shifted.
     */
    method ComputeKernels()
      requires Valid() && |store| == 0 && |states| == 0 && |statesThrough| == g.N()
      requires forall s :: 0 <= s < |statesThrough| ==> statesThrough[s] == []
      modifies this`store, this`states, this`statesThrough, this`visited
      ensures Valid() && StoreOk(g, store) && IndexOk(g, store, statesThrough) && StatesAreHandles()
      ensures |store| >= 1 && forall h :: 0 <= h < |store| ==> GotoOk(g, store, h)
    {
      InitialState();
      var i := 0;
      while i < |store|
        invariant Valid() && StoreOk(g, store) && IndexOk(g, store, statesThrough) && StatesAreHandles()
        invariant 1 <= |store| && i <= |store|
        invariant forall h :: 0 <= h < i ==> GotoOk(g, store, h)
        decreases Unborn(g, store), |store| - i
      {
        KernelStep(i);
        i := i + 1;
      }
    }

    /**
     * `computeFollow` for state `h`: FOLLOW of each target's nonterminal
     * takes in FIRST of what follows it in the target's kernel, FOLLOW of
     * the nonterminal after each dot with a nullable rest behind it takes in
     * the item's lookahead set, and the nested fixpoint closes FOLLOW of each
     * target's nonterminal under FOLLOW of the symbols that brought its
     * kernel items in.
     */
    method ComputeFollow(h: nat)
      requires Valid() && Built(g, store) && h < |store|
      modifies this`follow
      ensures Valid() && Grown(old(follow), follow)
      ensures TargetsFirstsIn(g, first, nullable, store, h, follow)
      ensures LooksIn(g, nullable, store[h].items, follow)
      ensures TargetsChained(g, nullable, store, h, follow)
    {
      var fol := TargetFirsts(g, first, nullable, store, h, follow);
      assert WellShaped(g, store[h]);
      ShapedItems(g, store[h]);
      var fol1 := LooksIntoFollow(g, nullable, store[h].items, fol);
      forall s | 0 <= s < g.N()
        ensures forall t :: t in LooksInto(g, nullable, store[h].items, s, |store[h].items|) ==> t < g.N()
      {
        LooksIntoCodes(g, nullable, store[h].items, s, |store[h].items|);
      }
      FollowFactsGrow(g, first, nullable, store, h, fol, fol1);
      GrownTrans(follow, fol, fol1);
      fol := fol1;
      var changed := true;
      while changed
        invariant follow == old(follow)
        invariant |fol| == g.N() && Bounded(g.N(), fol) && Grown(old(follow), fol)
        invariant TargetsFirstsIn(g, first, nullable, store, h, fol) && LooksIn(g, nullable, store[h].items, fol)
        invariant !changed ==> TargetsChained(g, nullable, store, h, fol)
        decreases PendingSets(g.N(), fol), if changed then 1 else 0
      {
        ghost var prev := fol;
        fol, changed := ChainPass(g, nullable, store, h, fol);
        FollowFactsGrow(g, first, nullable, store, h, prev, fol);
        GrownTrans(old(follow), prev, fol);
      }
      follow := fol;
    }

    /**
     * The body of `computeLookaheads`' loop over the states, for state `h`:
     * `computeFollow`, then the updates of the lookahead sets. When these
     * report no change, state `h` is closed.
     */
    method LookStep(h: nat) returns (changed: bool)
      requires Valid() && Built(g, store) && h < |store|
      modifies this`store, this`follow
      ensures Valid() && Built(g, store) && SameShape(old(store), store) && LooksGrown(old(store), store)
      ensures Grown(old(follow), follow)
      ensures PendingLook(g.N(), store) <= PendingLook(g.N(), old(store))
      ensures changed ==> PendingLook(g.N(), store) < PendingLook(g.N(), old(store))
      ensures !changed ==> OnlyHeadTails(g, old(store), store) && LooksClosed(g, first, nullable, store, follow, h)
    {
      ComputeFollow(h);
      ghost var s0 := store;
      store, changed := UpdateLooks(g, store, h, follow);
      if !changed {
        FollowFactsShape(g, first, nullable, s0, store, h, follow);
      }
    }

    /** One pass of `computeLookaheads`' do-while loop over the states. */
    method LookPass() returns (changed: bool)
      requires Valid() && Built(g, store) && StatesAreHandles()
      modifies this`store, this`follow
      ensures Valid() && Built(g, store) && StatesAreHandles()
      ensures SameShape(old(store), store) && LooksGrown(old(store), store) && Grown(old(follow), follow)
      ensures PendingLook(g.N(), store) <= PendingLook(g.N(), old(store))
      ensures changed ==> PendingLook(g.N(), store) < PendingLook(g.N(), old(store))
      ensures !changed ==> ClosedBelow(g, first, nullable, store, follow, |store|)
    {
      changed := false;
      for i := 0 to |states|
        invariant Valid() && Built(g, store) && StatesAreHandles()
        invariant PassSoFar(g, first, nullable, old(store), old(follow), store, follow, changed, i)
      {
        var h := states[i];
        assert h == i;
        ghost var s0, f0 := store, follow;
        var c := LookStep(h);
        PassStep(g, first, nullable, old(store), old(follow), s0, f0, store, follow, changed, c, i);
        changed := changed || c;
      }
    }

    /**
     * `computeLookaheads`: seeds the end marker into the lookahead set of
     * the initial state's first item, then repeats passes over the states
     * until one changes no lookahead set through propagation or FOLLOW of
     * an item's `left`. The automaton keeps its shape, and at the end every
     * state is closed in the sense of `LooksClosed`.
     */
    method ComputeLookaheads()
      requires Valid() && Built(g, store) && StatesAreHandles() && |store| >= 1
      modifies this`store, this`follow
      ensures Valid() && Built(g, store) && SameShape(old(store), store) && LooksGrown(old(store), store)
      ensures Grown(old(follow), follow)
      ensures |store[0].items| >= 1 && 0 in store[0].items[0].look
      ensures ClosedBelow(g, first, nullable, store, follow, |store|)
    {
      assert WellShaped(g, store[0]);
      AddLook(g.N(), store, 0, 0, {0});
      AddLookBuilt(g, store, 0, 0, {0});
      store := SetLook(store, 0, 0, store[0].items[0].look + {0});
      var changed := true;
      while changed
        invariant Valid() && Built(g, store) && StatesAreHandles()
        invariant SameShape(old(store), store) && LooksGrown(old(store), store) && Grown(old(follow), follow)
        invariant |store[0].items| >= 1 && 0 in store[0].items[0].look
        invariant !changed ==> ClosedBelow(g, first, nullable, store, follow, |store|)
        decreases PendingLook(g.N(), store), if changed then 1 else 0
      {
        ghost var s0, f0 := store, follow;
        changed := LookPass();
        GrownTrans(old(follow), f0, follow);
        SameShapeTrans(old(store), s0, store);
        LooksGrownTrans(old(store), s0, store);
        ShapeFacts(s0, store, 0);
      }
    }
  
    /**
     * The per-state loop of `fillReduce`: every state's reduce table is
     * filled, its transitions compacted and its conflicts counted. The
     * states are still in creation order here, so the loop over `states`
     * visits the handles in order.
     */
    method FillStates()
      requires Built(g, store)
      modifies this`store, this`nsrerr, this`nrrerr
      ensures FilledUpTo(g, old(store), store, |store|)
      ensures nsrerr == old(nsrerr) + AddedSr(old(store), store, |store|)
      ensures nrrerr == old(nrrerr) + AddedRr(old(store), store, |store|)
    {
      var s, sr, rr := FillAll(g, store);
      store := s;
      nsrerr, nrrerr := nsrerr + sr, nrrerr + rr;
    }

    /**
     * The state sort of `fillReduce`: the initial state stays first and the
     * others are ordered by the number of terminal transitions plus
     * non-default reduce entries, descending, then by the non-default reduce
     * entries, descending.
     */
    method SortStates()
      requires |states| >= 1 && HandlesPerm(store, states) && states[0] == 0
      modifies this`states
      ensures HandlesPerm(store, states) && states[0] == 0 && multiset(states) == multiset(old(states))
      ensures StatesOrdered(g, store, states)
    {
      var gr, st := g, store;
      var rest := SortBy(states[1..], (h: nat) => StateKey(gr, st, h));
      assert states == [states[0]] + states[1..];
      states := [0] + rest;
      PermDistinct(old(states), states);
      forall i | 0 <= i < |states|
        ensures states[i] < |store|
      {
        assert states[i] in multiset(old(states));
      }
    }

    /**
     * The last loop of `fillReduce`: each state gets its position as its
     * number, and `nnonleafstates` becomes the last position of a state with
     * transitions or a reduce list led by the nil sentinel.
     */
    method Renumber()
      requires HandlesPerm(store, states)
      modifies this`store, this`nnonleafstates
      ensures SameButNumbers(old(store), store) && Numbered(g, store, states, old(nnonleafstates), nnonleafstates)
    {
      for i := 0 to |states|
        invariant SameButNumbers(old(store), store)
        invariant forall i' :: 0 <= i' < i ==> store[states[i']].number == i'
        invariant forall i' :: 0 <= i' < i && NonLeaf(g, store[states[i']]) ==>
                    i' <= nnonleafstates < i && NonLeaf(g, store[states[nnonleafstates]])
        invariant nnonleafstates == old(nnonleafstates) || (0 <= nnonleafstates < i && NonLeaf(g, store[states[nnonleafstates]]))
      {
        var h := states[i];
        store := store[h := store[h].(number := i)];
        if NonLeaf(g, store[h]) {
          nnonleafstates := i;
        }
      }
      assert Numbered(g, store, states, old(nnonleafstates), nnonleafstates);
    }

    /**
     * The order `fillReduce` leaves behind: `states` lists every state once,
     * the initial state first and the others in the order of the state sort,
     * and each state is numbered by its position.
     */
    ghost predicate Ordered(nonleaf0: int)
      reads this`store, this`states, this`nnonleafstates
    {
      && HandlesPerm(store, states) && |states| >= 1 && states[0] == 0
      && StatesOrdered(g, store, states) && Numbered(g, store, states, nonleaf0, nnonleafstates)
    }

    /** The state sort and the numbering that follows it. */
    method OrderStates()
      requires |states| >= 1 && HandlesPerm(store, states) && states[0] == 0
      modifies this`store, this`states, this`nnonleafstates
      ensures SameButNumbers(old(store), store) && multiset(states) == multiset(old(states))
      ensures Ordered(old(nnonleafstates))
    {
      SortStates();
      Renumber();
      OrderedRenumber(g, old(store), store, states);
    }

    /**
     * `fillReduce`: the reduce tables of all states, then the state sort and
     * the numbering.
     */
    method FillReduce()
      requires Built(g, store) && StatesAreHandles() && |store| >= 1
      modifies this`store, this`states, this`nsrerr, this`nrrerr, this`nnonleafstates
      ensures unchanged(this`empty, this`nullable, this`first, this`follow, this`visited)
      ensures FilledFrom(old(store), old(nsrerr), old(nrrerr))
      ensures multiset(states) == multiset(old(states)) && Ordered(old(nnonleafstates))
    {
      ghost var s0, sr0, rr0 := store, nsrerr, nrrerr;
      FillStates();
      ghost var filled, states0, nl0 := store, states, nnonleafstates;
      assert nsrerr == sr0 + AddedSr(s0, filled, |filled|) && nrrerr == rr0 + AddedRr(s0, filled, |filled|);
      HandlesInOrder(store, states);
      OrderStates();
      assert Ordered(nl0) && multiset(states) == multiset(states0);
      FilledAll(g, s0, filled, store);
    }

    /**
     * Every state is the state of `built` with the same handle, filled, and
     * the counters have grown from `sr0` and `rr0` by the shift/reduce and
     * reduce/reduce conflicts recorded.
     */
    ghost predicate FilledFrom(built: seq<State>, sr0: int, rr0: int)
      reads this`store, this`nsrerr, this`nrrerr
    {
      && AllFilled(g, built, store)
      && nsrerr == sr0 + AddedSr(built, store, |store|)
      && nrrerr == rr0 + AddedRr(built, store, |store|)
    }
  
    /**
     * What the analysis stages leave behind: the first sets closed under
     * every production, the automaton built and its look-ahead sets closed.
     */
    ghost predicate Analysed()
      reads this`empty, this`nullable, this`first, this`follow, this`visited, this`store, this`states
    {
      && Valid() && (forall r :: 0 <= r < |g.prods| ==> FirstClosed(g, first, nullable, r))
      && Built(g, store) && StatesAreHandles() && |store| >= 1
      && ClosedBelow(g, first, nullable, store, follow, |store|)
    }

    /** The stages of `compute` before `fillReduce`. */
    method Analyse()
      requires Valid() && store == [] && states == [] && |statesThrough| == g.N()
      requires forall s :: 0 <= s < |statesThrough| ==> statesThrough[s] == []
      modifies this`empty, this`nullable, this`first, this`follow, this`visited
      modifies this`store, this`states, this`statesThrough
      ensures Analysed()
    {
      ComputeEmpty();
      FirstNullablePrecomp();
      ComputeKernels();
      ComputeLookaheads();
    }

    /**
     * `compute` after its initialisation: the stages in their order, from the
     * empty flags to the filled and numbered automaton.
     */
    method Compute()
      requires Valid() && store == [] && states == [] && |statesThrough| == g.N()
      requires forall s :: 0 <= s < |statesThrough| ==> statesThrough[s] == []
      requires nnonleafstates == 0 && nsrerr == 0 && nrrerr == 0
      modifies this`empty, this`nullable, this`first, this`follow, this`visited
      modifies this`store, this`states, this`statesThrough, this`nsrerr, this`nrrerr, this`nnonleafstates
      ensures Valid() && forall r :: 0 <= r < |g.prods| ==> FirstClosed(g, first, nullable, r)
      ensures exists built :: && Built(g, built) && ClosedBelow(g, first, nullable, built, follow, |built|)
                              && FilledFrom(built, 0, 0)
      ensures Ordered(0)
    {
      Analyse();
      ghost var built := store;
      FillReduce();
      assert Built(g, built) && ClosedBelow(g, first, nullable, built, follow, |built|) && FilledFrom(built, 0, 0);
    }
  }
}
