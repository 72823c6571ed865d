/**
 * Nullability and FIRST of a symbol sequence, read off the symbol-indexed
 * `nullable` and `first` tables, and the two helpers that compute them for
 * the rest of an item.
 */
module FirstSets {
  import opened Grammar

  /** Every code in `syms` names a symbol. */
  ghost predicate Coded(g: Grammar, syms: seq<nat>)
  {
    forall k :: 0 <= k < |syms| ==> syms[k] < |g.symbols|
  }

  /** The first `k` symbols of `syms` are nullable nonterminals. */
  ghost predicate NullablePrefix(g: Grammar, nullable: seq<bool>, syms: seq<nat>, k: nat)
    requires |nullable| == g.N() && Coded(g, syms) && k <= |syms|
  {
    forall j :: 0 <= j < k ==> !g.symbols[syms[j]].terminal && nullable[syms[j]]
  }

  /**
   * `isSeqNullable`: walks the symbols and answers false at the first
   * terminal or non-nullable nonterminal, true when it runs off the end.
   */
  function IsSeqNullable(g: Grammar, nullable: seq<bool>, syms: seq<nat>): bool
    requires |nullable| == g.N() && Coded(g, syms)
    decreases |syms|
  {
    if syms == [] then true
    else if g.symbols[syms[0]].terminal || !nullable[syms[0]] then false
    else IsSeqNullable(g, nullable, syms[1..])
  }

  /** A sequence is nullable exactly when all of it is a nullable prefix (so the empty sequence is). */
  lemma {:induction false} IsSeqNullableMeans(g: Grammar, nullable: seq<bool>, syms: seq<nat>)
    requires |nullable| == g.N() && Coded(g, syms)
    ensures IsSeqNullable(g, nullable, syms) <==> NullablePrefix(g, nullable, syms, |syms|)
    decreases |syms|
  {
    if syms != [] {
      IsSeqNullableMeans(g, nullable, syms[1..]);
      if NullablePrefix(g, nullable, syms, |syms|) {
        assert NullablePrefix(g, nullable, syms[1..], |syms| - 1) by {
          forall j | 0 <= j < |syms| - 1
            ensures !g.symbols[syms[1..][j]].terminal && nullable[syms[1..][j]]
          {
            assert syms[1..][j] == syms[j + 1];
          }
        }
      }
      if IsSeqNullable(g, nullable, syms) {
        forall j | 0 <= j < |syms|
          ensures !g.symbols[syms[j]].terminal && nullable[syms[j]]
        {
          if j > 0 { assert syms[j] == syms[1..][j - 1]; }
        }
      }
    }
  }

  /**
   * The terminals FIRST gathers from `syms`: the first symbol if it is a
   * terminal, else its FIRST set, continuing past it only when it is nullable.
   */
  function FirstOfSeq(g: Grammar, first: seq<set<nat>>, nullable: seq<bool>, syms: seq<nat>): set<nat>
    requires |first| == g.N() && |nullable| == g.N() && Coded(g, syms)
    decreases |syms|
  {
    if syms == [] then {}
    else if g.symbols[syms[0]].terminal then {syms[0]}
    else first[syms[0]] + (if nullable[syms[0]] then FirstOfSeq(g, first, nullable, syms[1..]) else {})
  }

  /** `t` is contributed by position `k`: all before `k` are nullable nonterminals and `t` is, or begins, `syms[k]`. */
  ghost predicate FirstWitness(g: Grammar, first: seq<set<nat>>, nullable: seq<bool>, syms: seq<nat>, k: nat, t: nat)
    requires |first| == g.N() && |nullable| == g.N() && Coded(g, syms)
  {
    && k < |syms|
    && NullablePrefix(g, nullable, syms, k)
    && (if g.symbols[syms[k]].terminal then t == syms[k] else t in first[syms[k]])
  }

  /**
   * The scan's result, stated positionally: `t` is gathered exactly when it
   * is the first terminal reached after a nullable prefix, or belongs to FIRST
   * of a nonterminal of that prefix or of the nonterminal that ends it.
   */
  lemma {:induction false} FirstOfSeqMeans(g: Grammar, first: seq<set<nat>>, nullable: seq<bool>, syms: seq<nat>, t: nat)
    requires |first| == g.N() && |nullable| == g.N() && Coded(g, syms)
    ensures t in FirstOfSeq(g, first, nullable, syms) <==> exists k: nat :: FirstWitness(g, first, nullable, syms, k, t)
    decreases |syms|
  {
    if syms != [] {
      var tail := syms[1..];
      FirstOfSeqMeans(g, first, nullable, tail, t);
      if t in FirstOfSeq(g, first, nullable, syms) {
        if g.symbols[syms[0]].terminal || t in first[syms[0]] {
          assert FirstWitness(g, first, nullable, syms, 0, t);
        } else {
          var k: nat :| FirstWitness(g, first, nullable, tail, k, t);
          assert tail[k] == syms[k + 1];
          assert FirstWitness(g, first, nullable, syms, k + 1, t);
        }
      }
      if exists k: nat :: FirstWitness(g, first, nullable, syms, k, t) {
        var k: nat :| FirstWitness(g, first, nullable, syms, k, t);
        if k > 0 {
          assert tail[k - 1] == syms[k];
          assert NullablePrefix(g, nullable, tail, k - 1) by {
            forall j | 0 <= j < k - 1
              ensures !g.symbols[tail[j]].terminal && nullable[tail[j]]
            {
              assert tail[j] == syms[j + 1];
            }
          }
          assert FirstWitness(g, first, nullable, tail, k - 1, t);
        }
      }
    }
  }

  /**
   * A nullable prefix whose FIRST sets lie in `f`, followed by a remainder
   * whose FIRST lies in `f`, has its whole FIRST in `f`.
   */
  lemma {:induction false} FirstOfSeqBound(g: Grammar, first: seq<set<nat>>, nullable: seq<bool>, syms: seq<nat>, k: nat, f: set<nat>)
    requires |first| == g.N() && |nullable| == g.N() && Coded(g, syms) && k <= |syms|
    requires NullablePrefix(g, nullable, syms, k)
    requires forall j :: 0 <= j < k ==> first[syms[j]] <= f
    requires FirstOfSeq(g, first, nullable, syms[k..]) <= f
    ensures FirstOfSeq(g, first, nullable, syms) <= f
    decreases k
  {
    if k > 0 {
      var tail := syms[1..];
      assert tail[k - 1..] == syms[k..];
      forall j | 0 <= j < k - 1
        ensures !g.symbols[tail[j]].terminal && nullable[tail[j]] && first[tail[j]] <= f
      {
        assert tail[j] == syms[j + 1];
      }
      FirstOfSeqBound(g, first, nullable, tail, k - 1, f);
    }
  }

  /** Every member of every set is a symbol code. */
  ghost predicate Bounded(n: nat, sets: seq<set<nat>>)
  {
    forall s, t :: 0 <= s < |sets| && t in sets[s] ==> t < n
  }

  /** Every FIRST set holds terminal codes only. */
  ghost predicate TerminalSets(g: Grammar, sets: seq<set<nat>>)
  {
    forall s :: 0 <= s < |sets| ==> forall t :: t in sets[s] ==> t < g.N() && g.symbols[t].terminal
  }

  /** The (entry, symbol code) pairs a table of `n` sets still lacks: the measure of its fixpoints. */
  ghost function PendingSets(n: nat, sets: seq<set<nat>>): set<(nat, nat)>
    requires |sets| == n
  {
    set h, t | 0 <= h < n && 0 <= t < n && t !in sets[h] :: (h, t)
  }

  ghost predicate Grown(old_: seq<set<nat>>, new_: seq<set<nat>>)
  {
    |old_| == |new_| && forall s :: 0 <= s < |old_| ==> old_[s] <= new_[s]
  }

  ghost predicate GrownFlags(old_: seq<bool>, new_: seq<bool>)
  {
    |old_| == |new_| && forall s :: 0 <= s < |old_| ==> old_[s] ==> new_[s]
  }

  lemma GrownTrans(a: seq<set<nat>>, b: seq<set<nat>>, c: seq<set<nat>>)
    requires Grown(a, b) && Grown(b, c)
    ensures Grown(a, c)
  {
  }

  lemma PendingSetsShrink(n: nat, a: seq<set<nat>>, b: seq<set<nat>>)
    requires |a| == n && Grown(a, b)
    ensures PendingSets(n, b) <= PendingSets(n, a)
  {
  }

  lemma PendingSetsStrict(n: nat, a: seq<set<nat>>, b: seq<set<nat>>, h: nat, t: nat)
    requires |a| == n && Grown(a, b) && h < n && t < n && t in b[h] && t !in a[h]
    ensures PendingSets(n, b) < PendingSets(n, a)
  {
    assert (h, t) in PendingSets(n, a);
  }

  /**
   * `computeFirst`: adds to `p` the FIRST of the rest of `item`, stopping
   * after a terminal or after a nonterminal that is not nullable.
   */
  method ComputeFirst(g: Grammar, first: seq<set<nat>>, nullable: seq<bool>, p: set<nat>, item: Item)
    returns (r: set<nat>)
    requires |first| == g.N() && |nullable| == g.N()
    requires ValidItem(g, item) && Coded(g, Rest(g, item))
    ensures r == p + FirstOfSeq(g, first, nullable, Rest(g, item))
  {
    var syms := Rest(g, item);
    r := p;
    var i := 0;
    while i < |syms|
      invariant 0 <= i <= |syms|
      invariant r + FirstOfSeq(g, first, nullable, syms[i..]) == p + FirstOfSeq(g, first, nullable, syms)
    {
      var x := syms[i];
      assert syms[i..][1..] == syms[i + 1..];
      if g.symbols[x].terminal {
        r := r + {x};
        return;
      }
      r := r + first[x];
      if !nullable[x] {
        return;
      }
      i := i + 1;
    }
  }
}
