/**
 * The grammar the LALR generator reads: symbols identified by their dense
 * code, productions identified by their number, and dotted items.
 *
 * A symbol's code is its index in `symbols`, a production's number its index
 * in `prods`. `byLhs[s]` is the chain of productions whose left-hand side is
 * `s`, in the order of the `link` chain the generator walks.
 */
module Grammar {

  /** Associativity of a symbol or a production, with the EMPTY flag masked off. */
  datatype Assoc = Undef | Left | Right | Non

  /**
   * A grammar symbol. `empty` is the EMPTY flag that the grammar model
   * folds into the associativity field; `assoc` is the remaining, masked part.
   */
  datatype Symbol = Symbol(terminal: bool, assoc: Assoc, prec: int, empty: bool)

  /** A production; `body[0]` is its left-hand symbol, the rest its right-hand side. */
  datatype Production = Production(body: seq<nat>, assoc: Assoc, prec: int)

  datatype Grammar = Grammar(
    symbols: seq<Symbol>,
    prods: seq<Production>,
    byLhs: seq<seq<nat>>,
    nil: nat,
    errorToken: nat,
    startPrime: nat)
  {
    /** Number of symbols, the width of every symbol-indexed table. */
    function N(): nat { |symbols| }

    predicate IsTerminal(s: nat)
      requires s < |symbols|
    {
      symbols[s].terminal
    }

    /** The left-hand symbol of production `r`. */
    function Lhs(r: nat): (s: nat)
      requires WF() && r < |prods|
      ensures s < |symbols| && !symbols[s].terminal
    {
      assert ProdOk(r);
      prods[r].body[0]
    }

    /** `body[1]`: the first right-hand symbol of production `r`. */
    function RhsStart(r: nat): (s: nat)
      requires WF() && r < |prods| && |prods[r].body| >= 2
      ensures s < |symbols|
    {
      assert ProdOk(r);
      prods[r].body[1]
    }

    /** Every symbol of every production has a code, and left-hand sides are nonterminals. */
    ghost predicate ProdOk(r: nat)
      requires r < |prods|
    {
      && |prods[r].body| >= 1
      && (forall k :: 0 <= k < |prods[r].body| ==> prods[r].body[k] < |symbols|)
      && !symbols[prods[r].body[0]].terminal
    }

    /**
     * What the grammar model guarantees before the generator runs: codes in
     * range, production 0 is the augmented start rule whose left-hand symbol
     * occurs in no right-hand side, the per-symbol production chains list
     * exactly the productions of that symbol once each, and terminals are
     * coded before nonterminals.
     */
    ghost predicate WF()
    {
      && |symbols| > 0
      && nil < |symbols| && errorToken < |symbols| && startPrime < |symbols|
      && |prods| > 0
      && |byLhs| == |symbols|
      && (forall r :: 0 <= r < |prods| ==> ProdOk(r))
      && |prods[0].body| >= 1 && prods[0].body[0] == startPrime
      && (forall r, k :: 0 <= r < |prods| && 1 <= k < |prods[r].body| ==> prods[r].body[k] != startPrime)
      && (forall s, j :: 0 <= s < |byLhs| && 0 <= j < |byLhs[s]| ==>
            byLhs[s][j] < |prods| && |prods[byLhs[s][j]].body| >= 1 && prods[byLhs[s][j]].body[0] == s)
      && (forall s, i, j :: 0 <= s < |byLhs| && 0 <= i < j < |byLhs[s]| ==> byLhs[s][i] != byLhs[s][j])
      && (forall s, t :: 0 <= s < |symbols| && 0 <= t < |symbols| && symbols[s].terminal && !symbols[t].terminal ==> s < t)
    }
  }

  /**
   * A production with a dot. `pos` indexes the body: the dot stands between
   * body[pos-1] and body[pos], so position 1 is right after the left-hand symbol.
   */
  datatype Item = Item(rule: nat, pos: nat)

  predicate ValidItem(g: Grammar, it: Item)
  {
    it.rule < |g.prods| && 1 <= it.pos <= |g.prods[it.rule].body|
  }

  function Body(g: Grammar, it: Item): seq<nat>
    requires it.rule < |g.prods|
  {
    g.prods[it.rule].body
  }

  /** The dot is at the end of the body. */
  predicate IsTail(g: Grammar, it: Item)
    requires it.rule < |g.prods|
  {
    it.pos == |Body(g, it)|
  }

  /** A valid item with a symbol after its dot: one that shifts. */
  predicate HasNext(g: Grammar, it: Item)
  {
    ValidItem(g, it) && !IsTail(g, it)
  }

  /** The dot is right after the left-hand symbol. */
  predicate IsHead(it: Item)
  {
    it.pos == 1
  }

  /** `item[-1]`: the symbol just before the dot. */
  function Before(g: Grammar, it: Item): (s: nat)
    requires ValidItem(g, it)
    ensures g.WF() ==> s < g.N()
  {
    assert g.WF() ==> g.ProdOk(it.rule);
    Body(g, it)[it.pos - 1]
  }

  /** `item[0]`: the symbol just after the dot, defined when the item is not a tail item. */
  function After(g: Grammar, it: Item): (s: nat)
    requires ValidItem(g, it) && !IsTail(g, it)
    ensures g.WF() ==> s < g.N()
  {
    assert g.WF() ==> g.ProdOk(it.rule);
    Body(g, it)[it.pos]
  }

  /** The symbols an item iterates over: those from the dot to the end of the body. */
  function Rest(g: Grammar, it: Item): seq<nat>
    requires ValidItem(g, it)
  {
    Body(g, it)[it.pos..]
  }

  /** `item->slice(1)`: the item with the dot advanced by one symbol. */
  function Slice(it: Item): Item
  {
    Item(it.rule, it.pos + 1)
  }
}
