/**
 * Precedence comparison between a completed production and a lookahead
 * terminal, and how the reduce-table fill reads its result.
 */
module Precedence {
  import opened Grammar

  /** Sentinel result meaning "non-associative: the input is an error here". */
  const NON_ASSOC: int := -32768

  /**
   * `comparePrecedence`: 0 when either side has no declared associativity;
   * otherwise the terminal's precedence minus the rule's when they differ,
   * and on a tie -1, 1 or NON_ASSOC for a left, right or non-associative rule.
   */
  function ComparePrecedence(gram: Production, x: Symbol): (r: int)
    ensures r == 0 <==> gram.assoc == Undef || x.assoc == Undef
    ensures r != 0 && x.prec != gram.prec ==> r == x.prec - gram.prec
    ensures r != 0 && x.prec == gram.prec ==>
              r == (match gram.assoc case Left => -1 case Right => 1 case _ => NON_ASSOC)
  {
    if gram.assoc == Undef || x.assoc == Undef then 0
    else if x.prec - gram.prec != 0 then x.prec - gram.prec
    else match gram.assoc
      case Left => -1
      case Right => 1
      case Non => NON_ASSOC
  }

  /** The four outcomes of a shift/reduce decision. */
  datatype Outcome = ErrorEntry | ReduceWins | ShiftWins | Unresolved

  /** How the reduce-table fill branches on a comparison result. */
  function Classify(rel: int): Outcome
  {
    if rel == NON_ASSOC then ErrorEntry
    else if rel < 0 then ReduceWins
    else if rel > 0 then ShiftWins
    else Unresolved
  }

  /**
   * The yacc precedence policy stated directly: undeclared associativity
   * leaves the conflict unresolved; otherwise the higher precedence wins
   * (the rule's for a reduce, the terminal's for a shift) and on equal
   * precedence the rule's associativity decides.
   */
  function Policy(gram: Production, x: Symbol): Outcome
  {
    if gram.assoc == Undef || x.assoc == Undef then Unresolved
    else if gram.prec > x.prec then ReduceWins
    else if gram.prec < x.prec then ShiftWins
    else match gram.assoc
      case Left => ReduceWins
      case Right => ShiftWins
      case Non => ErrorEntry
  }

  /**
   * The comparison implements the policy, except when the precedence
   * difference happens to equal the sentinel itself.
   */
  lemma ComparePrecedenceFollowsPolicy(gram: Production, x: Symbol)
    requires x.prec - gram.prec != NON_ASSOC
    ensures Classify(ComparePrecedence(gram, x)) == Policy(gram, x)
  {
  }

  /** Without that proviso the sentinel is misread: a rule of much higher precedence yields an error entry. */
  lemma SentinelCollision()
    ensures Classify(ComparePrecedence(Production([0], Left, 32768), Symbol(true, Left, 0, false))) == ErrorEntry
    ensures Policy(Production([0], Left, 32768), Symbol(true, Left, 0, false)) == ReduceWins
  {
  }
}
