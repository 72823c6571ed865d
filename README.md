# LALR(1) table construction of PHP-Yacc, modelled in Dafny

This project models the LALR(1) engine of PHP-Yacc, the class `Lalr\Generator` in `lib/Lalr/Generator.php`. The engine turns a parsed grammar into the parser's automaton and action tables. `compute` runs five stages in order:

1. `computeEmpty` marks the nonterminals that can derive the empty string (the EMPTY flag).
2. `firstNullablePrecomp` computes FIRST sets and the nullable flags as one fixpoint.
3. `computeKernels` builds the LR(0) kernel states. It starts from `$start' -> . start`, takes the direct and the indirect GOTO items of each state, sorts them, and splits them into runs by transition symbol. Each run is looked up by `findOrCreateState`, or made by `makeState` and `findEmpty`.
4. `computeLookaheads` propagates lookahead sets along the transitions. It also feeds the FOLLOW sets of `computeFollow` into the target items and into the head/tail items until nothing changes.
5. `fillReduce` builds each state's reduce table, resolving shift/reduce conflicts by `comparePrecedence` and reduce/reduce conflicts by the lower rule number. It picks the default action, drops the removed shifts, sorts the states, and numbers them.

How the model represents this:

- `Lalr.Generator` is a class whose fields are the generator's own: `empty`, `nullable`, `first`, `follow`, `visited`, `store`, `states`, `statesThrough`, `nnonleafstates`, `nsrerr` and `nrrerr`. Each stage is a method that updates those fields.
- PHP `State` objects are handles. The model keeps them in `store: seq<State>`. A handle is a state's index in creation order. `states` is the PHP array of handles, which `fillReduce` permutes. `statesThrough` maps a symbol code to the handles entered through it.
- Bit-set strings (FIRST, FOLLOW, lookaheads) are `set<nat>` of symbol codes.
- Linked item lists are sequences of `Lr1(left, look, Item(rule, pos))`. An item `Item(r, pos)` has the dot before `body[pos]` of production `r`. `body[0]` is the left-hand side, as in the source.
- The algorithms that work in place become methods with loops. Each method is proved against a specification function or predicate: FIRST of a sequence, the successor set of a state's shifts, the propagation closure, and the soundness of a reduce table. Properties that relate several calls are lemmas about those functions.

Lookahead sets are values in the model. The generator's lookahead strings are PHP strings, so every assignment copies them:
- `makeState` (`lib/Lalr/Generator.php:557-569`) copies a sibling's look, which at that point is the blank set;
- `fillReduce` copies it (`$alook = $x->look`, line 233).

Nothing updates a shared lookahead through an alias.

## Model

| member | source | states |
|---|---|---|
| Lalr.Generator.constructor | lib/Lalr/Generator.php:52-64 | Starts with FIRST and FOLLOW empty for every symbol, nullable all false, no states, an empty `statesThrough` list per symbol, and zero counters. |
| Lalr.Generator.ComputeEmpty | lib/Lalr/Generator.php:483-495 | At exit, every production with no `body[1]`, or whose `body[1]` is EMPTY, has an EMPTY left-hand side. Flags are only set, never cleared. Every newly set flag is justified by a production. |
| Lalr.EmptyFiresGrow | lib/Lalr/Generator.php:490 | Once a production's EMPTY test holds, it keeps holding as more flags are set, which makes the fixpoint sound. |
| FirstSets.IsSeqNullableMeans | lib/Lalr/Generator.php:458-466 | `isSeqNullable` holds exactly when every symbol of the sequence is a nullable nonterminal, so a terminal or a non-nullable nonterminal makes it false. |
| FirstSets.FirstOfSeqMeans | lib/Lalr/Generator.php:444-456 | A terminal is in FIRST of a sequence exactly when it is a terminal at some position, or in FIRST of a nonterminal there, and every earlier symbol is a nullable nonterminal. |
| FirstSets.FirstOfSeqBound | lib/Lalr/Generator.php:444-456 | FIRST of a sequence lies within any set that holds FIRST of every symbol up to the first non-nullable one and FIRST of the rest. |
| FirstSets.ComputeFirst | lib/Lalr/Generator.php:444-456 | `computeFirst` unions into `p` exactly FIRST of the symbols after the dot of the item. |
| Lalr.ScanProduction | lib/Lalr/Generator.php:511-536 | One production's pass adds FIRST of `body[1..]` to FIRST of its left-hand side and keeps every FIRST set terminal-only. It reports growth exactly when that set changed, and reaching the end exactly when the body is nullable. |
| Lalr.ScanBody | lib/Lalr/Generator.php:513-531 | The inner `for ($s = 1 …)` scan: the union it accumulates and stops is exactly FIRST of the body after the left-hand side. |
| Lalr.FirstNullablePass | lib/Lalr/Generator.php:509-537 | One pass over all productions only grows FIRST and nullable. When it reports no change, every production is closed, meaning its FIRST and nullable contributions are already present. |
| Lalr.Generator.FirstNullablePrecomp | lib/Lalr/Generator.php:507-538 | At exit, for every production, FIRST of the left-hand side contains FIRST of the body. The left-hand side is nullable whenever the body is. The sets only grow. |
| Precedence.ComparePrecedence | lib/Lalr/Generator.php:391-412 | 0 exactly when the production or the symbol has undefined associativity. Otherwise the precedence difference when the precedences differ, and on a tie the associativity verdict (NON_ASSOC, or ±1 for left and right). |
| Precedence.ComparePrecedenceFollowsPolicy | lib/Lalr/Generator.php:240-258 | The way `fillReduce` reads the comparison agrees with the yacc policy whenever the difference is not -32768: shift on a higher symbol precedence or right associativity, reduce on a higher rule precedence or left associativity, an error entry when nonassociative, and a reported conflict when undefined. |
| Precedence.SentinelCollision | lib/Lalr/Generator.php:401-411 | A rule of precedence 32768 against a left-associative terminal of precedence 0 gives a difference equal to NON_ASSOC. `fillReduce` then writes an error entry where the policy says reduce. |
| Sorting.SortBy | lib/Lalr/Generator.php:610-631 | `sortList`: the result is a permutation of the list (same multiset), ordered by the comparator's key, and keeps keys distinct when they were. |
| Sorting.Insert | lib/Lalr/Generator.php:610-631 | Inserting one element into a sorted list keeps it sorted and adds exactly that element. |
| Automaton.SameSetIffKernel | lib/Lalr/Generator.php:471 | The `isSameSet` test of `findOrCreateState` succeeds exactly when the state's kernel equals the candidate run's items. |
| Lalr.Generator.Lookup | lib/Lalr/Generator.php:470-475 | Finds a state entered through the symbol whose kernel matches the run, or reports that no state entered through that symbol matches. |
| Lalr.Generator.FindOrCreateState | lib/Lalr/Generator.php:468-481 | Returns a handle whose state is entered through `through` with kernel exactly the run. When a state is created, it is appended, indexed under its symbol, and never the initial state. The store only grows, and the number of possible kernels not yet created strictly decreases. |
| Lalr.Generator.Register | lib/Lalr/Generator.php:477-480 | A new state is appended to the store, its handle is appended to `states` and to `statesThrough[through]`, and the store and index invariants are kept. |
| Lalr.Generator.MakeState | lib/Lalr/Generator.php:553-581 | Keeps the kernel items with blank lookaheads and appends closure items only. After it, every EMPTY nonterminal right after a kernel dot is visited, and every visited symbol has its empty productions' items present. Every visited symbol is one that `findEmpty`'s descent reaches from a nonterminal right after a kernel dot (`OpenedBy`), so nothing else is visited or appended. |
| Lalr.Generator.ShareLooks | lib/Lalr/Generator.php:555-571 | Every item gets the lookahead of the first earlier item with the same `left`, or a blank one. All looks are blank at that point, so the result is the items with blank looks and nothing else changed. |
| Lalr.Generator.AddEmpties | lib/Lalr/Generator.php:573-579 | From cleared marks, runs `findEmpty` after each kernel dot. It keeps the kernel as it is, visits every EMPTY nonterminal right after a dot, closes every visited symbol, and visits only symbols that such a dot opens. |
| Lalr.Generator.FindEmpty | lib/Lalr/Generator.php:590-608 | Only appends items. For an EMPTY nonterminal it marks it visited. It appends the items of its empty productions and recurses into EMPTY nonterminals that start a production, so every newly visited symbol is closed. Every newly visited symbol is reached from `x` by a descent through first right-hand symbols of EMPTY symbols (`EmptyReaches`). Every appended item belongs to a production of a newly visited symbol. |
| Lalr.EmptyPrepend | lib/Lalr/Generator.php:601-603 | The recursion into `body[1]` from an EMPTY symbol extends the descent: whatever the recursive call reaches, the caller reaches too. |
| Lalr.Generator.InitialState | lib/Lalr/Generator.php:78-83 | The first state is entered through nil with kernel `$start' -> . start`. |
| Kernels.DirectGotos | lib/Lalr/Generator.php:94-104 | The direct GOTO items are exactly the items of the state, dot advanced, for every item that is not at its tail. They carry `startPrime` as `left` and a blank look. |
| Kernels.DirectOfMember | lib/Lalr/Generator.php:94-104 | An item is a direct GOTO candidate exactly when some non-tail item of the state advances to it. |
| Kernels.ExpandSymbol | lib/Lalr/Generator.php:114-119 | Appends, for every production of the nonterminal with a body of two or more symbols, the item with the dot after its first body symbol, and keeps the list duplicate-free. |
| Kernels.ExpansionMember | lib/Lalr/Generator.php:114-119 | An item is in a nonterminal's expansion exactly when it is some production of it, of body length two or more, with the dot after the first body symbol. |
| Lalr.CloseGotos | lib/Lalr/Generator.php:107-122 | The indirect GOTO loop extends the direct list by appending only. Its result is closed under the successor rule, so every nonterminal before the dot of an item has its expansion present. Every appended item is a production of the nonterminal before the dot of an earlier entry, with the dot after its first body symbol. Each entry is reached from the direct items within as many closure rounds as its index. The list stays duplicate-free when the direct items were. |
| Lalr.ListReach | lib/Lalr/Generator.php:107-122 | An entry appended from an earlier entry lies one closure round beyond it, so entry `k` is within `k` rounds of the direct items. |
| Lalr.Generator.IndirectGotos | lib/Lalr/Generator.php:106-122 | After clearing `visited`, the candidate list is the direct list extended to a successor-closed list. Every appended item is an expansion of an earlier entry, and every entry is reached from the direct items by closure rounds. |
| Lalr.Generator.Candidates | lib/Lalr/Generator.php:94-136 | The sorted candidate list is ordered by transition symbol, rule and dot position, has distinct keys, and is closed. It contains the advance of every non-tail item of the state, and every item in it is reached from those advances by closure rounds. |
| Kernels.DirectAdvances | lib/Lalr/Generator.php:94-104 | The direct candidates, as a set, are exactly the advances of the state's non-tail items. |
| Automaton.ExpandClosed | lib/Lalr/Generator.php:107-122 | A set of items is closed under the successor rule exactly when one closure round adds nothing to it. |
| Automaton.ReachMono | lib/Lalr/Generator.php:107-122 | More closure rounds reach at least as many items. |
| Automaton.ReachLeast | lib/Lalr/Generator.php:107-122 | Every round of closure from `d` stays inside any closed set that contains `d`, so the closure is the least closed set containing `d`. |
| Automaton.GotoExact | lib/Lalr/Generator.php:94-152 | When a state's transitions are complete, an item is in one of its targets' kernels exactly when the closure rounds reach it from the advances of the state's non-tail items. |
| Kernels.RunEnd | lib/Lalr/Generator.php:145-147 | A run ends at the first item with a different transition symbol, or at the end of the list. |
| Kernels.SortedRun | lib/Lalr/Generator.php:140-150 | A maximal run of equal transition symbols in the sorted list is a well-formed kernel for that symbol. |
| Lalr.Generator.AddRun | lib/Lalr/Generator.php:140-151 | Each run adds one target whose kernel is the run. The targets so far cover exactly the items before the run's end, in ascending symbol order. |
| Lalr.Generator.NextStates | lib/Lalr/Generator.php:139-152 | The targets' kernels together are exactly the sorted candidate list. They are in strictly ascending order of symbol and never include the initial state. |
| Lalr.Generator.SetShifts | lib/Lalr/Generator.php:154 | Only the state's `shifts` change, and they are set to the targets. The state's transitions are now complete, closed, and exact: the targets' kernels hold nothing but the closure of the advances. |
| Lalr.Generator.ComputeKernels | lib/Lalr/Generator.php:76-157 | Every state in the store has complete transitions. The targets' kernels together are exactly the closure of the state's advances (see `Automaton.GotoExact`). The store, the handle list and the index stay consistent. |
| FollowSets.FirstIntoFollow | lib/Lalr/Generator.php:416-420 | For a target entered through a nonterminal, FIRST of every non-head kernel item's rest is added to the symbol's FOLLOW. |
| FollowSets.FirstsIntoTarget | lib/Lalr/Generator.php:415-421 | After it, FOLLOW of a target's symbol contains those FIRST sets. |
| FollowSets.TargetFirsts | lib/Lalr/Generator.php:415-421 | Every target of the state has its FIRST contributions in FOLLOW. |
| FollowSets.LooksIntoFollow | lib/Lalr/Generator.php:422-428 | Each nonterminal's FOLLOW grows by exactly the lookaheads of the state's items that have that nonterminal right after the dot and only nullable symbols after it (`FollowSets.FeedsFollow`). |
| FollowSets.ChainInto | lib/Lalr/Generator.php:431-440 | Adds FOLLOW of a target's non-head items' left-hand sides into FOLLOW of its symbol, where the rest is nullable. It reports no change only when this is already closed. |
| FollowSets.ChainPass | lib/Lalr/Generator.php:429-441 | One pass of the chaining loop only grows FOLLOW. A pass without change means every nonterminal target is chained. |
| Lalr.Generator.ComputeFollow | lib/Lalr/Generator.php:414-442 | At exit, FOLLOW holds the targets' FIRST contributions and the state's nullable lookaheads, and is closed under chaining. FOLLOW only grows. |
| Lookaheads.FindSuccessor | lib/Lalr/Generator.php:170-180 | Finds the transition on the symbol after the dot, and in its target, the item with the dot advanced. |
| Lookaheads.TargetUnique | lib/Lalr/Generator.php:170-180 | The successor transition and the advanced item in it are unique. |
| Lookaheads.PassLook | lib/Lalr/Generator.php:166-182 | Unions one item's look into its successor's look. Looks only grow. It reports a change exactly when a new symbol arrived, and otherwise the item is propagated. |
| Lookaheads.PropagateState | lib/Lalr/Generator.php:165-184 | After a pass over a state without change, every item's look is contained in its successor's look. |
| Lookaheads.FollowIntoItems | lib/Lalr/Generator.php:186-190 | FOLLOW of each item's `left` is unioned into its look, except for items whose `left` is `startPrime`. Without change, every such item already holds it. |
| Lookaheads.FollowIntoTargets | lib/Lalr/Generator.php:185-191 | Does the same for every target of the state. |
| Lookaheads.HeadTailsInto | lib/Lalr/Generator.php:192-196 | Changes only the looks of items that are both head and tail. Each of them receives FOLLOW of its left-hand side. |
| Lookaheads.UpdateLooks | lib/Lalr/Generator.php:165-196 | One state's step of the lookahead loop: looks only grow, a change strictly shrinks the pending work, and no change means the state is propagated. |
| Lalr.Generator.ComputeLookaheads | lib/Lalr/Generator.php:159-198 | Symbol 0 is in the first item's look of state 0. At exit every state is closed: propagated, with its FOLLOW contributions present. The shape of the states is unchanged, and looks and FOLLOW only grow. |
| Reduces.ErrorShift | lib/Lalr/Generator.php:219-225 | The default is -1 exactly when some transition of the state is on the error token. |
| Reduces.ResolveShifts | lib/Lalr/Generator.php:237-261 | Removes exactly the terminal shifts beaten by the rule or made an error. Their symbols are taken out of the lookahead copy. One error entry is added per nonassociative clash. One shift/reduce conflict is prepended per undefined clash, and the prepended conflicts are exactly `ShiftReduce(target, rule, symbol)` for those clashes. |
| Reduces.SrConfsMember | lib/Lalr/Generator.php:254-258 | A conflict is in the list the scan builds exactly when it is the shift/reduce conflict of a transition that ties with the rule. |
| Reduces.TiesIff | lib/Lalr/Generator.php:237-261 | While a completed item is processed, a transition ties with its rule exactly when it is a terminal in the item's lookahead, the precedence is undefined, and no earlier completed item beat it. |
| Reduces.ResolveReduces | lib/Lalr/Generator.php:263-275 | Each existing entry on a symbol of the lookahead copy gets the lower rule number and is reported as a reduce/reduce conflict. The copy loses every symbol that already has an entry. The conflict count is the size of that overlap. |
| Reduces.AddRemaining | lib/Lalr/Generator.php:277-280 | Adds one entry, reducing by the rule, per remaining lookahead symbol, in ascending order. |
| Reduces.CollectReduces | lib/Lalr/Generator.php:228-281 | After all items, the table is sound (see `Reduces.TableOk`). Every entry comes from a completed item's lookahead, one entry per symbol. Every completed item's lookahead is shifted or has an entry. Nonterminal shifts are never removed. Removed shifts were beaten, and kept terminal shifts win or tie. The shift/reduce conflicts recorded are exactly the ties of completed items with transitions no earlier item beat. Each reduce/reduce conflict names a completed item's rule, a symbol of its lookahead, and the rule of an entry already there. `srerr` is the number of shift/reduce conflicts in the list and `rrerr` the number of reduce/reduce ones. |
| Reduces.CollectItem | lib/Lalr/Generator.php:229-280 | One item keeps the table sound for the items up to it. A completed item prepends its reduce/reduce conflicts (`rrerr` of them) before its shift/reduce ones (`srerr` of them), so each counter grows by exactly the conflicts of its own kind. The shift/reduce ones are exactly its ties. |
| Defaults.NumCountPerm | lib/Lalr/Generator.php:287-295 | The number of entries reducing by a rule does not depend on their order, so sorting before counting is sound. |
| Defaults.RunCount | lib/Lalr/Generator.php:296-306 | In entries sorted by descending rule, a maximal run of one rule holds all of that rule's entries. |
| Defaults.ChooseDefault | lib/Lalr/Generator.php:284-307 | The default is -1 exactly when no entry reduces by a rule above 0. Otherwise it is such a rule with the most entries, the highest-numbered among equals. |
| Reduces.FinalList | lib/Lalr/Generator.php:310-320 | The reduce list holds exactly the entries not reducing by the default, by ascending symbol, and ends with the nil entry carrying the default. |
| Reduces.Compact | lib/Lalr/Generator.php:323 | The kept transitions, in their order. All of them when none was removed. |
| Reduces.FillState | lib/Lalr/Generator.php:215-333 | One state's fill: the table is sound, the default is -1 on an error shift and chosen as above otherwise, the reduce list is final, and the kept shifts are compacted. The new conflicts are prepended: the shift/reduce ones exactly the state's ties, the reduce/reduce ones each backed by two completed items. `srerr` and `rrerr` are the numbers of new conflicts of each kind. |
| Tables.FillAll | lib/Lalr/Generator.php:215-334 | Every state is filled from the automaton as it was before the pass. `srerr` is the number of shift/reduce conflicts added over all states (`Tables.AddedSr`) and `rrerr` the number of reduce/reduce ones (`Tables.AddedRr`). |
| Lalr.Generator.FillStates | lib/Lalr/Generator.php:215-334 | Fills every state. `nsrerr` grows by the number of shift/reduce conflicts added to the states, and `nrrerr` by the number of reduce/reduce ones. |
| Lalr.Generator.SortStates | lib/Lalr/Generator.php:350-377 | `states` stays a permutation of the handles with state 0 first. The others are ordered by descending terminal-shift-plus-reduce count, then by descending reduce count. |
| Lalr.Generator.Renumber | lib/Lalr/Generator.php:379-384 | Each state's number becomes its position in `states`. When a non-leaf state exists, `nnonleafstates` ends up as the position of a non-leaf state with every non-leaf state at or before it, that is the last one; when there is none, it is unchanged. A non-leaf state has a transition, or its reduce list starts with the nil entry. Nothing but numbers changes. |
| Tables.OrderedRenumber | lib/Lalr/Generator.php:350-384 | Renumbering keeps the state order, because the sort keys do not read the numbers. |
| Lalr.Generator.FillReduce | lib/Lalr/Generator.php:213-389 | Every state is filled from the automaton before the pass (`Lalr.Generator.FilledFrom`). `nsrerr` and `nrrerr` grow by the shift/reduce and reduce/reduce conflicts added, each kind separately. The states are sorted and numbered. Fields outside the pass are unchanged. |
| Lalr.Generator.Compute | lib/Lalr/Generator.php:44-74 | From a fresh generator with zero counters: FIRST and nullable are closed, the lookahead automaton is built with exact transitions and closed, every state is filled from it, `nsrerr` equals the shift/reduce conflicts recorded and `nrrerr` the reduce/reduce ones, and the states are ordered and numbered. |

## Left out

- The `debug` text, `printState`, `printDiagnostics`, `printStatistics` and every `DEBUG` block are output only and are not modelled.
- The statistics counters `nlooks`, `nstates`, `nacts` and `nacts2` change no table and are not modelled.
- The "never reduced" check (lines 336-346) and the `visited` marking in `fillReduce` (lines 325-329) only feed diagnostics, so they are left out.
- `compute`'s `ParseResult` input and `LalrResult` output become the `Grammar` value and the generator's fields. Its I/O (`filename`) is not modelled.
- `lib/Lalr/functions.php` (`isSameSet`, `forEachMember`, `testBit`, `orbits`) is not part of this model:
  - `isSameSet` is modelled by `Automaton.IsSameSet`, which compares the kernel items of a state with a run;
  - `forEachMember` is taken to list members in ascending symbol order;
  - bit sets are `set<nat>` rather than byte strings, and `NBITS` packing is not modelled.
- `clearVisited` is modelled as a fresh all-false flag sequence.
- `Production::isEmpty()` lives in the grammar classes, which are not part of this model. It is read as "the body has no symbol after the left-hand side" (`|body| == 1`), which is how `Automaton.ClosureLr1` and `Lalr.Generator.FindEmpty` use it.
- Sorting.SortBy: the model's sort is a stable insertion sort. PHP's `usort` order among equal keys is not modelled. Keys tie only in the state sort, where the model proves the order for the permutation it picks, not for the one PHP would pick.
- Precedence.ComparePrecedenceFollowsPolicy: proved only when the precedence difference is not -32768. `Precedence.SentinelCollision` shows the collision with `NON_ASSOC`; the source uses the raw difference.
- Lalr.Generator.ComputeLookaheads: states only the propagation closure and the closure of each state at its last pass. The union of FOLLOW into target items (line 188) is not proved to be a fixpoint at exit, because FOLLOW can still grow later in the final pass.
- Lalr.Generator.ComputeEmpty: states that the flags are closed and justified. It does not state that they form the least fixpoint as a separate lemma.
- Reduces.CollectReduces: each reduce/reduce conflict is shown to come from two completed items on a shared symbol, but the recorded list is not shown to hold every such pair. Per item, `Reduces.ResolveReduces` does count exactly one conflict for each lookahead symbol that already had an entry. The same holds for `Reduces.FillState`.
- Tables.FillAll: `fillReduce` fills each state in place. The model fills a sequence of state values and writes it back, so aliasing between a state object and the `states` array is not captured.
- Symbol associativity keeps its flag and its associativity apart, as an `empty` field and an `Assoc` value. The "Cannot happen" exception of `comparePrecedence` therefore cannot arise and is not modelled.
