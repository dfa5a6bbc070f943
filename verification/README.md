# Verified models of the algorithms of Vcsn

Vcsn is a library of weighted automata and rational expressions. This project
models the algorithms of `vcsn/algos` whose whole point is a theorem (same
series, minimal, exactly the components, decides equivalence) and proves these
theorems. `dafny verify dfyconfig.toml` checks everything.

Algorithms that work by changing things step by step (elimination, searches,
worklists, refinements) are methods and classes with loops, proved against what
they promise; what is promised is stated on words, runs, walks, vectors or
relations that do not mention the algorithm.

- **Reduction over a field.** `Linear`, `Representations`, `RealAutomata`,
  `Elimination`, `Reduce`, `RealOperations`, `FieldEquivalence`: the basis of the
  reached space, the two-sided reduction, its minimality, and the decision of
  equivalence. `Lattices` is the unimodular step used over the integers.
- **Components.** `Graphs` says what strongly connected components are;
  `TarjanSearch`, `TarjanIterative`, `TarjanRecursive` and `Kosaraju` compute them.
- **Expressions.** `Expressions` (with the identities of the library),
  `Derivations`, `DerivedTerm`, `DerivedTermBound`, `DeterministicTerms`,
  `ExtendedTerms`, `NormalForms`; `NamedAutomata` is the worklist of named states
  that the constructions share.
- **Boolean automata.** `BoolAutomata`, `Subsets`, `Determinize`, `Brzozowski`,
  `BooleanOperations`, `BooleanEquivalence`, and `Cerny`.
- **Runs and their weights.** `Sums`, `WeightedAutomata`, `Runs`, `WordRuns`, `RealRuns`,
  `PointedRuns`: the weight of a word is the sum over the runs that read it, and the
  recursions used elsewhere compute that sum.
- **Products.** `Spontaneous`, `WeightedBuilds`, `Products`, `Insplit`, `ProductRuns`,
  `ProductWeights`.
- **Distances and stars.** `LightestPaths`, `BellmanFord`, `AllDistances` (any
  semiring with a star), `MinPlusDistances`.
- **Spontaneous transitions.** `EpsilonRemoval` (any semiring with a star),
  `BooleanEpsilon`, `RealSemiring`, `RealEpsilon`, `RealRefusal` (when the
  elimination is refused), `EpsilonAcyclic` and `Validity` (what the validity
  check of signed weights accepts).
- **Minimization by refinement.** `PointedAutomata`, `Partitions`, `Quotients`,
  `Signatures`, `Coarsest`, `Minimize`, `BooleanRows`, `RightLanguages`, `Moore`.
- **Isomorphisms and identities.** `Isomorphisms`, `SequentialIsomorphisms`,
  `IsomorphismCheck`, `StateClasses`, `Permutations`, `Combinations`, `ClassSearch`,
  `AreIsomorphic`; `PartialIdentity`.

The weight of a word is the sum, over the accepting runs that read it, of the
products of their weights. Maps and lists stand for the hash tables, heaps and
bimaps of the library; where the library iterates in an unspecified order, the
models pick any element, so the results hold for every order.

Things learnt from the code:

- `gcd` returns its first argument when the second one is null, so it is negative
  exactly when the second argument is null and the first one negative
  (`vcsn/algos/reduce.hh:329-334`, `Lattices.GcdSign`); `Lattices.GcdIsGreatest` holds
  all the same.
- The quotient of an automaton without initial states puts pre and post in one class
  when signatures are used (`vcsn/algos/minimize-weighted.hh:186-197`); in all other
  trim automata they are apart (`Signatures.PostAloneIff`).
- The label of a state counts in its weighted signature even if the weights
  cancel (`vcsn/algos/minimize-weighted.hh:87-95`). When no sum of nonzero weights is
  null, the partition found is the coarsest stable one (`Coarsest.CoarsestStable`); in
  all other weightsets it is not, for some trim automaton (`Coarsest.NotCoarsest`).
- With real weights the star is only defined between -1 and 1
  (`vcsn/weightset/r.hh:112-119`). What can be made proper has equations with one
  solution; two states that lead to each other with weight one have no loop at
  first, and are refused for any order of elimination (`RealRefusal.LateLoop`). When
  the spontaneous weights are nonnegative, an automaton is refused exactly when the
  star of the matrix of these weights is undefined (`RealRefusal.MakeProper`), hence
  for all orders of elimination or for none (`RealRefusal.AnyOrder`). With signed
  weights the elimination runs first on absolute values
  (`vcsn/algos/is-valid.hh:98-106`): `Validity.MakeProper` shows that this check
  accepts exactly the automata for which the star of the absolute values is defined,
  and that the elimination that follows is then never refused.
- The conjunction accepts weights that do not commute, and then the weights of words
  are not multiplied (`ProductWeights.CommutativeNeeded`). It drops the transitions
  whose weights have a null product, which changes no weight.

## Model

| member | source | states |
|---|---|---|
| `RealAutomata.Evaluate` | vcsn/algos/evaluate.hh:92-145 | Reading the word forward, advancing only the reached states, gives the weight of the word. |
| `WordRuns.SumOverRuns` | vcsn/algos/evaluate.hh:92-145 | In any semiring, that weight is the sum of the weights of the runs that read the word, however they are listed. |
| `RealRuns.WeightIsSumOverRuns` | vcsn/algos/evaluate.hh:92-145 | So it is with real weights. |
| `PointedRuns.WeightIsSumOverPaths` | vcsn/algos/evaluate.hh:92-145 | So it is when pre and post are states, for the paths that lead from pre to post. |
| `Elimination.NormGrows` | vcsn/algos/reduce.hh:272-291 | The norm of a real is least for one, and grows from there on. |
| `Elimination.NormSymmetric` | vcsn/algos/reduce.hh:272-291 | It does not see signs, nor inverses. |
| `Elimination.FindPivotByNorm` | vcsn/algos/reduce.hh:300-315 | The first nonzero entry of least norm among the remaining ones, and none exactly when they are all null. |
| `Elimination.NormalisationVector` | vcsn/algos/reduce.hh:448-458 | The pivot becomes one, and the vector is the old pivot times the new vector. |
| `Elimination.VectorInNewBasis` | vcsn/algos/reduce.hh:471-478 | The vector is the combination of the basis by the coordinates plus the residual, which vanishes on all the pivots. |
| `Elimination.BottomUpReduction` | vcsn/algos/reduce.hh:462-468 | Same span, still scaled, and each vector vanishes on the pivots of the others. |
| `Elimination.ScaledIndependent` | vcsn/algos/reduce.hh:15-50 | Scaled vectors are independent. |
| `Reduce.LeftReductioner.LinearRepresentation` | vcsn/algos/reduce.hh:213-243 | The vectors and sparse matrices filled in are those of the automaton. |
| `Reduce.LeftReductioner.BuildBasis` | vcsn/algos/reduce.hh:498-543 | The exploration ends with an independent basis of exactly the space spanned by the vectors init.mu(w), closed under every letter. It grows from the initial vector, then from the successors of each vector in turn; each new vector is what remains of a candidate, divided by an entry of least norm. |
| `Reduce.LeftReductioner.Run` | vcsn/algos/reduce.hh:487-579 | The output automaton is the input expressed on a basis so chosen, each vector of which was then cleared at the pivots of all the others: same initial vector, successors and final weights. |
| `Representations.ReductionSeries` | vcsn/algos/reduce.hh:487-579 | Expressing an automaton on such a basis keeps the weight of every word. |
| `Representations.TwoSidedReduction` | vcsn/algos/reduce.hh:606-612 | After both reductions every vector is reached and any two vectors are told apart by a word. |
| `Representations.FullObservableMinimal` | vcsn/algos/reduce.hh:606-612 | Then no representation of the same series, whatever it is, has a smaller dimension. |
| `FieldEquivalence.ReduceBothSides` | vcsn/algos/reduce.hh:606-612 | Every word keeps its weight, and no equivalent automaton has fewer states; the result is that of a reduction of the transposed automaton, transposed back, and of a reduction. |
| `RealOperations.LeftWeightSeries` | vcsn/algos/weight.hh:27-67 | Multiplying on the left, in the standard way or the general one, multiplies the weight of every word; the null weight leaves the automaton of the null series, standard if the argument is. |
| `RealOperations.SumSeries` | vcsn/algos/add.hh:90-118 | The weights of the sum are the sums of the weights. |
| `FieldEquivalence.AreEquivalent` | vcsn/algos/are-equivalent.hh:39-56 | True if and only if both automata give every word the same weight. |
| `Lattices.GcdIsCombination` | vcsn/algos/reduce.hh:324-356 | The gcd is the combination of both arguments by the coefficients computed. |
| `Lattices.GcdIsGreatest` | vcsn/algos/reduce.hh:324-356 | An integer divides both arguments if and only if it divides the gcd. |
| `Lattices.GcdSign` | vcsn/algos/reduce.hh:324-356 | The gcd is negative if and only if the second argument is null and the first one negative. |
| `Lattices.UnimodularKeepsLattice` | vcsn/algos/reduce.hh:358-364 | A step whose determinant is one keeps the integer combinations of two vectors. |
| `Lattices.ReduceVector` | vcsn/algos/reduce.hh:365-383 | Both vectors are replaced by their combinations by the coefficients of Bezout and by the entries divided by their gcd: the entry of the vector at the pivot becomes null, that of the basis vector becomes the gcd, and both span the same lattice as before. |
| `Graphs.EmissionsAreComponents` | vcsn/algos/scc.hh:312-360 | Sets emitted closed and strongly connected, which cover the graph, are its components, in an order that no edge goes up. |
| `TarjanIterative.Tarjan.constructor` | vcsn/algos/scc.hh:298-360 | The components are the classes of mutual reachability, and an edge between two of them goes from the later emitted one to the earlier one. |
| `TarjanIterative.FollowKeeps` | vcsn/algos/scc.hh:318-340 | Following one transition keeps the invariant of the search. |
| `TarjanIterative.LeaveKeeps` | vcsn/algos/scc.hh:340-358 | Leaving a state, be it the root of a component or not, keeps the invariant. |
| `TarjanRecursive.Tarjan.constructor` | vcsn/algos/scc.hh:422-470 | The same components, from the recursive search. |
| `TarjanRecursive.Tarjan.Dfs` | vcsn/algos/scc.hh:436-470 | A recursive call leaves the search as if its state, and what it reaches, had been visited and left. |
| `Kosaraju.ReversePostorder.constructor` | vcsn/algos/scc.hh:59-88 | All the states, each one after the states visited from it. |
| `Kosaraju.Scc.constructor` | vcsn/algos/scc.hh:224-260 | The same components, from two depth-first searches. |
| `Expressions.AddExpMember` | vcsn/core/rat/expressionset.hxx:199-355 | The identities applied to a sum keep what it denotes. |
| `Expressions.MulExpMember` | vcsn/core/rat/expressionset.hxx:359-420 | The identities applied to a product keep what it denotes. |
| `Expressions.ConjunctionExpMember` | vcsn/core/rat/expressionset.hxx:512-570 | The identities applied to a conjunction keep what it denotes. |
| `Expressions.ComplementExpMember` | vcsn/core/rat/expressionset.hxx:856-890 | The identities applied to a complement keep what it denotes. |
| `NormalForms.AddExpNormal` | vcsn/core/rat/expressionset.hxx:199-355 | The identities keep sums sorted, without null operands, sums or duplicates, and the operands are those of both arguments. |
| `NormalForms.SumIsSet` | vcsn/core/rat/expressionset.hxx:199-355 | Expressions in normal form with the same set of operands are the same. |
| `NormalForms.AddExpCommutes` | vcsn/core/rat/expressionset.hxx:199-355 | So that sums are commutative and idempotent, as expressions and not only for what they denote. |
| `NormalForms.AddExpAssociates` | vcsn/core/rat/expressionset.hxx:199-355 | And associative. |
| `NormalForms.MulExpNormal` | vcsn/core/rat/expressionset.hxx:359-420 | The identities keep products flat, without null or neutral factors, and the factors are those of both arguments in order, unless the product is null. |
| `NormalForms.MulExpAssociative` | vcsn/core/rat/expressionset.hxx:359-420 | So that products are associative. |
| `NormalForms.ConjunctionExpNormal` | vcsn/core/rat/expressionset.hxx:512-570 | The identities keep conjunctions flat, without null nor universal operands. |
| `NormalForms.DerivationNormal` | vcsn/algos/derivation.hh:82-219 | The derivation of an expression in normal form is an increasing list of expressions in normal form. |
| `Derivations.ComputeConstantTerm` | vcsn/algos/constant-term.hh:70-150 | True if and only if the expression denotes the empty word. |
| `Derivations.DerivationQuotient` | vcsn/algos/derivation.hh:82-219 | The derivation by a letter denotes the left quotient, for sums, products, stars, conjunctions, shuffles and complements. |
| `Derivations.Derive` | vcsn/algos/derivation.hh:82-219 | The visitor computes that polynomial. |
| `DerivedTerm.AcceptsWords` | vcsn/algos/derived-term.hh:248-264 | Once the worklist is drained, each state accepts the words of the expression it stands for. |
| `DerivedTerm.DerivedTermAutomaton.ViaDerivation` | vcsn/algos/derived-term.hh:189-199 | The states stand for exactly what repeated derivation makes of the expression, with the transitions derivation gives and no others; the automaton accepts the words of the expression, is deterministic on request, and has one state at most per term. |
| `DerivedTermBound.TermsClosed` | vcsn/algos/derivation.hh:116-138 | The derivation of a derived term is made of derived terms. |
| `DerivedTermBound.FinitelyManyTerms` | vcsn/algos/derived-term.hh:189-199 | The derived terms are closed under derivation, and at most the number of letters plus one. |
| `DerivedTermBound.DerivedTermOf` | vcsn/algos/derived-term.hh:189-199 | For every expression over 0, 1, letters, sums, products and stars, the worklist ends, the language is right, and at most width + 1 states are made. |
| `DeterministicTerms.SumsClosed` | vcsn/algos/derived-term.hh:248-264 | What is derived from a sum of derived terms is a sum of derived terms. |
| `DeterministicTerms.DeterministicDerivedTermOf` | vcsn/algos/derived-term.hh:189-199 | With the deterministic option the worklist ends too: the result is deterministic, the language is right, and at most 2^width + 1 states are made. |
| `ExtendedTerms.FoldDerivation` | vcsn/algos/derivation.hh:158-170 | What is derived from a conjunction, identities applied, is a conjunction of what is derived from its operands. |
| `ExtendedTerms.ConjunctionOf` | vcsn/algos/derived-term.hh:189-199 | For a conjunction of such expressions the worklist ends, the language is right, and at most the product of the widths plus one, plus one, states are made. |
| `ExtendedTerms.ShuffleOf` | vcsn/algos/derived-term.hh:189-199 | So it is for a shuffle, with at most the product of the widths plus one. |
| `ExtendedTerms.ComplementOf` | vcsn/algos/derived-term.hh:189-199 | So it is for the complement of such an expression, with the deterministic option or not, with at most 2^width + 1 states. |
| `Subsets.DeterminizedLanguage` | vcsn/algos/determinize.hh:99-182 | The automaton of the reached subsets accepts the same words. |
| `Determinize.Determinization` | vcsn/algos/determinize.hh:68-182 | The result is deterministic, with the same language; its states stand for exactly the nonempty subsets reached, with all their transitions. |
| `Brzozowski.Codeterminize` | vcsn/algos/determinize.hh:374-379 | The result has the same language and is codeterministic: no word is accepted from two of its states. Transposed, it is determinized from the transposed automaton. |
| `Brzozowski.SeparatedDistinguished` | vcsn/algos/minimize-brzozowski.hh:28-36 | Determinizing such an automaton gives states that all accept different languages. |
| `Brzozowski.NoneSmaller` | vcsn/algos/minimize-brzozowski.hh:28-36 | A trim automaton whose states accept different languages is not larger than any deterministic automaton for its language. |
| `Brzozowski.Minimize` | vcsn/algos/minimize-brzozowski.hh:28-36 | The language is kept, and no deterministic automaton for it has fewer states: the result is determinized from the codeterminized automaton. |
| `BooleanOperations.AccessibleStates` | vcsn/algos/accessible.hh:26-61 | Exactly the states that some word reaches. |
| `BooleanOperations.IsUseless` | vcsn/algos/accessible.hh:170-175 | No state is useful if and only if no word is accepted. |
| `BooleanOperations.MakeComplete` | vcsn/algos/complete.hh:10-60 | A complete automaton is unchanged; otherwise a sink is made, initial if no state is, with a loop for each letter and exactly the transitions that are missing. |
| `BooleanEquivalence.Completion` | vcsn/algos/complete.hh:10-88 | So that completion keeps the language of any automaton, and determinism, and does nothing when it is done twice. |
| `BooleanEquivalence.Complement` | vcsn/algos/complement.hh:19-44 | Refused, with its message, unless the automaton is deterministic and complete; otherwise final states are toggled, and exactly the other words over the alphabet are accepted. |
| `BooleanEquivalence.Conjunction` | vcsn/algos/conjunction.hh:411-448 | The states stand for exactly the pairs that common moves reach from initial pairs, with all these moves; the words are those accepted by both automata. |
| `BooleanEquivalence.Difference` | vcsn/algos/are-equivalent.hh:119-131 | The second automaton is determinized only if it is not deterministic, completed only if it is not complete, complemented, and multiplied by the first one: the words are those of the first automaton that are not words of the second. |
| `BooleanEquivalence.AreEquivalent` | vcsn/algos/are-equivalent.hh:24-36 | True if and only if both automata accept the same words. |
| `Cerny.Generate` | vcsn/algos/cerny.hh:14-55 | The automaton built: an error without states, and the cycle with one letter that merges two states otherwise. |
| `Cerny.NoShorterSynchronizingWord` | vcsn/algos/cerny.hh:14-16 | Every synchronizing word has at least (n-1)^2 letters, for every alphabet and number of states. |
| `Cerny.SynchronizingWordOfSquareLength` | vcsn/algos/cerny.hh:14-16 | With two letters, some word of exactly (n-1)^2 letters is synchronizing. |
| `Cerny.ShortestSynchronizingWord` | vcsn/algos/cerny.hh:14-55 | There are synchronizing words exactly with one state or two letters, and the shortest ones have (n-1)^2 letters. |
| `WeightedBuilds.WeightedBuild.NewTransition` | vcsn/core/mutable-automaton.hh:535-571 | There must be no such transition; it gets its weight unless it is null, and all the other weights stay. |
| `Insplit.InsplitAutomaton.Insplit` | vcsn/algos/insplit.hh:85-205 | The least set of pairs of a state and the kind of its incoming transitions that holds the initial states and follows the transitions; with all their transitions, their weights, and nothing else. |
| `Products.Product.AddAlone` | vcsn/algos/conjunction.hh:411-448 | The spontaneous transitions of both automata are all new ones: none falls on one that was added. |
| `Products.Product.Conjunction` | vcsn/algos/conjunction.hh:98-110 | The least set of pairs that holds the initial ones and follows the transitions of both automata, with these transitions and nothing else; each one has the weight of the left transition, of the right one, or their product, and null products are dropped. |
| `ProductRuns.RunIsPair` | vcsn/algos/conjunction.hh:289-308 | A run of the conjunction is a pair of runs that read its word, and whose weights, multiplied step by step, are not null. |
| `ProductRuns.PairIsRun` | vcsn/algos/conjunction.hh:411-448 | Each such pair is a run of the conjunction: no path is lost. |
| `ProductRuns.PairIsOneRun` | vcsn/algos/insplit.hh:171-205 | In one way only, spontaneous transitions included: no path is redundant. |
| `ProductWeights.AllJoinable` | vcsn/algos/conjunction.hh:411-448 | Without zero divisors, these are all the pairs of runs that read the same word. |
| `ProductWeights.RunWeights` | vcsn/algos/conjunction.hh:289-308 | In a commutative semiring, the weight of a run, in the automaton that was built, is the product of those of its two runs. |
| `ProductWeights.ConjunctionListed` | vcsn/algos/conjunction.hh:482-517 | When finitely many runs of both automata read a word, so it is for the conjunction. |
| `ProductWeights.ConjunctionWeight` | vcsn/algos/conjunction.hh:411-448 | Then the weight of the word, summed over all the runs, is the product of its weights in both automata. |
| `ProductWeights.RealtimeWeight` | vcsn/algos/conjunction.hh:482-517 | Without spontaneous transitions finitely many runs read any word, and its weights are multiplied. |
| `ProductWeights.CommutativeNeeded` | vcsn/algos/conjunction.hh:289-308 | For any two weights that do not commute, there are automata for which this fails. |
| `ProductWeights.Conjunction` | vcsn/algos/conjunction.hh:98-110 | The conjunction with the insplit right automaton multiplies the weights of words. |
| `BellmanFord.SettledIff` | vcsn/algos/bellman-ford.hh:27-73 | After as many rounds as states, nothing can be relaxed if and only if no lightening cycle is reached. |
| `BellmanFord.LightestPredecessors` | vcsn/algos/bellman-ford.hh:27-73 | None if and only if a lightening cycle is reached; otherwise the predecessors of each reached state, the first ones found among equals, lead back to pre along a walk as light as any other. |
| `BellmanFord.PathMonomial` | vcsn/algos/lightest-path.hh:74-99 | The label and weight of the lightest path that the predecessors give, if the state is reached. |
| `AllDistances.EliminateKeeps` | vcsn/algos/distance.hh:118-136 | Eliminating a state keeps the equations of the matrix star, from the axioms of a semiring and of its star alone. |
| `AllDistances.Distances` | vcsn/algos/distance.hh:105-141 | Between any two states, pre and post included, the result is the direct weight, or one on the diagonal of ordinary states, plus the matrix times the result over ordinary states, on both sides; it is refused only if the star of a loop met on the way is undefined. |
| `MinPlusDistances.LightestDistances` | vcsn/algos/distance.hh:105-141 | With min-plus weights, refused if and only if there is a lightening cycle; otherwise each entry, those of pre and post included, is the lightest weight of the walks between two states. |
| `EpsilonRemoval.EpsilonRemover.InSituRemover` | vcsn/algos/epsilon-remover.hh:192-262 | The state loses its incoming spontaneous transitions, no state gets its first one, and the weights are those of elimination; the state is deleted exactly if that is asked for and nothing leads to it any more. |
| `EpsilonRemoval.EpsilonRemover.Run` | vcsn/algos/epsilon-remover.hh:276-343 | For every order of elimination the loop ends, with a proper automaton unless the star of a loop is undefined; each state with incoming spontaneous transitions was eliminated exactly once. |
| `EpsilonRemoval.NoNewSpontaneous` | vcsn/algos/epsilon-remover.hh:192-262 | A processed state never regains an incoming spontaneous transition. |
| `EpsilonRemoval.MadeProperPruned` | vcsn/algos/epsilon-remover.hh:238-250 | Without pruning all states remain; with pruning, no state remains that is not initial and that only spontaneous transitions led to, at least one; in both cases the initial states remain, and those that no spontaneous transition led to. |
| `BooleanEpsilon.EliminatesAccepts` | vcsn/algos/epsilon-remover.hh:192-262 | Eliminating one state keeps what is accepted from every state that remains. |
| `BooleanEpsilon.MakeProper` | vcsn/algos/epsilon-remover.hh:276-343 | With Boolean weights, a proper automaton with the same language, always; each state with incoming spontaneous transitions was eliminated once, and states are deleted only as pruning says. |
| `RealEpsilon.StepKeepsSolutions` | vcsn/algos/epsilon-remover.hh:192-262 | With real weights, eliminating one state keeps exactly the solutions of the equations of the states. |
| `RealEpsilon.ReducesSolutions` | vcsn/algos/epsilon-remover.hh:276-343 | After all eliminations, pruning included, solutions restrict to solutions, and each one extends in exactly one way. |
| `RealRefusal.EliminatesDamps` | vcsn/algos/epsilon-remover.hh:192-262 | With nonnegative spontaneous weights, there are positive values that the spontaneous transitions of all states lead below, after the elimination of a state if and only if before. |
| `RealRefusal.StarDamps` | vcsn/weightset/r.hh:112-119 | There are such values if and only if the star of the spontaneous matrix is defined: the weights of the spontaneous paths have bounded sums. |
| `RealRefusal.EliminatesBounds` | vcsn/weightset/r.hh:112-119 | No state is eliminated unless its loop is between -1 and 1, excluded. |
| `RealRefusal.AnyOrder` | vcsn/algos/epsilon-remover.hh:276-343 | What one order of elimination makes proper, no order refuses. |
| `RealRefusal.MakeProper` | vcsn/algos/epsilon-remover.hh:276-343 | What the remover does with real weights: a proper automaton with the same solutions, of which there is exactly one, or an automaton met on the way with a loop not less than one in absolute value; what is accepted met only loops between -1 and 1. With nonnegative spontaneous weights, refused if and only if the star of their matrix is undefined. |
| `RealRefusal.LateLoop` | vcsn/weightset/r.hh:112-119 | An automaton without loops that no order of elimination makes proper. |
| `EpsilonAcyclic.AcyclicChecker.Run` | vcsn/algos/is-acyclic.hh:31-118 | True if and only if no circuit is made of spontaneous transitions. |
| `EpsilonAcyclic.AcyclicChecker.CircuitFrom` | vcsn/algos/is-acyclic.hh:41-88 | A circuit is found only if there is one; otherwise the state comes after all those that spontaneous transitions lead to from it. |
| `Validity.NeverStuck` | vcsn/algos/is-valid.hh:30-106 | If the star of the absolute values of the spontaneous weights is defined, no order of elimination is refused, whatever the signs. |
| `Validity.OrderedDamps` | vcsn/algos/is-valid.hh:98-106 | It is defined when there are no circuits of spontaneous transitions. |
| `Validity.IsValid` | vcsn/algos/is-valid.hh:98-106 | An automaton with real weights is valid if and only if that star is defined, whichever of the three tests tells. |
| `Validity.MakeProper` | vcsn/algos/proper.hh:111-118 | With any real weights, refused, with its message, if and only if that star is undefined; otherwise a proper automaton with the same solutions, of which there is exactly one: the elimination cannot fail any more. |
| `Partitions.Partition.MakeClass` | vcsn/algos/minimize-moore.hh:82-101 | The class is made, or renewed, and its states renumbered; the other classes do not change. |
| `Partitions.Partition.Split` | vcsn/algos/minimize-weighted.hh:214-233 | Two states stay together exactly when they were and their keys are the same; nothing is lost. |
| `Signatures.SigSum` | vcsn/algos/minimize-weighted.hh:87-95 | The coefficient of a class in a signature is the sum of the weights of the transitions to this class. |
| `Signatures.PostAloneIff` | vcsn/algos/minimize-weighted.hh:188-197 | In a trim automaton, post is set apart by its signature if and only if some state is initial. |
| `Signatures.Minimizer.BuildClasses` | vcsn/algos/minimize-weighted.hh:186-237 | The refinement ends with classes of equal signatures, and never separates states that every coarser partition gives equal signatures. |
| `Coarsest.CoarsestStable` | vcsn/algos/minimize-weighted.hh:87-95 | When no sum of nonzero weights is null, these classes are stable, and contain those of any stable partition. |
| `Coarsest.NotCoarsest` | vcsn/algos/minimize-weighted.hh:87-95 | Otherwise some trim automaton has a stable partition, with pre and post alone, that all partitions by signatures split. |
| `PointedAutomata.StableValues` | vcsn/algos/quotient.hh:74-109 | In a stable partition, the states of one class give every word the same weight, in any semiring. |
| `Quotients.QuotientValues` | vcsn/algos/quotient.hh:94-107 | Each state of the quotient gives every word the weight that the states of its class give. |
| `Quotients.Quotient` | vcsn/algos/quotient.hh:47-110 | The quotient by a stable partition keeps the series; its states are the classes, as origins tell, in the order of their least states, whose transitions are copied and merged; it is well formed. |
| `Minimize.MinimizeWeighted` | vcsn/algos/minimize-weighted.hh:172-237 | In any semiring, the quotient by the classes of signatures gives every word the same weight. |
| `Minimize.ClassesBisimulation` | vcsn/algos/minimize-signature.hh:94-129 | With Boolean weights, the classes are those of a bisimulation. |
| `Minimize.BisimulationRespected` | vcsn/algos/minimize-signature.hh:94-129 | No bisimulation is ever separated by signatures. |
| `Minimize.MinimizeSignature` | vcsn/algos/minimize-signature.hh:215-267 | The partition is the coarsest bisimulation, for deterministic automata or not, and the language is kept. |
| `RightLanguages.SameSuccessor` | vcsn/algos/minimize-moore.hh:116-126 | States of a trim deterministic automaton with the same right language have successors for the same letters, again with the same right language. |
| `Moore.Minimizer.BuildClasses` | vcsn/algos/minimize-moore.hh:137-192 | The refinement ends, and two ordinary states are in one class if and only if they have the same right language; pre and post are apart. |
| `RightLanguages.NoneSmaller` | vcsn/algos/minimize-moore.hh:137-192 | A trim deterministic automaton whose states accept different languages is not larger than any deterministic automaton with the same language. |
| `Moore.MinimizeMoore` | vcsn/algos/minimize-moore.hh:137-192 | The result is the quotient by right languages: it accepts the same words, is deterministic and trim, and no deterministic automaton for the language has fewer states. |
| `PartialIdentity.OneResidue` | vcsn/algos/is-partial-identity.hh:48-62 | Two normalized residues that the same pair of words completes are the same. |
| `PartialIdentity.IsPartialIdentity` | vcsn/algos/is-partial-identity.hh:20-72 | True if and only if every successful path has the same word on both tapes. |
| `PartialIdentity.NormalizeMul` | vcsn/labelset/tupleset.hh:950-960 | It does not matter when common prefixes are eliminated. |
| `SequentialIsomorphisms.SequentialSearch.Run` | vcsn/algos/are-isomorphic.hh:577-648 | For accessible sequential automata, isomorphic is answered if and only if a bijection preserves pre, post, labels and weights, and the map is one; otherwise the counterexample shown is one: states that must correspond, and what tells them apart. |
| `IsomorphismCheck.IsIsomorphismValid` | vcsn/algos/are-isomorphic.hh:389-452 | A bijection between the states is accepted if and only if it is an isomorphism. |
| `StateClasses.SameFeatures` | vcsn/algos/are-isomorphic.hh:251-303 | An isomorphism keeps all that is hashed: pre, post, the bags of incoming and outgoing weights and labels, and the numbers of their ends. |
| `StateClasses.FeaturesTell` | vcsn/algos/are-isomorphic.hh:251-303 | States with the same features are both pre or post or neither, and have as many incoming and outgoing transitions, with the same weights and labels, and as many ends. |
| `Isomorphisms.ArcsOrdinary` | vcsn/algos/are-isomorphic.hh:182-197 | The transitions that are counted are those between ordinary states. |
| `Permutations.NextRank` | vcsn/algos/are-isomorphic.hh:494-540 | The next permutation has the next rank, and only the last one has no next one. |
| `Combinations.NumberInjective` | vcsn/algos/are-isomorphic.hh:494-549 | Each combination of class permutations has its own number. |
| `Combinations.ClassCombinations.NextCombination` | vcsn/algos/are-isomorphic.hh:494-549 | Carries included, the next combination has the next number, and false is returned only for the last one: every combination is visited once. |
| `ClassSearch.SearchClasses` | vcsn/algos/are-isomorphic.hh:542-575 | Whatever the hash, an isomorphism is found if and only if there is one. |
| `AreIsomorphic.FullResponse` | vcsn/algos/are-isomorphic.hh:204-238 | The response is isomorphic if and only if there is an isomorphism; it is different exactly when sizes or sequentiality are, a counterexample only for sequential automata, and the lack of one only for others. |

## Left out

- Weights: exact reals stand for floating point and rational weights, and only the pivot norm of the reals is modelled; machine integers are unbounded, hence without overflow: weights of min-plus, and the long in which `vcsn/algos/are-isomorphic.hh` counts with factorials.
- Reduction over the integers: only the gcd and the unimodular step are modelled; a basis vector may change after its successors were computed, and the decision of equivalence is stated over a field only.
- FieldEquivalence.AreEquivalent: its inputs are realtime automata; the call that makes them so is not part of this model, and the sum is a renumbered disjoint union.
- Pre and post: in most models the transitions from pre and to post are initial and final weights; the refinements, the isomorphisms and the transducers keep pre and post as states, and their special label as a label.
- TarjanIterative.Tarjan.constructor: the number of states is less than the largest machine integer, which the code uses to mark the states that left the stack.
- DerivedTerm.DerivedTermAutomaton.ViaDerivation: the worklist is shown to end when the terms derived from the expression are finitely many, which is proved for 0, 1, letters, sums, products and stars and for complements of these, with and without the deterministic option, and for conjunctions and shuffles of these without it; when these operators are nested otherwise, the caller gives the finite set.
- Expressions: the identities are the default ones over Boolean weights; weighted derivations, ldivide, transposition, compose, infiltration and tuples are not modelled, nor are expansions and the breaking derivation.
- ProductWeights.Conjunction: the shuffle, infiltration, sum, quotient and lazy products, products of more than two automata, and joins of weightsets are not modelled.
- BooleanEquivalence.AreEquivalent: both automata are over the same alphabet; joins of contexts are not modelled.
- AllDistances.Distances: the matrix is a list of rows instead of a nested vector updated through indices; the worklist algorithms for single-source distances are not modelled.
- EpsilonRemoval.EpsilonRemover.Run: the heap is a set, from which any state is taken; when a star is undefined the code leaves the state half processed, and the model leaves the automaton as it was before this state.
- RealRefusal.MakeProper: it is the remover alone, in the order of any heap; the validity check that the library runs before it is in `Validity.MakeProper`.
- Validity.IsValid: only weights for which validity is decided on absolute values are modelled, that is real ones; the other kinds of weights have checks of their own.
- The variants of the elimination of spontaneous transitions that work on two automata kept in step, lazily, or by distance are not modelled.
- Signatures: a signature is one map for all weights; the vectors of bit sets of the Boolean variant, sorted by label, are not modelled.
- Quotients.Quotient: sorting is by insertion, and the classes may come in any order.
- Cerny.ShortestSynchronizingWord: the weights of the generated automaton are Boolean.
- ClassSearch.SearchClasses: classes are listed in any order instead of by decreasing size, and next_permutation is the lexicographic successor, defined by recursion.
- BellmanFord.LightestPredecessors: the other algorithms for lightest paths (Dijkstra, A*, Yen, Eppstein) are not modelled.
- Other algorithms that are not modelled: the path-based components, Hopcroft's minimization, composition, twins and bounded lag, push-weights, random generation, and everything about input and output, contexts and dynamic dispatch.
