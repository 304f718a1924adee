# Pixy: call/return dependency transfer, transducer relations, include-dominator add

A Dafny model of three pieces of Pixy, a taint analyser for PHP written in Java.

- **`CallReturn.transfer(inX, context)`**, in module `CallReturn` (`call_return.dfy`). This is the
  interprocedural transfer function of the dependency (taint) analysis. At a call-return node it
  builds the caller's state after the call from two inputs:
  - the caller's state at the call-preparation node (`origInfo`);
  - the state flowing back from the callee (`calleeIn`), which is still written against the
    callee's g-shadows and f-shadows.

  It does this in fixed steps:
  1. Copy the global-like places, restricted to the callee's MOD set when there is one.
  2. Stop early when the caller is the entry function (main).
  3. Seed the locals with their call-time values.
  4. Run four alias phases guarded by a visited set.
  5. Hand the state to return-value handling.

  Each phase is a method with loops and is proved against a closed-form function, `Reconciled`,
  which gives the value of every place after the call. Lemmas then state what the function
  promises:
  - must-aliases overwrite exactly;
  - the first by-reference pair wins;
  - variables the must phases resolve are never touched again;
  - may-aliases only join;
  - a global must-alias without a g-shadow is a fatal error.
- **The dependency lattice** that the transfer function works on, in module `DependencyLattice`
  (`dependency_lattice.dfy`). A lattice entry is a pair of label sets (dependencies and array
  label). Lub is union and bottom is the empty pair. A lattice element maps places to entries,
  and a place not in the map is bottom.
- **`MyTransducerRelation`**, in module `TransducerRelation`. This is an (input label, output
  label) pair in which either label may be null. It has structural `equals`, a `hashCode` in Java
  `int` arithmetic, and `toString`.
- **`IncDomTfAdd`**, in module `IncDom`. It is the include-dominator analysis's "add node"
  transfer: copy the element, add the node to the copy, recycle the copy. It is modelled as
  classes whose methods change the element in place.

`Option` and `Result` live in module `Wrappers`. Java's `RuntimeException("SNH")` becomes an `Err`
result.

## Model

| member | source | states |
|---|---|---|
| CallReturn.Transfer | src/at/ac/tuwien/infosys/www/pixy/analysis/dependency/transferfunction/CallReturn.java:71-245 | Fails exactly when the caller is not main and some caller local's global must-alias has no g-shadow. The error names the alias of the first such local. Otherwise the result is `handleReturnValue` applied to a state that, for a main caller, holds the global-like copy and main's temporaries from `origInfo` with everything else bottom, and for any other caller equals `Reconciled` at every place. |
| CallReturn.ReconcileLocals | src/at/ac/tuwien/infosys/www/pixy/analysis/dependency/transferfunction/CallReturn.java:112-240 | Seeds the locals and runs the four alias phases on top of the global-like copy. Fails exactly when a must g-shadow is missing, naming the first one. Otherwise every place equals `Reconciled`, and every place the must phases marked visited still holds the value they gave it. |
| CallReturn.MustWithGlobals | src/at/ac/tuwien/infosys/www/pixy/analysis/dependency/transferfunction/CallReturn.java:115-138 | Each local with a global must-alias takes exactly the value of that alias's g-shadow and is marked visited. Every other place is unchanged. When a g-shadow is missing it fails with the first such alias. The visited set is exactly the locals that have a global must-alias. |
| CallReturn.MustWithFormals | src/at/ac/tuwien/infosys/www/pixy/analysis/dependency/transferfunction/CallReturn.java:140-166 | Adds every local must-alias of every actual to the visited set. Places visited before the phase keep their value. A newly visited place takes the f-shadow value of the formal of the first pair whose actual it aliases. |
| CallReturn.MarkMustAliases | src/at/ac/tuwien/infosys/www/pixy/analysis/dependency/transferfunction/CallReturn.java:150-165 | For one pair, each must-alias not yet visited takes the f-shadow value and is marked visited. Visited places and non-aliases are unchanged. |
| CallReturn.FirstMustPair | src/at/ac/tuwien/infosys/www/pixy/analysis/dependency/transferfunction/CallReturn.java:143-166 | Returns a pair index exactly when the place is a local must-alias of some actual. The index is the first pair whose actual has it as a must-alias. `None` means no pair does. |
| CallReturn.MustFormalFirstPairWins | src/at/ac/tuwien/infosys/www/pixy/analysis/dependency/transferfunction/CallReturn.java:143-166 | A local with no global must-alias that is a must-alias of pair `i`'s actual, and of no earlier pair's, ends visited with exactly pair `i`'s f-shadow value. Later pairs cannot overwrite it. |
| CallReturn.MayWithGlobals | src/at/ac/tuwien/infosys/www/pixy/analysis/dependency/transferfunction/CallReturn.java:168-206 | Visited places are unchanged. An unvisited local with global may-aliases becomes the lub of its call-time value and all of their g-shadow values. It is not marked visited. |
| CallReturn.JoinGlobalShadows | src/at/ac/tuwien/infosys/www/pixy/analysis/dependency/transferfunction/CallReturn.java:184-200 | The inner loop computes the lub of the starting entry and the g-shadow value of every alias in the set. |
| CallReturn.ShadowJoin | src/at/ac/tuwien/infosys/www/pixy/analysis/dependency/transferfunction/CallReturn.java:189-200 | The join lies above every alias's g-shadow value. Every label in it comes from some alias's g-shadow. |
| CallReturn.ShadowJoinInsert | src/at/ac/tuwien/infosys/www/pixy/analysis/dependency/transferfunction/CallReturn.java:189-200 | Joining one more alias into the set is the lub of the old join with that alias's g-shadow value. |
| CallReturn.MayWithFormals | src/at/ac/tuwien/infosys/www/pixy/analysis/dependency/transferfunction/CallReturn.java:208-240 | Visited places are unchanged and no place loses a label. Every place ends as the lub of its previous value and the f-shadow values of every pair whose actual has it as an unvisited local may-alias. |
| CallReturn.JoinFormalShadows | src/at/ac/tuwien/infosys/www/pixy/analysis/dependency/transferfunction/CallReturn.java:211-240 | The pair loop of may-with-formal. Each unvisited place becomes the lub of its previous value and the f-shadow values of every pair whose actual has it as a local may-alias. Visited places keep their value. |
| CallReturn.JoinFormalShadowsStep | src/at/ac/tuwien/infosys/www/pixy/analysis/dependency/transferfunction/CallReturn.java:211-239 | Handling one more pair extends that closed form from the pairs before it to the pairs up to and including it. |
| CallReturn.MayFormalStep | src/at/ac/tuwien/infosys/www/pixy/analysis/dependency/transferfunction/CallReturn.java:224-238 | At one unvisited place, joining one pair's contribution into the value so far gives the value for one more pair. |
| CallReturn.JoinMayAliases | src/at/ac/tuwien/infosys/www/pixy/analysis/dependency/transferfunction/CallReturn.java:218-239 | For one pair, each unvisited may-alias becomes the lub of its current output value and the f-shadow value. Every other place is unchanged. |
| CallReturn.MayFormalJoin | src/at/ac/tuwien/infosys/www/pixy/analysis/dependency/transferfunction/CallReturn.java:211-240 | The join lies above the f-shadow value of every pair whose actual has the place as a may-alias. Every label in it comes from such a pair. |
| CallReturn.MayFormalJoinSnoc | src/at/ac/tuwien/infosys/www/pixy/analysis/dependency/transferfunction/CallReturn.java:211-240 | Taking one more pair into account is a lub with that pair's contribution. |
| CallReturn.MayFormalJoinEmpty | src/at/ac/tuwien/infosys/www/pixy/analysis/dependency/transferfunction/CallReturn.java:218-238 | A place that is a may-alias of no actual gains nothing in the may-with-formal phase. |
| CallReturn.GlobalLikeEntries | src/at/ac/tuwien/infosys/www/pixy/analysis/dependency/transferfunction/CallReturn.java:90-95 | Consider a global-like place that no alias phase writes. Without MOD information it ends with the callee's value. With MOD information, a place in the MOD set takes the callee's value and any other place keeps its call-time value. |
| CallReturn.GlobalLikeUnchangedByPhases | src/at/ac/tuwien/infosys/www/pixy/analysis/dependency/transferfunction/CallReturn.java:88-95 | When the global-like places are none of the caller's locals and none of the actuals' local aliases (`Scoped`), every global-like place ends with exactly its step-1 value, whatever the alias phases do. |
| CallReturn.MustFormalVisitedFromPairs | src/at/ac/tuwien/infosys/www/pixy/analysis/dependency/transferfunction/CallReturn.java:143-164 | Every place the must-with-formal phase marks visited is a local must-alias of some pair's actual. |
| CallReturn.UntouchedLocalKeepsCallTimeValue | src/at/ac/tuwien/infosys/www/pixy/analysis/dependency/transferfunction/CallReturn.java:112-113 | A local that no alias phase touches ends with exactly its call-time value. |
| CallReturn.MustGlobalExact | src/at/ac/tuwien/infosys/www/pixy/analysis/dependency/transferfunction/CallReturn.java:118-138 | A local with global must-alias `g` is marked visited and ends with exactly the callee's value of `g`'s g-shadow. |
| CallReturn.MissingMustShadowFails | src/at/ac/tuwien/infosys/www/pixy/analysis/dependency/transferfunction/CallReturn.java:126-130 | A caller local whose global must-alias has no g-shadow makes the transfer fail. |
| CallReturn.MustPhasesTakePrecedence | src/at/ac/tuwien/infosys/www/pixy/analysis/dependency/transferfunction/CallReturn.java:171-173 | A place the must phases marked visited is not written by may-with-global. Its final value is its value after the must phases. |
| CallReturn.MayGlobalJoinsContributors | src/at/ac/tuwien/infosys/www/pixy/analysis/dependency/transferfunction/CallReturn.java:185-203 | A local written by may-with-global ends above its call-time value and above each global may-alias's g-shadow value. When no by-reference pair has it as a may-alias, it is exactly their lub. |
| CallReturn.MayFormalOnlyGrows | src/at/ac/tuwien/infosys/www/pixy/analysis/dependency/transferfunction/CallReturn.java:224-238 | An unvisited place ends above its value after may-with-global and above each contributing f-shadow value. Each label it gains comes from one of those f-shadows. |
| CallReturn.TransferWithoutContext | src/at/ac/tuwien/infosys/www/pixy/analysis/dependency/transferfunction/CallReturn.java:249-251 | Always fails. |
| DependencyLattice.Get | src/at/ac/tuwien/infosys/www/pixy/analysis/dependency/transferfunction/CallReturn.java:135-136 | `getDep` and `getArrayLabel` together: the entry an element records for a place, or bottom (empty dependency set and array label) when it records nothing. |
| DependencyLattice.Lub | src/at/ac/tuwien/infosys/www/pixy/analysis/dependency/transferfunction/CallReturn.java:198-199 | The lub of two entries lies above both. |
| DependencyLattice.LubIsLeast | src/at/ac/tuwien/infosys/www/pixy/analysis/dependency/transferfunction/CallReturn.java:235-236 | The lub lies below every common upper bound. |
| DependencyLattice.LubCommutative | src/at/ac/tuwien/infosys/www/pixy/analysis/dependency/transferfunction/CallReturn.java:198-199 | The order of the operands of a lub does not matter. |
| DependencyLattice.LubAssociative | src/at/ac/tuwien/infosys/www/pixy/analysis/dependency/transferfunction/CallReturn.java:198-199 | Lubs can be regrouped, so the order in which a loop joins its contributors does not matter. |
| DependencyLattice.LubIdempotent | src/at/ac/tuwien/infosys/www/pixy/analysis/dependency/transferfunction/CallReturn.java:198-199 | Joining an entry with itself changes nothing. |
| DependencyLattice.LubBottom | src/at/ac/tuwien/infosys/www/pixy/analysis/dependency/transferfunction/CallReturn.java:198-199 | Bottom, the empty dependency set and array label, is the unit of lub. |
| DependencyLattice.SetLocal | src/at/ac/tuwien/infosys/www/pixy/analysis/dependency/transferfunction/CallReturn.java:133-136 | `setLocal` changes the one place and no other. |
| DependencyLattice.CopyPlaces | src/at/ac/tuwien/infosys/www/pixy/analysis/dependency/transferfunction/CallReturn.java:91 | Copying a set of places takes the source's value on those places and keeps every other place. |
| DependencyLattice.CopyGlobalLikeRestricted | src/at/ac/tuwien/infosys/www/pixy/analysis/dependency/transferfunction/CallReturn.java:94 | A global-like place the callee may modify takes the callee's value. Any other global-like place takes its call-time value. Every other place is unchanged. |
| DependencyLattice.CopyLocals | src/at/ac/tuwien/infosys/www/pixy/analysis/dependency/transferfunction/CallReturn.java:113 | Every place that is not global-like takes its call-time value. Global-like places are unchanged. |
| TransducerRelation.Relation.GetIn | src/at/ac/tuwien/infosys/www/pixy/transduction/MyTransducerRelation.java:30-32 | Returns the input label. |
| TransducerRelation.Relation.GetOut | src/at/ac/tuwien/infosys/www/pixy/transduction/MyTransducerRelation.java:36-38 | Returns the output label. |
| TransducerRelation.LabelEquals | src/at/ac/tuwien/infosys/www/pixy/transduction/MyTransducerRelation.java:56-74 | One label test of `equals`. A null label equals only null. A non-null label never equals null, and otherwise the labels' own `equals` decides. |
| TransducerRelation.Equals | src/at/ac/tuwien/infosys/www/pixy/transduction/MyTransducerRelation.java:46-77 | `equals`. The identity shortcut `compX == this` is taken as value equality and gives true. Anything that is not a relation, null included, gives false. Any other relation is equal exactly when both `LabelEquals` tests hold, input labels first. |
| TransducerRelation.UnboundedHash | src/at/ac/tuwien/infosys/www/pixy/transduction/MyTransducerRelation.java:81-90 | The hash without 32-bit wrap-around: 17, then `37*h + hashCode` for the input label and then the output label, each skipped when null. |
| TransducerRelation.Render | src/at/ac/tuwien/infosys/www/pixy/transduction/MyTransducerRelation.java:95-96 | How one label prints: `1` for null, otherwise the label's own `toString`. |
| TransducerRelation.ToString | src/at/ac/tuwien/infosys/www/pixy/transduction/MyTransducerRelation.java:94-97 | `toString`: the printed input label, one slash, then the printed output label, and nothing else. |
| TransducerRelation.GettersReturnConstructorArguments | src/at/ac/tuwien/infosys/www/pixy/transduction/MyTransducerRelation.java:19-38 | `getIn` and `getOut` return the labels the constructor was given. |
| TransducerRelation.EqualsIffLabelsEqual | src/at/ac/tuwien/infosys/www/pixy/transduction/MyTransducerRelation.java:46-77 | When the labels' `equals` is reflexive, two relations are equal exactly when both label pairs are equal. A null label equals only null. |
| TransducerRelation.EqualsIsStructural | src/at/ac/tuwien/infosys/www/pixy/transduction/MyTransducerRelation.java:46-77 | When labels compare by value, `equals` is equality of the pairs. |
| TransducerRelation.EqualsReflexiveAndTyped | src/at/ac/tuwien/infosys/www/pixy/transduction/MyTransducerRelation.java:48-53 | A relation equals itself. It does not equal an object that is not a relation, or null. |
| TransducerRelation.EqualsSymmetric | src/at/ac/tuwien/infosys/www/pixy/transduction/MyTransducerRelation.java:46-77 | When the labels' `equals` is symmetric, so is the relation's. |
| TransducerRelation.HashCode | src/at/ac/tuwien/infosys/www/pixy/transduction/MyTransducerRelation.java:81-90 | The hash is a Java `int` congruent modulo 2^32 to the unbounded value: 17, then `37*h + hashCode` of the input label and then the output label, skipping null labels. |
| TransducerRelation.HashCodeConsistentWithEquals | src/at/ac/tuwien/infosys/www/pixy/transduction/MyTransducerRelation.java:81-90 | When equal labels have equal hashes, equal relations have equal hashes. |
| TransducerRelation.HashCodeOfNullLabels | src/at/ac/tuwien/infosys/www/pixy/transduction/MyTransducerRelation.java:82-89 | `(null, null)` hashes to 17. A single label hashes the same whichever side it is on. |
| TransducerRelation.Wrap32 | src/at/ac/tuwien/infosys/www/pixy/transduction/MyTransducerRelation.java:84-87 | Java `int` arithmetic: the result is an `int` congruent to the exact value modulo 2^32. |
| TransducerRelation.ToStringOfNullLabels | src/at/ac/tuwien/infosys/www/pixy/transduction/MyTransducerRelation.java:94-97 | A pair of null labels prints as `1/1`. |
| TransducerRelation.ToStringSplits | src/at/ac/tuwien/infosys/www/pixy/transduction/MyTransducerRelation.java:94-97 | When the input label prints without a slash, splitting the printed form at its first slash gives back the two printed labels. A null label prints as `1`. |
| TransducerRelation.SplitAtFirstSlash | src/at/ac/tuwien/infosys/www/pixy/transduction/MyTransducerRelation.java:94-97 | Splitting gives a slash-free prefix and a rest that, joined by a slash, form the string. It gives nothing exactly when there is no slash. |
| IncDom.IncDomElement.Copy | src/at/ac/tuwien/infosys/www/pixy/analysis/incdom/transferfunction/IncDomTfAdd.java:34 | The copy holds the same dominators. |
| IncDom.IncDomElement.Add | src/at/ac/tuwien/infosys/www/pixy/analysis/incdom/transferfunction/IncDomTfAdd.java:35 | Adds exactly the node. |
| IncDom.Recycle | src/at/ac/tuwien/infosys/www/pixy/analysis/incdom/transferfunction/IncDomTfAdd.java:37-38 | Returns an element with the same value. |
| IncDom.IncDomTfAdd.constructor | src/at/ac/tuwien/infosys/www/pixy/analysis/incdom/transferfunction/IncDomTfAdd.java:22-25 | Fixes the node to add. |
| IncDom.IncDomTfAdd.Transfer | src/at/ac/tuwien/infosys/www/pixy/analysis/incdom/transferfunction/IncDomTfAdd.java:31-41 | The result contains the node and every input dominator and nothing else. The input element is unchanged. |

## Left out

- `AssignBinary` (type analysis) is not part of this model. Its only logic calls `TypeLatticeElement.assignBinary`, whose body is not available.
- The bodies of `DependencyLatticeElement`'s `copyGlobalLike`, `copyMainTemporaries`, `copyLocals` and `setLocal` are not available. They are modelled as the copy, restrict and set operations they document: `DependencyLattice.CopyPlaces`, `CopyGlobalLikeRestricted`, `CopyLocals` and `SetLocal`.
- `handleReturnValue` is left abstract, as a function carried by the return node. `Transfer` states its result as that function applied to the state it builds.
- The alias analysis and the symbol table act as given queries and partial maps. `Scoped` states that the alias queries never return a global-like place as a local alias, and that no caller local is global-like. The source assumes this; the model requires it only for `GlobalLikeUnchangedByPhases`. `localCallerVars` is the caller's list of locals.
- CallReturn.Transfer: requires, for a non-main caller, that every formal of a by-reference pair has an f-shadow and that every global may-alias of a caller local has a g-shadow. The source dereferences these lookups without a null check. The precondition covers all caller locals and all pairs, which is somewhat more than the locals and pairs the source actually reaches.
- CallReturn.Transfer: the state handed to `handleReturnValue` is fixed at every place through `Get`, not as a map. A handler that tells an explicit bottom mapping from an absent one is therefore not determined by the contract. The model takes the handler to read the element only through `getDep` and `getArrayLabel`, which do not make that distinction; the handler's source is not part of this model.
- By-reference parameter pairs are modelled as pairs, not as two-element lists.
- The debug print before the "SNH" exception is I/O and is left out; only the error result remains.
- Java's iteration order over hash sets is not observed. Every set loop in the source gives the same result in any order, and the model states only order-independent results.
- The fixpoint engine and analysis contexts are left out. The phi value at the call-preparation node under the current context is the `origInfo` parameter.
- The recycling cache and object identity are left out. `Recycle` returns an element with the same value, and `equals`'s identity shortcut compares values.
- The labels' own `equals`, `hashCode` and `toString` are given as functions (`LabelOps`). The lemmas assume the standard `Object` contract (reflexive, symmetric, consistent with `hashCode`) only where they say so. `x.equals(null)` is taken to be false.
- `IncDomLatticeElement` is modelled as a set of nodes; its own source is not part of this model.
