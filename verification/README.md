# Ciel: models and proofs

Ciel is a whole-program compiler written in Rust, with a small runtime in C. This project models the
algorithms in it whose correctness is not visible from one function body, and proves what they are for.

- **Type algebra** (`Types`, `Substitution`, `SubstitutionFacts`, `Assign`, `Unify`, `UnifyMeaning`,
  `UnifyBorder`, `UnifyActuals`, `UnifyLimits`, `Matching`, `UnifyInPlace`, `ArrayRepr`). Substitution with
  flattening of hidden state, assignability, one-sided unification with constraint lists, and the chunked
  representation of arrays. Unification is given as a function on substitutions, and again as methods that
  update a binding map in place with trial copies, as the compiler does it. `UnifyMeaning` and `Matching` say
  what an answer means, constructor by constructor; `UnifyBorder` and `UnifyLimits` say where unification is
  complete; `UnifyActuals` builds the types that show where it is not.
- **Actor lifecycle** (`Actor`). A transition system in which any number of threads interleave sends, stops and
  joins with the job runner, with a FIFO queue and a job counter; and the actor as an object whose methods are
  the lock sections, each proved to be a step of that system.
- **Escape analysis** (`Escape`, `EscapeAnalyzer`, `EscapeFixpoint`, `EscapeMeaning`). The pass over one
  function, the iteration over per-function summaries, and what both find: `EscapeMeaning` defines on statements
  and expressions which values leave a function and what a value points to.
- **Monomorphization** (`Mono`, `MonoClosure`, `MonoChains`, `MonoUses`, `MonoRun`). The worklist with memoized generic
  instances, fresh identifiers, and the interface implementations that bodies need. The type checker is a
  parameter; what is assumed of it is the predicate `MonoClosure.Honest`.
- **Conditional compilation** (`Preprocessor`, `PreprocessorFacts`, `PreprocessorReports`, `Conditions`,
  `GateTrees`, `PreprocessorRun`). The token scanners and the condition parser, against a meaning for gate trees;
  and what is reported on lists that are no gate trees.
- **Graph searches** (`Affine`, `Layout`, `Resolve`). Each against a reachability specification.
- **Expression parser** (`Parser`, `Grammar`, `ParserComplete`, `ParserSound`, `ParserExact`,
  `ParserRoundTrip`, `ParserLadder`, `ParserRun`). The precedence ladder against a grammar given as a relation on
  token lists, and against tables of operators and rungs; `TokenLists` holds what it shares with the preprocessor.
- **Edit distance** (`Suggest`). The two-row dynamic program against edit scripts.

`Wrappers` and `Sequences` hold what several of these share.

Where the source changes things step by step, the model does so as well: classes and methods with loops, each
proved equal to a function, and the theorems are about that function.

Some expected laws do not hold as they stand, and the project says when they do:

- Assignability is reflexive but not transitive in general: a type hole accepts everything. It is transitive
  through a type `b` exactly if no hole stands on the return spine of `b` (`Assign.TransitiveIffSpineSolid`).
- Unification is not complete in general: what a constraint list has chosen for a generic is final. It is
  complete for every pattern in which no generic that a list chooses is met again behind that list
  (`UnifyLimits.SettledIsComplete`), and for no other pattern that asks for each capability once
  (`UnifyLimits.CompleteIffSettled`). With a capability asked for twice there is a harmless exception
  (`UnifyLimits.RepeatIsHarmless`).
- The functions that monomorphization processes need not hold every implementation that the finished program
  finds for them: one that comes with a later instance is missed. They do so in every finished run of every honest
  checker exactly if whatever an instance may bring serves only what the program serves already
  (`MonoUses.ForeseenIffAlwaysClosed`).
- A printed expression is not always read back: `async` in front of a bar starts a closure. It is read back
  exactly if no name stands where it starts something else (`ParserRoundTrip.RoundTrip`).
- The expansion cost of an array representation is the node count of the expanded tree, and it is absent
  exactly if some array level of the type exceeds the machine width (`ArrayRepr.CostIsNodes`).

`dafny verify dfyconfig.toml` checks the whole project.

## Model

| member | source | states |
|---|---|---|
| `Substitution.OpaqueStateTyAssociates` | src/types.rs:1709-1729 | attaching hidden state twice is attaching the concatenated state once, also when the base already carries some |
| `Substitution.SubstOpaqueStateTy` | src/types.rs:704-729 | substitution commutes with attaching hidden state, although the substituted base may bring state of its own |
| `Substitution.SubstComposes` | src/types.rs:704-819 | substituting twice equals substituting once with the composed map, for every type |
| `Substitution.SubstBoundsCompose` | src/types.rs:821-852 | the same for constraint bounds nested in closure types |
| `SubstitutionFacts.SubstReplaces` | src/types.rs:704-852 | the generics of a substituted type, those in hidden state, bounds and constraints included, are exactly the unbound ones of the type and those of the types that its bound ones stand for |
| `SubstitutionFacts.OnlyUnboundRemain` | src/types.rs:704-852 | where bindings hold no generics, exactly the unbound generics remain, so no generic bound to a ground type is left anywhere |
| `SubstitutionFacts.SubstFlattens` | src/types.rs:704-729 | whatever nesting of hidden state a type has, its substituted form has none, and no empty hidden state |
| `SubstitutionFacts.UntouchedIffFlat` | src/types.rs:704-852 | a type without bound generics comes out as it went in if and only if its hidden state is flat: nothing else is ever changed |
| `Assign.SameIsCanonEquality` | src/types.rs:491-678 | comparison up to hidden state is equality of canonical forms, so it is an equivalence |
| `Assign.CanAssignIsWeakens` | src/types.rs:368-489 | assignability is weakening of canonical forms along the return spine: views, nullability, unsafety, covariant returns and constraint entailment |
| `Assign.WeakensTransitive` | src/types.rs:112-121 | weakenings of views, unsafety and constraints compose |
| `Assign.CanAssignReflexive` | src/types.rs:368-377 | every type can be assigned to itself |
| `Assign.CanAssignTransitive` | src/types.rs:368-489 | assignments compose through a type without holes on its return spine |
| `Assign.TransitiveIffSpineSolid` | src/types.rs:375-377 | assignments compose through a type if and only if it has no hole on its return spine |
| `Unify.InstanceKept` | src/types.rs:863-873 | a description of a ground type survives every later binding |
| `Unify.UnifySound` | src/types.rs:854-1045 | if unification with a ground type succeeds, the final bindings describe that type by the pattern, and earlier bindings are kept |
| `Unify.UnifyBoundsSound` | src/types.rs:1047-1090 | every required constraint has a counterpart of its own sign among the actual ones, under the final bindings |
| `Unify.FirstMismatchDecides` | src/types.rs:908-920 | a list fails at the first component that does not fit, and what was bound up to and inside it stays bound |
| `Unify.InstanceDetermines` | src/types.rs:863-873 | the actual type determines the binding of every generic of the pattern |
| `UnifyBorder.UnifyComplete` | src/types.rs:854-1090 | on settled patterns: if some extension of the bindings describes the actual type, unification succeeds, and its bindings agree with that extension on every generic that no constraint list chooses |
| `UnifyBorder.UnifyExact` | src/types.rs:854-1090 | on settled patterns and ground actuals unification succeeds if and only if some extension of the bindings describes the actual |
| `UnifyMeaning.InstanceIsDescribes` | src/types.rs:854-1090 | the relation behind the theorems is the one written out constructor by constructor: pointers by nullability and view, arrays by length, nominal types by definition or name, functions by unsafety and ABI, constraints by name and arguments, and so on |
| `UnifyMeaning.UnifyMeans` | src/types.rs:854-1045 | if unification with a ground type succeeds, the pattern under the final bindings describes it in that sense, and earlier bindings are kept |
| `UnifyMeaning.UnifyDecides` | src/types.rs:854-1090 | on settled patterns and ground actuals it succeeds if and only if some extension of the bindings describes the actual in that sense |
| `UnifyLimits.Misleading` | src/types.rs:1063-1090 | wherever a list chooses a generic, some actual has a description in which the generic is another type than the one chosen |
| `UnifyLimits.Refuting` | src/types.rs:1063-1090 | for every pattern that is not settled and asks for each capability once, some actual has a description but unification fails |
| `UnifyLimits.SettledIsComplete` | src/types.rs:854-1090 | every settled pattern is complete: whatever the known generics are bound to, a description is found if there is one |
| `UnifyLimits.CompleteIffSettled` | src/types.rs:1047-1090 | a pattern that asks for each capability once is complete if and only if no generic chosen by a constraint list is met again behind that list |
| `UnifyLimits.MostGeneralIffNothingChosen` | src/types.rs:1047-1090 | the answer is below every description if and only if no constraint list chooses a generic |
| `UnifyLimits.RepeatIsHarmless` | src/types.rs:1063-1090 | a pattern that asks for the same capability twice is complete although the chosen generic is met again |
| `UnifyLimits.ConstraintChoiceIsFinal` | src/types.rs:1063-1090 | the smallest failure: a pair whose first component chooses a generic and whose second needs another choice |
| `Matching.DescribedMatches` | src/types.rs:704-819 | substituting a describing binding map into a hole-free pattern gives the actual type up to hidden state, future flags and field names, ignored names, constraints not asked for and bare closures, a relation written out constructor by constructor |
| `Matching.InstanceMatches` | src/types.rs:704-819 | the same from the relation behind the unification theorems |
| `Matching.UnifyThenSubstitute` | src/types.rs:854-1045 | after a successful unification, substitution makes the pattern match the actual type, and earlier bindings are kept |
| `Matching.UnifyThenEqual` | src/types.rs:854-1045 | for patterns without holes, futures, opaque returns and bare closures, the pattern under the final bindings has the canonical form of the actual |
| `Matching.SubstDescribes` | src/types.rs:704-819 | a substitution with a ground result describes that result by the pattern |
| `Matching.UnifyFindsSubstitution` | src/types.rs:854-1090 | if a substitution extending the bindings maps a settled pattern to a ground type without hidden state, unification succeeds and agrees with it on every generic that no constraint list chooses |
| `UnifyInPlace.UnifyTyInto` | src/types.rs:854-873 | the recursion that updates the binding map in place computes the result and the bindings of the function |
| `UnifyInPlace.UnifyDataInto` | src/types.rs:874-961 | the same for pointers, slices, arrays, nominal types, futures and opaque returns, component by component |
| `UnifyInPlace.UnifyCallableInto` | src/types.rs:963-1041 | the same for functions, closures and closure instances |
| `UnifyInPlace.UnifyAllInto` | src/types.rs:908-920 | component lists are unified from left to right and stop at the first mismatch, keeping the bindings made so far |
| `UnifyInPlace.UnifyBoundsInto` | src/types.rs:1047-1061 | positive constraints first, then negative ones |
| `UnifyInPlace.UnifyRefsInto` | src/types.rs:1063-1090 | each required constraint is tried on copies of the bindings, and the first success is committed |
| `ArrayRepr.SplitLen` | src/types.rs:1973-1980 | above one chunk the split lies strictly inside the range |
| `ArrayRepr.ReprEncodesTree` | src/types.rs:1939-1971 | the representation type is the encoding of the expanded tree, nested element arrays included |
| `ArrayRepr.DecimalSpells` | src/types.rs:1943-1971 | the number in the name of a chunk is its size in decimal, without a leading zero |
| `ArrayRepr.TreeShape` | src/types.rs:1943-1971 | the leaves sum to the length, all but the last hold 16 elements and the last at most as many, there are ceil(len/16) of them and one concatenation fewer |
| `ArrayRepr.BuildSizes` | src/types.rs:1943-1980 | from left to right the leaves are full chunks followed by the rest |
| `ArrayRepr.BuildDepth` | src/types.rs:1973-1980 | the depth is the binary logarithm of the number of chunks, rounded up |
| `ArrayRepr.BuildNodes` | src/types.rs:1943-1971 | the number of nodes: one per element node, one per chunk, one per concatenation |
| `ArrayRepr.CostIsNodes` | src/types.rs:1982-1997 | the expansion cost is the node count of the fully expanded nested tree if it fits, and is absent if and only if it does not |
| `Suggest.Levenshtein` | src/suggest.rs:128-154 | the two-row program computes the recursive distance |
| `Suggest.FillRow` | src/suggest.rs:143-150 | one row of the table from the row above |
| `Suggest.DistanceIsLowerBound` | src/suggest.rs:128-154 | no edit script is cheaper than the distance |
| `Suggest.DistanceIsAttained` | src/suggest.rs:128-154 | some edit script costs exactly the distance |
| `Suggest.DistanceIsMinimum` | src/suggest.rs:128-154 | the distance is the minimum over all scripts that turn one word into the other |
| `Suggest.DistanceSymmetric` | src/suggest.rs:128-154 | the distance is symmetric |
| `Suggest.DistanceTriangle` | src/suggest.rs:128-154 | the distance satisfies the triangle inequality |
| `Suggest.DistanceSeparates` | src/suggest.rs:128-154 | the distance is zero exactly for equal words |
| `Actor.CielActor.constructor` | runtime/src/actor.c:59-91 | a new actor object stands in an initial state of the system |
| `Actor.CielActor.EnterJob` | runtime/src/actor.c:118-126 | the lock section of send is a step of the system: the message is accepted exactly if it is outstanding afterwards, and then the owner is neither cleared nor closed; if it is refused, no later send is accepted either |
| `Actor.CielActor.SendMessage` | runtime/src/actor.c:111-129 | a whole send undisturbed by other threads: EPIPE exactly if the actor was closing, and then the message is freed once and nothing is queued; otherwise it is queued last and not freed |
| `Actor.CielActor.MarkClosing` | runtime/src/actor.c:134-136 | the lock section of stop is a step of the system after which, in every continuation, no send is accepted |
| `Actor.CielActor.MarkFailed` | runtime/src/actor.c:46-51 | the lock section of a failed job is a step of the system after which, in every continuation, no send is accepted and every join that returns reports EIO |
| `Actor.CielActor.LeaveJob` | runtime/src/actor.c:55 | leaving the group is a step of the system: the counter stays the number of accepted jobs that have not left |
| `Actor.CielActor.BeginJoin` | runtime/src/actor.c:145-152 | the first lock section of join is a step of the system that ends acceptance: a known result is EIO exactly if some job failed, with nothing outstanding; otherwise the owner is still there and the thread waits |
| `Actor.CielActor.EndJoin` | runtime/src/actor.c:156-164 | the second lock section of join is a step of the system: nothing is outstanding, the result is EIO exactly if some job failed, and the owner is taken exactly if it was still there, by a thread that has yet to close it |
| `Actor.StepKeepsInv` | runtime/src/actor.c:32-171 | every step of every thread and of the job runner keeps the eleven-part invariant |
| `Actor.ReachableInv` | runtime/src/actor.c:32-171 | every reachable state satisfies the invariant, whatever the interleaving and the number of threads |
| `Actor.OwnerSafety` | runtime/src/actor.c:154-170 | in every run the owner is closed at most once, only when closing and with no job outstanding, queued or running; a running job sees an owner that is neither cleared nor closed |
| `Actor.FreedExactlyOnce` | runtime/src/actor.c:119-123 | in every run a message is freed at most once, and exactly once when no send, queue or job holds it any more |
| `Actor.JoinResult` | runtime/src/actor.c:140-171 | when a join has returned, closing is set, every accepted message is done and freed, and the result is EIO if some job failed, otherwise what closing the owner gave to the one joiner that closed it, and success for all others |
| `Actor.CloseAnswers` | runtime/src/actor.c:165-170 | the join that closes the owner answers 5 if some job failed, otherwise exactly what the close gave |
| `Actor.CallsAnswer` | runtime/src/actor.c:111-147 | a null send answers 22, a stop 0, a join from inside a handler 35, and the first and last change nothing else |
| `Actor.RefusedAnswer` | runtime/src/actor.c:119-123 | a refused send answers 32, its message is freed once and is never queued |
| `Actor.AcceptedAnswer` | runtime/src/actor.c:124-129 | an accepted send answers 0, its message is queued and not freed |
| `Actor.FirstInFirstOut` | runtime/src/actor.c:124-129 | in every run jobs start in the order in which their messages were queued, and none is skipped |
| `Actor.JobsAreAttached` | runtime/src/actor.c:32-37 | in every run every started job is attached once, in order |
| `Actor.JobsAreHandled` | runtime/src/actor.c:38-44 | in every run every job that could attach enters its handler, and ends there once |
| `Actor.FailuresAreRecorded` | runtime/src/actor.c:36-51 | the failures on record are exactly those of jobs that could not attach or whose handler failed |
| `Actor.ThreadsCallAgain` | runtime/src/actor.c:111-171 | a thread whose call has returned can make any call again |
| `Actor.ClosedToSends` | runtime/src/actor.c:119-123 | once closing is set it stays set and nothing more is accepted |
| `Actor.SendsAfterJoin` | runtime/src/actor.c:119-123 | every send after a returned join is refused with EPIPE |
| `Actor.InternalStepsShrinkWork` | runtime/src/actor.c:111-171 | every step that is not a new call leaves less work |
| `Actor.SomethingEnabled` | runtime/src/actor.c:154-155 | no deadlock: while work is left, some step other than a new call is possible |
| `Actor.StartedWorkFinishes` | runtime/src/actor.c:111-171 | from every state all calls and jobs can be run to the end, and then every message is freed exactly once |
| `Actor.InternalRunsAreBounded` | runtime/src/actor.c:111-171 | no run without new calls is longer than the work left |
| `EscapeAnalyzer.FunctionAnalyzer.UpdateAlias` | src/escape.rs:430-437 | binding a local replaces its sources |
| `EscapeAnalyzer.FunctionAnalyzer.EscapeSources` | src/escape.rs:439-450 | publishing a value lets its sources escape |
| `EscapeAnalyzer.FunctionAnalyzer.ApplyCallEscape` | src/escape.rs:399-428 | a call lets escape what the summary of a known callee says, or all arguments that carry pointers |
| `EscapeAnalyzer.FunctionAnalyzer.UpdatePatternAliases` | src/escape.rs:232-248 | pattern bindings get the sources of the scrutinee |
| `EscapeAnalyzer.FunctionAnalyzer.ScanExpr` | src/escape.rs:257-397 | scanning an expression replays its events in order |
| `EscapeAnalyzer.FunctionAnalyzer.ScanStmt` | src/escape.rs:124-230 | scanning a statement replays its events in order, for every kind of statement |
| `EscapeAnalyzer.AnalyzeFunction` | src/escape.rs:80-101 | the in-place pass over a body computes the summary that the equations ask for |
| `EscapeFixpoint.EscapingMonotone` | src/escape.rs:399-450 | what escapes grows with the summaries of the callees, while aliases do not depend on them |
| `EscapeFixpoint.AnalyzeMonotone` | src/escape.rs:80-101 | the summary of a function is monotone in the other summaries |
| `EscapeFixpoint.RefreshOne` | src/escape.rs:46-56 | replacing one summary stays below every solution and makes progress unless it changes nothing |
| `EscapeFixpoint.RefreshAll` | src/escape.rs:44-60 | one round stays below every solution, makes progress if anything changed, and otherwise has reached a solution |
| `EscapeFixpoint.AnalyzeEscapes` | src/escape.rs:23-65 | the loop terminates on every program with distinct identifiers, recursion included, and returns the least solution |
| `EscapeFixpoint.OrderDoesNotMatter` | src/escape.rs:44-60 | the result does not depend on the order of the functions |
| `EscapeMeaning.SourcesArePointedTo` | src/escape.rs:452-636 | the sources of an expression are exactly what its value points to: the storage of a local whose address or slice is taken, what a local or capture was last assigned, what was passed in, carried on by the listed expression forms |
| `EscapeMeaning.ExprAgrees` | src/escape.rs:257-428 | scanning an expression changes aliases and lets escape exactly as defined on the expression: operands of the listed publishing forms, and the arguments that a callee keeps by its summary, its signature or for lack of both |
| `EscapeMeaning.StmtAgrees` | src/escape.rs:124-248 | the same for statements: returned values leave, and so do values assigned to anything but a local |
| `EscapeMeaning.ParamsByLocal` | src/escape.rs:80-101 | a local stands for the last parameter that declares it |
| `EscapeMeaning.WhatEscapes` | src/escape.rs:80-101 | the analysis of a function puts a local on the heap, or reports a parameter, if and only if some value that leaves the function points to it under the aliases in force where it leaves |
| `EscapeMeaning.SolutionIsWhatLeaves` | src/escape.rs:23-65 | in the summaries that the loop arrives at, the summary of every function with a body is exactly what leaves it when its callees keep what their summaries say |
| `MonoClosure.MarkKeeps` | src/mono.rs:204-211 | marking queues a known function once and nothing else |
| `MonoClosure.InstantiateKeeps` | src/mono.rs:317-379 | an instance is found or made under a new identifier, queued, and recorded with its chain of expansions, which never went on growing past two expansions of the same template; nothing known is changed, and implementations are only appended |
| `MonoClosure.GrowthByPlace` | src/mono.rs:381-397 | growth is infinite if and only if the template stands at two places of the stack and its type arguments grow from the last of them |
| `MonoClosure.InstantiateDecides` | src/mono.rs:317-379 | the whole answer: a known instance, a missing template, a refusal exactly if the template stands on the stack twice and grows from its last place, and otherwise what the checker says, with the new identifier, instance and chain |
| `MonoChains.InstancesAreAskedFor` | src/mono.rs:281-379 | in every state of every run each instance was asked for by a queued function in whose body its template and type arguments stand, and its chain is the chain of that function followed by itself |
| `MonoClosure.RewriteKeeps` | src/mono.rs:602-618 | a rewritten body is the original with every generic reference replaced by its instance; its known references and the implementations found for it at that moment are queued, and nothing else is |
| `MonoClosure.ReplacedIsConcrete` | src/mono.rs:608-618 | a rewritten body holds no generic reference |
| `MonoClosure.StepKeeps` | src/mono.rs:281-315 | one turn of the loop keeps the invariant and files exactly the function at the head of the worklist, which was not processed before |
| `MonoClosure.TurnKeeps` | src/mono.rs:136-138 | every turn processes one function more and changes no earlier one: each definition is processed once |
| `MonoClosure.RunKeeps` | src/mono.rs:132-141 | every state the loop gets to satisfies the invariant |
| `MonoClosure.StartInv` | src/mono.rs:84-135 | the state with the roots marked satisfies the invariant |
| `MonoClosure.Monomorphized` | src/mono.rs:132-179 | if the worklist runs empty without diagnostics, the processed functions hold the roots, are closed under known references and found implementations, are the least such set, and hold no generic reference; every instance is processed under an identifier that no definition, no other instance and no generated function has, and under it stands the function that the checker gave |
| `MonoUses.LookupInPrefix` | src/mono.rs:1069-1090 | a later implementation changes what is found only if it serves a want that nothing served before, and then it is what is found |
| `MonoUses.InTimeIsClosed` | src/mono.rs:1069-1218 | in a finished run in which no later implementation serves a want that nothing served when its body was rewritten, the processed functions hold every known implementation that the finished program finds for them |
| `MonoUses.ForeseenIsClosed` | src/mono.rs:353-362 | they do so in every finished run if implementations that come with instances serve only what an implementation of the program serves |
| `MonoUses.UnforeseenIsMissed` | src/mono.rs:353-362 | for any other implementation that may come with an instance, a program with one root and one template and a checker with a finished run in which the known implementation of the root is not processed |
| `MonoUses.ForeseenIffAlwaysClosed` | src/mono.rs:91-138 | for given implementations, and given heads that instances may bring: all finished runs of all honest checkers on all well-scoped programs are closed under uses if and only if what instances may bring is foreseen |
| `MonoRun.MonoContext.constructor` | src/mono.rs:84-130 | the initial context, with the next identifier above all known ones |
| `MonoRun.MonoContext.MarkFunction` | src/mono.rs:204-211 | marking in place |
| `MonoRun.MonoContext.InstantiateGeneric` | src/mono.rs:317-379 | instantiation in place, with its three ways to fail |
| `MonoRun.MonoContext.TakeImpls` | src/mono.rs:353-362 | implementations with a new head are appended in order, and the next identifier rises above exactly those |
| `MonoRun.MonoContext.FindImpl` | src/mono.rs:1069-1218 | the searches over the implementation list compute the lookup |
| `MonoRun.MonoContext.RewriteExpr` | src/mono.rs:602-650 | rewriting with instantiation and implementation lookups on the way |
| `MonoRun.MonoContext.ProcessFunction` | src/mono.rs:281-315 | one function: on failure the body is dropped and the diagnostics are kept |
| `MonoRun.MonoContext.Drain` | src/mono.rs:136-138 | the worklist loop is the iterated step |
| `MonoRun.Monomorphize` | src/mono.rs:132-141 | the whole pass computes the state that the theorems are about |
| `PreprocessorRun.ConfigExprParser.ParseOr` | src/driver.rs:660-667 | the loop over disjuncts computes the function |
| `PreprocessorRun.ConfigExprParser.ParseAnd` | src/driver.rs:669-676 | the loop over conjuncts computes the function |
| `PreprocessorRun.ConfigExprParser.ParsePrimary` | src/driver.rs:687-731 | calls, parentheses and every error path |
| `PreprocessorRun.ConfigPreprocessor.ProcessRange` | src/driver.rs:520-557 | the cursor loop with its bracket counters computes the function |
| `PreprocessorRun.ConfigPreprocessor.ProcessIf` | src/driver.rs:559-612 | the loop over branches computes the function |
| `PreprocessorRun.ConfigPreprocessor.FindBranchEnd` | src/driver.rs:614-634 | the nesting counter computes the function |
| `PreprocessorRun.PreprocessConfigLossy` | src/driver.rs:479-511 | on every token list, well-formed or not, the whole pass ends, stays within the list and computes the function |
| `PreprocessorFacts.OutputIsSubsequence` | src/driver.rs:479-511 | for every list ending in Eof, well-formed or not, the output is a subsequence of the input with the final Eof and no other |
| `PreprocessorFacts.ClosingCheckIsQuiet` | src/driver.rs:490-510 | the check after the scan never reports on a list ending in Eof |
| `PreprocessorFacts.CleanOutputIsStable` | src/driver.rs:479-634 | without diagnostics the output has no directive and is left as it is by a second pass |
| `PreprocessorFacts.CountersCount` | src/driver.rs:520-557 | each bracket counter is the number of brackets of its kind that are open, surplus closing ones ignored |
| `PreprocessorReports.SilentOr` | src/driver.rs:655-731 | on every token list: if a condition is read without a report, the tokens read are a condition of the grammar on known functions, and the value is its truth value |
| `PreprocessorReports.SilentIsBalanced` | src/driver.rs:559-634 | on every token list: if nothing is reported, as many gates are closed as are opened, in taken and in skipped branches |
| `PreprocessorReports.MissingEndIsReported` | src/driver.rs:490-510 | a list without end marker is reported if and only if it is not empty |
| `PreprocessorReports.FirstDirective` | src/driver.rs:520-557 | the first directive of a range is emitted and reported if a bracket is open there; otherwise one that ends a branch ends the range, silently |
| `PreprocessorReports.MissingConditionIsFalse` | src/driver.rs:687-731 | where no condition starts, it is false, reported once, and nothing is consumed |
| `PreprocessorReports.MissingTextIsFalse` | src/driver.rs:687-731 | a function name without its string is false, and each missing token is reported |
| `Conditions.EvalIsTruth` | src/driver.rs:469-476 | the three functions are decided by the features, the target system and the target architecture, and no other name is |
| `Conditions.DecodeText` | src/driver.rs:769-774 | the text of a string is what stands between its quotes, or all of it without them |
| `Conditions.UnknownCallIsReported` | src/driver.rs:687-731 | a call of an unknown function is consumed, false, and reported once |
| `Conditions.ParseUnaryPrinted` | src/driver.rs:678-731 | a printed operand is consumed exactly and gives its truth value |
| `Conditions.ParseOrPrinted` | src/driver.rs:655-731 | a condition printed with the parentheses it needs is consumed exactly, gives its truth value and reports nothing |
| `GateTrees.SkipItems` | src/driver.rs:614-634 | the search for the end of a branch steps over whole items, nested gates included |
| `GateTrees.RangeOnItems` | src/driver.rs:520-557 | a range over flattened items emits their meaning and goes on behind them |
| `GateTrees.GateRuns` | src/driver.rs:559-612 | a gate emits the meaning of the first branch whose condition holds, or of the else branch, and ends behind its endif |
| `GateTrees.TidyBodyIsBalanced` | src/driver.rs:520-557 | a branch that is taken ends outside all brackets: every bracket opened since its last gate is closed, counted on its tokens |
| `GateTrees.PreprocessItems` | src/driver.rs:479-645 | preprocessing a flattened gate tree leaves exactly its meaning and reports nothing, also if the file ends inside brackets and whatever the conditions inside skipped branches are |
| `Affine.PartsAreComponents` | src/affine.rs:36-110 | the types that the search descends into are exactly the by-value components: array elements, hidden state and its base, captures, the concrete type behind an opaque return, struct fields, and enum payloads where there is no struct |
| `Affine.NextAvoiding` | src/affine.rs:36-110 | an affine leaf can be reached without passing the current type again: cutting at visited types loses nothing |
| `Affine.Search.TypeIsAffineInner` | src/affine.rs:36-110 | the path-sensitive search restores its visiting set and is right in both directions |
| `Affine.TypeIsAffine` | src/affine.rs:31-34 | a type is affine if and only if an affine leaf is reachable through its by-value components, cycles included |
| `Layout.RankedIsAcyclic` | src/layout.rs:68-120 | a rank that falls along every edge excludes cycles |
| `Layout.FinishedRanks` | src/layout.rs:80-120 | the order in which nodes are finished is such a rank |
| `Layout.Search.DetectCycleFrom` | src/layout.rs:80-120 | the search keeps its stack, reports only real cycles, and without a report finishes the node |
| `Layout.DetectCycles` | src/layout.rs:68-78 | nothing is reported if and only if the graph is acyclic, a rank then exists, and every reported path is a cycle |
| `Resolve.ExportSearch.ExportedBareDefs` | src/resolve.rs:652-681 | the depth-first search keeps its invariant on cyclic graphs and visits the module |
| `Resolve.ExportSearch.Exports` | src/resolve.rs:664-669 | the matching exports of one module |
| `Resolve.DedupDefs` | src/resolve.rs:1126-1129 | the same definitions, each once, in the order of their first occurrences |
| `Resolve.SearchIsExact` | src/resolve.rs:652-681 | what is found is exactly what modules reachable through exported unaliased imports export, on ways that pass no module exporting a match |
| `Resolve.LookupImportedBare` | src/resolve.rs:187-215 | an unresolved import is reported if and only if there is one, with the path of the first; otherwise none, unique or ambiguous exactly as the candidates are |
| `Resolve.OrderDoesNotMatter` | src/resolve.rs:187-215 | the outcome does not depend on the order of imports or definitions |
| `Grammar.FirstToken` | src/parser.rs:1962-1991 | an expression never starts with a closing parenthesis, and a postfix expression never with a unary operator |
| `ParserComplete.ParsesOperand` | src/parser.rs:1790-1960 | whatever the grammar derives, with a token behind it that cannot continue it, is parsed to exactly that expression |
| `ParserComplete.ParsesPostfix` | src/parser.rs:1988-2147 | the same for names, literals, parentheses, fields, arrows, indexing, calls and `?` |
| `ParserComplete.ParsesArgs` | src/parser.rs:2149-2181 | the same for argument lists, trailing commas included |
| `ParserSound.BinarySound` | src/parser.rs:1790-1960 | whatever is parsed, the grammar derives, and the token behind it cannot continue it |
| `ParserSound.PostfixTailSound` | src/parser.rs:1998-2147 | the same for the loop over postfix operators |
| `ParserSound.ArgsSound` | src/parser.rs:2149-2181 | the same for argument lists |
| `ParserSound.PrimarySound` | src/parser.rs:2183-2293 | the same for primary expressions |
| `ParserExact.ParserIsExact` | src/parser.rs:1760-2293 | the parser succeeds with an expression and a place to stop if and only if the grammar derives it from the tokens up to there and the next token cannot continue it |
| `ParserExact.Unambiguous` | src/parser.rs:1760-1762 | no two expressions and no two ends compete for the same tokens |
| `ParserRoundTrip.PrintDerives` | src/parser.rs:1790-2293 | what is printed with the parentheses that the strengths ask for, the grammar derives, wherever its names are read as names |
| `ParserRoundTrip.RoundTrip` | src/parser.rs:1760-2293 | wherever a printed expression stands, parsing gives back the same tree and stops exactly behind it if and only if its names are read as names there and the next token does not continue it |
| `ParserRoundTrip.PrintIsInjective` | src/parser.rs:1760-2293 | different expressions that can be read back are printed differently |
| `ParserRoundTrip.PrintIsShortest` | src/parser.rs:1790-2293 | the parentheses are minimal: no way to write an expression takes fewer tokens than its printed form, and one that takes as many has its names read as names |
| `ParserRoundTrip.OrdinaryIsClear` | src/parser.rs:2186-2218 | an expression without contextual keywords has its names read as names wherever it is printed and no `::` follows |
| `ParserRoundTrip.AsyncBar` | src/parser.rs:2211-2218 | `async` in front of a binary operator is read as a name exactly if the operator is no bar |
| `ParserLadder.OperatorsOf` | src/parser.rs:1790-1986 | the tokens that are binary and unary operators, and which, by a table |
| `ParserLadder.RungTakes` | src/parser.rs:1790-1935 | each rung of the ladder takes exactly the tokens that a table of ten rungs lists for it |
| `ParserLadder.HowOperatorsNest` | src/parser.rs:1790-1935 | for every two operators and all operands that bind tighter: grouped to the left unless the second operator stands on a tighter rung of that table |
| `ParserLadder.NotNames` | src/parser.rs:2186-2218 | an identifier starts something other than a name exactly where one of five listed spellings stands |
| `ParserRun.ExprParser.ParseBinary` | src/parser.rs:1790-1935 | the loops of the ten rungs compute the function |
| `ParserRun.ExprParser.ParseCast` | src/parser.rs:1937-1960 | the rung below the binary operators, with casts refused |
| `ParserRun.ExprParser.ParseUnary` | src/parser.rs:1962-1986 | prefix operators by recursion |
| `ParserRun.ExprParser.ParsePostfixTail` | src/parser.rs:1998-2147 | the loop over postfix operators computes the function |
| `ParserRun.ExprParser.ParseSuffix` | src/parser.rs:2032-2143 | one turn of that loop, with the position left unchanged if there is no operator |
| `ParserRun.ExprParser.ParseArgs` | src/parser.rs:2149-2181 | the loop over arguments computes the function |
| `ParserRun.ExprParser.ParsePrimary` | src/parser.rs:2183-2293 | names, literals, parentheses and the refusals |
| `ParserRun.ExprParser.ParseName` | src/parser.rs:2223-2233 | the loop over the segments of a qualified name |

## Left out

- Spans, diagnostic texts and display strings: only whether and how often something is reported.
- Soundness of the escape analysis as a whole: branches overwrite aliases one after another and reads of fields contribute no sources, so the source does not compute it.
- EscapeAnalyzer.AnalyzeFunction: source lists are modelled as sets, so their order and repetitions are not captured, because only membership is ever asked for.
- Unify.UnifySound: actual types are ground, because an identity binding may be replaced later by the source.
- UnifyLimits.CompleteIffSettled: for patterns that ask for one capability twice in the same list only one direction holds; `UnifyLimits.RepeatIsHarmless` shows that the other one fails there, and the exact border among them is open.
- Matching.UnifyThenEqual: bare closures are left to `Matching.UnifyThenSubstitute`, because the actual may have more constraints or be an instance.
- UnifyLimits.MostGeneralIffNothingChosen: stated for the same patterns.
- Injectivity of name mangling: parts are joined by a bare underscore, so it does not hold.
- MonoRun.MonoContext.Drain: runs for a given number of turns, because the source does not guarantee that instantiation ends; its growth test is a heuristic over one chain and is a parameter here.
- MonoClosure.Monomorphized: assumes of the type checker that it hands out identifiers at or above the bound it is given, refers only to functions that exist or that it hands out, and gives a reason when it refuses.
- MonoRun.MonoContext.RewriteExpr: bodies are trees of references, generic references and needed implementations; the other parts of statements and expressions are not modelled, and the functions of the error library that some expressions mark are plain references.
- MonoRun.MonoContext.FindImpl: which implementations serve a want is a parameter, because the comparison of types in it is not part of this model; which wants an expression has, and in what order a second type is tried, is part of the body.
- MonoRun.MonoContext.ProcessFunction: a function is its identifier and its body; the lowering of opaque returns in its signature is not modelled.
- MonoRun.Monomorphize: ends with the worklist; sorting the functions, emission of structs and enums and the expansion of representation schemas are not modelled.
- MonoUses.InTimeIsClosed: the number of implementations known when a body was rewritten is a note that the model keeps in the body, and the source does not.
- Parser: casts, the operator `<` with its generic arguments, slices, receiver selectors, closures, struct and array literals, await, select and unsafe blocks count as failures, and so does everything that records a diagnostic; recovery after an error is not modelled.
- ParserRun.ExprParser.ParseCast: a cast is a failure, so its type is not read.
- ParserRun.ExprParser.ParsePostfixTail: generic arguments, slices, receiver selectors and struct literals are failures.
- ParserRun.ExprParser.ParseSuffix: the same for one turn of the loop.
- ParserRun.ExprParser.ParsePrimary: closures, struct and array literals, await, select and unsafe blocks are failures.
- ParserRoundTrip.PrintIsInjective: stated for expressions that are read back; whether the others are printed differently is left open.
- Parser.ParseBinary: the ten methods of the ladder are one function of the rung, because they differ only in their operators.
- Splitting of `>>` in type arguments and the restoring of tokens on backtracking belong to those left-out parts.
- Preprocessor: one flag stands for `selected` and `emitted`, which are always equal; diagnostics are counted, not kept.
- GateTrees.PreprocessItems: gates stand outside brackets, selected branches end outside them, and in a gate that is reached no conditional body begins with `&&` or `||`, taken or not, because the source would read that as part of the condition.
- Affine.TypeIsAffine: the struct and enum environment is fixed, over a finite closed set of types with well-founded opaque returns, because the source terminates only then.
- Layout.DetectCycles: nodes are visited in any order; building the graph from types and sorting names is not modelled.
- Resolve.LookupImportedBare: the order in which an ambiguity lists its candidates is not stated; it has no bearing on the verdict.
- Resolve: local definitions, variants and qualified lookups would only add easy members.
- Actor: messages are unique tokens, as every send owns its message; a null message is a step of its own, null actors, the failures of spawning and the allocator are not modelled, and the result of closing the owner is arbitrary.
- Actor.CielActor.SendMessage: other threads act before or after the whole send; in between they are covered by the transition system.
- Actor: a join from inside a handler is a step that any idle thread may take while a job runs, and it only returns EDEADLK; that the caller is the running job is not modelled.
- Suggest: choice, ranking and wording of suggestions would only add easy members.
- Module loading, the command line, code generation, formatting and the other runtime files.
