# Verified models of SVF's points-to and lock analyses

This project models the stateful cores of the SVF static-analysis framework in Dafny and proves what
they compute.

* **The demand-driven solver** (`ValueFlowGraph`, `LeastSolution`, `SolverState`, `SolverFrames`,
  `SolverQueries`, `DDAVFSolver`, `SharedSets`). `findPT` evaluates query items by walking a cyclic value-flow
  graph backwards, marks items visited to cut cycles, and un-visits and re-enters dependents whenever
  a cached set grows, even if they are still on the call stack. The reference is the least solution
  of the whole equation system, defined as the intersection of all its solutions. A set of *dirty*
  items (on the stack, or waiting to be evaluated again) carries the invariant; one relation between
  the states before and after a call says that a dirty item was either solved by someone else
  meanwhile, or nothing it can read has changed. The sets of top-level pointers are kept by
  item, as in the base class, or by variable, as in `FlowDDA` (`Graph.byVariable`). From this follow
  termination and, as long as no set is shared, exactness after every query and trust in the caches
  across queries, abandoned ones and their fallback to the whole-program pre-analysis included.
* **The hash-consed points-to cache** (`PersistentPointsToCache`): interning, three memo tables with
  derived entries, statistics.
* **The points-to data structures** (`PointsToData`, `DiffPointsTo`, `DataFlowPointsTo`,
  `DataFlowLaws`, `FlowSensitiveData`, `PersistentFlowData`): the id-based structure simulates the
  in-place one; difference propagation; the flag-driven flow-sensitive form refines the plain one over every run.
* **Must-locksets** (`LocksetFlow`, `LockAnalysis`): termination of the worklist and the exact
  meaning of the computed locksets.
* **The kernel configuration script** (`KernelConfig`).

Each structure that the source updates in place is a class whose methods do the same updates; their
contracts tie the new state to functions on values, and the theorems are about those functions.

## Where the code departs from what it is for

* `FlowDDA.h:124-137` keeps the sets of top-level pointers by variable. A variable can have several
  top-level nodes: an actual parameter stands for the argument itself (`VFG.cpp:861-868`). Whichever of
  them grows the set first, the others then report no change, so `reCompute` passes over their successors.
  `CallsStopEarly` is a recursive function whose parameter misses a target, for both orders of its edges;
  in `PhisStopEarly` no value flow is cyclic and edges are served by node id. In both, sharing as such does
  no harm: the least solution is the same with it (`RelaysAddNothing`). No condition on the program alone is
  exact: `PhisDependsOnHistory` gets the right answer for a pointer that is asked about at once, and a wrong
  one after another query. What holds for `FlowDDA` is this. Answers never exceed the least solution that
  respects sharing, nor a sound pre-analysis, and never shrink. Everything visited is solved and read-closed
  except what a shared set's growth has passed over (the *stale* items). If further nodes only copy the
  definition of their pointer, the visited sets are exact exactly if stale items are solved as well
  (`ExactIffSolved`). Only items that may read a shared set can be passed over, and only when that has just
  grown (`MissedIsOverlooked`, `NewlyStale`). So answers are exact wherever the definition of the pointer
  depends on no shared set (`UnsharedAnswerExact`), addresses are always found (`AddressAnswered`), and
  nothing is ever passed over if no two top-level nodes stand for one pointer (`AloneIffDistinct`,
  `AloneMissesNothing`); then all results for sets kept by item hold unchanged.
* `PersistentPointsToCache.h:193` stores `lhs` for an intersection whose comment (line 192) announces
  `result`. The model keeps the code. Unions and complements stay right. A newly computed difference
  that is a nonempty proper part of its left operand *spoils* the pair of the two sets; a newly computed
  intersection heals the pairs it forms with its operands. An intersection is right exactly when no
  earlier call has left its pair spoiled; otherwise the union comes back (`Cache.IntersectPts`).
  `LostIntersection` gets there from a fresh cache in four calls. Difference propagation is affected: a
  merge is safe, and a run agrees with the in-place form, exactly when no merge meets a spoiled pair
  (`MergeSafeIffUnspoiled`, `AgreeIffNeverMisled`, `LostDelivery`). Over a run, nothing can get lost exactly
  if no merge meets such a pair while the node with the smaller set has an edge (`RunLosesNothingIff`).
* `LockAnalysis.h:335-351`: a statement that waits without a lockset, because a predecessor without
  locks has marked it, has no map entry, so a second predecessor *gives* it its locks instead of
  intersecting. `MarkCarriesUnlessLost` shows that this branch is exactly what breaks containment of
  locksets along edges. Locksets always contain every lock that must be held. They contain nothing else
  exactly if no statement without locks has a successor with a foreign lock (`OnlyMustIffNothingGained`),
  which `Uniform` programs guarantee. In `LostOnDiamond`, an `if` with an acquire on one side, the
  statement after it ends with a lock which is not held on all ways.
* `LockAnalysis.cpp:365-369`: locks are named by their acquire statements, and a release looks for its
  own name. It never finds it (`VisitTurns`), so nothing after a release is reached from there. The
  notion of path used here therefore ends at releases.
* `kernel-config-parser.py:55-67`: the transitive count equals the number of options decided only for
  options that decide nothing (`CountMatchesOnlyWithoutDependents`). What it counts are the direct
  dependents and all chains of dependents, those that end in an option without an entry twice
  (`CountIsRoutes`). The loop never ends for an option that decides itself or decides one that does
  (`EndsIffAcyclic`, `TwoCycleNeverEnds`).
* The incremental flow-sensitive form agrees with the plain one only as long as a store's flags are
  consumed by that store; another consumer is harmless exactly when the set has passed through already
  (`ForeignUpdateIsHarmless`).

## Model

| member | source | states |
|---|---|---|
| ValueFlowGraph.TransferMonotone | include/DDA/DDAVFSolver.h:147-224 | every right-hand side, strong updates included, grows with the caches, and so do the items it reads |
| ValueFlowGraph.StoreTransferCases | include/DDA/DDAVFSolver.h:192-216 | a store yields nothing for an empty destination, the stored value for a unique target, the old value for a non-target, both otherwise |
| ValueFlowGraph.PassesOldMonotone | include/DDA/DDAVFSolver.h:426-441 | once the old value passes a store, larger destination sets let it pass too |
| ValueFlowGraph.TransferLocal | include/DDA/DDAVFSolver.h:147-224 | a right-hand side and its read set depend on the items read only |
| ValueFlowGraph.ReadsTrigger | include/DDA/DDAVFSolver.h:248-286 | whatever an item reads makes the recomputation loop re-enter it, so no dependency is missed |
| ValueFlowGraph.ReadsAreItems | include/DDA/DDAVFSolver.h:364-394 | operand and edge sources are items of the graph, top-level ones for the pointer their node defines |
| ValueFlowGraph.DirectFlow | include/DDA/DDAVFSolver.h:154-169 | what reaches address, copy and field statements, element by element and edge by edge, both directions |
| ValueFlowGraph.MemoryFlow | include/DDA/DDAVFSolver.h:324-344 | exactly what the edges into a memory region bring whose guard admits the object, nothing for objects without pointers |
| ValueFlowGraph.LoadFlow | include/DDA/DDAVFSolver.h:170-178 | exactly what such edges bring for the objects the pointer operand points to |
| ValueFlowGraph.StoreFlow | include/DDA/DDAVFSolver.h:192-216 | exactly the stored value at a target, and what such edges bring unless there is no target or the only one is unique |
| ValueFlowGraph.AloneIffDistinct | include/DDA/FlowDDA.h:124-137 | items are alone with their cached set exactly if sets are kept by item or no two top-level nodes stand for one pointer |
| LeastSolution.LeastIsSolution | include/DDA/DDAVFSolver.h:115-224 | the intersection of all solutions solves the equations |
| LeastSolution.LeastBelowSolution | include/DDA/DDAVFSolver.h:115-224 | it is below every solution |
| LeastSolution.LeastMonotone | lib/DDA/FlowDDA.cpp:49-56 | fallback items can only enlarge it |
| LeastSolution.LoadHolds | include/DDA/DDAVFSolver.h:170-178 | in every solution an admitting edge carries all of an object pointed to into the load |
| LeastSolution.MemoryHolds | include/DDA/DDAVFSolver.h:324-344 | and all of the object into a memory region |
| LeastSolution.StoredHolds | include/DDA/DDAVFSolver.h:192-216 | every target of a store holds the stored value |
| LeastSolution.UnstoredHolds | include/DDA/DDAVFSolver.h:192-216 | an object keeps over a store what it held unless the store certainly overwrites it |
| LeastSolution.LeastIsFixpoint | include/DDA/DDAVFSolver.h:115-224 | it satisfies the equations with equality |
| LeastSolution.SharedIsLeastIffEven | include/DDA/FlowDDA.h:124-137 | asking for equal sets where a set is shared changes the least solution exactly if the plain one has unequal sets there |
| LeastSolution.RelaysAddNothing | lib/Graphs/VFG.cpp:842-875 | it changes nothing if the further nodes of a pointer only copy its definition, as actual parameters do |
| LeastSolution.UnsharedAddsNothing | include/DDA/FlowDDA.h:124-137 | nor in a part of the program that depends on nothing outside it and shares no set |
| LeastSolution.TransferBelowShared | include/DDA/FlowDDA.h:133-137 | one evaluation stored for all items that share a set stays below that solution |
| LeastSolution.SolvedRegionAboveLeast | include/DDA/DDAVFSolver.h:115-143 | local solving is globally sound: a solved, read-closed region holds at least the least solution of the whole system, with or without fallback items |
| SolverState.StepTransitive | include/DDA/DDAVFSolver.h:115-143 | the relation between states before and after a call composes |
| SolverState.CollectedStep | include/DDA/DDAVFSolver.h:346-360 | sets a frame has collected stay current across re-entrant calls, or the frame's item has been solved meanwhile |
| SolverState.GrowKeepsInv | include/DDA/DDAVFSolver.h:538-546 | storing an evaluated set leaves exactly the triggered items unsolved, and stale exactly those that only an item sharing the set triggers |
| SolverState.GrowBegins | include/DDA/DDAVFSolver.h:538-546 | a growing cache moves closer to its capacity |
| SolverState.StoreByVariable | include/DDA/FlowDDA.h:124-137 | storing one set by variable is storing it for all items that share it |
| SolverState.AloneMissesNothing | include/DDA/DDAVFSolver.h:248-286 | recomputation passes over nothing if no set is shared |
| SolverState.MissedIsOverlooked | include/DDA/FlowDDA.h:124-137 | whatever recomputation passes over may read a set that has just grown and that an entered item shares which does not serve it |
| SolverState.RedoOne | include/DDA/DDAVFSolver.h:258-284 | evaluating one dependent again removes it from the pending ones and keeps those already redone |
| SolverState.Recomputed | include/DDA/DDAVFSolver.h:227-245 | growth followed by re-evaluation of all dependents is one step for every frame on the stack; what frames further up have read stands still, has been solved since, or is stale |
| SolverState.RecordLoadKeepsInv | include/DDA/DDAVFSolver.h:659-692 | recorded load variables equal the item's own variable throughout |
| SolverFrames.LoadEvaluated | include/DDA/DDAVFSolver.h:170-178 | the loop over a load's targets computes the load's right-hand side |
| SolverFrames.StrongUpdateMeaning | include/DDA/DDAVFSolver.h:426-441 | the code's count-based test means one unique target |
| SolverFrames.LetsThroughMeaning | include/DDA/DDAVFSolver.h:194-215 | the old value is traced for some target exactly when the equation lets it pass |
| SolverFrames.StoreEvaluated | include/DDA/DDAVFSolver.h:192-216 | the loop over a store's targets computes the store's right-hand side |
| SolverFrames.GepEvaluated | lib/DDA/FlowDDA.cpp:118-148 | field objects of the collected sets make up the right-hand side |
| SolverQueries.ResetIsIdle | include/DDA/DDAVFSolver.h:296-317 | after a reset every visited item that is not stale is solved and read-closed again, also after an abandoned query |
| SolverQueries.StepKeepsSettled | include/DDA/DDAVFSolver.h:296-317 | a query leaves the visited flags of earlier queries alone and takes nothing from their sets; without shared sets it adds nothing either |
| SolverQueries.VisitedExact | include/DDA/DDAVFSolver.h:115-143 | within the budget and without shared sets, all visited items hold exactly the least solution; fallback items enter it with the pre-analysis result |
| SolverQueries.VisitedSolved | include/DDA/DDAVFSolver.h:115-143 | within the budget all visited items that are neither stale nor fallbacks are solved and read visited items only |
| SolverQueries.ExactIffSolved | include/DDA/FlowDDA.h:124-137 | with shared sets whose further nodes only copy the definition: visited sets are exact and read-closed exactly if all visited items are solved, and surely if none is stale |
| SolverQueries.UnsharedAnswerExact | include/DDA/FlowDDA.h:124-137 | whatever is shared elsewhere, the answer for a pointer whose definition lies in such a part is the least solution |
| SolverQueries.AddressAnswered | include/DDA/DDAVFSolver.h:153-156 | even if its set is shared, a pointer defined by an address statement is found to point to the object |
| SolverQueries.NewlyStale | include/DDA/FlowDDA.h:124-137 | what a query leaves stale may read a set that has grown during it and that an entered item shares which does not serve it; if no shared set has grown, nothing new is stale |
| SolverQueries.TrustedExact | include/DDA/DDAVFSolver.h:296-317 | after a reset and without shared sets, every item still visited holds that least solution, also after abandoned queries |
| SolverQueries.AndersenSolves | lib/DDA/FlowDDA.cpp:49-56 | a pre-analysis that satisfies the equations of the items that occur solves the system, whatever has fallen back |
| SolverQueries.FallbackExact | lib/DDA/FlowDDA.cpp:49-56 | the least solution at a fallback item is the pre-analysis result |
| SolverQueries.SoundAndPrecise | lib/DDA/FlowDDA.cpp:49-56 | a program with a store and a load whose exact pre-analysis meets that condition |
| SolverQueries.SmallLeast | include/DDA/DDAVFSolver.h:170-217 | its least solution brings the stored object back through memory to the load, and nothing else |
| SolverQueries.QueryAnswered | lib/DDA/FlowDDA.cpp:20-43 | a completed query leaves an answer equal to the cached set and takes nothing from the others; without shared sets it leaves them as they are |
| SolverQueries.QueryAbandoned | lib/DDA/FlowDDA.cpp:49-56 | an abandoned query leaves a state as fit for queries as before, its root holding at least the pre-analysis result, and takes nothing from earlier answers |
| SolverQueries.AnswersExact | lib/DDA/FlowDDA.cpp:20-56 | without shared sets every answer is the least solution at its root: of the plain system if no query was abandoned, else with the fallback roots taken from a sound pre-analysis |
| SolverQueries.AnswerAtMost | lib/DDA/FlowDDA.cpp:20-56 | shared or not, no answer exceeds the least solution that respects sharing, nor the result of a sound pre-analysis |
| SolverQueries.SameAnswerAgain | lib/DDA/FlowDDA.cpp:20-43 | an answer found within the budget is the cached set of its root, so repeating the query adds nothing |
| SolverQueries.AnswersBetween | lib/DDA/FlowDDA.cpp:20-56 | without shared sets every answer lies between the plain least solution and the result of a sound pre-analysis |
| SolverQueries.AnswersGood | lib/DDA/DDAClient.cpp:24-54 | the bounds for all recorded answers at once, and without shared sets their exactness |
| DDAVFSolver.Solver.constructor | include/DDA/DDAVFSolver.h:42-45 | a fresh solver is ready for queries |
| DDAVFSolver.Solver.GetCachedPointsTo | include/DDA/DDAVFSolver.h:531-554 | the two caches, or the map by variable and one cache, act as one |
| DDAVFSolver.Solver.GetCachedTLPointsTo | include/DDA/FlowDDA.h:124-130 | a top-level set, by item or by variable |
| DDAVFSolver.Solver.MarkEntered | include/DDA/DDAVFSolver.h:130-131 | visited flag and registration at the location |
| DDAVFSolver.Solver.TestOutOfBudget | include/DDA/DDAVFSolver.h:703-709 | budget accounting, sticky exhaustion, fallback items |
| DDAVFSolver.Solver.AddLoadDpmAndCVar | include/DDA/DDAVFSolver.h:659-686 | records the load of an item without disturbing anything |
| DDAVFSolver.Solver.GetDPImWithOldCond | include/DDA/DDAVFSolver.h:566-579 | the object item at the same statement, with a load record; the lookups at 676 and 690 succeed |
| DDAVFSolver.Solver.BackwardPropDpm | include/DDA/DDAVFSolver.h:398-419 | visits the source item and unions its current set |
| DDAVFSolver.Solver.FindPT | include/DDA/DDAVFSolver.h:115-143 | terminates and leaves everything but the older dirty and the stale items solved and closed, caches below the least solution that respects sharing; returns the cached set, which for an item entered within the budget is at least its right-hand side for the sets held at entry |
| DDAVFSolver.Solver.BacktraceAlongDirectVF | include/DDA/DDAVFSolver.h:346-360 | collects exactly the direct sources |
| DDAVFSolver.Solver.BacktraceAlongIndirectVF | include/DDA/DDAVFSolver.h:324-344 | collects exactly the guarded memory sources, none for objects without pointers |
| DDAVFSolver.Solver.HandleLoad | include/DDA/DDAVFSolver.h:170-178 | evaluates a load, with the same two bounds |
| DDAVFSolver.Solver.HandleStore | include/DDA/DDAVFSolver.h:179-217 | evaluates a store, with the same two bounds |
| DDAVFSolver.Solver.HandleSingleStatement | include/DDA/DDAVFSolver.h:147-224 | the result never exceeds the right-hand side, always reaches it for the sets held when the evaluation began, and for the present ones unless the item was solved meanwhile, is stale, or the budget is spent |
| DDAVFSolver.Solver.UnionDDAPts | include/DDA/FlowDDA.h:132-137 | the set grows for all items that share it, and growth is reported for the shared set |
| DDAVFSolver.Solver.UpdateCachedPointsTo | include/DDA/DDAVFSolver.h:538-546 | the item is solved or stale, every frame's collected sets remain usable, and after growth every triggered item has been evaluated on the new sets |
| DDAVFSolver.Solver.ReCompute | include/DDA/DDAVFSolver.h:227-245 | all triggered items have been evaluated again: each holds at least its right-hand side for the sets held after the growth, and is solved or has been passed over since |
| DDAVFSolver.Solver.ReComputeForEdge | include/DDA/DDAVFSolver.h:248-286 | the same for all items registered at the edge's target that the edge triggers |
| DDAVFSolver.Solver.ClearBkVisited | include/DDA/DDAVFSolver.h:522-526 | the assertion that the item is visited never fails |
| DDAVFSolver.Solver.OOBResetVisited | include/DDA/DDAVFSolver.h:308-317 | un-visits exactly this query's items that are no fallback items |
| DDAVFSolver.Solver.ResetQuery | include/DDA/DDAVFSolver.h:296-306 | caches and answers survive, the per-query maps are empty |
| DDAVFSolver.Solver.HandleOutOfBudgetDpm | lib/DDA/FlowDDA.cpp:49-56 | records the pre-analysis result, makes the root a fallback item, takes nothing from earlier answers |
| DDAVFSolver.Solver.RunQuery | lib/DDA/FlowDDA.cpp:25-32 | within the budget the visited items that are neither stale nor fallbacks are solved and closed, and without shared sets all hold the least solution; a new root gets at least its right-hand side; what becomes stale is due to a shared set that has grown; a root visited before is looked up and changes nothing |
| DDAVFSolver.Solver.ComputeDDAPts | lib/DDA/FlowDDA.cpp:20-43 | one query, completed or abandoned; a new root gets at least its right-hand side, or the pre-analysis result; earlier answers lose nothing and, without shared sets, stay the same, the same query's included unless it had been abandoned; the solver fit for the next one |
| DDAVFSolver.Solver.AnswerQueries | lib/DDA/DDAClient.cpp:24-54 | every sequence of queries: answers bounded by the least solution that respects sharing and by a sound pre-analysis, never shrinking; exact for pointers from unshared parts of the program, addresses found everywhere; without shared sets all are exact over the fallback roots, and those found within the budget never change |
| SharedSets.EvaluateIsTransfer | include/DDA/DDAVFSolver.h:147-169 | evaluating a node on what its sources hold is evaluating the right-hand side of its item |
| SharedSets.GrownIsStored | include/DDA/FlowDDA.h:132-137 | growing a variable's set is growing it for all items of the variable |
| SharedSets.CallsStopEarly | lib/Graphs/VFG.cpp:861-868 | a recursive function: whatever the order of edges, the query for its parameter ends with nothing pending and without a target that the least solution has |
| SharedSets.PhisStopEarly | lib/Graphs/VFG.cpp:861-868 | the same without any cycle of value flow, edges served by node id |
| SharedSets.PhisDependsOnHistory | lib/DDA/FlowDDA.cpp:20-43 | in that program a query for the parameter on a fresh solver finds everything, after another query it finds less |
| PersistentPointsToCache.IdsAreCanonical | include/MemoryModel/PersistentPointsToCache.h:71-91 | ids are equal exactly when the sets are; 0 is the empty set |
| PersistentPointsToCache.UntaintedAgrees | include/MemoryModel/PersistentPointsToCache.h:149-205 | the intersection table is right exactly when no entry gives the larger of two nested sets |
| PersistentPointsToCache.TaintedIffSpoiled | include/MemoryModel/PersistentPointsToCache.h:208-278 | a lookup goes wrong exactly for the pairs of sets that earlier calls have spoiled and not healed |
| PersistentPointsToCache.ExactIffUnspoiled | include/MemoryModel/PersistentPointsToCache.h:149-205 | the table is right exactly when nothing is spoiled |
| PersistentPointsToCache.DifferenceSpoils | include/MemoryModel/PersistentPointsToCache.h:149-205 | a difference leaves nothing spoiled exactly if nothing was and it is memoised, empty, or all of its left operand |
| PersistentPointsToCache.MemoisedIffRemembered | include/MemoryModel/PersistentPointsToCache.h:321-334 | an operation is memoised exactly if its operands, as sets, are among the calls so far |
| PersistentPointsToCache.Cache.RecordPart | include/MemoryModel/PersistentPointsToCache.h:178-201 | the entries derived from a difference, and the pair they spoil |
| PersistentPointsToCache.AddLarger | include/MemoryModel/PersistentPointsToCache.h:190-197 | the entry of line 193 breaks agreement whenever the difference is a nonempty proper part |
| PersistentPointsToCache.ExtendIds | include/MemoryModel/PersistentPointsToCache.h:71-83 | storing further sets leaves every memo entry as true or wrong as it was |
| PersistentPointsToCache.LookedUp | include/MemoryModel/PersistentPointsToCache.h:321-356 | a memoised intersection is the intersection or, for a tainted pair, the union |
| PersistentPointsToCache.Cache.constructor | include/MemoryModel/PersistentPointsToCache.h:40-46 | holds the empty set under id 0 and nothing else |
| PersistentPointsToCache.Cache.NewPointsToId | include/MemoryModel/PersistentPointsToCache.h:311-316 | hands out the next 32-bit id, unless they are exhausted |
| PersistentPointsToCache.Cache.EmplacePts | include/MemoryModel/PersistentPointsToCache.h:71-83 | the id of the set; a new one, the next, only for a new set; older ids keep their meaning |
| PersistentPointsToCache.Cache.OpPts | include/MemoryModel/PersistentPointsToCache.h:321-356 | computes, interns and memoises unless memoised; the table is afterwards right exactly if it was |
| PersistentPointsToCache.Cache.UnionPts | include/MemoryModel/PersistentPointsToCache.h:94-146 | the id of the union; union and complement tables right, counters balanced, older ids kept; counted as decided by a law, computed, or looked up |
| PersistentPointsToCache.Cache.ComplementPts | include/MemoryModel/PersistentPointsToCache.h:149-205 | the id of the difference; the history afterwards; exactly when the intersection table stays right; the exact counts |
| PersistentPointsToCache.Cache.IntersectPts | include/MemoryModel/PersistentPointsToCache.h:208-278 | the id of the intersection exactly when no earlier call has spoiled the pair, of the union otherwise; the history afterwards; the exact counts |
| PersistentPointsToCache.Cache.RecordMeet | include/MemoryModel/PersistentPointsToCache.h:238-272 | the entries derived from an intersection, and the pairs they heal |
| PersistentPointsToCache.LostIntersection | include/MemoryModel/PersistentPointsToCache.h:193 | a concrete use of a fresh cache that gets an intersection wrong |
| PointsToData.PerformSame | include/MemoryModel/AbstractPointsToDS.h:72-91 | equal sets give equal sets and equal reports under every operation |
| PointsToData.PerformMeaning | include/MemoryModel/MutablePointsToDS.h:60-97 | what each operation does to its key and to no other, and when it reports a change; nothing else fits |
| PointsToData.JoinedInverse | include/MemoryModel/MutablePointsToDS.h:138-152 | adding to the reverse sets keeps them the exact inverse |
| PointsToData.LeftInverse | include/MemoryModel/MutablePointsToDS.h:153-166 | so does removing |
| PointsToData.AddRevPts | include/MemoryModel/MutablePointsToDS.h:145-152 | the key joins exactly the reverse sets of the added elements |
| PointsToData.ClearRevPts | include/MemoryModel/MutablePointsToDS.h:160-166 | the key leaves exactly those |
| PointsToData.MutablePTData.GetRevPts | include/MemoryModel/MutablePointsToDS.h:54-58 | exactly the keys that point to the element |
| PointsToData.MutablePTData.UnionPts | include/MemoryModel/MutablePointsToDS.h:66-70 | the destination gains what the source points to, no other set changes, and a change is reported exactly if that is new; reverse map included |
| PointsToData.MutablePTData.ClearFullPts | include/MemoryModel/MutablePointsToDS.h:89-94 | empties one set and its reverse entries |
| PointsToData.PersistentPTData.GetRevPts | include/MemoryModel/PersistentPointsToDS.h:54-58 | exactly the keys that point to the element |
| PointsToData.PersistentPTData.UnionPtsFromId | include/MemoryModel/PersistentPointsToDS.h:120-140 | the union, an id change exactly for a set change, and the exact inverse although unchanged ids skip it |
| PointsToData.PersistentPTData.UnionPts | include/MemoryModel/PersistentPointsToDS.h:68-72 | the same union and report, through ids |
| PointsToData.PersistentPTData.ClearPts | include/MemoryModel/PersistentPointsToDS.h:84-96 | removes one element, reverse map included |
| PointsToData.PersistentPTData.ClearFullPts | include/MemoryModel/PersistentPointsToDS.h:98-102 | empties one set and its reverse entries |
| PointsToData.UnionDenoted | include/MemoryModel/PersistentPointsToDS.h:120-128 | an id change means a set change and nothing else |
| PointsToData.Simulate | include/MemoryModel/PersistentPointsToDS.h:48-140 | over every operation sequence both structures have equal sets, equal reverse sets and equal reports, and the sets pass through states that obey the operations one by one |
| DiffPointsTo.ProcessingDelivers | include/MemoryModel/PersistentPointsToDS.h:237-251 | handing out the difference on all edges brings them up to date and keeps the delivery invariant |
| DiffPointsTo.EmittedOnce | include/MemoryModel/PersistentPointsToDS.h:237-251 | for a growing set the differences are disjoint and add up: each element is emitted once |
| DiffPointsTo.MergeKeepsIntersection | include/MemoryModel/MutablePointsToDS.h:258-263 | a merged node may keep a set, whatever has been delivered, exactly when both nodes have propagated it |
| DiffPointsTo.MergeSafeIffUnspoiled | include/MemoryModel/PersistentPointsToDS.h:253-258 | what the id-based form keeps for a merged node is safe exactly when no earlier difference has spoiled the pair |
| DiffPointsTo.RunLosesNothingIff | include/MemoryModel/PersistentPointsToDS.h:237-263 | over every run no step can lose anything, whatever has been delivered before it, exactly if no merge meets a spoiled pair while the node with the smaller set has an edge |
| DiffPointsTo.NothingLostOverRun | include/MemoryModel/MutablePointsToDS.h:246-268 | over every run of processing, merging and forgetting, all that a node has propagated has arrived on all its edges |
| DiffPointsTo.AgreeIffNeverMisled | include/MemoryModel/PersistentPointsToDS.h:237-263 | over a run the id-based form holds the sets of the in-place form at every moment exactly if no merge meets a spoiled pair |
| DiffPointsTo.NeverMisleadsNeverMisled | include/MemoryModel/PersistentPointsToDS.h:237-263 | from an unspoiled cache that is so as long as no newly computed difference is a nonempty proper part |
| DiffPointsTo.UnluckyRun | include/MemoryModel/PersistentPointsToDS.h:253-258 | a run of three differences and a merge where it is not |
| DiffPointsTo.MutableDiffPTData.ComputeDiffPts | include/MemoryModel/MutablePointsToDS.h:246-256 | the difference, the new propagated set, and whether there is anything new |
| DiffPointsTo.MutableDiffPTData.UpdatePropaPtsMap | include/MemoryModel/MutablePointsToDS.h:258-263 | the intersection |
| DiffPointsTo.MutableDiffPTData.ProcessAll | include/MemoryModel/MutablePointsToDS.h:246-256 | successive calls for one node hand out exactly the differences that EmittedOnce is about |
| DiffPointsTo.MutableDiffPTData.Run | include/MemoryModel/MutablePointsToDS.h:246-268 | every sequence of operations ends with the propagated sets as they are meant |
| DiffPointsTo.PersistentDiffPTData.ComputeDiffPts | include/MemoryModel/PersistentPointsToDS.h:237-251 | the same on ids, with the cache's history afterwards, so what it spoils and what it leaves right |
| DiffPointsTo.PersistentDiffPTData.UpdatePropaPtsMap | include/MemoryModel/PersistentPointsToDS.h:253-258 | the intersection exactly when no earlier call has spoiled the pair, the union otherwise, with the history afterwards |
| DiffPointsTo.PersistentDiffPTData.Run | include/MemoryModel/PersistentPointsToDS.h:237-263 | every sequence of operations; without a misled merge the sets are those of the in-place form |
| DiffPointsTo.LostDelivery | include/MemoryModel/PersistentPointsToDS.h:253-258 | that run on fresh data ends with a merged node that claims too much |
| DataFlowPointsTo.SameOutcome | include/MemoryModel/MutablePointsToDS.h:618-725 | one step of the incremental form gives the sets and the report of the plain one |
| DataFlowPointsTo.UnflaggedSendNothing | include/MemoryModel/MutablePointsToDS.h:618-638 | skipped sets would not have changed anything |
| DataFlowPointsTo.InitiallyConsistent | include/MemoryModel/MutablePointsToDS.h:614 | empty data is consistent with a graph exactly if no edge leaves a load |
| DataFlowPointsTo.StepConsistent | include/MemoryModel/MutablePointsToDS.h:618-725 | every step keeps: unflagged sets have nothing left to contribute |
| DataFlowPointsTo.IncrementalRefinesPlain | include/MemoryModel/MutablePointsToDS.h:618-725 | the same over every run, report by report |
| DataFlowPointsTo.SkippedIsCaughtUp | include/MemoryModel/MutablePointsToDS.h:674-692 | a variable skipped by a strong update passes through at the next update that does not skip it, whatever happens in between |
| DataFlowPointsTo.Quiescence | include/MemoryModel/MutablePointsToDS.h:618-725 | without OUT flags all store edges have carried everything; without IN flags at stores everything has passed through |
| DataFlowPointsTo.WorklistQuiescence | lib/WPA/FlowSensitive.cpp:150-157 | when nothing but loads is left on the worklist every edge of the graph has carried everything |
| DataFlowPointsTo.RunEdgesHold | include/WPA/WPASolver.h:134-143 | over every run only locations on the worklist have edges left to serve |
| DataFlowPointsTo.OwnUpdateConsistent | include/MemoryModel/MutablePointsToDS.h:640-652 | a store consuming its own flag keeps the invariant |
| DataFlowPointsTo.ForeignUpdateIsHarmless | include/MemoryModel/MutablePointsToDS.h:640-652 | a flag consumed by another location is harmless exactly when the set has passed through |
| DataFlowPointsTo.JoinAllAdd | include/MemoryModel/MutablePointsToDS.h:432-450 | updating slot by slot in any order builds up the joint update and its report |
| DataFlowLaws.PlainGrowTop | include/MemoryModel/MutablePointsToDS.h:72-76 | the destination gains the set, nothing else changes |
| DataFlowLaws.PlainStore | include/MemoryModel/MutablePointsToDS.h:457-460 | OUT of the stored-to variable gains what the source points to, nothing else changes, and that is reported if new |
| DataFlowLaws.PlainPass | include/MemoryModel/MutablePointsToDS.h:432-450 | every variable passes except the singleton of a strong update, whose OUT stays |
| DataFlowLaws.PlainLoad | include/MemoryModel/MutablePointsToDS.h:452-455 | the destination gains the IN set, reported if new |
| DataFlowLaws.PlainPropagate | lib/WPA/FlowSensitive.cpp:150-157 | every successor slot an edge admits gains what the source sends, no other slot changes |
| DataFlowLaws.PlainConnect | lib/WPA/FlowSensitive.cpp:651-697 | the same for a new edge |
| DataFlowLaws.IncrementalStore | include/MemoryModel/MutablePointsToDS.h:704-712 | the same as the plain store, and the slot is flagged exactly if it grew |
| DataFlowLaws.IncrementalPass | include/MemoryModel/MutablePointsToDS.h:674-692 | flagged variables pass and lose their flag, a skipped singleton keeps both, and what grew is flagged |
| DataFlowLaws.IncrementalLoad | include/MemoryModel/MutablePointsToDS.h:694-702 | a flagged IN set is consumed into the destination |
| DataFlowLaws.IncrementalPropagate | lib/WPA/FlowSensitive.cpp:150-157 | flagged sets arrive at exactly the slots that edges admit, which are flagged if they grew; OUT flags of the location go |
| DataFlowLaws.PassCatchesUp | include/MemoryModel/MutablePointsToDS.h:674-692 | after a pass OUT contains IN for every variable that is not strongly updated |
| DataFlowLaws.StoreStays | include/MemoryModel/MutablePointsToDS.h:704-712 | a store's equation holds after the store and over every run until its source grows |
| DataFlowLaws.LoadStays | include/MemoryModel/MutablePointsToDS.h:694-702 | likewise for a load until its IN set grows |
| FlowSensitiveData.MutableDFPTData.UpdateAllDFOutFromIn | include/MemoryModel/MutablePointsToDS.h:432-450 | the plain step, its sets and its report |
| FlowSensitiveData.MutableDFPTData.PropagateNode | lib/WPA/FlowSensitive.cpp:318-372 | sends every guarded set over every edge |
| FlowSensitiveData.MutableIncDFPTData.UpdateDFOutFromIn | include/MemoryModel/MutablePointsToDS.h:640-652 | consumes the flag, and flags OUT if it grew |
| FlowSensitiveData.MutableIncDFPTData.UpdateAllDFOutFromIn | include/MemoryModel/MutablePointsToDS.h:674-692 | the incremental step, its flags and its report |
| FlowSensitiveData.MutableIncDFPTData.UpdateTLVPts | include/MemoryModel/MutablePointsToDS.h:694-702 | a load consumes its flag and passes the set on |
| FlowSensitiveData.MutableIncDFPTData.UpdateATVPts | include/MemoryModel/MutablePointsToDS.h:704-712 | OUT of the stored-to variable gains the source's set, and is reported and flagged exactly if that is new |
| FlowSensitiveData.MutableIncDFPTData.ClearAllDFOutUpdatedVar | include/MemoryModel/MutablePointsToDS.h:714-725 | removes exactly the OUT flags of the location |
| FlowSensitiveData.MutableIncDFPTData.PropagateNode | lib/WPA/FlowSensitive.cpp:150-157 | sends flagged sets over every edge, then clears the OUT flags |
| FlowSensitiveData.MutableIncDFPTData.ConnectEdge | lib/WPA/FlowSensitive.cpp:651-697 | a new edge carries everything, flagged or not |
| FlowSensitiveData.MutableIncDFPTData.Execute | include/MemoryModel/MutablePointsToDS.h:618-725 | each step of a run, on the sets updated in place |
| PersistentFlowData.UnionJoins | include/MemoryModel/PersistentPointsToDS.h:517-616 | through ids, a set grows exactly when its id changes, and then by the joined set |
| PersistentFlowData.PersistentIncDFPTData.UpdateDFInFromIn | include/MemoryModel/PersistentPointsToDS.h:517-527 | moves a flagged set and flags its target if that grew |
| PersistentFlowData.PersistentIncDFPTData.UpdateDFInFromOut | include/MemoryModel/PersistentPointsToDS.h:529-539 | the same from an OUT set |
| PersistentFlowData.PersistentIncDFPTData.UpdateAllDFInFromIn | include/MemoryModel/PersistentPointsToDS.h:567-576 | moves a set whether flagged or not |
| PersistentFlowData.PersistentIncDFPTData.UpdateDFOutFromIn | include/MemoryModel/PersistentPointsToDS.h:541-554 | the same step on the denoted sets as the in-place form |
| PersistentFlowData.PersistentIncDFPTData.UpdateAllDFOutFromIn | include/MemoryModel/PersistentPointsToDS.h:578-594 | the incremental step, its flags and its report, over ids |
| PersistentFlowData.PersistentIncDFPTData.UpdateTLVPts | include/MemoryModel/PersistentPointsToDS.h:596-605 | a flagged IN set is consumed into the destination, on the denoted sets |
| PersistentFlowData.PersistentIncDFPTData.UpdateATVPts | include/MemoryModel/PersistentPointsToDS.h:607-616 | the same store on the denoted sets |
| PersistentFlowData.PersistentIncDFPTData.ClearAllDFOutUpdatedVar | include/MemoryModel/PersistentPointsToDS.h:618-628 | removes exactly the OUT flags of the location |
| PersistentFlowData.PersistentIncDFPTData.PropagateNode | lib/WPA/FlowSensitive.cpp:150-157 | sends flagged sets over every edge through ids, then clears the OUT flags |
| PersistentFlowData.PersistentIncDFPTData.ConnectEdge | lib/WPA/FlowSensitive.cpp:651-697 | a new edge carries everything through ids |
| PersistentFlowData.Simulate | include/MemoryModel/PersistentPointsToDS.h:517-628 | over every sequence of steps, as long as ids are left, both incremental forms hold equal sets and flags, report equal changes, and end where the run on values ends |
| LocksetFlow.MarkOwn | include/MTA/LockAnalysis.h:335-351 | taking foreign locks from an acquire takes its own too, so its next visit propagates |
| LocksetFlow.MarkNested | include/MTA/LockAnalysis.h:335-367 | whoever holds a lock holds all that was held at its acquire |
| LocksetFlow.MarkCarriesUnlessLost | include/MTA/LockAnalysis.h:335-351 | marking keeps lockset containment on all edges exactly when it does not fill a waiting statement without an entry |
| LocksetFlow.MarkHeldCarried | include/MTA/LockAnalysis.h:335-351 | marking keeps: done statements that hold something pass on to every successor all it may hold, whatever has been lost elsewhere |
| LocksetFlow.VisitTurns | lib/MTA/LockAnalysis.cpp:356-371 | every visited acquire propagates, no release does |
| LocksetFlow.VisitKeepsInv | lib/MTA/LockAnalysis.cpp:341-384 | one visit keeps all invariants |
| LocksetFlow.AlwaysInv | lib/MTA/LockAnalysis.cpp:329-386 | so they hold at every moment of every run |
| LocksetFlow.VisitProgress | lib/MTA/LockAnalysis.cpp:341-384 | five measures decrease lexicographically with every visit |
| LocksetFlow.OnlyMustIffNothingGained | lib/MTA/LockAnalysis.cpp:329-386 | a finished run holds must-locks only exactly if no statement without locks has a successor with a foreign lock |
| LocksetFlow.UniformGainsNothing | lib/MTA/LockAnalysis.cpp:329-386 | no order of visits produces such a successor in a program where statements without a must-lock lead only to statements that no way reaches through a foreign acquire |
| LocksetFlow.LocksetsAreMust | lib/MTA/LockAnalysis.cpp:329-386 | a finished run knows exactly the reachable statements and holds every must-lock; when it holds no other |
| LocksetFlow.LostOnDiamond | include/MTA/LockAnalysis.h:335-344 | a run that ends with a lock not held on all ways |
| LockAnalysis.LockAnalysis.AddCxtStmtToSpan | include/MTA/LockAnalysis.h:211-215 | lockset and span grow together; reports new locks |
| LockAnalysis.LockAnalysis.RemoveCxtStmtToSpan | include/MTA/LockAnalysis.h:217-226 | removes the pair from both maps, or changes nothing |
| LockAnalysis.LockAnalysis.Intersect | include/MTA/LockAnalysis.h:352-367 | the intersection, and whether anything was removed; spans are left alone |
| LockAnalysis.LockAnalysis.MarkCxtStmtFlag | include/MTA/LockAnalysis.h:335-351 | the marking step |
| LockAnalysis.LockAnalysis.HandleNext | lib/MTA/LockAnalysis.cpp:500-513 | marks all successors in order |
| LockAnalysis.LockAnalysis.VisitNext | lib/MTA/LockAnalysis.cpp:341-384 | one visit of the worklist's first statement |
| LockAnalysis.LockAnalysis.AnalyzeLockSpanCxtStmt | lib/MTA/LockAnalysis.cpp:329-386 | the analysis ends; reachable statements, all must-locks, exactly when no others, and spans containing every holder |
| KernelConfig.Parser.BuildRevMap | kernel-config-parser.py:46-53 | exactly the mentioned options are keys; each lists exactly, and once, the options that need it |
| KernelConfig.Parser.FindTransitiveDepCount | kernel-config-parser.py:55-67 | ends, whenever the loop can end, with the direct dependents plus all chains of dependents plus those of them that end in an option without an entry; fails for unknown options |
| KernelConfig.EndsIffAcyclic | kernel-config-parser.py:55-67 | the stack empties exactly if the option neither decides itself nor decides an option that does |
| KernelConfig.CyclicNeverEnds | kernel-config-parser.py:59-66 | otherwise it is nonempty after every number of pops |
| KernelConfig.TwoCycleNeverEnds | kernel-config-parser.py:59-66 | two options that depend on each other |
| KernelConfig.FewerDependents | kernel-config-parser.py:59-66 | along the reverse map fewer and fewer options are decided |
| KernelConfig.DecidedConcat | kernel-config-parser.py:59-66 | weight and remaining pops of a stack are the sums over its parts |
| KernelConfig.DependentsAreDecided | kernel-config-parser.py:55-67 | the distinct dependents are the ends of chains of dependencies |
| KernelConfig.RoutesMeaning | kernel-config-parser.py:59-66 | the chains counted are exactly the nonempty choices of listed dependents, one after the other |
| KernelConfig.CountIsRoutes | kernel-config-parser.py:55-67 | the count in terms of these chains |
| KernelConfig.LeafCountsThree | kernel-config-parser.py:55-67 | an option with one dependent, on which nothing depends, counts three |
| KernelConfig.CountMatchesOnlyWithoutDependents | kernel-config-parser.py:55-67 | the count is at least the number of dependents, and equal exactly when there are none |

## Left out

- Indirect calls: the call graph and the value-flow graph are static, so the recomputation for new call edges has nothing to do and `resolveFunPtr` is absent.
- `handleBKCondition` and context items: every edge is feasible, as in the flow-sensitive instantiation; contexts are not modelled. With sets kept by item, `Graph.andersen` stands for whatever an abandoned query falls back to; in `ContextDDA` that is an answer of `FlowDDA`.
- `isMustAlias`: the default, which declines.
- DDAVFSolver.Solver.AnswerQueries: where a shared set is read, the least solution is not claimed as a lower bound of the answers, because `CallsStopEarly` and `PhisStopEarly` refute it. That no two nodes stand for one pointer is sufficient, not necessary. A necessary and sufficient condition is given on the final state only (`ExactIffSolved`), because on one and the same graph the queries asked before decide (`PhisDependsOnHistory`).
- `processGepPts` may turn an object field-insensitive as a side effect; field derivation is a fixed function of node and object here.
- Map entries that C++ lookups insert with default values are not observable and are not recorded, except in the lockset map, where they matter.
- Graph well-formedness (operand edges, edge kinds) is a precondition where the source asserts it.
- SolverQueries.AnswersBetween: soundness of the pre-analysis on the items that occur is a hypothesis; Andersen's analysis itself is not modelled.
- `PersistentPointsToCache::reset` and `clear`: raw memory handling.
- `clear` of the difference and flow-sensitive structures: the mutable versions keep their other maps, so the forms differ there.
- `PersistentDFPTData`: the plain form over ids is the incremental one without its flags; only the incremental one is modelled over ids.
- Locations and variables are flattened to slots; nested maps of the flow-sensitive structures are not distinguished from flat ones.
- Field-insensitive objects' field sets in `propAlongIndirectEdge` count as part of the edge's guard; SCC representatives are the nodes themselves.
- The per-statement processing of the flow-sensitive solver appears as a sequence of actions in any order; which action a statement triggers is not modelled.
- LocksetFlow.Visit: contexts are part of a statement's identity and the successor lists are given; matching of call strings, recursion limits and the intraprocedural lock analysis are not modelled. Acquires are calls, not block terminators, and no edge leads to an entry.
- LocksetFlow.LocksetsAreMust: the converse of the span property is not claimed, because `intersect` leaves spans alone.
- KernelConfig.Parser.FindTransitiveDepCount: acyclicity from the queried option on is a precondition of the method, because the loop never ends without it; parsing of files is not modelled.
- `TCT::getAncestorThread`, `Versioned` data structures, SABER and the remaining analyses would add easier members or lie outside these components.
- Timing, statistics other than the cache's counters, dumps and debug output.
