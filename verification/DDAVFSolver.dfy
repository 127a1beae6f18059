// The demand-driven solver: findPT and its helpers, which update the visited set, the points-to
// caches and the per-query maps in place. Sets of top-level pointers are kept either by item, apart
// from the answers, or by variable in the map of the answers itself.
module DDAVFSolver {
  import opened ValueFlowGraph
  import opened LeastSolution
  import opened SolverState
  import opened SolverFrames
  import opened SolverQueries

  class Solver {
    const g: Net
    const maxBudget: nat

    var backwardVisited: set<Item>
    var dpmToTLCPtSet: Cache
    var dpmToADCPtSet: Cache
    var locToDpmSet: map<NodeId, set<Item>>
    var dpmToLoadDpm: map<Item, Item>
    var loadToPTCVar: map<Item, VarId>
    var outOfBudgetQuery: bool
    var numOfStep: nat
    var outOfBudgetDpms: set<Item>
    var ptsMap: map<VarId, set<VarId>>   // the results handed to the client

    ghost var st: State                   // the fields above as one value

    ghost predicate Shape()
      reads this
    {
      && st.visited == backwardVisited && st.registered == Registered(locToDpmSet)
      && st.cache == TopLevelSets() + dpmToADCPtSet
      && st.loadVar == loadToPTCVar && st.loadDpm == dpmToLoadDpm
      && st.answers == (if g.byVariable then map[] else ptsMap)
      && st.fallback == outOfBudgetDpms && st.outOfBudget == outOfBudgetQuery
      && (outOfBudgetQuery <==> numOfStep > maxBudget)
      && Located() && Keyed()
    }

    ghost predicate Located()
      reads `locToDpmSet
    {
      forall n, x :: n in locToDpmSet && x in locToDpmSet[n] ==> x.loc == n
    }

    ghost predicate Keyed()
      reads `dpmToTLCPtSet, `dpmToADCPtSet
    {
      && (forall i :: i in dpmToTLCPtSet ==> i.loc in g.kind && g.kind[i.loc].TopLevel())
      && (forall i :: i in dpmToADCPtSet ==> i.loc in g.kind && !g.kind[i.loc].TopLevel())
    }

    // What the state says about the fields that calls look at.
    lemma ShapeFacts()
      requires Shape()
      ensures st.visited == backwardVisited && st.registered == Registered(locToDpmSet)
      ensures st.loadVar == loadToPTCVar && st.loadDpm == dpmToLoadDpm
      ensures st.fallback == outOfBudgetDpms && st.outOfBudget == outOfBudgetQuery
      ensures forall n, x :: n in locToDpmSet && x in locToDpmSet[n] ==> x.loc == n
    {
    }

    ghost function TopLevelSets(): Cache
      reads `ptsMap, `dpmToTLCPtSet
    {
      if g.byVariable then Spread(g, ptsMap) else dpmToTLCPtSet
    }

    // Every call either adds a fact to the caches or marks an item; these two numbers, in this
    // order, decrease along every chain of calls although recomputation clears visited flags.
    ghost function Free(): nat
      reads this
    {
      Capacity(g, st.cache)
    }

    ghost function Unvisited(): nat
      reads this
    {
      Fresh(g, st.visited)
    }

    function GetCachedPointsTo(dpm: Item): (pts: set<VarId>)
      requires Shape() && dpm in g.Items
      reads this
      ensures pts == At(st.cache, dpm)
    {
      if g.kind[dpm.loc].TopLevel() then GetCachedTLPointsTo(dpm) else At(dpmToADCPtSet, dpm)
    }

    function GetCachedTLPointsTo(dpm: Item): (pts: set<VarId>)
      requires Shape() && dpm in g.Items && g.kind[dpm.loc].TopLevel()
      reads this
      ensures pts == At(st.cache, dpm)
    {
      if g.byVariable then GetPts(dpm.cur) else At(dpmToTLCPtSet, dpm)
    }

    // What the client is told about v.
    function GetPts(v: VarId): set<VarId>
      reads `ptsMap
    {
      if v in ptsMap then ptsMap[v] else {}
    }

    // ---- visited flags, registration, load records, budget ----

    method MarkEntered(dpm: Item)
      requires Shape() && dpm !in backwardVisited
      modifies `backwardVisited, `locToDpmSet, `st
      ensures Shape() && st == Enter(old(st), dpm)
    {
      backwardVisited := backwardVisited + {dpm};
      var here := if dpm.loc in locToDpmSet then locToDpmSet[dpm.loc] else {};
      RegisterAdds(locToDpmSet, dpm);
      locToDpmSet := locToDpmSet[dpm.loc := here + {dpm}];
      st := Enter(st, dpm);
    }

    method TestOutOfBudget(dpm: Item) returns (exhausted: bool)
      requires Shape()
      modifies `numOfStep, `outOfBudgetQuery, `st
      ensures Shape() && st == old(st).(outOfBudget := outOfBudgetQuery)
      ensures old(outOfBudgetQuery) ==> outOfBudgetQuery
      ensures exhausted <==> outOfBudgetQuery || dpm in outOfBudgetDpms
      ensures outOfBudgetQuery <==> old(outOfBudgetQuery) || old(numOfStep) >= maxBudget
      ensures numOfStep == if old(outOfBudgetQuery) then old(numOfStep) else old(numOfStep) + 1
    {
      if outOfBudgetQuery {
        return true;
      }
      numOfStep := numOfStep + 1;
      if numOfStep > maxBudget {
        outOfBudgetQuery := true;
        st := st.(outOfBudget := true);
      }
      return dpm in outOfBudgetDpms || outOfBudgetQuery;
    }

    method AddLoadDpmAndCVar(dpm: Item, loadDpm: Item, loadVar: VarId, ghost dirty: set<Item>)
      requires Shape() && Inv(g, st, dirty) && loadVar == dpm.cur
      requires loadDpm.loc in g.kind && g.kind[loadDpm.loc].Load?
      modifies `dpmToLoadDpm, `loadToPTCVar, `st
      ensures Shape() && st == RecordLoad(old(st), dpm, loadDpm, loadVar)
      ensures Inv(g, st, dirty) && Step(g, old(st), st, dirty)
    {
      hide Inv, Step, TopLevelSets, Keyed, Capacity, Fresh, Registered, WellFormed;
      RecordLoadKeepsInv(g, st, dirty, dpm, loadDpm);
      RecordLoadIsStep(g, st, dirty, dpm, loadDpm);
      loadToPTCVar, dpmToLoadDpm := loadToPTCVar[dpm := loadVar], dpmToLoadDpm[dpm := loadDpm];
      st := RecordLoad(st, dpm, loadDpm, loadVar);
    }

    // The item for v at the location of oldDpm, with its load record.
    method GetDPImWithOldCond(oldDpm: Item, v: VarId, ghost dirty: set<Item>) returns (dpm: Item)
      requires Shape() && Inv(g, st, dirty) && oldDpm in g.Items && v in g.vars
      requires g.kind[oldDpm.loc].Load? || (g.kind[oldDpm.loc].Store? && oldDpm in loadToPTCVar)
      modifies `dpmToLoadDpm, `loadToPTCVar, `st
      ensures Shape() && Inv(g, st, dirty) && Step(g, old(st), st, dirty)
      ensures st.cache == old(st).cache && st.visited == old(st).visited && st.outOfBudget == old(st).outOfBudget
      ensures dpm == Item(v, oldDpm.loc) && dpm in loadToPTCVar
    {
      hide Inv, Step, Shape, Capacity, Fresh, WellFormed;
      ShapeFacts();
      InvFacts(g, st, dirty);
      dpm := Item(v, oldDpm.loc);
      if g.kind[dpm.loc].Store? {
        AddLoadDpmAndCVar(dpm, dpmToLoadDpm[oldDpm], v, dirty);
      } else {
        AddLoadDpmAndCVar(dpm, oldDpm, v, dirty);
      }
      ShapeFacts();
    }

    // ---- backward tracing ----

    // Evaluates the item for ptr at the source of edge and unions its cached set into pts.
    method BackwardPropDpm(pts0: set<VarId>, ptr: VarId, oldDpm: Item, edge: Edge, ghost dirty: set<Item>)
      returns (pts: set<VarId>)
      requires Shape() && Inv(g, st, dirty)
      requires edge in g.edges && ptr in g.vars
      requires edge.Direct? ==> edge.src in g.lhs && ptr == g.lhs[edge.src]
      requires edge.Indirect? ==> ptr == oldDpm.cur && oldDpm in loadToPTCVar
      modifies this
      ensures Shape()
      ensures Inv(g, st, dirty) && Step(g, old(st), st, dirty)
      ensures Free() <= old(Free()) && Unvisited() <= old(Unvisited())
      ensures Item(ptr, edge.src) in st.visited
      ensures pts == pts0 + At(st.cache, Item(ptr, edge.src))
      decreases Free(), Unvisited(), 2
    {
      hide Inv, Step, Shape, Capacity, Fresh, WellFormed;
      ShapeFacts();
      EdgeFacts(g);
      var dpm := Item(ptr, edge.src);
      ghost var s := st;
      StepReflexive(g, s, dirty);
      if edge.Indirect? {
        InvFacts(g, s, dirty);
        AddLoadDpmAndCVar(dpm, dpmToLoadDpm[oldDpm], loadToPTCVar[oldDpm], dirty);
      }
      ghost var t := st;
      EnterAny(g, s, t, dirty, dpm);
      var found := FindPT(dpm, dirty);
      StepTransitive(g, s, Enter(t, dpm), st, dirty);
      pts := pts0 + found;
    }

    method FindPT(dpm: Item, ghost dirty: set<Item>) returns (pts: set<VarId>)
      requires Shape() && dpm in g.Items
      requires Inv(g, Enter(st, dpm), Entering(st, dirty, dpm))
      modifies this
      ensures Shape()
      ensures Inv(g, st, Leaving(old(st), dirty, dpm))
      ensures Step(g, Enter(old(st), dpm), st, Leaving(old(st), dirty, dpm))
      ensures Free() <= old(Free())
      ensures Unvisited() <= old(Unvisited()) - if dpm in old(st).visited then 0 else 1
      ensures dpm in st.visited && pts == At(st.cache, dpm)
      ensures dpm !in old(st).visited && !st.outOfBudget ==> Transfer(g, old(st).cache, dpm) <= At(st.cache, dpm)
      ensures if dpm in old(st).visited then st == old(st) else dpm in st.registered
      decreases Free(), Unvisited(), 1
    {
      hide Inv, Step, Shape, Capacity, Fresh, WellFormed;
      ShapeFacts();
      if dpm in backwardVisited {
        assert Enter(st, dpm) == st;
        StepReflexive(g, st, dirty);
        return GetCachedPointsTo(dpm);
      }
      VisitOne(g, st.visited, dpm);
      MarkEntered(dpm);
      ghost var s := st;
      var exhausted := TestOutOfBudget(dpm);
      if !exhausted {
        pts := HandleSingleStatement(dpm, dirty + {dpm});
        ghost var t := st;
        UpdateCachedPointsTo(dpm, pts, dirty + {dpm});
        assert (dirty + {dpm}) - {dpm} == dirty - {dpm};
        StepCompose(g, s, t, st, dirty + {dpm}, dirty - {dpm});
        StepFacts(g, s, st, dirty - {dpm});
      } else {
        InvFacts(g, s, dirty + {dpm});
        Exhaust(g, s, dirty + {dpm}, dirty - {dpm});
      }
      pts := GetCachedPointsTo(dpm);
    }

    // Unions into pts the cached sets of everything that flows into oldDpm directly.
    method BacktraceAlongDirectVF(pts0: set<VarId>, oldDpm: Item, ghost dirty: set<Item>) returns (pts: set<VarId>)
      requires Shape() && oldDpm in g.Items && Inv(g, st, dirty) && oldDpm in dirty
      modifies this
      ensures Shape() && Inv(g, st, dirty) && Step(g, old(st), st, dirty)
      ensures Free() <= old(Free()) && Unvisited() <= old(Unvisited())
      ensures Tracing(g, old(st).cache, st, oldDpm, DirectReads(g, oldDpm.loc), DirectReads(g, oldDpm.loc), pts0, pts)
      decreases Free(), Unvisited(), 5
    {
      hide Inv, Step, Tracing, Triggers, Shape, Capacity, Fresh, WellFormed;
      ShapeFacts();
      ghost var s := st;
      ghost var sources := DirectReads(g, oldDpm.loc);
      ghost var done: set<Item> := {};
      var edges := set e | e in g.edges && e.dst == oldDpm.loc;
      pts := pts0;
      DirectTriggers(g, oldDpm);
      EdgeFacts(g);
      StepReflexive(g, s, dirty);
      TraceBegins(g, s, oldDpm, sources, pts);
      while edges != {}
        invariant Shape() && edges <= g.edges && forall e :: e in edges ==> e.dst == oldDpm.loc
        invariant Inv(g, st, dirty) && Step(g, s, st, dirty)
        invariant Tracing(g, s.cache, st, oldDpm, sources, done, pts0, pts)
        invariant done <= sources
        invariant forall e :: e in g.edges && e.Direct? && e.dst == oldDpm.loc && e !in edges ==>
                    DirectItem(g, e) in done
        invariant Free() <= old(Free()) && Unvisited() <= old(Unvisited())
        decreases edges
      {
        var edge :| edge in edges;
        edges := edges - {edge};
        if edge.Direct? {
          ghost var t, before := st, pts;
          pts := BackwardPropDpm(pts, g.lhs[edge.src], oldDpm, edge, dirty);
          TraceOne(g, s.cache, t, st, dirty, oldDpm, sources, done, pts0, before, DirectItem(g, edge));
          StepTransitive(g, s, t, st, dirty);
          done := done + {DirectItem(g, edge)};
        }
      }
      assert done == sources;
    }

    // Unions into pts the cached sets of everything that flows into oldDpm through memory. The
    // frame this is done for is on the same statement, and at loads possibly on another object.
    method BacktraceAlongIndirectVF(pts0: set<VarId>, oldDpm: Item, ghost frame: Item, ghost dirty: set<Item>)
      returns (pts: set<VarId>)
      requires Shape() && oldDpm.cur in g.vars && oldDpm in loadToPTCVar
      requires Inv(g, st, dirty) && frame in g.Items && frame in dirty && frame.loc == oldDpm.loc
      requires g.kind[frame.loc].Load? || frame.cur == oldDpm.cur
      modifies this
      ensures Shape() && Inv(g, st, dirty) && Step(g, old(st), st, dirty)
      ensures Free() <= old(Free()) && Unvisited() <= old(Unvisited())
      ensures var sources := IndirectReads(g, oldDpm.loc, oldDpm.cur);
              Tracing(g, old(st).cache, st, frame, sources, sources, pts0, pts)
      decreases Free(), Unvisited(), 5
    {
      hide Inv, Step, Tracing, Triggers, Shape, Capacity, Fresh, WellFormed;
      ShapeFacts();
      ghost var s := st;
      var obj := oldDpm.cur;
      ghost var sources := IndirectReads(g, oldDpm.loc, obj);
      ghost var done: set<Item> := {};
      pts := pts0;
      IndirectTriggers(g, frame, obj);
      StepReflexive(g, s, dirty);
      TraceBegins(g, s, frame, sources, pts);
      if obj in g.noPointer {
        assert sources == {};
        return;
      }
      var edges := set e | e in g.edges && e.dst == oldDpm.loc;
      while edges != {}
        invariant Shape() && edges <= g.edges && forall e :: e in edges ==> e.dst == oldDpm.loc
        invariant Inv(g, st, dirty) && Step(g, s, st, dirty) && oldDpm in loadToPTCVar
        invariant Tracing(g, s.cache, st, frame, sources, done, pts0, pts)
        invariant done <= sources
        invariant forall e :: e in g.edges && e.Indirect? && e.dst == oldDpm.loc && obj in e.guard && e !in edges ==>
                    Item(obj, e.src) in done
        invariant Free() <= old(Free()) && Unvisited() <= old(Unvisited())
        decreases edges
      {
        var edge :| edge in edges;
        edges := edges - {edge};
        if edge.Indirect? && obj in edge.guard {
          ghost var t, before := st, pts;
          assert Item(obj, edge.src) in sources;
          pts := BackwardPropDpm(pts, obj, oldDpm, edge, dirty);
          TraceOne(g, s.cache, t, st, dirty, frame, sources, done, pts0, before, Item(obj, edge.src));
          StepTransitive(g, s, t, st, dirty);
          StepFacts(g, s, st, dirty);
          ShapeFacts();
          done := done + {Item(obj, edge.src)};
        }
      }
      assert done == sources;
    }

    // Evaluates the defining item of an operand v of the statement at oldDpm.
    method BacktraceToOperand(pts0: set<VarId>, v: VarId, oldDpm: Item, ghost dirty: set<Item>)
      returns (pts: set<VarId>)
      requires Shape() && OperandEdge(g, v, oldDpm.loc) && Inv(g, st, dirty)
      modifies this
      ensures Shape() && Inv(g, st, dirty) && Step(g, old(st), st, dirty)
      ensures Free() <= old(Free()) && Unvisited() <= old(Unvisited())
      ensures DefItem(g, v) in st.visited && pts == pts0 + At(st.cache, DefItem(g, v))
      decreases Free(), Unvisited(), 3
    {
      pts := BackwardPropDpm(pts0, v, oldDpm, Direct(g.def[v], oldDpm.loc), dirty);
    }

    method HandleLoad(dpm: Item, ghost dirty: set<Item>) returns (pts: set<VarId>)
      requires Shape() && dpm in g.Items && g.kind[dpm.loc].Load? && Inv(g, st, dirty) && dpm in dirty
      modifies this
      ensures Shape() && Inv(g, st, dirty) && Step(g, old(st), st, dirty)
      ensures Free() <= old(Free()) && Unvisited() <= old(Unvisited())
      ensures Evaluated(g, st, dpm, pts) && Transfer(g, old(st).cache, dpm) <= pts
      decreases Free(), Unvisited(), 7
    {
      hide Inv, Step, Tracing, Dereferencing, Evaluated, Triggers, Shape, Capacity, Fresh, WellFormed;
      ShapeFacts();
      ghost var s := st;
      ghost var ptr := LoadPtr(g, dpm);
      OperandFacts(g, dpm.loc);
      OperandTriggers(g, g.kind[dpm.loc].ptr, dpm);
      var loadpts := BacktraceToOperand({}, g.kind[dpm.loc].ptr, dpm, dirty);
      StepFacts(g, s, st, dirty);
      pts := {};
      DereferenceBegins(g, s.cache, st, dpm, ptr, loadpts);
      ghost var done: set<VarId> := {};
      var todo := loadpts;
      assert LoadReads(g, dpm.loc, done) == {};
      while todo != {}
        invariant Shape() && Inv(g, st, dirty) && Step(g, s, st, dirty)
        invariant todo <= loadpts && done == loadpts - todo
        invariant Dereferencing(g, s.cache, st, dpm, ptr, loadpts, LoadReads(g, dpm.loc, done), pts)
        invariant Free() <= old(Free()) && Unvisited() <= old(Unvisited())
        decreases todo
      {
        var o :| o in todo;
        pts := HandleLoadTarget(dpm, o, loadpts, pts, done, s, dirty);
        todo := todo - {o};
        done := done + {o};
      }
      assert done == loadpts;
      LoadEvaluated(g, s.cache, st, dpm, loadpts, pts);
    }

    // One object that the pointer operand of a load may point to.
    method HandleLoadTarget(dpm: Item, o: VarId, ghost loadpts: set<VarId>, pts0: set<VarId>,
                            ghost done: set<VarId>, ghost s: State, ghost dirty: set<Item>)
      returns (pts: set<VarId>)
      requires Shape() && dpm in g.Items && g.kind[dpm.loc].Load?
      requires Inv(g, st, dirty) && dpm in dirty && Step(g, s, st, dirty)
      requires o in loadpts
      requires Dereferencing(g, s.cache, st, dpm, LoadPtr(g, dpm), loadpts, LoadReads(g, dpm.loc, done), pts0)
      modifies this
      ensures Shape() && Inv(g, st, dirty) && Step(g, s, st, dirty)
      ensures Free() <= old(Free()) && Unvisited() <= old(Unvisited())
      ensures Dereferencing(g, s.cache, st, dpm, LoadPtr(g, dpm), loadpts, LoadReads(g, dpm.loc, done + {o}), pts)
      decreases Free(), Unvisited(), 6
    {
      hide Inv, Step, Tracing, Dereferencing, Triggers, Shape, Capacity, Fresh, WellFormed;
      ShapeFacts();
      ghost var t := st;
      DereferencedIsObject(g, s.cache, t, dirty, dpm, LoadPtr(g, dpm), loadpts,
                           LoadReads(g, dpm.loc, done), pts0, o);
      var objDpm := GetDPImWithOldCond(dpm, o, dirty);
      ghost var t' := st;
      pts := BacktraceAlongIndirectVF(pts0, objDpm, dpm, dirty);
      StepTransitive(g, t, t', st, dirty);
      StepTransitive(g, s, t, st, dirty);
      LoadTargetDone(g, s.cache, t, st, dirty, dpm, loadpts, done, o, pts0, pts);
    }

    method HandleStore(dpm: Item, ghost dirty: set<Item>) returns (pts: set<VarId>)
      requires Shape() && dpm in g.Items && g.kind[dpm.loc].Store? && dpm in loadToPTCVar
      requires dpm in dirty && Inv(g, st, dirty)
      modifies this
      ensures Shape() && Inv(g, st, dirty) && Step(g, old(st), st, dirty)
      ensures Free() <= old(Free()) && Unvisited() <= old(Unvisited())
      ensures Evaluated(g, st, dpm, pts) && Transfer(g, old(st).cache, dpm) <= pts
      decreases Free(), Unvisited(), 8
    {
      hide Inv, Step, Tracing, Dereferencing, Evaluated, StoreReads, LetsThrough, Triggers, Shape, Capacity, Fresh,
        WellFormed;
      ShapeFacts();
      ghost var s := st;
      ghost var dst, src := StoreDst(g, dpm), StoreSrc(g, dpm);
      OperandFacts(g, dpm.loc);
      OperandTriggers(g, g.kind[dpm.loc].dst, dpm);
      var storepts := BacktraceToOperand({}, g.kind[dpm.loc].dst, dpm, dirty);
      StepFacts(g, s, st, dirty);
      pts := {};
      DereferenceBegins(g, s.cache, st, dpm, dst, storepts);
      ghost var done: set<VarId> := {};
      NoStoreReads(g, dpm, src, storepts);
      var todo := storepts;
      while todo != {}
        invariant Shape() && Inv(g, st, dirty) && Step(g, s, st, dirty) && dpm in loadToPTCVar
        invariant todo <= storepts && done == storepts - todo
        invariant Dereferencing(g, s.cache, st, dpm, dst, storepts, StoreReads(g, dpm, src, storepts, done), pts)
        invariant Free() <= old(Free()) && Unvisited() <= old(Unvisited())
        decreases todo
      {
        var o :| o in todo;
        ghost var t := st;
        pts := HandleStoreTarget(dpm, o, storepts, pts, done, s.cache, dirty);
        StepTransitive(g, s, t, st, dirty);
        StepFacts(g, s, st, dirty);
        ShapeFacts();
        todo := todo - {o};
        done := done + {o};
      }
      assert done == storepts;
      StoreEvaluated(g, s.cache, st, dpm, storepts, pts);
    }

    // One target of a store's destination. On the traced object the stored value flows in, and the
    // old value as well unless the update is strong; on other objects only the old value does.
    method HandleStoreTarget(dpm: Item, o: VarId, storepts: set<VarId>, pts0: set<VarId>,
                             ghost done: set<VarId>, ghost base: Cache, ghost dirty: set<Item>)
      returns (pts: set<VarId>)
      requires Shape() && dpm in g.Items && g.kind[dpm.loc].Store? && dpm in loadToPTCVar
      requires dpm in dirty && o in storepts
      requires Dereferencing(g, base, st, dpm, StoreDst(g, dpm), storepts,
                             StoreReads(g, dpm, StoreSrc(g, dpm), storepts, done), pts0)
      requires Inv(g, st, dirty)
      modifies this
      ensures Shape() && Inv(g, st, dirty) && Step(g, old(st), st, dirty)
      ensures Free() <= old(Free()) && Unvisited() <= old(Unvisited())
      ensures Dereferencing(g, base, st, dpm, StoreDst(g, dpm), storepts,
                            StoreReads(g, dpm, StoreSrc(g, dpm), storepts, done + {o}), pts)
      decreases Free(), Unvisited(), 7
    {
      hide Inv, Step, Tracing, Dereferencing, StoreReads, Triggers, Shape, Capacity, Fresh, WellFormed;
      ShapeFacts();
      ghost var s := st;
      ghost var src := StoreSrc(g, dpm);
      OperandFacts(g, dpm.loc);
      OperandTriggers(g, g.kind[dpm.loc].src, dpm);
      ghost var xs := StoreReads(g, dpm, src, storepts, done);
      InvFacts(g, s, dirty);
      StoreReadsTrigger(g, dpm, storepts, done);
      StoreReadsGrow(g, dpm, src, storepts, done, o);
      if o == loadToPTCVar[dpm] {
        pts := BacktraceToStoreSrc(pts0, dpm, storepts, xs, base, dirty);
        if !IsStrongUpdate(g, storepts) {
          ghost var t := st;
          pts := BacktracePastStore(pts, dpm, o, storepts, xs + {src}, base, dirty);
          StepTransitive(g, s, t, st, dirty);
        }
      } else {
        pts := BacktracePastStore(pts0, dpm, o, storepts, xs, base, dirty);
      }
    }

    method BacktraceToStoreSrc(pts0: set<VarId>, dpm: Item, ghost storepts: set<VarId>, ghost xs: set<Item>,
                               ghost base: Cache, ghost dirty: set<Item>)
      returns (pts: set<VarId>)
      requires Shape() && dpm in g.Items && g.kind[dpm.loc].Store? && dpm in loadToPTCVar
      requires dpm in dirty && dpm.cur in storepts
      requires forall x :: x in xs ==> Triggers(g, x, dpm)
      requires Dereferencing(g, base, st, dpm, StoreDst(g, dpm), storepts, xs, pts0)
      requires Inv(g, st, dirty)
      modifies this
      ensures Shape() && Inv(g, st, dirty) && Step(g, old(st), st, dirty) && dpm in loadToPTCVar
      ensures Free() <= old(Free()) && Unvisited() <= old(Unvisited())
      ensures Dereferencing(g, base, st, dpm, StoreDst(g, dpm), storepts,
                            xs + {StoreSrc(g, dpm)}, pts)
      decreases Free(), Unvisited(), 6
    {
      hide Inv, Step, Dereferencing, Triggers, Shape, Capacity, Fresh, WellFormed;
      ShapeFacts();
      OperandFacts(g, dpm.loc);
      ghost var s := st;
      var objDpm := GetDPImWithOldCond(dpm, dpm.cur, dirty);
      ghost var t := st;
      pts := BacktraceToOperand(pts0, g.kind[dpm.loc].src, objDpm, dirty);
      StepTransitive(g, s, t, st, dirty);
      StepFacts(g, s, st, dirty);
      StoreSrcDone(g, base, s, st, dirty, dpm, storepts, xs, pts0);
    }

    method BacktracePastStore(pts0: set<VarId>, dpm: Item, o: VarId, ghost storepts: set<VarId>, ghost xs: set<Item>,
                              ghost base: Cache, ghost dirty: set<Item>)
      returns (pts: set<VarId>)
      requires Shape() && dpm in g.Items && g.kind[dpm.loc].Store? && dpm in loadToPTCVar
      requires dpm in dirty && o in storepts && LetsThrough(g, storepts, dpm.cur, o)
      requires forall x :: x in xs ==> Triggers(g, x, dpm)
      requires Dereferencing(g, base, st, dpm, StoreDst(g, dpm), storepts, xs, pts0)
      requires Inv(g, st, dirty)
      modifies this
      ensures Shape() && Inv(g, st, dirty) && Step(g, old(st), st, dirty)
      ensures Free() <= old(Free()) && Unvisited() <= old(Unvisited())
      ensures Dereferencing(g, base, st, dpm, StoreDst(g, dpm), storepts,
                            xs + IndirectReads(g, dpm.loc, dpm.cur), pts)
      decreases Free(), Unvisited(), 6
    {
      hide Inv, Step, Tracing, Dereferencing, Triggers, Shape, Capacity, Fresh, WellFormed;
      ShapeFacts();
      ghost var s := st;
      StepReflexive(g, s, dirty);
      var objDpm := dpm;
      if o == dpm.cur {
        objDpm := GetDPImWithOldCond(dpm, o, dirty);
      }
      ghost var t := st;
      pts := BacktraceAlongIndirectVF(pts0, objDpm, dpm, dirty);
      StepTransitive(g, s, t, st, dirty);
      StoreOldDone(g, base, s, st, dirty, dpm, storepts, o, xs, pts0, pts);
    }

    method HandleSingleStatement(dpm: Item, ghost dirty: set<Item>) returns (pts: set<VarId>)
      requires Shape() && dpm in g.Items && Inv(g, st, dirty) && dpm in dirty
      modifies this
      ensures Shape() && Inv(g, st, dirty) && Step(g, old(st), st, dirty)
      ensures Free() <= old(Free()) && Unvisited() <= old(Unvisited())
      ensures Evaluated(g, st, dpm, pts) && Transfer(g, old(st).cache, dpm) <= pts
      decreases Free(), Unvisited(), 9
    {
      hide Inv, Step, Tracing, Evaluated, Shape, Capacity, Fresh, WellFormed;
      ShapeFacts();
      InvFacts(g, st, dirty);
      match g.kind[dpm.loc]
      case Addr(obj) =>
        pts := {obj};
        StepReflexive(g, st, dirty);
        AddrEvaluated(g, st, dpm);
      case Copy =>
        pts := BacktraceAlongDirectVF({}, dpm, dirty);
        CopyEvaluated(g, old(st).cache, st, dpm, pts);
      case Gep =>
        var gepPts := BacktraceAlongDirectVF({}, dpm, dirty);
        pts := Fields(g, dpm.loc, gepPts);
        GepEvaluated(g, old(st).cache, st, dpm, gepPts);
      case Load(_) =>
        pts := HandleLoad(dpm, dirty);
      case Store(_, _) =>
        var _ := dpmToLoadDpm[dpm];   // recorded for every store item; the default must-alias hook declines it
        pts := HandleStore(dpm, dirty);
      case MemRegion =>
        pts := BacktraceAlongIndirectVF({}, dpm, dpm, dirty);
        MemRegionEvaluated(g, old(st).cache, st, dpm, pts);
    }

    // Stores a larger set for a top-level pointer, by item or by variable.
    method StoreTopLevel(dpm: Item, pts: set<VarId>)
      requires Shape() && dpm in g.Items && g.kind[dpm.loc].TopLevel() && !(pts <= At(st.cache, dpm))
      modifies `dpmToTLCPtSet, `ptsMap, `st
      ensures Shape() && st == Grow(g, old(st), dpm, pts)
    {
      hide WellFormed, Missed, Mates, Stored, Spread, Registered, Located;
      var larger := GetCachedTLPointsTo(dpm) + pts;
      ghost var grown := Grow(g, st, dpm, pts);
      if g.byVariable {
        StoreByVariable(g, ptsMap, dpmToADCPtSet, dpm, larger);
        ptsMap, st := ptsMap[dpm.cur := larger], grown;
      } else {
        NoMates(g, dpm);
        StoreLeft(g, dpmToTLCPtSet, dpmToADCPtSet, dpm, larger);
        dpmToTLCPtSet, st := dpmToTLCPtSet[dpm := larger], grown;
      }
    }

    // Unions pts into the cached set of dpm and says whether it grew.
    method UnionDDAPts(dpm: Item, pts: set<VarId>) returns (changed: bool)
      requires Shape() && dpm in g.Items
      modifies `dpmToTLCPtSet, `dpmToADCPtSet, `ptsMap, `st
      ensures Shape() && changed == !(pts <= At(old(st).cache, dpm))
      ensures st == if changed then Grow(g, old(st), dpm, pts) else old(st)
    {
      hide WellFormed, Missed, Mates, Stored, Registered, Located, TopLevelSets;
      var cached := GetCachedPointsTo(dpm);
      changed := !(pts <= cached);
      if changed {
        if g.kind[dpm.loc].TopLevel() {
          StoreTopLevel(dpm, pts);
        } else {
          NoMates(g, dpm);
          StoreRight(g, TopLevelSets(), dpmToADCPtSet, dpm, cached + pts);
          dpmToADCPtSet, st := dpmToADCPtSet[dpm := cached + pts], Grow(g, st, dpm, pts);
        }
      }
    }

    // Stores an evaluated set; if the cached set grew, every item that may read it is evaluated again.
    method UpdateCachedPointsTo(dpm: Item, pts: set<VarId>, ghost dirty: set<Item>)
      requires Shape() && dpm in g.Items && Inv(g, st, dirty) && dpm in dirty
      requires Evaluated(g, st, dpm, pts) ||
               (outOfBudgetQuery && forall j :: j in Mates(g, dpm) ==> pts <= At(SharedLeast(g, st.pinned), j))
      modifies this
      ensures Shape() && Inv(g, st, dirty - {dpm}) && Step(g, old(st), st, dirty - {dpm})
      ensures Free() <= old(Free()) && Unvisited() <= old(Unvisited())
      ensures pts <= At(st.cache, dpm)
      ensures !(pts <= At(old(st).cache, dpm)) ==>
                Renewed(g, Grow(g, old(st), dpm, pts).cache, st, Triggered(g, old(st), dpm))
      decreases Free(), Unvisited(), 9
    {
      hide Inv, Step, Evaluated, Shape, Capacity, Fresh, WellFormed;
      ShapeFacts();
      ghost var s := st;
      var changed := UnionDDAPts(dpm, pts);
      ghost var t := st;
      if changed {
        GrowBegins(g, s, dirty, dpm, pts);
        ReCompute(dpm, dirty - {dpm});
        Recomputed(g, s, t, st, dirty - {dpm}, Triggered(g, s, dpm));
      } else {
        NoGrowth(g, s, dirty, dpm, pts);
      }
    }

    // Evaluates again the items of this query that the growth of dpm may affect.
    method ReCompute(dpm: Item, ghost base: set<Item>)
      requires Shape() && dpm in g.Items
      requires Inv(g, st, base + Triggered(g, st, dpm))
      modifies this
      ensures Shape() && Inv(g, st, base)
      ensures Step(g, old(st), st, base - Triggered(g, old(st), dpm))
      ensures Redone(g, st, base * Triggered(g, old(st), dpm))
      ensures Renewed(g, old(st).cache, st, Triggered(g, old(st), dpm))
      ensures Free() <= old(Free()) && Unvisited() <= old(Unvisited())
      ensures At(old(st).cache, dpm) <= At(st.cache, dpm)
      decreases Free(), |g.Items|, 4
    {
      hide Inv, Step, Redone, Renewed, Shape, Capacity, Fresh, WellFormed;
      ShapeFacts();
      ghost var s := st;
      ghost var first := Triggered(g, s, dpm);
      ghost var pending := first;
      var edges := set e | e in g.edges && e.src == dpm.loc;
      InvFacts(g, s, base + pending);
      StepReflexive(g, s, base - first);
      NothingRedone(g, s, base * first - pending);
      NothingRenewed(g, s.cache, s, first - pending);
      while edges != {}
        invariant Shape() && edges <= g.edges && forall e :: e in edges ==> e.src == dpm.loc
        invariant Inv(g, st, base + pending)
        invariant forall x :: x in pending ==> exists e :: e in edges && TriggersVia(g, e, dpm, x)
        invariant Step(g, s, st, base - first) && Redone(g, st, base * first - pending)
        invariant Renewed(g, s.cache, st, first - pending)
        invariant Free() <= old(Free()) && Unvisited() <= old(Unvisited())
        decreases edges
      {
        var edge :| edge in edges;
        edges := edges - {edge};
        InvFacts(g, st, base + pending);
        ShapeFacts();
        if edge.dst in locToDpmSet {
          pending := ReComputeForEdge(dpm, edge, base, first, pending, s);
        } else {
          forall x | x in pending ensures !TriggersVia(g, edge, dpm, x) {
            assert x in Registered(locToDpmSet);
          }
        }
      }
      assert pending == {};
      assert base + pending == base && base * first - pending == base * first && first - pending == first;
      StepFacts(g, s, st, base - first);
    }

    // Evaluates again what is registered at the destination of one outgoing edge of dpm.
    method ReComputeForEdge(dpm: Item, edge: Edge, ghost base: set<Item>, ghost first: set<Item>,
                            ghost pending: set<Item>, ghost s: State)
      returns (ghost left: set<Item>)
      requires Shape() && dpm in g.Items && edge in g.edges && edge.src == dpm.loc && edge.dst in locToDpmSet
      requires base <= s.registered && first == Triggered(g, s, dpm)
      requires Inv(g, st, base + pending) && Step(g, s, st, base - first)
      requires Redone(g, st, base * first - pending) && Renewed(g, s.cache, st, first - pending)
      modifies this
      ensures Shape() && Inv(g, st, base + left) && Step(g, s, st, base - first)
      ensures Redone(g, st, base * first - left) && Renewed(g, s.cache, st, first - left)
      ensures left <= pending && forall x :: x in left ==> !TriggersVia(g, edge, dpm, x)
      ensures Free() <= old(Free()) && Unvisited() <= old(Unvisited())
      decreases Free(), |g.Items|, 3
    {
      hide Inv, Step, Redone, Renewed, Shape, Capacity, Fresh, WellFormed;
      ShapeFacts();
      InvFacts(g, st, base + pending);
      left := pending;
      var dpmSet := locToDpmSet[edge.dst];
      while dpmSet != {}
        invariant Shape() && dpmSet <= st.registered && forall x :: x in dpmSet ==> x.loc == edge.dst
        invariant Inv(g, st, base + left) && Step(g, s, st, base - first)
        invariant Redone(g, st, base * first - left) && Renewed(g, s.cache, st, first - left)
        invariant left <= pending && forall x :: x in left && TriggersVia(g, edge, dpm, x) ==> x in dpmSet
        invariant Free() <= old(Free()) && Unvisited() <= old(Unvisited())
        decreases dpmSet
      {
        var dstDpm :| dstDpm in dpmSet;
        dpmSet := dpmSet - {dstDpm};
        if edge.Indirect? && !g.kind[edge.dst].Load? {
          if dstDpm.cur == dpm.cur {
            assert TriggersVia(g, edge, dpm, dstDpm);
            ReComputeItem(dstDpm, base, first, left, s);
            left := left - {dstDpm};
          }
        } else {
          assert TriggersVia(g, edge, dpm, dstDpm);
          ReComputeItem(dstDpm, base, first, left, s);
          left := left - {dstDpm};
        }
      }
    }

    // Clears the visited flag of one dependent and evaluates it.
    method ReComputeItem(dstDpm: Item, ghost base: set<Item>, ghost first: set<Item>, ghost left: set<Item>,
                         ghost s: State)
      requires Shape() && dstDpm in st.registered && base <= s.registered
      requires dstDpm in s.registered ==> dstDpm in first
      requires first <= s.registered
      requires Inv(g, st, base + left) && Step(g, s, st, base - first)
      requires Redone(g, st, base * first - left) && Renewed(g, s.cache, st, first - left)
      modifies this
      ensures Shape() && Inv(g, st, base + (left - {dstDpm})) && Step(g, s, st, base - first)
      ensures Redone(g, st, base * first - (left - {dstDpm}))
      ensures Renewed(g, s.cache, st, first - (left - {dstDpm}))
      ensures Free() <= old(Free()) && Unvisited() <= old(Unvisited())
      ensures old(st).registered <= st.registered
      decreases Free(), |g.Items|, 2
    {
      hide Inv, Step, Redone, Renewed, Shape, Capacity, Fresh, WellFormed;
      ShapeFacts();
      ghost var t := st;
      ghost var dirty := base + left + {dstDpm};
      InvFacts(g, t, base + left);
      DirtyWiden(g, t, base + left, dirty);
      EnterCleared(t, dirty, dstDpm);
      UnvisitOne(g, t.visited, dstDpm);
      ClearBkVisited(dstDpm);
      var _ := FindPT(dstDpm, dirty);
      RedoOne(g, s, t, st, base, left, first, dstDpm);
      StepFacts(g, t, st, dirty - {dstDpm});
      StepFacts(g, s, t, base - first);
      RenewOne(g, s.cache, t, st, first, left, dstDpm);
    }

    method ClearBkVisited(dpm: Item)
      requires Shape() && dpm in backwardVisited
      modifies `backwardVisited, `st
      ensures Shape() && st == old(st).(visited := old(st).visited - {dpm})
    {
      backwardVisited := backwardVisited - {dpm};
      st := st.(visited := st.visited - {dpm});
    }

    // ---- queries ----

    // What holds between queries, whatever they were and however they ended.
    ghost predicate Valid()
      reads this
    {
      Shape() && Idle(g, st)
    }

    constructor (graph: Net, budget: nat)
      ensures Valid() && st.asked == {} && g == graph && maxBudget == budget && ptsMap == map[] && outOfBudgetDpms == {}
    {
      g, maxBudget := graph, budget;
      backwardVisited, dpmToTLCPtSet, dpmToADCPtSet := {}, map[], map[];
      locToDpmSet, dpmToLoadDpm, loadToPTCVar := map[], map[], map[];
      outOfBudgetQuery, numOfStep, outOfBudgetDpms, ptsMap := false, 0, {}, map[];
      st := State({}, map[], {}, map[], map[], {}, {}, map[], {}, {}, false);
    }

    // Clears the visited flags of the items an abandoned query entered.
    method OOBResetVisited()
      requires Shape() && st.registered <= st.visited
      modifies `backwardVisited, `st
      ensures Shape()
      ensures st == old(st).(visited := old(st).visited - (old(st).registered - old(st).fallback))
    {
      ghost var s := st;
      var locs := locToDpmSet.Keys;
      ghost var kept := s.visited;
      while locs != {}
        invariant Shape() && locs <= locToDpmSet.Keys
        invariant st == s.(visited := kept)
        invariant forall x :: x in kept <==> x in s.visited && !(x in s.registered - s.fallback && x.loc !in locs)
        decreases locs
      {
        var loc :| loc in locs;
        locs := locs - {loc};
        AtLocation(locToDpmSet, loc);
        OOBResetLocation(loc);
        kept := st.visited;
      }
      assert forall x :: x in s.registered ==> x.loc in locToDpmSet;
      assert kept == s.visited - (s.registered - s.fallback);
    }

    method OOBResetLocation(loc: NodeId)
      requires Shape() && loc in locToDpmSet && locToDpmSet[loc] <= st.visited
      modifies `backwardVisited, `st
      ensures Shape()
      ensures st == old(st).(visited := old(st).visited - (locToDpmSet[loc] - old(st).fallback))
    {
      hide Registered, TopLevelSets, Located, Keyed, WellFormed;
      ghost var s := st;
      var dpmSet := locToDpmSet[loc];
      while dpmSet != {}
        invariant Shape() && dpmSet <= locToDpmSet[loc]
        invariant st == s.(visited := s.visited - (locToDpmSet[loc] - dpmSet - s.fallback))
        decreases dpmSet
      {
        var dpm :| dpm in dpmSet;
        ghost var before := st.visited;
        if dpm !in outOfBudgetDpms {
          ClearBkVisited(dpm);
          assert before - {dpm} == s.visited - (locToDpmSet[loc] - (dpmSet - {dpm}) - s.fallback);
        } else {
          assert before == s.visited - (locToDpmSet[loc] - (dpmSet - {dpm}) - s.fallback);
        }
        dpmSet := dpmSet - {dpm};
      }
    }

    method ResetQuery()
      requires Valid()
      modifies this
      ensures Valid() && st == Reset(old(st)) && numOfStep == 0
      ensures st.registered == {} && ptsMap == old(ptsMap)
      ensures st.asked == old(st).asked && st.fallback == old(st).fallback
      ensures st.cache == old(st).cache && backwardVisited <= old(backwardVisited)
      ensures !st.outOfBudget
    {
      hide Idle, Inv, Registered, Shape;
      ResetIsIdle(g, st);
      IdleRegistered(g, st);
      ShapeFacts();
      if outOfBudgetQuery {
        OOBResetVisited();
      }
      ClearMaps();
    }

    method ClearMaps()
      requires Shape()
      modifies `locToDpmSet, `dpmToLoadDpm, `loadToPTCVar, `outOfBudgetQuery, `numOfStep, `st
      ensures Shape() && numOfStep == 0
      ensures st == old(st).(registered := {}, loadVar := map[], loadDpm := map[],
                             stale := old(st).stale * old(st).visited, outOfBudget := false)
    {
      hide Registered, TopLevelSets, Keyed, WellFormed, Spread, Valid, Capacity, Fresh;
      NothingRegistered();
      locToDpmSet, dpmToLoadDpm, loadToPTCVar := map[], map[], map[];
      outOfBudgetQuery, numOfStep := false, 0;
      st := st.(registered := {}, loadVar := map[], loadDpm := map[], stale := st.stale * st.visited,
                outOfBudget := false);
    }

    // Adds the result of a query for v to what is known of v. If sets are kept by variable it is there.
    method UnionPts(v: VarId, pts: set<VarId>)
      requires Shape() && (g.byVariable ==> pts <= GetPts(v))
      modifies `ptsMap, `st
      ensures Shape() && st == Answer(g, old(st), v, pts) && pts <= GetPts(v)
    {
      hide WellFormed, Registered, Spread, Located, Keyed;
      ghost var before := ptsMap;
      assert pts <= GetPts(v) ==> GetPts(v) + pts == GetPts(v);
      ptsMap := ptsMap[v := GetPts(v) + pts];
      st := Answer(g, st, v, pts);
      if g.byVariable { SpreadSame(g, before, v, GetPts(v)); }
    }

    method AddOutOfBudgetDpm(dpm: Item)
      requires Shape()
      modifies `outOfBudgetDpms, `st
      ensures Shape() && st == old(st).(fallback := old(st).fallback + {dpm})
    {
      outOfBudgetDpms := outOfBudgetDpms + {dpm};
      st := st.(fallback := st.fallback + {dpm});
    }

    ghost method PinState(root: Item)
      requires Shape()
      modifies `st
      ensures Shape() && st == Pin(old(st), root)
    {
      hide Registered, TopLevelSets, Located, Keyed, WellFormed;
      st := Pin(st, root);
    }

    // Stores the pre-analysis result for the root of a query that ran out of budget.
    method StoreConservative(v: VarId)
      requires Shape() && Queryable(g, v) && Inv(g, st, {}) && outOfBudgetQuery
      requires DefItem(g, v) in st.registered
      modifies this
      ensures Shape() && Inv(g, st, {}) && outOfBudgetQuery
      ensures Undisturbed(g, Pin(old(st), DefItem(g, v)), st) && old(st).registered <= st.registered
      ensures g.andersen[v] <= At(st.cache, DefItem(g, v))
    {
      hide Inv, Step, Undisturbed, Shape, Capacity, Fresh;
      var dpm := DefItem(g, v);
      ghost var t := Pin(st, dpm);
      ShapeFacts();
      PinKeepsInv(g, st, dpm);
      InvFacts(g, st, {});
      PinnedHolds(g, st, dpm);
      PinState(dpm);
      ShapeFacts();
      UpdateCachedPointsTo(dpm, g.andersen[v], {dpm});
      assert {dpm} - {dpm} == {};
      InvFacts(g, st, {});
      StepFacts(g, t, st, {});
      ShapeFacts();
      StepKeepsSettled(g, t, st, {});
    }

    // Falls back to the pre-analysis for the root of a query that ran out of budget.
    method HandleOutOfBudgetDpm(v: VarId, ghost s: State)
      requires Shape() && Queryable(g, v) && Inv(g, st, {}) && outOfBudgetQuery
      requires Idle(g, s) && s.registered == {} && Undisturbed(g, s, st) && DefItem(g, v) in st.registered
      modifies this
      ensures Valid() && outOfBudgetQuery
      ensures st.asked == s.asked + {v} && AnswersKept(g, s, st, v)
      ensures g.andersen[v] <= GetPts(v)
      ensures st.fallback == s.fallback + {DefItem(g, v)}
    {
      hide Inv, Idle, AnswerRecorded, Shape, Capacity, Fresh, AnswersKept, Alone, Registered, GetPts;
      ShapeFacts();
      ghost var t := st;
      StoreConservative(v);
      ghost var u := st;
      ShapeFacts();
      if g.byVariable { PtsAreCached(v); }
      QueryAbandoned(g, s, t, u, v);
      UnionPts(v, g.andersen[v]);
      AddOutOfBudgetDpm(DefItem(g, v));
      assert st == Abandon(g, u, v, DefItem(g, v), g.andersen[v]);
    }

    // Between queries, the map of the client holds the recorded answers.
    lemma PtsAreAnswers()
      requires Valid()
      ensures forall v :: v in st.asked ==>
                Queryable(g, v) && AnswerRecorded(g, st, v) && GetPts(v) == AnswerOf(g, st, v)
    {
      hide Inv, WellFormed, TopLevelSets, Registered;
      forall v | v in st.asked ensures AnswerRecorded(g, st, v) && GetPts(v) == AnswerOf(g, st, v) {
        Recorded(g, st, v);
        if g.byVariable { PtsAreCached(v); }
      }
    }

    lemma PtsAreCached(v: VarId)
      requires Shape() && Queryable(g, v) && g.byVariable
      ensures GetPts(v) == At(st.cache, DefItem(g, v))
    {
    }

    // Evaluates the root item of a query on top of everything earlier queries have settled.
    method RunQuery(dpm: Item) returns (pts: set<VarId>)
      requires Shape() && Idle(g, st) && st.registered == {} && !outOfBudgetQuery
      requires dpm in g.Items && g.kind[dpm.loc].TopLevel()
      modifies this
      ensures Shape() && Inv(g, st, {}) && Undisturbed(g, old(st), st)
      ensures dpm in st.visited && pts == At(st.cache, dpm)
      ensures outOfBudgetQuery ==> dpm in st.registered
      ensures dpm in old(backwardVisited) ==> st == old(st)
      ensures !outOfBudgetQuery && dpm !in old(backwardVisited) ==> Transfer(g, old(st).cache, dpm) <= pts
      ensures !outOfBudgetQuery ==> SolvedRegion(g, st.cache, backwardVisited, outOfBudgetDpms + st.stale)
      ensures forall x :: x in st.stale && x !in old(st).stale ==> Overlooked(g, old(st), st, x)
      ensures (forall k :: Mated(g, k) ==> At(st.cache, k) == At(old(st).cache, k)) ==> st.stale == old(st).stale
      ensures !outOfBudgetQuery && Alone(g) && (outOfBudgetDpms == {} || AndersenSound(g)) ==>
                forall x :: x in backwardVisited ==> At(st.cache, x) == At(Least(g, outOfBudgetDpms), x)
    {
      hide Inv, Step, Idle, Undisturbed, Shape, Capacity, Fresh, AndersenSound, FallenBack, WellFormed, Alone,
        SolvedRegion;
      ShapeFacts();
      ghost var s := st;
      ResetReady(g, s, dpm);
      pts := FindPT(dpm, {});
      assert Leaving(s, {}, dpm) == {};
      ShapeFacts();
      InvFacts(g, st, {});
      StepUndisturbed(g, s, st, {}, dpm);
      PinnedAreFallbacks(g, s, st);
      FallbacksStay(g, s, st);
      NewlyStale(g, s, st);
      if !outOfBudgetQuery {
        VisitedSolved(g, st);
        if Alone(g) && (outOfBudgetDpms == {} || AndersenSound(g)) {
          VisitedExact(g, st);
        }
      }
    }

    // Answers one query. Earlier answers lose nothing, and if no set is shared they keep their values,
    // the one to the same query included unless that was abandoned. The state is fit for the next
    // query whether or not this one ran out of budget.
    method ComputeDDAPts(v: VarId)
      requires Valid() && Queryable(g, v)
      modifies this
      ensures Valid()
      ensures st.asked == old(st.asked) + {v}
      ensures forall w :: w in old(st.asked) ==> Queryable(g, w) && old(GetPts(w)) <= GetPts(w)
      ensures Alone(g) ==>
                forall w :: w in old(st.asked) && (w != v || DefItem(g, w) !in old(outOfBudgetDpms)) ==>
                  GetPts(w) == old(GetPts(w))
      ensures outOfBudgetDpms == old(outOfBudgetDpms) + if numOfStep > maxBudget then {DefItem(g, v)} else {}
      ensures v in old(st.asked) ==> numOfStep <= maxBudget
      ensures if numOfStep > maxBudget then g.andersen[v] <= GetPts(v)
              else DefItem(g, v) !in old(backwardVisited) ==> Transfer(g, old(st).cache, DefItem(g, v)) <= GetPts(v)
    {
      hide Inv, Idle, AnswerOf, FallenBack, WellFormed, Alone, SolvedRegion, Least, Reset,
        TopLevelSets, Registered, AnswerRecorded;
      ghost var before := st;
      PtsAreAnswers();
      ResetQuery();
      ghost var s := st;
      PtsAreAnswers();
      AnsweredStayVisited(g, before, v);
      var pts := RunQuery(DefItem(g, v));
      if !outOfBudgetQuery {
        QueryAnswered(g, s, st, v);
        if g.byVariable { PtsAreCached(v); }
        UnionPts(v, pts);
      } else {
        HandleOutOfBudgetDpm(v, s);
      }
      assert AnswersKept(g, s, st, v);
      PtsAreAnswers();
      assert s.asked == before.asked && s.fallback == before.fallback;
    }

    lemma PtsAreGood()
      requires Valid()
      ensures forall v :: v in st.asked ==>
                Queryable(g, v) && GetPts(v) <= At(SharedLeast(g, outOfBudgetDpms), DefItem(g, v))
      ensures AndersenSound(g) ==> forall v :: v in st.asked ==> v in g.andersen && GetPts(v) <= g.andersen[v]
      ensures Alone(g) && (outOfBudgetDpms == {} || AndersenSound(g)) ==>
                forall v :: v in st.asked ==>
                  Queryable(g, v) && GetPts(v) == At(Least(g, outOfBudgetDpms), DefItem(g, v))
      ensures Alone(g) && AndersenSound(g) ==>
                forall v :: v in st.asked ==> Queryable(g, v) && At(Least(g, {}), DefItem(g, v)) <= GetPts(v)
      ensures forall part, v :: Unshared(g, part) && (part !! outOfBudgetDpms || AndersenSound(g)) &&
                                v in st.asked && Queryable(g, v) && DefItem(g, v) in part ==>
                GetPts(v) == At(Least(g, outOfBudgetDpms), DefItem(g, v))
      ensures forall v :: v in st.asked && Queryable(g, v) && g.kind[g.def[v]].Addr? &&
                          (DefItem(g, v) !in outOfBudgetDpms || AndersenSound(g)) ==>
                g.kind[g.def[v]].obj in GetPts(v)
    {
      hide Idle, Shape, AndersenSound, Least, SharedLeast, Alone;
      AnswersGood(g, st);
      PtsAreAnswers();
      ShapeFacts();
      SharedAnswersGood(g, st);
      assert forall v :: v in st.asked ==> GetPts(v) == AnswerOf(g, st, v);
    }

    // Answers the client's queries one after the other, sharing all caches between them. No answer
    // ever exceeds the least solution that respects sharing, or a sound pre-analysis. If no set is
    // shared, all answers are exact, and what was answered within the budget stays as it is. With shared
    // sets, answers from unshared parts of the program are exact, and addresses are found everywhere.
    method AnswerQueries(queries: seq<VarId>)
      requires Valid() && forall v :: v in queries ==> Queryable(g, v)
      modifies this
      ensures Valid() && st.asked == old(st.asked) + set v | v in queries
      ensures forall v :: v in st.asked ==>
                Queryable(g, v) && GetPts(v) <= At(SharedLeast(g, outOfBudgetDpms), DefItem(g, v))
      ensures AndersenSound(g) ==> forall v :: v in st.asked ==> v in g.andersen && GetPts(v) <= g.andersen[v]
      ensures forall w :: w in old(st.asked) ==> old(GetPts(w)) <= GetPts(w)
      ensures Alone(g) ==>
                forall w :: w in old(st.asked) && Queryable(g, w) && DefItem(g, w) !in old(outOfBudgetDpms) ==>
                  GetPts(w) == old(GetPts(w))
      ensures Alone(g) && (outOfBudgetDpms == {} || AndersenSound(g)) ==>
                forall v :: v in st.asked ==>
                  Queryable(g, v) && GetPts(v) == At(Least(g, outOfBudgetDpms), DefItem(g, v))
      ensures Alone(g) && AndersenSound(g) ==>
                forall v :: v in st.asked ==> Queryable(g, v) && At(Least(g, {}), DefItem(g, v)) <= GetPts(v)
      ensures forall part, v :: Unshared(g, part) && (part !! outOfBudgetDpms || AndersenSound(g)) &&
                                v in st.asked && Queryable(g, v) && DefItem(g, v) in part ==>
                GetPts(v) == At(Least(g, outOfBudgetDpms), DefItem(g, v))
      ensures forall v :: v in st.asked && Queryable(g, v) && g.kind[g.def[v]].Addr? &&
                          (DefItem(g, v) !in outOfBudgetDpms || AndersenSound(g)) ==>
                g.kind[g.def[v]].obj in GetPts(v)
    {
      hide Valid, Unshared, AndersenSound, Least, SharedLeast, Alone, GetPts, WellFormed;
      PtsAreGood();
      ghost var asked := st.asked;
      for n := 0 to |queries|
        invariant Valid() && st.asked == asked + set v | v in queries[..n]
        invariant forall v :: v in st.asked ==> Queryable(g, v)
        invariant forall w :: w in asked ==> old(GetPts(w)) <= GetPts(w)
        invariant Alone(g) ==>
                    forall w :: w in asked && Queryable(g, w) && DefItem(g, w) !in old(outOfBudgetDpms) ==>
                      DefItem(g, w) !in outOfBudgetDpms && GetPts(w) == old(GetPts(w))
      {
        ComputeDDAPts(queries[n]);
        assert queries[..n + 1] == queries[..n] + [queries[n]];
        PtsAreGood();
      }
      assert queries[..|queries|] == queries;
      PtsAreGood();
    }
  }
}
