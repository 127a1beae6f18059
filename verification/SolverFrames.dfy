// What one evaluation of an item, a frame on the solver's call stack, knows while it unions the
// cached sets of the items it reads, although those sets may grow while it is doing so.
module SolverFrames {
  import opened ValueFlowGraph
  import opened LeastSolution
  import opened SolverState

  // ---- a frame working through the items it reads ----

  // pts has grown from pts0 by cached sets of xs, those of done are all in it: as they are now, or at
  // least as they were in base, when the frame began.
  ghost predicate Tracing(g: Net, base: Cache, s: State, i: Item, xs: set<Item>, done: set<Item>,
                          pts0: set<VarId>, pts: set<VarId>)
  {
    && done <= xs
    && pts0 <= pts <= pts0 + Gather(s.cache, xs)
    && Below(base, s.cache) && Held(base, done, pts)
    && (!s.outOfBudget ==> Collected(g, s, i, done, pts))
  }

  ghost predicate Held(base: Cache, xs: set<Item>, pts: set<VarId>) {
    forall x :: x in xs ==> At(base, x) <= pts
  }

  lemma HeldGather(base: Cache, xs: set<Item>, ys: set<Item>, pts: set<VarId>)
    requires Held(base, xs, pts) && ys <= xs
    ensures Gather(base, ys) <= pts
  {
  }

  lemma TraceBegins(g: Net, s: State, i: Item, xs: set<Item>, pts: set<VarId>)
    ensures Tracing(g, s.cache, s, i, xs, {}, pts, pts)
  {
  }

  lemma BelowTransitive(b: Cache, c: Cache, d: Cache)
    requires Below(b, c) && Below(c, d)
    ensures Below(b, d)
  {
    forall i: Item ensures At(b, i) <= At(d, i) {
      assert At(b, i) <= At(c, i) <= At(d, i);
    }
  }

  lemma TraceOne(g: Net, base: Cache, s: State, t: State, dirty: set<Item>, i: Item, xs: set<Item>,
                 done: set<Item>, pts0: set<VarId>, pts: set<VarId>, x: Item)
    requires Tracing(g, base, s, i, xs, done, pts0, pts) && Step(g, s, t, dirty) && i in dirty
    requires x in xs && x in t.visited && forall y :: y in xs ==> Triggers(g, y, i)
    ensures Tracing(g, base, t, i, xs, done + {x}, pts0, pts + At(t.cache, x))
  {
    StepFacts(g, s, t, dirty);
    BelowTransitive(base, s.cache, t.cache);
    assert At(base, x) <= At(t.cache, x);
    GatherMonotone(s.cache, t.cache, xs);
    if !t.outOfBudget {
      CollectedStep(g, s, t, dirty, i, done, pts);
    }
  }

  // What holds of every evaluation, superseded or not: it yields at least the right-hand side for the
  // sets held when it began.
  lemma AtLeastSeed(g: Net, base: Cache, i: Item, pts: set<VarId>)
    requires i in g.Items && Transfer(g, base, i) <= pts
    ensures Transfer(g, map[], i) <= pts
  {
    TransferMonotone(g, map[], base, i);
  }

  lemma AddrEvaluated(g: Net, s: State, i: Item)
    requires i in g.Items && g.kind[i.loc].Addr?
    ensures Evaluated(g, s, i, {g.kind[i.loc].obj}) && Transfer(g, s.cache, i) == {g.kind[i.loc].obj}
  {
  }

  lemma CopyEvaluated(g: Net, base: Cache, s: State, i: Item, pts: set<VarId>)
    requires i in g.Items && g.kind[i.loc].Copy?
    requires Tracing(g, base, s, i, DirectReads(g, i.loc), DirectReads(g, i.loc), {}, pts)
    ensures Evaluated(g, s, i, pts) && Transfer(g, base, i) <= pts
  {
    HeldGather(base, DirectReads(g, i.loc), DirectReads(g, i.loc), pts);
    AtLeastSeed(g, base, i, pts);
  }

  lemma MemRegionEvaluated(g: Net, base: Cache, s: State, i: Item, pts: set<VarId>)
    requires i in g.Items && g.kind[i.loc].MemRegion?
    requires var xs := IndirectReads(g, i.loc, i.cur); Tracing(g, base, s, i, xs, xs, {}, pts)
    ensures Evaluated(g, s, i, pts) && Transfer(g, base, i) <= pts
  {
    HeldGather(base, IndirectReads(g, i.loc, i.cur), IndirectReads(g, i.loc, i.cur), pts);
    AtLeastSeed(g, base, i, pts);
  }

  function Fields(g: Net, n: NodeId, pts: set<VarId>): set<VarId> {
    set o | o in pts && (n, o) in g.field :: g.field[(n, o)]
  }

  lemma GepEvaluated(g: Net, base: Cache, s: State, i: Item, pts: set<VarId>)
    requires i in g.Items && g.kind[i.loc].Gep?
    requires Tracing(g, base, s, i, DirectReads(g, i.loc), DirectReads(g, i.loc), {}, pts)
    ensures Evaluated(g, s, i, Fields(g, i.loc, pts)) && Transfer(g, base, i) <= Fields(g, i.loc, pts)
  {
    HeldGather(base, DirectReads(g, i.loc), DirectReads(g, i.loc), pts);
    AtLeastSeed(g, base, i, Fields(g, i.loc, pts));
    if !Good(g, s, i) && i !in s.stale && !s.outOfBudget {
      assert Gather(s.cache, DirectReads(g, i.loc)) <= pts;
    }
  }

  // A load or store frame: ptrPts is what its pointer operand pointed to, xs is what it has
  // collected into pts on that basis.
  ghost predicate Dereferencing(g: Net, base: Cache, s: State, i: Item, ptr: Item, ptrPts: set<VarId>,
                                xs: set<Item>, pts: set<VarId>)
    requires i in g.Items
  {
    && At(base, ptr) <= ptrPts <= At(s.cache, ptr)
    && Below(base, s.cache) && Held(base, xs, pts)
    && pts <= Transfer(g, s.cache, i)
    && (!s.outOfBudget ==> Good(g, s, i) || i in s.stale || (Covered(s, {ptr}, ptrPts) && Covered(s, xs, pts)))
  }

  lemma DereferenceOne(g: Net, base: Cache, s: State, t: State, dirty: set<Item>, i: Item, ptr: Item,
                       ptrPts: set<VarId>, xs: set<Item>, more: set<Item>, pts: set<VarId>, pts': set<VarId>)
    requires i in g.Items && Dereferencing(g, base, s, i, ptr, ptrPts, xs, pts) && Held(base, more, pts')
    requires Step(g, s, t, dirty) && i in dirty
    requires Triggers(g, ptr, i) && forall x :: x in xs ==> Triggers(g, x, i)
    requires pts <= pts' <= pts + Transfer(g, t.cache, i)
    requires !t.outOfBudget ==> Collected(g, t, i, more, pts')
    ensures Dereferencing(g, base, t, i, ptr, ptrPts, xs + more, pts')
  {
    StepFacts(g, s, t, dirty);
    BelowTransitive(base, s.cache, t.cache);
    assert At(s.cache, ptr) <= At(t.cache, ptr);
    TransferMonotone(g, s.cache, t.cache, i);
    if !t.outOfBudget {
      CollectedStep(g, s, t, dirty, i, xs, pts);
      CollectedStep(g, s, t, dirty, i, {ptr}, ptrPts);
    }
  }

  lemma HeldSince(base: Cache, later: Cache, xs: set<Item>, pts: set<VarId>)
    requires Below(base, later) && Held(later, xs, pts)
    ensures Held(base, xs, pts)
  {
    forall x | x in xs ensures At(base, x) <= pts {
      assert At(base, x) <= At(later, x);
    }
  }

  lemma DereferenceBegins(g: Net, base: Cache, s: State, i: Item, ptr: Item, ptrPts: set<VarId>)
    requires i in g.Items && ptr in s.visited && ptrPts == At(s.cache, ptr) && Below(base, s.cache)
    ensures Dereferencing(g, base, s, i, ptr, ptrPts, {}, {})
  {
  }

  // Everything pointed to is an object of the program.
  lemma DereferencedIsObject(g: Net, base: Cache, s: State, dirty: set<Item>, i: Item, ptr: Item, ptrPts: set<VarId>,
                             xs: set<Item>, pts: set<VarId>, o: VarId)
    requires i in g.Items && Inv(g, s, dirty) && Dereferencing(g, base, s, i, ptr, ptrPts, xs, pts) && o in ptrPts
    ensures o in g.objs && o in g.vars
  {
    hide Inv;
    EvenFacts(g, s, dirty);
    assert At(s.cache, ptr) <= At(SharedLeast(g, s.pinned), ptr);
  }

  // All indirect reads of a load for the objects os its pointer operand may point to.
  ghost function LoadReads(g: Net, n: NodeId, os: set<VarId>): set<Item> {
    set o, y | o in os && y in IndirectReads(g, n, o) :: y
  }

  lemma LoadReadsTrigger(g: Net, i: Item, os: set<VarId>)
    requires i in g.Items && g.kind[i.loc].Load?
    ensures forall x :: x in LoadReads(g, i.loc, os) ==> Triggers(g, x, i)
  {
    forall o | o in os ensures forall x :: x in IndirectReads(g, i.loc, o) ==> Triggers(g, x, i) {
      IndirectTriggers(g, i, o);
    }
  }

  lemma LoadReadsAdd(g: Net, n: NodeId, os: set<VarId>, o: VarId)
    ensures LoadReads(g, n, os) + IndirectReads(g, n, o) == LoadReads(g, n, os + {o})
  {
  }

  lemma LoadContribution(g: Net, c: Cache, i: Item, o: VarId)
    requires i in g.Items && g.kind[i.loc].Load? && o in At(c, LoadPtr(g, i))
    ensures Gather(c, IndirectReads(g, i.loc, o)) <= Transfer(g, c, i)
  {
  }

  lemma LoadTargetDone(g: Net, base: Cache, s: State, t: State, dirty: set<Item>, i: Item,
                       ptrPts: set<VarId>, done: set<VarId>, o: VarId, pts: set<VarId>, pts': set<VarId>)
    requires i in g.Items && g.kind[i.loc].Load? && o in ptrPts && i in dirty
    requires Dereferencing(g, base, s, i, LoadPtr(g, i), ptrPts, LoadReads(g, i.loc, done), pts)
    requires Step(g, s, t, dirty)
    requires var xs := IndirectReads(g, i.loc, o); Tracing(g, s.cache, t, i, xs, xs, pts, pts')
    ensures Dereferencing(g, base, t, i, LoadPtr(g, i), ptrPts, LoadReads(g, i.loc, done + {o}), pts')
  {
    var ptr := LoadPtr(g, i);
    StepFacts(g, s, t, dirty);
    assert At(s.cache, ptr) <= At(t.cache, ptr);
    LoadContribution(g, t.cache, i, o);
    OperandTriggers(g, g.kind[i.loc].ptr, i);
    LoadReadsTrigger(g, i, done);
    HeldSince(base, s.cache, IndirectReads(g, i.loc, o), pts');
    DereferenceOne(g, base, s, t, dirty, i, ptr, ptrPts, LoadReads(g, i.loc, done), IndirectReads(g, i.loc, o),
                   pts, pts');
    LoadReadsAdd(g, i.loc, done, o);
  }

  lemma LoadAtLeast(g: Net, base: Cache, i: Item, ptrPts: set<VarId>, pts: set<VarId>)
    requires i in g.Items && g.kind[i.loc].Load? && At(base, LoadPtr(g, i)) <= ptrPts
    requires Held(base, LoadReads(g, i.loc, ptrPts), pts)
    ensures Transfer(g, base, i) <= pts
  {
    forall t | t in Transfer(g, base, i) ensures t in pts {
      var o :| o in At(base, LoadPtr(g, i)) && t in Gather(base, IndirectReads(g, i.loc, o));
      var y :| y in IndirectReads(g, i.loc, o) && t in At(base, y);
      assert y in LoadReads(g, i.loc, ptrPts);
    }
  }

  lemma LoadEvaluated(g: Net, base: Cache, s: State, i: Item, ptrPts: set<VarId>, pts: set<VarId>)
    requires i in g.Items && g.kind[i.loc].Load?
    requires Dereferencing(g, base, s, i, LoadPtr(g, i), ptrPts, LoadReads(g, i.loc, ptrPts), pts)
    ensures Evaluated(g, s, i, pts) && Transfer(g, base, i) <= pts
  {
    LoadAtLeast(g, base, i, ptrPts, pts);
    AtLeastSeed(g, base, i, pts);
    var ptr := LoadPtr(g, i);
    if !s.outOfBudget && !Good(g, s, i) && i !in s.stale {
      assert ptr in {ptr};
      assert At(s.cache, ptr) == ptrPts;
      forall t | t in Transfer(g, s.cache, i) ensures t in pts {
        var o :| o in ptrPts && t in Gather(s.cache, IndirectReads(g, i.loc, o));
        var y :| y in IndirectReads(g, i.loc, o) && t in At(s.cache, y);
        assert y in LoadReads(g, i.loc, ptrPts);
      }
      assert Reads(g, s.cache, i) == {ptr} + LoadReads(g, i.loc, ptrPts);
    }
  }

  // ---- stores ----

  predicate IsStrongUpdate(g: Net, storePts: set<VarId>) {
    |storePts| == 1 && storePts <= g.unique
  }

  lemma StrongUpdateMeaning(g: Net, storePts: set<VarId>, v: VarId)
    requires v in storePts
    ensures IsStrongUpdate(g, storePts) <==> storePts == {v} && v in g.unique
  {
    if |storePts| == 1 {
      assert |storePts - {v}| == 0;
    }
  }

  // The target o of the store's destination makes the old value of v pass.
  predicate LetsThrough(g: Net, storePts: set<VarId>, v: VarId, o: VarId) {
    o != v || !IsStrongUpdate(g, storePts)
  }

  lemma LetsThroughMeaning(g: Net, storePts: set<VarId>, v: VarId)
    ensures PassesOld(g, storePts, v) <==> exists o :: o in storePts && LetsThrough(g, storePts, v, o)
  {
    if v in storePts {
      StrongUpdateMeaning(g, storePts, v);
    }
    if PassesOld(g, storePts, v) {
      if storePts == {v} {
        assert LetsThrough(g, storePts, v, v);
      } else {
        var o :| o in storePts && o != v;
        assert LetsThrough(g, storePts, v, o);
      }
    }
  }

  // What a store frame has read after visiting the targets os of its destination.
  ghost function StoreReads(g: Net, i: Item, src: Item, storePts: set<VarId>, os: set<VarId>): set<Item> {
    (if i.cur in os then {src} else {}) +
    (if exists o :: o in os && LetsThrough(g, storePts, i.cur, o) then IndirectReads(g, i.loc, i.cur) else {})
  }

  lemma StoreReadsAdd(g: Net, i: Item, src: Item, storePts: set<VarId>, os: set<VarId>, o: VarId)
    ensures StoreReads(g, i, src, storePts, os + {o}) ==
            StoreReads(g, i, src, storePts, os) + StoreReads(g, i, src, storePts, {o})
  {
    var v := i.cur;
    if exists p :: p in os + {o} && LetsThrough(g, storePts, v, p) {
      var p :| p in os + {o} && LetsThrough(g, storePts, v, p);
      assert p in os || p in {o};
    }
    if exists p :: p in os && LetsThrough(g, storePts, v, p) {
      var p :| p in os && LetsThrough(g, storePts, v, p);
      assert p in os + {o};
    }
    if LetsThrough(g, storePts, v, o) {
      assert o in os + {o} && o in {o};
    }
  }

  lemma NoStoreReads(g: Net, i: Item, src: Item, storePts: set<VarId>)
    ensures StoreReads(g, i, src, storePts, {}) == {}
  {
  }

  lemma StoreReadsGrow(g: Net, i: Item, src: Item, storePts: set<VarId>, os: set<VarId>, o: VarId)
    requires o in storePts
    ensures var xs, ys := StoreReads(g, i, src, storePts, os), StoreReads(g, i, src, storePts, os + {o});
            && (o == i.cur && IsStrongUpdate(g, storePts) ==> ys == xs + {src})
            && (o == i.cur && !IsStrongUpdate(g, storePts) ==> ys == xs + {src} + IndirectReads(g, i.loc, i.cur))
            && (o != i.cur ==> ys == xs + IndirectReads(g, i.loc, i.cur))
  {
    StoreReadsAdd(g, i, src, storePts, os, o);
    assert LetsThrough(g, storePts, i.cur, o) ==>
        exists p :: p in {o} && LetsThrough(g, storePts, i.cur, p);
  }

  lemma StoreReadsTrigger(g: Net, i: Item, storePts: set<VarId>, os: set<VarId>)
    requires i in g.Items && g.kind[i.loc].Store?
    ensures forall x :: x in StoreReads(g, i, StoreSrc(g, i), storePts, os) ==> Triggers(g, x, i)
  {
    IndirectTriggers(g, i, i.cur);
    OperandTriggers(g, g.kind[i.loc].src, i);
  }

  // The stored value flows in as soon as the traced object is a target of the destination.
  lemma StoreSrcDone(g: Net, base: Cache, s: State, t: State, dirty: set<Item>, i: Item, storePts: set<VarId>,
                     xs: set<Item>, pts: set<VarId>)
    requires i in g.Items && g.kind[i.loc].Store? && i in dirty && i.cur in storePts
    requires Dereferencing(g, base, s, i, StoreDst(g, i), storePts, xs, pts)
    requires forall x :: x in xs ==> Triggers(g, x, i)
    requires Step(g, s, t, dirty) && StoreSrc(g, i) in t.visited
    ensures var src := StoreSrc(g, i);
            Dereferencing(g, base, t, i, StoreDst(g, i), storePts, xs + {src}, pts + At(t.cache, src))
  {
    hide Triggers;
    var dst, src := StoreDst(g, i), StoreSrc(g, i);
    StepFacts(g, s, t, dirty);
    assert At(s.cache, dst) <= At(t.cache, dst);
    OperandTriggers(g, g.kind[i.loc].dst, i);
    BelowTransitive(base, s.cache, t.cache);
    assert At(base, src) <= At(t.cache, src);
    DereferenceOne(g, base, s, t, dirty, i, dst, storePts, xs, {src}, pts, pts + At(t.cache, src));
  }

  // The old value flows through on account of target o.
  lemma StoreOldDone(g: Net, base: Cache, s: State, t: State, dirty: set<Item>, i: Item, storePts: set<VarId>,
                     o: VarId, xs: set<Item>, pts: set<VarId>, pts': set<VarId>)
    requires i in g.Items && g.kind[i.loc].Store? && i in dirty
    requires o in storePts && LetsThrough(g, storePts, i.cur, o)
    requires Dereferencing(g, base, s, i, StoreDst(g, i), storePts, xs, pts)
    requires forall x :: x in xs ==> Triggers(g, x, i)
    requires Step(g, s, t, dirty)
    requires var ys := IndirectReads(g, i.loc, i.cur); Tracing(g, s.cache, t, i, ys, ys, pts, pts')
    ensures Dereferencing(g, base, t, i, StoreDst(g, i), storePts,
                          xs + IndirectReads(g, i.loc, i.cur), pts')
  {
    var dst := StoreDst(g, i);
    StepFacts(g, s, t, dirty);
    assert At(s.cache, dst) <= At(t.cache, dst);
    LetsThroughMeaning(g, storePts, i.cur);
    PassesOldMonotone(g, storePts, At(t.cache, dst), i.cur);
    OperandTriggers(g, g.kind[i.loc].dst, i);
    HeldSince(base, s.cache, IndirectReads(g, i.loc, i.cur), pts');
    DereferenceOne(g, base, s, t, dirty, i, dst, storePts, xs, IndirectReads(g, i.loc, i.cur), pts, pts');
  }

  lemma CoveredGather(s: State, xs: set<Item>, ys: set<Item>, pts: set<VarId>)
    requires Covered(s, xs, pts) && ys <= xs
    ensures Gather(s.cache, ys) <= pts && ys <= s.visited
  {
  }

  lemma StoreAtLeast(g: Net, base: Cache, i: Item, storePts: set<VarId>, pts: set<VarId>)
    requires i in g.Items && g.kind[i.loc].Store? && At(base, StoreDst(g, i)) <= storePts
    requires Held(base, StoreReads(g, i, StoreSrc(g, i), storePts, storePts), pts)
    ensures Transfer(g, base, i) <= pts
  {
    hide Gather, IndirectReads, LetsThrough, PassesOld;
    var v, xs := i.cur, StoreReads(g, i, StoreSrc(g, i), storePts, storePts);
    LetsThroughMeaning(g, storePts, v);
    if PassesOld(g, At(base, StoreDst(g, i)), v) {
      PassesOldMonotone(g, At(base, StoreDst(g, i)), storePts, v);
      HeldGather(base, xs, IndirectReads(g, i.loc, v), pts);
    }
  }

  lemma StoreCovered(g: Net, s: State, i: Item, storePts: set<VarId>, pts: set<VarId>)
    requires i in g.Items && g.kind[i.loc].Store? && storePts == At(s.cache, StoreDst(g, i))
    requires StoreDst(g, i) in s.visited
    requires Covered(s, StoreReads(g, i, StoreSrc(g, i), storePts, storePts), pts)
    ensures Transfer(g, s.cache, i) <= pts && Reads(g, s.cache, i) <= s.visited
  {
    hide Gather, IndirectReads, LetsThrough, PassesOld;
    var xs := StoreReads(g, i, StoreSrc(g, i), storePts, storePts);
    LetsThroughMeaning(g, storePts, i.cur);
    if PassesOld(g, storePts, i.cur) {
      CoveredGather(s, xs, IndirectReads(g, i.loc, i.cur), pts);
    }
  }

  lemma StoreEvaluated(g: Net, base: Cache, s: State, i: Item, storePts: set<VarId>, pts: set<VarId>)
    requires i in g.Items && g.kind[i.loc].Store?
    requires Dereferencing(g, base, s, i, StoreDst(g, i), storePts,
                           StoreReads(g, i, StoreSrc(g, i), storePts, storePts), pts)
    ensures Evaluated(g, s, i, pts) && Transfer(g, base, i) <= pts
  {
    hide Transfer, Reads, Held, Below, StoreReads, Good, WellFormed;
    StoreAtLeast(g, base, i, storePts, pts);
    AtLeastSeed(g, base, i, pts);
    if !s.outOfBudget && !Good(g, s, i) && i !in s.stale {
      assert StoreDst(g, i) in {StoreDst(g, i)};
      StoreCovered(g, s, i, storePts, pts);
    }
  }
}
