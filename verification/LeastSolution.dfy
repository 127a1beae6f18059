// The reference answer of the analysis: the least solution of the whole equation system,
// defined without mentioning the solver, as the intersection of all solutions.
module LeastSolution {
  import opened ValueFlowGraph

  // L solves the equations; items in seeds additionally contain the pre-analysis result,
  // which is what an abandoned query falls back to.
  ghost predicate IsSolution(g: Net, seeds: set<Item>, L: Cache)
  {
    && (forall i :: i in g.Items ==> Transfer(g, L, i) <= At(L, i))
    && (forall i :: i in g.Items && i in seeds ==> g.andersen[i.cur] <= At(L, i))
  }

  ghost predicate InEverySolution(g: Net, seeds: set<Item>, i: Item, o: VarId)
  {
    forall L: Cache :: IsSolution(g, seeds, L) ==> o in At(L, i)
  }

  ghost function Least(g: Net, seeds: set<Item>): Cache
  {
    map i | i in g.Items :: set o | o in g.objs && InEverySolution(g, seeds, i, o)
  }

  // The cache that maps every item to every object.
  ghost function Top(g: Net): Cache {
    map i | i in g.Items :: g.objs
  }

  // Right-hand sides over object-valued caches yield objects only.
  lemma TransferWithin(g: Net, c: Cache, i: Item)
    requires i in g.Items && Below(c, Top(g))
    ensures Transfer(g, c, i) <= g.objs
  {
    forall y: Item ensures At(c, y) <= g.objs {
      assert At(c, y) <= At(Top(g), y);
    }
    assert forall xs :: Gather(c, xs) <= g.objs;
    assert WellFormedNode(g, i.loc);
  }

  lemma LeastBelowSolution(g: Net, seeds: set<Item>, L: Cache)
    requires IsSolution(g, seeds, L)
    ensures Below(Least(g, seeds), L)
  {
    forall i: Item, o | o in At(Least(g, seeds), i) ensures o in At(L, i) {
      assert InEverySolution(g, seeds, i, o);
    }
  }

  lemma LeastIsSolution(g: Net, seeds: set<Item>)
    ensures IsSolution(g, seeds, Least(g, seeds))
  {
    var M := Least(g, seeds);
    forall i | i in g.Items ensures Transfer(g, M, i) <= At(M, i) {
      TransferWithin(g, M, i);
      forall o, L: Cache | o in Transfer(g, M, i) && IsSolution(g, seeds, L) ensures o in At(L, i) {
        LeastBelowSolution(g, seeds, L);
        TransferMonotone(g, M, L, i);
      }
    }
  }

  // ---- what every solution contains ----

  lemma AddrHolds(g: Net, L: Cache, i: Item)
    requires IsSolution(g, {}, L) && i in g.Items && g.kind[i.loc].Addr?
    ensures g.kind[i.loc].obj in At(L, i)
  {
    DirectFlow(g, L, i, g.kind[i.loc].obj);
    assert Transfer(g, L, i) <= At(L, i);
  }

  lemma CopyHolds(g: Net, L: Cache, i: Item, m: NodeId, t: VarId)
    requires IsSolution(g, {}, L) && i in g.Items && g.kind[i.loc].Copy?
    requires Direct(m, i.loc) in g.edges && m in g.lhs && t in At(L, Item(g.lhs[m], m))
    ensures t in At(L, i)
  {
    DirectFlow(g, L, i, t);
    assert Transfer(g, L, i) <= At(L, i);
  }

  lemma GepHolds(g: Net, L: Cache, i: Item, m: NodeId, o: VarId)
    requires IsSolution(g, {}, L) && i in g.Items && g.kind[i.loc].Gep? && (i.loc, o) in g.field
    requires Direct(m, i.loc) in g.edges && m in g.lhs && o in At(L, Item(g.lhs[m], m))
    ensures g.field[(i.loc, o)] in At(L, i)
  {
    DirectFlow(g, L, i, g.field[(i.loc, o)]);
    assert Transfer(g, L, i) <= At(L, i);
  }

  // Memory reaches a load over every edge whose guard admits an object the load's pointer points to.
  lemma LoadHolds(g: Net, L: Cache, i: Item, o: VarId, e: Edge)
    requires IsSolution(g, {}, L) && i in g.Items && g.kind[i.loc].Load?
    requires var p := g.kind[i.loc].ptr; o in At(L, Item(p, g.def[p]))
    requires e in g.edges && e.Indirect? && e.dst == i.loc && o in e.guard && o !in g.noPointer
    ensures At(L, Item(o, e.src)) <= At(L, i)
  {
    assert Transfer(g, L, i) <= At(L, i);
    forall t | t in At(L, Item(o, e.src)) ensures t in At(L, i) {
      LoadFlow(g, L, i, t);
    }
  }

  lemma MemoryHolds(g: Net, L: Cache, i: Item, e: Edge)
    requires IsSolution(g, {}, L) && i in g.Items && g.kind[i.loc].MemRegion?
    requires e in g.edges && e.Indirect? && e.dst == i.loc && i.cur in e.guard && i.cur !in g.noPointer
    ensures At(L, Item(i.cur, e.src)) <= At(L, i)
  {
    assert Transfer(g, L, i) <= At(L, i);
    forall t | t in At(L, Item(i.cur, e.src)) ensures t in At(L, i) {
      MemoryFlow(g, L, i, t);
    }
  }

  // The stored value is found in every target of a store.
  lemma StoredHolds(g: Net, L: Cache, i: Item)
    requires IsSolution(g, {}, L) && i in g.Items && g.kind[i.loc].Store?
    requires var d := g.kind[i.loc].dst; i.cur in At(L, Item(d, g.def[d]))
    ensures var s := g.kind[i.loc].src; At(L, Item(s, g.def[s])) <= At(L, i)
  {
    var s := g.kind[i.loc].src;
    assert Transfer(g, L, i) <= At(L, i);
    forall t | t in At(L, Item(s, g.def[s])) ensures t in At(L, i) {
      StoreFlow(g, L, i, t);
    }
  }

  // What an object held before a store it still holds after it, unless the store has no known target, or
  // certainly overwrites this one.
  lemma UnstoredHolds(g: Net, L: Cache, i: Item, e: Edge)
    requires IsSolution(g, {}, L) && i in g.Items && g.kind[i.loc].Store?
    requires var d := g.kind[i.loc].dst;
             var targets := At(L, Item(d, g.def[d]));
             targets != {} && !(targets == {i.cur} && i.cur in g.unique)
    requires e in g.edges && e.Indirect? && e.dst == i.loc && i.cur in e.guard && i.cur !in g.noPointer
    ensures At(L, Item(i.cur, e.src)) <= At(L, i)
  {
    assert Transfer(g, L, i) <= At(L, i);
    forall t | t in At(L, Item(i.cur, e.src)) ensures t in At(L, i) {
      StoreFlow(g, L, i, t);
    }
  }

  // Growing the set of fallback items can only enlarge the least solution.
  lemma LeastMonotone(g: Net, seeds: set<Item>, seeds': set<Item>)
    requires seeds <= seeds'
    ensures Below(Least(g, seeds), Least(g, seeds'))
  {
    LeastIsSolution(g, seeds');
    LeastBelowSolution(g, seeds, Least(g, seeds'));
  }

  // ---- the least solution that respects sharing ----

  ghost predicate InEveryEvenSolution(g: Net, seeds: set<Item>, i: Item, o: VarId)
  {
    forall L: Cache :: IsSolution(g, seeds, L) && Even(g, L) ==> o in At(L, i)
  }

  ghost function SharedLeast(g: Net, seeds: set<Item>): Cache
  {
    map i | i in g.Items :: set o | o in g.objs && InEveryEvenSolution(g, seeds, i, o)
  }

  lemma SharedBelowSolution(g: Net, seeds: set<Item>, L: Cache)
    requires IsSolution(g, seeds, L) && Even(g, L)
    ensures Below(SharedLeast(g, seeds), L)
  {
    forall i: Item, o | o in At(SharedLeast(g, seeds), i) ensures o in At(L, i) {
      assert InEveryEvenSolution(g, seeds, i, o);
    }
  }

  lemma SharedIsSolution(g: Net, seeds: set<Item>)
    ensures IsSolution(g, seeds, SharedLeast(g, seeds))
  {
    var M := SharedLeast(g, seeds);
    forall i | i in g.Items ensures Transfer(g, M, i) <= At(M, i) {
      TransferWithin(g, M, i);
      forall o, L: Cache | o in Transfer(g, M, i) && IsSolution(g, seeds, L) && Even(g, L) ensures o in At(L, i) {
        SharedBelowSolution(g, seeds, L);
        TransferMonotone(g, M, L, i);
      }
    }
  }

  lemma SharedIsEven(g: Net, seeds: set<Item>)
    ensures Even(g, SharedLeast(g, seeds))
  {
    forall i, j | i in g.Items && j in g.Items && Shares(g, i, j)
      ensures At(SharedLeast(g, seeds), i) == At(SharedLeast(g, seeds), j)
    {
      forall o ensures InEveryEvenSolution(g, seeds, i, o) <==> InEveryEvenSolution(g, seeds, j, o) {
        assert forall L :: Even(g, L) ==> At(L, i) == At(L, j);
      }
    }
  }

  lemma SharedMonotone(g: Net, seeds: set<Item>, seeds': set<Item>)
    requires seeds <= seeds'
    ensures Below(SharedLeast(g, seeds), SharedLeast(g, seeds'))
  {
    SharedIsSolution(g, seeds');
    SharedIsEven(g, seeds');
    SharedBelowSolution(g, seeds, SharedLeast(g, seeds'));
  }

  // Sharing can only add.
  lemma LeastBelowShared(g: Net, seeds: set<Item>)
    ensures Below(Least(g, seeds), SharedLeast(g, seeds))
  {
    SharedIsSolution(g, seeds);
    LeastBelowSolution(g, seeds, SharedLeast(g, seeds));
  }

  lemma SameSets(c: Cache, d: Cache)
    requires c.Keys == d.Keys && Below(c, d) && Below(d, c)
    ensures c == d
  {
    forall i | i in c ensures c[i] == d[i] {
      assert At(c, i) <= At(d, i) && At(d, i) <= At(c, i);
    }
  }

  // Sharing adds nothing exactly if the least solution has equal sets for items that share theirs.
  lemma SharedIsLeastIffEven(g: Net, seeds: set<Item>)
    ensures SharedLeast(g, seeds) == Least(g, seeds) <==> Even(g, Least(g, seeds))
  {
    hide InEverySolution, InEveryEvenSolution, IsSolution, WellFormed, Even;
    SharedIsEven(g, seeds);
    if Even(g, Least(g, seeds)) {
      LeastIsSolution(g, seeds);
      SharedBelowSolution(g, seeds, Least(g, seeds));
      LeastBelowShared(g, seeds);
      SameSets(Least(g, seeds), SharedLeast(g, seeds));
    }
  }

  lemma AloneAddsNothing(g: Net, seeds: set<Item>)
    requires Alone(g)
    ensures SharedLeast(g, seeds) == Least(g, seeds)
  {
    SharedIsLeastIffEven(g, seeds);
  }

  // A part of the program that depends on nothing outside it, and in which no set is shared.
  ghost predicate Unshared(g: Net, part: set<Item>) {
    && part <= g.Items
    && (forall x :: x in part ==> !Mated(g, x))
    && (forall x, y :: x in part && y in g.Items && Triggers(g, y, x) ==> y in part)
  }

  // The least solution there, everything elsewhere.
  ghost function Patched(g: Net, seeds: set<Item>, part: set<Item>): Cache {
    map x | x in g.Items :: if x in part then At(Least(g, seeds), x) else g.objs
  }

  lemma PatchedTransfer(g: Net, seeds: set<Item>, part: set<Item>, x: Item)
    requires Unshared(g, part) && x in g.Items
    ensures Transfer(g, Patched(g, seeds, part), x) <= At(Patched(g, seeds, part), x)
  {
    var L := Patched(g, seeds, part);
    if x in part {
      LeastIsSolution(g, seeds);
      forall y | y in Reads(g, L, x) ensures At(L, y) == At(Least(g, seeds), y) {
        ReadsTrigger(g, L, x, y);
        ReadsAreItems(g, L, x);
      }
      hide Least;
      TransferLocal(g, L, Least(g, seeds), x);
    } else {
      assert Below(L, Top(g));
      TransferWithin(g, L, x);
    }
  }

  lemma PatchedSolves(g: Net, seeds: set<Item>, part: set<Item>)
    requires Unshared(g, part)
    ensures IsSolution(g, seeds, Patched(g, seeds, part)) && Even(g, Patched(g, seeds, part))
  {
    var L := Patched(g, seeds, part);
    LeastIsSolution(g, seeds);
    hide Least, Transfer;
    forall x | x in g.Items ensures Transfer(g, L, x) <= At(L, x) {
      PatchedTransfer(g, seeds, part, x);
    }
    assert Even(g, L) by {
      assert forall i, j :: i in g.Items && j in g.Items && Shares(g, i, j) && i != j ==> Mated(g, i) && Mated(g, j);
    }
  }

  // There, sharing elsewhere adds nothing.
  lemma UnsharedAddsNothing(g: Net, seeds: set<Item>, part: set<Item>)
    requires Unshared(g, part)
    ensures forall x :: x in part ==> At(SharedLeast(g, seeds), x) == At(Least(g, seeds), x)
  {
    hide Least, SharedLeast, IsSolution, Even;
    var L := Patched(g, seeds, part);
    PatchedSolves(g, seeds, part);
    SharedBelowSolution(g, seeds, L);
    LeastBelowShared(g, seeds);
    forall x | x in part ensures At(SharedLeast(g, seeds), x) == At(Least(g, seeds), x) {
      assert At(SharedLeast(g, seeds), x) <= At(L, x) && At(Least(g, seeds), x) <= At(SharedLeast(g, seeds), x);
    }
  }

  // The least solution satisfies the equations with equality.
  lemma LeastIsFixpoint(g: Net, i: Item)
    requires i in g.Items
    ensures Transfer(g, Least(g, {}), i) == At(Least(g, {}), i)
  {
    var least := Least(g, {});
    var next := map j | j in g.Items :: Transfer(g, least, j);
    LeastIsSolution(g, {});
    hide Least, Transfer, WellFormed;
    assert Below(next, least);
    forall j | j in g.Items ensures Transfer(g, next, j) <= At(next, j) {
      TransferMonotone(g, next, least, j);
    }
    LeastBelowSolution(g, {}, next);
    assert At(least, i) <= At(next, i);
  }

  // Nodes other than its definition that stand for a pointer, such as actual parameters, receive it
  // from its definition and from nowhere else.
  ghost predicate Relays(g: Net) {
    forall i :: i in g.Items && TopLevelItem(g, i) ==>
      && i.cur in g.def && DefItem(g, i.cur) in g.Items && TopLevelItem(g, DefItem(g, i.cur))
      && (g.def[i.cur] != i.loc ==> g.kind[i.loc].Copy? && DirectReads(g, i.loc) == {DefItem(g, i.cur)})
  }

  lemma RelayEqualsDefinition(g: Net, i: Item)
    requires Relays(g) && i in g.Items && TopLevelItem(g, i)
    ensures i.cur in g.def && At(Least(g, {}), i) == At(Least(g, {}), DefItem(g, i.cur))
  {
    if g.def[i.cur] != i.loc {
      LeastIsFixpoint(g, i);
    } else {
      assert DefItem(g, i.cur) == i;
    }
  }

  // In programs of this shape, sharing by variable changes nothing about what the right answer is.
  lemma RelaysAddNothing(g: Net)
    requires Relays(g)
    ensures SharedLeast(g, {}) == Least(g, {})
  {
    forall i, j | i in g.Items && j in g.Items && Shares(g, i, j) ensures At(Least(g, {}), i) == At(Least(g, {}), j) {
      if i != j {
        RelayEqualsDefinition(g, i);
        RelayEqualsDefinition(g, j);
      }
    }
    SharedIsLeastIffEven(g, {});
  }

  // One evaluation of an item below the least solution stays below it, and so does anything that
  // shares its set.
  lemma TransferBelowShared(g: Net, seeds: set<Item>, c: Cache, i: Item)
    requires i in g.Items && Below(c, SharedLeast(g, seeds))
    ensures forall j :: j in Mates(g, i) ==> Transfer(g, c, i) <= At(SharedLeast(g, seeds), j)
  {
    SharedIsSolution(g, seeds);
    SharedIsEven(g, seeds);
    TransferMonotone(g, c, SharedLeast(g, seeds), i);
  }

  // c contains its own right-hand side at every item of region outside pinned, and those
  // right-hand sides read region only.
  ghost predicate SolvedRegion(g: Net, c: Cache, region: set<Item>, pinned: set<Item>)
    requires region <= g.Items
  {
    forall x :: x in region && x !in pinned ==>
      Transfer(g, c, x) <= At(c, x) && Reads(g, c, x) <= region
  }

  // The least solution for seeds, cut down to c on the region.
  ghost function Cut(g: Net, c: Cache, region: set<Item>, seeds: set<Item>): Cache
  {
    var least := Least(g, seeds);
    map x | x in g.Items :: if x in region then At(least, x) * At(c, x) else At(least, x)
  }

  // c on the region, everything elsewhere.
  ghost function Widen(g: Net, c: Cache, region: set<Item>): Cache {
    map x | x in g.Items :: if x in region then At(c, x) else g.objs
  }

  lemma CutSolves(g: Net, c: Cache, region: set<Item>, pinned: set<Item>, seeds: set<Item>, x: Item)
    requires region <= g.Items && SolvedRegion(g, c, region, pinned) && x in g.Items
    requires x in region && x in pinned ==> Transfer(g, Least(g, seeds), x) <= At(c, x)
    ensures Transfer(g, Cut(g, c, region, seeds), x) <= At(Cut(g, c, region, seeds), x)
  {
    hide Transfer, Reads, WellFormed, InEverySolution;
    var least, cut, wide := Least(g, seeds), Cut(g, c, region, seeds), Widen(g, c, region);
    LeastIsSolution(g, seeds);
    assert Below(cut, least);
    TransferMonotone(g, cut, least, x);
    assert Transfer(g, cut, x) <= At(least, x);
    if x in region && x !in pinned {
      forall y: Item ensures At(cut, y) <= At(wide, y) {
        if y in g.Items && y !in region {
          assert At(least, y) <= g.objs;
        }
      }
      TransferMonotone(g, cut, wide, x);
      assert Reads(g, c, x) <= region;
      TransferLocal(g, c, wide, x);
      assert Transfer(g, cut, x) <= At(c, x);
    }
  }

  // Local solving is globally sound: on a region that is solved and closed under its reads,
  // the cache contains the least solution of the entire system, even though nothing outside the
  // region has been computed. Pinned items are covered when they hold what their equation yields
  // at the least solution, seeds when they hold the pre-analysis result.
  lemma SolvedRegionAboveLeast(g: Net, c: Cache, region: set<Item>, pinned: set<Item>, seeds: set<Item>)
    requires region <= g.Items && SolvedRegion(g, c, region, pinned)
    requires forall x :: x in region && x in pinned ==> Transfer(g, Least(g, seeds), x) <= At(c, x)
    requires forall x :: x in region && x in seeds ==> g.andersen[x.cur] <= At(c, x)
    ensures forall x :: x in region ==> At(Least(g, seeds), x) <= At(c, x)
  {
    var cut := Cut(g, c, region, seeds);
    LeastIsSolution(g, seeds);
    forall x | x in g.Items ensures Transfer(g, cut, x) <= At(cut, x) {
      CutSolves(g, c, region, pinned, seeds, x);
    }
    LeastBelowSolution(g, seeds, cut);
    forall x | x in region ensures At(Least(g, seeds), x) <= At(c, x) {
      assert At(Least(g, seeds), x) <= At(cut, x);
    }
  }
}
