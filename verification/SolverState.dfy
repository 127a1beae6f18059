// Snapshots of the solver's mutable fields, the invariant every call keeps, and the relation
// between the states before and after a call. All of it is stated on values, so that the
// methods of the solver class can refer to it with old().
module SolverState {
  import opened ValueFlowGraph
  import opened LeastSolution

  datatype State = State(
    visited: set<Item>,
    cache: Cache,
    registered: set<Item>,        // items entered by the current query
    loadVar: map<Item, VarId>,
    loadDpm: map<Item, Item>,
    pinned: set<Item>,            // items that hold, or are about to hold, the pre-analysis result
    fallback: set<Item>,          // items of abandoned queries
    answers: map<VarId, set<VarId>>,  // kept apart from the caches, if those are kept by item
    asked: set<VarId>,
    stale: set<Item>,             // items that may have missed the growth of a shared set they read
    outOfBudget: bool)

  // Items visited by earlier queries only.
  function Settled(s: State): set<Item> {
    s.visited - s.registered
  }

  ghost predicate Good(g: Net, s: State, x: Item)
  {
    && x in g.Items
    && Transfer(g, s.cache, x) <= At(s.cache, x)
    && Reads(g, s.cache, x) <= s.visited
  }

  // Store and memory-region items know the variable of the load they were traced from.
  ghost predicate LoadsRecorded(g: Net, s: State) {
    && s.loadVar.Keys == s.loadDpm.Keys
    && (forall x :: x in s.loadVar ==> s.loadVar[x] == x.cur)
    && (forall x :: x in s.loadDpm ==> s.loadDpm[x].loc in g.kind && g.kind[s.loadDpm[x].loc].Load?)
    && (forall x :: x in s.registered && x.loc in g.kind && !g.kind[x.loc].TopLevel() ==> x in s.loadVar)
  }

  // Only such items may ever miss something.
  ghost predicate Exposed(g: Net, x: Item) {
    exists k :: Mated(g, k) && Triggers(g, k, x)
  }

  // Between two states, the set of k, which x may read, has grown, and so has that of j, an item of the
  // current query that shares it and on whose behalf x would not be evaluated again.
  ghost predicate PassedOver(g: Net, s: State, t: State, x: Item, j: Item, k: Item) {
    && j in t.registered && j != k && Shares(g, j, k) && k in g.Items
    && Triggers(g, k, x) && At(s.cache, k) < At(t.cache, k)
    && x in t.visited && !(x in t.registered && Triggers(g, j, x))
  }

  ghost predicate Overlooked(g: Net, s: State, t: State, x: Item) {
    exists j, k :: PassedOver(g, s, t, x, j, k)
  }

  // x holds at least what its equation yields for empty sets, like the object of an address statement.
  ghost predicate Seeded(g: Net, c: Cache, x: Item) {
    x.loc in g.kind && Transfer(g, map[], x) <= At(c, x)
  }

  // Items that have been evaluated, as far as anything is claimed about them.
  ghost predicate Evaluable(s: State, dirty: set<Item>, x: Item) {
    x in s.visited && x !in s.pinned && x !in dirty && (x in Settled(s) || !s.outOfBudget)
  }

  // What holds whenever no frame is in the middle of an assignment. The items in dirty may be
  // unsolved: they are being evaluated further up the call stack, or wait to be evaluated again.
  ghost predicate Inv(g: Net, s: State, dirty: set<Item>)
  {
    && s.visited <= g.Items && s.registered <= s.visited && s.pinned <= s.visited && dirty <= s.registered
    && s.fallback <= s.pinned
    && LoadsRecorded(g, s)
    && Even(g, s.cache) && Below(s.cache, SharedLeast(g, s.pinned))
    && s.stale <= s.visited && (forall x :: x in s.stale ==> Exposed(g, x))
    && (forall x :: x in s.stale && Evaluable(s, dirty, x) ==> Seeded(g, s.cache, x))
    && SolvedRegion(g, s.cache, Settled(s), s.pinned + s.stale)
    && (forall x :: x in s.pinned && x in Settled(s) ==> g.andersen[x.cur] <= At(s.cache, x))
    && (!s.outOfBudget ==>
          && s.pinned !! s.registered
          && forall x :: x in s.registered && x !in dirty && x !in s.stale ==> Good(g, s, x))
  }

  // Nothing that x can read has changed.
  ghost predicate Steady(g: Net, c: Cache, d: Cache, x: Item) {
    forall y: Item :: Triggers(g, y, x) ==> At(c, y) == At(d, y)
  }

  // A dirty item was either solved by someone else meanwhile, or what it reads stood still, or it
  // has missed something.
  ghost predicate Kept(g: Net, s: State, t: State, x: Item)
  {
    Good(g, t, x) || Steady(g, s.cache, t.cache, x) || x in t.stale
  }

  // x shares its set with no item of the current query.
  ghost predicate Apart(g: Net, t: State, x: Item) {
    forall j :: j in t.registered ==> !Shares(g, j, x)
  }

  ghost predicate Step(g: Net, s: State, t: State, dirty: set<Item>)
  {
    && s.visited <= t.visited && s.registered <= t.registered && Settled(t) == Settled(s)
    && s.loadVar.Keys <= t.loadVar.Keys && t.pinned == s.pinned
    && t.fallback == s.fallback && t.answers == s.answers && t.asked == s.asked && s.stale <= t.stale
    && (s.outOfBudget ==> t.outOfBudget)
    && Below(s.cache, t.cache)
    && (forall x: Item :: Apart(g, t, x) ==> At(t.cache, x) == At(s.cache, x))
    && (forall x :: x in t.stale && x !in s.stale ==> Overlooked(g, s, t, x))
    && (!t.outOfBudget ==> forall x :: x in dirty ==> Kept(g, s, t, x))
  }

  lemma StepReflexive(g: Net, s: State, dirty: set<Item>)
    ensures Step(g, s, s, dirty)
  {
  }

  // A solved item stays solved as long as what it reads stands still.
  lemma GoodSteady(g: Net, s: State, t: State, x: Item)
    requires Good(g, s, x) && Steady(g, s.cache, t.cache, x)
    requires Below(s.cache, t.cache) && s.visited <= t.visited
    ensures Good(g, t, x)
  {
    forall y | y in Reads(g, s.cache, x) ensures At(s.cache, y) == At(t.cache, y) {
      ReadsTrigger(g, s.cache, x, y);
    }
    TransferLocal(g, s.cache, t.cache, x);
    assert At(s.cache, x) <= At(t.cache, x);
  }

  lemma StepGood(g: Net, s: State, t: State, dirty: set<Item>, x: Item)
    requires Step(g, s, t, dirty) && !t.outOfBudget
    requires x in dirty && Good(g, s, x)
    ensures Good(g, t, x) || x in t.stale
  {
    assert Kept(g, s, t, x);
    if !Good(g, t, x) && x !in t.stale {
      GoodSteady(g, s, t, x);
    }
  }

  lemma OverlookedTransitive(g: Net, s: State, t: State, u: State, x: Item)
    requires Below(s.cache, t.cache) && Below(t.cache, u.cache)
    requires t.visited <= u.visited && t.registered <= u.registered && Settled(t) == Settled(u)
    requires Overlooked(g, s, t, x) || Overlooked(g, t, u, x)
    ensures Overlooked(g, s, u, x)
  {
    if Overlooked(g, s, t, x) {
      var j, k :| PassedOver(g, s, t, x, j, k);
      assert At(s.cache, k) < At(t.cache, k) <= At(u.cache, k);
      assert x in t.registered || x in Settled(u);
      assert PassedOver(g, s, u, x, j, k);
    } else {
      var j, k :| PassedOver(g, t, u, x, j, k);
      assert At(s.cache, k) <= At(t.cache, k) < At(u.cache, k);
      assert PassedOver(g, s, u, x, j, k);
    }
  }

  lemma StepTransitive(g: Net, s: State, t: State, u: State, dirty: set<Item>)
    requires Step(g, s, t, dirty) && Step(g, t, u, dirty)
    ensures Step(g, s, u, dirty)
  {
    forall i: Item ensures At(s.cache, i) <= At(u.cache, i) {
      assert At(s.cache, i) <= At(t.cache, i) <= At(u.cache, i);
    }
    forall x | x in u.stale && x !in s.stale ensures Overlooked(g, s, u, x) {
      OverlookedTransitive(g, s, t, u, x);
    }
    if !u.outOfBudget {
      forall x | x in dirty ensures Kept(g, s, u, x) {
        assert Kept(g, s, t, x) && Kept(g, t, u, x);
        if Good(g, t, x) {
          StepGood(g, t, u, dirty, x);
        }
      }
    }
  }

  lemma StepCompose(g: Net, s: State, t: State, u: State, dirty: set<Item>, fewer: set<Item>)
    requires Step(g, s, t, dirty) && Step(g, t, u, fewer) && fewer <= dirty
    ensures Step(g, s, u, fewer)
  {
    StepTransitive(g, s, t, u, fewer);
  }

  // The state right after an item is marked visited and registered at its location.
  function Enter(s: State, i: Item): State {
    s.(visited := s.visited + {i}, registered := if i in s.visited then s.registered else s.registered + {i})
  }

  lemma EnterNew(g: Net, s: State, dirty: set<Item>, i: Item)
    requires Inv(g, s, dirty) && i in g.Items && i !in s.visited
    requires !g.kind[i.loc].TopLevel() ==> i in s.loadVar
    ensures Inv(g, Enter(s, i), dirty + {i})
  {
    hide WellFormed, SharedLeast, Transfer, Reads;
    var t := Enter(s, i);
    assert Settled(t) == Settled(s);
    if !s.outOfBudget {
      forall x | x in t.registered && x !in dirty + {i} && x !in t.stale ensures Good(g, t, x) {
        assert Good(g, s, x);
      }
    }
  }

  // The dirty items while dpm is being entered in state s, and once its evaluation is over.
  function Entering(s: State, dirty: set<Item>, dpm: Item): set<Item> {
    if dpm in s.visited then dirty else dirty + {dpm}
  }

  function Leaving(s: State, dirty: set<Item>, dpm: Item): set<Item> {
    if dpm in s.visited then dirty else dirty - {dpm}
  }

  // Un-visiting a registered item and entering it again leads back to the same state.
  lemma EnterCleared(t: State, dirty: set<Item>, i: Item)
    requires i in t.visited && i in t.registered && i in dirty
    ensures Enter(t.(visited := t.visited - {i}), i) == t
    ensures Entering(t.(visited := t.visited - {i}), dirty, i) == dirty
    ensures Leaving(t.(visited := t.visited - {i}), dirty, i) == dirty - {i}
  {
    assert t.visited - {i} + {i} == t.visited;
    assert t.registered + {i} == t.registered;
  }

  lemma EnterIsStep(g: Net, s: State, dirty: set<Item>, i: Item)
    requires i !in s.visited && s.registered <= s.visited
    ensures Step(g, s, Enter(s, i), dirty)
  {
    assert Settled(Enter(s, i)) == Settled(s);
  }

  lemma EnterAny(g: Net, s: State, t: State, dirty: set<Item>, i: Item)
    requires Inv(g, t, dirty) && Step(g, s, t, dirty) && i in g.Items
    requires !g.kind[i.loc].TopLevel() ==> i in t.loadVar
    ensures Inv(g, Enter(t, i), Entering(t, dirty, i))
    ensures Step(g, s, Enter(t, i), dirty)
    ensures Leaving(t, dirty, i) == dirty
  {
    hide Inv, Step, WellFormed;
    InvFacts(g, t, dirty);
    if i in t.visited {
      assert Enter(t, i) == t;
    } else {
      EnterNew(g, t, dirty, i);
      EnterIsStep(g, t, dirty, i);
      StepTransitive(g, s, t, Enter(t, i), dirty);
    }
  }

  // The parts of the invariant and of the step relation that the solver's own code relies on.
  lemma InvFacts(g: Net, s: State, dirty: set<Item>)
    requires Inv(g, s, dirty)
    ensures dirty <= s.registered <= s.visited <= g.Items && s.fallback <= s.pinned <= s.visited
    ensures LoadsRecorded(g, s)
    ensures !s.outOfBudget ==> s.pinned !! s.registered
  {
  }

  lemma EvenFacts(g: Net, s: State, dirty: set<Item>)
    requires Inv(g, s, dirty)
    ensures Even(g, s.cache) && Below(s.cache, SharedLeast(g, s.pinned))
  {
  }

  lemma StepFacts(g: Net, s: State, t: State, dirty: set<Item>)
    requires Step(g, s, t, dirty)
    ensures s.visited <= t.visited && s.registered <= t.registered && Settled(t) == Settled(s)
    ensures s.loadVar.Keys <= t.loadVar.Keys && t.pinned == s.pinned
    ensures s.outOfBudget ==> t.outOfBudget
    ensures Below(s.cache, t.cache)
  {
  }

  lemma EvaluatedBelowLeast(g: Net, s: State, dirty: set<Item>, i: Item, pts: set<VarId>)
    requires Inv(g, s, dirty) && i in g.Items && Evaluated(g, s, i, pts)
    ensures forall j :: j in Mates(g, i) ==> pts <= At(SharedLeast(g, s.pinned), j)
  {
    TransferBelowShared(g, s.pinned, s.cache, i);
  }

  lemma LoadsOnly(g: Net, s: State, t: State)
    requires LoadsRecorded(g, s) && t == s.(outOfBudget := t.outOfBudget)
    ensures LoadsRecorded(g, t)
  {
  }

  lemma BelowReflexive(c: Cache)
    ensures Below(c, c)
  {
  }

  // Once the budget is spent nothing is claimed about the items of this query.
  lemma Exhaust(g: Net, s: State, dirty: set<Item>, fewer: set<Item>)
    requires Inv(g, s, dirty) && fewer <= dirty
    ensures Inv(g, s.(outOfBudget := true), fewer)
    ensures Step(g, s, s.(outOfBudget := true), fewer)
  {
    hide WellFormed, SharedLeast, SolvedRegion, Good, Even, Below, Exposed, Seeded, LoadsRecorded, Kept;
    var t := s.(outOfBudget := true);
    assert Settled(t) == Settled(s);
    assert LoadsRecorded(g, t) by {
      LoadsOnly(g, s, t);
    }
    assert Below(s.cache, t.cache) by {
      BelowReflexive(s.cache);
    }
  }

  // The items that recomputation on behalf of i passes over although a set they may read grows with
  // the set of i.
  ghost function Missed(g: Net, s: State, i: Item): set<Item> {
    set x | x in s.visited && (exists j :: j in Mates(g, i) && j != i && Triggers(g, j, x)) &&
            !(x in s.registered && Triggers(g, i, x))
  }

  ghost function Stored(g: Net, c: Cache, i: Item, v: set<VarId>): Cache {
    c + map j | j in Mates(g, i) :: v
  }

  // The state after unioning pts into the cached set of i.
  ghost function Grow(g: Net, s: State, i: Item, pts: set<VarId>): State {
    s.(cache := Stored(g, s.cache, i, At(s.cache, i) + pts), stale := s.stale + Missed(g, s, i))
  }

  lemma GrowAt(g: Net, s: State, i: Item, pts: set<VarId>, j: Item)
    requires i in g.Items && Even(g, s.cache)
    ensures At(Grow(g, s, i, pts).cache, j) == At(s.cache, j) + if j in Mates(g, i) then pts else {}
  {
  }

  // What a by-variable map of top-level sets means for items.
  ghost function Spread(g: Net, m: map<VarId, set<VarId>>): Cache {
    map i | i in g.Items && TopLevelItem(g, i) && i.cur in m && m[i.cur] != {} :: m[i.cur]
  }

  // Storing what is there already changes nothing.
  lemma SpreadSame(g: Net, m: map<VarId, set<VarId>>, v: VarId, pts: set<VarId>)
    requires pts == if v in m then m[v] else {}
    ensures Spread(g, m[v := pts]) == Spread(g, m)
  {
  }

  lemma StoreByVariableAt(g: Net, m: map<VarId, set<VarId>>, d: Cache, i: Item, v: set<VarId>, j: Item)
    requires g.byVariable && i in g.Items && TopLevelItem(g, i) && v != {}
    requires forall k :: k in d ==> !TopLevelItem(g, k)
    ensures var l, r := Spread(g, m[i.cur := v]) + d, Stored(g, Spread(g, m) + d, i, v);
            (j in l <==> j in r) && (j in l ==> l[j] == r[j])
  {
    hide WellFormed, TopLevelItem;
    if j in Mates(g, i) {
      assert TopLevelItem(g, j) && j !in d;
    }
  }

  // Storing by variable stores into all items that share the set.
  lemma StoreByVariable(g: Net, m: map<VarId, set<VarId>>, d: Cache, i: Item, v: set<VarId>)
    requires g.byVariable && i in g.Items && TopLevelItem(g, i) && v != {}
    requires forall j :: j in d ==> !TopLevelItem(g, j)
    ensures Spread(g, m[i.cur := v]) + d == Stored(g, Spread(g, m) + d, i, v)
  {
    hide WellFormed, TopLevelItem, Spread, Stored;
    var l, r := Spread(g, m[i.cur := v]) + d, Stored(g, Spread(g, m) + d, i, v);
    forall j ensures (j in l <==> j in r) && (j in l ==> l[j] == r[j]) {
      StoreByVariableAt(g, m, d, i, v, j);
    }
  }

  // The two caches have disjoint keys, so storing into either stores into their union.
  lemma StoreLeft(g: Net, c: Cache, d: Cache, i: Item, v: set<VarId>)
    requires i in g.Items && i !in d && Mates(g, i) == {i}
    ensures c[i := v] + d == Stored(g, c + d, i, v)
  {
  }

  lemma StoreRight(g: Net, c: Cache, d: Cache, i: Item, v: set<VarId>)
    requires Mates(g, i) == {i}
    ensures c + d[i := v] == Stored(g, c + d, i, v)
  {
  }

  lemma NoMates(g: Net, i: Item)
    requires i in g.Items && (!g.byVariable || !TopLevelItem(g, i))
    ensures Mates(g, i) == {i}
  {
  }

  ghost function Triggered(g: Net, s: State, i: Item): set<Item> {
    set x | x in s.registered && Triggers(g, i, x)
  }

  // What a frame knows about its item i and the set pts it has computed.
  ghost predicate Evaluated(g: Net, s: State, i: Item, pts: set<VarId>)
    requires i in g.Items
  {
    && Transfer(g, map[], i) <= pts <= Transfer(g, s.cache, i)
    && (!s.outOfBudget ==>
          Good(g, s, i) || i in s.stale || (Transfer(g, s.cache, i) <= pts && Reads(g, s.cache, i) <= s.visited))
  }

  // An item that neither i nor anything sharing its set triggers is untouched when i grows.
  lemma GrowUntriggered(g: Net, s: State, i: Item, pts: set<VarId>, x: Item)
    requires x in g.Items && i in g.Items && Even(g, s.cache)
    requires forall j :: j in Mates(g, i) ==> !Triggers(g, j, x)
    ensures Steady(g, s.cache, Grow(g, s, i, pts).cache, x)
    ensures Transfer(g, Grow(g, s, i, pts).cache, x) == Transfer(g, s.cache, x)
    ensures Reads(g, Grow(g, s, i, pts).cache, x) == Reads(g, s.cache, x)
  {
    hide Grow, Triggers;
    var d := Grow(g, s, i, pts).cache;
    forall y | Triggers(g, y, x) ensures At(s.cache, y) == At(d, y) {
      GrowAt(g, s, i, pts, y);
    }
    forall y | y in Reads(g, s.cache, x) ensures At(s.cache, y) == At(d, y) {
      ReadsTrigger(g, s.cache, x, y);
    }
    TransferLocal(g, s.cache, d, x);
  }

  lemma GrowBelow(g: Net, s: State, i: Item, pts: set<VarId>, L: Cache)
    requires i in g.Items && Even(g, s.cache)
    requires Below(s.cache, L) && forall j :: j in Mates(g, i) ==> pts <= At(L, j)
    ensures Below(Grow(g, s, i, pts).cache, L)
    ensures Below(s.cache, Grow(g, s, i, pts).cache) && Even(g, Grow(g, s, i, pts).cache)
  {
    hide Grow;
    forall y: Item
      ensures At(Grow(g, s, i, pts).cache, y) <= At(L, y)
      ensures At(s.cache, y) <= At(Grow(g, s, i, pts).cache, y)
    {
      GrowAt(g, s, i, pts, y);
      assert At(s.cache, y) <= At(L, y);
    }
    forall y, z | y in g.Items && z in g.Items && Shares(g, y, z)
      ensures At(Grow(g, s, i, pts).cache, y) == At(Grow(g, s, i, pts).cache, z)
    {
      GrowAt(g, s, i, pts, y);
      GrowAt(g, s, i, pts, z);
    }
  }

  // An item settled by an earlier query stays solved unless it has missed something.
  lemma GrowSettledItem(g: Net, s: State, dirty: set<Item>, i: Item, pts: set<VarId>, x: Item)
    requires Inv(g, s, dirty) && i in s.registered
    requires x in Settled(s) && x !in s.pinned && x !in Grow(g, s, i, pts).stale
    ensures Transfer(g, Grow(g, s, i, pts).cache, x) <= At(Grow(g, s, i, pts).cache, x)
    ensures Reads(g, Grow(g, s, i, pts).cache, x) <= Settled(s)
  {
    hide WellFormed, SharedLeast, Good, LoadsRecorded, Triggers;
    var d := Grow(g, s, i, pts).cache;
    forall y | y in Reads(g, s.cache, x) ensures At(s.cache, y) == At(d, y) {
      ReadsTrigger(g, s.cache, x, y);
      GrowAt(g, s, i, pts, y);
      assert y in Settled(s) && y != i;
      assert y in Mates(g, i) ==> x in Missed(g, s, i);
    }
    TransferLocal(g, s.cache, d, x);
    GrowAt(g, s, i, pts, x);
  }

  lemma GrowSettled(g: Net, s: State, dirty: set<Item>, i: Item, pts: set<VarId>)
    requires Inv(g, s, dirty) && i in s.registered
    ensures SolvedRegion(g, Grow(g, s, i, pts).cache, Settled(s), s.pinned + Grow(g, s, i, pts).stale)
  {
    hide Inv, Grow, Missed;
    InvFacts(g, s, dirty);
    forall x | x in Settled(s) && x !in s.pinned + Grow(g, s, i, pts).stale
      ensures Transfer(g, Grow(g, s, i, pts).cache, x) <= At(Grow(g, s, i, pts).cache, x)
      ensures Reads(g, Grow(g, s, i, pts).cache, x) <= Settled(s)
    {
      GrowSettledItem(g, s, dirty, i, pts, x);
    }
  }

  lemma GrowGood(g: Net, s: State, dirty: set<Item>, i: Item, pts: set<VarId>, x: Item)
    requires Inv(g, s, dirty) && i in dirty && !s.outOfBudget
    requires Evaluated(g, s, i, pts)
    requires x in s.registered && x !in (dirty - {i}) + Triggered(g, s, i) && x !in Grow(g, s, i, pts).stale
    ensures Good(g, Grow(g, s, i, pts), x)
  {
    assert forall j :: j in Mates(g, i) ==> !Triggers(g, j, x) by {
      assert x !in Missed(g, s, i) && !Triggers(g, i, x);
    }
    GrowUntriggered(g, s, i, pts, x);
    GrowAt(g, s, i, pts, x);
    if x != i {
      assert Good(g, s, x);
    }
  }

  // Storing the evaluated set leaves exactly the triggered items to be evaluated again, and the
  // missed ones behind.
  lemma GrowKeepsInv(g: Net, s: State, dirty: set<Item>, i: Item, pts: set<VarId>)
    requires Inv(g, s, dirty) && i in dirty
    requires forall j :: j in Mates(g, i) ==> pts <= At(SharedLeast(g, s.pinned), j)
    requires !s.outOfBudget ==> Evaluated(g, s, i, pts)
    ensures Inv(g, Grow(g, s, i, pts), (dirty - {i}) + Triggered(g, s, i))
  {
    hide Grow, Missed, Good, SharedLeast, Transfer, Reads, Even, Evaluated, SolvedRegion, Triggered, Alone, Mates;
    var t := Grow(g, s, i, pts);
    GrowSettled(g, s, dirty, i, pts);
    GrowBelow(g, s, i, pts, SharedLeast(g, s.pinned));
    GrowFrame(g, s, i, pts);
    GrowStale(g, s, dirty, i, pts);
    if !s.outOfBudget {
      forall x | x in s.registered && x !in (dirty - {i}) + Triggered(g, s, i) && x !in t.stale
        ensures Good(g, t, x)
      {
        GrowGood(g, s, dirty, i, pts, x);
      }
    }
    forall x | x in s.pinned && x in Settled(s) ensures g.andersen[x.cur] <= At(t.cache, x) {
      assert At(s.cache, x) <= At(t.cache, x);
    }
  }

  // Growing touches nothing but the cache and the items missed.
  lemma GrowFrame(g: Net, s: State, i: Item, pts: set<VarId>)
    requires s.visited <= g.Items && s.registered <= s.visited
    ensures var t := Grow(g, s, i, pts);
            && t == s.(cache := t.cache, stale := t.stale) && Settled(t) == Settled(s)
            && t.stale == s.stale + Missed(g, s, i) && Missed(g, s, i) <= g.Items
            && Triggered(g, s, i) <= s.registered
  {
  }

  // A visited item that was in order, or has been evaluated just now, holds its seed.
  lemma SeededBefore(g: Net, s: State, dirty: set<Item>, x: Item)
    requires Inv(g, s, dirty) && Evaluable(s, dirty, x)
    ensures Seeded(g, s.cache, x)
  {
    hide WellFormed, SharedLeast, LoadsRecorded, Transfer, Reads, Even;
    TransferMonotone(g, map[], s.cache, x);
    if x !in s.stale && x in s.registered {
      assert Good(g, s, x);
    }
  }

  lemma MissedIsExposed(g: Net, s: State, i: Item, x: Item)
    requires i in g.Items && x in Missed(g, s, i)
    ensures Exposed(g, x) && x in s.visited
  {
    var j :| j in Mates(g, i) && j != i && Triggers(g, j, x);
    assert Shares(g, j, i) && Mated(g, j);
  }

  lemma GrowStale(g: Net, s: State, dirty: set<Item>, i: Item, pts: set<VarId>)
    requires Inv(g, s, dirty) && i in dirty && i in g.Items
    requires !s.outOfBudget ==> Evaluated(g, s, i, pts)
    ensures var t, dirty' := Grow(g, s, i, pts), (dirty - {i}) + Triggered(g, s, i);
            && t.stale <= t.visited && (forall x :: x in t.stale ==> Exposed(g, x))
            && (forall x :: x in t.stale && Evaluable(t, dirty', x) ==> Seeded(g, t.cache, x))
  {
    var t, dirty' := Grow(g, s, i, pts), (dirty - {i}) + Triggered(g, s, i);
    forall x | x in t.stale ensures Exposed(g, x) && x in t.visited {
      if x !in s.stale {
        MissedIsExposed(g, s, i, x);
      }
    }
    forall x | x in t.stale && Evaluable(t, dirty', x) ensures Seeded(g, t.cache, x) {
      EvenFacts(g, s, dirty);
      GrowAt(g, s, i, pts, x);
      if x != i {
        SeededBefore(g, s, dirty, x);
      }
    }
  }

  lemma AloneMissesNothing(g: Net, s: State, i: Item)
    requires i in g.Items
    ensures Alone(g) ==> Missed(g, s, i) == {}
  {
  }

  lemma MissedIsOverlooked(g: Net, s: State, i: Item, pts: set<VarId>, x: Item)
    requires i in g.Items && i in s.registered && Even(g, s.cache) && !(pts <= At(s.cache, i))
    requires x in Missed(g, s, i)
    ensures Overlooked(g, s, Grow(g, s, i, pts), x)
  {
    var k :| k in Mates(g, i) && k != i && Triggers(g, k, x);
    GrowAt(g, s, i, pts, k);
    assert At(s.cache, k) == At(s.cache, i);
    assert PassedOver(g, s, Grow(g, s, i, pts), x, i, k);
  }

  lemma GrowIsStep(g: Net, s: State, dirty: set<Item>, i: Item, pts: set<VarId>)
    requires Inv(g, s, dirty) && i in dirty && !(pts <= At(s.cache, i))
    ensures Step(g, s, Grow(g, s, i, pts), dirty - {i} - Triggered(g, s, i))
  {
    hide WellFormed, SharedLeast, Good, LoadsRecorded, SolvedRegion, Triggers, Stored;
    var t := Grow(g, s, i, pts);
    forall x | x in Missed(g, s, i) ensures Overlooked(g, s, t, x) {
      MissedIsOverlooked(g, s, i, pts, x);
    }
    forall x | x in dirty - {i} - Triggered(g, s, i) ensures Kept(g, s, t, x) {
      if x !in t.stale {
        GrowUntriggered(g, s, i, pts, x);
      }
    }
    forall x: Item ensures At(s.cache, x) <= At(t.cache, x) && (Apart(g, t, x) ==> At(t.cache, x) == At(s.cache, x)) {
      GrowAt(g, s, i, pts, x);
    }
  }

  // If the stored set does not grow, the item is solved already.
  lemma NoGrowthIsGood(g: Net, s: State, dirty: set<Item>, i: Item, pts: set<VarId>)
    requires Inv(g, s, dirty) && i in dirty && i in g.Items
    requires pts <= At(s.cache, i) && (!s.outOfBudget ==> Evaluated(g, s, i, pts))
    ensures Inv(g, s, dirty - {i})
  {
    hide WellFormed, SharedLeast;
  }

  lemma DirtyWiden(g: Net, s: State, dirty: set<Item>, more: set<Item>)
    requires Inv(g, s, dirty) && dirty <= more <= s.registered
    ensures Inv(g, s, more)
  {
  }

  function Registered(m: map<NodeId, set<Item>>): set<Item> {
    set n, x | n in m && x in m[n] :: x
  }

  lemma RegisterAdds(m: map<NodeId, set<Item>>, i: Item)
    ensures Registered(m[i.loc := (if i.loc in m then m[i.loc] else {}) + {i}]) == Registered(m) + {i}
  {
    var d := m[i.loc := (if i.loc in m then m[i.loc] else {}) + {i}];
    forall x | x in Registered(m) + {i} ensures x in Registered(d) {
      if x == i {
        assert i.loc in d && x in d[i.loc];
      } else {
        var n :| n in m && x in m[n];
        assert n in d && x in d[n];
      }
    }
  }

  lemma NothingRegistered()
    ensures Registered(map[]) == {}
  {
  }

  lemma AtLocation(m: map<NodeId, set<Item>>, n: NodeId)
    requires n in m && forall k, x :: k in m && x in m[k] ==> x.loc == k
    ensures forall x :: x in Registered(m) && x.loc == n <==> x in m[n]
  {
  }

  // ---- a frame collecting the cached sets of the items it reads ----

  ghost predicate Covered(s: State, xs: set<Item>, pts: set<VarId>) {
    forall x :: x in xs ==> x in s.visited && At(s.cache, x) <= pts
  }

  // A frame on item i that is either superseded by another evaluation of i, or has collected xs.
  ghost predicate Collected(g: Net, s: State, i: Item, xs: set<Item>, pts: set<VarId>)
  {
    Good(g, s, i) || i in s.stale || Covered(s, xs, pts)
  }

  // Collected sets stay current across a call: had one of them grown, i would have been
  // evaluated again meanwhile.
  lemma CollectedStep(g: Net, s: State, t: State, dirty: set<Item>, i: Item, xs: set<Item>, pts: set<VarId>)
    requires Step(g, s, t, dirty) && i in dirty && !t.outOfBudget
    requires Collected(g, s, i, xs, pts) && forall x :: x in xs ==> Triggers(g, x, i)
    ensures Collected(g, t, i, xs, pts)
  {
    if Good(g, s, i) {
      StepGood(g, s, t, dirty, i);
    } else {
      assert Kept(g, s, t, i) && s.stale <= t.stale;
    }
  }

  lemma DirectTriggers(g: Net, i: Item)
    ensures forall x :: x in DirectReads(g, i.loc) ==> Triggers(g, x, i)
  {
    forall x | x in DirectReads(g, i.loc) ensures Triggers(g, x, i) {
      var e :| e in g.edges && e.Direct? && e.dst == i.loc && x == DirectItem(g, e);
      assert TriggersVia(g, e, x, i);
    }
  }

  lemma IndirectTriggers(g: Net, i: Item, v: VarId)
    requires i in g.Items && (g.kind[i.loc].Load? || v == i.cur)
    ensures forall x :: x in IndirectReads(g, i.loc, v) ==> Triggers(g, x, i)
  {
    forall x | x in IndirectReads(g, i.loc, v) ensures Triggers(g, x, i) {
      var e :| e in g.edges && e.Indirect? && e.dst == i.loc && x == Item(v, e.src);
      assert TriggersVia(g, e, x, i);
    }
  }

  lemma OperandTriggers(g: Net, v: VarId, i: Item)
    requires OperandEdge(g, v, i.loc)
    ensures DefItem(g, v) in g.Items && Triggers(g, DefItem(g, v), i)
  {
    assert WellFormedEdge(g, Direct(g.def[v], i.loc));
    assert TriggersVia(g, Direct(g.def[v], i.loc), DefItem(g, v), i);
  }

  function RecordLoad(s: State, i: Item, loadDpm: Item, v: VarId): State {
    s.(loadVar := s.loadVar[i := v], loadDpm := s.loadDpm[i := loadDpm])
  }

  lemma RecordLoadKeepsInv(g: Net, s: State, dirty: set<Item>, i: Item, loadDpm: Item)
    requires Inv(g, s, dirty) && loadDpm.loc in g.kind && g.kind[loadDpm.loc].Load?
    ensures Inv(g, RecordLoad(s, i, loadDpm, i.cur), dirty)
  {
    hide SharedLeast, WellFormed, SolvedRegion;
    var t := RecordLoad(s, i, loadDpm, i.cur);
    assert Settled(t) == Settled(s);
    assert LoadsRecorded(g, t);
    if !s.outOfBudget {
      forall x | x in s.registered && x !in dirty && x !in s.stale ensures Good(g, t, x) {
        assert Good(g, s, x);
      }
    }
  }

  lemma RecordLoadIsStep(g: Net, s: State, dirty: set<Item>, i: Item, loadDpm: Item)
    ensures Step(g, s, RecordLoad(s, i, loadDpm, i.cur), dirty)
  {
    assert Settled(RecordLoad(s, i, loadDpm, i.cur)) == Settled(s);
  }

  // ---- termination measure ----

  // The facts that can still be added to the cache.
  ghost function Room(g: Net, c: Cache): set<(Item, VarId)> {
    set i, o | i in g.Items && o in g.objs && o !in At(c, i) :: (i, o)
  }

  ghost function Capacity(g: Net, c: Cache): nat {
    |Room(g, c)|
  }

  ghost function Fresh(g: Net, visited: set<Item>): nat {
    |g.Items - visited|
  }

  lemma RoomShrinks(g: Net, c: Cache, d: Cache, i: Item, o: VarId)
    requires Below(c, d) && i in g.Items && o in g.objs && o in At(d, i) - At(c, i)
    ensures Capacity(g, d) < Capacity(g, c)
  {
    forall p | p in Room(g, d) ensures p in Room(g, c) - {(i, o)} {
      assert At(c, p.0) <= At(d, p.0);
    }
    SubsetSize(Room(g, d), Room(g, c) - {(i, o)});
  }

  lemma SubsetSize<T>(a: set<T>, b: set<T>)
    requires a <= b
    ensures |a| <= |b|
  {
    assert b == a + (b - a);
  }

  lemma VisitOne(g: Net, visited: set<Item>, i: Item)
    requires i in g.Items && i !in visited
    ensures Fresh(g, visited + {i}) == Fresh(g, visited) - 1
  {
    assert g.Items - (visited + {i}) == (g.Items - visited) - {i};
  }

  lemma UnvisitOne(g: Net, visited: set<Item>, i: Item)
    requires i in g.Items && i in visited
    ensures Fresh(g, visited - {i}) == Fresh(g, visited) + 1 <= |g.Items|
  {
    hide WellFormed;
    assert g.Items - (visited - {i}) == (g.Items - visited) + {i};
    SubsetSize(g.Items - (visited - {i}), g.Items);
  }

  // ---- storing a result and evaluating its dependents again ----

  lemma GrowBegins(g: Net, s: State, dirty: set<Item>, i: Item, pts: set<VarId>)
    requires Inv(g, s, dirty) && i in dirty && i in g.Items && !(pts <= At(s.cache, i))
    requires Evaluated(g, s, i, pts) ||
             (s.outOfBudget && forall j :: j in Mates(g, i) ==> pts <= At(SharedLeast(g, s.pinned), j))
    ensures Inv(g, Grow(g, s, i, pts), (dirty - {i}) + Triggered(g, s, i))
    ensures Step(g, s, Grow(g, s, i, pts), dirty - {i} - Triggered(g, s, i))
    ensures Capacity(g, Grow(g, s, i, pts).cache) < Capacity(g, s.cache)
  {
    hide Inv, Step;
    if Evaluated(g, s, i, pts) {
      EvaluatedBelowLeast(g, s, dirty, i, pts);
    }
    GrowKeepsInv(g, s, dirty, i, pts);
    GrowIsStep(g, s, dirty, i, pts);
    var o :| o in pts && o !in At(s.cache, i);
    assert i in Mates(g, i) && o in At(SharedLeast(g, s.pinned), i);
    EvenFacts(g, s, dirty);
    GrowAt(g, s, i, pts, i);
    StepFacts(g, s, Grow(g, s, i, pts), dirty - {i} - Triggered(g, s, i));
    hide Grow;
    RoomShrinks(g, s.cache, Grow(g, s, i, pts).cache, i, o);
  }

  lemma NoGrowth(g: Net, s: State, dirty: set<Item>, i: Item, pts: set<VarId>)
    requires Inv(g, s, dirty) && i in dirty && i in g.Items && pts <= At(s.cache, i)
    requires Evaluated(g, s, i, pts) || s.outOfBudget
    ensures Inv(g, s, dirty - {i}) && Step(g, s, s, dirty - {i})
  {
    NoGrowthIsGood(g, s, dirty, i, pts);
    StepReflexive(g, s, dirty - {i});
  }

  // The triggered items in done have been evaluated since their source grew.
  ghost predicate Redone(g: Net, s: State, done: set<Item>) {
    !s.outOfBudget ==> forall x :: x in done ==> Good(g, s, x) || x in s.stale
  }

  // Whatever happened meanwhile, xs hold at least what their equations yield for the sets in base.
  ghost predicate Renewed(g: Net, base: Cache, s: State, xs: set<Item>)
  {
    !s.outOfBudget ==> forall x :: x in xs ==> x in g.Items && Transfer(g, base, x) <= At(s.cache, x)
  }

  lemma NothingRenewed(g: Net, base: Cache, s: State, xs: set<Item>)
    requires xs == {}
    ensures Renewed(g, base, s, xs)
  {
  }

  // One more item has been evaluated in the call leading from t to u.
  lemma RenewOne(g: Net, base: Cache, t: State, u: State, first: set<Item>, left: set<Item>, x: Item)
    requires Below(base, t.cache) && Below(t.cache, u.cache) && (t.outOfBudget ==> u.outOfBudget)
    requires Renewed(g, base, t, first - left) && x in g.Items
    requires !u.outOfBudget ==> Transfer(g, t.cache, x) <= At(u.cache, x)
    ensures Renewed(g, base, u, first - (left - {x}))
  {
    if !u.outOfBudget {
      forall y | y in first - (left - {x}) ensures y in g.Items && Transfer(g, base, y) <= At(u.cache, y) {
        if y == x {
          TransferMonotone(g, base, t.cache, x);
        } else {
          assert At(t.cache, y) <= At(u.cache, y);
        }
      }
    }
  }

  lemma NothingRedone(g: Net, s: State, done: set<Item>)
    requires done == {}
    ensures Redone(g, s, done)
  {
  }

  // One dependent x has been evaluated again, in a call leading from t to u.
  lemma RedoOne(g: Net, s: State, t: State, u: State, base: set<Item>, pending: set<Item>,
                first: set<Item>, x: Item)
    requires Inv(g, t, base + pending) && base <= s.registered && x in t.registered
    requires first <= s.registered && (x in s.registered ==> x in first)
    requires Step(g, s, t, base - first) && Redone(g, t, base * first - pending)
    requires Inv(g, u, base + pending + {x} - {x}) && Step(g, t, u, base + pending + {x} - {x})
    ensures Inv(g, u, base + (pending - {x}))
    ensures Step(g, s, u, base - first) && Redone(g, u, base * first - (pending - {x}))
  {
    hide Inv, Step;
    StepFacts(g, t, u, base + pending + {x} - {x});
    InvFacts(g, t, base + pending);
    InvFacts(g, u, base + pending + {x} - {x});
    assert Step(g, t, u, base - first) by {
      assert base - first <= base + pending + {x} - {x};
      StepNarrow(g, t, u, base + pending + {x} - {x}, base - first);
    }
    StepTransitive(g, s, t, u, base - first);
    RedoInv(g, t, u, base, pending, x);
    if !u.outOfBudget {
      forall y | y in base * first - (pending - {x}) ensures Good(g, u, y) || y in u.stale {
        RedoGood(g, t, u, base, pending, first, x, y);
      }
    }
  }

  lemma StepNarrow(g: Net, s: State, t: State, dirty: set<Item>, fewer: set<Item>)
    requires Step(g, s, t, dirty) && fewer <= dirty
    ensures Step(g, s, t, fewer)
  {
  }

  lemma RedoInv(g: Net, t: State, u: State, base: set<Item>, pending: set<Item>, x: Item)
    requires Inv(g, t, base + pending) && x in t.registered
    requires Inv(g, u, base + pending + {x} - {x}) && t.registered <= u.registered
    ensures Inv(g, u, base + (pending - {x}))
  {
    DirtyWiden(g, u, base + pending + {x} - {x}, base + (pending - {x}));
  }

  lemma RedoGood(g: Net, t: State, u: State, base: set<Item>, pending: set<Item>,
                 first: set<Item>, x: Item, y: Item)
    requires Inv(g, t, base + pending) && x in t.registered && !u.outOfBudget
    requires Redone(g, t, base * first - pending)
    requires Inv(g, u, base + pending + {x} - {x}) && Step(g, t, u, base + pending + {x} - {x})
    requires y in base * first - (pending - {x})
    ensures Good(g, u, y) || y in u.stale
  {
    if y != x {
      assert Good(g, t, y) || y in t.stale;
      if Good(g, t, y) {
        StepGood(g, t, u, base + pending + {x} - {x}, y);
      }
    }
  }

  // Growing i and then evaluating its dependents again adds up to one step for all of base.
  lemma Recomputed(g: Net, s: State, t: State, u: State, base: set<Item>, first: set<Item>)
    requires Step(g, s, t, base - first) && Step(g, t, u, base - first)
    requires Redone(g, u, base * first)
    ensures Step(g, s, u, base)
  {
    StepTransitive(g, s, t, u, base - first);
    if !u.outOfBudget {
      forall x | x in base ensures Kept(g, s, u, x) {
        if x in first {
          assert Good(g, u, x) || x in u.stale;
        }
      }
    }
  }
}
