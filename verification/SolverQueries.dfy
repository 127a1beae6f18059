// What the solver's state means between two queries, and how good the recorded answers are.
module SolverQueries {
  import opened ValueFlowGraph
  import opened LeastSolution
  import opened SolverState

  // A pointer the client may ask about: it has a defining statement.
  predicate Queryable(g: Graph, v: VarId) {
    DefinedAt(g, v) && g.def[v] in g.kind && g.kind[g.def[v]].TopLevel()
  }

  // What the client is told about v: sets kept by variable are answers and caches at once.
  ghost function AnswerOf(g: Net, s: State, v: VarId): set<VarId> {
    if g.byVariable then (if v in g.def then At(s.cache, DefItem(g, v)) else {})
    else if v in s.answers then s.answers[v]
    else {}
  }

  // The answer to a query is the cached set of its root item, or at least the pre-analysis result
  // if the query was abandoned.
  ghost predicate AnswerRecorded(g: Net, s: State, v: VarId)
  {
    && Queryable(g, v)
    && var root, answer := DefItem(g, v), AnswerOf(g, s, v);
    && root in s.visited
    && answer <= At(s.cache, root)
    && (if root in s.pinned then g.andersen[v] <= answer else answer == At(s.cache, root))
    && (s.outOfBudget && root in s.registered ==> root in s.pinned)
  }

  // A fallback item is the root of an abandoned query and holds the pre-analysis result.
  ghost predicate FallenBack(g: Net, s: State, x: Item) {
    x in g.Items && g.andersen[x.cur] <= At(s.cache, x)
  }

  // The state between queries.
  ghost predicate Idle(g: Net, s: State) {
    && Inv(g, s, {})
    && s.fallback == s.pinned
    && (forall x :: x in s.pinned ==> FallenBack(g, s, x))
    && (forall v :: v in s.asked ==> AnswerRecorded(g, s, v))
    && (if g.byVariable then s.answers == map[] else s.answers.Keys == s.asked)
  }

  // What resetting makes of the state: an abandoned query loses the visited flags of exactly the
  // items it entered, fallback items excepted; caches and answers survive. What is not visited any more
  // will be evaluated afresh, so it has missed nothing.
  function Reset(s: State): State {
    var visited := if s.outOfBudget then s.visited - (s.registered - s.fallback) else s.visited;
    s.(visited := visited, registered := {}, loadVar := map[], loadDpm := map[], stale := s.stale * visited,
       outOfBudget := false)
  }

  lemma ResetRegion(g: Net, s: State)
    requires Idle(g, s)
    ensures SolvedRegion(g, s.cache, Reset(s).visited, s.pinned + s.stale)
  {
    var visited := Reset(s).visited;
    forall x | x in visited && x !in s.pinned + s.stale
      ensures Transfer(g, s.cache, x) <= At(s.cache, x) && Reads(g, s.cache, x) <= visited
    {
      if x in s.registered {
        assert Good(g, s, x);
      } else {
        assert x in Settled(s) && Settled(s) <= visited;
      }
    }
  }

  // After a reset every visited item is trusted: solved, and closed under what it reads.
  lemma ResetIsIdle(g: Net, s: State)
    requires Idle(g, s)
    ensures Idle(g, Reset(s)) && Settled(Reset(s)) == Reset(s).visited
  {
    hide Transfer, Reads, SharedLeast, Even, Below, Alone;
    ResetRegion(g, s);
    var t := Reset(s);
    assert Settled(t) == t.visited;
    forall x | x in t.stale && x !in t.pinned ensures Seeded(g, t.cache, x) {
      assert x in Settled(s) || (x in s.registered && !s.outOfBudget);
      assert Evaluable(s, {}, x);
    }
    forall v | v in t.asked ensures AnswerRecorded(g, t, v) {
      assert AnswerRecorded(g, s, v);
    }
  }

  lemma IdleRegistered(g: Net, s: State)
    requires Idle(g, s)
    ensures s.registered <= s.visited
  {
  }

  lemma ResetReady(g: Net, s: State, root: Item)
    requires Idle(g, s) && s.registered == {} && root in g.Items && g.kind[root.loc].TopLevel()
    ensures Inv(g, Enter(s, root), Entering(s, {}, root))
  {
    if root !in s.visited {
      EnterNew(g, s, {}, root);
    } else {
      assert Enter(s, root) == s;
    }
  }

  function Answer(g: Graph, s: State, v: VarId, pts: set<VarId>): State {
    if g.byVariable then s.(asked := s.asked + {v})
    else s.(answers := s.answers[v := (if v in s.answers then s.answers[v] else {}) + pts], asked := s.asked + {v})
  }

  // How a query leaves what earlier queries have settled: the same items, and the same cached sets
  // unless those are shared with items of the query.
  ghost predicate Undisturbed(g: Net, s: State, t: State) {
    && Settled(t) == Settled(s) && s.visited <= t.visited && s.stale <= t.stale
    && t.pinned == s.pinned && t.fallback == s.fallback && t.answers == s.answers && t.asked == s.asked
    && Below(s.cache, t.cache)
    && (forall x :: x in t.stale && x !in s.stale ==> Overlooked(g, s, t, x))
    && (Alone(g) ==> forall x :: x in Settled(s) ==> At(t.cache, x) == At(s.cache, x))
  }

  lemma StepUndisturbed(g: Net, s: State, t: State, dirty: set<Item>, root: Item)
    requires s.registered == {} && Step(g, Enter(s, root), t, dirty) && s.visited <= g.Items && t.registered <= g.Items
    ensures Undisturbed(g, s, t)
  {
    assert Settled(Enter(s, root)) == Settled(s);
    StepKeepsSettled(g, Enter(s, root), t, dirty);
    forall x | x in t.stale && x !in s.stale ensures Overlooked(g, s, t, x) {
      var j, k :| PassedOver(g, Enter(s, root), t, x, j, k);
      assert PassedOver(g, s, t, x, j, k);
    }
  }

  lemma StepKeepsSettled(g: Net, s: State, t: State, dirty: set<Item>)
    requires Step(g, s, t, dirty) && Settled(s) <= g.Items && t.registered <= g.Items
    ensures Undisturbed(g, s, t)
  {
    forall x | x in Settled(s) && Alone(g) ensures At(t.cache, x) == At(s.cache, x) {
      assert x in Settled(t);
      assert Apart(g, t, x);
    }
  }

  lemma ByItemIsAlone(g: Net)
    ensures !g.byVariable ==> Alone(g)
  {
  }

  // Answers recorded before a query are untouched by it.
  lemma OldAnswersStay(g: Net, s: State, t: State, w: VarId)
    requires Undisturbed(g, s, t) && AnswerRecorded(g, s, w) && DefItem(g, w) in Settled(s)
    ensures AnswerRecorded(g, t, w) && DefItem(g, w) in Settled(t)
    ensures AnswerOf(g, s, w) <= AnswerOf(g, t, w) && (Alone(g) ==> AnswerOf(g, t, w) == AnswerOf(g, s, w))
  {
    hide Alone, WellFormed;
    ByItemIsAlone(g);
    assert At(s.cache, DefItem(g, w)) <= At(t.cache, DefItem(g, w));
  }

  // A query for v takes nothing away from earlier answers. If no set is shared it adds nothing either,
  // except to the answer of an abandoned query that is asked again.
  ghost predicate AnswersKept(g: Net, s: State, t: State, v: VarId)
    requires Idle(g, s)
  {
    forall w :: w in s.asked ==>
      && AnswerRecorded(g, s, w) && AnswerOf(g, s, w) <= AnswerOf(g, t, w)
      && (Alone(g) && (w != v || DefItem(g, w) !in s.fallback) ==> AnswerOf(g, t, w) == AnswerOf(g, s, w))
  }

  lemma PinnedAreFallbacks(g: Net, s: State, t: State)
    requires Idle(g, s) && Undisturbed(g, s, t)
    ensures t.pinned == t.fallback
  {
  }

  lemma FallbacksStay(g: Net, s: State, t: State)
    requires Idle(g, s) && Undisturbed(g, s, t)
    ensures forall x :: x in t.pinned ==> FallenBack(g, t, x)
  {
    hide Inv, Alone, WellFormed;
    forall x | x in t.pinned ensures FallenBack(g, t, x) {
      OldFallbacksStay(g, s, t, x);
    }
  }

  // The root of an answered query is visited at the start of the next one.
  lemma AnsweredStayVisited(g: Net, s: State, v: VarId)
    requires Idle(g, s)
    ensures v in s.asked ==> Queryable(g, v) && DefItem(g, v) in Reset(s).visited
  {
    if v in s.asked {
      assert AnswerRecorded(g, s, v);
    }
  }

  // Asking the same query again adds nothing to an answer found within the budget.
  lemma SameAnswerAgain(g: Net, s: State, v: VarId)
    requires Idle(g, s) && Queryable(g, v)
    ensures v in s.asked && DefItem(g, v) !in s.fallback ==> AnswerOf(g, s, v) == At(s.cache, DefItem(g, v))
  {
    if v in s.asked {
      assert AnswerRecorded(g, s, v);
    }
  }

  lemma OldFallbacksStay(g: Net, s: State, t: State, x: Item)
    requires FallenBack(g, s, x) && Undisturbed(g, s, t)
    ensures FallenBack(g, t, x)
  {
    assert At(s.cache, x) <= At(t.cache, x);
  }

  lemma Recorded(g: Net, s: State, v: VarId)
    requires Idle(g, s) && v in s.asked
    ensures AnswerRecorded(g, s, v)
  {
  }

  lemma AnswersAreAsked(g: Net, s: State)
    requires Idle(g, s)
    ensures s.answers.Keys <= s.asked
  {
  }

  lemma NewAnswerRecorded(g: Net, s: State, t: State, v: VarId)
    requires Idle(g, s) && s.registered == {} && Queryable(g, v)
    requires Inv(g, t, {}) && Undisturbed(g, s, t) && !t.outOfBudget && DefItem(g, v) in t.visited
    ensures AnswerRecorded(g, Answer(g, t, v, At(t.cache, DefItem(g, v))), v)
  {
    hide Inv, Idle;
    PinnedAreFallbacks(g, s, t);
    AnswersAreAsked(g, s);
    hide Alone, WellFormed;
    FallbacksStay(g, s, t);
    if v in s.asked {
      Recorded(g, s, v);
      OldAnswersStay(g, s, t, v);
    }
  }

  // A query that stayed within its budget records the cached set of its root.
  lemma QueryAnswered(g: Net, s: State, t: State, v: VarId)
    requires Idle(g, s) && s.registered == {} && Queryable(g, v)
    requires Inv(g, t, {}) && Undisturbed(g, s, t) && !t.outOfBudget && DefItem(g, v) in t.visited
    ensures Idle(g, Answer(g, t, v, At(t.cache, DefItem(g, v))))
    ensures AnswersKept(g, s, Answer(g, t, v, At(t.cache, DefItem(g, v))), v)
  {
    hide Inv, Alone, WellFormed;
    ByItemIsAlone(g);
    var root := DefItem(g, v);
    var u := Answer(g, t, v, At(t.cache, root));
    AnswerKeepsInv(g, t, v, At(t.cache, root));
    NewAnswerRecorded(g, s, t, v);
    FallbacksStay(g, s, t);
    forall x | x in u.pinned ensures FallenBack(g, u, x) {
      assert FallenBack(g, t, x);
    }
    forall w | w in s.asked
      ensures AnswerRecorded(g, s, w) && AnswerRecorded(g, u, w) && AnswerOf(g, s, w) <= AnswerOf(g, u, w)
      ensures Alone(g) && (w != v || DefItem(g, w) !in s.fallback) ==> AnswerOf(g, u, w) == AnswerOf(g, s, w)
    {
      AnsweredKeeps(g, s, t, v, w);
    }
  }

  lemma AnsweredKeeps(g: Net, s: State, t: State, v: VarId, w: VarId)
    requires Idle(g, s) && s.registered == {} && Queryable(g, v) && w in s.asked && Undisturbed(g, s, t)
    requires AnswerRecorded(g, Answer(g, t, v, At(t.cache, DefItem(g, v))), v)
    ensures var u := Answer(g, t, v, At(t.cache, DefItem(g, v)));
            && AnswerRecorded(g, s, w) && AnswerRecorded(g, u, w) && AnswerOf(g, s, w) <= AnswerOf(g, u, w)
            && (Alone(g) && (w != v || DefItem(g, w) !in s.fallback) ==> AnswerOf(g, u, w) == AnswerOf(g, s, w))
  {
    hide Inv, Alone, WellFormed;
    ByItemIsAlone(g);
    Recorded(g, s, w);
    OldAnswersStay(g, s, t, w);
  }

  // ---- abandoned queries ----

  function Pin(s: State, root: Item): State {
    s.(pinned := s.pinned + {root})
  }

  lemma PinnedHolds(g: Net, t: State, root: Item)
    requires Inv(g, t, {}) && root in g.Items
    ensures forall j :: j in Mates(g, root) ==> g.andersen[root.cur] <= At(SharedLeast(g, Pin(t, root).pinned), j)
    ensures Below(t.cache, SharedLeast(g, Pin(t, root).pinned))
  {
    var u := Pin(t, root);
    SharedMonotone(g, t.pinned, u.pinned);
    SharedIsSolution(g, u.pinned);
    SharedIsEven(g, u.pinned);
    forall x: Item ensures At(t.cache, x) <= At(SharedLeast(g, u.pinned), x) {
      assert At(t.cache, x) <= At(SharedLeast(g, t.pinned), x) <= At(SharedLeast(g, u.pinned), x);
    }
  }

  lemma PinKeepsInv(g: Net, t: State, root: Item)
    requires Inv(g, t, {}) && t.outOfBudget && root in t.registered
    ensures Inv(g, Pin(t, root), {root})
  {
    hide SharedLeast, WellFormed, Transfer, Reads, Mates, Even, Alone, Below;
    PinnedHolds(g, t, root);
    assert Settled(Pin(t, root)) == Settled(t);
  }

  function Abandon(g: Graph, s: State, v: VarId, root: Item, pts: set<VarId>): State {
    Answer(g, s, v, pts).(fallback := s.fallback + {root})
  }

  // An abandoned query records the pre-analysis result and makes its root a fallback item.
  lemma QueryAbandoned(g: Net, s: State, t: State, u: State, v: VarId)
    requires Idle(g, s) && s.registered == {} && Queryable(g, v)
    requires Undisturbed(g, s, t) && DefItem(g, v) in t.registered
    requires Undisturbed(g, Pin(t, DefItem(g, v)), u) && t.registered <= u.registered
    requires Inv(g, u, {}) && u.outOfBudget
    requires g.andersen[v] <= At(u.cache, DefItem(g, v))
    ensures Idle(g, Abandon(g, u, v, DefItem(g, v), g.andersen[v]))
    ensures AnswersKept(g, s, Abandon(g, u, v, DefItem(g, v), g.andersen[v]), v)
  {
    hide Inv, Alone, AnswerOf, AnswerRecorded, FallenBack, Below, Abandon;
    var root := DefItem(g, v);
    var w := Abandon(g, u, v, root, g.andersen[v]);
    InvFacts(g, u, {});
    AbandonedIsNew(g, s, t, v);
    AbandonedFallbacks(g, s, t, u, v);
    AbandonKeepsInv(g, u, v, root, g.andersen[v]);
    AbandonedAnswer(g, u, v);
    AbandonedState(g, u, v);
    forall z | z in s.asked
      ensures AnswerRecorded(g, s, z) && AnswerRecorded(g, w, z) && AnswerOf(g, s, z) <= AnswerOf(g, w, z)
      ensures Alone(g) ==> AnswerOf(g, w, z) == AnswerOf(g, s, z)
    {
      Recorded(g, s, z);
      AbandonedKeeps(g, s, t, u, v, z);
    }
  }

  lemma AbandonedState(g: Net, u: State, v: VarId)
    requires Queryable(g, v)
    ensures var w := Abandon(g, u, v, DefItem(g, v), g.andersen[v]);
            && w.asked == u.asked + {v} && w.fallback == u.fallback + {DefItem(g, v)} && w.pinned == u.pinned
            && (if g.byVariable then w.answers == u.answers else w.answers.Keys == u.answers.Keys + {v})
            && forall x :: FallenBack(g, w, x) <==> FallenBack(g, u, x)
  {
  }

  // Only a pointer that has never been asked about can have its query abandoned.
  lemma AbandonedIsNew(g: Net, s: State, t: State, v: VarId)
    requires Idle(g, s) && s.registered == {} && Queryable(g, v)
    requires Undisturbed(g, s, t) && DefItem(g, v) in t.registered
    ensures v !in s.asked && v !in t.answers
  {
    hide Inv, Alone;
    if v in s.asked {
      Recorded(g, s, v);
    }
  }

  lemma AbandonedFallbacks(g: Net, s: State, t: State, u: State, v: VarId)
    requires Idle(g, s) && Queryable(g, v) && DefItem(g, v) in g.Items
    requires Undisturbed(g, s, t) && Undisturbed(g, Pin(t, DefItem(g, v)), u)
    requires g.andersen[v] <= At(u.cache, DefItem(g, v))
    ensures u.pinned == u.fallback + {DefItem(g, v)} && forall x :: x in u.pinned ==> FallenBack(g, u, x)
  {
    hide Inv, Alone;
    var root := DefItem(g, v);
    FallbacksStay(g, s, t);
    forall x | x in u.pinned ensures FallenBack(g, u, x) {
      if x != root {
        assert FallenBack(g, Pin(t, root), x) by {
          assert FallenBack(g, t, x);
        }
        OldFallbacksStay(g, Pin(t, root), u, x);
      }
    }
  }

  lemma AbandonedAnswer(g: Net, u: State, v: VarId)
    requires Queryable(g, v) && DefItem(g, v) in u.pinned && DefItem(g, v) in u.visited
    requires v !in u.answers
    requires g.andersen[v] <= At(u.cache, DefItem(g, v))
    ensures AnswerRecorded(g, Abandon(g, u, v, DefItem(g, v), g.andersen[v]), v)
  {
  }

  // What has been answered before belongs to items that an abandoned query has not entered.
  lemma AbandonedKeeps(g: Net, s: State, t: State, u: State, v: VarId, z: VarId)
    requires s.registered == {} && Queryable(g, v) && DefItem(g, v) in t.registered
    requires Undisturbed(g, s, t) && Undisturbed(g, Pin(t, DefItem(g, v)), u) && AnswerRecorded(g, s, z)
    ensures var w := Abandon(g, u, v, DefItem(g, v), g.andersen[v]);
            && AnswerRecorded(g, w, z) && AnswerOf(g, s, z) <= AnswerOf(g, w, z)
            && (Alone(g) ==> AnswerOf(g, w, z) == AnswerOf(g, s, z))
  {
    hide Alone, WellFormed, Undisturbed;
    var p := Pin(t, DefItem(g, v));
    OldAnswersStay(g, s, t, z);
    assert z != v && Settled(p) == Settled(t);
    assert AnswerRecorded(g, p, z) && AnswerOf(g, p, z) == AnswerOf(g, t, z);
    OldAnswersStay(g, p, u, z);
  }

  lemma AbandonKeepsInv(g: Net, u: State, v: VarId, root: Item, pts: set<VarId>)
    requires Inv(g, u, {}) && u.outOfBudget && root in u.pinned
    ensures Inv(g, Abandon(g, u, v, root, pts), {})
  {
    hide SharedLeast, WellFormed, Transfer, Reads, Even, Alone, Below;
    assert Settled(Abandon(g, u, v, root, pts)) == Settled(u);
  }

  lemma AnswerKeepsInv(g: Net, t: State, v: VarId, pts: set<VarId>)
    requires Inv(g, t, {})
    ensures Inv(g, Answer(g, t, v, pts), {})
  {
    hide SharedLeast, WellFormed, Transfer, Reads, Even, Alone, Below;
    var u := Answer(g, t, v, pts);
    assert Settled(u) == Settled(t);
    if !t.outOfBudget {
      forall x | x in u.registered && x !in u.stale ensures Good(g, u, x) {
        assert Good(g, t, x);
      }
    }
  }

  // ---- how good the answers are ----

  // The pre-analysis, read as a cache.
  ghost function AndersenCache(g: Net): Cache {
    map i | i in g.Items :: g.andersen[i.cur]
  }

  // The pre-analysis over-approximates: its result satisfies every equation.
  ghost predicate AndersenSound(g: Net) {
    forall i :: i in g.Items ==> Transfer(g, AndersenCache(g), i) <= g.andersen[i.cur]
  }

  // A sound pre-analysis solves the equations, fallback items included.
  lemma AndersenSolves(g: Net, seeds: set<Item>)
    requires AndersenSound(g)
    ensures IsSolution(g, seeds, AndersenCache(g))
  {
  }

  // What the equation of a fallback item yields at the least solution, the item already holds.
  lemma FallbackSolved(g: Net, s: State, x: Item)
    requires AndersenSound(g) && FallenBack(g, s, x)
    ensures Transfer(g, Least(g, s.pinned), x) <= At(s.cache, x)
  {
    AndersenSolves(g, s.pinned);
    LeastBelowSolution(g, s.pinned, AndersenCache(g));
    TransferMonotone(g, Least(g, s.pinned), AndersenCache(g), x);
  }

  // On a solved and read-closed region the caches are the least solution of the system in which
  // fallback items also hold the pre-analysis result. Without fallback items, the pre-analysis
  // need not be sound for that.
  lemma RegionExact(g: Net, s: State, region: set<Item>)
    requires region <= g.Items && SolvedRegion(g, s.cache, region, s.pinned)
    requires Below(s.cache, Least(g, s.pinned)) && forall x :: x in s.pinned ==> FallenBack(g, s, x)
    requires s.pinned == {} || AndersenSound(g)
    ensures Exact(g, s, region)
  {
    forall x | x in region && x in s.pinned ensures Transfer(g, Least(g, s.pinned), x) <= At(s.cache, x) {
      FallbackSolved(g, s, x);
    }
    SolvedRegionAboveLeast(g, s.cache, region, s.pinned, s.pinned);
    forall x | x in region ensures At(s.cache, x) == At(Least(g, s.pinned), x) {
      assert At(s.cache, x) <= At(Least(g, s.pinned), x);
    }
  }

  ghost predicate Exact(g: Net, s: State, region: set<Item>) {
    forall x :: x in region ==> At(s.cache, x) == At(Least(g, s.pinned), x)
  }

  // The fixpoint property: when nothing is left to evaluate and the budget has held, every visited
  // item is solved and what it reads is visited, unless it has missed the growth of a shared set.
  lemma VisitedSolved(g: Net, s: State)
    requires Inv(g, s, {}) && !s.outOfBudget
    ensures SolvedRegion(g, s.cache, s.visited, s.pinned + s.stale)
  {
    forall x | x in s.visited && x !in s.pinned + s.stale
      ensures Transfer(g, s.cache, x) <= At(s.cache, x) && Reads(g, s.cache, x) <= s.visited
    {
      if x in s.registered {
        assert Good(g, s, x);
      } else {
        assert x in Settled(s) && Settled(s) <= s.visited;
      }
    }
  }

  // If no set is shared, nothing is ever missed and no set is larger than it has to be.
  lemma AloneFacts(g: Net, s: State, dirty: set<Item>)
    requires Inv(g, s, dirty) && Alone(g)
    ensures s.stale == {} && Below(s.cache, Least(g, s.pinned))
  {
    AloneAddsNothing(g, s.pinned);
  }

  // Then the visited items hold exactly the least solution.
  lemma VisitedExact(g: Net, s: State)
    requires Inv(g, s, {}) && !s.outOfBudget && forall x :: x in s.pinned ==> FallenBack(g, s, x)
    requires Alone(g) && (s.pinned == {} || AndersenSound(g))
    ensures Exact(g, s, s.visited)
  {
    hide Good, Reads, Transfer, Least, AndersenSound, Exact;
    AloneFacts(g, s, {});
    VisitedSolved(g, s);
    assert s.pinned + s.stale == s.pinned;
    RegionExact(g, s, s.visited);
  }

  // Below the least solution, items that are solved and read each other only hold it, and vice versa.
  lemma RegionExactIffSolved(g: Net, s: State, region: set<Item>)
    requires region <= g.Items && Below(s.cache, Least(g, {})) && s.pinned == {}
    ensures Exact(g, s, region) && (forall x :: x in region ==> Reads(g, s.cache, x) <= region) <==>
            SolvedRegion(g, s.cache, region, {})
  {
    if SolvedRegion(g, s.cache, region, {}) {
      RegionExact(g, s, region);
    } else if Exact(g, s, region) {
      LeastIsSolution(g, {});
      hide Least, WellFormed, Reads;
      forall x | x in region ensures Transfer(g, s.cache, x) <= At(s.cache, x) {
        TransferMonotone(g, s.cache, Least(g, {}), x);
      }
    }
  }

  // With shared sets that do no harm to the right answer, the items visited hold it and read each
  // other only, exactly if all of them are solved: what has been missed must have been harmless.
  lemma ExactIffSolved(g: Net, s: State)
    requires s.visited <= g.Items && Inv(g, s, {}) && !s.outOfBudget && s.pinned == {}
    requires Alone(g) || Relays(g)
    ensures Exact(g, s, s.visited) && (forall x :: x in s.visited ==> Reads(g, s.cache, x) <= s.visited) <==>
            SolvedRegion(g, s.cache, s.visited, {})
    ensures s.stale !! s.visited ==> Exact(g, s, s.visited)
  {
    hide Inv, Relays, Alone, Reads, Transfer, Least, SharedLeast, Exact;
    VisitedSolved(g, s);
    EvenFacts(g, s, {});
    if Alone(g) { AloneAddsNothing(g, {}); } else { RelaysAddNothing(g); }
    RegionExactIffSolved(g, s, s.visited);
  }

  // Items that survive a reset hold the least solution, also after abandoned queries.
  lemma TrustedExact(g: Net, s: State, x: Item)
    requires Idle(g, s) && Alone(g) && x in Reset(s).visited && (s.pinned == {} || AndersenSound(g))
    ensures At(s.cache, x) == At(Least(g, s.pinned), x)
  {
    hide Least, SolvedRegion, Alone, AndersenSound;
    ResetRegion(g, s);
    AloneFacts(g, s, {});
    assert s.pinned + s.stale == s.pinned;
    RegionExact(g, s, Reset(s).visited);
  }

  // The least solution at a fallback item is the pre-analysis result.
  lemma FallbackExact(g: Net, s: State, x: Item)
    requires AndersenSound(g) && FallenBack(g, s, x) && x in s.pinned
    ensures At(Least(g, s.pinned), x) == g.andersen[x.cur]
  {
    LeastIsSolution(g, s.pinned);
    AndersenSolves(g, s.pinned);
    LeastBelowSolution(g, s.pinned, AndersenCache(g));
    assert At(Least(g, s.pinned), x) <= At(AndersenCache(g), x);
  }

  // If no set is shared, every recorded answer is the least solution at its root: of the plain
  // system if no query has been abandoned, and in general of the system that takes the pre-analysis
  // result for the roots of abandoned queries.
  lemma AnswersExact(g: Net, s: State, v: VarId)
    requires Idle(g, s) && Alone(g) && v in s.asked && (s.fallback == {} || AndersenSound(g))
    ensures AnswerRecorded(g, s, v) && AnswerOf(g, s, v) == At(Least(g, s.fallback), DefItem(g, v))
  {
    hide Least, AndersenSound, Alone, Inv;
    var root := DefItem(g, v);
    Recorded(g, s, v);
    AnsweredStayVisited(g, s, v);
    TrustedExact(g, s, root);
    if root in s.pinned {
      FallbackExact(g, s, root);
    }
  }

  // ---- programs in which some sets are shared ----

  lemma UnsharedNeverStale(g: Net, s: State, dirty: set<Item>, part: set<Item>)
    requires Inv(g, s, dirty) && Unshared(g, part)
    ensures part !! s.stale
  {
    hide SharedLeast, Transfer, Reads, Even, SolvedRegion, LoadsRecorded, Seeded;
    assert forall x :: x in part ==> !Exposed(g, x);
  }

  // What an unshared part of the program holds between queries is the least solution, whatever is
  // shared and stale in the rest of it.
  lemma UnsharedExact(g: Net, s: State, part: set<Item>, x: Item)
    requires Idle(g, s) && Unshared(g, part) && (part !! s.pinned || AndersenSound(g))
    requires x in part && x in Reset(s).visited
    ensures At(s.cache, x) == At(Least(g, s.pinned), x)
  {
    var region := part * Reset(s).visited;
    ResetRegion(g, s);
    UnsharedNeverStale(g, s, {}, part);
    UnsharedRegion(g, s.cache, Reset(s).visited, s.pinned + s.stale, s.pinned, part);
    forall y | y in region && y in s.pinned
      ensures Transfer(g, Least(g, s.pinned), y) <= At(s.cache, y) && g.andersen[y.cur] <= At(s.cache, y)
    {
      assert FallenBack(g, s, y);
      FallbackSolved(g, s, y);
    }
    hide Least, SharedLeast, Transfer, Reads, Unshared;
    SolvedRegionAboveLeast(g, s.cache, region, s.pinned, s.pinned);
    EvenFacts(g, s, {});
    UnsharedAddsNothing(g, s.pinned, part);
    assert At(s.cache, x) <= At(SharedLeast(g, s.pinned), x);
  }

  lemma UnsharedRegion(g: Net, c: Cache, visited: set<Item>, except: set<Item>, pinned: set<Item>, part: set<Item>)
    requires visited <= g.Items && SolvedRegion(g, c, visited, except) && Unshared(g, part)
    requires forall x :: x in part && x in except ==> x in pinned
    ensures SolvedRegion(g, c, part * visited, pinned)
  {
    forall x | x in part * visited && x !in pinned ensures Reads(g, c, x) <= part * visited {
      ReadsAreItems(g, c, x);
      forall y | y in Reads(g, c, x) ensures y in part {
        ReadsTrigger(g, c, x, y);
      }
    }
  }

  // So the answer for a pointer whose definition depends on no shared set is exact.
  lemma UnsharedAnswerExact(g: Net, s: State, part: set<Item>, v: VarId)
    requires Idle(g, s) && Unshared(g, part) && (part !! s.fallback || AndersenSound(g))
    requires v in s.asked && v in g.def && DefItem(g, v) in part
    ensures AnswerOf(g, s, v) == At(Least(g, s.fallback), DefItem(g, v))
  {
    hide Least, AndersenSound, Unshared, Inv;
    var root := DefItem(g, v);
    Recorded(g, s, v);
    AnsweredStayVisited(g, s, v);
    UnsharedExact(g, s, part, root);
    if root in s.pinned {
      FallbackExact(g, s, root);
    }
  }

  // An address is found even if everything is shared.
  lemma AddressAnswered(g: Net, s: State, v: VarId)
    requires Idle(g, s) && v in s.asked && Queryable(g, v) && g.kind[g.def[v]].Addr?
    requires DefItem(g, v) !in s.fallback || AndersenSound(g)
    ensures g.kind[g.def[v]].obj in AnswerOf(g, s, v)
  {
    hide Inv;
    var root := DefItem(g, v);
    Recorded(g, s, v);
    InvFacts(g, s, {});
    if root in s.pinned {
      assert root in g.Items && Transfer(g, AndersenCache(g), root) <= g.andersen[v];
    } else {
      assert Evaluable(s, {}, root);
      SeededBefore(g, s, {}, root);
    }
  }

  lemma SharedAnswersGood(g: Net, s: State)
    requires Idle(g, s)
    ensures forall part, v :: Unshared(g, part) && (part !! s.fallback || AndersenSound(g)) &&
                              v in s.asked && Queryable(g, v) && DefItem(g, v) in part ==>
              AnswerOf(g, s, v) == At(Least(g, s.fallback), DefItem(g, v))
    ensures forall v :: v in s.asked && Queryable(g, v) && g.kind[g.def[v]].Addr? &&
                        (DefItem(g, v) !in s.fallback || AndersenSound(g)) ==>
              g.kind[g.def[v]].obj in AnswerOf(g, s, v)
  {
    hide Idle, Least, AndersenSound, Unshared, AnswerOf, WellFormed;
    forall part, v | Unshared(g, part) && (part !! s.fallback || AndersenSound(g)) &&
                     v in s.asked && Queryable(g, v) && DefItem(g, v) in part
      ensures AnswerOf(g, s, v) == At(Least(g, s.fallback), DefItem(g, v))
    {
      UnsharedAnswerExact(g, s, part, v);
    }
    forall v | v in s.asked && Queryable(g, v) && g.kind[g.def[v]].Addr? &&
               (DefItem(g, v) !in s.fallback || AndersenSound(g))
      ensures g.kind[g.def[v]].obj in AnswerOf(g, s, v)
    {
      AddressAnswered(g, s, v);
    }
  }

  // What a query leaves behind has missed the growth of a shared set during that query. If no shared
  // set grows, nothing is left behind that was not behind before.
  lemma NewlyStale(g: Net, s: State, t: State)
    requires Undisturbed(g, s, t)
    requires t.registered <= g.Items
    ensures forall x :: x in t.stale && x !in s.stale ==> Overlooked(g, s, t, x)
    ensures (forall k :: Mated(g, k) ==> At(t.cache, k) == At(s.cache, k)) ==> t.stale == s.stale
  {
    if forall k :: Mated(g, k) ==> At(t.cache, k) == At(s.cache, k) {
      forall x, j, k ensures !PassedOver(g, s, t, x, j, k) {
        assert PassedOver(g, s, t, x, j, k) ==> Mated(g, k);
      }
    }
  }

  // An answer never exceeds the least solution that respects sharing, nor a sound pre-analysis.
  lemma AnswerAtMost(g: Net, s: State, v: VarId)
    requires Idle(g, s) && v in s.asked
    ensures AnswerRecorded(g, s, v) && AnswerOf(g, s, v) <= At(SharedLeast(g, s.fallback), DefItem(g, v))
    ensures AndersenSound(g) ==> AnswerOf(g, s, v) <= g.andersen[v]
  {
    hide SharedLeast, AndersenSound, Alone;
    var root := DefItem(g, v);
    Recorded(g, s, v);
    EvenFacts(g, s, {});
    assert At(s.cache, root) <= At(SharedLeast(g, s.fallback), root);
    if AndersenSound(g) {
      AndersenSolves(g, s.fallback);
      AndersenIsEven(g);
      SharedBelowSolution(g, s.fallback, AndersenCache(g));
      assert At(SharedLeast(g, s.fallback), root) <= At(AndersenCache(g), root);
    }
  }

  lemma AndersenIsEven(g: Net)
    ensures Even(g, AndersenCache(g))
  {
  }

  // Whatever has been abandoned so far, every recorded answer lies between the least solution
  // and the pre-analysis result.
  lemma AnswersBetween(g: Net, s: State, v: VarId)
    requires Idle(g, s) && Alone(g) && v in s.asked && AndersenSound(g)
    ensures AnswerRecorded(g, s, v) && At(Least(g, {}), DefItem(g, v)) <= AnswerOf(g, s, v) <= g.andersen[v]
  {
    hide Idle, Least, AndersenSound, Alone;
    AnswersExact(g, s, v);
    AnswerAtMost(g, s, v);
    LeastMonotone(g, {}, s.fallback);
    assert At(Least(g, {}), DefItem(g, v)) <= At(Least(g, s.fallback), DefItem(g, v));
  }

  // All recorded answers at once.
  lemma AnswersGood(g: Net, s: State)
    requires Idle(g, s)
    ensures forall v :: v in s.asked ==> Queryable(g, v)
    ensures forall v :: v in s.asked ==> AnswerOf(g, s, v) <= At(SharedLeast(g, s.fallback), DefItem(g, v))
    ensures AndersenSound(g) ==> forall v :: v in s.asked ==> AnswerOf(g, s, v) <= g.andersen[v]
    ensures Alone(g) && (s.fallback == {} || AndersenSound(g)) ==>
              forall v :: v in s.asked ==> AnswerOf(g, s, v) == At(Least(g, s.fallback), DefItem(g, v))
    ensures Alone(g) && AndersenSound(g) ==>
              forall v :: v in s.asked ==> At(Least(g, {}), DefItem(g, v)) <= AnswerOf(g, s, v)
  {
    hide Idle, Least, AndersenSound, SharedLeast, AnswerOf, Alone;
    forall v | v in s.asked ensures Queryable(g, v) {
      Recorded(g, s, v);
    }
    forall v | v in s.asked
      ensures AnswerOf(g, s, v) <= At(SharedLeast(g, s.fallback), DefItem(g, v))
      ensures AndersenSound(g) ==> AnswerOf(g, s, v) <= g.andersen[v]
    {
      AnswerAtMost(g, s, v);
    }
    if Alone(g) && (s.fallback == {} || AndersenSound(g)) {
      forall v | v in s.asked ensures AnswerOf(g, s, v) == At(Least(g, s.fallback), DefItem(g, v)) {
        AnswersExact(g, s, v);
      }
    }
    if Alone(g) && AndersenSound(g) {
      forall v | v in s.asked ensures At(Least(g, {}), DefItem(g, v)) <= AnswerOf(g, s, v) {
        AnswersBetween(g, s, v);
      }
    }
  }

  // ---- a pre-analysis that is sound and precise ----

  // p = &a; q = &b; *p = q; r = *p with pointers p, q, r = 0, 1, 2 and objects a, b = 10, 11. The
  // pre-analysis knows that p points to a alone, q and r to b alone, and a to b alone.
  const SMALL_KINDS: map<NodeId, Kind> := map[0 := Addr(10), 1 := Addr(11), 2 := Store(0, 1), 3 := Load(0)]

  const SMALL_EDGES: set<Edge> := {Direct(0, 2), Direct(1, 2), Direct(0, 3), Indirect(2, 3, {10})}

  const SMALL: Graph := Graph(SMALL_KINDS, SMALL_EDGES, map[0 := 0, 1 := 1, 3 := 2], map[0 := 0, 1 := 1, 2 := 3],
                              {0, 1, 2, 10, 11}, {10, 11}, map[], {}, {10},
                              map[0 := {10}, 1 := {11}, 2 := {11}, 10 := {11}, 11 := {}], false)

  lemma SmallIsWellFormed()
    ensures WellFormed(SMALL)
  {
    assert SMALL.kind == SMALL_KINDS && SMALL.edges == SMALL_EDGES;
    forall e | e in SMALL.edges ensures WellFormedEdge(SMALL, e) {
    }
    forall n | n in SMALL.kind ensures WellFormedNode(SMALL, n) {
      assert n in {0, 1, 2, 3};
    }
  }

  lemma SmallItems(i: Item)
    requires WellFormed(SMALL) && i in SMALL.Items
    ensures i in {Item(0, 0), Item(1, 1), Item(2, 3)} || (i.loc == 2 && i.cur in {0, 1, 2, 10, 11})
    ensures At(AndersenCache(SMALL), i) == SMALL.andersen[i.cur]
  {
    assert i.loc in {0, 1, 2, 3};
  }

  lemma SmallAsks(i: Item)
    requires WellFormed(SMALL) && i in {Item(0, 0), Item(1, 1), Item(2, 3), Item(10, 2)}
    ensures i in SMALL.Items
  {
  }

  lemma NothingStoredBefore(v: VarId)
    requires WellFormed(SMALL)
    ensures IndirectReads(SMALL, 2, v) == {}
  {
    assert forall e :: e in SMALL.edges && e.Indirect? ==> e.dst == 3;
  }

  lemma SmallStore(v: VarId)
    requires WellFormed(SMALL) && v in {0, 1, 2, 10, 11}
    ensures Transfer(SMALL, AndersenCache(SMALL), Item(v, 2)) <= SMALL.andersen[v]
  {
    var i := Item(v, 2);
    SmallAsks(Item(0, 0));
    SmallAsks(Item(1, 1));
    SmallItems(Item(0, 0));
    SmallItems(Item(1, 1));
    NothingStoredBefore(v);
    hide AndersenCache, IndirectReads, Transfer, WellFormed;
    StoreTransferCases(SMALL, AndersenCache(SMALL), i);
    assert At(AndersenCache(SMALL), StoreDst(SMALL, i)) == {10};
    assert At(AndersenCache(SMALL), StoreSrc(SMALL, i)) == {11};
    assert Gather(AndersenCache(SMALL), {}) == {};
  }

  lemma SmallLoad()
    requires WellFormed(SMALL)
    ensures Transfer(SMALL, AndersenCache(SMALL), Item(2, 3)) <= {11}
  {
    SmallAsks(Item(0, 0));
    SmallAsks(Item(10, 2));
    SmallItems(Item(0, 0));
    SmallItems(Item(10, 2));
    assert IndirectReads(SMALL, 3, 10) == {Item(10, 2)} by {
      assert Indirect(2, 3, {10}) in SMALL.edges;
    }
    hide AndersenCache, IndirectReads;
    assert Gather(AndersenCache(SMALL), {Item(10, 2)}) == {11};
    assert At(AndersenCache(SMALL), DefItem(SMALL, 0)) == {10};
  }

  lemma SmallTransfer(i: Item)
    requires WellFormed(SMALL) && i in SMALL.Items
    ensures Transfer(SMALL, AndersenCache(SMALL), i) <= SMALL.andersen[i.cur]
  {
    SmallItems(i);
    if i.loc == 2 {
      SmallStore(i.cur);
    } else if i.loc == 3 {
      SmallLoad();
    }
    hide AndersenCache, IndirectReads;
  }

  lemma SoundAndPrecise()
    ensures WellFormed(SMALL) && AndersenSound(SMALL)
    ensures SMALL.andersen[0] == {10} && SMALL.andersen[1] == SMALL.andersen[2] == {11}
  {
    SmallIsWellFormed();
    forall i | i in SMALL.Items ensures Transfer(SMALL, AndersenCache(SMALL), i) <= SMALL.andersen[i.cur] {
      SmallTransfer(i);
    }
  }

  // Every solution brings b to r: it is stored into a, and a is loaded.
  lemma SmallCarries(L: Cache)
    requires WellFormed(SMALL) && IsSolution(SMALL, {}, L)
    ensures 11 in At(L, Item(2, 3))
  {
    SmallAsks(Item(0, 0));
    SmallAsks(Item(1, 1));
    SmallAsks(Item(2, 3));
    SmallAsks(Item(10, 2));
    assert SMALL.kind == SMALL_KINDS && SMALL.edges == SMALL_EDGES;
    hide IsSolution, WellFormed, SMALL_EDGES;
    AddrHolds(SMALL, L, Item(0, 0));
    AddrHolds(SMALL, L, Item(1, 1));
    StoredHolds(SMALL, L, Item(10, 2));
    assert Indirect(2, 3, {10}) in SMALL.edges by {
      SmallEdge();
    }
    LoadHolds(SMALL, L, Item(2, 3), 10, Indirect(2, 3, {10}));
  }

  lemma SmallEdge()
    ensures Indirect(2, 3, {10}) in SMALL.edges
  {
  }

  // In the least solution, r points to b and to nothing else.
  lemma SmallLeast()
    ensures WellFormed(SMALL) && At(Least(SMALL, {}), Item(2, 3)) == {11}
  {
    SoundAndPrecise();
    SmallAsks(Item(2, 3));
    SmallItems(Item(2, 3));
    AndersenSolves(SMALL, {});
    LeastBelowSolution(SMALL, {}, AndersenCache(SMALL));
    LeastIsSolution(SMALL, {});
    SmallCarries(Least(SMALL, {}));
    hide Least, IsSolution, WellFormed, AndersenSound, SMALL_KINDS, SMALL_EDGES, AndersenCache;
    assert At(Least(SMALL, {}), Item(2, 3)) <= At(AndersenCache(SMALL), Item(2, 3));
  }
}
