// Flow-sensitive points-to data: an IN and an OUT set per location and variable. The plain form
// always moves whole sets; the incremental form moves only sets flagged as changed, and clears
// flags as it goes. This module defines both on values and proves that, under the protocol of the
// flow-sensitive solver, no run can tell them apart.
module DataFlowPointsTo {
  import opened PersistentPointsToCache

  type LocID = nat
  type Var = nat

  datatype Slot = Slot(loc: LocID, v: Var)

  type Sets = map<Slot, PointsTo>

  function Get<K>(m: map<K, PointsTo>, k: K): PointsTo {
    if k in m then m[k] else {}
  }

  function Grows<K>(m: map<K, PointsTo>, k: K, pts: PointsTo): bool {
    !(pts <= Get(m, k))
  }

  function Join<K>(m: map<K, PointsTo>, k: K, pts: PointsTo): map<K, PointsTo> {
    if Grows(m, k, pts) then m[k := Get(m, k) + pts] else m
  }

  datatype Flow = Flow(inn: Sets, out: Sets, top: map<Var, PointsTo>)

  // The incremental form: the same sets, and the slots whose IN or OUT set is new.
  datatype Inc = Inc(flow: Flow, inNew: set<Slot>, outNew: set<Slot>)

  // ---- joins over many slots at once ----

  // Those slots of ks whose set in from is not yet contained in their set in m.
  function Missing(m: Sets, from: Sets, ks: set<Slot>): set<Slot> {
    set k | k in ks && Grows(m, k, Get(from, k))
  }

  function JoinAll(m: Sets, from: Sets, ks: set<Slot>): Sets {
    m + map k | k in Missing(m, from, ks) :: Get(m, k) + Get(from, k)
  }

  lemma JoinAllGet(m: Sets, from: Sets, ks: set<Slot>, k: Slot)
    ensures Get(JoinAll(m, from, ks), k) == if k in ks then Get(m, k) + Get(from, k) else Get(m, k)
    ensures Get(m, k) <= Get(JoinAll(m, from, ks), k)
  {
  }

  // Slots that have nothing to contribute may be left out.
  lemma JoinAllSkips(m: Sets, from: Sets, ks: set<Slot>, fewer: set<Slot>)
    requires fewer <= ks && forall k :: k in ks && k !in fewer ==> Get(from, k) <= Get(m, k)
    ensures Missing(m, from, fewer) == Missing(m, from, ks)
    ensures JoinAll(m, from, fewer) == JoinAll(m, from, ks)
  {
    assert Missing(m, from, fewer) == Missing(m, from, ks);
  }

  // ---- the flow-sensitive solver's graph and its steps ----

  datatype FlowEdge = FlowEdge(src: LocID, dst: LocID, guard: set<Var>)

  datatype Net = Net(stores: set<LocID>, loads: map<LocID, Var>)

  ghost predicate WellFormed(net: Net) {
    net.stores !! net.loads.Keys
  }

  datatype Action =
    | GrowTop(dst: Var, pts: PointsTo)                        // address, copy, phi and gep statements
    | StoreValue(loc: LocID, src: Var, v: Var)                // updateATVPts
    | PassThrough(loc: LocID, singleton: Var, strong: bool)   // updateAllDFOutFromIn
    | LoadValue(loc: LocID, v: Var)                           // updateTLVPts
    | Propagate(loc: LocID)                                   // to all successors, then clear OUT flags
    | Connect(edge: FlowEdge)                                 // a new edge, propagated in full

  // Only stores have OUT sets; loads end the memory flow.
  ghost predicate Allowed(net: Net, a: Action) {
    match a
    case GrowTop(_, _) => true
    case StoreValue(loc, _, _) => loc in net.stores
    case PassThrough(loc, _, _) => loc in net.stores
    case LoadValue(loc, _) => loc in net.loads
    case Propagate(loc) => loc !in net.loads
    case Connect(e) => e.src !in net.loads
  }

  // What arrives over the edges leaving loc, by destination slot, given what loc sends.
  function Targets(edges: set<FlowEdge>, loc: LocID): set<Slot> {
    set e, v | e in edges && e.src == loc && v in e.guard :: Slot(e.dst, v)
  }

  function Sent(from: Sets, loc: LocID, ks: set<Slot>): Sets {
    map k | k in ks :: Get(from, Slot(loc, k.v))
  }

  // Where loc sends from: stores from OUT, everything else from IN.
  function Source(net: Net, f: Flow, loc: LocID): Sets {
    if loc in net.stores then f.out else f.inn
  }

  function Selected(ks: set<Slot>, loc: LocID, singleton: Var, strong: bool): set<Slot> {
    set k | k in ks && k.loc == loc && !(strong && k.v == singleton)
  }

  // ---- the plain form ----

  datatype Outcome<T> = Outcome(state: T, changed: set<Slot>)

  function Plain(net: Net, edges: set<FlowEdge>, f: Flow, a: Action): Outcome<Flow>
    requires Allowed(net, a)
  {
    match a
    case GrowTop(dst, pts) => Outcome(f.(top := Join(f.top, dst, pts)), {})
    case StoreValue(loc, src, v) =>
      var pts := Get(f.top, src);
      Outcome(f.(out := Join(f.out, Slot(loc, v), pts)),
              if Grows(f.out, Slot(loc, v), pts) then {Slot(loc, v)} else {})
    case PassThrough(loc, singleton, strong) =>
      var ks := Selected(f.inn.Keys, loc, singleton, strong);
      Outcome(f.(out := JoinAll(f.out, f.inn, ks)), Missing(f.out, f.inn, ks))
    case LoadValue(loc, v) =>
      var pts := Get(f.inn, Slot(loc, v));
      Outcome(f.(top := Join(f.top, net.loads[loc], pts)),
              if Grows(f.top, net.loads[loc], pts) then {Slot(loc, v)} else {})
    case Propagate(loc) =>
      var ks := Targets(edges, loc);
      var sent := Sent(Source(net, f, loc), loc, ks);
      Outcome(f.(inn := JoinAll(f.inn, sent, ks)), Missing(f.inn, sent, ks))
    case Connect(e) =>
      var ks := Targets({e}, e.src);
      var sent := Sent(Source(net, f, e.src), e.src, ks);
      Outcome(f.(inn := JoinAll(f.inn, sent, ks)), Missing(f.inn, sent, ks))
  }

  // ---- the incremental form ----

  function FlagsAt(net: Net, x: Inc, loc: LocID): set<Slot> {
    if loc in net.stores then x.outNew else x.inNew
  }

  // Those targets of loc whose set is flagged at loc.
  function Flagged(net: Net, edges: set<FlowEdge>, x: Inc, loc: LocID): set<Slot> {
    set k | k in Targets(edges, loc) && Slot(loc, k.v) in FlagsAt(net, x, loc)
  }

  function Incremental(net: Net, edges: set<FlowEdge>, x: Inc, a: Action): Outcome<Inc>
    requires Allowed(net, a)
  {
    var f := x.flow;
    match a
    case GrowTop(dst, pts) => Outcome(x.(flow := f.(top := Join(f.top, dst, pts))), {})
    case StoreValue(loc, src, v) =>
      var pts := Get(f.top, src);
      var grown := if Grows(f.out, Slot(loc, v), pts) then {Slot(loc, v)} else {};
      Outcome(x.(flow := f.(out := Join(f.out, Slot(loc, v), pts)), outNew := x.outNew + grown), grown)
    case PassThrough(loc, singleton, strong) =>
      var ks := Selected(x.inNew, loc, singleton, strong);
      var grown := Missing(f.out, f.inn, ks);
      Outcome(Inc(f.(out := JoinAll(f.out, f.inn, ks)), x.inNew - ks, x.outNew + grown), grown)
    case LoadValue(loc, v) =>
      var pts := Get(f.inn, Slot(loc, v));
      if Slot(loc, v) in x.inNew then
        Outcome(Inc(f.(top := Join(f.top, net.loads[loc], pts)), x.inNew - {Slot(loc, v)}, x.outNew),
                if Grows(f.top, net.loads[loc], pts) then {Slot(loc, v)} else {})
      else Outcome(x, {})
    case Propagate(loc) =>
      var ks := Flagged(net, edges, x, loc);
      var sent := Sent(Source(net, f, loc), loc, ks);
      var grown := Missing(f.inn, sent, ks);
      Outcome(Inc(f.(inn := JoinAll(f.inn, sent, ks)), x.inNew + grown,
                  set k | k in x.outNew && k.loc != loc), grown)
    case Connect(e) =>
      var ks := Targets({e}, e.src);
      var sent := Sent(Source(net, f, e.src), e.src, ks);
      var grown := Missing(f.inn, sent, ks);
      Outcome(x.(flow := f.(inn := JoinAll(f.inn, sent, ks)), inNew := x.inNew + grown), grown)
  }

  function Edges(edges: set<FlowEdge>, a: Action): set<FlowEdge> {
    if a.Connect? then edges + {a.edge} else edges
  }

  // ---- the invariant ----

  // An unflagged set has nothing left to contribute where its location sends it.
  ghost predicate Consistent(net: Net, edges: set<FlowEdge>, x: Inc) {
    && x.inNew <= x.flow.inn.Keys
    && (forall k :: k in x.outNew ==> k.loc in net.stores)
    && (forall e :: e in edges ==> e.src !in net.loads)
    && (forall k: Slot :: k.loc in net.stores && k !in x.inNew ==> Get(x.flow.inn, k) <= Get(x.flow.out, k))
    && (forall k: Slot :: k.loc in net.loads && k !in x.inNew ==>
          Get(x.flow.inn, k) <= Get(x.flow.top, net.loads[k.loc]))
    && (forall k: Slot :: k.loc !in net.stores && k.loc !in net.loads && k !in x.inNew ==> Get(x.flow.inn, k) == {})
    && (forall e, v :: e in edges && e.src in net.stores && v in e.guard && Slot(e.src, v) !in x.outNew ==>
          Get(x.flow.out, Slot(e.src, v)) <= Get(x.flow.inn, Slot(e.dst, v)))
  }

  // Empty data is consistent with any edges, as long as none leaves a load.
  lemma InitiallyConsistent(net: Net, edges: set<FlowEdge>)
    ensures Consistent(net, edges, Inc(Flow(map[], map[], map[]), {}, {})) <==>
            forall e :: e in edges ==> e.src !in net.loads
  {
  }

  // Only what is sent to the slots in ks matters for ks.
  lemma SentRestricted(m: Sets, from: Sets, loc: LocID, all: set<Slot>, ks: set<Slot>)
    requires ks <= all
    ensures JoinAll(m, Sent(from, loc, all), ks) == JoinAll(m, Sent(from, loc, ks), ks)
    ensures Missing(m, Sent(from, loc, all), ks) == Missing(m, Sent(from, loc, ks), ks)
  {
    assert Missing(m, Sent(from, loc, all), ks) == Missing(m, Sent(from, loc, ks), ks);
  }

  lemma UnflaggedArrived(net: Net, edges: set<FlowEdge>, x: Inc, loc: LocID, k: Slot)
    requires WellFormed(net) && Consistent(net, edges, x) && loc !in net.loads
    requires k in Targets(edges, loc) && k !in Flagged(net, edges, x, loc)
    ensures Get(Source(net, x.flow, loc), Slot(loc, k.v)) <= Get(x.flow.inn, k)
  {
    var e :| e in edges && e.src == loc && k.v in e.guard && k == Slot(e.dst, k.v);
  }

  // The sets the incremental form leaves out of a propagation would not have changed anything.
  lemma UnflaggedSendNothing(net: Net, edges: set<FlowEdge>, x: Inc, loc: LocID)
    requires WellFormed(net) && Consistent(net, edges, x) && loc !in net.loads
    ensures var inn, from := x.flow.inn, Source(net, x.flow, loc);
            var ks, flagged := Targets(edges, loc), Flagged(net, edges, x, loc);
            && Missing(inn, Sent(from, loc, ks), ks) == Missing(inn, Sent(from, loc, flagged), flagged)
            && JoinAll(inn, Sent(from, loc, ks), ks) == JoinAll(inn, Sent(from, loc, flagged), flagged)
  {
    hide Missing, JoinAll, Consistent, Targets;
    var inn, from := x.flow.inn, Source(net, x.flow, loc);
    var ks, flagged := Targets(edges, loc), Flagged(net, edges, x, loc);
    forall k | k in ks && k !in flagged ensures Get(Sent(from, loc, ks), k) <= Get(inn, k) {
      UnflaggedArrived(net, edges, x, loc, k);
    }
    JoinAllSkips(inn, Sent(from, loc, ks), ks, flagged);
    SentRestricted(inn, from, loc, ks, flagged);
  }

  // One step: the same sets, the same report.
  lemma SameOutcome(net: Net, edges: set<FlowEdge>, x: Inc, a: Action)
    requires WellFormed(net) && Consistent(net, edges, x) && Allowed(net, a)
    ensures Incremental(net, edges, x, a).state.flow == Plain(net, edges, x.flow, a).state
    ensures Incremental(net, edges, x, a).changed == Plain(net, edges, x.flow, a).changed
  {
    var f := x.flow;
    match a
    case PassThrough(loc, singleton, strong) =>
      JoinAllSkips(f.out, f.inn, Selected(f.inn.Keys, loc, singleton, strong),
                   Selected(x.inNew, loc, singleton, strong));
    case Propagate(loc) => UnflaggedSendNothing(net, edges, x, loc);
    case _ =>
  }

  // ---- every step keeps the invariant ----

  lemma JoinGet<K>(m: map<K, PointsTo>, k: K, pts: PointsTo, j: K)
    ensures Get(Join(m, k, pts), j) == if j == k then Get(m, k) + pts else Get(m, j)
  {
  }

  lemma GrowTopConsistent(net: Net, edges: set<FlowEdge>, x: Inc, dst: Var, pts: PointsTo)
    requires Consistent(net, edges, x)
    ensures Consistent(net, edges, x.(flow := x.flow.(top := Join(x.flow.top, dst, pts))))
  {
    forall v { JoinGet(x.flow.top, dst, pts, v); }
  }

  lemma StoreValueConsistent(net: Net, edges: set<FlowEdge>, x: Inc, a: Action)
    requires Consistent(net, edges, x) && a.StoreValue? && Allowed(net, a)
    ensures Consistent(net, edges, Incremental(net, edges, x, a).state)
  {
    forall k { JoinGet(x.flow.out, Slot(a.loc, a.v), Get(x.flow.top, a.src), k); }
  }

  lemma PassThroughConsistent(net: Net, edges: set<FlowEdge>, x: Inc, a: Action)
    requires WellFormed(net) && Consistent(net, edges, x) && a.PassThrough? && Allowed(net, a)
    ensures Consistent(net, edges, Incremental(net, edges, x, a).state)
  {
    var ks := Selected(x.inNew, a.loc, a.singleton, a.strong);
    forall k { JoinAllGet(x.flow.out, x.flow.inn, ks, k); }
  }

  lemma LoadValueConsistent(net: Net, edges: set<FlowEdge>, x: Inc, a: Action)
    requires WellFormed(net) && Consistent(net, edges, x) && a.LoadValue? && Allowed(net, a)
    ensures Consistent(net, edges, Incremental(net, edges, x, a).state)
  {
    forall v { JoinGet(x.flow.top, net.loads[a.loc], Get(x.flow.inn, Slot(a.loc, a.v)), v); }
  }

  lemma PropagateConsistent(net: Net, edges: set<FlowEdge>, x: Inc, a: Action)
    requires WellFormed(net) && Consistent(net, edges, x) && a.Propagate? && Allowed(net, a)
    ensures Consistent(net, edges, Incremental(net, edges, x, a).state)
  {
    var loc, f := a.loc, x.flow;
    var ks := Flagged(net, edges, x, loc);
    var sent := Sent(Source(net, f, loc), loc, ks);
    var y := Incremental(net, edges, x, a).state;
    forall k { JoinAllGet(f.inn, sent, ks, k); }
    forall e, v | e in edges && e.src in net.stores && v in e.guard && Slot(e.src, v) !in y.outNew
      ensures Get(y.flow.out, Slot(e.src, v)) <= Get(y.flow.inn, Slot(e.dst, v))
    {
      if e.src == loc && Slot(loc, v) in x.outNew {
        assert Slot(e.dst, v) in Targets(edges, loc);
      }
    }
  }

  lemma ConnectConsistent(net: Net, edges: set<FlowEdge>, x: Inc, a: Action)
    requires WellFormed(net) && Consistent(net, edges, x) && a.Connect? && Allowed(net, a)
    ensures Consistent(net, edges + {a.edge}, Incremental(net, edges, x, a).state)
  {
    var e, f := a.edge, x.flow;
    var ks := Targets({e}, e.src);
    var sent := Sent(Source(net, f, e.src), e.src, ks);
    forall k { JoinAllGet(f.inn, sent, ks, k); }
    forall v | v in e.guard ensures Slot(e.dst, v) in ks {
    }
  }

  lemma StepConsistent(net: Net, edges: set<FlowEdge>, x: Inc, a: Action)
    requires WellFormed(net) && Consistent(net, edges, x) && Allowed(net, a)
    ensures Consistent(net, Edges(edges, a), Incremental(net, edges, x, a).state)
  {
    match a
    case GrowTop(dst, pts) => GrowTopConsistent(net, edges, x, dst, pts);
    case StoreValue(_, _, _) => StoreValueConsistent(net, edges, x, a);
    case PassThrough(_, _, _) => PassThroughConsistent(net, edges, x, a);
    case LoadValue(_, _) => LoadValueConsistent(net, edges, x, a);
    case Propagate(_) => PropagateConsistent(net, edges, x, a);
    case Connect(_) => ConnectConsistent(net, edges, x, a);
  }

  // ---- whole runs ----

  datatype Run<T> = Run(state: T, edges: set<FlowEdge>, reports: seq<set<Slot>>)

  function RunPlain(net: Net, edges: set<FlowEdge>, f: Flow, actions: seq<Action>): Run<Flow>
    requires forall a :: a in actions ==> Allowed(net, a)
    decreases |actions|
  {
    if actions == [] then Run(f, edges, [])
    else
      var o := Plain(net, edges, f, actions[0]);
      var rest := RunPlain(net, Edges(edges, actions[0]), o.state, actions[1..]);
      rest.(reports := [o.changed] + rest.reports)
  }

  function RunIncremental(net: Net, edges: set<FlowEdge>, x: Inc, actions: seq<Action>): Run<Inc>
    requires forall a :: a in actions ==> Allowed(net, a)
    decreases |actions|
  {
    if actions == [] then Run(x, edges, [])
    else
      var o := Incremental(net, edges, x, actions[0]);
      var rest := RunIncremental(net, Edges(edges, actions[0]), o.state, actions[1..]);
      rest.(reports := [o.changed] + rest.reports)
  }

  // A run goes on from where a part of it has ended.
  lemma {:induction false} RunOneMore(net: Net, edges: set<FlowEdge>, x: Inc, actions: seq<Action>, a: Action)
    requires (forall b :: b in actions ==> Allowed(net, b)) && Allowed(net, a)
    ensures var run := RunIncremental(net, edges, x, actions);
            var o := Incremental(net, run.edges, run.state, a);
            RunIncremental(net, edges, x, actions + [a]) ==
            Run(o.state, Edges(run.edges, a), run.reports + [o.changed])
    decreases |actions|
  {
    hide Incremental;
    if actions == [] {
      assert [] + [a] == [a];
      assert [a][1..] == [];
    } else {
      assert (actions + [a])[1..] == actions[1..] + [a];
      RunOneMore(net, Edges(edges, actions[0]), Incremental(net, edges, x, actions[0]).state, actions[1..], a);
    }
  }

  // Over every run the incremental form holds the same sets as the plain one and reports the same
  // changes at every step, so the solver's worklist evolves identically.
  lemma {:induction false} IncrementalRefinesPlain(net: Net, edges: set<FlowEdge>, x: Inc, actions: seq<Action>)
    requires WellFormed(net) && Consistent(net, edges, x) && forall a :: a in actions ==> Allowed(net, a)
    ensures var inc, plain := RunIncremental(net, edges, x, actions), RunPlain(net, edges, x.flow, actions);
            inc.state.flow == plain.state && inc.reports == plain.reports && inc.edges == plain.edges
    ensures var inc := RunIncremental(net, edges, x, actions); Consistent(net, inc.edges, inc.state)
    decreases |actions|
  {
    if actions != [] {
      SameOutcome(net, edges, x, actions[0]);
      StepConsistent(net, edges, x, actions[0]);
      var y := Incremental(net, edges, x, actions[0]).state;
      IncrementalRefinesPlain(net, Edges(edges, actions[0]), y, actions[1..]);
    }
  }

  // The equations of the stores: what a store's OUT holds has reached its successors, and what its
  // IN holds has passed through.
  ghost predicate StoreEdgesHold(net: Net, edges: set<FlowEdge>, f: Flow) {
    forall e, v :: e in edges && e.src in net.stores && v in e.guard ==>
      Get(f.out, Slot(e.src, v)) <= Get(f.inn, Slot(e.dst, v))
  }

  ghost predicate PassedThrough(net: Net, f: Flow) {
    forall k: Slot :: k.loc in net.stores ==> Get(f.inn, k) <= Get(f.out, k)
  }

  // When no OUT flag and no IN flag at a store is left, these equations hold in full, wherever the
  // run started from consistent data.
  lemma Quiescence(net: Net, edges: set<FlowEdge>, x: Inc, actions: seq<Action>)
    requires WellFormed(net) && Consistent(net, edges, x) && forall a :: a in actions ==> Allowed(net, a)
    ensures var end := RunIncremental(net, edges, x, actions);
            && (end.state.outNew == {} ==> StoreEdgesHold(net, end.edges, end.state.flow))
            && ((forall k :: k in end.state.inNew ==> k.loc !in net.stores) ==> PassedThrough(net, end.state.flow))
  {
    IncrementalRefinesPlain(net, edges, x, actions);
  }

  // ---- the worklist ----

  // What every edge must have carried, except edges leaving a location still on the worklist.
  ghost predicate EdgesHold(net: Net, edges: set<FlowEdge>, f: Flow, waiting: set<LocID>) {
    forall e, v :: e in edges && e.src !in waiting && v in e.guard ==>
      Get(Source(net, f, e.src), Slot(e.src, v)) <= Get(f.inn, Slot(e.dst, v))
  }

  // The solver takes a location off its worklist to propagate it, and puts every location with a
  // reported change on it.
  function Waiting(waiting: set<LocID>, a: Action, changed: set<Slot>): set<LocID> {
    (if a.Propagate? then waiting - {a.loc} else waiting) + set k | k in changed :: k.loc
  }

  function WaitingAfter(waiting: set<LocID>, actions: seq<Action>, reports: seq<set<Slot>>): set<LocID>
    requires |reports| == |actions|
    decreases |actions|
  {
    if actions == [] then waiting
    else WaitingAfter(Waiting(waiting, actions[0], reports[0]), actions[1..], reports[1..])
  }

  lemma JoinAllUnreported(m: Sets, from: Sets, ks: set<Slot>, k: Slot)
    requires k !in Missing(m, from, ks)
    ensures Get(JoinAll(m, from, ks), k) == Get(m, k)
  {
  }

  // A location that reports nothing sends what it sent before.
  lemma UnreportedSendsSame(net: Net, edges: set<FlowEdge>, f: Flow, a: Action, k: Slot)
    requires Allowed(net, a) && k !in Plain(net, edges, f, a).changed
    ensures Get(Source(net, Plain(net, edges, f, a).state, k.loc), k) == Get(Source(net, f, k.loc), k)
  {
    hide JoinAll, Missing, Targets, Sent;
    match a
    case PassThrough(loc, singleton, strong) =>
      JoinAllUnreported(f.out, f.inn, Selected(f.inn.Keys, loc, singleton, strong), k);
    case Propagate(loc) =>
      JoinAllUnreported(f.inn, Sent(Source(net, f, loc), loc, Targets(edges, loc)), Targets(edges, loc), k);
    case Connect(e) =>
      JoinAllUnreported(f.inn, Sent(Source(net, f, e.src), e.src, Targets({e}, e.src)), Targets({e}, e.src), k);
    case _ =>
  }

  lemma InGrows(net: Net, edges: set<FlowEdge>, f: Flow, a: Action, k: Slot)
    requires Allowed(net, a)
    ensures Get(f.inn, k) <= Get(Plain(net, edges, f, a).state.inn, k)
  {
  }

  // An edge whose source is propagated or which has just been connected carries everything.
  lemma CarriedNow(net: Net, edges: set<FlowEdge>, f: Flow, a: Action, e: FlowEdge, v: Var)
    requires Allowed(net, a) && v in e.guard
    requires (a.Propagate? && e in edges && e.src == a.loc) || (a.Connect? && e == a.edge)
    ensures Get(Source(net, f, e.src), Slot(e.src, v)) <= Get(Plain(net, edges, f, a).state.inn, Slot(e.dst, v))
  {
    hide JoinAll, Missing;
    var ks := if a.Propagate? then Targets(edges, e.src) else Targets({e}, e.src);
    assert Slot(e.dst, v) in ks;
    JoinAllGet(f.inn, Sent(Source(net, f, e.src), e.src, ks), ks, Slot(e.dst, v));
  }

  lemma StepEdgesHold(net: Net, edges: set<FlowEdge>, f: Flow, a: Action, waiting: set<LocID>)
    requires Allowed(net, a) && EdgesHold(net, edges, f, waiting)
    ensures var o := Plain(net, edges, f, a);
            EdgesHold(net, Edges(edges, a), o.state, Waiting(waiting, a, o.changed))
  {
    hide Plain, Get, Source;
    var o := Plain(net, edges, f, a);
    forall e, v | e in Edges(edges, a) && e.src !in Waiting(waiting, a, o.changed) && v in e.guard
      ensures Get(Source(net, o.state, e.src), Slot(e.src, v)) <= Get(o.state.inn, Slot(e.dst, v))
    {
      UnreportedSendsSame(net, edges, f, a, Slot(e.src, v));
      InGrows(net, edges, f, a, Slot(e.dst, v));
      if (a.Propagate? && e.src == a.loc) || (a.Connect? && e == a.edge) {
        CarriedNow(net, edges, f, a, e, v);
      }
    }
  }

  lemma {:induction false} RunEdgesHold(net: Net, edges: set<FlowEdge>, f: Flow, actions: seq<Action>,
                                        waiting: set<LocID>)
    requires (forall a :: a in actions ==> Allowed(net, a)) && EdgesHold(net, edges, f, waiting)
    ensures var end := RunPlain(net, edges, f, actions);
            && |end.reports| == |actions|
            && EdgesHold(net, end.edges, end.state, WaitingAfter(waiting, actions, end.reports))
    decreases |actions|
  {
    hide Plain, EdgesHold;
    if actions != [] {
      var o := Plain(net, edges, f, actions[0]);
      StepEdgesHold(net, edges, f, actions[0], waiting);
      RunEdgesHold(net, Edges(edges, actions[0]), o.state, actions[1..], Waiting(waiting, actions[0], o.changed));
    }
  }

  // No edge leaves a load, so loads still on the worklist have nothing to send.
  lemma LoadsSendNothing(net: Net, edges: set<FlowEdge>, x: Inc, waiting: set<LocID>)
    requires Consistent(net, edges, x) && EdgesHold(net, edges, x.flow, waiting) && waiting <= net.loads.Keys
    ensures EdgesHold(net, edges, x.flow, {})
  {
  }

  // When nothing but loads is left on the worklist, every edge has carried everything its source
  // sends, although the incremental form has moved flagged sets only.
  lemma WorklistQuiescence(net: Net, edges: set<FlowEdge>, x: Inc, actions: seq<Action>, waiting: set<LocID>)
    requires WellFormed(net) && Consistent(net, edges, x) && forall a :: a in actions ==> Allowed(net, a)
    requires EdgesHold(net, edges, x.flow, waiting)
    ensures var end := RunIncremental(net, edges, x, actions);
            && |end.reports| == |actions|
            && (WaitingAfter(waiting, actions, end.reports) <= net.loads.Keys ==>
                  EdgesHold(net, end.edges, end.state.flow, {}))
  {
    hide Plain, Incremental, EdgesHold, Consistent;
    IncrementalRefinesPlain(net, edges, x, actions);
    RunEdgesHold(net, edges, x.flow, actions, waiting);
    var end := RunIncremental(net, edges, x, actions);
    if WaitingAfter(waiting, actions, end.reports) <= net.loads.Keys {
      LoadsSendNothing(net, end.edges, end.state, WaitingAfter(waiting, actions, end.reports));
    }
  }

  lemma {:induction false} InGrowsOverRun(net: Net, edges: set<FlowEdge>, f: Flow, actions: seq<Action>, k: Slot)
    requires forall a :: a in actions ==> Allowed(net, a)
    ensures Get(f.inn, k) <= Get(RunPlain(net, edges, f, actions).state.inn, k)
    decreases |actions|
  {
    hide Plain;
    if actions != [] {
      InGrows(net, edges, f, actions[0], k);
      InGrowsOverRun(net, Edges(edges, actions[0]), Plain(net, edges, f, actions[0]).state, actions[1..], k);
    }
  }

  lemma WeakUpdatePasses(net: Net, edges: set<FlowEdge>, x: Inc, loc: LocID, v: Var, w: Var, strong: bool)
    requires WellFormed(net) && Consistent(net, edges, x) && loc in net.stores && (!strong || w != v)
    ensures Get(x.flow.inn, Slot(loc, v)) <=
            Get(Incremental(net, edges, x, PassThrough(loc, w, strong)).state.flow.out, Slot(loc, v))
  {
    var y := Incremental(net, edges, x, PassThrough(loc, w, strong)).state;
    StepConsistent(net, edges, x, PassThrough(loc, w, strong));
    assert Slot(loc, v) !in y.inNew;
  }

  // A variable skipped by a strong update keeps its flag: whatever happens in between, the next
  // update of the store that does not skip it passes through all that was left behind.
  lemma SkippedIsCaughtUp(net: Net, edges: set<FlowEdge>, x: Inc, loc: LocID, v: Var, between: seq<Action>,
                          w: Var, strong: bool)
    requires WellFormed(net) && Consistent(net, edges, x) && loc in net.stores && (!strong || w != v)
    requires forall a :: a in between ==> Allowed(net, a)
    ensures var skipped := Incremental(net, edges, x, PassThrough(loc, v, true)).state;
            var later := RunIncremental(net, edges, skipped, between);
            var caughtUp := Incremental(net, later.edges, later.state, PassThrough(loc, w, strong)).state;
            Get(x.flow.inn, Slot(loc, v)) <= Get(caughtUp.flow.out, Slot(loc, v))
  {
    hide Consistent;
    var skipped := Incremental(net, edges, x, PassThrough(loc, v, true)).state;
    StepConsistent(net, edges, x, PassThrough(loc, v, true));
    IncrementalRefinesPlain(net, edges, skipped, between);
    InGrowsOverRun(net, edges, skipped.flow, between, Slot(loc, v));
    var later := RunIncremental(net, edges, skipped, between);
    WeakUpdatePasses(net, later.edges, later.state, loc, v, w, strong);
  }

  // updateDFOutFromIn of the incremental form, which consumes the flag of its source.
  function OutFromIn(x: Inc, from: Slot, to: Slot): Inc {
    if from !in x.inNew then x
    else
      var pts := Get(x.flow.inn, from);
      Inc(x.flow.(out := Join(x.flow.out, to, pts)), x.inNew - {from},
          x.outNew + if Grows(x.flow.out, to, pts) then {to} else {})
  }

  // A store's own update keeps the invariant. The protocol asks for no more than that.
  lemma OwnUpdateConsistent(net: Net, edges: set<FlowEdge>, x: Inc, from: Slot)
    requires WellFormed(net) && Consistent(net, edges, x) && from.loc in net.stores
    ensures Consistent(net, edges, OutFromIn(x, from, from))
  {
    forall k { JoinGet(x.flow.out, from, Get(x.flow.inn, from), k); }
  }

  lemma ForeignUpdateConsistent(net: Net, edges: set<FlowEdge>, x: Inc, from: Slot, to: Slot)
    requires WellFormed(net) && Consistent(net, edges, x)
    requires from.loc in net.stores && to.loc in net.stores && from != to
    requires Get(x.flow.inn, from) <= Get(x.flow.out, from)
    ensures Consistent(net, edges, OutFromIn(x, from, to))
  {
    forall k { JoinGet(x.flow.out, to, Get(x.flow.inn, from), k); }
  }

  // Once another location consumes the flag of a store that has yet to pass its set on, the store
  // never does, while the plain form still would. A flag may be consumed elsewhere exactly when the
  // set has passed through already.
  lemma ForeignUpdateIsHarmless(net: Net, edges: set<FlowEdge>, x: Inc, from: Slot, to: Slot)
    requires WellFormed(net) && Consistent(net, edges, x)
    requires from.loc in net.stores && to.loc in net.stores && from != to
    ensures Get(x.flow.inn, from) <= Get(x.flow.out, from) <==>
            var y := OutFromIn(x, from, to);
            forall a :: Allowed(net, a) ==>
              Incremental(net, edges, y, a).state.flow == Plain(net, edges, y.flow, a).state
  {
    hide Consistent, Missing, JoinAll, Targets, Flagged;
    var y := OutFromIn(x, from, to);
    if Get(x.flow.inn, from) <= Get(x.flow.out, from) {
      ForeignUpdateConsistent(net, edges, x, from, to);
      forall a | Allowed(net, a)
        ensures Incremental(net, edges, y, a).state.flow == Plain(net, edges, y.flow, a).state
      {
        SameOutcome(net, edges, y, a);
      }
    } else {
      var a := PassThrough(from.loc, 0, false);
      JoinGet(x.flow.out, to, Get(x.flow.inn, from), from);
      FlaggedIfNew(net, edges, x, from);
      JoinAllGet(y.flow.out, y.flow.inn, Selected(y.flow.inn.Keys, from.loc, 0, false), from);
      JoinAllGet(y.flow.out, y.flow.inn, Selected(y.inNew, from.loc, 0, false), from);
      assert Get(Plain(net, edges, y.flow, a).state.out, from) !=
             Get(Incremental(net, edges, y, a).state.flow.out, from);
    }
  }

  lemma FlaggedIfNew(net: Net, edges: set<FlowEdge>, x: Inc, k: Slot)
    requires Consistent(net, edges, x) && k.loc in net.stores && !(Get(x.flow.inn, k) <= Get(x.flow.out, k))
    ensures k in x.inNew && k in x.flow.inn
  {
  }

  // ---- one slot at a time ----

  lemma MissingAdd(m: Sets, from: Sets, ks: set<Slot>, k: Slot)
    ensures Missing(m, from, ks + {k}) == Missing(m, from, ks) + if Grows(m, k, Get(from, k)) then {k} else {}
  {
    hide Grows, Get;
  }

  lemma JoinAllExtend(m: Sets, from: Sets, ks: set<Slot>, k: Slot)
    requires k !in ks && Grows(m, k, Get(from, k))
    ensures JoinAll(m, from, ks + {k}) == JoinAll(m, from, ks)[k := Get(m, k) + Get(from, k)]
  {
    MissingAdd(m, from, ks, k);
    hide Missing, Grows, Get;
  }

  // Joining slot by slot builds up the joint update, in any order.
  lemma JoinAllAdd(m: Sets, from: Sets, ks: set<Slot>, k: Slot)
    ensures JoinAll(m, from, ks + {k}) == Join(JoinAll(m, from, ks), k, Get(from, k))
    ensures Missing(m, from, ks + {k}) ==
            Missing(m, from, ks) + if Grows(JoinAll(m, from, ks), k, Get(from, k)) then {k} else {}
  {
    hide Missing, JoinAll;
    JoinAllGet(m, from, ks, k);
    MissingAdd(m, from, ks, k);
    if k in ks {
      assert ks + {k} == ks;
    } else if Grows(m, k, Get(from, k)) {
      JoinAllExtend(m, from, ks, k);
    } else {
      JoinAllSkips(m, from, ks + {k}, ks);
    }
  }

  lemma JoinAllNothing(m: Sets, from: Sets)
    ensures JoinAll(m, from, {}) == m && Missing(m, from, {}) == {}
  {
  }

  // The state of the incremental form when the flagged slots in done have been passed through.
  function PassedSoFar(x: Inc, done: set<Slot>): Inc {
    Inc(x.flow.(out := JoinAll(x.flow.out, x.flow.inn, done)), x.inNew - done,
        x.outNew + Missing(x.flow.out, x.flow.inn, done))
  }

  lemma PassOneMore(x: Inc, done: set<Slot>, k: Slot)
    requires k in x.inNew && k !in done
    ensures OutFromIn(PassedSoFar(x, done), k, k) == PassedSoFar(x, done + {k})
    ensures Missing(x.flow.out, x.flow.inn, done + {k}) == Missing(x.flow.out, x.flow.inn, done) +
            if Grows(PassedSoFar(x, done).flow.out, k, Get(x.flow.inn, k)) then {k} else {}
  {
    hide JoinAll, Missing, Join, Grows;
    JoinAllAdd(x.flow.out, x.flow.inn, done, k);
  }

  // One set moved to an IN slot, from OUT or from IN.
  function Moved(x: Inc, from: Slot, to: Slot, fromOut: bool): Inc {
    var pts := Get(if fromOut then x.flow.out else x.flow.inn, from);
    x.(flow := x.flow.(inn := Join(x.flow.inn, to, pts)),
       inNew := x.inNew + if Grows(x.flow.inn, to, pts) then {to} else {})
  }

  // The state of the incremental form when the slots in done have been sent to.
  function SentSoFar(x: Inc, sent: Sets, done: set<Slot>): Inc {
    x.(flow := x.flow.(inn := JoinAll(x.flow.inn, sent, done)), inNew := x.inNew + Missing(x.flow.inn, sent, done))
  }

  lemma SentGet(from: Sets, loc: LocID, ks: set<Slot>, k: Slot)
    requires k in ks
    ensures Get(Sent(from, loc, ks), k) == Get(from, Slot(loc, k.v))
  {
  }

  // Propagating IN sets of loc, along cycles back to loc included, does not change them meanwhile.
  lemma OwnSetStays(net: Net, x: Inc, loc: LocID, edges: set<FlowEdge>, done: set<Slot>, v: Var)
    requires loc !in net.stores && done <= Targets(edges, loc)
    ensures var sent := Sent(x.flow.inn, loc, Targets(edges, loc));
            && Get(JoinAll(x.flow.inn, sent, done), Slot(loc, v)) == Get(x.flow.inn, Slot(loc, v))
            && Slot(loc, v) !in Missing(x.flow.inn, sent, done)
  {
    JoinAllGet(x.flow.inn, Sent(x.flow.inn, loc, Targets(edges, loc)), done, Slot(loc, v));
  }

  lemma SendOneMore(net: Net, x: Inc, loc: LocID, edges: set<FlowEdge>, done: set<Slot>, k: Slot)
    requires done <= Targets(edges, loc) && k in Targets(edges, loc)
    ensures var sent := Sent(Source(net, x.flow, loc), loc, Targets(edges, loc));
            var y := SentSoFar(x, sent, done);
            && (Slot(loc, k.v) in FlagsAt(net, y, loc) <==> Slot(loc, k.v) in FlagsAt(net, x, loc))
            && Moved(y, Slot(loc, k.v), k, loc in net.stores) == SentSoFar(x, sent, done + {k})
            && Missing(x.flow.inn, sent, done + {k}) == Missing(x.flow.inn, sent, done) +
               if Grows(y.flow.inn, k, Get(Source(net, y.flow, loc), Slot(loc, k.v))) then {k} else {}
  {
    hide JoinAll, Missing, Join, Grows, Sent, Targets;
    var sent := Sent(Source(net, x.flow, loc), loc, Targets(edges, loc));
    JoinAllAdd(x.flow.inn, sent, done, k);
    SentGet(Source(net, x.flow, loc), loc, Targets(edges, loc), k);
    if loc !in net.stores {
      OwnSetStays(net, x, loc, edges, done, k.v);
    }
  }

  lemma SendNothing(x: Inc, sent: Sets)
    ensures SentSoFar(x, sent, {}) == x && Missing(x.flow.inn, sent, {}) == {}
  {
    JoinAllNothing(x.flow.inn, sent);
  }
}
