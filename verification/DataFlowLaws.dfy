// What each step of the flow-sensitive forms does, slot by slot, and what a store's equation means
// over whole runs.
module DataFlowLaws {
  import opened PersistentPointsToCache
  import opened DataFlowPointsTo

  // ---- the plain form ----

  lemma PlainGrowTop(net: Net, edges: set<FlowEdge>, f: Flow, dst: Var, pts: PointsTo)
    ensures var o := Plain(net, edges, f, GrowTop(dst, pts));
            && Get(o.state.top, dst) == Get(f.top, dst) + pts
            && (forall v :: v != dst ==> Get(o.state.top, v) == Get(f.top, v))
            && o.state.inn == f.inn && o.state.out == f.out && o.changed == {}
  {
  }

  // A store adds what its source points to at the stored-to variable.
  lemma PlainStore(net: Net, edges: set<FlowEdge>, f: Flow, loc: LocID, src: Var, v: Var)
    requires loc in net.stores
    ensures var o, k := Plain(net, edges, f, StoreValue(loc, src, v)), Slot(loc, v);
            && Get(o.state.out, k) == Get(f.out, k) + Get(f.top, src)
            && (forall j :: j != k ==> Get(o.state.out, j) == Get(f.out, j))
            && o.state.inn == f.inn && o.state.top == f.top
            && o.changed == if Get(f.top, src) <= Get(f.out, k) then {} else {k}
  {
  }

  // Every variable at loc passes, except the singleton of a strong update, whose OUT set stays.
  lemma PlainPass(net: Net, edges: set<FlowEdge>, f: Flow, loc: LocID, singleton: Var, strong: bool)
    requires loc in net.stores
    ensures var o := Plain(net, edges, f, PassThrough(loc, singleton, strong));
            && (forall v :: !(strong && v == singleton) ==>
                  Get(o.state.out, Slot(loc, v)) == Get(f.out, Slot(loc, v)) + Get(f.inn, Slot(loc, v)))
            && (strong ==> Get(o.state.out, Slot(loc, singleton)) == Get(f.out, Slot(loc, singleton)))
            && (forall k: Slot :: k.loc != loc ==> Get(o.state.out, k) == Get(f.out, k))
            && o.state.inn == f.inn && o.state.top == f.top
            && (forall k: Slot :: k in o.changed <==>
                  k.loc == loc && !(strong && k.v == singleton) && !(Get(f.inn, k) <= Get(f.out, k)))
  {
    var ks := Selected(f.inn.Keys, loc, singleton, strong);
    forall k { JoinAllGet(f.out, f.inn, ks, k); }
  }

  lemma PlainLoad(net: Net, edges: set<FlowEdge>, f: Flow, loc: LocID, v: Var)
    requires loc in net.loads
    ensures var o, dst, pts := Plain(net, edges, f, LoadValue(loc, v)), net.loads[loc], Get(f.inn, Slot(loc, v));
            && Get(o.state.top, dst) == Get(f.top, dst) + pts
            && (forall w :: w != dst ==> Get(o.state.top, w) == Get(f.top, w))
            && o.state.inn == f.inn && o.state.out == f.out
            && o.changed == if pts <= Get(f.top, dst) then {} else {Slot(loc, v)}
  {
  }

  // What loc holds for k's variable, where it sends from, arrives at k over an edge that admits it.
  lemma PlainPropagate(net: Net, edges: set<FlowEdge>, f: Flow, loc: LocID)
    requires loc !in net.loads
    ensures var o, from := Plain(net, edges, f, Propagate(loc)), if loc in net.stores then f.out else f.inn;
            && (forall k: Slot :: (exists e :: e in edges && e.src == loc && e.dst == k.loc && k.v in e.guard) ==>
                  && Get(o.state.inn, k) == Get(f.inn, k) + Get(from, Slot(loc, k.v))
                  && (k in o.changed <==> !(Get(from, Slot(loc, k.v)) <= Get(f.inn, k))))
            && (forall k: Slot :: !(exists e :: e in edges && e.src == loc && e.dst == k.loc && k.v in e.guard) ==>
                  Get(o.state.inn, k) == Get(f.inn, k) && k !in o.changed)
            && o.state.out == f.out && o.state.top == f.top
  {
    var ks := Targets(edges, loc);
    var sent := Sent(Source(net, f, loc), loc, ks);
    forall k: Slot
      ensures k in ks <==> exists e :: e in edges && e.src == loc && e.dst == k.loc && k.v in e.guard
      ensures Get(JoinAll(f.inn, sent, ks), k) == if k in ks then Get(f.inn, k) + Get(sent, k) else Get(f.inn, k)
    {
      JoinAllGet(f.inn, sent, ks, k);
      TargetsMeaning(edges, loc, k);
    }
  }

  lemma TargetsMeaning(edges: set<FlowEdge>, loc: LocID, k: Slot)
    ensures k in Targets(edges, loc) <==>
            exists e :: e in edges && e.src == loc && e.dst == k.loc && k.v in e.guard
  {
    if e :| e in edges && e.src == loc && e.dst == k.loc && k.v in e.guard {
      assert k == Slot(e.dst, k.v);
    }
  }

  lemma PlainConnect(net: Net, edges: set<FlowEdge>, f: Flow, e: FlowEdge)
    requires e.src !in net.loads
    ensures var o, from := Plain(net, edges, f, Connect(e)), if e.src in net.stores then f.out else f.inn;
            && (forall k: Slot :: k.loc == e.dst && k.v in e.guard ==>
                  && Get(o.state.inn, k) == Get(f.inn, k) + Get(from, Slot(e.src, k.v))
                  && (k in o.changed <==> !(Get(from, Slot(e.src, k.v)) <= Get(f.inn, k))))
            && (forall k: Slot :: !(k.loc == e.dst && k.v in e.guard) ==>
                  Get(o.state.inn, k) == Get(f.inn, k) && k !in o.changed)
            && o.state.out == f.out && o.state.top == f.top
  {
    var ks := Targets({e}, e.src);
    var sent := Sent(Source(net, f, e.src), e.src, ks);
    forall k: Slot
      ensures k in ks <==> k.loc == e.dst && k.v in e.guard
      ensures Get(JoinAll(f.inn, sent, ks), k) == if k in ks then Get(f.inn, k) + Get(sent, k) else Get(f.inn, k)
    {
      JoinAllGet(f.inn, sent, ks, k);
      TargetsMeaning({e}, e.src, k);
      assert e in {e};
    }
  }

  // ---- the incremental form ----

  lemma IncrementalGrowTop(net: Net, edges: set<FlowEdge>, x: Inc, dst: Var, pts: PointsTo)
    ensures var o := Incremental(net, edges, x, GrowTop(dst, pts));
            && Get(o.state.flow.top, dst) == Get(x.flow.top, dst) + pts
            && (forall v :: v != dst ==> Get(o.state.flow.top, v) == Get(x.flow.top, v))
            && o.state == x.(flow := x.flow.(top := o.state.flow.top)) && o.changed == {}
  {
  }

  // A store adds what its source points to at the stored-to variable, and flags that if it is new.
  lemma IncrementalStore(net: Net, edges: set<FlowEdge>, x: Inc, loc: LocID, src: Var, v: Var)
    requires loc in net.stores
    ensures var o, k := Incremental(net, edges, x, StoreValue(loc, src, v)), Slot(loc, v);
            && Get(o.state.flow.out, k) == Get(x.flow.out, k) + Get(x.flow.top, src)
            && (forall j :: j != k ==> Get(o.state.flow.out, j) == Get(x.flow.out, j))
            && o.state.flow.inn == x.flow.inn && o.state.flow.top == x.flow.top && o.state.inNew == x.inNew
            && o.changed == (if Get(x.flow.top, src) <= Get(x.flow.out, k) then {} else {k})
            && o.state.outNew == x.outNew + o.changed
  {
  }

  // Flagged sets at loc pass, except the singleton of a strong update, which keeps its flag.
  lemma IncrementalPass(net: Net, edges: set<FlowEdge>, x: Inc, loc: LocID, singleton: Var, strong: bool)
    requires loc in net.stores
    ensures var o := Incremental(net, edges, x, PassThrough(loc, singleton, strong));
            && (forall v :: !(strong && v == singleton) && Slot(loc, v) in x.inNew ==>
                  Get(o.state.flow.out, Slot(loc, v)) == Get(x.flow.out, Slot(loc, v)) + Get(x.flow.inn, Slot(loc, v)))
            && (forall v :: (strong && v == singleton) || Slot(loc, v) !in x.inNew ==>
                  Get(o.state.flow.out, Slot(loc, v)) == Get(x.flow.out, Slot(loc, v)))
            && (forall k: Slot :: k.loc != loc ==> Get(o.state.flow.out, k) == Get(x.flow.out, k))
            && o.state.flow.inn == x.flow.inn && o.state.flow.top == x.flow.top
            && (forall k: Slot :: k in o.state.inNew <==>
                  k in x.inNew && (k.loc != loc || (strong && k.v == singleton)))
            && (forall k: Slot :: k in o.changed <==>
                  k.loc == loc && !(strong && k.v == singleton) && k in x.inNew &&
                  !(Get(x.flow.inn, k) <= Get(x.flow.out, k)))
            && o.state.outNew == x.outNew + o.changed
  {
    var ks := Selected(x.inNew, loc, singleton, strong);
    forall k { JoinAllGet(x.flow.out, x.flow.inn, ks, k); }
  }

  lemma IncrementalLoad(net: Net, edges: set<FlowEdge>, x: Inc, loc: LocID, v: Var)
    requires loc in net.loads
    ensures var o, dst, k := Incremental(net, edges, x, LoadValue(loc, v)), net.loads[loc], Slot(loc, v);
            var pts := if k in x.inNew then Get(x.flow.inn, k) else {};
            && Get(o.state.flow.top, dst) == Get(x.flow.top, dst) + pts
            && (forall w :: w != dst ==> Get(o.state.flow.top, w) == Get(x.flow.top, w))
            && o.state.flow.inn == x.flow.inn && o.state.flow.out == x.flow.out
            && o.state.inNew == x.inNew - {k} && o.state.outNew == x.outNew
            && o.changed == if pts <= Get(x.flow.top, dst) then {} else {k}
  {
  }

  // As in the plain form, but flagged sets only; what grows is flagged, and loc loses its OUT flags.
  lemma IncrementalPropagate(net: Net, edges: set<FlowEdge>, x: Inc, loc: LocID)
    requires loc !in net.loads
    ensures var o, isStore := Incremental(net, edges, x, Propagate(loc)), loc in net.stores;
            var from, flags := if isStore then x.flow.out else x.flow.inn, if isStore then x.outNew else x.inNew;
            && (forall k: Slot ::
                  && Slot(loc, k.v) in flags
                  && (exists e :: e in edges && e.src == loc && e.dst == k.loc && k.v in e.guard) ==>
                  && Get(o.state.flow.inn, k) == Get(x.flow.inn, k) + Get(from, Slot(loc, k.v))
                  && (k in o.changed <==> !(Get(from, Slot(loc, k.v)) <= Get(x.flow.inn, k))))
            && (forall k: Slot ::
                  || Slot(loc, k.v) !in flags
                  || !(exists e :: e in edges && e.src == loc && e.dst == k.loc && k.v in e.guard) ==>
                  Get(o.state.flow.inn, k) == Get(x.flow.inn, k) && k !in o.changed)
            && o.state.flow.out == x.flow.out && o.state.flow.top == x.flow.top
            && o.state.inNew == x.inNew + o.changed
            && (forall k: Slot :: k in o.state.outNew <==> k in x.outNew && k.loc != loc)
  {
    var f, ks := x.flow, Flagged(net, edges, x, loc);
    var sent := Sent(Source(net, f, loc), loc, ks);
    forall k: Slot
      ensures k in Targets(edges, loc) <==> exists e :: e in edges && e.src == loc && e.dst == k.loc && k.v in e.guard
      ensures Get(JoinAll(f.inn, sent, ks), k) == if k in ks then Get(f.inn, k) + Get(sent, k) else Get(f.inn, k)
    {
      JoinAllGet(f.inn, sent, ks, k);
      TargetsMeaning(edges, loc, k);
    }
  }

  lemma IncrementalConnect(net: Net, edges: set<FlowEdge>, x: Inc, e: FlowEdge)
    requires e.src !in net.loads
    ensures var o := Incremental(net, edges, x, Connect(e));
            && o.state.flow == Plain(net, edges, x.flow, Connect(e)).state
            && o.changed == Plain(net, edges, x.flow, Connect(e)).changed
            && o.state.inNew == x.inNew + o.changed && o.state.outNew == x.outNew
  {
  }

  // ---- the equations over whole runs ----

  // From consistent data, a pass brings every IN set of loc to OUT that it does not overwrite.
  lemma PassCatchesUp(net: Net, edges: set<FlowEdge>, x: Inc, loc: LocID, singleton: Var, strong: bool)
    requires WellFormed(net) && Consistent(net, edges, x) && loc in net.stores
    ensures var y := Incremental(net, edges, x, PassThrough(loc, singleton, strong)).state;
            && (forall v :: !(strong && v == singleton) ==>
                  Get(y.flow.inn, Slot(loc, v)) <= Get(y.flow.out, Slot(loc, v)))
            && (strong ==> Get(y.flow.out, Slot(loc, singleton)) == Get(x.flow.out, Slot(loc, singleton)))
  {
    SameOutcome(net, edges, x, PassThrough(loc, singleton, strong));
    PlainPass(net, edges, x.flow, loc, singleton, strong);
  }

  lemma OutAndTopGrow(net: Net, edges: set<FlowEdge>, f: Flow, a: Action, k: Slot, v: Var)
    requires Allowed(net, a)
    ensures var g := Plain(net, edges, f, a).state;
            Get(f.out, k) <= Get(g.out, k) && Get(f.top, v) <= Get(g.top, v)
  {
  }

  lemma {:induction false} OutAndTopGrowOverRun(net: Net, edges: set<FlowEdge>, f: Flow, actions: seq<Action>,
                                                k: Slot, v: Var)
    requires forall a :: a in actions ==> Allowed(net, a)
    ensures var g := RunPlain(net, edges, f, actions).state;
            Get(f.out, k) <= Get(g.out, k) && Get(f.top, v) <= Get(g.top, v)
    decreases |actions|
  {
    hide Plain;
    if actions != [] {
      OutAndTopGrow(net, edges, f, actions[0], k, v);
      OutAndTopGrowOverRun(net, Edges(edges, actions[0]), Plain(net, edges, f, actions[0]).state, actions[1..], k, v);
    }
  }

  // A store's equation holds once the store has been processed, and goes on holding over every run
  // until what its source points to has grown.
  lemma StoreStays(net: Net, edges: set<FlowEdge>, x: Inc, loc: LocID, src: Var, v: Var, after: seq<Action>)
    requires WellFormed(net) && Consistent(net, edges, x) && loc in net.stores
    requires forall a :: a in after ==> Allowed(net, a)
    ensures var stored := Incremental(net, edges, x, StoreValue(loc, src, v)).state;
            var end := RunIncremental(net, edges, stored, after).state;
            && Get(x.flow.top, src) <= Get(end.flow.out, Slot(loc, v))
            && (Get(end.flow.top, src) == Get(x.flow.top, src) ==>
                  Get(end.flow.top, src) <= Get(end.flow.out, Slot(loc, v)))
  {
    var y := Incremental(net, edges, x, StoreValue(loc, src, v)).state;
    IncrementalStore(net, edges, x, loc, src, v);
    StepConsistent(net, edges, x, StoreValue(loc, src, v));
    hide Consistent, Incremental;
    IncrementalRefinesPlain(net, edges, y, after);
    OutAndTopGrowOverRun(net, edges, y.flow, after, Slot(loc, v), src);
  }

  // Likewise for a load: what its location holds for v is found in its destination.
  lemma LoadStays(net: Net, edges: set<FlowEdge>, x: Inc, loc: LocID, v: Var, after: seq<Action>)
    requires WellFormed(net) && Consistent(net, edges, x) && loc in net.loads
    requires forall a :: a in after ==> Allowed(net, a)
    ensures var loaded := Incremental(net, edges, x, LoadValue(loc, v)).state;
            var end := RunIncremental(net, edges, loaded, after).state;
            && Get(x.flow.inn, Slot(loc, v)) <= Get(end.flow.top, net.loads[loc])
            && (Get(end.flow.inn, Slot(loc, v)) == Get(x.flow.inn, Slot(loc, v)) ==>
                  Get(end.flow.inn, Slot(loc, v)) <= Get(end.flow.top, net.loads[loc]))
  {
    var y := Incremental(net, edges, x, LoadValue(loc, v)).state;
    SameOutcome(net, edges, x, LoadValue(loc, v));
    PlainLoad(net, edges, x.flow, loc, v);
    StepConsistent(net, edges, x, LoadValue(loc, v));
    hide Consistent, Incremental, Plain;
    IncrementalRefinesPlain(net, edges, y, after);
    OutAndTopGrowOverRun(net, edges, y.flow, after, Slot(loc, v), net.loads[loc]);
  }
}
