// The two flow-sensitive data structures with their sets and flags updated in place, each method
// tied to the step it performs in DataFlowPointsTo.
module FlowSensitiveData {
  import opened PersistentPointsToCache
  import opened DataFlowPointsTo
  import opened DataFlowLaws

  class MutableDFPTData {
    var dfInPts: Sets
    var dfOutPts: Sets
    var ptsMap: map<Var, PointsTo>

    function View(): Flow
      reads this
    {
      Flow(dfInPts, dfOutPts, ptsMap)
    }

    constructor ()
      ensures View() == Flow(map[], map[], map[])
    {
      dfInPts, dfOutPts, ptsMap := map[], map[], map[];
    }

    method UpdateDFInFromIn(src: Slot, dst: Slot) returns (changed: bool)
      modifies `dfInPts
      ensures dfInPts == Join(old(dfInPts), dst, Get(old(dfInPts), src))
      ensures changed == Grows(old(dfInPts), dst, Get(old(dfInPts), src))
      ensures Get(dfInPts, dst) == Get(old(dfInPts), dst) + Get(old(dfInPts), src)
      ensures forall k :: k != dst ==> Get(dfInPts, k) == Get(old(dfInPts), k)
      ensures changed <==> !(Get(old(dfInPts), src) <= Get(old(dfInPts), dst))
    {
      changed := Grows(dfInPts, dst, Get(dfInPts, src));
      dfInPts := Join(dfInPts, dst, Get(dfInPts, src));
    }

    method UpdateDFInFromOut(src: Slot, dst: Slot) returns (changed: bool)
      modifies `dfInPts
      ensures dfInPts == Join(old(dfInPts), dst, Get(dfOutPts, src))
      ensures changed == Grows(old(dfInPts), dst, Get(dfOutPts, src))
      ensures Get(dfInPts, dst) == Get(old(dfInPts), dst) + Get(dfOutPts, src)
      ensures forall k :: k != dst ==> Get(dfInPts, k) == Get(old(dfInPts), k)
      ensures changed <==> !(Get(dfOutPts, src) <= Get(old(dfInPts), dst))
    {
      changed := Grows(dfInPts, dst, Get(dfOutPts, src));
      dfInPts := Join(dfInPts, dst, Get(dfOutPts, src));
    }

    method UpdateDFOutFromIn(src: Slot, dst: Slot) returns (changed: bool)
      modifies `dfOutPts
      ensures dfOutPts == Join(old(dfOutPts), dst, Get(dfInPts, src))
      ensures changed == Grows(old(dfOutPts), dst, Get(dfInPts, src))
      ensures Get(dfOutPts, dst) == Get(old(dfOutPts), dst) + Get(dfInPts, src)
      ensures forall k :: k != dst ==> Get(dfOutPts, k) == Get(old(dfOutPts), k)
      ensures changed <==> !(Get(dfInPts, src) <= Get(old(dfOutPts), dst))
    {
      changed := Grows(dfOutPts, dst, Get(dfInPts, src));
      dfOutPts := Join(dfOutPts, dst, Get(dfInPts, src));
    }

    // Passes the IN sets of loc to OUT, except the one a strong update overwrites.
    method UpdateAllDFOutFromIn(loc: LocID, singleton: Var, strong: bool, ghost net: Net) returns (changed: bool)
      requires loc in net.stores
      modifies `dfOutPts
      ensures View() == Plain(net, {}, old(View()), PassThrough(loc, singleton, strong)).state
      ensures changed <==> Plain(net, {}, old(View()), PassThrough(loc, singleton, strong)).changed != {}
      ensures forall v :: !(strong && v == singleton) ==>
                Get(dfOutPts, Slot(loc, v)) == Get(old(dfOutPts), Slot(loc, v)) + Get(dfInPts, Slot(loc, v))
      ensures strong ==> Get(dfOutPts, Slot(loc, singleton)) == Get(old(dfOutPts), Slot(loc, singleton))
      ensures forall k: Slot :: k.loc != loc ==> Get(dfOutPts, k) == Get(old(dfOutPts), k)
    {
      changed := false;
      ghost var out := dfOutPts;
      var todo := set k | k in dfInPts.Keys && k.loc == loc;
      ghost var done: set<Slot> := {};
      while todo != {}
        invariant todo <= dfInPts.Keys
        invariant done == Selected(dfInPts.Keys, loc, singleton, strong) - todo
        invariant dfOutPts == JoinAll(out, dfInPts, done)
        invariant changed <==> Missing(out, dfInPts, done) != {}
        decreases todo
      {
        var k :| k in todo;
        todo := todo - {k};
        if !(strong && k.v == singleton) {
          JoinAllAdd(out, dfInPts, done, k);
          done := done + {k};
          var grew := UpdateDFOutFromIn(k, k);
          changed := changed || grew;
        }
      }
      assert done == Selected(dfInPts.Keys, loc, singleton, strong);
      PlainPass(net, {}, old(View()), loc, singleton, strong);
    }

    method UpdateTLVPts(loc: LocID, v: Var, dst: Var, ghost net: Net) returns (changed: bool)
      requires loc in net.loads && net.loads[loc] == dst
      modifies `ptsMap
      ensures View() == Plain(net, {}, old(View()), LoadValue(loc, v)).state
      ensures changed <==> Plain(net, {}, old(View()), LoadValue(loc, v)).changed != {}
      ensures Get(ptsMap, dst) == Get(old(ptsMap), dst) + Get(dfInPts, Slot(loc, v))
      ensures forall w :: w != dst ==> Get(ptsMap, w) == Get(old(ptsMap), w)
      ensures changed <==> !(Get(dfInPts, Slot(loc, v)) <= Get(old(ptsMap), dst))
    {
      changed := Grows(ptsMap, dst, Get(dfInPts, Slot(loc, v)));
      ptsMap := Join(ptsMap, dst, Get(dfInPts, Slot(loc, v)));
    }

    method UpdateATVPts(src: Var, loc: LocID, v: Var, ghost net: Net) returns (changed: bool)
      requires loc in net.stores
      modifies `dfOutPts
      ensures View() == Plain(net, {}, old(View()), StoreValue(loc, src, v)).state
      ensures changed <==> Plain(net, {}, old(View()), StoreValue(loc, src, v)).changed != {}
      ensures Get(dfOutPts, Slot(loc, v)) == Get(old(dfOutPts), Slot(loc, v)) + Get(ptsMap, src)
      ensures forall k :: k != Slot(loc, v) ==> Get(dfOutPts, k) == Get(old(dfOutPts), k)
      ensures changed <==> !(Get(ptsMap, src) <= Get(old(dfOutPts), Slot(loc, v)))
    {
      changed := Grows(dfOutPts, Slot(loc, v), Get(ptsMap, src));
      dfOutPts := Join(dfOutPts, Slot(loc, v), Get(ptsMap, src));
    }

    // Sends from loc over the given edges. Returns the slots that have changed.
    method SendAll(loc: LocID, edges: set<FlowEdge>, ghost net: Net, isStore: bool) returns (changed: set<Slot>)
      requires loc !in net.loads && (isStore <==> loc in net.stores)
      modifies `dfInPts
      ensures var f, ks := old(View()), Targets(edges, loc);
              var sent := Sent(Source(net, f, loc), loc, ks);
              dfInPts == JoinAll(f.inn, sent, ks) && changed == Missing(f.inn, sent, ks)
    {
      hide JoinAll, Missing, Join, Grows, Sent;
      ghost var f, ks := View(), Targets(edges, loc);
      ghost var from := Source(net, f, loc);
      ghost var sent := Sent(from, loc, ks);
      changed := {};
      JoinAllNothing(f.inn, sent);
      var todo := set e, v | e in edges && e.src == loc && v in e.guard :: Slot(e.dst, v);
      assert ks - todo == {};
      while todo != {}
        invariant todo <= ks
        invariant dfInPts == JoinAll(f.inn, sent, ks - todo)
        invariant changed == Missing(f.inn, sent, ks - todo)
        decreases todo
      {
        var k :| k in todo;
        JoinAllAdd(f.inn, sent, ks - todo, k);
        SentGet(from, loc, ks, k);
        if !isStore {
          OwnSetStays(net, Inc(f, {}, {}), loc, edges, ks - todo, k.v);
        }
        var grew := false;
        if isStore {
          grew := UpdateDFInFromOut(Slot(loc, k.v), k);
        } else {
          grew := UpdateDFInFromIn(Slot(loc, k.v), k);
        }
        assert ks - (todo - {k}) == (ks - todo) + {k};
        todo := todo - {k};
        changed := changed + if grew then {k} else {};
      }
      assert ks - todo == ks;
    }

    method PropagateNode(loc: LocID, edges: set<FlowEdge>, ghost net: Net, isStore: bool) returns (changed: set<Slot>)
      requires loc !in net.loads && (isStore <==> loc in net.stores)
      modifies `dfInPts
      ensures View() == Plain(net, edges, old(View()), Propagate(loc)).state
      ensures changed == Plain(net, edges, old(View()), Propagate(loc)).changed
    {
      changed := SendAll(loc, edges, net, isStore);
    }

    method ConnectEdge(edge: FlowEdge, ghost edges: set<FlowEdge>, ghost net: Net, isStore: bool)
      returns (changed: set<Slot>)
      requires edge.src !in net.loads && (isStore <==> edge.src in net.stores)
      modifies `dfInPts
      ensures View() == Plain(net, edges, old(View()), Connect(edge)).state
      ensures changed == Plain(net, edges, old(View()), Connect(edge)).changed
    {
      changed := SendAll(edge.src, {edge}, net, isStore);
    }
  }

  class MutableIncDFPTData {
    var dfInPts: Sets
    var dfOutPts: Sets
    var ptsMap: map<Var, PointsTo>
    var inUpdated: set<Slot>
    var outUpdated: set<Slot>

    function View(): Inc
      reads this
    {
      Inc(Flow(dfInPts, dfOutPts, ptsMap), inUpdated, outUpdated)
    }

    // Flagged slots have sets.
    predicate Valid()
      reads this
    {
      inUpdated <= dfInPts.Keys && outUpdated <= dfOutPts.Keys
    }

    constructor ()
      ensures Valid() && View() == Inc(Flow(map[], map[], map[]), {}, {})
    {
      dfInPts, dfOutPts, ptsMap := map[], map[], map[];
      inUpdated, outUpdated := {}, {};
    }

    method UpdateDFInFromIn(src: Slot, dst: Slot) returns (changed: bool)
      requires Valid()
      modifies `dfInPts, `inUpdated
      ensures Valid() && changed == (src in old(inUpdated) && Grows(old(dfInPts), dst, Get(old(dfInPts), src)))
      ensures dfInPts == if src in old(inUpdated) then Join(old(dfInPts), dst, Get(old(dfInPts), src)) else old(dfInPts)
      ensures inUpdated == old(inUpdated) + if changed then {dst} else {}
      ensures Get(dfInPts, dst) == Get(old(dfInPts), dst) + if src in old(inUpdated) then Get(old(dfInPts), src) else {}
      ensures forall k :: k != dst ==> Get(dfInPts, k) == Get(old(dfInPts), k)
    {
      changed := src in inUpdated && Grows(dfInPts, dst, Get(dfInPts, src));
      if changed {
        dfInPts := Join(dfInPts, dst, Get(dfInPts, src));
        inUpdated := inUpdated + {dst};
      }
    }

    method UpdateDFInFromOut(src: Slot, dst: Slot) returns (changed: bool)
      requires Valid()
      modifies `dfInPts, `inUpdated
      ensures Valid() && changed == (src in outUpdated && Grows(old(dfInPts), dst, Get(dfOutPts, src)))
      ensures dfInPts == if src in outUpdated then Join(old(dfInPts), dst, Get(dfOutPts, src)) else old(dfInPts)
      ensures inUpdated == old(inUpdated) + if changed then {dst} else {}
      ensures Get(dfInPts, dst) == Get(old(dfInPts), dst) + if src in outUpdated then Get(dfOutPts, src) else {}
      ensures forall k :: k != dst ==> Get(dfInPts, k) == Get(old(dfInPts), k)
    {
      changed := src in outUpdated && Grows(dfInPts, dst, Get(dfOutPts, src));
      if changed {
        dfInPts := Join(dfInPts, dst, Get(dfOutPts, src));
        inUpdated := inUpdated + {dst};
      }
    }

    // The forms that ignore the flags, for an edge that has just been connected.
    method UpdateAllDFInFromIn(src: Slot, dst: Slot) returns (changed: bool)
      requires Valid()
      modifies `dfInPts, `inUpdated
      ensures Valid() && changed == Grows(old(dfInPts), dst, Get(old(dfInPts), src))
      ensures dfInPts == Join(old(dfInPts), dst, Get(old(dfInPts), src))
      ensures inUpdated == old(inUpdated) + if changed then {dst} else {}
      ensures Get(dfInPts, dst) == Get(old(dfInPts), dst) + Get(old(dfInPts), src)
      ensures forall k :: k != dst ==> Get(dfInPts, k) == Get(old(dfInPts), k)
    {
      changed := Grows(dfInPts, dst, Get(dfInPts, src));
      if changed {
        dfInPts := Join(dfInPts, dst, Get(dfInPts, src));
        inUpdated := inUpdated + {dst};
      }
    }

    method UpdateAllDFInFromOut(src: Slot, dst: Slot) returns (changed: bool)
      requires Valid()
      modifies `dfInPts, `inUpdated
      ensures Valid() && changed == Grows(old(dfInPts), dst, Get(dfOutPts, src))
      ensures dfInPts == Join(old(dfInPts), dst, Get(dfOutPts, src))
      ensures inUpdated == old(inUpdated) + if changed then {dst} else {}
      ensures Get(dfInPts, dst) == Get(old(dfInPts), dst) + Get(dfOutPts, src)
      ensures forall k :: k != dst ==> Get(dfInPts, k) == Get(old(dfInPts), k)
    {
      changed := Grows(dfInPts, dst, Get(dfOutPts, src));
      if changed {
        dfInPts := Join(dfInPts, dst, Get(dfOutPts, src));
        inUpdated := inUpdated + {dst};
      }
    }

    method UpdateDFOutFromIn(src: Slot, dst: Slot) returns (changed: bool)
      requires Valid()
      modifies `dfOutPts, `inUpdated, `outUpdated
      ensures Valid() && View() == OutFromIn(old(View()), src, dst)
      ensures changed == (src in old(inUpdated) && Grows(old(dfOutPts), dst, Get(dfInPts, src)))
      ensures Get(dfOutPts, dst) == Get(old(dfOutPts), dst) + if src in old(inUpdated) then Get(dfInPts, src) else {}
      ensures forall k :: k != dst ==> Get(dfOutPts, k) == Get(old(dfOutPts), k)
      ensures inUpdated == old(inUpdated) - {src} && outUpdated == old(outUpdated) + if changed then {dst} else {}
    {
      changed := false;
      if src in inUpdated {
        inUpdated := inUpdated - {src};
        if Grows(dfOutPts, dst, Get(dfInPts, src)) {
          dfOutPts := Join(dfOutPts, dst, Get(dfInPts, src));
          outUpdated := outUpdated + {dst};
          changed := true;
        }
      }
    }

    method UpdateAllDFOutFromIn(loc: LocID, singleton: Var, strong: bool, ghost net: Net) returns (changed: bool)
      requires Valid() && loc in net.stores
      modifies `dfOutPts, `inUpdated, `outUpdated
      ensures Valid() && View() == Incremental(net, {}, old(View()), PassThrough(loc, singleton, strong)).state
      ensures changed <==> Incremental(net, {}, old(View()), PassThrough(loc, singleton, strong)).changed != {}
      ensures forall v :: !(strong && v == singleton) && Slot(loc, v) in old(inUpdated) ==>
                Get(dfOutPts, Slot(loc, v)) == Get(old(dfOutPts), Slot(loc, v)) + Get(dfInPts, Slot(loc, v))
      ensures strong ==> Get(dfOutPts, Slot(loc, singleton)) == Get(old(dfOutPts), Slot(loc, singleton))
      ensures forall k: Slot :: k.loc != loc || k !in old(inUpdated) ==> Get(dfOutPts, k) == Get(old(dfOutPts), k)
      ensures forall k: Slot :: k in inUpdated <==>
                k in old(inUpdated) && (k.loc != loc || (strong && k.v == singleton))
    {
      hide JoinAll, Missing, Join, Grows;
      changed := false;
      ghost var x := View();
      JoinAllNothing(x.flow.out, x.flow.inn);
      var todo := set k | k in inUpdated && k.loc == loc;
      ghost var ks := Selected(inUpdated, loc, singleton, strong);
      ghost var done: set<Slot> := {};
      while todo != {}
        invariant Valid() && todo <= inUpdated && forall k :: k in todo ==> k.loc == loc
        invariant done == ks - todo && done <= ks
        invariant View() == PassedSoFar(x, done)
        invariant changed <==> Missing(x.flow.out, x.flow.inn, done) != {}
        decreases todo
      {
        var k :| k in todo;
        todo := todo - {k};
        if !(strong && k.v == singleton) {
          PassOneMore(x, done, k);
          done := done + {k};
          var grew := UpdateDFOutFromIn(k, k);
          changed := changed || grew;
        }
      }
      assert done == ks;
      IncrementalPass(net, {}, old(View()), loc, singleton, strong);
    }

    method UpdateTLVPts(loc: LocID, v: Var, dst: Var, ghost net: Net) returns (changed: bool)
      requires Valid() && loc in net.loads && net.loads[loc] == dst
      modifies `ptsMap, `inUpdated
      ensures Valid() && View() == Incremental(net, {}, old(View()), LoadValue(loc, v)).state
      ensures changed <==> Incremental(net, {}, old(View()), LoadValue(loc, v)).changed != {}
      ensures Get(ptsMap, dst) ==
              Get(old(ptsMap), dst) + if Slot(loc, v) in old(inUpdated) then Get(dfInPts, Slot(loc, v)) else {}
      ensures forall w :: w != dst ==> Get(ptsMap, w) == Get(old(ptsMap), w)
      ensures inUpdated == old(inUpdated) - {Slot(loc, v)}
      ensures changed <==> Slot(loc, v) in old(inUpdated) && !(Get(dfInPts, Slot(loc, v)) <= Get(old(ptsMap), dst))
    {
      changed := false;
      if Slot(loc, v) in inUpdated {
        inUpdated := inUpdated - {Slot(loc, v)};
        changed := Grows(ptsMap, dst, Get(dfInPts, Slot(loc, v)));
        ptsMap := Join(ptsMap, dst, Get(dfInPts, Slot(loc, v)));
      }
    }

    method UpdateATVPts(src: Var, loc: LocID, v: Var, ghost net: Net) returns (changed: bool)
      requires Valid() && loc in net.stores
      modifies `dfOutPts, `outUpdated
      ensures Valid() && View() == Incremental(net, {}, old(View()), StoreValue(loc, src, v)).state
      ensures changed <==> Incremental(net, {}, old(View()), StoreValue(loc, src, v)).changed != {}
      ensures Get(dfOutPts, Slot(loc, v)) == Get(old(dfOutPts), Slot(loc, v)) + Get(ptsMap, src)
      ensures forall k :: k != Slot(loc, v) ==> Get(dfOutPts, k) == Get(old(dfOutPts), k)
      ensures changed <==> !(Get(ptsMap, src) <= Get(old(dfOutPts), Slot(loc, v)))
      ensures outUpdated == old(outUpdated) + if changed then {Slot(loc, v)} else {}
    {
      changed := Grows(dfOutPts, Slot(loc, v), Get(ptsMap, src));
      if changed {
        dfOutPts := Join(dfOutPts, Slot(loc, v), Get(ptsMap, src));
        outUpdated := outUpdated + {Slot(loc, v)};
      }
    }

    method ClearAllDFOutUpdatedVar(loc: LocID)
      requires Valid()
      modifies `outUpdated
      ensures Valid() && outUpdated == set k | k in old(outUpdated) && k.loc != loc
    {
      var todo := set k | k in outUpdated && k.loc == loc;
      ghost var flags := outUpdated;
      while todo != {}
        invariant todo <= outUpdated <= flags && forall k :: k in todo ==> k.loc == loc
        invariant forall k :: k in flags && k !in outUpdated ==> k.loc == loc
        invariant forall k :: k in outUpdated && k.loc == loc ==> k in todo
        decreases todo
      {
        var k :| k in todo;
        todo := todo - {k};
        outUpdated := outUpdated - {k};
      }
    }

    // Moves the set that loc sends for the variable of k to slot k, if it is flagged or if all
    // sets are asked for.
    method SendSlot(loc: LocID, k: Slot, isStore: bool, all: bool) returns (grew: bool)
      requires Valid()
      modifies `dfInPts, `inUpdated
      ensures Valid()
      ensures var from := if isStore then dfOutPts else old(dfInPts);
              var sends := all || Slot(loc, k.v) in if isStore then outUpdated else old(inUpdated);
              && grew == (sends && Grows(old(dfInPts), k, Get(from, Slot(loc, k.v))))
              && dfInPts == (if sends then Join(old(dfInPts), k, Get(from, Slot(loc, k.v))) else old(dfInPts))
              && inUpdated == old(inUpdated) + if grew then {k} else {}
    {
      if isStore {
        if all {
          grew := UpdateAllDFInFromOut(Slot(loc, k.v), k);
        } else {
          grew := UpdateDFInFromOut(Slot(loc, k.v), k);
        }
      } else if all {
        grew := UpdateAllDFInFromIn(Slot(loc, k.v), k);
      } else {
        grew := UpdateDFInFromIn(Slot(loc, k.v), k);
      }
    }

    // Sends from loc over the given edges. Returns the slots that have changed, whose locations
    // join the worklist.
    method SendAll(loc: LocID, edges: set<FlowEdge>, ghost net: Net, isStore: bool, all: bool)
      returns (changed: set<Slot>)
      requires Valid() && loc !in net.loads && (isStore <==> loc in net.stores)
      modifies `dfInPts, `inUpdated
      ensures Valid() && inUpdated == old(inUpdated) + changed
      ensures var x := old(View());
              var ks := if all then Targets(edges, loc) else Flagged(net, edges, x, loc);
              var sent := Sent(Source(net, x.flow, loc), loc, ks);
              dfInPts == JoinAll(x.flow.inn, sent, ks) && changed == Missing(x.flow.inn, sent, ks)
    {
      hide JoinAll, Missing, Join, Grows, Sent;
      ghost var x := View();
      ghost var from, ks := Source(net, x.flow, loc), if all then Targets(edges, loc) else Flagged(net, edges, x, loc);
      ghost var sent := Sent(from, loc, Targets(edges, loc));
      ghost var done: set<Slot> := {};
      changed := {};
      JoinAllNothing(x.flow.inn, sent);
      var todo := set e, v | e in edges && e.src == loc && v in e.guard :: Slot(e.dst, v);
      while todo != {}
        invariant Valid() && todo <= Targets(edges, loc)
        invariant done == ks - todo
        invariant dfInPts == JoinAll(x.flow.inn, sent, done)
        invariant changed == Missing(x.flow.inn, sent, done)
        invariant inUpdated == x.inNew + changed
        decreases todo
      {
        var k :| k in todo;
        JoinAllAdd(x.flow.inn, sent, done, k);
        SentGet(from, loc, Targets(edges, loc), k);
        if !isStore {
          OwnSetStays(net, x, loc, edges, done, k.v);
        }
        var grew := SendSlot(loc, k, isStore, all);
        todo := todo - {k};
        if k in ks {
          done := done + {k};
        }
        changed := changed + if grew then {k} else {};
      }
      assert done == ks;
      SentRestricted(x.flow.inn, from, loc, Targets(edges, loc), ks);
    }

    // What the solver does after a node: move flagged sets to every successor, then clear the OUT
    // flags.
    method PropagateNode(loc: LocID, edges: set<FlowEdge>, ghost net: Net, isStore: bool)
      returns (changed: set<Slot>)
      requires Valid() && loc !in net.loads && (isStore <==> loc in net.stores)
      modifies `dfInPts, `inUpdated, `outUpdated
      ensures Valid() && View() == Incremental(net, edges, old(View()), Propagate(loc)).state
      ensures changed == Incremental(net, edges, old(View()), Propagate(loc)).changed
    {
      changed := SendAll(loc, edges, net, isStore, false);
      ClearAllDFOutUpdatedVar(loc);
    }

    // A new edge carries everything at once, flagged or not.
    method ConnectEdge(edge: FlowEdge, ghost edges: set<FlowEdge>, ghost net: Net, isStore: bool)
      returns (changed: set<Slot>)
      requires Valid() && edge.src !in net.loads && (isStore <==> edge.src in net.stores)
      modifies `dfInPts, `inUpdated
      ensures Valid() && View() == Incremental(net, edges, old(View()), Connect(edge)).state
      ensures changed == Incremental(net, edges, old(View()), Connect(edge)).changed
    {
      changed := SendAll(edge.src, {edge}, net, isStore, true);
    }

    method UnionTop(dst: Var, pts: PointsTo) returns (changed: bool)
      requires Valid()
      modifies `ptsMap
      ensures Valid() && ptsMap == Join(old(ptsMap), dst, pts) && changed == Grows(old(ptsMap), dst, pts)
      ensures Get(ptsMap, dst) == Get(old(ptsMap), dst) + pts
      ensures forall w :: w != dst ==> Get(ptsMap, w) == Get(old(ptsMap), w)
      ensures changed <==> !(pts <= Get(old(ptsMap), dst))
    {
      changed := Grows(ptsMap, dst, pts);
      ptsMap := Join(ptsMap, dst, pts);
    }

    // One step; says whether it has changed an IN or OUT set, or the result of a load.
    method Execute(net: Net, edges: set<FlowEdge>, a: Action) returns (changed: bool)
      requires Valid() && Allowed(net, a)
      modifies this
      ensures Valid() && View() == Incremental(net, edges, old(View()), a).state
      ensures changed <==> Incremental(net, edges, old(View()), a).changed != {}
    {
      match a
      case GrowTop(dst, pts) =>
        var _ := UnionTop(dst, pts);
        changed := false;
      case StoreValue(loc, src, v) => changed := UpdateATVPts(src, loc, v, net);
      case PassThrough(loc, singleton, strong) => changed := UpdateAllDFOutFromIn(loc, singleton, strong, net);
      case LoadValue(loc, v) => changed := UpdateTLVPts(loc, v, net.loads[loc], net);
      case Propagate(loc) =>
        var slots := PropagateNode(loc, edges, net, loc in net.stores);
        changed := slots != {};
      case Connect(e) =>
        var slots := ConnectEdge(e, edges, net, e.src in net.stores);
        changed := slots != {};
    }
  }
}
