// The incremental flow-sensitive data structure over ids of the shared cache. Its methods perform
// the same steps of DataFlowPointsTo as the form that updates sets in place.
module PersistentFlowData {
  import opened PersistentPointsToCache
  import opened DataFlowPointsTo
  import opened DataFlowLaws
  import opened FlowSensitiveData
  import P = PointsToData

  // Replacing the id at k by the id of the union joins the sets, and the id differs exactly when
  // the set grows.
  lemma UnionJoins<K>(ids: seq<PointsTo>, ids': seq<PointsTo>, toId: map<PointsTo, PointsToID>,
                      m: map<K, PointsToID>, k: K, src: PointsToID, newId: PointsToID)
    requires |ids| > 0 && ids[EMPTY_ID] == {} && ids <= ids' && Interned(ids', toId)
    requires (forall j :: j in m ==> m[j] < |ids|) && src < |ids| && newId < |ids'|
    requires ids'[newId] == ids[P.IdAt(m, k)] + ids[src]
    ensures newId != P.IdAt(m, k) <==> Grows(P.Denoted(ids, m), k, ids[src])
    ensures P.Denoted(ids', if newId != P.IdAt(m, k) then m[k := newId] else m) ==
            Join(P.Denoted(ids, m), k, ids[src])
  {
    P.Extended(ids, ids', m);
    IdsAreCanonical(ids', toId, newId, P.IdAt(m, k));
    assert Get(P.Denoted(ids, m), k) == ids[P.IdAt(m, k)];
    if newId != P.IdAt(m, k) {
      assert P.Denoted(ids', m[k := newId]) == P.Denoted(ids', m)[k := ids'[newId]];
    }
  }

  lemma GetDenoted<K>(ids: seq<PointsTo>, m: map<K, PointsToID>, k: K)
    requires |ids| > 0 && ids[EMPTY_ID] == {} && forall j :: j in m ==> m[j] < |ids|
    ensures P.IdAt(m, k) < |ids| && ids[P.IdAt(m, k)] == Get(P.Denoted(ids, m), k)
  {
  }

  class PersistentIncDFPTData {
    const ptCache: Cache
    var dfInPts: map<Slot, PointsToID>
    var dfOutPts: map<Slot, PointsToID>
    var ptsMap: map<Var, PointsToID>
    var inUpdated: set<Slot>
    var outUpdated: set<Slot>

    ghost predicate Valid()
      reads this, ptCache
    {
      && ptCache.Valid()
      && (forall k :: k in dfInPts ==> dfInPts[k] < |ptCache.idToPts|)
      && (forall k :: k in dfOutPts ==> dfOutPts[k] < |ptCache.idToPts|)
      && (forall k :: k in ptsMap ==> ptsMap[k] < |ptCache.idToPts|)
      && inUpdated <= dfInPts.Keys && outUpdated <= dfOutPts.Keys
    }

    // The sets that the ids stand for, and the flags.
    ghost function View(): Inc
      reads this, ptCache
      requires Valid()
    {
      Inc(Flow(P.Denoted(ptCache.idToPts, dfInPts), P.Denoted(ptCache.idToPts, dfOutPts),
               P.Denoted(ptCache.idToPts, ptsMap)), inUpdated, outUpdated)
    }

    // The cache can hand out n more ids.
    predicate Room(n: nat)
      reads ptCache
    {
      |ptCache.idToPts| + n <= ID_LIMIT
    }

    constructor (cache: Cache)
      requires cache.Valid()
      ensures Valid() && ptCache == cache && View() == Inc(Flow(map[], map[], map[]), {}, {})
    {
      ptCache := cache;
      dfInPts, dfOutPts, ptsMap, inUpdated, outUpdated := map[], map[], map[], {}, {};
    }

    // The id of the union of two stored sets; what this structure holds stays the same.
    method UnionPtsThroughIds(dst: PointsToID, src: PointsToID) returns (newDst: PointsToID)
      requires Valid() && Room(1) && dst < |ptCache.idToPts| && src < |ptCache.idToPts|
      modifies ptCache
      ensures Valid() && View() == old(View()) && Grown(old(ptCache.idToPts), ptCache.idToPts)
      ensures newDst < |ptCache.idToPts|
      ensures ptCache.idToPts[newDst] == old(ptCache.idToPts)[dst] + old(ptCache.idToPts)[src]
    {
      hide Interned, Agrees, NearlyAgrees;
      P.InternedFacts(ptCache);
      ghost var ids := ptCache.idToPts;
      newDst := ptCache.UnionPts(dst, src);
      P.Extended(ids, ptCache.idToPts, dfInPts);
      P.Extended(ids, ptCache.idToPts, dfOutPts);
      P.Extended(ids, ptCache.idToPts, ptsMap);
    }

    method UnionIn(dst: Slot, src: PointsToID) returns (changed: bool)
      requires Valid() && Room(1) && src < |ptCache.idToPts|
      modifies `dfInPts, ptCache
      ensures Valid() && Grown(old(ptCache.idToPts), ptCache.idToPts)
      ensures var x, pts := old(View()), old(ptCache.idToPts)[src];
              && View() == x.(flow := x.flow.(inn := Join(x.flow.inn, dst, pts)))
              && changed == Grows(x.flow.inn, dst, pts)
    {
      hide Interned, Agrees, NearlyAgrees, P.Denoted, Join, Grows;
      P.InternedFacts(ptCache);
      ghost var ids, m := ptCache.idToPts, dfInPts;
      var dstId := P.IdAt(dfInPts, dst);
      var newDst := UnionPtsThroughIds(dstId, src);
      UnionJoins(ids, ptCache.idToPts, ptCache.ptsToId, m, dst, src, newDst);
      changed := newDst != dstId;
      if changed {
        dfInPts := dfInPts[dst := newDst];
      }
    }

    method UnionOut(dst: Slot, src: PointsToID) returns (changed: bool)
      requires Valid() && Room(1) && src < |ptCache.idToPts|
      modifies `dfOutPts, ptCache
      ensures Valid() && Grown(old(ptCache.idToPts), ptCache.idToPts)
      ensures var x, pts := old(View()), old(ptCache.idToPts)[src];
              && View() == x.(flow := x.flow.(out := Join(x.flow.out, dst, pts)))
              && changed == Grows(x.flow.out, dst, pts)
    {
      hide Interned, Agrees, NearlyAgrees, P.Denoted, Join, Grows;
      P.InternedFacts(ptCache);
      ghost var ids, m := ptCache.idToPts, dfOutPts;
      var dstId := P.IdAt(dfOutPts, dst);
      var newDst := UnionPtsThroughIds(dstId, src);
      UnionJoins(ids, ptCache.idToPts, ptCache.ptsToId, m, dst, src, newDst);
      changed := newDst != dstId;
      if changed {
        dfOutPts := dfOutPts[dst := newDst];
      }
    }

    method UnionTop(dst: Var, src: PointsToID) returns (changed: bool)
      requires Valid() && Room(1) && src < |ptCache.idToPts|
      modifies `ptsMap, ptCache
      ensures Valid() && Grown(old(ptCache.idToPts), ptCache.idToPts)
      ensures var x, pts := old(View()), old(ptCache.idToPts)[src];
              && View() == x.(flow := x.flow.(top := Join(x.flow.top, dst, pts)))
              && changed == Grows(x.flow.top, dst, pts)
    {
      hide Interned, Agrees, NearlyAgrees, P.Denoted, Join, Grows;
      P.InternedFacts(ptCache);
      ghost var ids, m := ptCache.idToPts, ptsMap;
      var dstId := P.IdAt(ptsMap, dst);
      var newDst := UnionPtsThroughIds(dstId, src);
      UnionJoins(ids, ptCache.idToPts, ptCache.ptsToId, m, dst, src, newDst);
      changed := newDst != dstId;
      if changed {
        ptsMap := ptsMap[dst := newDst];
      }
    }

    method UpdateDFInFromIn(src: Slot, dst: Slot) returns (changed: bool)
      requires Valid() && Room(1)
      modifies this, ptCache
      ensures Valid() && Grown(old(ptCache.idToPts), ptCache.idToPts)
      ensures var x := old(View());
              && View() == (if src in x.inNew then Moved(x, src, dst, false) else x)
              && changed == (src in x.inNew && Grows(x.flow.inn, dst, Get(x.flow.inn, src)))
    {
      changed := false;
      if src in inUpdated {
        changed := UpdateAllDFInFromIn(src, dst);
      }
    }

    method UpdateDFInFromOut(src: Slot, dst: Slot) returns (changed: bool)
      requires Valid() && Room(1)
      modifies this, ptCache
      ensures Valid() && Grown(old(ptCache.idToPts), ptCache.idToPts)
      ensures var x := old(View());
              && View() == (if src in x.outNew then Moved(x, src, dst, true) else x)
              && changed == (src in x.outNew && Grows(x.flow.inn, dst, Get(x.flow.out, src)))
    {
      changed := false;
      if src in outUpdated {
        changed := UpdateAllDFInFromOut(src, dst);
      }
    }

    // The forms that ignore the flags, for an edge that has just been connected.
    method UpdateAllDFInFromIn(src: Slot, dst: Slot) returns (changed: bool)
      requires Valid() && Room(1)
      modifies this, ptCache
      ensures Valid() && Grown(old(ptCache.idToPts), ptCache.idToPts)
      ensures View() == Moved(old(View()), src, dst, false)
      ensures var x := old(View()); changed == Grows(x.flow.inn, dst, Get(x.flow.inn, src))
    {
      hide Interned, Agrees, NearlyAgrees, P.Denoted;
      P.InternedFacts(ptCache);
      GetDenoted(ptCache.idToPts, dfInPts, src);
      changed := UnionIn(dst, P.IdAt(dfInPts, src));
      if changed {
        InJoined(this, dst);
        inUpdated := inUpdated + {dst};
      }
    }

    method UpdateAllDFInFromOut(src: Slot, dst: Slot) returns (changed: bool)
      requires Valid() && Room(1)
      modifies this, ptCache
      ensures Valid() && Grown(old(ptCache.idToPts), ptCache.idToPts)
      ensures View() == Moved(old(View()), src, dst, true)
      ensures var x := old(View()); changed == Grows(x.flow.inn, dst, Get(x.flow.out, src))
    {
      hide Interned, Agrees, NearlyAgrees, P.Denoted;
      P.InternedFacts(ptCache);
      GetDenoted(ptCache.idToPts, dfOutPts, src);
      changed := UnionIn(dst, P.IdAt(dfOutPts, src));
      if changed {
        InJoined(this, dst);
        inUpdated := inUpdated + {dst};
      }
    }

    method UpdateDFOutFromIn(src: Slot, dst: Slot) returns (changed: bool)
      requires Valid() && Room(1)
      modifies this, ptCache
      ensures Valid() && Grown(old(ptCache.idToPts), ptCache.idToPts)
      ensures View() == OutFromIn(old(View()), src, dst)
      ensures var x := old(View()); changed == (src in x.inNew && Grows(x.flow.out, dst, Get(x.flow.inn, src)))
    {
      hide Interned, Agrees, NearlyAgrees, P.Denoted;
      P.InternedFacts(ptCache);
      GetDenoted(ptCache.idToPts, dfInPts, src);
      changed := false;
      if src in inUpdated {
        inUpdated := inUpdated - {src};
        changed := UnionOut(dst, P.IdAt(dfInPts, src));
        if changed {
          OutJoined(this, dst);
          outUpdated := outUpdated + {dst};
        }
      }
    }

    // Passes one more flagged set through.
    method PassNext(k: Slot, ghost x: Inc, ghost done: set<Slot>) returns (grew: bool)
      requires Valid() && Room(1) && k in inUpdated && k !in done && View() == PassedSoFar(x, done)
      modifies this, ptCache
      ensures Valid() && Grown(old(ptCache.idToPts), ptCache.idToPts)
      ensures View() == PassedSoFar(x, done + {k}) && inUpdated == old(inUpdated) - {k}
      ensures Missing(x.flow.out, x.flow.inn, done + {k}) ==
              Missing(x.flow.out, x.flow.inn, done) + if grew then {k} else {}
    {
      hide JoinAll, Missing, Join, Grows, OutFromIn, PassedSoFar, PersistentIncDFPTData.Valid;
      PassedFacts(x, done);
      PassOneMore(x, done, k);
      PassedFacts(x, done + {k});
      grew := UpdateDFOutFromIn(k, k);
    }

    method UpdateAllDFOutFromIn(loc: LocID, singleton: Var, strong: bool, ghost net: Net) returns (changed: bool)
      requires Valid() && loc in net.stores && Room(|set k | k in inUpdated && k.loc == loc|)
      modifies this, ptCache
      ensures Valid() && View() == Incremental(net, {}, old(View()), PassThrough(loc, singleton, strong)).state
      ensures changed <==> Incremental(net, {}, old(View()), PassThrough(loc, singleton, strong)).changed != {}
    {
      hide JoinAll, Missing, PassedSoFar, Incremental, Selected, P.Denoted, PersistentIncDFPTData.Valid;
      changed := false;
      ghost var x := View();
      var todo := set k | k in inUpdated && k.loc == loc;
      ghost var ks := Selected(inUpdated, loc, singleton, strong);
      ghost var done: set<Slot> := {};
      PassNothing(x);
      SelectedMeaning(inUpdated, loc, singleton, strong);
      while todo != {}
        invariant Valid() && Room(|todo|) && todo <= inUpdated
        invariant forall k :: k in todo ==> k.loc == loc && (k in ks <==> !(strong && k.v == singleton))
        invariant done == ks - todo
        invariant View() == PassedSoFar(x, done)
        invariant changed <==> Missing(x.flow.out, x.flow.inn, done) != {}
        decreases todo
      {
        var k :| k in todo;
        assert ks - (todo - {k}) == done + if k in ks then {k} else {};
        todo := todo - {k};
        if !(strong && k.v == singleton) {
          var grew := PassNext(k, x, done);
          done := done + {k};
          changed := changed || grew;
        }
      }
      assert done == ks;
      PassedAll(net, x, loc, singleton, strong);
    }

    method UpdateTLVPts(loc: LocID, v: Var, dst: Var, ghost net: Net) returns (changed: bool)
      requires Valid() && Room(1) && loc in net.loads && net.loads[loc] == dst
      modifies this, ptCache
      ensures Valid() && View() == Incremental(net, {}, old(View()), LoadValue(loc, v)).state
      ensures changed <==> Incremental(net, {}, old(View()), LoadValue(loc, v)).changed != {}
      ensures var x, y, k := old(View()), View(), Slot(loc, v);
              var pts := if k in x.inNew then Get(x.flow.inn, k) else {};
              && Get(y.flow.top, dst) == Get(x.flow.top, dst) + pts
              && (forall w :: w != dst ==> Get(y.flow.top, w) == Get(x.flow.top, w))
              && (changed <==> !(pts <= Get(x.flow.top, dst))) && y.inNew == x.inNew - {k}
    {
      hide Interned, Agrees, NearlyAgrees, P.Denoted, Join;
      P.InternedFacts(ptCache);
      GetDenoted(ptCache.idToPts, dfInPts, Slot(loc, v));
      changed := false;
      if Slot(loc, v) in inUpdated {
        inUpdated := inUpdated - {Slot(loc, v)};
        changed := UnionTop(dst, P.IdAt(dfInPts, Slot(loc, v)));
      }
      IncrementalLoad(net, {}, old(View()), loc, v);
    }

    method UpdateATVPts(src: Var, loc: LocID, v: Var, ghost net: Net) returns (changed: bool)
      requires Valid() && Room(1) && loc in net.stores
      modifies this, ptCache
      ensures Valid() && View() == Incremental(net, {}, old(View()), StoreValue(loc, src, v)).state
      ensures changed <==> Incremental(net, {}, old(View()), StoreValue(loc, src, v)).changed != {}
      ensures var x, y, k := old(View()), View(), Slot(loc, v);
              && Get(y.flow.out, k) == Get(x.flow.out, k) + Get(x.flow.top, src)
              && (forall j :: j != k ==> Get(y.flow.out, j) == Get(x.flow.out, j))
              && (changed <==> !(Get(x.flow.top, src) <= Get(x.flow.out, k)))
              && y.outNew == x.outNew + if changed then {k} else {}
    {
      hide Interned, Agrees, NearlyAgrees, P.Denoted;
      P.InternedFacts(ptCache);
      GetDenoted(ptCache.idToPts, ptsMap, src);
      changed := UnionOut(Slot(loc, v), P.IdAt(ptsMap, src));
      if changed {
        OutJoined(this, Slot(loc, v));
        outUpdated := outUpdated + {Slot(loc, v)};
      }
      IncrementalStore(net, {}, old(View()), loc, src, v);
    }

    method ClearAllDFOutUpdatedVar(loc: LocID)
      requires Valid()
      modifies `outUpdated
      ensures Valid() && View() == old(View()).(outNew := set k | k in old(outUpdated) && k.loc != loc)
    {
      var vars := set k | k in outUpdated && k.loc == loc;
      ghost var flags := outUpdated;
      while vars != {}
        invariant vars <= outUpdated && forall k :: k in vars ==> k.loc == loc
        invariant forall k :: k in outUpdated <==> k in flags && (k.loc != loc || k in vars)
        decreases vars
      {
        var k :| k in vars;
        vars := vars - {k};
        outUpdated := outUpdated - {k};
      }
    }

    method SendSlot(loc: LocID, k: Slot, isStore: bool, all: bool) returns (grew: bool)
      requires Valid() && Room(1)
      modifies this, ptCache
      ensures Valid() && Grown(old(ptCache.idToPts), ptCache.idToPts)
      ensures var x := old(View());
              var sends := all || Slot(loc, k.v) in if isStore then x.outNew else x.inNew;
              var pts := Get(if isStore then x.flow.out else x.flow.inn, Slot(loc, k.v));
              && View() == (if sends then Moved(x, Slot(loc, k.v), k, isStore) else x)
              && grew == (sends && Grows(x.flow.inn, k, pts))
    {
      hide Moved, P.Denoted, Grows;
      if isStore {
        if all {
          grew := UpdateAllDFInFromOut(Slot(loc, k.v), k);
        } else {
          grew := UpdateDFInFromOut(Slot(loc, k.v), k);
        }
      } else if all {
        grew := UpdateAllDFInFromIn(Slot(loc, k.v), k);
      } else {
        grew := UpdateDFInFromIn(Slot(loc, k.v), k);
      }
    }

    // The slots that loc sends to.
    ghost function Receivers(x: Inc, loc: LocID, edges: set<FlowEdge>, net: Net, all: bool): set<Slot> {
      if all then Targets(edges, loc) else Flagged(net, edges, x, loc)
    }

    // Sends to one more slot.
    method SendNext(loc: LocID, k: Slot, isStore: bool, all: bool, ghost net: Net, ghost edges: set<FlowEdge>,
                    ghost x: Inc, ghost done: set<Slot>) returns (grew: bool)
      requires Valid() && Room(1) && (isStore <==> loc in net.stores)
      requires done <= Targets(edges, loc) && k in Targets(edges, loc)
      requires View() == SentSoFar(x, Sent(Source(net, x.flow, loc), loc, Targets(edges, loc)), done)
      modifies this, ptCache
      ensures Valid() && Grown(old(ptCache.idToPts), ptCache.idToPts)
      ensures var sent := Sent(Source(net, x.flow, loc), loc, Targets(edges, loc));
              var done' := if k in Receivers(x, loc, edges, net, all) then done + {k} else done;
              && View() == SentSoFar(x, sent, done')
              && Missing(x.flow.inn, sent, done') == Missing(x.flow.inn, sent, done) + if grew then {k} else {}
    {
      hide JoinAll, Missing, Grows, Sent, Moved, SentSoFar, Targets, PersistentIncDFPTData.Valid;
      SendOneMore(net, x, loc, edges, done, k);
      grew := SendSlot(loc, k, isStore, all);
    }

    // Sends from loc over the given edges. Returns the slots that have changed.
    method SendAll(loc: LocID, edges: set<FlowEdge>, ghost net: Net, isStore: bool, all: bool)
      returns (changed: set<Slot>)
      requires Valid() && Room(|Targets(edges, loc)|) && loc !in net.loads && (isStore <==> loc in net.stores)
      modifies this, ptCache
      ensures Valid()
      ensures var x := old(View());
              var ks := if all then Targets(edges, loc) else Flagged(net, edges, x, loc);
              var sent := Sent(Source(net, x.flow, loc), loc, ks);
              View() == SentSoFar(x, sent, ks) && changed == Missing(x.flow.inn, sent, ks)
    {
      hide JoinAll, Missing, Sent, SentSoFar, Source, Targets, PersistentIncDFPTData.Valid, PersistentIncDFPTData.View;
      ghost var x := View();
      ghost var from, ks := Source(net, x.flow, loc), Receivers(x, loc, edges, net, all);
      ghost var sent := Sent(from, loc, Targets(edges, loc));
      ghost var done: set<Slot> := {};
      changed := {};
      SendNothing(x, sent);
      var todo := Targets(edges, loc);
      while todo != {}
        invariant Valid() && Room(|todo|) && todo <= Targets(edges, loc)
        invariant done == ks - todo
        invariant View() == SentSoFar(x, sent, done)
        invariant changed == Missing(x.flow.inn, sent, done)
        decreases todo
      {
        var k :| k in todo;
        assert ks - (todo - {k}) == if k in ks then done + {k} else done;
        var grew := SendNext(loc, k, isStore, all, net, edges, x, done);
        todo := todo - {k};
        changed := changed + if grew then {k} else {};
        done := if k in ks then done + {k} else done;
      }
      assert done == ks;
      SentRestricted(x.flow.inn, from, loc, Targets(edges, loc), ks);
      SentSoFarRestricted(x, sent, Sent(from, loc, ks), ks);
    }

    method PropagateNode(loc: LocID, edges: set<FlowEdge>, ghost net: Net, isStore: bool)
      returns (changed: set<Slot>)
      requires Valid() && Room(|Targets(edges, loc)|) && loc !in net.loads && (isStore <==> loc in net.stores)
      modifies this, ptCache
      ensures Valid() && View() == Incremental(net, edges, old(View()), Propagate(loc)).state
      ensures changed == Incremental(net, edges, old(View()), Propagate(loc)).changed
    {
      hide JoinAll, Missing, Sent, Flagged, P.Denoted, Interned, Agrees, NearlyAgrees;
      changed := SendAll(loc, edges, net, isStore, false);
      ClearAllDFOutUpdatedVar(loc);
    }

    method ConnectEdge(edge: FlowEdge, ghost edges: set<FlowEdge>, ghost net: Net, isStore: bool)
      returns (changed: set<Slot>)
      requires Valid() && Room(|Targets({edge}, edge.src)|)
      requires edge.src !in net.loads && (isStore <==> edge.src in net.stores)
      modifies this, ptCache
      ensures Valid() && View() == Incremental(net, edges, old(View()), Connect(edge)).state
      ensures changed == Incremental(net, edges, old(View()), Connect(edge)).changed
    {
      hide JoinAll, Missing, Sent, P.Denoted, Interned, Agrees, NearlyAgrees;
      changed := SendAll(edge.src, {edge}, net, isStore, true);
    }

    method UnionTopPts(dst: Var, pts: PointsTo)
      requires Valid() && Room(2)
      modifies this, ptCache
      ensures Valid()
      ensures var x := old(View()); View() == x.(flow := x.flow.(top := Join(x.flow.top, dst, pts)))
    {
      hide P.Denoted, Join, Interned, Agrees, NearlyAgrees;
      P.InternedFacts(ptCache);
      ghost var ids := ptCache.idToPts;
      var id := ptCache.EmplacePts(pts);
      P.Extended(ids, ptCache.idToPts, dfInPts);
      P.Extended(ids, ptCache.idToPts, dfOutPts);
      P.Extended(ids, ptCache.idToPts, ptsMap);
      var _ := UnionTop(dst, id);
    }

    // The ids a step may need at most.
    function Demand(edges: set<FlowEdge>, a: Action): nat
      reads this
    {
      match a
      case GrowTop(_, _) => 2
      case StoreValue(_, _, _) => 1
      case PassThrough(loc, _, _) => |set k | k in inUpdated && k.loc == loc|
      case LoadValue(_, _) => 1
      case Propagate(loc) => |Targets(edges, loc)|
      case Connect(e) => |Targets({e}, e.src)|
    }

    method Execute(net: Net, edges: set<FlowEdge>, a: Action) returns (changed: bool)
      requires Valid() && Allowed(net, a) && Room(Demand(edges, a))
      modifies this, ptCache
      ensures Valid() && View() == Incremental(net, edges, old(View()), a).state
      ensures changed <==> Incremental(net, edges, old(View()), a).changed != {}
    {
      hide P.Denoted, Interned, Agrees, NearlyAgrees, JoinAll, Missing, Sent, Flagged;
      match a
      case GrowTop(dst, pts) =>
        UnionTopPts(dst, pts);
        changed := false;
      case StoreValue(loc, src, v) => changed := UpdateATVPts(src, loc, v, net);
      case PassThrough(loc, singleton, strong) => changed := UpdateAllDFOutFromIn(loc, singleton, strong, net);
      case LoadValue(loc, v) => changed := UpdateTLVPts(loc, v, net.loads[loc], net);
      case Propagate(loc) =>
        var slots := PropagateNode(loc, edges, net, loc in net.stores);
        changed := slots != {};
      case Connect(e) =>
        var slots := ConnectEdge(e, edges, net, e.src in net.stores);
        changed := slots != {};
    }
  }

  // Over every sequence of steps, for as long as the cache has ids left, the id-based form holds the
  // same sets and flags as the form that updates sets in place, and reports the same changes; both
  // are where the run of the incremental form on values ends.
  method Simulate(net: Net, edges: set<FlowEdge>, actions: seq<Action>, m: MutableIncDFPTData, p: PersistentIncDFPTData)
    returns (steps: nat, now: set<FlowEdge>, fromM: seq<bool>, fromP: seq<bool>)
    requires m.Valid() && p.Valid() && m.View() == p.View() && forall a :: a in actions ==> Allowed(net, a)
    modifies m, p, p.ptCache
    ensures m.Valid() && p.Valid() && steps <= |actions|
    ensures forall a :: a in actions[..steps] ==> Allowed(net, a)
    ensures var run := RunIncremental(net, edges, old(m.View()), actions[..steps]);
            m.View() == p.View() == run.state && now == run.edges
    ensures fromM == fromP && |fromM| == steps
    ensures steps < |actions| ==> !p.Room(p.Demand(now, actions[steps]))
  {
    hide Incremental, P.Denoted;
    steps, now, fromM, fromP := 0, edges, [], [];
    ghost var x := m.View();
    while steps < |actions| && p.Room(p.Demand(now, actions[steps]))
      invariant m.Valid() && p.Valid() && steps <= |actions|
      invariant forall a :: a in actions[..steps] ==> Allowed(net, a)
      invariant var run := RunIncremental(net, edges, x, actions[..steps]);
                m.View() == p.View() == run.state && now == run.edges
      invariant fromM == fromP && |fromM| == steps
    {
      RunOneMore(net, edges, x, actions[..steps], actions[steps]);
      assert actions[..steps + 1] == actions[..steps] + [actions[steps]];
      var changedM := m.Execute(net, now, actions[steps]);
      var changedP := p.Execute(net, now, actions[steps]);
      now := Edges(now, actions[steps]);
      fromM, fromP := fromM + [changedM], fromP + [changedP];
      steps := steps + 1;
    }
  }

  lemma SentSoFarRestricted(x: Inc, all: Sets, some: Sets, ks: set<Slot>)
    requires JoinAll(x.flow.inn, all, ks) == JoinAll(x.flow.inn, some, ks)
    requires Missing(x.flow.inn, all, ks) == Missing(x.flow.inn, some, ks)
    ensures SentSoFar(x, all, ks) == SentSoFar(x, some, ks)
  {
  }

  lemma SelectedMeaning(flags: set<Slot>, loc: LocID, singleton: Var, strong: bool)
    ensures var ks := Selected(flags, loc, singleton, strong);
            && ks - (set k | k in flags && k.loc == loc) == {}
            && forall k :: k in flags && k.loc == loc ==> (k in ks <==> !(strong && k.v == singleton))
  {
  }

  lemma PassNothing(x: Inc)
    ensures PassedSoFar(x, {}) == x && Missing(x.flow.out, x.flow.inn, {}) == {}
  {
    JoinAllNothing(x.flow.out, x.flow.inn);
  }

  lemma PassedFacts(x: Inc, done: set<Slot>)
    ensures PassedSoFar(x, done).inNew == x.inNew - done && PassedSoFar(x, done).flow.inn == x.flow.inn
  {
  }

  lemma PassedAll(net: Net, x: Inc, loc: LocID, singleton: Var, strong: bool)
    requires loc in net.stores
    ensures var ks := Selected(x.inNew, loc, singleton, strong);
            var o := Incremental(net, {}, x, PassThrough(loc, singleton, strong));
            o.state == PassedSoFar(x, ks) && o.changed == Missing(x.flow.out, x.flow.inn, ks)
  {
  }

  // A slot with a set has an id.
  lemma InJoined(d: PersistentIncDFPTData, k: Slot)
    requires d.Valid() && k in d.View().flow.inn
    ensures k in d.dfInPts
  {
  }

  lemma OutJoined(d: PersistentIncDFPTData, k: Slot)
    requires d.Valid() && k in d.View().flow.out
    ensures k in d.dfOutPts
  {
  }
}
