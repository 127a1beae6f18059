// Two implementations of the basic points-to data structure: one updates a set per key in place,
// the other maps keys to ids of the shared cache. Both keep a reverse map when asked to.
module PointsToData {
  import opened PersistentPointsToCache

  type Key = nat
  type Data = nat
  type PtsMap = map<Key, PointsTo>

  // Missing entries are empty sets.
  function At(m: PtsMap, k: Key): PointsTo {
    if k in m then m[k] else {}
  }

  // Equal points-to sets for every key.
  ghost predicate Same(m: PtsMap, n: PtsMap) {
    forall k :: At(m, k) == At(n, k)
  }

  // All keys other than k have kept their sets.
  ghost predicate Others(m: PtsMap, n: PtsMap, k: Key) {
    forall j :: j != k ==> At(n, j) == At(m, j)
  }

  // rev maps each element to exactly the keys that point to it.
  ghost predicate Inverse(m: PtsMap, rev: map<Data, set<Key>>) {
    forall k, d :: k in At(rev, d) <==> d in At(m, k)
  }

  // ---- the abstract operations ----

  datatype PtsOp =
    | AddPts(dst: Key, element: Data)
    | UnionKey(dst: Key, src: Key)
    | UnionSet(dst: Key, pts: PointsTo)
    | ClearPts(dst: Key, element: Data)
    | ClearFullPts(dst: Key)
    | Clear

  function Added(m: PtsMap, op: PtsOp): PointsTo {
    match op
    case AddPts(_, e) => {e}
    case UnionKey(_, src) => At(m, src)
    case UnionSet(_, pts) => pts
    case _ => {}
  }

  function Perform(m: PtsMap, op: PtsOp): PtsMap {
    match op
    case ClearPts(k, e) => m[k := At(m, k) - {e}]
    case ClearFullPts(k) => m[k := {}]
    case Clear => map[]
    case _ => m[op.dst := At(m, op.dst) + Added(m, op)]
  }

  // The result the adding operations report.
  function Changes(m: PtsMap, op: PtsOp): bool {
    match op
    case ClearPts(_, _) => false
    case ClearFullPts(_) => false
    case Clear => false
    case _ => !(Added(m, op) <= At(m, op.dst))
  }

  // What each operation promises: the set of the key it is about, all other sets, and when a change is
  // reported. Only adding operations report one.
  ghost predicate Obeys(m: PtsMap, op: PtsOp, n: PtsMap, changed: bool) {
    match op
    case AddPts(dst, e) =>
      At(n, dst) == At(m, dst) + {e} && Others(m, n, dst) && (changed <==> e !in At(m, dst))
    case UnionKey(dst, src) =>
      At(n, dst) == At(m, dst) + At(m, src) && Others(m, n, dst) && (changed <==> !(At(m, src) <= At(m, dst)))
    case UnionSet(dst, pts) =>
      At(n, dst) == At(m, dst) + pts && Others(m, n, dst) && (changed <==> !(pts <= At(m, dst)))
    case ClearPts(k, e) => At(n, k) == At(m, k) - {e} && Others(m, n, k) && !changed
    case ClearFullPts(k) => At(n, k) == {} && Others(m, n, k) && !changed
    case Clear => (forall k :: At(n, k) == {}) && !changed
  }

  // These promises leave no choice.
  lemma PerformMeaning(m: PtsMap, op: PtsOp, n: PtsMap, changed: bool)
    ensures Obeys(m, op, n, changed) <==> Same(n, Perform(m, op)) && changed == Changes(m, op)
  {
    if Obeys(m, op, n, changed) {
      forall k ensures At(n, k) == At(Perform(m, op), k) {
        if !op.Clear? && k != op.dst {
          assert At(n, k) == At(m, k);
        }
      }
    }
  }

  lemma PerformSame(m: PtsMap, n: PtsMap, op: PtsOp)
    requires Same(m, n)
    ensures Same(Perform(m, op), Perform(n, op)) && Changes(m, op) == Changes(n, op)
  {
    forall k ensures At(Perform(m, op), k) == At(Perform(n, op), k) {
      assert At(m, k) == At(n, k);
      if op.UnionKey? {
        assert At(m, op.src) == At(n, op.src);
      }
    }
    match op
    case UnionKey(dst, src) => assert At(m, src) == At(n, src) && At(m, dst) == At(n, dst);
    case AddPts(dst, _) => assert At(m, dst) == At(n, dst);
    case UnionSet(dst, _) => assert At(m, dst) == At(n, dst);
    case _ =>
  }

  // ---- reverse map updates ----

  type RevPtsMap = map<Data, set<Key>>

  // k has joined the reverse sets of all elements of pts, and no other set has changed.
  ghost predicate Joined(rev: RevPtsMap, rev': RevPtsMap, pts: PointsTo, k: Key) {
    forall d :: At(rev', d) == if d in pts then At(rev, d) + {k} else At(rev, d)
  }

  ghost predicate Left(rev: RevPtsMap, rev': RevPtsMap, pts: PointsTo, k: Key) {
    forall d :: At(rev', d) == if d in pts then At(rev, d) - {k} else At(rev, d)
  }

  lemma JoinedInverse(m: PtsMap, n: PtsMap, rev: RevPtsMap, rev': RevPtsMap, pts: PointsTo, k: Key)
    requires Inverse(m, rev) && Joined(rev, rev', pts, k) && Same(n, m[k := At(m, k) + pts])
    ensures Inverse(n, rev')
  {
    forall j, d ensures j in At(rev', d) <==> d in At(n, j) {
      assert j in At(rev, d) <==> d in At(m, j);
      assert At(n, j) == At(m[k := At(m, k) + pts], j);
    }
  }

  lemma LeftInverse(m: PtsMap, n: PtsMap, rev: RevPtsMap, rev': RevPtsMap, pts: PointsTo, k: Key)
    requires Inverse(m, rev) && Left(rev, rev', pts, k) && Same(n, m[k := At(m, k) - pts])
    ensures Inverse(n, rev')
  {
    forall j, d ensures j in At(rev', d) <==> d in At(n, j) {
      assert j in At(rev, d) <==> d in At(m, j);
      assert At(n, j) == At(m[k := At(m, k) - pts], j);
    }
  }

  method AddRevPts(rev: RevPtsMap, pts: PointsTo, k: Key) returns (rev': RevPtsMap)
    ensures Joined(rev, rev', pts, k)
  {
    rev' := rev;
    var todo := pts;
    while todo != {}
      invariant todo <= pts && Joined(rev, rev', pts - todo, k)
      decreases todo
    {
      var d :| d in todo;
      todo := todo - {d};
      rev' := rev'[d := At(rev', d) + {k}];
    }
    assert pts - todo == pts;
  }

  method ClearRevPts(rev: RevPtsMap, pts: PointsTo, k: Key) returns (rev': RevPtsMap)
    ensures Left(rev, rev', pts, k)
  {
    rev' := rev;
    var todo := pts;
    while todo != {}
      invariant todo <= pts && Left(rev, rev', pts - todo, k)
      decreases todo
    {
      var d :| d in todo;
      todo := todo - {d};
      rev' := rev'[d := At(rev', d) - {k}];
    }
    assert pts - todo == pts;
  }

  // ---- sets updated in place ----

  class MutablePTData {
    const rev: bool
    var ptsMap: PtsMap
    var revPtsMap: RevPtsMap

    ghost predicate Valid()
      reads this
    {
      rev ==> Inverse(ptsMap, revPtsMap)
    }

    constructor (reversePT: bool)
      ensures Valid() && rev == reversePT && ptsMap == map[]
    {
      rev, ptsMap, revPtsMap := reversePT, map[], map[];
    }

    // The keys that point to d.
    method GetRevPts(d: Data) returns (keys: set<Key>)
      requires Valid() && rev
      ensures forall k :: k in keys <==> d in At(ptsMap, k)
    {
      keys := At(revPtsMap, d);
    }

    method AddPts(dst: Key, element: Data) returns (changed: bool)
      requires Valid()
      modifies this
      ensures Valid()
      ensures Same(ptsMap, Perform(old(ptsMap), PtsOp.AddPts(dst, element)))
      ensures changed == Changes(old(ptsMap), PtsOp.AddPts(dst, element))
      ensures At(ptsMap, dst) == At(old(ptsMap), dst) + {element} && Others(old(ptsMap), ptsMap, dst)
      ensures changed <==> element !in At(old(ptsMap), dst)
    {
      changed := UnionSet(dst, {element});
    }

    method UnionPts(dst: Key, src: Key) returns (changed: bool)
      requires Valid()
      modifies this
      ensures Valid()
      ensures Same(ptsMap, Perform(old(ptsMap), UnionKey(dst, src)))
      ensures changed == Changes(old(ptsMap), UnionKey(dst, src))
      ensures At(ptsMap, dst) == At(old(ptsMap), dst) + At(old(ptsMap), src) && Others(old(ptsMap), ptsMap, dst)
      ensures changed <==> !(At(old(ptsMap), src) <= At(old(ptsMap), dst))
    {
      changed := UnionSet(dst, At(ptsMap, src));
    }

    method UnionSet(dst: Key, pts: PointsTo) returns (changed: bool)
      requires Valid()
      modifies this
      ensures Valid()
      ensures Same(ptsMap, Perform(old(ptsMap), PtsOp.UnionSet(dst, pts)))
      ensures changed == Changes(old(ptsMap), PtsOp.UnionSet(dst, pts))
      ensures At(ptsMap, dst) == At(old(ptsMap), dst) + pts && Others(old(ptsMap), ptsMap, dst)
      ensures changed <==> !(pts <= At(old(ptsMap), dst))
    {
      ghost var m, r := ptsMap, revPtsMap;
      if rev {
        revPtsMap := AddRevPts(revPtsMap, pts, dst);
      }
      changed := !(pts <= At(ptsMap, dst));
      ptsMap := ptsMap[dst := At(ptsMap, dst) + pts];
      if rev {
        JoinedInverse(m, ptsMap, r, revPtsMap, pts, dst);
      }
    }

    method ClearPts(k: Key, element: Data)
      requires Valid()
      modifies this
      ensures Valid() && Same(ptsMap, Perform(old(ptsMap), PtsOp.ClearPts(k, element)))
      ensures At(ptsMap, k) == At(old(ptsMap), k) - {element} && Others(old(ptsMap), ptsMap, k)
    {
      ghost var m, r := ptsMap, revPtsMap;
      if rev {
        revPtsMap := ClearRevPts(revPtsMap, {element}, k);
      }
      ptsMap := ptsMap[k := At(ptsMap, k) - {element}];
      if rev {
        LeftInverse(m, ptsMap, r, revPtsMap, {element}, k);
      }
    }

    method ClearFullPts(k: Key)
      requires Valid()
      modifies this
      ensures Valid() && Same(ptsMap, Perform(old(ptsMap), PtsOp.ClearFullPts(k)))
      ensures At(ptsMap, k) == {} && Others(old(ptsMap), ptsMap, k)
    {
      ghost var m, r := ptsMap, revPtsMap;
      if rev {
        revPtsMap := ClearRevPts(revPtsMap, At(ptsMap, k), k);
      }
      ptsMap := ptsMap[k := {}];
      if rev {
        assert At(m, k) - At(m, k) == {};
        LeftInverse(m, ptsMap, r, revPtsMap, At(m, k), k);
      }
    }

    method Clear()
      modifies this
      ensures Valid() && Same(ptsMap, Perform(old(ptsMap), PtsOp.Clear))
      ensures forall k :: At(ptsMap, k) == {}
    {
      ptsMap, revPtsMap := map[], map[];
    }
  }

  // ---- ids into the shared cache ----

  // What a map of ids means.
  function Denoted<K>(ids: seq<PointsTo>, m: map<K, PointsToID>): map<K, PointsTo>
    requires forall k :: k in m ==> m[k] < |ids|
  {
    map k | k in m :: ids[m[k]]
  }

  function IdAt<K>(m: map<K, PointsToID>, k: K): PointsToID {
    if k in m then m[k] else EMPTY_ID
  }

  class PersistentPTData {
    const rev: bool
    const ptCache: Cache
    var ptsMap: map<Key, PointsToID>
    var revPtsMap: RevPtsMap

    ghost predicate Valid()
      reads this, ptCache
    {
      && ptCache.Valid()
      && (forall k :: k in ptsMap ==> ptsMap[k] < |ptCache.idToPts|)
      && (rev ==> Inverse(View(), revPtsMap))
    }

    ghost function View(): PtsMap
      reads this, ptCache
      requires forall k :: k in ptsMap ==> ptsMap[k] < |ptCache.idToPts|
    {
      Denoted(ptCache.idToPts, ptsMap)
    }

    // The cache can hand out n more ids.
    predicate Room(n: nat)
      reads ptCache
    {
      |ptCache.idToPts| + n <= ID_LIMIT
    }

    constructor (cache: Cache, reversePT: bool)
      requires cache.Valid()
      ensures Valid() && rev == reversePT && ptCache == cache && View() == map[]
    {
      rev, ptCache, ptsMap, revPtsMap := reversePT, cache, map[], map[];
    }

    method GetPts(k: Key) returns (pts: PointsTo)
      requires Valid()
      ensures pts == At(View(), k)
    {
      pts := ptCache.idToPts[IdAt(ptsMap, k)];
    }

    method GetRevPts(d: Data) returns (keys: set<Key>)
      requires Valid() && rev
      ensures forall k :: k in keys <==> d in At(View(), k)
    {
      keys := At(revPtsMap, d);
    }

    // The reverse map is touched only when the id, hence the set, of dst has changed.
    method UnionPtsFromId(dst: Key, srcId: PointsToID) returns (changed: bool)
      requires Valid() && srcId < |ptCache.idToPts| && Room(1)
      modifies this, ptCache
      ensures Valid() && Grown(old(ptCache.idToPts), ptCache.idToPts)
      ensures Same(View(), Perform(old(View()), PtsOp.UnionSet(dst, old(ptCache.idToPts)[srcId])))
      ensures changed == Changes(old(View()), PtsOp.UnionSet(dst, old(ptCache.idToPts)[srcId]))
    {
      hide Interned, Agrees, NearlyAgrees, Inverse, Same;
      ghost var m, r, ids, idMap := View(), revPtsMap, ptCache.idToPts, ptsMap;
      InternedFacts(ptCache);
      var dstId := IdAt(ptsMap, dst);
      var newDstId := ptCache.UnionPts(dstId, srcId);
      UnionDenoted(ids, ptCache.idToPts, ptCache.ptsToId, idMap, dst, srcId, newDstId);
      changed := newDstId != dstId;
      if changed {
        ptsMap := ptsMap[dst := newDstId];
        if rev {
          revPtsMap := AddRevPts(revPtsMap, ptCache.idToPts[srcId], dst);
          JoinedInverse(m, View(), r, revPtsMap, ids[srcId], dst);
        }
      }
    }

    method AddPts(dst: Key, element: Data) returns (changed: bool)
      requires Valid() && Room(2)
      modifies this, ptCache
      ensures Valid() && |ptCache.idToPts| <= |old(ptCache.idToPts)| + 2
      ensures Same(View(), Perform(old(View()), PtsOp.AddPts(dst, element)))
      ensures changed == Changes(old(View()), PtsOp.AddPts(dst, element))
      ensures At(View(), dst) == At(old(View()), dst) + {element} && Others(old(View()), View(), dst)
      ensures changed <==> element !in At(old(View()), dst)
    {
      changed := UnionSet(dst, {element});
    }

    method UnionPts(dst: Key, src: Key) returns (changed: bool)
      requires Valid() && Room(2)
      modifies this, ptCache
      ensures Valid() && |ptCache.idToPts| <= |old(ptCache.idToPts)| + 2
      ensures Same(View(), Perform(old(View()), UnionKey(dst, src)))
      ensures changed == Changes(old(View()), UnionKey(dst, src))
      ensures At(View(), dst) == At(old(View()), dst) + At(old(View()), src) && Others(old(View()), View(), dst)
      ensures changed <==> !(At(old(View()), src) <= At(old(View()), dst))
    {
      InternedFacts(ptCache);
      changed := UnionPtsFromId(dst, IdAt(ptsMap, src));
    }

    // Interns a set without changing what any key points to.
    method Emplace(pts: PointsTo) returns (id: PointsToID)
      requires Valid() && Room(1)
      modifies ptCache
      ensures Valid() && Grown(old(ptCache.idToPts), ptCache.idToPts) && View() == old(View())
      ensures id < |ptCache.idToPts| && ptCache.idToPts[id] == pts
    {
      ghost var ids := ptCache.idToPts;
      id := ptCache.EmplacePts(pts);
      Extended(ids, ptCache.idToPts, ptsMap);
    }

    method UnionSet(dst: Key, pts: PointsTo) returns (changed: bool)
      requires Valid() && Room(2)
      modifies this, ptCache
      ensures Valid() && |ptCache.idToPts| <= |old(ptCache.idToPts)| + 2
      ensures Same(View(), Perform(old(View()), PtsOp.UnionSet(dst, pts)))
      ensures changed == Changes(old(View()), PtsOp.UnionSet(dst, pts))
      ensures At(View(), dst) == At(old(View()), dst) + pts && Others(old(View()), View(), dst)
      ensures changed <==> !(pts <= At(old(View()), dst))
    {
      var srcId := Emplace(pts);
      changed := UnionPtsFromId(dst, srcId);
    }

    method ClearPts(k: Key, element: Data)
      requires Valid() && Room(2)
      modifies this, ptCache
      ensures Valid() && |ptCache.idToPts| <= |old(ptCache.idToPts)| + 2
      ensures Same(View(), Perform(old(View()), PtsOp.ClearPts(k, element)))
      ensures At(View(), k) == At(old(View()), k) - {element} && Others(old(View()), View(), k)
    {
      var toRemoveId := Emplace({element});
      ClearId(k, toRemoveId, element);
    }

    method ClearId(k: Key, toRemoveId: PointsToID, element: Data)
      requires Valid() && Room(1)
      requires toRemoveId < |ptCache.idToPts| && ptCache.idToPts[toRemoveId] == {element}
      modifies this, ptCache
      ensures Valid() && Grown(old(ptCache.idToPts), ptCache.idToPts)
      ensures Same(View(), Perform(old(View()), PtsOp.ClearPts(k, element)))
      ensures At(View(), k) == At(old(View()), k) - {element} && Others(old(View()), View(), k)
    {
      hide Interned, Agrees, NearlyAgrees, Inverse, Same;
      ghost var m, r, ids, idMap := View(), revPtsMap, ptCache.idToPts, ptsMap;
      InternedFacts(ptCache);
      var varId := IdAt(ptsMap, k);
      var complementId := ptCache.ComplementPts(varId, toRemoveId);
      ComplementDenoted(ids, ptCache.idToPts, ptCache.ptsToId, idMap, k, toRemoveId, complementId);
      if varId != complementId {
        ptsMap := ptsMap[k := complementId];
        if rev {
          revPtsMap := ClearRevPts(revPtsMap, {element}, k);
          LeftInverse(m, View(), r, revPtsMap, {element}, k);
        }
      }
    }

    method ClearFullPts(k: Key)
      requires Valid()
      modifies this
      ensures Valid() && Same(View(), Perform(old(View()), PtsOp.ClearFullPts(k)))
      ensures At(View(), k) == {} && Others(old(View()), View(), k)
    {
      ghost var m, r := View(), revPtsMap;
      var pts := GetPts(k);
      InternedFacts(ptCache);
      if rev {
        revPtsMap := ClearRevPts(revPtsMap, pts, k);
      }
      ptsMap := ptsMap[k := EMPTY_ID];
      assert View() == m[k := {}];
      if rev {
        assert At(m, k) - pts == {};
        LeftInverse(m, View(), r, revPtsMap, pts, k);
      }
    }

    method Clear()
      requires Valid()
      modifies this
      ensures Valid() && Same(View(), Perform(old(View()), PtsOp.Clear))
      ensures forall k :: At(View(), k) == {}
    {
      ptsMap, revPtsMap := map[], map[];
    }
  }

  lemma InternedFacts(cache: Cache)
    requires cache.Valid()
    ensures |cache.idToPts| > 0 && cache.idToPts[EMPTY_ID] == {}
    ensures |cache.idToPts| < ID_LIMIT ==> cache.idCounter != 0
  {
  }

  // Ids keep their meaning while the cache grows.
  lemma Extended<K>(ids: seq<PointsTo>, ids': seq<PointsTo>, m: map<K, PointsToID>)
    requires ids <= ids' && forall k :: k in m ==> m[k] < |ids|
    ensures Denoted(ids, m) == Denoted(ids', m)
  {
  }

  // Replacing the id of dst by the id of the union changes what dst points to, and nothing else;
  // the id differs exactly if the set has grown.
  lemma UnionDenoted(ids: seq<PointsTo>, ids': seq<PointsTo>, toId: map<PointsTo, PointsToID>,
                     m: map<Key, PointsToID>, dst: Key, srcId: PointsToID, newId: PointsToID)
    requires |ids| > 0 && ids[EMPTY_ID] == {} && ids <= ids' && Interned(ids', toId)
    requires (forall k :: k in m ==> m[k] < |ids|) && srcId < |ids| && newId < |ids'|
    requires ids'[newId] == ids[IdAt(m, dst)] + ids[srcId]
    ensures var after := Perform(Denoted(ids, m), PtsOp.UnionSet(dst, ids[srcId]));
            && Same(Denoted(ids', m[dst := newId]), after)
            && (newId == IdAt(m, dst) ==> Same(Denoted(ids', m), after) && Denoted(ids', m) == Denoted(ids, m))
    ensures newId != IdAt(m, dst) <==> Changes(Denoted(ids, m), PtsOp.UnionSet(dst, ids[srcId]))
  {
    Extended(ids, ids', m);
    IdsAreCanonical(ids', toId, newId, IdAt(m, dst));
    assert At(Denoted(ids, m), dst) == ids[IdAt(m, dst)];
  }

  lemma ComplementDenoted(ids: seq<PointsTo>, ids': seq<PointsTo>, toId: map<PointsTo, PointsToID>,
                          m: map<Key, PointsToID>, k: Key, gone: PointsToID, newId: PointsToID)
    requires |ids| > 0 && ids[EMPTY_ID] == {} && ids <= ids' && Interned(ids', toId)
    requires (forall j :: j in m ==> m[j] < |ids|) && gone < |ids| && newId < |ids'|
    requires ids'[newId] == ids[IdAt(m, k)] - ids[gone]
    ensures var after := Denoted(ids, m)[k := At(Denoted(ids, m), k) - ids[gone]];
            && Same(Denoted(ids', m[k := newId]), after)
            && (newId == IdAt(m, k) ==> Same(Denoted(ids', m), after) && Denoted(ids', m) == Denoted(ids, m))
  {
    Extended(ids, ids', m);
    IdsAreCanonical(ids', toId, newId, IdAt(m, k));
    assert At(Denoted(ids, m), k) == ids[IdAt(m, k)];
  }

  // ---- the two implementations side by side ----

  method ExecuteMutable(m: MutablePTData, op: PtsOp) returns (changed: bool)
    requires m.Valid()
    modifies m
    ensures m.Valid() && Same(m.ptsMap, Perform(old(m.ptsMap), op)) && changed == Changes(old(m.ptsMap), op)
  {
    changed := false;
    match op
    case AddPts(dst, e) => changed := m.AddPts(dst, e);
    case UnionKey(dst, src) => changed := m.UnionPts(dst, src);
    case UnionSet(dst, pts) => changed := m.UnionSet(dst, pts);
    case ClearPts(k, e) => m.ClearPts(k, e);
    case ClearFullPts(k) => m.ClearFullPts(k);
    case Clear => m.Clear();
  }

  method ExecutePersistent(p: PersistentPTData, op: PtsOp) returns (changed: bool)
    requires p.Valid() && p.Room(2)
    modifies p, p.ptCache
    ensures p.Valid() && |p.ptCache.idToPts| <= |old(p.ptCache.idToPts)| + 2
    ensures Same(p.View(), Perform(old(p.View()), op)) && changed == Changes(old(p.View()), op)
  {
    changed := false;
    match op
    case AddPts(dst, e) => changed := p.AddPts(dst, e);
    case UnionKey(dst, src) => changed := p.UnionPts(dst, src);
    case UnionSet(dst, pts) => changed := p.UnionSet(dst, pts);
    case ClearPts(k, e) => p.ClearPts(k, e);
    case ClearFullPts(k) => p.ClearFullPts(k);
    case Clear => p.Clear();
  }

  // Over every sequence of operations the persistent structure simulates the mutable one: equal
  // points-to sets, equal reverse sets and equal reported changes, whatever else the shared cache
  // has been used for. The sets pass through states that obey the operations one after the other.
  method Simulate(ops: seq<PtsOp>, m: MutablePTData, p: PersistentPTData)
    returns (fromM: seq<bool>, fromP: seq<bool>, ghost states: seq<PtsMap>)
    requires m.Valid() && p.Valid() && m.rev == p.rev && Same(m.ptsMap, p.View())
    requires p.Room(2 * |ops|)
    modifies m, p, p.ptCache
    ensures m.Valid() && p.Valid() && Same(m.ptsMap, p.View())
    ensures fromM == fromP && |fromM| == |ops| && |states| == |ops| + 1
    ensures states[0] == old(m.ptsMap) && states[|ops|] == m.ptsMap
    ensures forall i :: 0 <= i < |ops| ==> Obeys(states[i], ops[i], states[i + 1], fromM[i])
    ensures m.rev ==> forall d :: At(m.revPtsMap, d) == At(p.revPtsMap, d)
  {
    hide Obeys;
    fromM, fromP, states := [], [], [m.ptsMap];
    for n := 0 to |ops|
      invariant m.Valid() && p.Valid() && Same(m.ptsMap, p.View())
      invariant p.Room(2 * (|ops| - n))
      invariant fromM == fromP && |fromM| == n && |states| == n + 1
      invariant states[0] == old(m.ptsMap) && states[n] == m.ptsMap
      invariant forall i :: 0 <= i < n ==> Obeys(states[i], ops[i], states[i + 1], fromM[i])
    {
      PerformSame(m.ptsMap, p.View(), ops[n]);
      var changedM := ExecuteMutable(m, ops[n]);
      var changedP := ExecutePersistent(p, ops[n]);
      PerformMeaning(states[n], ops[n], m.ptsMap, changedM);
      fromM, fromP, states := fromM + [changedM], fromP + [changedP], states + [m.ptsMap];
    }
    if m.rev {
      SameInverse(m.ptsMap, p.View(), m.revPtsMap, p.revPtsMap);
    }
  }

  lemma SameInverse(m: PtsMap, n: PtsMap, rev: RevPtsMap, rev': RevPtsMap)
    requires Same(m, n) && Inverse(m, rev) && Inverse(n, rev')
    ensures forall d :: At(rev, d) == At(rev', d)
  {
    forall d, k ensures k in At(rev, d) <==> k in At(rev', d) {
      assert At(m, k) == At(n, k);
    }
  }
}
