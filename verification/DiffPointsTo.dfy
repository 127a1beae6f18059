// Difference propagation: each node remembers what it has propagated already and hands out only
// what is new. Merging two nodes keeps the part both of them have propagated.
module DiffPointsTo {
  import opened PersistentPointsToCache
  import opened PointsToData

  // ---- what propagation must guarantee ----

  type Edge = nat

  function Out(out: map<Key, set<Edge>>, n: Key): set<Edge> {
    if n in out then out[n] else {}
  }

  // Everything a node believes to have propagated has arrived on each of its edges.
  ghost predicate NothingLost(propa: PtsMap, out: map<Key, set<Edge>>, delivered: map<Edge, PointsTo>) {
    forall n, e :: e in Out(out, n) ==> At(propa, n) <= At(delivered, e)
  }

  function Deliver(delivered: map<Edge, PointsTo>, edges: set<Edge>, pts: PointsTo): map<Edge, PointsTo> {
    map e | e in delivered.Keys + edges :: if e in edges then At(delivered, e) + pts else At(delivered, e)
  }

  // Handing out the difference brings every edge of n up to date with all of its set.
  lemma ProcessingDelivers(propa: PtsMap, out: map<Key, set<Edge>>, delivered: map<Edge, PointsTo>,
                           n: Key, all: PointsTo)
    requires NothingLost(propa, out, delivered)
    ensures var delivered' := Deliver(delivered, Out(out, n), all - At(propa, n));
            && NothingLost(propa[n := all], out, delivered')
            && (forall e :: e in Out(out, n) ==> all <= At(delivered', e))
            && (forall e :: At(delivered, e) <= At(delivered', e) <= At(delivered, e) + all)
  {
    var delivered' := Deliver(delivered, Out(out, n), all - At(propa, n));
    forall m, e | e in Out(out, m) ensures At(propa[n := all], m) <= At(delivered', e) {
      assert At(propa, m) <= At(delivered, e);
    }
    forall e | e in Out(out, n) ensures all <= At(delivered', e) {
      assert At(propa, n) <= At(delivered, e);
    }
  }

  // dst takes over the edges of src.
  function MergeEdges(out: map<Key, set<Edge>>, src: Key, dst: Key): map<Key, set<Edge>> {
    out[src := {}][dst := Out(out, dst) + Out(out, src)]
  }

  // An edge leaves one node only.
  ghost predicate OneSource(out: map<Key, set<Edge>>) {
    forall m, n, e :: e in Out(out, m) && e in Out(out, n) ==> m == n
  }

  // Keeping kept for the merged node is safe for every history that led here.
  ghost predicate SafeMerge(propa: PtsMap, out: map<Key, set<Edge>>, src: Key, dst: Key, kept: PointsTo) {
    forall delivered :: NothingLost(propa, out, delivered) ==>
      NothingLost(propa[dst := kept], MergeEdges(out, src, dst), delivered)
  }

  // A merged node may keep what both nodes have propagated, and nothing beyond: the intersection is
  // safe whatever has been delivered, and no larger set is when each node has an edge.
  lemma MergeKeepsIntersection(propa: PtsMap, out: map<Key, set<Edge>>, delivered: map<Edge, PointsTo>,
                               src: Key, dst: Key, kept: PointsTo)
    requires OneSource(out) && src != dst && Out(out, src) != {} && Out(out, dst) != {}
    requires NothingLost(propa, out, delivered)
    ensures SafeMerge(propa, out, src, dst, kept) <==> kept <= At(propa, dst) * At(propa, src)
  {
    if kept <= At(propa, dst) * At(propa, src) {
      forall delivered | NothingLost(propa, out, delivered)
        ensures NothingLost(propa[dst := kept], MergeEdges(out, src, dst), delivered)
      {
        MergingIsSafe(propa, out, delivered, src, dst, kept);
      }
    }
    if SafeMerge(propa, out, src, dst, kept) {
      MergingNeedsBoth(propa, out, delivered, src, dst, kept, src);
      MergingNeedsBoth(propa, out, delivered, src, dst, kept, dst);
    }
  }

  lemma MergingNeedsBoth(propa: PtsMap, out: map<Key, set<Edge>>, delivered: map<Edge, PointsTo>,
                         src: Key, dst: Key, kept: PointsTo, side: Key)
    requires OneSource(out) && src != dst && side in {src, dst} && Out(out, side) != {}
    requires NothingLost(propa, out, delivered) && SafeMerge(propa, out, src, dst, kept)
    ensures kept <= At(propa, side)
  {
    // A history in which one edge of side has received exactly what side has propagated.
    var e :| e in Out(out, side);
    var least := delivered[e := At(propa, side)];
    forall n, f | f in Out(out, n) ensures At(propa, n) <= At(least, f) {
      assert At(propa, n) <= At(delivered, f);
    }
    assert NothingLost(propa, out, least);
    assert e in Out(MergeEdges(out, src, dst), dst);
    assert At(propa[dst := kept], dst) <= At(least, e);
  }

  lemma MergingIsSafe(propa: PtsMap, out: map<Key, set<Edge>>, delivered: map<Edge, PointsTo>,
                      src: Key, dst: Key, kept: PointsTo)
    requires NothingLost(propa, out, delivered) && kept <= At(propa, dst) * At(propa, src)
    ensures NothingLost(propa[dst := kept], MergeEdges(out, src, dst), delivered)
  {
    forall n, e | e in Out(MergeEdges(out, src, dst), n) ensures At(propa[dst := kept], n) <= At(delivered, e) {
      if n == dst {
        if e in Out(out, dst) {
          assert At(propa, dst) <= At(delivered, e);
        } else {
          assert At(propa, src) <= At(delivered, e);
        }
      } else {
        assert e in Out(out, n);
      }
    }
  }

  // ---- runs ----

  // computeDiffPts followed by delivery, updatePropaPtsMap on merging, and clearPropaPts.
  datatype DiffOp = Process(n: Key, all: PointsTo) | Merge(src: Key, dst: Key) | Forget(n: Key)

  // Propagated sets as they are meant.
  function StepExact(propa: PtsMap, op: DiffOp): PtsMap {
    match op
    case Process(n, all) => propa[n := all]
    case Merge(src, dst) => propa[dst := At(propa, dst) * At(propa, src)]
    case Forget(n) => propa[n := {}]
  }

  function RunExact(propa: PtsMap, ops: seq<DiffOp>): PtsMap
    decreases |ops|
  {
    if ops == [] then propa else RunExact(StepExact(propa, ops[0]), ops[1..])
  }

  datatype Network = Network(propa: PtsMap, out: map<Key, set<Edge>>, delivered: map<Edge, PointsTo>)
  {
    ghost predicate Safe() {
      NothingLost(propa, out, delivered)
    }
  }

  // Processing hands the difference to all edges of a node, merging moves edges.
  function StepNetwork(w: Network, op: DiffOp): Network {
    var propa := StepExact(w.propa, op);
    match op
    case Process(n, all) => Network(propa, w.out, Deliver(w.delivered, Out(w.out, n), all - At(w.propa, n)))
    case Merge(src, dst) => Network(propa, MergeEdges(w.out, src, dst), w.delivered)
    case Forget(_) => Network(propa, w.out, w.delivered)
  }

  function RunNetwork(w: Network, ops: seq<DiffOp>): Network
    decreases |ops|
  {
    if ops == [] then w else RunNetwork(StepNetwork(w, ops[0]), ops[1..])
  }

  lemma StepSafe(w: Network, op: DiffOp)
    requires w.Safe()
    ensures StepNetwork(w, op).Safe()
  {
    match op
    case Process(n, all) => ProcessingDelivers(w.propa, w.out, w.delivered, n, all);
    case Merge(src, dst) => MergingIsSafe(w.propa, w.out, w.delivered, src, dst, At(w.propa, dst) * At(w.propa, src));
    case Forget(_) =>
  }

  // Over every run of processing, merging and forgetting, nothing is lost.
  lemma {:induction false} NothingLostOverRun(w: Network, ops: seq<DiffOp>)
    requires w.Safe()
    ensures RunNetwork(w, ops).Safe() && RunNetwork(w, ops).propa == RunExact(w.propa, ops)
    decreases |ops|
  {
    hide StepExact;
    if ops != [] {
      StepSafe(w, ops[0]);
      NothingLostOverRun(StepNetwork(w, ops[0]), ops[1..]);
    }
  }

  // Propagated sets as the id-based form keeps them, with the calls its cache remembers.
  datatype Kept = Kept(propa: PtsMap, past: History)
  {
    // The merge of dst with src meets a pair that the cache has wrong.
    predicate Misled(op: DiffOp) {
      op.Merge? && past.Spoils(At(propa, op.dst), At(propa, op.src))
    }

    // Processing computes a new difference that is a nonempty proper part of the set.
    predicate Misleads(op: DiffOp) {
      && op.Process? && (op.all, At(propa, op.n)) !in past.differences
      && {} < op.all - At(propa, op.n) < op.all
    }
  }

  function StepKept(k: Kept, op: DiffOp): Kept {
    match op
    case Process(n, all) => Kept(k.propa[n := all], AfterDifference(k.past, all, At(k.propa, n)))
    case Merge(src, dst) =>
      var d, s := At(k.propa, dst), At(k.propa, src);
      Kept(k.propa[dst := if k.past.Spoils(d, s) then d + s else d * s], AfterMeet(k.past, d, s))
    case Forget(n) => k.(propa := k.propa[n := {}])
  }

  function RunKept(k: Kept, ops: seq<DiffOp>): Kept
    decreases |ops|
  {
    if ops == [] then k else RunKept(StepKept(k, ops[0]), ops[1..])
  }

  // Both forms hold the same propagated sets at every moment of the run, so they also hand out the
  // same differences.
  predicate Agree(k: Kept, propa: PtsMap, ops: seq<DiffOp>)
    decreases |ops|
  {
    k.propa == propa && (ops != [] ==> Agree(StepKept(k, ops[0]), StepExact(propa, ops[0]), ops[1..]))
  }

  predicate NeverMisled(k: Kept, ops: seq<DiffOp>)
    decreases |ops|
  {
    ops != [] ==> !k.Misled(ops[0]) && NeverMisled(StepKept(k, ops[0]), ops[1..])
  }

  predicate NeverMisleads(k: Kept, ops: seq<DiffOp>)
    decreases |ops|
  {
    ops != [] ==> !k.Misleads(ops[0]) && NeverMisleads(StepKept(k, ops[0]), ops[1..])
  }

  lemma StepProper(k: Kept, op: DiffOp)
    requires k.past.Proper()
    ensures StepKept(k, op).past.Proper()
  {
  }

  // The two forms agree over a run exactly if no merge meets a pair that an earlier difference has
  // spoiled.
  lemma {:induction false} AgreeIffNeverMisled(k: Kept, ops: seq<DiffOp>)
    requires k.past.Proper()
    ensures Agree(k, k.propa, ops) <==> NeverMisled(k, ops)
    decreases |ops|
  {
    hide AfterDifference, AfterMeet;
    if ops != [] {
      var op := ops[0];
      StepProper(k, op);
      if k.Misled(op) {
        SpoiledDiffer(k.past, At(k.propa, op.dst), At(k.propa, op.src));
        assert StepKept(k, op).propa[op.dst] != StepExact(k.propa, op)[op.dst];
      } else {
        assert StepKept(k, op).propa == StepExact(k.propa, op);
        AgreeIffNeverMisled(StepKept(k, op), ops[1..]);
      }
    }
  }

  lemma SpoiledDiffer(h: History, a: PointsTo, b: PointsTo)
    requires h.Proper() && h.Spoils(a, b)
    ensures a + b != a * b && !(a + b <= a * b)
  {
    if (a, b) in h.spoiled {
      assert {} < (a, b).0 < (a, b).1;
    } else {
      assert {} < (b, a).0 < (b, a).1;
    }
  }

  lemma MeetSpoilsNothing(h: History, l: PointsTo, r: PointsTo)
    requires h.spoiled == {}
    ensures AfterMeet(h, l, r).spoiled == {}
  {
  }

  // From a cache that has nothing wrong, merges keep the intersection as long as no newly computed
  // difference is a nonempty proper part of its set.
  lemma {:induction false} NeverMisleadsNeverMisled(k: Kept, ops: seq<DiffOp>)
    requires k.past.spoiled == {} && NeverMisleads(k, ops)
    ensures NeverMisled(k, ops) && RunKept(k, ops).past.spoiled == {}
    decreases |ops|
  {
    hide AfterDifference, AfterMeet;
    if ops != [] {
      match ops[0] {
        case Process(n, all) => DifferenceSpoils(k.past, all, At(k.propa, n));
        case Merge(src, dst) => MeetSpoilsNothing(k.past, At(k.propa, dst), At(k.propa, src));
        case Forget(_) =>
      }
      NeverMisleadsNeverMisled(StepKept(k, ops[0]), ops[1..]);
    }
  }

  lemma {:induction false} AgreeToTheEnd(k: Kept, propa: PtsMap, ops: seq<DiffOp>)
    requires Agree(k, propa, ops)
    ensures RunKept(k, ops).propa == RunExact(propa, ops)
    decreases |ops|
  {
    if ops != [] {
      AgreeToTheEnd(StepKept(k, ops[0]), StepExact(propa, ops[0]), ops[1..]);
    }
  }

  // What the id-based form keeps for a merged node is safe, whatever has been delivered, exactly when
  // no earlier difference has spoiled the pair of propagated sets.
  lemma MergeSafeIffUnspoiled(k: Kept, out: map<Key, set<Edge>>, delivered: map<Edge, PointsTo>, src: Key, dst: Key)
    requires k.past.Proper() && NothingLost(k.propa, out, delivered)
    requires OneSource(out) && src != dst && Out(out, src) != {} && Out(out, dst) != {}
    ensures var kept := At(StepKept(k, Merge(src, dst)).propa, dst);
            SafeMerge(k.propa, out, src, dst, kept) <==> !k.past.Spoils(At(k.propa, dst), At(k.propa, src))
  {
    hide NothingLost, SafeMerge, OneSource, AfterMeet;
    var kept := At(StepKept(k, Merge(src, dst)).propa, dst);
    MergeKeepsIntersection(k.propa, out, delivered, src, dst, kept);
    if k.past.Spoils(At(k.propa, dst), At(k.propa, src)) {
      SpoiledDiffer(k.past, At(k.propa, dst), At(k.propa, src));
    }
  }

  // ---- what the id-based form loses over a run ----

  function EdgesAfter(out: map<Key, set<Edge>>, op: DiffOp): map<Key, set<Edge>> {
    if op.Merge? then MergeEdges(out, op.src, op.dst) else out
  }

  function DeliveredAfter(k: Kept, out: map<Key, set<Edge>>, delivered: map<Edge, PointsTo>, op: DiffOp)
    : map<Edge, PointsTo>
  {
    if op.Process? then Deliver(delivered, Out(out, op.n), op.all - At(k.propa, op.n)) else delivered
  }

  // Whatever has been delivered so far, if nothing was lost before the step, nothing is lost after it.
  ghost predicate LosesNothing(k: Kept, out: map<Key, set<Edge>>, op: DiffOp) {
    forall delivered :: NothingLost(k.propa, out, delivered) ==>
      NothingLost(StepKept(k, op).propa, EdgesAfter(out, op), DeliveredAfter(k, out, delivered, op))
  }

  ghost predicate RunLosesNothing(k: Kept, out: map<Key, set<Edge>>, ops: seq<DiffOp>)
    decreases |ops|
  {
    ops != [] ==>
      LosesNothing(k, out, ops[0]) && RunLosesNothing(StepKept(k, ops[0]), EdgesAfter(out, ops[0]), ops[1..])
  }

  // A merge that meets a spoiled pair, at a time when the node with the smaller of the two sets has an edge.
  predicate Harms(k: Kept, out: map<Key, set<Edge>>, op: DiffOp) {
    k.Misled(op) && Out(out, if At(k.propa, op.dst) < At(k.propa, op.src) then op.dst else op.src) != {}
  }

  predicate NeverHarms(k: Kept, out: map<Key, set<Edge>>, ops: seq<DiffOp>)
    decreases |ops|
  {
    ops != [] ==> !Harms(k, out, ops[0]) && NeverHarms(StepKept(k, ops[0]), EdgesAfter(out, ops[0]), ops[1..])
  }

  // A history in which every edge has received everything.
  function AllDelivered(propa: PtsMap, out: map<Key, set<Edge>>): map<Edge, PointsTo> {
    var everything := set n, o | n in propa && o in propa[n] :: o;
    Deliver(map[], set n, e | n in out && e in out[n] :: e, everything)
  }

  lemma AllDeliveredIsSafe(propa: PtsMap, out: map<Key, set<Edge>>)
    ensures NothingLost(propa, out, AllDelivered(propa, out))
  {
  }

  // The node that e left before the merge.
  function Origin(out: map<Key, set<Edge>>, op: DiffOp, n: Key, e: Edge): Key
    requires op.Merge?
  {
    if n == op.dst && e !in Out(out, op.dst) then op.src else n
  }

  lemma EdgesKeepOneSource(out: map<Key, set<Edge>>, op: DiffOp)
    requires OneSource(out)
    ensures OneSource(EdgesAfter(out, op))
  {
    forall m, n, e | e in Out(EdgesAfter(out, op), m) && e in Out(EdgesAfter(out, op), n) ensures m == n {
      if op.Merge? {
        var m', n' := Origin(out, op, m, e), Origin(out, op, n, e);
        assert e in Out(out, m') && e in Out(out, n');
      }
    }
  }

  // The merged sets are nested and different, and all of the larger one is kept.
  lemma MisledKeepsLarger(k: Kept, op: DiffOp)
    requires k.past.Proper() && k.Misled(op)
    ensures var d, s, kept := At(k.propa, op.dst), At(k.propa, op.src), At(StepKept(k, op).propa, op.dst);
            op.src != op.dst && ((d < s && kept == s) || (s < d && kept == d))
  {
  }

  lemma HarmlessLosesNothing(k: Kept, out: map<Key, set<Edge>>, op: DiffOp, delivered: map<Edge, PointsTo>)
    requires k.past.Proper() && !Harms(k, out, op) && NothingLost(k.propa, out, delivered)
    ensures NothingLost(StepKept(k, op).propa, EdgesAfter(out, op), DeliveredAfter(k, out, delivered, op))
  {
    match op
    case Process(n, all) => ProcessingDelivers(k.propa, out, delivered, n, all);
    case Forget(_) =>
    case Merge(src, dst) =>
      if k.Misled(op) {
        MisledKeepsLarger(k, op);
        MergingIntoLarger(k, out, op, delivered);
      } else {
        MergingIsSafe(k.propa, out, delivered, src, dst, At(k.propa, dst) * At(k.propa, src));
      }
  }

  lemma MergingIntoLarger(k: Kept, out: map<Key, set<Edge>>, op: DiffOp, delivered: map<Edge, PointsTo>)
    requires k.past.Proper() && k.Misled(op) && !Harms(k, out, op) && NothingLost(k.propa, out, delivered)
    ensures NothingLost(StepKept(k, op).propa, MergeEdges(out, op.src, op.dst), delivered)
  {
    MisledKeepsLarger(k, op);
    forall n, e | e in Out(MergeEdges(out, op.src, op.dst), n)
      ensures At(StepKept(k, op).propa, n) <= At(delivered, e)
    {
      var from := Origin(out, op, n, e);
      assert e in Out(out, from) && At(k.propa, from) <= At(delivered, e);
    }
  }

  lemma StepLosesNothingIff(k: Kept, out: map<Key, set<Edge>>, op: DiffOp)
    requires k.past.Proper() && OneSource(out)
    ensures LosesNothing(k, out, op) <==> !Harms(k, out, op)
  {
    hide NothingLost, OneSource;
    if !Harms(k, out, op) {
      forall delivered | NothingLost(k.propa, out, delivered)
        ensures NothingLost(StepKept(k, op).propa, EdgesAfter(out, op), DeliveredAfter(k, out, delivered, op))
      {
        HarmlessLosesNothing(k, out, op, delivered);
      }
    } else if LosesNothing(k, out, op) {
      var kept := At(StepKept(k, op).propa, op.dst);
      assert SafeMerge(k.propa, out, op.src, op.dst, kept);
      MisledKeepsLarger(k, op);
      AllDeliveredIsSafe(k.propa, out);
      MergingNeedsBoth(k.propa, out, AllDelivered(k.propa, out), op.src, op.dst, kept,
                       if At(k.propa, op.dst) < At(k.propa, op.src) then op.dst else op.src);
    }
  }

  // Over a whole run, no step of the id-based form can lose anything, whatever has been delivered before
  // it, exactly if no merge meets a spoiled pair while the node with the smaller set has an edge.
  lemma {:induction false} RunLosesNothingIff(k: Kept, out: map<Key, set<Edge>>, ops: seq<DiffOp>)
    requires k.past.Proper() && OneSource(out)
    ensures RunLosesNothing(k, out, ops) <==> NeverHarms(k, out, ops)
    decreases |ops|
  {
    hide LosesNothing, Harms, OneSource, StepKept, EdgesAfter;
    if ops != [] {
      StepProper(k, ops[0]);
      EdgesKeepOneSource(out, ops[0]);
      StepLosesNothingIff(k, out, ops[0]);
      RunLosesNothingIff(StepKept(k, ops[0]), EdgesAfter(out, ops[0]), ops[1..]);
    }
  }

  // ---- each element is handed out once ----

  // The differences handed out while the set of a node takes the values alls in turn.
  function Emitted(propa: PointsTo, alls: seq<PointsTo>): seq<PointsTo>
    decreases alls
  {
    if alls == [] then [] else [alls[0] - propa] + Emitted(alls[0], alls[1..])
  }

  ghost predicate Growing(propa: PointsTo, alls: seq<PointsTo>)
    decreases alls
  {
    |alls| > 0 ==> propa <= alls[0] && Growing(alls[0], alls[1..])
  }

  function Total(sets: seq<PointsTo>): PointsTo {
    if sets == [] then {} else sets[0] + Total(sets[1..])
  }

  lemma {:induction false} TotalContains(sets: seq<PointsTo>, i: nat)
    requires i < |sets|
    ensures sets[i] <= Total(sets)
  {
    if i > 0 {
      assert sets[i] == sets[1..][i - 1];
      TotalContains(sets[1..], i - 1);
    }
  }

  // As long as the set of a node only grows, the differences are disjoint and together make up
  // everything that was not propagated before: each element is emitted exactly once.
  lemma {:induction false} EmittedOnce(propa: PointsTo, alls: seq<PointsTo>)
    requires Growing(propa, alls)
    ensures |Emitted(propa, alls)| == |alls|
    ensures Total(Emitted(propa, alls)) == (if alls == [] then {} else alls[|alls| - 1] - propa)
    ensures forall i, j :: 0 <= i < j < |alls| ==> Emitted(propa, alls)[i] !! Emitted(propa, alls)[j]
    decreases alls
  {
    if alls != [] {
      var rest := Emitted(alls[0], alls[1..]);
      EmittedOnce(alls[0], alls[1..]);
      assert Emitted(propa, alls)[1..] == rest;
      if |alls| > 1 {
        assert alls[1..][|alls| - 2] == alls[|alls| - 1];
        GrowingLast(alls[0], alls[1..]);
      }
      forall j | 0 < j < |alls| ensures Emitted(propa, alls)[0] !! Emitted(propa, alls)[j] {
        TotalContains(rest, j - 1);
      }
    }
  }

  lemma {:induction false} GrowingLast(propa: PointsTo, alls: seq<PointsTo>)
    requires Growing(propa, alls) && alls != []
    ensures propa <= alls[|alls| - 1]
    decreases alls
  {
    if |alls| > 1 {
      GrowingLast(alls[0], alls[1..]);
      assert alls[1..][|alls| - 2] == alls[|alls| - 1];
    }
  }

  // ---- sets updated in place ----

  class MutableDiffPTData {
    var diffPtsMap: PtsMap
    var propaPtsMap: PtsMap

    constructor ()
      ensures diffPtsMap == propaPtsMap == map[]
    {
      diffPtsMap, propaPtsMap := map[], map[];
    }

    method ComputeDiffPts(n: Key, all: PointsTo) returns (changed: bool)
      modifies this
      ensures diffPtsMap == old(diffPtsMap)[n := all - At(old(propaPtsMap), n)]
      ensures propaPtsMap == StepExact(old(propaPtsMap), Process(n, all))
      ensures changed <==> At(diffPtsMap, n) != {}
      ensures At(propaPtsMap, n) == all && Others(old(propaPtsMap), propaPtsMap, n)
    {
      var diff := all - At(propaPtsMap, n);
      diffPtsMap := diffPtsMap[n := diff];
      propaPtsMap := propaPtsMap[n := all];
      changed := diff != {};
    }

    method UpdatePropaPtsMap(src: Key, dst: Key)
      modifies `propaPtsMap
      ensures propaPtsMap == StepExact(old(propaPtsMap), Merge(src, dst))
      ensures At(propaPtsMap, dst) == At(old(propaPtsMap), dst) * At(old(propaPtsMap), src)
      ensures Others(old(propaPtsMap), propaPtsMap, dst)
    {
      propaPtsMap := propaPtsMap[dst := At(propaPtsMap, dst) * At(propaPtsMap, src)];
    }

    method ClearPropaPts(n: Key)
      modifies `propaPtsMap
      ensures propaPtsMap == StepExact(old(propaPtsMap), Forget(n))
      ensures At(propaPtsMap, n) == {} && Others(old(propaPtsMap), propaPtsMap, n)
    {
      propaPtsMap := propaPtsMap[n := {}];
    }

    // The differences that successive calls hand out for one node, whose set takes the values alls.
    method ProcessAll(n: Key, alls: seq<PointsTo>) returns (diffs: seq<PointsTo>)
      modifies this
      ensures diffs == Emitted(At(old(propaPtsMap), n), alls)
      ensures alls != [] ==> At(propaPtsMap, n) == alls[|alls| - 1]
    {
      diffs := [];
      ghost var propa := At(propaPtsMap, n);
      for i := 0 to |alls|
        invariant At(propaPtsMap, n) == if i == 0 then propa else alls[i - 1]
        invariant diffs + Emitted(At(propaPtsMap, n), alls[i..]) == Emitted(propa, alls)
      {
        assert alls[i..][1..] == alls[i + 1..];
        var _ := ComputeDiffPts(n, alls[i]);
        diffs := diffs + [At(diffPtsMap, n)];
      }
      assert alls[|alls|..] == [];
    }

    method Run(ops: seq<DiffOp>)
      modifies this
      ensures propaPtsMap == RunExact(old(propaPtsMap), ops)
    {
      for i := 0 to |ops|
        invariant RunExact(propaPtsMap, ops[i..]) == RunExact(old(propaPtsMap), ops)
      {
        assert ops[i..][1..] == ops[i + 1..];
        match ops[i]
        case Process(n, all) => var _ := ComputeDiffPts(n, all);
        case Merge(src, dst) => UpdatePropaPtsMap(src, dst);
        case Forget(n) => ClearPropaPts(n);
      }
    }
  }

  // ---- ids into the shared cache ----

  class PersistentDiffPTData {
    const ptCache: Cache
    var diffPtsMap: map<Key, PointsToID>
    var propaPtsMap: map<Key, PointsToID>

    ghost predicate Valid()
      reads this, ptCache
    {
      && ptCache.Valid()
      && (forall k :: k in diffPtsMap ==> diffPtsMap[k] < |ptCache.idToPts|)
      && (forall k :: k in propaPtsMap ==> propaPtsMap[k] < |ptCache.idToPts|)
    }

    ghost function Diff(): PtsMap
      reads this, ptCache
      requires Valid()
    {
      Denoted(ptCache.idToPts, diffPtsMap)
    }

    ghost function View(): Kept
      reads this, ptCache
      requires Valid()
    {
      Kept(Denoted(ptCache.idToPts, propaPtsMap), ptCache.Past())
    }

    // The cache can hand out n more ids.
    predicate Room(n: nat)
      reads ptCache
    {
      |ptCache.idToPts| + n <= ID_LIMIT
    }

    constructor (cache: Cache)
      requires cache.Valid()
      ensures Valid() && ptCache == cache && Diff() == map[] && View() == Kept(map[], cache.Past())
    {
      ptCache, diffPtsMap, propaPtsMap := cache, map[], map[];
    }

    method ComputeDiffPts(n: Key, all: PointsTo) returns (changed: bool)
      requires Valid() && Room(2)
      modifies this, ptCache
      ensures Valid() && old(ptCache.idToPts) <= ptCache.idToPts && |ptCache.idToPts| <= |old(ptCache.idToPts)| + 2
      ensures Diff() == old(Diff())[n := all - At(old(View()).propa, n)]
      ensures View() == StepKept(old(View()), Process(n, all))
      ensures changed <==> At(Diff(), n) != {}
      ensures At(View().propa, n) == all && Others(old(View()).propa, View().propa, n)
    {
      hide AfterDifference, Remembered, Denoted, PersistentDiffPTData.Valid, Cache.Valid;
      ghost var ids := ptCache.idToPts;
      var propaId := PropaId(n);
      var allId := Emplace(all);
      ghost var ids' := ptCache.idToPts;
      var diffId := ComplementOf(allId, propaId);
      StoreIds(n, diffId, allId);
      GrownTwice(ids, ids', ptCache.idToPts);
      changed := diffId != EMPTY_ID;
    }

    method PropaId(n: Key) returns (id: PointsToID)
      requires Valid()
      ensures id < |ptCache.idToPts| && ptCache.idToPts[id] == At(View().propa, n)
    {
      InternedFacts(ptCache);
      id := IdAt(propaPtsMap, n);
      DenotedStore(ptCache.idToPts, propaPtsMap, n, id);
    }

    method StoreIds(n: Key, diffId: PointsToID, allId: PointsToID)
      requires Valid() && diffId < |ptCache.idToPts| && allId < |ptCache.idToPts|
      modifies `diffPtsMap, `propaPtsMap
      ensures Valid() && Diff() == old(Diff())[n := ptCache.idToPts[diffId]]
      ensures View() == old(View()).(propa := old(View()).propa[n := ptCache.idToPts[allId]])
      ensures diffId != EMPTY_ID <==> ptCache.idToPts[diffId] != {}
    {
      InternedFacts(ptCache);
      DenotedStore(ptCache.idToPts, diffPtsMap, n, diffId);
      DenotedStore(ptCache.idToPts, propaPtsMap, n, allId);
      IdsAreCanonical(ptCache.idToPts, ptCache.ptsToId, diffId, EMPTY_ID);
      diffPtsMap := diffPtsMap[n := diffId];
      propaPtsMap := propaPtsMap[n := allId];
    }

    // Interns a set; what the two maps mean stays the same.
    method Emplace(pts: PointsTo) returns (id: PointsToID)
      requires Valid() && Room(1)
      modifies ptCache
      ensures Valid() && Grown(old(ptCache.idToPts), ptCache.idToPts)
      ensures View() == old(View()) && Diff() == old(Diff())
      ensures id < |ptCache.idToPts| && ptCache.idToPts[id] == pts
    {
      ghost var ids := ptCache.idToPts;
      id := ptCache.EmplacePts(pts);
      Extended(ids, ptCache.idToPts, diffPtsMap);
      Extended(ids, ptCache.idToPts, propaPtsMap);
    }

    method ComplementOf(lhs: PointsToID, rhs: PointsToID) returns (id: PointsToID)
      requires Valid() && Room(1)
      requires lhs < |ptCache.idToPts| && rhs < |ptCache.idToPts|
      modifies ptCache
      ensures Valid() && Grown(old(ptCache.idToPts), ptCache.idToPts)
      ensures View().propa == old(View()).propa && Diff() == old(Diff())
      ensures id < |ptCache.idToPts| && ptCache.idToPts[id] == ptCache.idToPts[lhs] - ptCache.idToPts[rhs]
      ensures ptCache.Past() == AfterDifference(old(ptCache.Past()), ptCache.idToPts[lhs], ptCache.idToPts[rhs])
    {
      hide Interned, Agrees, NearlyAgrees, AfterDifference, Remembered;
      InternedFacts(ptCache);
      ghost var ids := ptCache.idToPts;
      id := ptCache.ComplementPts(lhs, rhs);
      Extended(ids, ptCache.idToPts, diffPtsMap);
      Extended(ids, ptCache.idToPts, propaPtsMap);
    }

    // The merged node keeps the intersection unless an earlier difference has spoiled the pair; then
    // it keeps the union, and claims for the edges of one node what only the other has propagated.
    method UpdatePropaPtsMap(src: Key, dst: Key)
      requires Valid() && Room(1)
      modifies this, ptCache
      ensures Valid() && Grown(old(ptCache.idToPts), ptCache.idToPts) && Diff() == old(Diff())
      ensures View() == StepKept(old(View()), Merge(src, dst))
      ensures var d, s := At(old(View()).propa, dst), At(old(View()).propa, src);
              At(View().propa, dst) == if old(View()).past.Spoils(d, s) then d + s else d * s
      ensures Others(old(View()).propa, View().propa, dst)
    {
      hide Interned, Agrees, NearlyAgrees, AfterMeet, Remembered;
      InternedFacts(ptCache);
      ghost var ids, diffMap, propaMap := ptCache.idToPts, diffPtsMap, propaPtsMap;
      var dstId := IdAt(propaPtsMap, dst);
      var srcId := IdAt(propaPtsMap, src);
      DenotedStore(ids, propaMap, dst, dstId);
      DenotedStore(ids, propaMap, src, srcId);
      var keptId := ptCache.IntersectPts(dstId, srcId);
      Extended(ids, ptCache.idToPts, diffMap);
      Extended(ids, ptCache.idToPts, propaMap);
      DenotedStore(ptCache.idToPts, propaMap, dst, keptId);
      propaPtsMap := propaPtsMap[dst := keptId];
    }

    method ClearPropaPts(n: Key)
      requires Valid()
      modifies `propaPtsMap
      ensures Valid() && View() == StepKept(old(View()), Forget(n))
      ensures At(View().propa, n) == {} && Others(old(View()).propa, View().propa, n)
    {
      InternedFacts(ptCache);
      DenotedStore(ptCache.idToPts, propaPtsMap, n, EMPTY_ID);
      propaPtsMap := propaPtsMap[n := EMPTY_ID];
    }

    method Execute(op: DiffOp)
      requires Valid() && Room(2)
      modifies this, ptCache
      ensures Valid() && |ptCache.idToPts| <= |old(ptCache.idToPts)| + 2
      ensures View() == StepKept(old(View()), op)
    {
      hide StepKept;
      match op
      case Process(n, all) => var _ := ComputeDiffPts(n, all);
      case Merge(src, dst) => UpdatePropaPtsMap(src, dst);
      case Forget(n) => ClearPropaPts(n);
    }

    // Over every sequence of operations: where the propagated sets are those of the in-place form.
    method Run(ops: seq<DiffOp>)
      requires Valid() && Room(2 * |ops|)
      modifies this, ptCache
      ensures Valid() && View() == RunKept(old(View()), ops)
      ensures NeverMisled(old(View()), ops) ==> View().propa == RunExact(old(View()).propa, ops)
    {
      hide StepKept, Remembered;
      ptCache.PastIsProper();
      for i := 0 to |ops|
        invariant Valid() && Room(2 * (|ops| - i))
        invariant RunKept(View(), ops[i..]) == RunKept(old(View()), ops)
      {
        assert ops[i..][1..] == ops[i + 1..];
        Execute(ops[i]);
      }
      if NeverMisled(old(View()), ops) {
        AgreeIffNeverMisled(old(View()), ops);
        AgreeToTheEnd(old(View()), old(View()).propa, ops);
      }
    }
  }

  lemma GrownTwice(a: seq<PointsTo>, b: seq<PointsTo>, c: seq<PointsTo>)
    requires Grown(a, b) && Grown(b, c)
    ensures a <= c && |c| <= |a| + 2
  {
  }

  lemma DenotedStore(ids: seq<PointsTo>, m: map<Key, PointsToID>, n: Key, id: PointsToID)
    requires |ids| > 0 && ids[EMPTY_ID] == {} && id < |ids| && forall k :: k in m ==> m[k] < |ids|
    ensures Denoted(ids, m[n := id]) == Denoted(ids, m)[n := ids[id]]
    ensures IdAt(m, n) < |ids| && At(Denoted(ids, m), n) == ids[IdAt(m, n)]
  {
  }

  // Node 1 propagates {1} and then {1, 2}, node 2 propagates {2}, and node 1 takes over node 2.
  const UNLUCKY: seq<DiffOp> := [Process(1, {1}), Process(1, {1, 2}), Process(2, {2}), Merge(2, 1)]

  lemma UnluckyRun()
    ensures !NeverMisled(Kept(map[], NO_HISTORY), UNLUCKY)
    ensures At(RunKept(Kept(map[], NO_HISTORY), UNLUCKY).propa, 1) == {1, 2}
    ensures At(RunExact(map[], UNLUCKY), 1) == {2}
  {
    var k0 := Kept(map[], NO_HISTORY);
    var k1 := StepKept(k0, UNLUCKY[0]);
    var k2 := StepKept(k1, UNLUCKY[1]);
    var k3 := StepKept(k2, UNLUCKY[2]);
    assert k1 == Kept(map[1 := {1}], NO_HISTORY);
    assert {1, 2} - {1} == {2} && 1 !in {2};
    assert k2.propa == map[1 := {1, 2}] && k2.past.spoiled == {({2}, {1, 2})};
    assert k3.propa == map[1 := {1, 2}, 2 := {2}] && k3.past == k2.past;
    assert k3.Misled(UNLUCKY[3]);
    assert {1, 2} + {2} == {1, 2} && {1, 2} * {2} == {2};
    assert UNLUCKY[1..][1..] == [UNLUCKY[2], UNLUCKY[3]] && UNLUCKY[1..][1..][1..] == [UNLUCKY[3]];
  }

  // From fresh data this run ends with a merged node that claims {1, 2} for the edges of both nodes,
  // though node 2 has propagated {2} only.
  method LostDelivery() returns (meant: PointsTo, got: PointsTo)
    ensures meant == At(RunExact(map[], UNLUCKY), 1) && got == {1, 2} && got != meant
  {
    var cache := new Cache();
    var data := new PersistentDiffPTData(cache);
    data.Run(UNLUCKY);
    UnluckyRun();
    InternedFacts(data.ptCache);
    DenotedStore(data.ptCache.idToPts, data.propaPtsMap, 1, IdAt(data.propaPtsMap, 1));
    assert 1 !in {2};
    meant, got := {2}, data.ptCache.idToPts[IdAt(data.propaPtsMap, 1)];
  }
}
