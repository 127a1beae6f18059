// The hash-consed store of points-to sets: sets are interned to ids, and unions, complements and
// intersections of ids are memoised, together with facts derived from their results.
module PersistentPointsToCache {

  type PointsTo = set<nat>
  type PointsToID = nat
  type OpCache = map<(PointsToID, PointsToID), PointsToID>

  // Ids are 32-bit; the counter wraps to 0 when all of them are handed out.
  const ID_LIMIT: nat := 0x1_0000_0000

  const EMPTY_ID: PointsToID := 0

  datatype Op = Union | Complement | Intersection

  function Apply(op: Op, a: PointsTo, b: PointsTo): PointsTo {
    match op
    case Union => a + b
    case Complement => a - b
    case Intersection => a * b
  }

  function MinMax(a: PointsToID, b: PointsToID): (PointsToID, PointsToID) {
    if a <= b then (a, b) else (b, a)
  }

  datatype Stats = Stats(total: nat, unique: nat, property: nat, lookup: nat) {
    // Every counted operation was decided by a law, computed, or looked up.
    predicate Balanced() {
      total == property + unique + lookup
    }

    // A fact derived from another result counts as an operation decided by a law.
    function Derived(): Stats {
      this.(total := total + 1, property := property + 1)
    }
  }

  // How many operations have been counted, and as what, between two moments.
  predicate Adds(s: Stats, t: Stats, total: nat, unique: nat, property: nat, lookup: nat) {
    && t.total == s.total + total && t.unique == s.unique + unique
    && t.property == s.property + property && t.lookup == s.lookup + lookup
  }

  // Ids and stored sets are in bijection, and id 0 is the empty set.
  ghost predicate Interned(ids: seq<PointsTo>, toId: map<PointsTo, PointsToID>) {
    && |ids| > 0 && ids[EMPTY_ID] == {}
    && (forall i :: 0 <= i < |ids| ==> ids[i] in toId && toId[ids[i]] == i)
    && (forall s :: s in toId ==> toId[s] < |ids| && ids[toId[s]] == s)
  }

  ghost predicate InRange(ids: seq<PointsTo>, k: (PointsToID, PointsToID), r: PointsToID) {
    k.0 < |ids| && k.1 < |ids| && r < |ids|
  }

  // Ids handed out keep their meaning, and at most one new set is stored.
  predicate Grown(ids: seq<PointsTo>, ids': seq<PointsTo>) {
    ids <= ids' && |ids'| <= |ids| + 1
  }

  // The entry says what the operation really yields.
  ghost predicate True(op: Op, ids: seq<PointsTo>, k: (PointsToID, PointsToID), r: PointsToID) {
    InRange(ids, k, r) && ids[r] == Apply(op, ids[k.0], ids[k.1])
  }

  ghost predicate Agrees(op: Op, ids: seq<PointsTo>, table: OpCache) {
    forall k :: k in table ==> True(op, ids, k, table[k])
  }

  // The entry gives the larger of two nested sets where the smaller is their intersection.
  ghost predicate TakesLarger(ids: seq<PointsTo>, k: (PointsToID, PointsToID), r: PointsToID) {
    && InRange(ids, k, r)
    && ((r == k.1 && {} < ids[k.0] < ids[k.1]) || (r == k.0 && {} < ids[k.1] < ids[k.0]))
  }

  // What really holds of the intersection table.
  ghost predicate NearlyAgrees(ids: seq<PointsTo>, table: OpCache) {
    forall k :: k in table ==> True(Intersection, ids, k, table[k]) || TakesLarger(ids, k, table[k])
  }

  // Looking up the intersection of these ids gives a wrong answer.
  ghost predicate Tainted(ids: seq<PointsTo>, table: OpCache, a: PointsToID, b: PointsToID) {
    MinMax(a, b) in table && TakesLarger(ids, MinMax(a, b), table[MinMax(a, b)])
  }

  lemma TaintedIsUntrue(ids: seq<PointsTo>, k: (PointsToID, PointsToID), r: PointsToID)
    requires TakesLarger(ids, k, r)
    ensures !True(Intersection, ids, k, r)
  {
    if r == k.1 && ids[k.0] < ids[k.1] {
      assert ids[k.0] * ids[k.1] == ids[k.0];
    } else {
      assert ids[k.0] * ids[k.1] == ids[k.1];
    }
  }

  // The intersection table is right as a whole exactly when no pair of ids is tainted.
  lemma UntaintedAgrees(ids: seq<PointsTo>, table: OpCache)
    requires NearlyAgrees(ids, table)
    ensures Agrees(Intersection, ids, table) <==> forall k :: k in table ==> !TakesLarger(ids, k, table[k])
  {
    forall k | k in table && TakesLarger(ids, k, table[k]) ensures !True(Intersection, ids, k, table[k]) {
      TaintedIsUntrue(ids, k, table[k]);
    }
  }

  // Distinct ids denote distinct sets, so comparing ids compares sets.
  lemma IdsAreCanonical(ids: seq<PointsTo>, toId: map<PointsTo, PointsToID>, a: PointsToID, b: PointsToID)
    requires Interned(ids, toId) && a < |ids| && b < |ids|
    ensures a == b <==> ids[a] == ids[b]
    ensures a == EMPTY_ID <==> ids[a] == {}
    ensures |ids| > 0 && ids[EMPTY_ID] == {}
  {
    assert toId[ids[a]] == a && toId[ids[b]] == b;
    assert toId[ids[EMPTY_ID]] == EMPTY_ID;
  }

  ghost predicate Nested(ids: seq<PointsTo>, k: (PointsToID, PointsToID)) {
    && k.0 < |ids| && k.1 < |ids|
    && ({} < ids[k.0] < ids[k.1] || {} < ids[k.1] < ids[k.0])
  }

  // Only pairs of nested sets can be tainted, so an entry for any other pair decides nothing
  // about the rest of the table.
  lemma AddUnnested(ids: seq<PointsTo>, table: OpCache, k: (PointsToID, PointsToID), r: PointsToID)
    requires NearlyAgrees(ids, table) && !Nested(ids, k) && True(Intersection, ids, k, r)
    ensures NearlyAgrees(ids, table[k := r])
    ensures Agrees(Intersection, ids, table[k := r]) <==> Agrees(Intersection, ids, table)
  {
    if Agrees(Intersection, ids, table[k := r]) {
      forall j | j in table ensures True(Intersection, ids, j, table[j]) {
        if j != k {
          assert True(Intersection, ids, j, table[k := r][j]);
        }
      }
    }
  }

  // The entry that records lhs as its own intersection with a part of it.
  lemma AddLarger(ids: seq<PointsTo>, table: OpCache, lhs: PointsToID, part: PointsToID)
    requires NearlyAgrees(ids, table) && lhs < |ids| && part < |ids| && {} < ids[part] < ids[lhs]
    ensures NearlyAgrees(ids, table[MinMax(part, lhs) := lhs])
    ensures !Agrees(Intersection, ids, table[MinMax(part, lhs) := lhs])
  {
    var k := MinMax(part, lhs);
    assert k.0 != k.1;
    assert TakesLarger(ids, k, lhs);
    TaintedIsUntrue(ids, k, lhs);
    assert k in table[k := lhs];
  }

  // Storing further sets leaves every entry as true, or as wrong, as it was.
  lemma ExtendIds(ids: seq<PointsTo>, ids': seq<PointsTo>, op: Op, table: OpCache)
    requires ids <= ids'
    ensures Agrees(op, ids, table) ==> Agrees(op, ids', table)
    ensures NearlyAgrees(ids, table) ==> NearlyAgrees(ids', table)
    ensures (forall k :: k in table ==> InRange(ids, k, table[k])) && Agrees(op, ids', table) ==> Agrees(op, ids, table)
  {
    assert forall i :: 0 <= i < |ids| ==> ids'[i] == ids[i];
    if Agrees(op, ids, table) {
      forall k | k in table ensures True(op, ids', k, table[k]) {
        assert True(op, ids, k, table[k]);
      }
    }
    if NearlyAgrees(ids, table) {
      forall k | k in table
        ensures True(Intersection, ids', k, table[k]) || TakesLarger(ids', k, table[k])
      {
        assert True(Intersection, ids, k, table[k]) || TakesLarger(ids, k, table[k]);
      }
    }
    if (forall k :: k in table ==> InRange(ids, k, table[k])) && Agrees(op, ids', table) {
      forall k | k in table ensures True(op, ids, k, table[k]) {
        assert True(op, ids', k, table[k]);
      }
    }
  }

  lemma AddTrue(op: Op, ids: seq<PointsTo>, table: OpCache, k: (PointsToID, PointsToID), r: PointsToID)
    requires True(op, ids, k, r)
    ensures Agrees(op, ids, table) ==> Agrees(op, ids, table[k := r])
    ensures NearlyAgrees(ids, table) && op == Intersection ==> NearlyAgrees(ids, table[k := r])
  {
  }

  lemma OpMemoised(ids: seq<PointsTo>, ids': seq<PointsTo>, op: Op, table: OpCache,
                   k: (PointsToID, PointsToID), r: PointsToID)
    requires ids <= ids' && k !in table && k.0 < |ids| && k.1 < |ids| && True(op, ids', k, r)
    requires Agrees(op, ids, table) || (op == Intersection && NearlyAgrees(ids, table))
    ensures Agrees(op, ids', table[k := r]) <==> Agrees(op, ids, table)
    ensures op == Intersection ==> NearlyAgrees(ids', table[k := r])
  {
    ExtendIds(ids, ids', op, table);
    AddTrue(op, ids', table, k, r);
    if Agrees(op, ids', table[k := r]) {
      forall j | j in table ensures True(op, ids', j, table[j]) {
        assert j in table[k := r] && table[k := r][j] == table[j];
      }
    }
  }

  // ---- the calls so far, as far as later ones depend on them ----

  // The differences and intersections that have been computed or derived, and the pairs of a set
  // and a proper part of it whose intersection is memoised as the whole.
  datatype History = History(differences: set<(PointsTo, PointsTo)>, meets: set<set<PointsTo>>,
                             spoiled: set<(PointsTo, PointsTo)>)
  {
    predicate Spoils(a: PointsTo, b: PointsTo) {
      (a, b) in spoiled || (b, a) in spoiled
    }

    ghost predicate Proper() {
      forall p :: p in spoiled ==> {} < p.0 < p.1
    }
  }

  const NO_HISTORY := History({}, {}, {})

  // Computing a difference that is a nonempty proper part of l spoils the pair of this part and l.
  function AfterDifference(h: History, l: PointsTo, r: PointsTo): History {
    if l == r || r == {} || l == {} || (l, r) in h.differences then h
    else
      var d := l - r;
      if d == {} then h.(differences := h.differences + {(l, r)})
      else History(h.differences + {(l, r), (d, r)}, h.meets + {{d, r}, {d, l}},
                   h.spoiled + if d != l then {(d, l)} else {})
  }

  // Nothing is spoiled afterwards exactly if nothing was before and the difference has been computed
  // already, or is empty, or is all of l.
  lemma DifferenceSpoils(h: History, l: PointsTo, r: PointsTo)
    ensures AfterDifference(h, l, r).spoiled == {} <==>
            h.spoiled == {} && !((l, r) !in h.differences && {} < l - r < l)
  {
    if h.spoiled == {} && (l, r) !in h.differences && {} < l - r < l {
      assert (l - r, l) in AfterDifference(h, l, r).spoiled;
    }
  }

  // Computing an intersection heals the pairs it forms with either operand.
  function AfterMeet(h: History, l: PointsTo, r: PointsTo): History {
    if l == r || r == {} || l == {} || {l, r} in h.meets then h
    else
      var i := l * r;
      if i == {} then h.(meets := h.meets + {{l, r}})
      else h.(meets := h.meets + {{l, r}} + (if i != r then {{i, r}} else {}) + (if i != l then {{i, l}} else {}),
              spoiled := h.spoiled - {(i, r), (i, l)})
  }

  // What the two tables remember of the calls.
  ghost function Differences(ids: seq<PointsTo>, table: OpCache): set<(PointsTo, PointsTo)> {
    set k | k in table && k.0 < |ids| && k.1 < |ids| :: (ids[k.0], ids[k.1])
  }

  ghost function Meets(ids: seq<PointsTo>, table: OpCache): set<set<PointsTo>> {
    set k | k in table && k.0 < |ids| && k.1 < |ids| :: {ids[k.0], ids[k.1]}
  }

  // Of two nested sets, the part first.
  function PartAndWhole(ids: seq<PointsTo>, k: (PointsToID, PointsToID)): (PointsTo, PointsTo)
    requires k.0 < |ids| && k.1 < |ids|
  {
    if ids[k.0] < ids[k.1] then (ids[k.0], ids[k.1]) else (ids[k.1], ids[k.0])
  }

  ghost function Larger(ids: seq<PointsTo>, table: OpCache): set<(PointsTo, PointsTo)> {
    set k | k in table && TakesLarger(ids, k, table[k]) :: PartAndWhole(ids, k)
  }

  // Commutative operations memoise under ordered operands.
  ghost predicate Ordered(table: OpCache) {
    forall k :: k in table ==> k.0 <= k.1
  }

  ghost function Remembered(ids: seq<PointsTo>, complements: OpCache, intersections: OpCache): History {
    History(Differences(ids, complements), Meets(ids, intersections), Larger(ids, intersections))
  }

  lemma LargerIsProper(ids: seq<PointsTo>, table: OpCache, p: (PointsTo, PointsTo))
    requires p in Larger(ids, table)
    ensures {} < p.0 < p.1
  {
  }

  lemma DifferencesStore(ids: seq<PointsTo>, table: OpCache, k: (PointsToID, PointsToID), r: PointsToID)
    requires k.0 < |ids| && k.1 < |ids|
    ensures Differences(ids, table[k := r]) == Differences(ids, table) + {(ids[k.0], ids[k.1])}
  {
    var after := table[k := r];
    forall p | p in Differences(ids, table) ensures p in Differences(ids, after) {
      var j :| j in table && j.0 < |ids| && j.1 < |ids| && p == (ids[j.0], ids[j.1]);
      assert j in after;
    }
    assert k in after;
  }

  lemma MeetsStore(ids: seq<PointsTo>, table: OpCache, a: PointsToID, b: PointsToID, r: PointsToID)
    requires a < |ids| && b < |ids|
    ensures Meets(ids, table[MinMax(a, b) := r]) == Meets(ids, table) + {{ids[a], ids[b]}}
  {
    var k := MinMax(a, b);
    var after := table[k := r];
    assert {ids[k.0], ids[k.1]} == {ids[a], ids[b]};
    forall p | p in Meets(ids, table) ensures p in Meets(ids, after) {
      var j :| j in table && j.0 < |ids| && j.1 < |ids| && p == {ids[j.0], ids[j.1]};
      assert j in after;
    }
    assert k in after;
  }

  // Two ordered keys for the same two sets are one key.
  lemma SameKey(ids: seq<PointsTo>, toId: map<PointsTo, PointsToID>, j: (PointsToID, PointsToID),
                k: (PointsToID, PointsToID))
    requires Interned(ids, toId) && j.0 <= j.1 < |ids| && k.0 <= k.1 < |ids|
    requires {ids[j.0], ids[j.1]} == {ids[k.0], ids[k.1]}
    ensures j == k
  {
    assert ids[j.0] in {ids[k.0], ids[k.1]} && ids[j.1] in {ids[k.0], ids[k.1]};
    assert ids[k.0] in {ids[j.0], ids[j.1]} && ids[k.1] in {ids[j.0], ids[j.1]};
    assert toId[ids[j.0]] == j.0 && toId[ids[j.1]] == j.1 && toId[ids[k.0]] == k.0 && toId[ids[k.1]] == k.1;
  }

  // An entry is memoised exactly if its pair of sets is remembered.
  lemma MemoisedIffRemembered(ids: seq<PointsTo>, toId: map<PointsTo, PointsToID>, table: OpCache,
                              a: PointsToID, b: PointsToID)
    requires Interned(ids, toId) && a < |ids| && b < |ids|
    ensures (a, b) in table <==> (ids[a], ids[b]) in Differences(ids, table)
    ensures Ordered(table) ==> (MinMax(a, b) in table <==> {ids[a], ids[b]} in Meets(ids, table))
  {
    if (ids[a], ids[b]) in Differences(ids, table) {
      var j :| j in table && j.0 < |ids| && j.1 < |ids| && (ids[a], ids[b]) == (ids[j.0], ids[j.1]);
      assert toId[ids[a]] == a && toId[ids[j.0]] == j.0 && toId[ids[b]] == b && toId[ids[j.1]] == j.1;
    }
    var k := MinMax(a, b);
    assert {ids[a], ids[b]} == {ids[k.0], ids[k.1]};
    if Ordered(table) && {ids[a], ids[b]} in Meets(ids, table) {
      var j :| j in table && j.0 < |ids| && j.1 < |ids| && {ids[a], ids[b]} == {ids[j.0], ids[j.1]};
      SameKey(ids, toId, j, k);
    }
  }

  // Looking up an intersection is wrong exactly for the pairs that have been spoiled and not healed.
  lemma TaintedIffSpoiled(ids: seq<PointsTo>, toId: map<PointsTo, PointsToID>, table: OpCache,
                          a: PointsToID, b: PointsToID)
    requires Interned(ids, toId) && Ordered(table) && a < |ids| && b < |ids|
    ensures Tainted(ids, table, a, b) <==>
            (ids[a], ids[b]) in Larger(ids, table) || (ids[b], ids[a]) in Larger(ids, table)
  {
    var k := MinMax(a, b);
    if Tainted(ids, table, a, b) {
      assert k in table && TakesLarger(ids, k, table[k]);
      assert PartAndWhole(ids, k) in Larger(ids, table);
    }
    forall p | p in Larger(ids, table) && (p == (ids[a], ids[b]) || p == (ids[b], ids[a]))
      ensures Tainted(ids, table, a, b)
    {
      var j :| j in table && TakesLarger(ids, j, table[j]) && p == PartAndWhole(ids, j);
      assert {ids[j.0], ids[j.1]} == {p.0, p.1} == {ids[a], ids[b]} == {ids[k.0], ids[k.1]};
      SameKey(ids, toId, j, k);
    }
  }

  // The intersection table is right as a whole exactly when nothing is spoiled.
  lemma ExactIffUnspoiled(ids: seq<PointsTo>, table: OpCache)
    requires NearlyAgrees(ids, table)
    ensures Agrees(Intersection, ids, table) <==> Larger(ids, table) == {}
  {
    UntaintedAgrees(ids, table);
    forall k | k in table && TakesLarger(ids, k, table[k]) ensures Larger(ids, table) != {} {
      assert PartAndWhole(ids, k) in Larger(ids, table);
    }
  }

  // A true entry takes its pair out of the spoiled ones.
  lemma LargerHeals(ids: seq<PointsTo>, toId: map<PointsTo, PointsToID>, table: OpCache,
                    a: PointsToID, b: PointsToID, r: PointsToID)
    requires Interned(ids, toId) && Ordered(table) && True(Intersection, ids, MinMax(a, b), r)
    ensures Larger(ids, table[MinMax(a, b) := r]) == Larger(ids, table) - {(ids[a], ids[b]), (ids[b], ids[a])}
  {
    var k := MinMax(a, b);
    var after := table[k := r];
    assert Ordered(after) && !TakesLarger(ids, k, r) by {
      if TakesLarger(ids, k, r) { TaintedIsUntrue(ids, k, r); }
    }
    TaintedIffSpoiled(ids, toId, after, a, b);
    forall p | p in Larger(ids, after) ensures p in Larger(ids, table) {
      var j :| j in after && TakesLarger(ids, j, after[j]) && p == PartAndWhole(ids, j);
      assert j != k && j in table && TakesLarger(ids, j, table[j]);
    }
    forall p | p in Larger(ids, table) && p != (ids[a], ids[b]) && p != (ids[b], ids[a])
      ensures p in Larger(ids, after)
    {
      var j :| j in table && TakesLarger(ids, j, table[j]) && p == PartAndWhole(ids, j);
      assert j != k && j in after && TakesLarger(ids, j, after[j]);
    }
  }

  lemma LargerSpoils(ids: seq<PointsTo>, toId: map<PointsTo, PointsToID>, table: OpCache,
                     part: PointsToID, lhs: PointsToID)
    requires Interned(ids, toId) && Ordered(table) && part < |ids| && lhs < |ids| && {} < ids[part] < ids[lhs]
    ensures Larger(ids, table[MinMax(part, lhs) := lhs]) == Larger(ids, table) + {(ids[part], ids[lhs])}
  {
    var k := MinMax(part, lhs);
    var after := table[k := lhs];
    assert k.0 != k.1 && TakesLarger(ids, k, lhs);
    forall p | p in Larger(ids, after) ensures p in Larger(ids, table) + {(ids[part], ids[lhs])} {
      var j :| j in after && TakesLarger(ids, j, after[j]) && p == PartAndWhole(ids, j);
      if j != k {
        assert j in table && TakesLarger(ids, j, table[j]);
      }
    }
    forall p | p in Larger(ids, table) + {(ids[part], ids[lhs])} ensures p in Larger(ids, after) {
      if p == (ids[part], ids[lhs]) {
        assert k in after;
      } else {
        var j :| j in table && TakesLarger(ids, j, table[j]) && p == PartAndWhole(ids, j);
        assert j in after;
      }
    }
  }

  lemma RecordedLhs(ids: seq<PointsTo>, toId: map<PointsTo, PointsToID>, table: OpCache,
                    part: PointsToID, lhs: PointsToID)
    requires Interned(ids, toId) && Ordered(table) && part < |ids| && lhs < |ids| && {} < ids[part] <= ids[lhs]
    ensures var after := table[MinMax(part, lhs) := lhs];
            && Ordered(after)
            && Meets(ids, after) == Meets(ids, table) + {{ids[part], ids[lhs]}}
            && Larger(ids, after) == Larger(ids, table) + if part != lhs then {(ids[part], ids[lhs])} else {}
  {
    IdsAreCanonical(ids, toId, part, lhs);
    MeetsStore(ids, table, part, lhs, lhs);
    if part != lhs {
      LargerSpoils(ids, toId, table, part, lhs);
    } else {
      LargerHeals(ids, toId, table, part, lhs, lhs);
      assert (ids[lhs], ids[lhs]) !in Larger(ids, table);
    }
  }

  // Storing further sets changes nothing that is remembered.
  lemma RememberedExtends(ids: seq<PointsTo>, ids': seq<PointsTo>, complements: OpCache, intersections: OpCache)
    requires ids <= ids' && Agrees(Complement, ids, complements) && NearlyAgrees(ids, intersections)
    ensures Remembered(ids', complements, intersections) == Remembered(ids, complements, intersections)
  {
    assert forall i :: 0 <= i < |ids| ==> ids'[i] == ids[i];
    assert forall k :: k in complements ==> True(Complement, ids, k, complements[k]);
    assert forall k :: k in intersections ==> InRange(ids, k, intersections[k]);
    assert Differences(ids', complements) == Differences(ids, complements);
    assert Meets(ids', intersections) == Meets(ids, intersections);
    assert Larger(ids', intersections) == Larger(ids, intersections);
  }

  lemma TablesExtend(ids: seq<PointsTo>, ids': seq<PointsTo>, unions: OpCache, complements: OpCache,
                     intersections: OpCache)
    requires ids <= ids' && Agrees(Union, ids, unions) && Agrees(Complement, ids, complements)
    requires NearlyAgrees(ids, intersections)
    ensures Agrees(Union, ids', unions) && Agrees(Complement, ids', complements) && NearlyAgrees(ids', intersections)
    ensures Agrees(Intersection, ids', intersections) <==> Agrees(Intersection, ids, intersections)
    ensures Remembered(ids', complements, intersections) == Remembered(ids, complements, intersections)
  {
    assert forall k :: k in intersections ==> InRange(ids, k, intersections[k]);
    hide Agrees, NearlyAgrees;
    ExtendIds(ids, ids', Union, unions);
    ExtendIds(ids, ids', Complement, complements);
    ExtendIds(ids, ids', Intersection, intersections);
    RememberedExtends(ids, ids', complements, intersections);
  }

  class Cache {
    var idToPts: seq<PointsTo>
    var ptsToId: map<PointsTo, PointsToID>
    var unionCache: OpCache
    var complementCache: OpCache
    var intersectionCache: OpCache
    var idCounter: nat
    var unions: Stats
    var complements: Stats
    var intersections: Stats

    // The sets and the three tables.
    ghost predicate Stored()
      reads this
    {
      && Interned(idToPts, ptsToId)
      && |idToPts| <= ID_LIMIT && idCounter == |idToPts| % ID_LIMIT
      && Agrees(Union, idToPts, unionCache)
      && Agrees(Complement, idToPts, complementCache)
      && NearlyAgrees(idToPts, intersectionCache) && Ordered(intersectionCache)
    }

    ghost predicate Valid()
      reads this
    {
      && Stored()
      && unions.Balanced() && complements.Balanced() && intersections.Balanced()
    }

    // The intersection table is right.
    ghost predicate Exact()
      reads this
    {
      Agrees(Intersection, idToPts, intersectionCache)
    }

    // The calls so far, as far as later ones depend on them.
    ghost function Past(): History
      reads this
    {
      Remembered(idToPts, complementCache, intersectionCache)
    }

    // Interning s does not run out of ids.
    predicate CanIntern(s: PointsTo)
      reads this
    {
      idCounter != 0 || s in ptsToId
    }

    constructor ()
      ensures Valid() && Exact() && idToPts == [{}] && Past() == NO_HISTORY
      ensures unionCache == complementCache == intersectionCache == map[]
    {
      idToPts, ptsToId := [{}], map[{} := EMPTY_ID];
      unionCache, complementCache, intersectionCache := map[], map[], map[];
      idCounter := 1;
      unions, complements, intersections := Stats(0, 0, 0, 0), Stats(0, 0, 0, 0), Stats(0, 0, 0, 0);
    }

    method NewPointsToId() returns (id: PointsToID)
      requires idCounter != 0
      modifies `idCounter
      ensures id == old(idCounter) && idCounter == (old(idCounter) + 1) % ID_LIMIT
    {
      id := idCounter;
      idCounter := (idCounter + 1) % ID_LIMIT;
    }

    // The id of pts, which is a new one only if pts was not stored.
    method EmplacePts(pts: PointsTo) returns (id: PointsToID)
      requires Stored() && CanIntern(pts)
      modifies `idToPts, `ptsToId, `idCounter
      ensures Stored() && Grown(old(idToPts), idToPts)
      ensures id < |idToPts| && idToPts[id] == pts
      ensures idToPts == if pts in old(ptsToId) then old(idToPts) else old(idToPts) + [pts]
      ensures Past() == old(Past()) && (Exact() <==> old(Exact()))
    {
      if pts in ptsToId {
        return ptsToId[pts];
      }
      hide Agrees, NearlyAgrees, Remembered;
      ghost var ids := idToPts;
      id := NewPointsToId();
      idToPts := idToPts + [pts];
      ptsToId := ptsToId[pts := id];
      TablesExtend(ids, idToPts, unionCache, complementCache, intersectionCache);
    }

    // Looks the operation up, and computes, interns and memoises its result if it is not there.
    method OpPts(lhs: PointsToID, rhs: PointsToID, op: Op, opCache: OpCache)
      returns (result: PointsToID, opPerformed: bool, opCache': OpCache)
      requires Stored() && lhs < |idToPts| && rhs < |idToPts|
      requires CanIntern(Apply(op, idToPts[lhs], idToPts[rhs]))
      requires Agrees(op, idToPts, opCache) || (op == Intersection && NearlyAgrees(idToPts, opCache))
      modifies `idToPts, `ptsToId, `idCounter
      ensures Stored() && Grown(old(idToPts), idToPts) && result < |idToPts|
      ensures opPerformed == ((if op.Complement? then (lhs, rhs) else MinMax(lhs, rhs)) !in opCache)
      ensures opPerformed || op != Intersection ==> idToPts[result] == Apply(op, idToPts[lhs], idToPts[rhs])
      ensures !opPerformed ==> opCache' == opCache && idToPts == old(idToPts)
      ensures opPerformed ==> opCache' == opCache[(if op.Complement? then (lhs, rhs) else MinMax(lhs, rhs)) := result]
      ensures !opPerformed ==> result == opCache[if op.Complement? then (lhs, rhs) else MinMax(lhs, rhs)]
      ensures Agrees(op, idToPts, opCache') <==> Agrees(op, old(idToPts), opCache)
      ensures op == Intersection ==> NearlyAgrees(idToPts, opCache')
      ensures Past() == old(Past()) && (Exact() <==> old(Exact()))
    {
      var operands := if op.Complement? then (lhs, rhs) else MinMax(lhs, rhs);
      if operands in opCache {
        assert True(op, idToPts, operands, opCache[operands]) || TakesLarger(idToPts, operands, opCache[operands]);
        return opCache[operands], false, opCache;
      }
      ghost var ids := idToPts;
      var pts := Apply(op, idToPts[lhs], idToPts[rhs]);
      result := EmplacePts(pts);
      OpMemoised(ids, idToPts, op, opCache, operands, result);
      return result, true, opCache[operands := result];
    }

    // ---- entries derived from a computed result ----

    method RecordUnion(a: PointsToID, b: PointsToID, r: PointsToID)
      requires Stored() && True(Union, idToPts, MinMax(a, b), r)
      modifies `unionCache, `unions
      ensures Stored() && unions == old(unions).Derived() && unionCache == old(unionCache)[MinMax(a, b) := r]
    {
      AddTrue(Union, idToPts, unionCache, MinMax(a, b), r);
      unionCache := unionCache[MinMax(a, b) := r];
      unions := unions.Derived();
    }

    method RecordComplement(a: PointsToID, b: PointsToID, r: PointsToID)
      requires Stored() && True(Complement, idToPts, (a, b), r)
      modifies `complementCache, `complements
      ensures Stored() && complements == old(complements).Derived()
      ensures complementCache == old(complementCache)[(a, b) := r]
      ensures Past() == old(Past()).(differences := old(Past()).differences + {(idToPts[a], idToPts[b])})
    {
      DifferencesStore(idToPts, complementCache, (a, b), r);
      AddTrue(Complement, idToPts, complementCache, (a, b), r);
      complementCache := complementCache[(a, b) := r];
      complements := complements.Derived();
    }

    method RecordIntersection(a: PointsToID, b: PointsToID, r: PointsToID)
      requires Stored() && True(Intersection, idToPts, MinMax(a, b), r)
      modifies `intersectionCache, `intersections
      ensures Stored() && intersections == old(intersections).Derived()
      ensures intersectionCache == old(intersectionCache)[MinMax(a, b) := r]
      ensures old(Exact()) ==> Exact()
      ensures !Nested(idToPts, MinMax(a, b)) ==> (Exact() <==> old(Exact()))
      ensures var h, p, q := old(Past()), idToPts[a], idToPts[b];
              Past() == h.(meets := h.meets + {{p, q}}, spoiled := h.spoiled - {(p, q), (q, p)})
    {
      MeetsStore(idToPts, intersectionCache, a, b, r);
      LargerHeals(idToPts, ptsToId, intersectionCache, a, b, r);
      AddTrue(Intersection, idToPts, intersectionCache, MinMax(a, b), r);
      if !Nested(idToPts, MinMax(a, b)) {
        AddUnnested(idToPts, intersectionCache, MinMax(a, b), r);
      }
      intersectionCache := intersectionCache[MinMax(a, b) := r];
      intersections := intersections.Derived();
    }

    // Records lhs as the intersection of lhs with a part of it; the part would have been right.
    method RecordLhs(part: PointsToID, lhs: PointsToID)
      requires Stored() && lhs < |idToPts| && part < |idToPts| && {} < idToPts[part] <= idToPts[lhs]
      modifies `intersectionCache, `intersections
      ensures Stored() && intersections == old(intersections).Derived()
      ensures intersectionCache == old(intersectionCache)[MinMax(part, lhs) := lhs]
      ensures Exact() <==> old(Exact()) && part == lhs
      ensures part != lhs ==> Tainted(idToPts, intersectionCache, part, lhs)
      ensures var h, d, l := old(Past()), idToPts[part], idToPts[lhs];
              Past() == h.(meets := h.meets + {{d, l}}, spoiled := h.spoiled + if d != l then {(d, l)} else {})
    {
      RecordedLhs(idToPts, ptsToId, intersectionCache, part, lhs);
      IdsAreCanonical(idToPts, ptsToId, part, lhs);
      if part == lhs {
        AddUnnested(idToPts, intersectionCache, MinMax(part, lhs), lhs);
      } else {
        AddLarger(idToPts, intersectionCache, lhs, part);
      }
      intersectionCache := intersectionCache[MinMax(part, lhs) := lhs];
      intersections := intersections.Derived();
    }

    // ---- the operations ----

    method UnionPts(lhs: PointsToID, rhs: PointsToID) returns (result: PointsToID)
      requires Valid() && lhs < |idToPts| && rhs < |idToPts|
      requires CanIntern(idToPts[lhs] + idToPts[rhs])
      modifies this
      ensures Valid() && Grown(old(idToPts), idToPts)
      ensures result < |idToPts| && idToPts[result] == idToPts[lhs] + idToPts[rhs]
      ensures Past() == old(Past()) && (Exact() <==> old(Exact()))
      ensures complements == old(complements) && intersections == old(intersections)
      ensures old(unionCache).Keys <= unionCache.Keys
      ensures if lhs == EMPTY_ID || rhs == EMPTY_ID || lhs == rhs then Adds(old(unions), unions, 1, 0, 1, 0)
              else if MinMax(lhs, rhs) in old(unionCache) then Adds(old(unions), unions, 1, 0, 0, 1)
              else
                var d := (if lhs != result then 1 else 0) + (if rhs != result then 1 else 0);
                MinMax(lhs, rhs) in unionCache && Adds(old(unions), unions, 1 + d, 1, d, 0)
    {
      hide Interned, Agrees, NearlyAgrees;
      IdsAreCanonical(idToPts, ptsToId, lhs, rhs);
      unions := unions.(total := unions.total + 1);
      var operands := MinMax(lhs, rhs);
      if operands.0 == EMPTY_ID {
        unions := unions.(property := unions.property + 1);
        return operands.1;
      }
      if operands.0 == operands.1 {
        unions := unions.(property := unions.property + 1);
        return operands.0;
      }
      result := UnionLookup(lhs, rhs);
    }

    method UnionLookup(lhs: PointsToID, rhs: PointsToID) returns (result: PointsToID)
      requires Stored() && lhs < |idToPts| && rhs < |idToPts|
      requires CanIntern(idToPts[lhs] + idToPts[rhs])
      modifies `idToPts, `ptsToId, `idCounter, `unionCache, `unions
      ensures Stored() && Grown(old(idToPts), idToPts)
      ensures result < |idToPts| && idToPts[result] == idToPts[lhs] + idToPts[rhs]
      ensures old(unionCache).Keys <= unionCache.Keys
      ensures if MinMax(lhs, rhs) in old(unionCache) then Adds(old(unions), unions, 0, 0, 0, 1)
              else
                var d := (if lhs != result then 1 else 0) + (if rhs != result then 1 else 0);
                MinMax(lhs, rhs) in unionCache && Adds(old(unions), unions, d, 1, d, 0)
      ensures Past() == old(Past()) && (Exact() <==> old(Exact()))
    {
      hide Interned, Agrees, NearlyAgrees;
      var opPerformed, table;
      result, opPerformed, table := OpPts(lhs, rhs, Union, unionCache);
      if opPerformed {
        unionCache := table;
        unions := unions.(unique := unions.unique + 1);
        if lhs != result {
          RecordUnion(lhs, result, result);
        }
        if rhs != result {
          RecordUnion(rhs, result, result);
        }
      } else {
        unions := unions.(lookup := unions.lookup + 1);
      }
    }

    lemma PastIsProper()
      ensures Past().Proper()
    {
    }

    lemma UnspoiledIsExact()
      requires Stored()
      ensures Exact() <==> Past().spoiled == {}
    {
      ExactIffUnspoiled(idToPts, intersectionCache);
    }

    // The difference itself is right. The entry derived from it for the intersection table is wrong
    // when a newly computed difference is a nonempty proper part of lhs.
    method ComplementPts(lhs: PointsToID, rhs: PointsToID) returns (result: PointsToID)
      requires Valid() && lhs < |idToPts| && rhs < |idToPts|
      requires CanIntern(idToPts[lhs] - idToPts[rhs])
      modifies this
      ensures Valid() && Grown(old(idToPts), idToPts)
      ensures result < |idToPts| && idToPts[result] == idToPts[lhs] - idToPts[rhs]
      ensures Past() == AfterDifference(old(Past()), idToPts[lhs], idToPts[rhs])
      ensures Exact() <==>
              old(Exact()) &&
              !((idToPts[lhs], idToPts[rhs]) !in old(Past()).differences &&
                {} < idToPts[lhs] - idToPts[rhs] < idToPts[lhs])
      ensures unions == old(unions) && old(complementCache).Keys <= complementCache.Keys
      ensures if lhs == rhs || lhs == EMPTY_ID || rhs == EMPTY_ID then
                Adds(old(complements), complements, 1, 0, 1, 0) && intersections == old(intersections)
              else if (lhs, rhs) in old(complementCache) then
                Adds(old(complements), complements, 1, 0, 0, 1) && intersections == old(intersections)
              else
                var d := if result != EMPTY_ID then 1 else 0;
                && (lhs, rhs) in complementCache && Adds(old(complements), complements, 1 + d, 1, d, 0)
                && Adds(old(intersections), intersections, 2 * d, 0, 2 * d, 0)
    {
      hide Interned, Agrees, NearlyAgrees, Remembered;
      IdsAreCanonical(idToPts, ptsToId, lhs, rhs);
      IdsAreCanonical(idToPts, ptsToId, rhs, lhs);
      DifferenceSpoils(Past(), idToPts[lhs], idToPts[rhs]);
      UnspoiledIsExact();
      complements := complements.(total := complements.total + 1);
      if lhs == rhs {
        complements := complements.(property := complements.property + 1);
        return EMPTY_ID;
      }
      if rhs == EMPTY_ID {
        complements := complements.(property := complements.property + 1);
        return lhs;
      }
      if lhs == EMPTY_ID {
        complements := complements.(property := complements.property + 1);
        return EMPTY_ID;
      }
      hide AfterDifference;
      result := ComplementLookup(lhs, rhs);
      UnspoiledIsExact();
    }

    // What follows from a computed nonempty difference, with the part taken for the whole.
    method RecordPart(lhs: PointsToID, rhs: PointsToID, result: PointsToID)
      requires Stored() && lhs < |idToPts| && rhs < |idToPts| && result < |idToPts| && result != EMPTY_ID
      requires idToPts[result] == idToPts[lhs] - idToPts[rhs]
      modifies `complementCache, `complements, `intersectionCache, `intersections
      ensures Stored()
      ensures var h, d, l, r := old(Past()), idToPts[result], idToPts[lhs], idToPts[rhs];
              Past() == History(h.differences + {(d, r)}, h.meets + {{d, r}, {d, l}},
                                h.spoiled + if d != l then {(d, l)} else {})
      ensures intersections == old(intersections).Derived().Derived() && complements == old(complements).Derived()
      ensures intersectionCache ==
              old(intersectionCache)[MinMax(result, rhs) := EMPTY_ID][MinMax(result, lhs) := lhs]
      ensures complementCache == old(complementCache)[(result, rhs) := result]
    {
      hide Interned, Agrees, NearlyAgrees, Remembered;
      ghost var h := Past();
      IdsAreCanonical(idToPts, ptsToId, result, lhs);
      DisjointUnspoiled(idToPts, complementCache, intersectionCache, idToPts[result], idToPts[rhs]);
      RecordIntersection(result, rhs, EMPTY_ID);
      RecordLhs(result, lhs);
      RecordComplement(result, rhs, result);
    }

    method ComplementLookup(lhs: PointsToID, rhs: PointsToID) returns (result: PointsToID)
      requires Stored() && lhs < |idToPts| && rhs < |idToPts| && lhs != rhs && lhs != EMPTY_ID && rhs != EMPTY_ID
      requires CanIntern(idToPts[lhs] - idToPts[rhs])
      modifies `idToPts, `ptsToId, `idCounter, `complementCache, `complements, `intersectionCache, `intersections
      ensures Stored() && Grown(old(idToPts), idToPts)
      ensures result < |idToPts| && idToPts[result] == idToPts[lhs] - idToPts[rhs]
      ensures old(complementCache).Keys <= complementCache.Keys
      ensures if (lhs, rhs) in old(complementCache) then
                Adds(old(complements), complements, 0, 0, 0, 1) && intersections == old(intersections)
              else
                var d := if result != EMPTY_ID then 1 else 0;
                && (lhs, rhs) in complementCache && Adds(old(complements), complements, d, 1, d, 0)
                && Adds(old(intersections), intersections, 2 * d, 0, 2 * d, 0)
      ensures Past() == AfterDifference(old(Past()), idToPts[lhs], idToPts[rhs])
    {
      hide Interned, Agrees, NearlyAgrees, Differences, Meets, Larger;
      IdsAreCanonical(idToPts, ptsToId, lhs, rhs);
      IdsAreCanonical(idToPts, ptsToId, rhs, lhs);
      MemoisedIffRemembered(idToPts, ptsToId, complementCache, lhs, rhs);
      var opPerformed, table;
      result, opPerformed, table := OpPts(lhs, rhs, Complement, complementCache);
      if opPerformed {
        DifferencesStore(idToPts, complementCache, (lhs, rhs), result);
        complementCache := table;
        complements := complements.(unique := complements.unique + 1);
        IdsAreCanonical(idToPts, ptsToId, result, lhs);
        if result != EMPTY_ID {
          RecordPart(lhs, rhs, result);
        }
      } else {
        complements := complements.(lookup := complements.lookup + 1);
      }
    }

    // The result is right exactly when no earlier call has spoiled the pair.
    method IntersectPts(lhs: PointsToID, rhs: PointsToID) returns (result: PointsToID)
      requires Valid() && lhs < |idToPts| && rhs < |idToPts|
      requires CanIntern(idToPts[lhs] * idToPts[rhs])
      modifies this
      ensures Valid() && Grown(old(idToPts), idToPts) && result < |idToPts|
      ensures idToPts[result] == idToPts[lhs] * idToPts[rhs] <==> !old(Past().Spoils(idToPts[lhs], idToPts[rhs]))
      ensures old(Past().Spoils(idToPts[lhs], idToPts[rhs])) ==> idToPts[result] == idToPts[lhs] + idToPts[rhs]
      ensures Past() == AfterMeet(old(Past()), idToPts[lhs], idToPts[rhs])
      ensures old(Exact()) ==> Exact()
      ensures complements == old(complements) && old(intersectionCache).Keys <= intersectionCache.Keys
      ensures if lhs == rhs || lhs == EMPTY_ID || rhs == EMPTY_ID then
                Adds(old(intersections), intersections, 1, 0, 1, 0) && unions == old(unions)
              else if MinMax(lhs, rhs) in old(intersectionCache) then
                Adds(old(intersections), intersections, 1, 0, 0, 1) && unions == old(unions)
              else
                var d := if result == EMPTY_ID then 0
                         else (if result != rhs then 1 else 0) + (if result != lhs then 1 else 0);
                && MinMax(lhs, rhs) in intersectionCache && Adds(old(unions), unions, d, 0, d, 0)
                && Adds(old(intersections), intersections, 1 + d, 1, d, 0)
    {
      hide Interned, Agrees, NearlyAgrees;
      IdsAreCanonical(idToPts, ptsToId, lhs, rhs);
      IdsAreCanonical(idToPts, ptsToId, rhs, lhs);
      if lhs == rhs || lhs == EMPTY_ID || rhs == EMPTY_ID {
        PropertyUnspoiled(idToPts, intersectionCache, idToPts[lhs], idToPts[rhs]);
      }
      intersections := intersections.(total := intersections.total + 1);
      var operands := MinMax(lhs, rhs);
      if operands.0 == EMPTY_ID {
        intersections := intersections.(property := intersections.property + 1);
        return EMPTY_ID;
      }
      if operands.0 == operands.1 {
        intersections := intersections.(property := intersections.property + 1);
        return operands.0;
      }
      result := IntersectLookup(lhs, rhs);
    }

    // What follows from a computed nonempty intersection.
    method RecordMeet(lhs: PointsToID, rhs: PointsToID, result: PointsToID)
      requires Stored() && lhs < |idToPts| && rhs < |idToPts| && result < |idToPts| && result != EMPTY_ID
      requires idToPts[result] == idToPts[lhs] * idToPts[rhs]
      modifies `unionCache, `unions, `intersectionCache, `intersections
      ensures Stored() && (old(Exact()) ==> Exact())
      ensures var d := (if result != rhs then 1 else 0) + (if result != lhs then 1 else 0);
              && Adds(old(intersections), intersections, d, 0, d, 0) && Adds(old(unions), unions, d, 0, d, 0)
      ensures old(intersectionCache).Keys <= intersectionCache.Keys && old(unionCache).Keys <= unionCache.Keys
      ensures result != rhs ==> MinMax(result, rhs) in intersectionCache && MinMax(rhs, result) in unionCache
      ensures result != lhs ==> MinMax(result, lhs) in intersectionCache && MinMax(lhs, result) in unionCache
      ensures var h, i, l, r := old(Past()), idToPts[result], idToPts[lhs], idToPts[rhs];
              Past() == h.(meets := h.meets + (if i != r then {{i, r}} else {}) + (if i != l then {{i, l}} else {}),
                           spoiled := h.spoiled - {(i, r), (i, l)})
    {
      hide Interned, Agrees, NearlyAgrees, Remembered;
      IdsAreCanonical(idToPts, ptsToId, result, rhs);
      IdsAreCanonical(idToPts, ptsToId, result, lhs);
      MeetUnspoiled(idToPts, complementCache, intersectionCache, idToPts[result], idToPts[lhs]);
      MeetUnspoiled(idToPts, complementCache, intersectionCache, idToPts[result], idToPts[rhs]);
      if result != rhs {
        RecordIntersection(result, rhs, result);
      }
      if result != lhs {
        RecordIntersection(result, lhs, result);
      }
      if result != EMPTY_ID && result != lhs {
        RecordUnion(lhs, result, lhs);
      }
      if result != EMPTY_ID && result != rhs {
        RecordUnion(rhs, result, rhs);
      }
    }

    method IntersectLookup(lhs: PointsToID, rhs: PointsToID) returns (result: PointsToID)
      requires Stored() && lhs < |idToPts| && rhs < |idToPts| && lhs != rhs && lhs != EMPTY_ID && rhs != EMPTY_ID
      requires CanIntern(idToPts[lhs] * idToPts[rhs])
      modifies `idToPts, `ptsToId, `idCounter, `unionCache, `unions, `intersectionCache, `intersections
      ensures Stored() && Grown(old(idToPts), idToPts) && result < |idToPts|
      ensures idToPts[result] == idToPts[lhs] * idToPts[rhs] <==> !old(Past().Spoils(idToPts[lhs], idToPts[rhs]))
      ensures old(Past().Spoils(idToPts[lhs], idToPts[rhs])) ==> idToPts[result] == idToPts[lhs] + idToPts[rhs]
      ensures Past() == AfterMeet(old(Past()), idToPts[lhs], idToPts[rhs])
      ensures old(Exact()) ==> Exact()
      ensures old(intersectionCache).Keys <= intersectionCache.Keys
      ensures if MinMax(lhs, rhs) in old(intersectionCache) then
                Adds(old(intersections), intersections, 0, 0, 0, 1) && unions == old(unions)
              else
                var d := if result == EMPTY_ID then 0
                         else (if result != rhs then 1 else 0) + (if result != lhs then 1 else 0);
                && MinMax(lhs, rhs) in intersectionCache && Adds(old(unions), unions, d, 0, d, 0)
                && Adds(old(intersections), intersections, d, 1, d, 0)
    {
      hide Interned, Agrees, NearlyAgrees, Differences, Meets, Larger, Tainted;
      ghost var ids := idToPts;
      IdsAreCanonical(idToPts, ptsToId, lhs, rhs);
      IdsAreCanonical(idToPts, ptsToId, rhs, lhs);
      MemoisedIffRemembered(idToPts, ptsToId, intersectionCache, lhs, rhs);
      TaintedIffSpoiled(idToPts, ptsToId, intersectionCache, lhs, rhs);
      var opPerformed, table;
      result, opPerformed, table := OpPts(lhs, rhs, Intersection, intersectionCache);
      if opPerformed {
        UnmemoisedUntainted(ids, intersectionCache, lhs, rhs);
        MeetMemoised(idToPts, ptsToId, intersectionCache, lhs, rhs, result);
        intersectionCache := table;
        intersections := intersections.(unique := intersections.unique + 1);
        IdsAreCanonical(idToPts, ptsToId, result, lhs);
        if result != EMPTY_ID {
          RecordMeet(lhs, rhs, result);
        }
      } else {
        LookedUp(ids, intersectionCache, lhs, rhs);
        intersections := intersections.(lookup := intersections.lookup + 1);
      }
    }
  }

  // Disjoint sets are not nested.
  lemma DisjointUnspoiled(ids: seq<PointsTo>, complements: OpCache, intersections: OpCache, d: PointsTo, r: PointsTo)
    requires d != {} && d * r == {}
    ensures !Remembered(ids, complements, intersections).Spoils(d, r)
  {
    assert (d < r ==> d * r == d) && (r < d ==> d * r == r);
    if (d, r) in Larger(ids, intersections) {
      LargerIsProper(ids, intersections, (d, r));
    }
    if (r, d) in Larger(ids, intersections) {
      LargerIsProper(ids, intersections, (r, d));
    }
  }

  // The whole comes second.
  lemma MeetUnspoiled(ids: seq<PointsTo>, complements: OpCache, intersections: OpCache, i: PointsTo, l: PointsTo)
    requires i <= l
    ensures (l, i) !in Remembered(ids, complements, intersections).spoiled
    ensures (l, l) !in Remembered(ids, complements, intersections).spoiled
  {
  }

  // Pairs decided by a law are never spoiled.
  lemma PropertyUnspoiled(ids: seq<PointsTo>, table: OpCache, a: PointsTo, b: PointsTo)
    requires a == b || a == {} || b == {}
    ensures (a, b) !in Larger(ids, table) && (b, a) !in Larger(ids, table)
  {
  }

  lemma UnmemoisedUntainted(ids: seq<PointsTo>, table: OpCache, a: PointsToID, b: PointsToID)
    requires MinMax(a, b) !in table
    ensures !Tainted(ids, table, a, b)
  {
  }

  // Memoising a computed intersection changes nothing that is spoiled.
  lemma MeetMemoised(ids: seq<PointsTo>, toId: map<PointsTo, PointsToID>, table: OpCache,
                     a: PointsToID, b: PointsToID, r: PointsToID)
    requires Interned(ids, toId) && Ordered(table) && True(Intersection, ids, MinMax(a, b), r)
    requires MinMax(a, b) !in table
    ensures Ordered(table[MinMax(a, b) := r])
    ensures Meets(ids, table[MinMax(a, b) := r]) == Meets(ids, table) + {{ids[a], ids[b]}}
    ensures Larger(ids, table[MinMax(a, b) := r]) == Larger(ids, table)
  {
    MeetsStore(ids, table, a, b, r);
    LargerHeals(ids, toId, table, a, b, r);
    TaintedIffSpoiled(ids, toId, table, a, b);
  }

  // A memoised intersection is either the intersection or, if the pair is tainted, the union.
  lemma LookedUp(ids: seq<PointsTo>, table: OpCache, lhs: PointsToID, rhs: PointsToID)
    requires NearlyAgrees(ids, table) && MinMax(lhs, rhs) in table && lhs < |ids| && rhs < |ids|
    ensures table[MinMax(lhs, rhs)] < |ids|
    ensures ids[table[MinMax(lhs, rhs)]] == ids[lhs] * ids[rhs] <==> !Tainted(ids, table, lhs, rhs)
    ensures Tainted(ids, table, lhs, rhs) ==> ids[table[MinMax(lhs, rhs)]] == ids[lhs] + ids[rhs]
  {
    var k := MinMax(lhs, rhs);
    if TakesLarger(ids, k, table[k]) {
      TaintedIsUntrue(ids, k, table[k]);
      assert ids[k.0] * ids[k.1] == ids[lhs] * ids[rhs];
      assert ids[k.0] + ids[k.1] == ids[lhs] + ids[rhs];
    } else {
      assert True(Intersection, ids, k, table[k]);
    }
  }

  // The wrong entry is reachable from a fresh cache in four calls: interning {1, 2} and {1},
  // subtracting the second from the first, and intersecting the difference with {1, 2} gives {1, 2}.
  method LostIntersection() returns (meant: PointsTo, got: PointsTo)
    ensures meant == {1, 2} * ({1, 2} - {1}) && got == {1, 2} && got != meant
  {
    hide Interned, Agrees, NearlyAgrees, Remembered;
    var cache := new Cache();
    assert cache.idCounter == 1;
    var both := cache.EmplacePts({1, 2});
    var one := cache.EmplacePts({1});
    var two := cache.ComplementPts(both, one);
    assert {1, 2} - {1} == {2} && 1 !in {2};
    assert cache.Past().Spoils({2}, {1, 2}) by {
      assert ({2}, {1, 2}) in AfterDifference(NO_HISTORY, {1, 2}, {1}).spoiled;
    }
    assert {2} * {1, 2} == {2} && {2} + {1, 2} == {1, 2};
    IdsAreCanonical(cache.idToPts, cache.ptsToId, two, two);
    var met := cache.IntersectPts(two, both);
    meant, got := {1, 2} * ({1, 2} - {1}), cache.idToPts[met];
  }
}
