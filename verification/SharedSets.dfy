// Why sharing sets by variable loses results: findPT on programs without loads and stores, as a
// function of the order in which edges are served, and two programs on which it stops too early.
module SharedSets {
  import opened ValueFlowGraph
  import opened LeastSolution
  import opened SolverState

  datatype Option<T> = None | Some(value: T)

  datatype Program = Program(
    net: Graph,
    ins: map<NodeId, seq<NodeId>>,    // the sources and targets of the direct edges,
    outs: map<NodeId, seq<NodeId>>)   // in the order in which they are served

  // The fields of the solver that matter here, by node instead of item.
  datatype Memo = Memo(visited: set<NodeId>, registered: set<NodeId>, pts: map<VarId, set<VarId>>)

  predicate Simple(k: Kind) {
    k.Addr? || k.Copy? || k.Gep?
  }

  // A well-formed program without loads and stores that keeps sets by variable.
  ghost predicate Runnable(p: Program) {
    && WellFormed(p.net) && p.net.byVariable
    && p.ins.Keys == p.net.kind.Keys && p.outs.Keys == p.net.kind.Keys && p.net.lhs.Keys == p.net.kind.Keys
    && (forall n :: n in p.net.kind ==> Simple(p.net.kind[n]) && p.net.lhs[n] in p.net.vars)
    && (forall e :: e in p.net.edges ==> e.Direct?)
    && (forall m, n :: n in p.ins ==> (m in p.ins[n] <==> Direct(m, n) in p.net.edges))
    && (forall m, n :: m in p.outs ==> (n in p.outs[m] <==> Direct(m, n) in p.net.edges))
  }

  function ItemAt(p: Program, n: NodeId): Item {
    Item(if n in p.net.lhs then p.net.lhs[n] else 0, n)
  }

  function Cached(p: Program, m: Memo, n: NodeId): set<VarId> {
    if n in p.net.lhs && p.net.lhs[n] in m.pts then m.pts[p.net.lhs[n]] else {}
  }

  function Evaluate(p: Program, n: NodeId, pts: set<VarId>): set<VarId> {
    if n !in p.net.kind then {}
    else match p.net.kind[n]
         case Addr(o) => {o}
         case Gep => set o | o in pts && (n, o) in p.net.field :: p.net.field[(n, o)]
         case _ => pts
  }

  // ---- findPT, with a bound on the depth of its recursion ----

  function Find(p: Program, m: Memo, n: NodeId, depth: nat): Option<Memo>
    decreases depth, 0, 0
  {
    if n in m.visited then Some(m)
    else if depth == 0 then None
    else
      match Collect(p, Entered(m, n), if n in p.ins then p.ins[n] else [], {}, depth - 1)
      case None => None
      case Some((t, pts)) => Update(p, t, n, Evaluate(p, n, pts), depth - 1)
  }

  function Entered(m: Memo, n: NodeId): Memo {
    Memo(m.visited + {n}, m.registered + {n}, m.pts)
  }

  function Collect(p: Program, m: Memo, sources: seq<NodeId>, pts: set<VarId>, depth: nat): Option<(Memo, set<VarId>)>
    decreases depth, 1, |sources|
  {
    if sources == [] then Some((m, pts))
    else
      match Find(p, m, sources[0], depth)
      case None => None
      case Some(t) => Collect(p, t, sources[1..], pts + Cached(p, t, sources[0]), depth)
  }

  function Grown(p: Program, m: Memo, n: NodeId, pts: set<VarId>): Memo
    requires n in p.net.lhs
  {
    m.(pts := m.pts[p.net.lhs[n] := Cached(p, m, n) + pts])
  }

  function Update(p: Program, m: Memo, n: NodeId, pts: set<VarId>, depth: nat): Option<Memo>
    decreases depth, 2, 0
  {
    if pts <= Cached(p, m, n) || n !in p.net.lhs then Some(m)
    else ReCompute(p, Grown(p, m, n, pts), if n in p.outs then p.outs[n] else [], depth)
  }

  function ReCompute(p: Program, m: Memo, targets: seq<NodeId>, depth: nat): Option<Memo>
    decreases depth, 1, |targets|
  {
    if targets == [] then Some(m)
    else if targets[0] !in m.registered then ReCompute(p, m, targets[1..], depth)
    else
      match Find(p, m.(visited := m.visited - {targets[0]}), targets[0], depth)
      case None => None
      case Some(t) => ReCompute(p, t, targets[1..], depth)
  }

  // ---- what evaluating and storing have to do with the solver ----

  function Union(p: Program, m: Memo, sources: seq<NodeId>): set<VarId> {
    if sources == [] then {} else Cached(p, m, sources[0]) + Union(p, m, sources[1..])
  }

  lemma UnionHas(p: Program, m: Memo, sources: seq<NodeId>, o: VarId)
    ensures o in Union(p, m, sources) <==> exists n :: n in sources && o in Cached(p, m, n)
  {
    if sources != [] {
      UnionHas(p, m, sources[1..], o);
      assert sources == [sources[0]] + sources[1..];
    }
  }

  lemma UnionOne(p: Program, m: Memo, x: NodeId)
    ensures Union(p, m, [x]) == Cached(p, m, x)
  {
    assert [x][1..] == [];
    assert Cached(p, m, x) + {} == Cached(p, m, x);
  }

  lemma UnionTwo(p: Program, m: Memo, x: NodeId, y: NodeId)
    ensures Union(p, m, [x, y]) == Cached(p, m, x) + Cached(p, m, y)
  {
    assert [x, y][1..] == [y];
    UnionOne(p, m, y);
  }

  lemma CachedIsShared(p: Program, m: Memo, n: NodeId)
    requires Runnable(p) && n in p.net.kind
    ensures ItemAt(p, n) in p.net.Items && TopLevelItem(p.net, ItemAt(p, n))
    ensures Cached(p, m, n) == At(Spread(p.net, m.pts), ItemAt(p, n))
  {
  }

  // Evaluating a node on what its sources hold now is evaluating the right-hand side of its item.
  lemma EvaluateIsTransfer(p: Program, m: Memo, n: NodeId)
    requires Runnable(p) && n in p.net.kind
    ensures Evaluate(p, n, Union(p, m, p.ins[n])) == Transfer(p.net, Spread(p.net, m.pts), ItemAt(p, n))
  {
    var c := Spread(p.net, m.pts);
    forall o ensures o in Union(p, m, p.ins[n]) <==> o in Gather(c, DirectReads(p.net, n)) {
      UnionHas(p, m, p.ins[n], o);
      if o in Union(p, m, p.ins[n]) {
        var s :| s in p.ins[n] && o in Cached(p, m, s);
        CachedIsShared(p, m, s);
        assert DirectItem(p.net, Direct(s, n)) in DirectReads(p.net, n);
      }
      if o in Gather(c, DirectReads(p.net, n)) {
        var x :| x in DirectReads(p.net, n) && o in At(c, x);
        CachedIsShared(p, m, x.loc);
        assert x.loc in p.ins[n];
      }
    }
    assert Simple(p.net.kind[n]);
    assert Union(p, m, p.ins[n]) == Gather(c, DirectReads(p.net, n));
  }

  // Storing a set that grows is storing it for all items that share it.
  lemma GrownIsStored(p: Program, m: Memo, n: NodeId, pts: set<VarId>)
    requires Runnable(p) && n in p.net.kind && !(pts <= Cached(p, m, n))
    ensures Spread(p.net, Grown(p, m, n, pts).pts) ==
            Stored(p.net, Spread(p.net, m.pts), ItemAt(p, n), At(Spread(p.net, m.pts), ItemAt(p, n)) + pts)
  {
    CachedIsShared(p, m, n);
    StoreByVariable(p.net, m.pts, map[], ItemAt(p, n), Cached(p, m, n) + pts);
    assert forall c: Cache :: c + map[] == c;
  }

  // ---- one step at a time ----

  lemma {:induction false} FindVisited(p: Program, m: Memo, depth: nat)
    ensures forall n :: n in m.visited ==> Find(p, m, n, depth) == Some(m)
    ensures ReCompute(p, m, [], depth) == Some(m)
  {
  }

  lemma {:induction false} CollectOne(p: Program, m: Memo, x: NodeId, depth: nat, t: Memo)
    requires Find(p, m, x, depth) == Some(t)
    ensures Collect(p, m, [x], {}, depth) == Some((t, Cached(p, t, x)))
  {
    assert [x][1..] == [];
    assert {} + Cached(p, t, x) == Cached(p, t, x);
  }

  lemma {:induction false} CollectTwo(p: Program, m: Memo, x: NodeId, y: NodeId, depth: nat, t: Memo, u: Memo)
    requires Find(p, m, x, depth) == Some(t) && Find(p, t, y, depth) == Some(u)
    ensures Collect(p, m, [x, y], {}, depth) == Some((u, Cached(p, t, x) + Cached(p, u, y)))
  {
    assert [x, y][1..] == [y] && [y][1..] == [];
    assert {} + Cached(p, t, x) == Cached(p, t, x);
    assert Collect(p, u, [y][1..], Cached(p, t, x) + Cached(p, u, y), depth) ==
           Some((u, Cached(p, t, x) + Cached(p, u, y)));
  }

  // What one node contributes when its set does not grow, and when it does.
  lemma {:induction false} Unchanged(p: Program, m: Memo, n: NodeId, depth: nat, t: Memo, pts: set<VarId>)
    requires n !in m.visited && depth > 0 && n in p.ins && n in p.net.lhs
    requires Collect(p, Entered(m, n), p.ins[n], {}, depth - 1) == Some((t, pts))
    requires Evaluate(p, n, pts) <= Cached(p, t, n)
    ensures Find(p, m, n, depth) == Some(t)
  {
  }

  lemma {:induction false} Changed(p: Program, m: Memo, n: NodeId, depth: nat, t: Memo, pts: set<VarId>)
    requires n !in m.visited && depth > 0 && n in p.ins && n in p.outs && n in p.net.lhs
    requires Collect(p, Entered(m, n), p.ins[n], {}, depth - 1) == Some((t, pts))
    requires !(Evaluate(p, n, pts) <= Cached(p, t, n))
    ensures Find(p, m, n, depth) == ReCompute(p, Grown(p, t, n, Evaluate(p, n, pts)), p.outs[n], depth - 1)
  {
  }

  lemma {:induction false} CollectVisited(p: Program, m: Memo, sources: seq<NodeId>, pts: set<VarId>, depth: nat)
    requires forall x :: x in sources ==> x in m.visited
    ensures Collect(p, m, sources, pts, depth) == Some((m, pts + Union(p, m, sources)))
    decreases |sources|
  {
    if sources == [] {
      assert pts + {} == pts;
    } else {
      CollectVisited(p, m, sources[1..], pts + Cached(p, m, sources[0]), depth);
      assert pts + Cached(p, m, sources[0]) + Union(p, m, sources[1..]) == pts + Union(p, m, sources);
    }
  }

  // A node with visited sources is evaluated on what they hold.
  lemma {:induction false} FindDirectly(p: Program, m: Memo, n: NodeId, depth: nat, t: Memo, pts: set<VarId>)
    requires n !in m.visited && depth > 0 && n in p.ins && n in p.outs && n in p.net.lhs && t == Entered(m, n)
    requires forall x :: x in p.ins[n] ==> x in t.visited
    requires pts == Evaluate(p, n, Union(p, t, p.ins[n]))
    ensures Find(p, m, n, depth) ==
            if pts <= Cached(p, t, n) then Some(t) else ReCompute(p, Grown(p, t, n, pts), p.outs[n], depth - 1)
  {
    CollectVisited(p, t, p.ins[n], {}, depth - 1);
    assert {} + Union(p, t, p.ins[n]) == Union(p, t, p.ins[n]);
  }

  lemma {:induction false} ReComputeOne(p: Program, m: Memo, x: NodeId, depth: nat)
    ensures ReCompute(p, m, [x], depth) ==
            if x in m.registered then Find(p, m.(visited := m.visited - {x}), x, depth) else Some(m)
  {
    assert [x][1..] == [];
  }

  lemma {:induction false} ReComputeTwo(p: Program, m: Memo, x: NodeId, y: NodeId, depth: nat, t: Memo)
    requires (if x in m.registered then Find(p, m.(visited := m.visited - {x}), x, depth) else Some(m)) == Some(t)
    ensures ReCompute(p, m, [x, y], depth) == ReCompute(p, t, [y], depth)
  {
    assert [x, y][1..] == [y];
  }

  // A node that does not define its pointer copies it from the definition.
  predicate CopiesDefinition(p: Program, n: NodeId) {
    && n in p.net.kind && n in p.net.lhs && n in p.ins
    && p.net.lhs[n] in p.net.def
    && var d := p.net.def[p.net.lhs[n]];
       && d in p.net.kind && d in p.net.lhs && p.net.lhs[d] == p.net.lhs[n]
       && (d != n ==> p.net.kind[n].Copy? && p.ins[n] == [d])
  }

  lemma CopiesRelay(p: Program)
    requires Runnable(p) && forall n :: n in p.net.kind ==> CopiesDefinition(p, n)
    ensures Relays(p.net)
  {
    forall i | i in p.net.Items && TopLevelItem(p.net, i)
      ensures DefItem(p.net, i.cur) in p.net.Items && TopLevelItem(p.net, DefItem(p.net, i.cur))
      ensures p.net.def[i.cur] != i.loc ==>
                p.net.kind[i.loc].Copy? && DirectReads(p.net, i.loc) == {DefItem(p.net, i.cur)}
    {
      assert CopiesDefinition(p, i.loc) && Simple(p.net.kind[p.net.def[i.cur]]);
      if p.net.def[i.cur] != i.loc {
        OneSource(p, p.net.def[i.cur], i.loc);
      }
    }
  }

  lemma OneSource(p: Program, m: NodeId, n: NodeId)
    requires Runnable(p) && n in p.net.kind && p.ins[n] == [m] && m in p.net.lhs
    ensures DirectReads(p.net, n) == {Item(p.net.lhs[m], m)}
  {
    assert m in p.ins[n] && Direct(m, n) in p.net.edges;
    assert DirectItem(p.net, Direct(m, n)) == Item(p.net.lhs[m], m);
    forall e | e in p.net.edges && e.dst == n ensures e == Direct(m, n) {
      assert e.src in p.ins[n];
    }
  }

  // ---- a recursive function ----

  // f(fp) { v = &fp->f; f(v); }  u = &b; f(u);  with pointers u, fp, v = 0, 1, 2 and objects b, c = 10, 11,
  // c being the field f of b and of itself. Nodes 1 and 4 are the arguments u and v of the two calls.
  const CALLS_KINDS: map<NodeId, Kind> := map[0 := Addr(10), 1 := Copy, 2 := Copy, 3 := Gep, 4 := Copy]

  const CALLS_ALL: set<NodeId> := {0, 1, 2, 3, 4}

  const CALLS_EDGES: set<Edge> := {Direct(0, 1), Direct(1, 2), Direct(4, 2), Direct(2, 3), Direct(3, 4)}

  const CALLS: Graph := Graph(CALLS_KINDS, CALLS_EDGES, map[0 := 0, 1 := 0, 2 := 1, 3 := 2, 4 := 2],
                              map[0 := 0, 1 := 2, 2 := 3], {0, 1, 2, 10, 11}, {10, 11},
                              map[(3, 10) := 11, (3, 11) := 11], {}, {},
                              map[0 := {}, 1 := {}, 2 := {}, 10 := {}, 11 := {}], true)

  // The two arguments of f may be served in either order.
  function CallsProgram(order: seq<NodeId>): Program {
    Program(CALLS, map[0 := [], 1 := [0], 2 := order, 3 := [2], 4 := [3]],
            map[0 := [1], 1 := [2], 2 := [3], 3 := [4], 4 := [2]])
  }

  lemma CallsEdges()
    ensures forall e :: e in CALLS_EDGES ==> WellFormedEdge(CALLS, e) && e.Direct?
  {
    forall e | e in CALLS_EDGES ensures WellFormedEdge(CALLS, e) && e.Direct? {
      assert e.src in CALLS_KINDS && e.dst in CALLS_KINDS;
    }
  }

  lemma CallsNodes()
    ensures CALLS_KINDS.Keys == CALLS.lhs.Keys == CALLS_ALL
    ensures forall n :: n in CALLS_ALL ==>
              Simple(CALLS_KINDS[n]) && CALLS.lhs[n] in CALLS.vars && WellFormedNode(CALLS, n)
  {
    assert CALLS.kind == CALLS_KINDS && CALLS.objs == {10, 11};
    forall n | n in CALLS_ALL ensures WellFormedNode(CALLS, n) {
      if CALLS_KINDS[n].Gep? {
        assert (n, 10) in CALLS.field && (n, 11) in CALLS.field;
      }
    }
    hide WellFormedNode;
  }

  lemma CallsIsWellFormed()
    ensures WellFormed(CALLS)
  {
    CallsEdges();
    CallsNodes();
    hide WellFormedEdge, WellFormedNode, CALLS_EDGES, CALLS_KINDS;
  }

  lemma CallsOrdered(order: seq<NodeId>)
    requires order == [1, 4] || order == [4, 1]
    ensures CallsProgram(order).ins.Keys == CallsProgram(order).outs.Keys == CALLS_ALL
    ensures forall m, n :: n in CallsProgram(order).ins ==>
                             (m in CallsProgram(order).ins[n] <==> Direct(m, n) in CALLS_EDGES)
    ensures forall m, n :: m in CallsProgram(order).outs ==>
                             (n in CallsProgram(order).outs[m] <==> Direct(m, n) in CALLS_EDGES)
  {
    hide CALLS;
    var p := CallsProgram(order);
    forall m, n | n in p.ins ensures m in p.ins[n] <==> Direct(m, n) in CALLS_EDGES {
      assert n in {0, 1, 2, 3, 4};
      assert n != 2 ==> |p.ins[n]| <= 1;
    }
  }

  lemma CallsRunnable(order: seq<NodeId>)
    requires order == [1, 4] || order == [4, 1]
    ensures Runnable(CallsProgram(order))
  {
    hide WellFormed, WellFormedEdge, WellFormedNode, CALLS_EDGES, CALLS_KINDS, CALLS_ALL;
    var p := CallsProgram(order);
    assert p.net == CALLS && CALLS.kind == CALLS_KINDS && CALLS.edges == CALLS_EDGES && CALLS.byVariable;
    hide CallsProgram, CALLS;
    CallsIsWellFormed();
    CallsEdges();
    CallsNodes();
    CallsOrdered(order);
  }

  // The calls relay their arguments, so sharing does not change what the right answer is ...
  lemma CallsRelays(order: seq<NodeId>)
    requires Runnable(CallsProgram(order))
    ensures Relays(CALLS)
  {
    hide Runnable, Relays;
    forall n | n in CALLS.kind ensures CopiesDefinition(CallsProgram(order), n) {
      assert n in {0, 1, 2, 3, 4};
    }
    CopiesRelay(CallsProgram(order));
  }

  // ... and fp may point to c in it.
  lemma CallsLeast()
    requires WellFormed(CALLS)
    ensures {10, 11} <= At(Least(CALLS, {}), Item(1, 2))
  {
    hide Least, IsSolution, WellFormed;
    var L := Least(CALLS, {});
    assert CALLS.kind == CALLS_KINDS && CALLS.edges == CALLS_EDGES;
    assert {Item(0, 0), Item(0, 1), Item(1, 2), Item(2, 3), Item(2, 4)} <= CALLS.Items;
    LeastIsSolution(CALLS, {});
    AddrHolds(CALLS, L, Item(0, 0));
    CopyHolds(CALLS, L, Item(0, 1), 0, 10);
    CopyHolds(CALLS, L, Item(1, 2), 1, 10);
    GepHolds(CALLS, L, Item(2, 3), 2, 10);
    CopyHolds(CALLS, L, Item(2, 4), 3, 11);
    CopyHolds(CALLS, L, Item(1, 2), 4, 11);
  }

  lemma {:induction false} CallsFindArgument(order: seq<NodeId>, m: Memo, depth: nat)
    requires {0, 1} !! m.visited && 0 !in m.registered && 0 !in m.pts && depth >= 3
    ensures Find(CallsProgram(order), m, 1, depth) ==
            Some(Memo(m.visited + {0, 1}, m.registered + {0, 1}, m.pts[0 := {10}]))
  {
    hide Find, Collect, Update, ReCompute, WellFormed;
    var p := CallsProgram(order);
    var t := Memo(m.visited + {0, 1}, m.registered + {0, 1}, m.pts[0 := {10}]);
    var inner := Entered(Entered(m, 1), 0);
    assert inner.visited == t.visited && inner.registered == t.registered;
    assert Find(p, Entered(m, 1), 0, depth - 1) == Some(t) by {
      FindDirectly(p, Entered(m, 1), 0, depth - 1, inner, {10});
      assert Cached(p, inner, 0) + {10} == {10};
      assert Grown(p, inner, 0, {10}) == t;
      var again := t.(visited := t.visited - {1});
      assert Entered(again, 1) == t && Union(p, t, [0]) == {10};
      ReComputeOne(p, t, 1, depth - 2);
      FindDirectly(p, again, 1, depth - 2, t, {10});
    }
    CollectOne(p, Entered(m, 1), 0, depth - 1, t);
    Unchanged(p, m, 1, depth, t, {10});
  }

  lemma {:induction false} CallsFindLoop(order: seq<NodeId>, m: Memo, depth: nat)
    requires {3, 4} !! m.visited && 2 in m.visited && 1 !in m.pts && 2 !in m.pts && depth >= 2
    ensures Find(CallsProgram(order), m, 4, depth) ==
            Some(Memo(m.visited + {3, 4}, m.registered + {3, 4}, m.pts))
  {
    hide Find, Collect, Update, ReCompute, WellFormed;
    var p := CallsProgram(order);
    var t := Memo(m.visited + {3, 4}, m.registered + {3, 4}, m.pts);
    var inner := Entered(Entered(m, 4), 3);
    assert inner.visited == t.visited && inner.registered == t.registered;
    FindDirectly(p, Entered(m, 4), 3, depth - 1, inner, {});
    CollectOne(p, Entered(m, 4), 3, depth - 1, t);
    Unchanged(p, m, 4, depth, t, {});
  }

  const CALLS_BEFORE := Memo(CALLS_ALL, CALLS_ALL, map[0 := {10}, 1 := {10}])

  const CALLS_AFTER := Memo(CALLS_ALL, CALLS_ALL, map[0 := {10}, 1 := {10}, 2 := {11}])

  // Once fp points to b, v comes to point to c. That happens at node 3, so node 4 reports no change.
  lemma {:induction false} CallsReenter(order: seq<NodeId>, depth: nat)
    requires depth >= 2
    ensures ReCompute(CallsProgram(order), CALLS_BEFORE, [3], depth) == Some(CALLS_AFTER)
  {
    hide Find, Collect, Update, ReCompute, WellFormed;
    var p := CallsProgram(order);
    var again := CALLS_BEFORE.(visited := CALLS_ALL - {3});
    assert Entered(again, 3) == CALLS_BEFORE;
    UnionOne(p, CALLS_BEFORE, 2);
    assert Cached(p, CALLS_BEFORE, 2) == {10} && (3, 10) in CALLS.field;
    FindDirectly(p, again, 3, depth, CALLS_BEFORE, {11});
    assert Cached(p, CALLS_BEFORE, 3) + {11} == {11};
    assert Grown(p, CALLS_BEFORE, 3, {11}) == CALLS_AFTER;
    var last := CALLS_AFTER.(visited := CALLS_ALL - {4});
    assert Entered(last, 4) == CALLS_AFTER;
    FindDirectly(p, last, 4, depth - 1, CALLS_AFTER, {11});
    ReComputeOne(p, CALLS_AFTER, 4, depth - 1);
    ReComputeOne(p, CALLS_BEFORE, 3, depth);
  }

  lemma {:induction false} CallsCollected(order: seq<NodeId>, depth: nat)
    requires order == [1, 4] || order == [4, 1]
    requires depth >= 3
    ensures Collect(CallsProgram(order), Memo({2}, {2}, map[]), order, {}, depth) ==
            Some((Memo(CALLS_ALL, CALLS_ALL, map[0 := {10}]), {10}))
  {
    hide Find, Collect, Update, ReCompute, WellFormed;
    var p := CallsProgram(order);
    var m := Memo({2}, {2}, map[]);
    if order == [1, 4] {
      var t := Memo({2} + {0, 1}, {2} + {0, 1}, map[0 := {10}]);
      var u := Memo({2} + {0, 1} + {3, 4}, {2} + {0, 1} + {3, 4}, map[0 := {10}]);
      CallsFindArgument(order, m, depth);
      CallsFindLoop(order, t, depth);
      assert u.visited == CALLS_ALL;
      CollectTwo(p, m, 1, 4, depth, t, u);
      assert Cached(p, t, 1) + Cached(p, u, 4) == {10};
    } else {
      var t := Memo({2} + {3, 4}, {2} + {3, 4}, map[]);
      var u := Memo({2} + {3, 4} + {0, 1}, {2} + {3, 4} + {0, 1}, map[0 := {10}]);
      CallsFindLoop(order, m, depth);
      CallsFindArgument(order, t, depth);
      assert u.visited == CALLS_ALL;
      CollectTwo(p, m, 4, 1, depth, t, u);
      assert Cached(p, t, 4) + Cached(p, u, 1) == {10};
    }
  }

  lemma {:induction false} CallsRun(order: seq<NodeId>, depth: nat)
    requires order == [1, 4] || order == [4, 1]
    requires depth >= 4
    ensures Find(CallsProgram(order), Memo({}, {}, map[]), 2, depth) == Some(CALLS_AFTER)
    ensures Cached(CallsProgram(order), CALLS_AFTER, 2) == {10}
  {
    var p := CallsProgram(order);
    var none := Memo({}, {}, map[]);
    var t := Memo(CALLS_ALL, CALLS_ALL, map[0 := {10}]);
    assert Entered(none, 2) == Memo({2}, {2}, map[]);
    CallsCollected(order, depth - 1);
    hide Find, Collect, ReCompute;
    Changed(p, none, 2, depth, t, {10});
    assert Cached(p, t, 2) + {10} == {10};
    assert Grown(p, t, 2, {10}) == CALLS_BEFORE;
    CallsReenter(order, depth - 1);
  }

  // Whatever the order, a query for fp ends without c.
  lemma {:induction false} CallsStopEarly(order: seq<NodeId>, depth: nat)
    requires order == [1, 4] || order == [4, 1]
    requires depth >= 4
    ensures Runnable(CallsProgram(order)) && Relays(CALLS)
    ensures Find(CallsProgram(order), Memo({}, {}, map[]), 2, depth) == Some(CALLS_AFTER)
    ensures Cached(CallsProgram(order), CALLS_AFTER, 2) == {10}
    ensures {10, 11} <= At(Least(CALLS, {}), Item(1, 2))
  {
    hide Relays, Find, Cached, CALLS_KINDS, CALLS_EDGES;
    CallsRunnable(order);
    CallsRelays(order);
    CallsLeast();
    CallsRun(order, depth);
  }

  // ---- the same without any cycle of value flow ----

  // f(fp) { k = &b; j = &k->f; x = phi(j, k); f(x); w = phi(x, fp); }  with pointers x, j, k, fp, w = 0, 1, 2, 3, 4
  // and objects b, c = 10, 11 as above. Node 3 is the argument x of the call. Edges are served by node id.
  const PHIS_KINDS: map<NodeId, Kind> := map[0 := Copy, 1 := Gep, 2 := Addr(10), 3 := Copy, 4 := Copy, 5 := Copy]

  const PHIS_ALL: set<NodeId> := {0, 1, 2, 3, 4, 5}

  const PHIS_EDGES: set<Edge> :=
    {Direct(1, 0), Direct(2, 0), Direct(2, 1), Direct(0, 3), Direct(3, 4), Direct(0, 5), Direct(4, 5)}

  const PHIS: Graph := Graph(PHIS_KINDS, PHIS_EDGES, map[0 := 0, 1 := 1, 2 := 2, 3 := 0, 4 := 3, 5 := 4],
                             map[0 := 0, 1 := 1, 2 := 2, 3 := 4, 4 := 5], {0, 1, 2, 3, 4, 10, 11}, {10, 11},
                             map[(1, 10) := 11, (1, 11) := 11], {}, {},
                             map[0 := {}, 1 := {}, 2 := {}, 3 := {}, 4 := {}, 10 := {}, 11 := {}], true)

  const PHIS_PROGRAM: Program :=
    Program(PHIS, map[0 := [1, 2], 1 := [2], 2 := [], 3 := [0], 4 := [3], 5 := [0, 4]],
            map[0 := [3, 5], 1 := [0], 2 := [0, 1], 3 := [4], 4 := [5], 5 := []])

  // Value flows upwards only.
  function Rank(n: NodeId): nat {
    if n == 2 then 0 else if n == 1 then 1 else n + 2
  }

  lemma PhisEdges()
    ensures forall e :: e in PHIS_EDGES ==> WellFormedEdge(PHIS, e) && e.Direct? && Rank(e.src) < Rank(e.dst)
  {
    forall e | e in PHIS_EDGES ensures WellFormedEdge(PHIS, e) && e.Direct? && Rank(e.src) < Rank(e.dst) {
      assert e.src in PHIS_KINDS && e.dst in PHIS_KINDS;
    }
  }

  lemma PhisNodes()
    ensures PHIS_KINDS.Keys == PHIS.lhs.Keys == PHIS_ALL
    ensures forall n :: n in PHIS_ALL ==>
              Simple(PHIS_KINDS[n]) && PHIS.lhs[n] in PHIS.vars && WellFormedNode(PHIS, n)
  {
    assert PHIS.kind == PHIS_KINDS && PHIS.objs == {10, 11};
    forall n | n in PHIS_ALL ensures WellFormedNode(PHIS, n) {
      if PHIS_KINDS[n].Gep? {
        assert (n, 10) in PHIS.field && (n, 11) in PHIS.field;
      }
    }
    hide WellFormedNode;
  }

  lemma PhisIsWellFormed()
    ensures WellFormed(PHIS)
    ensures forall e :: e in PHIS.edges ==> Rank(e.src) < Rank(e.dst)
  {
    PhisEdges();
    PhisNodes();
    hide WellFormedEdge, WellFormedNode, PHIS_EDGES, PHIS_KINDS;
  }

  lemma PhisOrdered()
    ensures PHIS_PROGRAM.ins.Keys == PHIS_PROGRAM.outs.Keys == PHIS_ALL
    ensures forall m, n :: n in PHIS_PROGRAM.ins ==> (m in PHIS_PROGRAM.ins[n] <==> Direct(m, n) in PHIS_EDGES)
    ensures forall m, n :: m in PHIS_PROGRAM.outs ==> (n in PHIS_PROGRAM.outs[m] <==> Direct(m, n) in PHIS_EDGES)
  {
    hide PHIS;
    var p := PHIS_PROGRAM;
    forall m, n | n in p.ins ensures m in p.ins[n] <==> Direct(m, n) in PHIS_EDGES {
      assert n in {0, 1, 2, 3, 4, 5};
    }
    forall m, n | m in p.outs ensures n in p.outs[m] <==> Direct(m, n) in PHIS_EDGES {
      assert m in {0, 1, 2, 3, 4, 5};
    }
  }

  lemma PhisRunnable()
    ensures Runnable(PHIS_PROGRAM)
  {
    PhisIsWellFormed();
    PhisEdges();
    PhisNodes();
    PhisOrdered();
    hide WellFormed, WellFormedEdge, WellFormedNode, PHIS_EDGES, PHIS_KINDS;
  }

  lemma PhisRelays()
    requires Runnable(PHIS_PROGRAM)
    ensures Relays(PHIS)
  {
    hide Runnable, Relays;
    forall n | n in PHIS.kind ensures CopiesDefinition(PHIS_PROGRAM, n) {
      assert n in {0, 1, 2, 3, 4, 5};
    }
    CopiesRelay(PHIS_PROGRAM);
  }

  lemma PhisLeast()
    requires WellFormed(PHIS)
    ensures {10, 11} <= At(Least(PHIS, {}), Item(3, 4))
  {
    hide Least, IsSolution, WellFormed;
    var L := Least(PHIS, {});
    assert PHIS.kind == PHIS_KINDS && PHIS.edges == PHIS_EDGES;
    assert {Item(0, 0), Item(1, 1), Item(2, 2), Item(0, 3), Item(3, 4)} <= PHIS.Items;
    LeastIsSolution(PHIS, {});
    AddrHolds(PHIS, L, Item(2, 2));
    GepHolds(PHIS, L, Item(1, 1), 2, 10);
    CopyHolds(PHIS, L, Item(0, 0), 1, 11);
    CopyHolds(PHIS, L, Item(0, 0), 2, 10);
    forall o | o in {10, 11} ensures o in At(L, Item(3, 4)) {
      CopyHolds(PHIS, L, Item(0, 3), 0, o);
      CopyHolds(PHIS, L, Item(3, 4), 3, o);
    }
  }

  function Phis(pts: map<VarId, set<VarId>>): Memo {
    Memo(PHIS_ALL, PHIS_ALL, pts)
  }

  // Entering a visited node again leads back to the same state.
  lemma Reentered(m: Memo, n: NodeId)
    requires n in m.visited && n in m.registered
    ensures Entered(m.(visited := m.visited - {n}), n) == m
  {
    assert m.visited - {n} + {n} == m.visited && m.registered + {n} == m.registered;
  }

  lemma PhisEvaluate()
    ensures forall n, pts :: n in {0, 3, 4, 5} ==> Evaluate(PHIS_PROGRAM, n, pts) == pts
    ensures forall pts :: Evaluate(PHIS_PROGRAM, 2, pts) == {10}
    ensures Evaluate(PHIS_PROGRAM, 1, {10}) == {11}
  {
    assert (1, 10) in PHIS.field;
  }

  // x, known to point to b, reaches fp and w through the argument.
  lemma {:induction false} PhisFindParameter(depth: nat)
    requires depth >= 3
    ensures Find(PHIS_PROGRAM, Memo({0, 1, 2, 5}, {0, 1, 2, 5}, map[2 := {10}, 0 := {10}]), 4, depth) ==
            Some(Phis(map[2 := {10}, 0 := {10}, 3 := {10}, 4 := {10}]))
  {
    PhisEvaluate();
    hide Find, Collect, Update, ReCompute, Union, Evaluate, WellFormed, PHIS_EDGES, PHIS_KINDS;
    var p := PHIS_PROGRAM;
    var m := Memo({0, 1, 2, 5}, {0, 1, 2, 5}, map[2 := {10}, 0 := {10}]);
    var t, u := Phis(m.pts), Phis(m.pts[3 := {10}]);
    assert Entered(Entered(m, 4), 3) == t;
    UnionOne(p, t, 0);
    assert Cached(p, t, 0) == {10};
    FindDirectly(p, Entered(m, 4), 3, depth - 1, t, {10});
    CollectOne(p, Entered(m, 4), 3, depth - 1, t);
    Changed(p, m, 4, depth, t, {10});
    assert Cached(p, t, 4) + {10} == {10} && Grown(p, t, 4, {10}) == u;
    ReComputeOne(p, u, 5, depth - 1);
    FindVisited(p, Phis(u.pts[4 := {10}]), depth - 2);
    Reentered(u, 5);
    UnionTwo(p, u, 0, 4);
    assert Cached(p, u, 0) + Cached(p, u, 4) == {10};
    FindDirectly(p, u.(visited := PHIS_ALL - {5}), 5, depth - 1, u, {10});
    assert Cached(p, u, 5) + {10} == {10};
  }

  // k's growth makes x be evaluated again, before j is.
  lemma {:induction false} PhisFirst(depth: nat)
    requires depth >= 5
    ensures Find(PHIS_PROGRAM, Memo({1, 2, 5}, {0, 1, 2, 5}, map[2 := {10}]), 0, depth) ==
            Some(Phis(map[2 := {10}, 0 := {10}, 3 := {10}, 4 := {10}]))
  {
    PhisEvaluate();
    hide Find, Collect, Update, ReCompute, Union, Evaluate, WellFormed, PHIS_EDGES, PHIS_KINDS;
    var p := PHIS_PROGRAM;
    var m := Memo({1, 2, 5}, {0, 1, 2, 5}, map[2 := {10}]);
    var t := Memo({0, 1, 2, 5}, {0, 1, 2, 5}, map[2 := {10}]);
    var u := t.(pts := map[2 := {10}, 0 := {10}]);
    var v := Phis(map[2 := {10}, 0 := {10}, 3 := {10}, 4 := {10}]);
    assert Entered(m, 0) == t;
    UnionTwo(p, t, 1, 2);
    assert Cached(p, t, 1) + Cached(p, t, 2) == {10};
    FindDirectly(p, m, 0, depth, t, {10});
    assert Cached(p, t, 0) + {10} == {10} && Grown(p, t, 0, {10}) == u;
    ReComputeTwo(p, u, 3, 5, depth - 1, u);
    ReComputeOne(p, u, 5, depth - 1);
    Reentered(u, 5);
    PhisFindParameter(depth - 2);
    FindVisited(p, u, depth - 2);
    CollectTwo(p, u, 0, 4, depth - 2, u, v);
    assert Cached(p, u, 0) + Cached(p, v, 4) == {10};
    Unchanged(p, u.(visited := u.visited - {5}), 5, depth - 1, v, {10});
  }

  const PHIS_AFTER := Phis(map[2 := {10}, 0 := {10, 11}, 3 := {10}, 4 := {10, 11}, 1 := {11}])

  // x grows at node 0, so node 3, which shares its set, reports no change, and fp is left behind.
  lemma {:induction false} PhisLast(v: Memo, depth: nat)
    requires depth >= 2 && v == Phis(map[2 := {10}, 0 := {10, 11}, 3 := {10}, 4 := {10}, 1 := {11}])
    ensures ReCompute(PHIS_PROGRAM, v, [3, 5], depth) == Some(PHIS_AFTER)
  {
    PhisEvaluate();
    hide Entered, Find, Collect, Update, ReCompute, Union, Evaluate, WellFormed, PHIS_EDGES, PHIS_KINDS;
    var p := PHIS_PROGRAM;
    Reentered(v, 3);
    UnionOne(p, v, 0);
    assert Cached(p, v, 0) == {10, 11};
    FindDirectly(p, v.(visited := PHIS_ALL - {3}), 3, depth, v, {10, 11});
    ReComputeTwo(p, v, 3, 5, depth, v);
    ReComputeOne(p, v, 5, depth);
    Reentered(v, 5);
    UnionTwo(p, v, 0, 4);
    assert Cached(p, v, 0) + Cached(p, v, 4) == {10, 11};
    FindVisited(p, PHIS_AFTER, depth - 1);
    FindDirectly(p, v.(visited := PHIS_ALL - {5}), 5, depth, v, {10, 11});
    assert Cached(p, v, 5) + {10, 11} == {10, 11} && Grown(p, v, 5, {10, 11}) == PHIS_AFTER;
  }

  lemma {:induction false} PhisAgain(u: Memo, depth: nat)
    requires depth >= 3 && u == Phis(map[2 := {10}, 0 := {10}, 3 := {10}, 4 := {10}, 1 := {11}])
    ensures ReCompute(PHIS_PROGRAM, u, [0], depth) == Some(PHIS_AFTER)
  {
    PhisEvaluate();
    hide Entered, Find, Collect, Update, ReCompute, Union, Evaluate, WellFormed, PHIS_EDGES, PHIS_KINDS;
    var p := PHIS_PROGRAM;
    var v := Phis(u.pts[0 := {10, 11}]);
    ReComputeOne(p, u, 0, depth);
    Reentered(u, 0);
    UnionTwo(p, u, 1, 2);
    assert Cached(p, u, 1) + Cached(p, u, 2) == {10, 11};
    FindDirectly(p, u.(visited := PHIS_ALL - {0}), 0, depth, u, {10, 11});
    assert Cached(p, u, 0) + {10, 11} == {10, 11} && Grown(p, u, 0, {10, 11}) == v;
    PhisLast(v, depth - 1);
  }

  // Only then does j get c, which makes x grow once more.
  lemma {:induction false} PhisSecond(depth: nat)
    requires depth >= 4
    ensures var t := Phis(map[2 := {10}, 0 := {10}, 3 := {10}, 4 := {10}]);
            Find(PHIS_PROGRAM, t.(visited := t.visited - {1}), 1, depth) == Some(PHIS_AFTER)
  {
    PhisEvaluate();
    hide Entered, Find, Collect, Update, ReCompute, Union, Evaluate, WellFormed, PHIS_EDGES, PHIS_KINDS;
    var p := PHIS_PROGRAM;
    var t := Phis(map[2 := {10}, 0 := {10}, 3 := {10}, 4 := {10}]);
    var u := Phis(t.pts[1 := {11}]);
    Reentered(t, 1);
    UnionOne(p, t, 2);
    assert Cached(p, t, 2) == {10};
    FindDirectly(p, t.(visited := PHIS_ALL - {1}), 1, depth, t, {11});
    assert Cached(p, t, 1) + {11} == {11} && Grown(p, t, 1, {11}) == u;
    PhisAgain(u, depth - 1);
  }

  lemma {:induction false} PhisFindSource(depth: nat)
    requires depth >= 6
    ensures Find(PHIS_PROGRAM, Memo({0, 1, 5}, {0, 1, 5}, map[]), 2, depth) == Some(PHIS_AFTER)
  {
    PhisEvaluate();
    hide Find, Collect, Update, ReCompute, Union, Evaluate, WellFormed, PHIS_EDGES, PHIS_KINDS;
    var p := PHIS_PROGRAM;
    var m := Memo({0, 1, 5}, {0, 1, 5}, map[]);
    var t := Memo({0, 1, 2, 5}, {0, 1, 2, 5}, map[]);
    var u := t.(pts := map[2 := {10}]);
    var v := Phis(map[2 := {10}, 0 := {10}, 3 := {10}, 4 := {10}]);
    assert Entered(m, 2) == t;
    FindDirectly(p, m, 2, depth, t, {10});
    assert Cached(p, t, 2) + {10} == {10} && Grown(p, t, 2, {10}) == u;
    assert u.visited - {0} == {1, 2, 5};
    PhisFirst(depth - 1);
    ReComputeTwo(p, u, 0, 1, depth - 1, v);
    ReComputeOne(p, v, 1, depth - 1);
    PhisSecond(depth - 1);
  }

  // A query for w leaves fp without c, and fp's items are visited: a later query for fp looks them up.
  lemma {:induction false} PhisRun(depth: nat)
    requires depth >= 9
    ensures Find(PHIS_PROGRAM, Memo({}, {}, map[]), 5, depth) == Some(PHIS_AFTER)
    ensures Cached(PHIS_PROGRAM, PHIS_AFTER, 4) == {10}
  {
    PhisEvaluate();
    hide Find, Collect, Update, ReCompute, Union, Evaluate, WellFormed, PHIS_EDGES, PHIS_KINDS;
    var p := PHIS_PROGRAM;
    var none, five, zero, one := Memo({}, {}, map[]), Memo({5}, {5}, map[]), Memo({0, 5}, {0, 5}, map[]),
      Memo({0, 1, 5}, {0, 1, 5}, map[]);
    assert Entered(none, 5) == five && Entered(five, 0) == zero && Entered(zero, 1) == one;
    PhisFindSource(depth - 3);
    CollectOne(p, one, 2, depth - 3, PHIS_AFTER);
    Unchanged(p, zero, 1, depth - 2, PHIS_AFTER, {10});
    FindVisited(p, PHIS_AFTER, depth - 2);
    CollectTwo(p, zero, 1, 2, depth - 2, PHIS_AFTER, PHIS_AFTER);
    assert Cached(p, PHIS_AFTER, 1) + Cached(p, PHIS_AFTER, 2) == {10, 11};
    Unchanged(p, five, 0, depth - 1, PHIS_AFTER, {10, 11});
    FindVisited(p, PHIS_AFTER, depth - 1);
    CollectTwo(p, five, 0, 4, depth - 1, PHIS_AFTER, PHIS_AFTER);
    assert Cached(p, PHIS_AFTER, 0) + Cached(p, PHIS_AFTER, 4) == {10, 11};
    Unchanged(p, none, 5, depth, PHIS_AFTER, {10, 11});
  }

  lemma {:induction false} PhisStopEarly(depth: nat)
    requires depth >= 9
    ensures Runnable(PHIS_PROGRAM) && Relays(PHIS)
    ensures forall e :: e in PHIS.edges ==> Rank(e.src) < Rank(e.dst)
    ensures Find(PHIS_PROGRAM, Memo({}, {}, map[]), 5, depth) == Some(PHIS_AFTER)
    ensures Cached(PHIS_PROGRAM, PHIS_AFTER, 4) == {10}
    ensures {10, 11} <= At(Least(PHIS, {}), Item(3, 4))
  {
    hide Relays, Find, Cached, PHIS_KINDS, PHIS_EDGES;
    PhisIsWellFormed();
    PhisRunnable();
    PhisRelays();
    PhisLeast();
    PhisRun(depth);
  }

  // ---- the same program, asked about fp first ----

  const PHIS_MOST: set<NodeId> := {0, 1, 2, 3, 4}

  function Most(pts: map<VarId, set<VarId>>): Memo {
    Memo(PHIS_MOST, PHIS_MOST, pts)
  }

  // Serving x's successors has no effect while w is not asked about.
  lemma {:induction false} PhisServeX(v: Memo, depth: nat)
    requires v == Most(v.pts) && 0 in v.pts && depth >= 1
    ensures ReCompute(PHIS_PROGRAM, v, [3, 5], depth) == Some(v)
  {
    PhisEvaluate();
    hide Entered, Find, Collect, Update, ReCompute, Union, Evaluate, WellFormed, PHIS_EDGES, PHIS_KINDS;
    var p := PHIS_PROGRAM;
    Reentered(v, 3);
    UnionOne(p, v, 0);
    FindDirectly(p, v.(visited := v.visited - {3}), 3, depth, v, v.pts[0]);
    ReComputeTwo(p, v, 3, 5, depth, v);
    ReComputeOne(p, v, 5, depth);
  }

  // Evaluating x again when j and k hold these sets.
  lemma {:induction false} PhisEvaluateX(v: Memo, pts: set<VarId>, depth: nat)
    requires v == Most(v.pts) && depth >= 2
    requires pts == Cached(PHIS_PROGRAM, v, 1) + Cached(PHIS_PROGRAM, v, 2)
    requires Cached(PHIS_PROGRAM, v, 0) < pts
    ensures Find(PHIS_PROGRAM, v.(visited := v.visited - {0}), 0, depth) == Some(Most(v.pts[0 := pts]))
  {
    PhisEvaluate();
    hide Entered, Find, Collect, Update, ReCompute, Union, Evaluate, WellFormed, PHIS_EDGES, PHIS_KINDS;
    var p := PHIS_PROGRAM;
    Reentered(v, 0);
    UnionTwo(p, v, 1, 2);
    FindDirectly(p, v.(visited := v.visited - {0}), 0, depth, v, pts);
    assert Cached(p, v, 0) + pts == pts && Grown(p, v, 0, pts) == Most(v.pts[0 := pts]);
    PhisServeX(Most(v.pts[0 := pts]), depth - 1);
  }

  const PHIS_FOUND := Most(map[2 := {10}, 0 := {10, 11}, 1 := {11}])

  lemma {:induction false} PhisEvaluateJ(depth: nat)
    requires depth >= 3
    ensures var v := Most(map[2 := {10}, 0 := {10}]);
            Find(PHIS_PROGRAM, v.(visited := v.visited - {1}), 1, depth) == Some(PHIS_FOUND)
  {
    PhisEvaluate();
    hide Entered, Find, Collect, Update, ReCompute, Union, Evaluate, WellFormed, PHIS_EDGES, PHIS_KINDS;
    var p := PHIS_PROGRAM;
    var v := Most(map[2 := {10}, 0 := {10}]);
    var u := Most(v.pts[1 := {11}]);
    Reentered(v, 1);
    UnionOne(p, v, 2);
    assert Cached(p, v, 2) == {10};
    FindDirectly(p, v.(visited := v.visited - {1}), 1, depth, v, {11});
    assert Cached(p, v, 1) + {11} == {11} && Grown(p, v, 1, {11}) == u;
    ReComputeOne(p, u, 0, depth - 1);
    assert Cached(p, u, 1) + Cached(p, u, 2) == {10, 11};
    PhisEvaluateX(u, {10, 11}, depth - 1);
    assert u.pts[0 := {10, 11}] == PHIS_FOUND.pts;
  }

  lemma {:induction false} PhisEvaluateK(depth: nat)
    requires depth >= 4
    ensures Find(PHIS_PROGRAM, Memo({0, 1, 3, 4}, {0, 1, 3, 4}, map[]), 2, depth) == Some(PHIS_FOUND)
  {
    PhisEvaluate();
    hide Find, Collect, Update, ReCompute, Union, Evaluate, WellFormed, PHIS_EDGES, PHIS_KINDS;
    var p := PHIS_PROGRAM;
    var m := Memo({0, 1, 3, 4}, {0, 1, 3, 4}, map[]);
    var t, u, v := Most(map[]), Most(map[2 := {10}]), Most(map[2 := {10}, 0 := {10}]);
    assert Entered(m, 2) == t;
    FindDirectly(p, m, 2, depth, t, {10});
    assert Cached(p, t, 2) + {10} == {10} && Grown(p, t, 2, {10}) == u;
    assert Cached(p, u, 1) + Cached(p, u, 2) == {10};
    PhisEvaluateX(u, {10}, depth - 1);
    ReComputeTwo(p, u, 0, 1, depth - 1, v);
    ReComputeOne(p, v, 1, depth - 1);
    PhisEvaluateJ(depth - 1);
  }

  lemma {:induction false} PhisAskedFirst(depth: nat)
    requires depth >= 8
    ensures var m := Most(PHIS_FOUND.pts[3 := {10, 11}]);
            Find(PHIS_PROGRAM, Memo({}, {}, map[]), 4, depth) == Some(m) && Cached(PHIS_PROGRAM, m, 4) == {10, 11}
  {
    PhisEvaluate();
    hide Find, Collect, Update, ReCompute, Union, Evaluate, WellFormed, PHIS_EDGES, PHIS_KINDS;
    var p := PHIS_PROGRAM;
    var none, four, three, zero, one := Memo({}, {}, map[]), Memo({4}, {4}, map[]), Memo({3, 4}, {3, 4}, map[]),
      Memo({0, 3, 4}, {0, 3, 4}, map[]), Memo({0, 1, 3, 4}, {0, 1, 3, 4}, map[]);
    var f := PHIS_FOUND;
    assert Entered(none, 4) == four && Entered(four, 3) == three;
    assert Entered(three, 0) == zero && Entered(zero, 1) == one;
    PhisEvaluateK(depth - 4);
    CollectOne(p, one, 2, depth - 4, f);
    Unchanged(p, zero, 1, depth - 3, f, {10});
    FindVisited(p, f, depth - 3);
    CollectTwo(p, zero, 1, 2, depth - 3, f, f);
    assert Cached(p, f, 1) + Cached(p, f, 2) == {10, 11};
    Unchanged(p, three, 0, depth - 2, f, {10, 11});
    CollectOne(p, three, 0, depth - 2, f);
    Unchanged(p, four, 3, depth - 1, f, {10, 11});
    CollectOne(p, four, 3, depth - 1, f);
    Changed(p, none, 4, depth, f, {10, 11});
    var m := Most(f.pts[3 := {10, 11}]);
    assert Cached(p, f, 4) + {10, 11} == {10, 11} && Grown(p, f, 4, {10, 11}) == m;
    ReComputeOne(p, m, 5, depth - 1);
  }

  // What the client learns of fp depends on what it asks first: w and then fp leads to b alone, for fp's
  // items are visited by then, and fp at once to all of the least solution.
  lemma PhisDependsOnHistory(depth: nat)
    requires depth >= 9
    ensures exists m :: Find(PHIS_PROGRAM, Memo({}, {}, map[]), 4, depth) == Some(m) &&
                        Cached(PHIS_PROGRAM, m, 4) == {10, 11}
    ensures exists m :: Find(PHIS_PROGRAM, Memo({}, {}, map[]), 5, depth) == Some(m) &&
                        Find(PHIS_PROGRAM, m.(registered := {}), 4, depth) == Some(m.(registered := {})) &&
                        Cached(PHIS_PROGRAM, m.(registered := {}), 4) == {10}
  {
    PhisAskedFirst(depth);
    PhisRun(depth);
    FindVisited(PHIS_PROGRAM, PHIS_AFTER.(registered := {}), depth);
    hide Find, PHIS;
  }
}
