// The static value-flow graph walked by the demand-driven solver, the query items over it,
// and the equation system whose least solution the solver is meant to compute.
module ValueFlowGraph {

  type NodeId = nat

  // Pointers and objects share one id space (PAG node ids).
  type VarId = nat

  datatype Kind =
    | Addr(obj: VarId)
    | Copy                          // copies, phis, parameters, returns, null pointers
    | Gep
    | Load(ptr: VarId)
    | Store(dst: VarId, src: VarId)
    | MemRegion                     // memory phis and actual/formal IN/OUT nodes
  {
    // Statements that define a top-level pointer.
    predicate TopLevel() {
      !Store? && !MemRegion?
    }
  }

  datatype Edge =
    | Direct(src: NodeId, dst: NodeId)
    | Indirect(src: NodeId, dst: NodeId, guard: set<VarId>)

  // A query item: "what does cur point to at loc?"
  datatype Item = Item(cur: VarId, loc: NodeId)

  type Cache = map<Item, set<VarId>>

  datatype Graph = Graph(
    kind: map<NodeId, Kind>,
    edges: set<Edge>,
    lhs: map<NodeId, VarId>,             // the top-level pointer a node defines
    def: map<VarId, NodeId>,             // the node defining a top-level pointer
    vars: set<VarId>,
    objs: set<VarId>,                    // ids that may occur in points-to sets
    field: map<(NodeId, VarId), VarId>,  // the object a Gep node derives from an object
    noPointer: set<VarId>,               // constant objects and objects holding no pointer
    unique: set<VarId>,                  // not heap, not array, not field-insensitive, not recursive
    andersen: map<VarId, set<VarId>>,    // the result an abandoned query falls back to
    byVariable: bool)                    // top-level sets are kept by variable, not by item
  {
    // The items evaluation can ever reach: a top-level node is asked about the pointer it defines only.
    ghost const Items: set<Item> := set v, n | v in vars && n in kind.Keys && Asks(v, n) :: Item(v, n)

    ghost predicate Asks(v: VarId, n: NodeId)
      requires n in kind
    {
      kind[n].TopLevel() ==> n in lhs && lhs[n] == v
    }
  }

  ghost predicate WellFormedEdge(g: Graph, e: Edge) {
    && e.src in g.kind && e.dst in g.kind
    && match e
       case Direct(s, _) => g.kind[s].TopLevel() && s in g.lhs && g.lhs[s] in g.vars
       case Indirect(s, _, guard) => !g.kind[s].TopLevel() && guard <= g.vars
  }

  // def maps v to a node that defines it.
  predicate DefinedAt(g: Graph, v: VarId) {
    v in g.vars && v in g.def && g.def[v] in g.lhs && g.lhs[g.def[v]] == v
  }

  // The direct edge that the solver asserts to exist before it follows an operand.
  ghost predicate OperandEdge(g: Graph, v: VarId, n: NodeId) {
    DefinedAt(g, v) && Direct(g.def[v], n) in g.edges
  }

  ghost predicate WellFormedNode(g: Graph, n: NodeId)
    requires n in g.kind
  {
    match g.kind[n]
    case Addr(o) => o in g.objs
    case Copy => true
    case Gep => forall o :: o in g.objs ==> (n, o) in g.field && g.field[(n, o)] in g.objs
    case Load(p) => OperandEdge(g, p, n)
    case Store(d, s) => OperandEdge(g, d, n) && OperandEdge(g, s, n)
    case MemRegion => true
  }

  ghost predicate WellFormed(g: Graph) {
    && g.objs <= g.vars
    && (forall e :: e in g.edges ==> WellFormedEdge(g, e))
    && (forall n :: n in g.kind ==> WellFormedNode(g, n))
    && (forall v :: v in g.vars ==> v in g.andersen && g.andersen[v] <= g.objs)
  }

  // Well-formed graphs: every assertion the solver makes about its graph holds.
  type Net = g: Graph | WellFormed(g)
    witness Graph(map[], {}, map[], map[], {}, {}, map[], {}, {}, map[], false)

  lemma EdgeFacts(g: Net)
    ensures forall e :: e in g.edges ==> WellFormedEdge(g, e)
  {
  }

  lemma OperandFacts(g: Net, n: NodeId)
    requires n in g.kind
    ensures g.kind[n].Load? ==> OperandEdge(g, g.kind[n].ptr, n)
    ensures g.kind[n].Store? ==> OperandEdge(g, g.kind[n].dst, n) && OperandEdge(g, g.kind[n].src, n)
  {
    assert WellFormedNode(g, n);
  }

  function At(c: Cache, i: Item): set<VarId> {
    if i in c then c[i] else {}
  }

  // ---- items that share their cached set ----

  predicate TopLevelItem(g: Graph, i: Item) {
    i.loc in g.kind && g.kind[i.loc].TopLevel()
  }

  // Sets kept by variable are shared by all top-level items of one variable, such as a pointer's
  // definition and the actual parameters it is passed as.
  predicate Shares(g: Graph, i: Item, j: Item) {
    i == j || (g.byVariable && i.cur == j.cur && TopLevelItem(g, i) && TopLevelItem(g, j))
  }

  ghost function Mates(g: Graph, i: Item): set<Item> {
    set j | j in g.Items && Shares(g, i, j)
  }

  // k shares its set with another item.
  ghost predicate Mated(g: Graph, k: Item) {
    k in g.Items && exists j :: j in g.Items && j != k && Shares(g, k, j)
  }

  ghost predicate Alone(g: Graph) {
    forall i, j :: i in g.Items && j in g.Items && Shares(g, i, j) ==> i == j
  }

  // A top-level node, for the pointer it stands for.
  predicate StandsFor(g: Graph, n: NodeId) {
    n in g.kind && g.kind[n].TopLevel() && n in g.lhs && g.lhs[n] in g.vars
  }

  // Items are alone exactly if sets are kept by item or no two nodes stand for one pointer.
  lemma AloneIffDistinct(g: Graph)
    ensures Alone(g) <==>
            !g.byVariable ||
            forall m, n :: StandsFor(g, m) && StandsFor(g, n) && g.lhs[m] == g.lhs[n] ==> m == n
  {
    if Alone(g) && g.byVariable {
      forall m, n | StandsFor(g, m) && StandsFor(g, n) && g.lhs[m] == g.lhs[n] ensures m == n {
        assert Item(g.lhs[m], m) in g.Items && Item(g.lhs[m], n) in g.Items;
        assert Shares(g, Item(g.lhs[m], m), Item(g.lhs[m], n));
      }
    }
  }

  // Items that share their set have the same set.
  ghost predicate Even(g: Graph, c: Cache) {
    forall i, j :: i in g.Items && j in g.Items && Shares(g, i, j) ==> At(c, i) == At(c, j)
  }

  // Pointwise inclusion of caches.
  ghost predicate Below(c: Cache, d: Cache) {
    forall i: Item :: At(c, i) <= At(d, i)
  }

  function DefItem(g: Net, v: VarId): Item
    requires v in g.def
  {
    Item(v, g.def[v])
  }

  function DirectItem(g: Net, e: Edge): Item
    requires e.src in g.lhs
  {
    Item(g.lhs[e.src], e.src)
  }

  // The items of the pointer operands of loads and stores.
  function LoadPtr(g: Net, i: Item): (r: Item)
    requires i.loc in g.kind && g.kind[i.loc].Load?
  {
    DefItem(g, g.kind[i.loc].ptr)
  }

  function StoreDst(g: Net, i: Item): (r: Item)
    requires i.loc in g.kind && g.kind[i.loc].Store?
  {
    DefItem(g, g.kind[i.loc].dst)
  }

  function StoreSrc(g: Net, i: Item): (r: Item)
    requires i.loc in g.kind && g.kind[i.loc].Store?
  {
    DefItem(g, g.kind[i.loc].src)
  }

  // ---- the equation system ----

  ghost function DirectReads(g: Net, n: NodeId): set<Item>
  {
    set e | e in g.edges && e.Direct? && e.dst == n :: DirectItem(g, e)
  }

  ghost function IndirectReads(g: Net, n: NodeId, v: VarId): set<Item> {
    set e | e in g.edges && e.Indirect? && e.dst == n && v in e.guard && v !in g.noPointer :: Item(v, e.src)
  }

  ghost function Gather(c: Cache, xs: set<Item>): set<VarId> {
    set x, o | x in xs && o in At(c, x) :: o
  }

  // A store lets the old value of v through unless it certainly overwrites it: nothing is known
  // to flow while the destination is unresolved, and a unique destination v is overwritten.
  predicate PassesOld(g: Net, dstPts: set<VarId>, v: VarId) {
    dstPts != {} && !(dstPts == {v} && v in g.unique)
  }

  ghost function Transfer(g: Net, c: Cache, i: Item): set<VarId>
    requires i.loc in g.kind
  {
    var n := i.loc;
    match g.kind[n]
    case Addr(o) => {o}
    case Copy => Gather(c, DirectReads(g, n))
    case Gep => set o | o in Gather(c, DirectReads(g, n)) && (n, o) in g.field :: g.field[(n, o)]
    case Load(p) => set o, t | o in At(c, DefItem(g, p)) && t in Gather(c, IndirectReads(g, n, o)) :: t
    case Store(d, s) =>
      var dstPts := At(c, DefItem(g, d));
      (if i.cur in dstPts then At(c, DefItem(g, s)) else {}) +
      (if PassesOld(g, dstPts, i.cur) then Gather(c, IndirectReads(g, n, i.cur)) else {})
    case MemRegion => Gather(c, IndirectReads(g, n, i.cur))
  }

  // The items whose cached sets Transfer(g, c, i) looks at.
  ghost function Reads(g: Net, c: Cache, i: Item): set<Item>
    requires i.loc in g.kind
  {
    var n := i.loc;
    match g.kind[n]
    case Addr(o) => {}
    case Copy => DirectReads(g, n)
    case Gep => DirectReads(g, n)
    case Load(p) =>
      {DefItem(g, p)} + set o, y | o in At(c, DefItem(g, p)) && y in IndirectReads(g, n, o) :: y
    case Store(d, s) =>
      var dstPts := At(c, DefItem(g, d));
      {DefItem(g, d)} +
      (if i.cur in dstPts then {DefItem(g, s)} else {}) +
      (if PassesOld(g, dstPts, i.cur) then IndirectReads(g, n, i.cur) else {})
    case MemRegion => IndirectReads(g, n, i.cur)
  }

  // ---- what the equations mean, edge by edge ----

  lemma DirectFlow(g: Net, c: Cache, i: Item, t: VarId)
    requires i.loc in g.kind
    ensures g.kind[i.loc].Addr? ==> (t in Transfer(g, c, i) <==> t == g.kind[i.loc].obj)
    ensures g.kind[i.loc].Copy? ==>
              (t in Transfer(g, c, i) <==>
               exists m :: Direct(m, i.loc) in g.edges && m in g.lhs && t in At(c, Item(g.lhs[m], m)))
    ensures g.kind[i.loc].Gep? ==>
              (t in Transfer(g, c, i) <==>
               exists m, o :: Direct(m, i.loc) in g.edges && m in g.lhs && o in At(c, Item(g.lhs[m], m)) &&
                              (i.loc, o) in g.field && t == g.field[(i.loc, o)])
  {
    var n := i.loc;
    if g.kind[n].Copy? || g.kind[n].Gep? {
      forall o ensures o in Gather(c, DirectReads(g, n)) <==>
                exists m :: Direct(m, n) in g.edges && m in g.lhs && o in At(c, Item(g.lhs[m], m))
      {
        DirectGather(g, c, n, o);
      }
    }
  }

  lemma DirectGather(g: Net, c: Cache, n: NodeId, o: VarId)
    ensures o in Gather(c, DirectReads(g, n)) <==>
            exists m :: Direct(m, n) in g.edges && m in g.lhs && o in At(c, Item(g.lhs[m], m))
  {
    if m :| Direct(m, n) in g.edges && m in g.lhs && o in At(c, Item(g.lhs[m], m)) {
      assert DirectItem(g, Direct(m, n)) in DirectReads(g, n);
    }
    if o in Gather(c, DirectReads(g, n)) {
      var e :| e in g.edges && e.Direct? && e.dst == n && o in At(c, DirectItem(g, e));
      assert e == Direct(e.src, n) && WellFormedEdge(g, e);
    }
  }

  // What reaches statement n for object v through memory comes over an edge whose guard admits v,
  // and nothing comes for objects that hold no pointer.
  lemma IndirectGather(g: Net, c: Cache, n: NodeId, v: VarId, t: VarId)
    ensures t in Gather(c, IndirectReads(g, n, v)) <==>
            exists e :: e in g.edges && e.Indirect? && e.dst == n && v in e.guard && v !in g.noPointer &&
                        t in At(c, Item(v, e.src))
  {
    if e :| e in g.edges && e.Indirect? && e.dst == n && v in e.guard && v !in g.noPointer &&
            t in At(c, Item(v, e.src)) {
      assert Item(v, e.src) in IndirectReads(g, n, v);
    }
  }

  lemma MemoryFlow(g: Net, c: Cache, i: Item, t: VarId)
    requires i.loc in g.kind && g.kind[i.loc].MemRegion?
    ensures t in Transfer(g, c, i) <==>
            exists e :: e in g.edges && e.Indirect? && e.dst == i.loc && i.cur in e.guard && i.cur !in g.noPointer &&
                        t in At(c, Item(i.cur, e.src))
  {
    IndirectGather(g, c, i.loc, i.cur, t);
  }

  lemma LoadFlow(g: Net, c: Cache, i: Item, t: VarId)
    requires i.loc in g.kind && g.kind[i.loc].Load?
    ensures var p := g.kind[i.loc].ptr;
            t in Transfer(g, c, i) <==>
            exists o, e :: o in At(c, Item(p, g.def[p])) && e in g.edges && e.Indirect? && e.dst == i.loc &&
                           o in e.guard && o !in g.noPointer && t in At(c, Item(o, e.src))
  {
    forall o { IndirectGather(g, c, i.loc, o, t); }
  }

  lemma StoreFlow(g: Net, c: Cache, i: Item, t: VarId)
    requires i.loc in g.kind && g.kind[i.loc].Store?
    ensures var d, s := g.kind[i.loc].dst, g.kind[i.loc].src;
            var targets := At(c, Item(d, g.def[d]));
            t in Transfer(g, c, i) <==>
            || (i.cur in targets && t in At(c, Item(s, g.def[s])))
            || (targets != {} && !(targets == {i.cur} && i.cur in g.unique) &&
                exists e :: e in g.edges && e.Indirect? && e.dst == i.loc && i.cur in e.guard &&
                            i.cur !in g.noPointer && t in At(c, Item(i.cur, e.src)))
  {
    IndirectGather(g, c, i.loc, i.cur, t);
  }

  // ---- properties of the equations ----

  lemma PassesOldMonotone(g: Net, d: set<VarId>, d': set<VarId>, v: VarId)
    requires d <= d' && PassesOld(g, d, v)
    ensures PassesOld(g, d', v)
  {
    if d' == {v} {
      assert d == {v};
    }
  }

  lemma GatherMonotone(c: Cache, d: Cache, xs: set<Item>)
    requires Below(c, d)
    ensures Gather(c, xs) <= Gather(d, xs)
  {
    forall o | o in Gather(c, xs) ensures o in Gather(d, xs) {
      var x :| x in xs && o in At(c, x);
      assert At(c, x) <= At(d, x);
    }
  }

  // Larger caches give larger right-hand sides, strong updates included, and more reads.
  lemma TransferMonotone(g: Net, c: Cache, d: Cache, i: Item)
    requires i.loc in g.kind && Below(c, d)
    ensures Transfer(g, c, i) <= Transfer(g, d, i)
    ensures Reads(g, c, i) <= Reads(g, d, i)
  {
    var n := i.loc;
    match g.kind[n]
    case Addr(_) =>
    case Copy => GatherMonotone(c, d, DirectReads(g, n));
    case Gep => GatherMonotone(c, d, DirectReads(g, n));
    case Load(p) =>
      assert At(c, DefItem(g, p)) <= At(d, DefItem(g, p));
      forall o { GatherMonotone(c, d, IndirectReads(g, n, o)); }
    case Store(dst, _) =>
      GatherMonotone(c, d, IndirectReads(g, n, i.cur));
      if PassesOld(g, At(c, DefItem(g, dst)), i.cur) {
        PassesOldMonotone(g, At(c, DefItem(g, dst)), At(d, DefItem(g, dst)), i.cur);
      }
    case MemRegion => GatherMonotone(c, d, IndirectReads(g, n, i.cur));
  }

  // The equation of a store, by what its destination d points to: nothing while that is unknown,
  // the stored value alone when v is its one unique target, the old value alone when v is not a
  // target, and both otherwise.
  lemma StoreTransferCases(g: Net, c: Cache, i: Item)
    requires i.loc in g.kind && g.kind[i.loc].Store?
    ensures var d, v := At(c, StoreDst(g, i)), i.cur;
            var stored, before := At(c, StoreSrc(g, i)), Gather(c, IndirectReads(g, i.loc, v));
            && (d == {} ==> Transfer(g, c, i) == {})
            && (d == {v} && v in g.unique ==> Transfer(g, c, i) == stored)
            && (d != {} && v !in d ==> Transfer(g, c, i) == before)
            && (v in d && !(d == {v} && v in g.unique) ==> Transfer(g, c, i) == stored + before)
  {
    var d := At(c, StoreDst(g, i));
    assert d == {i.cur} ==> i.cur in d;
  }

  lemma GatherLocal(c: Cache, d: Cache, xs: set<Item>)
    requires forall x :: x in xs ==> At(c, x) == At(d, x)
    ensures Gather(c, xs) == Gather(d, xs)
  {
  }

  // The right-hand side and the read set depend on nothing but the items read.
  lemma TransferLocal(g: Net, c: Cache, d: Cache, i: Item)
    requires i.loc in g.kind
    requires forall y :: y in Reads(g, c, i) ==> At(c, y) == At(d, y)
    ensures Transfer(g, c, i) == Transfer(g, d, i)
    ensures Reads(g, c, i) == Reads(g, d, i)
  {
    var n := i.loc;
    match g.kind[n]
    case Addr(_) =>
    case Copy => GatherLocal(c, d, DirectReads(g, n));
    case Gep => GatherLocal(c, d, DirectReads(g, n));
    case Load(p) =>
      assert At(c, DefItem(g, p)) == At(d, DefItem(g, p));
      forall o | o in At(c, DefItem(g, p))
        ensures Gather(c, IndirectReads(g, n, o)) == Gather(d, IndirectReads(g, n, o))
      {
        GatherLocal(c, d, IndirectReads(g, n, o));
      }
    case Store(dst, _) =>
      if PassesOld(g, At(c, DefItem(g, dst)), i.cur) {
        GatherLocal(c, d, IndirectReads(g, n, i.cur));
      }
    case MemRegion => GatherLocal(c, d, IndirectReads(g, n, i.cur));
  }

  // Growth of y along edge e makes the solver evaluate x again.
  predicate TriggersVia(g: Net, e: Edge, y: Item, x: Item) {
    && e.src == y.loc && e.dst == x.loc
    && (e.Indirect? && !(x.loc in g.kind && g.kind[x.loc].Load?) ==> x.cur == y.cur)
  }

  ghost predicate Triggers(g: Net, y: Item, x: Item) {
    exists e :: e in g.edges && TriggersVia(g, e, y, x)
  }

  // Every item that is read triggers its reader, so no dependency escapes recomputation.
  lemma ReadsTrigger(g: Net, c: Cache, x: Item, y: Item)
    requires x.loc in g.kind && y in Reads(g, c, x)
    ensures Triggers(g, y, x)
  {
    match g.kind[x.loc]
    case Load(p) =>
      if y == DefItem(g, p) {
        assert TriggersVia(g, Direct(g.def[p], x.loc), y, x);
      }
    case Store(d, s) =>
      if y == DefItem(g, d) {
        assert TriggersVia(g, Direct(g.def[d], x.loc), y, x);
      } else if y == DefItem(g, s) {
        assert TriggersVia(g, Direct(g.def[s], x.loc), y, x);
      }
    case _ =>
  }

  lemma ReadsAreItems(g: Net, c: Cache, x: Item)
    requires x in g.Items
    ensures Reads(g, c, x) <= g.Items
  {
    forall y | y in Reads(g, c, x) ensures y in g.Items {
      ReadsTrigger(g, c, x, y);
      var e :| e in g.edges && TriggersVia(g, e, y, x);
      assert WellFormedEdge(g, e);
    }
  }
}
