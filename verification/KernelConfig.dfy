// The kernel configuration script: the reverse dependency map and the stack-driven count of what
// an option decides.
module KernelConfig {
  type Config = string

  type RevMap = map<Config, seq<Config>>

  datatype Counted = Count(count: nat) | KeyError

  // ---- the reverse map ----

  ghost predicate Distinct(s: seq<Config>) {
    forall i, j :: 0 <= i < j < |s| ==> s[i] != s[j]
  }

  ghost predicate Mentioned(deps: map<Config, map<Config, bool>>, x: Config) {
    exists c :: c in deps && x in deps[c]
  }

  ghost predicate Needs(deps: map<Config, map<Config, bool>>, c: Config, x: Config) {
    c in deps && x in deps[c] && deps[c][x]
  }

  // rev reverses the positive dependencies of deps.
  ghost predicate Reverses(rev: RevMap, deps: map<Config, map<Config, bool>>) {
    && (forall x :: x in rev <==> Mentioned(deps, x))
    && (forall x, c :: x in rev ==> (c in rev[x] <==> Needs(deps, c, x)))
    && (forall x :: x in rev ==> Distinct(rev[x]))
  }

  class Parser {
    var dependencyMapMap: map<Config, map<Config, bool>>
    var revDependencyMap: RevMap

    method AddReverse(config: Config, depConfig: Config)
      requires config in dependencyMapMap && depConfig in dependencyMapMap[config]
      modifies `revDependencyMap
      ensures revDependencyMap.Keys == old(revDependencyMap).Keys + {depConfig}
      ensures forall x :: x in old(revDependencyMap) && x != depConfig ==>
                revDependencyMap[x] == old(revDependencyMap)[x]
      ensures revDependencyMap[depConfig] ==
              (if depConfig in old(revDependencyMap) then old(revDependencyMap)[depConfig] else []) +
              (if dependencyMapMap[config][depConfig] then [config] else [])
    {
      if depConfig !in revDependencyMap {
        revDependencyMap := revDependencyMap[depConfig := []];
      }
      if dependencyMapMap[config][depConfig] {
        revDependencyMap := revDependencyMap[depConfig := revDependencyMap[depConfig] + [config]];
      }
    }

    // Enters the dependencies of one option, which rev does not know yet.
    method AddConfig(config: Config, ghost deps: map<Config, map<Config, bool>>)
      requires config in dependencyMapMap && config !in deps && Reverses(revDependencyMap, deps)
      modifies `revDependencyMap
      ensures Reverses(revDependencyMap, deps[config := dependencyMapMap[config]])
    {
      hide Reverses;
      var dependencies := dependencyMapMap[config];
      var todo := dependencies.Keys;
      ghost var done: map<Config, bool> := map[];
      assert Reverses(revDependencyMap, deps[config := done]) by {
        ReversesNothing(revDependencyMap, deps, config);
      }
      while todo != {}
        invariant todo <= dependencies.Keys
        invariant done == map x | x in dependencies && x !in todo :: dependencies[x]
        invariant Reverses(revDependencyMap, deps[config := done])
        decreases todo
      {
        var depConfig :| depConfig in todo;
        todo := todo - {depConfig};
        ghost var rev := revDependencyMap;
        AddReverse(config, depConfig);
        ReversesOneMore(rev, revDependencyMap, deps[config := done], config, depConfig, dependencies[depConfig]);
        Overwritten(deps, config, done, done[depConfig := dependencies[depConfig]]);
        done := done[depConfig := dependencies[depConfig]];
      }
      assert done == dependencies;
    }

    method BuildRevMap()
      requires revDependencyMap == map[]
      modifies `revDependencyMap
      ensures Reverses(revDependencyMap, dependencyMapMap)
      ensures forall x :: x in revDependencyMap <==> exists c :: c in dependencyMapMap && x in dependencyMapMap[c]
      ensures forall x, c :: x in revDependencyMap ==>
                (c in revDependencyMap[x] <==>
                 c in dependencyMapMap && x in dependencyMapMap[c] && dependencyMapMap[c][x])
      ensures forall x, i, j :: x in revDependencyMap && 0 <= i < j < |revDependencyMap[x]| ==>
                revDependencyMap[x][i] != revDependencyMap[x][j]
    {
      var todo := dependencyMapMap.Keys;
      ghost var done: map<Config, map<Config, bool>> := map[];
      while todo != {}
        invariant todo <= dependencyMapMap.Keys
        invariant done == map c | c in dependencyMapMap && c !in todo :: dependencyMapMap[c]
        invariant Reverses(revDependencyMap, done)
        decreases todo
      {
        var config :| config in todo;
        todo := todo - {config};
        AddConfig(config, done);
        done := done[config := dependencyMapMap[config]];
      }
      assert done == dependencyMapMap;
    }

    // The count of one option. The loop ends exactly if the option neither decides itself nor decides
    // an option that does (EndsIffAcyclic); what it leaves unreached may have cycles.
    method FindTransitiveDepCount(depConfig: Config) returns (result: Counted)
      requires depConfig in revDependencyMap ==> Acyclic(revDependencyMap, depConfig)
      ensures result == if depConfig in revDependencyMap
                        then Count(|revDependencyMap[depConfig]| + Decided(revDependencyMap, depConfig))
                        else KeyError
      ensures var rev := revDependencyMap;
              depConfig in rev ==>
                result == Count(|rev[depConfig]| + |Routes(rev, depConfig)| + |LeafRoutes(rev, depConfig)|)
    {
      if depConfig !in revDependencyMap {
        return KeyError;
      }
      var rev := revDependencyMap;
      var count: nat := |rev[depConfig]|;
      var workList := [depConfig];
      DecidedOne(rev, depConfig);
      while |workList| > 0
        invariant AcyclicAll(rev, workList)
        invariant count + DecidedAll(rev, workList) == |rev[depConfig]| + Decided(rev, depConfig)
        decreases if AcyclicAll(rev, workList) then UnfoldedAll(rev, workList) else 0
      {
        PopAccounts(rev, count, workList);
        var work := workList[|workList| - 1];
        workList := workList[..|workList| - 1];
        if work !in rev {
          count := count + 1;
        } else {
          count := count + |rev[work]|;
          workList := workList + rev[work];
        }
      }
      CountIsRoutes(rev, depConfig);
      result := Count(count);
    }
  }

  lemma Overwritten(deps: map<Config, map<Config, bool>>, c: Config, a: map<Config, bool>, b: map<Config, bool>)
    ensures deps[c := a][c := b] == deps[c := b]
  {
  }

  // An option whose dependencies have yet to be entered contributes nothing.
  lemma ReversesNothing(rev: RevMap, deps: map<Config, map<Config, bool>>, config: Config)
    requires config !in deps && Reverses(rev, deps)
    ensures Reverses(rev, deps[config := map[]])
  {
    var deps' := deps[config := map[]];
    forall x ensures Mentioned(deps', x) <==> Mentioned(deps, x) {
      if Mentioned(deps, x) {
        var c :| c in deps && x in deps[c];
        assert c in deps' && x in deps'[c];
      }
    }
    assert forall c, x :: Needs(deps', c, x) <==> Needs(deps, c, x);
  }

  lemma MentionedOneMore(deps: map<Config, map<Config, bool>>, config: Config, x: Config, positive: bool, y: Config)
    requires config in deps
    ensures Mentioned(deps[config := deps[config][x := positive]], y) <==> Mentioned(deps, y) || y == x
  {
    var deps' := deps[config := deps[config][x := positive]];
    if Mentioned(deps, y) {
      var c :| c in deps && y in deps[c];
      assert c in deps' && y in deps'[c];
    }
    if y == x {
      assert config in deps' && x in deps'[config];
    }
  }

  lemma NeedsOneMore(deps: map<Config, map<Config, bool>>, config: Config, x: Config, positive: bool,
                     c: Config, y: Config)
    requires config in deps && x !in deps[config]
    ensures Needs(deps[config := deps[config][x := positive]], c, y) <==>
            if c == config && y == x then positive else Needs(deps, c, y)
  {
  }

  lemma ReversesOneMore(rev: RevMap, rev': RevMap, deps: map<Config, map<Config, bool>>, config: Config,
                        x: Config, positive: bool)
    requires config in deps && x !in deps[config] && Reverses(rev, deps)
    requires rev'.Keys == rev.Keys + {x}
    requires forall y :: y in rev && y != x ==> rev'[y] == rev[y]
    requires rev'[x] == (if x in rev then rev[x] else []) + (if positive then [config] else [])
    ensures Reverses(rev', deps[config := deps[config][x := positive]])
  {
    var deps' := deps[config := deps[config][x := positive]];
    assert !Needs(deps, config, x) && (x !in rev ==> forall c :: !Needs(deps, c, x)) by {
      assert forall c :: Needs(deps, c, x) ==> Mentioned(deps, x);
    }
    forall y ensures Mentioned(deps', y) <==> Mentioned(deps, y) || y == x {
      MentionedOneMore(deps, config, x, positive, y);
    }
    forall c, y ensures Needs(deps', c, y) <==> if c == config && y == x then positive else Needs(deps, c, y) {
      NeedsOneMore(deps, config, x, positive, c, y);
    }
    hide Mentioned, Needs;
    assert config !in (if x in rev then rev[x] else []);
  }

  // ---- chains of options ----

  ghost predicate Chain(rev: RevMap, q: seq<Config>) {
    |q| >= 2 && forall i :: 0 <= i < |q| - 1 ==> q[i] in rev && q[i + 1] in rev[q[i]]
  }

  ghost predicate Decides(rev: RevMap, d: Config, c: Config) {
    exists q :: Chain(rev, q) && q[0] == d && q[|q| - 1] == c
  }

  lemma DecidesDirectly(rev: RevMap, d: Config, w: Config)
    requires d in rev && w in rev[d]
    ensures Decides(rev, d, w)
  {
    assert Chain(rev, [d, w]);
  }

  lemma DecidesThrough(rev: RevMap, d: Config, w: Config, c: Config)
    requires Decides(rev, d, w) && Decides(rev, w, c)
    ensures Decides(rev, d, c)
  {
    var q :| Chain(rev, q) && q[0] == d && q[|q| - 1] == w;
    var r :| Chain(rev, r) && r[0] == w && r[|r| - 1] == c;
    var joined := q + r[1..];
    forall i | 0 <= i < |joined| - 1 ensures joined[i] in rev && joined[i + 1] in rev[joined[i]] {
      if i >= |q| - 1 {
        assert joined[i] == r[i - (|q| - 1)] && joined[i + 1] == r[i - (|q| - 1) + 1];
      }
    }
    assert Chain(rev, joined);
  }

  // The first step of a chain.
  lemma DecidesFirst(rev: RevMap, d: Config, c: Config) returns (w: Config)
    requires Decides(rev, d, c)
    ensures d in rev && w in rev[d] && (w == c || Decides(rev, w, c))
  {
    var q :| Chain(rev, q) && q[0] == d && q[|q| - 1] == c;
    w := q[1];
    assert q[0] in rev && q[0 + 1] in rev[q[0]];
    if |q| > 2 {
      forall i | 0 <= i < |q| - 2 ensures q[1..][i] in rev && q[1..][i + 1] in rev[q[1..][i]] {
        assert q[i + 1] in rev && q[i + 1 + 1] in rev[q[i + 1]];
      }
      assert Chain(rev, q[1..]);
    }
  }

  // The distinct options that d decides.
  ghost function Dependents(rev: RevMap, d: Config): set<Config> {
    set x, c | x in rev && c in rev[x] && Decides(rev, d, c) :: c
  }

  lemma DependentsAreDecided(rev: RevMap, d: Config, c: Config)
    ensures c in Dependents(rev, d) <==> Decides(rev, d, c)
  {
    if Decides(rev, d, c) {
      var q :| Chain(rev, q) && q[0] == d && q[|q| - 1] == c;
      assert q[|q| - 2] in rev && q[|q| - 2 + 1] in rev[q[|q| - 2]];
    }
  }

  // Neither w nor anything it decides decides itself.
  ghost predicate Acyclic(rev: RevMap, w: Config) {
    forall x :: x == w || Decides(rev, w, x) ==> !Decides(rev, x, x)
  }

  ghost predicate AcyclicAll(rev: RevMap, ws: seq<Config>) {
    forall w :: w in ws ==> Acyclic(rev, w)
  }

  lemma AcyclicStep(rev: RevMap, d: Config, w: Config)
    requires d in rev && w in rev[d] && Acyclic(rev, d)
    ensures Acyclic(rev, w)
  {
    DecidesDirectly(rev, d, w);
    forall x | x == w || Decides(rev, w, x) ensures !Decides(rev, x, x) {
      if x != w {
        DecidesThrough(rev, d, w, x);
      }
    }
  }

  // Along the reverse map fewer and fewer options are decided.
  lemma FewerDependents(rev: RevMap, d: Config, w: Config)
    requires d in rev && w in rev[d] && Acyclic(rev, d)
    ensures Dependents(rev, w) < Dependents(rev, d) && |Dependents(rev, w)| < |Dependents(rev, d)|
  {
    DecidesDirectly(rev, d, w);
    DependentsAreDecided(rev, d, w);
    DependentsAreDecided(rev, w, w);
    forall c | c in Dependents(rev, w) ensures c in Dependents(rev, d) {
      DependentsAreDecided(rev, w, c);
      DecidesThrough(rev, d, w, c);
      DependentsAreDecided(rev, d, c);
    }
    SubsetSize(Dependents(rev, w), Dependents(rev, d) - {w});
  }

  lemma SubsetSize<T>(a: set<T>, b: set<T>)
    requires a <= b
    ensures |a| <= |b|
  {
    assert b == a + (b - a);
  }

  // ---- the count ----

  ghost function LevelAll(rev: RevMap, ws: seq<Config>): nat {
    if ws == [] then 0
    else
      var rest, last := LevelAll(rev, ws[..|ws| - 1]), |Dependents(rev, ws[|ws| - 1])| + 1;
      if rest < last then last else rest
  }

  lemma {:induction false} LevelBelow(rev: RevMap, d: Config, ws: seq<Config>)
    requires d in rev && Acyclic(rev, d) && forall w :: w in ws ==> w in rev[d]
    ensures LevelAll(rev, ws) <= |Dependents(rev, d)| && AcyclicAll(rev, ws)
  {
    if ws != [] {
      LevelBelow(rev, d, ws[..|ws| - 1]);
      FewerDependents(rev, d, ws[|ws| - 1]);
      AcyclicStep(rev, d, ws[|ws| - 1]);
    }
  }

  // What popping w and everything pushed because of it adds to the count.
  ghost function Decided(rev: RevMap, w: Config): nat
    requires Acyclic(rev, w)
    decreases |Dependents(rev, w)|
  {
    if w !in rev then 1
    else
      LevelBelow(rev, w, rev[w]);
      |rev[w]| + DecidedAll(rev, rev[w])
  }

  ghost function DecidedAll(rev: RevMap, ws: seq<Config>): nat
    requires AcyclicAll(rev, ws)
    decreases LevelAll(rev, ws), |ws|
  {
    if ws == [] then 0
    else DecidedAll(rev, ws[..|ws| - 1]) + Decided(rev, ws[|ws| - 1])
  }

  // The number of pops.
  ghost function Unfolded(rev: RevMap, w: Config): nat
    requires Acyclic(rev, w)
    decreases |Dependents(rev, w)|
  {
    if w !in rev then 1
    else
      LevelBelow(rev, w, rev[w]);
      1 + UnfoldedAll(rev, rev[w])
  }

  ghost function UnfoldedAll(rev: RevMap, ws: seq<Config>): nat
    requires AcyclicAll(rev, ws)
    decreases LevelAll(rev, ws), |ws|
  {
    if ws == [] then 0
    else UnfoldedAll(rev, ws[..|ws| - 1]) + Unfolded(rev, ws[|ws| - 1])
  }

  lemma {:induction false} DecidedConcat(rev: RevMap, a: seq<Config>, b: seq<Config>)
    requires AcyclicAll(rev, a) && AcyclicAll(rev, b)
    ensures AcyclicAll(rev, a + b)
    ensures DecidedAll(rev, a + b) == DecidedAll(rev, a) + DecidedAll(rev, b)
    ensures UnfoldedAll(rev, a + b) == UnfoldedAll(rev, a) + UnfoldedAll(rev, b)
  {
    if b == [] {
      assert a + b == a;
    } else {
      assert (a + b)[..|a + b| - 1] == a + b[..|b| - 1];
      DecidedConcat(rev, a, b[..|b| - 1]);
    }
  }

  lemma DecidedOne(rev: RevMap, w: Config)
    requires Acyclic(rev, w)
    ensures AcyclicAll(rev, [w]) && DecidedAll(rev, [w]) == Decided(rev, w)
  {
    assert [w][..0] == [];
  }

  // ---- the loop, one pop at a time ----

  datatype Stack = Stack(count: nat, work: seq<Config>)

  function Pop(rev: RevMap, s: Stack): Stack
    requires s.work != []
  {
    var work, rest := s.work[|s.work| - 1], s.work[..|s.work| - 1];
    if work !in rev then Stack(s.count + 1, rest) else Stack(s.count + |rev[work]|, rest + rev[work])
  }

  // The stack after at most n pops.
  function Popped(rev: RevMap, s: Stack, n: nat): Stack
    decreases n
  {
    if n == 0 || s.work == [] then s else Popped(rev, Pop(rev, s), n - 1)
  }

  function Start(rev: RevMap, d: Config): Stack
    requires d in rev
  {
    Stack(|rev[d]|, [d])
  }

  // A pop moves weight from the stack to the count, and there is one pop less to come.
  lemma PopAccounts(rev: RevMap, count: nat, work: seq<Config>)
    requires work != [] && AcyclicAll(rev, work)
    ensures var s := Pop(rev, Stack(count, work));
            && AcyclicAll(rev, s.work)
            && s.count + DecidedAll(rev, s.work) == count + DecidedAll(rev, work)
            && UnfoldedAll(rev, s.work) < UnfoldedAll(rev, work)
  {
    hide Acyclic;
    var w, rest := work[|work| - 1], work[..|work| - 1];
    assert DecidedAll(rev, work) == DecidedAll(rev, rest) + Decided(rev, w);
    assert UnfoldedAll(rev, work) == UnfoldedAll(rev, rest) + Unfolded(rev, w);
    if w in rev {
      LevelBelow(rev, w, rev[w]);
      DecidedConcat(rev, rest, rev[w]);
    }
  }

  lemma {:induction false} AcyclicEnds(rev: RevMap, s: Stack, n: nat)
    requires AcyclicAll(rev, s.work) && n >= UnfoldedAll(rev, s.work)
    ensures Popped(rev, s, n) == Stack(s.count + DecidedAll(rev, s.work), [])
    decreases n
  {
    hide Pop, AcyclicAll;
    if s.work != [] {
      PopAccounts(rev, s.count, s.work);
      AcyclicEnds(rev, Pop(rev, s), n - 1);
    }
  }

  // An option on a cycle, or leading to one, is replaced on the stack by another one of that kind.
  lemma CyclicStays(rev: RevMap, s: Stack)
    requires !AcyclicAll(rev, s.work)
    ensures s.work != [] && !AcyclicAll(rev, Pop(rev, s).work)
  {
    var w :| w in s.work && !Acyclic(rev, w);
    var last, rest := s.work[|s.work| - 1], s.work[..|s.work| - 1];
    if w in rest {
      assert w in Pop(rev, s).work;
    } else {
      assert w == last;
      var x :| (x == w || Decides(rev, w, x)) && Decides(rev, x, x);
      var c := DecidesFirst(rev, w, x);
      assert c == x || Decides(rev, c, x);
      assert c in Pop(rev, s).work && !Acyclic(rev, c);
    }
  }

  lemma {:induction false} CyclicNeverEnds(rev: RevMap, s: Stack, n: nat)
    requires !AcyclicAll(rev, s.work)
    ensures Popped(rev, s, n).work != []
    decreases n
  {
    hide Pop, AcyclicAll;
    if n > 0 {
      CyclicStays(rev, s);
      CyclicNeverEnds(rev, Pop(rev, s), n - 1);
    } else {
      CyclicStays(rev, s);
    }
  }

  // The loop ends exactly if the option neither decides itself nor decides an option that does.
  // Otherwise its stack is nonempty after every number of pops.
  lemma EndsIffAcyclic(rev: RevMap, d: Config)
    requires d in rev
    ensures Acyclic(rev, d) <==> exists n :: Popped(rev, Start(rev, d), n).work == []
    ensures Acyclic(rev, d) ==>
              exists n :: Popped(rev, Start(rev, d), n) == Stack(|rev[d]| + Decided(rev, d), [])
  {
    hide Popped, Acyclic;
    if Acyclic(rev, d) {
      DecidedOne(rev, d);
      AcyclicEnds(rev, Start(rev, d), UnfoldedAll(rev, [d]));
    } else {
      forall n ensures Popped(rev, Start(rev, d), n).work != [] {
        assert d in [d];
        CyclicNeverEnds(rev, Start(rev, d), n);
      }
    }
  }

  // Two options that depend on each other keep the stack nonempty forever.
  lemma TwoCycleNeverEnds(n: nat)
    ensures Popped(map["A" := ["B"], "B" := ["A"]], Stack(1, ["A"]), n).work != []
  {
    var rev := map["A" := ["B"], "B" := ["A"]];
    DecidesDirectly(rev, "A", "B");
    DecidesDirectly(rev, "B", "A");
    DecidesThrough(rev, "A", "B", "A");
    assert !Acyclic(rev, "A");
    assert "A" in ["A"];
    CyclicNeverEnds(rev, Stack(1, ["A"]), n);
  }

  // ---- the count against the options decided ----

  // The options in ws and those they decide.
  ghost function DependentsAll(rev: RevMap, ws: seq<Config>): set<Config> {
    if ws == [] then {}
    else DependentsAll(rev, ws[..|ws| - 1]) + {ws[|ws| - 1]} + Dependents(rev, ws[|ws| - 1])
  }

  lemma {:induction false} DependentsAllContain(rev: RevMap, ws: seq<Config>, w: Config)
    requires w in ws
    ensures {w} + Dependents(rev, w) <= DependentsAll(rev, ws)
  {
    if w != ws[|ws| - 1] {
      DependentsAllContain(rev, ws[..|ws| - 1], w);
    }
  }

  lemma DependentsUnfold(rev: RevMap, d: Config)
    ensures Dependents(rev, d) <= if d in rev then DependentsAll(rev, rev[d]) else {}
  {
    forall c | c in Dependents(rev, d) ensures d in rev && c in DependentsAll(rev, rev[d]) {
      DependentsAreDecided(rev, d, c);
      var w := DecidesFirst(rev, d, c);
      DependentsAllContain(rev, rev[d], w);
      DependentsAreDecided(rev, w, c);
    }
  }

  lemma {:induction false} DecidedCovers(rev: RevMap, ws: seq<Config>)
    requires AcyclicAll(rev, ws)
    ensures |DependentsAll(rev, ws)| <= |ws| + DecidedAll(rev, ws)
    decreases LevelAll(rev, ws), |ws|
  {
    hide Acyclic, Dependents;
    if ws != [] {
      var rest, w := ws[..|ws| - 1], ws[|ws| - 1];
      DecidedCovers(rev, rest);
      DependentsUnfold(rev, w);
      if w in rev {
        LevelBelow(rev, w, rev[w]);
        DecidedCovers(rev, rev[w]);
        SubsetSize(Dependents(rev, w), DependentsAll(rev, rev[w]));
      }
      UnionSize(DependentsAll(rev, rest), {w});
      UnionSize(DependentsAll(rev, rest) + {w}, Dependents(rev, w));
    }
  }

  lemma UnionSize(a: set<Config>, b: set<Config>)
    ensures |a + b| <= |a| + |b|
  {
    assert a + b == a + (b - a);
    assert |a + (b - a)| == |a| + |b - a|;
    assert b == (b - a) + (b * a);
  }

  // The count is never below the number of options decided, and it is that number only for options
  // that decide nothing: it adds the direct dependents twice and shared ones once for every chain.
  lemma CountMatchesOnlyWithoutDependents(rev: RevMap, d: Config)
    requires d in rev && Acyclic(rev, d)
    ensures var count, decided := |rev[d]| + Decided(rev, d), |Dependents(rev, d)|;
            && decided <= count
            && (count == decided <==> rev[d] == [])
  {
    hide Acyclic, Dependents;
    LevelBelow(rev, d, rev[d]);
    DependentsUnfold(rev, d);
    DecidedCovers(rev, rev[d]);
    SubsetSize(Dependents(rev, d), DependentsAll(rev, rev[d]));
  }

  // ---- the count in terms of chains ----

  // From d on, every position of p picks one of the listed dependents.
  ghost predicate Route(rev: RevMap, d: Config, p: seq<nat>)
    decreases |p|
  {
    p != [] ==> d in rev && p[0] < |rev[d]| && Route(rev, rev[d][p[0]], p[1..])
  }

  ghost function End(rev: RevMap, d: Config, p: seq<nat>): Config
    requires Route(rev, d, p)
    decreases |p|
  {
    if p == [] then d else End(rev, rev[d][p[0]], p[1..])
  }

  ghost predicate RouteVia(rev: RevMap, ws: seq<Config>, p: seq<nat>) {
    p != [] && p[0] < |ws| && Route(rev, ws[p[0]], p[1..])
  }

  ghost function Prefixed(n: nat, ps: set<seq<nat>>): set<seq<nat>> {
    set p | p in ps :: [n] + p
  }

  ghost function Routes(rev: RevMap, d: Config): set<seq<nat>>
    requires Acyclic(rev, d)
    decreases |Dependents(rev, d)|
  {
    if d !in rev then {}
    else
      LevelBelow(rev, d, rev[d]);
      RoutesVia(rev, rev[d])
  }

  // The routes that begin with one of ws.
  ghost function RoutesVia(rev: RevMap, ws: seq<Config>): set<seq<nat>>
    requires AcyclicAll(rev, ws)
    decreases LevelAll(rev, ws), |ws|
  {
    if ws == [] then {}
    else
      var n := |ws| - 1;
      RoutesVia(rev, ws[..n]) + {[n]} + Prefixed(n, Routes(rev, ws[n]))
  }

  lemma PrefixedMeaning(n: nat, ps: set<seq<nat>>, p: seq<nat>)
    ensures p in Prefixed(n, ps) <==> p != [] && p[0] == n && p[1..] in ps
    ensures |Prefixed(n, ps)| == |ps|
    decreases ps
  {
    if p != [] && p[0] == n {
      assert p == [n] + p[1..];
    }
    forall q | q in ps ensures ([n] + q)[1..] == q {
    }
    if ps != {} {
      var q :| q in ps;
      PrefixedMeaning(n, ps - {q}, p);
      assert Prefixed(n, ps) == Prefixed(n, ps - {q}) + {[n] + q};
      PrefixedMeaning(n, ps - {q}, [n] + q);
    }
  }

  lemma OneMore(n: nat, p: seq<nat>)
    requires p != [] && p[0] == n
    ensures p == [n] <==> p[1..] == []
  {
    assert p == [n] + p[1..];
  }

  // These are all nonempty routes, and nothing else.
  lemma {:induction false} RoutesMeaning(rev: RevMap, d: Config, p: seq<nat>)
    requires Acyclic(rev, d)
    ensures p in Routes(rev, d) <==> p != [] && Route(rev, d, p)
    decreases |Dependents(rev, d)|
  {
    if d in rev {
      LevelBelow(rev, d, rev[d]);
      RoutesViaMeaning(rev, rev[d], p);
    }
  }

  lemma {:induction false} RoutesViaMeaning(rev: RevMap, ws: seq<Config>, p: seq<nat>)
    requires AcyclicAll(rev, ws)
    ensures p in RoutesVia(rev, ws) <==> RouteVia(rev, ws, p)
    decreases LevelAll(rev, ws), |ws|
  {
    if ws != [] {
      hide Acyclic, Dependents, RouteVia, Route, Prefixed;
      var n := |ws| - 1;
      RouteViaSplit(rev, ws, p);
      RoutesViaMeaning(rev, ws[..n], p);
      PrefixedMeaning(n, Routes(rev, ws[n]), p);
      if p != [] && p[0] == n {
        RoutesMeaning(rev, ws[n], p[1..]);
      }
    }
  }

  lemma RouteViaSplit(rev: RevMap, ws: seq<Config>, p: seq<nat>)
    requires ws != []
    ensures var n := |ws| - 1;
            RouteVia(rev, ws, p) <==>
            RouteVia(rev, ws[..n], p) || p == [n] || (p != [] && p[0] == n && p[1..] != [] && Route(rev, ws[n], p[1..]))
  {
    var n := |ws| - 1;
    assert p != [] && p[0] < n ==> ws[..n][p[0]] == ws[p[0]];
    if p != [] && p[0] == n {
      OneMore(n, p);
    }
  }

  // Those routes that end in an option without an entry of its own.
  ghost function LeafRoutes(rev: RevMap, d: Config): set<seq<nat>>
    requires Acyclic(rev, d)
  {
    set p | p in Routes(rev, d) && Route(rev, d, p) && End(rev, d, p) !in rev
  }

  ghost function LeafRoutesVia(rev: RevMap, ws: seq<Config>): set<seq<nat>>
    requires AcyclicAll(rev, ws)
  {
    set p | p in RoutesVia(rev, ws) && RouteVia(rev, ws, p) && End(rev, ws[p[0]], p[1..]) !in rev
  }

  lemma DisjointSize<T>(a: set<T>, b: set<T>)
    requires a !! b
    ensures |a + b| == |a| + |b|
  {
  }

  lemma RoutesViaSize(rev: RevMap, ws: seq<Config>)
    requires AcyclicAll(rev, ws) && ws != []
    ensures var n := |ws| - 1;
            |RoutesVia(rev, ws)| == |RoutesVia(rev, ws[..n])| + 1 + |Routes(rev, ws[n])|
  {
    hide Acyclic, Dependents;
    var n := |ws| - 1;
    var before, rest := RoutesVia(rev, ws[..n]), Prefixed(n, Routes(rev, ws[n]));
    forall p | p in before ensures p != [] && p[0] < n {
      RoutesViaMeaning(rev, ws[..n], p);
    }
    forall p | p in rest ensures p[0] == n && p[1..] in Routes(rev, ws[n]) && p[1..] != [] {
      PrefixedMeaning(n, Routes(rev, ws[n]), p);
      RoutesMeaning(rev, ws[n], p[1..]);
    }
    assert [n][1..] == [];
    DisjointSize(before, {[n]});
    DisjointSize(before + {[n]}, rest);
    PrefixedMeaning(n, Routes(rev, ws[n]), [n]);
  }

  lemma LeafRoutesViaSize(rev: RevMap, ws: seq<Config>)
    requires AcyclicAll(rev, ws) && ws != []
    ensures var n := |ws| - 1;
            |LeafRoutesVia(rev, ws)| ==
            |LeafRoutesVia(rev, ws[..n])| + if ws[n] in rev then |LeafRoutes(rev, ws[n])| else 1
  {
    hide Acyclic, Dependents, RoutesVia, Routes;
    var n := |ws| - 1;
    var before := LeafRoutesVia(rev, ws[..n]);
    var last := if ws[n] in rev then Prefixed(n, LeafRoutes(rev, ws[n])) else {[n]};
    forall p ensures p in LeafRoutesVia(rev, ws) <==> p in before + last {
      LeafSplit(rev, ws, p);
    }
    forall p | p in before ensures p[0] < n {
      RoutesViaMeaning(rev, ws[..n], p);
    }
    forall p | p in last ensures p[0] == n {
      if ws[n] in rev {
        PrefixedMeaning(n, LeafRoutes(rev, ws[n]), p);
      }
    }
    assert LeafRoutesVia(rev, ws) == before + last;
    DisjointSize(before, last);
    PrefixedMeaning(n, LeafRoutes(rev, ws[n]), []);
  }

  lemma LeafSplit(rev: RevMap, ws: seq<Config>, p: seq<nat>)
    requires AcyclicAll(rev, ws) && ws != []
    ensures var n := |ws| - 1;
            p in LeafRoutesVia(rev, ws) <==>
            p in LeafRoutesVia(rev, ws[..n]) ||
            p in if ws[n] in rev then Prefixed(n, LeafRoutes(rev, ws[n])) else {[n]}
  {
    hide Acyclic, Dependents, RoutesVia, Routes;
    var n := |ws| - 1;
    RoutesViaMeaning(rev, ws, p);
    RoutesViaMeaning(rev, ws[..n], p);
    PrefixedMeaning(n, LeafRoutes(rev, ws[n]), p);
    assert p != [] && p[0] < n ==> ws[..n][p[0]] == ws[p[0]];
    assert [n][1..] == [];
    if p != [] && p[0] == n {
      RoutesMeaning(rev, ws[n], p[1..]);
      OneMore(n, p);
    }
  }

  lemma {:induction false} DecidedCountsRoutes(rev: RevMap, ws: seq<Config>)
    requires AcyclicAll(rev, ws)
    ensures DecidedAll(rev, ws) + |ws| == |RoutesVia(rev, ws)| + |LeafRoutesVia(rev, ws)|
    decreases LevelAll(rev, ws), |ws|
  {
    hide Acyclic, Dependents, LeafRoutesVia, LeafRoutes;
    if ws == [] {
      NoLeafRoutes(rev);
    } else {
      var n := |ws| - 1;
      DecidedCountsRoutes(rev, ws[..n]);
      RoutesViaSize(rev, ws);
      LeafRoutesViaSize(rev, ws);
      if ws[n] in rev {
        LevelBelow(rev, ws[n], rev[ws[n]]);
        DecidedCountsRoutes(rev, rev[ws[n]]);
        LeafRoutesUnfold(rev, ws[n]);
      }
    }
  }

  lemma NoLeafRoutes(rev: RevMap)
    ensures AcyclicAll(rev, []) && LeafRoutesVia(rev, []) == {}
  {
  }

  lemma LeafRoutesUnfold(rev: RevMap, d: Config)
    requires Acyclic(rev, d) && d in rev
    ensures AcyclicAll(rev, rev[d]) && LeafRoutes(rev, d) == LeafRoutesVia(rev, rev[d])
  {
    LevelBelow(rev, d, rev[d]);
    hide Acyclic, Dependents;
    forall p ensures p in LeafRoutes(rev, d) <==> p in LeafRoutesVia(rev, rev[d]) {
      RoutesMeaning(rev, d, p);
      RoutesViaMeaning(rev, rev[d], p);
    }
  }

  // The script's count: the direct dependents, all chains of dependents, and once more those chains
  // that end in an option on which nothing is recorded.
  lemma CountIsRoutes(rev: RevMap, d: Config)
    requires d in rev && Acyclic(rev, d)
    ensures |rev[d]| + Decided(rev, d) == |rev[d]| + |Routes(rev, d)| + |LeafRoutes(rev, d)|
  {
    LevelBelow(rev, d, rev[d]);
    DecidedCountsRoutes(rev, rev[d]);
    LeafRoutesUnfold(rev, d);
  }

  // One dependent, on which nothing depends in turn, counts three.
  lemma LeafCountsThree()
    ensures var rev := map["A" := ["B"]]; Acyclic(rev, "A") && |rev["A"]| + Decided(rev, "A") == 3
  {
    var rev := map["A" := ["B"]];
    forall x | x == "A" || Decides(rev, "A", x) ensures !Decides(rev, x, x) {
      if Decides(rev, x, x) {
        var w := DecidesFirst(rev, x, x);
        if w != x {
          var u := DecidesFirst(rev, w, x);
        }
      }
    }
    assert rev["A"][..0] == [];
    LevelBelow(rev, "A", ["B"]);
    assert Decided(rev, "B") == 1;
    assert DecidedAll(rev, ["B"][..0]) == 0;
  }
}
