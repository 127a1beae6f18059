// Must-lockset propagation on values: the flow graph of context-sensitive statements, one visit of
// a statement as a function of the analysis state, and what every visit keeps.
module LocksetFlow {

  // A statement in its calling context. An acquire statement is also the name of its lock.
  type Stmt = nat

  datatype Role = Acquire | Release | Other

  datatype Program = Program(
    role: map<Stmt, Role>,
    next: map<Stmt, seq<Stmt>>,   // in the order in which they are marked
    left: map<Stmt, nat>,         // statements left in the basic block
    entries: seq<Stmt>)
  {
    ghost predicate WellFormed() {
      && next.Keys == role.Keys && left.Keys == role.Keys
      && (forall s, t :: s in next && t in next[s] ==> t in role)
      && (forall e :: e in entries ==> e in role)
      && (forall s, t :: s in next && t in next[s] ==> t !in entries)
      && (forall s :: s in role && role[s].Acquire? ==> InsideBlock(s))
    }

    // An acquire is a call, so one statement of its block follows it.
    ghost predicate InsideBlock(s: Stmt)
      requires s in next.Keys && next.Keys == left.Keys
    {
      |next[s]| <= 1 && forall t :: t in next[s] && t in left ==> left[t] < left[s]
    }

    predicate IsAcquire(s: Stmt) {
      s in role && role[s].Acquire?
    }

    predicate IsRelease(s: Stmt) {
      s in role && role[s].Release?
    }
  }

  type Locks = map<Stmt, set<Stmt>>

  function Held(m: Locks, s: Stmt): set<Stmt> {
    if s in m then m[s] else {}
  }

  // touched and lost record the run: the statements visited so far, and whether marking has ever
  // given locks to a statement that was waiting without any.
  datatype State = State(locks: Locks, span: Locks, waiting: seq<Stmt>, touched: set<Stmt>, lost: bool)
  {
    ghost predicate Known(s: Stmt) {
      s in locks || s in waiting
    }

    // Visited, and not to be visited again.
    ghost predicate Done(s: Stmt) {
      s in touched && s !in waiting
    }
  }

  // ---- one visit ----

  function Push(w: seq<Stmt>, s: Stmt): seq<Stmt> {
    if s in w then w else w + [s]
  }

  function AddToSpans(span: Locks, s: Stmt, ls: set<Stmt>): Locks {
    span + map l | l in ls :: Held(span, l) + {s}
  }

  // Marking the successor t of s loses locks that were never held on another way to t.
  predicate Loses(st: State, t: Stmt, s: Stmt) {
    t !in st.locks && t in st.waiting && Held(st.locks, s) != {}
  }

  function Mark(st: State, t: Stmt, s: Stmt): State {
    var held := Held(st.locks, s);
    if t !in st.locks then
      State(if held == {} then st.locks else st.locks[t := held], AddToSpans(st.span, t, held),
            Push(st.waiting, t), st.touched, st.lost || Loses(st, t, s))
    else if st.locks[t] <= held then st
    else st.(locks := st.locks[t := st.locks[t] * held], waiting := Push(st.waiting, t))
  }

  function MarkAll(st: State, ts: seq<Stmt>, s: Stmt): State {
    if ts == [] then st else Mark(MarkAll(st, ts[..|ts| - 1], s), ts[|ts| - 1], s)
  }

  function Touch(st: State): State
    requires st.waiting != []
  {
    var s := st.waiting[0];
    st.(waiting := st.waiting[1..], touched := st.touched + {s}, locks := st.locks[s := Held(st.locks, s)])
  }

  function Take(st: State, s: Stmt): State {
    st.(locks := st.locks[s := Held(st.locks, s) + {s}], span := st.span[s := Held(st.span, s) + {s}])
  }

  function Drop(st: State, s: Stmt): State {
    st.(locks := st.locks[s := Held(st.locks, s) - {s}], span := st.span[s := Held(st.span, s) - {s}])
  }

  function Visit(p: Program, st: State): State
    requires p.WellFormed() && st.waiting != [] && st.waiting[0] in p.role
  {
    var s := st.waiting[0];
    var t := Touch(st);
    match p.role[s]
    case Acquire => if s in t.locks[s] then Take(t, s) else MarkAll(Take(t, s), p.next[s], s)
    case Release => if s in t.locks[s] then MarkAll(Drop(t, s), p.next[s], s) else t
    case Other => MarkAll(t, p.next[s], s)
  }

  // ---- paths ----

  // A way from an entry that the analysis follows: it does not go past a release.
  ghost predicate Path(p: Program, q: seq<Stmt>) {
    && |q| > 0 && q[0] in p.entries
    && (forall i :: 0 <= i < |q| ==> q[i] in p.role)
    && (forall i :: 0 <= i < |q| - 1 ==> Step(p, q[i], q[i + 1]))
  }

  ghost predicate Step(p: Program, s: Stmt, t: Stmt) {
    s in p.next && t in p.next[s] && !p.IsRelease(s)
  }

  ghost predicate Reaches(p: Program, q: seq<Stmt>, s: Stmt) {
    Path(p, q) && q[|q| - 1] == s
  }

  ghost predicate Reachable(p: Program, s: Stmt) {
    exists q :: Reaches(p, q, s)
  }

  ghost predicate Avoidable(p: Program, s: Stmt, l: Stmt) {
    exists q :: Reaches(p, q, s) && l !in q
  }

  ghost predicate Via(p: Program, s: Stmt, l: Stmt) {
    exists q :: Reaches(p, q, s) && l in q
  }

  lemma Extend(p: Program, q: seq<Stmt>, s: Stmt, t: Stmt)
    requires p.WellFormed() && Reaches(p, q, s) && Step(p, s, t)
    ensures Reaches(p, q + [t], t)
  {
  }

  lemma AvoidableExtends(p: Program, s: Stmt, t: Stmt, l: Stmt)
    requires p.WellFormed() && Avoidable(p, s, l) && Step(p, s, t) && l != t
    ensures Avoidable(p, t, l)
  {
    var q :| Reaches(p, q, s) && l !in q;
    Extend(p, q, s, t);
    assert l !in q + [t];
  }

  lemma ViaExtends(p: Program, s: Stmt, t: Stmt, l: Stmt)
    requires p.WellFormed() && Via(p, s, l) && Step(p, s, t)
    ensures Via(p, t, l)
  {
    var q :| Reaches(p, q, s) && l in q;
    Extend(p, q, s, t);
    assert l in q + [t];
  }

  lemma ReachableExtends(p: Program, s: Stmt, t: Stmt)
    requires p.WellFormed() && Reachable(p, s) && Step(p, s, t)
    ensures Reachable(p, t)
  {
    var q :| Reaches(p, q, s);
    Extend(p, q, s, t);
  }

  // ---- what holds at every moment ----

  ghost predicate Distinct(w: seq<Stmt>) {
    forall i, j :: 0 <= i < j < |w| ==> w[i] != w[j]
  }

  ghost predicate Shape(p: Program, st: State) {
    && (forall s :: st.Known(s) ==> s in p.role)
    && st.touched <= st.locks.Keys
    && (forall s :: s in st.locks && s !in st.touched ==> s in st.waiting)
    && Distinct(st.waiting)
  }

  // Locks are held in nested fashion: whoever holds a lock holds what was held at its acquire.
  ghost predicate Nested(p: Program, st: State) {
    && (forall x, l :: l in Held(st.locks, x) ==> p.IsAcquire(l) && l in st.touched)
    && (forall x, l :: l in Held(st.locks, x) ==> Held(st.locks, l) <= Held(st.locks, x))
  }

  // An acquire holds its own lock exactly when it need not be visited again; s is being visited.
  ghost predicate Own(p: Program, st: State, s: set<Stmt>) {
    && (forall x :: p.IsAcquire(x) && st.Done(x) && x !in s ==> x in Held(st.locks, x))
    && (forall x :: p.IsAcquire(x) && x in st.waiting ==> x !in Held(st.locks, x))
  }

  ghost predicate Spans(st: State) {
    forall x, l :: l in Held(st.locks, x) ==> x in Held(st.span, l)
  }

  // A lock that is not held is avoided on some way.
  ghost predicate Justified(p: Program, st: State) {
    forall x :: st.Known(x) ==>
      Reachable(p, x) && forall l :: p.IsAcquire(l) && l != x && l !in Held(st.locks, x) ==> Avoidable(p, x, l)
  }

  ghost predicate Entered(p: Program, st: State) {
    forall e :: e in p.entries ==> st.Known(e) && Held(st.locks, e) <= {e}
  }

  // The successors of done statements have been found; s is being visited.
  ghost predicate Found(p: Program, st: State, s: set<Stmt>) {
    forall x, t :: st.Done(x) && x !in s && Step(p, x, t) ==> st.Known(t)
  }

  // What a successor of a done statement holds is held there, except for its own lock.
  ghost predicate Carries(st: State, x: Stmt, t: Stmt) {
    Held(st.locks, t) - {t} <= Held(st.locks, x)
  }

  ghost predicate Carried(p: Program, st: State, s: set<Stmt>) {
    forall x, t :: st.Done(x) && x !in s && Step(p, x, t) ==> Carries(st, x, t)
  }

  // What marking t from s establishes.
  ghost predicate Passed(st: State, s: Stmt, t: Stmt) {
    Carries(st, s, t) && (Held(st.locks, s) != {} ==> t in st.locks)
  }

  // Done statements that hold something pass on to every successor what it may hold.
  ghost predicate HeldCarried(p: Program, st: State, s: set<Stmt>) {
    forall x, t :: st.Done(x) && x !in s && Step(p, x, t) && Held(st.locks, x) != {} ==>
      t in st.locks && Carries(st, x, t)
  }

  // A lock that is held is acquired on some way.
  ghost predicate Through(p: Program, st: State) {
    forall x, l :: l in Held(st.locks, x) ==> Via(p, x, l)
  }

  // A statement without an entry waits because of a predecessor that holds nothing.
  ghost predicate Bare(p: Program, st: State, t: Stmt) {
    exists x :: st.Done(x) && Step(p, x, t) && Held(st.locks, x) == {} && !p.IsAcquire(x)
  }

  ghost predicate BareWaiting(p: Program, st: State) {
    forall t :: t in st.waiting && t !in st.locks && t !in p.entries ==> Bare(p, st, t)
  }

  ghost predicate Inv(p: Program, st: State, s: set<Stmt>) {
    && Shape(p, st) && Nested(p, st) && Own(p, st, s) && Spans(st)
    && Justified(p, st) && Entered(p, st) && Found(p, st, s) && BareWaiting(p, st)
    && HeldCarried(p, st, s) && Through(p, st)
    && (!st.lost ==> Carried(p, st, s))
  }

  // ---- marking one successor ----

  // s has been touched and, if it is an acquire, holds its own lock.
  ghost predicate Marking(p: Program, st: State, t: Stmt, s: Stmt) {
    && p.WellFormed() && Step(p, s, t) && st.Done(s)
    && (p.IsAcquire(s) ==> s in Held(st.locks, s))
  }

  lemma MarkHeld(st: State, t: Stmt, s: Stmt, x: Stmt)
    ensures Held(Mark(st, t, s).locks, x) ==
            if x != t then Held(st.locks, x)
            else if t !in st.locks then Held(st.locks, s)
            else Held(st.locks, t) * Held(st.locks, s)
  {
  }

  lemma MarkKnows(st: State, t: Stmt, s: Stmt)
    ensures forall x :: Mark(st, t, s).Known(x) <==> st.Known(x) || x == t
    ensures forall x :: x in st.waiting ==> x in Mark(st, t, s).waiting
    ensures forall x :: x in Mark(st, t, s).waiting ==> x in st.waiting || x == t
    ensures Mark(st, t, s).touched == st.touched
    ensures Mark(st, t, s).lost <==> st.lost || Loses(st, t, s)
  {
  }

  lemma MarkShape(p: Program, st: State, t: Stmt, s: Stmt)
    requires Marking(p, st, t, s) && Shape(p, st)
    ensures Shape(p, Mark(st, t, s))
  {
    MarkKnows(st, t, s);
  }

  lemma MarkNested(p: Program, st: State, t: Stmt, s: Stmt)
    requires Marking(p, st, t, s) && Shape(p, st) && Nested(p, st)
    ensures Nested(p, Mark(st, t, s))
  {
    hide Mark;
    MarkKnows(st, t, s);
    forall x { MarkHeld(st, t, s, x); }
  }

  // Taking away an acquire's foreign locks takes away its own one too, so it is visited again and
  // propagates.
  lemma MarkOwn(p: Program, st: State, t: Stmt, s: Stmt)
    requires Marking(p, st, t, s) && Shape(p, st) && Nested(p, st) && Own(p, st, {s})
    ensures Own(p, Mark(st, t, s), {s})
    ensures p.IsAcquire(s) && Mark(st, t, s).Done(s) ==> s in Held(Mark(st, t, s).locks, s)
  {
    if t in st.locks && t in st.locks[t] && t in Held(st.locks, s) {
      assert Held(st.locks, t) <= Held(st.locks, s);
    }
  }

  lemma MarkSpans(st: State, t: Stmt, s: Stmt)
    requires Spans(st)
    ensures Spans(Mark(st, t, s))
  {
    hide Mark;
    forall x, l | l in Held(Mark(st, t, s).locks, x) ensures x in Held(Mark(st, t, s).span, l) {
      MarkHeld(st, t, s, x);
      MarkSpan(st, t, s, l);
    }
  }

  lemma MarkSpan(st: State, t: Stmt, s: Stmt, l: Stmt)
    ensures Held(Mark(st, t, s).span, l) ==
            Held(st.span, l) + if t !in st.locks && l in Held(st.locks, s) then {t} else {}
  {
  }

  lemma MarkJustified(p: Program, st: State, t: Stmt, s: Stmt)
    requires Marking(p, st, t, s) && Shape(p, st) && Justified(p, st)
    ensures Justified(p, Mark(st, t, s))
  {
    hide Mark, Reachable, Avoidable;
    MarkKnows(st, t, s);
    ReachableExtends(p, s, t);
    forall x, l | Mark(st, t, s).Known(x) && p.IsAcquire(l) && l != x && l !in Held(Mark(st, t, s).locks, x)
      ensures Avoidable(p, x, l)
    {
      MarkHeld(st, t, s, x);
      if x == t && l !in Held(st.locks, s) {
        AvoidableExtends(p, s, t, l);
      }
    }
  }

  lemma MarkEntered(p: Program, st: State, t: Stmt, s: Stmt)
    requires Marking(p, st, t, s) && Entered(p, st)
    ensures Entered(p, Mark(st, t, s))
  {
    MarkKnows(st, t, s);
    forall e { MarkHeld(st, t, s, e); }
  }

  lemma MarkFound(p: Program, st: State, t: Stmt, s: Stmt)
    requires Found(p, st, {s})
    ensures Found(p, Mark(st, t, s), {s})
  {
    MarkKnows(st, t, s);
  }

  lemma MarkBareWaiting(p: Program, st: State, t: Stmt, s: Stmt)
    requires Marking(p, st, t, s) && Shape(p, st) && BareWaiting(p, st)
    ensures BareWaiting(p, Mark(st, t, s))
  {
    var st' := Mark(st, t, s);
    forall u | u in st'.waiting && u !in st'.locks && u !in p.entries ensures Bare(p, st', u) {
      if u !in st.waiting {
        assert st.Done(s) && Step(p, s, u) && Held(st.locks, s) == {};
      }
      var x :| st.Done(x) && Step(p, x, u) && Held(st.locks, x) == {} && !p.IsAcquire(x);
      MarkEmpty(st, t, s, x);
    }
  }

  // A done statement without locks stays as it is.
  lemma MarkEmpty(st: State, t: Stmt, s: Stmt, x: Stmt)
    requires st.Done(x) && st.touched <= st.locks.Keys && Held(st.locks, x) == {}
    ensures Mark(st, t, s).Done(x) && Held(Mark(st, t, s).locks, x) == {}
  {
  }

  lemma MarkCarried(p: Program, st: State, t: Stmt, s: Stmt)
    requires Marking(p, st, t, s) && Shape(p, st) && Nested(p, st) && Found(p, st, {s}) && Carried(p, st, {s})
    requires !Loses(st, t, s)
    ensures Carried(p, Mark(st, t, s), {s})
  {
    hide Mark;
    var st' := Mark(st, t, s);
    MarkKnows(st, t, s);
    forall x, u | st'.Done(x) && x != s && Step(p, x, u) ensures Carries(st', x, u) {
      MarkHeld(st, t, s, x);
      MarkHeld(st, t, s, u);
      assert st.Done(x) && Carries(st, x, u);
      if x == t {
        MarkDone(st, t, s);
      }
    }
  }

  lemma MarkHeldCarried(p: Program, st: State, t: Stmt, s: Stmt)
    requires Marking(p, st, t, s) && Shape(p, st) && HeldCarried(p, st, {s})
    ensures HeldCarried(p, Mark(st, t, s), {s})
  {
    hide Mark;
    var st' := Mark(st, t, s);
    MarkKnows(st, t, s);
    forall x, u | st'.Done(x) && x != s && Step(p, x, u) && Held(st'.locks, x) != {}
      ensures u in st'.locks && Carries(st', x, u)
    {
      MarkHeld(st, t, s, x);
      MarkHeld(st, t, s, u);
      if x == t {
        MarkDone(st, t, s);
      }
      assert st.Done(x) && Held(st.locks, x) != {};
      MarkMaps(st, t, s, u);
    }
  }

  lemma MarkMaps(st: State, t: Stmt, s: Stmt, u: Stmt)
    ensures u in st.locks ==> u in Mark(st, t, s).locks
  {
  }

  lemma MarkThrough(p: Program, st: State, t: Stmt, s: Stmt)
    requires Marking(p, st, t, s) && Through(p, st)
    ensures Through(p, Mark(st, t, s))
  {
    hide Mark, Via;
    forall x, l | l in Held(Mark(st, t, s).locks, x) ensures Via(p, x, l) {
      MarkHeld(st, t, s, x);
      if x == t && l in Held(st.locks, s) {
        ViaExtends(p, s, t, l);
      }
    }
  }

  // Whoever loses a lock has to be visited again.
  lemma MarkDone(st: State, t: Stmt, s: Stmt)
    requires t in st.touched && st.touched <= st.locks.Keys && t !in Mark(st, t, s).waiting
    ensures Held(Mark(st, t, s).locks, t) == Held(st.locks, t)
  {
  }

  // Marking keeps everything done statements carry exactly when it does not give locks to a
  // statement that waits without any.
  lemma MarkCarriesUnlessLost(p: Program, st: State, t: Stmt, s: Stmt)
    requires Marking(p, st, t, s) && Inv(p, st, {s}) && Carried(p, st, {s})
    ensures Carried(p, Mark(st, t, s), {s}) <==> !Loses(st, t, s)
  {
    hide Mark, Own, Spans, Justified, Entered, Found, Carried, HeldCarried, Through;
    if Loses(st, t, s) {
      var x :| st.Done(x) && Step(p, x, t) && Held(st.locks, x) == {} && !p.IsAcquire(x);
      BareLoses(p, st, t, s, x);
    } else {
      MarkCarried(p, st, t, s);
    }
  }

  lemma BareLoses(p: Program, st: State, t: Stmt, s: Stmt, x: Stmt)
    requires Marking(p, st, t, s) && Shape(p, st) && Nested(p, st) && Loses(st, t, s)
    requires st.Done(x) && Step(p, x, t) && Held(st.locks, x) == {}
    ensures !Carried(p, Mark(st, t, s), {s})
  {
    MarkEmpty(st, t, s, x);
    MarkHeld(st, t, s, t);
    hide Mark;
    assert t !in Held(st.locks, s);
    var l :| l in Held(st.locks, s);
    assert l in Held(Mark(st, t, s).locks, t) - {t};
    assert !Carries(Mark(st, t, s), x, t);
  }

  lemma MarkKeepsInv(p: Program, st: State, t: Stmt, s: Stmt)
    requires Marking(p, st, t, s) && Inv(p, st, {s})
    ensures Inv(p, Mark(st, t, s), {s}) && Marking(p, Mark(st, t, s), t, s)
    ensures Held(Mark(st, t, s).locks, s) == Held(st.locks, s)
    ensures Mark(st, t, s).Known(t) && Passed(Mark(st, t, s), s, t)
  {
    hide Mark, Shape, Nested, Own, Justified, Spans, Entered, Found, Carried, BareWaiting, HeldCarried, Through;
    hide Carries, Step;
    InMap(p, st, s);
    MarkShape(p, st, t, s);
    MarkNested(p, st, t, s);
    MarkOwn(p, st, t, s);
    MarkSpans(st, t, s);
    MarkJustified(p, st, t, s);
    MarkEntered(p, st, t, s);
    MarkFound(p, st, t, s);
    MarkBareWaiting(p, st, t, s);
    MarkHeldCarried(p, st, t, s);
    MarkThrough(p, st, t, s);
    MarkKnows(st, t, s);
    if !Mark(st, t, s).lost {
      MarkCarried(p, st, t, s);
    }
    MarkSource(st, t, s);
  }

  lemma InMap(p: Program, st: State, s: Stmt)
    requires Shape(p, st) && st.Done(s)
    ensures s in st.locks
  {
  }

  // The statement being visited keeps its locks and is not put back, even if it is its own successor.
  lemma MarkSource(st: State, t: Stmt, s: Stmt)
    requires st.Done(s) && s in st.locks
    ensures Mark(st, t, s).Done(s) && Held(Mark(st, t, s).locks, s) == Held(st.locks, s)
    ensures Mark(st, t, s).Known(t) && Passed(Mark(st, t, s), s, t)
  {
  }

  lemma {:induction false} MarkAllKeepsInv(p: Program, st: State, ts: seq<Stmt>, s: Stmt)
    requires p.WellFormed() && Inv(p, st, {s}) && st.Done(s) && (p.IsAcquire(s) ==> s in Held(st.locks, s))
    requires forall t :: t in ts ==> Step(p, s, t)
    ensures var st' := MarkAll(st, ts, s);
            && Inv(p, st', {s}) && st'.Done(s) && Held(st'.locks, s) == Held(st.locks, s)
            && (st.lost ==> st'.lost)
            && (forall t :: t in ts ==> st'.Known(t) && Passed(st', s, t))
  {
    hide Inv, Mark;
    if ts != [] {
      var rest, t := ts[..|ts| - 1], ts[|ts| - 1];
      MarkAllKeepsInv(p, st, rest, s);
      var st1 := MarkAll(st, rest, s);
      MarkKeepsInv(p, st1, t, s);
      MarkKnows(st1, t, s);
      forall u | u in ts
        ensures Mark(st1, t, s).Known(u) && Passed(Mark(st1, t, s), s, u)
      {
        if u != t {
          assert u in rest;
          MarkHeld(st1, t, s, u);
          MarkMaps(st1, t, s, u);
        }
      }
    }
  }

  // ---- a whole visit ----

  lemma TouchKeepsInv(p: Program, st: State)
    requires Inv(p, st, {}) && st.waiting != []
    ensures Inv(p, Touch(st), {st.waiting[0]}) && Touch(st).Done(st.waiting[0])
    ensures st.waiting[0] in Touch(st).locks
  {
    TouchKeepsRest(p, st);
    TouchKeepsEdges(p, st);
    hide Nested, Own, Spans, Justified, Entered, Found, Carried, BareWaiting, HeldCarried, Through;
  }

  lemma TouchKeepsRest(p: Program, st: State)
    requires Inv(p, st, {}) && st.waiting != []
    ensures var s, st' := st.waiting[0], Touch(st);
            && Shape(p, st') && Nested(p, st') && Own(p, st', {s}) && Spans(st') && Justified(p, st') && Entered(p, st')
  {
    hide Found, Carried, BareWaiting, HeldCarried, Through, Reachable, Avoidable;
    var s, st' := st.waiting[0], Touch(st);
    assert forall x :: x in st.waiting <==> x == s || x in st'.waiting;
    assert forall x :: st'.Known(x) <==> st.Known(x);
    assert forall x :: Held(st'.locks, x) == Held(st.locks, x);
  }

  lemma TouchKeepsEdges(p: Program, st: State)
    requires Inv(p, st, {}) && st.waiting != []
    ensures Found(p, Touch(st), {st.waiting[0]}) && BareWaiting(p, Touch(st))
    ensures HeldCarried(p, Touch(st), {st.waiting[0]}) && Through(p, Touch(st))
    ensures !st.lost ==> Carried(p, Touch(st), {st.waiting[0]})
  {
    hide Nested, Own, Spans, Justified, Entered;
    var s, st' := st.waiting[0], Touch(st);
    assert forall x :: x in st.waiting <==> x == s || x in st'.waiting;
    assert forall x :: st'.Known(x) <==> st.Known(x);
    assert forall x :: Held(st'.locks, x) == Held(st.locks, x);
    forall t | t in st'.waiting && t !in st'.locks && t !in p.entries ensures Bare(p, st', t) {
      var x :| st.Done(x) && Step(p, x, t) && Held(st.locks, x) == {} && !p.IsAcquire(x);
      assert st'.Done(x);
    }
  }

  lemma TakeKeepsInv(p: Program, st: State, s: Stmt)
    requires Inv(p, st, {s}) && st.Done(s) && p.IsAcquire(s)
    ensures Inv(p, Take(st, s), {s}) && Take(st, s).Done(s) && s in Held(Take(st, s).locks, s)
  {
    TakeKeepsLocks(p, st, s);
    TakeKeepsRest(p, st, s);
    TakeKeepsThrough(p, st, s);
    TakeKeepsEdges(p, st, s);
    hide Shape, Nested, Own, Spans, Justified, Entered, Found, Carried, BareWaiting, HeldCarried, Through;
  }

  lemma TakeKeepsThrough(p: Program, st: State, s: Stmt)
    requires Inv(p, st, {s}) && st.Done(s)
    ensures Through(p, Take(st, s))
  {
    hide Shape, Nested, Own, Spans, Found, Carried, BareWaiting, HeldCarried, Entered, Avoidable;
    assert st.Known(s) by { InMap(p, st, s); }
    var q :| Reaches(p, q, s);
    assert s in q;
    assert forall x :: Held(Take(st, s).locks, x) == Held(st.locks, x) + if x == s then {s} else {};
  }

  lemma TakeKeepsRest(p: Program, st: State, s: Stmt)
    requires Inv(p, st, {s}) && st.Done(s) && p.IsAcquire(s)
    ensures Shape(p, Take(st, s)) && Justified(p, Take(st, s)) && Entered(p, Take(st, s))
  {
    hide Nested, Own, Spans, Found, Carried, BareWaiting, HeldCarried, Through, Reachable, Avoidable;
    var st' := Take(st, s);
    assert forall x :: Held(st'.locks, x) == Held(st.locks, x) + if x == s then {s} else {};
    assert forall x :: st'.Known(x) <==> st.Known(x);
  }

  lemma TakeKeepsLocks(p: Program, st: State, s: Stmt)
    requires Inv(p, st, {s}) && st.Done(s) && p.IsAcquire(s)
    ensures Nested(p, Take(st, s)) && Own(p, Take(st, s), {s}) && Spans(Take(st, s))
  {
    hide Found, Carried, BareWaiting, HeldCarried, Through, Justified, Entered;
    var st' := Take(st, s);
    assert forall x :: Held(st'.locks, x) == Held(st.locks, x) + if x == s then {s} else {};
    assert forall x :: Held(st'.span, x) == Held(st.span, x) + if x == s then {s} else {};
  }

  lemma TakeKeepsEdges(p: Program, st: State, s: Stmt)
    requires Inv(p, st, {s}) && st.Done(s) && p.IsAcquire(s)
    ensures Found(p, Take(st, s), {s}) && BareWaiting(p, Take(st, s)) && HeldCarried(p, Take(st, s), {s})
    ensures !st.lost ==> Carried(p, Take(st, s), {s})
  {
    hide Nested, Own, Spans, Justified, Entered;
    var st' := Take(st, s);
    assert forall x :: Held(st'.locks, x) == Held(st.locks, x) + if x == s then {s} else {};
    assert forall x :: st'.Known(x) <==> st.Known(x);
    forall t | t in st'.waiting && t !in st'.locks && t !in p.entries ensures Bare(p, st', t) {
      var x :| st.Done(x) && Step(p, x, t) && Held(st.locks, x) == {} && !p.IsAcquire(x);
      assert st'.Done(x);
    }
    if !st.lost {
      forall x, t | st'.Done(x) && x != s && Step(p, x, t) ensures Carries(st', x, t) {
        assert Carries(st, x, t);
      }
    }
  }

  // A visit is complete once all successors have been marked.
  lemma VisitEnds(p: Program, st: State, s: Stmt)
    requires Inv(p, st, {s}) && (p.IsAcquire(s) ==> s in Held(st.locks, s))
    requires forall t :: Step(p, s, t) ==> st.Known(t) && Passed(st, s, t)
    ensures Inv(p, st, {})
  {
  }

  // An acquire that is visited never holds its own lock yet, and no statement ever holds a lock
  // named by a release. So every visited acquire propagates and no release does.
  lemma VisitTurns(p: Program, st: State)
    requires p.WellFormed() && Inv(p, st, {}) && st.waiting != []
    ensures var s := st.waiting[0];
            && s in p.role && (!p.role[s].Other? ==> s !in Touch(st).locks[s])
            && Visit(p, st) == match p.role[s]
                               case Acquire => MarkAll(Take(Touch(st), s), p.next[s], s)
                               case Release => Touch(st)
                               case Other => MarkAll(Touch(st), p.next[s], s)
  {
    assert st.Known(st.waiting[0]);
  }

  lemma VisitKeepsInv(p: Program, st: State)
    requires p.WellFormed() && Inv(p, st, {}) && st.waiting != []
    ensures Inv(p, Visit(p, st), {}) && (st.lost ==> Visit(p, st).lost)
  {
    var s, t := st.waiting[0], Touch(st);
    VisitTurns(p, st);
    TouchKeepsInv(p, st);
    hide Inv, MarkAll, Passed, Visit;
    match p.role[s]
    case Release => VisitEnds(p, t, s);
    case Acquire =>
      TakeKeepsInv(p, t, s);
      MarkAllKeepsInv(p, Take(t, s), p.next[s], s);
      VisitEnds(p, MarkAll(Take(t, s), p.next[s], s), s);
    case Other =>
      MarkAllKeepsInv(p, t, p.next[s], s);
      VisitEnds(p, MarkAll(t, p.next[s], s), s);
  }

  // ---- termination ----

  ghost function Unknown(p: Program, st: State): set<Stmt> {
    set s | s in p.role && !st.Known(s)
  }

  ghost function Unmapped(p: Program, st: State): set<Stmt> {
    p.role.Keys - st.locks.Keys
  }

  ghost function Foreign(st: State): set<(Stmt, Stmt)> {
    set x, l | x in st.locks && l in st.locks[x] && l != x :: (x, l)
  }

  ghost function Ordinary(p: Program, st: State): set<Stmt> {
    set s | s in st.waiting && !p.IsAcquire(s)
  }

  ghost function One(p: Program, s: Stmt): nat {
    if p.IsAcquire(s) && s in p.left then p.left[s] + 1 else 0
  }

  ghost function Weight(p: Program, w: seq<Stmt>): nat {
    if w == [] then 0 else One(p, w[0]) + Weight(p, w[1..])
  }

  lemma {:induction false} WeightPush(p: Program, w: seq<Stmt>, s: Stmt)
    ensures Weight(p, w + [s]) == Weight(p, w) + One(p, s)
  {
    if w == [] {
      assert w + [s] == [s];
    } else {
      assert (w + [s])[1..] == w[1..] + [s];
      WeightPush(p, w[1..], s);
    }
  }

  // More is known, more has an entry, or fewer foreign locks are held.
  ghost predicate Smaller(p: Program, a: State, b: State) {
    || Unknown(p, a) < Unknown(p, b)
    || (Unknown(p, a) == Unknown(p, b) && Unmapped(p, a) < Unmapped(p, b))
    || (Unknown(p, a) == Unknown(p, b) && Unmapped(p, a) == Unmapped(p, b) && Foreign(a) < Foreign(b))
  }

  ghost predicate Even(p: Program, a: State, b: State) {
    Unknown(p, a) == Unknown(p, b) && Unmapped(p, a) == Unmapped(p, b) && Foreign(a) == Foreign(b)
  }

  lemma SmallerCombines(p: Program, a: State, b: State, c: State)
    requires Smaller(p, a, b) || Even(p, a, b)
    requires Smaller(p, b, c) || Even(p, b, c)
    ensures Smaller(p, a, c) || (Even(p, a, c) && !Smaller(p, a, b) && !Smaller(p, b, c))
  {
    hide Unknown, Unmapped, Foreign;
  }

  // Marking gets closer to the end in one of these respects, or it takes nothing but an acquire's
  // own lock away and puts that acquire back.
  lemma MarkProgress(p: Program, st: State, t: Stmt, s: Stmt)
    requires t in p.role && Nested(p, st)
    ensures var st' := Mark(st, t, s);
            || Smaller(p, st', st)
            || (Even(p, st', st) && (st'.waiting == st.waiting || (st'.waiting == st.waiting + [t] && p.IsAcquire(t))))
  {
    var st' := Mark(st, t, s);
    MarkKnows(st, t, s);
    if t !in st.locks {
      if Held(st.locks, s) == {} {
        if t !in st.waiting {
          assert t in Unknown(p, st) && t !in Unknown(p, st');
        }
      } else {
        assert t in Unmapped(p, st) && t !in Unmapped(p, st');
      }
    } else if !(st.locks[t] <= Held(st.locks, s)) {
      if l :| l in st.locks[t] && l !in Held(st.locks, s) && l != t {
        assert (t, l) in Foreign(st) && (t, l) !in Foreign(st');
      } else {
        assert t in Held(st.locks, t);
        assert Foreign(st') == Foreign(st);
      }
    }
  }

  lemma MarkOrdinary(p: Program, st: State, t: Stmt)
    requires p.IsAcquire(t)
    ensures Ordinary(p, st.(waiting := st.waiting + [t])) == Ordinary(p, st)
  {
  }

  lemma {:induction false} MarkAllProgress(p: Program, st: State, ts: seq<Stmt>, s: Stmt)
    requires p.WellFormed() && Inv(p, st, {s}) && st.Done(s) && (p.IsAcquire(s) ==> s in Held(st.locks, s))
    requires forall t :: t in ts ==> Step(p, s, t)
    ensures var st' := MarkAll(st, ts, s);
            Smaller(p, st', st) || (Even(p, st', st) && Ordinary(p, st') == Ordinary(p, st))
  {
    hide Mark, Smaller, Even, Ordinary, Inv;
    if ts == [] {
      EvenReflexive(p, st);
    } else {
      var rest, t := ts[..|ts| - 1], ts[|ts| - 1];
      MarkAllKeepsInv(p, st, rest, s);
      MarkAllProgress(p, st, rest, s);
      var st1 := MarkAll(st, rest, s);
      InvNested(p, st1, {s});
      assert Step(p, s, t);
      MarkProgress(p, st1, t, s);
      var st' := Mark(st1, t, s);
      SmallerCombines(p, st', st1, st);
      if st'.waiting == st1.waiting + [t] && p.IsAcquire(t) {
        MarkOrdinary(p, st1, t);
        SameOrdinary(p, st', st1.(waiting := st1.waiting + [t]));
      } else if st'.waiting == st1.waiting {
        SameOrdinary(p, st', st1);
      }
    }
  }

  lemma EvenReflexive(p: Program, st: State)
    ensures Even(p, st, st)
  {
  }

  lemma InvNested(p: Program, st: State, s: set<Stmt>)
    requires Inv(p, st, s)
    ensures Shape(p, st) && Nested(p, st)
  {
  }

  lemma SameOrdinary(p: Program, a: State, b: State)
    requires a.waiting == b.waiting
    ensures Ordinary(p, a) == Ordinary(p, b)
  {
  }

  // The one successor of an acquire weighs less than the acquire itself.
  lemma AcquireProgress(p: Program, st: State, s: Stmt)
    requires p.WellFormed() && Nested(p, st) && p.IsAcquire(s)
    ensures var st' := MarkAll(st, p.next[s], s);
            Smaller(p, st', st) || Weight(p, st'.waiting) < Weight(p, st.waiting) + One(p, s)
  {
    if p.next[s] != [] {
      var t := p.next[s][0];
      assert p.next[s] == [t] && p.next[s][..0] == [];
      MarkProgress(p, st, t, s);
      WeightPush(p, st.waiting, t);
      assert MarkAll(st, p.next[s], s) == Mark(MarkAll(st, [], s), t, s);
    }
  }

  lemma TouchProgress(p: Program, st: State)
    requires Shape(p, st) && st.waiting != []
    ensures var s, st' := st.waiting[0], Touch(st);
            && (Smaller(p, st', st) || Even(p, st', st))
            && Ordinary(p, st') == Ordinary(p, st) - {s}
            && Weight(p, st.waiting) == One(p, s) + Weight(p, st'.waiting)
  {
    var s, st' := st.waiting[0], Touch(st);
    assert forall x :: x in st.waiting <==> x == s || x in st'.waiting;
  }

  // Every visit decreases the five measures in lexicographic order, so the analysis ends although
  // it visits statements again whenever their locks shrink.
  ghost predicate Progress(p: Program, a: State, b: State) {
    || Smaller(p, a, b)
    || (Even(p, a, b) && Ordinary(p, a) < Ordinary(p, b))
    || (Even(p, a, b) && Ordinary(p, a) == Ordinary(p, b) && Weight(p, a.waiting) < Weight(p, b.waiting))
  }

  lemma VisitProgress(p: Program, st: State)
    requires p.WellFormed() && Inv(p, st, {}) && st.waiting != []
    ensures Progress(p, Visit(p, st), st)
  {
    hide Inv, MarkAll, Visit, Smaller, Even, Weight, Touch, Shape, Nested;
    var s, t := st.waiting[0], Touch(st);
    VisitTurns(p, st);
    TouchKeepsInv(p, st);
    InvNested(p, st, {});
    TouchProgress(p, st);
    match p.role[s]
    case Release => assert s in Ordinary(p, st);
    case Other =>
      assert s in Ordinary(p, st);
      hide Ordinary;
      MarkAllProgress(p, t, p.next[s], s);
      SmallerCombines(p, MarkAll(t, p.next[s], s), t, st);
    case Acquire =>
      assert Ordinary(p, t) == Ordinary(p, st);
      AcquireVisit(p, st, t, s);
  }

  // What follows touching an acquire.
  lemma AcquireVisit(p: Program, st: State, t: State, s: Stmt)
    requires p.WellFormed() && Inv(p, t, {s}) && t.Done(s) && s in t.locks && p.IsAcquire(s)
    requires Smaller(p, t, st) || Even(p, t, st)
    requires Ordinary(p, t) == Ordinary(p, st) && Weight(p, st.waiting) == One(p, s) + Weight(p, t.waiting)
    ensures Progress(p, MarkAll(Take(t, s), p.next[s], s), st)
  {
    hide Inv, MarkAll, Smaller, Even, Ordinary, Weight, Take, One, Nested, Shape;
    var u := Take(t, s);
    TakeKeepsInv(p, t, s);
    TakeProgress(p, t, s);
    MarkAllProgress(p, u, p.next[s], s);
    InvNested(p, u, {s});
    AcquireProgress(p, u, s);
    SmallerCombines(p, u, t, st);
    SmallerCombines(p, MarkAll(u, p.next[s], s), u, st);
  }

  lemma TakeProgress(p: Program, st: State, s: Stmt)
    requires s in st.locks
    ensures var st' := Take(st, s);
            Even(p, st', st) && Ordinary(p, st') == Ordinary(p, st) && st'.waiting == st.waiting
  {
    var st' := Take(st, s);
    assert forall x :: st'.Known(x) <==> st.Known(x);
    assert forall x :: x in st.locks ==> Held(st'.locks, x) - {x} == Held(st.locks, x) - {x};
  }

  // ---- whole runs ----

  function Queue(entries: seq<Stmt>): seq<Stmt> {
    if entries == [] then [] else Push(Queue(entries[..|entries| - 1]), entries[|entries| - 1])
  }

  function Initial(p: Program): State {
    State(map[], map[], Queue(p.entries), {}, false)
  }

  ghost predicate Leads(p: Program, st: State, st': State, visits: nat)
    requires p.WellFormed()
    decreases visits
  {
    if visits == 0 then st' == st
    else st.waiting != [] && st.waiting[0] in p.role && Leads(p, Visit(p, st), st', visits - 1)
  }

  lemma {:induction false} QueueHolds(entries: seq<Stmt>)
    ensures Distinct(Queue(entries)) && forall s :: s in Queue(entries) <==> s in entries
  {
    if entries != [] {
      QueueHolds(entries[..|entries| - 1]);
      assert entries == entries[..|entries| - 1] + [entries[|entries| - 1]];
    }
  }

  lemma InitialInv(p: Program)
    requires p.WellFormed()
    ensures Inv(p, Initial(p), {})
  {
    QueueHolds(p.entries);
    forall e | e in p.entries ensures Reachable(p, e) && forall l :: l != e ==> Avoidable(p, e, l) {
      assert Reaches(p, [e], e);
    }
  }

  lemma {:induction false} LeadsExtends(p: Program, st: State, st': State, visits: nat)
    requires p.WellFormed() && Leads(p, st, st', visits) && st'.waiting != [] && st'.waiting[0] in p.role
    ensures Leads(p, st, Visit(p, st'), visits + 1)
    decreases visits
  {
    hide Visit;
    if visits > 0 {
      LeadsExtends(p, Visit(p, st), st', visits - 1);
    }
  }

  // At every moment of every run.
  lemma {:induction false} AlwaysInv(p: Program, st: State, st': State, visits: nat)
    requires p.WellFormed() && Inv(p, st, {}) && Leads(p, st, st', visits)
    ensures Inv(p, st', {})
    decreases visits
  {
    hide Inv, Visit;
    if visits > 0 {
      VisitKeepsInv(p, st);
      AlwaysInv(p, Visit(p, st), st', visits - 1);
    }
  }

  // l is acquired on every way to s.
  ghost predicate MustHold(p: Program, s: Stmt, l: Stmt) {
    p.IsAcquire(l) && forall q :: Reaches(p, q, s) ==> l in q
  }

  lemma {:induction false} EndedOnPath(p: Program, st: State, q: seq<Stmt>)
    requires p.WellFormed() && Inv(p, st, {}) && st.waiting == [] && Path(p, q)
    ensures q[|q| - 1] in st.locks
    ensures Carried(p, st, {}) ==> forall l :: l in st.locks[q[|q| - 1]] ==> l in q
    decreases |q|
  {
    hide Justified, Nested, Own, Spans, BareWaiting, HeldCarried, Through;
    if |q| == 1 {
      assert st.Known(q[0]) && Held(st.locks, q[0]) <= {q[0]};
    } else {
      var r := q[..|q| - 1];
      EndedOnPath(p, st, r);
      var s, t := r[|r| - 1], q[|q| - 1];
      assert r[|r| - 1] == q[|q| - 2] && Step(p, q[|q| - 2], q[|q| - 2 + 1]);
      assert st.Done(s) && st.Known(t);
      assert Carried(p, st, {}) ==> Carries(st, s, t);
      assert q == r + [t];
    }
  }

  lemma EndedHolds(p: Program, st: State, s: Stmt, l: Stmt)
    requires p.WellFormed() && Inv(p, st, {}) && st.waiting == [] && s in st.locks && MustHold(p, s, l)
    ensures l in st.locks[s]
  {
    hide Reaches, Entered, Found, Carried, BareWaiting, HeldCarried, Through, Spans, Nested;
    assert st.Known(s) && st.Done(s);
    assert l == s || l in Held(st.locks, s) || Avoidable(p, s, l);
  }

  lemma EndedReached(p: Program, st: State, s: Stmt)
    requires p.WellFormed() && Inv(p, st, {}) && st.waiting == []
    ensures s in st.locks <==> Reachable(p, s)
  {
    hide Avoidable, Path, Entered, Found, Carried, BareWaiting, HeldCarried, Through, Spans, Nested;
    assert s in st.locks ==> st.Known(s);
    if Reachable(p, s) {
      var q :| Reaches(p, q, s);
      EndedOnPath(p, st, q);
    }
  }

  // No statement that holds nothing has a successor with a lock other than its own. Can be read
  // off the locksets.
  ghost predicate NothingGained(p: Program, locks: Locks) {
    forall s, t :: s in locks && Step(p, s, t) && locks[s] == {} ==> Held(locks, t) <= {t}
  }

  // The locksets contain no lock that can be avoided.
  ghost predicate OnlyMust(p: Program, locks: Locks) {
    forall s, l :: s in locks && l in locks[s] ==> MustHold(p, s, l)
  }

  lemma NothingGainedCarries(p: Program, st: State)
    requires Inv(p, st, {}) && NothingGained(p, st.locks)
    ensures Carried(p, st, {})
  {
    hide Nested, Own, Spans, Justified, Entered, Found, BareWaiting, Through;
  }

  lemma GainedIsAvoidable(p: Program, st: State, s: Stmt, t: Stmt)
    requires p.WellFormed() && Inv(p, st, {}) && st.waiting == [] && OnlyMust(p, st.locks)
    requires s in st.locks && Step(p, s, t) && st.locks[s] == {}
    ensures Held(st.locks, t) <= {t}
  {
    hide Inv, Step, Path;
    forall l | l in Held(st.locks, t) && l != t ensures false {
      assert MustHold(p, t, l);
      forall q | Reaches(p, q, s) ensures l in q {
        Extend(p, q, s, t);
        assert l in q + [t];
      }
      EndedHolds(p, st, s, l);
    }
  }

  lemma OnlyMustIffNothingGained(p: Program, st: State)
    requires p.WellFormed() && Inv(p, st, {}) && st.waiting == []
    ensures OnlyMust(p, st.locks) <==> NothingGained(p, st.locks)
  {
    hide Inv, Carried, MustHold, Step;
    if NothingGained(p, st.locks) {
      NothingGainedCarries(p, st);
      CarriedOnlyMust(p, st);
    }
    if OnlyMust(p, st.locks) {
      forall s, t | s in st.locks && Step(p, s, t) && st.locks[s] == {} ensures Held(st.locks, t) <= {t} {
        GainedIsAvoidable(p, st, s, t);
      }
    }
  }

  lemma CarriedOnlyMust(p: Program, st: State)
    requires p.WellFormed() && Inv(p, st, {}) && st.waiting == [] && Carried(p, st, {})
    ensures OnlyMust(p, st.locks)
  {
    hide Carried;
    forall s, l | s in st.locks && l in st.locks[s] ensures MustHold(p, s, l) {
      HeldIsAcquire(p, st, s, l);
      hide Inv;
      forall q | Reaches(p, q, s) ensures l in q {
        EndedOnPath(p, st, q);
      }
    }
  }

  lemma HeldIsAcquire(p: Program, st: State, s: Stmt, l: Stmt)
    requires Inv(p, st, {}) && s in st.locks && l in st.locks[s]
    ensures p.IsAcquire(l)
  {
    hide Inv;
    InvNested(p, st, {});
    assert l in Held(st.locks, s);
  }

  // A program whose statements without a lock that must be held lead to no statement that some way
  // reaches through another statement's acquire.
  ghost predicate Uniform(p: Program) {
    forall s, t, l :: Reachable(p, s) && Step(p, s, t) && p.IsAcquire(l) && l != t && Via(p, t, l) ==>
      exists m :: MustHold(p, s, m)
  }

  lemma UniformGainsNothing(p: Program, st: State)
    requires p.WellFormed() && Inv(p, st, {}) && st.waiting == [] && Uniform(p)
    ensures NothingGained(p, st.locks)
  {
    hide Reachable, Via, MustHold, Step;
    forall s, t | s in st.locks && Step(p, s, t) && st.locks[s] == {} ensures Held(st.locks, t) <= {t} {
      EndedReached(p, st, s);
      forall l | l in Held(st.locks, t) && l != t ensures false {
        assert p.IsAcquire(l) && Via(p, t, l);
        var m :| MustHold(p, s, m);
        EndedHolds(p, st, s, m);
      }
    }
  }

  lemma NeverLostOnlyMust(p: Program, st: State)
    requires p.WellFormed() && Inv(p, st, {}) && st.waiting == [] && !st.lost
    ensures OnlyMust(p, st.locks)
  {
    hide OnlyMust, Carried;
    CarriedOnlyMust(p, st);
  }

  // What a finished run has found: exactly the statements on ways from an entry, and for each of
  // them every lock acquired on all ways to it. It has found no other lock exactly if no statement
  // that holds nothing has a successor with a foreign lock. That is so whatever the order of visits
  // if the program is uniform, and whatever the program if marking has never lost anything.
  lemma LocksetsAreMust(p: Program, st: State)
    requires p.WellFormed() && Inv(p, st, {}) && st.waiting == []
    ensures forall s :: s in st.locks <==> Reachable(p, s)
    ensures forall s, l :: s in st.locks && MustHold(p, s, l) ==> l in st.locks[s]
    ensures OnlyMust(p, st.locks) <==> NothingGained(p, st.locks)
    ensures Uniform(p) || !st.lost ==> OnlyMust(p, st.locks)
  {
    hide Inv, Reachable, MustHold, OnlyMust, NothingGained, Uniform;
    forall s ensures s in st.locks <==> Reachable(p, s) {
      EndedReached(p, st, s);
    }
    forall s, l | s in st.locks && MustHold(p, s, l) ensures l in st.locks[s] {
      EndedHolds(p, st, s, l);
    }
    OnlyMustIffNothingGained(p, st);
    if Uniform(p) {
      UniformGainsNothing(p, st);
    }
    if !st.lost {
      NeverLostOnlyMust(p, st);
    }
  }

  // A branch with an acquire on one side only: 0 goes to 1 and to the acquire 2, these to 3 and 4
  // in turn, and both of these to 5. When 4 marks 5, it waits without locks because 3 has marked it
  // before, and it ends up with lock 2 although the way over 1 and 3 does not acquire it.
  const DIAMOND: Program := Program(
    map[0 := Other, 1 := Other, 2 := Acquire, 3 := Other, 4 := Other, 5 := Other],
    map[0 := [1, 2], 1 := [3], 2 := [4], 3 := [5], 4 := [5], 5 := []],
    map[0 := 0, 1 := 1, 2 := 1, 3 := 0, 4 := 0, 5 := 0], [0])

  // The states after each of its visits.
  const VISITED: seq<State> := [
    State(map[0 := {}], map[], [1, 2], {0}, false),
    State(map[0 := {}, 1 := {}], map[], [2, 3], {0, 1}, false),
    State(map[0 := {}, 1 := {}, 2 := {2}, 4 := {2}], map[2 := {2, 4}], [3, 4], {0, 1, 2}, false),
    State(map[0 := {}, 1 := {}, 2 := {2}, 3 := {}, 4 := {2}], map[2 := {2, 4}], [4, 5], {0, 1, 2, 3}, false),
    State(map[0 := {}, 1 := {}, 2 := {2}, 3 := {}, 4 := {2}, 5 := {2}], map[2 := {2, 4, 5}], [5],
          {0, 1, 2, 3, 4}, true),
    State(map[0 := {}, 1 := {}, 2 := {2}, 3 := {}, 4 := {2}, 5 := {2}], map[2 := {2, 4, 5}], [],
          {0, 1, 2, 3, 4, 5}, true)]

  lemma DiamondIsWellFormed()
    ensures DIAMOND.WellFormed()
  {
    var p := DIAMOND;
    assert p.next.Keys == p.role.Keys == p.left.Keys == {0, 1, 2, 3, 4, 5};
    forall s, t | s in p.next && t in p.next[s] ensures t in {1, 2, 3, 4, 5} {
      assert s in {0, 1, 2, 3, 4, 5};
    }
    assert p.InsideBlock(2);
    forall s | s in p.role && p.role[s].Acquire? ensures p.InsideBlock(s) {
      assert s in {0, 1, 2, 3, 4, 5};
    }
  }

  lemma MarkOne(st: State, t: Stmt, s: Stmt)
    ensures MarkAll(st, [t], s) == Mark(st, t, s)
  {
    assert MarkAll(st, [t], s) == Mark(MarkAll(st, [t][..0], s), t, s);
  }

  lemma MarkUnheld(st: State, t: Stmt, s: Stmt)
    requires t !in st.locks && t !in st.waiting && Held(st.locks, s) == {}
    ensures Mark(st, t, s) == st.(waiting := st.waiting + [t])
  {
    assert AddToSpans(st.span, t, {}) == st.span;
  }

  lemma TouchEntry()
    ensures Initial(DIAMOND).waiting == [0] && Touch(Initial(DIAMOND)) == State(map[0 := {}], map[], [], {0}, false)
  {
    assert Queue([0]) == [0] by {
      assert [0][..0] == [];
    }
  }

  lemma MarkBoth()
    ensures MarkAll(State(map[0 := {}], map[], [], {0}, false), [1, 2], 0) == VISITED[0]
  {
    var t := State(map[0 := {}], map[], [], {0}, false);
    assert [1, 2][..1] == [1];
    MarkOne(t, 1, 0);
    MarkUnheld(t, 1, 0);
    MarkUnheld(t.(waiting := [1]), 2, 0);
    hide Mark;
    assert MarkAll(t, [1, 2], 0) == Mark(MarkAll(t, [1], 0), 2, 0);
  }

  lemma VisitEntry()
    ensures DIAMOND.WellFormed() && Visit(DIAMOND, Initial(DIAMOND)) == VISITED[0]
  {
    DiamondIsWellFormed();
    TouchEntry();
    MarkBoth();
    hide Touch, MarkAll, Mark, Initial;
  }

  lemma VisitBypass()
    ensures DIAMOND.WellFormed() && Visit(DIAMOND, VISITED[0]) == VISITED[1]
  {
    DiamondIsWellFormed();
    hide Mark;
    var t := State(map[0 := {}, 1 := {}], map[], [2], {0, 1}, false);
    assert Touch(VISITED[0]) == t;
    MarkUnheld(t, 3, 1);
    MarkOne(t, 3, 1);
  }

  lemma VisitAcquire()
    ensures DIAMOND.WellFormed() && Visit(DIAMOND, VISITED[1]) == VISITED[2]
  {
    DiamondIsWellFormed();
    var t := State(map[0 := {}, 1 := {}, 2 := {}], map[], [3], {0, 1, 2}, false);
    var u := State(map[0 := {}, 1 := {}, 2 := {2}], map[2 := {2}], [3], {0, 1, 2}, false);
    assert Touch(VISITED[1]) == t;
    TakeAcquire(t, u);
    MarkOne(u, 4, 2);
    hide Mark, Touch, Take, MarkAll;
  }

  lemma TakeAcquire(t: State, u: State)
    requires t == State(map[0 := {}, 1 := {}, 2 := {}], map[], [3], {0, 1, 2}, false)
    requires u == State(map[0 := {}, 1 := {}, 2 := {2}], map[2 := {2}], [3], {0, 1, 2}, false)
    ensures Take(t, 2) == u && Mark(u, 4, 2) == VISITED[2]
  {
    assert {} + {2} == {2};
    assert AddToSpans(u.span, 4, {2}) == map[2 := {2, 4}] by {
      assert {2} + {4} == {2, 4};
    }
  }

  lemma VisitBypassEnd()
    ensures DIAMOND.WellFormed() && Visit(DIAMOND, VISITED[2]) == VISITED[3]
  {
    DiamondIsWellFormed();
    hide Mark;
    var t := VISITED[3].(waiting := [4]);
    assert Touch(VISITED[2]) == t;
    MarkUnheld(t, 5, 3);
    MarkOne(t, 5, 3);
  }

  lemma VisitAcquireEnd()
    ensures DIAMOND.WellFormed() && Visit(DIAMOND, VISITED[3]) == VISITED[4]
  {
    DiamondIsWellFormed();
    var t := VISITED[3].(waiting := [5], touched := {0, 1, 2, 3, 4});
    assert Touch(VISITED[3]) == t;
    assert AddToSpans(t.span, 5, {2}) == map[2 := {2, 4, 5}] by {
      assert {2, 4} + {5} == {2, 4, 5};
    }
    MarkOne(t, 5, 4);
  }

  lemma VisitJoin()
    ensures DIAMOND.WellFormed() && Visit(DIAMOND, VISITED[4]) == VISITED[5]
  {
    DiamondIsWellFormed();
    assert MarkAll(Touch(VISITED[4]), [], 5) == Touch(VISITED[4]);
  }

  lemma DiamondPath()
    ensures Avoidable(DIAMOND, 5, 2)
  {
    assert Reaches(DIAMOND, [0, 1, 3, 5], 5);
  }

  lemma LostOnDiamond()
    ensures DIAMOND.WellFormed() && Leads(DIAMOND, Initial(DIAMOND), VISITED[5], 6) && VISITED[5].waiting == []
    ensures 2 in VISITED[5].locks[5] && Avoidable(DIAMOND, 5, 2)
  {
    VisitEntry();
    VisitBypass();
    VisitAcquire();
    VisitBypassEnd();
    VisitAcquireEnd();
    VisitJoin();
    DiamondPath();
    TouchEntry();
    hide Visit, Initial;
    assert Leads(DIAMOND, VISITED[5], VISITED[5], 0);
    assert Leads(DIAMOND, VISITED[4], VISITED[5], 1);
    assert Leads(DIAMOND, VISITED[3], VISITED[5], 2);
    assert Leads(DIAMOND, VISITED[2], VISITED[5], 3);
    assert Leads(DIAMOND, VISITED[1], VISITED[5], 4);
    assert Leads(DIAMOND, VISITED[0], VISITED[5], 5);
  }
}
