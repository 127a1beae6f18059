// The lock analysis with its maps and its worklist updated in place.
module LockAnalysis {
  import opened LocksetFlow

  lemma AddToSpansOne(span: Locks, s: Stmt, ls: set<Stmt>, l: Stmt)
    ensures AddToSpans(span, s, ls)[l := Held(AddToSpans(span, s, ls), l) + {s}] == AddToSpans(span, s, ls + {l})
  {
    var one, all := AddToSpans(span, s, ls)[l := Held(AddToSpans(span, s, ls), l) + {s}], AddToSpans(span, s, ls + {l});
    assert one.Keys == all.Keys;
    forall k | k in one ensures one[k] == all[k] {
      if k == l && l in ls {
        assert Held(span, l) + {s} + {s} == Held(span, l) + {s};
      }
    }
  }

  class LockAnalysis {
    const p: Program
    var cxtStmtToCxtLockSet: Locks
    var cxtLocktoSpan: Locks
    var cxtStmtList: seq<Stmt>

    ghost var touched: set<Stmt>
    ghost var lost: bool

    ghost function View(): State
      reads this
    {
      State(cxtStmtToCxtLockSet, cxtLocktoSpan, cxtStmtList, touched, lost)
    }

    constructor (program: Program)
      ensures p == program && View() == State(map[], map[], [], {}, false)
    {
      p := program;
      cxtStmtToCxtLockSet, cxtLocktoSpan, cxtStmtList := map[], map[], [];
      touched, lost := {}, false;
    }

    method PushToCTSWorkList(cts: Stmt)
      modifies `cxtStmtList
      ensures cxtStmtList == Push(old(cxtStmtList), cts)
    {
      if cts !in cxtStmtList {
        cxtStmtList := cxtStmtList + [cts];
      }
    }

    method PopFromCTSWorkList() returns (cts: Stmt)
      requires cxtStmtList != []
      modifies `cxtStmtList
      ensures [cts] + cxtStmtList == old(cxtStmtList)
    {
      cts := cxtStmtList[0];
      cxtStmtList := cxtStmtList[1..];
    }

    method AddCxtStmtToSpan(cts: Stmt, cl: Stmt) returns (added: bool)
      modifies `cxtStmtToCxtLockSet, `cxtLocktoSpan
      ensures cxtStmtToCxtLockSet == old(cxtStmtToCxtLockSet)[cts := Held(old(cxtStmtToCxtLockSet), cts) + {cl}]
      ensures cxtLocktoSpan == old(cxtLocktoSpan)[cl := Held(old(cxtLocktoSpan), cl) + {cts}]
      ensures added <==> cl !in Held(old(cxtStmtToCxtLockSet), cts)
    {
      cxtLocktoSpan := cxtLocktoSpan[cl := Held(cxtLocktoSpan, cl) + {cts}];
      added := cl !in Held(cxtStmtToCxtLockSet, cts);
      cxtStmtToCxtLockSet := cxtStmtToCxtLockSet[cts := Held(cxtStmtToCxtLockSet, cts) + {cl}];
    }

    method RemoveCxtStmtToSpan(cts: Stmt, cl: Stmt) returns (found: bool)
      requires cts in cxtStmtToCxtLockSet
      modifies `cxtStmtToCxtLockSet, `cxtLocktoSpan
      ensures found <==> cl in old(cxtStmtToCxtLockSet)[cts]
      ensures found ==> cxtStmtToCxtLockSet == old(cxtStmtToCxtLockSet)[cts := old(cxtStmtToCxtLockSet)[cts] - {cl}]
      ensures found ==> cxtLocktoSpan == old(cxtLocktoSpan)[cl := Held(old(cxtLocktoSpan), cl) - {cts}]
      ensures !found ==> View() == old(View())
    {
      found := cl in cxtStmtToCxtLockSet[cts];
      if found {
        cxtStmtToCxtLockSet := cxtStmtToCxtLockSet[cts := cxtStmtToCxtLockSet[cts] - {cl}];
        cxtLocktoSpan := cxtLocktoSpan[cl := Held(cxtLocktoSpan, cl) - {cts}];
      }
    }

    method TouchCxtStmt(cts: Stmt)
      modifies `cxtStmtToCxtLockSet, `touched
      ensures cxtStmtToCxtLockSet == old(cxtStmtToCxtLockSet)[cts := Held(old(cxtStmtToCxtLockSet), cts)]
      ensures touched == old(touched) + {cts}
    {
      if cts !in cxtStmtToCxtLockSet {
        cxtStmtToCxtLockSet := cxtStmtToCxtLockSet[cts := {}];
      }
      touched := touched + {cts};
    }

    // Takes from the lockset of tgr what src does not hold and says whether that was anything.
    method Intersect(tgr: Stmt, srclockset: set<Stmt>) returns (shrunk: bool)
      requires tgr in cxtStmtToCxtLockSet
      modifies `cxtStmtToCxtLockSet
      ensures cxtStmtToCxtLockSet == old(cxtStmtToCxtLockSet)[tgr := old(cxtStmtToCxtLockSet)[tgr] * srclockset]
      ensures shrunk <==> !(old(cxtStmtToCxtLockSet)[tgr] <= srclockset)
    {
      ghost var locks := cxtStmtToCxtLockSet[tgr];
      var toBeDeleted := {};
      var todo := cxtStmtToCxtLockSet[tgr];
      while todo != {}
        invariant todo <= locks && toBeDeleted == locks - todo - srclockset
        decreases todo
      {
        var l :| l in todo;
        todo := todo - {l};
        if l !in srclockset {
          toBeDeleted := toBeDeleted + {l};
        }
      }
      shrunk := toBeDeleted != {};
      assert locks * srclockset + toBeDeleted == locks;
      assert cxtStmtToCxtLockSet == cxtStmtToCxtLockSet[tgr := locks];
      while toBeDeleted != {}
        invariant toBeDeleted <= locks - srclockset
        invariant cxtStmtToCxtLockSet == old(cxtStmtToCxtLockSet)[tgr := locks * srclockset + toBeDeleted]
        decreases toBeDeleted
      {
        var l :| l in toBeDeleted;
        assert locks * srclockset + toBeDeleted - {l} == locks * srclockset + (toBeDeleted - {l});
        toBeDeleted := toBeDeleted - {l};
        cxtStmtToCxtLockSet := cxtStmtToCxtLockSet[tgr := cxtStmtToCxtLockSet[tgr] - {l}];
      }
      assert locks * srclockset + {} == locks * srclockset;
    }

    // Adds the locks of a source to a statement that has no entry yet.
    method AddLocks(tgr: Stmt, srclockset: set<Stmt>)
      requires tgr !in cxtStmtToCxtLockSet
      modifies `cxtStmtToCxtLockSet, `cxtLocktoSpan
      ensures cxtStmtToCxtLockSet ==
              if srclockset == {} then old(cxtStmtToCxtLockSet) else old(cxtStmtToCxtLockSet)[tgr := srclockset]
      ensures cxtLocktoSpan == AddToSpans(old(cxtLocktoSpan), tgr, srclockset)
    {
      ghost var locks, span := cxtStmtToCxtLockSet, cxtLocktoSpan;
      var todo := srclockset;
      ghost var done: set<Stmt> := {};
      while todo != {}
        invariant todo <= srclockset && done == srclockset - todo
        invariant cxtStmtToCxtLockSet == if done == {} then locks else locks[tgr := done]
        invariant cxtLocktoSpan == AddToSpans(span, tgr, done)
        decreases todo
      {
        var l :| l in todo;
        todo := todo - {l};
        AddToSpansOne(span, tgr, done, l);
        assert Held(cxtStmtToCxtLockSet, tgr) == done;
        var _ := AddCxtStmtToSpan(tgr, l);
        done := done + {l};
      }
      assert done == srclockset;
    }

    method MarkCxtStmtFlag(tgr: Stmt, src: Stmt)
      requires src in cxtStmtToCxtLockSet
      modifies `cxtStmtToCxtLockSet, `cxtLocktoSpan, `cxtStmtList, `lost
      ensures View() == Mark(old(View()), tgr, src)
      // A statement without an entry gets the locks and is put on the list; one with an entry keeps
      // what src holds too, and is put on the list if that is less than before.
      ensures var before, held := old(Held(cxtStmtToCxtLockSet, tgr)), old(cxtStmtToCxtLockSet)[src];
              var isNew, shrinks := tgr !in old(cxtStmtToCxtLockSet), !(before <= held);
              && Held(cxtStmtToCxtLockSet, tgr) == (if isNew then held else before * held)
              && (tgr in cxtStmtToCxtLockSet <==> !isNew || held != {})
              && cxtStmtToCxtLockSet.Keys - {tgr} == old(cxtStmtToCxtLockSet).Keys - {tgr}
              && (forall s :: s != tgr ==> Held(cxtStmtToCxtLockSet, s) == Held(old(cxtStmtToCxtLockSet), s))
              && (forall l :: Held(cxtLocktoSpan, l) ==
                    Held(old(cxtLocktoSpan), l) + if isNew && l in held then {tgr} else {})
              && cxtStmtList == old(cxtStmtList) +
                                if (isNew || shrinks) && tgr !in old(cxtStmtList) then [tgr] else []
    {
      lost := lost || Loses(View(), tgr, src);
      var srclockset := cxtStmtToCxtLockSet[src];
      if tgr !in cxtStmtToCxtLockSet {
        AddLocks(tgr, srclockset);
        PushToCTSWorkList(tgr);
      } else {
        ghost var locks := cxtStmtToCxtLockSet;
        var shrunk := Intersect(tgr, srclockset);
        if shrunk {
          PushToCTSWorkList(tgr);
        } else {
          assert locks[tgr] * srclockset == locks[tgr];
          assert cxtStmtToCxtLockSet == locks;
        }
      }
    }

    // Marks every statement that follows cts: calls and forks their callees, returns the statements
    // after the call sites, all others the next statements.
    method HandleNext(cts: Stmt)
      requires p.WellFormed() && cts in p.role && cts in cxtStmtToCxtLockSet
      modifies `cxtStmtToCxtLockSet, `cxtLocktoSpan, `cxtStmtList, `lost
      ensures View() == MarkAll(old(View()), p.next[cts], cts)
    {
      var nextInsts := p.next[cts];
      ghost var st := View();
      for i := 0 to |nextInsts|
        invariant View() == MarkAll(st, nextInsts[..i], cts) && cts in cxtStmtToCxtLockSet
      {
        assert nextInsts[..i + 1][..i] == nextInsts[..i];
        MarkCxtStmtFlag(nextInsts[i], cts);
      }
      assert nextInsts[..|nextInsts|] == nextInsts;
    }

    // Takes one statement off the worklist.
    method VisitNext()
      requires p.WellFormed() && cxtStmtList != [] && cxtStmtList[0] in p.role
      modifies this
      ensures View() == Visit(p, old(View()))
    {
      hide MarkAll;
      ghost var st := View();
      var cts := PopFromCTSWorkList();
      TouchCxtStmt(cts);
      assert View() == Touch(st);
      match p.role[cts]
      case Acquire =>
        var added := AddCxtStmtToSpan(cts, cts);
        assert View() == Take(Touch(st), cts);
        if added {
          HandleNext(cts);
        }
      case Release =>
        var found := RemoveCxtStmtToSpan(cts, cts);
        if found {
          assert View() == Drop(Touch(st), cts);
          HandleNext(cts);
        }
      case Other =>
        HandleNext(cts);
    }

    method PushEntries()
      requires cxtStmtList == []
      modifies `cxtStmtList
      ensures cxtStmtList == Queue(p.entries)
    {
      for i := 0 to |p.entries|
        invariant cxtStmtList == Queue(p.entries[..i])
      {
        assert p.entries[..i + 1][..i] == p.entries[..i];
        PushToCTSWorkList(p.entries[i]);
      }
      assert p.entries[..|p.entries|] == p.entries;
    }

    // The whole analysis. It ends; it finds the statements reached from an entry, and for each of
    // them all the locks it must hold, and when there are no others.
    method AnalyzeLockSpanCxtStmt() returns (ghost visits: nat)
      requires p.WellFormed() && View() == State(map[], map[], [], {}, false)
      modifies this
      ensures cxtStmtList == [] && Leads(p, Initial(p), View(), visits)
      ensures forall s :: s in cxtStmtToCxtLockSet <==> Reachable(p, s)
      ensures forall s, l :: s in cxtStmtToCxtLockSet && MustHold(p, s, l) ==> l in cxtStmtToCxtLockSet[s]
      ensures OnlyMust(p, cxtStmtToCxtLockSet) <==> NothingGained(p, cxtStmtToCxtLockSet)
      ensures Uniform(p) || !lost ==> OnlyMust(p, cxtStmtToCxtLockSet)
      ensures forall s, l :: s in cxtStmtToCxtLockSet && l in cxtStmtToCxtLockSet[s] ==> s in Held(cxtLocktoSpan, l)
    {
      hide Inv, Visit, Reachable, MustHold, OnlyMust, NothingGained, Uniform;
      PushEntries();
      InitialInv(p);
      visits := 0;
      while cxtStmtList != []
        invariant Inv(p, View(), {}) && Leads(p, Initial(p), View(), visits)
        decreases Unknown(p, View()), Unmapped(p, View()), Foreign(View()), Ordinary(p, View()), Weight(p, cxtStmtList)
      {
        VisitTurns(p, View());
        VisitKeepsInv(p, View());
        VisitProgress(p, View());
        LeadsExtends(p, Initial(p), View(), visits);
        VisitNext();
        visits := visits + 1;
      }
      LocksetsAreMust(p, View());
      LocksInSpans(p, View());
    }
  }

  lemma LocksInSpans(p: Program, st: State)
    requires Inv(p, st, {})
    ensures forall s, l :: s in st.locks && l in st.locks[s] ==> s in Held(st.span, l)
  {
    assert forall s, l :: s in st.locks && l in st.locks[s] ==> l in Held(st.locks, s);
  }
}
