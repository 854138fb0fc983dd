/** The learned clause: what analysis returns, and why it is implied, false, and about to become unit. */
module Learning {
  import opened Cnf
  import opened Sequences
  import opened Trail
  import opened Analysis
  import opened Graph
  import opened Uip
  import opened Minimize

  function ReasonsOf(a: Assignment, vs: set<nat>): set<nat>
    requires a.Indexed()
  {
    set v | v in vs && v in a.at :: a.Reason(v)
  }

  /** A model of the antecedents that agrees on the kept variables agrees on the dropped ones too. */
  lemma {:induction false} AgreesOnDropped(a: Assignment, hist: map<nat, Clause>, lits: map<nat, seq<Lit>>,
                                           marked: set<nat>, dropped: set<nat>, m: Model, v: nat)
    requires Ready(a, hist, lits) && dropped <= marked <= a.at.Keys && v in marked
    requires a.Agrees(m, marked - dropped) && SatIds(m, hist, ReasonsOf(a, dropped))
    requires forall u :: u in dropped ==> a.Reason(u) != 0 && ReasonVars(a, lits, u) <= marked
    ensures Holds(m, a.trail[a.at[v]].lit)
    decreases a.at[v]
  {
    if v !in dropped {
      assert v in marked - dropped;
    } else {
      ReasonFacts(a, hist, lits, v);
      var r := a.Reason(v);
      assert r in ReasonsOf(a, dropped);
      assert Justified(a, hist, a.trail[a.at[v]], a.at[v]);
      var l :| l in hist[r] && Holds(m, l);
      assert l in lits[r];
      if l != a.trail[a.at[v]].lit {
        assert l.idx in ReasonVars(a, lits, v);
        AgreesOnDropped(a, hist, lits, marked, dropped, m, l.idx);
      }
    }
  }

  lemma AgreesOnAll(a: Assignment, hist: map<nat, Clause>, lits: map<nat, seq<Lit>>,
                    vs: set<nat>, top: set<nat>, marked: set<nat>, dropped: set<nat>, m: Model)
    requires Ready(a, hist, lits) && dropped <= marked <= a.at.Keys && vs <= marked
    requires a.Agrees(m, (marked - dropped) + top) && SatIds(m, hist, ReasonsOf(a, dropped))
    requires forall u :: u in dropped ==> a.Reason(u) != 0 && ReasonVars(a, lits, u) <= marked
    ensures a.Agrees(m, vs + top)
  {
    forall v | v in vs + top && v in a.at
      ensures Holds(m, a.trail[a.at[v]].lit)
    {
      if v in vs { AgreesOnDropped(a, hist, lits, marked, dropped, m, v); }
    }
  }

  /** Dropping all redundant variables at once keeps the clause refuted, given their reasons as antecedents. */
  lemma DropsStayRefuted(a: Assignment, hist: map<nat, Clause>, lits: map<nat, seq<Lit>>, ids: set<nat>,
                         vs: set<nat>, top: set<nat>, marked: set<nat>, dropped: set<nat>)
    requires Ready(a, hist, lits) && dropped <= marked <= a.at.Keys && vs <= marked
    requires Refuted(a, hist, ids, vs + top)
    requires forall u :: u in dropped ==> a.Reason(u) != 0 && ReasonVars(a, lits, u) <= marked
    ensures Refuted(a, hist, ids + ReasonsOf(a, dropped), (marked - dropped) + top)
  {
    forall m: Model | SatIds(m, hist, ids + ReasonsOf(a, dropped))
      ensures !a.Agrees(m, (marked - dropped) + top)
    {
      assert SatIds(m, hist, ReasonsOf(a, dropped)) && SatIds(m, hist, ids);
      if a.Agrees(m, (marked - dropped) + top) {
        AgreesOnAll(a, hist, lits, vs, top, marked, dropped, m);
      }
    }
  }

  /** The antecedents collected so far, and the marked variables found redundant, among the first n. */
  ghost predicate Dropping(a: Assignment, lits: map<nat, seq<Lit>>, marked: seq<nat>, n: nat,
                           resolved0: seq<nat>, dropped: set<nat>, resolved: seq<nat>)
    requires a.Indexed() && Elements(marked) <= a.at.Keys
  {
    && n <= |marked| && dropped == (set v | v in marked[..n] && Redundant(a, lits, Elements(marked), v))
    && NoDup(resolved) && Elements(resolved) == Elements(resolved0) + ReasonsOf(a, dropped)
  }

  lemma DropFresh(a: Assignment, hist: map<nat, Clause>, lits: map<nat, seq<Lit>>, conflict: nat, marked: seq<nat>,
                  n: nat, resolved0: seq<nat>, dropped: set<nat>, resolved: seq<nat>)
    requires Ready(a, hist, lits) && conflict in hist && Conflicting(a, hist[conflict])
    requires Elements(marked) <= a.at.Keys && n < |marked| && NoDup(marked)
    requires Provenance(a, resolved0, conflict, 0) && a.Level(marked[n]) < a.Top() && a.Reason(marked[n]) != 0
    requires Dropping(a, lits, marked, n, resolved0, dropped, resolved)
    ensures a.Reason(marked[n]) !in resolved
  {
    var v := marked[n];
    var r := a.Reason(v);
    if r in resolved0 {
      FromLowerLevel(a, hist, conflict, resolved0, v);
    }
    forall u | u in dropped
      ensures a.Reason(u) != r
    {
      var i :| 0 <= i < n && marked[i] == u;
      assert u != v;
      ReasonsDiffer(a, hist, a.at[v], a.at[u]);
    }
  }

  /** The first phase used no reason of a variable below the current level. */
  lemma FromLowerLevel(a: Assignment, hist: map<nat, Clause>, conflict: nat, resolved0: seq<nat>, v: nat)
    requires a.Valid() && Reasoned(a, hist) && conflict in hist && Conflicting(a, hist[conflict])
    requires Provenance(a, resolved0, conflict, 0) && v in a.at && a.Level(v) < a.Top() && a.Reason(v) != 0
    ensures a.Reason(v) !in resolved0
  {
    var e := a.trail[a.at[v]];
    assert Justified(a, hist, e, a.at[v]);
    assert a.True(e.lit) && !a.False(e.lit);
    forall i: nat | i < |a.trail| && a.trail[i].level == a.Top()
      ensures a.trail[i].reason != e.reason
    {
      ReasonsDiffer(a, hist, a.at[v], i);
    }
  }

  /** Third phase: find the redundant variables; their reasons become antecedents. */
  method DropRedundant(a: Assignment, lits: map<nat, seq<Lit>>, ghost hist: map<nat, Clause>, ghost conflict: nat,
                       marked: seq<nat>, resolved0: seq<nat>)
    returns (dropped: set<nat>, resolved: seq<nat>)
    requires a.Indexed() && Ready(a, hist, lits) && conflict in hist && Conflicting(a, hist[conflict])
    requires NoDup(marked) && Elements(marked) <= a.at.Keys && forall v :: v in marked ==> a.Level(v) < a.Top()
    requires NoDup(resolved0) && Provenance(a, resolved0, conflict, 0)
    ensures Dropping(a, lits, marked, |marked|, resolved0, dropped, resolved)
  {
    hide *;
    dropped, resolved := {}, resolved0;
    DroppingStart(a, lits, marked, resolved0);
    for i := 0 to |marked|
      invariant Dropping(a, lits, marked, i, resolved0, dropped, resolved)
    {
      var v := marked[i];
      ghost var dropped0, before := dropped, resolved;
      if Redundant(a, lits, Elements(marked), v) {
        RedundantHasReason(a, lits, Elements(marked), v);
        DropFresh(a, hist, lits, conflict, marked, i, resolved0, dropped, resolved);
        resolved := resolved + [a.Reason(v)];
        dropped := dropped + {v};
      }
      DroppingNext(a, lits, marked, i, resolved0, dropped0, before, dropped, resolved);
    }
  }

  lemma RedundantHasReason(a: Assignment, lits: map<nat, seq<Lit>>, mark: set<nat>, v: nat)
    requires a.Indexed() && v in a.at && Redundant(a, lits, mark, v)
    ensures a.Reason(v) != 0
  {
  }

  lemma DroppingStart(a: Assignment, lits: map<nat, seq<Lit>>, marked: seq<nat>, resolved0: seq<nat>)
    requires a.Indexed() && Elements(marked) <= a.at.Keys && NoDup(resolved0)
    ensures Dropping(a, lits, marked, 0, resolved0, {}, resolved0)
  {
  }

  lemma DroppingNext(a: Assignment, lits: map<nat, seq<Lit>>, marked: seq<nat>, n: nat, resolved0: seq<nat>,
                     dropped0: set<nat>, before: seq<nat>, dropped: set<nat>, resolved: seq<nat>)
    requires a.Indexed() && Elements(marked) <= a.at.Keys && n < |marked|
    requires Dropping(a, lits, marked, n, resolved0, dropped0, before)
    requires if Redundant(a, lits, Elements(marked), marked[n])
             then a.Reason(marked[n]) !in before && resolved == before + [a.Reason(marked[n])] && dropped == dropped0 + {marked[n]}
             else resolved == before && dropped == dropped0
    ensures Dropping(a, lits, marked, n + 1, resolved0, dropped, resolved)
  {
    hide NoDup, Redundant;
    assert marked[..n+1] == marked[..n] + [marked[n]];
    if Redundant(a, lits, Elements(marked), marked[n]) {
      NoDupAppend(before, a.Reason(marked[n]));
      assert ReasonsOf(a, dropped) == ReasonsOf(a, dropped0) + {a.Reason(marked[n])};
      assert Elements(resolved) == Elements(before) + {a.Reason(marked[n])};
    }
  }

  /** The literal of v that is false. */
  function FalseLit(a: Assignment, v: nat): Lit
    requires a.Indexed() && v in a.at
  {
    Neg(a.trail[a.at[v]].lit)
  }

  /** What a learned clause looks like under the assignment that led to the conflict: all its literals are false;
      above level 0 the first is the only one of the current level; on level 0 the clause is empty. */
  ghost predicate Learned(a: Assignment, added: seq<Lit>)
    requires a.Indexed()
  {
    && NoDup(added)
    && (forall l :: l in added ==> a.False(l))
    && (a.Top() == 0 ==> added == [])
    && (a.Top() > 0 ==> added != [] && a.False(added[0]) && a.Level(added[0].idx) == a.Top())
    && (forall i :: 0 < i < |added| ==> a.False(added[i]) && 0 < a.Level(added[i].idx) < a.Top())
  }

  /** The false literals of the first unique implication point, if there is one, and of the kept variables. */
  ghost predicate Drawn(a: Assignment, uip: nat, kept: set<nat>, added: seq<Lit>)
    requires a.Indexed()
  {
    forall l :: l in added <==>
      (l.idx in a.at && l == FalseLit(a, l.idx) && ((a.Top() > 0 && l.idx == uip) || l.idx in kept))
  }

  lemma DrawStep(a: Assignment, uip: nat, kept: set<nat>, added: seq<Lit>, v: nat)
    requires a.Indexed() && Drawn(a, uip, kept, added) && Learned(a, added) && v in a.at && v !in kept
    requires 0 < a.Level(v) < a.Top() && uip in a.at && a.Level(uip) == a.Top()
    ensures Learned(a, added + [FalseLit(a, v)]) && Drawn(a, uip, kept + {v}, added + [FalseLit(a, v)])
  {
    var l := FalseLit(a, v);
    assert l !in added;
    NoDupAppend(added, l);
  }

  lemma DrawStart(a: Assignment, uip: nat)
    requires a.Indexed() && (a.Top() > 0 ==> uip in a.at && a.Level(uip) == a.Top())
    ensures var added := if a.Top() > 0 then [FalseLit(a, uip)] else [];
      Learned(a, added) && Drawn(a, uip, {}, added)
  {
  }

  lemma NextKept(marked: seq<nat>, dropped: set<nat>, i: nat)
    requires NoDup(marked) && i < |marked|
    ensures marked[i] in dropped ==> Elements(marked[..i+1]) - dropped == Elements(marked[..i]) - dropped
    ensures marked[i] !in dropped ==> Elements(marked[..i+1]) - dropped == Elements(marked[..i]) - dropped + {marked[i]}
    ensures marked[i] in marked && marked[i] in Elements(marked) && marked[i] !in Elements(marked[..i]) - dropped
  {
    assert marked[..i+1] == marked[..i] + [marked[i]];
  }

  /** Fourth phase: the clause over the variables that were not dropped. */
  method BuildClause(a: Assignment, uip: nat, marked: seq<nat>, dropped: set<nat>) returns (added: seq<Lit>)
    requires a.Valid() && a.Indexed() && Elements(marked) <= a.at.Keys && NoDup(marked)
    requires forall v :: v in marked ==> v in dropped || 0 < a.Level(v) < a.Top()
    requires a.Top() > 0 ==> uip in a.at && a.Level(uip) == a.Top()
    requires a.Top() == 0 ==> marked == []
    ensures Learned(a, added) && Drawn(a, uip, Elements(marked) - dropped, added)
    ensures a.Top() > 0 ==> added != [] && added[0] == FalseLit(a, uip)
  {
    hide *;
    added := if a.Top() > 0 then [FalseLit(a, uip)] else [];
    DrawStart(a, uip);
    assert Elements(marked[..0]) - dropped == {};
    for i := 0 to |marked|
      invariant Learned(a, added) && Drawn(a, uip, Elements(marked[..i]) - dropped, added)
      invariant a.Top() > 0 ==> added != [] && added[0] == FalseLit(a, uip)
    {
      NextKept(marked, dropped, i);
      if marked[i] !in dropped {
        DrawStep(a, uip, Elements(marked[..i]) - dropped, added, marked[i]);
        added := added + [FalseLit(a, marked[i])];
      }
    }
    assert marked[..|marked|] == marked;
  }

  lemma RefutedIsImplied(a: Assignment, hist: map<nat, Clause>, ids: set<nat>, vs: set<nat>, c: Clause)
    requires a.Indexed() && vs <= a.at.Keys && Refuted(a, hist, ids, vs)
    requires forall v :: v in vs ==> FalseLit(a, v) in c
    ensures Implies(hist, ids, c)
  {
    forall m: Model | SatIds(m, hist, ids)
      ensures SatClause(m, c)
    {
      var v :| v in vs && v in a.at && !Holds(m, a.trail[a.at[v]].lit);
      assert Holds(m, FalseLit(a, v));
    }
  }

  /** The clause built from the marks that were not dropped follows from the antecedents. */
  lemma LearnedIsImplied(a: Assignment, hist: map<nat, Clause>, lits: map<nat, seq<Lit>>, s: Marks, uip: nat,
                         resolved0: seq<nat>, marked: seq<nat>, dropped: set<nat>, resolved: seq<nat>, added: seq<Lit>)
    requires a.Indexed() && Ready(a, hist, lits) && MarksOk(a, s) && OnTop(a, s.mark) == {}
    requires Searched(a, lits, s, |s.marked|, marked) && Elements(marked) <= a.at.Keys
    requires Dropping(a, lits, marked, |marked|, resolved0, dropped, resolved)
    requires a.Top() > 0 ==> uip in a.at
    requires Refuted(a, hist, Elements(resolved0), s.mark + (if a.Top() > 0 then {uip} else {}))
    requires Drawn(a, uip, Elements(marked) - dropped, added)
    ensures Implies(hist, Elements(resolved), Elements(added)) && Elements(resolved) == Elements(resolved0) + ReasonsOf(a, dropped)
  {
    hide *;
    var top := if a.Top() > 0 then {uip} else {};
    DroppedClosed(a, hist, lits, s, resolved0, marked, dropped, resolved);
    MarksCovered(a, lits, s, marked);
    DropsStayRefuted(a, hist, lits, Elements(resolved0), s.mark, top, Elements(marked), dropped);
    DrawnFalse(a, uip, Elements(marked) - dropped, added);
    RefutedIsImplied(a, hist, Elements(resolved), (Elements(marked) - dropped) + top, Elements(added));
  }

  lemma DroppedClosed(a: Assignment, hist: map<nat, Clause>, lits: map<nat, seq<Lit>>, s: Marks,
                      resolved0: seq<nat>, marked: seq<nat>, dropped: set<nat>, resolved: seq<nat>)
    requires a.Indexed() && Ready(a, hist, lits) && Searched(a, lits, s, |s.marked|, marked) && Elements(marked) <= a.at.Keys
    requires Dropping(a, lits, marked, |marked|, resolved0, dropped, resolved)
    ensures dropped <= Elements(marked) && Elements(resolved) == Elements(resolved0) + ReasonsOf(a, dropped)
    ensures forall u :: u in dropped ==> u in a.at && a.Reason(u) != 0 && ReasonVars(a, lits, u) <= Elements(marked)
  {
    assert marked[..|marked|] == marked;
    forall u | u in dropped
      ensures u in a.at && a.Reason(u) != 0 && ReasonVars(a, lits, u) <= Elements(marked)
    {
      RedundantIsClosed(a, hist, lits, s, marked, u);
    }
  }

  lemma MarksCovered(a: Assignment, lits: map<nat, seq<Lit>>, s: Marks, marked: seq<nat>)
    requires a.Indexed() && MarksOk(a, s) && OnTop(a, s.mark) == {} && Searched(a, lits, s, |s.marked|, marked)
    ensures s.mark <= Elements(marked)
  {
    forall v | v in s.mark
      ensures v in marked
    {
      assert v in OnTop(a, s.mark) || v in s.marked;
    }
  }

  lemma DrawnFalse(a: Assignment, uip: nat, kept: set<nat>, added: seq<Lit>)
    requires a.Indexed() && Drawn(a, uip, kept, added) && kept <= a.at.Keys && (a.Top() > 0 ==> uip in a.at)
    ensures forall v :: v in kept + (if a.Top() > 0 then {uip} else {}) ==> v in a.at && FalseLit(a, v) in Elements(added)
  {
    forall v | v in kept + (if a.Top() > 0 then {uip} else {})
      ensures v in a.at && FalseLit(a, v) in Elements(added)
    {
      assert FalseLit(a, v).idx == v && FalseLit(a, v) in added;
    }
  }

  /** The marked variables that stay are on levels strictly between 0 and the current one. */
  lemma KeptLevels(a: Assignment, hist: map<nat, Clause>, lits: map<nat, seq<Lit>>, s: Marks, resolved0: seq<nat>,
                   marked: seq<nat>, dropped: set<nat>, resolved: seq<nat>)
    requires a.Indexed() && Ready(a, hist, lits) && Searched(a, lits, s, |s.marked|, marked) && Elements(marked) <= a.at.Keys
    requires Dropping(a, lits, marked, |marked|, resolved0, dropped, resolved)
    ensures forall v :: v in marked ==> v in dropped || 0 < a.Level(v) < a.Top()
    ensures Elements(resolved0) <= lits.Keys ==> Elements(resolved) <= lits.Keys
  {
    assert marked[..|marked|] == marked;
    forall v | v in marked
      ensures v in dropped || 0 < a.Level(v) < a.Top()
    {
      SearchedIsRedundant(a, hist, lits, s, marked, v);
    }
  }

  lemma EmptyOrNot(s: seq<nat>)
    ensures s == [] || exists v :: v in s
  {
    assert s == [] || s[0] in s;
  }

  lemma EmptyMarks(a: Assignment, lits: map<nat, seq<Lit>>, s: Marks, marked: seq<nat>)
    requires a.Indexed() && MarksOk(a, s) && s.mark == {} && Searched(a, lits, s, |s.marked|, marked) && a.Top() == 0
    ensures marked == []
  {
    EmptyOrNot(marked);
  }

  lemma SearchedFacts(a: Assignment, lits: map<nat, seq<Lit>>, s: Marks, marked: seq<nat>)
    requires a.Indexed() && Searched(a, lits, s, |s.marked|, marked)
    ensures NoDup(marked) && Elements(marked) <= a.at.Keys && forall v :: v in marked ==> a.Level(v) < a.Top()
  {
  }

  lemma DroppingFacts(a: Assignment, lits: map<nat, seq<Lit>>, marked: seq<nat>, resolved0: seq<nat>,
                      dropped: set<nat>, resolved: seq<nat>)
    requires a.Indexed() && Elements(marked) <= a.at.Keys && Dropping(a, lits, marked, |marked|, resolved0, dropped, resolved)
    ensures NoDup(resolved)
  {
  }

  /** The lower-level variables that the conflict and the implications after the first unique implication point rest on. */
  ghost function FirstSide(a: Assignment, lits: map<nat, seq<Lit>>, conflict: nat, uip: nat): (r: set<nat>)
    requires a.Indexed() && uip in a.at
    ensures forall v :: v in r <==> OnFirstSide(a, lits, conflict, uip, v)
  {
    set v | v in a.at && OnFirstSide(a, lits, conflict, uip, v)
  }

  /** The learned clause: empty on level 0; else the first unique implication point and what of its first side is needed. */
  ghost predicate IsLearned(a: Assignment, lits: map<nat, seq<Lit>>, conflict: nat, added: seq<Lit>)
    requires a.Indexed()
  {
    if a.Top() == 0 then added == []
    else
      && added != [] && added[0].idx in a.at && IsFirstUip(a, lits, conflict, added[0].idx)
      && forall l :: l in added <==> IsKept(a, lits, conflict, added[0].idx, l)
  }

  ghost predicate IsKept(a: Assignment, lits: map<nat, seq<Lit>>, conflict: nat, uip: nat, l: Lit)
    requires a.Indexed() && uip in a.at
  {
    && a.False(l)
    && (l.idx == uip || (OnFirstSide(a, lits, conflict, uip, l.idx) && Needed(a, lits, FirstSide(a, lits, conflict, uip), l.idx)))
  }

  /** v is of the first side and not needed, or on the way from one that is not to the others. */
  ghost predicate IsDropped(a: Assignment, lits: map<nat, seq<Lit>>, vs: set<nat>, v: nat)
    requires a.Indexed()
  {
    v in a.at && if v in vs then !Needed(a, lits, vs, v) else Absorbed(a, lits, vs, v)
  }

  /** The antecedents: the conflict, the reasons after the first unique implication point, and those of what was dropped. */
  ghost predicate AreAntecedents(a: Assignment, lits: map<nat, seq<Lit>>, conflict: nat, added: seq<Lit>, resolved: seq<nat>)
    requires a.Indexed()
  {
    if a.Top() == 0 then forall r :: r in resolved <==> IsUsed(a, lits, conflict, 0, r)
    else
      && added != [] && added[0].idx in a.at
      && forall r :: r in resolved <==>
           IsUsed(a, lits, conflict, a.at[added[0].idx] + 1, r) || IsDropReason(a, lits, conflict, added[0].idx, r)
  }

  ghost predicate IsDropReason(a: Assignment, lits: map<nat, seq<Lit>>, conflict: nat, uip: nat, r: nat)
    requires a.Indexed() && uip in a.at
  {
    exists v :: IsDropped(a, lits, FirstSide(a, lits, conflict, uip), v) && a.Reason(v) == r
  }

  /** Without further marks of its level the marks are those of the list. */
  lemma MarkIsMarked(a: Assignment, s: Marks)
    requires a.Indexed() && MarksOk(a, s) && OnTop(a, s.mark) == {}
    ensures s.mark == Elements(s.marked)
  {
    forall v | v in s.mark
      ensures v in s.marked
    {
      assert v in OnTop(a, s.mark) || v in s.marked;
    }
    forall v | v in s.marked
      ensures v in s.mark
    {
      assert BelowTop(a, s, v);
    }
  }

  lemma UipFacts(a: Assignment, hist: map<nat, Clause>, lits: map<nat, seq<Lit>>, conflict: nat, uip: nat, s: Marks, resolved: seq<nat>)
    requires a.Indexed() && UipFound(a, hist, lits, conflict, uip, s, resolved)
    ensures MarksOk(a, s) && OnTop(a, s.mark) == {} && Provenance(a, resolved, conflict, 0) && NoDup(resolved)
    ensures Elements(resolved) <= lits.Keys
    ensures a.Top() == 0 ==> uip == 0 && s.mark == {} && Elements(s.marked) == {} && Used(a, lits, conflict, Elements(resolved), 0)
    ensures a.Top() > 0 ==> uip in a.at && a.Level(uip) == a.Top() && IsFirstUip(a, lits, conflict, uip)
    ensures a.Top() > 0 ==> Elements(s.marked) == FirstSide(a, lits, conflict, uip)
    ensures a.Top() > 0 ==> Used(a, lits, conflict, Elements(resolved), a.at[uip] + 1)
    ensures Refuted(a, hist, Elements(resolved), s.mark + (if a.Top() > 0 then {uip} else {}))
  {
    hide MarksOk, Provenance, NoDup, Used, Refuted, IsFirstUip, OnFirstSide;
    MarkIsMarked(a, s);
    assert s.mark + {} == s.mark;
  }

  /** The marked variables that were dropped. */
  lemma DroppedIff(a: Assignment, hist: map<nat, Clause>, lits: map<nat, seq<Lit>>, s: Marks, resolved0: seq<nat>,
                   marked: seq<nat>, dropped: set<nat>, resolved: seq<nat>, v: nat)
    requires a.Indexed() && Ready(a, hist, lits) && MarksOk(a, s) && Searched(a, lits, s, |s.marked|, marked)
    requires Elements(marked) <= a.at.Keys && Dropping(a, lits, marked, |marked|, resolved0, dropped, resolved)
    ensures v in dropped <==> IsDropped(a, lits, Elements(s.marked), v)
    ensures v in Elements(marked) - dropped <==> v in s.marked && v in a.at && Needed(a, lits, Elements(s.marked), v)
  {
    hide Ready, MarksOk, NoDup, Redundant, Needed, Absorbed, Closed, Outcome, Pulled;
    assert marked[..|marked|] == marked;
    assert v in dropped <==> v in marked && Redundant(a, lits, Elements(marked), v);
    if v in s.marked {
      RedundantIff(a, hist, lits, s, marked, v);
    } else if v in marked {
      SearchedIsRedundant(a, hist, lits, s, marked, v);
      MarkedIsAbsorbed(a, hist, lits, s, marked, v);
    } else if v in a.at && Absorbed(a, lits, Elements(s.marked), v) {
      AbsorbedIsMarked(a, hist, lits, s, marked, v);
    }
  }

  lemma ClauseIs(a: Assignment, hist: map<nat, Clause>, lits: map<nat, seq<Lit>>, conflict: nat, uip: nat, s: Marks, resolved0: seq<nat>,
                 marked: seq<nat>, dropped: set<nat>, resolved: seq<nat>, added: seq<Lit>)
    requires a.Indexed() && Ready(a, hist, lits) && UipFound(a, hist, lits, conflict, uip, s, resolved0)
    requires Searched(a, lits, s, |s.marked|, marked) && Elements(marked) <= a.at.Keys
    requires Dropping(a, lits, marked, |marked|, resolved0, dropped, resolved)
    requires Learned(a, added) && (a.Top() > 0 ==> uip in a.at && added != [] && added[0] == FalseLit(a, uip))
    requires Drawn(a, uip, Elements(marked) - dropped, added)
    ensures IsLearned(a, lits, conflict, added)
  {
    hide Ready, UipFound, MarksOk, Searched, Dropping, Needed, OnFirstSide, IsFirstUip, Used;
    UipFacts(a, hist, lits, conflict, uip, s, resolved0);
    if a.Top() > 0 {
      forall l
        ensures l in added <==> IsKept(a, lits, conflict, uip, l)
      {
        DroppedIff(a, hist, lits, s, resolved0, marked, dropped, resolved, l.idx);
        FalseIsFalseLit(a, l);
      }
    }
  }

  lemma FalseIsFalseLit(a: Assignment, l: Lit)
    requires a.Indexed()
    ensures l.idx in a.at && l == FalseLit(a, l.idx) <==> a.False(l)
  {
  }

  lemma AntecedentsAre(a: Assignment, hist: map<nat, Clause>, lits: map<nat, seq<Lit>>, conflict: nat, uip: nat, s: Marks,
                       resolved0: seq<nat>, marked: seq<nat>, dropped: set<nat>, resolved: seq<nat>, added: seq<Lit>)
    requires a.Indexed() && Ready(a, hist, lits) && UipFound(a, hist, lits, conflict, uip, s, resolved0)
    requires Searched(a, lits, s, |s.marked|, marked) && Elements(marked) <= a.at.Keys && (a.Top() == 0 ==> marked == [])
    requires Dropping(a, lits, marked, |marked|, resolved0, dropped, resolved)
    requires a.Top() > 0 ==> uip in a.at && added != [] && added[0] == FalseLit(a, uip)
    requires Elements(resolved) == Elements(resolved0) + ReasonsOf(a, dropped) && dropped <= Elements(marked)
    ensures AreAntecedents(a, lits, conflict, added, resolved)
  {
    hide Ready, UipFound, MarksOk, Searched, Dropping, IsDropped, OnFirstSide, IsFirstUip, IsUsed;
    UipFacts(a, hist, lits, conflict, uip, s, resolved0);
    forall v
      ensures v in dropped <==> IsDropped(a, lits, Elements(s.marked), v)
    {
      DroppedIff(a, hist, lits, s, resolved0, marked, dropped, resolved, v);
    }
    if a.Top() > 0 {
      forall r
        ensures r in ReasonsOf(a, dropped) <==> IsDropReason(a, lits, conflict, uip, r)
      {
        DropReasons(a, lits, conflict, uip, dropped, r);
      }
    }
    assert forall r :: r in resolved <==> r in Elements(resolved0) || r in ReasonsOf(a, dropped);
  }

  lemma DropReasons(a: Assignment, lits: map<nat, seq<Lit>>, conflict: nat, uip: nat, dropped: set<nat>, r: nat)
    requires a.Indexed() && uip in a.at && dropped <= a.at.Keys
    requires forall v :: v in dropped <==> IsDropped(a, lits, FirstSide(a, lits, conflict, uip), v)
    ensures r in ReasonsOf(a, dropped) <==> IsDropReason(a, lits, conflict, uip, r)
  {
    hide Needed, Absorbed, OnFirstSide;
  }

  /** Conflict analysis. The clause it returns follows from the antecedents it returns. */
  method Analyze(a: Assignment, lits: map<nat, seq<Lit>>, ghost hist: map<nat, Clause>, conflict: nat)
    returns (added: seq<Lit>, resolved: seq<nat>)
    requires a.Valid() && a.Indexed() && Ready(a, hist, lits)
    requires conflict in lits && conflict in hist && Conflicting(a, hist[conflict])
    ensures Learned(a, added) && IsLearned(a, lits, conflict, added)
    ensures Implies(hist, Elements(resolved), Elements(added))
    ensures NoDup(resolved) && Elements(resolved) <= lits.Keys && AreAntecedents(a, lits, conflict, added, resolved)
  {
    hide *;
    var uip, s, resolved0 := FirstUip(a, lits, hist, conflict);
    UipFacts(a, hist, lits, conflict, uip, s, resolved0);
    var marked := MarkMore(a, lits, hist, s);
    SearchedFacts(a, lits, s, marked);
    var dropped;
    dropped, resolved := DropRedundant(a, lits, hist, conflict, marked, resolved0);
    DroppingFacts(a, lits, marked, resolved0, dropped, resolved);
    KeptLevels(a, hist, lits, s, resolved0, marked, dropped, resolved);
    if a.Top() == 0 {
      EmptyMarks(a, lits, s, marked);
    }
    added := BuildClause(a, uip, marked, dropped);
    LearnedIsImplied(a, hist, lits, s, uip, resolved0, marked, dropped, resolved, added);
    DroppedClosed(a, hist, lits, s, resolved0, marked, dropped, resolved);
    ClauseIs(a, hist, lits, conflict, uip, s, resolved0, marked, dropped, resolved, added);
    AntecedentsAre(a, hist, lits, conflict, uip, s, resolved0, marked, dropped, resolved, added);
  }
}
