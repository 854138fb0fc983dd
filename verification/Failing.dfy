/** Assumptions that fail: which of them are to blame, and the clause learned from the blame. */
module Failing {
  import opened Cnf
  import opened Sequences
  import opened Trail
  import opened Analysis
  import opened Graph
  import opened Minimize
  import opened Learning
  import opened Store

  /** Marks the variables of a clause. */
  method MarkVars(c: seq<Lit>, marked0: seq<nat>) returns (marked: seq<nat>)
    requires NoDup(marked0)
    ensures marked0 <= marked && NoDup(marked) && Elements(marked) == Elements(marked0) + VarsOf(c)
  {
    hide NoDup;
    marked := marked0;
    for p := 0 to |c|
      invariant marked0 <= marked && NoDup(marked) && Elements(marked) == Elements(marked0) + VarsOf(c[..p])
    {
      assert VarsOf(c[..p+1]) == VarsOf(c[..p]) + {c[p].idx} by { assert c[..p+1] == c[..p] + [c[p]]; }
      if c[p].idx !in marked {
        NoDupAppend(marked, c[p].idx);
        marked := marked + [c[p].idx];
      }
    }
    assert c[..|c|] == c;
  }

  /** The marked variables are v and variables assigned before it; the reasons of the first n are marked through. */
  ghost predicate Blaming(a: Assignment, lits: map<nat, seq<Lit>>, v: nat, marked: seq<nat>, n: nat)
    requires a.Indexed() && v in a.at
  {
    && n <= |marked| && NoDup(marked) && v in marked
    && (forall u :: u in marked ==> u in a.at && (u == v || a.at[u] < a.at[v]) && Behind(a, lits, v, u))
    && (forall i :: 0 <= i < n && a.Reason(marked[i]) != 0 ==> ReasonVars(a, lits, marked[i]) <= Elements(marked))
  }

  lemma BlameStart(a: Assignment, lits: map<nat, seq<Lit>>, v: nat)
    requires a.Indexed() && v in a.at
    ensures Blaming(a, lits, v, [v], 0)
  {
  }

  lemma BlameStep(a: Assignment, hist: map<nat, Clause>, lits: map<nat, seq<Lit>>, v: nat, marked: seq<nat>, n: nat, more: seq<nat>)
    requires a.Indexed() && Ready(a, hist, lits) && v in a.at && Blaming(a, lits, v, marked, n) && n < |marked|
    requires marked <= more && NoDup(more)
    requires a.Reason(marked[n]) == 0 ==> more == marked
    requires a.Reason(marked[n]) != 0 ==> Elements(more) == Elements(marked) + ReasonVars(a, lits, marked[n])
    ensures Blaming(a, lits, v, more, n + 1)
  {
    hide NoDup, ReasonVars, Ready;
    var u := marked[n];
    assert u in marked && more[n] == u;
    if a.Reason(u) != 0 {
      ReasonFacts(a, hist, lits, u);
    }
    forall i | 0 <= i < n + 1 && a.Reason(more[i]) != 0
      ensures ReasonVars(a, lits, more[i]) <= Elements(more)
    {
      if i < n { assert more[i] == marked[i]; }
    }
    forall w | w in more
      ensures w in a.at && (w == v || a.at[w] < a.at[v]) && Behind(a, lits, v, w)
    {
      if w !in marked {
        assert w in Elements(more) && w in ReasonVars(a, lits, u);
        assert Edge(a, lits, u, w);
      }
    }
  }

  /** In the end nothing that v rests on is left out. */
  lemma {:induction false} BehindIsBlamed(a: Assignment, hist: map<nat, Clause>, lits: map<nat, seq<Lit>>, v: nat, marked: seq<nat>, u: nat)
    requires a.Indexed() && Ready(a, hist, lits) && v in a.at && Blaming(a, lits, v, marked, |marked|) && u in a.at && Behind(a, lits, v, u)
    ensures u in marked
    decreases |a.trail| - a.at[u]
  {
    hide NoDup, ReasonVars, Ready;
    if u != v {
      var w :| Edge(a, lits, w, u) && w in a.at && a.at[w] > a.at[u] && Behind(a, lits, v, w);
      BehindIsBlamed(a, hist, lits, v, marked, w);
      var i :| 0 <= i < |marked| && marked[i] == w;
      assert u in Elements(marked);
    }
  }

  /** A model in which the marked decisions hold makes all marked literals true. */
  lemma BlamedHold(a: Assignment, hist: map<nat, Clause>, lits: map<nat, seq<Lit>>, v: nat, marked: seq<nat>, m: Model, ids: set<nat>)
    requires Ready(a, hist, lits) && v in a.at && Blaming(a, lits, v, marked, |marked|)
    requires forall u :: u in marked && a.Reason(u) == 0 ==> Holds(m, a.trail[a.at[u]].lit)
    requires SatIds(m, hist, ids) && forall u :: u in marked && a.Reason(u) != 0 ==> a.Reason(u) in ids
    ensures Holds(m, a.trail[a.at[v]].lit)
  {
    hide ReasonVars, Reasoned, NoDup;
    var dropped := set u | u in marked && a.Reason(u) != 0;
    forall u | u in dropped
      ensures ReasonVars(a, lits, u) <= Elements(marked)
    {
      var i :| 0 <= i < |marked| && marked[i] == u;
    }
    assert a.Agrees(m, Elements(marked) - dropped);
    AgreesOnDropped(a, hist, lits, Elements(marked), dropped, m, v);
  }

  lemma NextUnmarked(s: seq<nat>, n: nat)
    requires NoDup(s) && n < |s|
    ensures s[..n+1] == s[..n] + [s[n]] && s[n] !in s[..n] && s[n] in s
  {
  }

  lemma FewerLeft(all: set<nat>, s: seq<nat>, u: nat)
    requires u in all && u !in s
    ensures all - Elements(s + [u]) < all - Elements(s)
  {
    assert u in all - Elements(s) && u in s + [u];
    assert forall x :: x in s ==> x in s + [u];
  }

  /** Marks everything that the assignment of v depends on. */
  method Blame(a: Assignment, lits: map<nat, seq<Lit>>, ghost hist: map<nat, Clause>, v: nat) returns (marked: seq<nat>)
    requires a.Indexed() && Ready(a, hist, lits) && v in a.at
    ensures Blaming(a, lits, v, marked, |marked|)
    ensures forall u :: u in marked <==> u in a.at && Behind(a, lits, v, u)
  {
    marked := [v];
    BlameStart(a, lits, v);
    var pos: nat := 0;
    hide Ready, NoDup, ReasonVars;
    while pos < |marked|
      invariant Blaming(a, lits, v, marked, pos)
      decreases a.at.Keys - Elements(marked[..pos])
    {
      NextUnmarked(marked, pos);
      var u := marked[pos];
      ghost var before := marked;
      if a.Reason(u) != 0 {
        BlamedReason(a, hist, lits, u);
        marked := MarkVars(lits[a.Reason(u)], marked);
      }
      BlameStep(a, hist, lits, v, before, pos, marked);
      assert marked[..pos+1] == before[..pos] + [u];
      FewerLeft(a.at.Keys, before[..pos], u);
      pos := pos + 1;
    }
    BlamedIff(a, hist, lits, v, marked);
  }

  lemma BlamedIff(a: Assignment, hist: map<nat, Clause>, lits: map<nat, seq<Lit>>, v: nat, marked: seq<nat>)
    requires a.Indexed() && Ready(a, hist, lits) && v in a.at && Blaming(a, lits, v, marked, |marked|)
    ensures forall u :: u in marked <==> u in a.at && Behind(a, lits, v, u)
  {
    hide NoDup, ReasonVars, Ready, Behind;
    forall u | u in a.at && Behind(a, lits, v, u)
      ensures u in marked
    {
      BehindIsBlamed(a, hist, lits, v, marked, u);
    }
  }

  lemma BlamedReason(a: Assignment, hist: map<nat, Clause>, lits: map<nat, seq<Lit>>, u: nat)
    requires Ready(a, hist, lits) && u in a.at && a.Reason(u) != 0
    ensures a.Reason(u) in lits && ReasonVars(a, lits, u) == VarsOf(lits[a.Reason(u)])
  {
    ReasonFacts(a, hist, lits, u);
  }

  /** The assumptions over marked variables. */
  function Blamed(als: seq<Lit>, marked: seq<nat>): (r: set<Lit>)
    ensures forall l :: l in r <==> l in als && l.idx in marked
  {
    set l | l in als && l.idx in marked
  }

  /** The blamed assumptions and the formula have no common model. */
  lemma BlamedRefute(a: Assignment, hist: map<nat, Clause>, lits: map<nat, seq<Lit>>, zhains: Chains, oadded: nat, ladded: nat,
                     formula: set<Clause>, als: seq<Lit>, failed: Lit, marked: seq<nat>)
    requires Ready(a, hist, lits) && Stored(hist, lits, zhains, oadded, ladded, formula)
    requires failed in als && a.False(failed) && Blaming(a, lits, failed.idx, marked, |marked|)
    requires forall i :: 0 <= i < |a.trail| && a.trail[i].reason == 0 ==> a.trail[i].lit in als
    ensures !Satisfiable(formula, Blamed(als, marked))
  {
    hide ReasonVars, Chained, Numbered, NoDup;
    forall m: Model | SatFormula(m, formula)
      ensures !SatLits(m, Blamed(als, marked))
    {
      if SatLits(m, Blamed(als, marked)) {
        forall id | id in hist
          ensures SatClause(m, hist[id])
        {
          StoredIsSound(hist, zhains, formula, m, id);
        }
        BlamedHold(a, hist, lits, failed.idx, marked, m, hist.Keys);
      }
    }
  }

  /** x is true above level 0, and every other literal of the clause is a false decision made before; one of them
      opened x's level. */
  ghost predicate Explained(a: Assignment, added: seq<Lit>, x: Lit)
    requires a.Indexed()
  {
    && added != [] && added[0] == x && NoDup(added) && a.True(x) && a.Level(x.idx) > 0
    && (forall i :: 0 < i < |added| ==> a.False(added[i]) && a.at[added[i].idx] < a.at[x.idx] && a.Reason(added[i].idx) == 0)
    && (exists i :: 0 < i < |added| && a.False(added[i]) && a.Level(added[i].idx) == a.Level(x.idx))
  }

  /** The explaining clause has all decisions that x rests on, and the antecedents are the reasons of all else it rests on. */
  ghost predicate IsExplanation(a: Assignment, lits: map<nat, seq<Lit>>, x: Lit, added: seq<Lit>, resolved: seq<nat>)
    requires a.Indexed()
  {
    && (forall l :: l in added <==> l == x || (a.False(l) && Behind(a, lits, x.idx, l.idx) && a.Reason(l.idx) == 0))
    && (forall r :: r in resolved <==> IsReasonBehind(a, lits, x.idx, r))
  }

  ghost predicate IsReasonBehind(a: Assignment, lits: map<nat, seq<Lit>>, v: nat, r: nat)
    requires a.Indexed()
  {
    r != 0 && exists u :: u in a.at && Behind(a, lits, v, u) && a.Reason(u) == r
  }

  lemma ExplanationIs(a: Assignment, hist: map<nat, Clause>, lits: map<nat, seq<Lit>>, x: Lit, marked: seq<nat>, added: seq<Lit>,
                      resolved: seq<nat>)
    requires a.Indexed() && Ready(a, hist, lits) && x.idx in a.at && Blaming(a, lits, x.idx, marked, |marked|)
    requires Explaining(a, x, marked, |marked|, added, resolved)
    ensures IsExplanation(a, lits, x, added, resolved)
  {
    hide Ready, NoDup, Behind, Blaming;
    BlamedIff(a, hist, lits, x.idx, marked);
    assert marked[..|marked|] == marked;
    forall l: Lit
      ensures l.idx in a.at && l == FalseLit(a, l.idx) <==> a.False(l)
    {
      FalseIsFalseLit(a, l);
    }
    forall r
      ensures r in resolved <==> IsReasonBehind(a, lits, x.idx, r)
    {
      if r in resolved {
        assert IsBlamed(a, marked, r);
      }
    }
  }

  /** The clause explains x by the marked decisions; the antecedents are the reasons of the other marked variables. */
  ghost predicate Explaining(a: Assignment, x: Lit, marked: seq<nat>, n: nat, added: seq<Lit>, resolved: seq<nat>)
    requires a.Indexed() && n <= |marked|
  {
    && added != [] && added[0] == x && NoDup(added) && NoDup(resolved)
    && (forall l :: l in added <==> l == x || (l.idx in marked[..n] && l.idx in a.at && a.Reason(l.idx) == 0 && l == FalseLit(a, l.idx)))
    && (forall r :: r in resolved ==> IsBlamed(a, marked[..n], r))
    && (forall u :: u in marked[..n] && u in a.at && a.Reason(u) != 0 ==> a.Reason(u) in resolved)
  }

  ghost predicate IsBlamed(a: Assignment, marked: seq<nat>, r: nat)
    requires a.Indexed()
  {
    r != 0 && exists u :: u in marked && u in a.at && a.Reason(u) == r
  }

  lemma ExplainDecision(a: Assignment, x: Lit, marked: seq<nat>, n: nat, added: seq<Lit>, resolved: seq<nat>)
    requires a.Indexed() && n < |marked| && NoDup(marked) && Explaining(a, x, marked, n, added, resolved)
    requires marked[n] in a.at && a.Reason(marked[n]) == 0 && x.idx != marked[n]
    ensures Explaining(a, x, marked, n + 1, added + [FalseLit(a, marked[n])], resolved)
  {
    var u := marked[n];
    NextUnmarked(marked, n);
    NoDupAppend(added, FalseLit(a, u));
    hide NoDup;
    forall r | r in resolved
      ensures IsBlamed(a, marked[..n+1], r)
    {
      BlamedMore(a, marked, n, r);
    }
  }

  lemma BlamedMore(a: Assignment, marked: seq<nat>, n: nat, r: nat)
    requires a.Indexed() && n < |marked| && IsBlamed(a, marked[..n], r)
    ensures IsBlamed(a, marked[..n+1], r)
  {
    var u :| u in marked[..n] && u in a.at && a.Reason(u) == r;
    assert marked[..n+1] == marked[..n] + [marked[n]];
  }

  lemma ExplainReason(a: Assignment, hist: map<nat, Clause>, x: Lit, marked: seq<nat>, n: nat, added: seq<Lit>, resolved: seq<nat>)
    requires a.Valid() && Reasoned(a, hist) && n < |marked| && NoDup(marked) && Explaining(a, x, marked, n, added, resolved)
    requires marked[n] in a.at && a.Reason(marked[n]) != 0
    ensures Explaining(a, x, marked, n + 1, added, resolved + [a.Reason(marked[n])])
  {
    var u := marked[n];
    var r := a.Reason(u);
    NextUnmarked(marked, n);
    assert r !in resolved by {
      if r in resolved {
        var w :| w in marked[..n] && w in a.at && a.Reason(w) == r;
        ReasonsDiffer(a, hist, a.at[w], a.at[u]);
      }
    }
    NoDupAppend(resolved, r);
    hide NoDup;
    forall s | s in resolved + [r]
      ensures IsBlamed(a, marked[..n+1], s)
    {
      if s in resolved { BlamedMore(a, marked, n, s); }
    }
  }

  lemma ExplainMore(a: Assignment, x: Lit, marked: seq<nat>, more: seq<nat>, n: nat, added: seq<Lit>, resolved: seq<nat>)
    requires a.Indexed() && n <= |marked| && marked <= more && Explaining(a, x, marked, n, added, resolved)
    ensures Explaining(a, x, more, n, added, resolved)
  {
    assert more[..n] == marked[..n];
  }

  /** Among the marked variables is the decision that opened the level. */
  lemma {:induction false} LevelOpened(a: Assignment, hist: map<nat, Clause>, lits: map<nat, seq<Lit>>, v: nat, marked: seq<nat>, u: nat)
    returns (d: nat)
    requires Ready(a, hist, lits) && v in a.at && Blaming(a, lits, v, marked, |marked|) && u in marked && u in a.at && a.Level(u) > 0
    ensures d in marked && d in a.at && a.Reason(d) == 0 && a.Level(d) == a.Level(u)
    decreases a.at[u]
  {
    d := u;
    if a.Reason(u) != 0 {
      ReasonFacts(a, hist, lits, u);
      var e := a.trail[a.at[u]];
      assert Justified(a, hist, e, a.at[u]);
      var k :| k in hist[e.reason] && k != e.lit && a.False(k) && a.Level(k.idx) == e.level;
      assert k in lits[e.reason];
      var i :| 0 <= i < |marked| && marked[i] == u;
      assert k.idx in ReasonVars(a, lits, u);
      d := LevelOpened(a, hist, lits, v, marked, k.idx);
    }
  }

  lemma ExplanationHolds(a: Assignment, hist: map<nat, Clause>, lits: map<nat, seq<Lit>>, x: Lit, marked: seq<nat>,
                         added: seq<Lit>, resolved: seq<nat>)
    requires Ready(a, hist, lits) && a.True(x) && Blaming(a, lits, x.idx, marked, |marked|)
    requires Explaining(a, x, marked, |marked|, added, resolved)
    ensures Implies(hist, Elements(resolved), Elements(added))
  {
    hide NoDup, ReasonVars, Reasoned;
    assert marked[..|marked|] == marked;
    forall m: Model | SatIds(m, hist, Elements(resolved))
      ensures SatClause(m, Elements(added))
    {
      if u :| u in marked && u in a.at && a.Reason(u) == 0 && !Holds(m, a.trail[a.at[u]].lit) {
        assert FalseLit(a, u) in Elements(added) && Holds(m, FalseLit(a, u));
      } else {
        BlamedHold(a, hist, lits, x.idx, marked, m, Elements(resolved));
        assert Holds(m, x) && x in Elements(added);
      }
    }
  }

  lemma ExplanationShape(a: Assignment, hist: map<nat, Clause>, lits: map<nat, seq<Lit>>, x: Lit, marked: seq<nat>,
                         added: seq<Lit>, resolved: seq<nat>)
    requires Ready(a, hist, lits) && a.True(x) && a.Level(x.idx) > 0 && Blaming(a, lits, x.idx, marked, |marked|)
    requires Explaining(a, x, marked, |marked|, added, resolved) && a.Reason(x.idx) != 0
    ensures Explained(a, added, x) && Elements(resolved) <= lits.Keys
  {
    hide ReasonVars, Reasoned;
    assert marked[..|marked|] == marked;
    forall i | 0 < i < |added|
      ensures a.False(added[i]) && a.at[added[i].idx] < a.at[x.idx] && a.Reason(added[i].idx) == 0
    {
      assert added[i] in added && added[i] != added[0];
    }
    var d := LevelOpened(a, hist, lits, x.idx, marked, x.idx);
    assert FalseLit(a, d) in added;
    var i :| 0 <= i < |added| && added[i] == FalseLit(a, d);
    assert i > 0;
    forall r | r in resolved
      ensures r in lits
    {
      assert IsBlamed(a, marked, r);
      var u :| u in marked && u in a.at && a.Reason(u) == r;
      ReasonFacts(a, hist, lits, u);
    }
  }

  /** Some literal of v's reason clause, besides v's, is itself implied. */
  predicate Indirect(a: Assignment, c: seq<Lit>, v: nat)
    requires a.Indexed()
  {
    exists l :: l in c && l.idx != v && l.idx in a.at && a.Reason(l.idx) != 0
  }

  lemma IndirectAboveZero(a: Assignment, hist: map<nat, Clause>, lits: map<nat, seq<Lit>>, v: nat)
    requires Ready(a, hist, lits) && v in a.at && a.Reason(v) != 0
    ensures a.Reason(v) in lits
    ensures Indirect(a, lits[a.Reason(v)], v) ==> a.Level(v) > 0
  {
    ReasonFacts(a, hist, lits, v);
    if l :| l in lits[a.Reason(v)] && l.idx != v {
      assert l.idx in ReasonVars(a, lits, v);
    }
  }

  /** The explanation: every marked variable is either resolved with or, being a decision, put into the clause. */
  method Explain(a: Assignment, lits: map<nat, seq<Lit>>, ghost hist: map<nat, Clause>, x: Lit)
    returns (added: seq<Lit>, resolved: seq<nat>)
    requires a.Indexed() && Ready(a, hist, lits) && a.True(x) && a.Level(x.idx) > 0 && a.Reason(x.idx) != 0
    ensures Explained(a, added, x) && IsExplanation(a, lits, x, added, resolved)
    ensures Implies(hist, Elements(resolved), Elements(added)) && NoDup(resolved) && Elements(resolved) <= lits.Keys
  {
    hide Ready, NoDup, ReasonVars, Explaining, Explained, IsExplanation, Reasoned, Implies, Assignment.Indexed, Assignment.Leveled;
    ReadyValid(a, hist, lits);
    Assigned(a, x);
    var marked := [x.idx];
    added, resolved := [x], [];
    var next: nat := 0;
    BlameStart(a, lits, x.idx);
    ExplainStart(a, x, x.idx);
    while next < |marked|
      invariant Blaming(a, lits, x.idx, marked, next) && Explaining(a, x, marked, next, added, resolved)
      decreases a.at.Keys - Elements(marked[..next])
    {
      NextUnmarked(marked, next);
      var u := marked[next];
      ghost var before := marked;
      if a.Reason(u) != 0 {
        BlamedReason(a, hist, lits, u);
        ExplainReason(a, hist, x, marked, next, added, resolved);
        resolved := resolved + [a.Reason(u)];
        marked := MarkVars(lits[a.Reason(u)], marked);
      } else {
        ExplainDecision(a, x, marked, next, added, resolved);
        added := added + [FalseLit(a, u)];
      }
      BlameStep(a, hist, lits, x.idx, before, next, marked);
      ExplainMore(a, x, before, marked, next + 1, added, resolved);
      assert marked[..next+1] == before[..next] + [u];
      FewerLeft(a.at.Keys, before[..next], u);
      next := next + 1;
    }
    ExplanationHolds(a, hist, lits, x, marked, added, resolved);
    ExplanationShape(a, hist, lits, x, marked, added, resolved);
    ExplanationIs(a, hist, lits, x, marked, added, resolved);
    ExplainingFacts(a, x, marked, |marked|, added, resolved);
  }

  lemma Assigned(a: Assignment, x: Lit)
    requires a.Indexed() && a.True(x)
    ensures x.idx in a.at
  {
  }

  /** Explains a failed assumption by a clause over decisions, unless its reason is such a clause already. */
  method Fanalyze(a: Assignment, lits: map<nat, seq<Lit>>, ghost hist: map<nat, Clause>, failed: Lit)
    returns (found: bool, added: seq<Lit>, resolved: seq<nat>)
    requires a.Indexed() && Ready(a, hist, lits) && a.False(failed)
    ensures found ==> Explained(a, added, Neg(failed)) && a.Reason(failed.idx) != 0
    ensures found ==> IsExplanation(a, lits, Neg(failed), added, resolved)
    ensures found ==> Implies(hist, Elements(resolved), Elements(added)) && NoDup(resolved) && Elements(resolved) <= lits.Keys
    ensures !found ==> Direct(a, lits, failed.idx)
  {
    var v := failed.idx;
    found, added, resolved := false, [], [];
    if a.Reason(v) != 0 {
      IndirectAboveZero(a, hist, lits, v);
      if Indirect(a, lits[a.Reason(v)], v) {
        found := true;
        added, resolved := Explain(a, lits, hist, Neg(failed));
      }
    }
  }

  lemma ReadyValid(a: Assignment, hist: map<nat, Clause>, lits: map<nat, seq<Lit>>)
    requires Ready(a, hist, lits)
    ensures a.Valid() && Reasoned(a, hist)
  {
  }

  lemma ExplainingFacts(a: Assignment, x: Lit, marked: seq<nat>, n: nat, added: seq<Lit>, resolved: seq<nat>)
    requires a.Indexed() && n <= |marked| && Explaining(a, x, marked, n, added, resolved)
    ensures NoDup(resolved)
  {
  }

  lemma ExplainStart(a: Assignment, x: Lit, v: nat)
    requires a.Indexed()
    ensures Explaining(a, x, [v], 0, [x], [])
  {
  }

  /** v was decided, or its reason speaks of decisions only. */
  ghost predicate Direct(a: Assignment, lits: map<nat, seq<Lit>>, v: nat)
    requires a.Indexed()
  {
    v in a.at && (a.Reason(v) != 0 ==> a.Reason(v) in lits && !Indirect(a, lits[a.Reason(v)], v))
  }

  lemma DirectBlame(a: Assignment, hist: map<nat, Clause>, lits: map<nat, seq<Lit>>, als: seq<Lit>, failed: Lit)
    requires a.Indexed() && Ready(a, hist, lits) && a.False(failed) && Direct(a, lits, failed.idx)
    requires forall i :: 0 <= i < |a.trail| && a.trail[i].reason == 0 ==> a.trail[i].lit in als
    ensures a.Reason(failed.idx) != 0 ==> a.Reason(failed.idx) in hist
    ensures failed.idx in a.at && (a.Reason(failed.idx) == 0 ==> Neg(failed) in als)
    ensures a.Reason(failed.idx) != 0 ==>
      forall l :: l in hist[a.Reason(failed.idx)] && l != Neg(failed) ==> Neg(l) in als && l.idx != failed.idx
  {
    var r := a.Reason(failed.idx);
    var p := a.at[failed.idx];
    assert a.trail[p].lit == Neg(failed);
    if r != 0 {
      assert Justified(a, hist, a.trail[p], p);
      forall l | l in hist[r] && l != Neg(failed)
        ensures Neg(l) in als && l.idx != failed.idx
      {
        assert l in Elements(lits[r]) && a.False(l);
        assert a.trail[a.at[l.idx]].lit == Neg(l) && a.Reason(l.idx) == 0;
      }
    }
  }
}
