/** What the solver's answers mean. */
module Verdict {
  import opened Cnf
  import opened Sequences
  import opened Trail
  import opened Analysis
  import opened Store
  import opened TopLevel
  import opened Watch
  import opened Propagation
  import opened Undoing

  datatype Answer = Sat | Unsat | Unknown

  /** The trail as a model; unassigned variables are false. */
  function ModelOf(a: Assignment): Model {
    (v: nat) => a.True(Lit(v, false))
  }

  lemma TrueHolds(a: Assignment, l: Lit)
    requires a.True(l)
    ensures Holds(ModelOf(a), l)
  {
  }

  ghost predicate InRange(hist: map<nat, Clause>, maxVar: nat) {
    forall id, l :: id in hist && l in hist[id] ==> 0 < l.idx <= maxVar
  }

  /** A complete assignment that propagation finds no fault with is a model. */
  lemma CompleteIsModel(formula: set<Clause>, a: Assignment, hist: map<nat, Clause>, lits: map<nat, seq<Lit>>, loose: set<nat>,
                        impls: Lists, htps: Lists, dhtps: Lists, maxVar: nat)
    requires a.Valid() && Arranged(hist, lits) && Settled(formula, a, hist, lits, loose) && InRange(hist, maxVar)
    requires Linked(a, |a.trail|, |a.trail|, lits, loose, impls, htps, dhtps)
    requires |a.trail| == maxVar && forall i :: 0 <= i < |a.trail| ==> 0 < a.trail[i].lit.idx <= maxVar
    ensures SatFormula(ModelOf(a), formula)
  {
    hide Linked, LooseOk, UnitsTrue;
    TrailBound(a, maxVar);
    forall c | c in formula
      ensures SatClause(ModelOf(a), c)
    {
      if Tautology(c) {
        TautologyHolds(ModelOf(a), c);
      } else if ZeroTrue(a, c) {
        var l :| l in c && a.True(l);
        TrueHolds(a, l);
      } else {
        var id :| id in lits && id in hist && id % 2 == 0 && hist[id] == c;
        Scan(formula, a, hist, lits, loose, impls, htps, dhtps, id);
        assert forall l :: l in lits[id] ==> l in hist[id] && !a.Undef(l);
        var l :| l in lits[id] && a.True(l);
        TrueHolds(a, l);
      }
    }
  }

  /** All its literals are false for good. */
  ghost predicate ZeroFalse(a: Assignment, c: Clause)
    requires a.Indexed()
  {
    forall l :: l in c ==> a.False(l) && a.Level(l.idx) == 0
  }

  /** Complete propagation would have found a clause whose literals are all false on level 0. */
  lemma NoZeroFalse(formula: set<Clause>, a: Assignment, hist: map<nat, Clause>, lits: map<nat, seq<Lit>>, loose: set<nat>,
                    impls: Lists, htps: Lists, dhtps: Lists, c: Clause)
    requires a.Valid() && Arranged(hist, lits) && Settled(formula, a, hist, lits, loose) && c in formula
    requires Linked(a, |a.trail|, |a.trail|, lits, loose, impls, htps, dhtps)
    ensures !ZeroFalse(a, c)
  {
    hide Linked, LooseOk, UnitsTrue;
    if !Tautology(c) && !ZeroTrue(a, c) {
      var id :| id in lits && id in hist && id % 2 == 0 && hist[id] == c;
      Scan(formula, a, hist, lits, loose, impls, htps, dhtps, id);
      assert forall l :: l in lits[id] ==> l in hist[id];
    }
  }

  /** When all decisions hold, so does everything on the trail. */
  lemma {:induction false} TrailHolds(a: Assignment, hist: map<nat, Clause>, m: Model, i: nat)
    requires a.Valid() && Reasoned(a, hist) && i < |a.trail|
    requires forall id :: id in hist ==> SatClause(m, hist[id])
    requires forall j :: 0 <= j < |a.trail| && a.trail[j].reason == 0 ==> Holds(m, a.trail[j].lit)
    ensures Holds(m, a.trail[i].lit)
  {
    var e := a.trail[i];
    assert Justified(a, hist, e, i);
    if e.reason != 0 {
      var l :| l in hist[e.reason] && Holds(m, l);
      if l != e.lit {
        assert a.False(l);
        TrailHolds(a, hist, m, a.at[l.idx]);
      }
    }
  }

  /** If all decisions are assumptions and an assumption is false, formula and assumptions have no common model. */
  lemma FailedIsUnsat(a: Assignment, hist: map<nat, Clause>, lits: map<nat, seq<Lit>>, zhains: Chains, oadded: nat, ladded: nat,
                      formula: set<Clause>, als: seq<Lit>, failed: Lit)
    requires a.Valid() && Reasoned(a, hist) && Stored(hist, lits, zhains, oadded, ladded, formula)
    requires failed in als && a.False(failed)
    requires forall i :: 0 <= i < |a.trail| && a.trail[i].reason == 0 ==> a.trail[i].lit in als
    ensures !Satisfiable(formula, Elements(als))
  {
    hide Chained, Numbered, Arranged, Justified;
    forall m: Model | SatFormula(m, formula)
      ensures !SatLits(m, Elements(als))
    {
      forall id | id in hist
        ensures SatClause(m, hist[id])
      {
        StoredIsSound(hist, zhains, formula, m, id);
      }
      if SatLits(m, Elements(als)) {
        TrailHolds(a, hist, m, a.at[failed.idx]);
      }
    }
  }

  /** Once the empty clause is stored, the formula has no model at all. */
  lemma EmptyIsUnsat(hist: map<nat, Clause>, lits: map<nat, seq<Lit>>, zhains: Chains, oadded: nat, ladded: nat,
                     formula: set<Clause>, s: set<Lit>, mtcls: nat)
    requires Stored(hist, lits, zhains, oadded, ladded, formula) && mtcls in hist && hist[mtcls] == {}
    ensures !Satisfiable(formula, s)
  {
    hide Chained, Numbered, Arranged;
    forall m: Model
      ensures !SatFormula(m, formula)
    {
      if SatFormula(m, formula) {
        StoredIsSound(hist, zhains, formula, m, mtcls);
      }
    }
  }

  /** With a single assumption, which is false, there is no decision: it is false for good. */
  lemma SingleFailsAtZero(a: Assignment, als: seq<Lit>, failed: Lit)
    requires a.Valid() && |als| == 1 && als[0] == failed && a.False(failed)
    requires forall i :: 0 <= i < |a.trail| && a.trail[i].reason == 0 ==> a.trail[i].lit in als
    ensures a.Level(failed.idx) == 0
  {
    NoDecisions(a, |a.trail|);
    LevelsBelowTop(a, failed.idx);
  }

  lemma {:induction false} NoDecisions(a: Assignment, i: nat)
    requires a.Valid() && i <= |a.trail|
    requires forall j :: 0 <= j < i ==> a.trail[j].reason != 0
    ensures a.LevelBefore(i) == 0
  {
    if i > 0 {
      NoDecisions(a, i - 1);
      assert a.trail[i-1].level == a.LevelBefore(i - 1) + (if a.trail[i-1].reason == 0 then 1 else 0);
    }
  }

  lemma InRangeStore(hist: map<nat, Clause>, maxVar: nat, id: nat, c: Clause)
    requires InRange(hist, maxVar) && forall l :: l in c ==> 0 < l.idx <= maxVar
    ensures InRange(hist[id := c], maxVar)
  {
  }

  lemma InRangeAt(hist: map<nat, Clause>, maxVar: nat, id: nat, l: Lit)
    requires InRange(hist, maxVar) && id in hist && l in hist[id]
    ensures 0 < l.idx <= maxVar
  {
  }

  lemma InRangeWiden(hist: map<nat, Clause>, maxVar: nat, more: nat)
    requires InRange(hist, maxVar) && maxVar <= more
    ensures InRange(hist, more)
  {
  }

  lemma TotalModel(a: Assignment, maxVar: nat, l: Lit)
    requires a.Valid() && |a.trail| == maxVar && 0 < l.idx <= maxVar
    requires forall i :: 0 <= i < |a.trail| ==> 0 < a.trail[i].lit.idx <= maxVar
    ensures a.True(l) || a.False(l)
    ensures a.True(l) <==> Holds(ModelOf(a), l)
    ensures a.False(l) <==> !Holds(ModelOf(a), l)
  {
    TrailBound(a, maxVar);
  }
}
