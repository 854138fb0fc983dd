/** Shrinking the failed assumptions to a minimal unsatisfiable subset. */
module Mus {
  import opened Cnf
  import opened Sequences
  import opened Trail
  import opened Verdict
  import opened Subsets
  import Solver

  /** How the computation ends: with a result, at the propagation limit, or at an assertion that does not hold. */
  datatype Ending = Done | GaveUp | AssertionFails

  /** What stands at other positions than p. */
  ghost function But(s: seq<Lit>, p: nat): (r: set<Lit>)
    ensures forall l :: l in r <==> exists j :: 0 <= j < |s| && j != p && s[j] == l
  {
    set j | 0 <= j < |s| && j != p :: s[j]
  }

  /** The candidates that are not found redundant. */
  ghost function Left(work: seq<Lit>, redundant: seq<bool>): (r: set<Lit>)
    requires |redundant| == |work|
    ensures forall l :: l in r <==> exists j :: 0 <= j < |work| && work[j] == l && !redundant[j]
  {
    set j | 0 <= j < |work| && !redundant[j] :: work[j]
  }

  /** Those at other positions than i. */
  ghost function LeftBut(work: seq<Lit>, redundant: seq<bool>, i: nat): (r: set<Lit>)
    requires |redundant| == |work|
    ensures forall l :: l in r <==> exists j :: 0 <= j < |work| && j != i && work[j] == l && !redundant[j]
  {
    set j | 0 <= j < |work| && j != i && !redundant[j] :: work[j]
  }

  /** What is left is unsatisfiable, and of the first i candidates each one left is needed. Candidates over one variable
      are found redundant together, because failing is a property of variables. */
  ghost predicate Shrinking(f: set<Clause>, work: seq<Lit>, redundant: seq<bool>, i: nat) {
    && i <= |work| == |redundant| && (forall l :: l in work ==> l.idx > 0)
    && !Satisfiable(f, Left(work, redundant))
    && (forall j :: 0 <= j < i && !redundant[j] ==> Satisfiable(f, LeftBut(work, redundant, j)))
    && SameVars(work, redundant)
  }

  ghost predicate SameVars(work: seq<Lit>, redundant: seq<bool>)
    requires |redundant| == |work|
  {
    forall j, k :: 0 <= j < |work| && 0 <= k < |work| && work[j].idx == work[k].idx ==> redundant[j] == redundant[k]
  }

  lemma ShrinkingEnd(f: set<Clause>, work: seq<Lit>, redundant: seq<bool>)
    requires Shrinking(f, work, redundant, |work|)
    ensures IsMus(f, Left(work, redundant))
    ensures forall j, k :: 0 <= j < k < |work| && !redundant[j] && !redundant[k] ==> work[j] != work[k]
  {
    forall j | 0 <= j < |work| && !redundant[j]
      ensures work[j] !in LeftBut(work, redundant, j) && Satisfiable(f, Left(work, redundant) - {work[j]})
    {
      LeftOutOnce(work, redundant, j);
      SatisfiableMono(f, Left(work, redundant) - {work[j]}, LeftBut(work, redundant, j));
    }
  }

  /** A candidate that is also left at another position makes no difference. */
  lemma LeftOutOnce(work: seq<Lit>, redundant: seq<bool>, j: nat)
    requires |redundant| == |work| && j < |work| && !redundant[j]
    ensures work[j] in LeftBut(work, redundant, j) ==> LeftBut(work, redundant, j) == Left(work, redundant)
    ensures Left(work, redundant) - {work[j]} <= LeftBut(work, redundant, j)
  {
  }

  lemma ShrinkSkip(f: set<Clause>, work: seq<Lit>, redundant: seq<bool>, i: nat)
    requires Shrinking(f, work, redundant, i) && i < |work|
    requires redundant[i] || Satisfiable(f, LeftBut(work, redundant, i))
    ensures Shrinking(f, work, redundant, i + 1)
  {
  }

  /** An element that cannot be dropped is in every unsatisfiable part. */
  lemma NeededFails(f: set<Clause>, s: set<Lit>, failed: set<Lit>, l: Lit)
    requires failed <= s && !Satisfiable(f, failed) && Satisfiable(f, s - {l})
    ensures l in failed
  {
    if l !in failed {
      SatisfiableMono(f, failed, s - {l});
    }
  }

  /** The answer of the last search about each candidate: passed[j] says that its variable did not fail. */
  ghost predicate Passing(work: seq<Lit>, failed: set<Lit>, passed: seq<bool>) {
    |passed| == |work| && forall j :: 0 <= j < |work| ==> (passed[j] <==> forall l :: l in failed ==> l.idx != work[j].idx)
  }

  /** Entry p shares its variable with another, and the formula is unsatisfiable with all entries but p. */
  ghost predicate Clash(f: set<Clause>, s: seq<Lit>, p: nat) {
    && p < |s| && !Satisfiable(f, But(s, p))
    && exists q :: 0 <= q < |s| && q != p && s[q].idx == s[p].idx
  }

  /** Two entries are over one variable, and the formula is satisfiable with the entries over all other variables. */
  ghost predicate NeededPair(f: set<Clause>, s: seq<Lit>, p: nat, q: nat) {
    && p < q < |s| && s[p].idx == s[q].idx
    && Satisfiable(f, set l | l in s && l.idx != s[p].idx)
  }

  /** Such entries are opposites, and all there is in s. */
  ghost predicate PairsAreAll(f: set<Clause>, als: seq<Lit>, s: set<Lit>) {
    forall p: nat, q: nat :: NeededPair(f, als, p, q) ==> als[p] == Neg(als[q]) && s == {als[p], als[q]}
  }

  /** A candidate tried before and left has failed. */
  lemma NeededStays(f: set<Clause>, work: seq<Lit>, redundant: seq<bool>, i: nat, failed: set<Lit>, passed: seq<bool>, j: nat)
    requires Shrinking(f, work, redundant, i) && i < |work| && j < i && !redundant[j]
    requires failed <= LeftBut(work, redundant, i) && !Satisfiable(f, failed) && Passing(work, failed, passed)
    ensures !passed[j]
  {
    if failed <= LeftBut(work, redundant, j) {
      SatisfiableMono(f, failed, LeftBut(work, redundant, j));
    }
    var l :| l in failed && l !in LeftBut(work, redundant, j);
    var k :| 0 <= k < |work| && k != i && work[k] == l && !redundant[k];
    assert k == j;
  }

  /** What is dropped already has not failed. */
  lemma DroppedPass(work: seq<Lit>, redundant: seq<bool>, i: nat, failed: set<Lit>, passed: seq<bool>, j: nat)
    requires |redundant| == |work| && i < |work| && SameVars(work, redundant) && j < |work| && redundant[j]
    requires failed <= LeftBut(work, redundant, i) && Passing(work, failed, passed)
    ensures passed[j]
  {
    forall l | l in failed
      ensures l.idx != work[j].idx
    {
      var k :| 0 <= k < |work| && k != i && work[k] == l && !redundant[k];
    }
  }

  /** When dropping candidate i comes out as unsatisfiable, only its own assertion can fail, and only because another
      candidate over the same variable was left. */
  lemma DropAsserted(f: set<Clause>, work: seq<Lit>, redundant: seq<bool>, i: nat, failed: set<Lit>, passed: seq<bool>, j: nat)
    requires Shrinking(f, work, redundant, i) && i < |work| && !redundant[i] && j <= i
    requires failed <= LeftBut(work, redundant, i) && !Satisfiable(f, failed) && Passing(work, failed, passed)
    requires passed[j] != (redundant[j] || j == i)
    ensures j == i && Clash(f, work, i)
  {
    if redundant[j] {
      DroppedPass(work, redundant, i, failed, passed, j);
    } else if j < i {
      NeededStays(f, work, redundant, i, failed, passed, j);
    }
    assert LeftBut(work, redundant, i) <= But(work, i);
    if Satisfiable(f, But(work, i)) {
      SatisfiableMono(f, failed, But(work, i));
    }
    var l :| l in failed && l.idx == work[j].idx;
    var k :| 0 <= k < |work| && k != i && work[k] == l && !redundant[k];
  }

  /** Everything that did not fail is dropped at once, candidate i among it. */
  lemma ShrinkDrop(f: set<Clause>, work: seq<Lit>, redundant: seq<bool>, i: nat, failed: set<Lit>, passed: seq<bool>, more: seq<bool>)
    requires Shrinking(f, work, redundant, i) && i < |work| && !redundant[i] && |more| == |work|
    requires failed <= LeftBut(work, redundant, i) && !Satisfiable(f, failed) && Passing(work, failed, passed)
    requires forall j :: 0 <= j <= i ==> passed[j] == more[j] == (redundant[j] || j == i)
    requires forall j :: i < j < |work| ==> more[j] == (redundant[j] || passed[j])
    ensures Shrinking(f, work, more, i + 1)
  {
    hide *;
    MorePassed(f, work, redundant, i, failed, passed, more);
    StillNeeded(f, work, redundant, i, more);
    FailedLeft(work, redundant, i, failed, passed, more);
    if Satisfiable(f, Left(work, more)) {
      SatisfiableMono(f, failed, Left(work, more));
    }
    ShrinkingIntro(f, work, more, i + 1);
  }

  lemma MorePassed(f: set<Clause>, work: seq<Lit>, redundant: seq<bool>, i: nat, failed: set<Lit>, passed: seq<bool>, more: seq<bool>)
    requires Shrinking(f, work, redundant, i) && i < |work| && !redundant[i] && |more| == |work|
    requires failed <= LeftBut(work, redundant, i) && Passing(work, failed, passed)
    requires forall j :: 0 <= j <= i ==> passed[j] == more[j] == (redundant[j] || j == i)
    requires forall j :: i < j < |work| ==> more[j] == (redundant[j] || passed[j])
    ensures forall j :: 0 <= j < |work| ==> more[j] == passed[j]
    ensures SameVars(work, more)
  {
    hide Satisfiable;
    forall j | 0 <= j < |work| && redundant[j]
      ensures passed[j]
    {
      DroppedPass(work, redundant, i, failed, passed, j);
    }
  }

  lemma FailedLeft(work: seq<Lit>, redundant: seq<bool>, i: nat, failed: set<Lit>, passed: seq<bool>, more: seq<bool>)
    requires i < |work| == |more| == |redundant| && failed <= LeftBut(work, redundant, i) && Passing(work, failed, passed)
    requires forall j :: 0 <= j < |work| ==> more[j] == passed[j]
    ensures failed <= Left(work, more)
  {
    hide Passing;
    forall l | l in failed
      ensures l in Left(work, more)
    {
      assert l in LeftBut(work, redundant, i);
      var k :| 0 <= k < |work| && k != i && work[k] == l && !redundant[k];
      FailedNotPassed(work, failed, passed, k);
    }
  }

  lemma FailedNotPassed(work: seq<Lit>, failed: set<Lit>, passed: seq<bool>, k: nat)
    requires Passing(work, failed, passed) && k < |work| && work[k] in failed
    ensures |passed| == |work| && !passed[k]
  {
  }

  lemma LessLeft(work: seq<Lit>, redundant: seq<bool>, more: seq<bool>, j: nat)
    requires |work| == |more| == |redundant| && forall k :: 0 <= k < |work| && redundant[k] ==> more[k]
    ensures LeftBut(work, more, j) <= LeftBut(work, redundant, j)
  {
  }

  lemma StillNeeded(f: set<Clause>, work: seq<Lit>, redundant: seq<bool>, i: nat, more: seq<bool>)
    requires Shrinking(f, work, redundant, i) && i < |work| == |more| && more[i]
    requires forall k :: 0 <= k < |work| && redundant[k] ==> more[k]
    ensures forall j :: 0 <= j < i + 1 && !more[j] ==> Satisfiable(f, LeftBut(work, more, j))
    ensures |redundant| == |work| && forall l :: l in work ==> l.idx > 0
  {
    hide Satisfiable, SameVars;
    forall j | 0 <= j < i + 1 && !more[j]
      ensures Satisfiable(f, LeftBut(work, more, j))
    {
      LessLeft(work, redundant, more, j);
      SatisfiableMono(f, LeftBut(work, more, j), LeftBut(work, redundant, j));
    }
  }

  lemma ShrinkingIntro(f: set<Clause>, work: seq<Lit>, redundant: seq<bool>, i: nat)
    requires i <= |work| == |redundant| && (forall l :: l in work ==> l.idx > 0) && SameVars(work, redundant)
    requires !Satisfiable(f, Left(work, redundant))
    requires forall j :: 0 <= j < i && !redundant[j] ==> Satisfiable(f, LeftBut(work, redundant, j))
    ensures Shrinking(f, work, redundant, i)
  {
  }

  /** Assumes all candidates left but one. */
  method AssumeOthers(ps: Solver.Solver, work: seq<Lit>, redundant: seq<bool>, i: nat)
    requires ps.Live() && ps.added == [] && !ps.state.READY? && i < |work| == |redundant|
    requires forall l :: l in work ==> l.idx > 0
    modifies ps
    ensures ps.Live() && ps.added == [] && ps.formula == old(ps.formula) && ps.lpropagations == old(ps.lpropagations)
    ensures Elements(ps.Pending()) == LeftBut(work, redundant, i) && ps.maxVar >= old(ps.maxVar)
  {
    hide *;
    ps.PendingIs();
    OthersStart(work, redundant, i);
    for j := 0 to |work|
      invariant ps.Live() && ps.added == [] && ps.formula == old(ps.formula) && ps.lpropagations == old(ps.lpropagations)
      invariant ps.maxVar >= old(ps.maxVar)
      invariant Others(work, redundant, i, j, ps.Pending())
    {
      assert work[j] in work;
      OthersStep(work, redundant, i, j, ps.Pending());
      if j != i && !redundant[j] {
        ps.Assume(work[j]);
        ps.PendingIs();
      }
    }
    OthersEnd(work, redundant, i, ps.Pending());
  }

  ghost predicate Others(work: seq<Lit>, redundant: seq<bool>, i: nat, j: nat, als: seq<Lit>)
    requires |redundant| == |work|
  {
    j <= |work| && forall l :: l in als <==> exists k :: 0 <= k < j && k != i && work[k] == l && !redundant[k]
  }

  lemma OthersStart(work: seq<Lit>, redundant: seq<bool>, i: nat)
    requires |redundant| == |work|
    ensures Others(work, redundant, i, 0, [])
  {
  }

  lemma OthersStep(work: seq<Lit>, redundant: seq<bool>, i: nat, j: nat, als: seq<Lit>)
    requires |redundant| == |work| && j < |work| && Others(work, redundant, i, j, als)
    ensures if j != i && !redundant[j] then Others(work, redundant, i, j + 1, als + [work[j]]) else Others(work, redundant, i, j + 1, als)
  {
  }

  lemma OthersEnd(work: seq<Lit>, redundant: seq<bool>, i: nat, als: seq<Lit>)
    requires |redundant| == |work| && Others(work, redundant, i, |work|, als)
    ensures Elements(als) == LeftBut(work, redundant, i)
  {
  }

  /** Which candidates did not fail in the last search. */
  method NotFailed(ps: Solver.Solver, work: seq<Lit>) returns (passed: seq<bool>, ghost failed: set<Lit>)
    requires ps.Live() && ps.state == Solver.AFTER(Unsat) && work != [] && forall l :: l in work ==> 0 < l.idx <= ps.maxVar
    modifies ps`extracted, ps`fails
    ensures ps.Live() && failed <= Elements(ps.als) && !Satisfiable(ps.formula, failed) && Passing(work, failed, passed)
  {
    hide *;
    passed := [];
    for j := 0 to |work|
      invariant ps.Live() && ps.state == Solver.AFTER(Unsat) && |passed| == j && (ps.mtcls == 0 && j > 0 ==> ps.extracted)
      invariant forall k :: 0 <= k < j ==> (passed[k] <==> ps.mtcls != 0 || work[k].idx !in ps.fails)
    {
      assert work[j] in work;
      var r := ps.FailedAssumption(work[j]);
      passed := passed + [!r];
    }
    ps.LiveElim();
    if ps.mtcls != 0 {
      ps.EmptyMeansUnsat();
      failed := {};
      NonePass(work, passed);
    } else {
      failed := ps.FailedLits();
      FailedMatch(ps, work, passed);
    }
  }

  lemma NonePass(work: seq<Lit>, passed: seq<bool>)
    requires |passed| == |work| && forall j :: 0 <= j < |work| ==> passed[j]
    ensures Passing(work, {}, passed)
  {
  }

  lemma FailedMatch(ps: Solver.Solver, work: seq<Lit>, passed: seq<bool>)
    requires |passed| == |work| && forall v :: v in ps.fails ==> ps.IsAssumed(v)
    requires forall j :: 0 <= j < |work| ==> (passed[j] <==> work[j].idx !in ps.fails)
    ensures ps.FailedLits() <= Elements(ps.als) && Passing(work, ps.FailedLits(), passed)
  {
    forall j | 0 <= j < |work| && !passed[j]
      ensures exists l :: l in ps.FailedLits() && l.idx == work[j].idx
    {
      var l :| l in ps.als && l.idx == work[j].idx;
      assert l in ps.FailedLits();
    }
  }

  /** The failed assumptions, in order. */
  function FailedOf(als: seq<Lit>, fails: set<nat>): (r: seq<Lit>)
    ensures forall l :: l in r <==> l in als && l.idx in fails
  {
    if als == [] then []
    else (if als[0].idx in fails then [als[0]] else []) + FailedOf(als[1..], fails)
  }

  /** Two failed assumptions are two candidates. */
  lemma {:induction false} BothKept(als: seq<Lit>, fails: set<nat>, p: nat, q: nat) returns (i: nat, k: nat)
    requires p < q < |als| && als[p].idx in fails && als[q].idx in fails
    ensures i < k < |FailedOf(als, fails)| && FailedOf(als, fails)[i] == als[p] && FailedOf(als, fails)[k] == als[q]
  {
    if p > 0 {
      i, k := BothKept(als[1..], fails, p - 1, q - 1);
      if als[0].idx in fails {
        i, k := i + 1, k + 1;
      }
    } else {
      var rest := FailedOf(als[1..], fails);
      assert als[1..][q - 1] == als[q];
      k :| 0 <= k < |rest| && rest[k] == als[q];
      i, k := 0, k + 1;
    }
  }

  /** A candidate is an assumption, and the other candidates are among the other assumptions. */
  lemma {:induction false} WhereFrom(als: seq<Lit>, fails: set<nat>, i: nat) returns (p: nat)
    requires i < |FailedOf(als, fails)|
    ensures p < |als| && als[p] == FailedOf(als, fails)[i] && But(FailedOf(als, fails), i) <= But(als, p)
  {
    var work, rest := FailedOf(als, fails), FailedOf(als[1..], fails);
    if als[0].idx !in fails {
      p := WhereFrom(als[1..], fails, i);
      p := p + 1;
      ButCons(als, p);
    } else if i > 0 {
      p := WhereFrom(als[1..], fails, i - 1);
      p := p + 1;
      ButCons(als, p);
      ButCons(work, i);
      assert work[1..] == rest;
    } else {
      p := 0;
      ButFirst(als);
      ButFirst(work);
      assert work[1..] == rest;
    }
  }

  lemma ButCons(s: seq<Lit>, p: nat)
    requires 0 < p < |s|
    ensures But(s, p) == {s[0]} + But(s[1..], p - 1)
  {
    forall l | l in But(s, p)
      ensures l in {s[0]} + But(s[1..], p - 1)
    {
      var j :| 0 <= j < |s| && j != p && s[j] == l;
      assert j > 0 ==> s[1..][j-1] == l;
    }
    forall l | l in But(s[1..], p - 1)
      ensures l in But(s, p)
    {
      var j :| 0 <= j < |s[1..]| && j != p - 1 && s[1..][j] == l;
      assert s[j+1] == l;
    }
  }

  lemma ButFirst(s: seq<Lit>)
    requires s != []
    ensures But(s, 0) == Elements(s[1..])
  {
    forall l | l in But(s, 0)
      ensures l in Elements(s[1..])
    {
      var j :| 0 <= j < |s| && j != 0 && s[j] == l;
      assert s[1..][j-1] == l;
    }
    forall l | l in Elements(s[1..])
      ensures l in But(s, 0)
    {
      var j :| 0 <= j < |s[1..]| && s[1..][j] == l;
      assert s[j+1] == l;
    }
  }

  /** A clash between candidates is one between assumptions. */
  lemma ClashFrom(f: set<Clause>, als: seq<Lit>, fails: set<nat>, i: nat)
    requires Clash(f, FailedOf(als, fails), i)
    ensures exists p :: Clash(f, als, p)
  {
    var work := FailedOf(als, fails);
    var k :| 0 <= k < |work| && k != i && work[k].idx == work[i].idx;
    var p := WhereFrom(als, fails, i);
    if Satisfiable(f, But(als, p)) {
      SatisfiableMono(f, But(work, i), But(als, p));
    }
    assert work[k] in But(als, p);
    assert Clash(f, als, p);
  }

  /** A variable without which the formula is satisfiable stays to the end, with all its candidates. Those are then
      different, and being opposite to each other they are all there is. */
  lemma NeededEnds(f: set<Clause>, als: seq<Lit>, fails: set<nat>, redundant: seq<bool>)
    requires Shrinking(f, FailedOf(als, fails), redundant, |FailedOf(als, fails)|)
    ensures PairsAreAll(f, als, Left(FailedOf(als, fails), redundant))
  {
    ShrinkingEnd(f, FailedOf(als, fails), redundant);
    forall p: nat, q: nat | NeededPair(f, als, p, q)
      ensures als[p] == Neg(als[q]) && Left(FailedOf(als, fails), redundant) == {als[p], als[q]}
    {
      NeededPairEnds(f, als, fails, redundant, p, q);
    }
  }

  lemma NeededPairEnds(f: set<Clause>, als: seq<Lit>, fails: set<nat>, redundant: seq<bool>, p: nat, q: nat)
    requires |redundant| == |FailedOf(als, fails)| && SameVars(FailedOf(als, fails), redundant)
    requires IsMus(f, Left(FailedOf(als, fails), redundant)) && NeededPair(f, als, p, q)
    requires var work := FailedOf(als, fails);
      forall j, k :: 0 <= j < k < |work| && !redundant[j] && !redundant[k] ==> work[j] != work[k]
    ensures als[p] == Neg(als[q]) && Left(FailedOf(als, fails), redundant) == {als[p], als[q]}
  {
    hide Satisfiable, FailedOf;
    var work := FailedOf(als, fails);
    var left := Left(work, redundant);
    assert left <= Elements(als);
    var l := NeededVariable(f, als, left, als[p].idx);
    var j :| 0 <= j < |work| && work[j] == l && !redundant[j];
    assert l in work;
    var i, k := BothKept(als, fails, p, q);
    assert work[i].idx == work[j].idx && work[k].idx == work[j].idx;
    assert work[i] != work[k];
    OppositesAreAll(f, left, work[i]);
  }

  lemma NeededVariable(f: set<Clause>, als: seq<Lit>, left: set<Lit>, v: nat) returns (l: Lit)
    requires !Satisfiable(f, left) && left <= Elements(als) && Satisfiable(f, set l | l in als && l.idx != v)
    ensures l in left && l.idx == v
  {
    var others := set l | l in als && l.idx != v;
    if left <= others {
      SatisfiableMono(f, left, others);
    }
    l :| l in left && l !in others;
  }

  lemma OppositesClash(f: set<Clause>, s: set<Lit>, x: Lit)
    requires x in s && Neg(x) in s
    ensures !Satisfiable(f, s)
  {
    forall m: Model
      ensures !SatLits(m, s)
    {
      assert Holds(m, x) != Holds(m, Neg(x));
    }
  }

  /** A minimal unsatisfiable subset with opposite literals holds nothing else. */
  lemma OppositesAreAll(f: set<Clause>, s: set<Lit>, x: Lit)
    requires IsMus(f, s) && x in s && Neg(x) in s
    ensures s == {x, Neg(x)}
  {
    forall l | l in s
      ensures l in {x, Neg(x)}
    {
      if l !in {x, Neg(x)} {
        OppositesClash(f, s - {l}, x);
      }
    }
  }

  /** The candidates that are left, in order. */
  function LeftOf(work: seq<Lit>, redundant: seq<bool>): (r: seq<Lit>)
    requires |redundant| == |work|
  {
    if work == [] then []
    else (if redundant[0] then [] else [work[0]]) + LeftOf(work[1..], redundant[1..])
  }

  lemma {:induction false} LeftOfElements(work: seq<Lit>, redundant: seq<bool>)
    requires |redundant| == |work|
    ensures Elements(LeftOf(work, redundant)) == Left(work, redundant)
  {
    if work != [] {
      LeftOfElements(work[1..], redundant[1..]);
      forall l
        ensures l in LeftOf(work, redundant) <==> l in Left(work, redundant)
      {
        if l in Left(work, redundant) {
          var j :| 0 <= j < |work| && work[j] == l && !redundant[j];
          if j > 0 {
            assert work[1..][j-1] == l && !redundant[1..][j-1];
          }
        }
        if l in Elements(LeftOf(work[1..], redundant[1..])) {
          var j :| 0 <= j < |work[1..]| && work[1..][j] == l && !redundant[1..][j];
          assert work[j+1] == l && !redundant[j+1];
        }
      }
    }
  }

  lemma MusStart(f: set<Clause>, work: seq<Lit>, n: nat)
    requires (forall l :: l in work ==> l.idx > 0) && !Satisfiable(f, Elements(work)) && n == |work|
    ensures Shrinking(f, work, seq(n, _ => false), 0) && Left(work, seq(n, _ => false)) <= Elements(work)
  {
    var redundant := seq(n, _ => false);
    forall l
      ensures l in Left(work, redundant) <==> l in work
    {
      if l in work {
        var j :| 0 <= j < |work| && work[j] == l;
        assert !redundant[j];
      }
    }
  }

  /** Tries to drop candidate i, and with it whatever else the search did not need. */
  method TryDrop(ps: Solver.Solver, work: seq<Lit>, redundant: seq<bool>, i: nat) returns (more: seq<bool>, end: Ending)
    requires ps.Live() && ps.added == [] && !ps.state.READY? && Shrinking(ps.formula, work, redundant, i) && i < |work|
    requires !redundant[i] && forall l :: l in work ==> 0 < l.idx <= ps.maxVar
    modifies ps
    ensures ps.Live() && ps.added == [] && !ps.state.READY? && ps.formula == old(ps.formula) && ps.maxVar >= old(ps.maxVar)
    ensures end.Done? ==> Shrinking(ps.formula, work, more, i + 1)
    ensures end.GaveUp? ==> ps.lpropagations <= ps.propagations
    ensures end.AssertionFails? ==> Clash(ps.formula, work, i)
  {
    hide *;
    more, end := redundant, Done;
    ShrinkingFacts(ps.formula, work, redundant, i);
    AssumeOthers(ps, work, redundant, i);
    var r := ps.Solve(-1);
    if r == Unknown {
      end := GaveUp;
      return;
    }
    if r == Sat {
      ModelWitness(ps.formula, Elements(ps.als), ModelOf(ps.a));
      ShrinkSkip(ps.formula, work, redundant, i);
      return;
    }
    var passed;
    ghost var failed;
    passed, failed := NotFailed(ps, work);
    PassingFacts(work, failed, passed);
    more, end := Compare(ps.formula, work, redundant, i, passed, failed);
  }

  lemma PassingFacts(work: seq<Lit>, failed: set<Lit>, passed: seq<bool>)
    requires Passing(work, failed, passed)
    ensures |passed| == |work|
  {
  }

  /** The candidates up to i are expected to have failed exactly if they are left; of the others, those that did not
      fail are dropped. */
  method Compare(ghost f: set<Clause>, work: seq<Lit>, redundant: seq<bool>, i: nat, passed: seq<bool>, ghost failed: set<Lit>)
      returns (more: seq<bool>, end: Ending)
    requires Shrinking(f, work, redundant, i) && i < |work| == |passed| == |redundant| && !redundant[i]
    requires failed <= LeftBut(work, redundant, i) && !Satisfiable(f, failed) && Passing(work, failed, passed)
    ensures end.Done? ==> Shrinking(f, work, more, i + 1)
    ensures !end.GaveUp? && (end.AssertionFails? ==> Clash(f, work, i))
  {
    hide *;
    more, end := redundant[i := true], Done;
    for j := 0 to |work|
      invariant |more| == |work|
      invariant forall k :: 0 <= k < j && k <= i ==> passed[k] == more[k]
      invariant forall k :: 0 <= k <= i ==> more[k] == (redundant[k] || k == i)
      invariant forall k :: i < k < |work| ==> more[k] == (redundant[k] || (k < j && passed[k]))
    {
      if j <= i {
        if more[j] != passed[j] {
          DropAsserted(f, work, redundant, i, failed, passed, j);
          end := AssertionFails;
          return;
        }
      } else if passed[j] {
        more := more[j := true];
      }
    }
    ShrinkDrop(f, work, redundant, i, failed, passed, more);
  }

  lemma ShrinkingFacts(f: set<Clause>, work: seq<Lit>, redundant: seq<bool>, i: nat)
    requires Shrinking(f, work, redundant, i)
    ensures |redundant| == |work| && Left(work, redundant) <= Elements(work)
  {
  }

  lemma ModelWitness(f: set<Clause>, s: set<Lit>, m: Model)
    requires SatFormula(m, f) && SatLits(m, s)
    ensures Satisfiable(f, s)
  {
  }

  /** Shrinks the failed assumptions to a minimal unsatisfiable subset, and solves under it once more. With assumptions
      over the same variable the comparison after a drop can fail. */
  method MusAssumptions(ps: Solver.Solver) returns (mass: seq<Lit>, end: Ending)
    requires ps.Live() && ps.added == [] && ps.state == Solver.AFTER(Unsat)
    modifies ps
    ensures ps.Live() && ps.added == [] && !ps.state.READY? && ps.formula == old(ps.formula)
    ensures end.Done? ==> IsMus(ps.formula, Elements(mass)) && Elements(mass) <= Elements(old(ps.als))
    ensures end.Done? ==> ps.state == Solver.AFTER(Unsat) && ps.als == mass && (ps.mtcls == 0 ==> ps.extracted)
    ensures end.Done? ==> PairsAreAll(ps.formula, old(ps.als), Elements(mass))
    ensures end.GaveUp? ==> ps.lpropagations <= ps.propagations
    ensures end.AssertionFails? ==> exists p :: Clash(ps.formula, old(ps.als), p)
  {
    hide *;
    ghost var als, f := ps.als, ps.formula;
    var work;
    ghost var fails;
    work, fails := InitialMass(ps);
    var redundant := seq(|work|, _ => false);
    mass, end := work, Done;
    MusStart(f, work, |work|);
    ps.LiveElim();
    var i := 0;
    while i < |work|
      invariant ps.Live() && ps.added == [] && !ps.state.READY? && ps.formula == f && i <= |work|
      invariant Shrinking(f, work, redundant, i) && |redundant| == |work|
      invariant forall l :: l in work ==> 0 < l.idx <= ps.maxVar
    {
      if redundant[i] {
        ShrinkSkip(f, work, redundant, i);
      } else {
        var more;
        more, end := TryDrop(ps, work, redundant, i);
        if end != Done {
          if end == AssertionFails {
            ClashFrom(f, als, fails, i);
          }
          return;
        }
        redundant := more;
        ShrinkingFacts(f, work, redundant, i + 1);
      }
      i := i + 1;
    }
    ShrinkingEnd(f, work, redundant);
    ShrinkingFacts(f, work, redundant, i);
    NeededEnds(f, als, fails, redundant);
    LeftOfElements(work, redundant);
    mass := LeftOf(work, redundant);
    end := Reinitialize(ps, mass);
  }

  method InitialMass(ps: Solver.Solver) returns (work: seq<Lit>, ghost fails: set<nat>)
    requires ps.Live() && ps.state == Solver.AFTER(Unsat)
    modifies ps`extracted, ps`fails
    ensures ps.Live() && !Satisfiable(ps.formula, Elements(work)) && Elements(work) <= Elements(ps.als)
    ensures work == FailedOf(ps.als, fails) && forall l :: l in work ==> 0 < l.idx <= ps.maxVar
  {
    hide *;
    ps.LiveElim();
    if ps.mtcls != 0 {
      ps.EmptyMeansUnsat();
    } else if !ps.extracted {
      ps.ExtractAllFailedAssumptions();
      ps.LiveElim();
    }
    work, fails := FailedOf(ps.als, ps.fails), ps.fails;
    FailedOfElements(ps);
  }

  lemma FailedOfElements(ps: Solver.Solver)
    ensures Elements(FailedOf(ps.als, ps.fails)) == ps.FailedLits()
  {
  }

  /** The search is repeated under what is left, so that the solver is in the unsatisfiable state again. */
  method Reinitialize(ps: Solver.Solver, mass: seq<Lit>) returns (end: Ending)
    requires ps.Live() && ps.added == [] && !ps.state.READY? && !Satisfiable(ps.formula, Elements(mass))
    requires forall l :: l in mass ==> l.idx > 0
    modifies ps
    ensures ps.Live() && ps.added == [] && !ps.state.READY? && ps.formula == old(ps.formula)
    ensures end.Done? ==> ps.state == Solver.AFTER(Unsat) && ps.als == mass && (ps.mtcls == 0 ==> ps.extracted)
    ensures !end.AssertionFails? && (end.GaveUp? ==> ps.lpropagations <= ps.propagations)
  {
    hide *;
    ps.PendingIs();
    AssumeAll(ps, mass);
    ps.PendingIs();
    assert [] + mass == mass;
    var r := ps.Solve(-1);
    end := if r == Unsat then Done else GaveUp;
    if r == Sat {
      ModelWitness(ps.formula, Elements(ps.als), ModelOf(ps.a));
    } else if end == Done && ps.mtcls == 0 {
      ps.ExtractAllFailedAssumptions();
    }
  }

  /** With a needed pair there is a result only if the pair are opposites and the formula allows both. In particular,
      there is none when a needed literal is assumed twice. */
  lemma PairEndsOnlyIf(f: set<Clause>, als: seq<Lit>, p: nat, q: nat, s: set<Lit>)
    requires NeededPair(f, als, p, q) && PairsAreAll(f, als, s) && IsMus(f, s)
    ensures als[p] == Neg(als[q]) && Satisfiable(f, {als[p]}) && Satisfiable(f, {als[q]})
  {
    hide Satisfiable;
    OppositesMus(f, als[q]);
    assert {als[q], Neg(als[q])} == s;
  }

  lemma OppositesMus(f: set<Clause>, x: Lit)
    ensures IsMus(f, {x, Neg(x)}) <==> Satisfiable(f, {x}) && Satisfiable(f, {Neg(x)})
  {
    hide Satisfiable;
    OppositesClash(f, {x, Neg(x)}, x);
    assert {x, Neg(x)} - {x} == {Neg(x)} && {x, Neg(x)} - {Neg(x)} == {x};
  }

  /** For two opposites and a satisfiable formula the same condition decides whether they clash. */
  lemma OppositesPassIff(f: set<Clause>, x: Lit)
    requires Satisfiable(f, {})
    ensures NeededPair(f, [x, Neg(x)], 0, 1)
    ensures (forall p :: !Clash(f, [x, Neg(x)], p)) <==> Satisfiable(f, {x}) && Satisfiable(f, {Neg(x)})
  {
    hide Satisfiable;
    var als := [x, Neg(x)];
    assert als[0] == x && als[1] == Neg(x);
    assert (set l | l in als && l.idx != x.idx) == {};
    assert But(als, 0) == {Neg(x)};
    assert But(als, 1) == {x};
    assert Clash(f, als, 0) <==> !Satisfiable(f, {Neg(x)}) by {
      assert als[1].idx == als[0].idx;
    }
    assert Clash(f, als, 1) <==> !Satisfiable(f, {x}) by {
      assert als[1].idx == als[0].idx;
    }
  }

  /** Assumptions over distinct variables never clash. */
  lemma DistinctNeverClash(f: set<Clause>, als: seq<Lit>, p: nat)
    requires DistinctVars(als)
    ensures !Clash(f, als, p)
  {
  }

  predicate DistinctVars(s: seq<Lit>) {
    forall i, j :: 0 <= i < j < |s| ==> s[i].idx != s[j].idx
  }
}
