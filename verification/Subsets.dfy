/** Subsets of assumptions: maximal satisfiable, minimal correcting, minimal unsatisfiable. */
module Subsets {
  import opened Cnf
  import opened Sequences
  import opened Wrappers
  import opened Trail
  import opened Undoing
  import opened Verdict
  import Solver

  /** s is satisfiable, and no other element of the pool can be added. */
  ghost predicate IsMss(formula: set<Clause>, pool: set<Lit>, s: set<Lit>) {
    && s <= pool && Satisfiable(formula, s)
    && forall l :: l in pool && l !in s ==> !Satisfiable(formula, s + {l})
  }

  /** s is unsatisfiable, and no element can be dropped. */
  ghost predicate IsMus(formula: set<Clause>, s: set<Lit>) {
    && !Satisfiable(formula, s)
    && forall l :: l in s ==> Satisfiable(formula, s - {l})
  }

  lemma WeakerFormula(f: set<Clause>, g: set<Clause>, s: set<Lit>)
    requires f <= g && Satisfiable(g, s)
    ensures Satisfiable(f, s)
  {
    var m: Model :| SatFormula(m, g) && SatLits(m, s);
    assert SatFormula(m, f);
  }

  /** A model of f and s in which l holds satisfies a clause with l, and s + {l}. */
  lemma BlockedBy(f: set<Clause>, s: set<Lit>, c: Clause, l: Lit, m: Model)
    requires SatFormula(m, f) && SatLits(m, s) && l in c && Holds(m, l)
    ensures Satisfiable(f + {c}, s) && Satisfiable(f + {c}, s + {l})
  {
    assert SatClause(m, c);
    assert SatFormula(m, f + {c}) && SatLits(m, s + {l});
  }

  /** The clause that blocks one maximal satisfiable subset removes exactly that one. */
  lemma BlockingIsExact(f: set<Clause>, pool: set<Lit>, found: set<Lit>, s: set<Lit>)
    requires IsMss(f, pool, found)
    ensures IsMss(f + {pool - found}, pool, s) <==> IsMss(f, pool, s) && s != found
  {
    if IsMss(f, pool, s) && s != found {
      BlockingKeepsOthers(f, pool, found, s);
    }
    if IsMss(f + {pool - found}, pool, s) {
      BlockingAddsNone(f, pool, found, s);
    }
  }

  /** Nothing satisfiable lies strictly above a maximal satisfiable subset. */
  lemma NothingAbove(f: set<Clause>, pool: set<Lit>, s: set<Lit>, t: set<Lit>)
    requires IsMss(f, pool, s) && s <= t <= pool && Satisfiable(f, t)
    ensures s == t
  {
    forall l | l in t
      ensures l in s
    {
      if l !in s {
        SatisfiableMono(f, s + {l}, t);
      }
    }
  }

  lemma BlockingKeepsOthers(f: set<Clause>, pool: set<Lit>, found: set<Lit>, s: set<Lit>)
    requires IsMss(f, pool, found) && IsMss(f, pool, s) && s != found
    ensures IsMss(f + {pool - found}, pool, s)
  {
    var c := pool - found;
    if s <= found {
      NothingAbove(f, pool, s, found);
    }
    var l :| l in s && l !in found;
    var m: Model :| SatFormula(m, f) && SatLits(m, s);
    BlockedBy(f, s, c, l, m);
    forall k | k in pool && k !in s
      ensures !Satisfiable(f + {c}, s + {k})
    {
      if Satisfiable(f + {c}, s + {k}) {
        WeakerFormula(f, f + {c}, s + {k});
      }
    }
  }

  lemma BlockingAddsNone(f: set<Clause>, pool: set<Lit>, found: set<Lit>, s: set<Lit>)
    requires IsMss(f, pool, found) && IsMss(f + {pool - found}, pool, s)
    ensures IsMss(f, pool, s) && s != found
  {
    var c := pool - found;
    WeakerFormula(f, f + {c}, s);
    var m: Model :| SatFormula(m, f + {c}) && SatLits(m, s);
    assert SatClause(m, c);
    var l :| l in c && Holds(m, l);
    BlockedBy(f, s, c, l, m);
    assert l in s;
    forall k | k in pool && k !in s
      ensures !Satisfiable(f, s + {k})
    {
      if Satisfiable(f, s + {k}) {
        var m': Model :| SatFormula(m', f) && SatLits(m', s + {k});
        assert Holds(m', l);
        BlockedBy(f, s + {k}, c, l, m');
      }
    }
  }

  /** Why Mss wants an answered search before it. With {not y, not z} as the only clause and x, y and z still pending,
      the question whether x can be taken over comes out as no, but x is in every maximal satisfiable subset. */
  lemma PendingAssumptionsMislead(x: Lit, y: Lit, z: Lit)
    requires x.idx != y.idx && x.idx != z.idx && y.idx != z.idx
    ensures var f, pool := {{Neg(y), Neg(z)}}, {x, y, z};
      !Satisfiable(f, pool + {x}) && forall s :: IsMss(f, pool, s) ==> x in s
  {
    var f, pool := {{Neg(y), Neg(z)}}, {x, y, z};
    assert {Neg(y), Neg(z)} in f;
    forall s | IsMss(f, pool, s)
      ensures x in s
    {
      var m: Model :| SatFormula(m, f) && SatLits(m, s);
      var n: Model := (v: nat) => if v == x.idx then !x.neg else m(v);
      assert SatClause(n, {Neg(y), Neg(z)}) by {
        var l :| l in {Neg(y), Neg(z)} && Holds(m, l);
        assert Holds(n, l);
      }
      assert SatFormula(n, f) && SatLits(n, s + {x});
    }
  }

  /** As long as the formula is satisfiable there is a maximal satisfiable subset. */
  lemma {:induction false} SomeMss(f: set<Clause>, pool: set<Lit>, s: set<Lit>) returns (r: set<Lit>)
    requires s <= pool && Satisfiable(f, s)
    ensures s <= r && IsMss(f, pool, r)
    decreases pool - s
  {
    if l :| l in pool && l !in s && Satisfiable(f, s + {l}) {
      r := SomeMss(f, pool, s + {l});
    } else {
      r := s;
    }
  }

  /** Complements of maximal satisfiable subsets: dropping them makes the rest satisfiable, dropping less does not. */
  ghost predicate IsMcs(f: set<Clause>, pool: set<Lit>, c: set<Lit>) {
    && c <= pool && Satisfiable(f, pool - c)
    && forall d :: d < c ==> !Satisfiable(f, pool - d)
  }

  lemma ComplementIsMcs(f: set<Clause>, pool: set<Lit>, s: set<Lit>)
    requires s <= pool
    ensures IsMss(f, pool, s) <==> IsMcs(f, pool, pool - s)
  {
    var c := pool - s;
    assert pool - c == s;
    if IsMss(f, pool, s) {
      forall d | d < c
        ensures !Satisfiable(f, pool - d)
      {
        var l :| l in c && l !in d;
        if Satisfiable(f, pool - d) {
          SatisfiableMono(f, s + {l}, pool - d);
        }
      }
    }
    if IsMcs(f, pool, c) {
      forall l | l in pool && l !in s
        ensures !Satisfiable(f, s + {l})
      {
        assert c - {l} < c && pool - (c - {l}) == s + {l};
      }
    }
  }

  /** Assumes the literals in order. */
  method AssumeAll(ps: Solver.Solver, ls: seq<Lit>)
    requires ps.Live() && ps.added == [] && forall l :: l in ls ==> l.idx > 0
    modifies ps
    ensures ps.Live() && ps.added == [] && ps.formula == old(ps.formula) && ps.mtcls == old(ps.mtcls)
    ensures ps.Pending() == old(ps.Pending()) + ls && ps.lpropagations == old(ps.lpropagations)
    ensures ls != [] ==> ps.state == Solver.READY
    ensures old(ps.a).Indexed() && ps.a.Indexed() && ZeroKept(old(ps.a), ps.a)
  {
    hide *;
    ps.LiveIndexed();
    ZeroExtend(ps.a, ps.a);
    ps.PendingIs();
    for i := 0 to |ls|
      invariant ps.Live() && ps.added == [] && ps.formula == old(ps.formula) && ps.mtcls == old(ps.mtcls)
      invariant ps.Pending() == old(ps.Pending()) + ls[..i] && ps.lpropagations == old(ps.lpropagations)
      invariant i > 0 ==> ps.state == Solver.READY
      invariant ps.a.Indexed() && old(ps.a).Indexed() && ZeroKept(old(ps.a), ps.a)
    {
      ghost var a1 := ps.a;
      ps.Assume(ls[i]);
      ps.PendingIs();
      ZeroTrans(old(ps.a), a1, ps.a);
      assert ls[..i+1] == ls[..i] + [ls[i]];
    }
    assert ls[..|ls|] == ls;
  }

  method SwapEntries(a: array<Lit>, i: nat, j: nat)
    requires i < a.Length && j < a.Length
    modifies a
    ensures a[..] == old(a[..])[i := old(a[j])][j := old(a[i])]
    ensures multiset(a[..]) == multiset(old(a[..]))
  {
    a[i], a[j] := a[j], a[i];
  }

  lemma SwapKeepsElements(s: seq<Lit>, i: nat, j: nat)
    requires i < |s| && j < |s|
    ensures multiset(s[i := s[j]][j := s[i]]) == multiset(s)
    ensures Elements(s[i := s[j]][j := s[i]]) == Elements(s)
  {
    var t := s[i := s[j]][j := s[i]];
    forall x
      ensures x in s <==> x in t
    {
      assert x in s <==> x in multiset(s);
      assert x in t <==> x in multiset(t);
    }
  }

  /** The candidates of s up to position i are taken over: res0, then those from i0 + 1 on, all true in the model. */
  ghost predicate Absorbing(m: Model, s0: seq<Lit>, s: seq<Lit>, i0: nat, i: nat, j: nat, res0: seq<Lit>, res: seq<Lit>) {
    && i0 <= i < j <= |s| == |s0| && multiset(s) == multiset(s0) && s[..i0+1] == s0[..i0+1]
    && res == res0 + s[i0+1..i+1]
    && (forall p :: i0 < p <= i ==> Holds(m, s[p]))
    && (forall l :: l in s ==> l.idx > 0)
  }

  lemma AbsorbStep(m: Model, s0: seq<Lit>, s: seq<Lit>, i0: nat, i: nat, j: nat, res0: seq<Lit>, res: seq<Lit>)
    requires Absorbing(m, s0, s, i0, i, j, res0, res) && j < |s|
    ensures Absorbing(m, s0, s, i0, i, j + 1, res0, res)
    ensures Holds(m, s[j]) ==> Absorbing(m, s0, s[i+1 := s[j]][j := s[i+1]], i0, i + 1, j + 1, res0, res + [s[j]])
  {
    var t := s[i+1 := s[j]][j := s[i+1]];
    SwapKeepsElements(s, i + 1, j);
    assert t[..i0+1] == s[..i0+1];
    assert t[i0+1..i+2] == s[i0+1..i+1] + [s[j]];
    forall l | l in t
      ensures l.idx > 0
    {
      assert l in Elements(t);
    }
  }

  /** After a model was found: takes over all later candidates that hold in it, moving them to the front. */
  method Absorb(ps: Solver.Solver, a: array<Lit>, i0: nat, res0: seq<Lit>) returns (i: nat, res: seq<Lit>)
    requires ps.Live() && ps.state == Solver.AFTER(Sat) && i0 < a.Length
    requires forall l :: l in a[..] ==> l.idx > 0
    modifies a
    ensures Absorbing(ModelOf(ps.a), old(a[..]), a[..], i0, i, a.Length, res0, res)
  {
    hide *;
    i, res := i0, res0;
    var j := i0 + 1;
    AbsorbStart(ModelOf(ps.a), a[..], i0, res0);
    while j < a.Length
      invariant Absorbing(ModelOf(ps.a), old(a[..]), a[..], i0, i, j, res0, res) && i0 <= i < j <= a.Length
      invariant forall l :: l in a[..] ==> l.idx > 0
    {
      assert a[j] in a[..];
      var v := ps.Deref(a[j]);
      AbsorbStep(ModelOf(ps.a), old(a[..]), a[..], i0, i, j, res0, res);
      if v > 0 {
        res := res + [a[j]];
        i := i + 1;
        ghost var s := a[..];
        if i != j {
          SwapEntries(a, i, j);
        }
        assert a[..] == s[i := s[j]][j := s[i]];
        AbsorbingFacts(ModelOf(ps.a), old(a[..]), a[..], i0, i, j + 1, res0, res);
      }
      j := j + 1;
    }
  }

  lemma AbsorbStart(m: Model, s: seq<Lit>, i0: nat, res0: seq<Lit>)
    requires i0 < |s| && forall l :: l in s ==> l.idx > 0
    ensures Absorbing(m, s, s, i0, i0, i0 + 1, res0, res0)
  {
  }

  lemma AbsorbingFacts(m: Model, s0: seq<Lit>, s: seq<Lit>, i0: nat, i: nat, j: nat, res0: seq<Lit>, res: seq<Lit>)
    requires Absorbing(m, s0, s, i0, i, j, res0, res)
    ensures forall l :: l in s ==> l.idx > 0
  {
  }

  /** The first i candidates are decided: taken over into res, or not satisfiable together with it. */
  ghost predicate Growing(f: set<Clause>, s0: seq<Lit>, s: seq<Lit>, i: nat, res: seq<Lit>) {
    && i <= |s| == |s0| && multiset(s) == multiset(s0) && (forall l :: l in s ==> l.idx > 0)
    && Elements(res) <= Elements(s[..i])
    && (res != [] ==> Satisfiable(f, Elements(res)))
    && (forall p :: 0 <= p < i ==> s[p] in res || !Satisfiable(f, Elements(res) + {s[p]}))
  }

  lemma GrowStart(f: set<Clause>, s: seq<Lit>)
    requires forall l :: l in s ==> l.idx > 0
    ensures Growing(f, s, s, 0, [])
  {
  }

  lemma GrowingFacts(f: set<Clause>, s0: seq<Lit>, s: seq<Lit>, i: nat, res: seq<Lit>)
    requires Growing(f, s0, s, i, res)
    ensures i <= |s| && (forall l :: l in s ==> l.idx > 0) && (forall l :: l in res ==> l.idx > 0)
  {
    forall l | l in res
      ensures l.idx > 0
    {
      assert l in Elements(res) && l in s[..i];
    }
  }

  lemma AppendElements(s: seq<Lit>, l: Lit)
    ensures Elements(s + [l]) == Elements(s) + {l}
  {
  }

  lemma GrowUnsat(f: set<Clause>, s0: seq<Lit>, s: seq<Lit>, i: nat, res: seq<Lit>)
    requires Growing(f, s0, s, i, res) && i < |s| && !Satisfiable(f, Elements(res + [s[i]]))
    ensures Growing(f, s0, s, i + 1, res)
  {
    AppendElements(res, s[i]);
    assert s[..i+1] == s[..i] + [s[i]];
  }

  lemma GrowSat(f: set<Clause>, s0: seq<Lit>, s: seq<Lit>, i: nat, res: seq<Lit>, m: Model, s': seq<Lit>, i': nat, res': seq<Lit>)
    requires Growing(f, s0, s, i, res) && i < |s| && SatFormula(m, f) && SatLits(m, Elements(res + [s[i]]))
    requires Absorbing(m, s, s', i, i', |s|, res + [s[i]], res')
    ensures Growing(f, s0, s', i' + 1, res')
  {
    AppendElements(res, s[i]);
    var mid := s'[i+1..i'+1];
    assert s'[..i'+1] == s'[..i+1] + mid && s'[..i+1] == s[..i] + [s[i]];
    forall l | l in res'
      ensures Holds(m, l) && l in s'[..i'+1]
    {
      if l in res {
        assert l in Elements(res) && l in s[..i];
      } else if l in mid {
        var p :| 0 <= p < |mid| && mid[p] == l;
        assert s'[i + 1 + p] == l;
      }
    }
    assert SatLits(m, Elements(res'));
    forall p | 0 <= p < i' + 1
      ensures s'[p] in res' || !Satisfiable(f, Elements(res') + {s'[p]})
    {
      if p < i {
        assert s'[p] == s'[..i+1][p] == s[p];
        if s[p] !in res && Satisfiable(f, Elements(res') + {s[p]}) {
          SatisfiableMono(f, Elements(res) + {s[p]}, Elements(res') + {s[p]});
        }
      } else if p == i {
        assert s'[p] == s'[..i+1][p];
      } else {
        assert s'[p] == mid[p - i - 1];
      }
    }
  }

  lemma GrownIsMss(f: set<Clause>, s0: seq<Lit>, s: seq<Lit>, res: seq<Lit>)
    requires Growing(f, s0, s, |s|, res)
    ensures Elements(res) <= Elements(s) == Elements(s0)
    ensures if Satisfiable(f, {}) then IsMss(f, Elements(s0), Elements(res)) else res == []
  {
    assert s[..|s|] == s;
    forall l
      ensures l in s <==> l in s0
    {
      assert l in s <==> l in multiset(s);
      assert l in s0 <==> l in multiset(s0);
    }
    forall l | l in s && l !in res
      ensures !Satisfiable(f, Elements(res) + {l})
    {
      var p :| 0 <= p < |s| && s[p] == l;
    }
    if res == [] {
      assert Elements(res) == {};
    } else {
      SatisfiableMono(f, {}, Elements(res));
    }
  }

  /** The first i candidates are false for good. */
  ghost predicate Dead(a: Assignment, s: seq<Lit>, i: nat)
    requires a.Indexed() && i <= |s|
  {
    forall p :: 0 <= p < i ==> a.False(s[p]) && a.Level(s[p].idx) == 0
  }

  lemma DeadKept(a: Assignment, b: Assignment, s: seq<Lit>, i: nat)
    requires a.Indexed() && b.Indexed() && i <= |s| && Dead(a, s, i) && ZeroKept(a, b)
    ensures Dead(b, s, i)
  {
    forall p | 0 <= p < i
      ensures b.False(s[p]) && b.Level(s[p].idx) == 0
    {
      assert a.True(Neg(s[p]));
    }
  }

  /** All candidates are dead, and propagation has not run into a clause over them: there is none. */
  lemma DeadEnd(f: set<Clause>, a: Assignment, s: seq<Lit>, c: Clause)
    requires a.Indexed() && Dead(a, s, |s|) && c in f && c <= Elements(s)
    ensures ZeroFalse(a, c)
  {
    forall l | l in c
      ensures a.False(l) && a.Level(l.idx) == 0
    {
      assert l in Elements(s);
      var p :| 0 <= p < |s| && s[p] == l;
    }
  }

  /** While nothing is taken over: all candidates so far are dead, and no clause is. */
  ghost predicate Barren(a: Assignment, f: set<Clause>, s: seq<Lit>, i: nat)
    requires a.Indexed()
  {
    i <= |s| && Dead(a, s, i) && (i > 0 ==> forall c :: c in f ==> !ZeroFalse(a, c))
  }

  lemma BarrenStep(a: Assignment, b: Assignment, f: set<Clause>, s: seq<Lit>, i: nat)
    requires a.Indexed() && b.Indexed() && Barren(a, f, s, i) && ZeroKept(a, b) && i < |s|
    requires b.False(s[i]) && b.Level(s[i].idx) == 0 && forall c :: c in f ==> !ZeroFalse(b, c)
    ensures Barren(b, f, s, i + 1)
  {
    DeadKept(a, b, s, i);
  }

  lemma BarrenEnd(a: Assignment, f: set<Clause>, s: seq<Lit>, s0: seq<Lit>)
    requires a.Indexed() && Barren(a, f, s, |s|) && |s| > 0 && Elements(s) == Elements(s0)
    ensures forall c :: c in f ==> !(c <= Elements(s0))
  {
    forall c | c in f
      ensures !(c <= Elements(s0))
    {
      if c <= Elements(s) {
        DeadEnd(f, a, s, c);
      }
    }
  }

  lemma BarrenStart(a: Assignment, f: set<Clause>, s: seq<Lit>)
    requires a.Indexed()
    ensures Barren(a, f, s, 0)
  {
  }

  lemma AbsorbedFacts(m: Model, s0: seq<Lit>, s: seq<Lit>, i0: nat, i: nat, res0: seq<Lit>, res: seq<Lit>)
    requires Absorbing(m, s0, s, i0, i, |s|, res0, res) && res0 != []
    ensures i0 <= i < |s| && res != [] && multiset(s) == multiset(s0)
  {
  }

  /** One more candidate is tried together with what is taken over already. */
  method TryCandidate(ps: Solver.Solver, a: array<Lit>, i: nat, res: seq<Lit>) returns (r: Answer)
    requires ps.Live() && ps.added == [] && !ps.state.READY? && i < a.Length
    requires (forall l :: l in res ==> l.idx > 0) && a[i].idx > 0
    modifies ps
    ensures ps.Live() && ps.added == [] && ps.state == Solver.AFTER(r) && ps.formula == old(ps.formula) && ps.lpropagations == old(ps.lpropagations)
    ensures r == Unsat ==> !Satisfiable(ps.formula, Elements(res + [a[i]]))
    ensures r == Sat ==> SatFormula(ModelOf(ps.a), ps.formula) && SatLits(ModelOf(ps.a), Elements(res + [a[i]]))
    ensures r == Unknown ==> ps.lpropagations <= ps.propagations
    ensures old(ps.mtcls) != 0 ==> ps.mtcls != 0
    ensures old(ps.a).Indexed() && ps.a.Indexed() && ZeroKept(old(ps.a), ps.a)
    ensures ps.mtcls == 0 ==> forall c :: c in ps.formula ==> !ZeroFalse(ps.a, c)
    ensures res == [] && r == Unsat && ps.mtcls == 0 ==> ps.a.False(a[i]) && ps.a.Level(a[i].idx) == 0
  {
    hide *;
    ps.PendingIs();
    AssumeAll(ps, res);
    ghost var a1 := ps.a;
    ps.Assume(a[i]);
    ZeroTrans(old(ps.a), a1, ps.a);
    ps.PendingIs();
    assert [] + res == res;
    ghost var a2 := ps.a;
    r := ps.Solve(-1);
    ZeroTrans(old(ps.a), a2, ps.a);
  }

  /** Finds a maximal satisfiable subset of the candidates; gives up only when the propagation limit is hit. The array
      is permuted on the way. Between an earlier search and this one no assumptions may be pending. */
  method Mss(ps: Solver.Solver, a: array<Lit>) returns (res: seq<Lit>, ok: bool)
    requires ps.Live() && ps.added == [] && !ps.state.READY?
    requires forall l :: l in a[..] ==> l.idx > 0
    modifies ps, a
    ensures ps.Live() && ps.added == [] && !ps.state.READY? && ps.formula == old(ps.formula)
    ensures multiset(a[..]) == multiset(old(a[..])) && (a.Length == 0 ==> ps.als == old(ps.als))
    ensures ok ==> Elements(res) <= Elements(old(a[..]))
    ensures ok ==> if Satisfiable(ps.formula, {}) then IsMss(ps.formula, Elements(old(a[..])), Elements(res)) else res == []
    ensures !ok ==> ps.lpropagations <= ps.propagations
    ensures ok && !Satisfiable(ps.formula, {}) && ps.mtcls == 0 && a.Length > 0 ==>
      forall c :: c in ps.formula ==> !(c <= Elements(old(a[..])))
  {
    hide *;
    ghost var s0, f := a[..], ps.formula;
    res, ok := [], true;
    var i: nat := 0;
    GrowStart(f, s0);
    ps.LiveIndexed();
    BarrenStart(ps.a, f, s0);
    while i < a.Length
      invariant ps.Live() && ps.added == [] && !ps.state.READY? && ps.formula == f && i <= a.Length
      invariant a.Length == 0 ==> ps.als == old(ps.als)
      invariant Growing(f, s0, a[..], i, res) && multiset(a[..]) == multiset(s0)
      invariant ps.a.Indexed() && (ps.mtcls == 0 && res == [] ==> Barren(ps.a, f, a[..], i))
      decreases a.Length - i
    {
      GrowingFacts(f, s0, a[..], i, res);
      ghost var s, a0 := a[..], ps.a;
      assert a[i] in a[..];
      var r := TryCandidate(ps, a, i, res);
      if r == Unknown {
        ok := false;
        return;
      }
      if r == Sat {
        ghost var i0, res0 := i, res;
        i, res := Absorb(ps, a, i, res + [a[i]]);
        AbsorbedFacts(ModelOf(ps.a), s, a[..], i0, i, res0 + [s[i0]], res);
        GrowSat(f, s0, s, i0, res0, ModelOf(ps.a), a[..], i, res);
      } else {
        GrowUnsat(f, s0, s, i, res);
        if ps.mtcls == 0 && res == [] {
          BarrenStep(a0, ps.a, f, s, i);
        }
      }
      i := i + 1;
    }
    GrownIsMss(f, s0, a[..], res);
    if ps.mtcls == 0 && res == [] && a.Length > 0 {
      BarrenEnd(ps.a, f, a[..], s0);
    }
  }

  /** Some clause consists of candidates only, as every blocking clause does. */
  ghost predicate Blocked(f: set<Clause>, pool: set<Lit>) {
    exists c :: c in f && c <= pool
  }

  /** Adds the clause of all candidates that are not in s. */
  method Block(ps: Solver.Solver, a: seq<Lit>, s: seq<Lit>) returns (mcs: seq<Lit>)
    requires ps.Live() && ps.added == [] && !ps.state.READY? && forall l :: l in a ==> l.idx > 0
    modifies ps
    ensures ps.Live() && ps.added == [] && ps.state == Solver.READY && ps.als == []
    ensures Elements(mcs) == Elements(a) - Elements(s) && ps.formula == old(ps.formula) + {Elements(mcs)}
  {
    hide *;
    mcs := [];
    ps.PendingIs();
    for i := 0 to |a|
      invariant ps.Live() && ps.added == mcs && ps.formula == old(ps.formula) && ps.Pending() == []
      invariant Elements(mcs) == Elements(a[..i]) - Elements(s)
    {
      assert a[..i+1] == a[..i] + [a[i]] && a[i] in a;
      AppendElements(a[..i], a[i]);
      if a[i] !in s {
        AppendElements(mcs, a[i]);
        ps.AddLit(a[i]);
        ps.PendingIs();
        mcs := mcs + [a[i]];
      }
    }
    assert a[..|a|] == a;
    ps.CloseClause();
  }

  lemma SameMultiset(s: seq<Lit>, t: seq<Lit>)
    requires multiset(s) == multiset(t)
    ensures Elements(s) == Elements(t) && |s| == |t|
  {
    assert |s| == |multiset(s)|;
    forall l
      ensures l in s <==> l in t
    {
      assert l in s <==> l in multiset(s);
      assert l in t <==> l in multiset(t);
    }
  }

  method Reassume(ps: Solver.Solver, a: seq<Lit>)
    requires ps.Live() && ps.added == [] && forall l :: l in a ==> l.idx > 0
    requires ps.state == Solver.READY || a == [] ==> ps.als == []
    modifies ps
    ensures ps.Live() && ps.added == [] && ps.formula == old(ps.formula) && ps.als == a && ps.lpropagations == old(ps.lpropagations)
  {
    hide *;
    ps.PendingIs();
    if a != [] {
      AssumeAll(ps, a);
      ps.PendingIs();
      assert [] + a == a;
    }
  }

  /** Propagation never ends quietly next to an empty clause. */
  lemma NoEmptyClause(a: Assignment, f: set<Clause>)
    requires a.Indexed() && forall c :: c in f ==> !ZeroFalse(a, c)
    ensures {} !in f
  {
    assert ZeroFalse(a, {});
  }

  lemma NotBlocked(f: set<Clause>, als: seq<Lit>)
    requires {} !in f
    requires als != [] ==> forall c :: c in f ==> !(c <= Elements(als))
    ensures !Blocked(f, Elements(als))
  {
    if als == [] {
      assert forall c: Clause :: c <= Elements(als) ==> c == {};
    }
  }

  /** The next maximal satisfiable subset of the assumptions, and its complement; none when the formula has become
      unsatisfiable. The subset is blocked, and the assumptions are assumed again. */
  method NextMss(ps: Solver.Solver) returns (res: Option<seq<Lit>>, mcs: seq<Lit>, ok: bool)
    requires ps.Live() && ps.added == []
    modifies ps
    ensures ps.Live() && ps.added == [] && (!ok ==> ps.lpropagations <= ps.propagations)
    ensures ok ==> Elements(ps.als) == Elements(old(ps.als))
    ensures ok && res.None? ==> ps.formula == old(ps.formula) && !Satisfiable(ps.formula, {})
    ensures ok && res.Some? ==> Elements(res.value) <= Elements(ps.als) && Elements(mcs) == Elements(ps.als) - Elements(res.value)
    ensures ok && res.Some? ==> ps.formula == old(ps.formula) + {Elements(mcs)}
    ensures ok && res.Some? && !Satisfiable(old(ps.formula), {}) ==> res.value == []
    ensures ok && res.Some? && Satisfiable(old(ps.formula), {}) ==> IsMss(old(ps.formula), Elements(ps.als), Elements(res.value))
    ensures ok && !Satisfiable(old(ps.formula), {}) && Blocked(old(ps.formula), Elements(old(ps.als))) ==> res.None?
  {
    hide *;
    res, mcs, ok := None, [], true;
    ps.LiveElim();
    if ps.mtcls != 0 {
      ps.EmptyMeansUnsat();
      return;
    }
    var als := ps.als;
    var a := new Lit[|als|](i requires 0 <= i < |als| => als[i]);
    assert a[..] == als;
    ps.PendingIs();
    var r := ps.Solve(-1);
    if ps.mtcls == 0 {
      NoEmptyClause(ps.a, ps.formula);
      var s;
      s, ok := Mss(ps, a);
      if !ok {
        return;
      }
      SameMultiset(a[..], als);
      SameElementsAll(a[..], als);
      if ps.mtcls == 0 {
        if !Satisfiable(ps.formula, {}) { NotBlocked(ps.formula, als); }
        mcs := Block(ps, a[..], s);
        res := Some(s);
      }
    }
    if res.None? {
      ps.EmptyMeansUnsat();
    }
    Reassume(ps, a[..]);
  }

  lemma SameElementsAll(s: seq<Lit>, t: seq<Lit>)
    requires Elements(s) == Elements(t) && forall l :: l in t ==> l.idx > 0
    ensures forall l :: l in s ==> l.idx > 0
  {
    forall l | l in s
      ensures l.idx > 0
    {
      assert l in Elements(s);
    }
  }

  ghost function Parts(pool: set<Lit>): (r: set<set<Lit>>)
    ensures forall s :: s in r <==> s <= pool
  {
    set s: set<Lit> | s <= pool
  }

  /** Where the enumeration stands: the subsets found are maximal satisfiable, the formula now blocks exactly these, and
      their complements make up humus. */
  ghost predicate Enumerating(f0: set<Clause>, f: set<Clause>, pool: set<Lit>, found: set<set<Lit>>, humus: set<Lit>) {
    && f0 <= f && found <= Parts(pool) && (found != {} ==> Satisfiable(f, {}) || Blocked(f, pool))
    && (Satisfiable(f0, {}) ==> forall s :: IsMss(f, pool, s) <==> IsMss(f0, pool, s) && s !in found)
    && (Satisfiable(f0, {}) ==> forall s :: s in found ==> IsMss(f0, pool, s))
    && (forall l :: l in humus <==> IsLeftOut(pool, found, l))
  }

  ghost predicate IsLeftOut(pool: set<Lit>, found: set<set<Lit>>, l: Lit) {
    l in pool && exists s :: s in found && l !in s
  }

  lemma EnumerateStep(f0: set<Clause>, f: set<Clause>, pool: set<Lit>, found: set<set<Lit>>, humus: set<Lit>, s: set<Lit>)
    requires Enumerating(f0, f, pool, found, humus) && s <= pool
    requires Satisfiable(f, {}) ==> IsMss(f, pool, s)
    requires !Satisfiable(f, {}) ==> !Blocked(f, pool)
    requires Satisfiable(f0, {}) ==> Satisfiable(f, {}) || Blocked(f, pool)
    ensures s !in found && Enumerating(f0, f + {pool - s}, pool, found + {s}, humus + (pool - s))
    ensures Satisfiable(f0, {}) ==> Blocked(f + {pool - s}, pool)
  {
    var g := f + {pool - s};
    assert pool - s in g && pool - s <= pool;
    if Satisfiable(f0, {}) {
      assert IsMss(f, pool, s) && IsMss(f0, pool, s) && s !in found;
      forall t
        ensures IsMss(g, pool, t) <==> IsMss(f0, pool, t) && t !in found + {s}
      {
        BlockingIsExact(f, pool, s, t);
      }
    } else if Satisfiable(f, {}) {
      WeakerFormula(f0, f, {});
    }
    forall l
      ensures l in humus + (pool - s) <==> IsLeftOut(pool, found + {s}, l)
    {
      if l in pool - s {
        assert s in found + {s} && l !in s;
      }
      if IsLeftOut(pool, found, l) {
        var t :| t in found && l !in t;
        assert t in found + {s};
      }
    }
  }

  lemma EnumerateStart(f: set<Clause>, pool: set<Lit>)
    ensures Enumerating(f, f, pool, {}, {})
  {
  }

  lemma EnumerateFacts(f0: set<Clause>, f: set<Clause>, pool: set<Lit>, found: set<set<Lit>>, humus: set<Lit>)
    requires Enumerating(f0, f, pool, found, humus)
    ensures found <= Parts(pool)
  {
  }

  /** No more subsets: all were found. */
  lemma EnumerateEnd(f0: set<Clause>, f: set<Clause>, pool: set<Lit>, found: set<set<Lit>>, humus: set<Lit>)
    requires Enumerating(f0, f, pool, found, humus) && !Satisfiable(f, {})
    ensures Satisfiable(f0, {}) ==> forall s :: s in found <==> IsMss(f0, pool, s)
    ensures forall l :: l in humus <==> IsLeftOut(pool, found, l)
  {
    forall s
      ensures !IsMss(f, pool, s)
    {
      if IsMss(f, pool, s) {
        SatisfiableMono(f, {}, s);
      }
    }
  }

  /** The union of all minimal correcting subsets. The loop meets every maximal satisfiable subset exactly once. */
  method Humus(ps: Solver.Solver) returns (humus: set<Lit>, nmcs: nat, ghost found: set<set<Lit>>, ok: bool)
    requires ps.Live() && ps.added == []
    modifies ps
    ensures ps.Live() && ps.added == [] && (!ok ==> ps.lpropagations <= ps.propagations)
    ensures ok && Satisfiable(old(ps.formula), {}) ==> forall s :: s in found <==> IsMss(old(ps.formula), Elements(old(ps.als)), s)
    ensures ok ==> nmcs == |found| && forall l :: l in humus <==> IsLeftOut(Elements(old(ps.als)), found, l)
    ensures ok ==> !Satisfiable(ps.formula, {})
  {
    hide *;
    humus, nmcs, found, ok := {}, 0, {}, true;
    ghost var f0, pool := ps.formula, Elements(ps.als);
    var over := false;
    EnumerateStart(f0, pool);
    while !over
      invariant ps.Live() && ps.added == [] && ok && Elements(ps.als) == pool && nmcs == |found|
      invariant Enumerating(f0, ps.formula, pool, found, humus)
      invariant Satisfiable(f0, {}) ==> Satisfiable(ps.formula, {}) || Blocked(ps.formula, pool)
      invariant over ==> !Satisfiable(ps.formula, {})
      decreases !over, Parts(pool) - found
    {
      ghost var f := ps.formula;
      EnumerateFacts(f0, f, pool, found, humus);
      var res, mcs;
      res, mcs, ok := NextMss(ps);
      if !ok {
        return;
      }
      if res.None? {
        over := true;
      } else {
        ghost var s := Elements(res.value);
        EnumerateStep(f0, f, pool, found, humus, s);
        assert s in Parts(pool) - found;
        found := found + {s};
        humus := humus + Elements(mcs);
        nmcs := nmcs + 1;
      }
    }
    EnumerateEnd(f0, ps.formula, pool, found, humus);
  }
}
