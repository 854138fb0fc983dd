/** Propositional logic: literals, clauses, models, and what a set of indexed clauses implies. */
module Cnf {
  import opened Sequences

  /** A literal is a variable index and a sign, as in the solver's literal array. */
  datatype Lit = Lit(idx: nat, neg: bool)

  function Neg(l: Lit): Lit {
    Lit(l.idx, !l.neg)
  }

  type Clause = set<Lit>

  type Model = nat -> bool

  predicate Holds(m: Model, l: Lit) {
    m(l.idx) != l.neg
  }

  ghost predicate SatClause(m: Model, c: Clause) {
    exists l :: l in c && Holds(m, l)
  }

  ghost predicate SatFormula(m: Model, f: set<Clause>) {
    forall c :: c in f ==> SatClause(m, c)
  }

  ghost predicate SatLits(m: Model, s: set<Lit>) {
    forall l :: l in s ==> Holds(m, l)
  }

  /** Some model of the formula makes all the given literals true. */
  ghost predicate Satisfiable(f: set<Clause>, s: set<Lit>) {
    exists m: Model :: SatFormula(m, f) && SatLits(m, s)
  }

  /** The model satisfies every clause stored under one of the indices. */
  ghost predicate SatIds(m: Model, hist: map<nat, Clause>, ids: set<nat>) {
    forall i :: i in ids && i in hist ==> SatClause(m, hist[i])
  }

  /** Every model of the indexed clauses satisfies c. */
  ghost predicate Implies(hist: map<nat, Clause>, ids: set<nat>, c: Clause) {
    forall m: Model :: SatIds(m, hist, ids) ==> SatClause(m, c)
  }

  predicate Tautology(c: Clause) {
    exists l :: l in c && Neg(l) in c
  }

  lemma TautologyHolds(m: Model, c: Clause)
    requires Tautology(c)
    ensures SatClause(m, c)
  {
    var l :| l in c && Neg(l) in c;
    assert Holds(m, l) || Holds(m, Neg(l));
  }

  /** Fewer literals to make true is easier. */
  lemma SatisfiableMono(f: set<Clause>, s: set<Lit>, t: set<Lit>)
    requires s <= t && Satisfiable(f, t)
    ensures Satisfiable(f, s)
  {
    var m: Model :| SatFormula(m, f) && SatLits(m, t);
    assert SatLits(m, s);
  }

  /** A clause implied by some indexed clauses stays so when more clauses are stored. */
  lemma ImpliesExtends(hist: map<nat, Clause>, more: map<nat, Clause>, ids: set<nat>, c: Clause)
    requires Implies(hist, ids, c) && ids <= hist.Keys <= more.Keys
    requires forall i :: i in ids ==> more[i] == hist[i]
    ensures Implies(more, ids, c)
  {
    forall m: Model | SatIds(m, more, ids)
      ensures SatClause(m, c)
    {
      assert SatIds(m, hist, ids);
    }
  }

  lemma OneOrMore(s: seq<Lit>)
    requires NoDup(s)
    ensures |s| <= 1 || exists k, l :: k in s && l in s && k != l
  {
    if |s| > 1 {
      assert s[0] in s && s[1] in s && s[0] != s[1];
    }
  }

  lemma OneElement(s: seq<Lit>, l: Lit)
    requires NoDup(s) && forall k :: k in s <==> k == l
    ensures s == [l] && Elements(s) == {l}
  {
    assert l in s;
    forall i | 0 <= i < |s|
      ensures s[i] == l
    {
      assert s[i] in s;
    }
    OneOrMore(s);
  }

  lemma SwapKeeps(ls: seq<Lit>, r: seq<Lit>)
    requires |ls| >= 2 && NoDup(ls) && r == [ls[1], ls[0]] + ls[2..]
    ensures NoDup(r) && Elements(r) == Elements(ls) && |r| == |ls| && r[0] != r[1]
  {
    assert ls == [ls[0], ls[1]] + ls[2..];
  }

  lemma TwoLits(ls: seq<Lit>)
    requires |ls| >= 2 && NoDup(ls)
    ensures ls[0] != ls[1]
  {
  }

  lemma SameMap(m: map<nat, seq<Lit>>, c: nat)
    requires c in m
    ensures m[c := m[c]] == m
  {
  }

  lemma SameElement(s: seq<Lit>, r: seq<Lit>)
    requires |s| == |r| == 1 && Elements(s) == Elements(r)
    ensures r == [s[0]]
  {
    assert s[0] in Elements(s);
  }

  lemma NegIdx(l: Lit)
    ensures Neg(l).idx == l.idx
  {
  }

  lemma SameElements(s: seq<Lit>, r: seq<Lit>)
    requires Elements(s) == Elements(r)
    ensures forall l :: l in s <==> l in r
  {
    assert forall l :: l in Elements(s) <==> l in Elements(r);
  }

  lemma EmptyList()
    ensures NoDup<Lit>([]) && Elements<Lit>([]) == {}
  {
  }
}
