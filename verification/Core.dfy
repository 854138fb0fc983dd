/** The clausal core: which original clauses the empty clause was derived from. */
module Core {
  import opened Cnf
  import opened Sequences
  import opened Wrappers
  import opened Trail
  import opened Zhain
  import opened Store
  import opened Verdict
  import Solver

  /** A chain of antecedents leads from the root to the clause. */
  ghost predicate IsPath(zhains: Chains, root: nat, path: seq<nat>, id: nat) {
    && path != [] && path[0] == root && path[|path| - 1] == id
    && forall k :: 0 <= k < |path| - 1 ==> path[k+1] in Antecedents(zhains, path[k])
  }

  ghost predicate Reaches(zhains: Chains, root: nat, id: nat) {
    exists path :: IsPath(zhains, root, path, id)
  }

  lemma ReachesSelf(zhains: Chains, root: nat)
    ensures Reaches(zhains, root, root)
  {
    assert IsPath(zhains, root, [root], root);
  }

  lemma ReachesNext(zhains: Chains, root: nat, id: nat, x: nat)
    requires Reaches(zhains, root, id) && x in Antecedents(zhains, id)
    ensures Reaches(zhains, root, x)
  {
    var path :| IsPath(zhains, root, path, id);
    var longer := path + [x];
    forall k | 0 <= k < |longer| - 1
      ensures longer[k+1] in Antecedents(zhains, longer[k])
    {
      if k == |path| - 1 {
        assert longer[k] == id && longer[k+1] == x;
      } else {
        assert longer[k] == path[k] && longer[k+1] == path[k+1];
      }
    }
    assert IsPath(zhains, root, longer, x);
  }

  /** Where the traversal stands: what is flagged was reached, and leads only to what is flagged or on the stack. */
  ghost predicate Traversing(hist: map<nat, Clause>, zhains: Chains, root: nat, originals: set<nat>, learned: set<nat>, stack: seq<nat>) {
    && root in originals + learned + Elements(stack)
    && learned <= zhains.Keys
    && (forall id :: id in originals ==> id in hist && id !in zhains)
    && (forall id :: id in stack ==> id in hist)
    && (forall id :: id in originals + learned + Elements(stack) ==> Reaches(zhains, root, id))
    && (forall id :: id in learned ==> Antecedents(zhains, id) <= originals + learned + Elements(stack))
  }

  lemma TraverseStart(hist: map<nat, Clause>, zhains: Chains, root: nat)
    requires root in hist
    ensures Traversing(hist, zhains, root, {}, {}, [root])
  {
    ReachesSelf(zhains, root);
  }

  lemma PopElements(stack: seq<nat>)
    requires stack != []
    ensures Elements(stack) == Elements(stack[..|stack| - 1]) + {stack[|stack| - 1]}
  {
    SplitLast(stack);
  }

  /** The popped clause was flagged before. */
  lemma TraverseSkip(hist: map<nat, Clause>, zhains: Chains, root: nat, originals: set<nat>, learned: set<nat>, stack: seq<nat>)
    requires Traversing(hist, zhains, root, originals, learned, stack) && stack != []
    requires stack[|stack| - 1] in originals + learned
    ensures Traversing(hist, zhains, root, originals, learned, stack[..|stack| - 1])
  {
    PopElements(stack);
  }

  lemma TraverseOriginal(hist: map<nat, Clause>, zhains: Chains, root: nat, originals: set<nat>, learned: set<nat>, stack: seq<nat>)
    requires Traversing(hist, zhains, root, originals, learned, stack) && stack != []
    requires stack[|stack| - 1] !in zhains
    ensures Traversing(hist, zhains, root, originals + {stack[|stack| - 1]}, learned, stack[..|stack| - 1])
  {
    PopElements(stack);
    assert stack[|stack| - 1] in stack;
  }

  lemma TraverseLearned(hist: map<nat, Clause>, zhains: Chains, root: nat, originals: set<nat>, learned: set<nat>,
                        stack: seq<nat>, more: seq<nat>)
    requires Chained(hist, zhains) && Traversing(hist, zhains, root, originals, learned, stack) && stack != []
    requires stack[|stack| - 1] in zhains && Elements(more) == Antecedents(zhains, stack[|stack| - 1])
    ensures Traversing(hist, zhains, root, originals, learned + {stack[|stack| - 1]}, stack[..|stack| - 1] + more)
  {
    hide Antecedents;
    var id, rest := stack[|stack| - 1], stack[..|stack| - 1];
    PopElements(stack);
    assert Derived(hist, zhains, id);
    assert Elements(rest + more) == Elements(rest) + Elements(more);
    forall x | x in more
      ensures x in hist && Reaches(zhains, root, x)
    {
      assert x in Elements(more);
      ReachesNext(zhains, root, id, x);
    }
  }

  /** All flagged clauses follow from the flagged originals. */
  lemma {:induction false} FlaggedFollow(hist: map<nat, Clause>, zhains: Chains, root: nat, originals: set<nat>, learned: set<nat>, m: Model, id: nat)
    requires Chained(hist, zhains) && Traversing(hist, zhains, root, originals, learned, []) && SatIds(m, hist, originals)
    requires id in originals + learned
    ensures id in hist && SatClause(m, hist[id])
    decreases if id in learned then id + 1 else 0
  {
    if id in learned {
      assert Derived(hist, zhains, id);
      assert Elements<nat>([]) == {};
      forall x | x in Antecedents(zhains, id)
        ensures SatClause(m, hist[x])
      {
        FlaggedFollow(hist, zhains, root, originals, learned, m, x);
      }
      assert SatIds(m, hist, Antecedents(zhains, id));
    }
  }

  lemma TraverseEnd(hist: map<nat, Clause>, zhains: Chains, root: nat, originals: set<nat>, learned: set<nat>)
    requires Chained(hist, zhains) && Traversing(hist, zhains, root, originals, learned, [])
    ensures root in hist && Implies(hist, originals, hist[root])
    ensures forall id :: id in originals + learned <==> Reaches(zhains, root, id)
  {
    assert Elements<nat>([]) == {};
    forall id | Reaches(zhains, root, id)
      ensures id in originals + learned
    {
      var path :| IsPath(zhains, root, path, id);
      PathIsFlagged(hist, zhains, root, originals, learned, path, |path| - 1);
    }
    forall m: Model | SatIds(m, hist, originals)
      ensures SatClause(m, hist[root])
    {
      FlaggedFollow(hist, zhains, root, originals, learned, m, root);
    }
  }

  /** Nothing that is reached is left out: the flagged clauses lead to flagged ones only. */
  lemma {:induction false} PathIsFlagged(hist: map<nat, Clause>, zhains: Chains, root: nat, originals: set<nat>, learned: set<nat>,
                                         path: seq<nat>, k: nat)
    requires Traversing(hist, zhains, root, originals, learned, []) && k < |path| && IsPath(zhains, root, path, path[|path| - 1])
    ensures path[k] in originals + learned
  {
    assert Elements<nat>([]) == {};
    if k > 0 {
      PathIsFlagged(hist, zhains, root, originals, learned, path, k - 1);
      OnlyChainsLeadOn(zhains, path[k-1], path[k]);
    }
  }

  lemma OnlyChainsLeadOn(zhains: Chains, id: nat, x: nat)
    requires x in Antecedents(zhains, id)
    ensures id in zhains
  {
  }

  /** The antecedents of a stored chain, read byte by byte. */
  method ReadChain(znt: seq<nat>, ghost hist: map<nat, Clause>) returns (out: seq<nat>)
    requires Encoded(znt) && Elements(Decode(znt)) <= hist.Keys && forall id :: id in hist ==> id < 0x8000_0000
    ensures Elements(out) == Elements(Decode(znt))
  {
    ghost var xs :| Increasing(0, xs) && znt == Encode(xs);
    RoundTrip(xs, []);
    assert znt + [] == znt;
    forall i | 0 <= i < |xs|
      ensures xs[i] < 0x8000_0000
    {
      assert xs[i] in Elements(Decode(znt));
    }
    out := DecodeWords(znt, xs);
  }

  /** Flags every clause the root was derived from. */
  method Traverse(zhains: Chains, ghost hist: map<nat, Clause>, root: nat) returns (originals: set<nat>, learned: set<nat>, ocore: nat)
    requires Chained(hist, zhains) && root in hist && forall id :: id in hist ==> id < 0x8000_0000
    ensures Implies(hist, originals, hist[root]) && ocore == |originals|
    ensures forall id :: id in originals <==> id in hist && id % 2 == 0 && Reaches(zhains, root, id)
    ensures forall id :: id in learned <==> id in hist && id % 2 == 1 && Reaches(zhains, root, id)
  {
    hide Traversing, Reaches, Antecedents, Encoded, Implies, SatClause;
    originals, learned, ocore := {}, {}, 0;
    var stack := [root];
    TraverseStart(hist, zhains, root);
    while stack != []
      invariant Traversing(hist, zhains, root, originals, learned, stack) && ocore == |originals|
      decreases zhains.Keys - learned, |stack|
    {
      var idx := stack[|stack| - 1];
      if idx in zhains {
        if idx in learned {
          TraverseSkip(hist, zhains, root, originals, learned, stack);
          stack := stack[..|stack| - 1];
        } else {
          ChainFacts(hist, zhains, idx);
          var more := ReadChain(zhains[idx], hist);
          TraverseLearned(hist, zhains, root, originals, learned, stack, more);
          assert idx in zhains.Keys - learned;
          stack := stack[..|stack| - 1] + more;
          learned := learned + {idx};
        }
      } else if idx in originals {
        TraverseSkip(hist, zhains, root, originals, learned, stack);
        stack := stack[..|stack| - 1];
      } else {
        TraverseOriginal(hist, zhains, root, originals, learned, stack);
        stack := stack[..|stack| - 1];
        originals := originals + {idx};
        ocore := ocore + 1;
      }
    }
    TraverseEnd(hist, zhains, root, originals, learned);
    OriginalsFacts(hist, zhains, root, originals, learned);
  }

  lemma ChainFacts(hist: map<nat, Clause>, zhains: Chains, id: nat)
    requires Chained(hist, zhains) && id in zhains
    ensures Encoded(zhains[id]) && Elements(Decode(zhains[id])) == Antecedents(zhains, id) <= hist.Keys
  {
    assert Derived(hist, zhains, id);
  }

  lemma OriginalsFacts(hist: map<nat, Clause>, zhains: Chains, root: nat, originals: set<nat>, learned: set<nat>)
    requires Chained(hist, zhains) && Traversing(hist, zhains, root, originals, learned, [])
    ensures forall id :: id in originals ==> id in hist && id % 2 == 0
    ensures forall id :: id in learned ==> id in hist && id % 2 == 1
  {
    LearnedHaveChains(hist, zhains);
    forall id | id in learned
      ensures id in hist
    {
      assert Derived(hist, zhains, id);
    }
  }

  lemma LearnedHaveChains(hist: map<nat, Clause>, zhains: Chains)
    requires Chained(hist, zhains)
    ensures forall id :: id in hist ==> (id % 2 == 1 <==> id in zhains)
  {
    hide Derived;
    forall id | id in hist && id % 2 == 1
      ensures id in zhains
    {
      DerivedHasChain(hist, zhains, id);
    }
  }

  lemma DerivedHasChain(hist: map<nat, Clause>, zhains: Chains, id: nat)
    requires id in hist && Derived(hist, zhains, id)
    ensures id in zhains
  {
  }

  ghost function Picked(hist: map<nat, Clause>, ids: set<nat>): (r: set<Clause>)
    ensures forall c :: c in r <==> exists id :: id in ids && id in hist && hist[id] == c
  {
    set id | id in ids && id in hist :: hist[id]
  }

  lemma PickedModel(hist: map<nat, Clause>, ids: set<nat>, m: Model)
    requires SatFormula(m, Picked(hist, ids))
    ensures SatIds(m, hist, ids)
  {
    forall i | i in ids && i in hist
      ensures SatClause(m, hist[i])
    {
      assert hist[i] in Picked(hist, ids);
    }
  }

  lemma IdsFit(hist: map<nat, Clause>, oadded: nat, ladded: nat)
    requires Numbered(hist, oadded, ladded) && 2 * oadded < 0x8000_0000 && 2 * ladded <= 0x8000_0000
    ensures forall id :: id in hist ==> id < 0x8000_0000
  {
  }

  lemma PickedFromFormula(hist: map<nat, Clause>, formula: set<Clause>, ids: set<nat>)
    requires Originals(hist, formula) && forall id :: id in ids ==> id in hist && id % 2 == 0
    ensures Picked(hist, ids) <= formula
  {
  }

  /** No assumption is the opposite of another one. */
  predicate NoOpposites(als: seq<Lit>) {
    forall l :: l in als ==> Neg(l) !in als
  }

  /** What the answer was derived as: the empty clause, or the reason of the failed assumption. */
  ghost predicate IsRoot(ps: Solver.Solver, root: nat)
    reads ps
  {
    if ps.mtcls != 0 then root == ps.mtcls
    else ps.a.Indexed() && ps.failed.Some? && ps.failed.value.idx in ps.a.at && root == ps.a.Reason(ps.failed.value.idx)
  }

  lemma IsRootIntro(ps: Solver.Solver, root: nat)
    requires if ps.mtcls != 0 then root == ps.mtcls
             else ps.a.Indexed() && ps.failed.Some? && ps.failed.value.idx in ps.a.at && root == ps.a.Reason(ps.failed.value.idx)
    ensures IsRoot(ps, root)
  {
  }

  /** The original clauses the answer rests on, which are just those that antecedents lead to: by themselves unsatisfiable once the empty clause was derived, and
      otherwise unsatisfiable together with the assumptions. Opposite assumptions could fail each other without any
      clause to start from. */
  method ClausalCore(ps: Solver.Solver) returns (originals: set<nat>, ocore: nat)
    requires ps.Live() && ps.state == Solver.AFTER(Unsat)
    requires 2 * ps.oadded < 0x8000_0000 && 2 * ps.ladded <= 0x8000_0000
    requires ps.mtcls == 0 ==> NoOpposites(ps.als)
    ensures ocore == |originals| && Picked(ps.hist, originals) <= ps.formula
    ensures !Satisfiable(Picked(ps.hist, originals), if ps.mtcls != 0 then {} else Elements(ps.als))
    ensures exists root :: IsRoot(ps, root) && forall id :: id in originals <==> id in ps.hist && id % 2 == 0 && Reaches(ps.zhains, root, id)
  {
    hide *;
    ps.CoreFacts();
    StoredParts(ps);
    IdsFit(ps.hist, ps.oadded, ps.ladded);
    var root, learned;
    if ps.mtcls != 0 {
      root := ps.mtcls;
      originals, learned, ocore := Traverse(ps.zhains, ps.hist, root);
      CoreIsUnsat(ps.hist, originals);
    } else {
      ps.FailedReason();
      OppositeOut(ps.als, ps.failed.value);
      root := ps.a.Reason(ps.failed.value.idx);
      originals, learned, ocore := Traverse(ps.zhains, ps.hist, root);
      FailedCoreIsUnsat(ps.hist, originals, root, ps.als, ps.failed.value);
    }
    PickedFromFormula(ps.hist, ps.formula, originals);
    IsRootIntro(ps, root);
  }

  lemma OppositeOut(als: seq<Lit>, l: Lit)
    requires NoOpposites(als) && l in als
    ensures Neg(l) !in als
  {
  }

  ghost function Apart(als: seq<Lit>, l: Lit): set<Lit> {
    {l} + set k | k in als && k.idx != l.idx
  }

  /** If every assumption goes together with the formula and the assumptions over other variables, then the one that
      failed can only have failed against its opposite, and there is no reason that a core could start from. */
  lemma OppositesHaveNoReason(ps: Solver.Solver)
    requires ps.Live() && ps.state == Solver.AFTER(Unsat)
    requires forall l :: l in ps.als ==> Satisfiable(ps.formula, Apart(ps.als, l))
    ensures ps.als == [] || (ps.mtcls == 0 && ps.a.Indexed() && ps.failed.Some? && ps.failed.value.idx in ps.a.at
                             && ps.a.Reason(ps.failed.value.idx) == 0 && !NoOpposites(ps.als))
  {
    hide *;
    ps.CoreFacts();
    StoredParts(ps);
    if ps.als != [] {
      assert ps.als[0] in ps.als;
      if ps.mtcls != 0 {
        ps.EmptyMeansUnsat();
      }
      ps.FailedReason();
      if ps.a.Reason(ps.failed.value.idx) != 0 {
        ReasonRefutes(ps.hist, ps.zhains, ps.formula, ps.als, ps.failed.value, ps.a.Reason(ps.failed.value.idx));
      }
      OppositesIn(ps.als, ps.failed.value);
    }
  }

  lemma OppositesIn(als: seq<Lit>, l: Lit)
    requires l in als && Neg(l) in als
    ensures !NoOpposites(als)
  {
  }

  lemma ReasonRefutes(hist: map<nat, Clause>, zhains: Chains, formula: set<Clause>, als: seq<Lit>, failed: Lit, r: nat)
    requires Chained(hist, zhains) && Originals(hist, formula) && r in hist
    requires forall l :: l in hist[r] && l != Neg(failed) ==> Neg(l) in als && l.idx != failed.idx
    ensures !Satisfiable(formula, Apart(als, failed))
  {
    forall m: Model | SatFormula(m, formula)
      ensures !SatLits(m, Apart(als, failed))
    {
      StoredIsSound(hist, zhains, formula, m, r);
      var l :| l in hist[r] && Holds(m, l);
      if l == Neg(failed) {
        assert failed in Apart(als, failed) && !Holds(m, failed);
      } else {
        assert Neg(l) in Apart(als, failed) && !Holds(m, Neg(l));
      }
    }
  }

  /** The smallest such input: no clauses, and a literal assumed together with its opposite. */
  lemma OppositesAlone(ps: Solver.Solver, x: Lit)
    requires ps.Live() && ps.state == Solver.AFTER(Unsat) && ps.formula == {} && ps.als == [x, Neg(x)]
    ensures ps.mtcls == 0 && ps.a.Indexed() && ps.failed.Some? && ps.failed.value.idx in ps.a.at
    ensures ps.a.Reason(ps.failed.value.idx) == 0
  {
    hide *;
    forall l | l in ps.als
      ensures Satisfiable(ps.formula, Apart(ps.als, l))
    {
      OneLiteral(x, l);
    }
    OppositesHaveNoReason(ps);
  }

  lemma OneLiteral(x: Lit, l: Lit)
    requires l in [x, Neg(x)]
    ensures Satisfiable({}, Apart([x, Neg(x)], l))
  {
    var m: Model := v => !l.neg;
    assert SatFormula(m, {}) && SatLits(m, Apart([x, Neg(x)], l));
  }

  lemma StoredParts(ps: Solver.Solver)
    requires Stored(ps.hist, ps.lits, ps.zhains, ps.oadded, ps.ladded, ps.formula)
    ensures Chained(ps.hist, ps.zhains) && Numbered(ps.hist, ps.oadded, ps.ladded) && Originals(ps.hist, ps.formula)
  {
  }

  lemma CoreIsUnsat(hist: map<nat, Clause>, originals: set<nat>)
    requires Implies(hist, originals, {})
    ensures !Satisfiable(Picked(hist, originals), {})
  {
    forall m: Model
      ensures !SatFormula(m, Picked(hist, originals))
    {
      if SatFormula(m, Picked(hist, originals)) {
        PickedModel(hist, originals, m);
      }
    }
  }

  lemma FailedCoreIsUnsat(hist: map<nat, Clause>, originals: set<nat>, root: nat, als: seq<Lit>, failed: Lit)
    requires root in hist && Implies(hist, originals, hist[root]) && failed in als
    requires forall l :: l in hist[root] && l != Neg(failed) ==> Neg(l) in als
    ensures !Satisfiable(Picked(hist, originals), Elements(als))
  {
    forall m: Model | SatFormula(m, Picked(hist, originals))
      ensures !SatLits(m, Elements(als))
    {
      PickedModel(hist, originals, m);
      var l :| l in hist[root] && Holds(m, l);
      if l == Neg(failed) {
        assert failed in Elements(als) && !Holds(m, failed);
      } else {
        assert Neg(l) in Elements(als) && !Holds(m, Neg(l));
      }
    }
  }
}
