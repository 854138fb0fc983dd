/** The clause store: original clauses have even indices, learned ones odd indices and an antecedent chain. */
module Store {
  import opened Cnf
  import opened Sequences
  import opened Trail
  import opened Analysis
  import opened Zhain

  type Chains = map<nat, seq<nat>>

  function Antecedents(zhains: Chains, id: nat): set<nat> {
    if id in zhains then Elements(Decode(zhains[id])) else {}
  }

  /** A learned clause follows from its antecedents, and the learned ones among them are older. */
  ghost predicate Derived(hist: map<nat, Clause>, zhains: Chains, id: nat)
    requires id in hist
  {
    && id in zhains && Encoded(zhains[id])
    && Antecedents(zhains, id) <= hist.Keys
    && (forall x :: x in Antecedents(zhains, id) && x % 2 == 1 ==> x < id)
    && Implies(hist, Antecedents(zhains, id), hist[id])
  }

  ghost predicate Chained(hist: map<nat, Clause>, zhains: Chains) {
    && (forall id :: id in hist && id % 2 == 1 ==> Derived(hist, zhains, id))
    && (forall id :: id in zhains ==> id in hist && id % 2 == 1)
  }

  ghost predicate Numbered(hist: map<nat, Clause>, oadded: nat, ladded: nat) {
    forall id :: id in hist ==> if id % 2 == 0 then 0 < id <= 2 * oadded else id < 2 * ladded
  }

  ghost predicate Originals(hist: map<nat, Clause>, formula: set<Clause>) {
    forall id :: id in hist && id % 2 == 0 ==> hist[id] in formula
  }

  ghost predicate Stored(hist: map<nat, Clause>, lits: map<nat, seq<Lit>>, zhains: Chains,
                         oadded: nat, ladded: nat, formula: set<Clause>) {
    Arranged(hist, lits) && Chained(hist, zhains) && Numbered(hist, oadded, ladded) && Originals(hist, formula)
  }

  lemma ChainedExtends(hist: map<nat, Clause>, zhains: Chains, id: nat, c: Clause)
    requires Chained(hist, zhains) && id !in hist && id % 2 == 0
    ensures Chained(hist[id := c], zhains)
  {
    forall x | x in hist && x % 2 == 1
      ensures Derived(hist[id := c], zhains, x)
    {
      assert Derived(hist, zhains, x);
      ImpliesExtends(hist, hist[id := c], Antecedents(zhains, x), hist[x]);
    }
  }

  lemma ChainedLearns(hist: map<nat, Clause>, zhains: Chains, id: nat, c: Clause, z: seq<nat>)
    requires Chained(hist, zhains) && id !in hist && id % 2 == 1
    requires Encoded(z) && Elements(Decode(z)) <= hist.Keys && Implies(hist, Elements(Decode(z)), c)
    requires forall x :: x in hist && x % 2 == 1 ==> x < id
    ensures Chained(hist[id := c], zhains[id := z])
  {
    var hist', zhains' := hist[id := c], zhains[id := z];
    assert id !in zhains;
    forall x | x in hist' && x % 2 == 1
      ensures Derived(hist', zhains', x)
    {
      if x == id {
        ImpliesExtends(hist, hist', Elements(Decode(z)), c);
      } else {
        assert Derived(hist, zhains, x);
        ImpliesExtends(hist, hist', Antecedents(zhains, x), hist[x]);
      }
    }
  }

  lemma StoreLearned(hist: map<nat, Clause>, lits: map<nat, seq<Lit>>, zhains: Chains, oadded: nat, ladded: nat,
                     formula: set<Clause>, ls: seq<Lit>, z: seq<nat>)
    requires Stored(hist, lits, zhains, oadded, ladded, formula) && NoDup(ls)
    requires Encoded(z) && Elements(Decode(z)) <= hist.Keys && Implies(hist, Elements(Decode(z)), Elements(ls))
    ensures var id := 2 * ladded + 1;
      id !in hist && id !in lits
      && Stored(hist[id := Elements(ls)], lits[id := ls], zhains[id := z], oadded, ladded + 1, formula)
  {
    hide NoDup, Implies, Decode, Encoded;
    ChainedLearns(hist, zhains, 2 * ladded + 1, Elements(ls), z);
  }

  lemma StoreOriginal(hist: map<nat, Clause>, lits: map<nat, seq<Lit>>, zhains: Chains, oadded: nat, ladded: nat,
                      formula: set<Clause>, ls: seq<Lit>)
    requires Stored(hist, lits, zhains, oadded, ladded, formula) && NoDup(ls)
    ensures var id := 2 * (oadded + 1);
      id !in hist && id !in lits
      && Stored(hist[id := Elements(ls)], lits[id := ls], zhains, oadded + 1, ladded, formula + {Elements(ls)})
  {
    hide NoDup, Implies, Decode, Encoded;
    ChainedExtends(hist, zhains, 2 * (oadded + 1), Elements(ls));
  }

  /** Every clause ever stored follows from the formula. */
  lemma {:induction false} StoredIsSound(hist: map<nat, Clause>, zhains: Chains, formula: set<Clause>, m: Model, id: nat)
    requires Chained(hist, zhains) && Originals(hist, formula) && SatFormula(m, formula) && id in hist
    ensures SatClause(m, hist[id])
    decreases if id % 2 == 0 then 0 else id
  {
    if id % 2 == 1 {
      assert Derived(hist, zhains, id);
      forall x | x in Antecedents(zhains, id)
        ensures SatClause(m, hist[x])
      {
        StoredIsSound(hist, zhains, formula, m, x);
      }
      assert SatIds(m, hist, Antecedents(zhains, id));
    }
  }

  /** The literals true on level 0 hold in every model of the formula. */
  lemma ZeroIsSound(a: Assignment, hist: map<nat, Clause>, zhains: Chains, formula: set<Clause>, m: Model, i: nat)
    requires a.Valid() && Reasoned(a, hist) && Chained(hist, zhains) && Originals(hist, formula) && SatFormula(m, formula)
    requires i < |a.trail| && a.trail[i].level == 0
    ensures Holds(m, a.trail[i].lit)
  {
    var e := a.trail[i];
    assert e.level == a.LevelBefore(i) + (if e.reason == 0 then 1 else 0);
    assert Justified(a, hist, e, i);
    StoredIsSound(hist, zhains, formula, m, e.reason);
    var l :| l in hist[e.reason] && Holds(m, l);
  }

  ghost predicate ZeroTrue(a: Assignment, c: Clause)
    requires a.Indexed()
  {
    exists l :: l in c && a.True(l) && a.Level(l.idx) == 0
  }

  /** Every clause of the formula is still stored, or true for good. */
  ghost predicate Covered(formula: set<Clause>, a: Assignment, hist: map<nat, Clause>, lits: map<nat, seq<Lit>>)
    requires a.Indexed()
  {
    forall c :: c in formula ==> Tautology(c) || ZeroTrue(a, c) || Kept(hist, lits, c)
  }

  ghost predicate Kept(hist: map<nat, Clause>, lits: map<nat, seq<Lit>>, c: Clause) {
    exists id :: id in lits && id in hist && id % 2 == 0 && hist[id] == c
  }

  /** The stored clauses and the level-0 literals together are equivalent to the formula. */
  lemma StoreEquivalent(formula: set<Clause>, a: Assignment, hist: map<nat, Clause>, lits: map<nat, seq<Lit>>,
                        zhains: Chains, oadded: nat, ladded: nat, m: Model)
    requires a.Valid() && Reasoned(a, hist) && Stored(hist, lits, zhains, oadded, ladded, formula)
    requires Covered(formula, a, hist, lits)
    ensures SatFormula(m, formula) <==>
              (forall id :: id in lits ==> SatClause(m, hist[id])) &&
              (forall i :: 0 <= i < |a.trail| && a.trail[i].level == 0 ==> Holds(m, a.trail[i].lit))
  {
    if SatFormula(m, formula) {
      forall id | id in lits
        ensures SatClause(m, hist[id])
      {
        StoredIsSound(hist, zhains, formula, m, id);
      }
      forall i: nat | i < |a.trail| && a.trail[i].level == 0
        ensures Holds(m, a.trail[i].lit)
      {
        ZeroIsSound(a, hist, zhains, formula, m, i);
      }
    }
    if (forall id :: id in lits ==> SatClause(m, hist[id])) &&
       (forall i :: 0 <= i < |a.trail| && a.trail[i].level == 0 ==> Holds(m, a.trail[i].lit)) {
      forall c | c in formula
        ensures SatClause(m, c)
      {
        if Tautology(c) {
          TautologyHolds(m, c);
        } else if ZeroTrue(a, c) {
          var l :| l in c && a.True(l) && a.Level(l.idx) == 0;
          assert Holds(m, a.trail[a.at[l.idx]].lit);
        }
      }
    }
  }

  lemma StoredReorder(hist: map<nat, Clause>, lits: map<nat, seq<Lit>>, zhains: Chains, oadded: nat, ladded: nat,
                      formula: set<Clause>, c: nat, ls: seq<Lit>)
    requires Stored(hist, lits, zhains, oadded, ladded, formula) && c in lits
    requires NoDup(ls) && Elements(ls) == Elements(lits[c])
    ensures Stored(hist, lits[c := ls], zhains, oadded, ladded, formula)
  {
    hide NoDup, Chained;
  }

  lemma StoredFacts(hist: map<nat, Clause>, lits: map<nat, seq<Lit>>, zhains: Chains, oadded: nat, ladded: nat, formula: set<Clause>)
    requires Stored(hist, lits, zhains, oadded, ladded, formula)
    ensures 0 !in hist && lits.Keys <= hist.Keys && Arranged(hist, lits)
    ensures forall c :: c in lits ==> NoDup(lits[c]) && Elements(lits[c]) == hist[c]
  {
  }

  lemma StoredCollect(hist: map<nat, Clause>, lits: map<nat, seq<Lit>>, zhains: Chains, oadded: nat, ladded: nat,
                      formula: set<Clause>, doomed: set<nat>)
    requires Stored(hist, lits, zhains, oadded, ladded, formula)
    ensures Stored(hist, lits - doomed, zhains, oadded, ladded, formula)
  {
    hide Chained, Numbered, Originals;
  }

  lemma StoredSkip(hist: map<nat, Clause>, lits: map<nat, seq<Lit>>, zhains: Chains, oadded: nat, ladded: nat, formula: set<Clause>, c: Clause)
    requires Stored(hist, lits, zhains, oadded, ladded, formula)
    ensures Stored(hist, lits, zhains, oadded + 1, ladded, formula + {c})
  {
    hide Arranged, Chained;
  }
}
