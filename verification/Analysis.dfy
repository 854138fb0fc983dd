/** Conflict analysis: what it relies on, and the marks it makes. */
module Analysis {
  import opened Cnf
  import opened Sequences
  import opened Trail

  /** The literal arrays of the stored clauses list exactly their literals, each once. */
  ghost predicate Arranged(hist: map<nat, Clause>, lits: map<nat, seq<Lit>>) {
    forall c :: c in lits ==> c in hist && NoDup(lits[c]) && Elements(lits[c]) == hist[c]
  }

  ghost predicate ReasonsKept(a: Assignment, lits: map<nat, seq<Lit>>) {
    forall i :: 0 <= i < |a.trail| && a.trail[i].reason != 0 ==> a.trail[i].reason in lits
  }

  /** What analysis relies on: a well-formed trail whose reasons are all still stored. */
  ghost predicate Ready(a: Assignment, hist: map<nat, Clause>, lits: map<nat, seq<Lit>>) {
    a.Valid() && Reasoned(a, hist) && Arranged(hist, lits) && ReasonsKept(a, lits)
    && (forall i :: 0 <= i < |a.trail| ==> a.trail[i].lit.idx != 0)
  }

  /** Every literal of the clause is false, one of them on the current level (if that is above 0). */
  ghost predicate Conflicting(a: Assignment, c: Clause)
    requires a.Indexed()
  {
    (forall l :: l in c ==> a.False(l))
    && (a.Top() > 0 ==> exists l :: l in c && a.False(l) && a.Level(l.idx) == a.Top())
  }

  /** No model of the indexed clauses agrees with the trail on all of vs. */
  ghost predicate Refuted(a: Assignment, hist: map<nat, Clause>, ids: set<nat>, vs: set<nat>)
    requires a.Indexed()
  {
    forall m: Model :: SatIds(m, hist, ids) ==> !a.Agrees(m, vs)
  }

  function FalseVars(a: Assignment, c: seq<Lit>): (r: set<nat>)
    ensures forall v :: v in r <==> exists l :: l in c && a.False(l) && l.idx == v
  {
    set l | l in c && a.False(l) :: l.idx
  }

  lemma RefuteConflict(a: Assignment, hist: map<nat, Clause>, lits: map<nat, seq<Lit>>, c: nat)
    requires a.Indexed() && Arranged(hist, lits) && c in lits && Conflicting(a, hist[c])
    ensures Refuted(a, hist, {c}, FalseVars(a, lits[c]))
  {
    forall m: Model | SatIds(m, hist, {c})
      ensures !a.Agrees(m, FalseVars(a, lits[c]))
    {
      var l :| l in hist[c] && Holds(m, l);
      assert l in lits[c] && a.False(l);
      assert l.idx in FalseVars(a, lits[c]);
    }
  }

  /** Resolving on u replaces it by the other variables of its reason. */
  lemma RefuteResolve(a: Assignment, hist: map<nat, Clause>, lits: map<nat, seq<Lit>>,
                      ids: set<nat>, vs: set<nat>, u: nat)
    requires Ready(a, hist, lits) && u in a.at && a.Reason(u) != 0
    requires Refuted(a, hist, ids, vs + {u})
    ensures a.Reason(u) in lits
    ensures Refuted(a, hist, ids + {a.Reason(u)}, vs + FalseVars(a, lits[a.Reason(u)]))
  {
    var r := a.Reason(u);
    assert Justified(a, hist, a.trail[a.at[u]], a.at[u]);
    forall m: Model | SatIds(m, hist, ids + {r})
      ensures !a.Agrees(m, vs + FalseVars(a, lits[r]))
    {
      assert SatIds(m, hist, ids);
      assert !a.Agrees(m, vs + {u});
      if Holds(m, a.trail[a.at[u]].lit) {
        assert !a.Agrees(m, vs);
      } else {
        var l :| l in hist[r] && Holds(m, l);
        assert l in lits[r] && a.False(l);
        assert l.idx in FalseVars(a, lits[r]);
      }
    }
  }

  /** The analysis marks: marked variables, the stack of those below the current level, how many are on the
      current level, and the levels seen (their lowest, and a hash of them). */
  datatype Marks = Marks(mark: set<nat>, marked: seq<nat>, open: nat, minlevel: nat, siglevels: set<nat>)

  function HashLevel(l: nat): nat {
    l % 32
  }

  function OnTop(a: Assignment, mark: set<nat>): set<nat>
    requires a.Indexed()
  {
    set v | v in mark && v in a.at && a.Level(v) == a.Top()
  }

  ghost predicate MarksOk(a: Assignment, s: Marks)
    requires a.Indexed()
  {
    && s.mark <= a.at.Keys
    && s.open == |OnTop(a, s.mark)|
    && NoDup(s.marked)
    && (forall v :: v in s.marked ==> BelowTop(a, s, v))
    && (forall v :: v in s.mark ==> v in s.marked || a.Level(v) == a.Top())
  }

  ghost predicate BelowTop(a: Assignment, s: Marks, v: nat)
    requires a.Indexed()
  {
    && v in s.mark && v in a.at && a.Level(v) != a.Top()
    && (a.Level(v) > 0 ==> s.minlevel <= a.Level(v) && HashLevel(a.Level(v)) in s.siglevels)
  }

  lemma FalseVarsStep(a: Assignment, c: seq<Lit>, p: nat)
    requires p < |c|
    ensures FalseVars(a, c[..p+1]) == FalseVars(a, c[..p]) + (if a.False(c[p]) then {c[p].idx} else {})
  {
    assert c[..p+1] == c[..p] + [c[p]];
  }

  /** Marking one more variable. */
  function MarkVar(a: Assignment, s: Marks, u: nat): (r: Marks)
    requires a.Indexed() && u in a.at
  {
    if a.Level(u) == a.Top() then
      s.(mark := s.mark + {u}, open := s.open + 1)
    else if a.Level(u) == 0 then
      s.(mark := s.mark + {u}, marked := s.marked + [u])
    else
      s.(mark := s.mark + {u}, marked := s.marked + [u],
         minlevel := if a.Level(u) < s.minlevel then a.Level(u) else s.minlevel,
         siglevels := s.siglevels + {HashLevel(a.Level(u))})
  }

  lemma MarkVarOk(a: Assignment, s: Marks, u: nat)
    requires a.Indexed() && u in a.at && MarksOk(a, s) && u !in s.mark
    ensures MarksOk(a, MarkVar(a, s, u)) && MarkVar(a, s, u).mark == s.mark + {u}
  {
    hide NoDup;
    var r := MarkVar(a, s, u);
    NoDupAppend(s.marked, u);
    if a.Level(u) == a.Top() {
      assert OnTop(a, r.mark) == OnTop(a, s.mark) + {u};
    } else {
      assert OnTop(a, r.mark) == OnTop(a, s.mark);
    }
    forall v | v in r.marked
      ensures BelowTop(a, r, v)
    {
      if v != u {
        assert v in s.marked && BelowTop(a, s, v);
      }
    }
  }

  lemma NoFalseVars(a: Assignment)
    ensures FalseVars(a, []) == {}
  {
  }

  lemma NotBoth(a: Assignment, l: Lit)
    requires a.Indexed()
    ensures !(a.True(l) && a.False(l))
    ensures a.False(l) ==> l.idx in a.at
  {
  }

  /** Marks the false literals of a clause. */
  method MarkClause(a: Assignment, c: seq<Lit>, s0: Marks) returns (s: Marks)
    requires a.Indexed() && MarksOk(a, s0)
    requires forall l :: l in c ==> a.True(l) || a.False(l)
    ensures MarksOk(a, s) && s.mark == s0.mark + FalseVars(a, c)
  {
    hide *;
    s := s0;
    NoFalseVars(a);
    for p := 0 to |c|
      invariant MarksOk(a, s) && s.mark == s0.mark + FalseVars(a, c[..p])
    {
      var other := c[p];
      FalseVarsStep(a, c, p);
      NotBoth(a, other);
      assert other in c;
      if a.True(other) {
        continue;
      }
      if other.idx in s.mark {
        continue;
      }
      MarkVarOk(a, s, other.idx);
      s := MarkVar(a, s, other.idx);
    }
    assert c[..|c|] == c;
  }

  lemma EmptyConflicts(a: Assignment)
    requires a.Indexed() && a.Top() == 0
    ensures Conflicting(a, {})
  {
  }
}
