/** Resolving away literals that are false on level 0, and the well-formedness of the trail against the store. */
module TopLevel {
  import opened Cnf
  import opened Sequences
  import opened Trail
  import opened Analysis
  import opened Store

  /** The locked clauses are exactly the reasons of assignments. */
  ghost predicate LockedOk(a: Assignment, locked: set<nat>) {
    && (forall i :: 0 <= i < |a.trail| && a.trail[i].reason != 0 ==> a.trail[i].reason in locked)
    && (forall r :: r in locked ==> IsReason(a, r))
  }

  ghost predicate IsReason(a: Assignment, r: nat) {
    r != 0 && exists i :: 0 <= i < |a.trail| && a.trail[i].reason == r
  }

  ghost predicate TrailOk(a: Assignment, hist: map<nat, Clause>, lits: map<nat, seq<Lit>>, locked: set<nat>, maxVar: nat) {
    && a.Valid() && Reasoned(a, hist) && LockedOk(a, locked) && locked <= lits.Keys
    && (forall i :: 0 <= i < |a.trail| ==> 0 < a.trail[i].lit.idx <= maxVar)
  }

  lemma TrailReady(a: Assignment, hist: map<nat, Clause>, lits: map<nat, seq<Lit>>, locked: set<nat>, maxVar: nat)
    requires TrailOk(a, hist, lits, locked, maxVar) && Arranged(hist, lits)
    ensures Ready(a, hist, lits) && a.Valid() && a.Indexed() && a.Leveled()
  {
  }

  lemma TrailPush(a: Assignment, hist: map<nat, Clause>, lits: map<nat, seq<Lit>>, locked: set<nat>, maxVar: nat,
                  l: Lit, level: nat, reason: nat)
    requires TrailOk(a, hist, lits, locked, maxVar) && a.Indexed() && a.Undef(l) && 0 < l.idx <= maxVar
    requires level == a.Top() + (if reason == 0 then 1 else 0)
    requires reason != 0 ==> reason in lits && Justified(a, hist, Entry(l, level, reason), |a.trail|)
    ensures var b := a.Push(l, level, reason);
      b.Indexed() && b.Top() == level && TrailOk(b, hist, lits, if reason == 0 then locked else locked + {reason}, maxVar)
  {
    hide Reasoned, LockedOk, Justified;
    PushReasoned(a, hist, l, level, reason);
    LockedPush(a, locked, l, level, reason);
  }

  lemma LockedPush(a: Assignment, locked: set<nat>, l: Lit, level: nat, reason: nat)
    requires LockedOk(a, locked)
    ensures LockedOk(a.Push(l, level, reason), if reason == 0 then locked else locked + {reason})
  {
    var b := a.Push(l, level, reason);
    forall r | r in locked
      ensures IsReason(b, r)
    {
      assert IsReason(a, r);
      var i :| 0 <= i < |a.trail| && a.trail[i].reason == r;
      assert b.trail[i].reason == r;
    }
    assert b.trail[|a.trail|].reason == reason;
  }

  lemma TrailPop(a: Assignment, hist: map<nat, Clause>, lits: map<nat, seq<Lit>>, locked: set<nat>, maxVar: nat)
    requires TrailOk(a, hist, lits, locked, maxVar) && |a.trail| > 0
    ensures a.Pop().Indexed() && TrailOk(a.Pop(), hist, lits, locked - {a.trail[|a.trail| - 1].reason}, maxVar)
  {
    PopReasoned(a, hist);
    var b, n := a.Pop(), |a.trail| - 1;
    forall i: nat | i < n && a.trail[i].reason != 0
      ensures a.trail[i].reason != a.trail[n].reason
    {
      ReasonsDiffer(a, hist, i, n);
    }
    hide Reasoned;
    forall r | r in locked && r != a.trail[n].reason
      ensures IsReason(b, r)
    {
      assert IsReason(a, r);
      var i :| 0 <= i < |a.trail| && a.trail[i].reason == r;
      assert b.trail[i].reason == r;
    }
  }

  lemma TrailStore(a: Assignment, hist: map<nat, Clause>, lits: map<nat, seq<Lit>>, locked: set<nat>, maxVar: nat,
                   id: nat, ls: seq<Lit>, c: Clause)
    requires TrailOk(a, hist, lits, locked, maxVar) && id !in hist
    ensures TrailOk(a, hist[id := c], lits[id := ls], locked, maxVar)
  {
    ReasonedExtends(a, hist, id, c);
    hide Reasoned;
  }

  /** Collecting unlocked clauses leaves every reason in place. */
  lemma TrailCollect(a: Assignment, hist: map<nat, Clause>, lits: map<nat, seq<Lit>>, locked: set<nat>, maxVar: nat, doomed: set<nat>)
    requires TrailOk(a, hist, lits, locked, maxVar) && doomed !! locked
    ensures TrailOk(a, hist, lits - doomed, locked, maxVar)
  {
  }

  lemma TrailWiden(a: Assignment, hist: map<nat, Clause>, lits: map<nat, seq<Lit>>, locked: set<nat>, maxVar: nat, more: nat)
    requires TrailOk(a, hist, lits, locked, maxVar) && maxVar <= more
    ensures TrailOk(a, hist, lits, locked, more)
  {
  }

  lemma LevelsBelowTop(a: Assignment, v: nat)
    requires a.Valid() && v in a.at
    ensures a.Level(v) <= a.Top()
  {
    LevelsRise(a, a.at[v], |a.trail| - 1);
  }

  /** On level 0, clause r has l as its only literal that is not false, so resolving gives the unit clause of l. */
  lemma OnlyOneLeft(a: Assignment, hist: map<nat, Clause>, lits: map<nat, seq<Lit>>, r: nat, l: Lit)
    requires a.Valid() && Arranged(hist, lits) && r in lits && l in hist[r] && a.Undef(l) && a.Top() == 0
    requires FalseBefore(a, hist[r], l, |a.trail|)
    ensures forall k :: k in lits[r] && a.False(k) ==> a.Level(k.idx) == 0
    ensures forall k :: k in lits[r] ==> (!a.False(k) <==> k == l)
    ensures l in lits[r] && (|lits[r]| <= 1 ==> hist[r] == {l})
  {
    assert l in Elements(lits[r]);
    forall k | k in lits[r] && a.False(k)
      ensures a.Level(k.idx) == 0
    {
      LevelsBelowTop(a, k.idx);
    }
    forall k | k in lits[r]
      ensures !a.False(k) <==> k == l
    {
      assert k in hist[r];
    }
    if |lits[r]| <= 1 {
      assert lits[r] == [l];
    }
  }

  /** The reason of a level-0 variable is the unit clause of its true literal. */
  lemma ZeroReason(a: Assignment, hist: map<nat, Clause>, l: Lit)
    requires a.Valid() && Reasoned(a, hist) && a.False(l) && a.Level(l.idx) == 0
    ensures a.Reason(l.idx) != 0 && a.Reason(l.idx) in hist && hist[a.Reason(l.idx)] == {Neg(l)}
  {
    var i := a.at[l.idx];
    assert a.trail[i].level == a.LevelBefore(i) + (if a.trail[i].reason == 0 then 1 else 0);
    assert Justified(a, hist, a.trail[i], i);
  }

  /** c without its literals that are false; the level-0 unit clauses are the antecedents. */
  ghost predicate Shrinking(a: Assignment, hist: map<nat, Clause>, r: nat, done: seq<Lit>, added: seq<Lit>, resolved: seq<nat>)
    requires a.Indexed()
  {
    && NoDup(added) && (forall l :: l in added <==> l in done && !a.False(l))
    && NoDup(resolved) && r in resolved
    && (forall x :: x in resolved ==> x == r || exists l :: l in done && a.False(l) && a.Reason(l.idx) == x)
    && (forall l :: l in done && a.False(l) ==> a.Reason(l.idx) in resolved)
  }

  lemma ShrinkStep(a: Assignment, hist: map<nat, Clause>, r: nat, c: seq<Lit>, p: nat, added: seq<Lit>, resolved: seq<nat>)
    requires a.Valid() && Reasoned(a, hist) && p < |c| && NoDup(c) && Shrinking(a, hist, r, c[..p], added, resolved)
    requires r in hist && hist[r] == Elements(c) && (|c| > 1 || !IsReason(a, r))
    requires forall l :: l in c && a.False(l) ==> a.Level(l.idx) == 0
    ensures if a.False(c[p])
            then Shrinking(a, hist, r, c[..p+1], added, resolved + [a.Reason(c[p].idx)])
            else Shrinking(a, hist, r, c[..p+1], added + [c[p]], resolved)
  {
    var l := c[p];
    assert c[..p+1] == c[..p] + [l];
    assert l !in c[..p] && l in c;
    if a.False(l) {
      ZeroReason(a, hist, l);
      var x := a.Reason(l.idx);
      assert x != r by {
        assert IsReason(a, x);
        assert |c| > 1 ==> c[0] in Elements(c) && c[1] in Elements(c) && c[0] != c[1];
      }
      forall k | k in c[..p] && a.False(k)
        ensures a.Reason(k.idx) != x
      {
        assert k in c;
        ZeroReason(a, hist, k);
      }
      NoDupAppend(resolved, x);
    } else {
      NoDupAppend(added, l);
    }
  }

  lemma ShrinkImplies(a: Assignment, hist: map<nat, Clause>, r: nat, c: seq<Lit>, added: seq<Lit>, resolved: seq<nat>)
    requires a.Valid() && Reasoned(a, hist) && Shrinking(a, hist, r, c, added, resolved)
    requires r in hist && hist[r] == Elements(c)
    requires forall l :: l in c && a.False(l) ==> a.Level(l.idx) == 0
    ensures Implies(hist, Elements(resolved), Elements(added))
  {
    forall m: Model | SatIds(m, hist, Elements(resolved))
      ensures SatClause(m, Elements(added))
    {
      forall l | l in c && a.False(l)
        ensures !Holds(m, l)
      {
        ZeroReason(a, hist, l);
        assert SatClause(m, hist[a.Reason(l.idx)]);
      }
      var l :| l in hist[r] && Holds(m, l);
      assert l in added;
    }
  }

  /** x is the reason of a false literal. */
  ghost predicate IsZeroReason(a: Assignment, c: seq<Lit>, x: nat)
    requires a.Indexed()
  {
    exists l :: l in c && a.False(l) && a.Reason(l.idx) == x
  }

  /** Resolves clause r with the unit reasons of its false literals, all of which are on level 0. */
  method ResolveFalse(a: Assignment, lits: map<nat, seq<Lit>>, ghost hist: map<nat, Clause>, r: nat)
    returns (added: seq<Lit>, resolved: seq<nat>)
    requires a.Indexed() && Ready(a, hist, lits) && r in lits && (|lits[r]| > 1 || !IsReason(a, r))
    requires forall l :: l in lits[r] && a.False(l) ==> a.Level(l.idx) == 0
    ensures NoDup(added) && (forall l :: l in added <==> l in lits[r] && !a.False(l))
    ensures NoDup(resolved) && Elements(resolved) <= hist.Keys && Implies(hist, Elements(resolved), Elements(added))
    ensures forall x :: x in resolved <==> x == r || IsZeroReason(a, lits[r], x)
  {
    var c := lits[r];
    added, resolved := [], [r];
    for p := 0 to |c|
      invariant Shrinking(a, hist, r, c[..p], added, resolved)
    {
      ShrinkStep(a, hist, r, c, p, added, resolved);
      if a.False(c[p]) {
        resolved := resolved + [a.Reason(c[p].idx)];
      } else {
        added := added + [c[p]];
      }
    }
    assert c[..|c|] == c;
    ShrinkImplies(a, hist, r, c, added, resolved);
    forall x
      ensures x in resolved <==> x == r || IsZeroReason(a, c, x)
    {
    }
    forall x | x in resolved
      ensures x in hist
    {
      if x != r {
        var l :| l in c && a.False(l) && a.Reason(l.idx) == x;
        ZeroReason(a, hist, l);
      }
    }
  }

  function Range(n: nat): (r: set<nat>)
    ensures forall v :: v in r <==> 0 < v <= n
  {
    if n == 0 then {} else Range(n - 1) + {n}
  }

  lemma {:induction false} RangeCard(n: nat)
    ensures |Range(n)| == n
  {
    if n > 0 {
      RangeCard(n - 1);
    }
  }

  lemma {:induction false} TrailCard(a: Assignment)
    requires a.Valid()
    ensures |a.at.Keys| == |a.trail|
    decreases |a.trail|
  {
    if |a.trail| > 0 {
      PopValid(a);
      TrailCard(a.Pop());
      var v := a.trail[|a.trail| - 1].lit.idx;
      assert a.at.Keys == a.Pop().at.Keys + {v};
    } else {
      assert a.at.Keys == {};
    }
  }

  /** The trail is never longer than the number of variables, and as long only if every variable is assigned. */
  lemma TrailBound(a: Assignment, maxVar: nat)
    requires a.Valid() && forall i :: 0 <= i < |a.trail| ==> 0 < a.trail[i].lit.idx <= maxVar
    ensures |a.trail| <= maxVar
    ensures |a.trail| == maxVar <==> forall v :: 0 < v <= maxVar ==> v in a.at
  {
    TrailCard(a);
    RangeCard(maxVar);
    forall v | v in a.at
      ensures v in Range(maxVar)
    {
      assert a.trail[a.at[v]].lit.idx == v;
    }
    SubsetCard(a.at.Keys, Range(maxVar));
    if |a.trail| == maxVar {
      assert a.at.Keys == Range(maxVar);
      forall v | 0 < v <= maxVar
        ensures v in a.at
      {
        assert v in Range(maxVar);
      }
    } else {
      assert a.at.Keys != Range(maxVar);
      var v :| 0 < v <= maxVar && v !in a.at;
    }
  }

  lemma NotReason(a: Assignment, hist: map<nat, Clause>, lits: map<nat, seq<Lit>>, locked: set<nat>, maxVar: nat, id: nat)
    requires TrailOk(a, hist, lits, locked, maxVar) && id !in locked
    ensures !IsReason(a, id)
  {
  }

  lemma LockedStored(a: Assignment, hist: map<nat, Clause>, lits: map<nat, seq<Lit>>, locked: set<nat>, maxVar: nat)
    requires TrailOk(a, hist, lits, locked, maxVar)
    ensures locked <= lits.Keys
  {
  }

  lemma NotTrueOnZero(a: Assignment, c: seq<Lit>)
    requires a.Valid() && a.Top() == 0 && !ZeroTrue(a, Elements(c))
    ensures forall l :: l in c ==> !a.True(l)
  {
    forall l | l in c
      ensures !a.True(l)
    {
      assert l in Elements(c);
      if a.True(l) { LevelsBelowTop(a, l.idx); }
    }
  }
}
