/** What undoing assignments and working off assumptions keep. */
module Undoing {
  import opened Cnf
  import opened Trail
  import opened Analysis
  import opened Store
  import opened TopLevel
  import opened Watch
  import opened Propagation

  lemma ZeroTruePop(a: Assignment, c: Clause)
    requires a.Valid() && |a.trail| > 0 && a.trail[|a.trail| - 1].level > 0 && a.Pop().Indexed() && ZeroTrue(a, c)
    ensures ZeroTrue(a.Pop(), c)
  {
    var k :| k in c && a.True(k) && a.Level(k.idx) == 0;
    PopOne(a, k.idx);
    assert a.Pop().True(k);
  }

  lemma LoosePop(a: Assignment, hist: map<nat, Clause>, lits: map<nat, seq<Lit>>, loose: set<nat>, r: nat)
    requires a.Valid() && |a.trail| > 0 && a.trail[|a.trail| - 1].level > 0 && a.Pop().Indexed()
    requires LooseOk(a, hist, lits, loose, r)
    ensures LooseOk(a.Pop(), hist, lits, loose, r)
  {
    if |hist[r]| > 1 {
      if ZeroTrue(a, hist[r]) {
        ZeroTruePop(a, hist[r]);
      } else {
        var o :| o in lits && o !in loose && Shrunk(a, hist, r, o);
        forall k | k in hist[o] && k !in hist[r]
          ensures a.Pop().False(k) && a.Pop().Level(k.idx) == 0
        {
          PopOne(a, k.idx);
        }
        assert Shrunk(a.Pop(), hist, r, o);
      }
    }
  }

  lemma SettledPop(formula: set<Clause>, a: Assignment, hist: map<nat, Clause>, lits: map<nat, seq<Lit>>, loose: set<nat>)
    requires a.Valid() && |a.trail| > 0 && a.trail[|a.trail| - 1].level > 0 && a.Pop().Indexed()
    requires Settled(formula, a, hist, lits, loose)
    ensures Settled(formula, a.Pop(), hist, lits, loose)
  {
    hide LooseOk, Kept;
    forall c | c in formula && ZeroTrue(a, c)
      ensures ZeroTrue(a.Pop(), c)
    {
      ZeroTruePop(a, c);
    }
    forall r | r in loose
      ensures LooseOk(a.Pop(), hist, lits, loose, r)
    {
      LoosePop(a, hist, lits, loose, r);
    }
    forall c | c in lits && |lits[c]| == 1
      ensures a.Pop().True(lits[c][0]) && a.Pop().Level(lits[c][0].idx) == 0
    {
      PopOne(a, lits[c][0].idx);
    }
  }

  lemma LinkedPop(a: Assignment, n: nat, lits: map<nat, seq<Lit>>, loose: set<nat>, impls: Lists, htps: Lists, dhtps: Lists, x: Lit)
    requires a.Valid() && |a.trail| > n && a.trail[|a.trail| - 1].lit == x && a.Pop().Indexed()
    requires a.trail[|a.trail| - 1].level > 0
    requires forall i :: 0 <= i < n ==> a.trail[i].level < a.trail[|a.trail| - 1].level
    requires Linked(a, n, n, lits, loose, impls, htps, dhtps)
    ensures forall c :: c in At(dhtps, x) ==> c in lits && |lits[c]| >= 2
    ensures Linked(a.Pop(), n, n, lits, loose, impls, Flush(lits, htps, x, At(dhtps, x)), dhtps[x := []])
  {
    hide Watched, Implied;
    WatchedPop(a, n, lits, loose, htps, dhtps, x);
    ImpliedPop(a, n, lits, loose, impls);
  }

  /** The first n assignments are those on the given level or below. */
  ghost predicate IsCut(a: Assignment, level: nat, n: nat) {
    && n <= |a.trail|
    && (forall i :: 0 <= i < n ==> a.trail[i].level <= level)
    && (forall i :: n <= i < |a.trail| ==> a.trail[i].level > level)
  }

  lemma FindCut(a: Assignment, level: nat) returns (n: nat)
    requires a.Valid() && level <= a.Top()
    ensures IsCut(a, level, n) && CutTop(a, level, n)
  {
    n := |a.trail|;
    while n > 0 && a.trail[n-1].level > level
      invariant n <= |a.trail| && forall i :: n <= i < |a.trail| ==> a.trail[i].level > level
    {
      n := n - 1;
    }
    forall i | 0 <= i < n
      ensures a.trail[i].level <= level
    {
      LevelsRise(a, i, n - 1);
    }
    if n < |a.trail| {
      assert a.trail[n].level == a.LevelBefore(n) + (if a.trail[n].reason == 0 then 1 else 0);
    }
  }

  ghost predicate CutTop(a: Assignment, level: nat, n: nat) {
    n <= |a.trail| && level == a.LevelBefore(n)
  }

  /** The assumptions taken over so far are true on a level not above adecidelevel, and every decision up to that
      level is one of them; while some are still to come, all decisions are assumptions. */
  ghost predicate AssumeOk(a: Assignment, als: seq<Lit>, alstail: nat, adecidelevel: nat, maxVar: nat)
    requires a.Indexed()
  {
    && alstail <= |als| && (forall l :: l in als ==> 0 < l.idx <= maxVar)
    && adecidelevel <= a.Top()
    && (forall j :: 0 <= j < alstail ==> a.True(als[j]) && a.Level(als[j].idx) <= adecidelevel)
    && (forall i :: 0 <= i < |a.trail| && a.trail[i].reason == 0 && (a.trail[i].level <= adecidelevel || alstail < |als|)
          ==> a.trail[i].lit in als)
  }

  lemma AssumePush(a: Assignment, als: seq<Lit>, alstail: nat, adecidelevel: nat, maxVar: nat, l: Lit, reason: nat)
    requires a.Valid() && a.Undef(l) && reason != 0 && a.Push(l, a.Top(), reason).Indexed()
    requires AssumeOk(a, als, alstail, adecidelevel, maxVar)
    ensures AssumeOk(a.Push(l, a.Top(), reason), als, alstail, adecidelevel, maxVar)
  {
    var b := a.Push(l, a.Top(), reason);
    forall j | 0 <= j < alstail
      ensures b.True(als[j]) && b.Level(als[j].idx) <= adecidelevel
    {
      TrueStays(a, l, a.Top(), reason, als[j]);
    }
  }

  /** Undoing to a level below adecidelevel starts the assumptions over. */
  lemma AssumeUndo(a: Assignment, b: Assignment, als: seq<Lit>, alstail: nat, adecidelevel: nat, maxVar: nat, level: nat, n: nat)
    requires a.Valid() && b.Valid() && IsCut(a, level, n) && b.trail == a.trail[..n] && b.Top() == level
    requires AssumeOk(a, als, alstail, adecidelevel, maxVar)
    ensures if level < adecidelevel then AssumeOk(b, als, 0, 0, maxVar) else AssumeOk(b, als, alstail, adecidelevel, maxVar)
  {
    if level >= adecidelevel {
      forall j | 0 <= j < alstail
        ensures b.True(als[j]) && b.Level(als[j].idx) <= adecidelevel
      {
        var p := a.at[als[j].idx];
        assert p < n && b.trail[p] == a.trail[p];
      }
    }
  }

  /** A decision that is no assumption, once all assumptions are taken over. */
  lemma AssumeDecide(a: Assignment, als: seq<Lit>, adecidelevel: nat, maxVar: nat, l: Lit)
    requires a.Valid() && a.Undef(l) && a.Push(l, a.Top() + 1, 0).Indexed()
    requires AssumeOk(a, als, |als|, adecidelevel, maxVar)
    ensures AssumeOk(a.Push(l, a.Top() + 1, 0), als, |als|, adecidelevel, maxVar)
  {
    var b := a.Push(l, a.Top() + 1, 0);
    forall j | 0 <= j < |als|
      ensures b.True(als[j]) && b.Level(als[j].idx) <= adecidelevel
    {
      TrueStays(a, l, a.Top() + 1, 0, als[j]);
    }
  }

  /** The next assumption is decided on. */
  lemma AssumeTake(a: Assignment, als: seq<Lit>, taken: nat, adecidelevel: nat, maxVar: nat)
    requires a.Valid() && taken < |als| && a.Undef(als[taken]) && a.Push(als[taken], a.Top() + 1, 0).Indexed()
    requires AssumeOk(a, als, taken, adecidelevel, maxVar)
    ensures AssumeOk(a.Push(als[taken], a.Top() + 1, 0), als, taken + 1, a.Top() + 1, maxVar)
  {
    var l := als[taken];
    var b := a.Push(l, a.Top() + 1, 0);
    assert l in als;
    forall j | 0 <= j < taken
      ensures b.True(als[j]) && b.Level(als[j].idx) <= adecidelevel
    {
      TrueStays(a, l, a.Top() + 1, 0, als[j]);
    }
  }

  /** The next assumption is true already. */
  lemma AssumeSkip(a: Assignment, als: seq<Lit>, taken: nat, adecidelevel: nat, maxVar: nat)
    requires a.Valid() && taken < |als| && a.True(als[taken]) && AssumeOk(a, als, taken, adecidelevel, maxVar)
    ensures var level := a.Level(als[taken].idx);
      AssumeOk(a, als, taken + 1, if level > adecidelevel then level else adecidelevel, maxVar)
  {
    LevelsBelowTop(a, als[taken].idx);
  }

  /** What is true on level 0 stays true on level 0. */
  ghost predicate ZeroKept(a: Assignment, b: Assignment)
    requires a.Indexed() && b.Indexed()
  {
    forall l :: a.True(l) && a.Level(l.idx) == 0 ==> b.True(l) && b.Level(l.idx) == 0
  }

  lemma ZeroExtend(a: Assignment, b: Assignment)
    requires a.Indexed() && b.Indexed() && a.trail <= b.trail
    ensures ZeroKept(a, b)
  {
    forall l | a.True(l) && a.Level(l.idx) == 0
      ensures b.True(l) && b.Level(l.idx) == 0
    {
      assert b.trail[a.at[l.idx]] == a.trail[a.at[l.idx]];
    }
  }

  lemma ZeroCut(a: Assignment, b: Assignment, level: nat, n: nat)
    requires a.Indexed() && b.Indexed() && IsCut(a, level, n) && b.trail == a.trail[..n]
    ensures ZeroKept(a, b)
  {
    forall l | a.True(l) && a.Level(l.idx) == 0
      ensures b.True(l) && b.Level(l.idx) == 0
    {
      assert b.trail[a.at[l.idx]] == a.trail[a.at[l.idx]];
    }
  }

  lemma ZeroTrans(a: Assignment, b: Assignment, c: Assignment)
    requires a.Indexed() && b.Indexed() && c.Indexed() && ZeroKept(a, b) && ZeroKept(b, c)
    ensures ZeroKept(a, c)
  {
  }

  /** Assigning forced literals keeps the account of the assumptions. */
  lemma AssumeExtend(a: Assignment, b: Assignment, als: seq<Lit>, taken: nat, adecidelevel: nat, maxVar: nat)
    requires a.Valid() && b.Valid() && a.trail <= b.trail && a.Top() == b.Top() && AssumeOk(a, als, taken, adecidelevel, maxVar)
    ensures AssumeOk(b, als, taken, adecidelevel, maxVar)
  {
    forall j | 0 <= j < taken
      ensures b.True(als[j]) && b.Level(als[j].idx) <= adecidelevel
    {
      assert b.trail[a.at[als[j].idx]] == a.trail[a.at[als[j].idx]];
    }
    forall i | |a.trail| <= i < |b.trail|
      ensures b.trail[i].reason != 0
    {
      assert b.trail[i].level == b.LevelBefore(i) + (if b.trail[i].reason == 0 then 1 else 0);
      LevelsRise(b, i, |b.trail| - 1);
      if |a.trail| > 0 {
        LevelsRise(b, |a.trail| - 1, i - 1);
      }
    }
  }

  /** On level 0 there are no decisions to account for. */
  lemma AssumeZero(a: Assignment, als: seq<Lit>, more: seq<Lit>, taken: nat, adecidelevel: nat, maxVar: nat)
    requires a.Valid() && a.Top() == 0 && AssumeOk(a, als, taken, adecidelevel, maxVar)
    requires taken <= |more| && (forall j :: 0 <= j < taken ==> more[j] == als[j]) && forall l :: l in more ==> 0 < l.idx <= maxVar
    ensures AssumeOk(a, more, taken, adecidelevel, maxVar) && adecidelevel == 0
  {
    forall i: nat | i < |a.trail|
      ensures a.trail[i].reason != 0
    {
      assert a.trail[i].level == a.LevelBefore(i) + (if a.trail[i].reason == 0 then 1 else 0);
      LevelsRise(a, i, |a.trail| - 1);
    }
  }

  lemma AssumeNone(a: Assignment, maxVar: nat)
    requires a.Valid()
    ensures AssumeOk(a, [], 0, 0, maxVar)
  {
    forall i: nat | i < |a.trail| && a.trail[i].reason == 0
      ensures a.trail[i].level > 0
    {
      assert a.trail[i].level == a.LevelBefore(i) + 1;
    }
  }

  /** The last assignment is above the level to return to. */
  lemma CutLast(a: Assignment, b: Assignment, level: nat, n: nat)
    requires a.Valid() && IsCut(a, level, n) && CutTop(a, level, n) && n <= |b.trail| <= |a.trail| && b.trail == a.trail[..|b.trail|]
    requires |b.trail| > 0 && b.trail[|b.trail| - 1].level != level
    ensures |b.trail| > n && b.trail[|b.trail| - 1].level > 0
    ensures forall i :: 0 <= i < n ==> b.trail[i].level < b.trail[|b.trail| - 1].level
  {
  }

  lemma CutDone(a: Assignment, b: Assignment, level: nat, n: nat)
    requires a.Valid() && IsCut(a, level, n) && CutTop(a, level, n) && n <= |b.trail| <= |a.trail| && b.trail == a.trail[..|b.trail|]
    requires |b.trail| == 0 || b.trail[|b.trail| - 1].level == level
    ensures |b.trail| == n && b.Top() == level
  {
  }

  lemma AssumeWiden(a: Assignment, als: seq<Lit>, taken: nat, adecidelevel: nat, maxVar: nat, more: nat)
    requires a.Indexed() && AssumeOk(a, als, taken, adecidelevel, maxVar) && maxVar <= more
    ensures AssumeOk(a, als, taken, adecidelevel, more)
  {
  }

  lemma AssignedKeeps(a: Assignment, b: Assignment, als: seq<Lit>, taken: nat, adecidelevel: nat, maxVar: nat, r: nat, rest: seq<Lit>)
    requires a.Valid() && b.Indexed() && a.Top() == 0 && AssumeOk(a, als, taken, adecidelevel, maxVar)
    requires b == (if |rest| == 1 then a.Push(rest[0], 0, r) else a) && r != 0 && forall l :: l in rest ==> a.Undef(l)
    ensures AssumeOk(b, als, taken, adecidelevel, maxVar) && ZeroKept(a, b)
  {
    ZeroExtend(a, a);
    if |rest| == 1 {
      AssumePush(a, als, taken, adecidelevel, maxVar, rest[0], r);
      ZeroExtend(a, b);
    }
  }
}
