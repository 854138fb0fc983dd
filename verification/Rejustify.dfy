/** Giving an assignment another reason, and attaching the clause that becomes that reason. */
module Rejustify {
  import opened Cnf
  import opened Sequences
  import opened Trail
  import opened Analysis
  import opened Store
  import opened TopLevel
  import opened Ordering
  import opened Watch
  import opened Propagation
  import opened Undoing
  import opened Backjump
  import opened Failing

  function Swap(a: Assignment, p: nat, id: nat): Assignment
    requires p < |a.trail|
  {
    Assignment(a.trail[p := a.trail[p].(reason := id)], a.at)
  }

  /** The assignments differ in reasons only, and in the same places have one. */
  ghost predicate SameLits(a: Assignment, b: Assignment) {
    && |a.trail| == |b.trail| && a.at == b.at
    && (forall i :: 0 <= i < |a.trail| ==> a.trail[i].lit == b.trail[i].lit && a.trail[i].level == b.trail[i].level)
    && (forall i :: 0 <= i < |a.trail| ==> (a.trail[i].reason == 0 <==> b.trail[i].reason == 0))
  }

  lemma SwapSame(a: Assignment, p: nat, id: nat)
    requires a.Valid() && p < |a.trail| && a.trail[p].reason != 0 && id != 0
    ensures SameLits(a, Swap(a, p, id)) && Swap(a, p, id).Valid() && Swap(a, p, id).Indexed()
  {
    var b := Swap(a, p, id);
    forall i: nat | i < |b.trail|
      ensures b.trail[i].level == b.LevelBefore(i) + (if b.trail[i].reason == 0 then 1 else 0)
    {
      assert a.trail[i].level == a.LevelBefore(i) + (if a.trail[i].reason == 0 then 1 else 0);
    }
  }

  lemma SameTruth(a: Assignment, b: Assignment)
    requires a.Indexed() && b.Indexed() && SameLits(a, b)
    ensures forall l :: a.True(l) <==> b.True(l)
    ensures forall l :: a.False(l) <==> b.False(l)
    ensures forall v :: v in a.at ==> v in b.at && a.Level(v) == b.Level(v)
    ensures a.Top() == b.Top()
  {
  }

  lemma SameSettled(formula: set<Clause>, a: Assignment, b: Assignment, hist: map<nat, Clause>, lits: map<nat, seq<Lit>>, loose: set<nat>)
    requires a.Indexed() && b.Indexed() && SameLits(a, b) && Settled(formula, a, hist, lits, loose)
    ensures Settled(formula, b, hist, lits, loose)
  {
    SameTruth(a, b);
    hide SameLits, Kept;
    assert forall c :: ZeroTrue(a, c) ==> ZeroTrue(b, c);
    forall r | r in loose
      ensures LooseOk(b, hist, lits, loose, r)
    {
      assert LooseOk(a, hist, lits, loose, r);
      if o :| o in lits && o !in loose && Shrunk(a, hist, r, o) {
        assert o in lits && o !in loose && Shrunk(b, hist, r, o);
      }
    }
  }

  lemma SameLinked(a: Assignment, b: Assignment, k: nat, lits: map<nat, seq<Lit>>, loose: set<nat>, impls: Lists, htps: Lists, dhtps: Lists)
    requires a.Indexed() && b.Indexed() && SameLits(a, b) && Linked(a, k, k, lits, loose, impls, htps, dhtps)
    ensures Linked(b, k, k, lits, loose, impls, htps, dhtps)
  {
    SameTruth(a, b);
    assert a.at == b.at;
    hide SameLits, Listed;
    forall c | Large(lits, loose, c)
      ensures Sides(b, k, lits, htps, dhtps, c)
    {
      assert Sides(a, k, lits, htps, dhtps, c);
    }
    forall c | Binary(lits, loose, c)
      ensures Pair(b, k, lits, impls, c)
    {
      assert Pair(a, k, lits, impls, c);
    }
  }

  lemma SameAssume(a: Assignment, b: Assignment, als: seq<Lit>, taken: nat, adecidelevel: nat, maxVar: nat)
    requires a.Indexed() && b.Indexed() && SameLits(a, b) && AssumeOk(a, als, taken, adecidelevel, maxVar)
    ensures AssumeOk(b, als, taken, adecidelevel, maxVar)
  {
    SameTruth(a, b);
  }

  lemma SameQueued(a: Assignment, b: Assignment, solid: nat, ttail: nat, ttail2: nat)
    requires a.Indexed() && b.Indexed() && SameLits(a, b) && Queued(a, solid, ttail, ttail2)
    ensures Queued(b, solid, ttail, ttail2)
  {
    SameTruth(a, b);
  }

  lemma SwapJustified(a: Assignment, hist: map<nat, Clause>, p: nat, id: nat, i: nat, e: Entry)
    requires a.Valid() && p < |a.trail| && a.trail[p].reason != 0 && id != 0 && Swap(a, p, id).Indexed()
    requires Justified(a, hist, e, i)
    ensures Justified(Swap(a, p, id), hist, e, i)
  {
    var b := Swap(a, p, id);
    SwapSame(a, p, id);
    SameTruth(a, b);
    assert forall c, l, level :: HasLevel(a, c, l, level) ==> HasLevel(b, c, l, level);
  }

  lemma SwapTrail(a: Assignment, hist: map<nat, Clause>, lits: map<nat, seq<Lit>>, locked: set<nat>, maxVar: nat, p: nat, id: nat)
    requires TrailOk(a, hist, lits, locked, maxVar) && a.Indexed() && p < |a.trail| && a.trail[p].reason != 0 && id != 0
    requires id in lits && Justified(a, hist, a.trail[p].(reason := id), p)
    ensures TrailOk(Swap(a, p, id), hist, lits, locked - {a.trail[p].reason} + {id}, maxVar)
  {
    var b := Swap(a, p, id);
    SwapSame(a, p, id);
    forall i: nat | i < |b.trail|
      ensures Justified(b, hist, b.trail[i], i)
    {
      SwapJustified(a, hist, p, id, i, b.trail[i]);
    }
    forall i: nat | i < |a.trail| && i != p && a.trail[i].reason != 0
      ensures a.trail[i].reason != a.trail[p].reason
    {
      ReasonsDiffer(a, hist, i, p);
    }
    hide Reasoned, Justified;
    SwapLocked(a, locked, p, id);
  }

  lemma SwapLocked(a: Assignment, locked: set<nat>, p: nat, id: nat)
    requires LockedOk(a, locked) && p < |a.trail| && id != 0
    requires forall i :: 0 <= i < |a.trail| && i != p && a.trail[i].reason != 0 ==> a.trail[i].reason != a.trail[p].reason
    ensures LockedOk(Swap(a, p, id), locked - {a.trail[p].reason} + {id})
  {
    var b := Swap(a, p, id);
    assert b.trail[p].reason == id;
    forall r | r in locked && r != a.trail[p].reason
      ensures IsReason(b, r)
    {
      assert IsReason(a, r);
      var i :| 0 <= i < |a.trail| && a.trail[i].reason == r;
      assert b.trail[i].reason == r;
    }
  }

  lemma DecisionsApart(a: Assignment, i: nat, j: nat)
    requires a.Valid() && i < j < |a.trail| && a.trail[j].reason == 0
    ensures a.trail[i].level < a.trail[j].level
  {
    LevelsRise(a, i, j - 1);
    assert a.trail[j].level == a.LevelBefore(j) + 1;
  }

  /** The first two literals of a new clause fit the watching scheme. */
  ghost predicate Fits(a: Assignment, ls: seq<Lit>)
    requires a.Indexed()
  {
    |ls| >= 2 && ls[0] != ls[1] && SideOk(a, |a.trail|, ls[0], ls[1]) && SideOk(a, |a.trail|, ls[1], ls[0])
  }

  lemma ExplainedLevels(a: Assignment, added: seq<Lit>, x: Lit) returns (o: Lit)
    requires a.Valid() && Explained(a, added, x)
    ensures o in added && o != x && x in added && a.False(o) && a.Level(o.idx) == a.Level(x.idx)
    ensures forall l :: l in added && l != x && l != o ==> l.idx in a.at && a.Level(l.idx) < a.Level(x.idx)
  {
    var j :| 0 < j < |added| && a.False(added[j]) && a.Level(added[j].idx) == a.Level(x.idx);
    o := added[j];
    forall l | l in added && l != x && l != o
      ensures l.idx in a.at && a.Level(l.idx) < a.Level(x.idx)
    {
      var i :| 0 <= i < |added| && added[i] == l;
      assert a.False(l) && a.Reason(l.idx) == 0;
      LevelsRise(a, a.at[l.idx], a.at[x.idx]);
      if a.at[l.idx] < a.at[o.idx] {
        DecisionsApart(a, a.at[l.idx], a.at[o.idx]);
      } else if a.at[l.idx] > a.at[o.idx] {
        DecisionsApart(a, a.at[o.idx], a.at[l.idx]);
      }
    }
  }

  lemma ExplainedFits(a: Assignment, added: seq<Lit>, x: Lit, ls: seq<Lit>)
    requires a.Valid() && Explained(a, added, x) && NoDup(ls) && Elements(ls) == Elements(added) && |ls| == |added|
    requires |ls| != 2 ==> Falling(a, ls)
    ensures Fits(a, ls)
  {
    var o := ExplainedLevels(a, added, x);
    assert x in Elements(ls) && o in Elements(ls);
    var i :| 0 <= i < |ls| && ls[i] == x;
    var j :| 0 <= j < |ls| && ls[j] == o;
    assert ls[0] in Elements(added) && ls[1] in Elements(added);
    assert |ls| != 2 ==> forall k :: 0 <= k < i ==> Rank(a, ls[k]) >= Rank(a, ls[i]);
    assert |ls| != 2 ==> forall k :: 0 <= k < j ==> Rank(a, ls[k]) >= Rank(a, ls[j]);
    assert (ls[0] == x || ls[0] == o) && (ls[1] == x || ls[1] == o);
  }

  lemma ExplainedJustifies(a: Assignment, hist: map<nat, Clause>, added: seq<Lit>, x: Lit, id: nat)
    requires a.Valid() && Explained(a, added, x) && id != 0
    ensures Justified(a, hist[id := Elements(added)], a.trail[a.at[x.idx]].(reason := id), a.at[x.idx])
  {
    var o := ExplainedLevels(a, added, x);
    forall k | k in Elements(added) && k != x
      ensures a.False(k) && a.at[k.idx] < a.at[x.idx]
    {
      var i :| 0 <= i < |added| && added[i] == k;
    }
    assert o in Elements(added) && HasLevel(a, Elements(added), x, a.Level(x.idx));
  }

  /** Attaching a clause that fits. */
  lemma AttachFits(formula: set<Clause>, a: Assignment, hist: map<nat, Clause>, lits: map<nat, seq<Lit>>, loose: set<nat>,
                   impls: Lists, htps: Lists, dhtps: Lists, j: nat, k: nat, id: nat, ls: seq<Lit>, c: Clause, impls': Lists, htps': Lists)
    requires a.Indexed() && Settled(formula, a, hist, lits, loose) && Linked(a, j, k, lits, loose, impls, htps, dhtps)
    requires id !in hist && id !in lits && id !in loose && lits.Keys <= hist.Keys && j <= k <= |a.trail|
    requires Fits(a, ls) && Attached(impls, htps, id, ls, impls', htps')
    ensures Settled(formula, a, hist[id := c], lits[id := ls], loose)
    ensures Linked(a, j, k, lits[id := ls], loose, impls', htps', dhtps)
  {
    hide Settled, Watched, Implied;
    SettledStore(formula, a, hist, lits, loose, id, ls, c);
    if |ls| == 2 {
      WatchedStore(a, j, lits, loose, htps, dhtps, id, ls, loose);
      ImpliedAttach(a, k, lits, loose, impls, id, ls);
    } else {
      ImpliedStore(a, k, lits, loose, impls, id, ls, loose);
      WatchedAttach(a, j, lits, loose, htps, dhtps, id, ls);
    }
  }

  /** With the explaining clause as its reason, x depends on decisions only. */
  lemma ExplainedDirect(a: Assignment, lits: map<nat, seq<Lit>>, added: seq<Lit>, x: Lit, id: nat)
    requires a.Valid() && Explained(a, added, x) && id != 0 && id in lits && (forall l :: l in lits[id] ==> l in added)
    requires a.Reason(x.idx) != 0 && Swap(a, a.at[x.idx], id).Indexed()
    ensures Direct(Swap(a, a.at[x.idx], id), lits, x.idx)
  {
    forall l | l in lits[id] && l.idx != x.idx
      ensures l.idx in a.at && a.Reason(l.idx) == 0
    {
      var i :| 0 <= i < |added| && added[i] == l;
      assert a.False(added[i]);
    }
  }

  lemma SwapLength(a: Assignment, p: nat, id: nat)
    requires p < |a.trail|
    ensures |Swap(a, p, id).trail| == |a.trail|
  {
  }

  lemma SameRefl(a: Assignment)
    ensures SameLits(a, a)
  {
  }

  lemma SameZero(a: Assignment, b: Assignment)
    requires a.Indexed() && b.Indexed() && SameLits(a, b)
    ensures ZeroKept(a, b)
  {
    SameTruth(a, b);
  }
}
