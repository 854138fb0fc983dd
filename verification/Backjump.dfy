/** From the learned clause to the forced assignment after the backjump. */
module Backjump {
  import opened Cnf
  import opened Sequences
  import opened Trail
  import opened Analysis
  import opened Learning
  import opened Store
  import opened TopLevel
  import opened Ordering
  import opened Watch
  import opened Propagation
  import opened Undoing

  /** The level to return to: the highest one of the clause below the current level. */
  method Drive(a: Assignment, added: seq<Lit>) returns (level: nat)
    requires a.Valid() && forall l :: l in added ==> l.idx in a.at
    ensures level < a.Top() || (level == 0 && a.Top() == 0)
    ensures forall l :: l in added && a.Level(l.idx) < a.Top() ==> a.Level(l.idx) <= level
    ensures level > 0 ==> exists l :: l in added && a.Level(l.idx) == level
  {
    level := 0;
    for p := 0 to |added|
      invariant level < a.Top() || (level == 0 && a.Top() == 0)
      invariant forall q :: 0 <= q < p && a.Level(added[q].idx) < a.Top() ==> a.Level(added[q].idx) <= level
      invariant level > 0 ==> exists l :: l in added && a.Level(l.idx) == level
    {
      assert added[p] in added;
      var vlevel := a.Level(added[p].idx);
      if vlevel < a.Top() && vlevel > level {
        level := vlevel;
      }
    }
  }

  /** The clause has one unassigned literal, its first; the others are false, one of them on the given level,
      which is the current one. */
  ghost predicate Asserting(a: Assignment, added: seq<Lit>, level: nat)
    requires a.Indexed()
  {
    && added != [] && NoDup(added) && a.Undef(added[0]) && a.Top() == level
    && (forall i :: 0 < i < |added| ==> a.False(added[i]) && 0 < a.Level(added[i].idx) <= level)
    && (level > 0 ==> exists i :: 0 < i < |added| && a.False(added[i]) && a.Level(added[i].idx) == level)
  }

  /** Undoing to the level that Drive returns makes the learned clause unit. */
  lemma BecomesUnit(a: Assignment, b: Assignment, added: seq<Lit>, level: nat, n: nat)
    requires a.Valid() && b.Valid() && Learned(a, added) && a.Top() > 0
    requires level < a.Top() && IsCut(a, level, n) && b.trail == a.trail[..n] && b.Top() == level
    requires forall l :: l in added && l.idx in a.at && a.Level(l.idx) < a.Top() ==> a.Level(l.idx) <= level
    requires level > 0 ==> exists l :: l in added && l.idx in a.at && a.Level(l.idx) == level
    ensures Asserting(b, added, level)
  {
    forall v | v in a.at
      ensures if a.at[v] < n then v in b.at && b.at[v] == a.at[v] && b.trail[b.at[v]] == a.trail[a.at[v]] else v !in b.at
    {
      if a.at[v] < n {
        assert b.trail[a.at[v]].lit.idx == v;
      }
    }
    forall i | 0 < i < |added|
      ensures b.False(added[i]) && 0 < b.Level(added[i].idx) <= level && b.Level(added[i].idx) == a.Level(added[i].idx)
    {
      assert added[i] in added && a.False(added[i]);
    }
    if level > 0 {
      var l :| l in added && l.idx in a.at && a.Level(l.idx) == level;
      var i :| 0 <= i < |added| && added[i] == l;
      assert i > 0;
    }
  }

  /** The first two literals are x and one that is false on the given level, in some order. */
  ghost predicate WatchPair(a: Assignment, x: Lit, ls: seq<Lit>, level: nat)
    requires a.Indexed() && |ls| >= 2
  {
    exists o :: o != x && a.False(o) && a.Level(o.idx) == level && ((ls[0] == x && ls[1] == o) || (ls[1] == x && ls[0] == o))
  }

  /** Where sorting puts the literals of an asserting clause. */
  lemma AssertingOrder(a: Assignment, added: seq<Lit>, level: nat, ls: seq<Lit>)
    requires a.Valid() && Asserting(a, added, level) && NoDup(ls) && Elements(ls) == Elements(added) && |ls| == |added|
    requires |ls| != 2 ==> Falling(a, ls)
    ensures |ls| == 1 <==> level == 0
    ensures |ls| >= 2 ==> WatchPair(a, added[0], ls, level)
  {
    assert added[0] in Elements(added) && ls[0] in Elements(ls);
    if |ls| >= 2 {
      assert level > 0 by {
        assert a.False(added[1]);
      }
      var j :| 0 < j < |added| && a.False(added[j]) && a.Level(added[j].idx) == level;
      assert added[j] in Elements(ls) && ls[1] in Elements(added);
      forall l | l in ls && l != added[0]
        ensures a.False(l) && a.Level(l.idx) <= level
      {
        assert l in Elements(added);
        var i :| 0 <= i < |added| && added[i] == l;
      }
      if |ls| == 2 {
        assert ls == [ls[0], ls[1]];
        var o := if ls[0] == added[0] then ls[1] else ls[0];
        assert o in ls && o == added[j];
      } else {
        TopTwo(a, ls, added[0], added[j], level);
      }
    }
  }

  lemma TopTwo(a: Assignment, ls: seq<Lit>, x: Lit, y: Lit, level: nat)
    requires a.Indexed() && a.Top() == level && Falling(a, ls) && NoDup(ls) && |ls| >= 3
    requires x in ls && a.Undef(x) && y in ls && y != x && a.False(y) && a.Level(y.idx) == level
    requires forall l :: l in ls && l != x ==> a.False(l) && a.Level(l.idx) <= level
    ensures ls[0] == x && a.False(ls[1]) && a.Level(ls[1].idx) == level && ls[1] != x
  {
    var i :| 0 <= i < |ls| && ls[i] == x;
    var j :| 0 <= j < |ls| && ls[j] == y;
    assert ls[0] in ls && ls[1] in ls;
    assert Rank(a, ls[0]) >= Rank(a, ls[i]);
    assert Rank(a, ls[1]) >= Rank(a, ls[j]) || j == 0;
  }

  /** The three steps of learning an asserting clause, stored under id: its first literal is assigned, it is linked. */
  lemma LearnLarge(formula: set<Clause>, a: Assignment, hist: map<nat, Clause>, lits: map<nat, seq<Lit>>, loose: set<nat>,
                   impls: Lists, htps: Lists, dhtps: Lists, x: Lit, id: nat, ls: seq<Lit>, c: Clause)
    requires a.Valid() && a.Undef(x) && id != 0 && a.Push(x, a.Top(), id).Indexed() && a.Push(x, a.Top(), id).Valid()
    requires Settled(formula, a, hist, lits, loose) && Linked(a, |a.trail|, |a.trail|, lits, loose, impls, htps, dhtps)
    requires id !in hist && id !in lits && id !in loose && lits.Keys <= hist.Keys
    requires |ls| >= 2 && WatchPair(a, x, ls, a.Top())
    ensures var b := a.Push(x, a.Top(), id);
      && Settled(formula, b, hist[id := c], lits[id := ls], loose)
      && (|ls| == 2 ==> Linked(b, |a.trail|, |a.trail|, lits[id := ls], loose, Prepend(Prepend(impls, ls[0], id), ls[1], id), htps, dhtps))
      && (|ls| > 2 ==> Linked(b, |a.trail|, |a.trail|, lits[id := ls], loose, impls, Prepend(Prepend(htps, ls[0], id), ls[1], id), dhtps))
  {
    hide Settled, Watched, Implied;
    var b := a.Push(x, a.Top(), id);
    var k := |a.trail|;
    SettledPush(formula, a, hist, lits, loose, x, a.Top(), id);
    SettledStore(formula, b, hist, lits, loose, id, ls, c);
    LinkedPush(a, k, k, lits, loose, impls, htps, dhtps, x, a.Top(), id);
    PairOk(a, b, x, ls, k, id);
    if |ls| == 2 {
      WatchedStore(b, k, lits, loose, htps, dhtps, id, ls, loose);
      ImpliedAttach(b, k, lits, loose, impls, id, ls);
    } else {
      ImpliedStore(b, k, lits, loose, impls, id, ls, loose);
      WatchedAttach(b, k, lits, loose, htps, dhtps, id, ls);
    }
  }

  lemma PairOk(a: Assignment, b: Assignment, x: Lit, ls: seq<Lit>, k: nat, id: nat)
    requires a.Valid() && a.Undef(x) && b == a.Push(x, a.Top(), id) && b.Valid() && |ls| >= 2 && WatchPair(a, x, ls, a.Top())
    ensures ls[0] != ls[1] && SideOk(b, k, ls[0], ls[1]) && SideOk(b, k, ls[1], ls[0])
  {
    var o :| o != x && a.False(o) && a.Level(o.idx) == a.Top() && ((ls[0] == x && ls[1] == o) || (ls[1] == x && ls[0] == o));
    TrueStays(a, x, a.Top(), id, Neg(o));
    assert b.True(x) && b.Level(x.idx) == a.Top();
  }

  lemma LearnUnit(formula: set<Clause>, a: Assignment, hist: map<nat, Clause>, lits: map<nat, seq<Lit>>, loose: set<nat>,
                  impls: Lists, htps: Lists, dhtps: Lists, x: Lit, id: nat, ls: seq<Lit>, c: Clause)
    requires a.Valid() && a.Undef(x) && a.Push(x, 0, id).Indexed() && a.Top() == 0
    requires Settled(formula, a, hist, lits, loose) && Linked(a, |a.trail|, |a.trail|, lits, loose, impls, htps, dhtps)
    requires id !in hist && id !in lits && lits.Keys <= hist.Keys && ls == [x]
    ensures var b := a.Push(x, 0, id);
      && Settled(formula, b, hist[id := c], lits[id := ls], loose)
      && Linked(b, |a.trail|, |a.trail|, lits[id := ls], loose, impls, htps, dhtps)
  {
    hide Settled, Linked;
    SettledPush(formula, a, hist, lits, loose, x, 0, id);
    SettledStore(formula, a.Push(x, 0, id), hist, lits, loose, id, ls, c);
    LinkedPush(a, |a.trail|, |a.trail|, lits, loose, impls, htps, dhtps, x, 0, id);
    LinkedUnit(a.Push(x, 0, id), |a.trail|, |a.trail|, lits, loose, impls, htps, dhtps, id, ls);
  }

  /** A clause of two or more literals was put on the lists of its first two. */
  ghost predicate Attached(impls: Lists, htps: Lists, id: nat, ls: seq<Lit>, impls': Lists, htps': Lists) {
    && (|ls| != 2 ==> impls' == impls) && (|ls| <= 2 ==> htps' == htps)
    && (|ls| == 2 ==> impls' == Prepend(Prepend(impls, ls[0], id), ls[1], id))
    && (|ls| > 2 ==> htps' == Prepend(Prepend(htps, ls[0], id), ls[1], id))
  }

  /** Everything is in order once x is assigned with reason id. */
  ghost predicate Pushed(formula: set<Clause>, a: Assignment, hist: map<nat, Clause>, lits: map<nat, seq<Lit>>, loose: set<nat>,
                         impls: Lists, htps: Lists, dhtps: Lists, x: Lit, id: nat) {
    var b := a.Push(x, a.Top(), id);
    b.Indexed() && Settled(formula, b, hist, lits, loose) && Linked(b, |a.trail|, |a.trail|, lits, loose, impls, htps, dhtps)
  }

  lemma PushedElim(formula: set<Clause>, a: Assignment, hist: map<nat, Clause>, lits: map<nat, seq<Lit>>, loose: set<nat>,
                   impls: Lists, htps: Lists, dhtps: Lists, x: Lit, id: nat)
    requires Pushed(formula, a, hist, lits, loose, impls, htps, dhtps, x, id)
    ensures var b := a.Push(x, a.Top(), id);
      b.Indexed() && Settled(formula, b, hist, lits, loose) && Linked(b, |a.trail|, |a.trail|, lits, loose, impls, htps, dhtps)
  {
  }

  lemma LearnLinked(formula: set<Clause>, a: Assignment, hist: map<nat, Clause>, lits: map<nat, seq<Lit>>, loose: set<nat>,
                    impls: Lists, htps: Lists, dhtps: Lists, x: Lit, id: nat, ls: seq<Lit>, c: Clause, impls': Lists, htps': Lists)
    requires a.Valid() && a.Undef(x) && id != 0
    requires Settled(formula, a, hist, lits, loose) && Linked(a, |a.trail|, |a.trail|, lits, loose, impls, htps, dhtps)
    requires id !in hist && id !in lits && id !in loose && lits.Keys <= hist.Keys
    requires |ls| >= 1 && (|ls| == 1 <==> a.Top() == 0) && (|ls| == 1 ==> ls == [x]) && (|ls| >= 2 ==> WatchPair(a, x, ls, a.Top()))
    requires Attached(impls, htps, id, ls, impls', htps')
    ensures Pushed(formula, a, hist[id := c], lits[id := ls], loose, impls', htps', dhtps, x, id)
  {
    hide Settled, Linked, WatchPair;
    PushValid(a, x, a.Top(), id);
    if |ls| == 1 {
      LearnUnit(formula, a, hist, lits, loose, impls, htps, dhtps, x, id, ls, c);
    } else {
      LearnLarge(formula, a, hist, lits, loose, impls, htps, dhtps, x, id, ls, c);
    }
  }

  /** The learned clause justifies its first literal. */
  lemma AssertingJustified(a: Assignment, hist: map<nat, Clause>, added: seq<Lit>, level: nat, id: nat)
    requires a.Valid() && Asserting(a, added, level) && id != 0
    ensures Justified(a, hist[id := Elements(added)], Entry(added[0], level, id), |a.trail|)
  {
    var c := Elements(added);
    assert |added| >= 2 ==> level > 0 by {
      if |added| >= 2 { assert a.False(added[1]); }
    }
    forall k | k in c && k != added[0]
      ensures a.False(k) && a.at[k.idx] < |a.trail|
    {
      var i :| 0 <= i < |added| && added[i] == k;
    }
    if level == 0 {
      assert added == [added[0]];
      assert c == {added[0]};
    } else {
      var i :| 0 < i < |added| && a.False(added[i]) && a.Level(added[i].idx) == level;
      assert added[i] in c && added[i] != added[0];
    }
  }

  lemma AssertingFacts(a: Assignment, added: seq<Lit>, level: nat)
    requires a.Indexed() && Asserting(a, added, level)
    ensures added != [] && NoDup(added) && a.Undef(added[0])
  {
  }
}
