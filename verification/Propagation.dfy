/** The state of unit propagation, and how each step keeps it. */
module Propagation {
  import opened Cnf
  import opened Sequences
  import opened Trail
  import opened Analysis
  import opened Store
  import opened TopLevel
  import opened Watch

  /** Propagation has reached ttail (large clauses) and ttail2 (binary ones); whatever is not settled is on the
      current level. */
  ghost predicate Queued(a: Assignment, solid: nat, ttail: nat, ttail2: nat) {
    && solid <= ttail <= ttail2 <= |a.trail|
    && (forall i :: solid <= i < |a.trail| ==> a.trail[i].level == a.Top())
  }

  ghost predicate UnitsTrue(a: Assignment, lits: map<nat, seq<Lit>>)
    requires a.Indexed()
  {
    forall c :: c in lits ==> lits[c] != [] && (|lits[c]| == 1 ==> a.True(lits[c][0]) && a.Level(lits[c][0].idx) == 0)
  }

  /** r is the original clause o without literals that are false on level 0. */
  ghost predicate Shrunk(a: Assignment, hist: map<nat, Clause>, r: nat, o: nat)
    requires a.Indexed()
  {
    && r in hist && o in hist && o % 2 == 0 && hist[r] <= hist[o]
    && (forall l :: l in hist[o] && l !in hist[r] ==> a.False(l) && a.Level(l.idx) == 0)
  }

  ghost predicate LooseOk(a: Assignment, hist: map<nat, Clause>, lits: map<nat, seq<Lit>>, loose: set<nat>, r: nat)
    requires a.Indexed()
  {
    r in hist && (|hist[r]| <= 1 || ZeroTrue(a, hist[r]) || exists o :: o in lits && o !in loose && Shrunk(a, hist, r, o))
  }

  ghost predicate Settled(formula: set<Clause>, a: Assignment, hist: map<nat, Clause>, lits: map<nat, seq<Lit>>, loose: set<nat>)
    requires a.Indexed()
  {
    && Covered(formula, a, hist, lits) && UnitsTrue(a, lits)
    && (forall r :: r in loose ==> LooseOk(a, hist, lits, loose, r))
  }

  ghost predicate Linked(a: Assignment, j: nat, k: nat, lits: map<nat, seq<Lit>>, loose: set<nat>,
                         impls: Lists, htps: Lists, dhtps: Lists)
    requires a.Indexed()
  {
    Watched(a, j, lits, loose, htps, dhtps) && Implied(a, k, lits, loose, impls)
  }

  ghost predicate ConflictOk(a: Assignment, hist: map<nat, Clause>, lits: map<nat, seq<Lit>>, conflict: nat)
    requires a.Indexed()
  {
    conflict != 0 ==> conflict in lits && conflict in hist && Conflicting(a, hist[conflict])
  }

  lemma TrueStays(a: Assignment, l: Lit, level: nat, reason: nat, k: Lit)
    requires a.Indexed() && a.Undef(l) && a.Push(l, level, reason).Indexed() && a.True(k)
    ensures a.Push(l, level, reason).True(k) && a.Push(l, level, reason).Level(k.idx) == a.Level(k.idx)
  {
  }

  lemma ConflictPush(a: Assignment, hist: map<nat, Clause>, more: map<nat, Clause>, lits: map<nat, seq<Lit>>, lits': map<nat, seq<Lit>>,
                     conflict: nat, l: Lit, reason: nat)
    requires a.Valid() && a.Undef(l) && a.Push(l, a.Top(), reason).Indexed() && ConflictOk(a, hist, lits, conflict)
    requires hist.Keys <= more.Keys && (forall c :: c in hist ==> more[c] == hist[c]) && lits.Keys <= lits'.Keys
    ensures ConflictOk(a.Push(l, a.Top(), reason), more, lits', conflict)
  {
    var b := a.Push(l, a.Top(), reason);
    if conflict != 0 {
      forall k | k in hist[conflict]
        ensures b.False(k) && b.Level(k.idx) == a.Level(k.idx)
      {
        TrueStays(a, l, a.Top(), reason, Neg(k));
      }
      if a.Top() > 0 {
        var k :| k in hist[conflict] && a.False(k) && a.Level(k.idx) == a.Top();
        assert b.False(k);
      }
    }
  }

  lemma ZeroTruePush(a: Assignment, c: Clause, l: Lit, level: nat, reason: nat)
    requires a.Indexed() && a.Undef(l) && a.Push(l, level, reason).Indexed() && ZeroTrue(a, c)
    ensures ZeroTrue(a.Push(l, level, reason), c)
  {
    var k :| k in c && a.True(k) && a.Level(k.idx) == 0;
    TrueStays(a, l, level, reason, k);
  }

  lemma CoveredPush(formula: set<Clause>, a: Assignment, hist: map<nat, Clause>, lits: map<nat, seq<Lit>>, l: Lit, level: nat, reason: nat)
    requires a.Indexed() && a.Undef(l) && a.Push(l, level, reason).Indexed() && Covered(formula, a, hist, lits)
    ensures Covered(formula, a.Push(l, level, reason), hist, lits)
  {
    forall c | c in formula && ZeroTrue(a, c)
      ensures ZeroTrue(a.Push(l, level, reason), c)
    {
      ZeroTruePush(a, c, l, level, reason);
    }
  }

  lemma LoosePush(a: Assignment, hist: map<nat, Clause>, lits: map<nat, seq<Lit>>, loose: set<nat>, r: nat, l: Lit, level: nat, reason: nat)
    requires a.Indexed() && a.Undef(l) && a.Push(l, level, reason).Indexed() && LooseOk(a, hist, lits, loose, r)
    ensures LooseOk(a.Push(l, level, reason), hist, lits, loose, r)
  {
    var b := a.Push(l, level, reason);
    if |hist[r]| > 1 {
      if ZeroTrue(a, hist[r]) {
        ZeroTruePush(a, hist[r], l, level, reason);
      } else {
        var o :| o in lits && o !in loose && Shrunk(a, hist, r, o);
        forall k | k in hist[o] && k !in hist[r]
          ensures b.False(k) && b.Level(k.idx) == 0
        {
          TrueStays(a, l, level, reason, Neg(k));
        }
        assert Shrunk(b, hist, r, o);
      }
    }
  }

  lemma SettledPush(formula: set<Clause>, a: Assignment, hist: map<nat, Clause>, lits: map<nat, seq<Lit>>, loose: set<nat>,
                    l: Lit, level: nat, reason: nat)
    requires a.Indexed() && a.Undef(l) && a.Push(l, level, reason).Indexed() && Settled(formula, a, hist, lits, loose)
    ensures Settled(formula, a.Push(l, level, reason), hist, lits, loose)
  {
    hide Covered, LooseOk;
    CoveredPush(formula, a, hist, lits, l, level, reason);
    forall r | r in loose
      ensures LooseOk(a.Push(l, level, reason), hist, lits, loose, r)
    {
      LoosePush(a, hist, lits, loose, r, l, level, reason);
    }
    forall c | c in lits && |lits[c]| == 1
      ensures a.Push(l, level, reason).True(lits[c][0]) && a.Push(l, level, reason).Level(lits[c][0].idx) == 0
    {
      TrueStays(a, l, level, reason, lits[c][0]);
    }
  }

  /** Storing one more clause, whose own obligations are met. */
  lemma SettledStore(formula: set<Clause>, a: Assignment, hist: map<nat, Clause>, lits: map<nat, seq<Lit>>, loose: set<nat>,
                     id: nat, ls: seq<Lit>, c: Clause)
    requires a.Indexed() && Settled(formula, a, hist, lits, loose) && id !in hist && id !in lits && lits.Keys <= hist.Keys
    requires ls != [] && (|ls| == 1 ==> a.True(ls[0]) && a.Level(ls[0].idx) == 0)
    ensures Settled(formula, a, hist[id := c], lits[id := ls], loose)
  {
    var hist', lits' := hist[id := c], lits[id := ls];
    assert Covered(formula, a, hist', lits') by {
      forall d | d in formula && Kept(hist, lits, d)
        ensures Kept(hist', lits', d)
      {
        var x :| x in lits && x in hist && x % 2 == 0 && hist[x] == d;
        assert x in lits' && x in hist' && hist'[x] == d;
      }
    }
    forall r | r in loose
      ensures LooseOk(a, hist', lits', loose, r)
    {
      assert LooseOk(a, hist, lits, loose, r);
      if o :| o in lits && o !in loose && Shrunk(a, hist, r, o) {
        assert o in lits' && o !in loose && Shrunk(a, hist', r, o);
      }
    }
  }

  lemma LinkedPush(a: Assignment, j: nat, k: nat, lits: map<nat, seq<Lit>>, loose: set<nat>,
                   impls: Lists, htps: Lists, dhtps: Lists, l: Lit, level: nat, reason: nat)
    requires a.Valid() && a.Undef(l) && a.Push(l, level, reason).Indexed() && j <= |a.trail| && k <= |a.trail|
    requires Linked(a, j, k, lits, loose, impls, htps, dhtps)
    ensures Linked(a.Push(l, level, reason), j, k, lits, loose, impls, htps, dhtps)
  {
    hide Watched, Implied;
    WatchedPush(a, j, lits, loose, htps, dhtps, l, level, reason);
    ImpliedPush(a, k, lits, loose, impls, l, level, reason);
  }

  lemma LinkedUnit(a: Assignment, j: nat, k: nat, lits: map<nat, seq<Lit>>, loose: set<nat>,
                   impls: Lists, htps: Lists, dhtps: Lists, id: nat, ls: seq<Lit>)
    requires a.Indexed() && id !in lits && |ls| < 2 && Linked(a, j, k, lits, loose, impls, htps, dhtps)
    ensures Linked(a, j, k, lits[id := ls], loose, impls, htps, dhtps)
  {
    hide Watched, Implied;
    WatchedStore(a, j, lits, loose, htps, dhtps, id, ls, loose);
    ImpliedStore(a, k, lits, loose, impls, id, ls, loose);
  }

  lemma LinkedLess(a: Assignment, i: nat, j: nat, k: nat, lits: map<nat, seq<Lit>>, loose: set<nat>,
                   impls: Lists, htps: Lists, dhtps: Lists)
    requires a.Indexed() && i <= j <= k && Linked(a, j, k, lits, loose, impls, htps, dhtps)
    ensures Linked(a, i, i, lits, loose, impls, htps, dhtps)
  {
    hide Watched, Implied;
    WatchedLess(a, i, j, lits, loose, htps, dhtps);
    ImpliedLess(a, i, k, lits, loose, impls);
  }

  /** A forced assignment, with or without a new unit clause, keeps everything. */
  lemma ForcedKeeps(formula: set<Clause>, a: Assignment, hist: map<nat, Clause>, lits: map<nat, seq<Lit>>, loose: set<nat>,
                    impls: Lists, htps: Lists, dhtps: Lists, j: nat, k: nat, conflict: nat,
                    l: Lit, r: nat, reason: nat, hist': map<nat, Clause>, lits': map<nat, seq<Lit>>)
    requires a.Valid() && a.Undef(l) && a.Push(l, a.Top(), reason).Indexed() && j <= |a.trail| && k <= |a.trail|
    requires Settled(formula, a, hist, lits, loose) && ConflictOk(a, hist, lits, conflict) && lits.Keys <= hist.Keys
    requires Linked(a, j, k, lits, loose, impls, htps, dhtps)
    requires reason == r || (a.Top() == 0 && reason !in hist && reason !in lits)
    requires hist' == (if reason == r then hist else hist[reason := {l}])
    requires lits' == (if reason == r then lits else lits[reason := [l]])
    ensures var b := a.Push(l, a.Top(), reason);
      && Settled(formula, b, hist', lits', loose) && ConflictOk(b, hist', lits', conflict)
      && Linked(b, j, k, lits', loose, impls, htps, dhtps)
  {
    hide Settled, ConflictOk, Linked;
    SettledPush(formula, a, hist, lits, loose, l, a.Top(), reason);
    ConflictPush(a, hist, hist', lits, lits', conflict, l, reason);
    LinkedPush(a, j, k, lits, loose, impls, htps, dhtps, l, a.Top(), reason);
    var b := a.Push(l, a.Top(), reason);
    if reason != r {
      SettledStore(formula, b, hist, lits, loose, reason, [l], {l});
      LinkedUnit(b, j, k, lits, loose, impls, htps, dhtps, reason, [l]);
    }
  }

  lemma QueuedPush(a: Assignment, solid: nat, ttail: nat, ttail2: nat, l: Lit, reason: nat)
    requires Queued(a, solid, ttail, ttail2) && reason != 0
    ensures Queued(a.Push(l, a.Top(), reason), solid, ttail, ttail2) && a.Push(l, a.Top(), reason).Top() == a.Top()
  {
  }

  /** All binary clauses of w, the false literal of position k, have been visited. */
  lemma ImpliedEnd(a: Assignment, k: nat, lits: map<nat, seq<Lit>>, loose: set<nat>, impls: Lists, w: Lit)
    requires a.Indexed() && Implied(a, k, lits, loose, impls) && a.False(w) && a.at[w.idx] == k
    requires forall c :: c in At(impls, w) ==> Seen(a, k + 1, lits, w, c)
    ensures Implied(a, k + 1, lits, loose, impls)
  {
    forall c | Binary(lits, loose, c)
      ensures Pair(a, k + 1, lits, impls, c)
    {
      assert Pair(a, k, lits, impls, c);
      PairEnd(a, k, lits, impls, w, c, lits[c][0], lits[c][1]);
      PairEnd(a, k, lits, impls, w, c, lits[c][1], lits[c][0]);
    }
  }

  lemma PairEnd(a: Assignment, k: nat, lits: map<nat, seq<Lit>>, impls: Lists, w: Lit, c: nat, l: Lit, o: Lit)
    requires a.Indexed() && a.False(w) && a.at[w.idx] == k && SideOk(a, k, l, o)
    requires c in lits && |lits[c]| >= 2 && ((l == lits[c][0] && o == lits[c][1]) || (l == lits[c][1] && o == lits[c][0]))
    requires l == w ==> Seen(a, k + 1, lits, w, c)
    ensures SideOk(a, k + 1, l, o)
  {
    if a.False(l) && a.at[l.idx] == k {
      assert l == w;
    }
  }

  lemma SeenPush(a: Assignment, k: nat, lits: map<nat, seq<Lit>>, lits': map<nat, seq<Lit>>, w: Lit, c: nat, l: Lit, level: nat, reason: nat)
    requires a.Valid() && a.Undef(l) && k <= |a.trail| && a.Push(l, level, reason).Indexed()
    requires Seen(a, k, lits, w, c) && c in lits' && lits'[c] == lits[c]
    ensures Seen(a.Push(l, level, reason), k, lits', w, c)
  {
    SidePush(a, k, map[], map[], c, w, Partner(lits, c, w), l, level, reason);
  }

  /** What holds of a clause met while visiting the binary clauses of w. */
  lemma BinaryMet(a: Assignment, hist: map<nat, Clause>, k: nat, lits: map<nat, seq<Lit>>, loose: set<nat>, impls: Lists, w: Lit, c: nat)
    requires a.Valid() && Arranged(hist, lits) && Implied(a, k, lits, loose, impls) && c in At(impls, w)
    requires a.False(w) && a.Level(w.idx) == a.Top()
    ensures c in lits && c in hist && |lits[c]| == 2 && Partner(lits, c, w) in hist[c]
    ensures var o := Partner(lits, c, w);
      && (a.True(o) ==> a.Level(o.idx) <= a.Top() && Seen(a, a.at[w.idx] + 1, lits, w, c))
      && (a.False(o) ==> Conflicting(a, hist[c]))
      && (a.Undef(o) ==> FalseBefore(a, hist[c], o, |a.trail|) && HasLevel(a, hist[c], o, a.Top()))
  {
    assert Binary(lits, loose, c) && w in lits[c];
    var o := Partner(lits, c, w);
    assert lits[c] == [lits[c][0], lits[c][1]];
    assert w in Elements(lits[c]) && o in Elements(lits[c]);
    assert forall l :: l in hist[c] ==> l == w || l == o;
    if a.True(o) { LevelsBelowTop(a, o.idx); }
    assert w in hist[c] && a.Level(w.idx) == a.Top();
    if a.Undef(o) {
      assert w != o && a.False(w);
    }
  }

  ghost predicate SeenStays(a: Assignment, b: Assignment, k: nat, lits: map<nat, seq<Lit>>, lits': map<nat, seq<Lit>>, w: Lit)
    requires a.Indexed() && b.Indexed()
  {
    forall c :: Seen(a, k, lits, w, c) ==> Seen(b, k, lits', w, c)
  }

  /** Reordering the literals of a large clause. */
  lemma SettledReorder(formula: set<Clause>, a: Assignment, hist: map<nat, Clause>, lits: map<nat, seq<Lit>>, loose: set<nat>, c: nat, ls: seq<Lit>)
    requires a.Indexed() && Settled(formula, a, hist, lits, loose) && c in lits && |ls| >= 3
    ensures Settled(formula, a, hist, lits[c := ls], loose)
  {
    var lits' := lits[c := ls];
    assert lits'.Keys == lits.Keys;
    assert Covered(formula, a, hist, lits') by {
      forall d | d in formula && Kept(hist, lits, d)
        ensures Kept(hist, lits', d)
      {
        var x :| x in lits && x in hist && x % 2 == 0 && hist[x] == d;
        assert x in lits';
      }
    }
    forall r | r in loose
      ensures LooseOk(a, hist, lits', loose, r)
    {
      assert LooseOk(a, hist, lits, loose, r);
      if o :| o in lits && o !in loose && Shrunk(a, hist, r, o) {
        assert o in lits' && o !in loose && Shrunk(a, hist, r, o);
      }
    }
  }

  lemma ImpliedReorder(a: Assignment, k: nat, lits: map<nat, seq<Lit>>, loose: set<nat>, impls: Lists, c: nat, ls: seq<Lit>)
    requires a.Indexed() && Implied(a, k, lits, loose, impls) && c in lits && |lits[c]| >= 3 && |ls| >= 3
    ensures Implied(a, k, lits[c := ls], loose, impls)
  {
    var lits' := lits[c := ls];
    forall l, d | d in At(impls, l)
      ensures Binary(lits', loose, d) && l in lits'[d]
    {
      assert Binary(lits, loose, d);
    }
    forall d | Binary(lits', loose, d)
      ensures Pair(a, k, lits', impls, d)
    {
      assert Binary(lits, loose, d) && Pair(a, k, lits, impls, d);
    }
  }

  /** A true literal on an earlier level comes earlier on the trail. */
  lemma EarlierLevel(a: Assignment, w: Lit, o: Lit)
    requires a.Valid() && a.False(w) && a.True(o) && a.Level(w.idx) == a.Top()
    ensures a.Level(o.idx) <= a.Top()
    ensures a.Level(o.idx) == 0 || a.Level(o.idx) < a.Top() ==> Parked(a, w, o)
  {
    LevelsBelowTop(a, o.idx);
    if a.at[o.idx] >= a.at[w.idx] {
      LevelsRise(a, a.at[w.idx], a.at[o.idx]);
    }
  }

  /** A large clause whose literals after the first two are all false. */
  lemma LargeMet(a: Assignment, hist: map<nat, Clause>, lits: map<nat, seq<Lit>>, c: nat, w: Lit, o: Lit)
    requires a.Valid() && Arranged(hist, lits) && c in lits && |lits[c]| >= 3 && lits[c][0] == w && lits[c][1] == o
    requires a.False(w) && a.Level(w.idx) == a.Top()
    requires forall j :: 2 <= j < |lits[c]| ==> a.False(lits[c][j])
    ensures c in hist && o in hist[c] && o != w
    ensures a.False(o) ==> Conflicting(a, hist[c])
    ensures a.Undef(o) ==> FalseBefore(a, hist[c], o, |a.trail|) && HasLevel(a, hist[c], o, a.Top())
  {
    assert hist[c] == Elements(lits[c]);
    assert lits[c][0] in Elements(lits[c]) && lits[c][1] in Elements(lits[c]);
    assert forall l :: l in hist[c] ==> l == o || a.False(l);
    assert w in hist[c] && a.False(w) && a.Level(w.idx) == a.Top();
  }

  /** After complete propagation no stored clause is false or unit, as if every one had been scanned. */
  lemma Scan(formula: set<Clause>, a: Assignment, hist: map<nat, Clause>, lits: map<nat, seq<Lit>>, loose: set<nat>,
             impls: Lists, htps: Lists, dhtps: Lists, c: nat)
    requires a.Valid() && Arranged(hist, lits) && Settled(formula, a, hist, lits, loose)
    requires Linked(a, |a.trail|, |a.trail|, lits, loose, impls, htps, dhtps) && c in lits
    ensures Quiet(a, lits[c])
  {
    hide Watched, Implied, Quiet;
    if |lits[c]| == 1 {
      ScanUnit(a, lits, c);
    } else if c !in loose {
      ScanAttached(a, hist, lits, loose, impls, htps, dhtps, c);
    } else {
      assert LooseOk(a, hist, lits, loose, c);
      if ZeroTrue(a, hist[c]) {
        var l :| l in hist[c] && a.True(l) && a.Level(l.idx) == 0;
        ScanTrue(a, lits[c], l);
      } else if |lits[c]| > 1 {
        CardOfSeq(lits[c]);
        var o :| o in lits && o !in loose && Shrunk(a, hist, c, o);
        if |lits[o]| == 1 {
          ScanUnit(a, lits, o);
        } else {
          ScanAttached(a, hist, lits, loose, impls, htps, dhtps, o);
        }
        ScanShrunk(a, hist, lits, c, o);
      }
    }
  }

  lemma CardOfSeq(s: seq<Lit>)
    requires |s| > 1 && NoDup(s)
    ensures |Elements(s)| > 1
  {
    assert s[0] != s[1] && {s[0], s[1]} <= Elements(s);
    assert |{s[0], s[1]}| == 2;
    SubsetCard({s[0], s[1]}, Elements(s));
  }

  lemma ScanTrue(a: Assignment, c: seq<Lit>, l: Lit)
    requires l in c && a.True(l)
    ensures Quiet(a, c)
  {
  }

  lemma ScanUnit(a: Assignment, lits: map<nat, seq<Lit>>, c: nat)
    requires a.Indexed() && UnitsTrue(a, lits) && c in lits && |lits[c]| == 1
    ensures Quiet(a, lits[c])
  {
    assert lits[c][0] in lits[c];
  }

  lemma ScanAttached(a: Assignment, hist: map<nat, Clause>, lits: map<nat, seq<Lit>>, loose: set<nat>,
                     impls: Lists, htps: Lists, dhtps: Lists, c: nat)
    requires a.Indexed() && Arranged(hist, lits) && c in lits && c !in loose && |lits[c]| >= 2
    requires Linked(a, |a.trail|, |a.trail|, lits, loose, impls, htps, dhtps)
    ensures Quiet(a, lits[c])
  {
    hide Watched, Implied;
    if |lits[c]| == 2 {
      ScanBinary(a, lits, loose, impls, c);
    } else {
      ScanLarge(a, lits, loose, htps, dhtps, c);
    }
  }

  lemma ScanShrunk(a: Assignment, hist: map<nat, Clause>, lits: map<nat, seq<Lit>>, r: nat, o: nat)
    requires a.Indexed() && Arranged(hist, lits) && r in lits && o in lits && Shrunk(a, hist, r, o) && Quiet(a, lits[o])
    ensures Quiet(a, lits[r])
  {
    assert forall l :: l in lits[o] ==> l in hist[o];
    assert forall l :: l in hist[r] ==> l in lits[r];
  }

  /** Some literal of the clause is true for good. */
  predicate TopSatisfied(a: Assignment, c: seq<Lit>)
    requires a.Indexed()
  {
    exists l :: l in c && a.True(l) && a.Level(l.idx) == 0
  }

  lemma TopSatisfiedIs(a: Assignment, hist: map<nat, Clause>, lits: map<nat, seq<Lit>>, c: nat)
    requires a.Indexed() && Arranged(hist, lits) && c in lits && TopSatisfied(a, lits[c])
    ensures Disposable(a, hist, c)
  {
    var l :| l in lits[c] && a.True(l) && a.Level(l.idx) == 0;
    assert l in Elements(lits[c]);
  }

  /** Of the clauses that are neither locked nor doomed, none is true for good. */
  ghost predicate Cleaned(a: Assignment, lits: map<nat, seq<Lit>>, locked: set<nat>, doomed: set<nat>)
    requires a.Indexed()
  {
    forall c :: c in lits && c !in locked && c !in doomed ==> !TopSatisfied(a, lits[c])
  }

  lemma CleanedCollect(a: Assignment, lits: map<nat, seq<Lit>>, locked: set<nat>, doomed: set<nat>)
    requires a.Indexed() && Cleaned(a, lits, locked, doomed)
    ensures Cleaned(a, lits - doomed, locked, {})
  {
    hide TopSatisfied;
  }

  /** Clauses that may be collected: learned ones, and any that are true for good. */
  ghost predicate Disposable(a: Assignment, hist: map<nat, Clause>, c: nat)
    requires a.Indexed()
  {
    c in hist && (ZeroTrue(a, hist[c]) || c % 2 == 1)
  }

  lemma SettledCollect(formula: set<Clause>, a: Assignment, hist: map<nat, Clause>, lits: map<nat, seq<Lit>>, loose: set<nat>, doomed: set<nat>)
    requires a.Indexed() && Settled(formula, a, hist, lits, loose)
    requires forall c :: c in doomed ==> Disposable(a, hist, c)
    ensures Settled(formula, a, hist, lits - doomed, loose - doomed)
  {
    hide ZeroTrue;
    forall d | d in formula && Kept(hist, lits, d) && !ZeroTrue(a, d)
      ensures Kept(hist, lits - doomed, d)
    {
      var x :| x in lits && x in hist && x % 2 == 0 && hist[x] == d;
      assert x in lits - doomed;
    }
    forall r | r in loose - doomed
      ensures LooseOk(a, hist, lits - doomed, loose - doomed, r)
    {
      assert LooseOk(a, hist, lits, loose, r);
      if |hist[r]| > 1 && !ZeroTrue(a, hist[r]) {
        var o :| o in lits && o !in loose && Shrunk(a, hist, r, o);
        if o in doomed {
          ShrunkTrue(a, hist, r, o);
        }
        assert o in lits - doomed && o !in loose - doomed && Shrunk(a, hist, r, o);
      }
    }
  }

  lemma ShrunkTrue(a: Assignment, hist: map<nat, Clause>, r: nat, o: nat)
    requires a.Indexed() && Shrunk(a, hist, r, o) && ZeroTrue(a, hist[o])
    ensures ZeroTrue(a, hist[r])
  {
  }

  lemma LinkedCollect(a: Assignment, k: nat, lits: map<nat, seq<Lit>>, loose: set<nat>, impls: Lists, htps: Lists, dhtps: Lists, doomed: set<nat>)
    requires a.Indexed() && Linked(a, k, k, lits, loose, impls, htps, dhtps)
    ensures Linked(a, k, k, lits - doomed, loose - doomed, Unlink(impls, doomed), Unlink(htps, doomed), Unlink(dhtps, doomed))
  {
    hide Watched, Implied;
    WatchedCollect(a, k, lits, loose, htps, dhtps, doomed);
    ImpliedCollect(a, k, lits, loose, impls, doomed);
  }

  lemma StillSeen(a: Assignment, b: Assignment, k: nat, lits: map<nat, seq<Lit>>, lits': map<nat, seq<Lit>>, w: Lit)
    requires a.Indexed() && b.Indexed() && SeenStays(a, b, k, lits, lits', w)
    ensures forall c :: Seen(a, k, lits, w, c) ==> Seen(b, k, lits', w, c)
  {
  }

  lemma NoConflict(a: Assignment, hist: map<nat, Clause>, lits: map<nat, seq<Lit>>)
    requires a.Indexed()
    ensures ConflictOk(a, hist, lits, 0)
  {
  }

  lemma QueuedFacts(a: Assignment, solid: nat, ttail: nat, ttail2: nat)
    requires Queued(a, solid, ttail, ttail2)
    ensures solid <= ttail <= ttail2 <= |a.trail|
    ensures forall i :: solid <= i < |a.trail| ==> a.trail[i].level == a.Top()
  {
  }

  lemma SeenAll(a: Assignment, k: nat, lits: map<nat, seq<Lit>>, lits': map<nat, seq<Lit>>, w: Lit,
                l: Lit, level: nat, reason: nat)
    requires a.Valid() && a.Undef(l) && k <= |a.trail| && a.Push(l, level, reason).Indexed()
    requires forall c :: c in lits ==> c in lits' && lits'[c] == lits[c]
    ensures SeenStays(a, a.Push(l, level, reason), k, lits, lits', w)
  {
    forall c | Seen(a, k, lits, w, c)
      ensures Seen(a.Push(l, level, reason), k, lits', w, c)
    {
      SeenPush(a, k, lits, lits', w, c, l, level, reason);
    }
  }

  lemma QueuedDecision(a: Assignment, l: Lit)
    ensures Queued(a.Push(l, a.Top() + 1, 0), |a.trail|, |a.trail|, |a.trail|)
  {
  }

  lemma CleanedStart(a: Assignment, lits: map<nat, seq<Lit>>, locked: set<nat>)
    requires a.Indexed()
    ensures Cleaned(a, lits, locked, {} + lits.Keys)
  {
  }

  lemma CleanedStep(a: Assignment, lits: map<nat, seq<Lit>>, locked: set<nat>, doomed: set<nat>, rest: set<nat>, c: nat)
    requires a.Indexed() && c in lits
    ensures Cleaned(a, lits, locked, doomed + (rest + {c})) ==> Cleaned(a, lits, locked, (doomed + {c}) + rest)
    ensures Cleaned(a, lits, locked, doomed + (rest + {c})) && (c in locked || !TopSatisfied(a, lits[c])) ==> Cleaned(a, lits, locked, doomed + rest)
  {
  }

  lemma LearnedIsDisposable(a: Assignment, hist: map<nat, Clause>, c: nat)
    requires a.Indexed() && c in hist && c % 2 == 1
    ensures Disposable(a, hist, c)
  {
  }

  lemma QueuedKeeps(a: Assignment, b: Assignment, solid: nat, ttail: nat, ttail2: nat, r: nat, rest: seq<Lit>)
    requires a.Valid() && a.Top() == 0 && Queued(a, solid, ttail, ttail2) && r != 0
    requires b == (if |rest| == 1 then a.Push(rest[0], 0, r) else a)
    ensures Queued(b, solid, ttail, ttail2) && ttail <= ttail2 <= |a.trail|
  {
    if |rest| == 1 {
      QueuedPush(a, solid, ttail, ttail2, rest[0], r);
    }
  }

  lemma ConflictElim(a: Assignment, hist: map<nat, Clause>, lits: map<nat, seq<Lit>>, conflict: nat)
    requires a.Indexed() && ConflictOk(a, hist, lits, conflict) && conflict != 0
    ensures conflict in lits && conflict in hist && Conflicting(a, hist[conflict])
  {
  }
}
