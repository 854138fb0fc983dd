/** Adding a clause of the user's: triviality, attachment, and what remains of it on level 0. */
module Adding {
  import opened Cnf
  import opened Sequences
  import opened Trail
  import opened Analysis
  import opened Store
  import opened TopLevel
  import opened Ordering
  import opened Watch
  import opened Propagation
  import opened Undoing
  import opened Backjump
  import opened Rejustify

  /** The position of a literal in the literal array. */
  function Code(l: Lit): nat {
    2 * l.idx + (if l.neg then 1 else 0)
  }

  ghost predicate Ascending(ls: seq<Lit>) {
    forall i, j :: 0 <= i < j < |ls| ==> Code(ls[i]) <= Code(ls[j])
  }

  lemma InsertAscends(r: seq<Lit>, k: nat, l: Lit)
    requires k <= |r| && Ascending(r)
    requires forall i :: 0 <= i < k ==> Code(r[i]) <= Code(l)
    requires k < |r| ==> Code(l) <= Code(r[k])
    ensures Ascending(Insert(r, k, l)) && Elements(Insert(r, k, l)) == Elements(r) + {l}
  {
    var s := Insert(r, k, l);
    assert forall i :: 0 <= i < |s| ==> s[i] == if i < k then r[i] else if i == k then l else r[i-1];
    assert r == r[..k] + r[k..];
    hide Code;
  }

  /** Insertion sort again stands for the sorting macro. */
  method SortByCode(ls: seq<Lit>) returns (r: seq<Lit>)
    ensures Ascending(r) && Elements(r) == Elements(ls)
  {
    r := [];
    for n := 0 to |ls|
      invariant Ascending(r) && Elements(r) == Elements(ls[..n])
    {
      var k := 0;
      while k < |r| && Code(r[k]) <= Code(ls[n])
        invariant k <= |r| && forall i :: 0 <= i < k ==> Code(r[i]) <= Code(ls[n])
      {
        k := k + 1;
      }
      InsertAscends(r, k, ls[n]);
      r := Insert(r, k, ls[n]);
      assert ls[..n+1] == ls[..n] + [ls[n]];
    }
    assert ls[..|ls|] == ls;
  }

  /** Literals kept so far: rising, the last one no higher than what comes next. */
  ghost predicate Deduped(a: Assignment, q: seq<Lit>, done: seq<Lit>)
    requires a.Indexed()
  {
    && (forall i, j :: 0 <= i < j < |q| ==> Code(q[i]) < Code(q[j]))
    && Elements(q) == Elements(done)
    && (forall l :: l in q ==> !(a.True(l) && a.Level(l.idx) == 0) && Neg(l) !in q)
  }

  lemma NotTrivial(a: Assignment, q: seq<Lit>, s: seq<Lit>)
    requires a.Indexed() && Deduped(a, q, s)
    ensures NoDup(q) && Elements(q) == Elements(s) && !Tautology(Elements(s)) && !ZeroTrue(a, Elements(s))
  {
    assert forall l :: l in Elements(s) ==> l in q;
  }

  /** A literal or its negation, if kept before, was kept last. */
  lemma LastKept(a: Assignment, q: seq<Lit>, s: seq<Lit>, p: nat)
    requires a.Indexed() && p < |s| && Ascending(s) && Deduped(a, q, s[..p])
    ensures s[p] in q ==> q[|q|-1] == s[p]
    ensures Neg(s[p]) in q ==> q[|q|-1] == Neg(s[p]) || q[|q|-1] == s[p]
    ensures forall l :: l in q ==> Code(l) <= Code(s[p])
  {
    forall l | l in q
      ensures Code(l) <= Code(s[p])
    {
      assert l in Elements(s[..p]);
      var i :| 0 <= i < p && s[i] == l;
    }
    if q != [] {
      assert q[|q|-1] in q;
    }
  }

  /** One more literal: kept already, to be kept, or dual to the one kept last. */
  lemma KeepStep(a: Assignment, q: seq<Lit>, s: seq<Lit>, p: nat)
    requires a.Indexed() && p < |s| && Ascending(s) && Deduped(a, q, s[..p])
    ensures q != [] && q[|q|-1] == s[p] ==> Deduped(a, q, s[..p+1])
    ensures q != [] && q[|q|-1] == Neg(s[p]) ==> Tautology(Elements(s))
    ensures q == [] || (q[|q|-1] != s[p] && q[|q|-1] != Neg(s[p])) ==>
      (a.True(s[p]) && a.Level(s[p].idx) == 0) || Deduped(a, q + [s[p]], s[..p+1])
  {
    LastKept(a, q, s, p);
    assert s[..p+1] == s[..p] + [s[p]];
    if q != [] && q[|q|-1] == Neg(s[p]) {
      assert q[|q|-1] in q && q[|q|-1] in Elements(s[..p]);
      assert s[p] in Elements(s) && Neg(s[p]) in Elements(s);
    }
    hide Ascending;
  }

  lemma TrueOnZero(a: Assignment, s: seq<Lit>, p: nat)
    requires a.Indexed() && p < |s|
    ensures a.True(s[p]) && a.Level(s[p].idx) == 0 ==> ZeroTrue(a, Elements(s))
    ensures a.True(s[p]) ==> s[p].idx in a.at
  {
    assert s[p] in Elements(s);
  }

  lemma NothingKept(a: Assignment, s: seq<Lit>)
    requires a.Indexed()
    ensures Deduped(a, [], s[..0])
  {
  }

  /** Drops repeated literals, and finds out whether the clause is true for good or contains a literal and its negation. */
  method TrivialClause(a: Assignment, ls: seq<Lit>) returns (trivial: bool, q: seq<Lit>)
    requires a.Indexed()
    ensures trivial <==> Tautology(Elements(ls)) || ZeroTrue(a, Elements(ls))
    ensures !trivial ==> NoDup(q) && Elements(q) == Elements(ls)
  {
    hide *;
    var s := SortByCode(ls);
    q := [];
    NothingKept(a, s);
    for p := 0 to |s|
      invariant Deduped(a, q, s[..p])
    {
      KeepStep(a, q, s, p);
      TrueOnZero(a, s, p);
      if q != [] && q[|q|-1] == s[p] {
        continue;
      }
      if a.True(s[p]) && a.Level(s[p].idx) == 0 {
        return true, q;
      }
      if q != [] && q[|q|-1] == Neg(s[p]) {
        return true, q;
      }
      q := q + [s[p]];
    }
    assert s[..|s|] == s;
    trivial := false;
    NotTrivial(a, q, s);
  }

  /** The clause is not true, and what is false of it is false for good. */
  ghost predicate Open(a: Assignment, ls: seq<Lit>)
    requires a.Indexed()
  {
    && NoDup(ls) && (|ls| != 2 ==> Falling(a, ls))
    && (forall l :: l in ls ==> a.Undef(l) || (a.False(l) && a.Level(l.idx) == 0))
  }

  lemma FitsMany(a: Assignment, ls: seq<Lit>, x: Lit, y: Lit)
    requires a.Indexed() && Open(a, ls) && a.Top() == 0 && x in ls && y in ls && x != y && a.Undef(x) && a.Undef(y)
    ensures Fits(a, ls)
  {
    var i :| 0 <= i < |ls| && ls[i] == x;
    var j :| 0 <= j < |ls| && ls[j] == y;
    if |ls| != 2 {
      forall k | 0 <= k < 2
        ensures a.Undef(ls[k])
      {
        var q := if i >= 2 then i else if j >= 2 then j else k;
        assert k < q ==> Rank(a, ls[k]) >= Rank(a, ls[q]);
      }
    }
  }

  lemma FitsOne(a: Assignment, ls: seq<Lit>, x: Lit, r: nat)
    requires a.Valid() && Open(a, ls) && a.Top() == 0 && x in ls && a.Undef(x) && |ls| >= 2
    requires forall l :: l in ls && l != x ==> a.False(l) && a.Level(l.idx) == 0
    requires a.Push(x, 0, r).Indexed()
    ensures Fits(a.Push(x, 0, r), ls)
  {
    var b := a.Push(x, 0, r);
    forall l | l in ls && l != x
      ensures b.False(l) && b.Level(l.idx) == 0
    {
      TrueStays(a, x, 0, r, Neg(l));
    }
    var i :| 0 <= i < |ls| && ls[i] == x;
    assert |ls| != 2 ==> Rank(a, ls[0]) >= Rank(a, ls[i]);
    assert b.True(x) && b.Level(x.idx) == 0;
    assert ls[0] in ls && ls[1] in ls;
  }

  lemma SettledFormula(formula: set<Clause>, a: Assignment, hist: map<nat, Clause>, lits: map<nat, seq<Lit>>, loose: set<nat>, c: Clause)
    requires a.Indexed() && Settled(formula, a, hist, lits, loose)
    requires Tautology(c) || ZeroTrue(a, c) || Kept(hist, lits, c)
    ensures Settled(formula + {c}, a, hist, lits, loose)
  {
    hide ZeroTrue, Kept, LooseOk;
  }

  /** An original clause is stored; if it has two literals or more it is attached. */
  lemma AddOriginal(formula: set<Clause>, a: Assignment, hist: map<nat, Clause>, lits: map<nat, seq<Lit>>, loose: set<nat>,
                    impls: Lists, htps: Lists, dhtps: Lists, j: nat, k: nat, id: nat, ls: seq<Lit>, c: Clause, impls': Lists, htps': Lists)
    requires a.Indexed() && Settled(formula, a, hist, lits, loose) && Linked(a, j, k, lits, loose, impls, htps, dhtps)
    requires id !in hist && id !in lits && id !in loose && id % 2 == 0 && lits.Keys <= hist.Keys && j <= k <= |a.trail|
    requires |ls| >= 1 && (|ls| >= 2 ==> Fits(a, ls)) && (|ls| == 1 ==> a.True(ls[0]) && a.Level(ls[0].idx) == 0)
    requires Attached(impls, htps, id, ls, impls', htps')
    ensures Settled(formula + {c}, a, hist[id := c], lits[id := ls], loose)
    ensures Linked(a, j, k, lits[id := ls], loose, impls', htps', dhtps)
  {
    hide Settled, Linked, Fits;
    if |ls| == 1 {
      SettledStore(formula, a, hist, lits, loose, id, ls, c);
      LinkedUnit(a, j, k, lits, loose, impls, htps, dhtps, id, ls);
    } else {
      AttachFits(formula, a, hist, lits, loose, impls, htps, dhtps, j, k, id, ls, c, impls', htps');
    }
    assert id in lits[id := ls] && hist[id := c][id] == c;
    SettledFormula(formula, a, hist[id := c], lits[id := ls], loose, c);
  }

  /** What level 0 leaves of an original clause is stored, but not attached. */
  lemma AddShrunk(formula: set<Clause>, a: Assignment, hist: map<nat, Clause>, lits: map<nat, seq<Lit>>, loose: set<nat>,
                  impls: Lists, htps: Lists, dhtps: Lists, j: nat, k: nat, o: nat, id: nat, ls: seq<Lit>, c: Clause)
    requires a.Indexed() && Settled(formula, a, hist, lits, loose) && Linked(a, j, k, lits, loose, impls, htps, dhtps)
    requires id !in hist && id !in lits && lits.Keys <= hist.Keys && o in lits && o !in loose && o != id
    requires Shrunk(a, hist[id := c], id, o)
    requires |ls| >= 1 && (|ls| == 1 ==> a.True(ls[0]) && a.Level(ls[0].idx) == 0)
    ensures Settled(formula, a, hist[id := c], lits[id := ls], loose + {id})
    ensures Linked(a, j, k, lits[id := ls], loose + {id}, impls, htps, dhtps)
  {
    hide Watched, Implied;
    WatchedStore(a, j, lits, loose, htps, dhtps, id, ls, loose + {id});
    ImpliedStore(a, k, lits, loose, impls, id, ls, loose + {id});
    SettledLoose(formula, a, hist, lits, loose, o, id, ls, c);
  }

  lemma SettledLoose(formula: set<Clause>, a: Assignment, hist: map<nat, Clause>, lits: map<nat, seq<Lit>>, loose: set<nat>,
                     o: nat, id: nat, ls: seq<Lit>, c: Clause)
    requires a.Indexed() && Settled(formula, a, hist, lits, loose)
    requires id !in hist && id !in lits && lits.Keys <= hist.Keys && o in lits && o !in loose && o != id
    requires Shrunk(a, hist[id := c], id, o)
    requires |ls| >= 1 && (|ls| == 1 ==> a.True(ls[0]) && a.Level(ls[0].idx) == 0)
    ensures Settled(formula, a, hist[id := c], lits[id := ls], loose + {id})
  {
    SettledStore(formula, a, hist, lits, loose, id, ls, c);
    var hist', lits', more := hist[id := c], lits[id := ls], loose + {id};
    forall r | r in more
      ensures LooseOk(a, hist', lits', more, r)
    {
      if r == id {
        assert o in lits' && o !in more && Shrunk(a, hist', r, o);
      } else {
        assert LooseOk(a, hist, lits, loose, r);
        if q :| q in lits && q !in loose && Shrunk(a, hist, r, q) {
          assert q in lits' && q !in more && Shrunk(a, hist', r, q);
        }
      }
    }
  }

  /** rest is ls without its false literals, stored under r, or ls itself. */
  ghost predicate Remains(a: Assignment, id: nat, ls: seq<Lit>, r: nat, rest: seq<Lit>)
    requires a.Indexed()
  {
    && NoDup(rest) && (forall l :: l in rest <==> l in ls && a.Undef(l))
    && (r == id ==> rest == ls) && (r != id ==> exists l :: l in ls && a.False(l))
  }

  /** Once a unit clause is assigned, whatever was added satisfies all invariants. */
  lemma AddedKeeps(formula: set<Clause>, a: Assignment, b: Assignment, hist: map<nat, Clause>, lits: map<nat, seq<Lit>>, loose: set<nat>,
                   impls: Lists, htps: Lists, dhtps: Lists, j: nat, k: nat, id: nat, ls: seq<Lit>, impls': Lists, htps': Lists,
                   r: nat, rest: seq<Lit>)
    requires a.Valid() && a.Top() == 0 && Settled(formula, a, hist, lits, loose) && Linked(a, j, k, lits, loose, impls, htps, dhtps)
    requires id !in hist && id !in lits && id !in loose && id % 2 == 0 && id != 0 && lits.Keys <= hist.Keys && j <= k <= |a.trail|
    requires r != 0 && (r == id || (r !in hist && r !in lits && r !in loose))
    requires Open(a, ls) && Remains(a, id, ls, r, rest) && rest != [] && Attached(impls, htps, id, ls, impls', htps')
    requires b == if |rest| == 1 then a.Push(rest[0], 0, r) else a
    ensures b.Valid() && b.Indexed()
    ensures var h1, l1 := hist[id := Elements(ls)], lits[id := ls];
      if r == id then Settled(formula + {Elements(ls)}, b, h1, l1, loose) && Linked(b, j, k, l1, loose, impls', htps', dhtps)
      else Settled(formula + {Elements(ls)}, b, h1[r := Elements(rest)], l1[r := rest], loose + {r})
           && Linked(b, j, k, l1[r := rest], loose + {r}, impls', htps', dhtps)
  {
    hide Settled, Linked, Fits, Shrunk, Falling, Assignment.Leveled;
    AddedBefore(formula, a, b, hist, lits, loose, impls, htps, dhtps, j, k, r, rest);
    RestFits(a, b, id, ls, r, rest);
    AddOriginal(formula, b, hist, lits, loose, impls, htps, dhtps, j, k, id, ls, Elements(ls), impls', htps');
    if r != id {
      var h1, l1 := hist[id := Elements(ls)], lits[id := ls];
      RestShrunk(a, b, h1, id, ls, r, rest);
      AddShrunk(formula + {Elements(ls)}, b, h1, l1, loose, impls', htps', dhtps, j, k, id, r, rest, Elements(rest));
    }
  }

  /** Assigning the unit, if there is one, before anything is stored. */
  lemma AddedBefore(formula: set<Clause>, a: Assignment, b: Assignment, hist: map<nat, Clause>, lits: map<nat, seq<Lit>>, loose: set<nat>,
                    impls: Lists, htps: Lists, dhtps: Lists, j: nat, k: nat, r: nat, rest: seq<Lit>)
    requires a.Valid() && a.Top() == 0 && Settled(formula, a, hist, lits, loose) && Linked(a, j, k, lits, loose, impls, htps, dhtps)
    requires r != 0 && j <= k <= |a.trail| && rest != [] && (forall l :: l in rest ==> a.Undef(l))
    requires b == if |rest| == 1 then a.Push(rest[0], 0, r) else a
    ensures b.Valid() && b.Indexed() && Settled(formula, b, hist, lits, loose) && Linked(b, j, k, lits, loose, impls, htps, dhtps)
    ensures |a.trail| <= |b.trail|
  {
    hide Settled, Linked;
    if |rest| == 1 {
      assert rest[0] in rest;
      PushValid(a, rest[0], 0, r);
      SettledPush(formula, a, hist, lits, loose, rest[0], 0, r);
      LinkedPush(a, j, k, lits, loose, impls, htps, dhtps, rest[0], 0, r);
    }
  }

  lemma RestFits(a: Assignment, b: Assignment, id: nat, ls: seq<Lit>, r: nat, rest: seq<Lit>)
    requires a.Valid() && a.Top() == 0 && Open(a, ls) && Remains(a, id, ls, r, rest) && rest != [] && r != 0
    requires b == (if |rest| == 1 then a.Push(rest[0], 0, r) else a) && b.Valid()
    ensures |ls| >= 1 && (|ls| >= 2 ==> Fits(b, ls)) && (|ls| == 1 ==> b.True(ls[0]) && b.Level(ls[0].idx) == 0)
    ensures |rest| == 1 ==> b.True(rest[0]) && b.Level(rest[0].idx) == 0
  {
    assert rest[0] in rest && rest[0] in ls;
    if |rest| >= 2 {
      assert rest[0] != rest[1] && rest[1] in rest;
      FitsMany(a, ls, rest[0], rest[1]);
    } else {
      forall l | l in ls && l != rest[0]
        ensures a.False(l) && a.Level(l.idx) == 0
      {
        assert l !in rest;
      }
      if |ls| >= 2 {
        FitsOne(a, ls, rest[0], r);
      } else {
        assert ls[0] == rest[0];
      }
    }
  }

  lemma RestShrunk(a: Assignment, b: Assignment, hist: map<nat, Clause>, id: nat, ls: seq<Lit>, r: nat, rest: seq<Lit>)
    requires a.Valid() && a.Top() == 0 && Open(a, ls) && Remains(a, id, ls, r, rest) && r != id && r !in hist && id % 2 == 0 && r != 0
    requires b == (if |rest| == 1 then a.Push(rest[0], 0, r) else a) && b.Indexed() && (|rest| == 1 ==> a.Undef(rest[0]))
    requires id in hist && hist[id] == Elements(ls)
    ensures Shrunk(b, hist[r := Elements(rest)], r, id)
  {
    forall l | l in ls && l !in rest
      ensures b.False(l) && b.Level(l.idx) == 0
    {
      assert a.False(l);
      if |rest| == 1 {
        TrueStays(a, rest[0], 0, r, Neg(l));
      }
    }
  }

  lemma OpenFacts(a: Assignment, ls: seq<Lit>)
    requires a.Indexed() && Open(a, ls)
    ensures NoDup(ls) && forall l :: l in ls && a.False(l) ==> a.Level(l.idx) == 0
  {
  }

  lemma RemainsIntro(a: Assignment, id: nat, ls: seq<Lit>, r: nat, rest: seq<Lit>)
    requires a.Indexed() && Open(a, ls) && NoDup(rest) && r != id && (exists l :: l in ls && a.False(l))
    requires forall l :: l in rest <==> l in ls && !a.False(l)
    ensures Remains(a, id, ls, r, rest)
  {
  }

  lemma OpenIntro(a: Assignment, ls: seq<Lit>)
    requires a.Valid() && a.Top() == 0 && NoDup(ls) && (|ls| != 2 ==> Falling(a, ls)) && forall l :: l in ls ==> !a.True(l)
    ensures Open(a, ls)
  {
    forall l | l in ls && !a.Undef(l)
      ensures a.False(l) && a.Level(l.idx) == 0
    {
      LevelsBelowTop(a, l.idx);
    }
  }

  lemma RemainsSame(a: Assignment, id: nat, ls: seq<Lit>)
    requires a.Indexed() && Open(a, ls)
    ensures !(exists l :: l in ls && a.False(l)) ==> Remains(a, id, ls, id, ls)
  {
  }

  lemma RemainsUndef(a: Assignment, id: nat, ls: seq<Lit>, r: nat, rest: seq<Lit>)
    requires a.Indexed() && Remains(a, id, ls, r, rest)
    ensures forall l :: l in rest ==> a.Undef(l)
  {
  }
}
