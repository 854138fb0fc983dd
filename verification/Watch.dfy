/** Watch lists: every attached clause of three or more literals is watched by its first two, and parked on the
    other watch's list while that one is true on an earlier level. Binary clauses sit on both their lists for good. */
module Watch {
  import opened Cnf
  import opened Sequences
  import opened Trail

  function At(m: map<Lit, seq<nat>>, l: Lit): seq<nat> {
    if l in m then m[l] else []
  }

  type Lists = map<Lit, seq<nat>>

  /** Clauses that the two-watched-literal scheme covers; loose ones were never attached. */
  predicate Large(lits: map<nat, seq<Lit>>, loose: set<nat>, c: nat) {
    c in lits && |lits[c]| >= 3 && c !in loose
  }

  predicate Binary(lits: map<nat, seq<Lit>>, loose: set<nat>, c: nat) {
    c in lits && |lits[c]| == 2 && c !in loose
  }

  predicate Watches(lits: map<nat, seq<Lit>>, loose: set<nat>, c: nat, l: Lit) {
    Large(lits, loose, c) && (lits[c][0] == l || lits[c][1] == l)
  }

  /** Lists hold watched clauses only, each once. */
  ghost predicate Listed(lits: map<nat, seq<Lit>>, loose: set<nat>, m: Lists) {
    && (forall l, c :: c in At(m, l) ==> Watches(lits, loose, c, l))
    && (forall l :: NoDup(At(m, l)))
  }

  /** Among the first k assignments, a false watch has a true partner on no higher level. */
  ghost predicate SideOk(a: Assignment, k: nat, l: Lit, o: Lit)
    requires a.Indexed()
  {
    a.False(l) && a.at[l.idx] < k ==> a.True(o) && a.Level(o.idx) <= a.Level(l.idx)
  }

  /** A clause parked on its true watch o: o is true on level 0, or the other watch l was assigned later, if at all. */
  ghost predicate Parked(a: Assignment, l: Lit, o: Lit)
    requires a.Indexed()
  {
    a.True(o) && (l.idx in a.at ==> a.Level(o.idx) == 0 || a.at[o.idx] < a.at[l.idx])
  }

  /** Clause c is on l's list, or parked on o's, never both. */
  ghost predicate Side(a: Assignment, k: nat, htps: Lists, dhtps: Lists, c: nat, l: Lit, o: Lit)
    requires a.Indexed()
  {
    if c in At(htps, l) then c !in At(dhtps, o) && SideOk(a, k, l, o)
    else c in At(dhtps, o) && Parked(a, l, o)
  }

  ghost predicate Sides(a: Assignment, k: nat, lits: map<nat, seq<Lit>>, htps: Lists, dhtps: Lists, c: nat)
    requires a.Indexed() && c in lits && |lits[c]| >= 2
  {
    && Side(a, k, htps, dhtps, c, lits[c][0], lits[c][1])
    && Side(a, k, htps, dhtps, c, lits[c][1], lits[c][0])
  }

  ghost predicate Watched(a: Assignment, k: nat, lits: map<nat, seq<Lit>>, loose: set<nat>, htps: Lists, dhtps: Lists)
    requires a.Indexed()
  {
    && Listed(lits, loose, htps) && Listed(lits, loose, dhtps)
    && (forall c :: Large(lits, loose, c) ==> Sides(a, k, lits, htps, dhtps, c))
  }

  ghost predicate Pair(a: Assignment, k: nat, lits: map<nat, seq<Lit>>, impls: Lists, c: nat)
    requires a.Indexed() && c in lits && |lits[c]| >= 2
  {
    && c in At(impls, lits[c][0]) && c in At(impls, lits[c][1])
    && SideOk(a, k, lits[c][0], lits[c][1]) && SideOk(a, k, lits[c][1], lits[c][0])
  }

  ghost predicate Implied(a: Assignment, k: nat, lits: map<nat, seq<Lit>>, loose: set<nat>, impls: Lists)
    requires a.Indexed()
  {
    && (forall l, c :: c in At(impls, l) ==> Binary(lits, loose, c) && l in lits[c])
    && (forall c :: Binary(lits, loose, c) ==> Pair(a, k, lits, impls, c))
  }

  lemma SidePush(a: Assignment, k: nat, htps: Lists, dhtps: Lists, c: nat, l: Lit, o: Lit, x: Lit, level: nat, reason: nat)
    requires a.Valid() && a.Undef(x) && k <= |a.trail| && a.Push(x, level, reason).Indexed()
    ensures SideOk(a, k, l, o) ==> SideOk(a.Push(x, level, reason), k, l, o)
    ensures Side(a, k, htps, dhtps, c, l, o) ==> Side(a.Push(x, level, reason), k, htps, dhtps, c, l, o)
  {
  }

  /** A new assignment disturbs nothing among the old ones. */
  lemma WatchedPush(a: Assignment, k: nat, lits: map<nat, seq<Lit>>, loose: set<nat>, htps: Lists, dhtps: Lists,
                    x: Lit, level: nat, reason: nat)
    requires a.Valid() && a.Undef(x) && k <= |a.trail| && a.Push(x, level, reason).Indexed()
    requires Watched(a, k, lits, loose, htps, dhtps)
    ensures Watched(a.Push(x, level, reason), k, lits, loose, htps, dhtps)
  {
    hide Side, Listed;
    var b := a.Push(x, level, reason);
    forall c | Large(lits, loose, c)
      ensures Sides(b, k, lits, htps, dhtps, c)
    {
      assert Sides(a, k, lits, htps, dhtps, c);
      SidePush(a, k, htps, dhtps, c, lits[c][0], lits[c][1], x, level, reason);
      SidePush(a, k, htps, dhtps, c, lits[c][1], lits[c][0], x, level, reason);
    }
  }

  lemma ImpliedPush(a: Assignment, k: nat, lits: map<nat, seq<Lit>>, loose: set<nat>, impls: Lists,
                    x: Lit, level: nat, reason: nat)
    requires a.Valid() && a.Undef(x) && k <= |a.trail| && a.Push(x, level, reason).Indexed()
    requires Implied(a, k, lits, loose, impls)
    ensures Implied(a.Push(x, level, reason), k, lits, loose, impls)
  {
    hide SideOk;
    var b := a.Push(x, level, reason);
    forall c | Binary(lits, loose, c)
      ensures Pair(b, k, lits, impls, c)
    {
      assert Pair(a, k, lits, impls, c);
      SidePush(a, k, impls, impls, c, lits[c][0], lits[c][1], x, level, reason);
      SidePush(a, k, impls, impls, c, lits[c][1], lits[c][0], x, level, reason);
    }
  }

  /** Looking at fewer assignments asks for less. */
  lemma WatchedLess(a: Assignment, j: nat, k: nat, lits: map<nat, seq<Lit>>, loose: set<nat>, htps: Lists, dhtps: Lists)
    requires a.Indexed() && j <= k && Watched(a, k, lits, loose, htps, dhtps)
    ensures Watched(a, j, lits, loose, htps, dhtps)
  {
    hide Listed;
    forall c | Large(lits, loose, c)
      ensures Sides(a, j, lits, htps, dhtps, c)
    {
      assert Sides(a, k, lits, htps, dhtps, c);
    }
  }

  lemma ImpliedLess(a: Assignment, j: nat, k: nat, lits: map<nat, seq<Lit>>, loose: set<nat>, impls: Lists)
    requires a.Indexed() && j <= k && Implied(a, k, lits, loose, impls)
    ensures Implied(a, j, lits, loose, impls)
  {
    forall c | Binary(lits, loose, c)
      ensures Pair(a, j, lits, impls, c)
    {
      assert Pair(a, k, lits, impls, c);
    }
  }

  /** Storing a clause that is not attached (a unit, or a loose one). */
  lemma WatchedStore(a: Assignment, k: nat, lits: map<nat, seq<Lit>>, loose: set<nat>, htps: Lists, dhtps: Lists,
                     id: nat, ls: seq<Lit>, more: set<nat>)
    requires a.Indexed() && id !in lits && Watched(a, k, lits, loose, htps, dhtps)
    requires more == loose || more == loose + {id}
    requires |ls| < 3 || id in more
    ensures Watched(a, k, lits[id := ls], more, htps, dhtps)
  {
    hide NoDup;
    var lits' := lits[id := ls];
    assert forall c, l :: Watches(lits, loose, c, l) ==> Watches(lits', more, c, l);
    assert Listed(lits', more, htps) && Listed(lits', more, dhtps);
    forall c | Large(lits', more, c)
      ensures Sides(a, k, lits', htps, dhtps, c)
    {
      assert Large(lits, loose, c) && Sides(a, k, lits, htps, dhtps, c);
    }
  }

  lemma ImpliedStore(a: Assignment, k: nat, lits: map<nat, seq<Lit>>, loose: set<nat>, impls: Lists,
                     id: nat, ls: seq<Lit>, more: set<nat>)
    requires a.Indexed() && id !in lits && Implied(a, k, lits, loose, impls)
    requires more == loose || more == loose + {id}
    requires |ls| != 2 || id in more
    ensures Implied(a, k, lits[id := ls], more, impls)
  {
    var lits' := lits[id := ls];
    forall c | Binary(lits', more, c)
      ensures Pair(a, k, lits', impls, c)
    {
      assert Binary(lits, loose, c) && Pair(a, k, lits, impls, c);
    }
  }

  function Prepend(m: Lists, l: Lit, c: nat): Lists {
    m[l := [c] + At(m, l)]
  }

  function RemoveAt(m: Lists, l: Lit, i: nat): Lists
    requires i < |At(m, l)|
  {
    m[l := At(m, l)[..i] + At(m, l)[i+1..]]
  }

  lemma PrependAt(m: Lists, l: Lit, c: nat, k: Lit, d: nat)
    ensures d in At(Prepend(m, l, c), k) <==> d in At(m, k) || (k == l && d == c)
  {
  }

  lemma RemoveAtAt(m: Lists, l: Lit, i: nat, k: Lit, d: nat)
    requires i < |At(m, l)| && NoDup(At(m, l))
    ensures d in At(RemoveAt(m, l, i), k) <==> d in At(m, k) && (k == l ==> d != At(m, l)[i])
    ensures NoDup(At(RemoveAt(m, l, i), l))
  {
    var s := At(m, l);
    assert s == s[..i] + [s[i]] + s[i+1..];
  }

  lemma ListedPrepend(lits: map<nat, seq<Lit>>, loose: set<nat>, m: Lists, l: Lit, c: nat)
    requires Listed(lits, loose, m) && Watches(lits, loose, c, l) && c !in At(m, l)
    ensures Listed(lits, loose, Prepend(m, l, c))
  {
    var r := Prepend(m, l, c);
    NoDupCons(c, At(m, l));
    forall k
      ensures NoDup(At(r, k))
    {
      assert k != l ==> At(r, k) == At(m, k);
    }
    forall k, d | d in At(r, k)
      ensures Watches(lits, loose, d, k)
    {
      PrependAt(m, l, c, k, d);
    }
  }

  lemma ListedRemove(lits: map<nat, seq<Lit>>, loose: set<nat>, m: Lists, l: Lit, i: nat)
    requires Listed(lits, loose, m) && i < |At(m, l)|
    ensures Listed(lits, loose, RemoveAt(m, l, i))
  {
    var r := RemoveAt(m, l, i);
    RemoveAtAt(m, l, i, l, 0);
    forall k
      ensures NoDup(At(r, k))
    {
      assert k != l ==> At(r, k) == At(m, k);
    }
    forall k, d | d in At(r, k)
      ensures Watches(lits, loose, d, k)
    {
      RemoveAtAt(m, l, i, k, d);
    }
  }

  /** Attaching a new clause whose two watches are in order. */
  lemma WatchedAttach(a: Assignment, k: nat, lits: map<nat, seq<Lit>>, loose: set<nat>, htps: Lists, dhtps: Lists,
                      id: nat, ls: seq<Lit>)
    requires a.Indexed() && id !in lits && id !in loose && Watched(a, k, lits, loose, htps, dhtps)
    requires |ls| >= 3 && ls[0] != ls[1] && SideOk(a, k, ls[0], ls[1]) && SideOk(a, k, ls[1], ls[0])
    ensures Watched(a, k, lits[id := ls], loose, Prepend(Prepend(htps, ls[0], id), ls[1], id), dhtps)
  {
    hide NoDup, SideOk, Parked;
    var lits' := lits[id := ls];
    assert forall c, l :: Watches(lits, loose, c, l) ==> Watches(lits', loose, c, l) && c != id;
    assert Listed(lits', loose, htps) && Listed(lits', loose, dhtps);
    var one := Prepend(htps, ls[0], id);
    var two := Prepend(one, ls[1], id);
    ListedPrepend(lits', loose, htps, ls[0], id);
    ListedPrepend(lits', loose, one, ls[1], id);
    forall c | Large(lits', loose, c)
      ensures Sides(a, k, lits', two, dhtps, c)
    {
      if c != id {
        assert Large(lits, loose, c) && Sides(a, k, lits, htps, dhtps, c);
      }
      forall l
        ensures c in At(two, l) <==> c in At(htps, l) || (c == id && (l == ls[0] || l == ls[1]))
      {
        PrependAt(htps, ls[0], id, l, c);
        PrependAt(one, ls[1], id, l, c);
      }
    }
  }

  lemma ImpliedAttach(a: Assignment, k: nat, lits: map<nat, seq<Lit>>, loose: set<nat>, impls: Lists,
                      id: nat, ls: seq<Lit>)
    requires a.Indexed() && id !in lits && id !in loose && Implied(a, k, lits, loose, impls)
    requires |ls| == 2 && SideOk(a, k, ls[0], ls[1]) && SideOk(a, k, ls[1], ls[0])
    ensures Implied(a, k, lits[id := ls], loose, Prepend(Prepend(impls, ls[0], id), ls[1], id))
  {
    hide SideOk;
    var lits' := lits[id := ls];
    var one := Prepend(impls, ls[0], id);
    var two := Prepend(one, ls[1], id);
    forall l, c
      ensures c in At(two, l) <==> c in At(impls, l) || (c == id && (l == ls[0] || l == ls[1]))
    {
      PrependAt(impls, ls[0], id, l, c);
      PrependAt(one, ls[1], id, l, c);
    }
    forall l, c | c in At(two, l)
      ensures Binary(lits', loose, c) && l in lits'[c]
    {
      assert c in At(impls, l) ==> Binary(lits, loose, c) && c != id;
    }
    forall c | Binary(lits', loose, c)
      ensures Pair(a, k, lits', two, c)
    {
      if c != id {
        assert Binary(lits, loose, c) && Pair(a, k, lits, impls, c);
      }
    }
  }

  function Partner(lits: map<nat, seq<Lit>>, c: nat, w: Lit): Lit
    requires c in lits && |lits[c]| >= 2
  {
    if lits[c][0] == w then lits[c][1] else lits[c][0]
  }

  ghost predicate Seen(a: Assignment, k: nat, lits: map<nat, seq<Lit>>, w: Lit, c: nat)
    requires a.Indexed()
  {
    c in lits && |lits[c]| >= 2 && SideOk(a, k, w, Partner(lits, c, w))
  }

  /** Propagation of w, the false literal of the assignment at position k: the first i clauses of w's list are done. */
  ghost predicate Walking(a: Assignment, k: nat, lits: map<nat, seq<Lit>>, loose: set<nat>, htps: Lists, dhtps: Lists,
                          w: Lit, i: nat)
    requires a.Indexed()
  {
    && Watched(a, k, lits, loose, htps, dhtps)
    && a.False(w) && a.at[w.idx] == k
    && i <= |At(htps, w)| && (forall j :: 0 <= j < i ==> Seen(a, k + 1, lits, w, At(htps, w)[j]))
  }

  lemma WalkFacts(a: Assignment, k: nat, lits: map<nat, seq<Lit>>, loose: set<nat>, htps: Lists, dhtps: Lists, w: Lit, i: nat)
    requires a.Indexed() && Walking(a, k, lits, loose, htps, dhtps, w, i) && i < |At(htps, w)|
    ensures var c := At(htps, w)[i];
      Watches(lits, loose, c, w) && c in lits && |lits[c]| >= 3 && c !in loose && (lits[c][0] == w || lits[c][1] == w)
  {
    assert At(htps, w)[i] in At(htps, w);
  }

  /** Reordering the literals of c without changing which two are watched. */
  lemma WalkReorder(a: Assignment, k: nat, lits: map<nat, seq<Lit>>, loose: set<nat>, htps: Lists, dhtps: Lists,
                    w: Lit, i: nat, c: nat, ls: seq<Lit>)
    requires a.Indexed() && Walking(a, k, lits, loose, htps, dhtps, w, i)
    requires c in lits && |ls| == |lits[c]| >= 3 && ls[0] == lits[c][1] && ls[1] == lits[c][0] && ls[0] != ls[1]
    ensures Walking(a, k, lits[c := ls], loose, htps, dhtps, w, i)
  {
    hide NoDup, SideOk, Parked;
    var lits' := lits[c := ls];
    assert forall d, l :: Watches(lits, loose, d, l) <==> Watches(lits', loose, d, l);
    assert Listed(lits', loose, htps) && Listed(lits', loose, dhtps);
    forall d | Large(lits', loose, d)
      ensures Sides(a, k, lits', htps, dhtps, d)
    {
      assert Large(lits, loose, d) && Sides(a, k, lits, htps, dhtps, d);
    }
    forall j | 0 <= j < i
      ensures Seen(a, k + 1, lits', w, At(htps, w)[j])
    {
      var d := At(htps, w)[j];
      assert d in At(htps, w) && Watches(lits, loose, d, w);
      assert Seen(a, k + 1, lits, w, d);
    }
  }

  lemma WalkKeep(a: Assignment, k: nat, lits: map<nat, seq<Lit>>, loose: set<nat>, htps: Lists, dhtps: Lists, w: Lit, i: nat)
    requires a.Indexed() && Walking(a, k, lits, loose, htps, dhtps, w, i) && i < |At(htps, w)|
    requires Seen(a, k + 1, lits, w, At(htps, w)[i])
    ensures Walking(a, k, lits, loose, htps, dhtps, w, i + 1)
  {
    hide Watched;
  }

  lemma WalkPush(a: Assignment, k: nat, lits: map<nat, seq<Lit>>, loose: set<nat>, htps: Lists, dhtps: Lists, w: Lit, i: nat,
                 x: Lit, level: nat, reason: nat)
    requires a.Valid() && a.Undef(x) && k < |a.trail| && a.Push(x, level, reason).Indexed()
    requires Walking(a, k, lits, loose, htps, dhtps, w, i)
    ensures Walking(a.Push(x, level, reason), k, lits, loose, htps, dhtps, w, i)
  {
    WatchedPush(a, k, lits, loose, htps, dhtps, x, level, reason);
    hide Watched, SideOk;
    forall j | 0 <= j < i
      ensures Seen(a.Push(x, level, reason), k + 1, lits, w, At(htps, w)[j])
    {
      var c := At(htps, w)[j];
      assert Seen(a, k + 1, lits, w, c);
      SidePush(a, k + 1, htps, dhtps, c, w, Partner(lits, c, w), x, level, reason);
    }
  }

  lemma WalkStore(a: Assignment, k: nat, lits: map<nat, seq<Lit>>, loose: set<nat>, htps: Lists, dhtps: Lists, w: Lit, i: nat,
                  id: nat, ls: seq<Lit>)
    requires a.Indexed() && Walking(a, k, lits, loose, htps, dhtps, w, i)
    requires id !in lits && |ls| < 2
    ensures Walking(a, k, lits[id := ls], loose, htps, dhtps, w, i)
  {
    WatchedStore(a, k, lits, loose, htps, dhtps, id, ls, loose);
    hide Watched, SideOk;
    forall j | 0 <= j < i
      ensures Seen(a, k + 1, lits[id := ls], w, At(htps, w)[j])
    {
      assert Seen(a, k + 1, lits, w, At(htps, w)[j]);
    }
  }

  lemma WalkEnd(a: Assignment, k: nat, lits: map<nat, seq<Lit>>, loose: set<nat>, htps: Lists, dhtps: Lists, w: Lit)
    requires a.Indexed() && Walking(a, k, lits, loose, htps, dhtps, w, |At(htps, w)|)
    ensures Watched(a, k + 1, lits, loose, htps, dhtps)
  {
    hide Listed, Parked;
    forall c | Large(lits, loose, c)
      ensures Sides(a, k + 1, lits, htps, dhtps, c)
    {
      assert Sides(a, k, lits, htps, dhtps, c);
      SideEnd(a, k, lits, loose, htps, dhtps, w, c, lits[c][0], lits[c][1]);
      SideEnd(a, k, lits, loose, htps, dhtps, w, c, lits[c][1], lits[c][0]);
    }
  }

  lemma SideEnd(a: Assignment, k: nat, lits: map<nat, seq<Lit>>, loose: set<nat>, htps: Lists, dhtps: Lists, w: Lit,
                c: nat, l: Lit, o: Lit)
    requires a.Indexed() && Walking(a, k, lits, loose, htps, dhtps, w, |At(htps, w)|)
    requires Large(lits, loose, c) && ((l == lits[c][0] && o == lits[c][1]) || (l == lits[c][1] && o == lits[c][0]))
    requires Side(a, k, htps, dhtps, c, l, o)
    ensures Side(a, k + 1, htps, dhtps, c, l, o)
  {
    hide Watched, Parked;
    if l == w && c in At(htps, w) {
      var j :| 0 <= j < |At(htps, w)| && At(htps, w)[j] == c;
      assert Seen(a, k + 1, lits, w, At(htps, w)[j]);
    } else if a.False(l) && a.at[l.idx] == k {
      assert l == w;
    }
  }

  lemma SeenAfterRemove(a: Assignment, k: nat, lits: map<nat, seq<Lit>>, more: map<nat, seq<Lit>>, m: Lists, n: Lists, w: Lit, i: nat)
    requires a.Indexed() && i < |At(m, w)| && NoDup(At(m, w)) && At(n, w) == At(m, w)[..i] + At(m, w)[i+1..]
    requires forall j :: 0 <= j < i ==> Seen(a, k, lits, w, At(m, w)[j])
    requires forall c :: c in lits && c != At(m, w)[i] ==> c in more && more[c] == lits[c]
    ensures i <= |At(n, w)| && forall j :: 0 <= j < i ==> Seen(a, k, more, w, At(n, w)[j])
  {
    hide SideOk;
    forall j | 0 <= j < i
      ensures Seen(a, k, more, w, At(n, w)[j])
    {
      assert Seen(a, k, lits, w, At(m, w)[j]);
    }
  }

  /** The other watch o is true on an earlier level: c moves from w's list to o's parking list. */
  lemma WalkPark(a: Assignment, k: nat, lits: map<nat, seq<Lit>>, loose: set<nat>, htps: Lists, dhtps: Lists, w: Lit, i: nat,
                 c: nat, o: Lit)
    requires a.Indexed() && Walking(a, k, lits, loose, htps, dhtps, w, i) && i < |At(htps, w)|
    requires c == At(htps, w)[i] && Large(lits, loose, c) && lits[c][0] == w && lits[c][1] == o && o != w
    requires Parked(a, w, o)
    ensures Walking(a, k, lits, loose, RemoveAt(htps, w, i), Prepend(dhtps, o, c), w, i)
  {
    var htps', dhtps' := RemoveAt(htps, w, i), Prepend(dhtps, o, c);
    assert c in At(htps, w) && Sides(a, k, lits, htps, dhtps, c);
    assert c !in At(dhtps, o);
    ListedRemove(lits, loose, htps, w, i);
    ListedPrepend(lits, loose, dhtps, o, c);
    hide NoDup, SideOk, Parked;
    forall d | Large(lits, loose, d)
      ensures Sides(a, k, lits, htps', dhtps', d)
    {
      assert Sides(a, k, lits, htps, dhtps, d);
      ParkAt(htps, dhtps, w, i, o, c, lits[d][0], d);
      ParkAt(htps, dhtps, w, i, o, c, lits[d][1], d);
    }
    SeenAfterRemove(a, k + 1, lits, lits, htps, htps', w, i);
  }

  lemma ParkAt(htps: Lists, dhtps: Lists, w: Lit, i: nat, o: Lit, c: nat, l: Lit, d: nat)
    requires i < |At(htps, w)| && NoDup(At(htps, w)) && c == At(htps, w)[i]
    ensures d in At(RemoveAt(htps, w, i), l) <==> d in At(htps, l) && (l == w ==> d != c)
    ensures d in At(Prepend(dhtps, o, c), l) <==> d in At(dhtps, l) || (l == o && d == c)
  {
    RemoveAtAt(htps, w, i, l, d);
    PrependAt(dhtps, o, c, l, d);
  }

  /** The literal n at position j >= 2 is not false: it replaces w as a watch, and w takes the third place. */
  function Rewatch(ls: seq<Lit>, j: nat): seq<Lit>
    requires 2 <= j < |ls|
  {
    [ls[j], ls[1], ls[0]] + ls[2..j] + ls[j+1..]
  }

  lemma RewatchElements(ls: seq<Lit>, j: nat)
    requires 2 <= j < |ls| && NoDup(ls)
    ensures NoDup(Rewatch(ls, j)) && Elements(Rewatch(ls, j)) == Elements(ls) && |Rewatch(ls, j)| == |ls|
  {
    var r := Rewatch(ls, j);
    assert ls == [ls[0], ls[1]] + ls[2..j] + [ls[j]] + ls[j+1..];
    assert forall x :: x in r <==> x in ls;
    forall p, q | 0 <= p < q < |r|
      ensures r[p] != r[q]
    {
      assert r[p] == ls[Origin(j, p)] && r[q] == ls[Origin(j, q)];
    }
  }

  function Origin(j: nat, p: nat): nat {
    if p == 0 then j else if p == 1 then 1 else if p == 2 then 0 else if p <= j then p - 1 else p
  }

  /** c is on w's list, so it is on no parking list while w is false and propagated now. */
  lemma NotParked(a: Assignment, k: nat, lits: map<nat, seq<Lit>>, loose: set<nat>, htps: Lists, dhtps: Lists,
                  c: nat, w: Lit, o: Lit)
    requires a.Indexed() && Watched(a, k, lits, loose, htps, dhtps) && Large(lits, loose, c) && lits[c][0] == w && lits[c][1] == o
    requires a.False(w) && c in At(htps, w)
    ensures c in At(htps, o) && !(a.False(o) && a.at[o.idx] < k) && forall l :: c !in At(dhtps, l)
  {
    assert Sides(a, k, lits, htps, dhtps, c);
    assert !a.True(w);
    forall l | c in At(dhtps, l)
      ensures l == w || l == o
    {
      assert Watches(lits, loose, c, l);
    }
  }

  lemma WalkMove(a: Assignment, k: nat, lits: map<nat, seq<Lit>>, loose: set<nat>, htps: Lists, dhtps: Lists, w: Lit, i: nat,
                 c: nat, j: nat)
    requires a.Indexed() && Walking(a, k, lits, loose, htps, dhtps, w, i) && i < |At(htps, w)|
    requires c == At(htps, w)[i] && Large(lits, loose, c) && lits[c][0] == w && NoDup(lits[c])
    requires 2 <= j < |lits[c]| && !a.False(lits[c][j])
    ensures Walking(a, k, lits[c := Rewatch(lits[c], j)], loose, Prepend(RemoveAt(htps, w, i), lits[c][j], c), dhtps, w, i)
  {
    var ls := lits[c];
    var n, o := ls[j], ls[1];
    var lits' := lits[c := Rewatch(ls, j)];
    var mid := RemoveAt(htps, w, i);
    var htps' := Prepend(mid, n, c);
    assert c in At(htps, w);
    NotParked(a, k, lits, loose, htps, dhtps, c, w, o);
    assert n != w && n != o && o != w;
    MoveListed(lits, loose, htps, dhtps, w, i, c, j);
    hide NoDup, Parked, Listed, Watches;
    forall d | Large(lits', loose, d)
      ensures Sides(a, k, lits', htps', dhtps, d)
    {
      assert Large(lits, loose, d) && Sides(a, k, lits, htps, dhtps, d);
      MoveAt(htps, w, i, n, c, lits'[d][0], d);
      MoveAt(htps, w, i, n, c, lits'[d][1], d);
    }
    SeenAfterRemove(a, k + 1, lits, lits', htps, htps', w, i);
  }

  lemma MoveAt(htps: Lists, w: Lit, i: nat, n: Lit, c: nat, l: Lit, d: nat)
    requires i < |At(htps, w)| && NoDup(At(htps, w)) && c == At(htps, w)[i]
    ensures d in At(Prepend(RemoveAt(htps, w, i), n, c), l) <==> (d in At(htps, l) && (l == w ==> d != c)) || (l == n && d == c)
  {
    RemoveAtAt(htps, w, i, l, d);
    PrependAt(RemoveAt(htps, w, i), n, c, l, d);
  }

  lemma MoveListed(lits: map<nat, seq<Lit>>, loose: set<nat>, htps: Lists, dhtps: Lists, w: Lit, i: nat, c: nat, j: nat)
    requires Listed(lits, loose, htps) && Listed(lits, loose, dhtps) && i < |At(htps, w)| && c == At(htps, w)[i]
    requires Large(lits, loose, c) && lits[c][0] == w && NoDup(lits[c]) && 2 <= j < |lits[c]|
    requires forall l :: c !in At(dhtps, l)
    ensures Listed(lits[c := Rewatch(lits[c], j)], loose, Prepend(RemoveAt(htps, w, i), lits[c][j], c))
    ensures Listed(lits[c := Rewatch(lits[c], j)], loose, dhtps)
  {
    var lits' := lits[c := Rewatch(lits[c], j)];
    var mid := RemoveAt(htps, w, i);
    var n := lits[c][j];
    ListedRemove(lits, loose, htps, w, i);
    forall l, d | d in At(mid, l)
      ensures Watches(lits', loose, d, l)
    {
      RemoveAtAt(htps, w, i, l, d);
      assert Watches(lits, loose, d, l);
    }
    forall l, d | d in At(dhtps, l)
      ensures Watches(lits', loose, d, l)
    {
      assert Watches(lits, loose, d, l) && d != c;
    }
    assert Listed(lits', loose, mid);
    assert !Watches(lits, loose, c, n);
    RemoveAtAt(htps, w, i, n, c);
    ListedPrepend(lits', loose, mid, n, c);
  }

  /** Every clause parked on x goes back to the list of its other watch. */
  function Flush(lits: map<nat, seq<Lit>>, htps: Lists, x: Lit, rest: seq<nat>): Lists
    requires forall c :: c in rest ==> c in lits && |lits[c]| >= 2
    decreases |rest|
  {
    if rest == [] then htps
    else Flush(lits, Prepend(htps, Partner(lits, rest[0], x), rest[0]), x, rest[1..])
  }

  lemma {:induction false} FlushAt(lits: map<nat, seq<Lit>>, htps: Lists, x: Lit, rest: seq<nat>, l: Lit, d: nat)
    requires forall c :: c in rest ==> c in lits && |lits[c]| >= 2
    ensures d in At(Flush(lits, htps, x, rest), l) <==> d in At(htps, l) || (d in rest && Partner(lits, d, x) == l)
    decreases |rest|
  {
    if rest != [] {
      var c := rest[0];
      assert rest == [c] + rest[1..];
      PrependAt(htps, Partner(lits, c, x), c, l, d);
      FlushAt(lits, Prepend(htps, Partner(lits, c, x), c), x, rest[1..], l, d);
    }
  }

  lemma {:induction false} FlushListed(lits: map<nat, seq<Lit>>, loose: set<nat>, htps: Lists, x: Lit, rest: seq<nat>)
    requires Listed(lits, loose, htps) && NoDup(rest)
    requires forall c :: c in rest ==> c in lits && |lits[c]| >= 2
    requires forall c :: c in rest ==> Watches(lits, loose, c, x) && c !in At(htps, Partner(lits, c, x))
    ensures Listed(lits, loose, Flush(lits, htps, x, rest))
    decreases |rest|
  {
    if rest != [] {
      var c := rest[0];
      var m := Partner(lits, c, x);
      assert rest == [c] + rest[1..];
      assert c in rest && Watches(lits, loose, c, m);
      ListedPrepend(lits, loose, htps, m, c);
      assert forall d :: d in rest[1..] ==> d in rest && d != c;
      forall d | d in rest[1..]
        ensures d !in At(Prepend(htps, m, c), Partner(lits, d, x))
      {
        PrependAt(htps, m, c, Partner(lits, d, x), d);
      }
      FlushListed(lits, loose, Prepend(htps, m, c), x, rest[1..]);
    }
  }

  /** Unassigning the last literal x, which lies above the first n assignments in position and level. */
  lemma WatchedPop(a: Assignment, n: nat, lits: map<nat, seq<Lit>>, loose: set<nat>, htps: Lists, dhtps: Lists, x: Lit)
    requires a.Valid() && |a.trail| > n && a.trail[|a.trail| - 1].lit == x && a.Pop().Indexed()
    requires a.trail[|a.trail| - 1].level > 0
    requires forall i :: 0 <= i < n ==> a.trail[i].level < a.trail[|a.trail| - 1].level
    requires Watched(a, n, lits, loose, htps, dhtps)
    ensures forall c :: c in At(dhtps, x) ==> c in lits && |lits[c]| >= 2
    ensures Watched(a.Pop(), n, lits, loose, Flush(lits, htps, x, At(dhtps, x)), dhtps[x := []])
  {
    var rest := At(dhtps, x);
    forall c | c in rest
      ensures Watches(lits, loose, c, x) && c !in At(htps, Partner(lits, c, x))
    {
      assert Watches(lits, loose, c, x) && Sides(a, n, lits, htps, dhtps, c);
    }
    FlushListed(lits, loose, htps, x, rest);
    DropList(lits, loose, dhtps, x);
    hide Listed, NoDup;
    forall c | Large(lits, loose, c)
      ensures Sides(a.Pop(), n, lits, Flush(lits, htps, x, rest), dhtps[x := []], c)
    {
      assert Sides(a, n, lits, htps, dhtps, c);
      SidePop(a, n, lits, loose, htps, dhtps, x, c, lits[c][0], lits[c][1]);
      SidePop(a, n, lits, loose, htps, dhtps, x, c, lits[c][1], lits[c][0]);
    }
  }

  lemma DropList(lits: map<nat, seq<Lit>>, loose: set<nat>, dhtps: Lists, x: Lit)
    requires Listed(lits, loose, dhtps)
    ensures Listed(lits, loose, dhtps[x := []])
  {
    var m := dhtps[x := []];
    forall l
      ensures NoDup(At(m, l))
    {
      assert l != x ==> At(m, l) == At(dhtps, l);
    }
  }

  lemma SidePop(a: Assignment, n: nat, lits: map<nat, seq<Lit>>, loose: set<nat>, htps: Lists, dhtps: Lists, x: Lit,
                c: nat, l: Lit, o: Lit)
    requires a.Valid() && |a.trail| > n && a.trail[|a.trail| - 1].lit == x && a.Pop().Indexed()
    requires a.trail[|a.trail| - 1].level > 0
    requires forall i :: 0 <= i < n ==> a.trail[i].level < a.trail[|a.trail| - 1].level
    requires forall d :: d in At(dhtps, x) ==> d in lits && |lits[d]| >= 2
    requires forall d :: d in At(dhtps, x) ==> Watches(lits, loose, d, x)
    requires Large(lits, loose, c) && ((l == lits[c][0] && o == lits[c][1]) || (l == lits[c][1] && o == lits[c][0]))
    requires Side(a, n, htps, dhtps, c, l, o) && Side(a, n, htps, dhtps, c, o, l)
    ensures Side(a.Pop(), n, Flush(lits, htps, x, At(dhtps, x)), dhtps[x := []], c, l, o)
  {
    FlushAt(lits, htps, x, At(dhtps, x), l, c);
    PopOne(a, l.idx);
    PopOne(a, o.idx);
  }

  lemma ImpliedPop(a: Assignment, n: nat, lits: map<nat, seq<Lit>>, loose: set<nat>, impls: Lists)
    requires a.Valid() && |a.trail| > n && a.Pop().Indexed()
    requires forall i :: 0 <= i < n ==> a.trail[i].level < a.trail[|a.trail| - 1].level
    requires Implied(a, n, lits, loose, impls)
    ensures Implied(a.Pop(), n, lits, loose, impls)
  {
    forall c | Binary(lits, loose, c)
      ensures Pair(a.Pop(), n, lits, impls, c)
    {
      assert Pair(a, n, lits, impls, c);
      PopOne(a, lits[c][0].idx);
      PopOne(a, lits[c][1].idx);
    }
  }

  function Without(s: seq<nat>, doomed: set<nat>): seq<nat> {
    if s == [] then []
    else (if s[0] in doomed then [] else [s[0]]) + Without(s[1..], doomed)
  }

  lemma {:induction false} WithoutElements(s: seq<nat>, doomed: set<nat>, c: nat)
    ensures c in Without(s, doomed) <==> c in s && c !in doomed
  {
    if s != [] {
      assert s == [s[0]] + s[1..];
      WithoutElements(s[1..], doomed, c);
    }
  }

  lemma {:induction false} WithoutNoDup(s: seq<nat>, doomed: set<nat>)
    requires NoDup(s)
    ensures NoDup(Without(s, doomed))
  {
    if s != [] {
      WithoutNoDup(s[1..], doomed);
      WithoutElements(s[1..], doomed, s[0]);
      assert s[0] !in s[1..];
      if s[0] !in doomed {
        NoDupCons(s[0], Without(s[1..], doomed));
      } else {
        assert [] + Without(s[1..], doomed) == Without(s[1..], doomed);
      }
    }
  }

  /** Unlinks the doomed clauses from every list. */
  function Unlink(m: Lists, doomed: set<nat>): Lists {
    map l | l in m :: Without(m[l], doomed)
  }

  lemma UnlinkAt(m: Lists, doomed: set<nat>, l: Lit, c: nat)
    ensures c in At(Unlink(m, doomed), l) <==> c in At(m, l) && c !in doomed
  {
    if l in m { WithoutElements(m[l], doomed, c); }
  }

  lemma UnlinkListed(lits: map<nat, seq<Lit>>, loose: set<nat>, m: Lists, doomed: set<nat>)
    requires Listed(lits, loose, m)
    ensures Listed(lits - doomed, loose - doomed, Unlink(m, doomed))
  {
    var r := Unlink(m, doomed);
    forall l
      ensures NoDup(At(r, l))
    {
      assert NoDup(At(m, l));
      if l in m { WithoutNoDup(m[l], doomed); }
    }
    hide NoDup;
    forall l, c | c in At(r, l)
      ensures Watches(lits - doomed, loose - doomed, c, l)
    {
      UnlinkAt(m, doomed, l, c);
      assert Watches(lits, loose, c, l);
    }
  }

  lemma WatchedCollect(a: Assignment, k: nat, lits: map<nat, seq<Lit>>, loose: set<nat>, htps: Lists, dhtps: Lists, doomed: set<nat>)
    requires a.Indexed() && Watched(a, k, lits, loose, htps, dhtps)
    ensures Watched(a, k, lits - doomed, loose - doomed, Unlink(htps, doomed), Unlink(dhtps, doomed))
  {
    UnlinkListed(lits, loose, htps, doomed);
    UnlinkListed(lits, loose, dhtps, doomed);
    hide Listed, SideOk, Parked;
    forall c | Large(lits - doomed, loose - doomed, c)
      ensures Sides(a, k, lits - doomed, Unlink(htps, doomed), Unlink(dhtps, doomed), c)
    {
      assert Sides(a, k, lits, htps, dhtps, c);
      UnlinkAt(htps, doomed, lits[c][0], c);
      UnlinkAt(htps, doomed, lits[c][1], c);
      UnlinkAt(dhtps, doomed, lits[c][0], c);
      UnlinkAt(dhtps, doomed, lits[c][1], c);
    }
  }

  lemma ImpliedCollect(a: Assignment, k: nat, lits: map<nat, seq<Lit>>, loose: set<nat>, impls: Lists, doomed: set<nat>)
    requires a.Indexed() && Implied(a, k, lits, loose, impls)
    ensures Implied(a, k, lits - doomed, loose - doomed, Unlink(impls, doomed))
  {
    hide SideOk;
    forall l, c | c in At(Unlink(impls, doomed), l)
      ensures Binary(lits - doomed, loose - doomed, c) && l in (lits - doomed)[c]
    {
      UnlinkAt(impls, doomed, l, c);
      assert Binary(lits, loose, c);
    }
    forall c | Binary(lits - doomed, loose - doomed, c)
      ensures Pair(a, k, lits - doomed, Unlink(impls, doomed), c)
    {
      assert Pair(a, k, lits, impls, c);
      UnlinkAt(impls, doomed, lits[c][0], c);
      UnlinkAt(impls, doomed, lits[c][1], c);
    }
  }

  /** Neither false nor about to propagate: some literal is true, or two are unassigned. */
  ghost predicate Quiet(a: Assignment, c: seq<Lit>) {
    (exists l :: l in c && a.True(l)) || (exists l, o :: l in c && o in c && l != o && a.Undef(l) && a.Undef(o))
  }

  /** Two watches find what scanning every clause would find. */
  lemma ScanLarge(a: Assignment, lits: map<nat, seq<Lit>>, loose: set<nat>, htps: Lists, dhtps: Lists, c: nat)
    requires a.Indexed() && Watched(a, |a.trail|, lits, loose, htps, dhtps)
    requires Large(lits, loose, c) && NoDup(lits[c])
    ensures Quiet(a, lits[c])
  {
    var l, o := lits[c][0], lits[c][1];
    assert Sides(a, |a.trail|, lits, htps, dhtps, c);
    assert l in lits[c] && o in lits[c] && l != o;
    assert a.Undef(l) || a.True(l) || a.False(l);
    assert a.Undef(o) || a.True(o) || a.False(o);
  }

  lemma ScanBinary(a: Assignment, lits: map<nat, seq<Lit>>, loose: set<nat>, impls: Lists, c: nat)
    requires a.Indexed() && Implied(a, |a.trail|, lits, loose, impls)
    requires Binary(lits, loose, c) && NoDup(lits[c])
    ensures Quiet(a, lits[c])
  {
    var l, o := lits[c][0], lits[c][1];
    assert Pair(a, |a.trail|, lits, impls, c);
    assert l in lits[c] && o in lits[c] && l != o;
    assert a.Undef(l) || a.True(l) || a.False(l);
    assert a.Undef(o) || a.True(o) || a.False(o);
  }

  lemma WalkWatched(a: Assignment, k: nat, lits: map<nat, seq<Lit>>, loose: set<nat>, htps: Lists, dhtps: Lists, w: Lit, i: nat)
    requires a.Indexed() && Walking(a, k, lits, loose, htps, dhtps, w, i)
    ensures Watched(a, k, lits, loose, htps, dhtps)
  {
  }

  lemma RemovedOne(m: Lists, l: Lit, i: nat)
    requires i < |At(m, l)|
    ensures |At(RemoveAt(m, l, i), l)| == |At(m, l)| - 1
  {
  }

  lemma MovedOne(m: Lists, l: Lit, i: nat, n: Lit, c: nat)
    requires i < |At(m, l)|
    ensures n != l ==> |At(Prepend(RemoveAt(m, l, i), n, c), l)| == |At(m, l)| - 1 >= i
  {
  }

  /** A literal just made true on the current level is a good partner for w. */
  lemma FreshPartner(a: Assignment, k: nat, lits: map<nat, seq<Lit>>, w: Lit, c: nat, o: Lit)
    requires a.Valid() && c in lits && |lits[c]| >= 2 && o == Partner(lits, c, w)
    requires |a.trail| > 0 && a.trail[|a.trail| - 1].lit == o && a.False(w) && a.Level(w.idx) == a.Top()
    ensures Seen(a, k + 1, lits, w, c)
  {
    assert a.LevelBefore(|a.trail|) == a.Top();
  }
}
