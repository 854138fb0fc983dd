/** The first phase of conflict analysis: resolving back to the first unique implication point. */
module Uip {
  import opened Cnf
  import opened Sequences
  import opened Trail
  import opened Analysis
  import opened Graph

  /** r is the reason of a current-level entry at position q or later. */
  ghost predicate UsedFrom(a: Assignment, r: nat, q: nat) {
    exists i :: q <= i < |a.trail| && a.trail[i].reason == r && a.trail[i].level == a.Top()
  }

  ghost predicate Provenance(a: Assignment, resolved: seq<nat>, conflict: nat, q: nat) {
    forall r :: r in resolved ==> r == conflict || UsedFrom(a, r, q)
  }

  /** The reason at position q has not been resolved with before. */
  lemma FreshReason(a: Assignment, hist: map<nat, Clause>, resolved: seq<nat>, conflict: nat, q: nat)
    requires a.Valid() && Reasoned(a, hist) && q < |a.trail| && a.trail[q].reason != 0
    requires conflict in hist && Conflicting(a, hist[conflict])
    requires Provenance(a, resolved, conflict, q + 1)
    ensures a.trail[q].reason !in resolved
  {
    assert Justified(a, hist, a.trail[q], q);
    assert a.True(a.trail[q].lit) && !a.False(a.trail[q].lit);
    forall i: nat | q < i < |a.trail|
      ensures a.trail[i].reason != a.trail[q].reason
    {
      ReasonsDiffer(a, hist, q, i);
    }
  }

  /** Walks down the trail from q to the next marked variable. */
  method NextMarked(a: Assignment, mark: set<nat>, q0: nat) returns (found: bool, q: nat)
    requires q0 <= |a.trail|
    ensures found ==> q < q0 && a.trail[q].lit.idx in mark
    ensures !found ==> q == 0
    ensures forall i :: (if found then q + 1 else 0) <= i < q0 ==> a.trail[i].lit.idx !in mark
  {
    found, q := false, q0;
    while q > 0 && !found
      invariant q <= q0 && (found ==> q < q0 && a.trail[q].lit.idx in mark)
      invariant forall i :: (if found then q + 1 else q) <= i < q0 ==> a.trail[i].lit.idx !in mark
      decreases q, !found
    {
      q := q - 1;
      found := a.trail[q].lit.idx in mark;
    }
  }

  /** The marked current-level variables all lie below q. */
  ghost predicate Ahead(a: Assignment, mark: set<nat>, q: nat)
    requires a.Indexed()
  {
    forall v :: v in mark && v in a.at && a.Level(v) == a.Top() ==> a.at[v] < q
  }

  /** The last marked entry below q is on the current level if any marked variable is. */
  lemma NextIsOnTop(a: Assignment, mark: set<nat>, q0: nat, q: nat)
    requires a.Valid() && mark <= a.at.Keys && q < q0 <= |a.trail|
    requires forall i :: q + 1 <= i < q0 ==> a.trail[i].lit.idx !in mark
    requires Ahead(a, mark, q0) && OnTop(a, mark) != {}
    ensures a.trail[q].level == a.Top()
  {
    var v :| v in OnTop(a, mark);
    var i := a.at[v];
    assert a.trail[i].lit.idx == v && i <= q;
    LevelsRise(a, i, q);
  }

  lemma UnmarkOk(a: Assignment, s: Marks, u: nat)
    requires a.Indexed() && MarksOk(a, s) && u in s.mark && a.Level(u) == a.Top()
    ensures s.open > 0 && MarksOk(a, s.(mark := s.mark - {u}, open := s.open - 1))
  {
    hide NoDup;
    var r := s.(mark := s.mark - {u});
    assert OnTop(a, s.mark) == OnTop(a, r.mark) + {u};
    forall v | v in r.marked
      ensures BelowTop(a, r, v)
    {
      assert BelowTop(a, s, v);
    }
  }

  /** A decision is the first entry of its level. */
  lemma DecisionIsFirst(a: Assignment, mark: set<nat>, q: nat)
    requires a.Valid() && q < |a.trail| && a.trail[q].reason == 0 && a.trail[q].level == a.Top()
    requires Ahead(a, mark, q)
    ensures a.Top() > 0 && OnTop(a, mark) == {}
  {
    assert a.trail[q].level == a.LevelBefore(q) + 1;
    forall v | v in mark && v in a.at && a.at[v] < q
      ensures a.Level(v) != a.Top()
    {
      LevelsRise(a, a.at[v], q - 1);
    }
  }

  /** If no marked entry is left below q, the conflict was on level 0. */
  lemma NothingLeft(a: Assignment, s: Marks, q: nat)
    requires a.Valid() && MarksOk(a, s) && q <= |a.trail| && Ahead(a, s.mark, q)
    requires forall i :: 0 <= i < q ==> a.trail[i].lit.idx !in s.mark
    requires a.Top() > 0 ==> OnTop(a, s.mark) != {}
    ensures a.Top() == 0 && s.mark == {}
  {
    forall v | v in s.mark
      ensures a.Level(v) != a.Top() && a.Level(v) <= a.Top()
    {
      LevelsRise(a, a.at[v], |a.trail| - 1);
      assert a.trail[a.at[v]].lit.idx == v;
    }
  }

  /** The entry found is on the current level, and the other marked ones on that level lie below it. */
  lemma TopOfMarks(a: Assignment, mark: set<nat>, q0: nat, q: nat)
    requires a.Valid() && mark <= a.at.Keys && q < q0 <= |a.trail|
    requires forall i :: q + 1 <= i < q0 ==> a.trail[i].lit.idx !in mark
    requires Ahead(a, mark, q0) && (a.Top() > 0 ==> OnTop(a, mark) != {})
    ensures a.trail[q].level == a.Top()
    ensures Ahead(a, mark - {a.trail[q].lit.idx}, q)
  {
    if a.Top() > 0 {
      NextIsOnTop(a, mark, q0, q);
    } else {
      LevelsRise(a, q, |a.trail| - 1);
    }
    forall v | v in mark && v in a.at && a.Level(v) == a.Top() && v != a.trail[q].lit.idx
      ensures a.at[v] < q
    {
      assert a.trail[a.at[v]].lit.idx == v;
    }
  }

  lemma ConflictOnTop(a: Assignment, hist: map<nat, Clause>, lits: map<nat, seq<Lit>>, c: nat)
    requires a.Indexed() && Arranged(hist, lits) && c in lits && Conflicting(a, hist[c]) && a.Top() > 0
    ensures OnTop(a, FalseVars(a, lits[c])) != {}
  {
    var l :| l in hist[c] && a.False(l) && a.Level(l.idx) == a.Top();
    assert l in lits[c];
    assert l.idx in OnTop(a, FalseVars(a, lits[c]));
  }

  /** What resolving with the reason at position q brings in. */
  lemma ReasonBelow(a: Assignment, hist: map<nat, Clause>, lits: map<nat, seq<Lit>>, q: nat)
    requires Ready(a, hist, lits) && q < |a.trail| && a.trail[q].reason != 0
    ensures a.trail[q].reason in lits
    ensures forall l :: l in lits[a.trail[q].reason] ==> a.True(l) || (a.False(l) && a.at[l.idx] < q)
  {
    assert Justified(a, hist, a.trail[q], q);
  }

  /** Between two resolution steps: c is the next clause to resolve with, everything at position q or later is done. */
  ghost predicate Resolving(a: Assignment, hist: map<nat, Clause>, lits: map<nat, seq<Lit>>, conflict: nat,
                            s: Marks, resolved: seq<nat>, q: nat, c: nat)
    requires a.Indexed()
  {
    && q <= |a.trail| && MarksOk(a, s) && Ahead(a, s.mark, q)
    && c in lits && c !in resolved && NoDup(resolved) && Elements(resolved) <= lits.Keys
    && Provenance(a, resolved + [c], conflict, q)
    && (forall l :: l in lits[c] ==> a.True(l) || (a.False(l) && a.at[l.idx] < q))
    && Refuted(a, hist, Elements(resolved) + {c}, s.mark + FalseVars(a, lits[c]))
    && (a.Top() > 0 ==> OnTop(a, s.mark + FalseVars(a, lits[c])) != {})
  }

  /** After c was resolved with and its variables were marked. */
  ghost predicate Resolved(a: Assignment, hist: map<nat, Clause>, lits: map<nat, seq<Lit>>, conflict: nat,
                           s: Marks, resolved: seq<nat>, q: nat)
    requires a.Indexed()
  {
    && q <= |a.trail| && MarksOk(a, s) && Ahead(a, s.mark, q)
    && NoDup(resolved) && Elements(resolved) <= lits.Keys
    && Provenance(a, resolved, conflict, q)
    && Refuted(a, hist, Elements(resolved), s.mark)
  }

  /** The variables to go on from are those found, and none behind position q gets all paths. */
  ghost predicate Exploring(a: Assignment, lits: map<nat, seq<Lit>>, conflict: nat, mark: set<nat>, q: nat)
    requires a.Indexed()
  {
    && (forall w :: w in mark ==> Found(a, lits, conflict, q, w) && !OnTopFrom(a, q, w))
    && (forall w :: Found(a, lits, conflict, q, w) ==> w in mark || OnTopFrom(a, q, w))
    && (a.Top() > 0 ==> forall v :: OnTopFrom(a, q, v) ==> !Dominates(a, lits, conflict, v))
  }

  lemma ExploreStart(a: Assignment, hist: map<nat, Clause>, lits: map<nat, seq<Lit>>, conflict: nat)
    requires Ready(a, hist, lits) && conflict in lits && Conflicting(a, hist[conflict])
    ensures Exploring(a, lits, conflict, {} + FalseVars(a, lits[conflict]), |a.trail|)
  {
    ConflictVars(a, hist, lits, conflict);
    var mark := {} + FalseVars(a, lits[conflict]);
    forall w | w in mark
      ensures Found(a, lits, conflict, |a.trail|, w)
    {
      assert Leads(a, lits, conflict, |a.trail|, [w], w);
    }
    forall w | Found(a, lits, conflict, |a.trail|, w)
      ensures w in mark
    {
      var p :| Leads(a, lits, conflict, |a.trail|, p, w);
      assert |p| > 1 ==> OnTopFrom(a, |a.trail|, p[0]);
    }
  }

  /** Between q and q0 only the variable at q was marked. */
  ghost predicate IsNext(a: Assignment, mark: set<nat>, q0: nat, q: nat)
    requires a.Indexed()
  {
    && q < q0 <= |a.trail| && a.trail[q].lit.idx in mark && a.trail[q].level == a.Top()
    && forall i :: q + 1 <= i < q0 ==> a.trail[i].lit.idx !in mark
  }

  /** Nothing between them is found at all. */
  lemma NothingBetween(a: Assignment, hist: map<nat, Clause>, lits: map<nat, seq<Lit>>, conflict: nat, mark: set<nat>, q0: nat, q: nat, v: nat)
    requires a.Valid() && Ready(a, hist, lits) && Exploring(a, lits, conflict, mark, q0) && IsNext(a, mark, q0, q)
    requires v in a.at && q < a.at[v] < q0
    ensures !Found(a, lits, conflict, q0, v)
  {
    assert a.trail[a.at[v]].lit.idx == v;
  }

  /** A path that goes on below q0 does so through the variable at q, in its last step. */
  lemma PathSplits(a: Assignment, hist: map<nat, Clause>, lits: map<nat, seq<Lit>>, conflict: nat, mark: set<nat>, q0: nat, q: nat,
                   p: seq<nat>, w: nat)
    requires a.Valid() && Ready(a, hist, lits) && Exploring(a, lits, conflict, mark, q0) && IsNext(a, mark, q0, q)
    requires Leads(a, lits, conflict, q, p, w) && !Leads(a, lits, conflict, q0, p, w)
    ensures Edge(a, lits, a.trail[q].lit.idx, w)
  {
    hide Ready, Edge, Dominates;
    var k := FirstBelow(a, q0, p, |p| - 1);
    var x := p[k];
    PathPrefix(a, lits, conflict, p, k);
    assert Leads(a, lits, conflict, q0, p[..k+1], x);
    assert Found(a, lits, conflict, q0, x);
    assert OnTopFrom(a, q, x);
    if a.at[x] > q {
      NothingBetween(a, hist, lits, conflict, mark, q0, q, x);
    }
    assert x == a.trail[q].lit.idx;
    assert k + 1 < |p| - 1 ==> OnTopFrom(a, q, p[k+1]);
    PathFalls(a, hist, lits, conflict, p, k, k + 1);
  }

  lemma FirstBelow(a: Assignment, q0: nat, p: seq<nat>, n: nat) returns (k: nat)
    requires a.Indexed() && n <= |p| && exists i :: 0 <= i < n && !OnTopFrom(a, q0, p[i])
    ensures k < n && !OnTopFrom(a, q0, p[k]) && forall i :: 0 <= i < k ==> OnTopFrom(a, q0, p[i])
  {
    k := 0;
    while OnTopFrom(a, q0, p[k])
      invariant k < n && forall i :: 0 <= i < k ==> OnTopFrom(a, q0, p[i])
      decreases n - k
    {
      k := k + 1;
    }
  }

  /** Resolving on the variable at q, with another one of the level still marked. */
  lemma ExploreStep(a: Assignment, hist: map<nat, Clause>, lits: map<nat, seq<Lit>>, conflict: nat, mark: set<nat>, q0: nat, q: nat)
    requires a.Valid() && Ready(a, hist, lits) && Exploring(a, lits, conflict, mark, q0) && IsNext(a, mark, q0, q)
    requires a.trail[q].reason != 0 && (a.Top() > 0 ==> OnTop(a, mark - {a.trail[q].lit.idx}) != {})
    ensures a.trail[q].reason in lits
    ensures Exploring(a, lits, conflict, mark - {a.trail[q].lit.idx} + FalseVars(a, lits[a.trail[q].reason]), q)
  {
    hide Ready, Dominates, ReasonVars, Edge, Found;
    var u := a.trail[q].lit.idx;
    ExploreMore(a, hist, lits, conflict, mark, q0, q);
    if a.Top() > 0 {
      var w :| w in OnTop(a, mark - {u});
      forall v | OnTopFrom(a, q, v)
        ensures !Dominates(a, lits, conflict, v)
      {
        if a.at[v] < q0 {
          BelowOf(a, mark, q0, q, w);
          Avoids(a, hist, lits, conflict, q0, w, v);
        }
      }
    }
  }

  lemma ExploreMore(a: Assignment, hist: map<nat, Clause>, lits: map<nat, seq<Lit>>, conflict: nat, mark: set<nat>, q0: nat, q: nat)
    requires a.Valid() && Ready(a, hist, lits) && Exploring(a, lits, conflict, mark, q0) && IsNext(a, mark, q0, q)
    requires a.trail[q].reason != 0
    ensures a.trail[q].reason in lits
    ensures var more := mark - {a.trail[q].lit.idx} + FalseVars(a, lits[a.trail[q].reason]);
      && (forall w :: w in more ==> Found(a, lits, conflict, q, w) && !OnTopFrom(a, q, w))
      && (forall w :: Found(a, lits, conflict, q, w) ==> w in more || OnTopFrom(a, q, w))
  {
    hide Ready, Dominates, ReasonVars, Edge;
    var u := a.trail[q].lit.idx;
    EdgeFacts(a, hist, lits, u);
    var more := mark - {u} + FalseVars(a, lits[a.trail[q].reason]);
    forall w | w in more
      ensures Found(a, lits, conflict, q, w) && !OnTopFrom(a, q, w)
    {
      if w in mark - {u} {
        StillFound(a, lits, conflict, q0, q, w);
        if w in a.at && a.Level(w) == a.Top() {
          BelowOf(a, mark, q0, q, w);
        }
      } else {
        OneStepOn(a, lits, conflict, q0, q, u, w);
      }
    }
    forall w | Found(a, lits, conflict, q, w)
      ensures w in more || OnTopFrom(a, q, w)
    {
      var p :| Leads(a, lits, conflict, q, p, w);
      if Leads(a, lits, conflict, q0, p, w) {
        assert Found(a, lits, conflict, q0, w);
      } else {
        PathSplits(a, hist, lits, conflict, mark, q0, q, p, w);
      }
    }
  }

  lemma BelowOf(a: Assignment, mark: set<nat>, q0: nat, q: nat, w: nat)
    requires a.Indexed() && IsNext(a, mark, q0, q) && w in mark && w in a.at && w != a.trail[q].lit.idx && a.at[w] < q0
    ensures a.at[w] < q
  {
    assert a.trail[a.at[w]].lit.idx == w;
  }

  lemma StillFound(a: Assignment, lits: map<nat, seq<Lit>>, conflict: nat, q0: nat, q: nat, w: nat)
    requires a.Indexed() && Found(a, lits, conflict, q0, w) && q <= q0
    ensures Found(a, lits, conflict, q, w)
  {
    var p :| Leads(a, lits, conflict, q0, p, w);
    assert forall k :: 0 <= k < |p| - 1 ==> OnTopFrom(a, q0, p[k]);
    assert Leads(a, lits, conflict, q, p, w);
  }

  lemma OneStepOn(a: Assignment, lits: map<nat, seq<Lit>>, conflict: nat, q0: nat, q: nat, u: nat, w: nat)
    requires a.Indexed() && Found(a, lits, conflict, q0, u) && q <= q0 && OnTopFrom(a, q, u) && Edge(a, lits, u, w) && w in a.at
    ensures Found(a, lits, conflict, q, w)
  {
    var p :| Leads(a, lits, conflict, q0, p, u);
    PathOn(a, lits, conflict, p, w);
    assert forall k :: 0 <= k < |p| - 1 ==> OnTopFrom(a, q0, p[k]);
    assert Leads(a, lits, conflict, q, p + [w], w);
  }

  /** When no other one of the level is marked, all paths meet at q. */
  lemma ExploreEnd(a: Assignment, hist: map<nat, Clause>, lits: map<nat, seq<Lit>>, conflict: nat, mark: set<nat>, q0: nat, q: nat)
    requires a.Valid() && Ready(a, hist, lits) && conflict in lits && Conflicting(a, hist[conflict])
    requires Exploring(a, lits, conflict, mark, q0) && IsNext(a, mark, q0, q) && a.Top() > 0
    requires OnTop(a, mark - {a.trail[q].lit.idx}) == {}
    ensures IsFirstUip(a, lits, conflict, a.trail[q].lit.idx)
    ensures forall v :: v in mark - {a.trail[q].lit.idx} <==>
      v in a.at && a.Level(v) < a.Top() && Found(a, lits, conflict, q + 1, v)
  {
    hide Ready, Dominates, ReasonVars, Edge;
    var u := a.trail[q].lit.idx;
    forall v | v in a.at && a.Level(v) == a.Top() && a.at[v] > q
      ensures !Dominates(a, lits, conflict, v)
    {
      if a.at[v] < q0 {
        Avoids(a, hist, lits, conflict, q0, u, v);
      } else {
        assert OnTopFrom(a, q0, v);
      }
    }
    AllMeet(a, hist, lits, conflict, mark, q0, q);
    forall v | v in mark - {u}
      ensures v in a.at && a.Level(v) < a.Top() && Found(a, lits, conflict, q + 1, v)
    {
      StillFound(a, lits, conflict, q0, q + 1, v);
      assert v !in OnTop(a, mark - {u});
      LevelsRise(a, a.at[v], |a.trail| - 1);
    }
    forall v | v in a.at && a.Level(v) < a.Top() && Found(a, lits, conflict, q + 1, v)
      ensures v in mark - {u}
    {
      FoundBefore(a, hist, lits, conflict, mark, q0, q, v);
    }
  }

  lemma FoundBefore(a: Assignment, hist: map<nat, Clause>, lits: map<nat, seq<Lit>>, conflict: nat, mark: set<nat>, q0: nat, q: nat, v: nat)
    requires a.Valid() && Ready(a, hist, lits) && Exploring(a, lits, conflict, mark, q0) && IsNext(a, mark, q0, q)
    requires Found(a, lits, conflict, q + 1, v)
    ensures Found(a, lits, conflict, q0, v)
  {
    hide Ready, Dominates, Edge;
    var p :| Leads(a, lits, conflict, q + 1, p, v);
    if !Leads(a, lits, conflict, q0, p, v) {
      var k := FirstBelow(a, q0, p, |p| - 1);
      PathPrefix(a, lits, conflict, p, k);
      assert Leads(a, lits, conflict, q0, p[..k+1], p[k]);
      assert OnTopFrom(a, q + 1, p[k]);
      NothingBetween(a, hist, lits, conflict, mark, q0, q, p[k]);
    }
  }

  lemma AllMeet(a: Assignment, hist: map<nat, Clause>, lits: map<nat, seq<Lit>>, conflict: nat, mark: set<nat>, q0: nat, q: nat)
    requires a.Valid() && Ready(a, hist, lits) && conflict in lits && Conflicting(a, hist[conflict])
    requires Exploring(a, lits, conflict, mark, q0) && IsNext(a, mark, q0, q)
    requires OnTop(a, mark - {a.trail[q].lit.idx}) == {} && a.Top() > 0
    ensures Dominates(a, lits, conflict, a.trail[q].lit.idx)
  {
    hide Ready, Edge;
    forall p | IsComplete(a, lits, conflict, p)
      ensures a.trail[q].lit.idx in p
    {
      EndsBelow(a, lits, conflict, mark, q0, p);
      var k := FirstBelow(a, q0, p, |p|);
      PathPrefix(a, lits, conflict, p, k);
      CompleteStays(a, hist, lits, conflict, p, k);
      assert Leads(a, lits, conflict, q0, p[..k+1], p[k]);
      assert Found(a, lits, conflict, q0, p[k]);
      assert p[k] !in OnTop(a, mark - {a.trail[q].lit.idx});
    }
  }

  lemma EndsBelow(a: Assignment, lits: map<nat, seq<Lit>>, conflict: nat, mark: set<nat>, q0: nat, p: seq<nat>)
    requires a.Valid() && Exploring(a, lits, conflict, mark, q0) && a.Top() > 0 && IsComplete(a, lits, conflict, p)
    ensures !OnTopFrom(a, q0, p[|p| - 1])
  {
    DecisionDominates(a, lits, conflict, p[|p| - 1]);
  }

  /** r is the clause that started it, or the reason of a variable found on the conflict level. */
  ghost predicate IsUsed(a: Assignment, lits: map<nat, seq<Lit>>, conflict: nat, q: nat, r: nat)
    requires a.Indexed()
  {
    r == conflict || exists v :: OnTopFrom(a, q, v) && Found(a, lits, conflict, q, v) && a.Reason(v) == r
  }

  ghost predicate Used(a: Assignment, lits: map<nat, seq<Lit>>, conflict: nat, ids: set<nat>, q: nat)
    requires a.Indexed()
  {
    forall r :: r in ids <==> IsUsed(a, lits, conflict, q, r)
  }

  lemma UsedStart(a: Assignment, lits: map<nat, seq<Lit>>, conflict: nat)
    requires a.Indexed()
    ensures Used(a, lits, conflict, {conflict}, |a.trail|)
  {
  }

  /** The reason of the variable at q is used next. */
  lemma UsedStep(a: Assignment, hist: map<nat, Clause>, lits: map<nat, seq<Lit>>, conflict: nat, mark: set<nat>, ids: set<nat>,
                 q0: nat, q: nat)
    requires a.Valid() && Ready(a, hist, lits) && Exploring(a, lits, conflict, mark, q0) && IsNext(a, mark, q0, q)
    requires Used(a, lits, conflict, ids, q0)
    ensures Used(a, lits, conflict, ids, q + 1) && Used(a, lits, conflict, ids + {a.trail[q].reason}, q)
  {
    hide Ready, Exploring, Found;
    var u := a.trail[q].lit.idx;
    forall v
      ensures OnTopFrom(a, q, v) && Found(a, lits, conflict, q, v) <==>
        v == u || (OnTopFrom(a, q + 1, v) && Found(a, lits, conflict, q + 1, v))
      ensures OnTopFrom(a, q + 1, v) && Found(a, lits, conflict, q + 1, v) <==> OnTopFrom(a, q0, v) && Found(a, lits, conflict, q0, v)
    {
      UsedVar(a, hist, lits, conflict, mark, q0, q, v);
    }
    forall r
      ensures IsUsed(a, lits, conflict, q + 1, r) <==> IsUsed(a, lits, conflict, q0, r)
      ensures IsUsed(a, lits, conflict, q, r) <==> IsUsed(a, lits, conflict, q0, r) || r == a.trail[q].reason
    {
      SameUse(a, lits, conflict, q0, q + 1, r);
      OneMoreUse(a, lits, conflict, q, u, r);
    }
  }

  lemma SameUse(a: Assignment, lits: map<nat, seq<Lit>>, conflict: nat, q0: nat, q: nat, r: nat)
    requires a.Indexed()
    requires forall v :: OnTopFrom(a, q, v) && Found(a, lits, conflict, q, v) <==> OnTopFrom(a, q0, v) && Found(a, lits, conflict, q0, v)
    ensures IsUsed(a, lits, conflict, q, r) <==> IsUsed(a, lits, conflict, q0, r)
  {
    hide Found;
  }

  lemma OneMoreUse(a: Assignment, lits: map<nat, seq<Lit>>, conflict: nat, q: nat, u: nat, r: nat)
    requires a.Indexed() && u in a.at
    requires forall v :: OnTopFrom(a, q, v) && Found(a, lits, conflict, q, v) <==>
      v == u || (OnTopFrom(a, q + 1, v) && Found(a, lits, conflict, q + 1, v))
    ensures IsUsed(a, lits, conflict, q, r) <==> IsUsed(a, lits, conflict, q + 1, r) || r == a.Reason(u)
  {
    hide Found;
    assert OnTopFrom(a, q, u) && Found(a, lits, conflict, q, u);
    if v :| OnTopFrom(a, q + 1, v) && Found(a, lits, conflict, q + 1, v) && a.Reason(v) == r {
      assert OnTopFrom(a, q, v) && Found(a, lits, conflict, q, v);
    }
  }

  lemma UsedVar(a: Assignment, hist: map<nat, Clause>, lits: map<nat, seq<Lit>>, conflict: nat, mark: set<nat>, q0: nat, q: nat, v: nat)
    requires a.Valid() && Ready(a, hist, lits) && Exploring(a, lits, conflict, mark, q0) && IsNext(a, mark, q0, q)
    ensures OnTopFrom(a, q, v) && Found(a, lits, conflict, q, v) <==>
      v == a.trail[q].lit.idx || (OnTopFrom(a, q + 1, v) && Found(a, lits, conflict, q + 1, v))
    ensures OnTopFrom(a, q + 1, v) && Found(a, lits, conflict, q + 1, v) <==> OnTopFrom(a, q0, v) && Found(a, lits, conflict, q0, v)
  {
    hide Ready, Found, Dominates;
    var u := a.trail[q].lit.idx;
    StillFound(a, lits, conflict, q0, q, u);
    assert OnTopFrom(a, q, u);
    if Found(a, lits, conflict, q + 1, v) {
      FoundBefore(a, hist, lits, conflict, mark, q0, q, v);
      StillFound(a, lits, conflict, q + 1, q, v);
    }
    if OnTopFrom(a, q, v) && v != u {
      assert a.trail[a.at[v]].lit.idx == v;
      if a.at[v] < q0 {
        NothingBetween(a, hist, lits, conflict, mark, q0, q, v);
      }
      if Found(a, lits, conflict, q, v) {
        FoundAbove(a, hist, lits, conflict, q, v);
        StillFound(a, lits, conflict, a.at[v], q + 1, v);
      }
    }
    if Found(a, lits, conflict, q0, v) {
      StillFound(a, lits, conflict, q0, q + 1, v);
    }
  }

  /** What leads to a variable comes after it. */
  lemma FoundAbove(a: Assignment, hist: map<nat, Clause>, lits: map<nat, seq<Lit>>, conflict: nat, q: nat, v: nat)
    requires a.Valid() && Ready(a, hist, lits) && Found(a, lits, conflict, q, v) && v in a.at
    ensures Found(a, lits, conflict, a.at[v], v)
  {
    hide Ready, Edge;
    var p :| Leads(a, lits, conflict, q, p, v);
    forall k | 0 <= k < |p| - 1
      ensures OnTopFrom(a, a.at[v], p[k])
    {
      assert OnTopFrom(a, q, p[k]);
      PathFalls(a, hist, lits, conflict, p, k, |p| - 1);
    }
    assert Leads(a, lits, conflict, a.at[v], p, v);
  }

  lemma {:induction false} NoneBelow(a: Assignment, lits: map<nat, seq<Lit>>, conflict: nat, q0: nat, p: seq<nat>, v: nat, n: nat)
    requires a.Indexed() && Exploring(a, lits, conflict, {}, q0) && Leads(a, lits, conflict, 0, p, v) && n < |p|
    ensures forall k :: 0 <= k < n ==> OnTopFrom(a, q0, p[k])
  {
    hide Edge, Dominates;
    if n > 0 {
      NoneBelow(a, lits, conflict, q0, p, v, n - 1);
      PathPrefix(a, lits, conflict, p, n - 1);
      assert OnTopFrom(a, 0, p[n-1]);
      assert Leads(a, lits, conflict, q0, p[..n], p[n-1]);
      assert Found(a, lits, conflict, q0, p[n-1]);
    }
  }

  /** If nothing is left to go on from, all that was found is used. */
  lemma UsedEnd(a: Assignment, lits: map<nat, seq<Lit>>, conflict: nat, ids: set<nat>, q0: nat)
    requires a.Indexed() && Exploring(a, lits, conflict, {}, q0) && Used(a, lits, conflict, ids, q0)
    ensures Used(a, lits, conflict, ids, 0)
  {
    hide Edge, Dominates;
    forall v
      ensures OnTopFrom(a, 0, v) && Found(a, lits, conflict, 0, v) <==> OnTopFrom(a, q0, v) && Found(a, lits, conflict, q0, v)
    {
      if Found(a, lits, conflict, 0, v) {
        var p :| Leads(a, lits, conflict, 0, p, v);
        NoneBelow(a, lits, conflict, q0, p, v, |p| - 1);
        assert Leads(a, lits, conflict, q0, p, v);
      }
      if Found(a, lits, conflict, q0, v) {
        StillFound(a, lits, conflict, q0, 0, v);
      }
    }
    forall r
      ensures IsUsed(a, lits, conflict, 0, r) <==> IsUsed(a, lits, conflict, q0, r)
    {
      SameUse(a, lits, conflict, q0, 0, r);
    }
  }

  lemma StartResolving(a: Assignment, hist: map<nat, Clause>, lits: map<nat, seq<Lit>>, conflict: nat)
    requires Ready(a, hist, lits) && conflict in lits && Conflicting(a, hist[conflict])
    ensures Resolving(a, hist, lits, conflict, Marks({}, [], 0, a.Top(), {}), [], |a.trail|, conflict)
  {
    var s := Marks({}, [], 0, a.Top(), {});
    RefuteConflict(a, hist, lits, conflict);
    assert Elements<nat>([]) + {conflict} == {conflict};
    assert s.mark + FalseVars(a, lits[conflict]) == FalseVars(a, lits[conflict]);
    if a.Top() > 0 { ConflictOnTop(a, hist, lits, conflict); }
    assert MarksOk(a, s) by { assert OnTop(a, s.mark) == {}; }
    forall l | l in lits[conflict]
      ensures a.False(l) && a.at[l.idx] < |a.trail|
    {
      assert l in hist[conflict];
    }
    assert [] + [conflict] == [conflict];
  }

  lemma AfterMarking(a: Assignment, hist: map<nat, Clause>, lits: map<nat, seq<Lit>>, conflict: nat,
                     s: Marks, resolved: seq<nat>, q: nat, c: nat, t: Marks)
    requires a.Indexed() && Resolving(a, hist, lits, conflict, s, resolved, q, c)
    requires MarksOk(a, t) && t.mark == s.mark + FalseVars(a, lits[c])
    ensures Resolved(a, hist, lits, conflict, t, resolved + [c], q)
    ensures a.Top() > 0 ==> OnTop(a, t.mark) != {}
  {
    hide NoDup, MarksOk, Refuted, Provenance;
    NoDupAppend(resolved, c);
    assert Elements(resolved + [c]) == Elements(resolved) + {c};
  }

  /** The variable found at q becomes the one to resolve on. */
  function Unmark(a: Assignment, s: Marks, q: nat): Marks
    requires q < |a.trail|
  {
    s.(mark := s.mark - {a.trail[q].lit.idx}, open := if s.open > 0 then s.open - 1 else 0)
  }

  lemma AfterPicking(a: Assignment, hist: map<nat, Clause>, lits: map<nat, seq<Lit>>, conflict: nat,
                     s: Marks, resolved: seq<nat>, q0: nat, q: nat)
    requires Ready(a, hist, lits) && conflict in lits && Conflicting(a, hist[conflict])
    requires Resolved(a, hist, lits, conflict, s, resolved, q0) && (a.Top() > 0 ==> OnTop(a, s.mark) != {})
    requires q < q0 && a.trail[q].lit.idx in s.mark
    requires forall i :: q + 1 <= i < q0 ==> a.trail[i].lit.idx !in s.mark
    ensures s.open > 0 && MarksOk(a, Unmark(a, s, q)) && a.trail[q].level == a.Top()
    ensures Ahead(a, Unmark(a, s, q).mark, q)
    ensures Refuted(a, hist, Elements(resolved), Unmark(a, s, q).mark + {a.trail[q].lit.idx})
    ensures Provenance(a, resolved, conflict, q + 1)
  {
    hide NoDup, Refuted, Reasoned, Arranged, Conflicting;
    TopOfMarks(a, s.mark, q0, q);
    UnmarkOk(a, s, a.trail[q].lit.idx);
    assert s.mark == Unmark(a, s, q).mark + {a.trail[q].lit.idx};
  }

  lemma NextResolving(a: Assignment, hist: map<nat, Clause>, lits: map<nat, seq<Lit>>, conflict: nat,
                      s: Marks, resolved: seq<nat>, q: nat)
    requires Ready(a, hist, lits) && conflict in lits && Conflicting(a, hist[conflict])
    requires q < |a.trail| && a.trail[q].reason != 0 && a.trail[q].level == a.Top()
    requires MarksOk(a, s) && Ahead(a, s.mark, q) && NoDup(resolved) && Elements(resolved) <= lits.Keys
    requires Provenance(a, resolved, conflict, q + 1)
    requires Refuted(a, hist, Elements(resolved), s.mark + {a.trail[q].lit.idx})
    requires a.Top() > 0 ==> OnTop(a, s.mark) != {}
    ensures Resolving(a, hist, lits, conflict, s, resolved, q, a.trail[q].reason)
  {
    FreshReason(a, hist, resolved, conflict, q);
    RefuteResolve(a, hist, lits, Elements(resolved), s.mark, a.trail[q].lit.idx);
    ReasonBelow(a, hist, lits, q);
    hide NoDup, MarksOk, Refuted, Reasoned, Arranged, Conflicting;
    var r := a.trail[q].reason;
    assert Provenance(a, resolved + [r], conflict, q) by {
      assert UsedFrom(a, r, q);
    }
    assert OnTop(a, s.mark) <= OnTop(a, s.mark + FalseVars(a, lits[r]));
  }

  /** What the first phase ends with. */
  lemma UipReached(a: Assignment, hist: map<nat, Clause>, lits: map<nat, seq<Lit>>, conflict: nat, mark: set<nat>, ids: set<nat>,
                   q0: nat, q: nat)
    requires a.Valid() && Ready(a, hist, lits) && conflict in lits && Conflicting(a, hist[conflict])
    requires Exploring(a, lits, conflict, mark, q0) && IsNext(a, mark, q0, q) && a.Top() > 0
    requires OnTop(a, mark - {a.trail[q].lit.idx}) == {} && Used(a, lits, conflict, ids, q0)
    ensures var u := a.trail[q].lit.idx;
      && IsFirstUip(a, lits, conflict, u) && Used(a, lits, conflict, ids, a.at[u] + 1)
      && forall v :: v in mark - {u} <==> OnFirstSide(a, lits, conflict, u, v)
  {
    hide Exploring, Used, IsFirstUip, Ready, Conflicting;
    ExploreEnd(a, hist, lits, conflict, mark, q0, q);
    UsedStep(a, hist, lits, conflict, mark, ids, q0, q);
  }

  /** The state of the first phase, with clause c to resolve with next. */
  ghost predicate Phase(a: Assignment, hist: map<nat, Clause>, lits: map<nat, seq<Lit>>, conflict: nat,
                        s: Marks, resolved: seq<nat>, q: nat, c: nat)
    requires a.Indexed()
  {
    && Resolving(a, hist, lits, conflict, s, resolved, q, c)
    && Exploring(a, lits, conflict, s.mark + FalseVars(a, lits[c]), q)
    && Used(a, lits, conflict, Elements(resolved) + {c}, q)
  }

  /** With c resolved. */
  ghost predicate Paused(a: Assignment, hist: map<nat, Clause>, lits: map<nat, seq<Lit>>, conflict: nat,
                         s: Marks, resolved: seq<nat>, q: nat)
    requires a.Indexed()
  {
    && Resolved(a, hist, lits, conflict, s, resolved, q) && (a.Top() > 0 ==> OnTop(a, s.mark) != {})
    && Exploring(a, lits, conflict, s.mark, q)
    && Used(a, lits, conflict, Elements(resolved), q)
  }

  /** What the first phase gives. */
  ghost predicate UipFound(a: Assignment, hist: map<nat, Clause>, lits: map<nat, seq<Lit>>, conflict: nat,
                           uip: nat, s: Marks, resolved: seq<nat>)
    requires a.Indexed()
  {
    && MarksOk(a, s) && OnTop(a, s.mark) == {}
    && NoDup(resolved) && Elements(resolved) <= lits.Keys && Provenance(a, resolved, conflict, 0)
    && (if a.Top() == 0 then
          && uip == 0 && s.mark == {} && Refuted(a, hist, Elements(resolved), {})
          && Used(a, lits, conflict, Elements(resolved), 0)
        else
          && uip in a.at && a.Level(uip) == a.Top() && Refuted(a, hist, Elements(resolved), s.mark + {uip})
          && IsFirstUip(a, lits, conflict, uip)
          && (forall v :: v in s.mark <==> OnFirstSide(a, lits, conflict, uip, v))
          && Used(a, lits, conflict, Elements(resolved), a.at[uip] + 1))
  }

  lemma PhaseStart(a: Assignment, hist: map<nat, Clause>, lits: map<nat, seq<Lit>>, conflict: nat)
    requires Ready(a, hist, lits) && conflict in lits && Conflicting(a, hist[conflict])
    ensures Phase(a, hist, lits, conflict, Marks({}, [], 0, a.Top(), {}), [], |a.trail|, conflict)
  {
    hide Resolving, Exploring, Used, Ready, Conflicting;
    ReadyIsValid(a, hist, lits);
    StartResolving(a, hist, lits, conflict);
    ExploreStart(a, hist, lits, conflict);
    UsedStart(a, lits, conflict);
    assert Elements<nat>([]) + {conflict} == {conflict};
  }

  lemma PhaseFacts(a: Assignment, hist: map<nat, Clause>, lits: map<nat, seq<Lit>>, conflict: nat,
                   s: Marks, resolved: seq<nat>, q: nat, c: nat)
    requires a.Indexed() && Phase(a, hist, lits, conflict, s, resolved, q, c)
    ensures MarksOk(a, s) && c in lits && q <= |a.trail| && forall l :: l in lits[c] ==> a.True(l) || a.False(l)
  {
    hide Exploring, Used, MarksOk;
  }

  lemma PhasePauses(a: Assignment, hist: map<nat, Clause>, lits: map<nat, seq<Lit>>, conflict: nat,
                    s: Marks, resolved: seq<nat>, q: nat, c: nat, t: Marks)
    requires a.Indexed() && Phase(a, hist, lits, conflict, s, resolved, q, c) && c in lits
    requires MarksOk(a, t) && t.mark == s.mark + FalseVars(a, lits[c])
    ensures Paused(a, hist, lits, conflict, t, resolved + [c], q)
  {
    hide Resolving, Resolved, Exploring, Used, MarksOk;
    AfterMarking(a, hist, lits, conflict, s, resolved, q, c, t);
    assert Elements(resolved + [c]) == Elements(resolved) + {c};
  }

  /** No marked variable is left below q. */
  lemma PhaseRunsOut(a: Assignment, hist: map<nat, Clause>, lits: map<nat, seq<Lit>>, conflict: nat, s: Marks, resolved: seq<nat>, q: nat)
    requires Ready(a, hist, lits) && Paused(a, hist, lits, conflict, s, resolved, q)
    requires forall i :: 0 <= i < q ==> a.trail[i].lit.idx !in s.mark
    ensures UipFound(a, hist, lits, conflict, 0, s, resolved)
  {
    hide Exploring, Used, Refuted, Ready, NoDup, MarksOk;
    ReadyIsValid(a, hist, lits);
    NothingLeft(a, s, q);
    UsedEnd(a, lits, conflict, Elements(resolved), q);
    LaterIsMore(a, resolved, conflict, q, 0);
    assert s.mark == {};
    assert OnTop(a, s.mark) == {};
  }

  lemma ReadyIsValid(a: Assignment, hist: map<nat, Clause>, lits: map<nat, seq<Lit>>)
    requires Ready(a, hist, lits)
    ensures a.Valid()
  {
  }

  lemma LaterIsMore(a: Assignment, resolved: seq<nat>, conflict: nat, q: nat, p: nat)
    requires Provenance(a, resolved, conflict, q) && p <= q
    ensures Provenance(a, resolved, conflict, p)
  {
    forall r | r in resolved && r != conflict
      ensures UsedFrom(a, r, p)
    {
      assert UsedFrom(a, r, q);
    }
  }

  /** The next marked variable below q0 is at q. */
  lemma PhaseMoves(a: Assignment, hist: map<nat, Clause>, lits: map<nat, seq<Lit>>, conflict: nat,
                   s: Marks, resolved: seq<nat>, q0: nat, q: nat)
    requires a.Valid() && Ready(a, hist, lits) && conflict in lits && conflict in hist && Conflicting(a, hist[conflict])
    requires Paused(a, hist, lits, conflict, s, resolved, q0) && q < q0 <= |a.trail| && a.trail[q].lit.idx in s.mark
    requires forall i :: q + 1 <= i < q0 ==> a.trail[i].lit.idx !in s.mark
    ensures var u, t := a.trail[q].lit.idx, Unmark(a, s, q);
      if (t.open == 0 && a.Top() > 0) || a.trail[q].reason == 0 then UipFound(a, hist, lits, conflict, u, t, resolved)
      else Phase(a, hist, lits, conflict, t, resolved, q, a.trail[q].reason)
  {
    hide Exploring, Used, Ready, Refuted, Conflicting, IsFirstUip, OnFirstSide, NoDup, Provenance;
    var u, t := a.trail[q].lit.idx, Unmark(a, s, q);
    AfterPicking(a, hist, lits, conflict, s, resolved, q0, q);
    assert t.mark == s.mark - {u};
    if a.trail[q].reason == 0 {
      DecisionIsFirst(a, t.mark, q);
    }
    OpenOrNot(a, t);
    if (t.open == 0 && a.Top() > 0) || a.trail[q].reason == 0 {
      UipReached(a, hist, lits, conflict, s.mark, Elements(resolved), q0, q);
      LaterIsMore(a, resolved, conflict, q + 1, 0);
    } else {
      NextResolving(a, hist, lits, conflict, t, resolved, q);
      ExploreStep(a, hist, lits, conflict, s.mark, q0, q);
      UsedStep(a, hist, lits, conflict, s.mark, Elements(resolved), q0, q);
    }
  }

  lemma OpenOrNot(a: Assignment, s: Marks)
    requires a.Indexed() && MarksOk(a, s)
    ensures s.open == 0 <==> OnTop(a, s.mark) == {}
  {
  }

  /** First phase: resolve backwards along the trail until one current-level variable is left, which is the first unique
      implication point. */
  method FirstUip(a: Assignment, lits: map<nat, seq<Lit>>, ghost hist: map<nat, Clause>, conflict: nat)
    returns (uip: nat, s: Marks, resolved: seq<nat>)
    requires a.Valid() && a.Indexed() && Ready(a, hist, lits) && conflict in lits && conflict in hist && Conflicting(a, hist[conflict])
    ensures UipFound(a, hist, lits, conflict, uip, s, resolved)
  {
    hide *;
    s := Marks({}, [], 0, a.Top(), {});
    resolved := [];
    var q: nat, c: nat := |a.trail|, conflict;
    PhaseStart(a, hist, lits, conflict);
    while true
      invariant Phase(a, hist, lits, conflict, s, resolved, q, c)
      decreases q
    {
      PhaseFacts(a, hist, lits, conflict, s, resolved, q, c);
      ghost var s0 := s;
      s := MarkClause(a, lits[c], s);
      PhasePauses(a, hist, lits, conflict, s0, resolved, q, c, s);
      resolved := resolved + [c];
      var found, q' := NextMarked(a, s.mark, q);
      if !found {
        PhaseRunsOut(a, hist, lits, conflict, s, resolved, q);
        uip := 0;
        return;
      }
      PhaseMoves(a, hist, lits, conflict, s, resolved, q, q');
      s := Unmark(a, s, q');
      uip := a.trail[q'].lit.idx;
      q, c := q', a.trail[q'].reason;
      if (s.open == 0 && a.Top() > 0) || c == 0 {
        return;
      }
    }
  }
}
