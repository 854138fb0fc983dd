/** The implication graph: which assigned variables led to which, and what the first unique implication point is. */
module Graph {
  import opened Cnf
  import opened Sequences
  import opened Trail
  import opened Analysis

  function VarsOf(c: seq<Lit>): (r: set<nat>)
    ensures forall v :: v in r <==> exists l :: l in c && l.idx == v
  {
    set l | l in c :: l.idx
  }

  /** The variables of u's reason clause, u itself included. */
  function ReasonVars(a: Assignment, lits: map<nat, seq<Lit>>, u: nat): set<nat>
    requires a.Indexed() && u in a.at
  {
    if a.Reason(u) in lits then VarsOf(lits[a.Reason(u)]) else {}
  }

  lemma ReasonFacts(a: Assignment, hist: map<nat, Clause>, lits: map<nat, seq<Lit>>, u: nat)
    requires Ready(a, hist, lits) && u in a.at && a.Reason(u) != 0
    ensures a.Reason(u) in lits && u in ReasonVars(a, lits, u)
    ensures forall w :: w in ReasonVars(a, lits, u) ==> w in a.at && (w == u || a.at[w] < a.at[u])
    ensures forall l :: l in lits[a.Reason(u)] && l.idx != u ==> a.False(l)
    ensures a.Level(u) == 0 ==> ReasonVars(a, lits, u) == {u}
  {
    var e := a.trail[a.at[u]];
    assert Justified(a, hist, e, a.at[u]);
    assert lits[e.reason] == lits[a.Reason(u)] && Elements(lits[e.reason]) == hist[e.reason];
    assert e.lit in lits[e.reason];
    forall w | w in ReasonVars(a, lits, u)
      ensures w in a.at && (w == u || a.at[w] < a.at[u])
    {
      var l :| l in lits[e.reason] && l.idx == w;
      assert l in hist[e.reason];
    }
  }

  /** u was forced by a clause in which w is one of the other variables. */
  ghost predicate Edge(a: Assignment, lits: map<nat, seq<Lit>>, u: nat, w: nat)
    requires a.Indexed()
  {
    u in a.at && a.Reason(u) != 0 && w in ReasonVars(a, lits, u) && w != u
  }

  /** A path starts in the conflict and leads from variables to reasons for them. */
  ghost predicate IsPath(a: Assignment, lits: map<nat, seq<Lit>>, conflict: nat, p: seq<nat>)
    requires a.Indexed()
  {
    && p != [] && conflict in lits && p[0] in VarsOf(lits[conflict])
    && forall k :: 0 <= k < |p| - 1 ==> Edge(a, lits, p[k], p[k+1])
  }

  /** It ends in the decision of the conflict level. */
  ghost predicate IsComplete(a: Assignment, lits: map<nat, seq<Lit>>, conflict: nat, p: seq<nat>)
    requires a.Indexed()
  {
    && IsPath(a, lits, conflict, p)
    && var d := p[|p| - 1]; d in a.at && a.Reason(d) == 0 && a.Level(d) == a.Top()
  }

  /** A unique implication point: no path gets around v. */
  ghost predicate Dominates(a: Assignment, lits: map<nat, seq<Lit>>, conflict: nat, v: nat)
    requires a.Indexed()
  {
    forall p :: IsComplete(a, lits, conflict, p) ==> v in p
  }

  /** And the one closest to the conflict. */
  ghost predicate IsFirstUip(a: Assignment, lits: map<nat, seq<Lit>>, conflict: nat, uip: nat)
    requires a.Indexed()
  {
    && uip in a.at && a.Level(uip) == a.Top() && Dominates(a, lits, conflict, uip)
    && forall v :: v in a.at && a.Level(v) == a.Top() && a.at[v] > a.at[uip] ==> !Dominates(a, lits, conflict, v)
  }

  /** A path leads to w, and all before w are on the conflict level, at position q or later. */
  ghost predicate Leads(a: Assignment, lits: map<nat, seq<Lit>>, conflict: nat, q: nat, p: seq<nat>, w: nat)
    requires a.Indexed()
  {
    && IsPath(a, lits, conflict, p) && p[|p| - 1] == w && w in a.at
    && forall k :: 0 <= k < |p| - 1 ==> OnTopFrom(a, q, p[k])
  }

  predicate OnTopFrom(a: Assignment, q: nat, v: nat)
    requires a.Indexed()
  {
    v in a.at && a.Level(v) == a.Top() && a.at[v] >= q
  }

  ghost predicate Found(a: Assignment, lits: map<nat, seq<Lit>>, conflict: nat, q: nat, w: nat)
    requires a.Indexed()
  {
    exists p :: Leads(a, lits, conflict, q, p, w)
  }

  /** On a lower level, but needed for the part of the conflict after the implication point. */
  ghost predicate OnFirstSide(a: Assignment, lits: map<nat, seq<Lit>>, conflict: nat, uip: nat, v: nat)
    requires a.Indexed() && uip in a.at
  {
    v in a.at && a.Level(v) < a.Top() && Found(a, lits, conflict, a.at[uip] + 1, v)
  }

  lemma ConflictVars(a: Assignment, hist: map<nat, Clause>, lits: map<nat, seq<Lit>>, c: nat)
    requires Ready(a, hist, lits) && c in lits && Conflicting(a, hist[c])
    ensures VarsOf(lits[c]) == FalseVars(a, lits[c]) <= a.at.Keys
  {
    forall l | l in lits[c]
      ensures a.False(l)
    {
      assert l in Elements(lits[c]);
    }
  }

  lemma EdgeFacts(a: Assignment, hist: map<nat, Clause>, lits: map<nat, seq<Lit>>, u: nat)
    requires Ready(a, hist, lits) && u in a.at && a.Reason(u) != 0
    ensures a.Reason(u) in lits
    ensures forall w :: Edge(a, lits, u, w) <==> w in FalseVars(a, lits[a.Reason(u)])
    ensures forall w :: Edge(a, lits, u, w) ==> w in a.at && a.at[w] < a.at[u] && a.Level(w) <= a.Level(u)
  {
    ReasonFacts(a, hist, lits, u);
    var e := a.trail[a.at[u]];
    assert Justified(a, hist, e, a.at[u]);
    forall w | Edge(a, lits, u, w)
      ensures w in FalseVars(a, lits[a.Reason(u)]) && a.Level(w) <= a.Level(u)
    {
      LevelsRise(a, a.at[w], a.at[u]);
      var l :| l in lits[a.Reason(u)] && l.idx == w;
    }
    forall l | l in lits[a.Reason(u)] && a.False(l)
      ensures l.idx != u
    {
      assert l in hist[e.reason] && !a.False(e.lit);
    }
  }

  /** A variable that was forced above level 0 was so by one on its own level, among others. */
  lemma SameLevelEdge(a: Assignment, hist: map<nat, Clause>, lits: map<nat, seq<Lit>>, u: nat) returns (w: nat)
    requires Ready(a, hist, lits) && u in a.at && a.Reason(u) != 0 && a.Level(u) > 0
    ensures Edge(a, lits, u, w) && w in a.at && a.Level(w) == a.Level(u) && a.at[w] < a.at[u]
  {
    EdgeFacts(a, hist, lits, u);
    var e := a.trail[a.at[u]];
    assert Justified(a, hist, e, a.at[u]);
    var l :| l in hist[e.reason] && l != e.lit && a.False(l) && a.Level(l.idx) == e.level;
    w := l.idx;
    assert l in lits[e.reason];
  }

  /** Every variable of the conflict level leads down to the decision. */
  lemma {:induction false} DownToDecision(a: Assignment, hist: map<nat, Clause>, lits: map<nat, seq<Lit>>, conflict: nat, p: seq<nat>)
      returns (r: seq<nat>)
    requires Ready(a, hist, lits) && IsPath(a, lits, conflict, p) && p[|p| - 1] in a.at
    requires a.Level(p[|p| - 1]) == a.Top() > 0
    ensures IsComplete(a, lits, conflict, p + r) && forall v :: v in r ==> v in a.at && a.at[v] < a.at[p[|p| - 1]]
    decreases a.at[p[|p| - 1]]
  {
    var u := p[|p| - 1];
    if a.Reason(u) == 0 {
      r := [];
      assert p + r == p;
    } else {
      var w := SameLevelEdge(a, hist, lits, u);
      PathOn(a, lits, conflict, p, w);
      var rest := DownToDecision(a, hist, lits, conflict, p + [w]);
      r := [w] + rest;
      assert p + r == p + [w] + rest;
    }
  }

  lemma PathOn(a: Assignment, lits: map<nat, seq<Lit>>, conflict: nat, p: seq<nat>, w: nat)
    requires a.Indexed() && IsPath(a, lits, conflict, p) && Edge(a, lits, p[|p| - 1], w)
    ensures IsPath(a, lits, conflict, p + [w])
  {
    var s := p + [w];
    forall k | 0 <= k < |s| - 1
      ensures Edge(a, lits, s[k], s[k+1])
    {
      if k < |p| - 1 {
        assert s[k] == p[k] && s[k+1] == p[k+1];
      }
    }
  }

  /** What is found at w gets around every other variable from w's position on that the path does not touch. */
  lemma Avoids(a: Assignment, hist: map<nat, Clause>, lits: map<nat, seq<Lit>>, conflict: nat, q: nat, w: nat, v: nat)
    requires Ready(a, hist, lits) && Found(a, lits, conflict, q, w) && w in a.at && a.Level(w) == a.Top() > 0
    requires v in a.at && a.at[w] < a.at[v] < q
    ensures !Dominates(a, lits, conflict, v)
  {
    var p :| Leads(a, lits, conflict, q, p, w);
    var r := DownToDecision(a, hist, lits, conflict, p);
    forall k | 0 <= k < |p|
      ensures p[k] != v
    {
      assert k < |p| - 1 ==> OnTopFrom(a, q, p[k]);
    }
    assert v !in p + r;
  }

  /** Along a path positions fall and levels never rise. */
  lemma {:induction false} PathFalls(a: Assignment, hist: map<nat, Clause>, lits: map<nat, seq<Lit>>, conflict: nat, p: seq<nat>, i: nat, j: nat)
    requires a.Indexed() && Ready(a, hist, lits) && IsPath(a, lits, conflict, p) && i < j < |p| && p[i] in a.at
    ensures p[j] in a.at && a.at[p[j]] < a.at[p[i]] && a.Level(p[j]) <= a.Level(p[i])
    decreases j
  {
    hide Ready, ReasonVars, Edge;
    if i < j - 1 {
      PathFalls(a, hist, lits, conflict, p, i, j - 1);
    }
    assert Edge(a, lits, p[j-1], p[j]);
    EdgeFalls(a, hist, lits, p[j-1], p[j]);
  }

  lemma EdgeFalls(a: Assignment, hist: map<nat, Clause>, lits: map<nat, seq<Lit>>, u: nat, w: nat)
    requires a.Indexed() && Ready(a, hist, lits) && Edge(a, lits, u, w)
    ensures u in a.at && w in a.at && a.at[w] < a.at[u] && a.Level(w) <= a.Level(u)
  {
    hide Ready, ReasonVars;
    EdgeFacts(a, hist, lits, u);
  }

  /** A level has one decision, so that each path ends in the same. */
  lemma DecisionDominates(a: Assignment, lits: map<nat, seq<Lit>>, conflict: nat, d: nat)
    requires a.Valid() && d in a.at && a.Reason(d) == 0 && a.Level(d) == a.Top()
    ensures Dominates(a, lits, conflict, d)
  {
    forall p | IsComplete(a, lits, conflict, p)
      ensures d in p
    {
      OneDecision(a, a.at[d], a.at[p[|p| - 1]]);
      OneDecision(a, a.at[p[|p| - 1]], a.at[d]);
      assert p[|p| - 1] in p;
    }
  }

  lemma OneDecision(a: Assignment, i: nat, j: nat)
    requires a.Valid() && i < |a.trail| && j < |a.trail| && a.trail[i].reason == a.trail[j].reason == 0
    requires a.trail[i].level == a.trail[j].level
    ensures i <= j
  {
    if j < i {
      assert a.trail[i].level == a.LevelBefore(i) + 1;
      LevelsRise(a, j, i - 1);
    }
  }

  lemma PathAssigned(a: Assignment, hist: map<nat, Clause>, lits: map<nat, seq<Lit>>, conflict: nat, p: seq<nat>, k: nat)
    requires Ready(a, hist, lits) && conflict in lits && Conflicting(a, hist[conflict]) && IsPath(a, lits, conflict, p) && k < |p|
    ensures p[k] in a.at && a.Level(p[k]) <= a.Top()
  {
    ConflictVars(a, hist, lits, conflict);
    if k > 0 {
      PathFalls(a, hist, lits, conflict, p, 0, k);
    }
    LevelsRise(a, a.at[p[k]], |a.trail| - 1);
  }

  /** A path to the decision never leaves the level. */
  lemma CompleteStays(a: Assignment, hist: map<nat, Clause>, lits: map<nat, seq<Lit>>, conflict: nat, p: seq<nat>, k: nat)
    requires Ready(a, hist, lits) && conflict in lits && Conflicting(a, hist[conflict]) && IsComplete(a, lits, conflict, p) && k < |p|
    ensures p[k] in a.at && a.Level(p[k]) == a.Top()
  {
    PathAssigned(a, hist, lits, conflict, p, k);
    if k < |p| - 1 {
      PathFalls(a, hist, lits, conflict, p, k, |p| - 1);
    }
  }

  lemma PathPrefix(a: Assignment, lits: map<nat, seq<Lit>>, conflict: nat, p: seq<nat>, k: nat)
    requires a.Indexed() && IsPath(a, lits, conflict, p) && k < |p|
    ensures IsPath(a, lits, conflict, p[..k+1]) && p[..k+1][|p[..k+1]| - 1] == p[k]
  {
  }

  /** From u a path leads to a decision without touching vs. */
  ghost predicate Rooted(a: Assignment, lits: map<nat, seq<Lit>>, vs: set<nat>, u: nat)
    requires a.Indexed() && u in a.at
    decreases a.at[u]
  {
    u !in vs && (a.Reason(u) == 0 || exists w :: Edge(a, lits, u, w) && w in a.at && a.at[w] < a.at[u] && Rooted(a, lits, vs, w))
  }

  /** The variable does not follow from the others of vs: it is a decision, or rests on one that they do not cover. */
  ghost predicate Needed(a: Assignment, lits: map<nat, seq<Lit>>, vs: set<nat>, v: nat)
    requires a.Indexed() && v in a.at
  {
    a.Reason(v) == 0 || exists w :: Edge(a, lits, v, w) && w in a.at && a.at[w] < a.at[v] && Rooted(a, lits, vs, w)
  }

  /** A variable outside vs on the way from one of vs that is not needed to the others. */
  ghost predicate Absorbed(a: Assignment, lits: map<nat, seq<Lit>>, vs: set<nat>, v: nat)
    requires a.Indexed() && v in a.at
    decreases |a.trail| - a.at[v]
  {
    && v !in vs
    && exists u :: Edge(a, lits, u, v) && u in a.at && a.at[u] > a.at[v]
                   && (if u in vs then !Needed(a, lits, vs, u) else Absorbed(a, lits, vs, u))
  }

  lemma FirstUipIsUnique(a: Assignment, lits: map<nat, seq<Lit>>, conflict: nat, u: nat, v: nat)
    requires a.Indexed() && IsFirstUip(a, lits, conflict, u) && IsFirstUip(a, lits, conflict, v)
    ensures u == v
  {
    hide Dominates;
    assert a.at[u] == a.at[v];
  }

  /** The assignment of v rests on that of u, through any number of reasons. */
  ghost predicate Behind(a: Assignment, lits: map<nat, seq<Lit>>, v: nat, u: nat)
    requires a.Indexed() && u in a.at
    decreases |a.trail| - a.at[u]
  {
    u == v || exists w :: Edge(a, lits, w, u) && w in a.at && a.at[w] > a.at[u] && Behind(a, lits, v, w)
  }
}
