/** Minimisation of the learned clause by depth-first search through the implication graph. */
module Minimize {
  import opened Cnf
  import opened Sequences
  import opened Trail
  import opened Analysis
  import opened Graph

  /** The search gives up at decisions and at levels no first-UIP variable is on. */
  predicate Barred(a: Assignment, s: Marks, u: nat)
    requires a.Indexed() && u in a.at
  {
    a.Reason(u) == 0 ||
    (a.Level(u) != 0 && (a.Level(u) < s.minlevel || HashLevel(a.Level(u)) !in s.siglevels))
  }

  /** From u the implication graph leads to a barred variable without passing through s.marked. */
  ghost predicate Hopeless(a: Assignment, lits: map<nat, seq<Lit>>, s: Marks, u: nat)
    requires a.Indexed() && u in a.at
    decreases a.at[u]
  {
    u !in s.marked &&
    (Barred(a, s, u) ||
     exists w :: w in ReasonVars(a, lits, u) && w in a.at && a.at[w] < a.at[u] && Hopeless(a, lits, s, w))
  }

  /** v was searched: not barred, and all its reason's variables are in mark. */
  ghost predicate Closed(a: Assignment, lits: map<nat, seq<Lit>>, s: Marks, mark: set<nat>, v: nat)
    requires a.Indexed()
  {
    v in a.at && !Barred(a, s, v) && a.Reason(v) in lits && ReasonVars(a, lits, v) <= mark
  }

  lemma LevelZero(a: Assignment, hist: map<nat, Clause>, lits: map<nat, seq<Lit>>, s: Marks, u: nat)
    requires Ready(a, hist, lits) && u in a.at && a.Level(u) == 0
    ensures a.Reason(u) != 0 && !Hopeless(a, lits, s, u)
  {
    assert a.trail[a.at[u]].level == a.LevelBefore(a.at[u]) + (if a.trail[a.at[u]].reason == 0 then 1 else 0);
    ReasonFacts(a, hist, lits, u);
  }

  /** A closed set of variables is nowhere hopeless. */
  lemma {:induction false} ClosedNotHopeless(a: Assignment, hist: map<nat, Clause>, lits: map<nat, seq<Lit>>,
                                             s: Marks, mark: set<nat>, v: nat)
    requires Ready(a, hist, lits)
    requires forall u :: u in mark ==> u in s.marked || Closed(a, lits, s, mark, u)
    requires v in mark && v in a.at
    ensures !Hopeless(a, lits, s, v)
    decreases a.at[v]
  {
    if v !in s.marked {
      assert Closed(a, lits, s, mark, v);
      forall w | w in ReasonVars(a, lits, v) && w in a.at && a.at[w] < a.at[v]
        ensures !Hopeless(a, lits, s, w)
      {
        ClosedNotHopeless(a, hist, lits, s, mark, w);
      }
    }
  }

  /** Every variable seen was reached from start: it occurs in the reason of start or of another of them. */
  ghost predicate Reached(a: Assignment, lits: map<nat, seq<Lit>>, start: nat, seen: set<nat>, v: nat)
    requires a.Indexed()
  {
    exists p :: (p == start || p in seen) && p in a.at && v in a.at && a.at[v] < a.at[p] && v in ReasonVars(a, lits, p)
  }

  /** Some variable of start's reason is hopeless. */
  ghost predicate Blocked(a: Assignment, lits: map<nat, seq<Lit>>, s: Marks, start: nat)
    requires a.Indexed() && start in a.at
  {
    exists w :: w in ReasonVars(a, lits, start) && w in a.at && Hopeless(a, lits, s, w)
  }

  lemma {:induction false} ClimbToStart(a: Assignment, lits: map<nat, seq<Lit>>, s: Marks, start: nat, seen: set<nat>, v: nat)
    requires a.Indexed() && start in a.at && v in seen && v in a.at && Hopeless(a, lits, s, v)
    requires forall u :: u in seen ==> u !in s.marked && Reached(a, lits, start, seen, u)
    ensures Blocked(a, lits, s, start)
    decreases |a.trail| - a.at[v]
  {
    assert Reached(a, lits, start, seen, v);
    var p :| (p == start || p in seen) && p in a.at && a.at[v] < a.at[p] && v in ReasonVars(a, lits, p);
    if p != start {
      ClimbToStart(a, lits, s, start, seen, p);
    }
  }

  /** Marks and pushes the variables of a clause that are not marked yet. */
  method PushReason(c: seq<Lit>, mark0: set<nat>, marked0: seq<nat>, stack0: seq<nat>)
    returns (mark: set<nat>, marked: seq<nat>, stack: seq<nat>, ghost extra: seq<nat>)
    requires NoDup(marked0) && Elements(marked0) == mark0
    ensures marked == marked0 + extra && stack == stack0 + extra
    ensures NoDup(marked) && Elements(marked) == mark == mark0 + VarsOf(c)
    ensures Elements(extra) == VarsOf(c) - mark0
  {
    hide NoDup;
    mark, marked, stack, extra := mark0, marked0, stack0, [];
    for p := 0 to |c|
      invariant marked == marked0 + extra && stack == stack0 + extra
      invariant NoDup(marked) && Elements(marked) == mark == mark0 + VarsOf(c[..p])
      invariant Elements(extra) == VarsOf(c[..p]) - mark0
    {
      var v := c[p].idx;
      assert VarsOf(c[..p+1]) == VarsOf(c[..p]) + {v} by { assert c[..p+1] == c[..p] + [c[p]]; }
      if v in mark {
        continue;
      }
      NoDupAppend(marked, v);
      mark, marked, stack, extra := mark + {v}, marked + [v], stack + [v], extra + [v];
    }
    assert c[..|c|] == c;
  }

  /** The search from start: everything newly marked was reached from it, and is closed unless still on the stack. */
  ghost predicate Searching(a: Assignment, lits: map<nat, seq<Lit>>, s: Marks, start: nat, marked0: seq<nat>,
                            mark: set<nat>, seen: set<nat>, stack: seq<nat>)
    requires a.Indexed()
  {
    && mark == Elements(marked0) + seen && seen !! Elements(marked0) && mark <= a.at.Keys
    && Elements(stack) <= seen + {start}
    && (forall v :: v in seen ==> Reached(a, lits, start, seen, v) && a.Level(v) < a.Top())
    && (forall v :: v in seen + {start} ==> v in stack || Closed(a, lits, s, mark, v))
  }

  /** What holds of s.marked[i] once the search from it is over. */
  ghost predicate Outcome(a: Assignment, lits: map<nat, seq<Lit>>, s: Marks, mark: set<nat>, v: nat)
    requires a.Indexed()
  {
    v in a.at && (a.Reason(v) == 0 || ReasonVars(a, lits, v) <= mark || Blocked(a, lits, s, v))
  }

  /** v is in the reason of another marked variable, and if that one was marked from the start, all of its reason is. */
  ghost predicate Pulled(a: Assignment, lits: map<nat, seq<Lit>>, s: Marks, mark: set<nat>, v: nat)
    requires a.Indexed()
  {
    exists u :: Edge(a, lits, u, v) && u in mark && (u in s.marked ==> ReasonVars(a, lits, u) <= mark)
  }

  lemma ReachedMore(a: Assignment, lits: map<nat, seq<Lit>>, start: nat, seen: set<nat>, more: set<nat>, v: nat)
    requires a.Indexed() && Reached(a, lits, start, seen, v) && seen <= more
    ensures Reached(a, lits, start, more, v)
  {
  }

  /** Popping u and pushing its reason keeps the search going. */
  lemma SearchStep(a: Assignment, hist: map<nat, Clause>, lits: map<nat, seq<Lit>>, s: Marks, start: nat,
                   marked0: seq<nat>, mark: set<nat>, seen: set<nat>, stack: seq<nat>, u: nat, extra: seq<nat>)
    requires Ready(a, hist, lits) && start in a.at && a.Level(start) < a.Top()
    requires Searching(a, lits, s, start, marked0, mark, seen, stack + [u])
    requires start in Elements(marked0) && u in a.at && !Barred(a, s, u) && a.Reason(u) in lits
    requires Elements(extra) == VarsOf(lits[a.Reason(u)]) - mark
    ensures Searching(a, lits, s, start, marked0, mark + VarsOf(lits[a.Reason(u)]), seen + Elements(extra), stack + extra)
    ensures mark + VarsOf(lits[a.Reason(u)]) <= a.at.Keys
  {
    ReasonFacts(a, hist, lits, u);
    var mark', seen', stack' := mark + VarsOf(lits[a.Reason(u)]), seen + Elements(extra), stack + extra;
    assert u in stack + [u] && (u in seen || u == start);
    forall v | v in seen'
      ensures Reached(a, lits, start, seen', v) && a.Level(v) < a.Top()
    {
      if v in seen {
        ReachedMore(a, lits, start, seen, seen', v);
      } else {
        assert v in ReasonVars(a, lits, u) && v != u;
        LevelsRise(a, a.at[v], a.at[u]);
      }
    }
    forall v | v in seen' + {start}
      ensures v in stack' || Closed(a, lits, s, mark', v)
    {
      if v in seen + {start} && v !in stack && v != u {
        assert v !in stack + [u];
        assert Closed(a, lits, s, mark, v);
      }
    }
  }

  lemma StartSearch(a: Assignment, lits: map<nat, seq<Lit>>, s: Marks, start: nat, marked0: seq<nat>)
    requires a.Indexed() && Elements(marked0) <= a.at.Keys
    ensures Searching(a, lits, s, start, marked0, Elements(marked0), {}, [] + [start])
  {
    assert start in [] + [start];
  }

  lemma NotBarred(a: Assignment, s: Marks, u: nat)
    requires a.Indexed() && u in a.at && !Barred(a, s, u)
    ensures a.Reason(u) != 0
  {
  }

  lemma SearchTop(a: Assignment, lits: map<nat, seq<Lit>>, s: Marks, start: nat, marked0: seq<nat>,
                  mark: set<nat>, seen: set<nat>, stack: seq<nat>)
    requires a.Indexed() && start in Elements(marked0) && Searching(a, lits, s, start, marked0, mark, seen, stack)
    requires stack != []
    ensures stack[|stack| - 1] in a.at && mark <= a.at.Keys
    ensures Barred(a, s, stack[|stack| - 1]) || a.Reason(stack[|stack| - 1]) != 0
  {
    assert stack[|stack| - 1] in stack;
  }

  /** The search ran into a barred variable. */
  lemma SearchFails(a: Assignment, lits: map<nat, seq<Lit>>, s: Marks, start: nat,
                    marked0: seq<nat>, mark: set<nat>, seen: set<nat>, stack: seq<nat>)
    requires a.Indexed() && start in a.at && start in s.marked && Elements(s.marked) <= Elements(marked0)
    requires Searching(a, lits, s, start, marked0, mark, seen, stack) && stack != []
    requires stack[|stack| - 1] in a.at && Barred(a, s, stack[|stack| - 1]) && !Barred(a, s, start)
    ensures Blocked(a, lits, s, start)
  {
    var u := stack[|stack| - 1];
    assert u in stack && u in seen;
    ClimbToStart(a, lits, s, start, seen, u);
  }

  lemma SearchDone(a: Assignment, lits: map<nat, seq<Lit>>, s: Marks, start: nat,
                   marked0: seq<nat>, mark: set<nat>, seen: set<nat>)
    requires a.Indexed() && start in a.at && start in Elements(marked0) && Searching(a, lits, s, start, marked0, mark, seen, [])
    requires Elements(s.marked) <= Elements(marked0)
    ensures start in a.at && ReasonVars(a, lits, start) <= mark
    ensures mark <= a.at.Keys
    ensures forall v :: v in mark - Elements(marked0) ==>
      Closed(a, lits, s, mark, v) && a.Level(v) < a.Top() && Pulled(a, lits, s, mark, v)
  {
    hide Barred;
    assert forall v :: v in seen + {start} ==> Closed(a, lits, s, mark, v);
    assert start in seen + {start};
    forall v | v in seen
      ensures Pulled(a, lits, s, mark, v)
    {
      var p :| (p == start || p in seen) && p in a.at && v in a.at && a.at[v] < a.at[p] && v in ReasonVars(a, lits, p);
      assert Closed(a, lits, s, mark, p);
      NotBarred(a, s, p);
      assert Edge(a, lits, p, v);
    }
  }

  /** Pops the top of the stack and marks and pushes what its reason brings in. */
  method Expand(a: Assignment, lits: map<nat, seq<Lit>>, ghost hist: map<nat, Clause>, s: Marks, start: nat,
                ghost marked0: seq<nat>, mark0: set<nat>, ghost seen0: set<nat>, marked1: seq<nat>, stack0: seq<nat>)
    returns (mark: set<nat>, ghost seen: set<nat>, marked: seq<nat>, stack: seq<nat>)
    requires a.Indexed() && Ready(a, hist, lits) && start in a.at && a.Level(start) < a.Top() && start in Elements(marked0)
    requires stack0 != [] && stack0[|stack0| - 1] in a.at && !Barred(a, s, stack0[|stack0| - 1])
    requires Searching(a, lits, s, start, marked0, mark0, seen0, stack0)
    requires NoDup(marked1) && Elements(marked1) == mark0
    ensures Searching(a, lits, s, start, marked0, mark, seen, stack)
    ensures marked1 <= marked && NoDup(marked) && Elements(marked) == mark
    ensures |a.at.Keys - mark| < |a.at.Keys - mark0| || (mark == mark0 && |stack| < |stack0|)
  {
    hide *;
    var u := stack0[|stack0| - 1];
    NotBarred(a, s, u);
    ReasonFacts(a, hist, lits, u);
    SplitLast(stack0);
    ghost var extra;
    mark, marked, stack, extra := PushReason(lits[a.Reason(u)], mark0, marked1, stack0[..|stack0| - 1]);
    SearchStep(a, hist, lits, s, start, marked0, mark0, seen0, stack0[..|stack0| - 1], u, extra);
    seen := seen0 + Elements(extra);
    Shrinks(a.at.Keys, mark0, mark, extra);
  }

  lemma Shrinks(all: set<nat>, mark0: set<nat>, mark: set<nat>, extra: seq<nat>)
    requires mark == mark0 + Elements(extra) && mark <= all && Elements(extra) !! mark0
    ensures |all - mark| < |all - mark0| || (mark == mark0 && extra == [])
  {
    SubsetCard(all - mark, all - mark0);
    if extra != [] {
      assert extra[0] in all - mark0 && extra[0] !in all - mark;
    }
  }

  /** One depth-first search. If it fails, the marks it made are taken back. */
  method Explore(a: Assignment, lits: map<nat, seq<Lit>>, ghost hist: map<nat, Clause>, s: Marks, start: nat,
                 marked0: seq<nat>)
    returns (marked: seq<nat>)
    requires Ready(a, hist, lits) && MarksOk(a, s) && start in s.marked && a.Level(start) < a.Top()
    requires NoDup(marked0) && Elements(s.marked) <= Elements(marked0) <= a.at.Keys && a.Reason(start) != 0
    ensures marked0 <= marked && NoDup(marked) && Elements(marked) <= a.at.Keys
    ensures forall v :: v in Elements(marked) - Elements(marked0) ==>
      Closed(a, lits, s, Elements(marked), v) && a.Level(v) < a.Top() && Pulled(a, lits, s, Elements(marked), v)
    ensures ReasonVars(a, lits, start) <= Elements(marked) || Blocked(a, lits, s, start)
  {
    assert BelowTop(a, s, start);
    assert !Barred(a, s, start);
    var stack, mark := [start], Elements(marked0);
    marked := marked0;
    StartSearch(a, lits, s, start, marked0);
    assert [] + [start] == [start];
    ghost var seen := {};
    assert a.Indexed();
    hide *;
    while stack != []
      invariant Searching(a, lits, s, start, marked0, mark, seen, stack)
      invariant marked0 <= marked && NoDup(marked) && Elements(marked) == mark
      decreases |a.at.Keys - mark|, |stack|
    {
      SearchTop(a, lits, s, start, marked0, mark, seen, stack);
      if Barred(a, s, stack[|stack| - 1]) {
        SearchFails(a, lits, s, start, marked0, mark, seen, stack);
        marked := marked0;
        return;
      }
      mark, seen, marked, stack := Expand(a, lits, hist, s, start, marked0, mark, seen, marked, stack);
    }
    SearchDone(a, lits, s, start, marked0, mark, seen);
  }

  /** After searching from the first n variables of s.marked. */
  ghost predicate Searched(a: Assignment, lits: map<nat, seq<Lit>>, s: Marks, n: nat, marked: seq<nat>)
    requires a.Indexed()
  {
    && n <= |s.marked| && s.marked <= marked && NoDup(marked) && Elements(marked) <= a.at.Keys
    && (forall v :: v in marked ==> a.Level(v) < a.Top() && (v in s.marked || Closed(a, lits, s, Elements(marked), v)))
    && (forall v :: v in marked ==> v in s.marked || Pulled(a, lits, s, Elements(marked), v))
    && (forall i :: 0 <= i < n ==> Outcome(a, lits, s, Elements(marked), s.marked[i]))
  }

  lemma StillClosed(a: Assignment, lits: map<nat, seq<Lit>>, s: Marks, mark: set<nat>, more: set<nat>, v: nat)
    requires a.Indexed() && mark <= more
    ensures Closed(a, lits, s, mark, v) ==> Closed(a, lits, s, more, v)
    ensures Outcome(a, lits, s, mark, v) ==> Outcome(a, lits, s, more, v)
    ensures Pulled(a, lits, s, mark, v) ==> Pulled(a, lits, s, more, v)
  {
    if Pulled(a, lits, s, mark, v) {
      var u :| Edge(a, lits, u, v) && u in mark && (u in s.marked ==> ReasonVars(a, lits, u) <= mark);
    }
  }

  lemma SearchedStart(a: Assignment, lits: map<nat, seq<Lit>>, s: Marks)
    requires a.Valid() && MarksOk(a, s)
    ensures Searched(a, lits, s, 0, s.marked)
  {
    forall v | v in s.marked
      ensures v in a.at && a.Level(v) < a.Top()
    {
      assert BelowTop(a, s, v);
      LevelsRise(a, a.at[v], |a.trail| - 1);
    }
  }

  lemma SearchedNext(a: Assignment, lits: map<nat, seq<Lit>>, s: Marks, n: nat, old_: seq<nat>, marked: seq<nat>)
    requires a.Indexed() && Searched(a, lits, s, n, old_) && n < |s.marked|
    requires old_ <= marked && NoDup(marked) && Elements(marked) <= a.at.Keys
    requires forall v :: v in Elements(marked) - Elements(old_) ==>
      Closed(a, lits, s, Elements(marked), v) && a.Level(v) < a.Top() && Pulled(a, lits, s, Elements(marked), v)
    requires Outcome(a, lits, s, Elements(marked), s.marked[n])
    ensures Searched(a, lits, s, n + 1, marked)
  {
    hide NoDup, Closed, Outcome, Pulled;
    forall v | v in marked
      ensures a.Level(v) < a.Top() && (v in s.marked || Closed(a, lits, s, Elements(marked), v))
      ensures v in s.marked || Pulled(a, lits, s, Elements(marked), v)
    {
      StillClosed(a, lits, s, Elements(old_), Elements(marked), v);
    }
    forall i | 0 <= i <= n
      ensures Outcome(a, lits, s, Elements(marked), s.marked[i])
    {
      StillClosed(a, lits, s, Elements(old_), Elements(marked), s.marked[i]);
    }
  }

  lemma SearchFrom(a: Assignment, lits: map<nat, seq<Lit>>, s: Marks, n: nat, marked: seq<nat>)
    requires a.Indexed() && Searched(a, lits, s, n, marked) && n < |s.marked|
    ensures s.marked[n] in s.marked && s.marked[n] in a.at && a.Level(s.marked[n]) < a.Top()
    ensures NoDup(marked) && Elements(s.marked) <= Elements(marked) <= a.at.Keys
    ensures a.Reason(s.marked[n]) == 0 ==> Outcome(a, lits, s, Elements(marked), s.marked[n])
  {
    hide NoDup, Closed, Pulled;
  }

  lemma SearchYields(a: Assignment, lits: map<nat, seq<Lit>>, s: Marks, mark: set<nat>, start: nat)
    requires a.Indexed() && start in a.at
    requires ReasonVars(a, lits, start) <= mark || Blocked(a, lits, s, start)
    ensures Outcome(a, lits, s, mark, start)
  {
  }

  /** Second phase: mark more variables, so that more of the marked ones become redundant. */
  method MarkMore(a: Assignment, lits: map<nat, seq<Lit>>, ghost hist: map<nat, Clause>, s: Marks)
    returns (marked: seq<nat>)
    requires a.Valid() && a.Indexed() && Ready(a, hist, lits) && MarksOk(a, s)
    ensures Searched(a, lits, s, |s.marked|, marked)
  {
    hide *;
    marked := s.marked;
    SearchedStart(a, lits, s);
    for i := 0 to |s.marked|
      invariant Searched(a, lits, s, i, marked)
    {
      var start := s.marked[i];
      SearchFrom(a, lits, s, i, marked);
      ghost var before := marked;
      if a.Reason(start) != 0 {
        marked := Explore(a, lits, hist, s, start, marked);
        SearchYields(a, lits, s, Elements(marked), start);
      }
      SearchedNext(a, lits, s, i, before, marked);
    }
  }

  /** The literals of v's reason are all on level 0 or marked. */
  predicate Redundant(a: Assignment, lits: map<nat, seq<Lit>>, mark: set<nat>, v: nat)
    requires a.Indexed() && v in a.at
  {
    a.Reason(v) in lits && a.Reason(v) != 0 &&
    forall l :: l in lits[a.Reason(v)] ==> (l.idx in a.at && a.Level(l.idx) == 0) || l.idx in mark
  }

  /** A redundant variable was searched with success: even the level-0 variables of its reason are marked,
      so that their unit clauses are antecedents too. */
  lemma RedundantIsClosed(a: Assignment, hist: map<nat, Clause>, lits: map<nat, seq<Lit>>, s: Marks, marked: seq<nat>, v: nat)
    requires Ready(a, hist, lits) && Searched(a, lits, s, |s.marked|, marked)
    requires v in marked && Redundant(a, lits, Elements(marked), v)
    ensures ReasonVars(a, lits, v) <= Elements(marked)
  {
    if v in s.marked {
      var i :| 0 <= i < |s.marked| && s.marked[i] == v;
      assert Outcome(a, lits, s, Elements(marked), s.marked[i]);
      forall w | w in ReasonVars(a, lits, v) && w in a.at
        ensures !Hopeless(a, lits, s, w)
      {
        if a.Level(w) == 0 {
          LevelZero(a, hist, lits, s, w);
        } else {
          ClosedNotHopeless(a, hist, lits, s, Elements(marked), w);
        }
      }
    } else {
      assert Closed(a, lits, s, Elements(marked), v);
    }
  }

  /** Variables the search added, and those on level 0, are redundant. */
  lemma SearchedIsRedundant(a: Assignment, hist: map<nat, Clause>, lits: map<nat, seq<Lit>>, s: Marks, marked: seq<nat>, v: nat)
    requires Ready(a, hist, lits) && Searched(a, lits, s, |s.marked|, marked) && v in marked
    ensures a.Level(v) == 0 || v !in s.marked ==> Redundant(a, lits, Elements(marked), v)
  {
    if v !in s.marked {
      assert Closed(a, lits, s, Elements(marked), v);
      assert forall l :: l in lits[a.Reason(v)] ==> l.idx in ReasonVars(a, lits, v);
    } else if a.Level(v) == 0 {
      LevelZero(a, hist, lits, s, v);
      ReasonFacts(a, hist, lits, v);
    }
  }

  // What the search for redundant variables comes to, in terms of the implication graph alone.

  lemma {:induction false} RootedIsHopeless(a: Assignment, lits: map<nat, seq<Lit>>, s: Marks, u: nat)
    requires a.Indexed() && u in a.at && Rooted(a, lits, Elements(s.marked), u)
    ensures Hopeless(a, lits, s, u)
    decreases a.at[u]
  {
    if a.Reason(u) != 0 {
      var w :| Edge(a, lits, u, w) && w in a.at && a.at[w] < a.at[u] && Rooted(a, lits, Elements(s.marked), w);
      RootedIsHopeless(a, lits, s, w);
    }
  }

  /** On a level without marked variables every variable leads down to the decision. */
  lemma {:induction false} FreeLevelIsRooted(a: Assignment, hist: map<nat, Clause>, lits: map<nat, seq<Lit>>, vs: set<nat>, u: nat)
    requires Ready(a, hist, lits) && u in a.at && a.Level(u) > 0
    requires forall v :: v in vs && v in a.at ==> a.Level(v) != a.Level(u)
    ensures Rooted(a, lits, vs, u)
    decreases a.at[u]
  {
    if a.Reason(u) != 0 {
      var w := SameLevelEdge(a, hist, lits, u);
      FreeLevelIsRooted(a, hist, lits, vs, w);
    }
  }

  /** Giving up early, by level, never changes the outcome. */
  lemma {:induction false} HopelessIsRooted(a: Assignment, hist: map<nat, Clause>, lits: map<nat, seq<Lit>>, s: Marks, u: nat)
    requires a.Indexed() && Ready(a, hist, lits) && MarksOk(a, s) && u in a.at && Hopeless(a, lits, s, u)
    ensures Rooted(a, lits, Elements(s.marked), u)
    decreases a.at[u]
  {
    hide Ready, ReasonVars, MarksOk;
    if a.Reason(u) == 0 {
    } else if Barred(a, s, u) {
      BarredLevelIsFree(a, s, u);
      FreeLevelIsRooted(a, hist, lits, Elements(s.marked), u);
    } else {
      var w :| w in ReasonVars(a, lits, u) && w in a.at && a.at[w] < a.at[u] && Hopeless(a, lits, s, w);
      HopelessIsRooted(a, hist, lits, s, w);
      assert Edge(a, lits, u, w);
    }
  }

  lemma BarredLevelIsFree(a: Assignment, s: Marks, u: nat)
    requires a.Indexed() && MarksOk(a, s) && u in a.at && Barred(a, s, u) && a.Reason(u) != 0
    ensures a.Level(u) > 0 && forall v :: v in Elements(s.marked) && v in a.at ==> a.Level(v) != a.Level(u)
  {
    forall v | v in s.marked && v in a.at
      ensures a.Level(v) != a.Level(u)
    {
      assert BelowTop(a, s, v);
    }
  }

  /** A variable of the first side is dropped exactly if it is not needed. */
  lemma RedundantIff(a: Assignment, hist: map<nat, Clause>, lits: map<nat, seq<Lit>>, s: Marks, marked: seq<nat>, v: nat)
    requires Ready(a, hist, lits) && MarksOk(a, s) && Searched(a, lits, s, |s.marked|, marked) && v in s.marked
    ensures v in marked && v in a.at && (Redundant(a, lits, Elements(marked), v) <==> !Needed(a, lits, Elements(s.marked), v))
    ensures !Needed(a, lits, Elements(s.marked), v) ==> ReasonVars(a, lits, v) <= Elements(marked)
  {
    hide Hopeless, Rooted, Pulled, MarksOk;
    var i :| 0 <= i < |s.marked| && s.marked[i] == v;
    assert Outcome(a, lits, s, Elements(marked), s.marked[i]);
    assert marked[i] == v;
    if Redundant(a, lits, Elements(marked), v) {
      RedundantIsClosed(a, hist, lits, s, marked, v);
      ClosedIsNotNeeded(a, hist, lits, s, marked, v);
    }
    if !Needed(a, lits, Elements(s.marked), v) {
      NotNeededIsClosed(a, hist, lits, s, Elements(marked), v);
      assert forall l :: l in lits[a.Reason(v)] ==> l.idx in ReasonVars(a, lits, v);
    }
  }

  lemma ClosedIsNotNeeded(a: Assignment, hist: map<nat, Clause>, lits: map<nat, seq<Lit>>, s: Marks, marked: seq<nat>, v: nat)
    requires a.Indexed() && Ready(a, hist, lits) && Searched(a, lits, s, |s.marked|, marked)
    requires v in a.at && a.Reason(v) != 0 && ReasonVars(a, lits, v) <= Elements(marked)
    ensures !Needed(a, lits, Elements(s.marked), v)
  {
    hide Hopeless, Rooted, Pulled, Ready;
    forall w | Edge(a, lits, v, w) && w in a.at
      ensures !Rooted(a, lits, Elements(s.marked), w)
    {
      ClosedNotHopeless(a, hist, lits, s, Elements(marked), w);
      if Rooted(a, lits, Elements(s.marked), w) {
        RootedIsHopeless(a, lits, s, w);
      }
    }
  }

  lemma NotNeededIsClosed(a: Assignment, hist: map<nat, Clause>, lits: map<nat, seq<Lit>>, s: Marks, mark: set<nat>, v: nat)
    requires Ready(a, hist, lits) && MarksOk(a, s) && v in s.marked && Outcome(a, lits, s, mark, v)
    requires !Needed(a, lits, Elements(s.marked), v)
    ensures a.Reason(v) != 0 && a.Reason(v) in lits && ReasonVars(a, lits, v) <= mark
  {
    hide Rooted, MarksOk, ReasonVars, Blocked;
    ReasonFacts(a, hist, lits, v);
    if Blocked(a, lits, s, v) {
      BlockedIsNeeded(a, hist, lits, s, v);
    }
  }

  lemma BlockedIsNeeded(a: Assignment, hist: map<nat, Clause>, lits: map<nat, seq<Lit>>, s: Marks, v: nat)
    requires Ready(a, hist, lits) && MarksOk(a, s) && v in s.marked && v in a.at && Blocked(a, lits, s, v)
    ensures Needed(a, lits, Elements(s.marked), v)
  {
    hide Rooted, MarksOk, ReasonVars;
    if a.Reason(v) != 0 {
      ReasonFacts(a, hist, lits, v);
      var w :| w in ReasonVars(a, lits, v) && w in a.at && Hopeless(a, lits, s, w);
      HopelessIsRooted(a, hist, lits, s, w);
      assert Edge(a, lits, v, w);
    }
  }

  /** What the search marked besides is absorbed. */
  lemma {:induction false} MarkedIsAbsorbed(a: Assignment, hist: map<nat, Clause>, lits: map<nat, seq<Lit>>, s: Marks, marked: seq<nat>, v: nat)
    requires Ready(a, hist, lits) && MarksOk(a, s) && Searched(a, lits, s, |s.marked|, marked) && v in marked && v !in s.marked
    ensures v in a.at && Absorbed(a, lits, Elements(s.marked), v)
    decreases if v in a.at then |a.trail| - a.at[v] else 0
  {
    hide Ready, ReasonVars, MarksOk, Edge, Needed, Closed, Outcome;
    ReadyIndexed(a, hist, lits);
    var u :| Edge(a, lits, u, v) && u in Elements(marked) && (u in s.marked ==> ReasonVars(a, lits, u) <= Elements(marked));
    EdgeFalls(a, hist, lits, u, v);
    EdgeReason(a, lits, u, v);
    if u in s.marked {
      ClosedIsNotNeeded(a, hist, lits, s, marked, u);
    } else {
      MarkedIsAbsorbed(a, hist, lits, s, marked, u);
    }
  }

  lemma ReadyIndexed(a: Assignment, hist: map<nat, Clause>, lits: map<nat, seq<Lit>>)
    requires Ready(a, hist, lits)
    ensures a.Valid() && a.Indexed()
  {
  }

  lemma EdgeReason(a: Assignment, lits: map<nat, seq<Lit>>, u: nat, w: nat)
    requires a.Indexed() && Edge(a, lits, u, w)
    ensures u in a.at && a.Reason(u) != 0 && w in ReasonVars(a, lits, u)
  {
  }

  lemma {:induction false} AbsorbedIsMarked(a: Assignment, hist: map<nat, Clause>, lits: map<nat, seq<Lit>>, s: Marks, marked: seq<nat>, v: nat)
    requires Ready(a, hist, lits) && MarksOk(a, s) && Searched(a, lits, s, |s.marked|, marked)
    requires v in a.at && Absorbed(a, lits, Elements(s.marked), v)
    ensures v in marked
    decreases |a.trail| - a.at[v]
  {
    hide Ready, ReasonVars, MarksOk, Edge, Needed, Outcome, Pulled;
    ReadyIndexed(a, hist, lits);
    var u :| Edge(a, lits, u, v) && u in a.at && a.at[u] > a.at[v] &&
      (if u in Elements(s.marked) then !Needed(a, lits, Elements(s.marked), u) else Absorbed(a, lits, Elements(s.marked), u));
    EdgeReason(a, lits, u, v);
    if u in s.marked {
      RedundantIff(a, hist, lits, s, marked, u);
    } else {
      AbsorbedIsMarked(a, hist, lits, s, marked, u);
      assert Closed(a, lits, s, Elements(marked), u);
    }
    assert v in Elements(marked);
  }
}
