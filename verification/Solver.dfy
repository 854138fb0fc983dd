/** The conflict-driven clause-learning solver with assumptions. */
module Solver {
  import opened Cnf
  import opened Sequences
  import opened Wrappers
  import opened Trail
  import opened Analysis
  import opened Graph
  import opened Learning
  import opened Zhain
  import opened Store
  import opened TopLevel
  import opened Ordering
  import opened Watch
  import opened Propagation
  import opened Undoing
  import opened Backjump
  import opened Failing
  import opened Rejustify
  import opened Adding
  import opened Verdict
  import opened Progress
  import opened Schedule

  /** The propagation limit of a new solver: all bits set. */
  const NO_LIMIT: nat := 0xffff_ffff_ffff_ffff

  /** The state when an original clause comes in. */
  ghost predicate Prior(formula: set<Clause>, a: Assignment, hist: map<nat, Clause>, lits: map<nat, seq<Lit>>, loose: set<nat>,
                        impls: Lists, htps: Lists, dhtps: Lists, solid: nat, ttail: nat, ttail2: nat) {
    && a.Valid() && a.Top() == 0 && lits.Keys <= hist.Keys && Queued(a, solid, ttail, ttail2)
    && Settled(formula, a, hist, lits, loose) && Linked(a, ttail, ttail2, lits, loose, impls, htps, dhtps)
  }

  lemma PriorElim(formula: set<Clause>, a: Assignment, hist: map<nat, Clause>, lits: map<nat, seq<Lit>>, loose: set<nat>,
                  impls: Lists, htps: Lists, dhtps: Lists, solid: nat, ttail: nat, ttail2: nat)
    requires Prior(formula, a, hist, lits, loose, impls, htps, dhtps, solid, ttail, ttail2)
    ensures a.Valid() && a.Top() == 0 && lits.Keys <= hist.Keys && Queued(a, solid, ttail, ttail2)
    ensures Settled(formula, a, hist, lits, loose) && Linked(a, ttail, ttail2, lits, loose, impls, htps, dhtps)
  {
    hide Settled, Linked, Queued;
  }

  /** What storing it changed: the clause itself under id and, if level 0 falsifies some of it, the rest under r. */
  ghost predicate Grew(a: Assignment, hist0: map<nat, Clause>, lits0: map<nat, seq<Lit>>, loose0: set<nat>, impls0: Lists, htps0: Lists,
                hist: map<nat, Clause>, lits: map<nat, seq<Lit>>, loose: set<nat>, impls: Lists, htps: Lists, id: nat, r: nat)
    requires a.Indexed()
  {
    && id in lits && r in lits && id != 0 && r != 0 && id % 2 == 0 && id !in hist0 && id !in lits0 && id !in loose0
    && (r == id || (r !in hist0 && r !in lits0 && r !in loose0))
    && Open(a, lits[id]) && Remains(a, id, lits[id], r, lits[r]) && Attached(impls0, htps0, id, lits[id], impls, htps)
    && (r == id ==> hist == hist0[id := Elements(lits[id])] && lits == lits0[id := lits[id]] && loose == loose0)
    && (r != id ==> hist == hist0[id := Elements(lits[id])][r := Elements(lits[r])]
                         && lits == lits0[id := lits[id]][r := lits[r]] && loose == loose0 + {r})
  }

  lemma GrewElim(a: Assignment, hist0: map<nat, Clause>, lits0: map<nat, seq<Lit>>, loose0: set<nat>, impls0: Lists, htps0: Lists,
                hist: map<nat, Clause>, lits: map<nat, seq<Lit>>, loose: set<nat>, impls: Lists, htps: Lists, id: nat, r: nat)
    requires a.Indexed() && Grew(a, hist0, lits0, loose0, impls0, htps0, hist, lits, loose, impls, htps, id, r)
    ensures id in lits && r in lits && id != 0 && r != 0 && id % 2 == 0 && id !in hist0 && id !in lits0 && id !in loose0
    ensures (r == id || (r !in hist0 && r !in lits0 && r !in loose0))
    ensures Open(a, lits[id]) && Remains(a, id, lits[id], r, lits[r]) && Attached(impls0, htps0, id, lits[id], impls, htps)
    ensures (r == id ==> hist == hist0[id := Elements(lits[id])] && lits == lits0[id := lits[id]] && loose == loose0)
    ensures (r != id ==> hist == hist0[id := Elements(lits[id])][r := Elements(lits[r])]
                         && lits == lits0[id := lits[id]][r := lits[r]] && loose == loose0 + {r})
  {
    hide Open, Remains, Attached;
  }

  lemma GrewIntro(a: Assignment, hist0: map<nat, Clause>, lits0: map<nat, seq<Lit>>, loose0: set<nat>, impls0: Lists, htps0: Lists,
                hist: map<nat, Clause>, lits: map<nat, seq<Lit>>, loose: set<nat>, impls: Lists, htps: Lists, id: nat, r: nat)
    requires a.Indexed()
    requires id in lits && r in lits && id != 0 && r != 0 && id % 2 == 0 && id !in hist0 && id !in lits0 && id !in loose0
    requires (r == id || (r !in hist0 && r !in lits0 && r !in loose0))
    requires Open(a, lits[id]) && Remains(a, id, lits[id], r, lits[r]) && Attached(impls0, htps0, id, lits[id], impls, htps)
    requires (r == id ==> hist == hist0[id := Elements(lits[id])] && lits == lits0[id := lits[id]] && loose == loose0)
    requires (r != id ==> hist == hist0[id := Elements(lits[id])][r := Elements(lits[r])]
                          && lits == lits0[id := lits[id]][r := lits[r]] && loose == loose0 + {r})
    ensures Grew(a, hist0, lits0, loose0, impls0, htps0, hist, lits, loose, impls, htps, id, r)
  {
    hide Open, Remains, Attached;
  }

  lemma GrewFacts(a: Assignment, hist0: map<nat, Clause>, lits0: map<nat, seq<Lit>>, loose0: set<nat>, impls0: Lists, htps0: Lists,
                 hist: map<nat, Clause>, lits: map<nat, seq<Lit>>, loose: set<nat>, impls: Lists, htps: Lists, id: nat, r: nat)
    requires a.Indexed() && Grew(a, hist0, lits0, loose0, impls0, htps0, hist, lits, loose, impls, htps, id, r)
    ensures r != 0 && r in lits && id in lits && r in hist && forall l :: l in lits[r] ==> a.Undef(l)
  {
    hide Open, Attached;
    RemainsUndef(a, id, lits[id], r, lits[r]);
  }

  /** An empty clause stored before is still there. */
  lemma EmptyStays(a: Assignment, hist0: map<nat, Clause>, lits0: map<nat, seq<Lit>>, loose0: set<nat>, impls0: Lists, htps0: Lists,
                 hist: map<nat, Clause>, lits: map<nat, seq<Lit>>, loose: set<nat>, impls: Lists, htps: Lists, id: nat, r: nat, m: nat)
    requires a.Indexed() && Grew(a, hist0, lits0, loose0, impls0, htps0, hist, lits, loose, impls, htps, id, r)
    requires m != 0 ==> m in lits0 && m in hist0 && hist0[m] == {}
    ensures m != 0 ==> m in lits && m in hist && hist[m] == {}
  {
    hide Open, Remains, Attached;
  }

  lemma JumpedIntro(a: Assignment, cut: Assignment, b: Assignment, level: nat)
    requires IsCut(a, level, |cut.trail|) && cut.trail == a.trail[..|cut.trail|]
    requires |b.trail| == |cut.trail| + 1 && cut.trail <= b.trail && b.Top() == level
    ensures Jumped(a, b)
  {
  }

  /** The one clause stored is the one that analysis of the conflict gives, with its antecedents, and it is the reason of
      the last assignment unless it is empty. */
  ghost predicate HasLearned(a0: Assignment, lits0: map<nat, seq<Lit>>, conflict: nat, hist0: map<nat, Clause>,
                             a: Assignment, lits: map<nat, seq<Lit>>, hist: map<nat, Clause>, zhains: Chains)
    requires a0.Indexed()
  {
    exists added, resolved, id :: HasLearnedAs(a0, lits0, conflict, hist0, a, lits, hist, zhains, added, resolved, id)
  }

  ghost predicate HasLearnedAs(a0: Assignment, lits0: map<nat, seq<Lit>>, conflict: nat, hist0: map<nat, Clause>,
                               a: Assignment, lits: map<nat, seq<Lit>>, hist: map<nat, Clause>, zhains: Chains,
                               added: seq<Lit>, resolved: seq<nat>, id: nat)
    requires a0.Indexed()
  {
    && IsLearned(a0, lits0, conflict, added) && AreAntecedents(a0, lits0, conflict, added, resolved)
    && id !in hist0 && hist == hist0[id := Elements(added)] && id in lits && Elements(lits[id]) == Elements(added)
    && Antecedents(zhains, id) == Elements(resolved)
    && (added != [] ==> a.trail != [] && a.trail[|a.trail| - 1] == Entry(added[0], a.Top(), id))
  }

  lemma HasLearnedIntro(a0: Assignment, lits0: map<nat, seq<Lit>>, conflict: nat, hist0: map<nat, Clause>,
                        a: Assignment, lits: map<nat, seq<Lit>>, hist: map<nat, Clause>, zhains: Chains,
                        added: seq<Lit>, resolved: seq<nat>, id: nat)
    requires a0.Indexed() && IsLearned(a0, lits0, conflict, added) && AreAntecedents(a0, lits0, conflict, added, resolved)
    requires id !in hist0 && hist == hist0[id := Elements(added)] && id in lits && Elements(lits[id]) == Elements(added)
    requires Antecedents(zhains, id) == Elements(resolved)
    requires added != [] ==> a.trail != [] && a.trail[|a.trail| - 1] == Entry(added[0], a.Top(), id)
    ensures HasLearned(a0, lits0, conflict, hist0, a, lits, hist, zhains)
  {
    hide IsLearned, AreAntecedents, Antecedents;
    assert HasLearnedAs(a0, lits0, conflict, hist0, a, lits, hist, zhains, added, resolved, id);
  }

  datatype State = READY | AFTER(answer: Answer)

  class Solver {
    var a: Assignment
    var maxVar: nat

    /** The literal array of every clause that is stored and not collected. */
    var lits: map<nat, seq<Lit>>
    var zhains: Chains
    var oadded: nat
    var ladded: nat
    /** Learned clauses that shrink an attached original clause and are not attached themselves. */
    var loose: set<nat>
    var locked: set<nat>

    var impls: Lists
    var htps: Lists
    var dhtps: Lists
    var ttail: nat
    var ttail2: nat

    /** Work done so far, and the work after which search gives up. */
    var propagations: nat
    var lpropagations: nat

    /** Decisions and conflicts so far, and from how many conflicts on the next restart is due. */
    var decisions: nat
    var conflicts: nat
    var lrestart: nat
    /** The position in the sequence of restarts. */
    var lubycnt: nat
    /** How many variables were assigned for good when the search last simplified, and when it last started the sequence of
        restarts over. */
    var fsimplify: nat
    var isimplify: nat

    /** Assumptions, how many are taken over, and the highest level they need. */
    var als: seq<Lit>
    var alstail: nat
    var adecidelevel: nat
    /** The assumption found false, if search stopped on one. */
    var failed: Option<Lit>
    /** Set while failed literals are probed for. */
    var simplifying: bool

    var conflict: nat
    var mtcls: nat

    /** The clause being entered, where the solver stands, and the variables of failed assumptions once extracted. */
    var added: seq<Lit>
    var state: State
    var extracted: bool
    var fails: set<nat>

    /** Every clause ever stored, and every clause the user added. */
    ghost var hist: map<nat, Clause>
    ghost var formula: set<Clause>
    /** Assignments up to here were propagated without conflict; the others are on the current level. */
    ghost var solid: nat

    /** How many assumptions are true for sure: a failed one was taken over last, if any was. */
    function Taken(): nat
      reads this`alstail, this`failed
    {
      if failed.Some? && alstail > 0 then alstail - 1 else alstail
    }

    /** While failed literals are probed for, decisions are no assumptions. */
    function Considered(): seq<Lit>
      reads this`als, this`alstail, this`failed, this`simplifying
    {
      if simplifying && Taken() <= |als| then als[..Taken()] else als
    }

    lemma ConsideredAll()
      ensures !simplifying ==> Considered() == als
    {
    }

    lemma TakenIs()
      ensures failed.None? ==> Taken() == alstail
      ensures failed.Some? && alstail > 0 ==> Taken() == alstail - 1
    {
    }

    ghost predicate Base()
      reads this`a, this`maxVar, this`lits, this`zhains, this`oadded, this`ladded, this`loose, this`locked, this`hist, this`formula
    {
      && Stored(hist, lits, zhains, oadded, ladded, formula)
      && TrailOk(a, hist, lits, locked, maxVar)
      && InRange(hist, maxVar)
      && loose <= lits.Keys
    }

    /** Stores a clause with its antecedent chain, without linking it. */
    method StoreClause(added: seq<Lit>, resolved: seq<nat>, learned: bool) returns (id: nat)
      requires Base() && a.Indexed() && NoDup(added)
      requires forall l :: l in added ==> 0 < l.idx <= maxVar
      requires learned ==> NoDup(resolved) && Elements(resolved) <= hist.Keys && Implies(hist, Elements(resolved), Elements(added))
      modifies this`lits, this`zhains, this`oadded, this`ladded, this`hist, this`formula
      ensures Base() && id != 0
      ensures id !in old(hist) && id !in old(lits) && id !in old(loose)
      ensures hist == old(hist)[id := Elements(added)] && id in lits && lits == old(lits)[id := lits[id]]
      ensures NoDup(lits[id]) && Elements(lits[id]) == Elements(added) && |lits[id]| == |added|
      ensures |added| != 2 ==> Falling(a, lits[id])
      ensures formula == if learned then old(formula) else old(formula) + {Elements(added)}
      ensures id % 2 == if learned then 1 else 0
      ensures learned ==> Antecedents(zhains, id) == Elements(resolved)
      ensures forall x :: x != id ==> Antecedents(zhains, x) == old(Antecedents(zhains, x))
    {
      hide Stored, TrailOk, InRange, Implies, Falling, NoDup, Decode, Encoded;
      StoredFacts(hist, lits, zhains, oadded, ladded, formula);
      var ls := SortLits(a, added);
      if learned {
        id := 2 * ladded + 1;
        var z := AddZhain(resolved);
        StoreLearned(hist, lits, zhains, oadded, ladded, formula, ls, z);
        zhains := zhains[id := z];
        ladded := ladded + 1;
      } else {
        id := 2 * (oadded + 1);
        StoreOriginal(hist, lits, zhains, oadded, ladded, formula, ls);
        formula := formula + {Elements(added)};
        oadded := oadded + 1;
      }
      TrailStore(a, hist, lits, locked, maxVar, id, ls, Elements(ls));
      InRangeStore(hist, maxVar, id, Elements(ls));
      lits := lits[id := ls];
      hist := hist[id := Elements(ls)];
    }

    /** A clause derives a top-level unit; the unit clause itself is derived and becomes the reason. */
    method ResolveTopLevelUnit(l: Lit, r: nat) returns (reason: nat)
      requires Base() && a.Indexed() && a.Undef(l) && r in lits && r in hist && l in hist[r] && |lits[r]| > 1
      requires a.Top() == 0 && FalseBefore(a, hist[r], l, |a.trail|) && 0 < l.idx <= maxVar
      modifies this`lits, this`zhains, this`oadded, this`ladded, this`hist, this`formula
      ensures Base() && reason != 0 && formula == old(formula)
      ensures reason !in old(hist) && reason !in old(lits) && reason !in old(loose)
      ensures hist == old(hist)[reason := {l}] && lits == old(lits)[reason := [l]]
      ensures forall x :: x in Antecedents(zhains, reason) <==> x == r || IsZeroReason(a, old(lits)[r], x)
    {
      hide Antecedents, IsZeroReason;
      hide Stored, InRange, Implies, Falling, NoDup, Decode, Reasoned, Justified, LockedOk;
      StoredFacts(hist, lits, zhains, oadded, ladded, formula);
      TrailStoreReady();
      OnlyOneLeft(a, hist, lits, r, l);
      var added, resolved := ResolveFalse(a, lits, hist, r);
      OneElement(added, l);
      reason := StoreClause(added, resolved, true);
      OneElement(lits[reason], l);
    }

    lemma TrailStoreReady()
      requires Base()
      ensures a.Valid() && Ready(a, hist, lits) && Arranged(hist, lits)
    {
      TrailReady(a, hist, lits, locked, maxVar);
    }

    method AssignForced(l: Lit, r: nat) returns (reason: nat)
      requires Base() && a.Indexed() && a.Undef(l) && r in lits && r in hist && l in hist[r]
      requires FalseBefore(a, hist[r], l, |a.trail|) && 0 < l.idx <= maxVar
      requires a.Top() > 0 ==> HasLevel(a, hist[r], l, a.Top())
      modifies this`a, this`locked, this`lits, this`zhains, this`oadded, this`ladded, this`hist, this`formula
      ensures Base() && formula == old(formula) && reason != 0
      ensures a == old(a).Push(l, old(a).Top(), reason) && a.Indexed() && a.Top() == old(a).Top()
      ensures reason == r || (old(a).Top() == 0 && reason !in old(hist) && reason !in old(lits) && reason !in old(loose))
      ensures |old(lits)[r]| <= 1 ==> reason == r
      ensures hist == (if reason == r then old(hist) else old(hist)[reason := {l}])
      ensures lits == (if reason == r then old(lits) else old(lits)[reason := [l]])
    {
      hide Stored, InRange, Implies, Falling, NoDup, Decode, Reasoned, LockedOk;
      StoredFacts(hist, lits, zhains, oadded, ladded, formula);
      TrailStoreReady();
      reason := r;
      if a.Top() == 0 {
        OnlyOneLeft(a, hist, lits, r, l);
        if |lits[r]| > 1 {
          reason := ResolveTopLevelUnit(l, r);
        }
      }
      assert Justified(a, hist, Entry(l, a.Top(), reason), |a.trail|);
      TrailPush(a, hist, lits, locked, maxVar, l, a.Top(), reason);
      a := a.Push(l, a.Top(), reason);
      locked := locked + {reason};
    }

    /** Between two propagation steps. */
    ghost predicate Propagating()
      reads this`a, this`maxVar, this`lits, this`zhains, this`oadded, this`ladded, this`loose, this`locked, this`hist, this`formula,
            this`impls, this`htps, this`dhtps, this`ttail, this`ttail2, this`conflict, this`mtcls, this`solid
    {
      && Base() && a.Indexed() && mtcls == 0
      && Queued(a, solid, ttail, ttail2)
      && Settled(formula, a, hist, lits, loose)
      && ConflictOk(a, hist, lits, conflict)
      && Linked(a, if conflict == 0 then ttail else solid, if conflict == 0 then ttail2 else solid,
                lits, loose, impls, htps, dhtps)
    }

    /** A clause became unit: its last literal is assigned. */
    method Imply(l: Lit, r: nat) returns (reason: nat)
      requires Propagating() && a.Undef(l) && r in lits && r in hist && l in hist[r]
      requires FalseBefore(a, hist[r], l, |a.trail|)
      requires a.Top() > 0 ==> HasLevel(a, hist[r], l, a.Top())
      modifies this`a, this`locked, this`lits, this`zhains, this`oadded, this`ladded, this`hist, this`formula
      ensures Propagating() && reason != 0 && formula == old(formula)
      ensures a == old(a).Push(l, old(a).Top(), reason) && a.Top() == old(a).Top()
      ensures reason == r || (old(a).Top() == 0 && reason !in old(hist) && reason !in old(lits) && reason !in old(loose))
      ensures hist == (if reason == r then old(hist) else old(hist)[reason := {l}])
      ensures lits == (if reason == r then old(lits) else old(lits)[reason := [l]])
    {
      hide *;
      PropagatingElim();
      StoredFacts(hist, lits, zhains, oadded, ladded, formula);
      InRangeAt(hist, maxVar, r, l);
      reason := AssignForced(l, r);
      QueuedFacts(old(a), solid, ttail, ttail2);
      QueuedPush(old(a), solid, ttail, ttail2, l, reason);
      ForcedKeeps(formula, old(a), old(hist), old(lits), loose, impls, htps, dhtps,
                  if conflict == 0 then ttail else solid, if conflict == 0 then ttail2 else solid,
                  conflict, l, r, reason, hist, lits);
      PropagatingIntro();
    }

    lemma BaseElim()
      requires Base()
      ensures Stored(hist, lits, zhains, oadded, ladded, formula) && TrailOk(a, hist, lits, locked, maxVar)
      ensures InRange(hist, maxVar) && loose <= lits.Keys && a.Valid() && a.Indexed()
    {
    }

    lemma BaseIntro()
      requires Stored(hist, lits, zhains, oadded, ladded, formula) && TrailOk(a, hist, lits, locked, maxVar)
      requires InRange(hist, maxVar) && loose <= lits.Keys
      ensures Base()
    {
    }

    lemma PropagatingElim()
      requires Propagating()
      ensures Base() && a.Valid() && a.Indexed() && mtcls == 0
      ensures Queued(a, solid, ttail, ttail2) && Settled(formula, a, hist, lits, loose) && ConflictOk(a, hist, lits, conflict)
      ensures Linked(a, if conflict == 0 then ttail else solid, if conflict == 0 then ttail2 else solid,
                     lits, loose, impls, htps, dhtps)
      ensures Stored(hist, lits, zhains, oadded, ladded, formula) && TrailOk(a, hist, lits, locked, maxVar)
      ensures InRange(hist, maxVar) && loose <= lits.Keys
    {
      hide Stored, InRange, Settled, ConflictOk, Linked, Queued, Reasoned, LockedOk;
    }

    lemma PropagatingIntro()
      requires Base() && a.Indexed() && mtcls == 0
      requires Queued(a, solid, ttail, ttail2) && Settled(formula, a, hist, lits, loose) && ConflictOk(a, hist, lits, conflict)
      requires Linked(a, if conflict == 0 then ttail else solid, if conflict == 0 then ttail2 else solid,
                      lits, loose, impls, htps, dhtps)
      ensures Propagating()
    {
      hide Base, Settled, ConflictOk, Linked, Queued;
    }

    lemma PropagatingFacts()
      requires Propagating()
      ensures a.Valid() && a.Indexed() && solid <= ttail <= ttail2 <= |a.trail| && mtcls == 0
      ensures forall i :: solid <= i < |a.trail| ==> a.trail[i].level == a.Top()
    {
    }

    method SetConflict(c: nat)
      requires Propagating() && c != 0 && c in lits && c in hist && Conflicting(a, hist[c])
      modifies this`conflict
      ensures Propagating() && conflict == c
    {
      hide Base, Settled, Conflicting, Watched, Implied, Covered;
      LinkedLess(a, solid, if conflict == 0 then ttail else solid, if conflict == 0 then ttail2 else solid,
                 lits, loose, impls, htps, dhtps);
      conflict := c;
    }

    lemma BinaryFacts(w: Lit, c: nat)
      requires Propagating() && ttail2 < |a.trail| && w == Neg(a.trail[ttail2].lit) && c in At(impls, w)
      ensures a.Valid() && c != 0 && c in lits && c in hist && |lits[c]| == 2 && Partner(lits, c, w) in hist[c]
      ensures var o := Partner(lits, c, w);
        && (a.True(o) ==> Seen(a, ttail2 + 1, lits, w, c))
        && (a.False(o) ==> Conflicting(a, hist[c]))
        && (a.Undef(o) ==> FalseBefore(a, hist[c], o, |a.trail|) && HasLevel(a, hist[c], o, a.Top()))
    {
      hide Stored, InRange, Settled, ConflictOk, Watched, Implied, Conflicting, FalseBefore, HasLevel, Seen, Reasoned, LockedOk;
      StoredFacts(hist, lits, zhains, oadded, ladded, formula);
      PropagatingFacts();
      BinaryMet(a, hist, if conflict == 0 then ttail2 else solid, lits, loose, impls, w, c);
    }

    lemma Prop2Done(w: Lit)
      requires Propagating() && ttail2 < |a.trail| && w == Neg(a.trail[ttail2].lit)
      requires conflict == 0 ==> forall c :: c in At(impls, w) ==> Seen(a, ttail2 + 1, lits, w, c)
      ensures conflict == 0 ==> Linked(a, ttail, ttail2 + 1, lits, loose, impls, htps, dhtps)
      ensures Queued(a, solid, ttail, ttail2 + 1)
    {
      if conflict == 0 {
        ImpliedEnd(a, ttail2, lits, loose, impls, w);
      }
    }

    method Advance2()
      requires Propagating() && Queued(a, solid, ttail, ttail2 + 1)
      requires conflict == 0 ==> Linked(a, ttail, ttail2 + 1, lits, loose, impls, htps, dhtps)
      modifies this`ttail2
      ensures Propagating() && ttail2 == old(ttail2) + 1
    {
      hide Base, Settled, ConflictOk, Linked, Queued;
      ttail2 := ttail2 + 1;
    }

    /** Visits one binary clause c of w. */
    method VisitBinary(w: Lit, c: nat)
      requires Propagating() && ttail2 < |a.trail| && w == Neg(a.trail[ttail2].lit) && c in At(impls, w)
      modifies this`a, this`locked, this`lits, this`zhains, this`oadded, this`ladded, this`hist, this`formula, this`conflict
      ensures Propagating() && formula == old(formula)
      ensures a.Top() == old(a).Top() && old(a).trail <= a.trail
      ensures conflict == 0 ==> old(conflict) == 0 && a.Indexed() && Seen(a, ttail2 + 1, lits, w, c)
      ensures conflict == 0 ==> old(a).Indexed() && SeenStays(old(a), a, ttail2 + 1, old(lits), lits, w)
    {
      hide Propagating, Base, FalseBefore, HasLevel, Conflicting, Seen, At, Assignment.Leveled;
      PropagatingFacts();
      BinaryFacts(w, c);
      var other := Partner(lits, c, w);
      if a.True(other) {
        return;
      }
      if a.False(other) {
        SetConflict(c);
        return;
      }
      ghost var a0, lits0 := a, lits;
      var reason := Imply(other, c);
      PropagatingFacts();
      SeenAll(a0, ttail2 + 1, lits0, lits, w, other, a0.Top(), reason);
      FreshPartner(a, ttail2, lits, w, c, other);
    }

    /** Visits all binary clauses of the false literal w of the next assignment. */
    method Prop2(w: Lit)
      requires Propagating() && ttail2 < |a.trail| && w == Neg(a.trail[ttail2].lit)
      modifies this`a, this`locked, this`lits, this`zhains, this`oadded, this`ladded, this`hist, this`formula, this`conflict, this`ttail2
      ensures Propagating() && ttail2 == old(ttail2) + 1 && formula == old(formula)
      ensures a.Top() == old(a).Top() && old(a).trail <= a.trail
      ensures old(conflict) != 0 ==> conflict != 0
    {
      hide *;
      var list := At(impls, w);
      ghost var k := ttail2;
      PropagatingFacts();
      for i := 0 to |list|
        invariant Propagating() && a.Indexed() && ttail2 == k < |a.trail| && w == Neg(a.trail[k].lit) && a.Top() == old(a).Top()
        invariant formula == old(formula) && old(a).trail <= a.trail && (old(conflict) != 0 ==> conflict != 0)
        invariant conflict == 0 ==> forall j :: 0 <= j < i ==> Seen(a, k + 1, lits, w, list[j])
      {
        assert list[i] in list;
        ghost var a0, lits0 := a, lits;
        VisitBinary(w, list[i]);
        PropagatingFacts();
        if conflict == 0 { StillSeen(a0, a, k + 1, lits0, lits, w); }
      }
      Prop2Done(w);
      Advance2();
    }

    /** Reorders the literals of the large clause c and moves it between lists. */
    method Relink(c: nat, ls: seq<Lit>, h: Lists, d: Lists)
      requires Propagating() && conflict == 0 && Large(lits, loose, c)
      requires NoDup(ls) && Elements(ls) == Elements(lits[c]) && |ls| == |lits[c]|
      requires Watched(a, ttail, lits[c := ls], loose, h, d)
      modifies this`lits, this`htps, this`dhtps
      ensures Propagating() && lits == old(lits)[c := ls] && htps == h && dhtps == d
    {
      hide Stored, InRange, Settled, Watched, Implied, Reasoned, LockedOk, NoDup;
      StoredReorder(hist, lits, zhains, oadded, ladded, formula, c, ls);
      SettledReorder(formula, a, hist, lits, loose, c, ls);
      ImpliedReorder(a, ttail2, lits, loose, impls, c, ls);
      lits, htps, dhtps := lits[c := ls], h, d;
    }

    /** A clause satisfied on an earlier level need not be visited before that level is undone. */
    predicate ShouldDisconnect(l: Lit)
      requires a.Indexed() && a.True(l)
      reads this`a, this`simplifying
    {
      a.Level(l.idx) == 0 || (!simplifying && a.Level(l.idx) < a.Top())
    }

    /** Looks for a literal of c that is not false, after the two watches. */
    method FindWatch(ls: seq<Lit>) returns (j: nat)
      requires |ls| >= 2
      ensures 2 <= j <= |ls| && (j < |ls| ==> !a.False(ls[j])) && forall i :: 2 <= i < j ==> a.False(ls[i])
    {
      j := 2;
      while j < |ls| && a.False(ls[j])
        invariant 2 <= j <= |ls| && forall i :: 2 <= i < j ==> a.False(ls[i])
      {
        j := j + 1;
      }
    }

    /** What is known of the clause about to be visited. */
    lemma LargeFacts(w: Lit, i: nat)
      requires Propagating() && conflict == 0 && ttail < |a.trail| && w == Neg(a.trail[ttail].lit)
      requires Walking(a, ttail, lits, loose, htps, dhtps, w, i) && i < |At(htps, w)|
      ensures a.Valid() && a.Level(w.idx) == a.Top() && a.False(w)
      ensures var c := At(htps, w)[i];
        && c != 0 && Large(lits, loose, c) && (lits[c][0] == w || lits[c][1] == w) && NoDup(lits[c]) && Arranged(hist, lits)
    {
      hide Stored, InRange, Settled, Watched, Implied, Reasoned, LockedOk, NoDup, Queued, ConflictOk;
      PropagatingFacts();
      StoredFacts(hist, lits, zhains, oadded, ladded, formula);
      WalkFacts(a, ttail, lits, loose, htps, dhtps, w, i);
    }

    /** Puts the false watch w of clause c first. */
    method FirstWatch(w: Lit, i: nat)
      requires Propagating() && conflict == 0 && ttail < |a.trail| && w == Neg(a.trail[ttail].lit)
      requires Walking(a, ttail, lits, loose, htps, dhtps, w, i) && i < |At(htps, w)|
      modifies this`lits, this`htps, this`dhtps
      ensures Propagating() && Walking(a, ttail, lits, loose, htps, dhtps, w, i) && htps == old(htps)
      ensures var c := At(htps, w)[i]; c in lits && |lits[c]| >= 3 && lits[c][0] == w
    {
      hide Propagating, Base, Walking, Watched, NoDup;
      LargeFacts(w, i);
      var c := At(htps, w)[i];
      var ls := lits[c];
      if ls[0] != w {
        var swapped := [w, ls[0]] + ls[2..];
        SwapKeeps(ls, swapped);
        WalkReorder(a, ttail, lits, loose, htps, dhtps, w, i, c, swapped);
        WalkWatched(a, ttail, lits[c := swapped], loose, htps, dhtps, w, i);
        Relink(c, swapped, htps, dhtps);
      }
    }

    /** The other watch is true: park the clause there, or keep it on w's list. */
    method VisitSatisfied(w: Lit, i: nat) returns (n: nat)
      requires Propagating() && conflict == 0 && ttail < |a.trail| && w == Neg(a.trail[ttail].lit)
      requires Walking(a, ttail, lits, loose, htps, dhtps, w, i) && i < |At(htps, w)|
      requires At(htps, w)[i] in lits && |lits[At(htps, w)[i]]| >= 3
      requires lits[At(htps, w)[i]][0] == w && a.True(lits[At(htps, w)[i]][1])
      modifies this`lits, this`htps, this`dhtps
      ensures Propagating() && Walking(a, ttail, lits, loose, htps, dhtps, w, n)
      ensures n <= |At(htps, w)| && |At(htps, w)| - n < old(|At(htps, w)| - i)
    {
      hide Propagating, Base, Walking, Watched, NoDup, At;
      LargeFacts(w, i);
      var c := At(htps, w)[i];
      var other := lits[c][1];
      EarlierLevel(a, w, other);
      if ShouldDisconnect(other) {
        var h, d := RemoveAt(htps, w, i), Prepend(dhtps, other, c);
        TwoLits(lits[c]);
        WalkPark(a, ttail, lits, loose, htps, dhtps, w, i, c, other);
        WalkWatched(a, ttail, lits, loose, h, d, w, i);
        RemovedOne(htps, w, i);
        SameMap(lits, c);
        Relink(c, lits[c], h, d);
        n := i;
      } else {
        WalkKeep(a, ttail, lits, loose, htps, dhtps, w, i);
        n := i + 1;
      }
    }

    /** Another literal is not false: it becomes a watch. */
    method VisitRewatched(w: Lit, i: nat, j: nat)
      requires Propagating() && conflict == 0 && ttail < |a.trail| && w == Neg(a.trail[ttail].lit)
      requires Walking(a, ttail, lits, loose, htps, dhtps, w, i) && i < |At(htps, w)|
      requires var c := At(htps, w)[i];
        c in lits && |lits[c]| >= 3 && lits[c][0] == w && 2 <= j < |lits[c]| && !a.False(lits[c][j])
      modifies this`lits, this`htps, this`dhtps
      ensures Propagating() && Walking(a, ttail, lits, loose, htps, dhtps, w, i)
      ensures i <= |At(htps, w)| < old(|At(htps, w)|)
    {
      hide Propagating, Base, Walking, Watched, NoDup, At, Rewatch;
      LargeFacts(w, i);
      var c := At(htps, w)[i];
      var ls := Rewatch(lits[c], j);
      RewatchElements(lits[c], j);
      WalkMove(a, ttail, lits, loose, htps, dhtps, w, i, c, j);
      var h := Prepend(RemoveAt(htps, w, i), lits[c][j], c);
      WalkWatched(a, ttail, lits[c := ls], loose, h, dhtps, w, i);
      MovedOne(htps, w, i, lits[c][j], c);
      Relink(c, ls, h, dhtps);
    }

    /** All literals but the other watch are false: it is implied, or the clause is the conflict. */
    method VisitUnit(w: Lit, i: nat)
      requires Propagating() && conflict == 0 && ttail < |a.trail| && w == Neg(a.trail[ttail].lit)
      requires Walking(a, ttail, lits, loose, htps, dhtps, w, i) && i < |At(htps, w)|
      requires var c := At(htps, w)[i];
        c in lits && |lits[c]| >= 3 && lits[c][0] == w && !a.True(lits[c][1]) && forall j :: 2 <= j < |lits[c]| ==> a.False(lits[c][j])
      modifies this`a, this`locked, this`lits, this`zhains, this`oadded, this`ladded, this`hist, this`formula, this`conflict
      ensures Propagating() && formula == old(formula)
      ensures a.Top() == old(a).Top() && old(a).trail <= a.trail
      ensures conflict == 0 ==> Walking(a, ttail, lits, loose, htps, dhtps, w, i + 1)
    {
      hide Propagating, Base, Walking, Watched, NoDup, At, Arranged, Conflicting, FalseBefore, HasLevel, Assignment.Leveled;
      LargeFacts(w, i);
      PropagatingFacts();
      var c := At(htps, w)[i];
      var other := lits[c][1];
      LargeMet(a, hist, lits, c, w, other);
      if a.False(other) {
        SetConflict(c);
        return;
      }
      ghost var a0, lits0 := a, lits;
      var reason := Imply(other, c);
      PropagatingFacts();
      WalkPush(a0, ttail, lits0, loose, htps, dhtps, w, i, other, a0.Top(), reason);
      if reason != c {
        WalkStore(a, ttail, lits0, loose, htps, dhtps, w, i, reason, [other]);
      }
      FreshPartner(a, ttail, lits, w, c, other);
      WalkKeep(a, ttail, lits, loose, htps, dhtps, w, i);
    }

    lemma StartWalk(w: Lit)
      requires Propagating() && conflict == 0 && ttail < |a.trail| && w == Neg(a.trail[ttail].lit)
      ensures a.Indexed() && Walking(a, ttail, lits, loose, htps, dhtps, w, 0)
    {
      hide Base, Watched, Implied, Settled, ConflictOk;
    }

    /** All clauses of w were visited. */
    method Advance(w: Lit)
      requires Propagating() && ttail < ttail2 && w == Neg(a.trail[ttail].lit)
      requires conflict == 0 ==> Walking(a, ttail, lits, loose, htps, dhtps, w, |At(htps, w)|)
      modifies this`ttail
      ensures Propagating() && ttail == old(ttail) + 1
    {
      hide Base, Settled, ConflictOk, Watched, Implied, Walking;
      if conflict == 0 {
        WalkEnd(a, ttail, lits, loose, htps, dhtps, w);
      }
      ttail := ttail + 1;
    }

    /** Visits the clauses on the list of w, the false literal of the next assignment, and moves their watches. */
    method Propl(w: Lit)
      requires Propagating() && conflict == 0 && ttail < ttail2 <= |a.trail| && w == Neg(a.trail[ttail].lit)
      modifies this`a, this`locked, this`lits, this`zhains, this`oadded, this`ladded, this`hist, this`formula, this`conflict,
               this`htps, this`dhtps, this`ttail
      ensures Propagating() && ttail == old(ttail) + 1 && formula == old(formula)
      ensures a.Top() == old(a).Top() && old(a).trail <= a.trail
    {
      hide *;
      StartWalk(w);
      var i: nat := 0;
      while i < |At(htps, w)| && conflict == 0
        invariant Propagating() && ttail == old(ttail) && ttail < ttail2 <= |a.trail| && w == Neg(a.trail[ttail].lit)
        invariant formula == old(formula) && a.Top() == old(a).Top() && old(a).trail <= a.trail
        invariant a.Indexed()
        invariant conflict == 0 ==> Walking(a, ttail, lits, loose, htps, dhtps, w, i) && i <= |At(htps, w)|
        decreases conflict == 0, |At(htps, w)| - i
      {
        FirstWatch(w, i);
        var ls := lits[At(htps, w)[i]];
        if a.True(ls[1]) {
          i := VisitSatisfied(w, i);
        } else {
          var j := FindWatch(ls);
          if j < |ls| {
            VisitRewatched(w, i, j);
          } else {
            VisitUnit(w, i);
            i := i + 1;
            PropagatingFacts();
          }
        }
      }
      Advance(w);
    }

    lemma QueueBound()
      requires Propagating()
      ensures |a.trail| <= maxVar
    {
      TrailBound(a, maxVar);
    }

    /** Everything assigned was propagated: from now on it is settled. */
    method Settle()
      requires Propagating() && conflict == 0 && ttail == ttail2 == |a.trail|
      modifies this`solid
      ensures Propagating() && solid == |a.trail|
    {
      hide Base, Settled, Linked;
      solid := |a.trail|;
    }

    /** Unit propagation. Binary clauses go first; a conflict stops it once they are all done. */
    method Bcp()
      requires Propagating() && conflict == 0
      modifies this`a, this`locked, this`lits, this`zhains, this`oadded, this`ladded, this`hist, this`formula, this`conflict,
               this`htps, this`dhtps, this`ttail, this`ttail2, this`propagations, this`solid
      ensures Propagating() && formula == old(formula)
      ensures a.Top() == old(a).Top() && old(a).trail <= a.trail
      ensures conflict == 0 ==> ttail == ttail2 == solid == |a.trail|
      ensures conflict != 0 ==> solid == old(solid)
      ensures ttail2 == |a.trail| && propagations == old(propagations) + (|a.trail| - old(ttail2))
      ensures old(ttail) == |old(a).trail| ==> conflict == 0 && a == old(a)
    {
      hide *;
      var props: nat := 0;
      PropagatingFacts();
      QueueBound();
      while ttail2 < |a.trail| || (ttail < |a.trail| && conflict == 0)
        invariant Propagating() && formula == old(formula) && a.Top() == old(a).Top() && old(a).trail <= a.trail
        invariant ttail <= ttail2 <= |a.trail| <= maxVar && solid == old(solid)
        invariant props == ttail2 - old(ttail2) && propagations == old(propagations)
        invariant old(ttail) == |old(a).trail| ==> conflict == 0 && a == old(a) && ttail == |a.trail|
        decreases 2 * maxVar - ttail - ttail2
      {
        if ttail2 < |a.trail| {
          props := props + 1;
          Prop2(Neg(a.trail[ttail2].lit));
        } else {
          Propl(Neg(a.trail[ttail].lit));
        }
        PropagatingFacts();
        QueueBound();
      }
      if conflict == 0 {
        Settle();
      }
      propagations := propagations + props;
    }

    /** While undoing: the first n assignments stay, and are linked as if everything had been propagated. */
    ghost predicate Unwinding(n: nat)
      reads this`a, this`maxVar, this`lits, this`zhains, this`oadded, this`ladded, this`loose, this`locked, this`hist, this`formula,
            this`impls, this`htps, this`dhtps, this`mtcls
    {
      && Base() && a.Valid() && a.Indexed() && mtcls == 0 && n <= |a.trail|
      && Settled(formula, a, hist, lits, loose) && Linked(a, n, n, lits, loose, impls, htps, dhtps)
    }

    /** Takes the last assignment back: its reason is unlocked, the clauses parked on it return to their lists. */
    method Unassign(ghost n: nat)
      requires Unwinding(n) && |a.trail| > n && a.trail[|a.trail| - 1].level > 0
      requires forall i :: 0 <= i < n ==> a.trail[i].level < a.trail[|a.trail| - 1].level
      modifies this`a, this`locked, this`htps, this`dhtps
      ensures Unwinding(n) && a == old(a).Pop()
    {
      hide Stored, InRange, Settled, Watched, Implied, Reasoned, Justified, LockedOk, Flush, Assignment.Leveled;
      var x := a.trail[|a.trail| - 1].lit;
      TrailPop(a, hist, lits, locked, maxVar);
      PopValid(a);
      SettledPop(formula, a, hist, lits, loose);
      LinkedPop(a, n, lits, loose, impls, htps, dhtps, x);
      locked := locked - {a.trail[|a.trail| - 1].reason};
      a := a.Pop();
      var h := Reattach(x);
      htps, dhtps := h, dhtps[x := []];
    }

    /** Puts the clauses parked on x onto the lists of their other watches. */
    method Reattach(x: Lit) returns (h: Lists)
      requires forall c :: c in At(dhtps, x) ==> c in lits && |lits[c]| >= 2
      ensures h == Flush(lits, htps, x, At(dhtps, x))
    {
      var rest := At(dhtps, x);
      h := htps;
      while rest != []
        invariant forall c :: c in rest ==> c in lits && |lits[c]| >= 2
        invariant Flush(lits, h, x, rest) == Flush(lits, htps, x, At(dhtps, x))
        decreases |rest|
      {
        var c := rest[0];
        assert c in rest;
        h := Prepend(h, Partner(lits, c, x), c);
        rest := rest[1..];
      }
    }

    lemma StartUnwinding(level: nat) returns (n: nat)
      requires Propagating() && level <= a.Top()
      requires level < a.Top() || (conflict == 0 && ttail == |a.trail|)
      ensures IsCut(a, level, n) && CutTop(a, level, n) && Unwinding(n)
    {
      hide Base, Settled, Watched, Implied, ConflictOk;
      PropagatingFacts();
      n := FindCut(a, level);
      LinkedLess(a, n, if conflict == 0 then ttail else solid, if conflict == 0 then ttail2 else solid,
                 lits, loose, impls, htps, dhtps);
    }

    /** Nothing above n is left. */
    method Unwound()
      requires Unwinding(|a.trail|) && conflict == 0
      modifies this`ttail, this`ttail2, this`solid
      ensures Propagating() && ttail == ttail2 == solid == |a.trail|
    {
      hide Base, Settled, Linked;
      ttail, ttail2, solid := |a.trail|, |a.trail|, |a.trail|;
    }

    /** Pops the trail until it ends on the given level. */
    method PopTo(level: nat, ghost n: nat)
      requires Unwinding(n) && a.Valid() && IsCut(a, level, n) && CutTop(a, level, n)
      modifies this`a, this`locked, this`htps, this`dhtps
      ensures Unwinding(n) && |a.trail| == n && a.Valid() && a.Top() == level && IsCut(old(a), level, n)
      ensures n <= |old(a).trail| && a.trail == old(a).trail[..n]
    {
      hide Base, Unwinding, Assignment.Leveled, Assignment.Indexed, CutTop;
      while |a.trail| > 0 && a.trail[|a.trail| - 1].level != level
        invariant Unwinding(n) && n <= |a.trail| <= |old(a).trail| && a.trail == old(a).trail[..|a.trail|]
        decreases |a.trail|
      {
        CutLast(old(a), a, level, n);
        Unassign(n);
        assert a.trail == old(a).trail[..|a.trail|];
      }
      CutDone(old(a), a, level, n);
      UnwindingValid(n);
    }

    /** The assumptions are to be taken over once more. */
    method StartOver()
      requires a.Valid() && a.Indexed() && AssumeOk(a, Considered(), 0, 0, maxVar)
      modifies this`alstail, this`adecidelevel
      ensures alstail == 0 && adecidelevel == 0 && AssumeOk(a, Considered(), Taken(), adecidelevel, maxVar)
    {
      hide AssumeOk, Assignment.Leveled, Assignment.Indexed;
      AssumeNone(a, maxVar);
      adecidelevel := 0;
      alstail := 0;
    }

    /** Takes back every assignment above the given level. */
    method Undo(level: nat)
      requires Propagating() && level <= a.Top() && AssumeOk(a, Considered(), Taken(), adecidelevel, maxVar)
      requires level < a.Top() || (conflict == 0 && ttail == |a.trail|)
      modifies this`a, this`locked, this`htps, this`dhtps, this`ttail, this`ttail2, this`solid, this`conflict, this`alstail, this`adecidelevel
      ensures Propagating() && conflict == 0 && ttail == ttail2 == solid == |a.trail|
      ensures a.Top() == level && |a.trail| <= |old(a).trail| && a.trail == old(a).trail[..|a.trail|] && IsCut(old(a), level, |a.trail|)
      ensures AssumeOk(a, Considered(), Taken(), adecidelevel, maxVar)
      ensures old(adecidelevel) <= level ==> alstail == old(alstail) && adecidelevel == old(adecidelevel)
    {
      hide *;
      PropagatingFacts();
      ghost var n := StartUnwinding(level);
      PopTo(level, n);
      AssumeUndo(old(a), a, Considered(), Taken(), adecidelevel, maxVar, level, n);
      UnwindingValid(n);
      conflict := mtcls;
      Unwound();
      if level < adecidelevel {
        StartOver();
      }
    }

    lemma UnwindingValid(n: nat)
      requires Unwinding(n)
      ensures a.Valid() && a.Indexed() && mtcls == 0
    {
    }

    /** The empty clause was derived: the formula has no model, and the solver says so from now on. */
    ghost predicate Doomed()
      reads this`a, this`maxVar, this`lits, this`zhains, this`oadded, this`ladded, this`loose, this`locked, this`hist, this`formula,
            this`mtcls, this`conflict
    {
      && Base() && a.Valid() && a.Indexed() && a.Top() == 0
      && mtcls != 0 && mtcls in lits && mtcls in hist && hist[mtcls] == {} && (conflict == 0 || (conflict in lits && conflict in hist && hist[conflict] == {}))
    }

    ghost predicate Valid()
      reads this`a, this`maxVar, this`lits, this`zhains, this`oadded, this`ladded, this`loose, this`locked, this`hist, this`formula,
            this`impls, this`htps, this`dhtps, this`ttail, this`ttail2, this`conflict, this`mtcls, this`solid,
            this`als, this`alstail, this`adecidelevel, this`failed, this`simplifying
    {
      && a.Indexed() && (if mtcls == 0 then Propagating() else Doomed())
      && AssumeOk(a, Considered(), Taken(), adecidelevel, maxVar)
    }

    /** Puts the clause on the lists of its first two literals. */
    method ConnectHeadTail(id: nat)
      requires id in lits && id !in loose
      modifies this`impls, this`htps
      ensures Attached(old(impls), old(htps), id, lits[id], impls, htps)
    {
      if |lits[id]| == 2 {
        impls := Prepend(Prepend(impls, lits[id][0], id), lits[id][1], id);
      } else if |lits[id]| > 2 {
        htps := Prepend(Prepend(htps, lits[id][0], id), lits[id][1], id);
      }
    }

    /** Stores an asserting clause and links it. (The source stores it before it undoes; storing looks only at the
        order of its literals' levels, which undoing does not change.) */
    method StoreAsserting(added: seq<Lit>, resolved: seq<nat>) returns (id: nat)
      requires Base() && a.Indexed() && Asserting(a, added, a.Top())
      requires NoDup(resolved) && Elements(resolved) <= hist.Keys && Implies(hist, Elements(resolved), Elements(added))
      requires forall l :: l in added ==> 0 < l.idx <= maxVar
      modifies this`lits, this`zhains, this`oadded, this`ladded, this`hist, this`formula, this`impls, this`htps
      ensures Base() && id != 0 && formula == old(formula)
      ensures id !in old(hist) && id !in old(lits) && id !in loose && id in lits
      ensures hist == old(hist)[id := Elements(added)] && lits == old(lits)[id := lits[id]]
      ensures |lits[id]| >= 1 && (|lits[id]| == 1 <==> a.Top() == 0)
      ensures |lits[id]| == 1 ==> lits[id] == [added[0]]
      ensures |lits[id]| >= 2 ==> WatchPair(a, added[0], lits[id], a.Top())
      ensures Attached(old(impls), old(htps), id, lits[id], impls, htps)
      ensures Justified(a, hist, Entry(added[0], a.Top(), id), |a.trail|)
      ensures Elements(lits[id]) == Elements(added) && Antecedents(zhains, id) == Elements(resolved)
    {
      hide *;
      BaseElim();
      AssertingFacts(a, added, a.Top());
      ghost var h0 := hist;
      id := StoreClause(added, resolved, true);
      ConnectHeadTail(id);
      BaseElim();
      AssertingJustified(a, h0, added, a.Top(), id);
      AssertingOrder(a, added, a.Top(), lits[id]);
      if |lits[id]| == 1 {
        SameElement(added, lits[id]);
      }
    }

    lemma LearnFacts(added: seq<Lit>)
      requires Propagating() && conflict == 0 && ttail == ttail2 == |a.trail| && added != [] && added[0] in added
      requires forall l :: l in added ==> 0 < l.idx <= maxVar
      ensures Base() && a.Indexed() && a.Valid() && mtcls == 0 && lits.Keys <= hist.Keys && 0 < added[0].idx <= maxVar
      ensures Queued(a, solid, ttail, ttail2)
      ensures Settled(formula, a, hist, lits, loose) && Linked(a, |a.trail|, |a.trail|, lits, loose, impls, htps, dhtps)
    {
      hide *;
      PropagatingElim();
      StoredFacts(hist, lits, zhains, oadded, ladded, formula);
    }

    /** Learns the clause, now unit, and assigns its first literal. */
    method Learn(added: seq<Lit>, resolved: seq<nat>) returns (ghost id: nat)
      requires Propagating() && conflict == 0 && ttail == ttail2 == |a.trail| && a.Indexed()
      requires Asserting(a, added, a.Top()) && AssumeOk(a, Considered(), Taken(), adecidelevel, maxVar)
      requires NoDup(resolved) && Elements(resolved) <= hist.Keys && Implies(hist, Elements(resolved), Elements(added))
      requires forall l :: l in added ==> 0 < l.idx <= maxVar
      modifies this`a, this`locked, this`lits, this`zhains, this`oadded, this`ladded, this`hist, this`formula, this`impls, this`htps
      ensures Propagating() && conflict == 0 && AssumeOk(a, Considered(), Taken(), adecidelevel, maxVar)
      ensures |a.trail| == |old(a).trail| + 1 && old(a).trail <= a.trail && a.Top() == old(a).Top() && formula == old(formula)
      ensures added != [] && a.trail[|a.trail| - 1] == Entry(added[0], a.Top(), id)
      ensures id !in old(hist) && id in lits && hist == old(hist)[id := Elements(added)] && Elements(lits[id]) == Elements(added)
      ensures Antecedents(zhains, id) == Elements(resolved)
    {
      hide *;
      AssertingFacts(a, added, a.Top());
      LearnFacts(added);
      ghost var h0, l0 := hist, lits;
      var c := StoreAsserting(added, resolved);
      LearnLinked(formula, a, h0, l0, loose, old(impls), old(htps), dhtps, added[0], c, lits[c], Elements(added), impls, htps);
      AssertUnit(added[0], c);
      id := c;
    }

    /** Assigns the literal an attached clause forces after a backjump. */
    method AssertUnit(x: Lit, id: nat)
      requires Base() && a.Indexed() && a.Undef(x) && 0 < x.idx <= maxVar && id != 0 && id in lits
      requires Justified(a, hist, Entry(x, a.Top(), id), |a.trail|)
      requires conflict == 0 && mtcls == 0 && Queued(a, solid, ttail, ttail2) && ttail == ttail2 == |a.trail|
      requires AssumeOk(a, Considered(), Taken(), adecidelevel, maxVar)
      requires Pushed(formula, a, hist, lits, loose, impls, htps, dhtps, x, id)
      modifies this`a, this`locked
      ensures Propagating() && conflict == 0 && AssumeOk(a, Considered(), Taken(), adecidelevel, maxVar)
      ensures |a.trail| == |old(a).trail| + 1 && old(a).trail <= a.trail && a.Top() == old(a).Top()
      ensures a.trail[|a.trail| - 1] == Entry(x, a.Top(), id)
    {
      hide *;
      BaseElim();
      var level := a.Top();
      TrailPush(a, hist, lits, locked, maxVar, x, level, id);
      PushValid(a, x, level, id);
      QueuedPush(a, solid, ttail, ttail2, x, id);
      AssumePush(a, Considered(), Taken(), adecidelevel, maxVar, x, id);
      PushedElim(formula, a, hist, lits, loose, impls, htps, dhtps, x, id);
      PushLast(a, x, level, id);
      a := a.Push(x, level, id);
      locked := locked + {id};
      BaseIntro();
      NoConflict(a, hist, lits);
      PropagatingIntro();
    }

    lemma ValidElim()
      requires Valid()
      ensures a.Indexed() && AssumeOk(a, Considered(), Taken(), adecidelevel, maxVar)
      ensures mtcls == 0 ==> Propagating()
      ensures mtcls != 0 ==> Doomed()
      ensures Base() && a.Valid()
    {
      hide Propagating, Doomed;
      if mtcls == 0 { PropagatingElim(); } else { DoomedElim(); }
    }

    lemma ValidIntro()
      requires a.Indexed() && (if mtcls == 0 then Propagating() else Doomed()) && AssumeOk(a, Considered(), Taken(), adecidelevel, maxVar)
      ensures Valid()
    {
    }

    lemma DoomedElim()
      requires Doomed()
      ensures Base() && a.Valid() && a.Indexed() && a.Top() == 0
      ensures mtcls != 0 && mtcls in lits && mtcls in hist && hist[mtcls] == {} && (conflict == 0 || (conflict in lits && conflict in hist && hist[conflict] == {}))
    {
      hide Base;
    }

    lemma DoomedIntro()
      requires Base() && a.Valid() && a.Indexed() && a.Top() == 0
      requires mtcls != 0 && mtcls in lits && mtcls in hist && hist[mtcls] == {} && (conflict == 0 || (conflict in lits && conflict in hist && hist[conflict] == {}))
      ensures Doomed()
    {
      hide Base;
    }

    /** The conflict can be analyzed. */
    lemma ConflictFacts()
      requires Valid() && conflict != 0
      ensures a.Valid() && a.Indexed() && Base() && Ready(a, hist, lits)
      ensures conflict in lits && conflict in hist && Conflicting(a, hist[conflict]) && lits.Keys <= hist.Keys
    {
      hide *;
      ValidElim();
      BaseElim();
      TrailStoreReady();
      StoredFacts(hist, lits, zhains, oadded, ladded, formula);
      if mtcls == 0 {
        PropagatingElim();
        ConflictElim(a, hist, lits, conflict);
      } else {
        DoomedElim();
        EmptyConflicts(a);
      }
    }

    lemma LearnedInRange(added: seq<Lit>)
      requires Base() && a.Indexed() && Learned(a, added)
      ensures NoDup(added) && (a.Top() == 0 ==> added == []) && (a.Top() > 0 ==> added != [])
      ensures forall l :: l in added ==> 0 < l.idx <= maxVar && l.idx in a.at
    {
      hide Stored, InRange, Reasoned, LockedOk;
    }

    /** The first empty clause, if there is one. */
    ghost predicate EmptyOk()
      reads this`lits, this`hist, this`mtcls
    {
      mtcls != 0 ==> mtcls in lits && mtcls in hist && hist[mtcls] == {}
    }

    lemma ValidEmptyOk()
      requires Valid()
      ensures EmptyOk()
    {
      hide Propagating, Base;
    }

    /** A conflict on level 0: the empty clause is learned. */
    method LearnEmpty(resolved: seq<nat>) returns (ghost c: nat)
      requires Base() && a.Valid() && a.Indexed() && a.Top() == 0 && EmptyOk()
      requires NoDup(resolved) && Elements(resolved) <= hist.Keys && Implies(hist, Elements(resolved), Elements<Lit>([]))
      modifies this`lits, this`zhains, this`oadded, this`ladded, this`hist, this`formula, this`mtcls, this`conflict, this`ttail, this`ttail2, this`solid
      ensures Doomed() && formula == old(formula) && a.Top() == 0 && conflict == mtcls
      ensures c !in old(hist) && c in lits && hist == old(hist)[c := {}] && Elements(lits[c]) == {}
      ensures Antecedents(zhains, c) == Elements(resolved) && mtcls == if old(mtcls) == 0 then c else old(mtcls)
    {
      hide *;
      EmptyList();
      EmptyOkIs();
      var id := StoreClause([], resolved, true);
      BaseElim();
      if mtcls == 0 {
        mtcls := id;
      }
      ttail, ttail2, solid := |a.trail|, |a.trail|, |a.trail|;
      conflict := mtcls;
      c := id;
      DoomedIntro();
    }

    lemma EmptyOkIs()
      requires EmptyOk()
      ensures mtcls != 0 ==> mtcls in lits && mtcls in hist && hist[mtcls] == {}
    {
    }

    /** Analyzes the conflict, jumps back, and learns a clause that is then unit; or finds the formula unsatisfiable. */
    method Backtrack()
      requires Valid() && conflict != 0
      modifies this`a, this`locked, this`lits, this`zhains, this`oadded, this`ladded, this`hist, this`formula, this`impls, this`htps,
               this`dhtps, this`ttail, this`ttail2, this`solid, this`conflict, this`mtcls, this`alstail, this`adecidelevel,
               this`conflicts
      ensures Valid() && formula == old(formula)
      ensures mtcls == 0 ==> conflict == 0 && ttail2 < |a.trail| && a.Top() < old(a).Top() && Jumped(old(a), a)
      ensures old(mtcls) != 0 ==> mtcls != 0
      ensures old(a).Indexed() && a.Indexed() && ZeroKept(old(a), a)
      ensures conflicts == old(conflicts) + 1
      ensures HasLearned(old(a), old(lits), old(conflict), old(hist), a, lits, hist, zhains)
    {
      hide *;
      conflicts := conflicts + 1;
      LearnFromConflict();
    }

    method LearnFromConflict()
      requires Valid() && conflict != 0
      modifies this`a, this`locked, this`lits, this`zhains, this`oadded, this`ladded, this`hist, this`formula, this`impls, this`htps,
               this`dhtps, this`ttail, this`ttail2, this`solid, this`conflict, this`mtcls, this`alstail, this`adecidelevel
      ensures Valid() && formula == old(formula)
      ensures mtcls == 0 ==> conflict == 0 && ttail2 < |a.trail| && a.Top() < old(a).Top() && Jumped(old(a), a)
      ensures old(mtcls) != 0 ==> mtcls != 0
      ensures old(a).Indexed() && a.Indexed() && ZeroKept(old(a), a)
      ensures HasLearned(old(a), old(lits), old(conflict), old(hist), a, lits, hist, zhains)
    {
      hide *;
      ConflictFacts();
      ValidElim();
      var added, resolved := Analyze(a, lits, hist, conflict);
      LearnedInRange(added);
      var level := Drive(a, added);
      if added == [] {
        ValidEmptyOk();
        ghost var id := LearnEmpty(resolved);
        EmptyList();
        HasLearnedIntro(old(a), old(lits), old(conflict), old(hist), a, lits, hist, zhains, added, resolved, id);
        DoomedElim();
        ValidIntro();
        ZeroExtend(old(a), a);
      } else {
        if mtcls != 0 { DoomedElim(); assert false; }
        Undo(level);
        PropagatingFacts();
        ghost var a1 := a;
        ZeroCut(old(a), a, level, |a.trail|);
        BecomesUnit(old(a), a, added, level, |a.trail|);
        ghost var id := Learn(added, resolved);
        HasLearnedIntro(old(a), old(lits), old(conflict), old(hist), a, lits, hist, zhains, added, resolved, id);
        PropagatingFacts();
        ValidIntro();
        JumpedIntro(old(a), a1, a, level);
        ZeroExtend(a1, a);
        ZeroTrans(old(a), a1, a);
      }
    }

    /** Everything is propagated, without conflict. */
    ghost predicate Idle()
      reads this`a, this`maxVar, this`lits, this`zhains, this`oadded, this`ladded, this`loose, this`locked, this`hist, this`formula,
            this`impls, this`htps, this`dhtps, this`ttail, this`ttail2, this`conflict, this`mtcls, this`solid
    {
      Propagating() && a.Valid() && a.Indexed() && conflict == 0 && ttail == ttail2 == solid == |a.trail| && mtcls == 0
    }

    lemma IdleElim()
      requires Idle()
      ensures Propagating() && a.Valid() && a.Indexed() && conflict == 0 && ttail == ttail2 == solid == |a.trail| && mtcls == 0
      ensures Settled(formula, a, hist, lits, loose) && Linked(a, |a.trail|, |a.trail|, lits, loose, impls, htps, dhtps)
      ensures Base() && Stored(hist, lits, zhains, oadded, ladded, formula) && TrailOk(a, hist, lits, locked, maxVar)
      ensures InRange(hist, maxVar) && loose <= lits.Keys && Queued(a, solid, ttail, ttail2)
    {
      hide Propagating;
      PropagatingElim();
    }

    lemma IdleIntro()
      requires Propagating() && conflict == 0 && ttail == ttail2 == solid == |a.trail|
      ensures Idle()
    {
      hide Propagating;
      PropagatingFacts();
    }

    /** Opens a new decision level. */
    method AssignDecision(l: Lit)
      requires Idle() && a.Undef(l) && 0 < l.idx <= maxVar
      modifies this`a
      ensures Propagating() && conflict == 0 && a == old(a).Push(l, old(a).Top() + 1, 0) && a.Indexed() && a.Valid()
      ensures |a.trail| == |old(a).trail| + 1 && a.Top() == old(a).Top() + 1
    {
      hide *;
      IdleElim();
      PushValid(a, l, a.Top() + 1, 0);
      TrailPush(a, hist, lits, locked, maxVar, l, a.Top() + 1, 0);
      SettledPush(formula, a, hist, lits, loose, l, a.Top() + 1, 0);
      LinkedPush(a, |a.trail|, |a.trail|, lits, loose, impls, htps, dhtps, l, a.Top() + 1, 0);
      QueuedDecision(a, l);
      a := a.Push(l, a.Top() + 1, 0);
      BaseIntro();
      NoConflict(a, hist, lits);
      PropagatingIntro();
      PropagatingFacts();
    }

    /** Looks for an assumption to decide on; records the first one that is false. */
    method NextAssumption() returns (r: Option<Lit>, ghost was: nat)
      requires a.Valid() && a.Indexed() && failed.None? && alstail < |als| && AssumeOk(a, als, alstail, adecidelevel, maxVar)
      modifies this`alstail, this`adecidelevel, this`failed
      ensures old(alstail) < alstail <= |als|
      ensures r.Some? ==> failed.None? && a.Undef(r.value) && als[alstail-1] == r.value && adecidelevel == a.Top() + 1
      ensures r.Some? ==> AssumeOk(a, als, alstail - 1, was, maxVar)
      ensures r.None? && failed.None? ==> alstail == |als| && AssumeOk(a, als, alstail, adecidelevel, maxVar)
      ensures failed.Some? ==> r.None? && a.False(failed.value) && als[alstail-1] == failed.value && AssumeOk(a, als, alstail - 1, adecidelevel, maxVar)
    {
      hide AssumeOk, Assignment.Leveled, Assignment.Indexed;
      r, was := None, 0;
      while alstail < |als|
        invariant old(alstail) <= alstail <= |als| && failed.None?
        invariant AssumeOk(a, als, alstail, adecidelevel, maxVar)
        invariant alstail < |als| || alstail > old(alstail)
      {
        var l := als[alstail];
        if a.False(l) {
          failed := Some(l);
          alstail := alstail + 1;
          return;
        }
        if a.True(l) {
          AssumeSkip(a, als, alstail, adecidelevel, maxVar);
          TrueHasLevel(a, l);
          alstail := alstail + 1;
          if a.Level(l.idx) > adecidelevel {
            adecidelevel := a.Level(l.idx);
          }
          continue;
        }
        was := adecidelevel;
        TrueOrFalse(a, l);
        alstail := alstail + 1;
        adecidelevel := a.Top() + 1;
        r := Some(l);
        return;
      }
    }

    lemma ExplainedInRange(added: seq<Lit>, x: Lit)
      requires Base() && a.Indexed() && Explained(a, added, x)
      ensures NoDup(added) && a.True(x) && x.idx in a.at
      ensures forall l :: l in added ==> 0 < l.idx <= maxVar
    {
      hide Stored, InRange, Reasoned, LockedOk;
    }

    /** Stores and links the clause that explains a failed assumption. */
    method StoreExplained(added: seq<Lit>, resolved: seq<nat>, x: Lit) returns (id: nat)
      requires Base() && a.Indexed() && Explained(a, added, x)
      requires NoDup(resolved) && Elements(resolved) <= hist.Keys && Implies(hist, Elements(resolved), Elements(added))
      modifies this`lits, this`zhains, this`oadded, this`ladded, this`hist, this`formula, this`impls, this`htps
      ensures Base() && id != 0 && formula == old(formula) && a.True(x) && x.idx in a.at
      ensures id !in old(hist) && id !in old(lits) && id !in loose && id in lits
      ensures hist == old(hist)[id := Elements(added)] && lits == old(lits)[id := lits[id]]
      ensures Fits(a, lits[id]) && Attached(old(impls), old(htps), id, lits[id], impls, htps)
      ensures forall l :: l in lits[id] <==> l in added
      ensures Antecedents(zhains, id) == Elements(resolved)
      ensures Justified(a, hist, a.trail[a.at[x.idx]].(reason := id), a.at[x.idx])
    {
      hide *;
      BaseElim();
      ExplainedInRange(added, x);
      ghost var h0 := hist;
      id := StoreClause(added, resolved, true);
      ConnectHeadTail(id);
      BaseElim();
      SameElements(added, lits[id]);
      ExplainedFits(a, added, x, lits[id]);
      ExplainedJustifies(a, h0, added, x, id);
    }

    /** The clause becomes the reason of the assignment at position p. */
    method SwapReason(p: nat, id: nat)
      requires Base() && a.Indexed() && p < |a.trail| && a.trail[p].reason != 0 && id != 0 && id in lits
      requires Justified(a, hist, a.trail[p].(reason := id), p)
      requires Settled(formula, a, hist, lits, loose) && Linked(a, |a.trail|, |a.trail|, lits, loose, impls, htps, dhtps)
      requires conflict == 0 && mtcls == 0 && Queued(a, solid, ttail, ttail2) && ttail == ttail2 == solid == |a.trail|
      requires AssumeOk(a, Considered(), Taken(), adecidelevel, maxVar)
      modifies this`a, this`locked
      ensures Idle() && AssumeOk(a, Considered(), Taken(), adecidelevel, maxVar)
      ensures a == Swap(old(a), p, id) && SameLits(old(a), a) && old(a).Indexed() && a.Indexed()
    {
      hide *;
      BaseElim();
      var b := Swap(a, p, id);
      SwapSame(a, p, id);
      SwapTrail(a, hist, lits, locked, maxVar, p, id);
      SameSettled(formula, a, b, hist, lits, loose);
      SameLinked(a, b, |a.trail|, lits, loose, impls, htps, dhtps);
      SameQueued(a, b, solid, ttail, ttail2);
      SameAssume(a, b, Considered(), Taken(), adecidelevel, maxVar);
      SwapLength(a, p, id);
      locked := locked - {a.trail[p].reason} + {id};
      a := b;
      BaseIntro();
      NoConflict(a, hist, lits);
      PropagatingIntro();
      IdleIntro();
    }

    /** A failed assumption gets a reason that consists of decisions. */
    method ExplainFailure()
      requires Idle() && a.Indexed() && failed.Some? && a.False(failed.value) && AssumeOk(a, Considered(), Taken(), adecidelevel, maxVar)
      modifies this`a, this`locked, this`lits, this`zhains, this`oadded, this`ladded, this`hist, this`formula, this`impls, this`htps
      ensures Idle() && old(a).Indexed() && a.Indexed() && SameLits(old(a), a) && formula == old(formula)
      ensures Direct(a, lits, failed.value.idx)
      ensures AssumeOk(a, Considered(), Taken(), adecidelevel, maxVar)
    {
      hide *;
      IdleElim();
      TrailStoreReady();
      StoredFacts(hist, lits, zhains, oadded, ladded, formula);
      var found, added, resolved := Fanalyze(a, lits, hist, failed.value);
      SameRefl(a);
      if found {
        ghost var h0, l0 := hist, lits;
        var x := Neg(failed.value);
        NegIdx(failed.value);
        var id := StoreExplained(added, resolved, x);
        AttachFits(formula, a, h0, l0, loose, old(impls), old(htps), dhtps, |a.trail|, |a.trail|, id, lits[id], Elements(added), impls, htps);
        AtReason(a, x.idx);
        SwapSame(a, a.at[x.idx], id);
        ExplainedDirect(a, lits, added, x, id);
        SwapReason(a.at[x.idx], id);
      }
    }

    /** Nothing is left to assume or decide. */
    predicate Satisfied()
      reads this`a, this`als, this`alstail, this`maxVar
    {
      alstail == |als| && |a.trail| == maxVar
    }

    /** Search stopped because the assumption taken over last is false. */
    ghost predicate Stopped()
      reads this`a, this`maxVar, this`lits, this`zhains, this`oadded, this`ladded, this`loose, this`locked, this`hist, this`formula,
            this`impls, this`htps, this`dhtps, this`ttail, this`ttail2, this`conflict, this`mtcls, this`solid,
            this`als, this`alstail, this`adecidelevel, this`failed, this`simplifying
    {
      Valid() && Idle() && failed.Some? && 0 < alstail <= |als| && als[alstail-1] == failed.value && a.False(failed.value)
      && Direct(a, lits, failed.value.idx)
    }

    lemma StoppedIntro()
      requires Idle() && AssumeOk(a, Considered(), Taken(), adecidelevel, maxVar)
      requires failed.Some? && 0 < alstail <= |als| && als[alstail-1] == failed.value && a.False(failed.value)
      requires Direct(a, lits, failed.value.idx)
      ensures Stopped()
    {
      hide Propagating;
    }

    lemma IdleValid()
      requires Idle() && AssumeOk(a, Considered(), Taken(), adecidelevel, maxVar)
      ensures Valid()
    {
      hide Propagating;
    }

    /** What the heap or the random choice delivers: some unassigned literal. */
    method PickUnassigned() returns (l: Lit)
      requires a.Valid() && |a.trail| != maxVar && forall i :: 0 <= i < |a.trail| ==> 0 < a.trail[i].lit.idx <= maxVar
      ensures a.Undef(l) && 0 < l.idx <= maxVar
    {
      TrailBound(a, maxVar);
      var v: nat :| 0 < v <= maxVar && v !in a.at;
      var neg: bool := *;
      l := Lit(v, neg);
    }

    lemma TrailInRange()
      requires Base()
      ensures a.Valid() && forall i :: 0 <= i < |a.trail| ==> 0 < a.trail[i].lit.idx <= maxVar
    {
      hide Stored, InRange, Reasoned, LockedOk;
    }

    /** All is assigned and propagated, which the search notices when it looks next. */
    ghost predicate Finished()
      reads this`a, this`maxVar, this`lits, this`zhains, this`oadded, this`ladded, this`loose, this`locked, this`hist, this`formula,
            this`impls, this`htps, this`dhtps, this`ttail, this`ttail2, this`conflict, this`mtcls, this`solid, this`als, this`alstail
    {
      Idle() && Satisfied()
    }

    lemma NotIdle()
      requires ttail2 < |a.trail|
      ensures !Idle()
    {
      hide Propagating;
    }

    lemma FinishedIs()
      ensures Finished() <==> Idle() && Satisfied()
    {
      hide Idle, Satisfied;
    }

    /** Assumptions first, then any unassigned literal. */
    method Decide()
      requires Idle() && Valid() && failed.None? && !Satisfied() && !simplifying
      modifies this`a, this`locked, this`lits, this`zhains, this`oadded, this`ladded, this`hist, this`formula, this`impls, this`htps,
               this`alstail, this`adecidelevel, this`failed, this`decisions
      ensures Valid() && formula == old(formula) && old(a).Indexed() && a.Indexed() && ZeroKept(old(a), a)
      ensures failed.Some? ==> Stopped()
      ensures failed.None? ==> Propagating() && conflict == 0 && alstail >= old(alstail)
      ensures failed.None? && ttail2 == |a.trail| ==> Idle() && Satisfied() && alstail > old(alstail) && a == old(a)
      ensures failed.None? ==> old(a).trail <= a.trail && (|a.trail| > |old(a).trail| || alstail > old(alstail))
      ensures decisions == old(decisions) + (if failed.None? && ttail2 < |a.trail| then 1 else 0)
    {
      hide *;
      ValidElim();
      IdleElim();
      TakenIs();
      ConsideredAll();
      ZeroExtend(a, a);
      SatisfiedIs();
      AlstailBound();
      if alstail < |als| {
        var r, was := NextAssumption();
        TakenIs();
        ConsideredAll();
        if r.Some? {
          DecideAssumption(r.value, was);
          decisions := decisions + 1;
          return;
        }
        if failed.Some? {
          Fail();
          return;
        }
        IdleValid();
        SatisfiedIs();
        if Satisfied() {
          return;
        }
      }
      DecideFreely();
      decisions := decisions + 1;
    }

    lemma SatisfiedIs()
      ensures Satisfied() <==> alstail == |als| && |a.trail| == maxVar
    {
    }

    lemma AlstailBound()
      requires a.Indexed() && AssumeOk(a, Considered(), Taken(), adecidelevel, maxVar)
      ensures !simplifying && failed.None? ==> alstail <= |als|
      ensures !simplifying ==> forall l :: l in als ==> 0 < l.idx <= maxVar
    {
    }

    method DecideAssumption(l: Lit, ghost was: nat)
      requires Idle() && a.Indexed() && failed.None? && !simplifying && 0 < alstail <= |als| && a.Undef(l) && als[alstail-1] == l && adecidelevel == a.Top() + 1
      requires AssumeOk(a, als, alstail - 1, was, maxVar) && 0 < l.idx <= maxVar
      modifies this`a
      ensures Valid() && Propagating() && conflict == 0 && ttail2 < |a.trail|
      ensures old(a).Indexed() && a.Indexed() && ZeroKept(old(a), a) && old(a).trail < a.trail
    {
      hide *;
      IdleElim();
      TakenIs();
      ConsideredAll();
      PushValid(a, l, a.Top() + 1, 0);
      AssumeTake(a, als, alstail - 1, was, maxVar);
      AssignDecision(l);
      ZeroExtend(old(a), a);
      PropagatingFacts();
      ValidIntro();
    }

    method DecideFreely()
      requires Idle() && Valid() && failed.None? && alstail == |als| && |a.trail| != maxVar && !simplifying
      modifies this`a
      ensures Valid() && Propagating() && conflict == 0 && ttail2 < |a.trail|
      ensures old(a).Indexed() && a.Indexed() && ZeroKept(old(a), a) && old(a).trail < a.trail
    {
      hide *;
      ValidElim();
      IdleElim();
      TrailInRange();
      var l := PickUnassigned();
      PushValid(a, l, a.Top() + 1, 0);
      TakenIs();
      ConsideredAll();
      AssumeDecide(a, als, adecidelevel, maxVar, l);
      AssignDecision(l);
      ZeroExtend(old(a), a);
      PropagatingFacts();
      ValidIntro();
    }

    /** Explains the failure. */
    method Fail()
      requires Idle() && a.Indexed() && failed.Some? && 0 < alstail <= |als| && als[alstail-1] == failed.value && a.False(failed.value)
      requires !simplifying && AssumeOk(a, als, alstail - 1, adecidelevel, maxVar)
      modifies this`a, this`locked, this`lits, this`zhains, this`oadded, this`ladded, this`hist, this`formula, this`impls, this`htps
      ensures Valid() && Stopped() && formula == old(formula)
      ensures old(a).Indexed() && a.Indexed() && ZeroKept(old(a), a)
    {
      hide *;
      TakenIs();
      ConsideredAll();
      ExplainFailure();
      SameTruth(old(a), a);
      SameZero(old(a), a);
      StoppedIntro();
      StoppedElim();
    }

    lemma StoppedElim()
      requires Stopped()
      ensures Valid() && Idle() && failed.Some? && 0 < alstail <= |als| && als[alstail-1] == failed.value && a.False(failed.value)
      ensures a.Indexed() && Direct(a, lits, failed.value.idx)
    {
      hide Valid, Direct, Propagating;
    }

    /** Propagation keeps the account of the assumptions. */
    method Propagate()
      requires Valid() && mtcls == 0 && conflict == 0
      modifies this`a, this`locked, this`lits, this`zhains, this`oadded, this`ladded, this`hist, this`formula, this`conflict,
               this`htps, this`dhtps, this`ttail, this`ttail2, this`propagations, this`solid
      ensures Valid() && formula == old(formula) && a.Top() == old(a).Top() && (conflict == 0 ==> Idle())
      ensures old(a).Indexed() && a.Indexed() && ZeroKept(old(a), a)
      ensures old(a).trail <= a.trail && old(ttail2) <= |a.trail| && ttail2 == |a.trail|
      ensures propagations == old(propagations) + |a.trail| - old(ttail2)
      ensures old(Idle()) ==> Idle() && a == old(a)
    {
      hide *;
      ghost var idle := Idle();
      if idle { IdleElim(); }
      ValidElim();
      PropagatingFacts();
      Bcp();
      PropagatingFacts();
      AssumeExtend(old(a), a, Considered(), Taken(), adecidelevel, maxVar);
      ZeroExtend(old(a), a);
      ValidIntro();
      if conflict == 0 { IdleIntro(); }
    }

    /** Marks unlocked clauses that are true for good and, when reducing, some of the learned clauses of more than
        two literals. (Which learned clauses go, their activity decides.) */
    method MarkClauses(reducing: bool) returns (doomed: set<nat>)
      requires Idle()
      ensures a.Indexed() && doomed <= lits.Keys && doomed !! locked && lits.Keys <= hist.Keys
      ensures forall c :: c in doomed ==> Disposable(a, hist, c)
      ensures !reducing ==> Cleaned(a, lits, locked, doomed)
    {
      hide *;
      IdleElim();
      StoredFacts(hist, lits, zhains, oadded, ladded, formula);
      doomed := {};
      var rest := lits.Keys;
      CleanedStart(a, lits, locked);
      while rest != {}
        invariant rest <= lits.Keys && doomed <= lits.Keys - rest && doomed !! locked
        invariant forall c :: c in doomed ==> Disposable(a, hist, c)
        invariant !reducing ==> Cleaned(a, lits, locked, doomed + rest)
        decreases rest
      {
        var c :| c in rest;
        var keep: bool := *;
        ghost var rest0 := rest;
        rest := rest - {c};
        assert rest0 == rest + {c};
        CleanedStep(a, lits, locked, doomed, rest, c);
        if c !in locked && TopSatisfied(a, lits[c]) {
          if !reducing || !keep {
            TopSatisfiedIs(a, hist, lits, c);
            doomed := doomed + {c};
          }
        } else if reducing && c !in locked && c % 2 == 1 && |lits[c]| > 2 && !keep {
          LearnedIsDisposable(a, hist, c);
          doomed := doomed + {c};
        }
      }
      assert doomed + rest == doomed;
    }

    /** Unlinks the marked clauses and forgets their literals. */
    method CollectClauses(doomed: set<nat>)
      requires Idle() && a.Indexed() && doomed !! locked && forall c :: c in doomed ==> Disposable(a, hist, c)
      modifies this`lits, this`loose, this`impls, this`htps, this`dhtps
      ensures Idle() && lits == old(lits) - doomed
    {
      hide *;
      IdleElim();
      SettledCollect(formula, a, hist, lits, loose, doomed);
      LinkedCollect(a, |a.trail|, lits, loose, impls, htps, dhtps, doomed);
      TrailCollect(a, hist, lits, locked, maxVar, doomed);
      StoredCollect(hist, lits, zhains, oadded, ladded, formula, doomed);
      lits, loose := lits - doomed, loose - doomed;
      impls, htps, dhtps := Unlink(impls, doomed), Unlink(htps, doomed), Unlink(dhtps, doomed);
      BaseIntro();
      NoConflict(a, hist, lits);
      PropagatingIntro();
      IdleIntro();
    }

    /** Throws learned clauses away. */
    method Reduce()
      requires Idle() && Valid()
      modifies this`lits, this`loose, this`impls, this`htps, this`dhtps, this`fsimplify
      ensures Idle() && Valid()
      ensures lits.Keys <= old(lits).Keys && forall c :: c in lits ==> lits[c] == old(lits)[c]
      ensures a.Indexed() && forall c :: c in old(lits) && c !in lits ==> c !in locked && Disposable(a, hist, c)
      ensures fsimplify == Fixed(a.trail)
    {
      hide *;
      ValidElim();
      var doomed := MarkClauses(true);
      CollectClauses(doomed);
      fsimplify := Fixed(a.trail);
      IdleElim();
      IdleValid();
    }

    /** Starts over at level 0 with everything learned so far. */
    method Restart()
      requires Idle() && Valid() && a.Top() > 0
      modifies this`a, this`locked, this`htps, this`dhtps, this`ttail, this`ttail2, this`solid, this`conflict, this`alstail, this`adecidelevel
      ensures Idle() && Valid() && a.Top() == 0 && |a.trail| < |old(a).trail|
      ensures old(a).Indexed() && a.Indexed() && ZeroKept(old(a), a)
    {
      hide *;
      ValidElim();
      IdleElim();
      Undo(0);
      CutShorter(old(a), a, |a.trail|);
      PropagatingFacts();
      ZeroCut(old(a), a, 0, |a.trail|);
      IdleIntro();
      IdleValid();
    }

    /** Tries one literal on level 1: if it fails, its negation is learned. */
    method Probe()
      requires Idle() && Valid() && a.Top() == 0 && simplifying && |a.trail| != maxVar && failed.None?
      modifies this`a, this`locked, this`lits, this`zhains, this`oadded, this`ladded, this`hist, this`formula, this`impls, this`htps,
               this`dhtps, this`ttail, this`ttail2, this`solid, this`conflict, this`mtcls, this`alstail, this`adecidelevel, this`propagations,
               this`conflicts
      ensures Valid() && formula == old(formula) && a.Top() == 0 && (mtcls == 0 ==> Idle())
      ensures old(a).Indexed() && a.Indexed() && ZeroKept(old(a), a) && propagations > old(propagations)
      ensures conflicts >= old(conflicts)
    {
      hide *;
      DecideProbe();
      ghost var a1 := a;
      PropagatingFacts();
      Propagate();
      ZeroTrans(old(a), a1, a);
      ghost var a2 := a;
      if conflict == 0 {
        Restart();
        ZeroTrans(old(a), a2, a);
        return;
      }
      Backtrack();
      ZeroTrans(old(a), a2, a);
      if mtcls != 0 { ValidElim(); DoomedElim(); return; }
      ghost var a3 := a;
      Propagate();
      ZeroTrans(old(a), a3, a);
      if conflict != 0 {
        ghost var a4 := a;
        Backtrack();
        ZeroTrans(old(a), a4, a);
        if mtcls != 0 { ValidElim(); DoomedElim(); }
      } else {
        IdleElim();
      }
    }

    method DecideProbe()
      requires Idle() && Valid() && a.Top() == 0 && simplifying && |a.trail| != maxVar && failed.None?
      modifies this`a
      ensures Valid() && Propagating() && conflict == 0 && mtcls == 0 && ttail2 < |a.trail| && a.Top() == 1
      ensures old(a).Indexed() && a.Indexed() && ZeroKept(old(a), a)
    {
      hide *;
      ValidElim();
      IdleElim();
      TrailInRange();
      var l := PickUnassigned();
      PushValid(a, l, a.Top() + 1, 0);
      TakenIs();
      ConsideredProbe();
      AssumeDecide(a, Considered(), adecidelevel, maxVar, l);
      AssignDecision(l);
      ZeroExtend(old(a), a);
      PropagatingFacts();
      ValidIntro();
    }

    lemma ConsideredProbe()
      requires simplifying && a.Indexed() && AssumeOk(a, Considered(), Taken(), adecidelevel, maxVar)
      ensures |Considered()| == Taken()
    {
    }

    /** Probes for failed literals, some number of times. */
    method FailedLiterals()
      requires Idle() && Valid() && a.Top() == 0 && simplifying && failed.None?
      modifies this`a, this`locked, this`lits, this`zhains, this`oadded, this`ladded, this`hist, this`formula, this`impls, this`htps,
               this`dhtps, this`ttail, this`ttail2, this`solid, this`conflict, this`mtcls, this`alstail, this`adecidelevel, this`propagations,
               this`conflicts
      ensures Valid() && formula == old(formula) && a.Top() == 0 && (mtcls == 0 ==> Idle())
      ensures old(a).Indexed() && a.Indexed() && ZeroKept(old(a), a)
      ensures propagations > old(propagations) || (propagations == old(propagations) && alstail == old(alstail))
      ensures conflicts >= old(conflicts)
    {
      hide *;
      IdleElim();
      ZeroExtend(a, a);
      var rounds: nat := *;
      while rounds > 0 && mtcls == 0 && |a.trail| != maxVar
        invariant Valid() && formula == old(formula) && a.Top() == 0 && (mtcls == 0 ==> Idle())
        invariant a.Indexed() && ZeroKept(old(a), a)
        invariant propagations > old(propagations) || (propagations == old(propagations) && alstail == old(alstail))
        invariant conflicts >= old(conflicts)
        decreases rounds
      {
        ghost var a1 := a;
        Probe();
        ZeroTrans(old(a), a1, a);
        rounds := rounds - 1;
      }
    }

    method StartProbing()
      requires Idle() && Valid() && a.Top() == 0 && !simplifying && failed.None?
      modifies this`simplifying
      ensures Idle() && Valid() && simplifying
    {
      hide *;
      ValidElim();
      IdleElim();
      ConsideredAll();
      TakenIs();
      AlstailBound();
      AssumeZero(a, als, als[..alstail], alstail, adecidelevel, maxVar);
      simplifying := true;
      ConsideredIs();
      IdleValid();
    }

    lemma ConsideredIs()
      requires failed.None? && simplifying && alstail <= |als|
      ensures Considered() == als[..alstail] && Taken() == alstail
    {
    }

    method StopProbing()
      requires Valid() && a.Top() == 0 && simplifying && failed.None? && forall l :: l in als ==> 0 < l.idx <= maxVar
      modifies this`simplifying
      ensures Valid() && !simplifying && (old(Idle()) ==> Idle())
    {
      hide *;
      ValidElim();
      TakenIs();
      ConsideredLength();
      AssumeZero(a, Considered(), als, alstail, adecidelevel, maxVar);
      simplifying := false;
      ConsideredAll();
      ValidIntro();
    }

    lemma ConsideredLength()
      requires simplifying && failed.None? && a.Indexed() && AssumeOk(a, Considered(), Taken(), adecidelevel, maxVar)
      ensures Taken() == alstail <= |als| && forall j :: 0 <= j < Taken() ==> j < |Considered()| && Considered()[j] == als[j]
    {
    }

    /** Back on level 0, probes for failed literals and collects what became true for good. */
    method Simplify()
      requires Idle() && Valid() && !simplifying && failed.None?
      modifies this`a, this`locked, this`lits, this`zhains, this`oadded, this`ladded, this`hist, this`formula, this`impls, this`htps,
               this`dhtps, this`ttail, this`ttail2, this`solid, this`conflict, this`mtcls, this`alstail, this`adecidelevel, this`propagations,
               this`simplifying, this`loose, this`conflicts, this`fsimplify
      ensures Valid() && !simplifying && formula == old(formula) && a.Top() == 0 && (mtcls == 0 ==> Idle())
      ensures old(a).Indexed() && a.Indexed() && ZeroKept(old(a), a)
      ensures mtcls == 0 ==> Cleaned(a, lits, locked, {})
      ensures propagations > old(propagations) || (propagations == old(propagations) && (old(a).Top() == 0 ==> alstail == old(alstail)))
      ensures conflicts >= old(conflicts)
      ensures mtcls == 0 ==> fsimplify == Fixed(a.trail)
    {
      hide *;
      IdleElim();
      ValidElim();
      ConsideredAll();
      AlstailBound();
      ZeroExtend(a, a);
      if a.Top() > 0 {
        Restart();
      }
      ghost var a1 := a;
      ProbeAll();
      ZeroTrans(old(a), a1, a);
      if mtcls == 0 {
        CollectSatisfied();
        fsimplify := Fixed(a.trail);
      }
    }

    method ProbeAll()
      requires Idle() && Valid() && a.Top() == 0 && !simplifying && failed.None? && forall l :: l in als ==> 0 < l.idx <= maxVar
      modifies this`a, this`locked, this`lits, this`zhains, this`oadded, this`ladded, this`hist, this`formula, this`impls, this`htps,
               this`dhtps, this`ttail, this`ttail2, this`solid, this`conflict, this`mtcls, this`alstail, this`adecidelevel, this`propagations,
               this`simplifying, this`conflicts
      ensures Valid() && !simplifying && formula == old(formula) && a.Top() == 0 && (mtcls == 0 ==> Idle())
      ensures old(a).Indexed() && a.Indexed() && ZeroKept(old(a), a)
      ensures propagations > old(propagations) || (propagations == old(propagations) && alstail == old(alstail))
      ensures conflicts >= old(conflicts)
    {
      hide *;
      StartProbing();
      FailedLiterals();
      StopProbing();
    }

    /** Collects the unlocked clauses that are true for good. */
    method CollectSatisfied()
      requires Idle() && Valid()
      modifies this`lits, this`loose, this`impls, this`htps, this`dhtps
      ensures Idle() && Valid() && a.Indexed() && Cleaned(a, lits, locked, {})
    {
      hide *;
      ValidElim();
      var doomed := MarkClauses(false);
      CleanedCollect(a, lits, locked, doomed);
      CollectClauses(doomed);
      IdleElim();
      IdleValid();
    }

    lemma SatVerdict()
      requires Idle() && Valid() && Satisfied() && failed.None? && !simplifying
      ensures SatFormula(ModelOf(a), formula) && SatLits(ModelOf(a), Elements(als))
    {
      hide *;
      IdleElim();
      ValidElim();
      StoredFacts(hist, lits, zhains, oadded, ladded, formula);
      TrailInRange();
      SatisfiedIs();
      TakenIs();
      ConsideredAll();
      CompleteIsModel(formula, a, hist, lits, loose, impls, htps, dhtps, maxVar);
      AssumptionsTrue();
    }

    lemma AssumptionsTrue()
      requires a.Indexed() && AssumeOk(a, als, alstail, adecidelevel, maxVar) && alstail == |als|
      ensures SatLits(ModelOf(a), Elements(als))
    {
      forall l | l in als
        ensures Holds(ModelOf(a), l)
      {
        TrueHolds(a, l);
      }
    }

    lemma StoppedVerdict()
      requires Stopped() && !simplifying
      ensures a.Indexed() && !Satisfiable(formula, Elements(als))
      ensures |als| == 1 ==> a.False(als[0]) && a.Level(als[0].idx) == 0
    {
      hide *;
      StoppedElim();
      ValidElim();
      IdleElim();
      TakenIs();
      ConsideredAll();
      TrailStoreReady();
      ReadyValid(a, hist, lits);
      DecisionsAssumed();
      FailedIsUnsat(a, hist, lits, zhains, oadded, ladded, formula, als, failed.value);
      if |als| == 1 {
        SingleFailsAtZero(a, als, failed.value);
      }
    }

    lemma DecisionsAssumed()
      requires a.Indexed() && 0 < alstail <= |als| && AssumeOk(a, als, alstail - 1, adecidelevel, maxVar)
      ensures forall i :: 0 <= i < |a.trail| && a.trail[i].reason == 0 ==> a.trail[i].lit in als
    {
    }

    lemma DoomedVerdict()
      requires Doomed()
      ensures forall s :: !Satisfiable(formula, s)
    {
      hide *;
      DoomedElim();
      BaseElim();
      forall s
        ensures !Satisfiable(formula, s)
      {
        EmptyIsUnsat(hist, lits, zhains, oadded, ladded, formula, s, mtcls);
      }
    }

    lemma IdleScan()
      requires Idle()
      ensures a.Indexed() && forall c :: c in formula ==> !ZeroFalse(a, c)
    {
      hide *;
      IdleElim();
      StoredFacts(hist, lits, zhains, oadded, ladded, formula);
      forall c | c in formula
        ensures !ZeroFalse(a, c)
      {
        NoZeroFalse(formula, a, hist, lits, loose, impls, htps, dhtps, c);
      }
    }

    lemma AlstailLimit()
      requires Valid() && failed.None? && !simplifying
      ensures alstail <= |als| && (mtcls == 0 ==> ttail2 <= |a.trail|)
    {
      hide *;
      ValidElim();
      AlstailBound();
      if mtcls == 0 { PropagatingFacts(); }
    }

    /** Simplifies, which may answer the question. */
    method Inprocess() returns (res: Answer)
      requires Idle() && Valid() && !simplifying && failed.None?
      modifies this`a, this`locked, this`lits, this`zhains, this`oadded, this`ladded, this`hist, this`formula, this`impls, this`htps,
               this`dhtps, this`ttail, this`ttail2, this`solid, this`conflict, this`mtcls, this`alstail, this`adecidelevel, this`propagations,
               this`simplifying, this`loose, this`conflicts, this`fsimplify
      ensures Valid() && !simplifying && formula == old(formula) && a.Top() == 0
      ensures old(a).Indexed() && a.Indexed() && ZeroKept(old(a), a)
      ensures propagations > old(propagations) || (propagations == old(propagations) && (old(a).Top() == 0 ==> alstail == old(alstail)))
      ensures res == Unsat ==> Doomed() && mtcls != 0 && !Satisfiable(formula, Elements(als))
      ensures res != Unsat ==> mtcls == 0 && Idle() && conflict == 0 && alstail <= |als| && ttail2 <= |a.trail|
      ensures res == Sat ==> Satisfied() && SatFormula(ModelOf(a), formula) && SatLits(ModelOf(a), Elements(als))
      ensures res == Unknown ==> !Satisfied()
      ensures conflicts >= old(conflicts) && (res != Unsat ==> fsimplify == Fixed(a.trail))
    {
      hide *;
      Simplify();
      if mtcls != 0 {
        ValidElim();
        DoomedVerdict();
        return Unsat;
      }
      AlstailLimit();
      IdleElim();
      res := Unknown;
      if Satisfied() {
        SatVerdict();
        res := Sat;
      }
    }

    /** Before the search loop: a conflict on level 0 decides, and so may complete propagation or simplification. */
    method Begin() returns (res: Answer)
      requires Valid() && a.Top() == 0 && !simplifying && failed.None? && (mtcls == 0 ==> conflict == 0)
      modifies this`a, this`locked, this`lits, this`zhains, this`oadded, this`ladded, this`hist, this`formula, this`impls, this`htps,
               this`dhtps, this`ttail, this`ttail2, this`solid, this`conflict, this`mtcls, this`alstail, this`adecidelevel, this`propagations,
               this`simplifying, this`loose, this`conflicts, this`fsimplify
      ensures Valid() && !simplifying && formula == old(formula)
      ensures old(a).Indexed() && a.Indexed() && ZeroKept(old(a), a)
      ensures res == Unsat ==> Doomed() && mtcls != 0 && !Satisfiable(formula, Elements(als))
      ensures res != Unsat ==> mtcls == 0 && Idle() && conflict == 0 && alstail <= |als| && ttail2 <= |a.trail|
      ensures res == Sat ==> Satisfied() && SatFormula(ModelOf(a), formula) && SatLits(ModelOf(a), Elements(als))
      ensures old(mtcls) != 0 ==> mtcls != 0
    {
      hide *;
      ValidElim();
      ZeroExtend(a, a);
      if mtcls == 0 {
        Propagate();
      }
      ghost var a1 := a;
      if conflict != 0 {
        Backtrack();
        ZeroTrans(old(a), a1, a);
      }
      if mtcls != 0 {
        ValidElim();
        DoomedElim();
        DoomedVerdict();
        return Unsat;
      }
      AlstailLimit();
      IdleElim();
      if Satisfied() {
        SatVerdict();
        return Sat;
      }
      res := Unknown;
      if * {
        res := Inprocess();
        ZeroTrans(old(a), a1, a);
      }
    }

    lemma BoundedTrail()
      requires Base()
      ensures a.Valid() && |a.trail| <= maxVar
    {
      TrailBound(a, maxVar);
    }

    lemma AlwaysBounded()
      requires Valid()
      ensures a.Valid() && |a.trail| <= maxVar
    {
      hide *;
      ValidElim();
      if mtcls == 0 { PropagatingElim(); } else { DoomedElim(); }
      BoundedTrail();
    }

    /** Puts the next restart off. */
    method IncRestart()
      modifies this`lubycnt, this`lrestart
      ensures lubycnt == old(lubycnt) + 1 && lrestart == conflicts + Interval(lubycnt)
    {
      lubycnt := lubycnt + 1;
      lrestart := conflicts + Interval(lubycnt);
    }

    /** Starts the sequence of restarts over. */
    method InitRestart()
      modifies this`lubycnt, this`lrestart
      ensures lubycnt == 1 && lrestart == conflicts + Interval(lubycnt)
    {
      lubycnt := 0;
      IncRestart();
    }

    /** With more variables assigned for good the sequence of restarts starts over. */
    method Iteration()
      modifies this`lubycnt, this`lrestart, this`isimplify
      ensures lubycnt == 1 && lrestart == conflicts + Interval(lubycnt) && isimplify == Fixed(a.trail)
    {
      InitRestart();
      isimplify := Fixed(a.trail);
    }

    /** Reduces now and then, and restarts when it is time to and the level is high enough, unless the trail is judged too
        active for that. */
    method ReduceAndRestart() returns (skipped: bool)
      requires Idle() && Valid() && !Satisfied()
      modifies this`a, this`locked, this`lits, this`impls, this`htps, this`dhtps, this`ttail, this`ttail2, this`solid, this`conflict,
               this`alstail, this`adecidelevel, this`loose, this`fsimplify, this`lubycnt, this`lrestart
      ensures Idle() && Valid() && !Satisfied() && old(a).Indexed() && a.Indexed() && ZeroKept(old(a), a)
      ensures fsimplify == old(fsimplify) || fsimplify == Fixed(old(a).trail)
      ensures Ticked(conflicts, old(lubycnt), old(lrestart), lubycnt, lrestart)
      ensures lubycnt == old(lubycnt) ==> a == old(a) && alstail == old(alstail)
      ensures if old(lrestart) <= conflicts && old(a).Top() > 2 then lubycnt > old(lubycnt) && (skipped || a.Top() == 0)
              else lubycnt == old(lubycnt)
    {
      hide *;
      skipped := false;
      IdleElim();
      ZeroExtend(a, a);
      TickedIntro(conflicts, lubycnt, lrestart);
      SatisfiedIs();
      if * {
        Reduce();
        SatisfiedIs();
      }
      if conflicts >= lrestart && a.Top() > 2 {
        skipped := *;
        if !skipped {
          AlwaysBounded();
          Restart();
        }
        IncRestart();
        SatisfiedIs();
      }
    }

    method NextDecision()
      requires Idle() && Valid() && failed.None? && !Satisfied() && !simplifying
      modifies this`a, this`locked, this`lits, this`zhains, this`oadded, this`ladded, this`hist, this`formula, this`impls, this`htps,
               this`dhtps, this`ttail, this`ttail2, this`solid, this`conflict, this`alstail, this`adecidelevel, this`failed, this`loose,
               this`fsimplify, this`lubycnt, this`lrestart, this`decisions
      ensures Valid() && formula == old(formula) && old(a).Indexed() && a.Indexed() && ZeroKept(old(a), a)
      ensures failed.Some? ==> Stopped()
      ensures failed.None? ==> Propagating() && conflict == 0
      ensures failed.None? && ttail2 == |a.trail| ==> Idle()
      ensures fsimplify == old(fsimplify) || fsimplify == Fixed(old(a).trail)
      ensures Ticked(conflicts, old(lubycnt), old(lrestart), lubycnt, lrestart)
      ensures failed.None? && lubycnt == old(lubycnt) ==> Better(old(a).trail, old(alstail), a.trail, alstail)
      ensures failed.None? ==> decisions == old(decisions) + (if Finished() then 0 else 1)
    {
      hide *;
      IdleElim();
      ZeroExtend(a, a);
      var skipped := ReduceAndRestart();
      AlwaysBounded();
      ghost var a1, took := a, alstail;
      Decide();
      AlwaysBounded();
      if failed.None? {
        ExtendedIsWorthMore(a1, a, maxVar);
        BetterIntro(a1.trail, took, a.trail, alstail);
      }
      FinishedIs();
      if failed.None? {
        PropagatingFacts();
        if ttail2 < |a.trail| { NotIdle(); }
      }
      ZeroTrans(old(a), a1, a);
    }

    /** The trail is worth more, or, with the same worth, more assumptions are taken over. */
    ghost predicate Better(s: seq<Entry>, n: nat, t: seq<Entry>, m: nat)
      reads this`maxVar
    {
      Worth(t, maxVar) > Worth(s, maxVar) || (Worth(t, maxVar) == Worth(s, maxVar) && m > n)
    }

    lemma BetterIntro(s: seq<Entry>, n: nat, t: seq<Entry>, m: nat)
      requires Worth(t, maxVar) > Worth(s, maxVar) || (Worth(t, maxVar) == Worth(s, maxVar) && m > n)
      ensures Better(s, n, t, m)
    {
    }

    lemma BetterElim(s: seq<Entry>, n: nat, t: seq<Entry>, m: nat)
      requires Better(s, n, t, m)
      ensures Worth(t, maxVar) > Worth(s, maxVar) || (Worth(t, maxVar) == Worth(s, maxVar) && m > n)
    {
    }

    /** What an answer says about the state; unknown means that search goes on. */
    ghost predicate Answered(res: Answer)
      reads this`a, this`maxVar, this`lits, this`zhains, this`oadded, this`ladded, this`loose, this`locked, this`hist, this`formula,
            this`impls, this`htps, this`dhtps, this`ttail, this`ttail2, this`conflict, this`mtcls, this`solid,
            this`als, this`alstail, this`adecidelevel, this`failed, this`simplifying
    {
      match res
      case Unsat => (if mtcls == 0 then Stopped() else Doomed()) && !Satisfiable(formula, Elements(als))
      case Sat => mtcls == 0 && Idle() && failed.None? && Satisfied() && SatFormula(ModelOf(a), formula) && SatLits(ModelOf(a), Elements(als))
      case Unknown =>
        mtcls == 0 && conflict == 0 && failed.None? && alstail <= |als| && ttail2 <= |a.trail| && (ttail2 == |a.trail| ==> Idle())
    }

    lemma AnsweredElim(res: Answer)
      requires Answered(res)
      ensures res == Unsat ==> (if mtcls == 0 then Stopped() else Doomed()) && !Satisfiable(formula, Elements(als))
      ensures res == Sat ==> mtcls == 0 && Idle() && failed.None?
      ensures res == Sat ==> Satisfied() && SatFormula(ModelOf(a), formula) && SatLits(ModelOf(a), Elements(als))
      ensures res == Unknown ==> mtcls == 0 && conflict == 0 && failed.None? && alstail <= |als|
      ensures res == Unknown ==> ttail2 <= |a.trail| && (ttail2 == |a.trail| ==> Idle())
    {
      hide Stopped, Doomed, Idle, Satisfied, SatFormula, SatLits, Satisfiable;
    }

    lemma AnsweredIntro(res: Answer)
      requires res == Unsat ==> (if mtcls == 0 then Stopped() else Doomed()) && !Satisfiable(formula, Elements(als))
      requires res == Sat ==> mtcls == 0 && Idle() && failed.None?
      requires res == Sat ==> Satisfied() && SatFormula(ModelOf(a), formula) && SatLits(ModelOf(a), Elements(als))
      requires res == Unknown ==> mtcls == 0 && conflict == 0 && failed.None? && Valid() && !simplifying && (ttail2 == |a.trail| ==> Idle())
      ensures Answered(res)
    {
      hide Stopped, Doomed, Idle, Satisfied, SatFormula, SatLits, Satisfiable, Valid;
      if res == Unknown { AlstailLimit(); }
    }

    /** Takes the next decision; a failed assumption answers the question. */
    method NextAnswer() returns (res: Answer)
      requires Idle() && Valid() && failed.None? && !Satisfied() && !simplifying
      modifies this`a, this`locked, this`lits, this`zhains, this`oadded, this`ladded, this`hist, this`formula, this`impls, this`htps,
               this`dhtps, this`ttail, this`ttail2, this`solid, this`conflict, this`alstail, this`adecidelevel, this`failed, this`loose,
               this`fsimplify, this`lubycnt, this`lrestart, this`decisions
      ensures Valid() && formula == old(formula) && old(a).Indexed() && a.Indexed() && ZeroKept(old(a), a)
      ensures !simplifying && Answered(res) && res != Sat
      ensures fsimplify == old(fsimplify) || fsimplify == Fixed(old(a).trail)
      ensures Ticked(conflicts, old(lubycnt), old(lrestart), lubycnt, lrestart)
      ensures res == Unknown && lubycnt == old(lubycnt) ==> Better(old(a).trail, old(alstail), a.trail, alstail)
      ensures res == Unknown ==> decisions == old(decisions) + (if Finished() then 0 else 1)
    {
      hide *;
      IdleElim();
      NextDecision();
      res := Unknown;
      if failed.Some? {
        StoppedVerdict();
        StoppedElim();
        IdleElim();
        res := Unsat;
      } else {
        PropagatingFacts();
      }
      AnsweredIntro(res);
    }

    /** Simplifies now and then, if variables were assigned for good since it last did, and decides. */
    method Proceed() returns (res: Answer)
      requires Idle() && Valid() && failed.None? && !Satisfied() && !simplifying
      modifies this`a, this`locked, this`lits, this`zhains, this`oadded, this`ladded, this`hist, this`formula, this`impls, this`htps,
               this`dhtps, this`ttail, this`ttail2, this`solid, this`conflict, this`mtcls, this`alstail, this`adecidelevel, this`propagations,
               this`simplifying, this`loose, this`failed, this`conflicts, this`fsimplify, this`lubycnt, this`lrestart,
               this`decisions
      ensures Valid() && !simplifying && formula == old(formula)
      ensures old(a).Indexed() && a.Indexed() && ZeroKept(old(a), a)
      ensures Answered(res) && propagations >= old(propagations) && conflicts >= old(conflicts)
      ensures res == Unknown ==> fsimplify == old(fsimplify) || Fixed(old(a).trail) <= fsimplify <= Fixed(a.trail)
      ensures res == Unknown ==> Ticked(conflicts, old(lubycnt), old(lrestart), lubycnt, lrestart)
      ensures res == Unknown && fsimplify == old(fsimplify) ==> conflicts == old(conflicts)
      ensures res == Unknown && fsimplify == old(fsimplify) && lubycnt == old(lubycnt) ==>
        Better(old(a).trail, old(alstail), a.trail, alstail)
      ensures res == Unknown ==> decisions == old(decisions) + (if Finished() then 0 else 1)
    {
      hide *;
      IdleElim();
      ZeroExtend(a, a);
      res := Unknown;
      var due: bool := *;
      if fsimplify < Fixed(a.trail) && due {
        res := Inprocess();
        FixedGrows(old(a), a);
      }
      if res == Unknown {
        ghost var a1 := a;
        res := NextAnswer();
        ZeroTrans(old(a), a1, a);
        FixedGrows(a1, a);
      } else {
        AnsweredIntro(res);
      }
    }

    /** Learns from the conflict; tells whether the search is over. */
    method Conflict() returns (over: bool)
      requires Valid() && conflict != 0 && mtcls == 0 && failed.None? && !simplifying
      modifies this`a, this`locked, this`lits, this`zhains, this`oadded, this`ladded, this`hist, this`formula, this`impls, this`htps,
               this`dhtps, this`ttail, this`ttail2, this`solid, this`conflict, this`mtcls, this`alstail, this`adecidelevel,
               this`conflicts
      ensures Valid() && formula == old(formula) && over == (mtcls != 0)
      ensures !over ==> conflict == 0 && ttail2 < |a.trail| && a.Top() < old(a).Top() && Jumped(old(a), a)
      ensures over ==> Doomed() && !Satisfiable(formula, Elements(als))
      ensures old(a).Indexed() && a.Indexed() && ZeroKept(old(a), a)
      ensures conflicts == old(conflicts) + 1
    {
      hide *;
      Backtrack();
      over := mtcls != 0;
      if over {
        ValidElim();
        DoomedVerdict();
      }
    }

    /** Propagates, and settles what comes of it: a conflict, a model, or neither. */
    method Assess() returns (res: Answer, quiet: bool)
      requires Valid() && !simplifying && Answered(Unknown)
      modifies this`a, this`locked, this`lits, this`zhains, this`oadded, this`ladded, this`hist, this`formula, this`impls, this`htps,
               this`dhtps, this`ttail, this`ttail2, this`solid, this`conflict, this`mtcls, this`alstail, this`adecidelevel, this`propagations,
               this`conflicts
      ensures Valid() && !simplifying && formula == old(formula) && Answered(res)
      ensures old(a).Indexed() && a.Indexed() && ZeroKept(old(a), a)
      ensures propagations >= old(propagations)
      ensures quiet ==> res == Unknown && Idle() && failed.None? && !Satisfied() && ttail2 == |a.trail| && alstail == old(alstail)
      ensures res == Unknown ==> Worth(old(a).trail, maxVar) <= Worth(a.trail, maxVar)
      ensures res == Unknown && !quiet ==> Worth(old(a).trail, maxVar) < Worth(a.trail, maxVar)
      ensures conflicts == if quiet || res == Sat then old(conflicts) else old(conflicts) + 1
      ensures res == Unknown ==> !old(Finished())
    {
      hide *;
      FinishedIs();
      SatisfiedIs();
      ghost var finished := Finished();
      AnsweredElim(Unknown);
      Propagate();
      if finished { IdleElim(); }
      SatisfiedIs();
      AlwaysBounded();
      ExtendedIsWorthMore(old(a), a, maxVar);
      quiet := false;
      if conflict != 0 {
        ghost var a1 := a;
        var over := Conflict();
        ZeroTrans(old(a), a1, a);
        res := if over then Unsat else Unknown;
        AlwaysBounded();
        if !over { BackjumpIsWorthMore(a1, a, maxVar); }
      } else {
        IdleElim();
        if Satisfied() {
          SatVerdict();
          res := Sat;
        } else {
          res, quiet := Unknown, true;
        }
      }
      AnsweredIntro(res);
    }

    /** Begins, and starts the sequence of restarts. */
    method Enter() returns (res: Answer, ghost carry: nat, ghost goal: nat)
      requires Valid() && a.Top() == 0 && !simplifying && failed.None? && (mtcls == 0 ==> conflict == 0)
      modifies this`a, this`locked, this`lits, this`zhains, this`oadded, this`ladded, this`hist, this`formula, this`impls, this`htps,
               this`dhtps, this`ttail, this`ttail2, this`solid, this`conflict, this`mtcls, this`alstail, this`adecidelevel, this`propagations,
               this`simplifying, this`loose, this`conflicts, this`fsimplify, this`isimplify, this`lubycnt, this`lrestart
      ensures Valid() && !simplifying && formula == old(formula) && Answered(res)
      ensures old(a).Indexed() && a.Indexed() && ZeroKept(old(a), a)
      ensures old(mtcls) != 0 ==> mtcls != 0 && res == Unsat
      ensures isimplify <= Fixed(a.trail) && Scheduled(a.trail, maxVar, conflicts, lubycnt, lrestart, carry, goal)
    {
      hide *;
      res := Begin();
      AnsweredIntro(res);
      InitRestart();
      isimplify := Fixed(a.trail);
      carry, goal := ScheduleStart(a.trail, maxVar, conflicts, lubycnt, lrestart);
    }

    /** Assesses the state, and after a backjump to level 0 with more variables assigned for good starts the sequence of
        restarts over. */
    method Look(backtracked: bool, ghost carry0: nat, ghost goal0: nat) returns (res: Answer, quiet: bool, ghost carry: nat, ghost goal: nat)
      requires Valid() && !simplifying && Answered(Unknown)
      requires a.Indexed() && isimplify <= Fixed(a.trail) && Scheduled(a.trail, maxVar, conflicts, lubycnt, lrestart, carry0, goal0)
      modifies this`a, this`locked, this`lits, this`zhains, this`oadded, this`ladded, this`hist, this`formula, this`impls, this`htps,
               this`dhtps, this`ttail, this`ttail2, this`solid, this`conflict, this`mtcls, this`alstail, this`adecidelevel, this`propagations,
               this`conflicts, this`isimplify, this`lubycnt, this`lrestart
      ensures Valid() && !simplifying && formula == old(formula) && Answered(res)
      ensures old(a).Indexed() && a.Indexed() && ZeroKept(old(a), a)
      ensures propagations >= old(propagations)
      ensures quiet ==> res == Unknown && Idle() && failed.None? && !Satisfied() && ttail2 == |a.trail| && alstail == old(alstail)
      ensures res == Unknown ==> isimplify <= Fixed(a.trail) && Scheduled(a.trail, maxVar, conflicts, lubycnt, lrestart, carry, goal)
      ensures res == Unknown ==> Fixed(old(a).trail) <= Fixed(a.trail) && old(isimplify) <= isimplify
      ensures res == Unknown && isimplify == old(isimplify) ==> goal == goal0 && lubycnt == old(lubycnt)
      ensures res == Unknown ==> Worth(old(a).trail, maxVar) <= Worth(a.trail, maxVar)
      ensures res == Unknown && !quiet ==> isimplify == old(isimplify) && Worth(old(a).trail, maxVar) < Worth(a.trail, maxVar)
      ensures res == Unknown ==> !old(Finished())
    {
      hide *;
      carry, goal := carry0, goal0;
      res, quiet := Assess();
      FixedGrows(old(a), a);
      if res == Unknown {
        ScheduleKept(old(a).trail, a.trail, maxVar, old(conflicts), conflicts, lubycnt, lrestart, carry, goal);
      }
      if quiet && backtracked && a.Top() == 0 && isimplify < Fixed(a.trail) {
        Iteration();
        carry, goal := ScheduleStart(a.trail, maxVar, conflicts, lubycnt, lrestart);
      }
    }

    /** Proceeds, and keeps account of how far the sequence of restarts can get. */
    method Go(ghost carry0: nat, ghost goal0: nat) returns (res: Answer, ghost carry: nat, ghost goal: nat)
      requires Idle() && Valid() && failed.None? && !Satisfied() && !simplifying
      requires Scheduled(a.trail, maxVar, conflicts, lubycnt, lrestart, carry0, goal0)
      modifies this`a, this`locked, this`lits, this`zhains, this`oadded, this`ladded, this`hist, this`formula, this`impls, this`htps,
               this`dhtps, this`ttail, this`ttail2, this`solid, this`conflict, this`mtcls, this`alstail, this`adecidelevel, this`propagations,
               this`simplifying, this`loose, this`failed, this`conflicts, this`fsimplify, this`lubycnt, this`lrestart,
               this`decisions
      ensures Valid() && !simplifying && formula == old(formula)
      ensures old(a).Indexed() && a.Indexed() && ZeroKept(old(a), a)
      ensures Answered(res) && propagations >= old(propagations)
      ensures Fixed(old(a).trail) <= Fixed(a.trail)
      ensures res == Unknown ==> Scheduled(a.trail, maxVar, conflicts, lubycnt, lrestart, carry, goal)
      ensures res == Unknown ==> fsimplify == old(fsimplify) || Fixed(old(a).trail) <= fsimplify <= Fixed(a.trail)
      ensures res == Unknown && fsimplify == old(fsimplify) ==> goal == goal0 && old(lubycnt) <= lubycnt
      ensures res == Unknown && fsimplify == old(fsimplify) && lubycnt == old(lubycnt) ==>
        var more, less := Worth(a.trail, maxVar), Worth(old(a).trail, maxVar);
        more > less || (more == less && alstail > old(alstail))
      ensures res == Unknown ==> decisions == old(decisions) + (if Finished() then 0 else 1)
    {
      hide *;
      carry, goal := carry0, goal0;
      AlwaysBounded();
      WorthIsBounded(a, maxVar);
      ScheduledFacts(a.trail, maxVar, conflicts, lubycnt, lrestart, carry, goal);
      res := Proceed();
      FixedGrows(old(a), a);
      if res == Unknown {
        TickedFacts(conflicts, old(lubycnt), old(lrestart), lubycnt, lrestart);
        if fsimplify != old(fsimplify) {
          carry, goal := ScheduleStart(a.trail, maxVar, conflicts, lubycnt, lrestart);
        } else {
          if lubycnt == old(lubycnt) { BetterElim(old(a).trail, old(alstail), a.trail, alstail); }
          ScheduleTicks(old(a).trail, a.trail, maxVar, conflicts, old(lubycnt), old(lrestart), lubycnt, lrestart, carry, goal);
        }
      }
    }

    /** Looks at the state and, if nothing is settled and no limit is reached, goes on. */
    method Round(l: int, count0: nat, backtracked0: bool, ghost carry0: nat, ghost goal0: nat)
        returns (res: Answer, stop: bool, count: nat, backtracked: bool, ghost carry: nat, ghost goal: nat)
      requires Valid() && !simplifying && Answered(Unknown)
      requires a.Indexed() && isimplify <= Fixed(a.trail) && Scheduled(a.trail, maxVar, conflicts, lubycnt, lrestart, carry0, goal0)
      modifies this`a, this`locked, this`lits, this`zhains, this`oadded, this`ladded, this`hist, this`formula, this`impls, this`htps,
               this`dhtps, this`ttail, this`ttail2, this`solid, this`conflict, this`mtcls, this`alstail, this`adecidelevel, this`propagations,
               this`simplifying, this`loose, this`failed,
               this`conflicts, this`fsimplify, this`isimplify, this`lubycnt, this`lrestart, this`decisions
      ensures Valid() && !simplifying && formula == old(formula) && Answered(res)
      ensures old(a).Indexed() && a.Indexed() && ZeroKept(old(a), a)
      ensures stop ==> res == Unknown && Idle() && mtcls == 0 && failed.None?
      ensures stop ==> 0 <= l <= count0 || lpropagations <= propagations
      ensures stop ==> decisions == old(decisions) && !old(Finished())
      ensures res == Unknown && !stop ==> isimplify <= Fixed(a.trail) && Scheduled(a.trail, maxVar, conflicts, lubycnt, lrestart, carry, goal)
      ensures res == Unknown && !stop ==> Fixed(old(a).trail) <= Fixed(a.trail) && old(isimplify) <= isimplify
      ensures res == Unknown && !stop ==> fsimplify == old(fsimplify) || Fixed(old(a).trail) <= fsimplify <= Fixed(a.trail)
      ensures res == Unknown && !stop && fsimplify == old(fsimplify) && isimplify == old(isimplify) ==>
        goal == goal0 && old(lubycnt) <= lubycnt
      ensures res == Unknown && !stop && fsimplify == old(fsimplify) && isimplify == old(isimplify) && lubycnt == old(lubycnt) ==>
        var more, less := Worth(a.trail, maxVar), Worth(old(a).trail, maxVar);
        more > less || (more == less && alstail > old(alstail))
      ensures res == Unknown && !stop ==> !old(Finished())
      ensures res == Unknown && !stop ==> count - count0 <= decisions - old(decisions) + (if Finished() then 1 else 0)
    {
      hide *;
      var quiet;
      stop, count := false, count0;
      res, quiet, carry, goal := Look(backtracked0, carry0, goal0);
      backtracked := !quiet;
      if quiet {
        if (l >= 0 && count >= l) || propagations >= lpropagations {
          stop := true;
          IdleElim();
          return;
        }
        ghost var a2 := a;
        res, carry, goal := Go(carry, goal);
        ZeroTrans(old(a), a2, a);
        count := count + 1;
      }
    }

    /** The search loop: propagate, learn from conflicts, otherwise simplify, reduce, restart, decide. Restarts and
        simplifications come to an end, and then the search does, and not only because of the propagation limit. */
    method Search(l: int) returns (res: Answer)
      requires Valid() && a.Top() == 0 && !simplifying && failed.None? && (mtcls == 0 ==> conflict == 0)
      modifies this`a, this`locked, this`lits, this`zhains, this`oadded, this`ladded, this`hist, this`formula, this`impls, this`htps,
               this`dhtps, this`ttail, this`ttail2, this`solid, this`conflict, this`mtcls, this`alstail, this`adecidelevel, this`propagations,
               this`simplifying, this`loose, this`failed,
               this`conflicts, this`fsimplify, this`isimplify, this`lubycnt, this`lrestart, this`decisions
      ensures Valid() && !simplifying && formula == old(formula)
      ensures old(a).Indexed() && a.Indexed() && ZeroKept(old(a), a)
      ensures res == Unsat ==> (if mtcls == 0 then Stopped() else Doomed()) && !Satisfiable(formula, Elements(als))
      ensures res != Unsat ==> mtcls == 0 && Idle() && failed.None?
      ensures res == Sat ==> Satisfied() && SatFormula(ModelOf(a), formula) && SatLits(ModelOf(a), Elements(als))
      ensures Answered(res) && (res == Unknown ==> 0 <= l <= decisions - old(decisions) || lpropagations <= propagations)
      ensures old(mtcls) != 0 ==> mtcls != 0
    {
      hide *;
      ghost var carry: nat;
      ghost var goal: nat;
      res, carry, goal := Enter();
      var count: nat := 0;
      var backtracked := false;
      while res == Unknown
        invariant Valid() && !simplifying && formula == old(formula)
        invariant a.Indexed() && old(a).Indexed() && ZeroKept(old(a), a)
        invariant Answered(res) && (old(mtcls) != 0 ==> mtcls != 0 && res == Unsat)
        invariant res == Unknown ==> isimplify <= Fixed(a.trail)
        invariant res == Unknown ==> Scheduled(a.trail, maxVar, conflicts, lubycnt, lrestart, carry, goal)
        invariant res == Unknown ==> count + old(decisions) <= decisions + (if Finished() then 1 else 0)
        decreases res == Unknown, fsimplify > Fixed(a.trail), maxVar - fsimplify, maxVar - isimplify, goal - lubycnt,
                  Ceiling(maxVar) - Worth(a.trail, maxVar), |als| - alstail
      {
        Bounds(res, carry, goal);
        ghost var a1 := a;
        var stop;
        res, stop, count, backtracked, carry, goal := Round(l, count, backtracked, carry, goal);
        ZeroTrans(old(a), a1, a);
        if stop {
          return;
        }
      }
      AnsweredElim(res);
    }

    /** What bounds how long the search goes on. */
    lemma Bounds(res: Answer, carry: nat, goal: nat)
      requires res == Unknown && Valid() && Answered(res) && Scheduled(a.trail, maxVar, conflicts, lubycnt, lrestart, carry, goal)
      ensures a.Indexed() && Worth(a.trail, maxVar) <= Ceiling(maxVar) && Fixed(a.trail) <= maxVar
      ensures lubycnt <= goal && alstail <= |als| && mtcls == 0
    {
      hide *;
      ValidElim();
      AlwaysBounded();
      WorthIsBounded(a, maxVar);
      FixedIsBounded(a.trail);
      AnsweredElim(res);
      ScheduledFacts(a.trail, maxVar, conflicts, lubycnt, lrestart, carry, goal);
    }

    /** A clause is added between two searches, on level 0. */
    ghost predicate Receptive()
      reads this`a, this`maxVar, this`lits, this`zhains, this`oadded, this`ladded, this`loose, this`locked, this`hist, this`formula,
            this`impls, this`htps, this`dhtps, this`ttail, this`ttail2, this`conflict, this`mtcls, this`solid,
            this`als, this`alstail, this`adecidelevel, this`failed, this`simplifying
    {
      Valid() && a.Top() == 0 && failed.None? && !simplifying && (mtcls == 0 ==> conflict == 0)
    }

    lemma ReceptiveElim()
      requires Receptive()
      ensures Valid() && a.Indexed() && a.Top() == 0 && failed.None? && !simplifying && (mtcls == 0 ==> conflict == 0)
    {
      hide Propagating, Doomed;
    }

    lemma ReceptiveIntro()
      requires Valid() && a.Top() == 0 && failed.None? && !simplifying && (mtcls == 0 ==> conflict == 0)
      ensures Receptive()
    {
      hide Valid;
    }

    /** Makes room for one more variable. */
    method Import(l: Lit)
      requires Receptive() && l.idx > 0
      modifies this`maxVar
      ensures Receptive() && maxVar == if l.idx > old(maxVar) then l.idx else old(maxVar)
    {
      hide *;
      ReceptiveElim();
      if l.idx > maxVar {
        ghost var was := maxVar;
        ValidElim();
        BaseElim();
        TrailWiden(a, hist, lits, locked, maxVar, l.idx);
        InRangeWiden(hist, maxVar, l.idx);
        AssumeWiden(a, Considered(), Taken(), adecidelevel, maxVar, l.idx);
        if mtcls == 0 { PropagatingElim(); } else { DoomedElim(); }
        maxVar := l.idx;
        BaseIntro();
        if mtcls == 0 { PropagatingIntro(); } else { DoomedIntro(); }
        ValidIntro();
        ReceptiveIntro();
      }
    }

    /** A clause that is trivially true only counts. */
    method SkipClause(c: Clause)
      requires Receptive() && a.Indexed() && (Tautology(c) || ZeroTrue(a, c))
      modifies this`oadded, this`formula
      ensures Receptive() && formula == old(formula) + {c} && oadded == old(oadded) + 1
    {
      hide *;
      ReceptiveElim();
      ValidElim();
      BaseElim();
      StoredSkip(hist, lits, zhains, oadded, ladded, formula, c);
      if mtcls == 0 {
        PropagatingElim();
        SettledFormula(formula, a, hist, lits, loose, c);
      } else {
        DoomedElim();
      }
      oadded, formula := oadded + 1, formula + {c};
      BaseIntro();
      if mtcls == 0 { PropagatingIntro(); } else { DoomedIntro(); }
      ValidIntro();
      ReceptiveIntro();
    }

    /** Resolves the clause with the reasons of its false literals; what is left is stored, but not attached. */
    method ShrinkStored(id: nat) returns (r: nat)
      requires Base() && a.Indexed() && a.Top() == 0 && id in lits && id in hist && id !in locked
      requires Open(a, lits[id]) && exists l :: l in lits[id] && a.False(l)
      modifies this`lits, this`zhains, this`oadded, this`ladded, this`hist, this`formula, this`loose
      ensures Base() && r != 0 && formula == old(formula)
      ensures r !in old(hist) && r !in old(lits) && r !in old(loose) && r != id
      ensures r in lits && hist == old(hist)[r := Elements(lits[r])] && lits == old(lits)[r := lits[r]] && loose == old(loose) + {r}
      ensures Remains(a, id, lits[id], r, lits[r])
      ensures forall x :: x in Antecedents(zhains, r) <==> x == id || IsZeroReason(a, lits[id], x)
    {
      hide *;
      BaseElim();
      TrailStoreReady();
      StoredFacts(hist, lits, zhains, oadded, ladded, formula);
      NotReason(a, hist, lits, locked, maxVar, id);
      OpenFacts(a, lits[id]);
      var rest, resolved := ResolveFalse(a, lits, hist, id);
      ShrunkInRange(id, rest);
      ghost var ls := lits[id];
      r := StoreClause(rest, resolved, true);
      SameElements(rest, lits[r]);
      RemainsIntro(a, id, ls, r, lits[r]);
      BaseElim();
      loose := loose + {r};
      BaseIntro();
    }

    lemma ShrunkInRange(id: nat, rest: seq<Lit>)
      requires Base() && id in lits && id in hist && forall l :: l in rest ==> l in lits[id]
      ensures forall l :: l in rest ==> 0 < l.idx <= maxVar
    {
      hide TrailOk, Chained, Numbered, Originals;
      forall l | l in rest
        ensures l in hist[id]
      {
        assert l in Elements(lits[id]);
      }
    }

    /** The last clause stored may have one literal left, which is then assigned, or none. */
    method Conclude(r: nat)
      requires Base() && a.Indexed() && a.Top() == 0 && r != 0 && r in lits && r in hist
      requires hist[r] == Elements(lits[r]) && forall l :: l in lits[r] ==> a.Undef(l)
      requires forall l :: l in lits[r] ==> 0 < l.idx <= maxVar
      requires mtcls == 0 ==> conflict == 0
      requires a.Valid() && AssumeOk(a, Considered(), Taken(), adecidelevel, maxVar)
      requires mtcls != 0 ==> mtcls in lits && mtcls in hist && hist[mtcls] == {}
      requires conflict != 0 ==> conflict in lits && conflict in hist && hist[conflict] == {}
      modifies this`a, this`locked, this`lits, this`zhains, this`oadded, this`ladded, this`hist, this`formula, this`mtcls, this`conflict
      ensures Base() && a.Indexed() && a.Top() == 0 && lits == old(lits) && hist == old(hist) && formula == old(formula)
      ensures a == if |lits[r]| == 1 then old(a).Push(lits[r][0], 0, r) else old(a)
      ensures AssumeOk(a, Considered(), Taken(), adecidelevel, maxVar) && old(a).Indexed() && ZeroKept(old(a), a)
      ensures lits[r] == [] ==> mtcls != 0
      ensures mtcls != 0 ==> mtcls in lits && mtcls in hist && hist[mtcls] == {}
      ensures lits[r] != [] ==> mtcls == old(mtcls) && conflict == old(conflict)
      ensures conflict != 0 ==> conflict in lits && conflict in hist && hist[conflict] == {}
    {
      hide *;
      if lits[r] == [] {
        EmptyList();
        if mtcls == 0 {
          mtcls := r;
        }
        if conflict == 0 {
          conflict := r;
        }
      } else if |lits[r]| == 1 {
        var l := lits[r][0];
        assert l in lits[r];
        UnitFalseBefore(a, hist[r], lits[r]);
        var reason := AssignForced(l, r);
      }
      BaseElim();
      AssignedKeeps(old(a), a, Considered(), Taken(), adecidelevel, maxVar, r, lits[r]);
    }

    lemma StoredLiterals(r: nat)
      requires Base() && r in lits && r in hist
      ensures hist[r] == Elements(lits[r]) && NoDup(lits[r]) && forall l :: l in lits[r] ==> 0 < l.idx <= maxVar
    {
      hide TrailOk, Chained, Numbered, Originals;
      ShrunkInRange(r, lits[r]);
    }

    /** The first half: the clause is stored and attached, and what level 0 leaves of it is stored too. */
    method StoreOriginalClause(added: seq<Lit>) returns (id: nat, r: nat)
      requires Base() && a.Indexed() && a.Top() == 0 && NoDup(added)
      requires forall l :: l in added ==> 0 < l.idx <= maxVar && !a.True(l)
      modifies this`lits, this`zhains, this`oadded, this`ladded, this`hist, this`formula, this`impls, this`htps, this`loose
      ensures Base() && formula == old(formula) + {Elements(added)} && id != 0 && r != 0 && id % 2 == 0
      ensures id in lits && r in lits && Elements(lits[id]) == Elements(added)
      ensures Grew(a, old(hist), old(lits), old(loose), old(impls), old(htps), hist, lits, loose, impls, htps, id, r)
    {
      hide *;
      BaseElim();
      LockedStored(a, hist, lits, locked, maxVar);
      id := StoreClause(added, [], false);
      ConnectHeadTail(id);
      BaseElim();
      SameElements(added, lits[id]);
      OpenIntro(a, lits[id]);
      RemainsSame(a, id, lits[id]);
      r := id;
      if exists l :: l in lits[id] && a.False(l) {
        r := ShrinkStored(id);
      }
      GrewIntro(a, old(hist), old(lits), old(loose), old(impls), old(htps), hist, lits, loose, impls, htps, id, r);
    }

    lemma PriorIntro()
      requires Propagating() && conflict == 0 && a.Top() == 0
      ensures Prior(formula, a, hist, lits, loose, impls, htps, dhtps, solid, ttail, ttail2)
    {
      hide Settled, Linked, Stored, Queued;
      PropagatingElim();
      StoredFacts(hist, lits, zhains, oadded, ladded, formula);
    }

    lemma ReceptiveFacts()
      requires Receptive()
      ensures Base() && a.Valid() && a.Indexed() && a.Top() == 0 && failed.None? && !simplifying
      ensures AssumeOk(a, Considered(), Taken(), adecidelevel, maxVar)
      ensures mtcls != 0 ==> mtcls in lits && mtcls in hist && hist[mtcls] == {}
      ensures conflict != 0 ==> conflict in lits && conflict in hist && hist[conflict] == {}
      ensures mtcls == 0 ==> conflict == 0
      ensures mtcls == 0 ==> Prior(formula, a, hist, lits, loose, impls, htps, dhtps, solid, ttail, ttail2)
    {
      hide *;
      ReceptiveElim();
      ValidElim();
      if mtcls == 0 { PriorIntro(); } else { DoomedElim(); }
    }

    /** From the state before a clause was added to the state after. */
    lemma AddedPropagates(formula0: set<Clause>, a0: Assignment, hist0: map<nat, Clause>, lits0: map<nat, seq<Lit>>, loose0: set<nat>,
                          impls0: Lists, htps0: Lists, id: nat, r: nat)
      requires Prior(formula0, a0, hist0, lits0, loose0, impls0, htps0, dhtps, solid, ttail, ttail2)
      requires a0.Indexed() && Grew(a0, hist0, lits0, loose0, impls0, htps0, hist, lits, loose, impls, htps, id, r)
      requires id in lits && r in lits && lits[r] != [] && a == if |lits[r]| == 1 then a0.Push(lits[r][0], 0, r) else a0
      requires Base() && mtcls == 0 && conflict == 0 && formula == formula0 + {Elements(lits[id])}
      ensures Propagating()
    {
      hide *;
      PriorElim(formula0, a0, hist0, lits0, loose0, impls0, htps0, dhtps, solid, ttail, ttail2);
      GrewElim(a0, hist0, lits0, loose0, impls0, htps0, hist, lits, loose, impls, htps, id, r);
      QueuedKeeps(a0, a, solid, ttail, ttail2, r, lits[r]);
      AddedKeeps(formula0, a0, a, hist0, lits0, loose0, impls0, htps0, dhtps, ttail, ttail2, id, lits[id], impls, htps, r, lits[r]);
      NoConflict(a, hist, lits);
      PropagatingIntro();
    }

    lemma AddedReceptive(formula0: set<Clause>, a0: Assignment, hist0: map<nat, Clause>, lits0: map<nat, seq<Lit>>, loose0: set<nat>,
                         impls0: Lists, htps0: Lists, id: nat, r: nat)
      requires a0.Indexed() && Grew(a0, hist0, lits0, loose0, impls0, htps0, hist, lits, loose, impls, htps, id, r)
      requires id in lits && r in lits && a == if |lits[r]| == 1 then a0.Push(lits[r][0], 0, r) else a0
      requires Base() && a.Indexed() && a.Top() == 0 && failed.None? && !simplifying
      requires AssumeOk(a, Considered(), Taken(), adecidelevel, maxVar)
      requires mtcls != 0 ==> mtcls in lits && mtcls in hist && hist[mtcls] == {}
      requires conflict != 0 ==> conflict in lits && conflict in hist && hist[conflict] == {}
      requires mtcls == 0 ==> conflict == 0 && lits[r] != [] && formula == formula0 + {Elements(lits[id])}
      requires mtcls == 0 ==> Prior(formula0, a0, hist0, lits0, loose0, impls0, htps0, dhtps, solid, ttail, ttail2)
      ensures Receptive()
    {
      hide *;
      BaseElim();
      if mtcls == 0 {
        AddedPropagates(formula0, a0, hist0, lits0, loose0, impls0, htps0, id, r);
      } else {
        DoomedIntro();
      }
      ValidIntro();
      ReceptiveIntro();
    }

    /** The second half: what is left of the clause may be a unit, or nothing at all. */
    method Finish(ghost formula0: set<Clause>, ghost hist0: map<nat, Clause>, ghost lits0: map<nat, seq<Lit>>, ghost loose0: set<nat>,
                  ghost impls0: Lists, ghost htps0: Lists, ghost id: nat, r: nat)
      requires Base() && a.Valid() && a.Indexed() && a.Top() == 0 && failed.None? && !simplifying
      requires AssumeOk(a, Considered(), Taken(), adecidelevel, maxVar)
      requires Grew(a, hist0, lits0, loose0, impls0, htps0, hist, lits, loose, impls, htps, id, r)
      requires mtcls != 0 ==> mtcls in lits0 && mtcls in hist0 && hist0[mtcls] == {}
      requires conflict != 0 ==> conflict in lits0 && conflict in hist0 && hist0[conflict] == {}
      requires mtcls == 0 ==> conflict == 0 && id in lits && formula == formula0 + {Elements(lits[id])}
      requires mtcls == 0 ==> Prior(formula0, a, hist0, lits0, loose0, impls0, htps0, dhtps, solid, ttail, ttail2)
      modifies this`a, this`locked, this`lits, this`zhains, this`oadded, this`ladded, this`hist, this`formula, this`mtcls, this`conflict
      ensures Receptive() && formula == old(formula)
      ensures old(a).Indexed() && a.Indexed() && ZeroKept(old(a), a)
    {
      hide *;
      GrewFacts(a, hist0, lits0, loose0, impls0, htps0, hist, lits, loose, impls, htps, id, r);
      StoredLiterals(r);
      EmptyStays(a, hist0, lits0, loose0, impls0, htps0, hist, lits, loose, impls, htps, id, r, mtcls);
      EmptyStays(a, hist0, lits0, loose0, impls0, htps0, hist, lits, loose, impls, htps, id, r, conflict);
      Conclude(r);
      AddedReceptive(formula0, old(a), hist0, lits0, loose0, impls0, htps0, id, r);
    }

    /** Stores an original clause that is not trivial; a unit is assigned, an empty clause ends it all. */
    method AddSimplified(added: seq<Lit>)
      requires Receptive() && a.Indexed() && NoDup(added)
      requires forall l :: l in added ==> 0 < l.idx <= maxVar && !a.True(l)
      modifies this`a, this`locked, this`lits, this`zhains, this`oadded, this`ladded, this`hist, this`formula, this`impls, this`htps,
               this`loose, this`mtcls, this`conflict
      ensures Receptive() && formula == old(formula) + {Elements(added)}
      ensures old(a).Indexed() && a.Indexed() && ZeroKept(old(a), a)
    {
      hide *;
      ReceptiveFacts();
      var id, r := StoreOriginalClause(added);
      Finish(old(formula), old(hist), old(lits), old(loose), old(impls), old(htps), id, r);
    }

    /** Adds a clause of the user's. */
    method AddClause(c: seq<Lit>)
      requires Receptive() && a.Indexed() && forall l :: l in c ==> 0 < l.idx <= maxVar
      modifies this`a, this`locked, this`lits, this`zhains, this`oadded, this`ladded, this`hist, this`formula, this`impls, this`htps,
               this`loose, this`mtcls, this`conflict
      ensures Receptive() && formula == old(formula) + {Elements(c)}
      ensures old(a).Indexed() && a.Indexed() && ZeroKept(old(a), a)
    {
      hide *;
      ReceptiveElim();
      var trivial, added := TrivialClause(a, c);
      if trivial {
        ZeroExtend(a, a);
        SkipClause(Elements(c));
      } else {
        SameElements(added, c);
        ValidElim();
        NotTrueOnZero(a, c);
        AddSimplified(added);
      }
    }

    /** The assumptions over failed variables. */
    ghost function FailedLits(): set<Lit>
      reads this`als, this`fails
    {
      set l | l in als && l.idx in fails
    }

    /** Between two calls of the interface. */
    ghost predicate Live()
      reads this
    {
      && (forall l :: l in added ==> 0 < l.idx <= maxVar)
      && (forall l :: l in als ==> 0 < l.idx <= maxVar)
      && (if state.READY? then Receptive() else Valid() && !simplifying && Answered(state.answer) && (state.answer == Unknown ==> Idle()))
      && (extracted ==> state == AFTER(Unsat) && mtcls == 0 && !Satisfiable(formula, FailedLits()))
      && (!extracted ==> fails == {})
      && (forall v :: v in fails ==> IsAssumed(v))
      && (extracted ==> FailsAreBehind())
    }

    /** The variables found failed are those of the assumptions that the opposite of the failed one rests on. */
    ghost predicate FailsAreBehind()
      reads this`a, this`lits, this`als, this`failed, this`fails
    {
      && a.Indexed() && failed.Some? && failed.value.idx in a.at
      && forall v :: v in fails <==> IsAssumed(v) && v in a.at && Behind(a, lits, failed.value.idx, v)
    }

    ghost predicate IsAssumed(v: nat)
      reads this`als
    {
      exists l :: l in als && l.idx == v
    }

    lemma LiveElim()
      requires Live()
      ensures forall l :: l in added ==> 0 < l.idx <= maxVar
      ensures forall l :: l in als ==> 0 < l.idx <= maxVar
      ensures state.READY? ==> Receptive()
      ensures !state.READY? ==> Valid() && !simplifying && Answered(state.answer) && (state.answer == Unknown ==> Idle())
      ensures extracted ==> state == AFTER(Unsat) && mtcls == 0 && !Satisfiable(formula, FailedLits())
      ensures !extracted ==> fails == {}
      ensures forall v :: v in fails ==> IsAssumed(v)
      ensures extracted ==> FailsAreBehind()
    {
      hide Receptive, Valid, Answered, Satisfiable, FailedLits, Idle, FailsAreBehind;
    }

    lemma LiveIntro()
      requires forall l :: l in added ==> 0 < l.idx <= maxVar
      requires forall l :: l in als ==> 0 < l.idx <= maxVar
      requires state.READY? ==> Receptive()
      requires !state.READY? ==> Valid() && !simplifying && Answered(state.answer) && (state.answer == Unknown ==> Idle())
      requires extracted ==> state == AFTER(Unsat) && mtcls == 0 && !Satisfiable(formula, FailedLits())
      requires !extracted ==> fails == {}
      requires forall v :: v in fails ==> IsAssumed(v)
      requires extracted ==> FailsAreBehind()
      ensures Live()
    {
      hide Receptive, Valid, Answered, Satisfiable, FailedLits, Idle, FailsAreBehind;
    }

    /** An empty solver. */
    constructor ()
      ensures Live() && state == READY && formula == {} && als == [] && added == [] && mtcls == 0
      ensures propagations == 0 && lpropagations == NO_LIMIT
    {
      a := Assignment([], map[]);
      maxVar, lits, zhains, oadded, ladded, loose, locked := 0, map[], map[], 0, 0, {}, {};
      impls, htps, dhtps, ttail, ttail2 := map[], map[], map[], 0, 0;
      propagations, lpropagations := 0, NO_LIMIT;
      decisions, conflicts, lubycnt, lrestart, fsimplify, isimplify := 0, 0, 0, 0, 0, 0;
      als, alstail, adecidelevel, failed, simplifying, conflict, mtcls := [], 0, 0, None, false, 0, 0;
      added, state, extracted, fails := [], READY, false, {};
      hist, formula, solid := map[], {}, 0;
      new;
      hide *;
      Empty();
    }

    /** The empty solver is in order. */
    lemma Empty()
      requires a == Assignment([], map[]) && lits == map[] && zhains == map[] && loose == {} && locked == {}
      requires impls == map[] && htps == map[] && dhtps == map[] && ttail == ttail2 == solid == 0
      requires als == [] && alstail == 0 && adecidelevel == 0 && failed == None && !simplifying && conflict == 0 && mtcls == 0
      requires added == [] && state == READY && !extracted && fails == {} && hist == map[] && formula == {}
      ensures Live()
    {
    }

    /** Limits the work of all searches to come, that done so far included. */
    method SetPropagationLimit(limit: nat)
      requires Live()
      modifies this`lpropagations
      ensures Live() && lpropagations == limit
    {
      hide *;
      LiveElim();
      lpropagations := limit;
      LiveIntro();
    }

    /** Forgets the assumptions of the last call and goes back to level 0. */
    method ResetIncrementalUsage()
      requires Live() && !state.READY?
      modifies this
      ensures Live() && state == READY && als == [] && formula == old(formula) && added == old(added) && mtcls == old(mtcls)
      ensures maxVar == old(maxVar) && lpropagations == old(lpropagations) && decisions == old(decisions)
      ensures old(a).Indexed() && a.Indexed() && ZeroKept(old(a), a)
    {
      hide *;
      LiveElim();
      AnsweredCalm();
      UndoAll();
      ResetAssumptions();
      state := READY;
      ReceptiveIntro();
      LiveIntro();
    }

    /** Unless the formula is unsatisfiable for good, the solver stopped with everything propagated. */
    lemma AnsweredCalm()
      requires Valid() && !state.READY? && Answered(state.answer) && (state.answer == Unknown ==> Idle())
      ensures mtcls == 0 ==> Propagating() && conflict == 0
      ensures mtcls != 0 ==> Doomed() && a.Top() == 0
    {
      hide *;
      ValidElim();
      AnsweredElim(state.answer);
      if mtcls != 0 {
        DoomedElim();
      } else {
        if state.answer == Unsat { StoppedElim(); }
        IdleElim();
      }
    }

    method UndoAll()
      requires Valid() && (mtcls == 0 ==> Propagating() && conflict == 0) && (mtcls != 0 ==> Doomed() && a.Top() == 0)
      modifies this`a, this`locked, this`htps, this`dhtps, this`ttail, this`ttail2, this`solid, this`conflict, this`alstail, this`adecidelevel
      ensures Base() && a.Valid() && a.Top() == 0 && (mtcls == 0 ==> Propagating() && conflict == 0) && (mtcls != 0 ==> Doomed())
      ensures old(a).Indexed() && a.Indexed() && ZeroKept(old(a), a)
    {
      hide *;
      ValidElim();
      ZeroExtend(a, a);
      if a.Top() > 0 {
        Undo(0);
        PropagatingElim();
        ZeroCut(old(a), a, 0, |a.trail|);
      }
    }

    method ResetAssumptions()
      requires Base() && a.Valid() && a.Indexed() && a.Top() == 0 && !simplifying
      requires mtcls == 0 ==> Propagating() && conflict == 0
      requires mtcls != 0 ==> Doomed()
      modifies this`als, this`alstail, this`adecidelevel, this`failed, this`extracted, this`fails, this`conflict
      ensures Valid() && als == [] && failed.None? && !extracted && fails == {} && conflict == 0
    {
      hide *;
      AssumeNone(a, maxVar);
      als, alstail, adecidelevel, failed := [], 0, 0, None;
      extracted, fails := false, {};
      TakenIs();
      ConsideredAll();
      if conflict != 0 {
        DropConflict();
      }
      ValidIntro();
    }

    method DropConflict()
      requires Doomed()
      modifies this`conflict
      ensures Doomed() && conflict == 0
    {
      hide *;
      DoomedElim();
      conflict := 0;
      DoomedIntro();
    }

    /** The assumptions that the next call still finds. */
    ghost function Pending(): seq<Lit>
      reads this`state, this`als
    {
      if state.READY? then als else []
    }

    lemma LiveIndexed()
      requires Live()
      ensures a.Indexed() && a.Valid()
    {
      hide *;
      LiveElim();
      if state.READY? { ReceptiveElim(); }
      ValidElim();
    }

    /** Every call that prepares the next search starts with this. */
    method Prepare()
      requires Live()
      modifies this
      ensures Live() && state == READY && als == old(Pending()) && formula == old(formula) && added == old(added) && mtcls == old(mtcls)
      ensures maxVar == old(maxVar) && lpropagations == old(lpropagations) && decisions == old(decisions)
      ensures old(a).Indexed() && a.Indexed() && ZeroKept(old(a), a)
    {
      hide *;
      PendingIs();
      if !state.READY? {
        ResetIncrementalUsage();
      } else {
        LiveIndexed();
        ZeroExtend(a, a);
      }
    }

    lemma PendingIs()
      ensures Pending() == if state.READY? then als else []
    {
    }

    /** Enters a literal of a clause. */
    method AddLit(l: Lit)
      requires Live() && l.idx > 0
      modifies this
      ensures Live() && state == READY && als == old(Pending()) && formula == old(formula) && added == old(added) + [l] && mtcls == old(mtcls)
      ensures maxVar >= old(maxVar) && maxVar >= l.idx && lpropagations == old(lpropagations)
      ensures old(a).Indexed() && a.Indexed() && ZeroKept(old(a), a)
    {
      hide *;
      Prepare();
      LiveElim();
      Import(l);
      added := added + [l];
      LiveIntro();
    }

    /** Ends the clause and adds it. */
    method CloseClause()
      requires Live()
      modifies this
      ensures Live() && state == READY && als == old(Pending()) && formula == old(formula) + {Elements(old(added))} && added == []
      ensures maxVar == old(maxVar) && lpropagations == old(lpropagations)
      ensures old(a).Indexed() && a.Indexed() && ZeroKept(old(a), a)
    {
      hide *;
      Prepare();
      ghost var a1 := a;
      LiveElim();
      AddClause(added);
      ZeroTrans(old(a), a1, a);
      added := [];
      LiveIntro();
    }

    /** Adds an assumption for the next search. */
    method Assume(l: Lit)
      requires Live() && l.idx > 0
      modifies this
      ensures Live() && state == READY && als == old(Pending()) + [l] && formula == old(formula) && added == old(added) && mtcls == old(mtcls)
      ensures maxVar >= old(maxVar) && maxVar >= l.idx && lpropagations == old(lpropagations)
      ensures old(a).Indexed() && a.Indexed() && ZeroKept(old(a), a)
    {
      hide *;
      Prepare();
      LiveElim();
      Import(l);
      PushAssumption(l);
      LiveIntro();
    }

    method PushAssumption(l: Lit)
      requires Receptive() && 0 < l.idx <= maxVar && forall k :: k in als ==> 0 < k.idx <= maxVar
      modifies this`als
      ensures Receptive() && als == old(als) + [l]
    {
      hide *;
      ReceptiveElim();
      ValidElim();
      TakenIs();
      ConsideredAll();
      AlstailBound();
      AssumeZero(a, als, als + [l], alstail, adecidelevel, maxVar);
      als := als + [l];
      ConsideredAll();
      ValidIntro();
      ReceptiveIntro();
    }

    /** Decides whether the clauses have a model in which the assumptions hold. */
    method Solve(l: int) returns (res: Answer)
      requires Live() && added == []
      modifies this
      ensures Live() && state == AFTER(res) && als == old(Pending()) && formula == old(formula) && added == []
      ensures maxVar == old(maxVar) && lpropagations == old(lpropagations) && !extracted
      ensures res == Unsat ==> !Satisfiable(formula, Elements(als))
      ensures res == Sat ==> SatFormula(ModelOf(a), formula) && SatLits(ModelOf(a), Elements(als)) && |a.trail| == maxVar
      ensures res != Unsat ==> mtcls == 0
      ensures res == Unknown ==> 0 <= l <= decisions - old(decisions) || lpropagations <= propagations
      ensures old(a).Indexed() && a.Indexed() && ZeroKept(old(a), a)
      ensures res == Unsat && mtcls == 0 && |als| == 1 ==> a.False(als[0]) && a.Level(als[0].idx) == 0
      ensures mtcls == 0 ==> forall c :: c in formula ==> !ZeroFalse(a, c)
      ensures (old(mtcls) != 0 ==> mtcls != 0) && (res == Unsat && als == [] ==> mtcls != 0)
    {
      hide *;
      Prepare();
      ghost var a1 := a;
      res := Run(l);
      ZeroTrans(old(a), a1, a);
      LiveElim();
      SolveFacts(res);
    }

    method Run(l: int) returns (res: Answer)
      requires Live() && state.READY?
      modifies this
      ensures Live() && state == AFTER(res) && als == old(als) && formula == old(formula) && added == old(added)
      ensures maxVar == old(maxVar) && lpropagations == old(lpropagations) && !extracted
      ensures res == Unsat ==> !Satisfiable(formula, Elements(als))
      ensures res == Sat ==> SatFormula(ModelOf(a), formula) && SatLits(ModelOf(a), Elements(als))
      ensures res != Unsat ==> mtcls == 0
      ensures res == Unknown ==> 0 <= l <= decisions - old(decisions) || lpropagations <= propagations
      ensures old(a).Indexed() && a.Indexed() && ZeroKept(old(a), a)
      ensures old(mtcls) != 0 ==> mtcls != 0
    {
      hide *;
      LiveElim();
      ReceptiveElim();
      res := Search(l);
      state := AFTER(res);
      extracted, fails := false, {};
      LiveIntro();
    }

    lemma SolveFacts(res: Answer)
      requires Valid() && !simplifying && Answered(res) && (res == Unknown ==> Idle())
      ensures a.Indexed() && (res == Sat ==> |a.trail| == maxVar)
      ensures res == Unsat && mtcls == 0 && |als| == 1 ==> a.False(als[0]) && a.Level(als[0].idx) == 0
      ensures mtcls == 0 ==> forall c :: c in formula ==> !ZeroFalse(a, c)
      ensures res == Unsat && als == [] ==> mtcls != 0
    {
      hide *;
      ValidElim();
      AnsweredElim(res);
      SatisfiedIs();
      if mtcls == 0 {
        if res == Unsat {
          StoppedElim();
          StoppedVerdict();
        }
        IdleScan();
      }
    }

    /** The value of a literal in the model found: 1, -1, or 0 for a variable the solver does not know. */
    method Deref(l: Lit) returns (r: int)
      requires Live() && state == AFTER(Sat) && l.idx > 0
      ensures r == if l.idx > maxVar then 0 else if Holds(ModelOf(a), l) then 1 else -1
    {
      hide *;
      if l.idx > maxVar {
        return 0;
      }
      SatAssigned(l);
      if a.True(l) {
        return 1;
      }
      if a.False(l) {
        return -1;
      }
      return 0;
    }

    lemma SatAssigned(l: Lit)
      requires Live() && state == AFTER(Sat) && 0 < l.idx <= maxVar
      ensures a.True(l) || a.False(l)
      ensures a.True(l) <==> Holds(ModelOf(a), l)
      ensures a.False(l) <==> !Holds(ModelOf(a), l)
    {
      hide *;
      LiveElim();
      AnsweredElim(Sat);
      SatisfiedIs();
      IdleElim();
      TrailInRange();
      TotalModel(a, maxVar, l);
    }

    /** Marks the assumptions that the failure depends on. */
    method ExtractAllFailedAssumptions()
      requires Live() && state == AFTER(Unsat) && mtcls == 0
      modifies this`extracted, this`fails
      ensures Live() && extracted && FailsAreBehind()
    {
      hide *;
      LiveElim();
      AnsweredElim(Unsat);
      StoppedElim();
      ValidElim();
      IdleElim();
      TrailStoreReady();
      TakenIs();
      ConsideredAll();
      DecisionsAssumed();
      FalseAssigned(a, failed.value);
      var marked := Blame(a, lits, hist, failed.value.idx);
      BlamedRefute(a, hist, lits, zhains, oadded, ladded, formula, als, failed.value, marked);
      fails := set l | l in als && l.idx in marked :: l.idx;
      extracted := true;
      FailedAreBlamed(marked);
      FailsAreBehindIntro(marked);
      LiveIntro();
    }

    lemma FailsAreBehindIntro(marked: seq<nat>)
      requires fails == set l | l in als && l.idx in marked :: l.idx
      requires a.Indexed() && failed.Some? && failed.value.idx in a.at
      requires forall u :: u in marked <==> u in a.at && Behind(a, lits, failed.value.idx, u)
      ensures FailsAreBehind()
    {
      hide Behind;
    }

    lemma FailedAreBlamed(marked: seq<nat>)
      requires fails == set l | l in als && l.idx in marked :: l.idx
      ensures FailedLits() == Blamed(als, marked) && forall v :: v in fails ==> IsAssumed(v)
    {
    }

    /** Tells whether an assumption is among the failed ones. */
    method FailedAssumption(l: Lit) returns (r: bool)
      requires Live() && state == AFTER(Unsat) && l.idx > 0
      modifies this`extracted, this`fails
      ensures Live() && (old(extracted) ==> fails == old(fails))
      ensures mtcls != 0 || l.idx > maxVar ==> !r && fails == old(fails) && extracted == old(extracted)
      ensures mtcls == 0 && l.idx <= maxVar ==> extracted && r == (l.idx in fails) && FailsAreBehind()
      ensures mtcls == 0 && extracted ==> !Satisfiable(formula, FailedLits())
      ensures forall v :: v in fails ==> IsAssumed(v)
    {
      hide *;
      LiveElim();
      if mtcls != 0 || l.idx > maxVar {
        return false;
      }
      if !extracted {
        ExtractAllFailedAssumptions();
        LiveElim();
      }
      r := l.idx in fails;
    }

    /** Once the empty clause was derived there is no model. */
    lemma EmptyMeansUnsat()
      requires Live() && mtcls != 0
      ensures forall s :: !Satisfiable(formula, s)
    {
      hide *;
      LiveElim();
      if state.READY? { ReceptiveElim(); }
      ValidElim();
      DoomedVerdict();
    }

    /** What the traversal of the core needs to know. */
    lemma CoreFacts()
      requires Live() && state == AFTER(Unsat)
      ensures a.Indexed() && Stored(hist, lits, zhains, oadded, ladded, formula)
      ensures mtcls != 0 ==> mtcls in hist && hist[mtcls] == {}
      ensures mtcls == 0 ==> Stopped()
    {
      hide *;
      LiveElim();
      ValidElim();
      BaseElim();
      AnsweredElim(Unsat);
      if mtcls != 0 { DoomedElim(); }
    }

    /** When search stopped on a failed assumption, its reason blames other assumptions only. It has no reason only if
        its opposite was assumed, too. */
    lemma FailedReason()
      requires Live() && state == AFTER(Unsat) && mtcls == 0
      ensures a.Indexed() && failed.Some? && failed.value in als && a.False(failed.value) && failed.value.idx in a.at
      ensures a.Reason(failed.value.idx) == 0 ==> Neg(failed.value) in als
      ensures a.Reason(failed.value.idx) != 0 ==> a.Reason(failed.value.idx) in hist
      ensures a.Reason(failed.value.idx) != 0 ==>
        forall l :: l in hist[a.Reason(failed.value.idx)] && l != Neg(failed.value) ==> Neg(l) in als && l.idx != failed.value.idx
    {
      hide *;
      LiveElim();
      AnsweredElim(Unsat);
      StoppedElim();
      ValidElim();
      IdleElim();
      TakenIs();
      ConsideredAll();
      DecisionsAssumed();
      TrailStoreReady();
      StoredFacts(hist, lits, zhains, oadded, ladded, formula);
      DirectBlame(a, hist, lits, als, failed.value);
    }
  }
}
