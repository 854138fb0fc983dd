/** The assignment stack: which literals are true, at which decision level, and why. */
module Trail {
  import opened Cnf
  import opened Sequences

  /** One assignment. Reason 0 marks a decision; any other value is a clause index. */
  datatype Entry = Entry(lit: Lit, level: nat, reason: nat)

  /** The trail together with the index of each assigned variable on it. */
  datatype Assignment = Assignment(trail: seq<Entry>, at: map<nat, nat>) {

    /** Trail and index map are inverse to each other. */
    ghost predicate Indexed() {
      && (forall i :: 0 <= i < |trail| ==> trail[i].lit.idx in at && at[trail[i].lit.idx] == i)
      && (forall v :: v in at ==> at[v] < |trail| && trail[at[v]].lit.idx == v)
    }

    predicate True(l: Lit) {
      l.idx in at && at[l.idx] < |trail| && trail[at[l.idx]].lit == l
    }

    predicate False(l: Lit) {
      True(Neg(l))
    }

    predicate Undef(l: Lit) {
      l.idx !in at
    }

    function Level(v: nat): nat
      requires Indexed() && v in at
    {
      trail[at[v]].level
    }

    function Reason(v: nat): nat
      requires Indexed() && v in at
    {
      trail[at[v]].reason
    }

    /** The current decision level. */
    function Top(): nat {
      LevelBefore(|trail|)
    }

    function LevelBefore(i: nat): nat
      requires i <= |trail|
    {
      if i == 0 then 0 else trail[i-1].level
    }

    /** The level rises by one at each decision and stays put otherwise. */
    ghost predicate Leveled() {
      forall i {:trigger LevelBefore(i)} :: 0 <= i < |trail| ==>
        trail[i].level == LevelBefore(i) + (if trail[i].reason == 0 then 1 else 0)
    }

    ghost predicate Valid() {
      Indexed() && Leveled()
    }

    function Push(l: Lit, level: nat, reason: nat): Assignment {
      Assignment(trail + [Entry(l, level, reason)], at[l.idx := |trail|])
    }

    function Pop(): Assignment
      requires |trail| > 0
    {
      Assignment(trail[..|trail| - 1], at - {trail[|trail| - 1].lit.idx})
    }

    /** m makes the trail's literal of every variable in vs true. */
    ghost predicate Agrees(m: Model, vs: set<nat>)
      requires Indexed()
    {
      forall v :: v in vs && v in at ==> Holds(m, trail[at[v]].lit)
    }
  }

  lemma {:induction false} LevelsRise(a: Assignment, i: nat, j: nat)
    requires a.Leveled() && i <= j < |a.trail|
    ensures a.trail[i].level <= a.trail[j].level <= a.Top()
    decreases |a.trail| - i
  {
    assert a.LevelBefore(i + 1) == a.trail[i].level;
    if i < j {
      LevelsRise(a, i + 1, j);
    } else if j + 1 < |a.trail| {
      LevelsRise(a, j + 1, j + 1);
    }
  }

  lemma PushValid(a: Assignment, l: Lit, level: nat, reason: nat)
    requires a.Valid() && a.Undef(l)
    requires level == a.Top() + (if reason == 0 then 1 else 0)
    ensures a.Push(l, level, reason).Valid()
    ensures a.Push(l, level, reason).Top() == level && a.Push(l, level, reason).Indexed()
    ensures |a.Push(l, level, reason).trail| == |a.trail| + 1 && a.trail <= a.Push(l, level, reason).trail
  {
    var b := a.Push(l, level, reason);
    forall i: nat | i < |b.trail|
      ensures b.trail[i].level == b.LevelBefore(i) + (if b.trail[i].reason == 0 then 1 else 0)
    {
      assert b.LevelBefore(i) == a.LevelBefore(i);
    }
  }

  lemma PushLast(a: Assignment, l: Lit, level: nat, reason: nat)
    ensures var t := a.Push(l, level, reason).trail; |t| == |a.trail| + 1 && t[|t| - 1] == Entry(l, level, reason)
  {
  }

  lemma PopValid(a: Assignment)
    requires a.Valid() && |a.trail| > 0
    ensures a.Pop().Valid()
  {
    var b := a.Pop();
    assert b.Indexed() by {
      assert forall i :: 0 <= i < |b.trail| ==> b.trail[i] == a.trail[i];
      assert forall v :: v in b.at ==> v in a.at && b.at[v] == a.at[v];
    }
    forall i: nat | i < |b.trail|
      ensures b.trail[i].level == b.LevelBefore(i) + (if b.trail[i].reason == 0 then 1 else 0)
    {
      assert b.trail[i] == a.trail[i] && b.LevelBefore(i) == a.LevelBefore(i);
    }
  }

  /** Popping unassigns the last literal and nothing else. */
  lemma PopOne(a: Assignment, v: nat)
    requires a.Indexed() && |a.trail| > 0 && a.Pop().Indexed()
    ensures v in a.Pop().at <==> v in a.at && v != a.trail[|a.trail| - 1].lit.idx
    ensures v in a.Pop().at ==> a.Pop().at[v] == a.at[v] < |a.trail| - 1 && a.Pop().trail[a.at[v]] == a.trail[a.at[v]]
  {
  }

  /** Entry e, at position i, was forced by its reason clause: the clause holds e's literal and otherwise only
      literals falsified earlier, one of them on the same level; on level 0 it is a unit clause. */
  ghost predicate Justified(a: Assignment, hist: map<nat, Clause>, e: Entry, i: nat)
    requires a.Indexed()
  {
    e.reason == 0 ||
    (&& e.reason in hist
     && e.lit in hist[e.reason]
     && FalseBefore(a, hist[e.reason], e.lit, i)
     && (if e.level == 0 then hist[e.reason] == {e.lit} else HasLevel(a, hist[e.reason], e.lit, e.level)))
  }

  /** Every literal of c but l is false, and was so before position i. */
  ghost predicate FalseBefore(a: Assignment, c: Clause, l: Lit, i: nat)
    requires a.Indexed()
  {
    forall k :: k in c && k != l ==> a.False(k) && a.at[k.idx] < i
  }

  /** Some literal of c other than l is false on the given level. */
  ghost predicate HasLevel(a: Assignment, c: Clause, l: Lit, level: nat)
    requires a.Indexed()
  {
    exists k :: k in c && k != l && a.False(k) && a.Level(k.idx) == level
  }

  ghost predicate Reasoned(a: Assignment, hist: map<nat, Clause>)
    requires a.Indexed()
  {
    forall i :: 0 <= i < |a.trail| ==> Justified(a, hist, a.trail[i], i)
  }

  lemma JustifiedPush(a: Assignment, hist: map<nat, Clause>, e: Entry, i: nat, l: Lit, level: nat, reason: nat)
    requires a.Valid() && a.Undef(l) && Justified(a, hist, e, i) && a.Push(l, level, reason).Indexed()
    ensures Justified(a.Push(l, level, reason), hist, e, i)
  {
    var b := a.Push(l, level, reason);
    if e.reason != 0 && e.level != 0 {
      var k :| k in hist[e.reason] && k != e.lit && a.False(k) && a.Level(k.idx) == e.level;
      assert b.False(k) && b.Level(k.idx) == e.level;
    }
  }

  lemma PushReasoned(a: Assignment, hist: map<nat, Clause>, l: Lit, level: nat, reason: nat)
    requires a.Valid() && a.Undef(l) && Reasoned(a, hist)
    requires level == a.Top() + (if reason == 0 then 1 else 0)
    requires Justified(a, hist, Entry(l, level, reason), |a.trail|)
    ensures var b := a.Push(l, level, reason); b.Valid() && b.Top() == level && Reasoned(b, hist)
  {
    PushValid(a, l, level, reason);
    var b := a.Push(l, level, reason);
    forall i: nat | i < |b.trail|
      ensures Justified(b, hist, b.trail[i], i)
    {
      JustifiedPush(a, hist, b.trail[i], i, l, level, reason);
    }
  }

  lemma JustifiedPop(a: Assignment, hist: map<nat, Clause>, e: Entry, i: nat)
    requires a.Indexed() && |a.trail| > 0 && a.Pop().Indexed() && i < |a.trail| && Justified(a, hist, e, i)
    ensures Justified(a.Pop(), hist, e, i)
  {
    var b := a.Pop();
    forall k | a.False(k) && a.at[k.idx] < i
      ensures b.False(k) && b.Level(k.idx) == a.Level(k.idx)
    {
      assert b.trail[a.at[k.idx]] == a.trail[a.at[k.idx]];
    }
    if e.reason != 0 && e.level != 0 {
      var k :| k in hist[e.reason] && k != e.lit && a.False(k) && a.Level(k.idx) == e.level;
      assert b.False(k);
    }
  }

  lemma PopReasoned(a: Assignment, hist: map<nat, Clause>)
    requires a.Valid() && Reasoned(a, hist) && |a.trail| > 0
    ensures a.Pop().Valid() && Reasoned(a.Pop(), hist)
  {
    PopValid(a);
    var b := a.Pop();
    forall i: nat | i < |b.trail|
      ensures Justified(b, hist, b.trail[i], i)
    {
      JustifiedPop(a, hist, a.trail[i], i);
    }
  }

  /** A reason clause has exactly one true literal, so no clause is the reason of two entries. */
  lemma ReasonsDiffer(a: Assignment, hist: map<nat, Clause>, i: nat, j: nat)
    requires a.Valid() && Reasoned(a, hist) && i < |a.trail| && j < |a.trail| && i != j
    ensures a.trail[i].reason == 0 || a.trail[i].reason != a.trail[j].reason
  {
    assert Justified(a, hist, a.trail[i], i);
    assert Justified(a, hist, a.trail[j], j);
  }

  lemma ReasonedExtends(a: Assignment, hist: map<nat, Clause>, id: nat, c: Clause)
    requires a.Indexed() && Reasoned(a, hist) && id !in hist
    ensures Reasoned(a, hist[id := c])
  {
    forall i: nat | i < |a.trail|
      ensures Justified(a, hist[id := c], a.trail[i], i)
    {
      assert Justified(a, hist, a.trail[i], i);
    }
  }

  lemma TrueHasLevel(a: Assignment, l: Lit)
    requires a.Indexed() && a.True(l)
    ensures l.idx in a.at
  {
  }

  lemma TrueOrFalse(a: Assignment, l: Lit)
    requires a.Indexed()
    ensures a.True(l) || a.False(l) || a.Undef(l)
  {
  }

  lemma AtReason(a: Assignment, v: nat)
    requires a.Indexed() && v in a.at
    ensures a.at[v] < |a.trail| && a.trail[a.at[v]].reason == a.Reason(v)
  {
  }

  lemma CutShorter(a: Assignment, b: Assignment, n: nat)
    requires n <= |a.trail| && b.trail == a.trail[..n] && b.Top() != a.Top()
    ensures n < |a.trail|
  {
    assert n == |a.trail| ==> b.trail == a.trail;
  }

  lemma UnitFalseBefore(a: Assignment, c: Clause, ls: seq<Lit>)
    requires a.Indexed() && |ls| == 1 && c == Elements(ls)
    ensures FalseBefore(a, c, ls[0], |a.trail|) && ls[0] in c
  {
  }

  lemma FalseAssigned(a: Assignment, l: Lit)
    requires a.Indexed() && a.False(l)
    ensures l.idx in a.at
  {
  }
}
