/** The order of the literals in a new clause: unassigned ones first, then by falling decision level. */
module Ordering {
  import opened Cnf
  import opened Sequences
  import opened Trail

  function Rank(a: Assignment, l: Lit): nat
    requires a.Indexed()
  {
    if a.Undef(l) then a.Top() + 1 else a.Level(l.idx)
  }

  ghost predicate Falling(a: Assignment, ls: seq<Lit>)
    requires a.Indexed()
  {
    forall i, j :: 0 <= i < j < |ls| ==> Rank(a, ls[i]) >= Rank(a, ls[j])
  }

  function Insert(r: seq<Lit>, k: nat, l: Lit): seq<Lit>
    requires k <= |r|
  {
    r[..k] + [l] + r[k..]
  }

  lemma InsertKeeps(r: seq<Lit>, k: nat, l: Lit)
    requires k <= |r| && NoDup(r) && l !in r
    ensures NoDup(Insert(r, k, l)) && Elements(Insert(r, k, l)) == Elements(r) + {l} && |Insert(r, k, l)| == |r| + 1
  {
    var s := Insert(r, k, l);
    assert r == r[..k] + r[k..];
    assert forall i :: 0 <= i < |s| ==> s[i] == if i < k then r[i] else if i == k then l else r[i-1];
  }

  lemma InsertFalls(a: Assignment, r: seq<Lit>, k: nat, l: Lit)
    requires a.Indexed() && k <= |r| && Falling(a, r)
    requires forall i :: 0 <= i < k ==> Rank(a, r[i]) >= Rank(a, l)
    requires k < |r| ==> Rank(a, l) >= Rank(a, r[k])
    ensures Falling(a, Insert(r, k, l))
  {
    var s := Insert(r, k, l);
    assert forall i :: 0 <= i < |s| ==> s[i] == if i < k then r[i] else if i == k then l else r[i-1];
    hide Rank;
  }

  /** Insertion sort stands for the source's sorting macro; ties are left in place. */
  method SortLits(a: Assignment, ls: seq<Lit>) returns (r: seq<Lit>)
    requires a.Indexed() && NoDup(ls)
    ensures NoDup(r) && Elements(r) == Elements(ls) && |r| == |ls|
    ensures |r| != 2 ==> Falling(a, r)
  {
    if |ls| == 2 {
      r := if Before(ls[0], ls[1]) then ls else [ls[1], ls[0]];
      assert ls == [ls[0], ls[1]];
      return;
    }
    r := [];
    for n := 0 to |ls|
      invariant NoDup(r) && Elements(r) == Elements(ls[..n]) && |r| == n && Falling(a, r)
    {
      var k := 0;
      while k < |r| && Rank(a, r[k]) >= Rank(a, ls[n])
        invariant k <= |r| && forall i :: 0 <= i < k ==> Rank(a, r[i]) >= Rank(a, ls[n])
      {
        k := k + 1;
      }
      assert ls[n] !in ls[..n] && ls[n] !in Elements(r);
      InsertKeeps(r, k, ls[n]);
      InsertFalls(a, r, k, ls[n]);
      r := Insert(r, k, ls[n]);
      assert ls[..n+1] == ls[..n] + [ls[n]];
    }
    assert ls[..|ls|] == ls;
  }

  /** The order of the literal array, used for binary clauses. */
  predicate Before(l: Lit, o: Lit) {
    l.idx < o.idx || (l.idx == o.idx && !l.neg)
  }
}
