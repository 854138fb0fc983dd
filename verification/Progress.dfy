/** Why search ends: every propagation, decision and backjump makes the trail worth more, and its worth is bounded. */
module Progress {
  import opened Trail
  import opened Arithmetic

  function Power(b: nat, e: nat): nat {
    if e == 0 then 1 else b * Power(b, e - 1)
  }

  /** An assignment weighs more than any number of assignments on the levels above it. */
  function Weight(level: nat, n: nat): nat {
    if level <= n then Power(n + 1, n - level) else 0
  }

  function Worth(trail: seq<Entry>, n: nat): nat {
    if trail == [] then 0 else Worth(trail[..|trail| - 1], n) + Weight(trail[|trail| - 1].level, n)
  }

  /** No trail over n variables is worth more. */
  function Ceiling(n: nat): nat {
    n * Power(n + 1, n)
  }

  /** The second trail keeps the first k entries, and goes on with one on a lower level than all that it gives up. */
  ghost predicate Ahead(s: seq<Entry>, t: seq<Entry>, k: nat) {
    && k <= |s| && k < |t| && t[..k] == s[..k]
    && forall i :: k <= i < |s| ==> s[i].level > t[k].level
  }

  lemma PowerPositive(b: nat, e: nat)
    requires b > 0
    ensures Power(b, e) > 0
  {
    if e > 0 {
      PowerPositive(b, e - 1);
      Positive(b, Power(b, e - 1));
    }
  }

  lemma Positive(x: nat, y: nat)
    requires x > 0 && y > 0
    ensures x * y > 0
  {
  }

  lemma WeightFalls(level: nat, higher: nat, n: nat)
    requires level < higher && level <= n
    ensures Weight(level, n) >= (n + 1) * Weight(higher, n) && Weight(level, n) > 0
  {
    PowerPositive(n + 1, n - level);
    if higher <= n {
      PowerFalls(n + 1, n - higher, n - level - 1);
      Products(n + 1, n + 1, Power(n + 1, n - higher), Power(n + 1, n - level - 1));
    }
  }

  lemma PowerFalls(b: nat, e: nat, f: nat)
    requires b > 0 && e <= f
    ensures Power(b, e) <= Power(b, f)
    decreases f
  {
    if e < f {
      PowerFalls(b, e, f - 1);
      Grows(b, Power(b, f - 1));
    }
  }

  lemma Grows(b: nat, x: nat)
    requires b > 0
    ensures x <= b * x
  {
  }

  lemma {:induction false} WorthOfTail(s: seq<Entry>, k: nat, n: nat, w: nat)
    requires k <= |s| && forall i :: k <= i < |s| ==> Weight(s[i].level, n) <= w
    ensures Worth(s[..k], n) <= Worth(s, n) <= Worth(s[..k], n) + (|s| - k) * w
    decreases |s|
  {
    if k == |s| {
      assert s[..k] == s;
    } else {
      var front := s[..|s| - 1];
      assert front[..k] == s[..k];
      WorthOfTail(front, k, n, w);
      OneTimes(|s| - 1 - k, w);
    }
  }

  lemma OneTimes(x: nat, w: nat)
    ensures (x + 1) * w == x * w + w
  {
  }

  /** Whatever is given up, one assignment on a lower level outweighs it. */
  lemma AheadIsWorthMore(s: seq<Entry>, t: seq<Entry>, k: nat, n: nat)
    requires Ahead(s, t, k) && |s| <= n && t[k].level <= n
    ensures Worth(s, n) < Worth(t, n)
  {
    var level := t[k].level;
    var w := Weight(level + 1, n);
    forall i | k <= i < |s|
      ensures Weight(s[i].level, n) <= w
    {
      WeightIsMonotone(level + 1, s[i].level, n);
    }
    WorthOfTail(s, k, n, w);
    WeightFalls(level, level + 1, n);
    var u := t[..k + 1];
    assert u[..k] == s[..k];
    TailIsWorth(t, k + 1, n);
    Products(|s| - k, n, w, w);
    OneTimes(n, w);
  }

  lemma WeightIsMonotone(level: nat, higher: nat, n: nat)
    requires level <= higher
    ensures Weight(higher, n) <= Weight(level, n)
  {
    if higher <= n {
      PowerFalls(n + 1, n - higher, n - level);
    }
  }

  lemma {:induction false} TailIsWorth(t: seq<Entry>, k: nat, n: nat)
    requires k <= |t|
    ensures Worth(t[..k], n) <= Worth(t, n)
    decreases |t|
  {
    if k == |t| {
      assert t[..k] == t;
    } else {
      var front := t[..|t| - 1];
      assert front[..k] == t[..k];
      TailIsWorth(front, k, n);
    }
  }

  lemma {:induction false} LevelAtMost(a: Assignment, i: nat)
    requires a.Valid() && i < |a.trail|
    ensures a.trail[i].level <= i + 1
    decreases i
  {
    assert a.trail[i].level == a.LevelBefore(i) + (if a.trail[i].reason == 0 then 1 else 0);
    if i > 0 {
      LevelAtMost(a, i - 1);
    }
  }

  /** The worth of a trail is bounded. */
  lemma WorthIsBounded(a: Assignment, n: nat)
    requires |a.trail| <= n
    ensures Worth(a.trail, n) <= Ceiling(n)
  {
    forall i | 0 <= i < |a.trail|
      ensures Weight(a.trail[i].level, n) <= Weight(0, n)
    {
      WeightIsMonotone(0, a.trail[i].level, n);
    }
    WorthOfTail(a.trail, 0, n, Weight(0, n));
    Products(|a.trail|, n, Weight(0, n), Weight(0, n));
    assert a.trail[..0] == [];
  }

  /** A longer trail is worth more. */
  lemma ExtendedIsWorthMore(a: Assignment, b: Assignment, n: nat)
    requires b.Valid() && a.trail <= b.trail && |b.trail| <= n
    ensures Worth(a.trail, n) <= Worth(b.trail, n)
    ensures |a.trail| < |b.trail| ==> Worth(a.trail, n) < Worth(b.trail, n)
  {
    if |a.trail| < |b.trail| {
      LevelAtMost(b, |a.trail|);
      AheadIsWorthMore(a.trail, b.trail, |a.trail|, n);
    } else {
      assert a.trail == b.trail;
    }
  }

  /** After a backjump the trail is cut back to a lower level, and one assignment longer there. */
  ghost predicate Jumped(a: Assignment, b: Assignment) {
    && 0 < |b.trail| <= |a.trail| + 1 && b.trail[..|b.trail| - 1] == a.trail[..|b.trail| - 1]
    && forall i :: |b.trail| - 1 <= i < |a.trail| ==> a.trail[i].level > b.Top()
  }

  lemma BackjumpIsWorthMore(a: Assignment, b: Assignment, n: nat)
    requires b.Valid() && |a.trail| <= n && |b.trail| <= n && Jumped(a, b)
    ensures Worth(a.trail, n) < Worth(b.trail, n)
  {
    var k := |b.trail| - 1;
    LevelAtMost(b, k);
    AheadIsWorthMore(a.trail, b.trail, k, n);
  }
}
