/** The Luby sequence that schedules restarts. */
module Luby {
  import opened Arithmetic

  /** The k with 2^(k-1) <= i < 2^k. */
  function Bits(i: nat): (k: nat)
    requires i > 0
    ensures k > 0 && Pow2(k - 1) <= i < Pow2(k)
  {
    if i == 1 then 1 else Bits(i / 2) + 1
  }

  lemma BitsUnique(i: nat, k: nat)
    requires i > 0 && k > 0 && Pow2(k - 1) <= i < Pow2(k)
    ensures Bits(i) == k
  {
    if Bits(i) < k {
      Pow2Mono(Bits(i), k - 1);
    } else if k < Bits(i) {
      Pow2Mono(k, Bits(i) - 1);
    }
  }

  /** Position i of the sequence 1, 1, 2, 1, 1, 2, 4, ...: after each power of two the sequence so far is repeated. */
  function LubyAt(i: nat): (r: nat)
    requires i > 0
  {
    var k := Bits(i);
    if i == Pow2(k) - 1 then Pow2(k - 1) else LubyAt(i - Pow2(k - 1) + 1)
  }

  /** As the solver computes it, with machine words. */
  method Luby(i: nat) returns (r: nat)
    requires 0 < i < Pow2(31)
    ensures r == LubyAt(i)
    decreases i
  {
    var k: nat := 1;
    while k < 32
      invariant 1 <= k <= 32 && forall j :: 1 <= j < k ==> i != Pow2(j) - 1
    {
      if i == Pow2(k) - 1 {
        if k > 1 { Pow2Grows(1, k); }
        BitsUnique(i, k);
        return Pow2(k - 1);
      }
      k := k + 1;
    }
    k := 1;
    BitsSmall(i, 31);
    while !(Pow2(k - 1) <= i && i < Pow2(k) - 1)
      invariant 1 <= k <= Bits(i) <= 31
      decreases Bits(i) - k
    {
      k := k + 1;
    }
    BitsUnique(i, k);
    r := Luby(i - Pow2(k - 1) + 1);
  }

  lemma BitsSmall(i: nat, n: nat)
    requires 0 < i < Pow2(n)
    ensures Bits(i) <= n
  {
    if n < Bits(i) {
      Pow2Mono(n, Bits(i) - 1);
    }
  }

  ghost predicate IsPower(x: nat) {
    exists e: nat :: x == Pow2(e)
  }

  /** Every value is a power of two, and at most half of the next position. */
  lemma {:induction false} LubyIsPower(i: nat)
    requires i > 0
    ensures IsPower(LubyAt(i)) && 2 * LubyAt(i) <= i + 1
    decreases i
  {
    var k := Bits(i);
    if i == Pow2(k) - 1 {
      assert Pow2(k) == 2 * Pow2(k - 1);
    } else {
      LubyIsPower(i - Pow2(k - 1) + 1);
    }
  }

  function Total(n: nat): nat {
    if n == 0 then 0 else Total(n - 1) + LubyAt(n)
  }

  /** Behind the first 2^k - 1 values the sequence starts over. */
  lemma {:induction false} Repeats(k: nat, n: nat)
    requires k > 0 && n < Pow2(k)
    ensures Total(Pow2(k) - 1 + n) == Total(Pow2(k) - 1) + Total(n)
    decreases n
  {
    hide LubyAt;
    if n > 0 {
      Repeats(k, n - 1);
      RepeatsAt(k, n);
      TotalStep(Pow2(k) - 1 + n);
      TotalStep(n);
    }
  }

  lemma TotalStep(n: nat)
    requires n > 0
    ensures Total(n) == Total(n - 1) + LubyAt(n)
  {
  }

  lemma RepeatsAt(k: nat, n: nat)
    requires k > 0 && 0 < n < Pow2(k)
    ensures LubyAt(Pow2(k) - 1 + n) == LubyAt(n)
  {
    BitsUnique(Pow2(k) - 1 + n, k + 1);
  }

  lemma LastOfBlock(k: nat)
    requires k > 0
    ensures Pow2(k) == 2 * Pow2(k - 1) && LubyAt(Pow2(k) - 1) == Pow2(k - 1)
  {
    BitsUnique(Pow2(k) - 1, k);
  }

  lemma TotalOfOne()
    ensures Pow2(0) == 1 && Pow2(1) == 2 && Total(1) == 1
  {
    LastOfBlock(1);
    TotalStep(1);
    assert Total(0) == 0;
  }

  /** The first 2^k - 1 values add up to k * 2^(k-1). */
  lemma {:induction false} SumOfLuby(k: nat)
    requires k > 0
    ensures Total(Pow2(k) - 1) == k * Pow2(k - 1)
    decreases k
  {
    hide Pow2, LubyAt, Total;
    if k == 1 {
      TotalOfOne();
    } else {
      SumOfLuby(k - 1);
      var n := Pow2(k - 1) - 1;
      Repeats(k - 1, n);
      LastOfBlock(k);
      LastOfBlock(k - 1);
      TotalStep(2 * n + 1);
      Doubling(k, Pow2(k - 2));
    }
  }

  lemma Doubling(k: nat, p: nat)
    requires k > 0
    ensures 2 * ((k - 1) * p) + 2 * p == k * (2 * p)
  {
  }
}
