/** Powers of two, products, and the bitwise exclusive or. */
module Arithmetic {

  function Pow2(k: nat): (r: nat)
    ensures r > 0
  {
    if k == 0 then 1 else 2 * Pow2(k - 1)
  }

  lemma {:induction false} Pow2Grows(j: nat, k: nat)
    requires j < k
    ensures Pow2(j) < Pow2(k) && 2 * Pow2(j) <= Pow2(k)
    decreases k
  {
    if j < k - 1 {
      Pow2Grows(j, k - 1);
    }
  }

  lemma Pow2Mono(j: nat, k: nat)
    requires j <= k
    ensures Pow2(j) <= Pow2(k)
  {
    if j < k { Pow2Grows(j, k); }
  }

  lemma {:induction false} Pow2Exceeds(k: nat)
    ensures Pow2(k) > k
  {
    if k > 0 {
      Pow2Exceeds(k - 1);
    }
  }

  lemma Products(a: nat, b: nat, c: nat, d: nat)
    requires a <= b && c <= d
    ensures a * c <= b * d
  {
    assert a * c <= b * c <= b * d;
  }

  function Xor(a: nat, b: nat): nat
    decreases a + b
  {
    if a == 0 && b == 0 then 0 else (a + b) % 2 + 2 * Xor(a / 2, b / 2)
  }

  lemma {:induction false} XorIsBelow(a: nat, b: nat, k: nat)
    requires a < Pow2(k) && b < Pow2(k)
    ensures Xor(a, b) < Pow2(k)
    decreases k
  {
    if k > 0 {
      XorIsBelow(a / 2, b / 2, k - 1);
    }
  }

  lemma XorOfHalves(a: nat, b: nat)
    requires a < 0x1_0000 && b < 0x1_0000
    ensures Xor(a, b) < 0x1_0000
  {
    assert Pow2(8) == 256;
    assert Pow2(16) == 0x1_0000;
    XorIsBelow(a, b, 16);
  }

  lemma XorStep(a: nat, b: nat)
    ensures Xor(a, b) == (a + b) % 2 + 2 * Xor(a / 2, b / 2)
    ensures Xor(a, b) / 2 == Xor(a / 2, b / 2) && Xor(a, b) % 2 == (a + b) % 2
  {
    var r := Xor(a / 2, b / 2);
  }

  lemma {:induction false} XorZero(a: nat)
    ensures Xor(a, 0) == a
  {
    if a > 0 {
      XorZero(a / 2);
    }
  }

  lemma {:induction false} XorCommutes(a: nat, b: nat)
    ensures Xor(a, b) == Xor(b, a)
    decreases a + b
  {
    if a != 0 || b != 0 {
      XorCommutes(a / 2, b / 2);
    }
  }

  lemma {:induction false} XorBack(a: nat, b: nat)
    ensures Xor(Xor(a, b), b) == a
    decreases a + b
  {
    hide Xor;
    if a == 0 && b == 0 {
      XorZero(0);
    } else {
      XorBack(a / 2, b / 2);
      XorStep(a, b);
      XorStep(Xor(a, b), b);
      LastBits(a, b, Xor(a, b));
    }
  }

  lemma LastBits(a: nat, b: nat, r: nat)
    requires r % 2 == (a + b) % 2
    ensures (r + b) % 2 == a % 2
  {
  }

  /** Bit k of the result is set if and only if just one of the two bits is. */
  lemma {:induction false} XorBit(a: nat, b: nat, k: nat)
    ensures Xor(a, b) / Pow2(k) % 2 == (a / Pow2(k) + b / Pow2(k)) % 2
    decreases k
  {
    hide Xor, Pow2;
    XorStep(a, b);
    if k == 0 {
      NoBits(a);
      NoBits(b);
      NoBits(Xor(a, b));
    } else {
      XorBit(a / 2, b / 2, k - 1);
      HalfFirst(a, k);
      HalfFirst(b, k);
      HalfFirst(Xor(a, b), k);
    }
  }

  lemma NoBits(a: nat)
    ensures a / Pow2(0) == a
  {
  }

  lemma HalfFirst(a: nat, k: nat)
    requires k > 0
    ensures a / Pow2(k) == a / 2 / Pow2(k - 1)
  {
    var p := Pow2(k - 1);
    var q := a / 2 / p;
    Quotient(a / 2, p);
    Bounds(q, p, a);
  }

  lemma Quotient(a: nat, p: nat)
    requires p > 0
    ensures a / p * p <= a < (a / p + 1) * p
  {
  }

  lemma Bounds(q: nat, p: nat, a: nat)
    requires p > 0 && q * p <= a / 2 < (q + 1) * p
    ensures a / (2 * p) == q
  {
    assert q * (2 * p) == 2 * (q * p) && (q + 1) * (2 * p) == 2 * ((q + 1) * p);
    Unique(a, 2 * p, q);
  }

  lemma Unique(a: nat, d: nat, q: nat)
    requires d > 0 && q * d <= a < (q + 1) * d
    ensures a / d == q
  {
    Quotient(a, d);
    if a / d < q {
      Products(a / d + 1, q, d, d);
    } else if q < a / d {
      Products(q + 1, a / d, d, d);
    }
  }
}
