/** The unsigned software float of the decision scores: a 25-bit significand with its top bit implied, and an exponent. */
module SoftFloat {
  import opened Arithmetic

  const MSB := 0x100_0000
  const CARRY := 0x200_0000
  const ZERO := 0
  const EPS := 1
  const INF := 0xffff_ffff

  type Flt = f: nat | f <= INF

  function Mantissa(f: Flt): nat {
    f % MSB + MSB
  }

  /** The exponent, counted from the smallest one. */
  function Exponent(f: Flt): (e: nat)
    ensures e <= 255
  {
    f / MSB
  }

  function Pack(m: nat, e: nat): (f: Flt)
    requires m < MSB && e <= 255
    ensures f > 0 ==> Mantissa(f) == m + MSB && Exponent(f) == e
    ensures f == 0 <==> m == 0 && e == 0
  {
    m + e * MSB
  }

  /** What a float stands for, as a multiple of two to the smallest exponent. */
  function Value(f: Flt): nat {
    if f == ZERO then 0 else Mantissa(f) * Pow2(Exponent(f))
  }

  /** One unit in the last place. */
  function Ulp(f: Flt): nat {
    Pow2(Exponent(f))
  }

  /** f is s cut off after its 25 leading bits, or the largest float if s is larger than all of them. */
  ghost predicate Truncates(f: Flt, s: nat) {
    if s >= CARRY * Pow2(255) then f == INF else Value(f) <= s < Value(f) + Ulp(f)
  }

  lemma {:induction false} Pow2Add(j: nat, k: nat)
    ensures Pow2(j + k) == Pow2(j) * Pow2(k)
    decreases j
  {
    if j > 0 {
      Pow2Add(j - 1, k);
      assert Pow2(j) * Pow2(k) == 2 * (Pow2(j - 1) * Pow2(k));
    }
  }

  lemma NextExponent(f: Flt)
    requires 0 < f < INF
    ensures if f % MSB + 1 < MSB then Exponent(f + 1) == Exponent(f) && Mantissa(f + 1) == Mantissa(f) + 1
            else Exponent(f + 1) == Exponent(f) + 1 && Mantissa(f + 1) == MSB && Mantissa(f) + 1 == 2 * MSB
  {
  }

  /** The next float is one unit in the last place away. */
  lemma NextValue(f: Flt)
    requires 0 < f < INF
    ensures Value(f + 1) == Value(f) + Ulp(f)
  {
    NextExponent(f);
    var m, p := Mantissa(f), Pow2(Exponent(f));
    assert (m + 1) * p == m * p + p;
    if f % MSB + 1 == MSB {
      assert MSB * (2 * p) == (2 * MSB) * p;
    }
  }

  lemma {:induction false} ValueGrows(f: Flt, g: Flt)
    requires f < g
    ensures Value(f) + Ulp(f) <= Value(g)
    decreases g - f
  {
    if f == 0 {
      assert Pow2(0) == 1;
      ValuePositive(g);
    } else {
      NextValue(f);
      if f + 1 < g {
        ValueGrows(f + 1, g);
      }
    }
  }

  lemma ValuePositive(f: Flt)
    requires f > 0
    ensures Value(f) >= Pow2(Exponent(f)) && Value(f) >= 1
  {
    var m, p := Mantissa(f), Pow2(Exponent(f));
    assert m * p >= p;
  }

  lemma InfIsLargest(f: Flt)
    ensures Value(f) < CARRY * Pow2(255) && Value(INF) + Ulp(INF) == CARRY * Pow2(255)
  {
    assert Exponent(INF) == 255 && Mantissa(INF) == CARRY - 1;
    assert (CARRY - 1) * Pow2(255) + Pow2(255) == CARRY * Pow2(255);
    if f < INF { ValueGrows(f, INF); }
  }

  /** Cutting off keeps the order, and floats are their own truncation. */
  lemma TruncationIsMonotone(f: Flt, s: nat, g: Flt, t: nat)
    requires Truncates(f, s) && Truncates(g, t) && s <= t
    ensures f <= g
  {
    if g < f {
      ValueGrows(g, f);
      InfIsLargest(f);
    }
  }

  lemma TruncatesItself(f: Flt)
    ensures Truncates(f, Value(f))
  {
    InfIsLargest(f);
  }

  /** Adds the smaller to the larger number. */
  function AddLarger(a: Flt, b: Flt): (r: Flt)
    requires a >= b
  {
    if b == ZERO then a
    else
      var ma, ea := Mantissa(a), Exponent(a);
      var delta := ea - Exponent(b);
      var mb := if delta < 32 then Mantissa(b) / Pow2(delta) else 0;
      if mb == 0 then a
      else if ma + mb < CARRY then Pack(ma + mb - MSB, ea)
      else if ea == 255 then INF
      else Pack((ma + mb) / 2 - MSB, ea + 1)
  }

  function Add(a: Flt, b: Flt): Flt {
    if a < b then AddLarger(b, a) else AddLarger(a, b)
  }

  /** b in units of a's last place, with a remainder below one unit. */
  lemma Align(b: Flt, ea: nat) returns (q: nat, t: nat)
    requires b > 0 && Exponent(b) <= ea
    ensures Value(b) == q * Pow2(ea) + t && t < Pow2(ea)
    ensures q == if ea - Exponent(b) < 32 then Mantissa(b) / Pow2(ea - Exponent(b)) else 0
    ensures q <= Mantissa(b)
  {
    hide Pow2;
    var mb, eb := Mantissa(b), Exponent(b);
    var d := ea - eb;
    var p, u := Pow2(d), Pow2(eb);
    Pow2Add(d, eb);
    if d < 32 {
      q := mb / p;
    } else {
      q := 0;
      BigShift(d);
    }
    AlignParts(mb, p, u, q);
    t := (mb - q * p) * u;
  }

  lemma BigShift(d: nat)
    requires d >= 32
    ensures CARRY <= Pow2(d)
  {
    Pow2Mono(25, d);
    Pow25();
  }

  lemma Pow25()
    ensures Pow2(25) == CARRY && Pow2(24) == MSB
  {
    Pow2Add(5, 5);
    Pow2Add(10, 10);
    Pow2Add(20, 5);
    assert Pow2(5) == 32;
    assert Pow2(24) == Pow2(25) / 2;
  }

  lemma AlignParts(mb: nat, p: nat, u: nat, q: nat)
    requires p > 0 && u > 0 && (q == mb / p || (q == 0 && mb < p))
    ensures q * p <= mb && (mb - q * p) * u < p * u && mb * u == q * (p * u) + (mb - q * p) * u && q <= mb
  {
    DivideAgain(mb, p, q);
    var r := mb - q * p;
    Product(r, p, u);
    Distribute(q * p, r, u);
    Associate(q, p, u);
  }

  lemma DivideAgain(mb: nat, p: nat, q: nat)
    requires p > 0 && (q == mb / p || (q == 0 && mb < p))
    ensures q * p <= mb < q * p + p && q <= mb
  {
    if q == 0 {
      assert q * p == 0;
    } else {
      assert mb == (mb / p) * p + mb % p;
      Products(q, q, 1, p);
    }
  }

  lemma Distribute(x: nat, y: nat, u: nat)
    ensures (x + y) * u == x * u + y * u
  {
  }

  lemma Associate(x: nat, y: nat, u: nat)
    ensures (x * y) * u == x * (y * u)
  {
  }

  lemma Product(x: nat, y: nat, z: nat)
    requires x < y && z > 0
    ensures x * z < y * z
  {
  }

  /** The significand of a value built by Pack. */
  lemma PackValue(m: nat, e: nat)
    requires MSB <= m < CARRY && e <= 255 && (m > MSB || e > 0)
    ensures Value(Pack(m - MSB, e)) == m * Pow2(e) && Ulp(Pack(m - MSB, e)) == Pow2(e)
  {
  }

  /** A number with significand m (cut off after a remainder) at exponent e. */
  lemma PackTruncates(m: nat, e: nat, t: nat)
    requires MSB <= m < CARRY && e <= 255 && (m > MSB || e > 0) && t < Pow2(e)
    ensures Truncates(Pack(m - MSB, e), m * Pow2(e) + t)
  {
    hide Pow2;
    PackValue(m, e);
    Pow2Mono(e, 255);
    UnderTop(m, t, Pow2(e), Pow2(255));
  }

  lemma UnderTop(m: nat, t: nat, p: nat, top: nat)
    requires m < CARRY && t < p <= top
    ensures m * p <= m * p + t < m * p + p && m * p + t < CARRY * top
  {
    assert m * p + p == (m + 1) * p;
    Products(m + 1, CARRY, p, top);
  }

  /** After a carry the significand loses one more bit. */
  lemma CarryTruncates(m: nat, e: nat, t: nat)
    requires CARRY <= m < 2 * CARRY && e < 255 && t < Pow2(e)
    ensures Truncates(Pack(m / 2 - MSB, e + 1), m * Pow2(e) + t)
  {
    hide Truncates;
    CarrySplit(m, t, Pow2(e));
    PackTruncates(m / 2, e + 1, (m % 2) * Pow2(e) + t);
  }

  lemma CarrySplit(m: nat, t: nat, p: nat)
    requires t < p
    ensures m * p + t == (m / 2) * (2 * p) + ((m % 2) * p + t) && (m % 2) * p + t < 2 * p
  {
    var half, odd := m / 2, m % 2;
    assert m * p == (2 * half + odd) * p == (2 * half) * p + odd * p;
    assert (2 * half) * p == half * (2 * p);
    assert odd * p <= p;
  }

  lemma SaturatedAtTop(m: nat, t: nat)
    requires m >= CARRY
    ensures Truncates(INF, m * Pow2(255) + t)
  {
    hide Pow2;
    Products(CARRY, m, Pow2(255), Pow2(255));
  }

  /** The sum is exact up to cutting off. */
  lemma AddIsTruncatedSum(a: Flt, b: Flt)
    ensures Truncates(Add(a, b), Value(a) + Value(b))
  {
    if a < b {
      AddLargerIsTruncatedSum(b, a);
    } else {
      AddLargerIsTruncatedSum(a, b);
    }
  }

  lemma AddLargerIsTruncatedSum(a: Flt, b: Flt)
    requires a >= b
    ensures Truncates(AddLarger(a, b), Value(a) + Value(b))
  {
    hide Pow2, Truncates;
    if b == ZERO {
      TruncatesItself(a);
    } else {
      var ma, ea := Mantissa(a), Exponent(a);
      var q, t := Align(b, ea);
      assert Value(a) + Value(b) == (ma + q) * Pow2(ea) + t by {
        assert (ma + q) * Pow2(ea) == ma * Pow2(ea) + q * Pow2(ea);
      }
      AddCases(a, b, ma + q, ea, q, t);
    }
  }

  lemma AddCases(a: Flt, b: Flt, m: nat, ea: nat, q: nat, t: nat)
    requires a >= b > 0 && ea == Exponent(a) && m == Mantissa(a) + q && t < Pow2(ea) && q <= Mantissa(b)
    requires q == if ea - Exponent(b) < 32 then Mantissa(b) / Pow2(ea - Exponent(b)) else 0
    ensures Truncates(AddLarger(a, b), m * Pow2(ea) + t)
  {
    hide Pow2, Truncates;
    if m < CARRY {
      assert a == Pack(Mantissa(a) - MSB, ea);
      PackTruncates(m, ea, t);
    } else if ea == 255 {
      SaturatedAtTop(m, t);
    } else {
      CarryTruncates(m, ea, t);
    }
  }

  lemma AddCommutes(a: Flt, b: Flt)
    ensures Add(a, b) == Add(b, a)
  {
  }

  /** The sum is never below its operands, and grows with them. */
  lemma AddIsMonotone(a: Flt, b: Flt, a': Flt, b': Flt)
    requires a <= a' && b <= b'
    ensures Add(a, b) <= Add(a', b')
    ensures a <= Add(a, b) && b <= Add(a, b)
  {
    hide Truncates, Add;
    AddIsTruncatedSum(a, b);
    AddIsTruncatedSum(a', b');
    ValueIsMonotone(a, a');
    ValueIsMonotone(b, b');
    TruncationIsMonotone(Add(a, b), Value(a) + Value(b), Add(a', b'), Value(a') + Value(b'));
    TruncatesItself(a);
    TruncatesItself(b);
    TruncationIsMonotone(a, Value(a), Add(a, b), Value(a) + Value(b));
    TruncationIsMonotone(b, Value(b), Add(a, b), Value(a) + Value(b));
  }

  lemma ValueIsMonotone(f: Flt, g: Flt)
    requires f <= g
    ensures Value(f) <= Value(g)
  {
    if f < g { ValueGrows(f, g); }
  }

  /** Multiplies: the exponents add up, the product of the significands is cut off. */
  function Mul(a: Flt, b: Flt): Flt {
    if a == ZERO || b == ZERO then ZERO
    else
      var e := Exponent(a) + Exponent(b) - 104;
      if e > 255 then INF
      else if e < 0 then EPS
      else
        var accu := Mantissa(a) * Mantissa(b) / MSB;
        if accu < CARRY then Pack(Low(accu), e)
        else if e == 255 then INF
        else Pack(Low(accu / 2), e + 1)
  }

  /** Masks the top bit of a significand. */
  function Low(m: nat): (r: nat)
    ensures r < MSB
  {
    m % MSB
  }

  lemma Significands(a: Flt, b: Flt)
    ensures MSB <= Mantissa(a) * Mantissa(b) / MSB < 2 * CARRY
  {
    var x, y := Mantissa(a), Mantissa(b);
    Products(MSB, x, MSB, y);
    Products(x, CARRY - 1, y, CARRY - 1);
  }

  /** The one product that Pack cannot tell from zero: the smallest significand at the smallest exponent. */
  predicate Lost(a: Flt, b: Flt) {
    a != ZERO && b != ZERO && Exponent(a) + Exponent(b) == 104 && Mantissa(a) * Mantissa(b) / MSB == MSB
  }

  /** The exponents do not fall below the smallest one, and the product is not lost. */
  predicate MulInRange(a: Flt, b: Flt) {
    a != ZERO && b != ZERO && Exponent(a) + Exponent(b) >= 104 && !Lost(a, b)
  }

  /** The product of what two floats stand for, in units of two to the smallest exponent (which is -128, so that the
      product of their values is 2^128 times as much), without its fraction. */
  function ExactProduct(a: Flt, b: Flt): nat {
    ShiftDown(Value(a) * Value(b), 128)
  }

  function ShiftDown(x: nat, k: nat): nat {
    Quotient(x, Pow2(k))
  }

  function Quotient(x: nat, p: nat): nat
    requires p > 0
  {
    x / p
  }

  lemma UnitOfProducts()
    ensures Pow2(128) == MSB * Pow2(104)
  {
    hide Pow2;
    Pow25();
    Pow2Add(24, 104);
  }

  lemma ProductByParts(a: Flt, b: Flt)
    requires a != ZERO && b != ZERO && Exponent(a) + Exponent(b) >= 104
    ensures ExactProduct(a, b) == Mantissa(a) * Mantissa(b) * Pow2(Exponent(a) + Exponent(b) - 104) / MSB
  {
    hide Pow2;
    UnitOfProducts();
    ValuesMultiply(a, b);
    CancelFactor(Mantissa(a) * Mantissa(b) * Pow2(Exponent(a) + Exponent(b) - 104), MSB, Pow2(104));
  }

  lemma CancelFactor(x: nat, u: nat, k: nat)
    requires u > 0 && k > 0
    ensures u * k > 0 && (x * k) / (u * k) == x / u
  {
    var q, r := x / u, x % u;
    assert x == q * u + r;
    assert x * k == q * (u * k) + r * k by { Distribute(q * u, r, k); Associate(q, u, k); }
    Product(r, u, k);
    Product(0, u, k);
    Unique(x * k, u * k, q, r * k);
  }

  lemma ValuesMultiply(a: Flt, b: Flt)
    requires a != ZERO && b != ZERO && Exponent(a) + Exponent(b) >= 104
    ensures Value(a) * Value(b) == Mantissa(a) * Mantissa(b) * Pow2(Exponent(a) + Exponent(b) - 104) * Pow2(104)
  {
    hide Pow2;
    var x, y, e := Mantissa(a), Mantissa(b), Exponent(a) + Exponent(b) - 104;
    Pow2Add(Exponent(a), Exponent(b));
    Pow2Add(e, 104);
    Regroup(x, y, Pow2(Exponent(a)), Pow2(Exponent(b)));
    assert (x * y) * (Pow2(e) * Pow2(104)) == x * y * Pow2(e) * Pow2(104);
  }

  lemma DivSplit(product: nat, k: nat, p: nat, u: nat, t: nat)
    requires u > 0 && product == k * (p * u) + t && t < p * u
    ensures product / u == k * p + t / u && t / u < p
  {
    assert k * (p * u) == (k * p) * u;
    QuotientOf(k * p, t, u);
    SmallQuotient(t, p, u);
  }

  lemma SmallQuotient(t: nat, p: nat, u: nat)
    requires u > 0 && t < p * u
    ensures t / u < p
  {
    assert t == (t / u) * u + t % u;
    assert (t / u) * u < p * u;
  }

  lemma QuotientOf(n: nat, t: nat, u: nat)
    requires u > 0
    ensures (n * u + t) / u == n + t / u
  {
    var q, r := t / u, t % u;
    assert t == q * u + r;
    assert n * u + t == (n + q) * u + r;
    Unique(n * u + t, u, n + q, r);
  }

  lemma Unique(x: nat, u: nat, q: nat, r: nat)
    requires u > 0 && x == q * u + r && r < u
    ensures x / u == q
  {
    var d := x / u - q;
    assert x == (x / u) * u + x % u;
    assert d * u == r - x % u;
    FarFromZero(d, u);
  }

  lemma FarFromZero(d: int, u: nat)
    requires u > 0
    ensures d == 0 || d * u >= u || d * u + u <= 0
  {
  }

  /** The exact product: the cut-off significand at the result's exponent, and a remainder below one unit. */
  lemma MulParts(a: Flt, b: Flt, e: nat) returns (t: nat)
    requires a != ZERO && b != ZERO && e == Exponent(a) + Exponent(b) - 104
    ensures ExactProduct(a, b) == Mantissa(a) * Mantissa(b) / MSB * Pow2(e) + t && t < Pow2(e)
  {
    hide Pow2, ExactProduct;
    ProductByParts(a, b);
    var xy, p := Mantissa(a) * Mantissa(b), Pow2(e);
    Weigh(xy, xy / MSB, xy % MSB, p);
    DivSplit(xy * p, xy / MSB, p, MSB, (xy % MSB) * p);
    t := (xy % MSB) * p / MSB;
  }

  lemma Regroup(x: nat, y: nat, p: nat, q: nat)
    ensures (x * p) * (y * q) == (x * y) * (p * q)
  {
    assert (x * p) * (y * q) == ((x * p) * y) * q;
    assert (x * p) * y == (x * y) * p;
    assert ((x * y) * p) * q == (x * y) * (p * q);
  }

  lemma Weigh(xy: nat, accu: nat, low: nat, p: nat)
    requires xy == accu * MSB + low && low < MSB && p > 0
    ensures xy * p == accu * (p * MSB) + low * p && low * p < p * MSB
  {
    assert xy * p == (accu * MSB) * p + low * p;
    assert (accu * MSB) * p == accu * (p * MSB);
    Product(low, MSB, p);
  }

  /** In range the product is exact up to cutting off. */
  lemma MulIsTruncatedProduct(a: Flt, b: Flt)
    requires MulInRange(a, b)
    ensures Truncates(Mul(a, b), ExactProduct(a, b))
  {
    hide Pow2, Truncates;
    var e := Exponent(a) + Exponent(b) - 104;
    var t := MulParts(a, b, e);
    Significands(a, b);
    MulCases(a, b, e, Mantissa(a) * Mantissa(b) / MSB, t);
  }

  /** The exponents add up to one below the smallest, and the carry of the significands makes up for it, just so. */
  predicate JustBelow(a: Flt, b: Flt) {
    a != ZERO && b != ZERO && Exponent(a) + Exponent(b) == 103 && Mantissa(a) * Mantissa(b) / (2 * MSB) == MSB + 1
  }

  /** For which operands the product is right: the exact product cut off after its 25 leading bits. */
  lemma MulIsRight(a: Flt, b: Flt)
    ensures Truncates(Mul(a, b), ExactProduct(a, b)) <==> a == ZERO || b == ZERO || MulInRange(a, b) || JustBelow(a, b)
  {
    hide ExactProduct, Truncates;
    if a == ZERO || b == ZERO {
      NothingTruncates(a, b);
    } else if MulInRange(a, b) {
      MulIsTruncatedProduct(a, b);
    } else if Lost(a, b) {
      LostIsWrong(a, b);
    } else {
      EpsTruncates(ExactProduct(a, b));
      BelowRange(a, b);
    }
  }

  lemma NothingTruncates(a: Flt, b: Flt)
    requires a == ZERO || b == ZERO
    ensures Truncates(ZERO, ExactProduct(a, b))
  {
    hide Pow2;
    assert Value(a) * Value(b) == 0;
    NextPower(127);
    NextPower(255);
    ZeroTimes(Pow2(128));
    Unique(0, Pow2(128), 0, 0);
    NextPower(0);
  }

  lemma LostIsWrong(a: Flt, b: Flt)
    requires Lost(a, b)
    ensures ExactProduct(a, b) == MSB && !Truncates(Mul(a, b), ExactProduct(a, b))
  {
    var t := MulParts(a, b, 0);
    assert Pow2(0) == 1 && Mul(a, b) == ZERO && ExactProduct(a, b) == MSB;
    Pow2Mono(0, 255);
    Products(CARRY, CARRY, 1, Pow2(255));
  }

  /** The smallest number stands for one unit more than the product that is lost. */
  lemma EpsTruncates(s: nat)
    ensures Truncates(EPS, s) <==> s == MSB + 1
  {
    assert Mantissa(EPS) == MSB + 1 && Exponent(EPS) == 0 && Pow2(0) == 1;
    Pow2Mono(0, 255);
    Products(CARRY, CARRY, 1, Pow2(255));
  }

  lemma BelowRange(a: Flt, b: Flt)
    requires a != ZERO && b != ZERO && Exponent(a) + Exponent(b) < 104
    ensures ExactProduct(a, b) == MSB + 1 <==> JustBelow(a, b)
  {
    hide Pow2;
    var xy, t: nat := Mantissa(a) * Mantissa(b), Exponent(a) + Exponent(b);
    var d: nat := 104 - t;
    Regroup(Mantissa(a), Mantissa(b), Pow2(Exponent(a)), Pow2(Exponent(b)));
    Pow2Add(Exponent(a), Exponent(b));
    UnitOfProducts();
    Pow2Add(d, t);
    NextPower(d);
    NextPower(t);
    Associate(MSB, Pow2(d), Pow2(t));
    AtLeast(Pow2(d), 1, MSB);
    CancelFactor(xy, MSB * Pow2(d), Pow2(t));
    assert ExactProduct(a, b) == xy / (MSB * Pow2(d));
    if d == 1 {
      NextPower(0);
      BottomValue(1);
    } else {
      FarBelow(a, b, d);
    }
  }

  lemma FarBelow(a: Flt, b: Flt, d: nat)
    requires d >= 2
    ensures MSB * Pow2(d) > 0 && Mantissa(a) * Mantissa(b) / (MSB * Pow2(d)) < MSB
  {
    hide Pow2;
    var x, y := Mantissa(a), Mantissa(b);
    Products(x, CARRY - 1, y, CARRY - 1);
    Pow2Mono(2, d);
    Four();
    Products(MSB, MSB, 4, Pow2(d));
    Products(MSB, MSB, MSB * 4, MSB * Pow2(d));
    SmallQuotient(x * y, MSB, MSB * Pow2(d));
  }

  lemma Four()
    ensures Pow2(2) == 4
  {
    assert Pow2(2) == 2 * Pow2(1) && Pow2(1) == 2 * Pow2(0);
  }

  /** The test of the exponent comes before the carry: this product could be represented, but the smallest number,
      about half as large, is returned. */
  lemma MulTooSmall()
    ensures var a: Flt, b: Flt := 52 * MSB - 1, 53 * MSB - 1;
      Mul(a, b) == EPS && ExactProduct(a, b) == 2 * MSB - 2 && Truncates(MSB - 2, ExactProduct(a, b)) && Value(EPS) == MSB + 1
  {
    var a: Flt, b: Flt := 52 * MSB - 1, 53 * MSB - 1;
    hide Pow2;
    assert Exponent(a) == 51 && Exponent(b) == 52 && Mantissa(a) == Mantissa(b) == 2 * MSB - 1;
    TooSmallProduct(a, b);
    BottomValue(2 * MSB - 2);
    BottomValue(MSB + 1);
    PowerIsLarge(255);
    assert Exponent(MSB - 2) == 0 && Mantissa(MSB - 2) == 2 * MSB - 2;
  }

  lemma PowerIsLarge(e: nat)
    ensures CARRY * Pow2(e) >= CARRY
  {
    Pow2Mono(0, e);
    Products(CARRY, CARRY, 1, Pow2(e));
  }

  lemma TooSmallProduct(a: Flt, b: Flt)
    requires Exponent(a) == 51 && Exponent(b) == 52 && Mantissa(a) == Mantissa(b) == 2 * MSB - 1
    ensures ExactProduct(a, b) == 2 * MSB - 2
  {
    hide Pow2, Mantissa;
    var x: nat := 2 * MSB - 1;
    Regroup(x, x, Pow2(51), Pow2(52));
    Pow2Add(51, 52);
    Pow2Add(1, 103);
    BottomValue(1);
    NextPower(0);
    UnitOfProducts();
    Associate(MSB, 2, Pow2(103));
    NextPower(103);
    CancelFactor(x * x, MSB * 2, Pow2(103));
    Unique(x * x, MSB * 2, 2 * MSB - 2, 1);
  }

  lemma MulCases(a: Flt, b: Flt, e: nat, accu: nat, t: nat)
    requires MulInRange(a, b) && e == Exponent(a) + Exponent(b) - 104 && accu == Mantissa(a) * Mantissa(b) / MSB
    requires MSB <= accu < 2 * CARRY && t < Pow2(e)
    ensures Truncates(Mul(a, b), accu * Pow2(e) + t)
  {
    hide Pow2, Truncates;
    if e > 255 {
      AboveTop(accu, e, t);
    } else if accu < CARRY {
      assert Low(accu) == accu - MSB;
      PackTruncates(accu, e, t);
    } else if e == 255 {
      SaturatedAtTop(accu, t);
    } else {
      assert Low(accu / 2) == accu / 2 - MSB;
      CarryTruncates(accu, e, t);
    }
  }

  lemma AboveTop(m: nat, e: nat, t: nat)
    requires m >= MSB && e > 255
    ensures Truncates(INF, m * Pow2(e) + t)
  {
    Pow2Mono(256, e);
    assert Pow2(256) == 2 * Pow2(255);
    hide Pow2;
    Products(MSB, m, Pow2(256), Pow2(e));
    assert MSB * (2 * Pow2(255)) == CARRY * Pow2(255);
  }

  /** In range, larger factors give a product that is no smaller. */
  lemma MulIsMonotone(a: Flt, b: Flt, a': Flt, b': Flt)
    requires MulInRange(a, b) && a <= a' && b <= b'
    ensures Mul(a, b) <= Mul(a', b')
  {
    hide Pow2, Truncates, Mul, ExactProduct;
    StaysInRange(a, b, a', b');
    MulIsTruncatedProduct(a, b);
    MulIsTruncatedProduct(a', b');
    ProductIsMonotone(a, b, a', b');
    TruncationIsMonotone(Mul(a, b), ExactProduct(a, b), Mul(a', b'), ExactProduct(a', b'));
  }

  lemma ProductIsMonotone(a: Flt, b: Flt, a': Flt, b': Flt)
    requires a <= a' && b <= b'
    ensures ExactProduct(a, b) <= ExactProduct(a', b')
  {
    hide Pow2, Value, Mantissa;
    ValueIsMonotone(a, a');
    ValueIsMonotone(b, b');
    Products(Value(a), Value(a'), Value(b), Value(b'));
    NextPower(127);
    Quotients(Value(a) * Value(b), Value(a') * Value(b'), Pow2(128));
  }

  lemma Quotients(x: nat, y: nat, u: nat)
    requires u > 0 && x <= y
    ensures x / u <= y / u
  {
    assert x == (x / u) * u + x % u && y == (y / u) * u + y % u;
    FarFromZero(y / u - x / u, u);
    assert (y / u - x / u) * u == (y / u) * u - (x / u) * u;
  }

  lemma StaysInRange(a: Flt, b: Flt, a': Flt, b': Flt)
    requires MulInRange(a, b) && a <= a' && b <= b'
    ensures MulInRange(a', b')
  {
    if Exponent(a') + Exponent(b') == 104 {
      assert Mantissa(a) <= Mantissa(a') && Mantissa(b) <= Mantissa(b');
      Products(Mantissa(a), Mantissa(a'), Mantissa(b), Mantissa(b'));
      Quotients(Mantissa(a) * Mantissa(b), Mantissa(a') * Mantissa(b'), MSB);
      Significands(a, b);
    }
  }

  /** When the product reads as zero. */
  lemma MulIsZero(a: Flt, b: Flt)
    ensures Mul(a, b) == ZERO <==> a == ZERO || b == ZERO || Lost(a, b)
  {
    if a != ZERO && b != ZERO {
      Significands(a, b);
    }
  }

  /** Larger factors give a product that is no smaller, unless that product, and not the other one, is lost. */
  lemma MulIsMonotoneIff(a: Flt, b: Flt, a': Flt, b': Flt)
    requires a <= a' && b <= b'
    ensures Mul(a, b) <= Mul(a', b') <==> (Lost(a', b') ==> a == ZERO || b == ZERO || Lost(a, b))
  {
    MulIsZero(a, b);
    MulIsZero(a', b');
    if MulInRange(a, b) {
      if !Lost(a', b') {
        MulIsMonotone(a, b, a', b');
      }
    } else if a != ZERO && b != ZERO && !Lost(a, b) {
      assert Mul(a, b) == EPS;
    }
  }

  /** Such a pair of factors, one of them next to the other. */
  lemma MulNotMonotone()
    ensures var b: Flt := 52 * MSB; Mul(b - 1, b) == EPS && Mul(b, b) == ZERO && Lost(b, b)
  {
    var b: Flt := 52 * MSB;
    assert Exponent(b - 1) == 51 && Exponent(b) == 52 && Mantissa(b) == MSB;
  }

  /** A significand and an exponent, normalised. Below the smallest exponent the result is the smallest number; the one
      value that Pack cannot tell from zero is lost. */
  method Base2Flt(m0: nat, e0: nat) returns (r: Flt)
    requires m0 < 0x1_0000_0000 && e0 <= 255
    ensures m0 * Pow2(e0) > MSB ==> Truncates(r, m0 * Pow2(e0))
    ensures 0 < m0 * Pow2(e0) < MSB ==> r == EPS
    ensures m0 == 0 || m0 * Pow2(e0) == MSB ==> r == ZERO
  {
    hide Pow2, Truncates;
    if m0 == 0 {
      ZeroTimes(Pow2(e0));
      return ZERO;
    }
    var m, e := m0, e0;
    ghost var s, t: nat := m0 * Pow2(e0), 0;
    if m < MSB {
      while m < MSB
        invariant 0 < m < CARRY && e <= 255 && s == m * Pow2(e)
        decreases MSB - m
      {
        if e == 0 {
          BottomValue(m);
          return EPS;
        }
        ShiftUp(m, e);
        e := e - 1;
        m := m * 2;
      }
    } else {
      while m >= CARRY
        invariant m >= MSB && e <= 255 && s == m * Pow2(e) + t && t < Pow2(e)
        decreases m
      {
        if e == 255 {
          SaturatedAtTop(m, t);
          AtLeast(m, MSB + 1, Pow2(e));
          return INF;
        }
        CarrySplit(m, t, Pow2(e));
        NextPower(e);
        t := (m % 2) * Pow2(e) + t;
        e := e + 1;
        m := m / 2;
      }
    }
    r := Pack(Low(m), e);
    assert Low(m) == m - MSB;
    if m == MSB && e == 0 {
      BottomValue(m);
    } else {
      PackTruncates(m, e, t);
      AtLeast(m, MSB, Pow2(e));
      if m == MSB {
        NextPower(e - 1);
        AtLeast(m, MSB, 2);
        Products(MSB, MSB, 2, Pow2(e));
      } else {
        AtLeast(m, MSB + 1, Pow2(e));
      }
    }
  }

  lemma ZeroTimes(p: nat)
    ensures 0 * p == 0
  {
  }

  lemma BottomValue(m: nat)
    ensures m * Pow2(0) == m && Pow2(0) == 1
  {
  }

  lemma NextPower(e: nat)
    ensures Pow2(e + 1) == 2 * Pow2(e) && Pow2(e) >= 1
  {
  }

  lemma ShiftUp(m: nat, e: nat)
    requires e > 0
    ensures m * Pow2(e) == (m * 2) * Pow2(e - 1)
  {
    assert m * (2 * Pow2(e - 1)) == (m * 2) * Pow2(e - 1);
  }

  lemma AtLeast(m: nat, n: nat, p: nat)
    requires m >= n && p >= 1
    ensures m * p >= n
  {
    Products(n, m, 1, p);
  }
}
