/** Random decisions: the generator, and the walk with a stride coprime to the number of variables. */
module RandomDecide {
  import opened Wrappers
  import opened Arithmetic

  const WORD := 0x1_0000_0000

  /** A linear congruential generator on machine words. */
  class Rng {
    var srng: nat

    constructor (seed: nat)
      requires seed < WORD
      ensures srng == seed
    {
      srng := seed;
    }

    method Next() returns (res: nat)
      requires srng < WORD
      modifies this
      ensures srng < WORD && res < WORD && res == old(srng)
      ensures srng == Follow(old(srng))
    {
      res := srng;
      srng := (srng * 1664525) % WORD;
      srng := (srng + 1013904223) % WORD;
    }

    /** A number between low and high, even when the size of that range wraps around to zero. */
    method Range(low: nat, high: nat) returns (res: nat)
      requires srng < WORD && low <= high < WORD
      modifies this
      ensures low <= res <= high && srng == Follow(old(srng)) < WORD
      ensures res == low + Scale(old(srng), (high - low + 1) % WORD)
    {
      var elements := (high - low + 1) % WORD;
      var r := Next();
      var tmp := r * elements;
      Scaled(r, elements);
      tmp := tmp / WORD;
      res := low + tmp;
    }
  }

  /** The state after a state of the generator. */
  function Follow(srng: nat): nat {
    (srng * 1664525 % WORD + 1013904223) % WORD
  }

  /** The upper half of the double-word product. */
  function Scale(r: nat, elements: nat): nat {
    r * elements / WORD
  }

  /** The product fits into a double word, and its upper half stays below the factor. */
  lemma Scaled(r: nat, elements: nat)
    requires r < WORD && elements < WORD
    ensures r * elements < WORD * WORD
    ensures if elements == 0 then r * elements / WORD == 0 else r * elements / WORD < elements
  {
    Products(r, WORD - 1, elements, WORD - 1);
    Products(r, WORD - 1, elements, elements);
  }

  /** The numbers of the generator are divided evenly: each value gets one interval of them, and none gets nothing. */
  lemma ScaleCovers(r: nat, elements: nat, t: nat)
    requires 0 < elements < WORD && t < elements
    ensures Scale(r, elements) == t <==> t * WORD <= r * elements < (t + 1) * WORD
    ensures exists q: nat :: q < WORD && Scale(q, elements) == t
  {
    Quotient(r * elements, WORD);
    if t * WORD <= r * elements < (t + 1) * WORD {
      Unique(r * elements, WORD, t);
    }
    var q := (t * WORD + elements - 1) / elements;
    Quotient(t * WORD + elements - 1, elements);
    assert q * elements <= t * WORD + elements - 1 < (q + 1) * elements == q * elements + elements;
    Unique(q * elements, WORD, t);
    Products(t + 1, elements, WORD, WORD);
    if q >= WORD {
      Products(WORD, q, elements, elements);
    }
    assert Scale(q, elements) == t;
  }

  function Times(d: nat, q: nat): nat {
    d * q
  }

  ghost predicate Divides(d: nat, n: nat) {
    d > 0 && exists q :: Times(d, q) == n
  }

  /** Integer combinations of a and b. */
  ghost predicate Combines(a: nat, b: nat, g: int) {
    exists x: int, y: int :: Combination(a, b, x, y) == g
  }

  ghost function Combination(a: nat, b: nat, x: int, y: int): int {
    x * a + y * b
  }

  lemma RemainderCombines(a0: nat, b0: nat, a: nat, b: nat)
    requires b > 0 && Combines(a0, b0, a) && Combines(a0, b0, b)
    ensures Combines(a0, b0, a % b)
  {
    var x, y :| Combination(a0, b0, x, y) == a;
    var u, v :| Combination(a0, b0, u, v) == b;
    var q := a / b;
    assert a % b == a - q * b;
    calc {
      Combination(a0, b0, x - q * u, y - q * v);
      (x - q * u) * a0 + (y - q * v) * b0;
      { Distribute(x, q, u, a0); Distribute(y, q, v, b0); }
      x * a0 - q * (u * a0) + (y * b0 - q * (v * b0));
      { assert q * (u * a0) + q * (v * b0) == q * (u * a0 + v * b0); }
      (x * a0 + y * b0) - q * (u * a0 + v * b0);
      a - q * b;
    }
  }

  lemma Distribute(x: int, q: int, u: int, a: int)
    ensures (x - q * u) * a == x * a - q * (u * a)
  {
    assert (x - q * u) * a == x * a - (q * u) * a;
    assert (q * u) * a == q * (u * a);
  }

  lemma ArgumentsCombine(a: nat, b: nat)
    ensures Combines(a, b, a) && Combines(a, b, b)
  {
    assert Combination(a, b, 1, 0) == a && Combination(a, b, 0, 1) == b;
  }

  /** What divides a and b divides a0 and b0. */
  ghost predicate Keeps(a0: nat, b0: nat, a: nat, b: nat) {
    forall d :: Divides(d, a) && Divides(d, b) ==> Divides(d, a0) && Divides(d, b0)
  }

  lemma KeepsStep(a0: nat, b0: nat, a: nat, b: nat)
    requires b > 0 && Keeps(a0, b0, a, b)
    ensures Keeps(a0, b0, b, a % b)
  {
    hide Divides;
    forall d | Divides(d, b) && Divides(d, a % b)
      ensures Divides(d, a)
    {
      DividesSum(d, a, b);
    }
  }

  lemma KeepsEnd(a0: nat, b0: nat, a: nat)
    requires a > 0 && Keeps(a0, b0, a, 0)
    ensures Divides(a, a0) && Divides(a, b0)
  {
    assert Times(a, 1) == a && Times(a, 0) == 0;
    assert Divides(a, a) && Divides(a, 0);
  }

  /** Euclid's algorithm: the result combines the arguments and divides them. */
  method Gcd(a0: nat, b0: nat) returns (a: nat)
    requires a0 > 0 && b0 > 0
    ensures a > 0 && Combines(a0, b0, a) && (a0 == 1 || b0 == 1 ==> a == 1)
    ensures Divides(a, a0) && Divides(a, b0)
  {
    a := a0;
    var b: nat := b0;
    ArgumentsCombine(a0, b0);
    assert Keeps(a0, b0, a0, b0) && Keeps(a0, b0, b0, a0);
    hide Divides, Combines, Keeps;
    if a < b {
      a, b := b, a;
    }
    while b != 0
      invariant a >= b && a > 0 && Combines(a0, b0, a) && Combines(a0, b0, b) && Keeps(a0, b0, a, b)
      invariant a0 == 1 || b0 == 1 ==> a == 1 || b == 1
      decreases b
    {
      RemainderCombines(a0, b0, a, b);
      KeepsStep(a0, b0, a, b);
      a, b := b, a % b;
    }
    KeepsEnd(a0, b0, a);
  }

  lemma DividesSum(d: nat, a: nat, b: nat)
    requires b > 0 && Divides(d, b) && Divides(d, a % b)
    ensures Divides(d, a)
  {
    hide Times;
    var q :| Times(d, q) == b;
    var r :| Times(d, r) == a % b;
    var k, m := a / b, a % b;
    Division(a, b);
    Recompose(a, b, k, m, d, q, r);
  }

  lemma Division(a: nat, b: nat)
    requires b > 0
    ensures a == (a / b) * b + a % b
  {
  }

  lemma Recompose(a: nat, b: nat, k: nat, m: nat, d: nat, q: nat, r: nat)
    requires a == k * b + m && b == Times(d, q) && m == Times(d, r)
    ensures Times(d, k * q + r) == a
  {
    Factor(d, k, q, r);
    assert k * b == k * (d * q);
  }

  lemma Factor(d: nat, k: nat, q: nat, r: nat)
    ensures k * (d * q) + d * r == d * (k * q + r)
  {
    assert k * (d * q) == d * (k * q);
  }

  /** One step of the walk over 1..n. */
  function Step(idx: nat, delta: nat, n: nat): nat
    requires 0 < delta <= n && 0 < idx <= n
  {
    if idx + delta > n then idx + delta - n else idx + delta
  }

  function After(idx: nat, delta: nat, n: nat, k: nat): (r: nat)
    requires 0 < delta <= n && 0 < idx <= n
    ensures 0 < r <= n
  {
    if k == 0 then idx else Step(After(idx, delta, n, k - 1), delta, n)
  }

  lemma {:induction false} AfterForm(idx: nat, delta: nat, n: nat, k: nat) returns (q: int)
    requires 0 < delta <= n && 0 < idx <= n
    ensures After(idx, delta, n, k) == idx + k * delta - q * n
  {
    if k == 0 {
      q := 0;
    } else {
      q := AfterForm(idx, delta, n, k - 1);
      if After(idx, delta, n, k - 1) + delta > n {
        q := q + 1;
      }
    }
  }

  lemma SameResidue(a: int, b: int, n: int, w: int)
    requires 0 < a <= n && 0 < b <= n && a - b == n * w
    ensures a == b
  {
    FarMultiple(n, w);
  }

  lemma FarMultiple(n: int, w: int)
    requires n > 0
    ensures w == 0 || n * w >= n || n * w <= -n
  {
  }

  /** A stride coprime to n reaches every index. */
  lemma Visits(idx: nat, delta: nat, n: nat, target: nat) returns (k: nat)
    requires 0 < delta <= n && 0 < idx <= n && 0 < target <= n && Combines(delta, n, 1)
    ensures After(idx, delta, n, k) == target
  {
    var x, y :| Combination(delta, n, x, y) == 1;
    var d: int := target - idx;
    k := (d * x) % n;
    var z := (d * x) / n;
    Multiply(d, x, y, delta, n);
    assert d * x == z * n + k;
    Regroup(d * x, z, k, delta, n);
    var q := AfterForm(idx, delta, n, k);
    var u, v := d * y, z * delta;
    Collect(n, u, v, q);
    SameResidue(After(idx, delta, n, k), target, n, -(u + v + q));
  }

  /** The inverse of delta modulo n, times d. */
  lemma Multiply(d: int, x: int, y: int, delta: int, n: int)
    requires x * delta + y * n == 1
    ensures (d * x) * delta == d - n * (d * y)
  {
    calc {
      (d * x) * delta;
      d * (x * delta);
      d * (1 - y * n);
      d - d * (y * n);
      { assert d * (y * n) == n * (d * y); }
      d - n * (d * y);
    }
  }

  lemma Regroup(e: int, z: int, k: int, delta: int, n: int)
    requires e == z * n + k
    ensures k * delta == e * delta - n * (z * delta)
  {
    assert k * delta == (e - z * n) * delta == e * delta - (z * n) * delta;
    assert (z * n) * delta == n * (z * delta);
  }

  lemma Collect(n: int, u: int, v: int, q: int)
    ensures -(n * u) - n * v - q * n == n * -(u + v + q)
  {
  }

  /** The first step at which the walk is at an unassigned index. */
  lemma FirstFree(idx: nat, delta: nat, n: nat, taken: set<nat>, k: nat) returns (first: nat)
    requires 0 < delta <= n && 0 < idx <= n && After(idx, delta, n, k) !in taken && idx in taken
    ensures 0 < first <= k && After(idx, delta, n, first) !in taken
    ensures forall j :: 0 <= j < first ==> After(idx, delta, n, j) in taken
  {
    first := 0;
    while After(idx, delta, n, first) in taken
      invariant first <= k && forall j :: 0 <= j < first ==> After(idx, delta, n, j) in taken
      decreases k - first
    {
      first := first + 1;
    }
  }

  /** The walk starts at idx, which is assigned, and stops at the first index that is not. */
  ghost predicate StopsAt(idx: nat, delta: nat, n: nat, taken: set<nat>, r: nat)
    requires 0 < delta <= n && 0 < idx <= n
  {
    exists k: nat :: k > 0 && After(idx, delta, n, k) == r && r !in taken && forall j :: 0 <= j < k ==> After(idx, delta, n, j) in taken
  }

  /** The largest stride up to d that is coprime to n. */
  ghost predicate IsStride(d: nat, n: nat, delta: nat) {
    0 < delta <= d <= n && Combines(delta, n, 1) && forall e :: delta < e <= d ==> !Combines(e, n, 1)
  }

  /** Which variable three numbers of the generator pick. */
  ghost predicate Picks(maxVar: nat, taken: set<nat>, first: nat, second: nat, r: nat)
    requires 0 < first <= maxVar
  {
    if first !in taken then r == first
    else exists delta :: IsStride(second, maxVar, delta) && StopsAt(first, delta, maxVar, taken, r)
  }

  lemma CoprimeDivisor(a: nat, b: nat, g: nat)
    requires Divides(g, a) && Divides(g, b) && Combines(a, b, 1)
    ensures g == 1
  {
    var p :| Times(g, p) == a;
    var q :| Times(g, q) == b;
    var x, y :| Combination(a, b, x, y) == 1;
    OneFactor(g, p, q, x, y);
  }

  lemma OneFactor(g: nat, p: nat, q: nat, x: int, y: int)
    requires x * (g * p) + y * (g * q) == 1
    ensures g == 1
  {
    var z := x * p + y * q;
    assert x * (g * p) == g * (x * p) && y * (g * q) == g * (y * q);
    assert g * z == g * (x * p) + g * (y * q);
    if g > 1 {
      FarMultiple(g, z);
    }
  }

  /** Picks a random unassigned variable, once in a while. */
  method Rdecide(rng: Rng, maxVar: nat, taken: set<nat>, spread: nat) returns (r: Option<nat>)
    requires rng.srng < WORD && 0 < spread < WORD && 0 < maxVar < 0x8000_0000
    requires exists v :: 0 < v <= maxVar && v !in taken
    modifies rng
    ensures rng.srng < WORD && (r.Some? ==> 0 < r.value <= maxVar && r.value !in taken)
    ensures r.Some? <==> Scale(old(rng.srng), spread) == 1
    ensures r.Some? ==> var s := Follow(old(rng.srng));
      var first, second := 1 + Scale(s, maxVar), 1 + Scale(Follow(s), maxVar);
      0 < first <= maxVar && Picks(maxVar, taken, first, second, r.value)
  {
    hide Combines, Divides, Scale, Follow;
    var dice := rng.Range(1, spread);
    if dice != 2 {
      return None;
    }
    var idx := rng.Range(1, maxVar);
    if idx in taken {
      var delta := rng.Range(1, maxVar);
      ghost var d := delta;
      var g := Gcd(delta, maxVar);
      while g != 1
        invariant rng.srng < WORD && 0 < delta <= d <= maxVar && (delta == 1 ==> g == 1) && Combines(delta, maxVar, g)
        invariant Divides(g, delta) && Divides(g, maxVar) && forall e :: delta < e <= d ==> !Combines(e, maxVar, 1)
        decreases delta
      {
        if Combines(delta, maxVar, 1) { CoprimeDivisor(delta, maxVar, g); }
        delta := delta - 1;
        g := Gcd(delta, maxVar);
      }
      ghost var first := idx;
      idx := Walk(idx, delta, maxVar, taken);
      assert IsStride(d, maxVar, delta) && StopsAt(first, delta, maxVar, taken, idx);
    }
    r := Some(idx);
  }

  /** Walks until an unassigned index is met. */
  method Walk(start: nat, delta: nat, n: nat, taken: set<nat>) returns (idx: nat)
    requires 0 < delta <= n && 0 < start <= n && start in taken && Combines(delta, n, 1)
    requires exists v :: 0 < v <= n && v !in taken
    ensures 0 < idx <= n && idx !in taken && StopsAt(start, delta, n, taken, idx)
  {
    ghost var v: nat :| 0 < v <= n && v !in taken;
    ghost var k := Visits(start, delta, n, v);
    ghost var first := FirstFree(start, delta, n, taken, k);
    idx := start;
    ghost var j: nat := 0;
    while idx in taken
      invariant j <= first && 0 < idx <= n && idx == After(start, delta, n, j)
      decreases first - j
    {
      idx := idx + delta;
      if idx > n {
        idx := idx - n;
      }
      j := j + 1;
    }
  }
}
