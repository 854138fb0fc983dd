/** What the canary of a record detects, and what a journal looks like byte by byte. */
module Canary {
  import opened Arithmetic
  import opened Journal

  ghost predicate AreBytes(b: Bytes) {
    forall i :: 0 <= i < |b| ==> b[i] < 256
  }

  /** The canary is the constant of the format combined with both halves of the length. */
  lemma MagicHalves(len: nat)
    requires len < WORD
    ensures Xor(Xor(Magic(len), len / 0x1_0000), len % 0x1_0000) == 0x2a7c
  {
    assert len / 0x1_0000 % 0x1_0000 == len / 0x1_0000;
    XorBack(MAGIC, len % 0x1_0000);
    XorBack(Xor(MAGIC, len % 0x1_0000), len / 0x1_0000);
  }

  /** Lengths that differ in one half only have different canaries. */
  lemma MagicTellsHalves(a: nat, b: nat)
    requires a < WORD && b < WORD && a != b
    requires a / 0x1_0000 == b / 0x1_0000 || a % 0x1_0000 == b % 0x1_0000
    ensures Magic(a) != Magic(b)
  {
    hide Xor;
    var x, y, u, v := a % 0x1_0000, a / 0x1_0000, b % 0x1_0000, b / 0x1_0000;
    assert a == 0x1_0000 * y + x && b == 0x1_0000 * v + u;
    if y == v {
      XorCommutes(MAGIC, x);
      XorCommutes(MAGIC, u);
      XorTells(x, u, MAGIC);
      XorTells(Xor(MAGIC, x), Xor(MAGIC, u), y);
    } else {
      XorCommutes(Xor(MAGIC, x), y);
      XorCommutes(Xor(MAGIC, x), v);
      XorTells(y, v, Xor(MAGIC, x));
    }
  }

  lemma XorTells(a: nat, b: nat, c: nat)
    requires a != b
    ensures Xor(a, c) != Xor(b, c)
  {
    XorBack(a, c);
    XorBack(b, c);
  }

  /** Another value of one byte of a length gives another canary. */
  lemma MagicTellsBytes(b: Bytes, k: nat, x: nat)
    requires |b| == 4 && AreBytes(b) && k < 4 && x < 256 && x != b[k]
    ensures From32(b) < WORD && From32(b[k := x]) < WORD && Magic(From32(b)) != Magic(From32(b[k := x]))
  {
    hide Magic;
    HalvesOf32(b);
    HalvesOf32(b[k := x]);
    MagicTellsHalves(From32(b), From32(b[k := x]));
  }

  lemma HalvesOf32(b: Bytes)
    requires |b| == 4 && AreBytes(b)
    ensures From32(b) < WORD
    ensures From32(b) % 0x1_0000 == b[0] + 256 * b[1] && From32(b) / 0x1_0000 == b[2] + 256 * b[3]
  {
  }

  /** A file filled up with zeros has no record in it. */
  lemma ZerosAreBroken(bytes: Bytes, loads: Bytes -> bool)
    requires forall i :: 0 <= i < |bytes| ==> bytes[i] == 0
    ensures Decode(bytes, loads) == Broken
  {
    hide Magic;
    if |bytes| >= 8 {
      assert From16(bytes[2..4]) == 0 && From32(bytes[4..8]) == 0;
      MagicHalves(0);
    }
  }

  /** In a record that is accepted, one other byte in the canary or in the size, or in the canary at the end, is noticed. */
  lemma OneByteIsNoticed(bytes: Bytes, loads: Bytes -> bool, k: nat, x: nat)
    requires AreBytes(bytes) && Decode(bytes, loads) != Broken && k < |bytes| && x < 256 && x != bytes[k]
    requires |bytes| >= 8 ==> 2 <= k < 8 || 8 + From32(bytes[4..8]) <= k < 8 + From32(bytes[4..8]) + 2
    ensures Decode(bytes[k := x], loads) == Broken
  {
    hide Magic, Interpret, From16, From32;
    var size, other := From32(bytes[4..8]), bytes[k := x];
    if k < 4 {
      assert other[4..8] == bytes[4..8] && other[2..4] == bytes[2..4][k - 2 := x];
      Differ16(bytes[2..4], k - 2, x);
    } else if k < 8 {
      assert other[2..4] == bytes[2..4] && other[4..8] == bytes[4..8][k - 4 := x];
      MagicTellsBytes(bytes[4..8], k - 4, x);
    } else {
      assert other[2..4] == bytes[2..4] && other[4..8] == bytes[4..8];
      var here, there := bytes[8..8+size+2], other[8..8+size+2];
      assert there[size..size+2] == here[size..size+2][k - 8 - size := x];
      SubSlice(bytes, 8, 8 + size + 2, size, size + 2);
      assert AreBytes(bytes[8+size..8+size+2]);
      Differ16(here[size..size+2], k - 8 - size, x);
    }
  }

  lemma Differ16(b: Bytes, k: nat, x: nat)
    requires |b| == 2 && AreBytes(b) && k < 2 && x < 256 && x != b[k]
    ensures From16(b) != From16(b[k := x])
  {
  }

  /** A new journal, byte by byte. */
  lemma FreshBytes()
    ensures Encode(Record(RT_START, [])) == [0, 0, 0x7c, 0x2a, 0, 0, 0, 0, 0x7c, 0x2a]
  {
    hide Magic, Xor;
    MagicOf(0);
    XorZero(MAGIC);
  }

  /** A record with parameters: the length words come first, then what they measure. */
  lemma RecordBytes(a: nat, b: nat, c: nat)
    ensures Encode(Record(2, [[a], [b, c]])) ==
      [2, 2, 0x77, 0x2a, 11, 0, 0, 0, 1, 0, 0, 0, 2, 0, 0, 0, a, b, c, 0x77, 0x2a]
  {
    hide Magic, Size, Lens, Contents;
    TwoParams([a], [b, c]);
    MagicOfEleven();
  }

  lemma TwoParams(p: Bytes, q: Bytes)
    ensures Size([p, q]) == |p| + |q| + 8
    ensures Lens([p, q]) == Le32(|p| % WORD) + Le32(|q| % WORD) && Contents([p, q]) == p + q
  {
    hide Le32;
    assert [p, q][1..] == [q] && [q][1..] == [];
    assert Size([q]) == |q| + 4 && Lens([q]) == Le32(|q| % WORD) && Contents([q]) == q;
  }

  lemma MagicOf(len: nat)
    requires len < 0x1_0000
    ensures Magic(len) == Xor(MAGIC, len)
  {
    hide Xor;
    assert len % 0x1_0000 == len && len / 0x1_0000 % 0x1_0000 == 0;
    XorZero(Xor(MAGIC, len));
  }

  lemma MagicOfEleven()
    ensures Magic(11) == 0x2a77
  {
    hide Magic, Xor;
    MagicOf(11);
    XorStep(0x2a7c, 11);
    XorStep(0x153e, 5);
    XorStep(0xa9f, 2);
    XorStep(0x54f, 1);
    XorZero(0x2a7);
  }
}
