/** Antecedent chains: sorted clause indices stored as 7-bit deltas with a zero byte at the end. */
module Zhain {
  import opened Sequences

  const WORD := 0x1_0000_0000

  /** Strictly increasing, and all above prev. */
  predicate Increasing(prev: nat, xs: seq<nat>) {
    (forall i :: 0 <= i < |xs| ==> prev < xs[i]) && (forall i, j :: 0 <= i < j < |xs| ==> xs[i] < xs[j])
  }

  /** Low seven bits first; every byte but the last has its top bit set. */
  function Varint(u: nat): seq<nat> {
    if u < 128 then [u] else [128 + u % 128] + Varint(u / 128)
  }

  function Deltas(prev: nat, xs: seq<nat>): seq<nat>
    requires Increasing(prev, xs)
    decreases |xs|
  {
    if xs == [] then [] else Varint(xs[0] - prev) + Deltas(xs[0], xs[1..])
  }

  function Encode(xs: seq<nat>): seq<nat>
    requires Increasing(0, xs)
  {
    Deltas(0, xs) + [0]
  }

  /** Reads indices up to the first zero byte; scale is the weight of the next byte of the current delta. */
  function DecodeFrom(bytes: seq<nat>, prev: nat, delta: nat, scale: nat): seq<nat>
    decreases |bytes|
  {
    if bytes == [] || bytes[0] == 0 then []
    else
      var d := delta + (bytes[0] % 128) * scale;
      if bytes[0] >= 128 then DecodeFrom(bytes[1..], prev, d, scale * 128)
      else [prev + d] + DecodeFrom(bytes[1..], prev + d, 0, 1)
  }

  function Decode(bytes: seq<nat>): seq<nat> {
    DecodeFrom(bytes, 0, 0, 1)
  }

  lemma SplitScale(u: nat, scale: nat)
    ensures (u % 128) * scale + (u / 128) * (scale * 128) == u * scale
  {
    assert u == u % 128 + 128 * (u / 128);
    calc {
      (u % 128) * scale + (u / 128) * (scale * 128);
      (u % 128) * scale + (128 * (u / 128)) * scale;
      (u % 128 + 128 * (u / 128)) * scale;
    }
  }

  lemma IncreasingTail(prev: nat, xs: seq<nat>)
    requires Increasing(prev, xs) && xs != []
    ensures prev < xs[0] && Increasing(xs[0], xs[1..])
  {
  }

  /** One step of the decoder. */
  lemma DecodeByte(b: nat, tail: seq<nat>, prev: nat, delta: nat, scale: nat)
    requires b != 0
    ensures DecodeFrom([b] + tail, prev, delta, scale) ==
              var d := delta + (b % 128) * scale;
              if b >= 128 then DecodeFrom(tail, prev, d, scale * 128) else [prev + d] + DecodeFrom(tail, prev + d, 0, 1)
  {
    assert ([b] + tail)[1..] == tail;
  }

  lemma {:induction false} DecodeVarint(u: nat, tail: seq<nat>, prev: nat, delta: nat, scale: nat)
    requires u > 0
    ensures DecodeFrom(Varint(u) + tail, prev, delta, scale)
         == [prev + delta + u * scale] + DecodeFrom(tail, prev + delta + u * scale, 0, 1)
    decreases u
  {
    if u < 128 {
      DecodeByte(u, tail, prev, delta, scale);
    } else {
      var b, rest := 128 + u % 128, Varint(u / 128) + tail;
      assert Varint(u) + tail == [b] + rest;
      assert b % 128 == u % 128;
      DecodeByte(b, rest, prev, delta, scale);
      SplitScale(u, scale);
      DecodeVarint(u / 128, tail, prev, delta + (u % 128) * scale, scale * 128);
    }
  }

  lemma {:induction false} DecodeDeltas(prev: nat, xs: seq<nat>, tail: seq<nat>)
    requires Increasing(prev, xs)
    ensures DecodeFrom(Deltas(prev, xs) + [0] + tail, prev, 0, 1) == xs
    decreases |xs|
  {
    hide Increasing;
    if xs != [] {
      IncreasingTail(prev, xs);
      var first, rest := Varint(xs[0] - prev), Deltas(xs[0], xs[1..]) + [0] + tail;
      assert Deltas(prev, xs) == first + Deltas(xs[0], xs[1..]);
      assert Deltas(prev, xs) + [0] + tail == first + rest;
      DecodeVarint(xs[0] - prev, rest, prev, 0, 1);
      DecodeDeltas(xs[0], xs[1..], tail);
      assert xs == [xs[0]] + xs[1..];
    }
  }

  /** Decoding gives back what was encoded, whatever memory follows the terminator. */
  lemma RoundTrip(xs: seq<nat>, tail: seq<nat>)
    requires Increasing(0, xs)
    ensures Decode(Encode(xs) + tail) == xs
  {
    DecodeDeltas(0, xs, tail);
  }

  lemma {:induction false} VarintBytes(u: nat, i: nat)
    requires u > 0 && i < |Varint(u)|
    ensures 0 < Varint(u)[i] < 256
    decreases u
  {
    if u >= 128 && i > 0 {
      VarintBytes(u / 128, i - 1);
    }
  }

  /** The terminator is the only zero byte. */
  lemma {:induction false} DeltasBytes(prev: nat, xs: seq<nat>, i: nat)
    requires Increasing(prev, xs) && i < |Deltas(prev, xs)|
    ensures 0 < Deltas(prev, xs)[i] < 256
    decreases |xs|
  {
    var first := Varint(xs[0] - prev);
    if i < |first| {
      VarintBytes(xs[0] - prev, i);
    } else {
      DeltasBytes(xs[0], xs[1..], i - |first|);
    }
  }

  /** Pushes one delta onto the byte buffer. */
  method PushDelta(buffer: seq<nat>, delta: nat) returns (r: seq<nat>)
    ensures r == buffer + Varint(delta)
  {
    r := buffer;
    var u := delta;
    while u >= 128
      invariant r + Varint(u) == buffer + Varint(delta)
    {
      r := r + [128 + u % 128];
      u := u / 128;
    }
    r := r + [u];
  }

  function Last(prev: nat, xs: seq<nat>): nat {
    if xs == [] then prev else xs[|xs| - 1]
  }

  lemma IncreasingParts(prev: nat, xs: seq<nat>, x: nat)
    requires Increasing(prev, xs + [x])
    ensures Increasing(prev, xs) && Last(prev, xs) < x
    ensures xs != [] ==> (xs + [x])[1..] == xs[1..] + [x] && Last(xs[0], xs[1..]) == Last(prev, xs)
  {
    var ys := xs + [x];
    assert ys[|xs|] == x;
    assert forall i :: 0 <= i < |xs| ==> xs[i] == ys[i];
  }

  lemma {:induction false} DeltasAppend(prev: nat, xs: seq<nat>, x: nat)
    requires Increasing(prev, xs) && Increasing(prev, xs + [x]) && Last(prev, xs) < x
    ensures Deltas(prev, xs + [x]) == Deltas(prev, xs) + Varint(x - Last(prev, xs))
    decreases |xs|
  {
    hide Increasing;
    IncreasingParts(prev, xs, x);
    IncreasingTail(prev, xs + [x]);
    if xs == [] {
      assert xs + [x] == [x];
    } else {
      IncreasingTail(prev, xs);
      DeltasAppend(xs[0], xs[1..], x);
      assert (xs + [x])[0] == xs[0];
    }
  }

  /** Sorts the indices (insertion sort stands for the source's sorting macro). */
  method SortIds(xs: seq<nat>) returns (r: seq<nat>)
    requires NoDup(xs)
    ensures forall i, j :: 0 <= i < j < |r| ==> r[i] < r[j]
    ensures Elements(r) == Elements(xs)
  {
    r := [];
    for n := 0 to |xs|
      invariant forall i, j :: 0 <= i < j < |r| ==> r[i] < r[j]
      invariant Elements(r) == Elements(xs[..n])
    {
      var k := 0;
      while k < |r| && r[k] < xs[n]
        invariant k <= |r| && forall i :: 0 <= i < k ==> r[i] < xs[n]
      {
        k := k + 1;
      }
      assert xs[n] !in xs[..n];
      assert k < |r| ==> r[k] in Elements(r);
      ghost var before := r;
      r := r[..k] + [xs[n]] + r[k..];
      assert xs[..n+1] == xs[..n] + [xs[n]];
      InsertElements(before, k, xs[n]);
    }
    assert xs[..|xs|] == xs;
  }

  lemma InsertElements(r: seq<nat>, k: nat, x: nat)
    requires k <= |r|
    ensures Elements(r[..k] + [x] + r[k..]) == Elements(r) + {x}
  {
    assert r == r[..k] + r[k..];
  }

  /** One more index: its delta to the one before is appended. */
  lemma NextToEncode(xs: seq<nat>, i: nat)
    requires Increasing(0, xs) && i < |xs|
    ensures Increasing(0, xs[..i]) && Increasing(0, xs[..i+1])
    ensures Last(0, xs[..i]) < xs[i] && Last(0, xs[..i+1]) == xs[i]
    ensures Deltas(0, xs[..i+1]) == Deltas(0, xs[..i]) + Varint(xs[i] - Last(0, xs[..i]))
  {
    hide Deltas, Varint;
    assert xs[..i+1] == xs[..i] + [xs[i]];
    IncreasingParts(0, xs[..i], xs[i]);
    DeltasAppend(0, xs[..i], xs[i]);
  }

  lemma NoneEncoded(xs: seq<nat>)
    ensures xs[..0] == [] && Increasing(0, xs[..0]) && Deltas(0, xs[..0]) == [] && Last(0, xs[..0]) == 0
    ensures xs[..|xs|] == xs
  {
  }

  /** Encodes a sorted list of indices, one delta after the other. */
  method EncodeSorted(xs: seq<nat>) returns (znt: seq<nat>)
    requires Increasing(0, xs)
    ensures znt == Encode(xs)
  {
    hide Increasing, Deltas, Varint, Last;
    var prev := 0;
    znt := [];
    NoneEncoded(xs);
    for i := 0 to |xs|
      invariant Increasing(0, xs[..i]) && znt == Deltas(0, xs[..i]) && prev == Last(0, xs[..i])
    {
      NextToEncode(xs, i);
      znt := PushDelta(znt, xs[i] - prev);
      prev := xs[i];
    }
    znt := znt + [0];
  }

  /** A well-formed chain. */
  ghost predicate Encoded(znt: seq<nat>) {
    exists xs :: Increasing(0, xs) && znt == Encode(xs)
  }

  /** Builds the chain of the antecedents: sorted, encoded, terminated. */
  method AddZhain(resolved: seq<nat>) returns (znt: seq<nat>)
    requires NoDup(resolved) && 0 !in resolved
    ensures Elements(Decode(znt)) == Elements(resolved) && Encoded(znt)
  {
    var xs := SortIds(resolved);
    assert forall i :: 0 <= i < |xs| ==> xs[i] in Elements(resolved);
    znt := EncodeSorted(xs);
    RoundTrip(xs, []);
    assert znt + [] == znt;
  }

  /** The size to free is found by running to the first zero byte; it is the size that was allocated. */
  method DeleteZhainSize(znt: seq<nat>) returns (count: nat)
    requires exists k :: 0 <= k < |znt| && znt[k] == 0
    ensures 0 < count <= |znt| && znt[count - 1] == 0 && forall i :: 0 <= i < count - 1 ==> znt[i] != 0
  {
    var p := 0;
    while znt[p] != 0
      invariant p < |znt| && forall i :: 0 <= i < p ==> znt[i] != 0
      invariant exists k :: p <= k < |znt| && znt[k] == 0
      decreases |znt| - p
    {
      p := p + 1;
    }
    count := p + 1;
  }

  /** Freeing looks past nothing: the first zero byte of an encoded chain is its last byte. */
  lemma FreedIsAllocated(xs: seq<nat>, tail: seq<nat>, count: nat)
    requires Increasing(0, xs)
    requires 0 < count <= |Encode(xs) + tail| && (Encode(xs) + tail)[count - 1] == 0
    requires forall i :: 0 <= i < count - 1 ==> (Encode(xs) + tail)[i] != 0
    ensures count == |Encode(xs)|
  {
    var n := |Deltas(0, xs)|;
    assert (Encode(xs) + tail)[n] == 0;
    if count - 1 < n {
      DeltasBytes(0, xs, count - 1);
    }
  }

  /** Indices fit into 31 bits. */
  predicate Small(xs: seq<nat>) {
    forall i :: 0 <= i < |xs| ==> xs[i] < 0x8000_0000
  }

  /** The weights that the shifts 0, 7, 14, 21 and 28 stand for. */
  predicate IsWeight(scale: nat) {
    scale == 1 || scale == 0x80 || scale == 0x4000 || scale == 0x20_0000 || scale == 0x1000_0000
  }

  /** The decoder's place in a chain: n indices are out, and of the next delta the part delta is known; the rest of it,
      u times the weight of the next byte, is what the coming bytes say. */
  ghost predicate Decoding(xs: seq<nat>, rest: seq<nat>, n: nat, bytes: seq<nat>, prev: nat, delta: nat, scale: nat, u: nat) {
    && n <= |xs| && Increasing(0, xs) && IsWeight(scale) && delta < scale
    && (if n == |xs| then delta == 0 && scale == 1 && bytes == rest
        else 0 < u && Increasing(prev, xs[n..]) && delta + u * scale == xs[n] - prev
             && Increasing(xs[n], xs[n+1..]) && bytes == Varint(u) + (Deltas(xs[n], xs[n+1..]) + rest))
  }

  lemma NextDelta(xs: seq<nat>, rest: seq<nat>, n: nat, prev: nat)
    requires n <= |xs| && Increasing(0, xs) && Increasing(prev, xs[n..])
    ensures n < |xs| ==> prev < xs[n]
    ensures Decoding(xs, rest, n, Deltas(prev, xs[n..]) + rest, prev, 0, 1, if n < |xs| then xs[n] - prev else 0)
  {
    if n < |xs| {
      IncreasingTail(prev, xs[n..]);
      assert xs[n..][1..] == xs[n+1..];
      assert Deltas(prev, xs[n..]) + rest == Varint(xs[n] - prev) + (Deltas(xs[n], xs[n+1..]) + rest);
    } else {
      assert Deltas(prev, xs[n..]) + rest == rest;
    }
  }

  /** What a byte adds to the delta. */
  function Part(b: nat, scale: nat): nat {
    (b % 128) * scale
  }

  /** One byte: the sum does not overflow, and the bits it adds are new. */
  lemma DecodeStep(xs: seq<nat>, rest: seq<nat>, n: nat, bytes: seq<nat>, prev: nat, delta: nat, scale: nat, u: nat)
    requires Decoding(xs, rest, n, bytes, prev, delta, scale, u) && n < |xs| && Small(xs)
    ensures bytes != [] && bytes[0] != 0
    ensures var d := delta + Part(bytes[0], scale);
      d < 0x8000_0000 && xs[n] < 0x8000_0000 &&
      if bytes[0] >= 128 then Decoding(xs, rest, n, bytes[1..], prev, d, scale * 128, u / 128)
      else prev + d == xs[n] && bytes[1..] == Deltas(xs[n], xs[n+1..]) + rest
  {
    var tail := Deltas(xs[n], xs[n+1..]) + rest;
    if u < 128 {
      assert bytes == [u] + tail;
      assert bytes[1..] == tail;
    } else {
      var low, high := u % 128, u / 128;
      assert bytes == [128 + low] + (Varint(high) + tail);
      assert bytes[0] % 128 == low && bytes[1..] == Varint(high) + tail;
      SplitScale(u, scale);
      WeightGrows(delta, low, high, scale, xs[n] - prev);
    }
  }

  lemma WeightGrows(delta: nat, low: nat, high: nat, scale: nat, total: nat)
    requires IsWeight(scale) && delta < scale && low < 128 && high > 0 && total < 0x8000_0000
    requires delta + low * scale + high * (scale * 128) == total
    ensures IsWeight(scale * 128) && delta + low * scale < scale * 128 && delta + low * scale < 0x8000_0000
  {
    assert high * (scale * 128) >= scale * 128;
    assert low * scale <= 127 * scale;
  }

  /** A zero byte comes exactly when all indices are out. */
  lemma DecodingHead(xs: seq<nat>, n: nat, bytes: seq<nat>, prev: nat, delta: nat, scale: nat, u: nat)
    requires Decoding(xs, [0], n, bytes, prev, delta, scale, u)
    ensures n <= |xs| && bytes != [] && (bytes[0] == 0 <==> n == |xs|)
  {
    if n < |xs| {
      VarintBytes(u, 0);
      assert bytes[0] == Varint(u)[0];
    }
  }

  lemma IncreasingFrom(xs: seq<nat>, n: nat)
    requires Increasing(0, xs) && 0 < n <= |xs|
    ensures Increasing(xs[n-1], xs[n..])
  {
  }

  lemma EncodedAs(xs: seq<nat>, znt: seq<nat>)
    requires Increasing(0, xs) && znt == Encode(xs)
    ensures xs[0..] == xs && znt != [] && znt[0..] == Deltas(0, xs) + [0]
  {
  }

  /** The traversal's decoder, on machine words: the sum stands for the bitwise or of bits that are apart. */
  method DecodeWords(znt: seq<nat>, ghost xs: seq<nat>) returns (out: seq<nat>)
    requires Increasing(0, xs) && Small(xs) && znt == Encode(xs)
    ensures out == xs
  {
    hide Decoding, Varint, Deltas, Increasing, Small, IsWeight, Part, Encode;
    var p: nat, prev: nat, delta: nat, scale: nat := 0, 0, 0, 1;
    ghost var n: nat, u: nat := 0, if xs == [] then 0 else xs[0];
    out := [];
    EncodedAs(xs, znt);
    NextDelta(xs, [0], 0, 0);
    DecodingHead(xs, n, znt[p..], prev, delta, scale, u);
    while znt[p] != 0
      invariant p < |znt| && n <= |xs| && out == xs[..n] && Decoding(xs, [0], n, znt[p..], prev, delta, scale, u)
      invariant znt[p] == 0 <==> n == |xs|
      decreases |znt| - p
    {
      DecodeStep(xs, [0], n, znt[p..], prev, delta, scale, u);
      assert znt[p..][1..] == znt[p+1..];
      delta := (delta + Part(znt[p], scale)) % WORD;
      if znt[p] >= 128 {
        scale, u := scale * 128, u / 128;
      } else {
        var this_: nat := (prev + delta) % WORD;
        assert xs[..n+1] == xs[..n] + [xs[n]];
        out := out + [this_];
        prev, delta, scale := this_, 0, 1;
        n := n + 1;
        IncreasingFrom(xs, n);
        NextDelta(xs, [0], n, prev);
        u := if n < |xs| then xs[n] - prev else 0;
      }
      p := p + 1;
      DecodingHead(xs, n, znt[p..], prev, delta, scale, u);
    }
  }
}
