/** The updater's journal: its record format, writing with interruptions and crashes, and recovery. */
module Journal {
  import opened Wrappers
  import opened Arithmetic

  type Bytes = seq<nat>

  const WORD := 0x1_0000_0000
  const MAGIC := 0x2a7c
  const RT_START := 0
  const RT_FINISH := 1
  const RT_INVALID := 9

  datatype Record = Record(kind: nat, params: seq<Bytes>)

  function Magic(len: nat): (m: nat)
    ensures m < 0x1_0000
  {
    XorOfHalves(MAGIC, len % 0x1_0000);
    XorOfHalves(Xor(MAGIC, len % 0x1_0000), len / 0x1_0000 % 0x1_0000);
    Xor(Xor(MAGIC, len % 0x1_0000), len / 0x1_0000 % 0x1_0000)
  }

  /** Host order is taken to be little-endian. */
  function Le16(n: nat): (b: Bytes)
    ensures |b| == 2
  {
    [n % 256, n / 256 % 256]
  }

  function Le32(n: nat): (b: Bytes)
    ensures |b| == 4
  {
    [n % 256, n / 256 % 256, n / 0x1_0000 % 256, n / 0x100_0000 % 256]
  }

  function From16(b: Bytes): nat
    requires |b| == 2
  {
    b[0] + 256 * b[1]
  }

  function From32(b: Bytes): nat
    requires |b| == 4
  {
    b[0] + 256 * b[1] + 0x1_0000 * b[2] + 0x100_0000 * b[3]
  }

  lemma IntegersRoundTrip(n: nat)
    ensures n < 0x1_0000 ==> From16(Le16(n)) == n
    ensures n < WORD ==> From32(Le32(n)) == n
  {
  }

  /** Length words and contents of all parameters. */
  function Size(params: seq<Bytes>): nat {
    if params == [] then 0 else |params[0]| + 4 + Size(params[1..])
  }

  function Lens(params: seq<Bytes>): (r: Bytes)
    ensures |r| == 4 * |params|
  {
    if params == [] then [] else Le32(|params[0]| % WORD) + Lens(params[1..])
  }

  function Contents(params: seq<Bytes>): (r: Bytes)
    ensures |r| + 4 * |params| == Size(params)
  {
    if params == [] then [] else params[0] + Contents(params[1..])
  }

  /** The fixed-size header, its fields truncated to their widths. */
  function Header(kind: nat, count: nat, size: nat): (r: Bytes)
    ensures |r| == 8
  {
    [kind % 256, count % 256] + Le16(Magic(size % WORD)) + Le32(size % WORD)
  }

  function Encode(r: Record): Bytes {
    Header(r.kind, |r.params|, Size(r.params)) + Lens(r.params) + Contents(r.params) + Le16(Magic(Size(r.params) % WORD))
  }

  datatype Parsed = Whole(params: seq<Bytes>) | BadParam | BadLengths

  /** The parameters from number i on; pos is where the contents continue. */
  function ParseFrom(data: Bytes, size: nat, count: nat, i: nat, pos: nat, loads: Bytes -> bool): Parsed
    requires 4 * count <= size <= |data| && i <= count
    decreases count - i
  {
    if i == count then (if pos == size then Whole([]) else BadLengths)
    else
      var len := From32(data[4*i..4*i+4]);
      if pos + len > size then BadLengths
      else if !loads(data[pos..pos+len]) then BadParam
      else
        match ParseFrom(data, size, count, i + 1, pos + len, loads)
        case Whole(rest) => Whole([data[pos..pos+len]] + rest)
        case other => other
  }

  /** What reading one record gives. Lengths that contradict the size make the code run into an assertion. */
  datatype Reading = Got(record: Record, bytes: nat) | Broken | Aborted

  function Decode(bytes: Bytes, loads: Bytes -> bool): Reading {
    if |bytes| < 8 then Broken
    else
      var magic, size := From16(bytes[2..4]), From32(bytes[4..8]);
      if magic != Magic(size) || |bytes| < 8 + size + 2 then Broken
      else
        var data := bytes[8..8+size+2];
        if magic != From16(data[size..size+2]) then Broken
        else Interpret(bytes[0], bytes[1], size, data, loads)
  }

  function Interpret(kind: nat, count: nat, size: nat, data: Bytes, loads: Bytes -> bool): Reading
    requires |data| == size + 2
  {
    if 4 * count > size then Aborted
    else
      match ParseFrom(data, size, count, 0, 4 * count, loads)
      case Whole(params) => Got(Record(kind, params), 8 + size + 2)
      case BadParam => Broken
      case BadLengths => Aborted
  }

  /** Records that fit the format, with parameters that can be loaded again. */
  ghost predicate Writable(r: Record, loads: Bytes -> bool) {
    && r.kind < RT_INVALID && |r.params| <= 255 && Size(r.params) < WORD
    && (forall i :: 0 <= i < |r.params| ==> loads(r.params[i]))
  }

  lemma {:induction false} LensAt(params: seq<Bytes>, i: nat)
    requires i < |params|
    ensures Lens(params)[4*i..4*i+4] == Le32(|params[i]| % WORD)
  {
    if i > 0 {
      LensAt(params[1..], i - 1);
      assert Lens(params)[4*i..4*i+4] == Lens(params[1..])[4*(i-1)..4*(i-1)+4];
    }
  }

  lemma {:induction false} ParamFits(params: seq<Bytes>, i: nat)
    requires i < |params|
    ensures |params[i]| + 4 <= Size(params)
  {
    if i > 0 { ParamFits(params[1..], i - 1); }
  }

  lemma SubSlice(s: Bytes, i: nat, j: nat, k: nat, l: nat)
    requires i <= j <= |s| && k <= l <= j - i
    ensures s[i..j][k..l] == s[i+k..i+l]
  {
    var a, b := s[i..j][k..l], s[i+k..i+l];
    assert forall q :: 0 <= q < |a| ==> a[q] == s[i..j][k+q] == s[i+k+q] == b[q];
  }

  lemma Middle(a: Bytes, b: Bytes, c: Bytes)
    ensures (a + b + c)[|a|..|a|+|b|] == b && (a + b + c)[..|a|] == a
  {
  }

  lemma ContentsStep(params: seq<Bytes>, i: nat)
    requires i < |params|
    ensures Contents(params[i..]) == params[i] + Contents(params[i+1..])
    ensures params[i..] == [params[i]] + params[i+1..]
  {
    assert params[i..][1..] == params[i+1..];
  }

  lemma ParseStep(data: Bytes, size: nat, count: nat, i: nat, pos: nat, len: nat, rest: seq<Bytes>, loads: Bytes -> bool)
    requires 4 * count <= size <= |data| && i < count && From32(data[4*i..4*i+4]) == len && pos + len <= size
    requires loads(data[pos..pos+len]) && ParseFrom(data, size, count, i + 1, pos + len, loads) == Whole(rest)
    ensures ParseFrom(data, size, count, i, pos, loads) == Whole([data[pos..pos+len]] + rest)
  {
    hide From32;
  }

  lemma ParseEnd(data: Bytes, size: nat, count: nat, loads: Bytes -> bool)
    requires 4 * count <= size <= |data|
    ensures ParseFrom(data, size, count, count, size, loads) == Whole([])
  {
  }

  /** Where parameter i is found. */
  lemma ParamAt(params: seq<Bytes>, data: Bytes, size: nat, i: nat, pos: nat)
    requires i < |params| && size == Size(params) < WORD && 4 * |params| <= size <= |data|
    requires data[..4*|params|] == Lens(params) && pos + |Contents(params[i..])| == size
    requires data[pos..size] == Contents(params[i..])
    ensures From32(data[4*i..4*i+4]) == |params[i]| && pos + |params[i]| + |Contents(params[i+1..])| == size
    ensures data[pos..pos+|params[i]|] == params[i] && data[pos+|params[i]|..size] == Contents(params[i+1..])
  {
    hide Le32, From32, Lens, Size, Contents;
    var len := |params[i]|;
    LensAt(params, i);
    ParamFits(params, i);
    SubSlice(data, 0, 4 * |params|, 4 * i, 4 * i + 4);
    assert data[..4*|params|] == data[0..4*|params|];
    IntegersRoundTrip(len);
    ContentsStep(params, i);
    var here := data[pos..size];
    SubSlice(data, pos, size, 0, len);
    SubSlice(data, pos, size, len, size - pos);
    assert here[0..len] == params[i] && here[len..size-pos] == Contents(params[i+1..]);
  }

  lemma ParseBack(params: seq<Bytes>, data: Bytes, size: nat, i: nat, pos: nat, loads: Bytes -> bool)
    requires i <= |params| && size == Size(params) < WORD && 4 * |params| <= size <= |data|
    requires data[..4*|params|] == Lens(params) && pos + |Contents(params[i..])| == size
    requires data[pos..size] == Contents(params[i..]) && forall j :: 0 <= j < |params| ==> loads(params[j])
    ensures ParseFrom(data, size, |params|, i, pos, loads) == Whole(params[i..])
    decreases |params| - i
  {
    hide From32, Lens, Size, Contents, ParseFrom;
    if i < |params| {
      ParamAt(params, data, size, i, pos);
      ParseBack(params, data, size, i + 1, pos + |params[i]|, loads);
      ParseStep(data, size, |params|, i, pos, |params[i]|, params[i+1..], loads);
      ContentsStep(params, i);
    } else {
      EmptyContents(params);
      ParseEnd(data, size, |params|, loads);
    }
  }

  lemma EmptyContents(params: seq<Bytes>)
    ensures params[|params|..] == [] && Contents(params[|params|..]) == []
  {
  }

  /** Whatever follows it in the file, a written record is read back, and the reader stops right behind it. */
  lemma RoundTrip(r: Record, rest: Bytes, loads: Bytes -> bool)
    requires Writable(r, loads)
    ensures Decode(Encode(r) + rest, loads) == Got(r, |Encode(r)|)
  {
    var size := Size(r.params);
    var bytes := Encode(r) + rest;
    HeaderFields(r, rest);
    BodyFields(r, rest);
    hide Encode, Magic, From16, From32, Lens, Contents, Size, Le16, Header;
    var data := bytes[8..8+size+2];
    assert r.params[0..] == r.params;
    ParseBack(r.params, data, size, 0, 4 * |r.params|, loads);
  }

  lemma BodyFields(r: Record, rest: Bytes)
    requires Size(r.params) < WORD
    ensures var bytes, size := Encode(r) + rest, Size(r.params);
      && |Encode(r)| == 8 + size + 2 && 4 * |r.params| + |Contents(r.params)| == size
      && var data := bytes[8..8+size+2];
         data[..4*|r.params|] == Lens(r.params) && data[4*|r.params|..size] == Contents(r.params)
         && From16(data[size..size+2]) == Magic(size)
  {
    hide Header, Lens, Contents, Size, Le16, Magic, From16;
    var size := Size(r.params);
    var header, lens, contents, tail := Header(r.kind, |r.params|, size), Lens(r.params), Contents(r.params), Le16(Magic(size));
    IntegersRoundTrip(Magic(size));
    Shape(header, lens, contents, tail, rest);
    assert size % WORD == size;
  }

  lemma Shape(header: Bytes, lens: Bytes, contents: Bytes, tail: Bytes, rest: Bytes)
    ensures var bytes, h, n := header + lens + contents + tail + rest, |header|, |lens| + |contents|;
      var data := bytes[h..h+n+|tail|];
      data[..|lens|] == lens && data[|lens|..n] == contents && data[n..] == tail && data[n..n+|tail|] == tail
  {
    var bytes, h, n := header + lens + contents + tail + rest, |header|, |lens| + |contents|;
    var data := bytes[h..h+n+|tail|];
    assert bytes == header + (lens + contents + tail) + rest;
    Middle(header, lens + contents + tail, rest);
    assert data == lens + contents + tail;
    Middle(lens, contents, tail);
    Middle(lens + contents, tail, []);
    assert lens + contents + tail + [] == data;
  }

  lemma HeaderFields(r: Record, rest: Bytes)
    requires r.kind < 256 && |r.params| < 256 && Size(r.params) < WORD
    ensures var bytes := Encode(r) + rest;
      && |Encode(r)| == 8 + Size(r.params) + 2
      && bytes[0] == r.kind && bytes[1] == |r.params|
      && From16(bytes[2..4]) == Magic(Size(r.params)) && From32(bytes[4..8]) == Size(r.params)
  {
    var size := Size(r.params);
    var header := Header(r.kind, |r.params|, size);
    HeaderBack(r.kind, |r.params|, size);
    hide Header, Magic, Le16, From16, From32, Lens, Contents, Size;
    var bytes := Encode(r) + rest;
    assert bytes[0..8] == header;
    SubSlice(bytes, 0, 8, 2, 4);
    SubSlice(bytes, 0, 8, 4, 8);
    assert bytes[0] == header[0] && bytes[1] == header[1];
  }

  lemma HeaderBack(kind: nat, count: nat, size: nat)
    requires kind < 256 && count < 256 && size < WORD
    ensures var h := Header(kind, count, size);
      h[0] == kind && h[1] == count && From16(h[2..4]) == Magic(size) && From32(h[4..8]) == size
  {
    hide Magic, From16, From32, Le16, Le32;
    IntegersRoundTrip(Magic(size));
    IntegersRoundTrip(size);
    var a, b := Le16(Magic(size % WORD)), Le32(size % WORD);
    assert size % WORD == size;
    Middle([kind, count], a, b);
    Middle([kind, count] + a, b, []);
    assert [kind, count] + a + b + [] == Header(kind, count, size);
  }

  /** A record cut short anywhere is not accepted. */
  lemma NoStrictPrefix(r: Record, k: nat, loads: Bytes -> bool)
    requires Writable(r, loads) && k < |Encode(r)|
    ensures Decode(Encode(r)[..k], loads) == Broken
  {
    HeaderFields(r, []);
    hide Encode, Magic, From16, From32, Size;
    var bytes, full := Encode(r)[..k], Encode(r) + [];
    if k >= 8 {
      assert bytes[2..4] == full[2..4] && bytes[4..8] == full[4..8];
    }
  }

  function EncodeAll(rs: seq<Record>): Bytes {
    if rs == [] then [] else EncodeAll(rs[..|rs|-1]) + Encode(rs[|rs|-1])
  }

  ghost predicate AllWritable(rs: seq<Record>, loads: Bytes -> bool) {
    forall i :: 0 <= i < |rs| ==> Writable(rs[i], loads)
  }

  /** The records from number i on stand behind the first i. */
  lemma {:induction false} SplitAll(rs: seq<Record>, i: nat) returns (rest: Bytes)
    requires i < |rs|
    ensures EncodeAll(rs) == EncodeAll(rs[..i]) + Encode(rs[i]) + rest
    decreases |rs|
  {
    hide Encode;
    var n := |rs| - 1;
    if i == n {
      rest := [];
      assert EncodeAll(rs) == EncodeAll(rs[..n]) + Encode(rs[n]) + [];
    } else {
      var front := rs[..n];
      var shorter := SplitAll(front, i);
      assert front[..i] == rs[..i] && front[i] == rs[i];
      rest := shorter + Encode(rs[n]);
      assert EncodeAll(rs) == (EncodeAll(rs[..i]) + Encode(rs[i]) + shorter) + Encode(rs[n]);
    }
  }

  function Empties(n: nat): (r: seq<Bytes>)
    ensures |r| == n
  {
    if n == 0 then [] else [[]] + Empties(n - 1)
  }

  lemma {:induction false} SizeOfEmpties(n: nat)
    ensures Size(Empties(n)) == 4 * n
  {
    if n > 0 {
      assert Empties(n)[1..] == Empties(n - 1);
      SizeOfEmpties(n - 1);
    }
  }

  /** The limit of 255 parameters is sharp: a record with one more is written, and reading it back aborts. */
  lemma TooManyParams(loads: Bytes -> bool)
    ensures Size(Empties(256)) < WORD && Decode(Encode(Record(2, Empties(256))), loads) == Aborted
  {
    hide Empties, Size, Encode, From16, From32, Magic;
    var r := Record(2, Empties(256));
    SizeOfEmpties(256);
    BodyFields(r, []);
    assert Encode(r) + [] == Encode(r);
    HeaderCount(r);
  }

  /** What is read has as many parameters as the length words, and all of them can be loaded. */
  lemma {:induction false} ParsedCount(data: Bytes, size: nat, count: nat, i: nat, pos: nat, loads: Bytes -> bool)
    requires 4 * count <= size <= |data| && i <= count && pos <= size
    ensures
      match ParseFrom(data, size, count, i, pos, loads)
      case Whole(ps) => |ps| == count - i && forall j :: 0 <= j < |ps| ==> loads(ps[j])
      case _ => true
    decreases count - i
  {
    if i < count {
      var len := From32(data[4*i..4*i+4]);
      if pos + len <= size && loads(data[pos..pos+len]) {
        ParsedCount(data, size, count, i + 1, pos + len, loads);
      }
    }
  }

  lemma GotCount(bytes: Bytes, loads: Bytes -> bool)
    ensures
      match Decode(bytes, loads)
      case Got(r, n) =>
        |bytes| >= 8 && |r.params| == bytes[1] && n == 8 + From32(bytes[4..8]) + 2
        && forall j :: 0 <= j < |r.params| ==> loads(r.params[j])
      case _ => true
  {
    hide Magic, From16, From32, ParseFrom;
    if |bytes| >= 8 {
      var size := From32(bytes[4..8]);
      if |bytes| >= 8 + size + 2 && 4 * bytes[1] <= size {
        ParsedCount(bytes[8..8+size+2], size, bytes[1], 0, 4 * bytes[1], loads);
      }
    }
  }

  lemma EncodedHeader(r: Record, rest: Bytes)
    ensures
      var bytes := Encode(r) + rest;
      && |Encode(r)| == 8 + Size(r.params) + 2
      && bytes[1] == |r.params| % 256 && From32(bytes[4..8]) == Size(r.params) % WORD
  {
    var size := Size(r.params);
    var bytes := Encode(r) + rest;
    var header := Header(r.kind, |r.params|, size);
    IntegersRoundTrip(size % WORD);
    hide Magic, Le16, Le32, From32, Lens, Contents, Size;
    assert bytes[0..8] == header;
    SubSlice(bytes, 0, 8, 4, 8);
    var front := [r.kind % 256, |r.params| % 256] + Le16(Magic(size % WORD));
    Middle(front, Le32(size % WORD), []);
    assert front + Le32(size % WORD) + [] == header;
    assert bytes[1] == header[1];
  }

  /** A record is read back if and only if it has at most 255 parameters, fits the size field, and can be loaded. */
  lemma ReadBackIff(r: Record, rest: Bytes, loads: Bytes -> bool)
    requires r.kind < RT_INVALID
    ensures Decode(Encode(r) + rest, loads) == Got(r, |Encode(r)|) <==> Writable(r, loads)
  {
    if Writable(r, loads) {
      RoundTrip(r, rest, loads);
    }
    hide Decode, Encode, From32, Size;
    EncodedHeader(r, rest);
    GotCount(Encode(r) + rest, loads);
  }

  lemma HeaderCount(r: Record)
    requires r.kind < 256 && Size(r.params) < WORD
    ensures |Encode(r)| >= 8 && Encode(r)[1] == |r.params| % 256
    ensures From16(Encode(r)[2..4]) == Magic(Size(r.params)) && From32(Encode(r)[4..8]) == Size(r.params)
  {
    var size := Size(r.params);
    var header := Header(r.kind, |r.params|, size);
    HeaderBack(r.kind, |r.params| % 256, size);
    assert header == Header(r.kind, |r.params| % 256, size);
    var bytes := Encode(r);
    assert bytes[..8] == header;
    assert bytes[2..4] == header[2..4] && bytes[4..8] == header[4..8] && bytes[1] == header[1];
  }

  /** One call of read or write: interrupted, served in part, or failing. */
  datatype Outcome = Interrupted | Partly(n: nat) | Failing

  ghost predicate NoFailure(script: seq<Outcome>) {
    forall i :: 0 <= i < |script| ==> !script[i].Failing?
  }

  /** One of the calls made, leaving the rest of the script, failed. */
  ghost predicate Failed(script: seq<Outcome>, rest: seq<Outcome>) {
    exists i :: 0 <= i < |script| - |rest| && script[i].Failing?
  }

  ghost predicate IsRest(script: seq<Outcome>, rest: seq<Outcome>) {
    |rest| <= |script| && rest == script[|script| - |rest|..]
  }

  lemma FailedLater(script: seq<Outcome>, mid: seq<Outcome>, rest: seq<Outcome>)
    requires IsRest(script, mid) && IsRest(mid, rest)
    ensures IsRest(script, rest)
    ensures Failed(script, rest) <==> Failed(script, mid) || Failed(mid, rest)
  {
    var n := |script| - |mid|;
    if Failed(mid, rest) {
      var i :| 0 <= i < |mid| - |rest| && mid[i].Failing?;
      assert script[n + i].Failing?;
    }
    if i :| n <= i < |script| - |rest| && script[i].Failing? {
      assert mid[i - n].Failing?;
    }
  }

  lemma NoneFailed(script: seq<Outcome>, rest: seq<Outcome>)
    requires NoFailure(script) && IsRest(script, rest)
    ensures !Failed(script, rest) && NoFailure(rest)
  {
  }

  /** What a crash may leave of a record. */
  ghost predicate Torn(tail: Bytes, loads: Bytes -> bool) {
    tail == [] || exists r, k: nat :: Writable(r, loads) && k < |Encode(r)| && tail == Encode(r)[..k]
  }

  /** Builds the bytes of a record: length words first, then the contents. */
  method BuildMessage(r: Record) returns (buffer: Bytes)
    ensures buffer == Encode(r)
  {
    hide Header, Magic, Le16, Le32;
    var size := 0;
    var lens: Bytes, contents: Bytes := [], [];
    for i := 0 to |r.params|
      invariant size + Size(r.params[i..]) == Size(r.params)
      invariant lens + Lens(r.params[i..]) == Lens(r.params)
      invariant contents + Contents(r.params[i..]) == Contents(r.params)
    {
      assert r.params[i..][1..] == r.params[i+1..];
      size := size + |r.params[i]| + 4;
      lens := lens + Le32(|r.params[i]| % WORD);
      contents := contents + r.params[i];
    }
    buffer := Header(r.kind, |r.params|, size) + lens + contents + Le16(Magic(size % WORD));
  }

  /** The file, how far it was read, and whether this process has it open. A process that dies closes it. */
  class Journal {
    var present: bool
    var content: Bytes
    var offset: nat
    var isOpen: bool
    const loads: Bytes -> bool

    /** The records written completely, and what is left behind them of one that was not. */
    ghost var records: seq<Record>
    ghost var torn: Bytes

    ghost predicate Valid()
      reads this
    {
      && (present ==> content == EncodeAll(records) + torn && AllWritable(records, loads) && Torn(torn, loads))
      && (isOpen ==> present && torn == [])
    }

    /** Nothing was ever written. */
    constructor (loads: Bytes -> bool)
      ensures Valid() && !present && !isOpen && this.loads == loads
    {
      this.loads := loads;
      present, content, offset, isOpen := false, [], 0, false;
      records, torn := [], [];
    }

    /** Appends a record. The script says how the calls of write go; if it ends in a crash, or a call fails for good,
        the process dies, having written some first part of the record. */
    method Write(r: Record, script: seq<Outcome>, crash: bool) returns (done: bool)
      requires Valid() && isOpen && Writable(r, loads)
      modifies this`content, this`isOpen, this`records, this`torn
      ensures Valid() && present && isOpen == done
      ensures done ==> records == old(records) + [r] && torn == []
      ensures !done ==> records == old(records) && exists k: nat :: k < |Encode(r)| && torn == Encode(r)[..k]
      ensures NoFailure(script) && !crash ==> done
    {
      hide Encode, EncodeAll, Writable;
      var buffer := BuildMessage(r);
      var written: nat := 0;
      var pc: nat := 0;
      assert buffer[..0] == [];
      EncodeNonempty(r);
      while written < |buffer|
        invariant written <= |buffer| && pc <= |script| && content == EncodeAll(records) + buffer[..written]
        invariant records == old(records) && isOpen
        decreases |script| - pc, |buffer| - written
      {
        if pc == |script| && crash {
          torn := buffer[..written];
          isOpen := false;
          return false;
        }
        var n := |buffer| - written;
        if pc < |script| {
          var outcome := script[pc];
          pc := pc + 1;
          if outcome.Interrupted? {
            continue;
          }
          if outcome.Failing? {
            torn := buffer[..written];
            isOpen := false;
            return false;
          }
          if outcome.n < n {
            n := outcome.n;
          }
        }
        assert buffer[..written] + buffer[written..written+n] == buffer[..written+n];
        content := content + buffer[written..written+n];
        written := written + n;
      }
      assert buffer[..written] == buffer;
      AppendRecord(records, r, loads);
      records, torn := records + [r], [];
      done := true;
    }

    /** Starts a new journal, unless there is one already. */
    method Fresh(script: seq<Outcome>, crash: bool) returns (done: bool)
      requires Valid() && !isOpen
      modifies this
      ensures Valid() && isOpen == done && (old(present) ==> !done && content == old(content) && records == old(records) && torn == old(torn))
      ensures done ==> records == [Record(RT_START, [])]
      ensures !old(present) && NoFailure(script) && !crash ==> done
    {
      if present {
        return false;
      }
      present, content, offset, isOpen := true, [], 0, true;
      records, torn := [], [];
      done := Write(Record(RT_START, []), script, crash);
    }

    /** Ends the journal; unless it is to be kept, it is removed. */
    method Finish(keep: bool, script: seq<Outcome>, crash: bool) returns (done: bool)
      requires Valid() && isOpen
      modifies this
      ensures Valid() && !isOpen && (done ==> present == keep)
      ensures done && keep ==> records == old(records) + [Record(RT_FINISH, [])] && torn == []
    {
      done := Write(Record(RT_FINISH, []), script, crash);
      if done {
        isOpen := false;
        if !keep {
          present := false;
        }
      }
    }

    /** The process dies between two calls. */
    method Crash()
      requires Valid()
      modifies this`isOpen
      ensures Valid() && !isOpen
    {
      isOpen := false;
    }

    /** Reads size bytes, however many calls it takes. Fails at the end of the file, or when the device does. */
    method DoRead(size: nat, script: seq<Outcome>) returns (data: Bytes, ok: bool, rest: seq<Outcome>)
      requires offset <= |content|
      modifies this`offset
      ensures old(offset) <= offset <= |content| && data == content[old(offset)..offset] && |data| <= size
      ensures (ok ==> |data| == size) && IsRest(script, rest)
      ensures ok <==> old(offset) + size <= |content| && !Failed(script, rest)
    {
      data, ok, rest := [], true, script;
      while |data| < size
        invariant old(offset) <= offset <= |content| && data == content[old(offset)..offset] && |data| <= size
        invariant IsRest(script, rest) && !Failed(script, rest) && ok
        decreases |rest|, size - |data|
      {
        var n := size - |data|;
        if |content| - offset < n {
          n := |content| - offset;
        }
        if rest != [] {
          var outcome := rest[0];
          rest := rest[1..];
          if outcome.Interrupted? {
            continue;
          }
          if outcome.Failing? {
            ok := false;
            assert script[|script| - |rest| - 1] == outcome;
            return;
          }
          if 0 < outcome.n < n {
            n := outcome.n;
          }
        }
        if n == 0 {
          ok := false;
          return;
        }
        assert content[old(offset)..offset] + content[offset..offset+n] == content[old(offset)..offset+n];
        data := data + content[offset..offset+n];
        offset := offset + n;
      }
    }

    /** Reads one record from the current position. */
    method JournalRead(script: seq<Outcome>) returns (res: Reading, rest: seq<Outcome>)
      requires offset <= |content|
      modifies this`offset
      ensures old(offset) <= offset <= |content| && IsRest(script, rest)
      ensures res == if Failed(script, rest) then Broken else Decode(content[old(offset)..], loads)
      ensures res.Got? ==> offset == old(offset) + res.bytes
    {
      hide From16, From32, Magic, ParseFrom, IsRest, Failed;
      ghost var here := content[offset..];
      var header, ok;
      header, ok, rest := DoRead(8, script);
      if !ok {
        return Broken, rest;
      }
      assert header == here[..8];
      var magic, size := From16(header[2..4]), From32(header[4..8]);
      HeaderSlices(here);
      if magic != Magic(size) {
        return Broken, rest;
      }
      var data;
      ghost var mid := rest;
      data, ok, rest := DoRead(size + 2, rest);
      FailedLater(script, mid, rest);
      if !ok {
        return Broken, rest;
      }
      assert data == here[8..8+size+2];
      if magic != From16(data[size..size+2]) {
        return Broken, rest;
      }
      res := ReadParams(header[0], header[1], size, data, loads);
    }

    /** Reads the journal up to the first record that is not complete, and cuts off the rest of the file. */
    method Recover(script: seq<Outcome>) returns (found: Option<seq<Record>>)
      requires Valid() && !isOpen
      modifies this
      ensures Valid() && isOpen == present == old(present) && found.Some? == present
      ensures present ==> found == Some(records) && records <= old(records) && torn == [] && content == EncodeAll(records)
      ensures present && NoFailure(script) ==> records == old(records)
    {
      hide Encode, Decode, EncodeAll, Writable, Torn;
      if !present {
        return None;
      }
      var rest := script;
      var rs: seq<Record> := [];
      var place: nat := 0;
      offset := 0;
      FirstPlace(records);
      var res;
      NextRecord(content, records, torn, loads, 0);
      res, rest := JournalRead(rest);
      if NoFailure(script) { NoneFailed(script, rest); }
      while res.Got?
        invariant place <= offset <= |content| && |rs| <= |records| && rs == records[..|rs|]
        invariant place == |EncodeAll(records[..|rs|])| <= |content| && Valid() && present && !isOpen
        invariant content == old(content) && records == old(records) && torn == old(torn)
        invariant NoFailure(script) ==> NoFailure(rest)
        invariant res == Decode(content[place..], loads) || (res == Broken && !NoFailure(script))
        invariant res.Got? ==> offset == place + res.bytes
        decreases |records| - |rs|
      {
        NextRecord(content, records, torn, loads, |rs|);
        NextPlace(records, |rs|);
        rs := rs + [res.record];
        place := offset;
        NextRecord(content, records, torn, loads, |rs|);
        ghost var before := rest;
        res, rest := JournalRead(rest);
        if NoFailure(before) { NoneFailed(before, rest); }
      }
      NextRecord(content, records, torn, loads, |rs|);
      CutAt(content, records, torn, loads, |rs|);
      offset := place;
      content := content[..place];
      isOpen := true;
      records, torn := rs, [];
      NothingTorn(loads);
      found := Some(rs);
    }
  }

  /** Takes a record's data apart, one parameter after the other. */
  method ReadParams(kind: nat, count: nat, size: nat, data: Bytes, loads: Bytes -> bool) returns (res: Reading)
    requires |data| == size + 2
    ensures res == Interpret(kind, count, size, data, loads)
  {
    hide From32;
    if 4 * count > size {
      return Aborted;
    }
    var pos: nat := 4 * count;
    var params: seq<Bytes> := [];
    for i := 0 to count
      invariant pos <= size && |params| == i
      invariant ParseFrom(data, size, count, 0, 4 * count, loads) == After(params, ParseFrom(data, size, count, i, pos, loads))
    {
      var len := From32(data[4*i..4*i+4]);
      if pos + len > size {
        return Aborted;
      }
      if !loads(data[pos..pos+len]) {
        return Broken;
      }
      AfterOne(params, data[pos..pos+len], ParseFrom(data, size, count, i + 1, pos + len, loads));
      params := params + [data[pos..pos+len]];
      pos := pos + len;
    }
    assert params + [] == params;
    if pos != size {
      return Aborted;
    }
    res := Got(Record(kind, params), 8 + size + 2);
  }

  /** The parameters read so far, in front of what the rest gives. */
  function After(params: seq<Bytes>, rest: Parsed): Parsed {
    match rest
    case Whole(more) => Whole(params + more)
    case other => other
  }

  lemma AfterOne(params: seq<Bytes>, p: Bytes, rest: Parsed)
    ensures After(params + [p], rest) == After(params, After([p], rest))
  {
    if rest.Whole? {
      assert params + [p] + rest.params == params + ([p] + rest.params);
    }
  }

  lemma HeaderSlices(here: Bytes)
    requires |here| >= 8
    ensures here[..8][2..4] == here[2..4] && here[..8][4..8] == here[4..8] && here[..8][0] == here[0] && here[..8][1] == here[1]
  {
    SubSlice(here, 0, 8, 2, 4);
    SubSlice(here, 0, 8, 4, 8);
    assert here[..8] == here[0..8];
  }

  lemma FirstPlace(rs: seq<Record>)
    ensures rs[..0] == [] && |EncodeAll(rs[..0])| == 0
  {
  }

  lemma NextPlace(rs: seq<Record>, i: nat)
    requires i < |rs|
    ensures |EncodeAll(rs[..i+1])| == |EncodeAll(rs[..i])| + |Encode(rs[i])| && rs[..i+1] == rs[..i] + [rs[i]]
  {
    hide Encode;
    assert rs[..i+1][..i] == rs[..i];
  }

  lemma NothingTorn(loads: Bytes -> bool)
    ensures Torn([], loads)
  {
  }

  /** At the end of a complete record the next one is read; after the last there is nothing to read. */
  lemma NextRecord(content: Bytes, rs: seq<Record>, torn: Bytes, loads: Bytes -> bool, i: nat)
    requires content == EncodeAll(rs) + torn && AllWritable(rs, loads) && Torn(torn, loads) && i <= |rs|
    ensures |EncodeAll(rs[..i])| <= |content|
    ensures var here := content[|EncodeAll(rs[..i])|..];
      if i < |rs| then Decode(here, loads) == Got(rs[i], |Encode(rs[i])|) else Decode(here, loads) == Broken
  {
    hide Encode, Decode, EncodeAll, Writable;
    var at := |EncodeAll(rs[..i])|;
    if i < |rs| {
      var rest := SplitAll(rs, i);
      assert content[at..] == Encode(rs[i]) + (rest + torn);
      RoundTrip(rs[i], rest + torn, loads);
    } else {
      assert rs[..i] == rs && content[at..] == torn;
      TornIsBroken(torn, loads);
    }
  }

  lemma TornIsBroken(torn: Bytes, loads: Bytes -> bool)
    requires Torn(torn, loads)
    ensures Decode(torn, loads) == Broken
  {
    if torn == [] {
      NothingToRead(loads);
    } else {
      var r, k: nat :| Writable(r, loads) && k < |Encode(r)| && torn == Encode(r)[..k];
      NoStrictPrefix(r, k, loads);
    }
  }

  lemma NothingToRead(loads: Bytes -> bool)
    ensures Decode([], loads) == Broken
  {
  }

  /** Cutting the file after the first i records leaves exactly these. */
  lemma CutAt(content: Bytes, rs: seq<Record>, torn: Bytes, loads: Bytes -> bool, i: nat)
    requires content == EncodeAll(rs) + torn && AllWritable(rs, loads) && i <= |rs|
    ensures |EncodeAll(rs[..i])| <= |content| && content[..|EncodeAll(rs[..i])|] == EncodeAll(rs[..i]) + []
    ensures AllWritable(rs[..i], loads) && rs[..i] <= rs && (i == |rs| ==> rs[..i] == rs)
  {
    hide Encode, Decode, EncodeAll, Writable;
    if i < |rs| {
      var rest := SplitAll(rs, i);
    } else {
      assert rs[..i] == rs;
    }
  }

  lemma EncodeNonempty(r: Record)
    ensures Encode(r) != []
  {
  }

  lemma AppendRecord(rs: seq<Record>, r: Record, loads: Bytes -> bool)
    requires AllWritable(rs, loads) && Writable(r, loads)
    ensures EncodeAll(rs + [r]) == EncodeAll(rs) + Encode(r) && AllWritable(rs + [r], loads)
  {
    hide Encode;
    assert (rs + [r])[..|rs|] == rs;
  }
}
