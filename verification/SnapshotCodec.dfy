/** The binary snapshot: how a list of entries is written, and how it is read back. */
module SnapshotCodec {
  import opened ByteStrings
  import opened Numbers
  import opened SnapshotEntries
  import opened Wire

  const MAGIC: Bytes := "LLAVERO" + [1 as char]
  const MAX_ENTRIES: nat := 1024 * 1024
  const MAX_FIELD: nat := 64 * 1024 * 1024

  /** A natural number as some bytes, the least significant first. */
  function Little(n: nat, k: nat): (s: Bytes)
    ensures |s| == k
  {
    if k == 0 then [] else [(n % 256) as char] + Little(n / 256, k - 1)
  }

  function FromLittle(s: Bytes): nat {
    if s == [] then 0 else s[0] as nat + 256 * FromLittle(s[1..])
  }

  function Pow256(k: nat): nat {
    if k == 0 then 1 else 256 * Pow256(k - 1)
  }

  lemma {:induction false} LittleBack(n: nat, k: nat)
    ensures n < Pow256(k) ==> FromLittle(Little(n, k)) == n
    decreases k
  {
    if k > 0 {
      LittleBack(n / 256, k - 1);
      assert Little(n, k)[1..] == Little(n / 256, k - 1);
    }
  }

  lemma {:induction false} FromLittleBound(s: Bytes)
    ensures FromLittle(s) < Pow256(|s|)
    decreases |s|
  {
    if s != [] {
      FromLittleBound(s[1..]);
    }
  }

  lemma EightBytes()
    ensures Pow256(8) == TWO_64
  {
    assert Pow256(4) == 0x1_0000_0000;
    assert Pow256(8) == 256 * 256 * 256 * 256 * Pow256(4);
  }

  function U64(n: nat): (s: Bytes)
    ensures |s| == 8
  {
    Little(n, 8)
  }

  /** A signed integer in two's complement. */
  function I64(n: int): (s: Bytes)
    requires FitsInt64(n)
    ensures |s| == 8
  {
    U64(if n < 0 then n + TWO_64 else n)
  }

  function ReadU64(s: Bytes): (p: Parsed<nat>)
    ensures p.Ok? ==> |p.rest| < |s| && p.value < TWO_64
  {
    var b := Block(s, 8);
    EightBytes();
    assert b.Ok? ==> FromLittle(b.value) < TWO_64 by { if b.Ok? { FromLittleBound(b.value); } }
    if b.Err? then Err(b.fault) else Ok(FromLittle(b.value), b.rest)
  }

  function ReadI64(s: Bytes): (p: Parsed<int>)
    ensures p.Ok? ==> |p.rest| < |s| && FitsInt64(p.value)
  {
    var b := ReadU64(s);
    if b.Err? then Err(b.fault) else Ok(if b.value >= TWO_63 then b.value - TWO_64 else b.value, b.rest)
  }

  lemma U64Back(n: nat, more: Bytes)
    requires n < TWO_64
    ensures ReadU64(U64(n) + more) == Ok(n, more)
  {
    EightBytes();
    LittleBack(n, 8);
    assert (U64(n) + more)[..8] == U64(n) && (U64(n) + more)[8..] == more;
  }

  /** Every signed 64-bit integer survives its eight bytes. */
  lemma I64Back(n: int, more: Bytes)
    requires FitsInt64(n)
    ensures ReadI64(I64(n) + more) == Ok(n, more)
  {
    U64Back(if n < 0 then n + TWO_64 else n, more);
  }

  /** No slice is longer than a machine integer. */
  type Chunk = b: Bytes | |b| < TWO_63 witness []

  function WriteChunk(b: Chunk): Bytes {
    U64(|b|) + b
  }

  /** `readBytes` */
  function ReadChunk(s: Bytes): (p: Parsed<Chunk>)
    ensures p.Ok? ==> |p.rest| < |s|
  {
    var n := ReadU64(s);
    if n.Err? then Err(n.fault)
    else if n.value > MAX_FIELD then Err(Malformed)
    else
      var b := Block(n.rest, n.value);
      if b.Err? then Err(b.fault) else Ok(b.value, b.rest)
  }

  predicate FitsField(b: Chunk) {
    |b| <= MAX_FIELD
  }

  lemma ChunkBack(b: Chunk, more: Bytes)
    ensures ReadChunk(WriteChunk(b) + more) == if FitsField(b) then Ok(b, more) else Err(Malformed)
  {
    assert WriteChunk(b) + more == U64(|b|) + (b + more);
    U64Back(|b|, b + more);
    assert (b + more)[..|b|] == b && (b + more)[|b|..] == more;
  }

  lemma ChunksUndo()
    ensures Undoes(ReadChunk, WriteChunk, FitsField)
  {
    forall b: Chunk, more: Bytes
      ensures ReadChunk(WriteChunk(b) + more) == if FitsField(b) then Ok(b, more) else Err(Malformed)
    {
      ChunkBack(b, more);
    }
  }

  type Pair = (Chunk, Chunk)

  function WritePair(p: Pair): Bytes {
    WriteChunk(p.0) + WriteChunk(p.1)
  }

  function ReadPair(s: Bytes): (p: Parsed<Pair>)
    ensures p.Ok? ==> |p.rest| < |s|
  {
    var field := ReadChunk(s);
    if field.Err? then Err(field.fault)
    else
      var value := ReadChunk(field.rest);
      if value.Err? then Err(value.fault) else Ok((field.value, value.value), value.rest)
  }

  predicate FitsPair(p: Pair) {
    FitsField(p.0) && FitsField(p.1)
  }

  lemma PairsUndo()
    ensures Undoes(ReadPair, WritePair, FitsPair)
  {
    forall p: Pair, more: Bytes
      ensures ReadPair(WritePair(p) + more) == if FitsPair(p) then Ok(p, more) else Err(Malformed)
    {
      assert WritePair(p) + more == WriteChunk(p.0) + (WriteChunk(p.1) + more);
      ChunkBack(p.0, WriteChunk(p.1) + more);
      ChunkBack(p.1, more);
    }
  }

  /** A count, and that many of something. */
  function Counted<T>(read: Bytes -> Parsed<T>, s: Bytes): (p: Parsed<seq<T>>)
    ensures p.Ok? ==> |p.value| <= MAX_ENTRIES
  {
    var n := ReadU64(s);
    if n.Err? then Err(n.fault)
    else if n.value > MAX_ENTRIES then Err(Malformed)
    else Repeat(read, n.rest, n.value)
  }

  function WriteCounted<T>(write: T -> Bytes, items: seq<T>): Bytes {
    U64(|items|) + WriteAll(write, items)
  }

  predicate FitsCounted<T>(accepts: T -> bool, items: seq<T>) {
    |items| <= MAX_ENTRIES && All(accepts, items)
  }

  lemma CountedBack<T(!new)>(read: Bytes -> Parsed<T>, write: T -> Bytes, accepts: T -> bool, items: seq<T>, more: Bytes)
    requires Undoes(read, write, accepts) && |items| < TWO_63
    ensures Counted(read, WriteCounted(write, items) + more) ==
            if FitsCounted(accepts, items) then Ok(items, more) else Err(Malformed)
  {
    assert WriteCounted(write, items) + more == U64(|items|) + (WriteAll(write, items) + more);
    U64Back(|items|, WriteAll(write, items) + more);
    RepeatBack(read, write, accepts, items, more);
  }

  datatype Body = Single(bytes: Chunk) | Listed(items: seq<Chunk>) | Paired(pairs: seq<Pair>)

  /** An entry as it lies in the file. */
  datatype RawEntry = RawEntry(kind: byte, nanos: int, key: Chunk, body: Body)

  predicate BodyOf(kind: byte, body: Body) {
    match body
    case Single(_) => kind == STRING
    case Listed(items) => (kind == LIST || kind == SET) && |items| < TWO_63
    case Paired(pairs) => kind == HASH && |pairs| < TWO_63
  }

  predicate Coherent(r: RawEntry) {
    FitsInt64(r.nanos) && BodyOf(r.kind, r.body)
  }

  type Raw = r: RawEntry | Coherent(r) witness RawEntry(STRING, 0, [], Single([]))

  function WriteBody(b: Body): Bytes {
    match b
    case Single(bytes) => WriteChunk(bytes)
    case Listed(items) => WriteCounted(WriteChunk, items)
    case Paired(pairs) => WriteCounted(WritePair, pairs)
  }

  function WriteRaw(r: Raw): Bytes {
    [r.kind] + I64(r.nanos) + WriteChunk(r.key) + WriteBody(r.body)
  }

  function ReadBody(kind: byte, s: Bytes): (p: Parsed<Body>)
    ensures p.Ok? ==> BodyOf(kind, p.value)
  {
    if kind == STRING then
      var b := ReadChunk(s);
      if b.Err? then Err(b.fault) else Ok(Single(b.value), b.rest)
    else if kind == LIST || kind == SET then
      var l := Counted(ReadChunk, s);
      if l.Err? then Err(l.fault) else Ok(Listed(l.value), l.rest)
    else if kind == HASH then
      var h := Counted(ReadPair, s);
      if h.Err? then Err(h.fault) else Ok(Paired(h.value), h.rest)
    else Err(Malformed)
  }

  /** The fields of `decodeEntry`, in file order. */
  function ReadRaw(s: Bytes): Parsed<Raw> {
    var kind := Block(s, 1);
    if kind.Err? then Err(kind.fault)
    else
      var nanos := ReadI64(kind.rest);
      if nanos.Err? then Err(nanos.fault)
      else
        var key := ReadChunk(nanos.rest);
        if key.Err? then Err(key.fault)
        else
          var body := ReadBody(kind.value[0], key.rest);
          if body.Err? then Err(body.fault)
          else Ok(RawEntry(kind.value[0], nanos.value, key.value, body.value), body.rest)
  }

  predicate FitsBody(b: Body) {
    match b
    case Single(bytes) => FitsField(bytes)
    case Listed(items) => FitsCounted(FitsField, items)
    case Paired(pairs) => FitsCounted(FitsPair, pairs)
  }

  predicate FitsRaw(r: Raw) {
    FitsField(r.key) && FitsBody(r.body)
  }

  lemma BodyBack(kind: byte, b: Body, more: Bytes)
    requires BodyOf(kind, b)
    ensures ReadBody(kind, WriteBody(b) + more) == if FitsBody(b) then Ok(b, more) else Err(Malformed)
  {
    match b
    case Single(bytes) => ChunkBack(bytes, more);
    case Listed(items) =>
      ChunksUndo();
      CountedBack(ReadChunk, WriteChunk, FitsField, items, more);
    case Paired(pairs) =>
      PairsUndo();
      CountedBack(ReadPair, WritePair, FitsPair, pairs, more);
  }

  lemma RawBack(r: Raw, more: Bytes)
    ensures ReadRaw(WriteRaw(r) + more) == if FitsRaw(r) then Ok(r, more) else Err(Malformed)
  {
    hide ReadChunk, ReadBody, WriteBody, WriteChunk, ReadI64, I64, FitsBody;
    var afterKey := WriteBody(r.body) + more;
    var afterTime := WriteChunk(r.key) + afterKey;
    var afterKind := I64(r.nanos) + afterTime;
    assert WriteRaw(r) + more == [r.kind] + afterKind;
    assert ([r.kind] + afterKind)[..1] == [r.kind] && ([r.kind] + afterKind)[1..] == afterKind;
    I64Back(r.nanos, afterTime);
    ChunkBack(r.key, afterKey);
    BodyBack(r.kind, r.body, more);
  }

  lemma RawsUndo()
    ensures Undoes(ReadRaw, WriteRaw, FitsRaw)
  {
    forall r: Raw, more: Bytes
      ensures ReadRaw(WriteRaw(r) + more) == if FitsRaw(r) then Ok(r, more) else Err(Malformed)
    {
      RawBack(r, more);
    }
  }

  function WriteRaws(raws: seq<Raw>): Bytes {
    MAGIC + WriteCounted(WriteRaw, raws)
  }

  function ReadRaws(s: Bytes): Parsed<seq<Raw>> {
    var header := Block(s, |MAGIC|);
    if header.Err? then Err(header.fault)
    else if header.value != MAGIC then Err(Malformed)
    else Counted(ReadRaw, header.rest)
  }

  lemma RawsBack(raws: seq<Raw>, more: Bytes)
    requires |raws| < TWO_63
    ensures ReadRaws(WriteRaws(raws) + more) == if FitsCounted(FitsRaw, raws) then Ok(raws, more) else Err(Malformed)
  {
    hide ReadRaw, WriteRaw;
    var rest := WriteCounted(WriteRaw, raws) + more;
    assert WriteRaws(raws) + more == MAGIC + rest;
    assert (MAGIC + rest)[..|MAGIC|] == MAGIC && (MAGIC + rest)[|MAGIC|..] == rest;
    RawsUndo();
    CountedBack(ReadRaw, WriteRaw, FitsRaw, raws, more);
  }
}
