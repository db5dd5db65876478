/** Snapshot entries to bytes and back: the writing and reading methods, and the round trip. */
module SnapshotFile {
  import opened ByteStrings
  import opened Clock
  import opened Commands
  import opened Keyspace
  import opened Numbers
  import opened SnapshotCodec
  import opened SnapshotEntries
  import opened Wire

  /** A deadline as Unix nanoseconds; 0 stands for none. */
  function NanosOf(t: Time): (n: int)
    ensures FitsInt64(n)
  {
    if t == NEVER then 0 else ToNanos(t)
  }

  function TimeOf(nanos: int): Time {
    if nanos > 0 then nanos else NEVER
  }

  /** A deadline survives exactly when there is none, or its nanoseconds lie strictly between 0 and 2^63. */
  lemma DeadlineBack(t: Time)
    ensures TimeOf(NanosOf(t)) == t <==> t == NEVER || 0 < t < TWO_63
  {
  }

  predicate Known(kind: byte) {
    kind == STRING || kind == LIST || kind == HASH || kind == SET
  }

  predicate SizedList(items: seq<Bytes>) {
    |items| < TWO_63 && forall i :: 0 <= i < |items| ==> |items[i]| < TWO_63
  }

  /** No length in an entry exceeds a machine integer. */
  predicate Sized(e: SnapshotEntry) {
    |e.key| < TWO_63 && |e.value| < TWO_63 && SizedList(e.list) && SizedList(e.members) &&
    |e.hash| < TWO_63 && forall f :: f in e.hash ==> |f| < TWO_63 && |e.hash[f]| < TWO_63
  }

  /** The fields of a hash in the order they are written. */
  ghost function PairsOf(order: seq<Bytes>, hash: map<Bytes, Bytes>): (pairs: seq<Pair>)
    requires forall i :: 0 <= i < |order| ==> order[i] in hash
    requires forall f :: f in hash ==> |f| < TWO_63 && |hash[f]| < TWO_63
    ensures |pairs| == |order|
  {
    seq(|order|, i requires 0 <= i < |order| => (order[i], hash[order[i]]))
  }

  /** `out[field] = value`, one pair after another. */
  function FromPairs(pairs: seq<Pair>): map<Bytes, Bytes> {
    if pairs == [] then map[]
    else
      var last := pairs[|pairs| - 1];
      FromPairs(pairs[..|pairs| - 1])[last.0 := last.1]
  }

  lemma {:induction false} PairsBack(order: seq<Bytes>, hash: map<Bytes, Bytes>)
    requires forall i :: 0 <= i < |order| ==> order[i] in hash
    requires forall f :: f in hash ==> |f| < TWO_63 && |hash[f]| < TWO_63
    ensures FromPairs(PairsOf(order, hash)) == map f | f in Elements(order) :: hash[f]
    decreases |order|
  {
    if order != [] {
      var n := |order| - 1;
      PairsBack(order[..n], hash);
      assert PairsOf(order, hash)[..n] == PairsOf(order[..n], hash);
      assert Elements(order) == Elements(order[..n]) + {order[n]};
    }
  }

  lemma {:induction false} ListsCount(order: seq<Bytes>, s: set<Bytes>)
    requires Lists(order, s)
    ensures |order| == |s| && forall i :: 0 <= i < |order| ==> order[i] in s
    decreases |order|
  {
    if order != [] {
      var n := |order| - 1;
      assert Elements(order) == Elements(order[..n]) + {order[n]};
      assert order[n] !in Elements(order[..n]);
      ListsCount(order[..n], s - {order[n]});
      assert forall i :: 0 <= i < n ==> order[i] in Elements(order);
    }
  }

  ghost function BodyAs(e: SnapshotEntry, order: seq<Bytes>): (b: Body)
    requires Known(e.kind) && Sized(e) && Lists(order, e.hash.Keys)
    ensures BodyOf(e.kind, b)
  {
    ListsCount(order, e.hash.Keys);
    if e.kind == STRING then Single(e.value)
    else if e.kind == LIST then Listed(e.list)
    else if e.kind == SET then Listed(e.members)
    else Paired(PairsOf(order, e.hash))
  }

  ghost function RawOf(e: SnapshotEntry, order: seq<Bytes>): Raw
    requires Known(e.kind) && Sized(e) && Lists(order, e.hash.Keys)
  {
    RawEntry(e.kind, NanosOf(e.expireAt), e.key, BodyAs(e, order))
  }

  function EntryOf(r: Raw): SnapshotEntry {
    var at := TimeOf(r.nanos);
    match r.body
    case Single(bytes) => SnapshotEntry(r.key, r.kind, at, bytes, [], map[], [])
    case Listed(items) =>
      if r.kind == LIST then SnapshotEntry(r.key, r.kind, at, [], items, map[], [])
      else SnapshotEntry(r.key, r.kind, at, [], [], map[], items)
    case Paired(pairs) => SnapshotEntry(r.key, r.kind, at, [], [], FromPairs(pairs), [])
  }

  /** What an entry becomes in a file: itself, but for a deadline out of range. */
  function Filed(e: SnapshotEntry): SnapshotEntry {
    e.(expireAt := TimeOf(NanosOf(e.expireAt)))
  }

  /** Whatever order its hash is written in, an entry comes back. */
  lemma EntryBack(e: SnapshotEntry, order: seq<Bytes>)
    requires Tidy(e) && Sized(e) && Lists(order, e.hash.Keys)
    ensures EntryOf(RawOf(e, order)) == Filed(e)
  {
    ListsCount(order, e.hash.Keys);
    if e.kind == HASH {
      PairsBack(order, e.hash);
      assert (map f | f in Elements(order) :: e.hash[f]) == e.hash;
    }
  }

  /** The limits the reader sets. */
  predicate FitsEntry(e: SnapshotEntry) {
    |e.key| <= MAX_FIELD && |e.value| <= MAX_FIELD && FitsList(e.list) && FitsList(e.members) &&
    |e.hash| <= MAX_ENTRIES && forall f :: f in e.hash ==> |f| <= MAX_FIELD && |e.hash[f]| <= MAX_FIELD
  }

  predicate FitsList(items: seq<Bytes>) {
    |items| <= MAX_ENTRIES && forall i :: 0 <= i < |items| ==> |items[i]| <= MAX_FIELD
  }

  lemma FitsAlike(e: SnapshotEntry, order: seq<Bytes>)
    requires Tidy(e) && Sized(e) && Lists(order, e.hash.Keys)
    ensures FitsRaw(RawOf(e, order)) <==> FitsEntry(e)
  {
    ListsCount(order, e.hash.Keys);
    if e.kind == HASH {
      PairsFit(order, e.hash);
    }
  }

  lemma PairsFit(order: seq<Bytes>, hash: map<Bytes, Bytes>)
    requires Lists(order, hash.Keys) && forall i :: 0 <= i < |order| ==> order[i] in hash
    requires forall f :: f in hash ==> |f| < TWO_63 && |hash[f]| < TWO_63
    ensures All(FitsPair, PairsOf(order, hash)) <==> forall f :: f in hash ==> |f| <= MAX_FIELD && |hash[f]| <= MAX_FIELD
  {
    var pairs := PairsOf(order, hash);
    if All(FitsPair, pairs) {
      forall f | f in hash
        ensures |f| <= MAX_FIELD && |hash[f]| <= MAX_FIELD
      {
        assert f in Elements(order);
        var i :| 0 <= i < |order| && order[i] == f;
        assert FitsPair(pairs[i]);
      }
    }
  }

  /** Entries, and an order for the fields of each. */
  ghost predicate Ordered(es: seq<SnapshotEntry>, orders: seq<seq<Bytes>>) {
    |orders| == |es| && forall i :: 0 <= i < |es| ==> Known(es[i].kind) && Sized(es[i]) && Lists(orders[i], es[i].hash.Keys)
  }

  ghost function Raws(es: seq<SnapshotEntry>, orders: seq<seq<Bytes>>): (raws: seq<Raw>)
    requires Ordered(es, orders)
    ensures |raws| == |es|
  {
    seq(|es|, i requires 0 <= i < |es| => RawOf(es[i], orders[i]))
  }

  function Entries(raws: seq<Raw>): (es: seq<SnapshotEntry>)
    ensures |es| == |raws|
  {
    seq(|raws|, i requires 0 <= i < |raws| => EntryOf(raws[i]))
  }

  /** What `Decode` makes of some bytes. */
  function ReadEntries(s: Bytes): Parsed<seq<SnapshotEntry>> {
    var raws := ReadRaws(s);
    if raws.Err? then Err(raws.fault) else Ok(Entries(raws.value), raws.rest)
  }

  predicate AllTidy(es: seq<SnapshotEntry>) {
    forall i :: 0 <= i < |es| ==> Tidy(es[i])
  }

  predicate AllFit(es: seq<SnapshotEntry>) {
    |es| <= MAX_ENTRIES && forall i :: 0 <= i < |es| ==> FitsEntry(es[i])
  }

  function FiledAll(es: seq<SnapshotEntry>): seq<SnapshotEntry> {
    seq(|es|, i requires 0 <= i < |es| => Filed(es[i]))
  }

  /**
   The snapshot round trip. Whatever orders the hashes were written in, reading the written bytes gives back every
   entry, in order, and consumes exactly those bytes; it does so exactly within the limits, which writing never checks.
   */
  lemma SnapshotBack(es: seq<SnapshotEntry>, orders: seq<seq<Bytes>>, more: Bytes)
    requires Ordered(es, orders) && AllTidy(es) && |es| < TWO_63
    ensures ReadEntries(WriteRaws(Raws(es, orders)) + more) ==
            if AllFit(es) then Ok(FiledAll(es), more) else Err(Malformed)
  {
    hide RawOf, EntryOf, FitsRaw, FitsEntry, Filed, ReadRaws, WriteRaws;
    var raws := Raws(es, orders);
    RawsBack(raws, more);
    forall i | 0 <= i < |es|
      ensures FitsRaw(raws[i]) == FitsEntry(es[i]) && EntryOf(raws[i]) == Filed(es[i])
    {
      FitsAlike(es[i], orders[i]);
      EntryBack(es[i], orders[i]);
    }
    assert Entries(raws) == FiledAll(es);
  }

  method WriteBytes(w: Writer, b: Chunk)
    modifies w
    ensures w.out == old(w.out) + WriteChunk(b)
  {
    w.Write(U64(|b|));
    w.Write(b);
  }

  method WriteByteList(w: Writer, items: seq<Chunk>)
    modifies w
    ensures w.out == old(w.out) + WriteCounted(WriteChunk, items)
  {
    w.Write(U64(|items|));
    ghost var before := w.out;
    for i := 0 to |items|
      invariant w.out == before + WriteAll(WriteChunk, items[..i])
    {
      WriteBytes(w, items[i]);
      WriteAllStep(WriteChunk, items, i, before);
    }
    assert items[..|items|] == items;
  }

  lemma ListsMore(order: seq<Bytes>, s: set<Bytes>, f: Bytes)
    requires Lists(order, s) && f !in s
    ensures Lists(order + [f], s + {f})
  {
    assert Elements(order + [f]) == Elements(order) + {f};
    assert forall i :: 0 <= i < |order| ==> order[i] in Elements(order);
  }

  lemma ListsNothing(hash: map<Bytes, Bytes>)
    requires forall f :: f in hash ==> |f| < TWO_63 && |hash[f]| < TWO_63
    ensures Lists([], {}) && WriteAll(WritePair, PairsOf([], hash)) == []
  {
  }

  /** The loop over a hash visits its fields in an order of its own. */
  method WriteHash(w: Writer, hash: map<Bytes, Bytes>) returns (ghost order: seq<Bytes>)
    requires forall f :: f in hash ==> |f| < TWO_63 && |hash[f]| < TWO_63
    modifies w
    ensures Lists(order, hash.Keys) && |order| == |hash| && forall i :: 0 <= i < |order| ==> order[i] in hash
    ensures w.out == old(w.out) + WriteCounted(WritePair, PairsOf(order, hash))
  {
    hide WriteChunk, WriteAll, Lists, U64, PairsOf;
    w.Write(U64(|hash|));
    ghost var before := w.out;
    ListsNothing(hash);
    var todo := hash.Keys;
    order := [];
    ghost var seen: set<Bytes> := {};
    while todo != {}
      invariant todo <= hash.Keys && seen == hash.Keys - todo && Lists(order, seen)
      invariant forall i :: 0 <= i < |order| ==> order[i] in hash
      invariant w.out == before + WriteAll(WritePair, PairsOf(order, hash))
    {
      var f :| f in todo;
      todo := todo - {f};
      WriteBytes(w, f);
      WriteBytes(w, hash[f]);
      OneMorePair(order, f, hash, before);
      ListsMore(order, seen, f);
      order, seen := order + [f], seen + {f};
    }
    assert seen == hash.Keys;
    ListsCount(order, hash.Keys);
  }

  lemma OneMorePair(order: seq<Bytes>, f: Bytes, hash: map<Bytes, Bytes>, before: Bytes)
    requires f in hash && forall i :: 0 <= i < |order| ==> order[i] in hash
    requires forall g :: g in hash ==> |g| < TWO_63 && |hash[g]| < TWO_63
    ensures before + WriteAll(WritePair, PairsOf(order, hash)) + WriteChunk(f) + WriteChunk(hash[f]) ==
            before + WriteAll(WritePair, PairsOf(order + [f], hash))
  {
    hide WriteChunk;
    var pairs := PairsOf(order + [f], hash);
    assert pairs[..|order|] == PairsOf(order, hash) && pairs[|order|] == (f, hash[f]);
  }

  /** `encodeEntry`: the fields common to all kinds are out before an unknown kind is refused. */
  method EncodeEntry(w: Writer, e: SnapshotEntry) returns (ok: bool, ghost order: seq<Bytes>)
    requires Sized(e)
    modifies w
    ensures ok == Known(e.kind)
    ensures ok ==> Lists(order, e.hash.Keys) && w.out == old(w.out) + WriteRaw(RawOf(e, order))
  {
    hide WriteChunk, I64, WriteCounted;
    order := SomeOrder(e.hash.Keys);
    w.Write([e.kind]);
    w.Write(I64(NanosOf(e.expireAt)));
    WriteBytes(w, e.key);
    ok := true;
    if e.kind == STRING {
      WriteBytes(w, e.value);
    } else if e.kind == LIST {
      WriteByteList(w, e.list);
    } else if e.kind == HASH {
      order := WriteHash(w, e.hash);
    } else if e.kind == SET {
      WriteByteList(w, e.members);
    } else {
      ok := false;
    }
    if ok { EntryWritten(old(w.out), e, order); }
  }

  lemma EntryWritten(before: Bytes, e: SnapshotEntry, order: seq<Bytes>)
    requires Known(e.kind) && Sized(e) && Lists(order, e.hash.Keys)
    ensures before + [e.kind] + I64(NanosOf(e.expireAt)) + WriteChunk(e.key) + WriteBody(BodyAs(e, order)) ==
            before + WriteRaw(RawOf(e, order))
  {
  }

  ghost function SomeOrder(s: set<Bytes>): (order: seq<Bytes>)
    ensures Lists(order, s)
    decreases |s|
  {
    if s == {} then []
    else
      var b :| b in s;
      var rest := SomeOrder(s - {b});
      assert b !in Elements(rest);
      assert Elements(rest + [b]) == Elements(rest) + {b};
      rest + [b]
  }

  /** `Encode` */
  method Encode(w: Writer, es: seq<SnapshotEntry>) returns (ok: bool, ghost orders: seq<seq<Bytes>>)
    requires forall i :: 0 <= i < |es| ==> Sized(es[i])
    modifies w
    ensures ok == forall i :: 0 <= i < |es| ==> Known(es[i].kind)
    ensures ok ==> Ordered(es, orders) && w.out == old(w.out) + WriteRaws(Raws(es, orders))
  {
    hide WriteRaw, RawOf, Lists, Sized;
    w.Write(MAGIC);
    w.Write(U64(|es|));
    ghost var before := w.out;
    orders := [];
    for i := 0 to |es|
      invariant |orders| == i && Ordered(es[..i], orders)
      invariant w.out == before + WriteAll(WriteRaw, Raws(es[..i], orders))
    {
      ghost var order;
      ok, order := EncodeEntry(w, es[i]);
      if !ok { return; }
      OneMoreRaw(es, orders, i, order, before);
      orders := orders + [order];
    }
    assert es[..|es|] == es;
    ok := true;
  }

  lemma OneMoreRaw(es: seq<SnapshotEntry>, orders: seq<seq<Bytes>>, i: nat, order: seq<Bytes>, before: Bytes)
    requires i < |es| && Ordered(es[..i], orders) && Known(es[i].kind) && Sized(es[i]) && Lists(order, es[i].hash.Keys)
    ensures Ordered(es[..i + 1], orders + [order])
    ensures before + WriteAll(WriteRaw, Raws(es[..i], orders)) + WriteRaw(RawOf(es[i], order)) ==
            before + WriteAll(WriteRaw, Raws(es[..i + 1], orders + [order]))
  {
    hide WriteRaw, RawOf, Lists, Sized, Known;
    var next := Raws(es[..i + 1], orders + [order]);
    assert next[..i] == Raws(es[..i], orders) && next[i] == RawOf(es[i], order);
  }

  /** `readBytes` */
  method ReadBytes(reader: Reader) returns (r: Result<Chunk>)
    modifies reader
    ensures reader.Follows(ReadChunk(old(reader.unread)), r)
  {
    var n := ReadLength(reader);
    if n.Failure? { return Failure(n.fault); }
    if n.value > MAX_FIELD { return Failure(Malformed); }
    r := reader.ReadFull(n.value);
  }

  /** `readU64` */
  method ReadLength(reader: Reader) returns (r: Result<nat>)
    modifies reader
    ensures reader.Follows(ReadU64(old(reader.unread)), r)
  {
    var b := reader.ReadFull(8);
    r := if b.Failure? then Failure(b.fault) else Success(FromLittle(b.value));
  }

  method ReadByteList(reader: Reader) returns (r: Result<seq<Chunk>>)
    modifies reader
    ensures reader.Follows(Counted(ReadChunk, old(reader.unread)), r)
  {
    hide ReadChunk;
    var count := ReadLength(reader);
    if count.Failure? { return Failure(count.fault); }
    if count.value > MAX_ENTRIES { return Failure(Malformed); }
    ghost var start := reader.unread;
    var items: seq<Chunk> := [];
    for i := 0 to count.value
      invariant Repeat(ReadChunk, start, i) == Ok(items, reader.unread)
    {
      var item := ReadBytes(reader);
      if item.Failure? {
        RepeatFault(ReadChunk, start, i + 1, count.value);
        return Failure(item.fault);
      }
      items := items + [item.value];
    }
    r := Success(items);
  }

  /** `readHash`: a field that comes twice keeps its last value. */
  method ReadHash(reader: Reader) returns (r: Result<map<Bytes, Bytes>>, ghost pairs: seq<Pair>)
    modifies reader
    ensures reader.Follows(Counted(ReadPair, old(reader.unread)), if r.Success? then Success(pairs) else Failure(r.fault))
    ensures r.Success? ==> r.value == FromPairs(pairs)
  {
    hide ReadChunk;
    pairs := [];
    var count := ReadLength(reader);
    if count.Failure? { return Failure(count.fault), pairs; }
    if count.value > MAX_ENTRIES { return Failure(Malformed), pairs; }
    ghost var start := reader.unread;
    var out: map<Bytes, Bytes> := map[];
    for i := 0 to count.value
      invariant Repeat(ReadPair, start, i) == Ok(pairs, reader.unread) && out == FromPairs(pairs)
    {
      var field := ReadBytes(reader);
      if field.Failure? {
        RepeatFault(ReadPair, start, i + 1, count.value);
        return Failure(field.fault), pairs;
      }
      var value := ReadBytes(reader);
      if value.Failure? {
        RepeatFault(ReadPair, start, i + 1, count.value);
        return Failure(value.fault), pairs;
      }
      OneMoreField(pairs, (field.value, value.value));
      out := out[field.value := value.value];
      pairs := pairs + [(field.value, value.value)];
    }
    r := Success(out);
  }

  lemma OneMoreField(pairs: seq<Pair>, p: Pair)
    ensures FromPairs(pairs + [p]) == FromPairs(pairs)[p.0 := p.1]
  {
    assert (pairs + [p])[..|pairs|] == pairs;
  }

  function ReadEntry(s: Bytes): Parsed<SnapshotEntry> {
    var raw := ReadRaw(s);
    if raw.Err? then Err(raw.fault) else Ok(EntryOf(raw.value), raw.rest)
  }

  /** `decodeEntry` */
  method DecodeEntry(reader: Reader) returns (r: Result<SnapshotEntry>)
    modifies reader
    ensures reader.Follows(ReadEntry(old(reader.unread)), r)
  {
    hide ReadChunk, Counted, FromPairs;
    var kind := reader.ReadFull(1);
    if kind.Failure? { return Failure(kind.fault); }
    var nanos := ReadTime(reader);
    if nanos.Failure? { return Failure(nanos.fault); }
    var key := ReadBytes(reader);
    if key.Failure? { return Failure(key.fault); }
    var at := TimeOf(nanos.value);
    var k := kind.value[0];
    if k == STRING {
      var b := ReadBytes(reader);
      r := if b.Failure? then Failure(b.fault) else Success(SnapshotEntry(key.value, k, at, b.value, [], map[], []));
    } else if k == LIST {
      var l := ReadByteList(reader);
      r := if l.Failure? then Failure(l.fault) else Success(SnapshotEntry(key.value, k, at, [], l.value, map[], []));
    } else if k == HASH {
      var h;
      ghost var pairs;
      h, pairs := ReadHash(reader);
      r := if h.Failure? then Failure(h.fault) else Success(SnapshotEntry(key.value, k, at, [], [], h.value, []));
    } else if k == SET {
      var m := ReadByteList(reader);
      r := if m.Failure? then Failure(m.fault) else Success(SnapshotEntry(key.value, k, at, [], [], map[], m.value));
    } else {
      r := Failure(Malformed);
    }
  }

  method ReadTime(reader: Reader) returns (r: Result<int>)
    modifies reader
    ensures reader.Follows(ReadI64(old(reader.unread)), r)
  {
    var n := ReadLength(reader);
    r := if n.Failure? then Failure(n.fault) else Success(if n.value >= TWO_63 then n.value - TWO_64 else n.value);
  }

  /** `Decode` */
  method Decode(reader: Reader) returns (r: Result<seq<SnapshotEntry>>)
    modifies reader
    ensures reader.Follows(ReadEntries(old(reader.unread)), r)
  {
    hide ReadRaw, EntryOf;
    var header := reader.ReadFull(|MAGIC|);
    if header.Failure? { return Failure(header.fault); }
    if header.value != MAGIC { return Failure(Malformed); }
    var count := ReadLength(reader);
    if count.Failure? { return Failure(count.fault); }
    if count.value > MAX_ENTRIES { return Failure(Malformed); }
    ghost var start := reader.unread;
    ghost var raws: seq<Raw> := [];
    var es: seq<SnapshotEntry> := [];
    for i := 0 to count.value
      invariant Repeat(ReadRaw, start, i) == Ok(raws, reader.unread) && es == Entries(raws)
    {
      ghost var here := ReadRaw(reader.unread);
      var e := DecodeEntry(reader);
      if e.Failure? {
        RepeatFault(ReadRaw, start, i + 1, count.value);
        return Failure(e.fault);
      }
      raws := raws + [here.value];
      es := es + [e.value];
    }
    r := Success(es);
  }
}
