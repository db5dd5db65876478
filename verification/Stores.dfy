/** The store: shards indexed by a masked hash of the key. Its state is the flattening of its shards. */
module Stores {
  import opened Accounting
  import opened ByteStrings
  import opened Clock
  import opened Commands
  import opened Keyspace
  import opened Numbers
  import opened Shards
  import opened Sharding
  import opened SnapshotEntries
  import opened Values

  lemma FlattenSettled(ss: seq<Stock>, index: Bytes -> nat, key: Bytes, after: Option<Record>, leak: nat)
    requires Routed(ss, index) && index(key) < |ss|
    ensures var i := index(key);
            var next := ss[i := Settled(ss[i], key, after, leak)];
            Routed(next, index) && Flatten(next) == Settled(Flatten(ss), key, after, leak)
  {
    var i := index(key);
    FlattenFind(ss, index, key);
    var s, whole := Settled(ss[i], key, after, leak), Settled(Flatten(ss), key, after, leak);
    forall other
      ensures Slot(whole.data, other) == if index(other) == i then Slot(s.data, other) else Slot(Flatten(ss).data, other)
    {
      FlattenFind(ss, index, other);
      PlaceSlot(Flatten(ss).data, key, other, after);
      PlaceSlot(ss[i].data, key, other, after);
    }
    FlattenChange(ss, index, i, s, whole);
  }

  /** A power of two of shards, and a mask of as many ones as it has zeros, as far as 32 bits go. */
  ghost predicate MaskFor(n: nat, mask: nat) {
    exists k: nat :: k <= 62 && n == Pow2(k) && mask == Pow2(if k < 32 then k else 32) - 1
  }

  /** The mask is the number of shards less one, cut to 32 bits. */
  lemma FitsMask(n: nat, requested: int)
    requires LeastPow2(n, requested) && requested <= Pow2(62)
    ensures n >= 1 && MaskFor(n, (n - 1) % 0x1_0000_0000)
  {
    hide Pow2;
    assert IsPow2(Pow2(62));
    var k: nat :| Pow2(k) == n;
    if k > 62 {
      Pow2Grows(62, k);
    } else {
      Pow2Of32();
      MaskCut(k);
    }
  }

  lemma MaskCut(k: nat)
    requires k <= 62 && Pow2(32) == 0x1_0000_0000
    ensures (Pow2(k) - 1) % Pow2(32) == Pow2(if k < 32 then k else 32) - 1
  {
    hide Pow2;
    if k < 32 {
      Pow2Grows(k, 32);
      ModIs(Pow2(k) - 1, Pow2(32), 0, Pow2(k) - 1);
    } else {
      Pow2Sum(k - 32, 32);
      var q := Pow2(k - 32);
      assert Pow2(k) - 1 == (q - 1) * Pow2(32) + (Pow2(32) - 1);
      ModIs(Pow2(k) - 1, Pow2(32), q - 1, Pow2(32) - 1);
    }
  }

  /** Masking a 32-bit hash gives its remainder by the number of shards, more than 2^32 of them included. */
  lemma MaskedIndex(hash: uint32, n: nat, mask: nat)
    requires n >= 1 && MaskFor(n, mask)
    ensures And(hash, mask) == hash % n
  {
    hide Pow2, And;
    var k: nat :| k <= 62 && n == Pow2(k) && mask == Pow2(if k < 32 then k else 32) - 1;
    MaskIsMod(hash, if k < 32 then k else 32);
    if k >= 32 {
      Pow2Of32();
      Pow2Monotone(32, k);
      ModIs(hash, Pow2(32), 0, hash);
      ModIs(hash, Pow2(k), 0, hash);
    }
  }

  ghost predicate AllEmpty(made: seq<Shard>)
    reads made
  {
    (forall i :: 0 <= i < |made| ==> made[i].data == map[] && made[i].State() == Stock(map[], 0, 0)) &&
    (forall i, j :: 0 <= i < j < |made| ==> made[i] != made[j])
  }

  method MakeShards(n: nat) returns (made: seq<Shard>)
    ensures |made| == n && fresh(made) && AllEmpty(made)
  {
    made := [];
    while |made| < n
      invariant |made| <= n && fresh(made) && AllEmpty(made)
    {
      var sh := new Shard();
      made := made + [sh];
    }
  }

  lemma PrefixStep(ss: seq<Stock>, i: nat, now: Time)
    requires i < |ss|
    ensures LiveCount(ss[..i + 1], now) == LiveCount(ss[..i], now) + |View(ss[i].data, now)|
    ensures Flatten(ss[..i + 1]).used == Flatten(ss[..i]).used + ss[i].used
    ensures Flatten(ss[..i + 1]).expired == Flatten(ss[..i]).expired + ss[i].expired
  {
    assert ss[..i + 1][..i] == ss[..i];
  }

  /** Each shard so far has lost what its own cycle promises. */
  ghost predicate EachSampled(before: seq<Stock>, clock: seq<Time>, gone: seq<set<Bytes>>) {
    |gone| <= |clock| && |gone| <= |before| && forall i :: 0 <= i < |gone| ==> Sampled(before[i].data, clock[i], gone[i])
  }

  lemma NoneSampled(before: seq<Stock>, clock: seq<Time>)
    ensures EachSampled(before, clock, []) && Union([]) == {}
  {
  }

  lemma OneMoreSampled(before: seq<Stock>, clock: seq<Time>, gone: seq<set<Bytes>>, more: set<Bytes>)
    requires EachSampled(before, clock, gone) && |gone| < |clock| && |gone| < |before|
    requires Sampled(before[|gone|].data, clock[|gone|], more)
    ensures EachSampled(before, clock, gone + [more]) && Union(gone + [more]) == Union(gone) + more
  {
    hide Sampled;
    assert (gone + [more])[..|gone|] == gone;
  }

  class Store {
    const shards: seq<Shard>
    const mask: nat
    /** FNV-1a in the program; any deterministic 32-bit hash here. */
    const hash: Bytes -> uint32

    function Index(key: Bytes): nat {
      And(hash(key), mask)
    }

    /** The entries the shards may hold. */
    ghost var cells: set<Entry>

    ghost predicate Apart()
      reads shards
    {
      forall i, j :: 0 <= i < j < |shards| ==> shards[i] != shards[j] && shards[i].data.Values !! shards[j].data.Values
    }

    ghost predicate Valid()
      reads this, shards, cells
    {
      MaskFor(|shards|, mask) && Sound() && Routed(Stocks(), Index)
    }

    ghost function Stocks(): seq<Stock>
      reads shards
    {
      seq(|shards|, i requires 0 <= i < |shards| reads shards => shards[i].State())
    }

    ghost function State(): Stock
      reads shards
    {
      Flatten(Stocks())
    }

    /** The masked hash is the hash modulo the number of shards, so it always names a shard. */
    lemma IndexInRange(key: Bytes)
      requires Valid()
      ensures Index(key) == hash(key) % |shards| && Index(key) < |shards|
    {
      MaskedIndex(hash(key), |shards|, mask);
    }

    lemma SomeShard()
      requires Valid()
      ensures |shards| >= 1
    {
    }

    /** `shardFor`: the shard a key belongs to, and its index. */
    method ShardFor(key: Bytes) returns (sh: Shard, ghost i: nat)
      requires Valid()
      ensures i == Index(key) < |shards| && sh == shards[i]
    {
      i := Index(key);
      IndexInRange(key);
      sh := shards[And(hash(key), mask)];
    }

    /** The part of validity that concerns the heap: sound shards that share nothing. */
    ghost predicate Sound()
      reads this, shards, cells
    {
      Apart() && forall i :: 0 <= i < |shards| ==> shards[i].data.Values <= cells && shards[i].Valid()
    }

    method DoAt(sh: Shard, ghost i: nat, key: Bytes, op: Op, now: Time) returns (o: Outcome)
      requires Sound() && i < |shards| && sh == shards[i] && (op.IncrBy? ==> FitsInt64(op.delta))
      modifies this, shards, cells
      ensures Sound() && fresh(cells - old(cells))
      ensures Stocks() == old(Stocks())[i := StepStock(old(Stocks())[i], key, op, now)]
      ensures Shows(Answer(old(Stocks())[i].data, key, op, now), o)
    {
      hide Answer, Shows, StepStock, Shard.Valid;
      o := sh.Perform(key, op, now);
      cells := cells + sh.data.Values;
    }

    /** Any operation on a key: pick its shard and run the operation there. */
    method Do(key: Bytes, op: Op, now: Time) returns (o: Outcome)
      requires Valid() && (op.IncrBy? ==> FitsInt64(op.delta))
      modifies this, shards, cells
      ensures Valid() && fresh(cells - old(cells))
      ensures State() == StepStock(old(State()), key, op, now)
      ensures Shows(Answer(old(State()).data, key, op, now), o)
    {
      var sh;
      ghost var i;
      sh, i := ShardFor(key);
      FlattenStep(Stocks(), Index, key, op, now);
      o := DoAt(sh, i, key, op, now);
    }

    /** `New` rounds the requested number of shards up to a power of two. */
    constructor (numShards: int, hash: Bytes -> uint32)
      requires numShards <= Pow2(62)
      ensures Valid() && fresh(shards) && cells == {}
      ensures State() == Stock(map[], 0, 0) && this.hash == hash
      ensures LeastPow2(|shards|, numShards)
    {
      hide Flatten, Routed, And, LeastPow2, MaskFor, AllEmpty, Sound, Pow2;
      var n := NextPow2(numShards);
      FitsMask(n, numShards);
      var made := MakeShards(n);
      shards, mask := made, (n - 1) % 0x1_0000_0000;
      this.hash, cells := hash, {};
      new;
      InitiallyEmpty();
    }

    lemma InitiallyEmpty()
      requires AllEmpty(shards)
      ensures Sound() && Routed(Stocks(), Index) && State() == Stock(map[], 0, 0)
    {
      FlattenEmpty(Stocks());
    }

    /** `Len` counts live keys shard by shard, and that is the size of the view. */
    method Len(now: Time) returns (n: nat)
      requires Valid()
      ensures n == |View(State().data, now)|
    {
      n := 0;
      for i := 0 to |shards|
        invariant n == LiveCount(Stocks()[..i], now)
      {
        var k := shards[i].CountLive(now);
        n := n + k;
        PrefixStep(Stocks(), i, now);
      }
      assert Stocks()[..|shards|] == Stocks();
      LiveCountFlat(Stocks(), Index, now);
    }

    method ApproxMemory() returns (total: int)
      requires Valid()
      ensures total == State().used
    {
      total := 0;
      for i := 0 to |shards|
        invariant total == Flatten(Stocks()[..i]).used
      {
        total := total + shards[i].usedMemory;
        PrefixStep(Stocks(), i, 0);
      }
      assert Stocks()[..|shards|] == Stocks();
    }

    method ExpiredKeys() returns (total: nat)
      requires Valid()
      ensures total == State().expired
    {
      total := 0;
      for i := 0 to |shards|
        invariant total == Flatten(Stocks()[..i]).expired
      {
        total := total + shards[i].expiredKeys;
        PrefixStep(Stocks(), i, 0);
      }
      assert Stocks()[..|shards|] == Stocks();
    }

    /** The live size of a key; an expired key is deleted by the query. */
    method EntryMemory(key: Bytes, now: Time) returns (size: int)
      requires Valid()
      modifies shards
      ensures Valid()
      ensures State() == StepStock(old(State()), key, Op.Exists, now)
      ensures size == OptSize(key, Find(old(State()).data, key, now))
    {
      var sh;
      ghost var i;
      sh, i := ShardFor(key);
      FlattenStep(Stocks(), Index, key, Op.Exists, now);
      size := LiveSizeAt(sh, i, key, now);
    }

    method LiveSizeAt(sh: Shard, ghost i: nat, key: Bytes, now: Time) returns (size: int)
      requires Sound() && i < |shards| && sh == shards[i]
      modifies shards
      ensures Sound()
      ensures Stocks() == old(Stocks())[i := StepStock(old(Stocks())[i], key, Op.Exists, now)]
      ensures size == OptSize(key, Find(old(Stocks())[i].data, key, now))
    {
      size := sh.LiveSize(key, now);
    }

    /** Every shard is emptied; only the counts of expired keys stay. */
    method Flush()
      requires Valid()
      modifies shards
      ensures Valid()
      ensures State() == Stock(map[], 0, old(State()).expired)
    {
      hide Flatten, Shard.Valid;
      ghost var before := Stocks();
      for i := 0 to |shards|
        invariant Sound()
        invariant forall j :: 0 <= j < i ==> shards[j].State() == Stock(map[], 0, before[j].expired)
        invariant forall j :: i <= j < |shards| ==> shards[j].State() == before[j]
      {
        shards[i].Reset();
      }
      FlattenReset(before, Stocks());
    }

    /** `ActiveExpireCycle`: each shard in turn, at its own reading of the clock, as its own cycle promises. */
    method ActiveExpireCycle(clock: seq<Time>) returns (ghost gone: seq<set<Bytes>>)
      requires Valid() && |clock| == |shards| && Nondecreasing(clock)
      modifies shards
      ensures Valid()
      ensures |gone| == |shards| && EachSampled(old(Stocks()), clock, gone)
      ensures Union(gone) <= old(State()).data.Keys
      ensures forall key :: key in Union(gone) ==> Expired(old(State()).data[key], clock[|clock| - 1])
      ensures State() == Without(old(State()), Union(gone))
    {
      hide Flatten, Without, Routed, DbSize, Sampled, EachSampled, Union, Sound, MaskFor;
      gone := [];
      ghost var start, before := State(), Stocks();
      WithoutNothing(start);
      NoneSampled(before, clock);
      for i := 0 to |shards|
        invariant Valid() && |gone| == i
        invariant forall j :: i <= j < |shards| ==> Stocks()[j] == before[j]
        invariant EachSampled(before, clock, gone)
        invariant Union(gone) <= start.data.Keys && State() == Without(start, Union(gone))
        invariant forall key :: key in Union(gone) ==> Expired(start.data[key], clock[|clock| - 1])
      {
        var more := ExpireOne(i, clock[i]);
        GoneToo(start, Union(gone), more, clock[i], clock[|clock| - 1]);
        OneMoreSampled(before, clock, gone, more);
        gone := gone + [more];
      }
      SomeShard();
    }

    /** The cycle on one shard, seen from the whole store. */
    method ExpireOne(i: nat, now: Time) returns (ghost gone: set<Bytes>)
      requires Valid() && i < |shards|
      modifies shards
      ensures Valid() && gone <= old(State()).data.Keys
      ensures forall key :: key in gone ==> Expired(old(State()).data[key], now)
      ensures State() == Without(old(State()), gone)
      ensures Sampled(old(Stocks())[i].data, now, gone)
      ensures forall j :: 0 <= j < |shards| && j != i ==> Stocks()[j] == old(Stocks())[j]
    {
      ghost var before := Stocks();
      gone := ExpireAt(i, now);
      SameRecords(before, Index, i, gone);
      FlattenWithout(before, Index, i, gone);
    }

    method ExpireAt(i: nat, now: Time) returns (ghost gone: set<Bytes>)
      requires Sound() && i < |shards|
      modifies shards
      ensures Sound()
      ensures gone <= Stale(old(Stocks())[i].data, now) && Sampled(old(Stocks())[i].data, now, gone)
      ensures Stocks() == old(Stocks())[i := Without(old(Stocks())[i], gone)]
    {
      hide DbSize, MortalIn, StaleIn;
      gone := shards[i].ExpireShard(now);
      assert shards[i].State() == Without(old(shards[i].State()), gone);
    }

    /** `Snapshot`: expired keys are deleted on the way, and every key left is copied once. */
    method Snapshot(now: Time) returns (es: seq<SnapshotEntry>)
      requires Valid()
      modifies shards
      ensures Valid()
      ensures State() == Without(old(State()), Stale(old(State()).data, now))
      ensures State().data == View(old(State()).data, now) && Enumerates(es, State().data)
    {
      hide Without, Routed, DbSize;
      es := [];
      ghost var start, removed := State(), {};
      WithoutNothing(start);
      for i := 0 to |shards|
        invariant Valid()
        invariant removed <= Stale(start.data, now) && State() == Without(start, removed)
        invariant Stale(Flatten(Stocks()[..i]).data, now) == {}
        invariant Enumerates(es, Flatten(Stocks()[..i]).data)
      {
        ghost var before := Stocks();
        var copies, gone := CopyOut(i, now);
        CopiedToo(start, removed, gone, now);
        removed := removed + gone;
        PrefixGrows(before, Stocks(), Index, i, now);
        EnumeratesUnion(es, copies, Flatten(before[..i]).data, Stocks()[i].data);
        es := es + copies;
      }
      assert Stocks()[..|shards|] == Stocks();
      AllStaleGone(start, removed, now);
    }

    method CopyOut(i: nat, now: Time) returns (es: seq<SnapshotEntry>, ghost gone: set<Bytes>)
      requires Valid() && i < |shards|
      modifies shards
      ensures Valid() && |Stocks()| == |old(Stocks())|
      ensures Stocks() == old(Stocks())[i := Stocks()[i]]
      ensures gone <= Stale(old(State()).data, now) && State() == Without(old(State()), gone)
      ensures Stale(Stocks()[i].data, now) == {} && Enumerates(es, Stocks()[i].data)
    {
      hide Enumerates;
      ghost var before := Stocks();
      es, gone := CopyAt(i, now);
      SameRecords(before, Index, i, gone);
      FlattenWithout(before, Index, i, gone);
      NoneStale(before[i], gone, now);
    }

    method CopyAt(i: nat, now: Time) returns (es: seq<SnapshotEntry>, ghost gone: set<Bytes>)
      requires Sound() && i < |shards|
      modifies shards
      ensures Sound()
      ensures gone == Stale(old(Stocks())[i].data, now)
      ensures Stocks() == old(Stocks())[i := Without(old(Stocks())[i], gone)]
      ensures Enumerates(es, Stocks()[i].data)
    {
      hide DbSize, MortalIn, StaleIn, Enumerates;
      es, gone := shards[i].CopyLive(now);
    }

    method Put(key: Bytes, r: Record)
      requires Valid()
      modifies this, shards, cells
      ensures Valid() && fresh(cells - old(cells))
      ensures State() == Settled(old(State()), key, Some(r), 0)
    {
      var sh;
      ghost var i;
      sh, i := ShardFor(key);
      FlattenSettled(Stocks(), Index, key, Some(r), 0);
      PutAt(sh, i, key, r);
    }

    method PutAt(sh: Shard, ghost i: nat, key: Bytes, r: Record)
      requires Sound() && i < |shards| && sh == shards[i]
      modifies this, shards, cells
      ensures Sound() && fresh(cells - old(cells))
      ensures Stocks() == old(Stocks())[i := Settled(old(Stocks())[i], key, Some(r), 0)]
    {
      hide Settled, Shard.Valid;
      var e := new Entry(r.value, r.expireAt);
      sh.SetEntry(key, e);
      cells := cells + {e};
    }

    /** `Restore`: the store is emptied, then filled entry by entry until one is refused. */
    method Restore(entries: seq<SnapshotEntry>, now: Time) returns (ok: bool)
      requires Valid()
      modifies this, shards, cells
      ensures Valid() && fresh(cells - old(cells))
      ensures ok == Restored(entries, now).Some?
      ensures ok ==> State() == Exactly(Restored(entries, now).value, old(State()).expired)
      ensures !ok ==> exists i :: 0 <= i < |entries| && Restored(entries[..i], now).Some? &&
                        State() == Exactly(Restored(entries[..i], now).value, old(State()).expired)
    {
      hide Restored, Exactly, Flatten, Routed, Settled;
      ghost var start := State();
      Flush();
      NothingLoaded(entries, now, start.expired);
      for i := 0 to |entries|
        invariant Valid() && fresh(cells - old(cells))
        invariant Restored(entries[..i], now).Some?
        invariant State() == Exactly(Restored(entries[..i], now).value, start.expired)
      {
        RestoredStep(entries, i, now);
        var e := entries[i];
        if e.key == [] {
          RefusedOnce(entries, i + 1, now);
          return false;
        }
        if e.expireAt != NEVER && e.expireAt < now { continue; }
        var v := ValueOf(e);
        if v.None? {
          RefusedOnce(entries, i + 1, now);
          return false;
        }
        LoadedOne(Restored(entries[..i], now).value, start.expired, e.key, Record(v.value, e.expireAt));
        Put(e.key, Record(v.value, e.expireAt));
      }
      assert entries[..|entries|] == entries;
      ok := true;
    }
  }

  /** A store that holds these entries with an exact memory estimate. */
  ghost function Exactly(db: Db, expired: nat): Stock {
    Stock(db, DbSize(db), expired)
  }

  lemma NothingLoaded(es: seq<SnapshotEntry>, now: Time, expired: nat)
    ensures Restored(es[..0], now) == Some(map[]) && Stock(map[], 0, expired) == Exactly(map[], expired)
  {
    assert DbWeights(map[]) == map[];
  }

  lemma LoadedOne(db: Db, expired: nat, key: Bytes, r: Record)
    ensures Settled(Exactly(db, expired), key, Some(r), 0) == Exactly(db[key := r], expired)
  {
    DbSizePlace(db, key, Some(r));
  }

  lemma CopiedToo(start: Stock, removed: set<Bytes>, gone: set<Bytes>, now: Time)
    requires removed <= Stale(start.data, now) && gone <= Stale(Without(start, removed).data, now)
    ensures removed + gone <= Stale(start.data, now)
    ensures Without(Without(start, removed), gone) == Without(start, removed + gone)
  {
    hide DbSize;
    LeftOver(start.data, removed, now);
    WithoutTwice(start, removed, gone);
  }

  lemma NoneStale(s: Stock, gone: set<Bytes>, now: Time)
    requires gone == Stale(s.data, now)
    ensures Stale(Without(s, gone).data, now) == {}
  {
    hide DbSize;
    LeftOver(s.data, gone, now);
  }

  /** The first shards flattened, after one more of them is done. */
  lemma PrefixGrows(before: seq<Stock>, after: seq<Stock>, index: Bytes -> nat, i: nat, now: Time)
    requires i < |before| && |after| == |before| && after == before[i := after[i]] && Routed(after, index)
    requires Stale(Flatten(before[..i]).data, now) == {} == Stale(after[i].data, now)
    ensures Flatten(after[..i + 1]).data == Flatten(before[..i]).data + after[i].data
    ensures Flatten(before[..i]).data.Keys !! after[i].data.Keys
    ensures Stale(Flatten(after[..i + 1]).data, now) == {}
  {
    assert after[..i + 1][..i] == before[..i];
    forall key | key in Flatten(before[..i]).data
      ensures key !in after[i].data
    {
      assert Routed(before[..i], index) by {
        assert forall j :: 0 <= j < i ==> before[..i][j] == after[j];
      }
      FlattenFind(before[..i], index, key);
      assert Slot(Flatten(before[..i]).data, key).Some?;
    }
    var a, b := Flatten(before[..i]).data, after[i].data;
    forall key | key in a + b
      ensures !Expired((a + b)[key], now)
    {
      assert key in a ==> key !in Stale(a, now);
      assert key in b ==> key !in Stale(b, now);
    }
  }

  lemma AllStaleGone(start: Stock, removed: set<Bytes>, now: Time)
    requires removed <= Stale(start.data, now) && Stale(Without(start, removed).data, now) == {}
    ensures removed == Stale(start.data, now) && Without(start, removed).data == View(start.data, now)
  {
    hide DbSize;
    LeftOver(start.data, removed, now);
    assert Stale(start.data, now) - removed == {};
    assert removed == Stale(start.data, now);
    forall key
      ensures key in start.data - removed <==> key in View(start.data, now)
    {
    }
  }

  lemma GoneToo(start: Stock, removed: set<Bytes>, gone: set<Bytes>, now: Time, end: Time)
    requires removed <= start.data.Keys && gone <= Without(start, removed).data.Keys && now <= end
    requires forall key :: key in removed ==> Expired(start.data[key], end)
    requires forall key :: key in gone ==> Expired(Without(start, removed).data[key], now)
    ensures removed + gone <= start.data.Keys && Without(Without(start, removed), gone) == Without(start, removed + gone)
    ensures forall key :: key in removed + gone ==> Expired(start.data[key], end)
  {
    WithoutTwice(start, removed, gone);
  }

  lemma {:induction false} FlattenEmpty(ss: seq<Stock>)
    requires forall i :: 0 <= i < |ss| ==> ss[i] == Stock(map[], 0, 0)
    ensures Flatten(ss) == Stock(map[], 0, 0)
  {
    if ss != [] {
      FlattenEmpty(ss[..|ss| - 1]);
    }
  }

  lemma {:induction false} FlattenReset(before: seq<Stock>, after: seq<Stock>)
    requires |after| == |before|
    requires forall i :: 0 <= i < |after| ==> after[i] == Stock(map[], 0, before[i].expired)
    ensures Flatten(after) == Stock(map[], 0, Flatten(before).expired)
  {
    if before != [] {
      var n := |before| - 1;
      FlattenReset(before[..n], after[..n]);
    }
  }
}
