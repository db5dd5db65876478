/** How keys are spread over shards, and what the shards add up to. */
module Sharding {
  import opened Accounting
  import opened ByteStrings
  import opened Clock
  import opened Keyspace
  import opened Numbers
  import opened Runs
  import opened Values

  type uint32 = n: int | 0 <= n < 0x1_0000_0000

  function Pow2(k: nat): (p: nat)
    ensures p >= 1
  {
    if k == 0 then 1 else 2 * Pow2(k - 1)
  }

  ghost predicate IsPow2(n: nat) {
    exists k: nat :: Pow2(k) == n
  }

  lemma {:induction false} Pow2Monotone(a: nat, b: nat)
    requires a <= b
    ensures Pow2(a) <= Pow2(b)
    decreases b - a
  {
    if a < b {
      Pow2Monotone(a, b - 1);
    }
  }

  lemma Pow2Grows(a: nat, b: nat)
    requires a < b
    ensures Pow2(a) < Pow2(b)
  {
    Pow2Monotone(a + 1, b);
  }

  /** The least power of two that is at least `n`, and so at least 1. */
  ghost predicate LeastPow2(p: nat, n: int) {
    IsPow2(p) && p >= n && forall q: nat :: IsPow2(q) && q >= n ==> p <= q
  }

  lemma Pow2Next(k: nat)
    ensures Pow2(k + 1) == 2 * Pow2(k) && Pow2(0) == 1
  {
  }

  lemma OneIsLeast()
    ensures IsPow2(1) && forall q: nat :: IsPow2(q) ==> q >= 1
  {
    assert Pow2(0) == 1;
  }

  lemma LeastFound(k: nat, n: int)
    requires Pow2(k) >= n && (k > 0 ==> Pow2(k - 1) < n)
    ensures LeastPow2(Pow2(k), n)
  {
    forall q: nat | IsPow2(q) && q >= n
      ensures Pow2(k) <= q
    {
      var j: nat :| Pow2(j) == q;
      if j < k {
        Pow2Monotone(j, k - 1);
      } else {
        Pow2Monotone(k, j);
      }
    }
  }

  /** `nextPow2`: doubling stops at the least power of two that is large enough, if it fits in 64 bits. */
  method NextPow2(n: int) returns (p: nat)
    requires n <= Pow2(62)
    ensures LeastPow2(p, n) && p <= Pow2(62)
  {
    hide Pow2;
    Pow2Next(0);
    if n < 1 {
      OneIsLeast();
      return 1;
    }
    p := 1;
    ghost var k: nat := 0;
    while p < n
      invariant p == Pow2(k) && k <= 62
      invariant k > 0 ==> Pow2(k - 1) < n
      decreases 62 - k
    {
      Pow2Next(k);
      p := 2 * p;
      k := k + 1;
    }
    Pow2Monotone(k, 62);
    LeastFound(k, n);
  }

  /** Beyond 2^62 no power of two that large is a 64-bit integer: the doubling would overflow before it stops. */
  lemma NoLargerPow2(n: int, q: nat)
    requires n > Pow2(62) && IsPow2(q) && q >= n
    ensures q > MAX_INT64
  {
    var j: nat :| Pow2(j) == q;
    if j <= 62 {
      Pow2Monotone(j, 62);
    }
    Pow2Monotone(63, j);
    Pow2Of63();
  }

  lemma Pow2Of63()
    ensures Pow2(63) == TWO_63
  {
    assert Pow2(16) == 0x1_0000;
    Pow2Sum(16, 16);
    Pow2Sum(32, 16);
    assert Pow2(15) == 0x8000;
    Pow2Sum(48, 15);
  }

  lemma {:induction false} Pow2Sum(a: nat, b: nat)
    ensures Pow2(a + b) == Pow2(a) * Pow2(b)
    decreases b
  {
    if b > 0 {
      Pow2Sum(a, b - 1);
      assert Pow2(a) * (2 * Pow2(b - 1)) == 2 * (Pow2(a) * Pow2(b - 1));
    }
  }

  lemma Pow2Of32()
    ensures Pow2(32) == 0x1_0000_0000
  {
    assert Pow2(8) == 256;
    Pow2Sum(8, 8);
    Pow2Sum(16, 16);
  }

  /** Bitwise and of two naturals. */
  function And(a: nat, b: nat): nat {
    if a == 0 || b == 0 then 0 else 2 * And(a / 2, b / 2) + (a % 2) * (b % 2)
  }

  lemma ModByDouble(h: nat, m: nat)
    requires m >= 1
    ensures h % (2 * m) == 2 * ((h / 2) % m) + h % 2
  {
    var q, r := (h / 2) / m, (h / 2) % m;
    assert h == 2 * (h / 2) + h % 2;
    assert h / 2 == q * m + r;
    assert h == q * (2 * m) + (2 * r + h % 2);
    ModIs(h, 2 * m, q, 2 * r + h % 2);
  }

  lemma ModIs(h: nat, m: nat, q: nat, r: nat)
    requires h == q * m + r && r < m
    ensures h % m == r
  {
    var d: int := h / m - q;
    assert h == (h / m) * m + h % m;
    assert d * m == r - h % m;
    assert d >= 1 ==> d * m >= m;
    assert d <= -1 ==> d * m + m <= 0;
  }

  /** Masking with a power of two less one is the remainder by that power. */
  lemma {:induction false} MaskIsMod(h: nat, k: nat)
    ensures And(h, Pow2(k) - 1) == h % Pow2(k)
    decreases k
  {
    if k == 0 {
      assert h % 1 == 0;
    } else if h == 0 {
      assert 0 % Pow2(k) == 0;
    } else {
      var m := Pow2(k - 1);
      assert (2 * m - 1) / 2 == m - 1 && (2 * m - 1) % 2 == 1;
      MaskIsMod(h / 2, k - 1);
      ModByDouble(h, m);
    }
  }

  /** The shards as one stock: their entries together, their estimates and counters summed. */
  ghost function Flatten(ss: seq<Stock>): Stock {
    if ss == [] then Stock(map[], 0, 0)
    else
      var front, last := Flatten(ss[..|ss| - 1]), ss[|ss| - 1];
      Stock(front.data + last.data, front.used + last.used, front.expired + last.expired)
  }

  /** Every key is in its own shard. */
  ghost predicate Routed(ss: seq<Stock>, index: Bytes -> nat) {
    forall i, key :: 0 <= i < |ss| && key in ss[i].data ==> index(key) == i
  }

  lemma {:induction false} FlattenFind(ss: seq<Stock>, index: Bytes -> nat, key: Bytes)
    requires Routed(ss, index)
    ensures Slot(Flatten(ss).data, key) == if index(key) < |ss| then Slot(ss[index(key)].data, key) else None
    decreases |ss|
  {
    if ss != [] {
      FlattenFind(ss[..|ss| - 1], index, key);
    }
  }

  lemma {:induction false} FlattenSums(ss: seq<Stock>, i: nat, s: Stock)
    requires i < |ss|
    ensures Flatten(ss[i := s]).used == Flatten(ss).used - ss[i].used + s.used
    ensures Flatten(ss[i := s]).expired == Flatten(ss).expired - ss[i].expired + s.expired
    decreases |ss|
  {
    var front, n := ss[..|ss| - 1], |ss| - 1;
    if i < n {
      FlattenSums(front, i, s);
      assert ss[i := s][..n] == front[i := s];
    } else {
      assert ss[i := s][..n] == front;
    }
  }

  /** Changing one shard within its own keys changes exactly those keys of the whole. */
  lemma FlattenChange(ss: seq<Stock>, index: Bytes -> nat, i: nat, s: Stock, whole: Stock)
    requires Routed(ss, index) && i < |ss|
    requires forall key :: key in s.data ==> index(key) == i
    requires forall key :: Slot(whole.data, key) == if index(key) == i then Slot(s.data, key) else Slot(Flatten(ss).data, key)
    requires whole.used == Flatten(ss).used - ss[i].used + s.used
    requires whole.expired == Flatten(ss).expired - ss[i].expired + s.expired
    ensures Routed(ss[i := s], index) && Flatten(ss[i := s]) == whole
  {
    var next := ss[i := s];
    forall key
      ensures Slot(Flatten(next).data, key) == Slot(whole.data, key)
    {
      FlattenFind(ss, index, key);
      FlattenFind(next, index, key);
    }
    SlotsDecide(Flatten(next).data, whole.data);
    FlattenSums(ss, i, s);
  }

  /** An operation on the shard that owns its key is the operation on the whole store. */
  lemma FlattenStep(ss: seq<Stock>, index: Bytes -> nat, key: Bytes, op: Op, now: Time)
    requires Routed(ss, index) && index(key) < |ss|
    ensures var i := index(key);
            var next := ss[i := StepStock(ss[i], key, op, now)];
            Routed(next, index) && Flatten(next) == StepStock(Flatten(ss), key, op, now) &&
            Find(Flatten(ss).data, key, now) == Find(ss[i].data, key, now)
  {
    var i := index(key);
    FlattenFind(ss, index, key);
    FindBySlot(Flatten(ss).data, ss[i].data, key, now);
    var s, whole := StepStock(ss[i], key, op, now), StepStock(Flatten(ss), key, op, now);
    forall other
      ensures Slot(whole.data, other) == if index(other) == i then Slot(s.data, other) else Slot(Flatten(ss).data, other)
    {
      FlattenFind(ss, index, other);
      PlaceSlot(Flatten(ss).data, key, other, Apply(op, Find(ss[i].data, key, now), now).0);
      PlaceSlot(ss[i].data, key, other, Apply(op, Find(ss[i].data, key, now), now).0);
    }
    FlattenChange(ss, index, i, s, whole);
  }

  lemma FindBySlot(a: Db, b: Db, key: Bytes, now: Time)
    requires Slot(a, key) == Slot(b, key)
    ensures Find(a, key, now) == Find(b, key, now)
  {
  }

  lemma PlaceSlot(db: Db, key: Bytes, other: Bytes, r: Option<Record>)
    ensures Slot(Place(db, key, r), other) == if other == key then r else Slot(db, other)
  {
  }

  lemma {:induction false} RemovedSize(db: Db, gone: set<Bytes>)
    requires gone <= db.Keys
    ensures DbSize(db) - DbSize(db - gone) == DbSize(map key | key in gone :: db[key])
    decreases |gone|
  {
    var out := map key | key in gone :: db[key];
    if gone == {} {
      assert db - gone == db && out == map[] && DbWeights(map[]) == map[];
    } else {
      var key :| key in gone;
      var less := gone - {key};
      RemovedSize(db, less);
      var outLess := map key | key in less :: db[key];
      assert out - {key} == outLess && db - less - {key} == db - gone;
      DbSizeTakeOut(out, key);
      DbSizeTakeOut(db - less, key);
    }
  }

  ghost function Without(s: Stock, gone: set<Bytes>): Stock {
    Stock(s.data - gone, s.used - (DbSize(s.data) - DbSize(s.data - gone)), s.expired + |gone|)
  }

  lemma WithoutTwice(s: Stock, a: set<Bytes>, b: set<Bytes>)
    requires a <= s.data.Keys && b <= s.data.Keys - a
    ensures Without(Without(s, a), b) == Without(s, a + b)
  {
    assert s.data - a - b == s.data - (a + b);
    assert |a + b| == |a| + |b|;
  }

  lemma SweepIsWithout(s: Stock, gone: set<Bytes>, now: Time)
    requires gone <= s.data.Keys && forall key :: key in gone ==> Expired(s.data[key], now)
    ensures StockAfter(s, Sweep(gone, now)) == Without(s, gone)
  {
    assert Swept(s.data, gone, now) == s.data - gone;
    assert s.data.Keys - (s.data - gone).Keys == gone;
  }

  lemma FlattenWithout(ss: seq<Stock>, index: Bytes -> nat, i: nat, gone: set<Bytes>)
    requires Routed(ss, index) && i < |ss| && gone <= ss[i].data.Keys
    ensures Routed(ss[i := Without(ss[i], gone)], index)
    ensures Flatten(ss[i := Without(ss[i], gone)]) == Without(Flatten(ss), gone)
  {
    SameRecords(ss, index, i, gone);
    SameRemoved(Flatten(ss).data, ss[i].data, gone);
    forall key
      ensures Slot(Without(Flatten(ss), gone).data, key) ==
              if index(key) == i then Slot(Without(ss[i], gone).data, key) else Slot(Flatten(ss).data, key)
    {
      FlattenFind(ss, index, key);
      WithoutSlot(Flatten(ss).data, gone, key);
      WithoutSlot(ss[i].data, gone, key);
    }
    FlattenChange(ss, index, i, Without(ss[i], gone), Without(Flatten(ss), gone));
  }

  /** Deleting expired keys of one shard is deleting them from the whole store. */
  lemma FlattenSweep(ss: seq<Stock>, index: Bytes -> nat, i: nat, gone: set<Bytes>, now: Time)
    requires Routed(ss, index) && i < |ss| && gone <= ss[i].data.Keys
    requires forall key :: key in gone ==> Expired(ss[i].data[key], now)
    ensures var s := StockAfter(ss[i], Sweep(gone, now));
            Routed(ss[i := s], index) && Flatten(ss[i := s]) == StockAfter(Flatten(ss), Sweep(gone, now))
  {
    SameRecords(ss, index, i, gone);
    SweepIsWithout(ss[i], gone, now);
    SweepIsWithout(Flatten(ss), gone, now);
    FlattenWithout(ss, index, i, gone);
  }

  lemma SameRecords(ss: seq<Stock>, index: Bytes -> nat, i: nat, keys: set<Bytes>)
    requires Routed(ss, index) && i < |ss| && keys <= ss[i].data.Keys
    ensures forall key :: key in keys ==>
              index(key) == i && key in Flatten(ss).data && Flatten(ss).data[key] == ss[i].data[key]
  {
    forall key | key in keys
      ensures index(key) == i && key in Flatten(ss).data && Flatten(ss).data[key] == ss[i].data[key]
    {
      FlattenFind(ss, index, key);
      assert Slot(Flatten(ss).data, key) == Some(ss[i].data[key]);
    }
  }

  lemma WithoutSlot(db: Db, gone: set<Bytes>, key: Bytes)
    ensures Slot(db - gone, key) == if key in gone then None else Slot(db, key)
  {
  }

  lemma SameRemoved(a: Db, b: Db, gone: set<Bytes>)
    requires gone <= a.Keys && gone <= b.Keys && forall key :: key in gone ==> a[key] == b[key]
    ensures DbSize(a) - DbSize(a - gone) == DbSize(b) - DbSize(b - gone)
  {
    RemovedSize(a, gone);
    RemovedSize(b, gone);
    assert (map key | key in gone :: a[key]) == (map key | key in gone :: b[key]);
  }

  /** The live keys, counted shard by shard. */
  ghost function LiveCount(ss: seq<Stock>, now: Time): nat {
    if ss == [] then 0 else LiveCount(ss[..|ss| - 1], now) + |View(ss[|ss| - 1].data, now)|
  }

  lemma {:induction false} LiveCountFlat(ss: seq<Stock>, index: Bytes -> nat, now: Time)
    requires Routed(ss, index)
    ensures LiveCount(ss, now) == |View(Flatten(ss).data, now)|
    decreases |ss|
  {
    if ss == [] {
      assert View(map[], now) == map[];
    } else {
      var front, last := ss[..|ss| - 1], ss[|ss| - 1];
      LiveCountFlat(front, index, now);
      forall key | key in Flatten(front).data
        ensures key !in last.data
      {
        FlattenFind(front, index, key);
        assert Slot(Flatten(front).data, key).Some?;
      }
      ViewOfUnion(Flatten(front).data, last.data, now);
    }
  }

  /** Of some keys, those that are live. */
  function LiveIn(db: Db, now: Time, keys: set<Bytes>): set<Bytes> {
    set key | key in keys && key in db && !Expired(db[key], now)
  }

  function LiveKeys(db: Db, now: Time): set<Bytes> {
    LiveIn(db, now, db.Keys)
  }

  lemma LiveStep(db: Db, now: Time, todo: set<Bytes>, key: Bytes)
    requires key in todo && todo <= db.Keys
    ensures |LiveIn(db, now, db.Keys - (todo - {key}))|
         == |LiveIn(db, now, db.Keys - todo)| + if Expired(db[key], now) then 0 else 1
  {
    var before, after := LiveIn(db, now, db.Keys - todo), LiveIn(db, now, db.Keys - (todo - {key}));
    if Expired(db[key], now) {
      assert after == before;
    } else {
      assert after == before + {key};
    }
  }

  lemma ViewOfUnion(a: Db, b: Db, now: Time)
    requires a.Keys !! b.Keys
    ensures |View(a + b, now)| == |View(a, now)| + |View(b, now)|
  {
    LiveKeysCount(a, now);
    LiveKeysCount(b, now);
    LiveKeysCount(a + b, now);
    assert LiveKeys(a + b, now) == LiveKeys(a, now) + LiveKeys(b, now);
    assert LiveKeys(a, now) !! LiveKeys(b, now);
  }

  lemma LiveKeysCount(db: Db, now: Time)
    ensures |View(db, now)| == |LiveKeys(db, now)|
  {
    assert View(db, now).Keys == LiveKeys(db, now);
  }
}
