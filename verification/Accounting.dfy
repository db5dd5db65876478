/** The incremental memory estimate: what each operation adds to it, and how far it strays from the truth. */
module Accounting {
  import opened ByteStrings
  import opened Clock
  import opened Keyspace
  import opened Numbers
  import opened Runs
  import opened Values

  /** A shard, or the whole store flattened: its entries, its memory estimate and its count of expired keys. */
  datatype Stock = Stock(data: Db, used: int, expired: nat)

  /**
   Emptying a hash or set with HDEL or SREM subtracts only the key's own bytes, because the container is already
   empty when its entry is measured. These are the bytes left behind.
   */
  ghost function Leak(op: Op, live: Option<Record>): nat {
    match op
    case HDel(gone) =>
      if live.Some? && live.value.value.HashV? && live.value.value.fields.Keys <= Elements(gone) then ValueSize(live.value.value) else 0
    case SRem(gone) =>
      if live.Some? && live.value.value.SetV? && live.value.value.members <= Elements(gone) then ValueSize(live.value.value) else 0
    case _ => 0
  }

  /** The whole effect of an operation on a shard. SET alone overwrites an expired key without counting it. */
  ghost function StepStock(s: Stock, key: Bytes, op: Op, now: Time): Stock {
    var live := Find(s.data, key, now);
    var after := Apply(op, live, now).0;
    Stock(Place(s.data, key, after),
          s.used - OptSize(key, Slot(s.data, key)) + OptSize(key, after) + Leak(op, live),
          s.expired + if key in s.data && live.None? && !op.SetTo? then 1 else 0)
  }

  ghost function StockAfter(s: Stock, ev: Event): Stock {
    match ev
    case Do(key, op, at) => StepStock(s, key, op, at)
    case Sweep(gone, at) =>
      var left := Swept(s.data, gone, at);
      Stock(left, s.used - (DbSize(s.data) - DbSize(left)), s.expired + |s.data.Keys - left.Keys|)
    case Flush(_) => Stock(map[], 0, s.expired)
    case Load(loaded, _) => Stock(loaded, DbSize(loaded), s.expired)
  }

  ghost function StockRun(s: Stock, evs: seq<Event>): Stock
    decreases |evs|
  {
    if evs == [] then s else StockRun(StockAfter(s, evs[0]), evs[1..])
  }

  /** How much the estimate exceeds the true size. */
  ghost function Excess(s: Stock): int {
    s.used - DbSize(s.data)
  }

  /** The bytes left behind so far, after one more event; a flush or a reload forgets them. */
  ghost function LeakedBy(s: Stock, sofar: int, ev: Event): int {
    match ev
    case Do(key, op, at) => sofar + Leak(op, Find(s.data, key, at))
    case Sweep(_, _) => sofar
    case Flush(_) | Load(_, _) => 0
  }

  ghost function Leaked(s: Stock, sofar: int, evs: seq<Event>): int
    decreases |evs|
  {
    if evs == [] then sofar else Leaked(StockAfter(s, evs[0]), LeakedBy(s, sofar, evs[0]), evs[1..])
  }

  lemma StepExcess(s: Stock, key: Bytes, op: Op, now: Time)
    ensures Excess(StepStock(s, key, op, now)) == Excess(s) + Leak(op, Find(s.data, key, now))
  {
    DbSizePlace(s.data, key, Apply(op, Find(s.data, key, now), now).0);
  }

  lemma EventExcess(s: Stock, ev: Event)
    ensures Excess(StockAfter(s, ev)) == LeakedBy(s, Excess(s), ev)
  {
    if ev.Do? {
      StepExcess(s, ev.key, ev.op, ev.at);
    }
  }

  /** Over any run the estimate is the true size plus exactly the bytes that emptying HDELs and SREMs left behind. */
  lemma {:induction false} AccountingExact(s: Stock, evs: seq<Event>)
    ensures Excess(StockRun(s, evs)) == Leaked(s, Excess(s), evs)
    decreases |evs|
  {
    if evs != [] {
      EventExcess(s, evs[0]);
      AccountingExact(StockAfter(s, evs[0]), evs[1..]);
    }
  }

  ghost predicate Leakless(s: Stock, evs: seq<Event>)
    decreases |evs|
  {
    evs == [] || (LeakedBy(s, 0, evs[0]) == 0 && Leakless(StockAfter(s, evs[0]), evs[1..]))
  }

  lemma {:induction false} LeakedBounds(s: Stock, sofar: nat, evs: seq<Event>)
    ensures Leaked(s, sofar, evs) >= 0
    ensures sofar == 0 && Leakless(s, evs) ==> Leaked(s, sofar, evs) == 0
    decreases |evs|
  {
    if evs != [] {
      LeakedBounds(StockAfter(s, evs[0]), LeakedBy(s, sofar, evs[0]), evs[1..]);
    }
  }

  /** The estimate never falls short of the true size, and is exact on runs that never empty a container by HDEL or SREM. */
  lemma NeverUnderCounts(s: Stock, evs: seq<Event>)
    requires Excess(s) == 0
    ensures var end := StockRun(s, evs); end.used >= DbSize(end.data)
    ensures Leakless(s, evs) ==> var end := StockRun(s, evs); end.used == DbSize(end.data)
  {
    AccountingExact(s, evs);
    LeakedBounds(s, 0, evs);
  }

  lemma OneMember(m: Bytes)
    ensures ValueSize(SetV({m})) == |m|
  {
    var none: map<Bytes, nat> := map[];
    TotalPut(none, m, |m|);
    assert MemberWeights({m}) == none[m := |m|] && none - {m} == none;
  }

  lemma AddOneMember(key: Bytes, m: Bytes, now: Time)
    ensures StepDb(map[], key, SAdd([m]), now) == map[key := Record(SetV({m}), NEVER)]
  {
    assert Elements([m]) == {m} == {} + {m};
  }

  lemma RemoveOneMember(key: Bytes, m: Bytes, now: Time)
    ensures var db := map[key := Record(SetV({m}), NEVER)];
            StepDb(db, key, SRem([m]), now) == map[] && Leak(SRem([m]), Find(db, key, now)) == |m|
  {
    assert {m} - Elements([m]) == {};
    OneMember(m);
  }

  /** SADD k m; SREM k m: the store is empty and the estimate is not. */
  lemma EmptyingLeaks(key: Bytes, m: Bytes, now: Time)
    ensures var one := StepStock(Stock(map[], 0, 0), key, SAdd([m]), now);
            var two := StepStock(one, key, SRem([m]), now);
            two.data == map[] && two.used == |m|
  {
    var zero := Stock(map[], 0, 0);
    AddOneMember(key, m, now);
    StepExcess(zero, key, SAdd([m]), now);
    var one := StepStock(zero, key, SAdd([m]), now);
    RemoveOneMember(key, m, now);
    StepExcess(one, key, SRem([m]), now);
  }

  /** What holds of every value a client can have stored: no empty collection. */
  predicate NonEmpty(v: Value) {
    match v
    case StrV(_) => true
    case ListV(items) => items != []
    case HashV(fields) => fields != map[]
    case SetV(members) => members != {}
  }

  predicate NoEmptyValue(db: Db) {
    forall key :: key in db ==> NonEmpty(db[key].value)
  }

  /** Operations as the command handlers issue them: a push or an add carries at least one value. */
  predicate Issued(op: Op) {
    match op
    case LPush(vals) => vals != []
    case RPush(vals) => vals != []
    case SAdd(vals) => vals != []
    case IncrBy(delta) => FitsInt64(delta)
    case _ => true
  }

  lemma GrowsNonEmpty(op: Op, live: Option<Record>, now: Time)
    requires Issued(op) && (op.LPush? || op.RPush? || op.HSet? || op.SAdd?)
    requires live.Some? ==> NonEmpty(live.value.value)
    ensures var after := Apply(op, live, now).0; after.Some? ==> NonEmpty(after.value.value)
  {
    hide Elements, Window, FormatInt, ParseInt, HDelOn, SRemOn, LPopOn, RPopOn, LRangeOn, IncrByOn;
    match op
    case SAdd(vals) => ElementsNonEmpty(vals);
    case HSet(field, val) =>
      assert AsHash(live).Some? ==> field in AsHash(live).value[field := val];
    case LPush(vals) => assert |Reversed(vals)| == |vals|;
    case RPush(_) =>
  }

  lemma LeavesNonEmpty(op: Op, live: Option<Record>, now: Time)
    requires Issued(op) && (live.Some? ==> NonEmpty(live.value.value))
    ensures var after := Apply(op, live, now).0; after.Some? ==> NonEmpty(after.value.value)
  {
    hide Elements, Window, FormatInt, ParseInt, LPushOn, RPushOn, HSetOn, SAddOn;
    if op.LPush? || op.RPush? || op.HSet? || op.SAdd? {
      GrowsNonEmpty(op, live, now);
    }
  }

  lemma ElementsNonEmpty(vals: seq<Bytes>)
    ensures vals != [] ==> Elements(vals) != {}
  {
    if vals != [] {
      assert vals[0] in Elements(vals);
    }
  }

  lemma NonEmptyKept(db: Db, key: Bytes, op: Op, now: Time)
    requires NoEmptyValue(db) && Issued(op)
    ensures NoEmptyValue(StepDb(db, key, op, now))
  {
    hide Apply;
    LeavesNonEmpty(op, Find(db, key, now), now);
  }

  predicate AllIssued(evs: seq<Event>) {
    forall ev :: ev in evs ==> (ev.Do? ==> Issued(ev.op)) && (ev.Load? ==> NoEmptyValue(ev.db))
  }

  /** No run of the command handlers ever leaves an empty list, hash or set behind. */
  lemma {:induction false} CollectionsNonEmpty(db: Db, evs: seq<Event>)
    requires NoEmptyValue(db) && AllIssued(evs)
    ensures NoEmptyValue(PhysicalRun(db, evs))
    decreases |evs|
  {
    if evs != [] {
      var ev := evs[0];
      assert ev in evs;
      if ev.Do? {
        NonEmptyKept(db, ev.key, ev.op, ev.at);
      }
      assert forall e :: e in evs[1..] ==> e in evs;
      CollectionsNonEmpty(Physical(db, ev), evs[1..]);
    }
  }
}
