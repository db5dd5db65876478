/** What each operation adds to the memory estimate, or takes off it, to the byte. */
module Footprint {
  import opened Accounting
  import opened ByteStrings
  import opened Clock
  import opened Keyspace
  import opened Numbers
  import opened MemoryLimit
  import opened Protocol
  import opened Shards
  import opened Values

  /** The change an operation makes to the estimate. */
  ghost function Change(s: Stock, key: Bytes, op: Op, now: Time): int {
    StepStock(s, key, op, now).used - s.used
  }

  /** The key is live with this value. */
  predicate Holds(s: Stock, key: Bytes, v: Value, now: Time) {
    Find(s.data, key, now).Some? && Find(s.data, key, now).value.value == v
  }

  lemma ChangeIs(s: Stock, key: Bytes, op: Op, now: Time)
    requires Slot(s.data, key) == Find(s.data, key, now)
    ensures var live := Find(s.data, key, now);
            Change(s, key, op, now) == OptSize(key, Apply(op, live, now).0) - OptSize(key, live) + Leak(op, live)
  {
    hide Apply, Leak, OptSize;
  }

  /** A field of a live hash: its name and value when it is new, the difference of the values when it is not. */
  lemma FieldBytes(s: Stock, key: Bytes, fields: map<Bytes, Bytes>, f: Bytes, v: Bytes, now: Time)
    requires Holds(s, key, HashV(fields), now)
    ensures Change(s, key, HSet(f, v), now) == if f in fields then |v| - |fields[f]| else |f| + |v|
    ensures f in fields && fields.Keys != {f} ==> Change(s, key, HDel([f]), now) == -(|f| + |fields[f]|)
    ensures fields.Keys == {f} ==> Change(s, key, HDel([f]), now) == -|key|
  {
    hide ValueSize, Apply;
    HashWeighs(fields, f, v);
    ChangeIs(s, key, HSet(f, v), now);
    ChangeIs(s, key, HDel([f]), now);
    FieldEffects(Find(s.data, key, now), fields, f, v, now);
  }

  lemma FieldEffects(live: Option<Record>, fields: map<Bytes, Bytes>, f: Bytes, v: Bytes, now: Time)
    requires live.Some? && live.value.value == HashV(fields)
    ensures Apply(HSet(f, v), live, now).0 == Some(live.value.(value := HashV(fields[f := v])))
    ensures Apply(HDel([f]), live, now).0 ==
            if fields - {f} == map[] then None else Some(live.value.(value := HashV(fields - {f})))
    ensures f in fields ==> (fields - {f} == map[] <==> fields.Keys == {f}) && (fields.Keys <= Elements([f]) <==> fields.Keys == {f})
  {
    assert Elements([f]) == {f};
    assert fields.Keys == {f} ==> fields - {f} == map[];
    assert fields - {f} == map[] ==> fields.Keys - {f} == (fields - {f}).Keys == {};
  }

  /** A member of a live set weighs its bytes; the last one to leave leaves them counted. */
  lemma MemberBytes(s: Stock, key: Bytes, members: set<Bytes>, m: Bytes, now: Time)
    requires Holds(s, key, SetV(members), now)
    ensures Change(s, key, SAdd([m]), now) == if m in members then 0 else |m|
    ensures m in members && members != {m} ==> Change(s, key, SRem([m]), now) == -|m|
    ensures members == {m} ==> Change(s, key, SRem([m]), now) == -|key|
  {
    hide ValueSize, Apply;
    SetWeighs(members, m);
    ChangeIs(s, key, SAdd([m]), now);
    ChangeIs(s, key, SRem([m]), now);
    MemberEffects(Find(s.data, key, now), members, m, now);
    assert m in members ==> members + {m} == members;
  }

  lemma MemberEffects(live: Option<Record>, members: set<Bytes>, m: Bytes, now: Time)
    requires live.Some? && live.value.value == SetV(members)
    ensures Apply(SAdd([m]), live, now).0 == Some(live.value.(value := SetV(members + {m})))
    ensures Apply(SRem([m]), live, now).0 ==
            if members - {m} == {} then None else Some(live.value.(value := SetV(members - {m})))
    ensures m in members ==> (members - {m} == {} <==> members == {m}) && (members <= Elements([m]) <==> members == {m})
  {
    hide Apply;
    SetApplies(SAdd([m]), live, now);
    SetApplies(SRem([m]), live, now);
    assert Elements([m]) == {m};
    assert m in members && members - {m} == {} ==> members == {m};
  }

  /** An element of a live list weighs its bytes, at either end; the last one to go takes the key's bytes with it. */
  lemma ElementBytes(s: Stock, key: Bytes, items: seq<Bytes>, v: Bytes, now: Time)
    requires Holds(s, key, ListV(items), now)
    ensures Change(s, key, RPush([v]), now) == Change(s, key, LPush([v]), now) == |v|
    ensures |items| > 1 ==> Change(s, key, LPop, now) == -|items[0]| && Change(s, key, RPop, now) == -|items[|items| - 1]|
    ensures |items| == 1 ==> Change(s, key, LPop, now) == Change(s, key, RPop, now) == -|key| - |items[0]|
  {
    hide ValueSize, Apply;
    ChangeIs(s, key, RPush([v]), now);
    ChangeIs(s, key, LPush([v]), now);
    ChangeIs(s, key, LPop, now);
    ChangeIs(s, key, RPop, now);
    ElementEffects(Find(s.data, key, now), items, v, now);
    EndsWeigh(items, v);
  }

  lemma EndsWeigh(items: seq<Bytes>, v: Bytes)
    ensures ValueSize(ListV(items + [v])) == ValueSize(ListV([v] + items)) == ValueSize(ListV(items)) + |v|
    ensures items != [] ==> ValueSize(ListV(items[1..])) == ValueSize(ListV(items)) - |items[0]|
    ensures items != [] ==> ValueSize(ListV(items[..|items| - 1])) == ValueSize(ListV(items)) - |items[|items| - 1]|
    ensures |items| == 1 ==> ValueSize(ListV(items)) == |items[0]|
  {
    ListSizeConcat(items, [v]);
    assert ListSize([v]) == |v|;
    assert ([v] + items)[1..] == items;
    if items != [] {
      var n := |items| - 1;
      ListSizeConcat(items[..n], [items[n]]);
      assert items[..n] + [items[n]] == items && ListSize([items[n]]) == |items[n]|;
    }
  }

  lemma ElementEffects(live: Option<Record>, items: seq<Bytes>, v: Bytes, now: Time)
    requires live.Some? && live.value.value == ListV(items)
    ensures Apply(RPush([v]), live, now).0 == Some(live.value.(value := ListV(items + [v])))
    ensures Apply(LPush([v]), live, now).0 == Some(live.value.(value := ListV([v] + items)))
    ensures items != [] ==> Apply(LPop, live, now).0 == if |items| == 1 then None else Some(live.value.(value := ListV(items[1..])))
    ensures items != [] ==>
              Apply(RPop, live, now).0 == if |items| == 1 then None else Some(live.value.(value := ListV(items[..|items| - 1])))
  {
    assert Reversed([v]) == [v];
  }

  /** A new key weighs its name and its value; a key replaced or deleted no longer weighs what it did. */
  lemma KeyBytes(s: Stock, key: Bytes, f: Bytes, v: Bytes, at: Time, now: Time)
    requires key in s.data ==> !Expired(s.data[key], now)
    ensures key in s.data ==>
              Change(s, key, SetTo(v, at), now) == |v| - ValueSize(s.data[key].value) &&
              Change(s, key, Delete, now) == -|key| - ValueSize(s.data[key].value)
    ensures key !in s.data ==>
              Change(s, key, SetTo(v, at), now) == Change(s, key, SetNx(v), now) == |key| + |v| &&
              Change(s, key, RPush([v]), now) == Change(s, key, LPush([v]), now) == Change(s, key, SAdd([v]), now) == |key| + |v| &&
              Change(s, key, HSet(f, v), now) == |key| + |f| + |v| && Change(s, key, Delete, now) == 0
  {
    hide ValueSize, Apply;
    ChangeIs(s, key, SetTo(v, at), now);
    ChangeIs(s, key, Delete, now);
    ChangeIs(s, key, SetNx(v), now);
    ChangeIs(s, key, RPush([v]), now);
    ChangeIs(s, key, LPush([v]), now);
    ChangeIs(s, key, SAdd([v]), now);
    ChangeIs(s, key, HSet(f, v), now);
    ListWeighs([], [], v);
    SetWeighs({}, v);
    HashWeighs(map[], f, v);
    var none: seq<Bytes> := [];
    assert none + [v] + none == [v] && none + none == none && {} + {v} == {v};
    WriteEffects(Find(s.data, key, now), f, v, at, now);
    NewEffects(f, v, now);
  }

  lemma WriteEffects(live: Option<Record>, f: Bytes, v: Bytes, at: Time, now: Time)
    ensures Apply(SetTo(v, at), live, now).0 == Some(Record(StrV(v), at))
    ensures Apply(Delete, live, now).0 == None
    ensures live.None? ==> Apply(SetNx(v), live, now).0 == Some(Record(StrV(v), NEVER))
  {
  }

  lemma NewEffects(f: Bytes, v: Bytes, now: Time)
    ensures Apply(RPush([v]), None, now).0 == Apply(LPush([v]), None, now).0 == Some(Record(ListV([v]), NEVER))
    ensures Apply(SAdd([v]), None, now).0 == Some(Record(SetV({v}), NEVER))
    ensures Apply(HSet(f, v), None, now).0 == Some(Record(HashV(map[][f := v]), NEVER))
  {
    hide Apply;
    ListApplies(RPush([v]), None, now);
    ListApplies(LPush([v]), None, now);
    SetApplies(SAdd([v]), None, now);
    HashApplies(HSet(f, v), None, now);
    OneOfEach(v);
  }

  lemma OneOfEach(v: Bytes)
    ensures RPushOn(None, [v]).0 == LPushOn(None, [v]).0 == Some(Record(ListV([v]), NEVER))
    ensures SAddOn(None, [v]).0 == Some(Record(SetV({v}), NEVER))
  {
    var none: seq<Bytes> := [];
    assert Reversed([v]) == [v] && [v] + none == [v] == none + [v];
    assert {} + Elements([v]) == {v};
  }

  /** A key found expired by a read is gone with all its bytes, and counted; one overwritten by SET is gone uncounted. */
  lemma ExpiredBytes(s: Stock, key: Bytes, v: Bytes, at: Time, now: Time)
    requires key in s.data && Expired(s.data[key], now)
    ensures var got, set_ := StepStock(s, key, Get, now), StepStock(s, key, SetTo(v, at), now);
            got.data == s.data - {key} && got.used == s.used - |key| - ValueSize(s.data[key].value) && got.expired == s.expired + 1 &&
            set_.used == s.used + |v| - ValueSize(s.data[key].value) && set_.expired == s.expired
  {
    hide Elements, Window, Reversed, FormatInt, ParseInt;
  }

  lemma SetEstimate(s: Stock, cmd: Command, at: Time, ms: seq<Time>, now: Time)
    requires VerbOf(cmd) == Some(SET) && |cmd.args| >= 2 && |ms| >= 1
    ensures Estimate(s, cmd, ms) == Change(MeasureRun(s, [cmd.args[0]], ms), cmd.args[0], SetTo(cmd.args[1], at), now)
  {
    hide StepStock;
    var key, val := cmd.args[0], cmd.args[1];
    OneMeasure(s, key, ms);
    TouchShrinks(s, key, ms[0]);
    SetGrowth(MeasureRun(s, [key], ms), key, val, at, now);
  }

  lemma FreshEstimate(s: Stock, cmd: Command, ms: seq<Time>, now: Time)
    requires |cmd.args| >= 2 && |ms| >= 1 && cmd.args[0] !in s.data
    ensures VerbOf(cmd) == Some(SETNX) ==> Estimate(s, cmd, ms) == Change(s, cmd.args[0], SetNx(cmd.args[1]), now)
    ensures VerbOf(cmd) == Some(HSET) && |cmd.args| == 3 ==>
              Estimate(s, cmd, ms) == Change(s, cmd.args[0], HSet(cmd.args[1], cmd.args[2]), now)
    ensures (VerbOf(cmd) == Some(LPUSH) || VerbOf(cmd) == Some(RPUSH) || VerbOf(cmd) == Some(SADD)) && |cmd.args| == 2 ==>
              Estimate(s, cmd, ms) == Change(s, cmd.args[0], RPush([cmd.args[1]]), now)
  {
    hide VerbOf, StepStock, ListSize, ValueSize;
    var key := cmd.args[0];
    KeyBytes(s, key, cmd.args[1], if |cmd.args| == 3 then cmd.args[2] else cmd.args[1], NEVER, now);
    KeyBytes(s, key, [], cmd.args[1], NEVER, now);
    OneMeasure(s, key, ms);
    SizeOfTail(cmd.args);
    TwoWeigh(cmd.args);
  }

  lemma TwoWeigh(args: seq<Bytes>)
    ensures |args| == 2 ==> ListSize(args) == |args[0]| + |args[1]|
  {
    if |args| == 2 {
      assert args == [args[0]] + [args[1]];
      ListSizeConcat([args[0]], [args[1]]);
      assert ListSize([args[0]]) == |args[0]| && ListSize([args[1]]) == |args[1]|;
    }
  }

  /**
   The estimate is the true growth, to the byte, of a SET after its key was measured, and of a SETNX, a push, an SADD or an
   HSET of one value on a key that is not there; a counter is estimated at its key and 32 bytes.
   */
  lemma EstimateExact(s: Stock, cmd: Command, at: Time, ms: seq<Time>, now: Time)
    requires |ms| >= |Measured(cmd)|
    ensures VerbOf(cmd) == Some(SET) && |cmd.args| >= 2 ==>
              Estimate(s, cmd, ms) == Change(MeasureRun(s, [cmd.args[0]], ms), cmd.args[0], SetTo(cmd.args[1], at), now)
    ensures |cmd.args| == 2 && cmd.args[0] !in s.data ==>
              (VerbOf(cmd) == Some(SETNX) ==> Estimate(s, cmd, ms) == Change(s, cmd.args[0], SetNx(cmd.args[1]), now)) &&
              (VerbOf(cmd) == Some(LPUSH) ==> Estimate(s, cmd, ms) == Change(s, cmd.args[0], LPush([cmd.args[1]]), now)) &&
              (VerbOf(cmd) == Some(RPUSH) ==> Estimate(s, cmd, ms) == Change(s, cmd.args[0], RPush([cmd.args[1]]), now)) &&
              (VerbOf(cmd) == Some(SADD) ==> Estimate(s, cmd, ms) == Change(s, cmd.args[0], SAdd([cmd.args[1]]), now))
    ensures |cmd.args| == 3 && cmd.args[0] !in s.data && VerbOf(cmd) == Some(HSET) ==>
              Estimate(s, cmd, ms) == Change(s, cmd.args[0], HSet(cmd.args[1], cmd.args[2]), now)
    ensures |cmd.args| == 1 && (VerbOf(cmd) == Some(INCR) || VerbOf(cmd) == Some(DECR)) ==>
              Estimate(s, cmd, ms) == |cmd.args[0]| + 32
    ensures |cmd.args| == 2 && (VerbOf(cmd) == Some(INCRBY) || VerbOf(cmd) == Some(DECRBY)) ==>
              Estimate(s, cmd, ms) == |cmd.args[0]| + 32
  {
    hide VerbOf, StepStock, ListSize, ValueSize, Change;
    if VerbOf(cmd) == Some(SET) && |cmd.args| >= 2 {
      SetEstimate(s, cmd, at, ms, now);
    } else if |cmd.args| >= 2 && cmd.args[0] !in s.data {
      var enough := if |ms| >= 1 then ms else [now];
      FreshEstimate(s, cmd, enough, now);
      assert VerbOf(cmd) != Some(SETNX) && VerbOf(cmd) != Some(MSET) ==> Measured(cmd) == [];
      if |cmd.args| == 2 { AlikeWhenNew(s, cmd.args[0], cmd.args[1], now); }
    }
  }

  lemma AlikeWhenNew(s: Stock, key: Bytes, v: Bytes, now: Time)
    requires key !in s.data
    ensures Change(s, key, RPush([v]), now) == Change(s, key, LPush([v]), now) == Change(s, key, SAdd([v]), now)
  {
    hide StepStock;
    KeyBytes(s, key, [], v, NEVER, now);
  }
}
