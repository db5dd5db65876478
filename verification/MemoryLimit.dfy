/** The memory limit: a write is estimated before it runs, and refused if the estimate would pass the limit. */
module MemoryLimit {
  import opened Accounting
  import opened ByteStrings
  import opened Clock
  import opened Commands
  import opened Dispatcher
  import opened Keyspace
  import opened LogNormal
  import opened Numbers
  import opened Protocol
  import Replay
  import opened Runs
  import opened Shards
  import opened Steps
  import opened Values

  function MsetKeys(args: seq<Bytes>): (keys: seq<Bytes>)
    ensures |keys| == |args| / 2
  {
    seq(|args| / 2, i requires 0 <= i < |args| / 2 => args[2 * i])
  }

  /** The keys whose present size a command's estimate asks for, in order. */
  function Measured(cmd: Command): (keys: seq<Bytes>)
    ensures |keys| <= |cmd.args|
  {
    match VerbOf(cmd)
    case Some(SET) | Some(SETNX) => if |cmd.args| >= 2 then [cmd.args[0]] else []
    case Some(MSET) => MsetKeys(cmd.args)
    case _ => []
  }

  /** The shard state after `EntryMemory` of each key: expired ones are deleted on the way. */
  ghost function MeasureRun(s: Stock, keys: seq<Bytes>, ts: seq<Time>): Stock
    requires |ts| >= |keys|
    decreases |keys|
  {
    if keys == [] then s
    else
      var n := |keys| - 1;
      StepStock(MeasureRun(s, keys[..n], ts), keys[n], Exists, ts[n])
  }

  ghost function SizesSum(s: Stock, keys: seq<Bytes>, ts: seq<Time>): nat
    requires |ts| >= |keys|
    decreases |keys|
  {
    if keys == [] then 0
    else
      var n := |keys| - 1;
      SizesSum(s, keys[..n], ts) + OptSize(keys[n], Find(MeasureRun(s, keys[..n], ts).data, keys[n], ts[n]))
  }

  /** The free `estimatedGrowth`: bytes the arguments can add, whatever is stored. */
  ghost function RawGrowth(cmd: Command): nat {
    match VerbOf(cmd)
    case Some(SET) | Some(SETNX) => if |cmd.args| < 2 then 0 else |cmd.args[0]| + |cmd.args[1]|
    case Some(MSET) | Some(LPUSH) | Some(RPUSH) | Some(SADD) | Some(HSET) => ListSize(cmd.args)
    case Some(INCR) | Some(DECR) => if |cmd.args| != 1 then 0 else |cmd.args[0]| + 32
    case Some(INCRBY) | Some(DECRBY) => if |cmd.args| != 2 then 0 else |cmd.args[0]| + 32
    case _ => 0
  }

  /** The server's `estimatedGrowth`, with the sizes it reads. */
  ghost function Estimate(s: Stock, cmd: Command, ts: seq<Time>): int
    requires |ts| >= |Measured(cmd)|
  {
    var sizes := SizesSum(s, Measured(cmd), ts);
    match VerbOf(cmd)
    case Some(SET) | Some(MSET) => RawGrowth(cmd) - sizes
    case Some(SETNX) => if |cmd.args| >= 2 && sizes > 0 then 0 else RawGrowth(cmd)
    case _ => RawGrowth(cmd)
  }

  /** `memoryLimitExceeded` */
  ghost predicate Exceeds(s: Stock, cmd: Command, ts: seq<Time>, limit: int)
    requires |ts| >= |Measured(cmd)|
  {
    var growth := Estimate(s, cmd, ts);
    growth > 0 && MeasureRun(s, Measured(cmd), ts).used + growth > limit
  }

  /** Looking at a key can only free memory. */
  lemma TouchShrinks(s: Stock, key: Bytes, now: Time)
    ensures StepStock(s, key, Exists, now).used <= s.used
    ensures Slot(StepStock(s, key, Exists, now).data, key) == Find(s.data, key, now)
  {
  }

  /** What an operation adds to the estimate is bounded by what it brings. */
  ghost function Brought(key: Bytes, op: Op): nat {
    match op
    case SetTo(val, _) => |key| + |val|
    case SetNx(val) => |key| + |val|
    case IncrBy(_) => |key| + 32
    case LPush(vals) => |key| + ListSize(vals)
    case RPush(vals) => |key| + ListSize(vals)
    case HSet(field, val) => |key| + |field| + |val|
    case SAdd(vals) => |key| + ListSize(vals)
    case _ => 0
  }

  lemma {:induction false} ListSizeReversed(vals: seq<Bytes>)
    ensures ListSize(Reversed(vals)) == ListSize(vals)
  {
    if vals != [] {
      ListSizeReversed(vals[1..]);
      assert Reversed(vals) == Reversed(vals[1..]) + [vals[0]];
      ListSizeConcat(Reversed(vals[1..]), [vals[0]]);
    }
  }

  lemma {:induction false} MembersAdd(members: set<Bytes>, vals: seq<Bytes>)
    ensures ValueSize(SetV(members + Elements(vals))) <= ValueSize(SetV(members)) + ListSize(vals)
    decreases |vals|
  {
    if vals == [] {
      assert members + Elements(vals) == members;
    } else {
      MembersPut(members, vals[0]);
      MembersAdd(members + {vals[0]}, vals[1..]);
      assert members + {vals[0]} + Elements(vals[1..]) == members + Elements(vals);
    }
  }

  lemma EmptySizes()
    ensures ValueSize(HashV(map[])) == 0 && ValueSize(SetV({})) == 0 && ValueSize(ListV([])) == 0
  {
    assert FieldWeights(map[]) == map[] && MemberWeights({}) == map[];
  }

  lemma PushGrowth(key: Bytes, op: Op, live: Option<Record>, now: Time)
    requires op.LPush? || op.RPush?
    ensures OptSize(key, Apply(op, live, now).0) <= OptSize(key, live) + Brought(key, op)
  {
    EmptySizes();
    var items := AsList(live);
    if items.Some? {
      ListSizeReversed(op.vals);
      ListSizeConcat(Reversed(op.vals), items.value);
      ListSizeConcat(items.value, op.vals);
    }
  }

  lemma PutGrowth(key: Bytes, op: Op, live: Option<Record>, now: Time)
    requires op.HSet? || op.SAdd?
    ensures OptSize(key, Apply(op, live, now).0) <= OptSize(key, live) + Brought(key, op)
  {
    EmptySizes();
    match op
    case HSet(field, val) => if AsHash(live).Some? { FieldsPut(AsHash(live).value, field, val); }
    case SAdd(vals) => if AsSet(live).Some? { MembersAdd(AsSet(live).value, vals); }
  }

  lemma ScalarGrowth(key: Bytes, op: Op, live: Option<Record>, now: Time)
    requires op.SetTo? || op.SetNx? || op.IncrBy? || op.Delete? || op.ExpireAt? || op.Persist?
    ensures OptSize(key, Apply(op, live, now).0) <= OptSize(key, live) + Brought(key, op)
  {
    if op.IncrBy? && Apply(op, live, now).1.Count? {
      FormatIntLength(Apply(op, live, now).1.n);
    }
  }

  lemma PopShrinks(key: Bytes, op: Op, live: Option<Record>, now: Time)
    requires op.LPop? || op.RPop?
    ensures OptSize(key, Apply(op, live, now).0) <= OptSize(key, live)
  {
    var l := AsList(live);
    if l.Some? && l.value != [] {
      var items, n := l.value, |l.value|;
      ListSizeConcat(items[..n - 1], items[n - 1..]);
      assert items == items[..n - 1] + items[n - 1..];
    }
  }

  lemma HDelShrinks(key: Bytes, gone: seq<Bytes>, live: Option<Record>, now: Time)
    ensures OptSize(key, HDelOn(live, gone).0) + Leak(HDel(gone), live) <= OptSize(key, live)
  {
    if live.Some? && live.value.value.HashV? {
      var fields := live.value.value.fields;
      FieldsWithout(fields, Elements(gone));
      if fields.Keys <= Elements(gone) {
        assert fields - Elements(gone) == map[];
      }
    }
  }

  lemma SRemShrinks(key: Bytes, gone: seq<Bytes>, live: Option<Record>, now: Time)
    ensures OptSize(key, SRemOn(live, gone).0) + Leak(SRem(gone), live) <= OptSize(key, live)
  {
    if live.Some? && live.value.value.SetV? {
      MembersWithout(live.value.value.members, Elements(gone));
    }
  }

  /** No operation adds more to the estimate than its key and the values it brings. */
  lemma GrowthBounded(s: Stock, key: Bytes, op: Op, now: Time)
    ensures StepStock(s, key, op, now).used <= s.used + Brought(key, op)
  {
    hide Leak, Apply, EntrySize;
    var live := Find(s.data, key, now);
    EffectBounded(key, op, live, now);
  }

  lemma EffectBounded(key: Bytes, op: Op, live: Option<Record>, now: Time)
    ensures OptSize(key, Apply(op, live, now).0) + Leak(op, live) <= OptSize(key, live) + Brought(key, op)
  {
    if ReadOnly(op) {
      Replay.QuietKeeps(op, live, now);
      PlainLeak(op, live);
    } else if op.LPush? || op.RPush? {
      PushGrowth(key, op, live, now);
      PlainLeak(op, live);
    } else if op.HSet? || op.SAdd? {
      PutGrowth(key, op, live, now);
      PlainLeak(op, live);
    } else if op.HDel? {
      HDelShrinks(key, op.gone, live, now);
      HashApplies(op, live, now);
    } else if op.SRem? {
      SRemShrinks(key, op.gone, live, now);
      SetApplies(op, live, now);
    } else if op.LPop? || op.RPop? {
      PopShrinks(key, op, live, now);
      PlainLeak(op, live);
    } else {
      ScalarGrowth(key, op, live, now);
      PlainLeak(op, live);
    }
  }

  lemma PlainLeak(op: Op, live: Option<Record>)
    requires !op.HDel? && !op.SRem?
    ensures Leak(op, live) == 0
  {
  }

  /** A command's logged form is estimated as the command itself would be. */
  lemma EstimatedAsLogged(cmd: Command, at: Time)
    requires AofCommand(cmd, at).Logged?
    ensures Measured(AofCommand(cmd, at).cmd) == Measured(cmd) && RawGrowth(AofCommand(cmd, at).cmd) == RawGrowth(cmd)
    ensures VerbOf(AofCommand(cmd, at).cmd) == VerbOf(cmd) || VerbOf(cmd) == Some(EXPIRE)
  {
    hide ListSize, ParseInt, UnitMillis, FormatInt;
    var logged := AofCommand(cmd, at).cmd;
    if VerbOf(cmd) == Some(EXPIRE) {
      LoggedVerb(PEXPIREAT, logged.args);
    } else {
      LoggedVerb(VerbOf(cmd).value, logged.args);
    }
  }

  ghost function SlotsSum(db: Db, keys: seq<Bytes>): nat {
    if keys == [] then 0
    else
      var n := |keys| - 1;
      SlotsSum(db, keys[..n]) + OptSize(keys[n], Slot(db, keys[n]))
  }

  lemma {:induction false} SlotsSumSame(a: Db, b: Db, keys: seq<Bytes>)
    requires forall i :: 0 <= i < |keys| ==> Slot(a, keys[i]) == Slot(b, keys[i])
    ensures SlotsSum(a, keys) == SlotsSum(b, keys)
    decreases |keys|
  {
    if keys != [] {
      SlotsSumSame(a, b, keys[..|keys| - 1]);
    }
  }

  predicate AllDifferent(keys: seq<Bytes>) {
    forall i, j :: 0 <= i < j < |keys| ==> keys[i] != keys[j]
  }

  lemma OtherSlotKept(s: Stock, key: Bytes, op: Op, now: Time, other: Bytes)
    requires other != key
    ensures Slot(StepStock(s, key, op, now).data, other) == Slot(s.data, other)
  {
    hide Apply, Leak;
  }

  /** The sizes read for different keys are the sizes left in their slots, and reading them only frees memory. */
  lemma {:induction false} MeasuredSizes(s: Stock, keys: seq<Bytes>, ts: seq<Time>)
    requires AllDifferent(keys) && |ts| >= |keys|
    ensures SizesSum(s, keys, ts) == SlotsSum(MeasureRun(s, keys, ts).data, keys)
    ensures MeasureRun(s, keys, ts).used <= s.used
    decreases |keys|
  {
    hide StepStock;
    if keys != [] {
      var n := |keys| - 1;
      var before, after := MeasureRun(s, keys[..n], ts), MeasureRun(s, keys, ts);
      MeasuredSizes(s, keys[..n], ts);
      TouchShrinks(before, keys[n], ts[n]);
      forall i | 0 <= i < n
        ensures Slot(after.data, keys[..n][i]) == Slot(before.data, keys[..n][i])
      {
        OtherSlotKept(before, keys[n], Exists, ts[n], keys[i]);
      }
      SlotsSumSame(before.data, after.data, keys[..n]);
    }
  }

  lemma {:induction false} MeasureShrinks(s: Stock, keys: seq<Bytes>, ts: seq<Time>)
    requires |ts| >= |keys|
    ensures MeasureRun(s, keys, ts).used <= s.used
    decreases |keys|
  {
    hide StepStock;
    if keys != [] {
      var n := |keys| - 1;
      MeasureShrinks(s, keys[..n], ts);
      TouchShrinks(MeasureRun(s, keys[..n], ts), keys[n], ts[n]);
    }
  }

  lemma SetGrowth(s: Stock, key: Bytes, val: Bytes, at: Time, now: Time)
    ensures StepStock(s, key, SetTo(val, at), now).used == s.used - OptSize(key, Slot(s.data, key)) + |key| + |val|
    ensures OptSize(key, Slot(StepStock(s, key, SetTo(val, at), now).data, key)) == |key| + |val|
  {
  }

  lemma TwoMore(args: seq<Bytes>, n: nat)
    requires 2 * n + 2 <= |args|
    ensures ListSize(args[..2 * n + 2]) == ListSize(args[..2 * n]) + |args[2 * n]| + |args[2 * n + 1]|
  {
    var k, v := args[2 * n], args[2 * n + 1];
    assert args[..2 * n + 2] == args[..2 * n] + [k, v];
    ListSizeConcat(args[..2 * n], [k, v]);
    var last := [v];
    assert [k, v][1..] == last && last[1..] == [];
    assert ListSize([k, v]) == |k| + ListSize([v]);
  }

  lemma NoArguments()
    ensures ListSize([]) == 0
  {
  }

  /** Steps that bring nothing never raise the estimate. */
  lemma {:induction false} FreeRun(s: Stock, steps: seq<KeyOp>, ts: seq<Time>)
    requires |ts| >= |steps| && forall i :: 0 <= i < |steps| ==> Brought(steps[i].key, steps[i].op) == 0
    ensures StepsRun(s, steps, ts).used <= s.used
    decreases |steps|
  {
    hide StepStock, Brought;
    if steps != [] {
      var n := |steps| - 1;
      FreeRun(s, steps[..n], ts);
      GrowthBounded(StepsRun(s, steps[..n], ts), steps[n].key, steps[n].op, ts[n]);
    }
  }

  /** What the value of an MSET pair finds of its key: the value of the last earlier pair of the same key, or what the store holds. */
  ghost function FoundBy(db: Db, args: seq<Bytes>, key: Bytes, n: nat): nat
    requires 2 * n <= |args|
    decreases n
  {
    if n == 0 then OptSize(key, Slot(db, key))
    else if args[2 * (n - 1)] == key then |key| + |args[2 * (n - 1) + 1]|
    else FoundBy(db, args, key, n - 1)
  }

  /** The bytes the first pairs of an MSET free, each key counted with what its own pair finds. */
  ghost function Freed(db: Db, args: seq<Bytes>, n: nat): nat
    requires 2 * n <= |args|
  {
    if n == 0 then 0 else Freed(db, args, n - 1) + FoundBy(db, args, args[2 * (n - 1)], n - 1)
  }

  /**
   When the estimate is enough, by its own reading of the sizes: MSET frees at least what was measured, each key just
   before its own pair, and SETNX meets a key still live, or frees at least what it brings. A key measured to hold
   nothing is as good as absent.
   */
  ghost predicate Estimable(s: Stock, cmd: Command, ms: seq<Time>, ts: seq<Time>)
    requires |ms| >= |Measured(cmd)| && |ms| >= 1 && |ts| >= 1
  {
    var m := MeasureRun(s, Measured(cmd), ms);
    (VerbOf(cmd) == Some(MSET) && |cmd.args| % 2 == 0 ==>
      SizesSum(s, MsetKeys(cmd.args), ms) <= Freed(m.data, cmd.args, |cmd.args| / 2)) &&
    (VerbOf(cmd) == Some(SETNX) && |cmd.args| == 2 ==> SetNxCovered(s, cmd.args[0], cmd.args[1], ms[0], ts[0]))
  }

  /** Measured as live and found expired, SETNX needs no more room than the expired record frees. */
  ghost predicate SetNxCovered(s: Stock, key: Bytes, val: Bytes, measured: Time, now: Time) {
    OptSize(key, Find(s.data, key, measured)) > 0 && Find(s.data, key, now).None? ==>
      |key| + |val| <= OptSize(key, Slot(s.data, key))
  }

  /** MSET adds its arguments and frees what each pair finds of its key, whatever keys come twice. */
  lemma {:induction false} MsetGrowth(m: Stock, args: seq<Bytes>, ts: seq<Time>, n: nat)
    requires |args| % 2 == 0 && 2 * n <= |args| && |ts| >= |args| / 2
    ensures var r := StepsRun(m, Pairs(args)[..n], ts);
            r.used == m.used + ListSize(args[..2 * n]) - Freed(m.data, args, n)
    ensures forall key :: OptSize(key, Slot(StepsRun(m, Pairs(args)[..n], ts).data, key)) == FoundBy(m.data, args, key, n)
    decreases n
  {
    hide StepStock, ListSize, OptSize;
    var steps := Pairs(args);
    if n == 0 {
      assert args[..0] == [] && steps[..0] == [];
      assert ListSize([]) == 0 by { NoArguments(); }
    } else {
      var k := n - 1;
      MsetGrowth(m, args, ts, k);
      StepsMore(m, steps, ts, k);
      var before := StepsRun(m, steps[..k], ts);
      SetGrowth(before, args[2 * k], args[2 * k + 1], NEVER, ts[k]);
      TwoMore(args, k);
      forall key
        ensures OptSize(key, Slot(StepsRun(m, steps[..n], ts).data, key)) == FoundBy(m.data, args, key, n)
      {
        if key != args[2 * k] {
          OtherSlotKept(before, args[2 * k], SetTo(args[2 * k + 1], NEVER), ts[k], key);
        }
      }
    }
  }

  lemma OneStep(s: Stock, key: Bytes, op: Op, ts: seq<Time>)
    requires |ts| >= 1
    ensures StepsRun(s, [KeyOp(key, op)], ts) == StepStock(s, key, op, ts[0])
  {
    hide StepStock;
    assert [KeyOp(key, op)][..0] == [];
  }

  lemma OneMeasure(s: Stock, key: Bytes, ms: seq<Time>)
    requires |ms| >= 1
    ensures MeasureRun(s, [key], ms) == StepStock(s, key, Exists, ms[0])
    ensures SizesSum(s, [key], ms) == OptSize(key, Find(s.data, key, ms[0]))
  {
    hide StepStock;
    assert [key][..0] == [];
  }

  lemma SetEstimated(s: Stock, key: Bytes, val: Bytes, at: Time, ms: seq<Time>, ts: seq<Time>)
    requires |ms| >= 1 && |ts| >= 1
    ensures var m := MeasureRun(s, [key], ms);
            StepsRun(m, [KeyOp(key, SetTo(val, at))], ts).used == m.used + |key| + |val| - SizesSum(s, [key], ms)
  {
    hide StepStock;
    OneMeasure(s, key, ms);
    TouchShrinks(s, key, ms[0]);
    OneStep(MeasureRun(s, [key], ms), key, SetTo(val, at), ts);
    SetGrowth(MeasureRun(s, [key], ms), key, val, at, ts[0]);
  }

  lemma SetNxEstimated(s: Stock, key: Bytes, val: Bytes, ms: seq<Time>, ts: seq<Time>)
    requires |ms| >= 1 && |ts| >= 1
    ensures var m := MeasureRun(s, [key], ms);
            StepsRun(m, [KeyOp(key, SetNx(val))], ts).used <=
            m.used + (if SizesSum(s, [key], ms) > 0 then 0 else |key| + |val|)
            <==> SetNxCovered(s, key, val, ms[0], ts[0])
  {
    hide StepStock, ValueSize;
    OneMeasure(s, key, ms);
    var m := MeasureRun(s, [key], ms);
    OneStep(m, key, SetNx(val), ts);
    SetNxGrowth(m, key, val, ts[0]);
    TouchShrinks(s, key, ms[0]);
    if Find(s.data, key, ms[0]).Some? {
      assert m == s by { KeptAsIs(s, key, ms[0]); }
    }
  }

  /** SETNX adds nothing beside a live record, and otherwise its arguments less what an expired record frees. */
  lemma SetNxGrowth(s: Stock, key: Bytes, val: Bytes, now: Time)
    ensures StepStock(s, key, SetNx(val), now).used ==
            s.used + if Find(s.data, key, now).Some? then 0 else |key| + |val| - OptSize(key, Slot(s.data, key))
  {
  }

  lemma KeptAsIs(s: Stock, key: Bytes, now: Time)
    requires Find(s.data, key, now).Some?
    ensures StepStock(s, key, Exists, now) == s
  {
    assert Place(s.data, key, Slot(s.data, key)) == s.data;
  }

  lemma MsetEstimated(s: Stock, args: seq<Bytes>, ms: seq<Time>, ts: seq<Time>)
    requires |args| % 2 == 0 && |ms| >= |args| / 2 && |ts| >= |args| / 2
    ensures var m := MeasureRun(s, MsetKeys(args), ms);
            StepsRun(m, Pairs(args), ts).used == m.used + ListSize(args) - Freed(m.data, args, |args| / 2)
  {
    hide StepsRun, MeasureRun, ListSize, Freed;
    MsetGrowth(MeasureRun(s, MsetKeys(args), ms), args, ts, |args| / 2);
    assert Pairs(args)[..|args| / 2] == Pairs(args) && args[..2 * (|args| / 2)] == args;
  }

  /** When MSET names no key twice, what was measured is what is freed. */
  lemma DifferentKeysEstimable(s: Stock, cmd: Command, ms: seq<Time>, ts: seq<Time>)
    requires VerbOf(cmd) == Some(MSET) && AllDifferent(MsetKeys(cmd.args))
    requires |ms| >= |Measured(cmd)| && |ms| >= 1 && |ts| >= 1
    ensures Estimable(s, cmd, ms, ts)
  {
    hide SizesSum, MeasureRun, SlotsSum, Freed, VerbNamed;
    var keys := MsetKeys(cmd.args);
    var m := MeasureRun(s, keys, ms);
    if |cmd.args| % 2 == 0 {
      MeasuredSizes(s, keys, ms);
      FreesSlots(m.data, cmd.args, |keys|);
      assert keys[..|keys|] == keys;
    }
  }

  lemma {:induction false} FreesSlots(db: Db, args: seq<Bytes>, n: nat)
    requires |args| % 2 == 0 && 2 * n <= |args| && AllDifferent(MsetKeys(args))
    ensures Freed(db, args, n) == SlotsSum(db, MsetKeys(args)[..n])
    decreases n
  {
    var keys := MsetKeys(args);
    if n > 0 {
      FreesSlots(db, args, n - 1);
      assert keys[..n][..n - 1] == keys[..n - 1];
      FirstOfItsKey(db, args, n - 1, n - 1);
    }
  }

  lemma {:induction false} FirstOfItsKey(db: Db, args: seq<Bytes>, n: nat, k: nat)
    requires |args| % 2 == 0 && k <= n && 2 * n < |args| && AllDifferent(MsetKeys(args))
    ensures FoundBy(db, args, args[2 * n], k) == OptSize(args[2 * n], Slot(db, args[2 * n]))
    decreases k
  {
    if k > 0 {
      assert MsetKeys(args)[k - 1] != MsetKeys(args)[n];
      FirstOfItsKey(db, args, n, k - 1);
    }
  }

  /** The steps of an estimated write after its measurements. */
  ghost function WriteRun(s: Stock, cmd: Command, now: Time, ms: seq<Time>, ts: seq<Time>): Stock
    requires |ms| >= |Measured(cmd)| && |ts| >= |cmd.args|
  {
    PlansFit(cmd, now);
    var m, plan := MeasureRun(s, Measured(cmd), ms), PlanOf(cmd, now);
    match plan
    case Steps(steps) => StepsRun(m, steps, ts)
    case DropAll => Stock(map[], 0, m.expired)
    case _ => m
  }

  lemma StringEstimated(s: Stock, v: Verb, cmd: Command, now: Time, ms: seq<Time>, ts: seq<Time>)
    requires VerbOf(cmd) == Some(v) && (v.SET? || v.SETNX? || v.MSET?)
    requires |ms| >= |Measured(cmd)| && |ts| >= |cmd.args| && |ms| >= 1 && |ts| >= 1
    requires StringPlan(v, cmd.args, now).Steps?
    ensures WriteRun(s, cmd, now, ms, ts).used <= MeasureRun(s, Measured(cmd), ms).used + Estimate(s, cmd, ms)
            <==> Estimable(s, cmd, ms, ts)
  {
    hide StepsRun, MeasureRun, SizesSum, ListSize, Text, UnitOf, ParseInt, Freed, SetNxCovered;
    var args := cmd.args;
    match v
    case SET => SetEstimated(s, args[0], args[1], ExpiryAsked(args[2..], now).value, ms, ts);
    case SETNX => SetNxEstimated(s, args[0], args[1], ms, ts);
    case MSET => MsetEstimated(s, args, ms, ts);
  }

  lemma SizeOfTail(args: seq<Bytes>)
    requires args != []
    ensures ListSize(args) == |args[0]| + ListSize(args[1..])
    ensures |args| == 3 ==> ListSize(args) == |args[0]| + |args[1]| + |args[2]|
  {
    if |args| == 3 {
      assert args[1..][0] == args[1] && args[1..][1..] == [args[2]] && args[1..][1..][1..] == [];
    }
  }

  /** A plan of one step that brings no more than some bytes. */
  ghost predicate BringsOne(p: Plan, bytes: nat) {
    p.Steps? ==> |p.steps| == 1 && Brought(p.steps[0].key, p.steps[0].op) <= bytes
  }

  lemma ScalarBrings(v: Verb, cmd: Command, now: Time)
    requires VerbOf(cmd) == Some(v)
    requires v.INCR? || v.DECR? || v.INCRBY? || v.DECRBY? || v.EXPIRE? || v.PEXPIREAT? || v.PERSIST?
    ensures BringsOne(VerbPlan(v, cmd.args, now), RawGrowth(cmd))
  {
    hide ListSize, Text, ParseInt, Wrap64, VerbOf;
  }

  lemma ListBrings(v: Verb, cmd: Command)
    requires VerbOf(cmd) == Some(v) && (v.LPUSH? || v.RPUSH? || v.LPOP? || v.RPOP?)
    ensures BringsOne(ListPlan(v, cmd.args), RawGrowth(cmd))
  {
    hide ListSize, Text, ParseInt, VerbOf;
    if cmd.args != [] { SizeOfTail(cmd.args); }
  }

  lemma MapBrings(v: Verb, cmd: Command, now: Time)
    requires VerbOf(cmd) == Some(v) && (v.HSET? || v.HDEL? || v.SADD? || v.SREM?)
    ensures BringsOne(VerbPlan(v, cmd.args, now), RawGrowth(cmd))
  {
    hide ListSize, Text, VerbOf;
    if cmd.args != [] { SizeOfTail(cmd.args); }
  }

  /** Commands of one step bring no more than their arguments are estimated at. */
  lemma OneStepEstimated(s: Stock, v: Verb, cmd: Command, now: Time, ms: seq<Time>, ts: seq<Time>)
    requires VerbOf(cmd) == Some(v) && !v.SET? && !v.SETNX? && !v.MSET? && !v.DEL? && !v.FLUSHALL? && !Readonly(v)
    requires |ts| >= |cmd.args| && |ts| >= 1
    requires VerbPlan(v, cmd.args, now).Steps?
    ensures WriteRun(s, cmd, now, ms, ts).used <= s.used + RawGrowth(cmd)
  {
    hide StepsRun, RawGrowth, StringPlan, KeyPlan, ListPlan, HashPlan, SetPlan, VerbOf, Brought;
    if v.LPUSH? || v.RPUSH? || v.LPOP? || v.RPOP? {
      ListBrings(v, cmd);
    } else if v.HSET? || v.HDEL? || v.SADD? || v.SREM? {
      MapBrings(v, cmd, now);
    } else {
      ScalarBrings(v, cmd, now);
    }
    var steps := VerbPlan(v, cmd.args, now).steps;
    var k := steps[0];
    assert steps == [KeyOp(k.key, k.op)];
    OneStep(s, k.key, k.op, ts);
    GrowthBounded(s, k.key, k.op, ts[0]);
    PlannedAs(v, cmd, now);
    assert MeasureRun(s, [], ms) == s;
  }

  lemma PlannedAs(v: Verb, cmd: Command, now: Time)
    requires VerbOf(cmd) == Some(v)
    ensures PlanOf(cmd, now) == VerbPlan(v, cmd.args, now)
    ensures !v.SET? && !v.SETNX? && !v.MSET? ==> Measured(cmd) == []
  {
    hide VerbPlan, VerbNamed;
  }

  lemma DelEstimated(s: Stock, cmd: Command, now: Time, ms: seq<Time>, ts: seq<Time>)
    requires VerbOf(cmd) == Some(DEL) && |ts| >= |cmd.args| && |cmd.args| >= 1
    ensures WriteRun(s, cmd, now, ms, ts).used <= s.used
  {
    hide StepsRun, Text;
    assert PlanOf(cmd, now) == Steps(Each(cmd.args, Delete));
    FreeRun(s, Each(cmd.args, Delete), ts);
    assert MeasureRun(s, [], ms) == s;
  }

  /** The estimate is at least the true growth if and only if it is estimable; every verb but MSET and SETNX always is. */
  lemma EstimateSuffices(s: Stock, cmd: Command, at: Time, now: Time, ms: seq<Time>, ts: seq<Time>)
    requires AofCommand(cmd, at).Logged? && Excess(s) >= 0
    requires |ms| >= |Measured(cmd)| && |ts| >= |cmd.args| && |ms| >= 1 && |ts| >= 1
    ensures WriteRun(s, cmd, now, ms, ts).used <= MeasureRun(s, Measured(cmd), ms).used + Estimate(s, cmd, ms)
            <==> Estimable(s, cmd, ms, ts)
  {
    hide StepsRun, SizesSum, ListSize, StringPlan, KeyPlan, ListPlan, HashPlan, SetPlan, LogVerb, Estimable, DbSize;
    LoggedExactly(cmd, at, now);
    var v := VerbOf(cmd).value;
    if !v.SETNX? && !v.MSET? {
      OthersEstimable(s, cmd, ms, ts);
    }
    if v.SET? || v.SETNX? || v.MSET? {
      OneStepPlan(v, cmd, now);
      StringEstimated(s, v, cmd, now, ms, ts);
    } else if v.DEL? {
      DelNeedsKey(cmd, now);
      DelEstimated(s, cmd, now, ms, ts);
      assert MeasureRun(s, [], ms) == s;
    } else if v.FLUSHALL? {
      assert MeasureRun(s, [], ms) == s;
    } else {
      OneStepPlan(v, cmd, now);
      OneStepEstimated(s, v, cmd, now, ms, ts);
      assert MeasureRun(s, [], ms) == s;
    }
  }

  lemma OthersEstimable(s: Stock, cmd: Command, ms: seq<Time>, ts: seq<Time>)
    requires |ms| >= |Measured(cmd)| && |ms| >= 1 && |ts| >= 1 && VerbOf(cmd) != Some(SETNX) && VerbOf(cmd) != Some(MSET)
    ensures Estimable(s, cmd, ms, ts)
  {
  }

  lemma DelNeedsKey(cmd: Command, now: Time)
    requires VerbOf(cmd) == Some(DEL) && !PlanOf(cmd, now).Immediate?
    ensures |cmd.args| >= 1
  {
  }

  lemma OneStepPlan(v: Verb, cmd: Command, now: Time)
    requires VerbOf(cmd) == Some(v) && !v.FLUSHALL? && !Readonly(v) && !PlanOf(cmd, now).Immediate?
    ensures VerbPlan(v, cmd.args, now).Steps?
  {
    hide Text, ParseInt, Wrap64, UnitOf, ExpiryAsked, Pairs, Each, VerbNamed;
  }

  /** What can happen to the store of a running server: a write under the limit's lock, or anything that is no write. */
  datatype Served =
    | Write(cmd: Command, at: Time, now: Time, ms: seq<Time>, ts: seq<Time>)
    | Quietly(ev: Event)

  ghost predicate Proper(s: Stock, sv: Served) {
    match sv
    case Write(cmd, at, now, ms, ts) =>
      AofCommand(cmd, at).Logged? && |ms| >= |Measured(cmd)| && |ts| >= |cmd.args| && |ms| >= 1 && |ts| >= 1 &&
      Estimable(s, cmd, ms, ts)
    case Quietly(ev) => Replay.Unlogged(s.data, ev)
  }

  /** `dispatchWithAOF` on the store: estimate, refuse or run. */
  ghost function Serve(s: Stock, sv: Served, limit: int): Stock
    requires Proper(s, sv)
  {
    match sv
    case Write(cmd, at, now, ms, ts) =>
      if Exceeds(s, cmd, ms, limit) then MeasureRun(s, Measured(cmd), ms) else WriteRun(s, cmd, now, ms, ts)
    case Quietly(ev) => StockAfter(s, ev)
  }

  ghost predicate AllProper(s: Stock, run: seq<Served>, limit: int)
    decreases |run|
  {
    run == [] || (Proper(s, run[0]) && AllProper(Serve(s, run[0], limit), run[1..], limit))
  }

  ghost function ServeAll(s: Stock, run: seq<Served>, limit: int): Stock
    requires AllProper(s, run, limit)
    decreases |run|
  {
    if run == [] then s else ServeAll(Serve(s, run[0], limit), run[1..], limit)
  }

  lemma {:induction false} ExcessKept(s: Stock, steps: seq<KeyOp>, ts: seq<Time>)
    requires |ts| >= |steps| && Excess(s) >= 0
    ensures Excess(StepsRun(s, steps, ts)) >= 0
    decreases |steps|
  {
    hide StepStock, Excess;
    if steps != [] {
      var n := |steps| - 1;
      ExcessKept(s, steps[..n], ts);
      ExcessGrows(StepsRun(s, steps[..n], ts), steps[n].key, steps[n].op, ts[n]);
    }
  }

  lemma ExcessGrows(s: Stock, key: Bytes, op: Op, now: Time)
    ensures Excess(StepStock(s, key, op, now)) >= Excess(s)
  {
    hide StepStock, Excess, Leak;
    StepExcess(s, key, op, now);
  }

  lemma {:induction false} ExcessMeasured(s: Stock, keys: seq<Bytes>, ts: seq<Time>)
    requires |ts| >= |keys| && Excess(s) >= 0
    ensures Excess(MeasureRun(s, keys, ts)) >= 0
    decreases |keys|
  {
    hide StepStock, Excess;
    if keys != [] {
      var n := |keys| - 1;
      ExcessMeasured(s, keys[..n], ts);
      ExcessGrows(MeasureRun(s, keys[..n], ts), keys[n], Exists, ts[n]);
    }
  }

  lemma EmptyExact(expired: nat)
    ensures Excess(Stock(map[], 0, expired)) == 0
  {
    assert DbWeights(map[]) == map[];
  }

  lemma ServeExcess(s: Stock, sv: Served, limit: int)
    requires Proper(s, sv) && Excess(s) >= 0
    ensures Excess(Serve(s, sv, limit)) >= 0
  {
    hide StepsRun, MeasureRun, Exceeds, Excess, StepStock, Leak, VerbPlan;
    match sv
    case Write(cmd, at, now, ms, ts) =>
      ExcessMeasured(s, Measured(cmd), ms);
      var m := MeasureRun(s, Measured(cmd), ms);
      EmptyExact(m.expired);
      PlansFit(cmd, now);
      if PlanOf(cmd, now).Steps? {
        ExcessKept(m, PlanOf(cmd, now).steps, ts);
      }
    case Quietly(ev) =>
      EventExcess(s, ev);
  }

  lemma QuietShrinks(s: Stock, ev: Event)
    requires Replay.Unlogged(s.data, ev)
    ensures StockAfter(s, ev).used <= s.used
  {
    hide Apply, Leak, EntrySize;
    if ev.Do? {
      var live := Find(s.data, ev.key, ev.at);
      Replay.QuietKeeps(ev.op, live, ev.at);
      QuietLeak(ev.op, live, ev.at);
    } else {
      var gone := s.data.Keys - Swept(s.data, ev.gone, ev.at).Keys;
      DbSizeWithout(s.data, gone);
      assert s.data - gone == Swept(s.data, ev.gone, ev.at);
    }
  }

  lemma QuietLeak(op: Op, live: Option<Record>, now: Time)
    requires ReadOnly(op) || Failed(Apply(op, live, now).1)
    ensures Leak(op, live) == 0
  {
    if op.HDel? {
      HashApplies(op, live, now);
    } else if op.SRem? {
      SetApplies(op, live, now);
    }
  }

  lemma ServeBounded(s: Stock, sv: Served, limit: int)
    requires Proper(s, sv) && Excess(s) >= 0
    ensures Serve(s, sv, limit).used <= if s.used > limit then s.used else limit
  {
    hide StepsRun, MeasureRun, WriteRun, Estimate, StepStock, Swept, Estimable;
    match sv
    case Write(cmd, at, now, ms, ts) =>
      MeasureShrinks(s, Measured(cmd), ms);
      EstimateSuffices(s, cmd, at, now, ms, ts);
    case Quietly(ev) => QuietShrinks(s, ev);
  }

  /** The memory limit: in every state a server reaches, the estimate is at most the limit, or what it was at the start. */
  lemma {:induction false} LimitHolds(s: Stock, run: seq<Served>, limit: int)
    requires AllProper(s, run, limit) && Excess(s) >= 0
    ensures ServeAll(s, run, limit).used <= if s.used > limit then s.used else limit
    decreases |run|
  {
    hide Proper, Serve, Excess;
    if run != [] {
      ServeExcess(s, run[0], limit);
      ServeBounded(s, run[0], limit);
      LimitHolds(Serve(s, run[0], limit), run[1..], limit);
    }
  }

  /**
   Naming a key twice in one MSET frees its old bytes twice in the estimate: the true growth exceeds it by what the key
   held beyond the first value given.
   */
  lemma RepeatedKeyUnderestimated(s: Stock, key: Bytes, first: Bytes, last: Bytes, now: Time)
    requires Find(s.data, key, now).Some?
    ensures var args, ts := [key, first, key, last], [now, now];
            var m := MeasureRun(s, MsetKeys(args), ts);
            StepsRun(m, Pairs(args), ts).used ==
            m.used + ListSize(args) - SizesSum(s, MsetKeys(args), ts)
            + OptSize(key, Slot(s.data, key)) - |key| - |first|
  {
    hide MeasureRun, SizesSum, StepsRun, Freed, ListSize, Find, StepStock;
    var args, ts := [key, first, key, last], [now, now];
    assert MsetKeys(args) == [key, key];
    MeasuredTwice(s, key, now, ts);
    MsetEstimated(s, args, ts, ts);
    TwoPairs(s.data, key, first, last);
  }

  /**
   The limit passed. A key holds some bytes and the store is just at its limit; MSET of the key to nothing and then to
   twice those bytes is estimated as no growth at all, is let through, and ends above the limit.
   */
  lemma RepeatedKeyPassesLimit(key: Bytes, val: Bytes, now: Time)
    requires val != []
    ensures var s := Stock(map[key := Record(StrV(val), NEVER)], |key| + |val|, 0);
            var cmd, ts := Command("MSET", [key, [], key, val + val]), [now, now, now, now];
            Excess(s) == 0 && |Measured(cmd)| == 2 && !Exceeds(s, cmd, ts, s.used) &&
            WriteRun(s, cmd, now, ts, ts).used == s.used + |val|
  {
    hide MeasureRun, SizesSum, StepsRun, Freed, VerbNamed, VerbPlan, Upper, ListSize, DbSize, Find, StepStock;
    var s := Stock(map[key := Record(StrV(val), NEVER)], |key| + |val|, 0);
    var cmd, ts := Command("MSET", [key, [], key, val + val]), [now, now, now, now];
    OneKeyExact(key, val);
    MsetOf(cmd, now);
    var keys := MsetKeys(cmd.args);
    assert keys == [key, key];
    LiveKey(key, val, now);
    MeasuredTwice(s, key, now, ts);
    MsetEstimated(s, cmd.args, ts, ts);
    TwoPairs(s.data, key, [], val + val);
    assert Slot(s.data, key) == Some(Record(StrV(val), NEVER));
    assert OptSize(key, Slot(s.data, key)) == |key| + |val|;
  }

  lemma LiveKey(key: Bytes, val: Bytes, now: Time)
    ensures Find(map[key := Record(StrV(val), NEVER)], key, now).Some?
  {
  }

  /** Measuring a live key twice counts it twice. */
  lemma MeasuredTwice(s: Stock, key: Bytes, now: Time, ts: seq<Time>)
    requires |ts| >= 2 && ts[0] == now == ts[1] && Find(s.data, key, now).Some?
    ensures MeasureRun(s, [key, key], ts) == s && SizesSum(s, [key, key], ts) == 2 * OptSize(key, Slot(s.data, key))
  {
    hide StepStock;
    KeptAsIs(s, key, now);
    OneMeasure(s, key, ts);
    assert [key, key][..1] == [key];
  }

  lemma OneKeySize(key: Bytes, r: Record)
    ensures DbSize(map[key := r]) == EntrySize(key, r)
  {
    hide EntrySize;
    var none: map<Bytes, nat> := map[];
    TotalPut(none, key, EntrySize(key, r));
    assert DbWeights(map[key := r]) == none[key := EntrySize(key, r)] && none - {key} == none;
  }

  lemma OneKeyExact(key: Bytes, val: Bytes)
    ensures Excess(Stock(map[key := Record(StrV(val), NEVER)], |key| + |val|, 0)) == 0
  {
    hide DbSize;
    OneKeySize(key, Record(StrV(val), NEVER));
  }

  /**
   The same of SETNX: a key measured while live and expired when the command runs counts as staying, and its successor,
   twice as long, takes the store above the limit.
   */
  lemma ExpiredSetNxPassesLimit(key: Bytes, val: Bytes, deadline: Time, now: Time)
    requires val != [] && deadline != NEVER && deadline < now
    ensures var s := Stock(map[key := Record(StrV(val), deadline)], |key| + |val|, 0);
            var cmd, ms, ts := Command("SETNX", [key, val + val]), [deadline, deadline], [now, now];
            Excess(s) == 0 && |Measured(cmd)| == 1 && !Exceeds(s, cmd, ms, s.used) &&
            WriteRun(s, cmd, now, ms, ts).used == s.used + |val|
  {
    hide MeasureRun, SizesSum, StepsRun, VerbNamed, VerbPlan, Upper, DbSize, StepStock;
    var r := Record(StrV(val), deadline);
    var s := Stock(map[key := r], |key| + |val|, 0);
    var cmd, ms, ts := Command("SETNX", [key, val + val]), [deadline, deadline], [now, now];
    OneKeySize(key, r);
    SetNxOf(cmd, now);
    assert Find(s.data, key, deadline) == Some(r) && Find(s.data, key, now).None?;
    KeptAsIs(s, key, deadline);
    OneMeasure(s, key, ms);
    OneStep(s, key, SetNx(val + val), ts);
    SetNxGrowth(s, key, val + val, now);
  }

  lemma SetNxOf(cmd: Command, now: Time)
    requires cmd.name == "SETNX" && |cmd.args| == 2
    ensures VerbOf(cmd) == Some(SETNX) && PlanOf(cmd, now) == One(cmd.args[0], SetNx(cmd.args[1]))
  {
    NamesAgree(SETNX);
  }

  lemma MsetOf(cmd: Command, now: Time)
    requires cmd.name == "MSET" && |cmd.args| == 4
    ensures VerbOf(cmd) == Some(MSET) && PlanOf(cmd, now) == Steps(Pairs(cmd.args))
  {
    NamesAgree(MSET);
  }

  lemma TwoPairs(db: Db, key: Bytes, first: Bytes, last: Bytes)
    ensures var args := [key, first, key, last];
            Freed(db, args, 2) == OptSize(key, Slot(db, key)) + |key| + |first| &&
            ListSize(args) == 2 * |key| + |first| + |last|
  {
    var args := [key, first, key, last];
    TwoMore(args, 0);
    TwoMore(args, 1);
    assert args[..0] == [] && args[..2 * 0 + 2] == args[..2 * 1] && args[..2 * 1 + 2] == args;
    assert Freed(db, args, 0) == 0 && FoundBy(db, args, key, 0) == OptSize(key, Slot(db, key));
    assert Freed(db, args, 1) == OptSize(key, Slot(db, key));
    assert args[2 * (1 - 1)] == key;
    assert FoundBy(db, args, key, 1) == |key| + |first|;
  }
}
