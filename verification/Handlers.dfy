/** What a client gets for each command, and what the command leaves in the store, told without the dispatcher's plans. */
module Handlers {
  import opened Accounting
  import opened ByteStrings
  import opened Clock
  import opened Commands
  import opened Counters
  import opened Dispatcher
  import opened Effects
  import opened Keyspace
  import opened MemoryLimit
  import opened Numbers
  import opened Protocol
  import opened Runs
  import opened Shards
  import opened Spelling
  import opened Steps
  import opened Values

  /** One dispatched command: its clock readings, the store before and after, and the reply. */
  datatype Exchange = Exchange(cmd: Command, now: Time, ts: seq<Time>, before: Stock, after: Stock, reply: Reply) {
    /** The first operation's reading of the clock. */
    function At(): Time { if ts == [] then now else ts[0] }

    /** What the key shows to it. */
    function Shown(key: Bytes): Option<Record> { Find(before.data, key, At()) }
  }

  /** A command of this name, in any spelling, is dispatched with these arguments. */
  ghost predicate Asked(name: Bytes, args: seq<Bytes>, x: Exchange) {
    Spells(x.cmd.name, name) && x.cmd.args == args && |x.ts| >= |args| && Dispatched(x.cmd, x.now, x.ts, x.before, x.after, x.reply)
  }

  /** Nothing a client can see has changed. */
  predicate Kept(x: Exchange) {
    SameView(x.after.data, x.before.data, x.At())
  }

  predicate Wrote(x: Exchange, key: Bytes, r: Record) {
    x.after.data == x.before.data[key := r]
  }

  predicate Removed(x: Exchange, key: Bytes) {
    x.after.data == x.before.data - {key}
  }

  predicate Refused(x: Exchange) {
    Kept(x) && x.reply == Error(Text("WRONGTYPE Operation against a key holding the wrong kind of value"))
  }

  /** A plan of one operation is carried out at the first reading, and its answer is the reply. */
  lemma CarriedOut(v: Verb, key: Bytes, op: Op, x: Exchange) returns (o: Outcome)
    requires Spells(x.cmd.name, NameOf(v)) && VerbPlan(v, x.cmd.args, x.now) == One(key, op)
    requires |x.ts| >= |x.cmd.args| && |x.ts| >= 1 && Dispatched(x.cmd, x.now, x.ts, x.before, x.after, x.reply)
    ensures x.after == StepStock(x.before, key, op, x.At())
    ensures Shows(Apply(op, x.Shown(key), x.At()).1, o) && x.reply == StepsReply(v, [o])
  {
    hide VerbPlan, NameOf, VerbNamed, Spells, Shows, StepsReply, StepStock, Apply;
    VerbSpelled(x.cmd, v);
    PlansFit(x.cmd, x.now);
    var steps := [KeyOp(key, op)];
    assert PlanOf(x.cmd, x.now) == Steps(steps);
    OneStep(x.before, key, op, x.ts);
    assert steps[..0] == [];
    assert StepsAnswers(x.before, steps, x.ts) == [Answer(x.before.data, key, op, x.At())];
    var outs :| AllShow(StepsAnswers(x.before, steps, x.ts), outs) && x.reply == StepsReply(v, outs);
    assert outs == [outs[0]];
    assert Shows(Answer(x.before.data, key, op, x.At()), outs[0]);
    o := outs[0];
  }

  lemma Carried(v: Verb, key: Bytes, op: Op, x: Exchange)
    requires Spells(x.cmd.name, NameOf(v)) && VerbPlan(v, x.cmd.args, x.now) == One(key, op)
    requires |x.ts| >= |x.cmd.args| && |x.ts| >= 1 && Dispatched(x.cmd, x.now, x.ts, x.before, x.after, x.reply)
    ensures x.after.data == StepDb(x.before.data, key, op, x.At()) == Place(x.before.data, key, Apply(op, x.Shown(key), x.At()).0)
    ensures var spec := Apply(op, x.Shown(key), x.At()).1;
            !spec.Fields? && !spec.Members? && !v.DEL? && !v.MSET? && !v.MGET? ==> x.reply == Render(v, spec)
  {
    hide VerbPlan, NameOf, Spells, StepStock, Apply, Render, Dispatched;
    var o := CarriedOut(v, key, op, x);
    StepIsDb(x.before, key, op, x.At());
  }

  lemma ReadKept(before: Stock, key: Bytes, op: Op, now: Time)
    requires ReadOnly(op) || Apply(op, Find(before.data, key, now), now).0 == Find(before.data, key, now)
    ensures SameView(StepDb(before.data, key, op, now), before.data, now)
  {
    hide Window, Elements, Reversed, ParseInt, FormatInt;
    StepFinds(before.data, key, op, now);
    StepLeavesRest(before.data, key, op, now);
    assert Apply(op, Find(before.data, key, now), now).0 == Find(before.data, key, now);
    SameSlotSameView(StepDb(before.data, key, op, now), before.data, key, now);
  }

  lemma GetReplies(key: Bytes, x: Exchange)
    requires Asked("GET", [key], x)
    ensures Kept(x)
    ensures match x.Shown(key)
            case None => x.reply == NullBulk
            case Some(r) =>
              if r.value.StrV? then x.reply == Bulk(r.value.bytes) else Refused(x)
  {
    hide Text, Dispatched, SameView, Apply, StepStock;
    Carried(GET, key, Get, x);
    StringApplies(Get, x.Shown(key), x.At());
    ReadKept(x.before, key, Get, x.At());
  }

  /** SET without options. */
  lemma SetWrites(key: Bytes, val: Bytes, x: Exchange)
    requires Asked("SET", [key, val], x)
    ensures Wrote(x, key, Record(StrV(val), NEVER)) && x.reply == Status("OK")
  {
    hide Text, Dispatched, SameView;
    assert [key, val][2..] == [];
    Carried(SET, key, SetTo(val, NEVER), x);
  }

  /** SETNX writes only where nothing is shown. */
  lemma SetNxReplies(key: Bytes, val: Bytes, x: Exchange)
    requires Asked("SETNX", [key, val], x)
    ensures if x.Shown(key).None? then Wrote(x, key, Record(StrV(val), NEVER)) && x.reply == Int(1)
            else Kept(x) && x.reply == Int(0)
  {
    hide Text, Dispatched, SameView, Apply, StepStock;
    Carried(SETNX, key, SetNx(val), x);
    StringApplies(SetNx(val), x.Shown(key), x.At());
    if x.Shown(key).Some? { ReadKept(x.before, key, SetNx(val), x.At()); }
  }

  /** EXISTS and TYPE. */
  lemma ExistsReplies(key: Bytes, x: Exchange)
    requires Asked("EXISTS", [key], x)
    ensures Kept(x) && x.reply == Int(if x.Shown(key).Some? then 1 else 0)
  {
    hide Text, Dispatched, SameView, Apply, StepStock;
    Carried(EXISTS, key, Exists, x);
    KeyApplies(Exists, x.Shown(key), x.At());
    ReadKept(x.before, key, Exists, x.At());
  }

  lemma TypeReplies(key: Bytes, x: Exchange)
    requires Asked("TYPE", [key], x)
    ensures Kept(x)
    ensures var r := x.Shown(key);
            x.reply == Status(if r.None? then "none" else if r.value.value.StrV? then "string" else if r.value.value.ListV? then "list"
                            else if r.value.value.HashV? then "hash" else "set")
  {
    hide Text, Dispatched, SameView, Apply, StepStock;
    Carried(TYPE, key, Type, x);
    KeyApplies(Type, x.Shown(key), x.At());
    ReadKept(x.before, key, Type, x.At());
  }

  /** A number counted by so much, within 64 bits; the deadline stays. Any other key is left as it is, with an error. */
  predicate Counted(x: Exchange, key: Bytes, delta: int) {
    var live := x.Shown(key);
    if live.Some? && !live.value.value.StrV? then Refused(x)
    else
      var n := if live.None? then Some(0) else ParseInt(live.value.value.bytes);
      if n.Some? && -0x8000_0000_0000_0000 <= n.value + delta < 0x8000_0000_0000_0000 then
        x.reply == Int(n.value + delta) && key in x.after.data && x.after.data - {key} == x.before.data - {key} &&
        x.after.data[key].value.StrV? && ParseInt(x.after.data[key].value.bytes) == Some(n.value + delta) &&
        x.after.data[key].expireAt == if live.None? then NEVER else live.value.expireAt
      else
        Kept(x) && x.reply == Error(Text("ERR value is not an integer or out of range"))
  }

  lemma Counts(v: Verb, key: Bytes, delta: int, x: Exchange)
    requires v.INCR? || v.DECR? || v.INCRBY? || v.DECRBY?
    requires Spells(x.cmd.name, NameOf(v)) && VerbPlan(v, x.cmd.args, x.now) == One(key, IncrBy(delta))
    requires |x.ts| >= |x.cmd.args| && |x.ts| >= 1 && Dispatched(x.cmd, x.now, x.ts, x.before, x.after, x.reply)
    ensures Counted(x, key, delta)
  {
    hide Text, Dispatched, SameView, VerbPlan, Spells, NameOf, Apply, StepStock, IncrByOn;
    Carried(v, key, IncrBy(delta), x);
    StringApplies(IncrBy(delta), x.Shown(key), x.At());
    CountsOn(x.Shown(key), delta);
    StepLeavesRest(x.before.data, key, IncrBy(delta), x.At());
    if IncrByOn(x.Shown(key), delta).0 == x.Shown(key) {
      ReadKept(x.before, key, IncrBy(delta), x.At());
    }
  }

  lemma CountsOn(live: Option<Record>, delta: int)
    ensures var (after, answer) := IncrByOn(live, delta);
            if live.Some? && !live.value.value.StrV? then after == live && answer == WrongType
            else
              var n := if live.None? then Some(0) else ParseInt(live.value.value.bytes);
              if n.Some? && -0x8000_0000_0000_0000 <= n.value + delta < 0x8000_0000_0000_0000 then
                answer == Count(n.value + delta) && after.Some? && after.value.value.StrV? &&
                ParseInt(after.value.value.bytes) == Some(n.value + delta) &&
                after.value.expireAt == if live.None? then NEVER else live.value.expireAt
              else after == live && answer == NotInteger
  {
    if NumberOf(live).Some? {
      IncrExact(live, delta, NumberOf(live).value);
    }
  }

  /** INCR adds one, DECR takes one away, and INCRBY adds its argument. */
  lemma IncrReplies(key: Bytes, x: Exchange)
    requires Asked("INCR", [key], x)
    ensures Counted(x, key, 1)
  {
    hide Text, Dispatched, Counted;
    Counts(INCR, key, 1, x);
  }

  lemma DecrReplies(key: Bytes, x: Exchange)
    requires Asked("DECR", [key], x)
    ensures Counted(x, key, -1)
  {
    hide Text, Dispatched, Counted;
    Counts(DECR, key, -1, x);
  }

  lemma IncrByReplies(key: Bytes, text: Bytes, n: int, x: Exchange)
    requires Asked("INCRBY", [key, text], x) && ParseInt(text) == Some(n)
    ensures Counted(x, key, n)
  {
    hide Text, Dispatched, Counted;
    Counts(INCRBY, key, n, x);
  }

  /** DECRBY takes its argument away, but adds the least 64-bit integer, which it cannot negate. */
  lemma DecrByReplies(key: Bytes, text: Bytes, n: int, x: Exchange)
    requires Asked("DECRBY", [key, text], x) && ParseInt(text) == Some(n)
    ensures Counted(x, key, if n == -0x8000_0000_0000_0000 then n else -n)
  {
    hide Text, Dispatched, Counted;
    Counts(DECRBY, key, if n == -0x8000_0000_0000_0000 then n else -n, x);
  }

  /** A push puts its values at the head, the last one first, or at the tail, the last one last. */
  lemma LPushReplies(key: Bytes, vals: seq<Bytes>, x: Exchange)
    requires vals != [] && Asked("LPUSH", [key] + vals, x)
    ensures match x.Shown(key)
            case None => Wrote(x, key, Record(ListV(Reversed(vals)), NEVER)) && x.reply == Int(|vals|)
            case Some(r) =>
              if r.value.ListV? then
                Wrote(x, key, r.(value := ListV(Reversed(vals) + r.value.items))) &&
                x.reply == Int(|r.value.items| + |vals|)
              else Refused(x)
  {
    hide Text, Dispatched, SameView, Apply, StepStock, Reversed;
    assert ([key] + vals)[1..] == vals;
    Carried(LPUSH, key, LPush(vals), x);
    ListApplies(LPush(vals), x.Shown(key), x.At());
    var live := x.Shown(key);
    if live.Some? && !live.value.value.ListV? {
      ReadKept(x.before, key, LPush(vals), x.At());
    } else if live.None? {
      assert Reversed(vals) + [] == Reversed(vals);
    }
  }

  lemma RPushReplies(key: Bytes, vals: seq<Bytes>, x: Exchange)
    requires vals != [] && Asked("RPUSH", [key] + vals, x)
    ensures match x.Shown(key)
            case None => Wrote(x, key, Record(ListV(vals), NEVER)) && x.reply == Int(|vals|)
            case Some(r) =>
              if r.value.ListV? then
                Wrote(x, key, r.(value := ListV(r.value.items + vals))) &&
                x.reply == Int(|r.value.items| + |vals|)
              else Refused(x)
  {
    hide Text, Dispatched, SameView, Apply, StepStock;
    assert ([key] + vals)[1..] == vals;
    Carried(RPUSH, key, RPush(vals), x);
    ListApplies(RPush(vals), x.Shown(key), x.At());
    var live := x.Shown(key);
    if live.Some? && !live.value.value.ListV? {
      ReadKept(x.before, key, RPush(vals), x.At());
    } else if live.None? {
      assert [] + vals == vals;
    }
  }

  /** A pop takes the head, or the tail; the key goes with its last element. */
  lemma LPopReplies(key: Bytes, x: Exchange)
    requires Asked("LPOP", [key], x)
    ensures match x.Shown(key)
            case None => Kept(x) && x.reply == NullBulk
            case Some(r) =>
              if !r.value.ListV? then Refused(x)
              else
                var items := r.value.items;
                if items == [] then Kept(x) && x.reply == NullBulk
                else
                  x.reply == Bulk(items[0]) &&
                  if |items| == 1 then Removed(x, key) else Wrote(x, key, r.(value := ListV(items[1..])))
  {
    hide Text, Dispatched, SameView, Apply, StepStock;
    Carried(LPOP, key, LPop, x);
    ListApplies(LPop, x.Shown(key), x.At());
    var live := x.Shown(key);
    if live.None? || !live.value.value.ListV? || live.value.value.items == [] {
      ReadKept(x.before, key, LPop, x.At());
    }
  }

  lemma RPopReplies(key: Bytes, x: Exchange)
    requires Asked("RPOP", [key], x)
    ensures match x.Shown(key)
            case None => Kept(x) && x.reply == NullBulk
            case Some(r) =>
              if !r.value.ListV? then Refused(x)
              else
                var items := r.value.items;
                if items == [] then Kept(x) && x.reply == NullBulk
                else
                  x.reply == Bulk(items[|items| - 1]) &&
                  if |items| == 1 then Removed(x, key) else Wrote(x, key, r.(value := ListV(items[..|items| - 1])))
  {
    hide Text, Dispatched, SameView, Apply, StepStock;
    Carried(RPOP, key, RPop, x);
    ListApplies(RPop, x.Shown(key), x.At());
    var live := x.Shown(key);
    if live.None? || !live.value.value.ListV? || live.value.value.items == [] {
      ReadKept(x.before, key, RPop, x.At());
    }
  }

  /** What the reading commands of lists, hashes and sets tell. */
  lemma LLenReplies(key: Bytes, x: Exchange)
    requires Asked("LLEN", [key], x)
    ensures Kept(x)
    ensures match x.Shown(key)
            case None => x.reply == Int(0)
            case Some(r) => if r.value.ListV? then x.reply == Int(|r.value.items|) else Refused(x)
  {
    hide Text, Dispatched, SameView, Apply, StepStock;
    Carried(LLEN, key, LLen, x);
    ListApplies(LLen, x.Shown(key), x.At());
    ReadKept(x.before, key, LLen, x.At());
  }

  /** LRANGE takes its two bounds in order, for all signed bounds. */
  lemma LRangeReplies(key: Bytes, a: Bytes, b: Bytes, start: int, stop: int, x: Exchange)
    requires Asked("LRANGE", [key, a, b], x) && ParseInt(a) == Some(start) && ParseInt(b) == Some(stop)
    ensures Kept(x)
    ensures match x.Shown(key)
            case None => x.reply == Array([])
            case Some(r) =>
              if !r.value.ListV? then Refused(x)
              else
                var n := |r.value.items|;
                var from := if start >= 0 then start else if start + n >= 0 then start + n else 0;
                var to := if stop >= n then n - 1 else if stop >= 0 then stop else stop + n;
                x.reply.Array? && |x.reply.elems| == (if from > to then 0 else to + 1 - from) &&
                forall i :: 0 <= i < |x.reply.elems| ==> x.reply.elems[i] == Bulk(r.value.items[from + i])
  {
    hide Text, Dispatched, SameView, Apply, StepStock, Window, FromEnd, VerbPlan, ParseInt;
    LRangePlan(key, a, b, start, stop, x.now);
    Carried(LRANGE, key, LRange(start, stop), x);
    ListApplies(LRange(start, stop), x.Shown(key), x.At());
    ReadKept(x.before, key, LRange(start, stop), x.At());
    var live := x.Shown(key);
    if live.Some? && live.value.value.ListV? {
      RangeOfList(live.value.value.items, start, stop);
    } else if live.None? {
      RangeOfList([], start, stop);
    }
  }

  lemma LRangePlan(key: Bytes, a: Bytes, b: Bytes, start: int, stop: int, now: Time)
    requires ParseInt(a) == Some(start) && ParseInt(b) == Some(stop)
    ensures VerbPlan(LRANGE, [key, a, b], now) == One(key, LRange(start, stop))
  {
    hide Text, ParseInt;
  }

  lemma RangeOfList(items: seq<Bytes>, start: int, stop: int)
    ensures var n := |items|;
            var from := if start >= 0 then start else if start + n >= 0 then start + n else 0;
            var to := if stop >= n then n - 1 else if stop >= 0 then stop else stop + n;
            Window(items, FromEnd(start, n), FromEnd(stop, n)) == if from > to then [] else items[from..to + 1]
  {
    hide Window;
    WindowIsSlice(items, FromEnd(start, |items|), FromEnd(stop, |items|));
  }

  /** HSET takes the field and then its value. */
  lemma HSetReplies(key: Bytes, f: Bytes, v: Bytes, x: Exchange)
    requires Asked("HSET", [key, f, v], x)
    ensures match x.Shown(key)
            case None => Wrote(x, key, Record(HashV(map[][f := v]), NEVER)) && x.reply == Int(1)
            case Some(r) =>
              if r.value.HashV? then
                Wrote(x, key, r.(value := HashV(r.value.fields[f := v]))) && x.reply == Int(if f in r.value.fields then 0 else 1)
              else Refused(x)
  {
    hide Text, Dispatched, SameView, Apply, StepStock;
    Carried(HSET, key, HSet(f, v), x);
    HashApplies(HSet(f, v), x.Shown(key), x.At());
    var live := x.Shown(key);
    if live.Some? && !live.value.value.HashV? { ReadKept(x.before, key, HSet(f, v), x.At()); }
  }

  lemma HGetReplies(key: Bytes, f: Bytes, x: Exchange)
    requires Asked("HGET", [key, f], x)
    ensures Kept(x)
    ensures match x.Shown(key)
            case None => x.reply == NullBulk
            case Some(r) => if r.value.HashV? then x.reply == if f in r.value.fields then Bulk(r.value.fields[f]) else NullBulk else Refused(x)
  {
    hide Text, Dispatched, SameView, Apply, StepStock;
    Carried(HGET, key, HGet(f), x);
    HashApplies(HGet(f), x.Shown(key), x.At());
    ReadKept(x.before, key, HGet(f), x.At());
  }

  lemma HLenReplies(key: Bytes, x: Exchange)
    requires Asked("HLEN", [key], x)
    ensures Kept(x)
    ensures match x.Shown(key)
            case None => x.reply == Int(0)
            case Some(r) => if r.value.HashV? then x.reply == Int(|r.value.fields|) else Refused(x)
  {
    hide Text, Dispatched, SameView, Apply, StepStock;
    Carried(HLEN, key, HLen, x);
    HashApplies(HLen, x.Shown(key), x.At());
    ReadKept(x.before, key, HLen, x.At());
  }

  /** HDEL takes away what it names and counts what was there; the key goes when nothing is left. */
  lemma HDelReplies(key: Bytes, gone: seq<Bytes>, x: Exchange)
    requires gone != [] && Asked("HDEL", [key] + gone, x)
    ensures match x.Shown(key)
            case None => Kept(x) && x.reply == Int(0)
            case Some(r) =>
              if !r.value.HashV? then Refused(x)
              else
                var left := r.value.fields - Elements(gone);
                x.reply == Int(|r.value.fields.Keys * Elements(gone)|) &&
                if left == map[] then Removed(x, key) else Wrote(x, key, r.(value := HashV(left)))
  {
    hide Text, Dispatched, SameView, Apply, StepStock, HDelOn;
    assert ([key] + gone)[1..] == gone;
    Carried(HDEL, key, HDel(gone), x);
    HashApplies(HDel(gone), x.Shown(key), x.At());
    FieldsStruck(x.Shown(key), gone);
    if x.Shown(key).None? || !x.Shown(key).value.value.HashV? {
      ReadKept(x.before, key, HDel(gone), x.At());
    }
  }

  /** SREM takes away what it names and counts what was there; the key goes when nothing is left. */
  lemma SRemReplies(key: Bytes, gone: seq<Bytes>, x: Exchange)
    requires gone != [] && Asked("SREM", [key] + gone, x)
    ensures match x.Shown(key)
            case None => Kept(x) && x.reply == Int(0)
            case Some(r) =>
              if !r.value.SetV? then Refused(x)
              else
                var left := r.value.members - Elements(gone);
                x.reply == Int(|r.value.members * Elements(gone)|) &&
                if left == {} then Removed(x, key) else Wrote(x, key, r.(value := SetV(left)))
  {
    hide Text, Dispatched, SameView, Apply, StepStock, SRemOn;
    assert ([key] + gone)[1..] == gone;
    Carried(SREM, key, SRem(gone), x);
    SetApplies(SRem(gone), x.Shown(key), x.At());
    MembersStruck(x.Shown(key), gone);
    if x.Shown(key).None? || !x.Shown(key).value.value.SetV? {
      ReadKept(x.before, key, SRem(gone), x.At());
    }
  }

  lemma ListingOfFields(fields: map<Bytes, Bytes>, items: seq<Bytes>) returns (order: seq<Bytes>)
    requires ListedAs(Fields(fields), items)
    ensures (forall f :: f in order <==> f in fields) && forall i, j :: 0 <= i < j < |order| ==> order[i] != order[j]
    ensures |items| == 2 * |order|
    ensures forall i :: 0 <= i < |order| ==> items[2 * i] == order[i] && items[2 * i + 1] == fields[order[i]]
  {
    order :| Lists(order, fields.Keys) && items == Flattened(order, fields);
    forall f
      ensures f in order <==> f in fields
    {
      assert f in order <==> f in Elements(order);
    }
    FlattenedAt(order, fields);
  }

  lemma {:induction false} FlattenedAt(order: seq<Bytes>, fields: map<Bytes, Bytes>)
    requires Elements(order) <= fields.Keys
    ensures var items := Flattened(order, fields);
            |items| == 2 * |order| &&
            forall i :: 0 <= i < |order| ==> order[i] in fields && items[2 * i] == order[i] && items[2 * i + 1] == fields[order[i]]
    decreases |order|
  {
    if order != [] {
      var n := |order| - 1;
      assert order[n] in Elements(order);
      assert Elements(order[..n]) <= Elements(order);
      FlattenedAt(order[..n], fields);
    }
  }

  /** An array of every field once, in some order, each followed by its value. */
  ghost predicate TellsFields(reply: Reply, fields: map<Bytes, Bytes>) {
    reply.Array? &&
    exists order: seq<Bytes> ::
      (forall f :: f in order <==> f in fields) && (forall i, j :: 0 <= i < j < |order| ==> order[i] != order[j]) &&
      |reply.elems| == 2 * |order| &&
      forall i :: 0 <= i < |order| ==> reply.elems[2 * i] == Bulk(order[i]) && reply.elems[2 * i + 1] == Bulk(fields[order[i]])
  }

  /** An array of every member once, in some order. */
  ghost predicate TellsMembers(reply: Reply, members: set<Bytes>) {
    reply.Array? &&
    exists order: seq<Bytes> ::
      (forall m :: m in order <==> m in members) && (forall i, j :: 0 <= i < j < |order| ==> order[i] != order[j]) &&
      |reply.elems| == |order| && forall i :: 0 <= i < |order| ==> reply.elems[i] == Bulk(order[i])
  }

  lemma FieldsTold(fields: map<Bytes, Bytes>, o: Outcome)
    requires Shows(Fields(fields), o)
    ensures TellsFields(StepsReply(HGETALL, [o]), fields)
  {
    hide Flattened, Lists;
    var order := ListingOfFields(fields, o.items);
    var reply := StepsReply(HGETALL, [o]);
    assert reply == BulkArray(o.items);
    assert forall i :: 0 <= i < |o.items| ==> reply.elems[i] == Bulk(o.items[i]);
  }

  lemma MembersTold(members: set<Bytes>, o: Outcome)
    requires Shows(Members(members), o)
    ensures TellsMembers(StepsReply(SMEMBERS, [o]), members)
  {
    hide Flattened, Lists, Elements, Render;
    ListsOnce(o.items, members);
    ItemsTold(SMEMBERS, o.items);
  }

  lemma ItemsTold(v: Verb, items: seq<Bytes>)
    requires v.SMEMBERS? || v.HGETALL? || v.LRANGE?
    ensures var reply := StepsReply(v, [Items(items)]);
            reply.Array? && |reply.elems| == |items| && forall i :: 0 <= i < |items| ==> reply.elems[i] == Bulk(items[i])
  {
  }

  lemma ListsOnce(order: seq<Bytes>, members: set<Bytes>)
    requires Lists(order, members)
    ensures forall m :: m in order <==> m in members
    ensures forall i, j :: 0 <= i < j < |order| ==> order[i] != order[j]
  {
    forall m
      ensures m in order <==> m in members
    {
      assert m in order <==> m in Elements(order);
    }
  }

  lemma HGetAllReplies(key: Bytes, x: Exchange)
    requires Asked("HGETALL", [key], x)
    ensures Kept(x)
    ensures match x.Shown(key)
            case None => TellsFields(x.reply, map[])
            case Some(r) => if r.value.HashV? then TellsFields(x.reply, r.value.fields) else Refused(x)
  {
    hide Text, Dispatched, SameView, Apply, StepStock, TellsFields, ListedAs;
    Carried(HGETALL, key, HGetAll, x);
    HashApplies(HGetAll, x.Shown(key), x.At());
    ReadKept(x.before, key, HGetAll, x.At());
    var live, spec := x.Shown(key), Apply(HGetAll, x.Shown(key), x.At()).1;
    var o := CarriedOut(HGETALL, key, HGetAll, x);
    if live.None? || live.value.value.HashV? {
      FieldsTold(spec.fields, o);
    }
  }

  lemma SMembersReplies(key: Bytes, x: Exchange)
    requires Asked("SMEMBERS", [key], x)
    ensures Kept(x)
    ensures match x.Shown(key)
            case None => TellsMembers(x.reply, {})
            case Some(r) => if r.value.SetV? then TellsMembers(x.reply, r.value.members) else Refused(x)
  {
    hide Text, Dispatched, SameView, Apply, StepStock, TellsMembers, ListedAs;
    Carried(SMEMBERS, key, SMembers, x);
    SetApplies(SMembers, x.Shown(key), x.At());
    ReadKept(x.before, key, SMembers, x.At());
    var live, spec := x.Shown(key), Apply(SMembers, x.Shown(key), x.At()).1;
    var o := CarriedOut(SMEMBERS, key, SMembers, x);
    if live.None? || live.value.value.SetV? {
      MembersTold(spec.members, o);
    }
  }

  /** SADD counts the members that were not there. */
  lemma SAddReplies(key: Bytes, vals: seq<Bytes>, x: Exchange)
    requires vals != [] && Asked("SADD", [key] + vals, x)
    ensures match x.Shown(key)
            case None => Wrote(x, key, Record(SetV(Elements(vals)), NEVER)) && x.reply == Int(|Elements(vals)|)
            case Some(r) =>
              if r.value.SetV? then
                Wrote(x, key, r.(value := SetV(r.value.members + Elements(vals)))) &&
                x.reply == Int(|Elements(vals) - r.value.members|)
              else Refused(x)
  {
    hide Text, Dispatched, SameView, Apply, StepStock, SAddOn;
    assert ([key] + vals)[1..] == vals;
    Carried(SADD, key, SAdd(vals), x);
    SetApplies(SAdd(vals), x.Shown(key), x.At());
    MembersJoined(x.Shown(key), vals);
    if x.Shown(key).Some? && !x.Shown(key).value.value.SetV? {
      ReadKept(x.before, key, SAdd(vals), x.At());
    }
  }

  lemma SIsMemberReplies(key: Bytes, m: Bytes, x: Exchange)
    requires Asked("SISMEMBER", [key, m], x)
    ensures Kept(x)
    ensures match x.Shown(key)
            case None => x.reply == Int(0)
            case Some(r) => if r.value.SetV? then x.reply == Int(if m in r.value.members then 1 else 0) else Refused(x)
  {
    hide Text, Dispatched, SameView, Apply, StepStock;
    Carried(SISMEMBER, key, SIsMember(m), x);
    SetApplies(SIsMember(m), x.Shown(key), x.At());
    ReadKept(x.before, key, SIsMember(m), x.At());
  }

  lemma SCardReplies(key: Bytes, x: Exchange)
    requires Asked("SCARD", [key], x)
    ensures Kept(x)
    ensures match x.Shown(key)
            case None => x.reply == Int(0)
            case Some(r) => if r.value.SetV? then x.reply == Int(|r.value.members|) else Refused(x)
  {
    hide Text, Dispatched, SameView, Apply, StepStock;
    Carried(SCARD, key, SCard, x);
    SetApplies(SCard, x.Shown(key), x.At());
    ReadKept(x.before, key, SCard, x.At());
  }
}
