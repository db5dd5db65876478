/** What the operations on a key do, told by what later operations on it answer. */
module Effects {
  import opened ByteStrings
  import opened Clock
  import opened Keyspace
  import opened Numbers
  import opened Runs
  import opened Shards
  import opened Values

  /** The answers of one operation, repeated on a key at these instants. */
  function Repeated(db: Db, key: Bytes, op: Op, ts: seq<Time>): (os: seq<Outcome>)
    ensures |os| == |ts|
    decreases |ts|
  {
    if ts == [] then [] else [Answer(db, key, op, ts[0])] + Repeated(StepDb(db, key, op, ts[0]), key, op, ts[1..])
  }

  /** A list without a deadline, or no key at all. */
  predicate Queue(db: Db, key: Bytes, items: seq<Bytes>) {
    Slot(db, key) == if items == [] then None else Some(Record(ListV(items), NEVER))
  }

  lemma {:induction false} LPopsInOrder(db: Db, key: Bytes, items: seq<Bytes>, ts: seq<Time>)
    requires Queue(db, key, items)
    ensures forall i :: 0 <= i < |ts| ==>
      Repeated(db, key, LPop, ts)[i] == if i < |items| then Data(items[i]) else Absent
    decreases |ts|
  {
    if ts != [] {
      LPopsInOrder(StepDb(db, key, LPop, ts[0]), key, if items == [] then [] else items[1..], ts[1..]);
    }
  }

  lemma {:induction false} RPopsInOrder(db: Db, key: Bytes, items: seq<Bytes>, ts: seq<Time>)
    requires Queue(db, key, items)
    ensures forall i :: 0 <= i < |ts| ==>
      Repeated(db, key, RPop, ts)[i] == if i < |items| then Data(items[|items| - 1 - i]) else Absent
    decreases |ts|
  {
    if ts != [] {
      RPopsInOrder(StepDb(db, key, RPop, ts[0]), key, if items == [] then [] else items[..|items| - 1], ts[1..]);
    }
  }

  lemma PushedQueue(db: Db, key: Bytes, vals: seq<Bytes>, now: Time) returns (back: seq<Bytes>)
    requires Find(db, key, now).None? && vals != []
    ensures Queue(StepDb(db, key, RPush(vals), now), key, vals)
    ensures Queue(StepDb(db, key, LPush(vals), now), key, back)
    ensures |back| == |vals| && forall i :: 0 <= i < |vals| ==> back[i] == vals[|vals| - 1 - i]
  {
    back := Reversed(vals);
    assert [] + vals == vals && back + [] == back;
  }

  /** First in, first out, and last in, first out: what pushes on a new key gives, pop by pop, at any later instants. */
  lemma PushedArePopped(db: Db, key: Bytes, vals: seq<Bytes>, now: Time, ts: seq<Time>, i: nat)
    requires Find(db, key, now).None? && vals != [] && i < |ts|
    ensures var tail, head := StepDb(db, key, RPush(vals), now), StepDb(db, key, LPush(vals), now);
            var forth := if i < |vals| then Data(vals[i]) else Absent;
            var back := if i < |vals| then Data(vals[|vals| - 1 - i]) else Absent;
            Repeated(tail, key, LPop, ts)[i] == forth && Repeated(tail, key, RPop, ts)[i] == back &&
            Repeated(head, key, LPop, ts)[i] == back && Repeated(head, key, RPop, ts)[i] == forth
  {
    hide StepDb, Answer, Queue, Find;
    var back := PushedQueue(db, key, vals, now);
    var tail, head := StepDb(db, key, RPush(vals), now), StepDb(db, key, LPush(vals), now);
    LPopsInOrder(tail, key, vals, ts);
    RPopsInOrder(tail, key, vals, ts);
    LPopsInOrder(head, key, back, ts);
    RPopsInOrder(head, key, back, ts);
  }

  /** The list a key shows: none, or a list that is not empty. */
  predicate ShowsList(db: Db, key: Bytes, now: Time, items: seq<Bytes>) {
    match Find(db, key, now)
    case None => items == []
    case Some(r) => r.value == ListV(items) && items != []
  }

  lemma SameSlotSameView(a: Db, b: Db, key: Bytes, now: Time)
    requires Find(a, key, now) == Find(b, key, now) && a - {key} == b - {key}
    ensures SameView(a, b, now)
  {
    forall other
      ensures Slot(View(a, now), other) == Slot(View(b, now), other)
    {
      FindInView(a, other, now);
      FindInView(b, other, now);
      assert other != key ==> (other in a <==> other in a - {key}) && (other in b <==> other in b - {key});
      assert other != key && other in a ==> a[other] == (a - {key})[other] && b[other] == (b - {key})[other];
    }
    SlotsDecide(View(a, now), View(b, now));
  }

  lemma StepLeavesRest(db: Db, key: Bytes, op: Op, now: Time)
    ensures StepDb(db, key, op, now) - {key} == db - {key}
  {
    hide Apply;
  }

  /** What an operation leaves is what the key then shows, unless its deadline has passed. */
  lemma StepFinds(db: Db, key: Bytes, op: Op, now: Time)
    ensures var r := Apply(op, Find(db, key, now), now).0;
            Find(StepDb(db, key, op, now), key, now) == if r.Some? && Expired(r.value, now) then None else r
  {
    hide Apply;
  }

  /** A pop at the end of a push gives back what was pushed and undoes it. */
  lemma PopUndoesPush(db: Db, key: Bytes, items: seq<Bytes>, v: Bytes, now: Time)
    requires ShowsList(db, key, now, items)
    ensures var pushed := StepDb(db, key, RPush([v]), now);
            Answer(pushed, key, RPop, now) == Data(v) && SameView(StepDb(pushed, key, RPop, now), db, now)
    ensures var pushed := StepDb(db, key, LPush([v]), now);
            Answer(pushed, key, LPop, now) == Data(v) && SameView(StepDb(pushed, key, LPop, now), db, now)
  {
    hide StepDb, Apply, SameView;
    var live := Find(db, key, now);
    assert Reversed([v]) == [v];
    assert (items + [v])[..|items|] == items && ([v] + items)[1..] == items;
    PairUndone(db, key, RPush([v]), RPop, now);
    PairUndone(db, key, LPush([v]), LPop, now);
  }

  lemma PairUndone(db: Db, key: Bytes, push: Op, pop: Op, now: Time)
    requires (push.RPush? && pop.RPop?) || (push.LPush? && pop.LPop?)
    ensures var live, after := Find(db, key, now), StepDb(db, key, push, now);
            var pushed := (if push.RPush? then RPushOn(live, push.vals) else LPushOn(live, push.vals)).0;
            var shown := if pushed.Some? && Expired(pushed.value, now) then None else pushed;
            var popped := if pop.RPop? then RPopOn(shown) else LPopOn(shown);
            Answer(after, key, pop, now) == popped.1 &&
            (popped.0 == live ==> SameView(StepDb(after, key, pop, now), db, now))
  {
    hide StepDb, Apply, SameView, LPushOn, RPushOn, LPopOn, RPopOn;
    var after := StepDb(db, key, push, now);
    ListApplies(push, Find(db, key, now), now);
    StepFinds(db, key, push, now);
    ListApplies(pop, Find(after, key, now), now);
    StepFinds(after, key, pop, now);
    StepLeavesRest(db, key, push, now);
    StepLeavesRest(after, key, pop, now);
    if Apply(pop, Find(after, key, now), now).0 == Find(db, key, now) {
      SameSlotSameView(StepDb(after, key, pop, now), db, key, now);
    }
  }

  /** LRANGE for all signed bounds: a negative one counts from the end, and the list bounds them. */
  lemma RangeShows(db: Db, key: Bytes, items: seq<Bytes>, start: int, stop: int, now: Time)
    requires ShowsList(db, key, now, items)
    ensures var n := |items|;
            var from := if start >= 0 then start else if start + n >= 0 then start + n else 0;
            var to := if stop >= n then n - 1 else if stop >= 0 then stop else stop + n;
            Answer(db, key, LRange(start, stop), now) == Items(if from > to then [] else items[from..to + 1])
  {
    hide Window, GetOn, SetNxOn, IncrByOn, DeleteOn, ExistsOn, TypeOn, ExpireAtOn, PersistOn, TtlOn, HSetOn, HGetOn, HDelOn, HGetAllOn, HLenOn, SAddOn, SRemOn, SIsMemberOn, SMembersOn, SCardOn;
    WindowIsSlice(items, FromEnd(start, |items|), FromEnd(stop, |items|));
  }

  lemma WholeRange(db: Db, key: Bytes, items: seq<Bytes>, now: Time)
    requires ShowsList(db, key, now, items)
    ensures Answer(db, key, LRange(0, -1), now) == Items(items)
  {
    RangeShows(db, key, items, 0, -1, now);
    assert items[0..|items|] == items;
  }

  /** A popped element and what is left of the list are the list, at the one end or the other. */
  lemma PopShows(db: Db, key: Bytes, items: seq<Bytes>, now: Time)
    requires ShowsList(db, key, now, items) && items != []
    ensures var left := StepDb(db, key, LPop, now);
            exists x, rest :: Answer(db, key, LPop, now) == Data(x) && Answer(left, key, LRange(0, -1), now) == Items(rest) &&
              Answer(db, key, LRange(0, -1), now) == Items([x] + rest)
    ensures var left := StepDb(db, key, RPop, now);
            exists x, rest :: Answer(db, key, RPop, now) == Data(x) && Answer(left, key, LRange(0, -1), now) == Items(rest) &&
              Answer(db, key, LRange(0, -1), now) == Items(rest + [x])
  {
    var n := |items| - 1;
    WholeRange(db, key, items, now);
    WholeRange(StepDb(db, key, LPop, now), key, items[1..], now);
    WholeRange(StepDb(db, key, RPop, now), key, items[..n], now);
    assert items == [items[0]] + items[1..] == items[..n] + [items[n]];
  }

  lemma TailShows(db: Db, key: Bytes, items: seq<Bytes>, vals: seq<Bytes>, now: Time)
    requires ShowsList(db, key, now, items) && vals != []
    ensures ShowsList(StepDb(db, key, RPush(vals), now), key, now, items + vals)
    ensures Answer(db, key, RPush(vals), now) == Count(|items| + |vals|) && Answer(db, key, LLen, now) == Count(|items|)
  {
    hide Apply, StepDb;
    StepFinds(db, key, RPush(vals), now);
    ListApplies(RPush(vals), Find(db, key, now), now);
    ListApplies(LLen, Find(db, key, now), now);
    assert items == [] ==> items + vals == vals;
  }

  lemma HeadShows(db: Db, key: Bytes, items: seq<Bytes>, vals: seq<Bytes>, now: Time)
    requires ShowsList(db, key, now, items) && vals != []
    ensures ShowsList(StepDb(db, key, LPush(vals), now), key, now, Reversed(vals) + items)
    ensures Answer(db, key, LPush(vals), now) == Count(|items| + |vals|)
  {
    hide Apply, StepDb, Reversed;
    StepFinds(db, key, LPush(vals), now);
    ListApplies(LPush(vals), Find(db, key, now), now);
    assert items == [] ==> Reversed(vals) + items == Reversed(vals);
  }

  /** After a push the list shows the old elements and, at its tail in order or at its head in reverse, the new ones. */
  lemma PushShows(db: Db, key: Bytes, items: seq<Bytes>, vals: seq<Bytes>, now: Time)
    requires ShowsList(db, key, now, items) && vals != []
    ensures ShowsList(StepDb(db, key, RPush(vals), now), key, now, items + vals)
    ensures ShowsList(StepDb(db, key, LPush(vals), now), key, now, Reversed(vals) + items)
    ensures |Reversed(vals)| == |vals| && forall i :: 0 <= i < |vals| ==> Reversed(vals)[i] == vals[|vals| - 1 - i]
    ensures Answer(db, key, RPush(vals), now) == Answer(db, key, LPush(vals), now) == Count(|items| + |vals|)
    ensures Answer(db, key, LLen, now) == Count(|items|)
  {
    hide StepDb, Answer, ShowsList;
    TailShows(db, key, items, vals, now);
    HeadShows(db, key, items, vals, now);
  }

  /** The hash a key shows: none, or one that is not empty. */
  predicate ShowsHash(db: Db, key: Bytes, now: Time, fields: map<Bytes, Bytes>) {
    match Find(db, key, now)
    case None => fields == map[]
    case Some(r) => r.value == HashV(fields) && fields != map[]
  }

  /** HSET sets one field and tells whether it is new; HGET, HLEN and HGETALL then tell of it, and other fields stay. */
  lemma FieldSet(db: Db, key: Bytes, fields: map<Bytes, Bytes>, f: Bytes, v: Bytes, g: Bytes, now: Time)
    requires ShowsHash(db, key, now, fields)
    ensures var after := StepDb(db, key, HSet(f, v), now);
            ShowsHash(after, key, now, fields[f := v]) &&
            Answer(after, key, HGet(f), now) == Data(v) &&
            (g != f ==> Answer(after, key, HGet(g), now) == Answer(db, key, HGet(g), now))
    ensures Answer(db, key, HSet(f, v), now) == Flag(Answer(db, key, HGet(f), now) == Absent)
    ensures Answer(db, key, HGet(g), now) == if g in fields then Data(fields[g]) else Absent
    ensures Answer(db, key, HGetAll, now) == Fields(fields) && Answer(db, key, HLen, now) == Count(|fields|)
  {
    hide Apply, StepDb;
    var live := Find(db, key, now);
    StepFinds(db, key, HSet(f, v), now);
    HashApplies(HSet(f, v), live, now);
    HashApplies(HGetAll, live, now);
    HashApplies(HLen, live, now);
    assert f in fields[f := v];
    FieldRead(db, key, fields, f, now);
    FieldRead(db, key, fields, g, now);
    FieldRead(StepDb(db, key, HSet(f, v), now), key, fields[f := v], f, now);
    FieldRead(StepDb(db, key, HSet(f, v), now), key, fields[f := v], g, now);
  }

  /** HDEL takes away the fields it names, counts those that were there, and leaves the others; an empty hash is no key. */
  lemma FieldsGone(db: Db, key: Bytes, fields: map<Bytes, Bytes>, gone: seq<Bytes>, g: Bytes, now: Time)
    requires ShowsHash(db, key, now, fields)
    ensures var after := StepDb(db, key, HDel(gone), now);
            ShowsHash(after, key, now, map f | f in fields && f !in gone :: fields[f]) &&
            Answer(after, key, HGet(g), now) == if g in gone then Absent else Answer(db, key, HGet(g), now)
    ensures Answer(db, key, HDel(gone), now) == Count(|set f | f in fields && f in gone|)
  {
    hide Elements, StepDb, Apply, HGetOn, HDelOn;
    var live, after := Find(db, key, now), StepDb(db, key, HDel(gone), now);
    FieldsLeft(fields, gone);
    StepFinds(db, key, HDel(gone), now);
    HashApplies(HDel(gone), live, now);
    FieldsStruck(live, gone);
    FieldRead(db, key, fields, g, now);
    FieldRead(after, key, fields - Elements(gone), g, now);
  }

  lemma FieldRead(db: Db, key: Bytes, fields: map<Bytes, Bytes>, g: Bytes, now: Time)
    requires ShowsHash(db, key, now, fields)
    ensures Answer(db, key, HGet(g), now) == if g in fields then Data(fields[g]) else Absent
  {
    hide Apply;
    HashApplies(HGet(g), Find(db, key, now), now);
  }

  lemma FieldsLeft(fields: map<Bytes, Bytes>, gone: seq<Bytes>)
    ensures fields - Elements(gone) == map f | f in fields && f !in gone :: fields[f]
    ensures fields.Keys * Elements(gone) == set f | f in fields && f in gone
    ensures fields == map[] ==> fields - Elements(gone) == map[]
    ensures fields == map[] ==> fields.Keys * Elements(gone) == {}
  {
  }

  predicate ShowsSet(db: Db, key: Bytes, now: Time, members: set<Bytes>) {
    match Find(db, key, now)
    case None => members == {}
    case Some(r) => r.value == SetV(members) && members != {}
  }

  /** SADD adds the members named, and counts those that are new. */
  lemma MembersAdded(db: Db, key: Bytes, members: set<Bytes>, vals: seq<Bytes>, m: Bytes, now: Time)
    requires ShowsSet(db, key, now, members) && vals != []
    ensures var after := StepDb(db, key, SAdd(vals), now);
            ShowsSet(after, key, now, members + set v | v in vals) &&
            Answer(after, key, SIsMember(m), now) == Flag(m in members || m in vals)
    ensures Answer(db, key, SAdd(vals), now) == Count(|set v | v in vals && v !in members|)
  {
    hide Elements, StepDb, Apply, SAddOn;
    var live, after := Find(db, key, now), StepDb(db, key, SAdd(vals), now);
    MembersLeft(members, vals);
    StepFinds(db, key, SAdd(vals), now);
    SetApplies(SAdd(vals), live, now);
    MembersJoined(live, vals);
    assert Elements(vals) - members == set v | v in vals && v !in members by { NamedAnew(members, vals); }
    assert ShowsSet(after, key, now, members + Elements(vals));
    MembersTold(after, key, members + Elements(vals), m, now);
  }

  /** SREM takes away the members named, and counts those that were there; an empty set is no key. */
  lemma MembersGone(db: Db, key: Bytes, members: set<Bytes>, vals: seq<Bytes>, m: Bytes, now: Time)
    requires ShowsSet(db, key, now, members)
    ensures var after := StepDb(db, key, SRem(vals), now);
            ShowsSet(after, key, now, set b | b in members && b !in vals) &&
            Answer(after, key, SIsMember(m), now) == Flag(m in members && m !in vals)
    ensures Answer(db, key, SRem(vals), now) == Count(|set v | v in vals && v in members|)
  {
    hide Elements, StepDb, Apply, SRemOn;
    var live, after := Find(db, key, now), StepDb(db, key, SRem(vals), now);
    MembersLeft(members, vals);
    StepFinds(db, key, SRem(vals), now);
    SetApplies(SRem(vals), live, now);
    MembersStruck(live, vals);
    NamedAnew(members, vals);
    assert ShowsSet(after, key, now, members - Elements(vals));
    MembersTold(after, key, members - Elements(vals), m, now);
  }

  lemma MembersTold(db: Db, key: Bytes, members: set<Bytes>, m: Bytes, now: Time)
    requires ShowsSet(db, key, now, members)
    ensures Answer(db, key, SIsMember(m), now) == Flag(m in members)
    ensures Answer(db, key, SMembers, now) == Members(members) && Answer(db, key, SCard, now) == Count(|members|)
  {
    hide Apply;
    SetApplies(SIsMember(m), Find(db, key, now), now);
    SetApplies(SMembers, Find(db, key, now), now);
    SetApplies(SCard, Find(db, key, now), now);
  }

  lemma MembersJoined(live: Option<Record>, vals: seq<Bytes>)
    ensures SAddOn(live, vals) ==
            match live
            case None => (Some(Record(SetV(Elements(vals)), NEVER)), Count(|Elements(vals)|))
            case Some(r) =>
              if r.value.SetV? then
                (Some(r.(value := SetV(r.value.members + Elements(vals)))), Count(|Elements(vals) - r.value.members|))
              else (live, WrongType)
  {
    hide Elements;
    var members := if live.Some? && live.value.value.SetV? then live.value.value.members else {};
    assert members + Elements(vals) == members + (Elements(vals) - members);
    assert members == {} ==> members + Elements(vals) == Elements(vals) - members == Elements(vals);
  }

  lemma MembersStruck(live: Option<Record>, gone: seq<Bytes>)
    ensures SRemOn(live, gone) ==
            match live
            case None => (None, Count(0))
            case Some(r) =>
              if !r.value.SetV? then (live, WrongType)
              else
                var left := r.value.members - Elements(gone);
                (if left == {} then None else Some(r.(value := SetV(left))), Count(|r.value.members * Elements(gone)|))
  {
    hide Elements;
    var members := if live.Some? && live.value.value.SetV? then live.value.value.members else {};
    assert members == members - Elements(gone) + members * Elements(gone);
    assert members == {} ==> members - Elements(gone) == {};
  }

  lemma FieldsStruck(live: Option<Record>, gone: seq<Bytes>)
    ensures live.None? ==> HDelOn(live, gone) == (None, Count(0))
    ensures live.Some? && !live.value.value.HashV? ==> HDelOn(live, gone) == (live, WrongType)
    ensures live.Some? && live.value.value.HashV? ==>
              var left := live.value.value.fields - Elements(gone);
              HDelOn(live, gone).0 == (if left == map[] then None else Some(live.value.(value := HashV(left)))) &&
              HDelOn(live, gone).1 == Count(|live.value.value.fields.Keys * Elements(gone)|)
  {
    hide Elements;
    var fields := if live.Some? && live.value.value.HashV? then live.value.value.fields else map[];
    TakenOut(fields, Elements(gone));
  }

  lemma TakenOut(fields: map<Bytes, Bytes>, gone: set<Bytes>)
    ensures |fields| - |fields - gone| == |fields.Keys * gone|
    ensures fields == map[] ==> fields - gone == map[]
  {
    assert fields.Keys == (fields - gone).Keys + fields.Keys * gone;
    assert |fields.Keys| == |(fields - gone).Keys| + |fields.Keys * gone|;
  }

  lemma MembersLeft(members: set<Bytes>, vals: seq<Bytes>)
    ensures members + Elements(vals) == members + set v | v in vals
    ensures members - Elements(vals) == set b | b in members && b !in vals
    ensures forall m :: m in Elements(vals) <==> m in vals
    ensures vals != [] ==> Elements(vals) != {}
  {
    assert vals != [] ==> vals[0] in Elements(vals);
  }

  lemma NamedAnew(members: set<Bytes>, vals: seq<Bytes>)
    ensures Elements(vals) - members == set v | v in vals && v !in members
    ensures members * Elements(vals) == set v | v in vals && v in members
    ensures members == {} ==> Elements(vals) - members == Elements(vals) && members * Elements(vals) == {}
  {
  }

  /** SET and SETNX write, and GET reads, SETNX only where EXISTS says no. */
  lemma StringKept(db: Db, key: Bytes, v: Bytes, now: Time)
    ensures Answer(StepDb(db, key, SetTo(v, NEVER), now), key, Get, now) == Data(v)
    ensures var free := Answer(db, key, Exists, now) == Flag(false);
            var after := StepDb(db, key, SetNx(v), now);
            Answer(db, key, SetNx(v), now) == Flag(free) &&
            if free then Answer(after, key, Get, now) == Data(v) && after[key].expireAt == NEVER else SameView(after, db, now)
  {
    if Answer(db, key, Exists, now) != Flag(false) {
      StepLeavesRest(db, key, SetNx(v), now);
      SameSlotSameView(StepDb(db, key, SetNx(v), now), db, key, now);
    }
  }

  /** After DEL a key is gone, and DEL told whether it was there. */
  lemma KeyDeleted(db: Db, key: Bytes, now: Time)
    ensures Answer(db, key, Delete, now) == Answer(db, key, Exists, now) == Flag(Find(db, key, now).Some?)
    ensures key !in StepDb(db, key, Delete, now)
  {
  }

  /** TYPE names what is there. */
  lemma KindTold(db: Db, key: Bytes, now: Time)
    ensures var r := Find(db, key, now);
            Answer(db, key, Type, now) ==
            Kind(if r.None? then "none" else if r.value.value.StrV? then "string" else if r.value.value.ListV? then "list"
                 else if r.value.value.HashV? then "hash" else "set")
  {
  }

  lemma RefusedKept(db: Db, key: Bytes, op: Op, now: Time)
    requires Answer(db, key, op, now) == WrongType
    ensures Apply(op, Find(db, key, now), now).0 == Find(db, key, now)
  {
    hide Window, Reversed, Elements, ParseInt, FormatInt;
  }

  /** The operations that want a value of one kind refuse any other, and no other operation does. */
  lemma KindWanted(db: Db, key: Bytes, op: Op, now: Time)
    ensures Answer(db, key, op, now) == WrongType <==>
            Find(db, key, now).Some? &&
            var v := Find(db, key, now).value.value;
            ((op.Get? || op.IncrBy?) && !v.StrV?) ||
            ((op.LPush? || op.RPush? || op.LPop? || op.RPop? || op.LLen? || op.LRange?) && !v.ListV?) ||
            ((op.HSet? || op.HGet? || op.HDel? || op.HGetAll? || op.HLen?) && !v.HashV?) ||
            ((op.SAdd? || op.SRem? || op.SIsMember? || op.SMembers? || op.SCard?) && !v.SetV?)
    ensures Answer(db, key, op, now) == WrongType ==> SameView(StepDb(db, key, op, now), db, now)
  {
    hide Window, Reversed, Elements, ParseInt, FormatInt, StepDb, SameView;
    if Answer(db, key, op, now) == WrongType {
      RefusedKept(db, key, op, now);
      StepLeavesRest(db, key, op, now);
      StepFinds(db, key, op, now);
      SameSlotSameView(StepDb(db, key, op, now), db, key, now);
    }
  }
}
