/**
 The store's operations on one key, stated with no clock-driven deletion and no
 accounting: `Apply` says what an operation does to the live record, if any.
 */
module Keyspace {
  import opened ByteStrings
  import opened Clock
  import opened Numbers
  import opened Values

  datatype Op =
    | Get | SetTo(val: Bytes, at: Time) | Delete | Exists | Type
    | ExpireAt(at: Time) | Persist | Ttl
    | LPush(vals: seq<Bytes>) | RPush(vals: seq<Bytes>) | LPop | RPop | LLen | LRange(start: int, stop: int)
    | HSet(field: Bytes, val: Bytes) | HGet(field: Bytes) | HDel(gone: seq<Bytes>) | HGetAll | HLen
    | SAdd(vals: seq<Bytes>) | SRem(gone: seq<Bytes>) | SIsMember(member: Bytes) | SMembers | SCard
    | IncrBy(delta: int) | SetNx(val: Bytes)

  datatype Outcome =
    | Absent | Done | WrongType | NotInteger
    | Data(bytes: Bytes) | Flag(yes: bool) | Count(n: int) | Remaining(d: int) | Kind(name: Bytes)
    | Items(items: seq<Bytes>) | Fields(fields: map<Bytes, Bytes>) | Members(members: set<Bytes>)

  function Elements(s: seq<Bytes>): set<Bytes> {
    set b | b in s
  }

  function Reversed(s: seq<Bytes>): (r: seq<Bytes>)
    ensures |r| == |s|
  {
    seq(|s|, i requires 0 <= i < |s| => s[|s| - 1 - i])
  }

  /** The elements whose index, counted from the head, lies between two bounds. */
  function Window(items: seq<Bytes>, lo: int, hi: int): seq<Bytes> {
    if items == [] then []
    else (if lo <= 0 <= hi then [items[0]] else []) + Window(items[1..], lo - 1, hi - 1)
  }

  /** The window is the slice between its bounds, once they are clipped to the list. */
  lemma {:induction false} WindowIsSlice(items: seq<Bytes>, lo: int, hi: int)
    ensures Window(items, lo, hi) == Clipped(items, lo, hi)
    decreases |items|
  {
    if items != [] {
      WindowIsSlice(items[1..], lo - 1, hi - 1);
      ClippedFromHead(items, lo, hi);
    }
  }

  function Clipped(items: seq<Bytes>, lo: int, hi: int): seq<Bytes> {
    var from, to := if lo < 0 then 0 else lo, if hi >= |items| then |items| - 1 else hi;
    if from > to then [] else items[from..to + 1]
  }

  lemma SliceOfTail(items: seq<Bytes>, a: nat, b: nat)
    requires 1 <= a <= b <= |items|
    ensures items[a..b] == items[1..][a - 1..b - 1]
  {
    var whole, part := items[a..b], items[1..][a - 1..b - 1];
    assert |whole| == |part|;
    forall i | 0 <= i < |whole|
      ensures whole[i] == part[i]
    {
      assert items[1..][a - 1 + i] == items[a + i];
    }
  }

  lemma ClippedFromHead(items: seq<Bytes>, lo: int, hi: int)
    requires items != []
    ensures Clipped(items, lo, hi) == (if lo <= 0 <= hi then [items[0]] else []) + Clipped(items[1..], lo - 1, hi - 1)
  {
    var from, to := if lo < 0 then 0 else lo, if hi >= |items| then |items| - 1 else hi;
    if from > to {
      assert Clipped(items[1..], lo - 1, hi - 1) == [];
    } else if from > 0 {
      SliceOfTail(items, from, to + 1);
    } else {
      assert items[0..to + 1] == [items[0]] + items[1..][0..to];
      assert Clipped(items[1..], lo - 1, hi - 1) == items[1..][0..to];
    }
  }

  /** A negative index counts from the end. */
  function FromEnd(index: int, n: nat): int {
    if index < 0 then index + n else index
  }

  function AsList(live: Option<Record>): Option<seq<Bytes>> {
    match live
    case None => Some([])
    case Some(r) => if r.value.ListV? then Some(r.value.items) else None
  }

  function AsHash(live: Option<Record>): Option<map<Bytes, Bytes>> {
    match live
    case None => Some(map[])
    case Some(r) => if r.value.HashV? then Some(r.value.fields) else None
  }

  function AsSet(live: Option<Record>): Option<set<Bytes>> {
    match live
    case None => Some({})
    case Some(r) => if r.value.SetV? then Some(r.value.members) else None
  }

  /** The deadline a value written by anything but SET inherits. */
  function Deadline(live: Option<Record>): Time {
    if live.Some? then live.value.expireAt else NEVER
  }

  function WithList(live: Option<Record>, items: seq<Bytes>): Option<Record> {
    if items == [] then None else Some(Record(ListV(items), Deadline(live)))
  }

  function WithHash(live: Option<Record>, fields: map<Bytes, Bytes>): Option<Record> {
    if fields == map[] then None else Some(Record(HashV(fields), Deadline(live)))
  }

  function WithSet(live: Option<Record>, members: set<Bytes>): Option<Record> {
    if members == {} then None else Some(Record(SetV(members), Deadline(live)))
  }

  /** What an operation leaves in its key's slot, and what it answers. */
  type Effect = (Option<Record>, Outcome)

  function LPushOn(live: Option<Record>, vals: seq<Bytes>): Effect {
    var l := AsList(live);
    if l.None? then (live, WrongType)
    else (Some(Record(ListV(Reversed(vals) + l.value), Deadline(live))), Count(|vals| + |l.value|))
  }

  function RPushOn(live: Option<Record>, vals: seq<Bytes>): Effect {
    var l := AsList(live);
    if l.None? then (live, WrongType)
    else (Some(Record(ListV(l.value + vals), Deadline(live))), Count(|l.value| + |vals|))
  }

  function LPopOn(live: Option<Record>): Effect {
    var l := AsList(live);
    if l.None? then (live, WrongType)
    else if l.value == [] then (live, Absent)
    else (WithList(live, l.value[1..]), Data(l.value[0]))
  }

  function RPopOn(live: Option<Record>): Effect {
    var l := AsList(live);
    if l.None? then (live, WrongType)
    else if l.value == [] then (live, Absent)
    else (WithList(live, l.value[..|l.value| - 1]), Data(l.value[|l.value| - 1]))
  }

  function LLenOn(live: Option<Record>): Effect {
    var l := AsList(live);
    (live, if l.None? then WrongType else Count(|l.value|))
  }

  function LRangeOn(live: Option<Record>, start: int, stop: int): Effect {
    var l := AsList(live);
    (live, if l.None? then WrongType
           else Items(Window(l.value, FromEnd(start, |l.value|), FromEnd(stop, |l.value|))))
  }

  function HSetOn(live: Option<Record>, field: Bytes, val: Bytes): Effect {
    var h := AsHash(live);
    if h.None? then (live, WrongType)
    else (Some(Record(HashV(h.value[field := val]), Deadline(live))), Flag(field !in h.value))
  }

  function HGetOn(live: Option<Record>, field: Bytes): Effect {
    var h := AsHash(live);
    (live, if h.None? then WrongType else if field in h.value then Data(h.value[field]) else Absent)
  }

  function HDelOn(live: Option<Record>, gone: seq<Bytes>): Effect {
    var h := AsHash(live);
    if h.None? then (live, WrongType)
    else
      var left := h.value - Elements(gone);
      (WithHash(live, left), Count(|h.value| - |left|))
  }

  function HGetAllOn(live: Option<Record>): Effect {
    var h := AsHash(live);
    (live, if h.None? then WrongType else Fields(h.value))
  }

  function HLenOn(live: Option<Record>): Effect {
    var h := AsHash(live);
    (live, if h.None? then WrongType else Count(|h.value|))
  }

  function SAddOn(live: Option<Record>, vals: seq<Bytes>): Effect {
    var s := AsSet(live);
    if s.None? then (live, WrongType)
    else
      var all := s.value + Elements(vals);
      (Some(Record(SetV(all), Deadline(live))), Count(|all| - |s.value|))
  }

  function SRemOn(live: Option<Record>, gone: seq<Bytes>): Effect {
    var s := AsSet(live);
    if s.None? then (live, WrongType)
    else
      var left := s.value - Elements(gone);
      (WithSet(live, left), Count(|s.value| - |left|))
  }

  function SIsMemberOn(live: Option<Record>, member: Bytes): Effect {
    var s := AsSet(live);
    (live, if s.None? then WrongType else Flag(member in s.value))
  }

  function SMembersOn(live: Option<Record>): Effect {
    var s := AsSet(live);
    (live, if s.None? then WrongType else Members(s.value))
  }

  function SCardOn(live: Option<Record>): Effect {
    var s := AsSet(live);
    (live, if s.None? then WrongType else Count(|s.value|))
  }

  function GetOn(live: Option<Record>): Effect {
    (live, if live.None? then Absent
           else if live.value.value.StrV? then Data(live.value.value.bytes) else WrongType)
  }

  function SetNxOn(live: Option<Record>, val: Bytes): Effect {
    if live.Some? then (live, Flag(false)) else (Some(Record(StrV(val), NEVER)), Flag(true))
  }

  function IncrByOn(live: Option<Record>, delta: int): Effect {
    if live.Some? && !live.value.value.StrV? then (live, WrongType)
    else
      var n := if live.None? then Some(0) else ParseInt(live.value.value.bytes);
      if n.None? || !FitsInt64(n.value + delta) then (live, NotInteger)
      else (Some(Record(StrV(FormatInt(n.value + delta)), Deadline(live))), Count(n.value + delta))
  }

  function KindOf(v: Value): Bytes {
    match v
    case StrV(_) => "string"
    case ListV(_) => "list"
    case HashV(_) => "hash"
    case SetV(_) => "set"
  }

  function DeleteOn(live: Option<Record>): Effect {
    (None, Flag(live.Some?))
  }

  function ExistsOn(live: Option<Record>): Effect {
    (live, Flag(live.Some?))
  }

  function TypeOn(live: Option<Record>): Effect {
    (live, Kind(if live.Some? then KindOf(live.value.value) else "none"))
  }

  function ExpireAtOn(live: Option<Record>, at: Time): Effect {
    (if live.Some? then Some(live.value.(expireAt := at)) else None, Flag(live.Some?))
  }

  function PersistOn(live: Option<Record>): Effect {
    if live.Some? && live.value.expireAt != NEVER then (Some(live.value.(expireAt := NEVER)), Flag(true))
    else (live, Flag(false))
  }

  function TtlOn(live: Option<Record>, now: Time): Effect {
    (live, if live.None? then Absent else if live.value.expireAt == NEVER then Done
           else Remaining(Saturate(live.value.expireAt - now)))
  }

  function Apply(op: Op, live: Option<Record>, now: Time): Effect {
    match op
    case Get => GetOn(live)
    case SetTo(val, at) => (Some(Record(StrV(val), at)), Done)
    case SetNx(val) => SetNxOn(live, val)
    case IncrBy(delta) => IncrByOn(live, delta)
    case Delete => DeleteOn(live)
    case Exists => ExistsOn(live)
    case Type => TypeOn(live)
    case ExpireAt(at) => ExpireAtOn(live, at)
    case Persist => PersistOn(live)
    case Ttl => TtlOn(live, now)
    case LPush(vals) => LPushOn(live, vals)
    case RPush(vals) => RPushOn(live, vals)
    case LPop => LPopOn(live)
    case RPop => RPopOn(live)
    case LLen => LLenOn(live)
    case LRange(start, stop) => LRangeOn(live, start, stop)
    case HSet(field, val) => HSetOn(live, field, val)
    case HGet(field) => HGetOn(live, field)
    case HDel(gone) => HDelOn(live, gone)
    case HGetAll => HGetAllOn(live)
    case HLen => HLenOn(live)
    case SAdd(vals) => SAddOn(live, vals)
    case SRem(gone) => SRemOn(live, gone)
    case SIsMember(member) => SIsMemberOn(live, member)
    case SMembers => SMembersOn(live)
    case SCard => SCardOn(live)
  }

  /** The store after an operation. A key found expired is gone unless the operation writes it anew. */
  function StepDb(db: Db, key: Bytes, op: Op, now: Time): Db {
    Place(db, key, Apply(op, Find(db, key, now), now).0)
  }

  function Answer(db: Db, key: Bytes, op: Op, now: Time): Outcome {
    Apply(op, Find(db, key, now), now).1
  }

  predicate ReadOnly(op: Op) {
    op.Get? || op.Exists? || op.Type? || op.Ttl? || op.LLen? || op.LRange? || op.HGet? || op.HGetAll? || op.HLen?
    || op.SIsMember? || op.SMembers? || op.SCard?
  }

  predicate Failed(o: Outcome) {
    o.WrongType? || o.NotInteger?
  }
}
