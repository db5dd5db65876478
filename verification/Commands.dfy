/** What each command asks of the store, and how the store's answers become a reply. */
module Commands {
  import opened ByteStrings
  import opened Clock
  import opened Keyspace
  import opened Numbers
  import opened Protocol

  datatype KeyOp = KeyOp(key: Bytes, op: Op)

  /** A command, once its arguments are checked: answered at once, or operations on keys, or on the whole store. */
  datatype Plan =
    | Immediate(reply: Reply)
    | Steps(steps: seq<KeyOp>)
    | CountKeys
    | DropAll

  const WRONGTYPE: Bytes := Text("WRONGTYPE Operation against a key holding the wrong kind of value")
  const NOT_INTEGER: Bytes := Text("ERR value is not an integer or out of range")

  datatype Unit = EX | PX | EXAT | PXAT

  function UnitOf(option: Bytes): Option<Unit> {
    match Upper(option)
    case "EX" => Some(EX)
    case "PX" => Some(PX)
    case "EXAT" => Some(EXAT)
    case "PXAT" => Some(PXAT)
    case _ => None
  }

  /** The deadline one SET option asks for, at an instant of the clock. */
  function UnitDeadline(unit: Unit, n: int, now: Time): Time {
    match unit
    case EX => now + Seconds(n)
    case PX => now + Millis(n)
    case EXAT => UnixSeconds(n)
    case PXAT => UnixMillis(n)
  }

  /** SET takes no option, or one option with an integer. */
  function ExpiryAsked(opts: seq<Bytes>, now: Time): Option<Time> {
    if opts == [] then Some(NEVER)
    else if |opts| != 2 || UnitOf(opts[0]).None? || ParseInt(opts[1]).None? then None
    else Some(UnitDeadline(UnitOf(opts[0]).value, ParseInt(opts[1]).value, now))
  }

  /** `parseSetExpiry`: the option loop accepts exactly an empty list or one option with its integer. */
  method ParseSetExpiry(opts: seq<Bytes>, now: Time) returns (expireAt: Time, ok: bool)
    ensures ok == ExpiryAsked(opts, now).Some?
    ensures ok ==> expireAt == ExpiryAsked(opts, now).value
  {
    expireAt := NEVER;
    var found := false;
    var i := 0;
    while i < |opts|
      invariant 0 <= i <= |opts|
      invariant !found ==> i == 0 && expireAt == NEVER
      invariant found ==> i == 2 && UnitOf(opts[0]).Some? && ParseInt(opts[1]).Some?
                          && expireAt == UnitDeadline(UnitOf(opts[0]).value, ParseInt(opts[1]).value, now)
    {
      var unit := UnitOf(opts[i]);
      if unit.None? {
        return NEVER, false;
      }
      if found || i + 1 >= |opts| {
        return NEVER, false;
      }
      var n := ParseInt(opts[i + 1]);
      if n.None? {
        return NEVER, false;
      }
      expireAt := UnitDeadline(unit.value, n.value, now);
      found := true;
      i := i + 2;
    }
    ok := true;
  }

  function Pairs(args: seq<Bytes>): (steps: seq<KeyOp>)
    requires |args| % 2 == 0
    ensures |steps| == |args| / 2
  {
    seq(|args| / 2, i requires 0 <= i < |args| / 2 => KeyOp(args[2 * i], SetTo(args[2 * i + 1], NEVER)))
  }

  function Each(args: seq<Bytes>, op: Op): (steps: seq<KeyOp>)
    ensures |steps| == |args|
  {
    seq(|args|, i requires 0 <= i < |args| => KeyOp(args[i], op))
  }

  function One(key: Bytes, op: Op): Plan {
    Steps([KeyOp(key, op)])
  }

  function Fail(msg: string): Plan {
    Immediate(Error(Text(msg)))
  }

  function StringPlan(v: Verb, args: seq<Bytes>, now: Time): Plan
    requires v.GET? || v.SET? || v.MSET? || v.MGET? || v.SETNX? || v.INCR? || v.DECR? || v.INCRBY? || v.DECRBY?
  {
    match v
    case GET => if |args| != 1 then Fail("ERR GET requiere 1 argumento") else One(args[0], Get)
    case SET =>
      if |args| < 2 then Fail("ERR SET requiere 2 argumentos")
      else
        var at := ExpiryAsked(args[2..], now);
        if at.None? then Fail("ERR syntax error") else One(args[0], SetTo(args[1], at.value))
    case MSET => if |args| < 2 || |args| % 2 != 0 then Fail("ERR MSET requiere pares clave valor") else Steps(Pairs(args))
    case MGET => if |args| < 1 then Fail("ERR MGET requiere al menos 1 clave") else Steps(Each(args, Get))
    case SETNX => if |args| != 2 then Fail("ERR SETNX requiere 2 argumentos") else One(args[0], SetNx(args[1]))
    case INCR => if |args| != 1 then Fail("ERR INCR requiere 1 argumento") else One(args[0], IncrBy(1))
    case DECR => if |args| != 1 then Fail("ERR DECR requiere 1 argumento") else One(args[0], IncrBy(-1))
    case INCRBY =>
      if |args| != 2 then Fail("ERR INCRBY requiere 2 argumentos")
      else if ParseInt(args[1]).None? then Fail("ERR el incremento debe ser un entero")
      else One(args[0], IncrBy(ParseInt(args[1]).value))
    case DECRBY =>
      if |args| != 2 then Fail("ERR DECRBY requiere 2 argumentos")
      else if ParseInt(args[1]).None? then Fail("ERR el decremento debe ser un entero")
      else One(args[0], IncrBy(Wrap64(-ParseInt(args[1]).value)))
  }

  function KeyPlan(v: Verb, args: seq<Bytes>, now: Time): Plan
    requires v.DEL? || v.EXISTS? || v.EXPIRE? || v.PEXPIREAT? || v.TTL? || v.PERSIST? || v.TYPE?
  {
    match v
    case DEL => if |args| < 1 then Fail("ERR DEL requiere al menos 1 argumento") else Steps(Each(args, Delete))
    case EXISTS => if |args| != 1 then Fail("ERR EXISTS requiere 1 argumento") else One(args[0], Exists)
    case EXPIRE =>
      if |args| != 2 then Fail("ERR EXPIRE requiere 2 argumentos")
      else if ParseInt(args[1]).None? then Fail("ERR el TTL debe ser un entero")
      else One(args[0], ExpireAt(now + Seconds(ParseInt(args[1]).value)))
    case PEXPIREAT =>
      if |args| != 2 then Fail("ERR PEXPIREAT requiere 2 argumentos")
      else if ParseInt(args[1]).None? then Fail("ERR el timestamp debe ser un entero")
      else One(args[0], ExpireAt(UnixMillis(ParseInt(args[1]).value)))
    case TTL => if |args| != 1 then Fail("ERR TTL requiere 1 argumento") else One(args[0], Ttl)
    case PERSIST => if |args| != 1 then Fail("ERR PERSIST requiere 1 argumento") else One(args[0], Persist)
    case TYPE => if |args| != 1 then Fail("ERR TYPE requiere 1 argumento") else One(args[0], Type)
  }

  function ListPlan(v: Verb, args: seq<Bytes>): Plan
    requires v.LPUSH? || v.RPUSH? || v.LPOP? || v.RPOP? || v.LLEN? || v.LRANGE?
  {
    match v
    case LPUSH => if |args| < 2 then Fail("ERR LPUSH requiere clave y al menos un valor") else One(args[0], LPush(args[1..]))
    case RPUSH => if |args| < 2 then Fail("ERR RPUSH requiere clave y al menos un valor") else One(args[0], RPush(args[1..]))
    case LPOP => if |args| != 1 then Fail("ERR LPOP requiere 1 argumento") else One(args[0], LPop)
    case RPOP => if |args| != 1 then Fail("ERR RPOP requiere 1 argumento") else One(args[0], RPop)
    case LLEN => if |args| != 1 then Fail("ERR LLEN requiere 1 argumento") else One(args[0], LLen)
    case LRANGE =>
      if |args| != 3 then Fail("ERR LRANGE requiere 3 argumentos")
      else if ParseInt(args[1]).None? || ParseInt(args[2]).None?
      then Fail("ERR los \U{C3}\U{AD}ndices deben ser enteros")
      else One(args[0], LRange(ParseInt(args[1]).value, ParseInt(args[2]).value))
  }

  function HashPlan(v: Verb, args: seq<Bytes>): Plan
    requires v.HSET? || v.HGET? || v.HDEL? || v.HGETALL? || v.HLEN?
  {
    match v
    case HSET => if |args| != 3 then Fail("ERR HSET requiere 3 argumentos") else One(args[0], HSet(args[1], args[2]))
    case HGET => if |args| != 2 then Fail("ERR HGET requiere 2 argumentos") else One(args[0], HGet(args[1]))
    case HDEL => if |args| < 2 then Fail("ERR HDEL requiere clave y al menos un campo") else One(args[0], HDel(args[1..]))
    case HGETALL => if |args| != 1 then Fail("ERR HGETALL requiere 1 argumento") else One(args[0], HGetAll)
    case HLEN => if |args| != 1 then Fail("ERR HLEN requiere 1 argumento") else One(args[0], HLen)
  }

  function SetPlan(v: Verb, args: seq<Bytes>): Plan
    requires v.SADD? || v.SREM? || v.SISMEMBER? || v.SMEMBERS? || v.SCARD?
  {
    match v
    case SADD => if |args| < 2 then Fail("ERR SADD requiere clave y al menos un miembro") else One(args[0], SAdd(args[1..]))
    case SREM => if |args| < 2 then Fail("ERR SREM requiere clave y al menos un miembro") else One(args[0], SRem(args[1..]))
    case SISMEMBER => if |args| != 2 then Fail("ERR SISMEMBER requiere 2 argumentos") else One(args[0], SIsMember(args[1]))
    case SMEMBERS => if |args| != 1 then Fail("ERR SMEMBERS requiere 1 argumento") else One(args[0], SMembers)
    case SCARD => if |args| != 1 then Fail("ERR SCARD requiere 1 argumento") else One(args[0], SCard)
  }

  function VerbPlan(v: Verb, args: seq<Bytes>, now: Time): Plan {
    match v
    case PING => Immediate(if |args| > 0 then Bulk(args[0]) else Status("PONG"))
    case DBSIZE => if |args| != 0 then Fail("ERR DBSIZE no acepta argumentos") else CountKeys
    case FLUSHALL => if |args| != 0 then Fail("ERR FLUSHALL no acepta argumentos") else DropAll
    case GET | SET | MSET | MGET | SETNX | INCR | DECR | INCRBY | DECRBY => StringPlan(v, args, now)
    case DEL | EXISTS | EXPIRE | PEXPIREAT | TTL | PERSIST | TYPE => KeyPlan(v, args, now)
    case LPUSH | RPUSH | LPOP | RPOP | LLEN | LRANGE => ListPlan(v, args)
    case HSET | HGET | HDEL | HGETALL | HLEN => HashPlan(v, args)
    case SADD | SREM | SISMEMBER | SMEMBERS | SCARD => SetPlan(v, args)
  }

  /** The dispatcher's lookup and the handler's argument checks; a relative deadline is taken from `now`. */
  function PlanOf(cmd: Command, now: Time): Plan {
    var v := VerbOf(cmd);
    if v.None? then Immediate(Error(Text("ERR comando desconocido: ") + cmd.name)) else VerbPlan(v.value, cmd.args, now)
  }

  /** `cmdTTL` rounds up to whole seconds in 64-bit arithmetic. */
  function TtlSeconds(remaining: int): int {
    Quotient(Wrap64(remaining + SECOND - 1), SECOND)
  }

  function BulkArray(items: seq<Bytes>): Reply {
    Array(seq(|items|, i requires 0 <= i < |items| => Bulk(items[i])))
  }

  /** One answer as a reply. TTL alone has its own codes for a missing key and a missing deadline. */
  function Render(v: Verb, o: Outcome): Reply {
    match o
    case Absent => if v.TTL? then Int(-2) else NullBulk
    case Done => if v.TTL? then Int(-1) else Status("OK")
    case WrongType => if v.MGET? then NullBulk else Error(WRONGTYPE)
    case NotInteger => Error(NOT_INTEGER)
    case Data(bytes) => Bulk(bytes)
    case Flag(yes) => Int(if yes then 1 else 0)
    case Count(n) => Int(n)
    case Remaining(d) => Int(TtlSeconds(d))
    case Kind(name) => Status(name)
    case Items(items) => BulkArray(items)
    case Fields(_) | Members(_) => NullArray
  }

  function CountFlags(outs: seq<Outcome>): nat {
    if outs == [] then 0
    else CountFlags(outs[..|outs| - 1]) + if outs[|outs| - 1] == Flag(true) then 1 else 0
  }

  function StepsReply(v: Verb, outs: seq<Outcome>): Reply
    requires |outs| >= 1
  {
    match v
    case DEL => Int(CountFlags(outs))
    case MSET => Status("OK")
    case MGET => Array(seq(|outs|, i requires 0 <= i < |outs| => Render(v, outs[i])))
    case _ => Render(v, outs[0])
  }

  /** Go walks maps in any order: a hash or a set answers with any listing of itself, anything else with itself. */
  ghost predicate Shows(spec: Outcome, actual: Outcome) {
    if spec.Fields? || spec.Members? then actual.Items? && ListedAs(spec, actual.items) else actual == spec
  }

  ghost predicate ListedAs(spec: Outcome, items: seq<Bytes>)
    requires spec.Fields? || spec.Members?
  {
    match spec
    case Fields(fields) =>
      exists order: seq<Bytes> :: Lists(order, fields.Keys) && items == Flattened(order, fields)
    case Members(members) => Lists(items, members)
  }

  ghost predicate Lists(order: seq<Bytes>, s: set<Bytes>) {
    Elements(order) == s && forall i, j :: 0 <= i < j < |order| ==> order[i] != order[j]
  }

  ghost function Flattened(order: seq<Bytes>, fields: map<Bytes, Bytes>): seq<Bytes>
    requires Elements(order) <= fields.Keys
  {
    if order == [] then []
    else
      var f := order[|order| - 1];
      assert f in Elements(order);
      assert Elements(order[..|order| - 1]) <= Elements(order);
      Flattened(order[..|order| - 1], fields) + [f, fields[f]]
  }

  predicate Readonly(v: Verb) {
    v.PING? || v.GET? || v.EXISTS? || v.TTL? || v.TYPE? || v.LLEN? || v.LRANGE? || v.HGET? || v.HGETALL? || v.HLEN?
    || v.SISMEMBER? || v.SMEMBERS? || v.SCARD? || v.MGET? || v.DBSIZE?
  }

  predicate OnlyReads(p: Plan) {
    !p.DropAll? && (p.Steps? ==> forall i :: 0 <= i < |p.steps| ==> ReadOnly(p.steps[i].op))
  }

  lemma ScalarReads(v: Verb, args: seq<Bytes>, now: Time)
    requires v.GET? || v.MGET? || v.EXISTS? || v.TTL? || v.TYPE? || v.PING? || v.DBSIZE?
    ensures OnlyReads(VerbPlan(v, args, now))
  {
    hide Text;
  }

  lemma CollectionReads(v: Verb, args: seq<Bytes>, now: Time)
    requires v.LLEN? || v.LRANGE? || v.HGET? || v.HGETALL? || v.HLEN? || v.SISMEMBER? || v.SMEMBERS? || v.SCARD?
    ensures OnlyReads(VerbPlan(v, args, now))
  {
    hide Text, ParseInt, StringPlan, KeyPlan;
  }

  /** A reading command never plans a write. */
  lemma ReadonlyPlans(cmd: Command, now: Time)
    requires VerbOf(cmd).Some? ==> Readonly(VerbOf(cmd).value)
    ensures OnlyReads(PlanOf(cmd, now))
  {
    hide Text, VerbNamed, VerbPlan;
    if VerbOf(cmd).Some? {
      var v := VerbOf(cmd).value;
      if v.GET? || v.MGET? || v.EXISTS? || v.TTL? || v.TYPE? || v.PING? || v.DBSIZE? {
        ScalarReads(v, cmd.args, now);
      } else {
        CollectionReads(v, cmd.args, now);
      }
    }
  }

  /**
   TTL's reply is the remaining time rounded up to seconds exactly when that rounding fits in 64 bits; for a
   deadline some 292 years away it wraps to a negative number instead.
   */
  lemma TtlExact(remaining: int)
    requires remaining >= 0
    ensures TtlSeconds(Saturate(remaining)) == (remaining + SECOND - 1) / SECOND <==> remaining <= MAX_INT64 - SECOND + 1
  {
  }

  /** DECRBY subtracts what it is asked to, unless negating it overflows: only for the least 64-bit integer. */
  lemma DecrByExact(key: Bytes, text: Bytes, now: Time, n: int)
    requires ParseInt(text) == Some(n)
    ensures PlanOf(Command("DECRBY", [key, text]), now) == One(key, IncrBy(-n)) <==> n != MIN_INT64
  {
    NamesAgree(DECRBY);
    assert VerbOf(Command("DECRBY", [key, text])) == Some(DECRBY);
    assert VerbPlan(DECRBY, [key, text], now) == One(key, IncrBy(Wrap64(-n)));
    assert Steps([KeyOp(key, IncrBy(Wrap64(-n)))]).steps[0].op.delta == Wrap64(-n);
    assert Steps([KeyOp(key, IncrBy(-n))]).steps[0].op.delta == -n;
  }
}
