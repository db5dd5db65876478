/** The commands on several keys, and those on none: what a client gets for them, and what they leave in the store. */
module Batches {
  import opened Accounting
  import opened ByteStrings
  import opened Clock
  import opened Commands
  import opened Dispatcher
  import opened Handlers
  import opened Keyspace
  import opened Numbers
  import opened Protocol
  import opened Runs
  import opened Spelling
  import opened Steps
  import opened Transparency
  import opened Values

  /** Each answer is given by the store the steps before it left. */
  lemma {:induction false} AnswerAt(s: Stock, steps: seq<KeyOp>, ts: seq<Time>, i: nat)
    requires i < |steps| <= |ts|
    ensures StepsAnswers(s, steps, ts)[i] == Answer(StepsRun(s, steps[..i], ts).data, steps[i].key, steps[i].op, ts[i])
    decreases |steps|
  {
    hide StepStock, Answer;
    var n := |steps| - 1;
    if i < n {
      AnswerAt(s, steps[..n], ts, i);
      assert steps[..n][..i] == steps[..i];
    }
  }

  predicate Scalar(o: Outcome) {
    !o.Fields? && !o.Members?
  }

  /** A plan of several operations is carried out in turn, and its answers make the reply. */
  lemma CarriedAll(v: Verb, steps: seq<KeyOp>, x: Exchange)
    requires Spells(x.cmd.name, NameOf(v)) && VerbPlan(v, x.cmd.args, x.now) == Steps(steps)
    requires |x.ts| >= |x.cmd.args| && Dispatched(x.cmd, x.now, x.ts, x.before, x.after, x.reply)
    ensures 1 <= |steps| <= |x.ts| && x.after == StepsRun(x.before, steps, x.ts)
    ensures var answers := StepsAnswers(x.before, steps, x.ts);
            (forall i :: 0 <= i < |steps| ==> Scalar(answers[i])) ==> x.reply == StepsReply(v, answers)
  {
    hide VerbPlan, NameOf, VerbNamed, Spells, StepsReply, StepsRun, StepsAnswers;
    VerbSpelled(x.cmd, v);
    PlansFit(x.cmd, x.now);
    assert PlanOf(x.cmd, x.now) == Steps(steps);
    var answers := StepsAnswers(x.before, steps, x.ts);
    var outs :| AllShow(answers, outs) && x.reply == StepsReply(v, outs);
    if forall i :: 0 <= i < |steps| ==> Scalar(answers[i]) {
      assert forall i :: 0 <= i < |steps| ==> Shows(answers[i], outs[i]) && outs[i] == answers[i];
      assert outs == answers;
    }
  }

  /** What the keys show to reads in turn is what they showed before the first. */
  lemma ReadsInTurn(s: Stock, steps: seq<KeyOp>, ts: seq<Time>, i: nat)
    requires i < |steps| <= |ts| && Nondecreasing(ts)
    requires forall j :: 0 <= j < |steps| ==> ReadOnly(steps[j].op)
    ensures StepsAnswers(s, steps, ts)[i] == Answer(s.data, steps[i].key, steps[i].op, ts[i])
    ensures SameView(StepsRun(s, steps[..i + 1], ts).data, s.data, ts[i])
  {
    hide StepStock, Answer, View, StepDb, StepsRun, StepsAnswers, SameView;
    AnswerAt(s, steps, ts, i);
    var front, more := steps[..i], steps[..i + 1];
    ReadsKeepView(s, front, ts[..i], ts[i]);
    StepsReadSome(s, front, ts, i);
    StepSameView(StepsRun(s, front, ts).data, s.data, steps[i].key, steps[i].op, ts[i]);
    ReadsKeepView(s, more, ts[..i + 1], ts[i]);
    StepsReadSome(s, more, ts, i + 1);
  }

  /** MGET answers each key in turn with its string, or with nothing if it shows none. */
  lemma MGetReplies(args: seq<Bytes>, x: Exchange)
    requires args != [] && Asked("MGET", args, x) && Nondecreasing(x.ts)
    ensures SameView(x.after.data, x.before.data, x.ts[|args| - 1])
    ensures x.reply.Array? && |x.reply.elems| == |args|
    ensures forall i :: 0 <= i < |args| ==>
              var r := Find(x.before.data, args[i], x.ts[i]);
              x.reply.elems[i] == if r.Some? && r.value.value.StrV? then Bulk(r.value.value.bytes) else NullBulk
  {
    hide Text, StepsRun, StepsAnswers, Dispatched, View;
    var steps := Each(args, Get);
    CarriedAll(MGET, steps, x);
    var answers := StepsAnswers(x.before, steps, x.ts);
    forall i | 0 <= i < |args|
      ensures answers[i] == GetOn(Find(x.before.data, args[i], x.ts[i])).1 && Scalar(answers[i])
    {
      ReadsInTurn(x.before, steps, x.ts, i);
    }
    ReadsInTurn(x.before, steps, x.ts, |args| - 1);
    assert steps[..|args|] == steps;
  }

  lemma DeleteStep(db: Db, key: Bytes, now: Time)
    ensures StepDb(db, key, Delete, now) == db - {key}
    ensures Answer(db, key, Delete, now) == Flag(Find(db, key, now).Some?)
  {
  }

  /** After some deletions their keys are gone and nothing else is. */
  lemma {:induction false} DeletesRun(s: Stock, args: seq<Bytes>, ts: seq<Time>)
    requires |args| <= |ts|
    ensures StepsRun(s, Each(args, Delete), ts).data == s.data - Elements(args)
    decreases |args|
  {
    hide StepStock;
    if args == [] {
      assert s.data - Elements(args) == s.data;
    } else {
      var n := |args| - 1;
      DeletesRun(s, args[..n], ts);
      assert Each(args, Delete)[..n] == Each(args[..n], Delete);
      var before := StepsRun(s, Each(args[..n], Delete), ts);
      StepIsDb(before, args[n], Delete, ts[n]);
      DeleteStep(before.data, args[n], ts[n]);
      assert Elements(args) == Elements(args[..n]) + {args[n]};
    }
  }

  /** The places at which DEL finds a key: the first to name it, when it is live at that moment. */
  function Hits(db: Db, args: seq<Bytes>, ts: seq<Time>, n: nat): set<nat>
    requires n <= |args| <= |ts|
  {
    set i: nat | i < n && args[i] !in args[..i] && Find(db, args[i], ts[i]).Some?
  }

  lemma HitsMore(db: Db, args: seq<Bytes>, ts: seq<Time>, i: nat)
    requires i < |args| <= |ts|
    ensures var hit := args[i] !in args[..i] && Find(db, args[i], ts[i]).Some?;
            |Hits(db, args, ts, i + 1)| == |Hits(db, args, ts, i)| + if hit then 1 else 0
  {
    hide Find;
    var hit := args[i] !in args[..i] && Find(db, args[i], ts[i]).Some?;
    assert Hits(db, args, ts, i + 1) == Hits(db, args, ts, i) + if hit then {i} else {};
  }

  lemma {:induction false} HitsCounted(db: Db, args: seq<Bytes>, ts: seq<Time>, outs: seq<Outcome>, n: nat)
    requires n <= |args| <= |ts| && |outs| == |args|
    requires forall i :: 0 <= i < |args| ==> outs[i] == Flag(args[i] !in args[..i] && Find(db, args[i], ts[i]).Some?)
    ensures CountFlags(outs[..n]) == |Hits(db, args, ts, n)|
    decreases n
  {
    hide Find;
    if n > 0 {
      HitsCounted(db, args, ts, outs, n - 1);
      HitsMore(db, args, ts, n - 1);
      assert outs[..n][..n - 1] == outs[..n - 1];
    } else {
      assert Hits(db, args, ts, 0) == {};
    }
  }

  /** DEL counts the keys that were live when their turn came, each once, and leaves none of them. */
  lemma DelReplies(args: seq<Bytes>, x: Exchange)
    requires args != [] && Asked("DEL", args, x)
    ensures x.after.data == x.before.data - Elements(args)
    ensures x.reply == Int(|Hits(x.before.data, args, x.ts, |args|)|)
  {
    hide Text, StepsRun, StepsAnswers, Dispatched, Hits;
    var steps := Each(args, Delete);
    CarriedAll(DEL, steps, x);
    DeletesRun(x.before, args, x.ts);
    var answers := StepsAnswers(x.before, steps, x.ts);
    forall i | 0 <= i < |args|
      ensures answers[i] == Flag(args[i] !in args[..i] && Find(x.before.data, args[i], x.ts[i]).Some?)
    {
      AnswerAt(x.before, steps, x.ts, i);
      assert steps[..i] == Each(args[..i], Delete);
      DeletesRun(x.before, args[..i], x.ts);
      DeleteStep(StepsRun(x.before, steps[..i], x.ts).data, args[i], x.ts[i]);
      GoneOrSame(x.before.data, args, x.ts[i], i);
    }
    HitsCounted(x.before.data, args, x.ts, answers, |args|);
    assert answers[..|args|] == answers;
  }

  lemma GoneOrSame(db: Db, args: seq<Bytes>, now: Time, i: nat)
    requires i < |args|
    ensures Find(db - Elements(args[..i]), args[i], now).Some? <==> args[i] !in args[..i] && Find(db, args[i], now).Some?
  {
    assert args[i] in Elements(args[..i]) <==> args[i] in args[..i];
  }

  lemma SetStep(db: Db, key: Bytes, val: Bytes, now: Time)
    ensures StepDb(db, key, SetTo(val, NEVER), now) == db[key := Record(StrV(val), NEVER)]
    ensures Answer(db, key, SetTo(val, NEVER), now) == Done
  {
  }

  function KeyAt(args: seq<Bytes>, i: nat): Bytes
    requires 2 * i < |args|
  {
    args[2 * i]
  }

  /** After some pairs: the last value given for a key is its value, without a deadline; other keys are as they were. */
  ghost predicate PairsIn(before: Db, after: Db, args: seq<Bytes>, n: nat)
    requires 2 * n <= |args|
  {
    (forall i :: 0 <= i < n && (forall j :: i < j < n ==> KeyAt(args, j) != KeyAt(args, i)) ==>
      Slot(after, KeyAt(args, i)) == Some(Record(StrV(args[2 * i + 1]), NEVER))) &&
    (forall key :: (forall j :: 0 <= j < n ==> KeyAt(args, j) != key) ==> Slot(after, key) == Slot(before, key))
  }

  lemma {:induction false} PairsRun(s: Stock, args: seq<Bytes>, ts: seq<Time>, n: nat)
    requires 2 * n <= |args| <= |ts| && |args| % 2 == 0
    ensures PairsIn(s.data, StepsRun(s, Pairs(args)[..n], ts).data, args, n)
    decreases n
  {
    hide StepStock, PairsIn, StepDb, Answer;
    if n == 0 {
      NoPairsYet(s.data, args);
    } else {
      var k := n - 1;
      PairsRun(s, args, ts, k);
      StepsMore(s, Pairs(args), ts, k);
      var mid := StepsRun(s, Pairs(args)[..k], ts);
      StepIsDb(mid, args[2 * k], SetTo(args[2 * k + 1], NEVER), ts[k]);
      SetStep(mid.data, args[2 * k], args[2 * k + 1], ts[k]);
      PairAdded(s.data, mid.data, args, k);
    }
  }

  lemma NoPairsYet(db: Db, args: seq<Bytes>)
    ensures PairsIn(db, db, args, 0)
  {
  }

  lemma PairAdded(before: Db, mid: Db, args: seq<Bytes>, k: nat)
    requires 2 * k + 2 <= |args| && PairsIn(before, mid, args, k)
    ensures PairsIn(before, mid[args[2 * k] := Record(StrV(args[2 * k + 1]), NEVER)], args, k + 1)
  {
    var after := mid[args[2 * k] := Record(StrV(args[2 * k + 1]), NEVER)];
    forall i | 0 <= i < k + 1 && (forall j :: i < j < k + 1 ==> KeyAt(args, j) != KeyAt(args, i))
      ensures Slot(after, KeyAt(args, i)) == Some(Record(StrV(args[2 * i + 1]), NEVER))
    {
      if i < k {
        assert KeyAt(args, k) != KeyAt(args, i);
        assert Slot(after, KeyAt(args, i)) == Slot(mid, KeyAt(args, i));
      }
    }
    forall key | forall j :: 0 <= j < k + 1 ==> KeyAt(args, j) != key
      ensures Slot(after, key) == Slot(before, key)
    {
      assert KeyAt(args, k) != key && Slot(after, key) == Slot(mid, key);
    }
  }

  /** MSET takes keys and values in turn. */
  lemma MSetReplies(args: seq<Bytes>, x: Exchange)
    requires args != [] && |args| % 2 == 0 && Asked("MSET", args, x)
    ensures PairsIn(x.before.data, x.after.data, args, |args| / 2) && x.reply == Status("OK")
  {
    hide Text, StepsRun, StepsAnswers, Dispatched, PairsIn;
    CarriedAll(MSET, Pairs(args), x);
    PairsRun(x.before, args, x.ts, |args| / 2);
    assert Pairs(args)[..|args| / 2] == Pairs(args);
    forall i | 0 <= i < |args| / 2
      ensures Scalar(StepsAnswers(x.before, Pairs(args), x.ts)[i])
    {
      AnswerAt(x.before, Pairs(args), x.ts, i);
      SetStep(StepsRun(x.before, Pairs(args)[..i], x.ts).data, args[2 * i], args[2 * i + 1], x.ts[i]);
    }
  }

  lemma AnsweredAtOnce(v: Verb, x: Exchange)
    requires Spells(x.cmd.name, NameOf(v)) && VerbPlan(v, x.cmd.args, x.now).Immediate?
    requires |x.ts| >= |x.cmd.args| && Dispatched(x.cmd, x.now, x.ts, x.before, x.after, x.reply)
    ensures x.after == x.before && x.reply == VerbPlan(v, x.cmd.args, x.now).reply
  {
    hide VerbPlan, NameOf, VerbNamed, Spells;
    VerbSpelled(x.cmd, v);
  }

  /** PING answers PONG or its argument. */
  lemma PingReplies(args: seq<Bytes>, x: Exchange)
    requires Asked("PING", args, x)
    ensures x.after == x.before && x.reply == if args == [] then Status("PONG") else Bulk(args[0])
  {
    hide Dispatched;
    AnsweredAtOnce(PING, x);
  }

  lemma WholeStorePlan(v: Verb, x: Exchange)
    requires (v.DBSIZE? || v.FLUSHALL?) && Asked(NameOf(v), [], x)
    ensures PlanOf(x.cmd, x.now) == if v.DBSIZE? then CountKeys else DropAll
  {
    hide NameOf, VerbNamed, Spells, Dispatched;
    VerbSpelled(x.cmd, v);
  }

  /** DBSIZE counts the keys that have not expired, and FLUSHALL leaves none. */
  lemma DbSizeReplies(x: Exchange)
    requires Asked("DBSIZE", [], x)
    ensures x.after == x.before
    ensures x.reply == Int(|set key | key in x.before.data && Find(x.before.data, key, x.now).Some?|)
  {
    hide PlanOf, Spells;
    WholeStorePlan(DBSIZE, x);
    assert View(x.before.data, x.now).Keys == set key | key in x.before.data && Find(x.before.data, key, x.now).Some?;
    assert |View(x.before.data, x.now)| == |View(x.before.data, x.now).Keys|;
  }

  lemma FlushAllReplies(x: Exchange)
    requires Asked("FLUSHALL", [], x)
    ensures x.after == Stock(map[], 0, x.before.expired) && x.reply == Status("OK")
  {
    hide PlanOf, Spells;
    WholeStorePlan(FLUSHALL, x);
  }

  /** The numbers of arguments a command takes. */
  predicate Takes(v: Verb, n: nat) {
    match v
    case PING => true
    case DBSIZE | FLUSHALL => n == 0
    case GET | EXISTS | TTL | PERSIST | TYPE | LPOP | RPOP | LLEN | HGETALL | HLEN | SMEMBERS | SCARD | INCR | DECR => n == 1
    case EXPIRE | PEXPIREAT | HGET | SISMEMBER | INCRBY | DECRBY | SETNX => n == 2
    case LRANGE | HSET => n == 3
    case DEL | MGET => n >= 1
    case LPUSH | RPUSH | HDEL | SADD | SREM => n >= 2
    case SET => n == 2 || n == 4
    case MSET => n >= 2 && n % 2 == 0
  }

  predicate Refuses(p: Plan) {
    p.Immediate? && p.reply.Error?
  }

  lemma StringArity(v: Verb, args: seq<Bytes>, now: Time)
    requires v.GET? || v.SET? || v.MSET? || v.MGET? || v.SETNX? || v.INCR? || v.DECR? || v.INCRBY? || v.DECRBY?
    ensures !Takes(v, |args|) ==> Refuses(StringPlan(v, args, now))
  {
    hide Text, ParseInt, UnitOf;
  }

  lemma KeyArity(v: Verb, args: seq<Bytes>, now: Time)
    requires v.DEL? || v.EXISTS? || v.EXPIRE? || v.PEXPIREAT? || v.TTL? || v.PERSIST? || v.TYPE?
    ensures !Takes(v, |args|) ==> Refuses(KeyPlan(v, args, now))
  {
    hide Text, ParseInt;
  }

  lemma ListArity(v: Verb, args: seq<Bytes>)
    requires v.LPUSH? || v.RPUSH? || v.LPOP? || v.RPOP? || v.LLEN? || v.LRANGE?
    ensures !Takes(v, |args|) ==> Refuses(ListPlan(v, args))
  {
    hide Text, ParseInt;
  }

  lemma HashArity(v: Verb, args: seq<Bytes>)
    requires v.HSET? || v.HGET? || v.HDEL? || v.HGETALL? || v.HLEN?
    ensures !Takes(v, |args|) ==> Refuses(HashPlan(v, args))
  {
    hide Text;
  }

  lemma SetArity(v: Verb, args: seq<Bytes>)
    requires v.SADD? || v.SREM? || v.SISMEMBER? || v.SMEMBERS? || v.SCARD?
    ensures !Takes(v, |args|) ==> Refuses(SetPlan(v, args))
  {
    hide Text;
  }

  lemma ArityChecked(v: Verb, args: seq<Bytes>, now: Time)
    requires !Takes(v, |args|)
    ensures Refuses(VerbPlan(v, args, now))
  {
    hide Text, StringPlan, KeyPlan, ListPlan, HashPlan, SetPlan;
    match v
    case PING | DBSIZE | FLUSHALL =>
    case GET | SET | MSET | MGET | SETNX | INCR | DECR | INCRBY | DECRBY => StringArity(v, args, now);
    case DEL | EXISTS | EXPIRE | PEXPIREAT | TTL | PERSIST | TYPE => KeyArity(v, args, now);
    case LPUSH | RPUSH | LPOP | RPOP | LLEN | LRANGE => ListArity(v, args);
    case HSET | HGET | HDEL | HGETALL | HLEN => HashArity(v, args);
    case SADD | SREM | SISMEMBER | SMEMBERS | SCARD => SetArity(v, args);
  }

  /** A command with another number of arguments gets an error and changes nothing, and so does one of no known name. */
  lemma WrongCallsRefused(v: Verb, x: Exchange)
    requires |x.ts| >= |x.cmd.args| && Dispatched(x.cmd, x.now, x.ts, x.before, x.after, x.reply)
    ensures Spells(x.cmd.name, NameOf(v)) && !Takes(v, |x.cmd.args|) ==> x.after == x.before && x.reply.Error?
    ensures (forall u: Verb :: !Spells(x.cmd.name, NameOf(u))) ==>
              x.after == x.before && x.reply == Error(Text("ERR comando desconocido: ") + x.cmd.name)
  {
    hide VerbPlan, NameOf, VerbNamed, Spells, Takes, Text;
    if Spells(x.cmd.name, NameOf(v)) && !Takes(v, |x.cmd.args|) {
      ArityChecked(v, x.cmd.args, x.now);
      AnsweredAtOnce(v, x);
    }
    if forall u: Verb :: !Spells(x.cmd.name, NameOf(u)) {
      if VerbOf(x.cmd).Some? {
        VerbSpelled(x.cmd, VerbOf(x.cmd).value);
      }
    }
  }

  /** An argument that is to be a number and is none gets an error, and nothing changes. */
  lemma NotNumberRefused(v: Verb, x: Exchange)
    requires |x.ts| >= |x.cmd.args| && Dispatched(x.cmd, x.now, x.ts, x.before, x.after, x.reply)
    requires Spells(x.cmd.name, NameOf(v)) && Takes(v, |x.cmd.args|)
    requires ((v.EXPIRE? || v.PEXPIREAT? || v.INCRBY? || v.DECRBY?) && ParseInt(x.cmd.args[1]).None?) ||
             (v.LRANGE? && (ParseInt(x.cmd.args[1]).None? || ParseInt(x.cmd.args[2]).None?))
    ensures x.after == x.before && x.reply.Error?
  {
    hide NameOf, Spells, Dispatched, Text, ParseInt;
    AnsweredAtOnce(v, x);
  }

  /** A text constant is itself, as far as its characters are bytes. */
  lemma TextIsItself(s: string)
    ensures |Text(s)| == |s|
    ensures forall i :: 0 <= i < |s| && s[i] as int < 256 ==> Text(s)[i] == s[i]
  {
  }

  lemma {:induction false} ListedOnce(s: set<Bytes>) returns (order: seq<Bytes>)
    ensures Lists(order, s)
  {
    order := [];
    if s != {} {
      var e :| e in s;
      var rest := ListedOnce(s - {e});
      order := rest + [e];
      assert Elements(order) == Elements(rest) + {e};
      assert forall i :: 0 <= i < |rest| ==> rest[i] in Elements(rest);
    }
  }

  lemma SomeAnswer(spec: Outcome) returns (o: Outcome)
    ensures Shows(spec, o)
  {
    hide Lists, Flattened, Elements;
    match spec
    case Fields(fields) =>
      var order := ListedOnce(fields.Keys);
      assert Elements(order) == fields.Keys by { ListsAll(order, fields.Keys); }
      o := Items(Flattened(order, fields));
    case Members(members) =>
      var order := ListedOnce(members);
      o := Items(order);
    case _ => o := spec;
  }

  lemma ListsAll(order: seq<Bytes>, s: set<Bytes>)
    requires Lists(order, s)
    ensures Elements(order) == s
  {
  }

  lemma {:induction false} SomeAnswers(specs: seq<Outcome>) returns (outs: seq<Outcome>)
    ensures AllShow(specs, outs)
    decreases |specs|
  {
    hide Shows;
    outs := [];
    if specs != [] {
      var n := |specs| - 1;
      var front := SomeAnswers(specs[..n]);
      var last := SomeAnswer(specs[n]);
      outs := front + [last];
    }
  }

  /** Every command, well formed or not, is answered on every store at any readings of the clock, and leaves one store. */
  lemma EveryCallAnswered(cmd: Command, now: Time, ts: seq<Time>, before: Stock) returns (x: Exchange)
    requires |ts| >= |cmd.args|
    ensures x.cmd == cmd && x.now == now && x.ts == ts && x.before == before
    ensures Dispatched(cmd, now, ts, before, x.after, x.reply)
    ensures forall after: Stock, reply: Reply :: Dispatched(cmd, now, ts, before, after, reply) ==> after == x.after
  {
    hide PlanOf, StepsRun, StepsAnswers, StepsReply, AllShow;
    PlansFit(cmd, now);
    match PlanOf(cmd, now)
    case Immediate(r) => x := Exchange(cmd, now, ts, before, before, r);
    case Steps(steps) =>
      var outs := SomeAnswers(StepsAnswers(before, steps, ts));
      AnswersMany(StepsAnswers(before, steps, ts), outs);
      x := Exchange(cmd, now, ts, before, StepsRun(before, steps, ts), StepsReply(VerbOf(cmd).value, outs));
    case CountKeys => x := Exchange(cmd, now, ts, before, before, Int(|View(before.data, now)|));
    case DropAll => x := Exchange(cmd, now, ts, before, Stock(map[], 0, before.expired), Status("OK"));
  }

  lemma AnswersMany(specs: seq<Outcome>, outs: seq<Outcome>)
    requires AllShow(specs, outs)
    ensures |specs| == |outs|
  {
  }
}
