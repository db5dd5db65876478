/** The dispatcher: a command's plan carried out on the store. */
module Dispatcher {
  import opened Accounting
  import opened ByteStrings
  import opened Clock
  import opened Commands
  import opened Keyspace
  import opened Numbers
  import opened Protocol
  import opened Steps
  import opened Stores
  import opened Values

  /** The handlers' loops over keys: each operation in turn, collecting its answer. */
  method RunSteps(store: Store, steps: seq<KeyOp>, ts: seq<Time>) returns (outs: seq<Outcome>)
    requires store.Valid() && |ts| >= |steps|
    requires forall i :: 0 <= i < |steps| ==> Issued(steps[i].op)
    modifies store, store.shards, store.cells
    ensures store.Valid() && fresh(store.cells - old(store.cells))
    ensures store.State() == StepsRun(old(store.State()), steps, ts)
    ensures AllShow(StepsAnswers(old(store.State()), steps, ts), outs)
  {
    hide StepStock, Answer, Shows, Store.Valid, Store.State;
    outs := [];
    ghost var start := store.State();
    for i := 0 to |steps|
      invariant store.Valid() && fresh(store.cells - old(store.cells))
      invariant store.State() == StepsRun(start, steps[..i], ts)
      invariant AllShow(StepsAnswers(start, steps[..i], ts), outs)
    {
      StepsMore(start, steps, ts, i);
      var o := store.Do(steps[i].key, steps[i].op, ts[i]);
      outs := outs + [o];
    }
    assert steps[..|steps|] == steps;
  }

  /** At least one step and no more than the arguments; pushes and adds carry a value, and increments are 64-bit numbers. */
  predicate Runnable(p: Plan, args: nat) {
    p.Steps? ==>
      1 <= |p.steps| <= args &&
      forall i :: 0 <= i < |p.steps| ==> Issued(p.steps[i].op)
  }

  lemma StringRunnable(v: Verb, args: seq<Bytes>, now: Time)
    requires v.GET? || v.SET? || v.MSET? || v.MGET? || v.SETNX? || v.INCR? || v.DECR? || v.INCRBY? || v.DECRBY?
    ensures Runnable(StringPlan(v, args, now), |args|)
  {
    hide Text, UnitOf, Wrap64;
  }

  lemma KeyRunnable(v: Verb, args: seq<Bytes>, now: Time)
    requires v.DEL? || v.EXISTS? || v.EXPIRE? || v.PEXPIREAT? || v.TTL? || v.PERSIST? || v.TYPE?
    ensures Runnable(KeyPlan(v, args, now), |args|)
  {
    hide Text, Wrap64;
  }

  lemma ListRunnable(v: Verb, args: seq<Bytes>)
    requires v.LPUSH? || v.RPUSH? || v.LPOP? || v.RPOP? || v.LLEN? || v.LRANGE?
    ensures Runnable(ListPlan(v, args), |args|)
  {
    hide Text;
  }

  lemma HashRunnable(v: Verb, args: seq<Bytes>)
    requires v.HSET? || v.HGET? || v.HDEL? || v.HGETALL? || v.HLEN?
    ensures Runnable(HashPlan(v, args), |args|)
  {
    hide Text;
  }

  lemma SetRunnable(v: Verb, args: seq<Bytes>)
    requires v.SADD? || v.SREM? || v.SISMEMBER? || v.SMEMBERS? || v.SCARD?
    ensures Runnable(SetPlan(v, args), |args|)
  {
    hide Text;
  }

  lemma PlansFit(cmd: Command, now: Time)
    ensures Runnable(PlanOf(cmd, now), |cmd.args|)
    ensures PlanOf(cmd, now).Steps? ==> VerbOf(cmd).Some?
  {
    hide StringPlan, KeyPlan, ListPlan, HashPlan, SetPlan, Text, VerbNamed, Runnable;
    var v := VerbOf(cmd);
    NotSteps(cmd);
    if v.Some? {
      match v.value
      case PING | DBSIZE | FLUSHALL =>
      case GET | SET | MSET | MGET | SETNX | INCR | DECR | INCRBY | DECRBY => StringRunnable(v.value, cmd.args, now);
      case DEL | EXISTS | EXPIRE | PEXPIREAT | TTL | PERSIST | TYPE => KeyRunnable(v.value, cmd.args, now);
      case LPUSH | RPUSH | LPOP | RPOP | LLEN | LRANGE => ListRunnable(v.value, cmd.args);
      case HSET | HGET | HDEL | HGETALL | HLEN => HashRunnable(v.value, cmd.args);
      case SADD | SREM | SISMEMBER | SMEMBERS | SCARD => SetRunnable(v.value, cmd.args);
    }
  }

  lemma NotSteps(cmd: Command)
    ensures forall p: Plan :: !p.Steps? ==> Runnable(p, |cmd.args|)
  {
  }

  /** What one dispatch makes of the store and replies, given its clock readings. */
  ghost predicate Dispatched(cmd: Command, now: Time, ts: seq<Time>, before: Stock, after: Stock, reply: Reply)
    requires |ts| >= |cmd.args|
  {
    PlansFit(cmd, now);
    match PlanOf(cmd, now)
    case Immediate(r) => after == before && reply == r
    case Steps(steps) =>
      after == StepsRun(before, steps, ts) &&
      exists outs :: AllShow(StepsAnswers(before, steps, ts), outs) && reply == StepsReply(VerbOf(cmd).value, outs)
    case CountKeys => after == before && reply == Int(|View(before.data, now)|)
    case DropAll => after == Stock(map[], 0, before.expired) && reply == Status("OK")
  }

  method Dispatch(store: Store, cmd: Command, now: Time, ts: seq<Time>) returns (reply: Reply)
    requires store.Valid() && |ts| >= |cmd.args|
    modifies store, store.shards, store.cells
    ensures store.Valid() && fresh(store.cells - old(store.cells))
    ensures Dispatched(cmd, now, ts, old(store.State()), store.State(), reply)
  {
    hide VerbPlan, VerbNamed, StepsRun, StepsAnswers, Store.Valid, Store.State, StepsReply;
    PlansFit(cmd, now);
    var plan := PlanOf(cmd, now);
    match plan
    case Immediate(r) => reply := r;
    case Steps(steps) =>
      var outs := RunSteps(store, steps, ts);
      reply := StepsReply(VerbOf(cmd).value, outs);
    case CountKeys =>
      var n := store.Len(now);
      reply := Int(n);
    case DropAll =>
      store.Flush();
      reply := Status("OK");
  }

  lemma {:induction false} StepsNonEmpty(s: Stock, steps: seq<KeyOp>, ts: seq<Time>)
    requires |ts| >= |steps| && NoEmptyValue(s.data) && forall i :: 0 <= i < |steps| ==> Issued(steps[i].op)
    ensures NoEmptyValue(StepsRun(s, steps, ts).data)
    decreases |steps|
  {
    hide StepDb, Issued, NoEmptyValue, Leak;
    if steps != [] {
      var n := |steps| - 1;
      StepsNonEmpty(s, steps[..n], ts);
      var before := StepsRun(s, steps[..n], ts);
      NonEmptyKept(before.data, steps[n].key, steps[n].op, ts[n]);
      StepIsDb(before, steps[n].key, steps[n].op, ts[n]);
    }
  }

  lemma StepIsDb(s: Stock, key: Bytes, op: Op, now: Time)
    ensures StepStock(s, key, op, now).data == StepDb(s.data, key, op, now)
  {
  }

  /** No command leaves an empty list, hash or set behind. */
  lemma DispatchedNonEmpty(cmd: Command, now: Time, ts: seq<Time>, before: Stock, after: Stock, reply: Reply)
    requires |ts| >= |cmd.args| && NoEmptyValue(before.data) && Dispatched(cmd, now, ts, before, after, reply)
    ensures NoEmptyValue(after.data)
  {
    hide PlanOf, StepsRun, StepsAnswers, StepsReply, Issued;
    PlansFit(cmd, now);
    if PlanOf(cmd, now).Steps? {
      StepsNonEmpty(before, PlanOf(cmd, now).steps, ts);
    }
  }
}
