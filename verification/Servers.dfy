/**
 The server's write path: start-up from the log, the memory check, the dispatch and the append, under one mutex.
 Its history is kept as ghost state: every act on the store, and every command applied.
 */
module Servers {
  import opened Accounting
  import opened Aof
  import opened ByteStrings
  import opened Clock
  import opened Commands
  import opened Dispatcher
  import opened History
  import opened Keyspace
  import opened LogNormal
  import opened MemoryLimit
  import opened Numbers
  import opened Protocol
  import opened Replay
  import opened Resp
  import opened Runs
  import opened Sharding
  import opened Shards
  import opened Steps
  import opened Stores
  import opened Values
  import opened Wire

  const OOM: Bytes := Text("OOM command not allowed when used memory > maxmemory")

  /** A handler that panics drops its connection without a reply. */
  datatype Reaction = Panicked | Answered(reply: Reply)

  /** The clock readings one command takes: for the log, for each size it measures, for its deadline, for each operation. */
  datatype Readings = Readings(logged: Time, measured: seq<Time>, now: Time, ops: seq<Time>) {
    predicate Cover(cmd: Command) {
      |measured| > |cmd.args| && |ops| > |cmd.args|
    }

    function End(): Time {
      if ops == [] then now else ops[|ops| - 1]
    }

    predicate InTurn(from: Time) {
      from <= logged <= now && AllFrom(measured, logged) && AllBy(measured, now) && Nondecreasing(ops) && AllFrom(ops, now)
    }
  }

  predicate AllFrom(ts: seq<Time>, start: Time) {
    forall i :: 0 <= i < |ts| ==> start <= ts[i]
  }

  method ArgsSize(args: seq<Bytes>) returns (n: nat)
    ensures n == ListSize(args)
  {
    n := 0;
    for i := 0 to |args|
      invariant n == ListSize(args[..i])
    {
      assert args[..i + 1] == args[..i] + [args[i]];
      ListSizeConcat(args[..i], [args[i]]);
      n := n + |args[i]|;
    }
    assert args[..|args|] == args;
  }

  /** The free `estimatedGrowth`. */
  method RawEstimate(cmd: Command) returns (n: nat)
    ensures n == RawGrowth(cmd)
  {
    hide VerbOf, ListSize;
    match VerbOf(cmd)
    case Some(SET) | Some(SETNX) => n := if |cmd.args| < 2 then 0 else |cmd.args[0]| + |cmd.args[1]|;
    case Some(MSET) | Some(LPUSH) | Some(RPUSH) | Some(SADD) | Some(HSET) => n := ArgsSize(cmd.args);
    case Some(INCR) | Some(DECR) => n := if |cmd.args| != 1 then 0 else |cmd.args[0]| + 32;
    case Some(INCRBY) | Some(DECRBY) => n := if |cmd.args| != 2 then 0 else |cmd.args[0]| + 32;
    case _ => n := 0;
  }

  /** The present sizes of some keys, one `EntryMemory` after another. */
  method SizesOf(store: Store, keys: seq<Bytes>, ts: seq<Time>) returns (total: int)
    requires store.Valid() && |ts| >= |keys|
    modifies store.shards
    ensures store.Valid() && store.State() == MeasureRun(old(store.State()), keys, ts)
    ensures total == SizesSum(old(store.State()), keys, ts)
  {
    hide StepStock, Store.Valid, Store.State, OptSize;
    total := 0;
    ghost var start := store.State();
    for i := 0 to |keys|
      invariant store.Valid() && store.State() == MeasureRun(start, keys[..i], ts)
      invariant total == SizesSum(start, keys[..i], ts)
    {
      assert keys[..i + 1][..i] == keys[..i];
      var size := store.EntryMemory(keys[i], ts[i]);
      total := total + size;
    }
    assert keys[..|keys|] == keys;
  }

  /** The server's `estimatedGrowth`. */
  method EstimatedGrowth(store: Store, cmd: Command, ts: seq<Time>) returns (growth: int)
    requires store.Valid() && |ts| >= |Measured(cmd)|
    modifies store.shards
    ensures store.Valid() && store.State() == MeasureRun(old(store.State()), Measured(cmd), ts)
    ensures growth == Estimate(old(store.State()), cmd, ts)
  {
    hide Measured, RawGrowth, MeasureRun, SizesSum, Store.Valid, Store.State, VerbOf;
    growth := RawEstimate(cmd);
    var sizes := SizesOf(store, Measured(cmd), ts);
    match VerbOf(cmd)
    case Some(SET) | Some(MSET) => growth := growth - sizes;
    case Some(SETNX) => if |cmd.args| >= 2 && sizes > 0 { growth := 0; }
    case _ =>
  }

  method MemoryLimitExceeded(store: Store, cmd: Command, ts: seq<Time>, limit: int) returns (exceeded: bool)
    requires store.Valid() && |ts| >= |Measured(cmd)|
    modifies store.shards
    ensures store.Valid() && store.State() == MeasureRun(old(store.State()), Measured(cmd), ts)
    ensures exceeded == Exceeds(old(store.State()), cmd, ts, limit)
  {
    hide Measured, Estimate, MeasureRun, Store.Valid, Store.State;
    var growth := EstimatedGrowth(store, cmd, ts);
    if growth <= 0 { return false; }
    var used := store.ApproxMemory();
    exceeded := used + growth > limit;
  }

  /** The store a command runs on: as it is, or with its expired keys measured away when there is a limit. */
  ghost function Checked(s: Stock, cmd: Command, rd: Readings, limit: int): Stock
    requires rd.Cover(cmd)
  {
    if limit > 0 then MeasureRun(s, Measured(cmd), rd.measured) else s
  }

  ghost predicate Refuses(s: Stock, cmd: Command, rd: Readings, limit: int)
    requires rd.Cover(cmd)
  {
    limit > 0 && Exceeds(s, cmd, rd.measured, limit)
  }

  /** An error is passed on and not logged; any other reply waits for its record, and a failed append turns it into an error. */
  predicate Acknowledged(inner: Reply, record: Command, logs: bool, disk: Disk, wrote: Bytes, reply: Reply) {
    if inner.Error? || !logs then reply == inner && wrote == []
    else wrote == Surviving(EncodeCommand(record), disk) &&
         reply == if disk.Works? then inner else Error(Text("ERR AOF ") + disk.err)
  }

  /** What one command makes of the store, of the log and of its client. */
  ghost predicate Reacted(cmd: Command, rd: Readings, limit: int, logs: bool, disk: Disk,
                          before: Stock, after: Stock, wrote: Bytes, r: Reaction)
    requires rd.Cover(cmd)
  {
    match AofCommand(cmd, rd.logged)
    case Panics => r == Panicked && after == before && wrote == []
    case NotLogged => r.Answered? && Dispatched(cmd, rd.now, rd.ops, before, after, r.reply) && wrote == []
    case Logged(record) =>
      if Refuses(before, cmd, rd, limit) then
        r == Answered(Error(OOM)) && after == Checked(before, cmd, rd, limit) && wrote == []
      else
        r.Answered? &&
        exists inner :: Dispatched(cmd, rd.now, rd.ops, Checked(before, cmd, rd, limit), after, inner) &&
                        Acknowledged(inner, record, logs, disk, wrote, r.reply)
  }

  /** A logged command fails when the one operation it plans does; DEL and MSET never fail. */
  ghost predicate Fails(cmd: Command, rd: Readings, s: Stock)
    requires rd.Cover(cmd)
  {
    PlansFit(cmd, rd.now);
    var p := PlanOf(cmd, rd.now);
    p.Steps? && Failed(StepsAnswers(s, p.steps, rd.ops)[0])
  }

  /** The command has changed the store and is due a record. */
  ghost predicate Applied(cmd: Command, rd: Readings, limit: int, s: Stock)
    requires rd.Cover(cmd)
  {
    AofCommand(cmd, rd.logged).Logged? && !Refuses(s, cmd, rd, limit) && !Fails(cmd, rd, Checked(s, cmd, rd, limit))
  }

  /** The operations a command plans, as history. */
  ghost function PlanActs(cmd: Command, rd: Readings, loud: bool): seq<Act>
    requires rd.Cover(cmd)
  {
    PlansFit(cmd, rd.now);
    match PlanOf(cmd, rd.now)
    case Steps(steps) => StepActs(steps, rd.ops, loud)
    case DropAll => [Loud(Drop, rd.now)]
    case _ => []
  }

  ghost function CheckActs(cmd: Command, rd: Readings, limit: int): seq<Act>
    requires rd.Cover(cmd)
  {
    if limit > 0 then StepActs(Each(Measured(cmd), Exists), rd.measured, false) else []
  }

  /** What a command adds to the store's history. */
  ghost function ActsOf(cmd: Command, rd: Readings, limit: int, s: Stock): seq<Act>
    requires rd.Cover(cmd)
  {
    match AofCommand(cmd, rd.logged)
    case Panics => []
    case NotLogged => PlanActs(cmd, rd, false)
    case Logged(_) =>
      CheckActs(cmd, rd, limit) +
      if Refuses(s, cmd, rd, limit) then [] else PlanActs(cmd, rd, Applied(cmd, rd, limit, s))
  }

  predicate Several(v: Verb) {
    v.DEL? || v.MSET?
  }

  /** A logged command is one step, or steps that cannot fail. */
  predicate StepsOfWrite(v: Verb, p: Plan) {
    !p.CountKeys? && (p.Steps? ==> if Several(v) then forall i :: 0 <= i < |p.steps| ==> Blind(p.steps[i].op) else |p.steps| == 1)
  }

  lemma StringSteps(v: Verb, args: seq<Bytes>, now: Time)
    requires v.SET? || v.MSET? || v.SETNX? || v.INCR? || v.DECR? || v.INCRBY? || v.DECRBY?
    ensures StepsOfWrite(v, StringPlan(v, args, now))
  {
    hide Text, UnitOf, Wrap64, ParseInt;
  }

  lemma KeySteps(v: Verb, args: seq<Bytes>, now: Time)
    requires v.DEL? || v.EXPIRE? || v.PEXPIREAT? || v.PERSIST?
    ensures StepsOfWrite(v, KeyPlan(v, args, now))
  {
    hide Text, Wrap64, ParseInt;
  }

  lemma CollectionSteps(v: Verb, args: seq<Bytes>, now: Time)
    requires v.LPUSH? || v.RPUSH? || v.LPOP? || v.RPOP? || v.HSET? || v.HDEL? || v.SADD? || v.SREM?
    ensures StepsOfWrite(v, VerbPlan(v, args, now))
  {
    hide Text, ParseInt, StringPlan, KeyPlan;
  }

  lemma WriteSteps(cmd: Command, at: Time, now: Time)
    requires AofCommand(cmd, at).Logged?
    ensures VerbOf(cmd).Some? && !VerbOf(cmd).value.MGET? && !PlanOf(cmd, now).Immediate?
    ensures StepsOfWrite(VerbOf(cmd).value, PlanOf(cmd, now))
  {
    hide StringPlan, KeyPlan, ListPlan, HashPlan, SetPlan, LogVerb, StepsOfWrite, VerbNamed;
    LoggedExactly(cmd, at, now);
    var v := VerbOf(cmd).value;
    if v.SET? || v.MSET? || v.SETNX? || v.INCR? || v.DECR? || v.INCRBY? || v.DECRBY? {
      StringSteps(v, cmd.args, now);
    } else if v.DEL? || v.EXPIRE? || v.PEXPIREAT? || v.PERSIST? {
      KeySteps(v, cmd.args, now);
    } else if v.FLUSHALL? {
      NotSteps(cmd);
      FlushPlan(cmd.args, now);
    } else {
      CollectionSteps(v, cmd.args, now);
    }
  }

  lemma FlushPlan(args: seq<Bytes>, now: Time)
    ensures StepsOfWrite(FLUSHALL, VerbPlan(FLUSHALL, args, now))
  {
  }

  lemma BlindAnswers(s: Stock, key: Bytes, op: Op, now: Time)
    requires Blind(op)
    ensures !Failed(Answer(s.data, key, op, now))
  {
  }

  lemma {:induction false} FirstAnswer(s: Stock, steps: seq<KeyOp>, ts: seq<Time>)
    requires steps != [] && |ts| >= |steps|
    ensures StepsAnswers(s, steps, ts)[0] == Answer(s.data, steps[0].key, steps[0].op, ts[0])
    decreases |steps|
  {
    hide Answer, StepStock;
    var n := |steps| - 1;
    if n > 0 {
      FirstAnswer(s, steps[..n], ts);
    } else {
      assert steps[..n] == [];
    }
  }

  /** A single outcome renders as an error exactly when the operation failed. */
  lemma RenderedError(v: Verb, spec: Outcome, actual: Outcome)
    requires !v.MGET? && Shows(spec, actual)
    ensures Render(v, actual).Error? <==> Failed(spec)
  {
    hide ListedAs, Text, TtlSeconds;
  }

  /** The reply to a logged command is an error exactly when its operation failed. */
  lemma ErrorMeansFailed(cmd: Command, rd: Readings, s: Stock, after: Stock, reply: Reply)
    requires rd.Cover(cmd) && AofCommand(cmd, rd.logged).Logged?
    requires Dispatched(cmd, rd.now, rd.ops, s, after, reply)
    ensures reply.Error? <==> Fails(cmd, rd, s)
  {
    hide AofCommand, VerbOf, PlanOf, Render, Shows, StepsAnswers, StepsRun, Failed;
    PlansFit(cmd, rd.now);
    WriteSteps(cmd, rd.logged, rd.now);
    var v, plan := VerbOf(cmd).value, PlanOf(cmd, rd.now);
    if plan.Steps? {
      var steps := plan.steps;
      var specs := StepsAnswers(s, steps, rd.ops);
      var outs :| AllShow(specs, outs) && reply == StepsReply(v, outs);
      FirstAnswer(s, steps, rd.ops);
      if Several(v) {
        BlindAnswers(s, steps[0].key, steps[0].op, rd.ops[0]);
      } else {
        RenderedError(v, specs[0], outs[0]);
      }
    }
  }

  /** These acts lead from one state to the other, and log these operations. */
  ghost predicate Leads(before: Db, acts: seq<Act>, after: Db, prims: seq<Prim>) {
    LiveRun(before, acts) == after && LoudPrims(acts) == prims && AllUnlogged(before, acts)
  }

  lemma LeadsOn(a: Db, first: seq<Act>, b: Db, p: seq<Prim>, second: seq<Act>, c: Db, q: seq<Prim>)
    requires Leads(a, first, b, p) && Leads(b, second, c, q)
    ensures Leads(a, first + second, c, p + q)
  {
    RunsOn(a, first, second);
  }

  lemma ReadHistory(cmd: Command, rd: Readings, s: Stock, after: Stock, reply: Reply)
    requires rd.Cover(cmd) && AofCommand(cmd, rd.logged).NotLogged?
    requires Dispatched(cmd, rd.now, rd.ops, s, after, reply)
    ensures Leads(s.data, PlanActs(cmd, rd, false), after.data, [])
  {
    hide AofCommand, PlanOf, StepsRun, ReadOnly, StepsAnswers, StepsReply;
    PlansFit(cmd, rd.now);
    UnloggedOnlyReads(cmd, rd.logged, rd.now);
    var plan := PlanOf(cmd, rd.now);
    if plan.Steps? {
      StepsAsActs(s, plan.steps, rd.ops, false);
    }
  }

  lemma WriteHistory(cmd: Command, rd: Readings, s: Stock, after: Stock, reply: Reply)
    requires rd.Cover(cmd) && AofCommand(cmd, rd.logged).Logged?
    requires Dispatched(cmd, rd.now, rd.ops, s, after, reply)
    ensures Leads(s.data, PlanActs(cmd, rd, true), after.data, PrimsOf(PlanOf(cmd, rd.now)))
  {
    hide AofCommand, PlanOf, StepsRun, StepsAnswers, StepsReply, VerbOf;
    PlansFit(cmd, rd.now);
    WriteSteps(cmd, rd.logged, rd.now);
    var plan := PlanOf(cmd, rd.now);
    if plan.Steps? {
      StepsAsActs(s, plan.steps, rd.ops, true);
    } else {
      OneAct(s.data, Loud(Drop, rd.now));
    }
  }

  lemma FailedHistory(cmd: Command, rd: Readings, s: Stock, after: Stock, reply: Reply)
    requires rd.Cover(cmd) && AofCommand(cmd, rd.logged).Logged? && Fails(cmd, rd, s)
    requires Dispatched(cmd, rd.now, rd.ops, s, after, reply)
    ensures Leads(s.data, PlanActs(cmd, rd, false), after.data, [])
  {
    hide AofCommand, PlanOf, StepsReply, VerbOf, StepDb, Answer, Failed, Blind;
    PlansFit(cmd, rd.now);
    WriteSteps(cmd, rd.logged, rd.now);
    var steps := PlanOf(cmd, rd.now).steps;
    FirstAnswer(s, steps, rd.ops);
    if Several(VerbOf(cmd).value) {
      BlindAnswers(s, steps[0].key, steps[0].op, rd.ops[0]);
    } else {
      var act := StepAct(steps[0], rd.ops[0], false);
      assert StepActs(steps, rd.ops, false) == [act];
      OneAct(s.data, act);
      StepData(s, steps[0], rd.ops[0], false);
      OneStep(s, steps[0].key, steps[0].op, rd.ops);
      assert steps == [KeyOp(steps[0].key, steps[0].op)];
    }
  }

  /**
   Log completeness. A command's part of the history is quiet unless a record of it was due, and the record's bytes
   are what it adds to the file: nothing that changes the view goes unlogged, and nothing else is logged.
   */
  lemma ReactedHistory(cmd: Command, rd: Readings, limit: int, logs: bool, disk: Disk,
                       before: Stock, after: Stock, wrote: Bytes, r: Reaction)
    requires rd.Cover(cmd) && Reacted(cmd, rd, limit, logs, disk, before, after, wrote, r)
    ensures Leads(before.data, ActsOf(cmd, rd, limit, before), after.data,
                  if Applied(cmd, rd, limit, before) then PrimsOf(PlanOf(cmd, rd.now)) else [])
    ensures wrote == if logs && Applied(cmd, rd, limit, before)
                     then Surviving(EncodeCommand(AofCommand(cmd, rd.logged).cmd), disk) else []
  {
    hide AofCommand, PlanOf, Dispatched, Leads, PlanActs, CheckActs, Fails, Refuses, EncodeCommand, Text;
    var decision := AofCommand(cmd, rd.logged);
    if decision.Panics? {
      NoHistory(before.data);
    } else if decision.NotLogged? {
      ReadHistory(cmd, rd, before, after, r.reply);
    } else {
      var mid := Checked(before, cmd, rd, limit);
      CheckLeads(cmd, rd, limit, before);
      if Refuses(before, cmd, rd, limit) {
        assert CheckActs(cmd, rd, limit) + [] == CheckActs(cmd, rd, limit);
      } else {
        var reply :| Dispatched(cmd, rd.now, rd.ops, mid, after, reply) &&
                     Acknowledged(reply, decision.cmd, logs, disk, wrote, r.reply);
        ErrorMeansFailed(cmd, rd, mid, after, reply);
        if Fails(cmd, rd, mid) {
          FailedHistory(cmd, rd, mid, after, reply);
          LeadsOn(before.data, CheckActs(cmd, rd, limit), mid.data, [], PlanActs(cmd, rd, false), after.data, []);
        } else {
          WriteHistory(cmd, rd, mid, after, reply);
          var prims := PrimsOf(PlanOf(cmd, rd.now));
          LeadsOn(before.data, CheckActs(cmd, rd, limit), mid.data, [], PlanActs(cmd, rd, true), after.data, prims);
          assert [] + prims == prims;
        }
      }
    }
  }

  lemma NoHistory(db: Db)
    ensures Leads(db, [], db, [])
  {
  }

  lemma CheckLeads(cmd: Command, rd: Readings, limit: int, s: Stock)
    requires rd.Cover(cmd)
    ensures Leads(s.data, CheckActs(cmd, rd, limit), Checked(s, cmd, rd, limit).data, [])
  {
    hide StepsRun, MeasureRun, Measured;
    if limit > 0 {
      MeasureAsActs(s, Measured(cmd), rd.measured);
      StepsAsActs(s, Each(Measured(cmd), Exists), rd.measured, false);
    }
  }

  /** Quiet history changes no view, from its last instant on. */
  lemma {:induction false} QuietHistory(db: Db, acts: seq<Act>, end: Time)
    requires AllUnlogged(db, acts) && LoudPrims(acts) == [] && ActsBy(acts, end)
    ensures SameView(LiveRun(db, acts), db, end)
    decreases |acts|
  {
    hide Physical, View, StepDb, Answer, ReadOnly, Failed;
    if acts != [] {
      var act := acts[0];
      assert act in acts && act.Quiet?;
      var gone := if act.ev.Do? then {act.ev.key} else act.ev.gone;
      QuietEvent(db, act.ev);
      SweepKeepsView(db, gone, act.ev.at);
      SameViewLater(DoAct(db, act), db, act.ev.at, end);
      assert forall a :: a in acts[1..] ==> a in acts;
      QuietHistory(DoAct(db, act), acts[1..], end);
    }
  }

  lemma QuietEvent(db: Db, ev: Event)
    requires Unlogged(db, ev)
    ensures Physical(db, ev) == Swept(db, if ev.Do? then {ev.key} else ev.gone, ev.at)
  {
    hide StepDb, Answer;
    if ev.Do? {
      QuietSweeps(db, ev);
    }
  }

  lemma StepActsBy(steps: seq<KeyOp>, ts: seq<Time>, loud: bool, end: Time)
    requires |ts| >= |steps| && AllBy(ts, end)
    ensures ActsBy(StepActs(steps, ts, loud), end)
  {
  }

  lemma ActsInTurn(cmd: Command, rd: Readings, limit: int, s: Stock, from: Time)
    requires rd.Cover(cmd) && rd.InTurn(from)
    ensures ActsBy(ActsOf(cmd, rd, limit, s), rd.End()) && from <= rd.logged <= rd.now <= rd.End()
  {
    hide AofCommand, PlanOf, Applied, Refuses, StepActs, Measured;
    var end := rd.End();
    assert rd.ops[|rd.ops| - 1] == end;
    assert AllBy(rd.ops, end) && AllBy(rd.measured, end);
    PlansFit(cmd, rd.now);
    if PlanOf(cmd, rd.now).Steps? {
      StepActsBy(PlanOf(cmd, rd.now).steps, rd.ops, true, end);
      StepActsBy(PlanOf(cmd, rd.now).steps, rd.ops, false, end);
    }
    StepActsBy(Each(Measured(cmd), Exists), rd.measured, false, end);
  }

  /** The history accounts for the store, and the commands applied account for the history. */
  ghost predicate Faithful(db: Db, acts: seq<Act>, items: seq<Item>) {
    Leads(map[], acts, db, LivePrims(items)) && AllLogged(items)
  }

  lemma FaithfulOn(db: Db, acts: seq<Act>, items: seq<Item>, more: seq<Act>, after: Db, applied: bool, item: Item)
    requires Faithful(db, acts, items)
    requires Leads(db, more, after, if applied then PrimsOf(PlanOf(item.cmd, item.live)) else [])
    requires applied ==> AofCommand(item.cmd, item.logged).Logged?
    ensures Faithful(after, acts + more, if applied then items + [item] else items)
  {
    hide Leads, AofCommand, PlanOf;
    var prims := PrimsOf(PlanOf(item.cmd, item.live));
    LeadsOn(map[], acts, db, LivePrims(items), more, after, if applied then prims else []);
    LivePrimsMore(items, item);
    assert LivePrims(items) + [] == LivePrims(items);
  }

  lemma LogMore(items: seq<Item>, item: Item)
    requires AllLogged(items) && AofCommand(item.cmd, item.logged).Logged?
    ensures EncodeLog(LogOf(items + [item])) ==
            EncodeLog(LogOf(items)) + EncodeCommand(AofCommand(item.cmd, item.logged).cmd)
  {
    hide AofCommand, EncodeCommand;
    var cmd := AofCommand(item.cmd, item.logged).cmd;
    assert LogOf(items + [item]) == LogOf(items) + [cmd];
    assert (LogOf(items) + [cmd])[..|items|] == LogOf(items);
  }

  lemma MutatedReacts(cmd: Command, rd: Readings, limit: int, logs: bool, disk: Disk,
                      before: Stock, mid: Stock, after: Stock, inner: Reply, wrote: Bytes, reply: Reply)
    requires rd.Cover(cmd) && AofCommand(cmd, rd.logged).Logged? && !Refuses(before, cmd, rd, limit)
    requires mid == Checked(before, cmd, rd, limit) && Dispatched(cmd, rd.now, rd.ops, mid, after, inner)
    requires Acknowledged(inner, AofCommand(cmd, rd.logged).cmd, logs, disk, wrote, reply)
    ensures Reacted(cmd, rd, limit, logs, disk, before, after, wrote, Answered(reply))
  {
    hide AofCommand, Dispatched, Acknowledged, Refuses, Checked;
  }

  lemma FileMore(db: Db, acts: seq<Act>, items: seq<Item>, item: Item, disk: Disk, applied: bool)
    requires Faithful(db, acts, items) && (applied ==> AofCommand(item.cmd, item.logged).Logged?)
    ensures applied && disk.Works? ==>
              EncodeLog(LogOf(items + [item])) ==
                EncodeLog(LogOf(items)) + Surviving(EncodeCommand(AofCommand(item.cmd, item.logged).cmd), disk)
    ensures EncodeLog(LogOf(items)) + [] == EncodeLog(LogOf(items))
  {
    if applied {
      LogMore(items, item);
    }
  }

  lemma RecordedMore(db: Db, acts: seq<Act>, items: seq<Item>, item: Item, applied: bool)
    requires Faithful(db, acts, items) && (applied ==> AofCommand(item.cmd, item.logged).Logged?)
    ensures AllRecorded(LogOf(items)) && applied && WithinLimits([item.cmd.name] + item.cmd.args) ==>
              AllRecorded(LogOf(items + [item]))
  {
    hide AofCommand, Recorded, WithinLimits;
    if AllRecorded(LogOf(items)) && applied && WithinLimits([item.cmd.name] + item.cmd.args) {
      ReadsItsOwnLog(item.cmd, item.logged);
      assert LogOf(items + [item]) == LogOf(items) + [AofCommand(item.cmd, item.logged).cmd];
    }
  }

  lemma MeasuredNonEmpty(s: Stock, cmd: Command, rd: Readings, limit: int)
    requires rd.Cover(cmd) && NoEmptyValue(s.data)
    ensures NoEmptyValue(Checked(s, cmd, rd, limit).data)
  {
    hide NoEmptyValue, MeasureRun, StepsRun, Measured;
    if limit > 0 {
      MeasureAsActs(s, Measured(cmd), rd.measured);
      StepsNonEmpty(s, Each(Measured(cmd), Exists), rd.measured);
    }
  }

  /** No reachable store of a server holds an empty list, hash or set. */
  lemma ReactedNonEmpty(cmd: Command, rd: Readings, limit: int, logs: bool, disk: Disk,
                        before: Stock, after: Stock, wrote: Bytes, r: Reaction)
    requires rd.Cover(cmd) && Reacted(cmd, rd, limit, logs, disk, before, after, wrote, r) && NoEmptyValue(before.data)
    ensures NoEmptyValue(after.data)
  {
    hide AofCommand, Dispatched, NoEmptyValue, Acknowledged, Refuses, Checked;
    MeasuredNonEmpty(before, cmd, rd, limit);
    if AofCommand(cmd, rd.logged).NotLogged? {
      DispatchedNonEmpty(cmd, rd.now, rd.ops, before, after, r.reply);
    } else if AofCommand(cmd, rd.logged).Logged? && !Refuses(before, cmd, rd, limit) {
      var mid := Checked(before, cmd, rd, limit);
      var inner :| Dispatched(cmd, rd.now, rd.ops, mid, after, inner) &&
                   Acknowledged(inner, AofCommand(cmd, rd.logged).cmd, logs, disk, wrote, r.reply);
      DispatchedNonEmpty(cmd, rd.now, rd.ops, mid, after, inner);
    }
  }

  lemma AppliedIsLogged(cmd: Command, rd: Readings, limit: int, s: Stock)
    requires rd.Cover(cmd)
    ensures Applied(cmd, rd, limit, s) ==> AofCommand(cmd, rd.logged).Logged?
  {
  }

  lemma QuietLeads(db: Db, acts: seq<Act>, after: Db, end: Time)
    requires Leads(db, acts, after, []) && ActsBy(acts, end)
    ensures SameView(after, db, end)
  {
    QuietHistory(db, acts, end);
  }

  lemma OneAfterAnother(a: seq<Act>, b: seq<Act>, mid: Time, end: Time)
    requires ActsBy(a, mid) && ActsBy(b, end) && mid <= end
    ensures ActsBy(a + b, end)
  {
  }

  /** The store the replay of some commands leads to, planned and performed at the readings of two clocks. */
  ghost function Replayed(db: Db, log: seq<Command>, planned: nat -> Time, ticks: nat -> Time): Db {
    var prims := ReplayPrims(log, Firsts(planned, |log|));
    ReplayRun(db, prims, Firsts(ticks, |prims|))
  }

  ghost function PrimCount(log: seq<Command>, planned: nat -> Time): nat {
    |ReplayPrims(log, Firsts(planned, |log|))|
  }

  lemma ReplayedMore(db: Db, log: seq<Command>, cmd: Command, planned: nat -> Time, ticks: nat -> Time,
                     ts: seq<Time>, before: Stock, after: Stock, reply: Reply)
    requires before.data == Replayed(db, log, planned, ticks)
    requires var done := PrimCount(log, planned);
             ts == seq(|cmd.args| + 1, (i: nat) => ticks(done + i))
    requires Dispatched(cmd, planned(|log|), ts, before, after, reply)
    ensures after.data == Replayed(db, log + [cmd], planned, ticks)
    ensures PrimCount(log + [cmd], planned) == PrimCount(log, planned) + |PrimsOf(PlanOf(cmd, planned(|log|)))|
  {
    hide PlanOf, PrimsOf, Dispatched;
    var n, now := |log|, planned(|log|);
    var prims, more := ReplayPrims(log, Firsts(planned, n)), PrimsOf(PlanOf(cmd, now));
    assert Firsts(planned, n + 1) == Firsts(planned, n) + [now];
    ReplayPrimsMore(log, Firsts(planned, n), cmd, now);
    DispatchedRun(cmd, now, ts, before, after, reply);
    assert Firsts(ticks, |prims + more|) == Firsts(ticks, |prims|) + ts[..|more|];
    ReplayRunConcat(db, prims, more, Firsts(ticks, |prims|), ts[..|more|]);
  }

  lemma NothingReplayed(db: Db, planned: nat -> Time, ticks: nat -> Time)
    ensures Replayed(db, [], planned, ticks) == db && PrimCount([], planned) == 0
  {
  }

  /** `ReplayAOF` with `replayAOFCommand`: parse, check, dispatch, until the reader gives out. */
  method ReplayAOF(reader: Reader, store: Store, planned: nat -> Time, ticks: nat -> Time)
    returns (ghost applied: seq<Command>, verdict: Verdict)
    requires store.Valid()
    modifies reader, store, store.shards, store.cells
    ensures store.Valid() && fresh(store.cells - old(store.cells))
    ensures Drained(applied, verdict) == ReplayLog(old(reader.unread))
    ensures store.State().data == Replayed(old(store.State()).data, applied, planned, ticks)
    ensures NoEmptyValue(old(store.State()).data) ==> NoEmptyValue(store.State().data)
  {
    hide Store.Valid, Store.State, Replayed, PrimCount, Dispatched, ParseCommand, PlanOf, PrimsOf, ReplayLog, Judged, NoEmptyValue;
    ghost var start, whole := store.State().data, ReplayLog(reader.unread);
    var read, done := 0, 0;
    applied := [];
    AfterAfter([], [], whole);
    NothingReplayed(start, planned, ticks);
    while true
      invariant store.Valid() && fresh(store.cells - old(store.cells))
      invariant whole == After(applied, ReplayLog(reader.unread))
      invariant store.State().data == Replayed(start, applied, planned, ticks)
      invariant NoEmptyValue(start) ==> NoEmptyValue(store.State().data)
      invariant read == |applied| && done == PrimCount(applied, planned)
      decreases |reader.unread|
    {
      ReplayStep(reader.unread);
      var r := Parse(reader);
      if r.Failure? {
        return applied, if r.fault.Malformed? then Corrupt else Clean;
      }
      var cmd := r.value;
      if !Judged(cmd).Clean? {
        return applied, Judged(cmd);
      }
      var ts := seq(|cmd.args| + 1, (i: nat) => ticks(done + i));
      ghost var before := store.State();
      var reply := Dispatch(store, cmd, planned(read), ts);
      ReplayedMore(start, applied, cmd, planned, ticks, ts, before, store.State(), reply);
      if NoEmptyValue(start) {
        DispatchedNonEmpty(cmd, planned(read), ts, before, store.State(), reply);
      }
      AfterAfter(applied, [cmd], ReplayLog(reader.unread));
      done := done + |PrimsOf(PlanOf(cmd, planned(read)))|;
      read := read + 1;
      applied := applied + [cmd];
    }
  }

  /** Commands taken from a log are in their logged form already. */
  function ItemsAt(log: seq<Command>, planned: seq<Time>): (items: seq<Item>)
    requires |planned| == |log|
    ensures |items| == |log|
  {
    seq(|log|, i requires 0 <= i < |log| => Item(log[i], planned[i], planned[i]))
  }

  lemma {:induction false} ItemsPrims(log: seq<Command>, planned: seq<Time>)
    requires |planned| == |log|
    ensures LivePrims(ItemsAt(log, planned)) == ReplayPrims(log, planned)
  {
    hide PlanOf, PrimsOf;
    if log != [] {
      ItemsPrims(log[1..], planned[1..]);
      assert ItemsAt(log, planned)[1..] == ItemsAt(log[1..], planned[1..]);
    }
  }

  /** What the replay applies could have been logged, at any instant. */
  lemma {:induction false} ReplayedLogged(s: Bytes, planned: seq<Time>)
    requires |planned| == |ReplayLog(s).items|
    ensures AllLogged(ItemsAt(ReplayLog(s).items, planned))
    decreases |s|
  {
    hide AofCommand, ParseCommand;
    ReplayStep(s);
    var p := ParseCommand(s);
    if p.Ok? && Judged(p.value).Clean? {
      var log := ReplayLog(s).items;
      assert log == [p.value] + ReplayLog(p.rest).items;
      assert log[1..] == ReplayLog(p.rest).items;
      ReplayedLogged(p.rest, planned[1..]);
      LoggedAnyTime(p.value, 0, planned[0]);
      forall i | 0 <= i < |log|
        ensures AofCommand(log[i], planned[i]).Logged?
      {
        if i > 0 {
          var item := ItemsAt(log[1..], planned[1..])[i - 1];
          assert item.cmd == log[i] && item.logged == planned[i];
        }
      }
    }
  }

  lemma LoggedAnyTime(cmd: Command, at: Time, later: Time)
    requires AofCommand(cmd, at).Logged?
    ensures AofCommand(cmd, later).Logged?
  {
    hide AofCommand, PlanOf;
    LoggedExactly(cmd, at, 0);
    LoggedExactly(cmd, later, 0);
  }

  ghost function BootItems(bytes: Bytes, planned: nat -> Time): (items: seq<Item>)
    ensures AllLogged(items)
  {
    var log := ReplayLog(bytes).items;
    ReplayedLogged(bytes, Firsts(planned, |log|));
    ItemsAt(log, Firsts(planned, |log|))
  }

  ghost function BootActs(bytes: Bytes, planned: nat -> Time, ticks: nat -> Time): seq<Act> {
    var log := ReplayLog(bytes).items;
    var prims := ReplayPrims(log, Firsts(planned, |log|));
    LoudActs(prims, Firsts(ticks, |prims|))
  }

  ghost function BootDb(bytes: Bytes, planned: nat -> Time, ticks: nat -> Time): Db {
    Replayed(map[], ReplayLog(bytes).items, planned, ticks)
  }

  lemma BootFaithful(bytes: Bytes, planned: nat -> Time, ticks: nat -> Time, now: Time)
    requires forall i: nat :: ticks(i) <= now
    ensures Faithful(BootDb(bytes, planned, ticks), BootActs(bytes, planned, ticks), BootItems(bytes, planned))
    ensures ActsBy(BootActs(bytes, planned, ticks), now)
  {
    var log := ReplayLog(bytes).items;
    var prims := ReplayPrims(log, Firsts(planned, |log|));
    ItemsPrims(log, Firsts(planned, |log|));
    ReplayAsActs(map[], prims, Firsts(ticks, |prims|));
  }

  /** A log of whole records written by a server is replayed whole, and the file is then the log of what was replayed. */
  lemma WholeLog(cmds: seq<Command>, planned: nat -> Time)
    requires AllRecorded(cmds) && forall i :: 0 <= i < |cmds| ==> Normal(cmds[i])
    ensures ReplayLog(EncodeLog(cmds)) == Drained(cmds, Clean)
    ensures LogOf(BootItems(EncodeLog(cmds), planned)) == cmds
  {
    var n := |EncodeLog(cmds)|;
    TornLog(cmds, n);
    assert EncodeLog(cmds)[..n] == EncodeLog(cmds);
    var j := Whole(EncodeCommand, cmds, n);
    AllWhole(cmds);
    assert cmds[..j] == cmds;
    forall i | 0 <= i < |cmds|
      ensures LogOf(BootItems(EncodeLog(cmds), planned))[i] == cmds[i]
    {
      assert Normal(cmds[i]);
      Idempotent(cmds[i], 0, planned(i));
    }
  }

  lemma AllWhole(cmds: seq<Command>)
    ensures Whole(EncodeCommand, cmds, |EncodeLog(cmds)|) == |cmds|
  {
  }

  lemma FewShards()
    ensures 256 <= Pow2(62)
  {
    Pow2Monotone(8, 62);
    assert Pow2(8) == 256;
  }

  /** `New` with an append-only file: an empty store, the replay, and the file opened for append as it is. */
  method Boot(bytes: Bytes, hash: Bytes -> uint32, maxMemory: int, planned: nat -> Time, ticks: nat -> Time, ghost now: Time)
    returns (s: Server?)
    requires forall i: nat :: ticks(i) <= now
    ensures s == null <==> ReplayLog(bytes).verdict != Clean
    ensures s != null ==>
              s.Valid() && fresh(s) && s.aof != null && s.aof.file == bytes && s.maxMemory == maxMemory &&
              s.store.State().data == BootDb(bytes, planned, ticks) &&
              s.acts == BootActs(bytes, planned, ticks) && s.items == BootItems(bytes, planned) && s.clock == now &&
              s.intact == (bytes == EncodeLog(LogOf(s.items))) && s.bounded == AllRecorded(LogOf(s.items))
  {
    hide Store.Valid, Store.State, Replayed, ReplayLog, Faithful, EncodeLog, LogOf, BootActs, BootItems, LeastPow2, Pow2, IsPow2,
         ActsBy, AllLogged;
    FewShards();
    var store := new Store(256, hash);
    var reader := new Reader(bytes);
    var verdict;
    ghost var applied;
    applied, verdict := ReplayAOF(reader, store, planned, ticks);
    if verdict != Clean { return null; }
    var aof := new AppendOnlyFile(bytes);
    BootFaithful(bytes, planned, ticks, now);
    ghost var items := BootItems(bytes, planned);
    s := new Server(store, aof, maxMemory, BootActs(bytes, planned, ticks), items, now, bytes == EncodeLog(LogOf(items)));
  }

  class Server {
    const store: Store
    const aof: AppendOnlyFile?
    /** In bytes; zero or less for no limit. */
    const maxMemory: int

    /** Everything that has happened to the store, and the logged commands that made it happen. */
    ghost var acts: seq<Act>
    ghost var items: seq<Item>
    /** The last reading of the clock. */
    ghost var clock: Time
    /** No append has failed. */
    ghost var intact: bool
    /** Every command applied was within the limits the parser sets for arrays. */
    ghost var bounded: bool

    ghost predicate Valid()
      reads this, store, store.shards, store.cells, aof
    {
      store.Valid() && NoEmptyValue(store.State().data) && Faithful(store.State().data, acts, items) && ActsBy(acts, clock) &&
      (bounded ==> AllRecorded(LogOf(items))) &&
      (aof != null && intact ==> aof.file == EncodeLog(LogOf(items)))
    }

    constructor (store: Store, aof: AppendOnlyFile?, maxMemory: int,
                 ghost acts: seq<Act>, ghost items: seq<Item>, ghost clock: Time, ghost intact: bool)
      requires store.Valid() && NoEmptyValue(store.State().data)
      requires Faithful(store.State().data, acts, items) && ActsBy(acts, clock)
      requires aof != null && intact ==> aof.file == EncodeLog(LogOf(items))
      ensures Valid() && this.intact == intact
      ensures this.store == store && this.aof == aof && this.maxMemory == maxMemory
      ensures this.acts == acts && this.items == items && this.clock == clock && this.bounded == AllRecorded(LogOf(items))
    {
      this.store, this.aof, this.maxMemory := store, aof, maxMemory;
      this.acts, this.items, this.clock, this.intact := acts, items, clock, intact;
      bounded := AllRecorded(LogOf(items));
    }

    /** `dispatchMutatingLocked` */
    method DispatchMutating(cmd: Command, record: Command, rd: Readings, disk: Disk)
      returns (reply: Reply, ghost inner: Reply, ghost wrote: Bytes)
      requires store.Valid() && rd.Cover(cmd)
      modifies store, store.shards, store.cells, aof
      ensures store.Valid() && fresh(store.cells - old(store.cells))
      ensures Dispatched(cmd, rd.now, rd.ops, old(store.State()), store.State(), inner)
      ensures aof != null ==> aof.file == old(aof.file) + wrote
      ensures Acknowledged(inner, record, aof != null, disk, wrote, reply)
    {
      hide Store.Valid, Store.State, Dispatched, Surviving, EncodeCommand;
      reply := Dispatch(store, cmd, rd.now, rd.ops);
      inner, wrote := reply, [];
      if reply.Error? { return; }
      if aof != null {
        wrote := Surviving(EncodeCommand(record), disk);
        var err := aof.Append(record, disk);
        if err.Some? { reply := Error(Text("ERR AOF ") + err.value); }
      }
    }

    /** `dispatchWithAOF` */
    method React(cmd: Command, rd: Readings, disk: Disk) returns (r: Reaction, ghost wrote: Bytes)
      requires store.Valid() && rd.Cover(cmd)
      modifies store, store.shards, store.cells, aof
      ensures store.Valid() && fresh(store.cells - old(store.cells))
      ensures Reacted(cmd, rd, maxMemory, aof != null, disk, old(store.State()), store.State(), wrote, r)
      ensures aof != null ==> aof.file == old(aof.file) + wrote
    {
      hide Store.Valid, Store.State, Dispatched, Acknowledged, AofCommand, Measured, Exceeds, MeasureRun;
      ghost var before := store.State();
      wrote := [];
      var decision := AofCommand(cmd, rd.logged);
      if decision.Panics? { return Panicked, wrote; }
      if decision.NotLogged? {
        var reply := Dispatch(store, cmd, rd.now, rd.ops);
        return Answered(reply), wrote;
      }
      if maxMemory > 0 {
        SameEstimate(store.State(), cmd, rd);
        var exceeded := MemoryLimitExceeded(store, decision.cmd, rd.measured, maxMemory);
        if exceeded { return Answered(Error(OOM)), wrote; }
      }
      ghost var mid := store.State();
      var reply;
      ghost var inner;
      reply, inner, wrote := DispatchMutating(cmd, decision.cmd, rd, disk);
      r := Answered(reply);
      MutatedReacts(cmd, rd, maxMemory, aof != null, disk, before, mid, store.State(), inner, wrote, reply);
    }

    /** One command, start to end, and what it adds to the history. */
    method DispatchWithAOF(cmd: Command, rd: Readings, disk: Disk) returns (r: Reaction, ghost wrote: Bytes)
      requires Valid() && rd.Cover(cmd) && rd.InTurn(clock)
      modifies this, store, store.shards, store.cells, aof
      ensures Valid() && fresh(store.cells - old(store.cells))
      ensures Reacted(cmd, rd, maxMemory, aof != null, disk, old(store.State()), store.State(), wrote, r)
      ensures aof != null ==> aof.file == old(aof.file) + wrote
      ensures acts == old(acts) + ActsOf(cmd, rd, maxMemory, old(store.State()))
      ensures items == if Applied(cmd, rd, maxMemory, old(store.State())) then old(items) + [Item(cmd, rd.logged, rd.now)] else old(items)
      ensures items == old(items) ==> SameView(store.State().data, old(store.State()).data, clock)
      ensures clock == rd.End()
      ensures intact == (old(intact) && (Applied(cmd, rd, maxMemory, old(store.State())) ==> disk.Works?))
      ensures bounded == (old(bounded) && (Applied(cmd, rd, maxMemory, old(store.State())) ==> WithinLimits([cmd.name] + cmd.args)))
    {
      hide Store.Valid, Store.State, Reacted, ActsOf, Applied, EncodeLog, LogOf, EncodeCommand, AofCommand, PlanOf, Faithful,
           Leads, View, Surviving, NoEmptyValue, AllRecorded, WithinLimits;
      ghost var before := store.State();
      ghost var item := Item(cmd, rd.logged, rd.now);
      ghost var applied := Applied(cmd, rd, maxMemory, before);
      ghost var more := ActsOf(cmd, rd, maxMemory, before);
      r, wrote := React(cmd, rd, disk);
      ReactedHistory(cmd, rd, maxMemory, aof != null, disk, before, store.State(), wrote, r);
      AppliedIsLogged(cmd, rd, maxMemory, before);
      FaithfulOn(before.data, acts, items, more, store.State().data, applied, item);
      ActsInTurn(cmd, rd, maxMemory, before, clock);
      ReactedNonEmpty(cmd, rd, maxMemory, aof != null, disk, before, store.State(), wrote, r);
      FileMore(before.data, acts, items, item, disk, applied);
      RecordedMore(before.data, acts, items, item, applied);
      if !applied {
        QuietLeads(before.data, more, store.State().data, rd.End());
      }
      OneAfterAnother(acts, more, clock, rd.End());
      acts := acts + more;
      items := if applied then items + [item] else items;
      clock := rd.End();
      intact := intact && (applied ==> disk.Works?);
      bounded := bounded && (applied ==> WithinLimits([cmd.name] + cmd.args));
    }

    /** One turn of the expiry loop. */
    method ExpireCycle(ticks: seq<Time>)
      requires Valid() && |ticks| == |store.shards| && Nondecreasing(ticks) && AllFrom(ticks, clock)
      modifies this, store.shards
      ensures Valid() && items == old(items) && intact == old(intact) && bounded == old(bounded) && clock == ticks[|ticks| - 1]
      ensures SameView(store.State().data, old(store.State()).data, clock)
    {
      hide Store.State, Union, Sampled, Faithful, EncodeLog, LogOf, Leads, View, Without, Swept;
      ghost var before := store.State();
      ghost var swept := store.ActiveExpireCycle(ticks);
      ghost var gone := Union(swept);
      store.SomeShard();
      ghost var end := ticks[|ticks| - 1];
      ghost var act := Quiet(Sweep(gone, end));
      CycleLeads(before, gone, end);
      FaithfulOn(before.data, acts, items, [act], store.State().data, false, Item(Command([], []), 0, 0));
      QuietLeads(before.data, [act], store.State().data, end);
      OneAfterAnother(acts, [act], clock, end);
      acts := acts + [act];
      clock := end;
    }
  }

  lemma CycleLeads(s: Stock, gone: set<Bytes>, end: Time)
    requires gone <= s.data.Keys && forall key :: key in gone ==> Expired(s.data[key], end)
    ensures Leads(s.data, [Quiet(Sweep(gone, end))], Without(s, gone).data, []) && ActsBy([Quiet(Sweep(gone, end))], end)
    ensures NoEmptyValue(s.data) ==> NoEmptyValue(Without(s, gone).data)
  {
    hide DbSize;
    SweepIsWithout(s, gone, end);
    OneAct(s.data, Quiet(Sweep(gone, end)));
  }

  /** The logged form of a command is estimated as the command itself. */
  lemma SameEstimate(s: Stock, cmd: Command, rd: Readings)
    requires rd.Cover(cmd) && AofCommand(cmd, rd.logged).Logged?
    ensures var record := AofCommand(cmd, rd.logged).cmd;
            Measured(record) == Measured(cmd) &&
            forall limit: int :: Exceeds(s, record, rd.measured, limit) == Exceeds(s, cmd, rd.measured, limit)
  {
    EstimatedAsLogged(cmd, rd.logged);
  }
}