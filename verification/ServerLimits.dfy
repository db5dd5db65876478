/** The memory limit on a whole server: what each of its commands does to the accounted memory. */
module ServerLimits {
  import opened Accounting
  import opened Aof
  import opened ByteStrings
  import opened Clock
  import opened Commands
  import opened Dispatcher
  import opened Footprint
  import opened Keyspace
  import opened LogNormal
  import opened MemoryLimit
  import opened Protocol
  import opened Servers
  import opened Steps

  /** A logged command leaves the store its estimate was made for. */
  lemma ReactedServes(cmd: Command, rd: Readings, limit: int, logs: bool, disk: Disk,
                      before: Stock, after: Stock, wrote: Bytes, r: Reaction)
    requires rd.Cover(cmd) && limit > 0 && AofCommand(cmd, rd.logged).Logged?
    requires Reacted(cmd, rd, limit, logs, disk, before, after, wrote, r)
    requires Estimable(before, cmd, rd.measured, rd.ops)
    ensures var sv := Write(cmd, rd.logged, rd.now, rd.measured, rd.ops);
            Proper(before, sv) && after == Serve(before, sv, limit)
  {
    hide AofCommand, PlanOf, StepsRun, MeasureRun, Exceeds, Estimable, Acknowledged, StepsAnswers, StepsReply, StepsOfWrite;
    if !Exceeds(before, cmd, rd.measured, limit) {
      WriteSteps(cmd, rd.logged, rd.now);
      PlansFit(cmd, rd.now);
      assert !PlanOf(cmd, rd.now).CountKeys? by { NoCounting(cmd, rd.logged, rd.now); }
    }
  }

  lemma NoCounting(cmd: Command, at: Time, now: Time)
    requires AofCommand(cmd, at).Logged?
    ensures !PlanOf(cmd, now).CountKeys?
  {
    hide PlanOf, AofCommand;
    WriteSteps(cmd, at, now);
  }

  lemma ReadBrings(key: Bytes, op: Op)
    requires ReadOnly(op)
    ensures Brought(key, op) == 0
  {
  }

  /** A command that is not logged never raises the accounted memory, nor lowers it below the truth. */
  lemma UnloggedFrees(cmd: Command, rd: Readings, before: Stock, after: Stock, reply: Reply)
    requires rd.Cover(cmd) && AofCommand(cmd, rd.logged).NotLogged? && Excess(before) >= 0
    requires Dispatched(cmd, rd.now, rd.ops, before, after, reply)
    ensures after.used <= before.used && Excess(after) >= 0
  {
    hide AofCommand, PlanOf, StepsRun, StepsAnswers, StepsReply, ReadOnly, Brought, Excess;
    UnloggedOnlyReads(cmd, rd.logged, rd.now);
    PlansFit(cmd, rd.now);
    var plan := PlanOf(cmd, rd.now);
    if plan.Steps? {
      forall i | 0 <= i < |plan.steps|
        ensures Brought(plan.steps[i].key, plan.steps[i].op) == 0
      {
        ReadBrings(plan.steps[i].key, plan.steps[i].op);
      }
      FreeRun(before, plan.steps, rd.ops);
      ExcessKept(before, plan.steps, rd.ops);
    }
  }

  /**
   The limit holds on the server itself: if its accounted memory is not above the limit before a command, it is not
   above it after, whatever the command and whatever becomes of its record.
   */
  lemma CommandKeepsLimit(cmd: Command, rd: Readings, limit: int, logs: bool, disk: Disk,
                          before: Stock, after: Stock, wrote: Bytes, r: Reaction)
    requires rd.Cover(cmd) && limit > 0 && Excess(before) >= 0
    requires Reacted(cmd, rd, limit, logs, disk, before, after, wrote, r)
    requires Estimable(before, cmd, rd.measured, rd.ops)
    ensures after.used <= (if before.used > limit then before.used else limit) && Excess(after) >= 0
  {
    hide AofCommand, Excess, Estimable, Serve, Proper, Dispatched, Refuses, Checked, Acknowledged;
    if AofCommand(cmd, rd.logged).Logged? {
      ReactedServes(cmd, rd, limit, logs, disk, before, after, wrote, r);
      var sv := Write(cmd, rd.logged, rd.now, rd.measured, rd.ops);
      ServeBounded(before, sv, limit);
      ServeExcess(before, sv, limit);
    } else if AofCommand(cmd, rd.logged).NotLogged? {
      UnloggedFrees(cmd, rd, before, after, r.reply);
    }
  }

  /** A SET is refused exactly when there is a limit, and the SET would raise the accounted memory and leave it above the limit. */
  lemma SetRefusedExactly(s: Stock, cmd: Command, rd: Readings, limit: int, at: Time, now: Time)
    requires rd.Cover(cmd) && VerbOf(cmd) == Some(SET) && |cmd.args| >= 2
    ensures var room := Checked(s, cmd, rd, limit);
            var grown := StepStock(room, cmd.args[0], SetTo(cmd.args[1], at), now).used;
            Refuses(s, cmd, rd, limit) <==> limit > 0 && grown > room.used && grown > limit
  {
    hide StepStock, VerbOf, Estimate, MeasureRun;
    if limit > 0 {
      SetEstimate(s, cmd, at, rd.measured, now);
    }
  }

  /** What would be a new key is refused exactly when there is a limit, and the new key would not fit under it. */
  lemma NewRefusedExactly(s: Stock, cmd: Command, rd: Readings, limit: int)
    requires rd.Cover(cmd) && |cmd.args| >= 2 && cmd.args[0] !in s.data
    ensures var brought := |cmd.args[0]| + |cmd.args[1]|;
            VerbOf(cmd) == Some(SETNX) ||
            (|cmd.args| == 2 && (VerbOf(cmd) == Some(LPUSH) || VerbOf(cmd) == Some(RPUSH) || VerbOf(cmd) == Some(SADD))) ==>
              (Refuses(s, cmd, rd, limit) <==> limit > 0 && brought > 0 && s.used + brought > limit)
    ensures var brought := |cmd.args[0]| + |cmd.args[1]| + if |cmd.args| == 3 then |cmd.args[2]| else 0;
            VerbOf(cmd) == Some(HSET) && |cmd.args| == 3 ==>
              (Refuses(s, cmd, rd, limit) <==> limit > 0 && brought > 0 && s.used + brought > limit)
  {
    hide StepStock, VerbOf, RawGrowth, SizesSum, Change;
    var ms := if |rd.measured| >= 1 then rd.measured else [NEVER];
    FreshEstimate(s, cmd, ms, NEVER);
    KeyBytes(s, cmd.args[0], cmd.args[1], if |cmd.args| == 3 then cmd.args[2] else cmd.args[1], NEVER, NEVER);
    KeyBytes(s, cmd.args[0], [], cmd.args[1], NEVER, NEVER);
    AbsentMeasured(s, cmd.args[0], ms);
    assert MeasureRun(s, [], rd.measured) == s;
    assert VerbOf(cmd) != Some(SETNX) && VerbOf(cmd) != Some(MSET) && VerbOf(cmd) != Some(SET) ==> Measured(cmd) == [];
  }

  lemma AbsentMeasured(s: Stock, key: Bytes, ms: seq<Time>)
    requires key !in s.data && |ms| >= 1
    ensures MeasureRun(s, [key], ms).used == s.used
  {
    OneMeasure(s, key, ms);
  }

  /** A refused command does nothing but look at its keys, and says why. */
  lemma RefusalSaid(cmd: Command, rd: Readings, limit: int, logs: bool, disk: Disk,
                    before: Stock, after: Stock, wrote: Bytes, r: Reaction)
    requires rd.Cover(cmd) && AofCommand(cmd, rd.logged).Logged? && Refuses(before, cmd, rd, limit)
    requires Reacted(cmd, rd, limit, logs, disk, before, after, wrote, r)
    ensures r == Answered(Error(Text("OOM command not allowed when used memory > maxmemory")))
    ensures wrote == [] && after.data.Keys <= before.data.Keys && after.used <= before.used
  {
    hide AofCommand, Refuses, MeasureRun;
    MeasureFrees(before, Measured(cmd), rd.measured);
  }

  lemma {:induction false} MeasureFrees(s: Stock, keys: seq<Bytes>, ts: seq<Time>)
    requires |ts| >= |keys|
    ensures MeasureRun(s, keys, ts).used <= s.used && MeasureRun(s, keys, ts).data.Keys <= s.data.Keys
    decreases |keys|
  {
    if keys != [] {
      var n := |keys| - 1;
      MeasureFrees(s, keys[..n], ts);
      TouchShrinks(MeasureRun(s, keys[..n], ts), keys[n], ts[n]);
      TouchKeeps(MeasureRun(s, keys[..n], ts), keys[n], ts[n]);
    }
  }

  lemma TouchKeeps(s: Stock, key: Bytes, now: Time)
    ensures StepStock(s, key, Exists, now).data.Keys <= s.data.Keys
  {
  }
}
