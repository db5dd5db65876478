/**
 Replaying the append-only log. A live run interleaves the store operations of logged commands with reads, failed
 writes and expiry cycles; the replay runs the logged forms of the same commands later, on its own clock.
 */
module Replay {
  import opened ByteStrings
  import opened Clock
  import opened Commands
  import opened Keyspace
  import opened LogNormal
  import opened Protocol
  import opened Runs
  import opened Values

  datatype Prim = OnKey(key: Bytes, op: Op) | Drop

  datatype Act = Quiet(ev: Event) | Loud(prim: Prim, at: Time)

  function PrimsOf(plan: Plan): (ps: seq<Prim>) {
    match plan
    case Steps(steps) => seq(|steps|, i requires 0 <= i < |steps| => OnKey(steps[i].key, steps[i].op))
    case DropAll => [Drop]
    case _ => []
  }

  function DoPrim(db: Db, p: Prim, at: Time): Db {
    match p
    case OnKey(key, op) => StepDb(db, key, op, at)
    case Drop => map[]
  }

  function DoAct(db: Db, act: Act): Db {
    match act
    case Quiet(ev) => Physical(db, ev)
    case Loud(p, at) => DoPrim(db, p, at)
  }

  function When(act: Act): Time {
    if act.Quiet? then act.ev.at else act.at
  }

  function LiveRun(db: Db, acts: seq<Act>): Db
    decreases |acts|
  {
    if acts == [] then db else LiveRun(DoAct(db, acts[0]), acts[1..])
  }

  function LoudPrims(acts: seq<Act>): seq<Prim> {
    if acts == [] then []
    else (if acts[0].Loud? then [acts[0].prim] else []) + LoudPrims(acts[1..])
  }

  function ReplayRun(db: Db, prims: seq<Prim>, ts: seq<Time>): Db
    requires |ts| == |prims|
    decreases |prims|
  {
    if prims == [] then db else ReplayRun(DoPrim(db, prims[0], ts[0]), prims[1..], ts[1..])
  }

  /** What goes unlogged: expiry, reads, and writes that fail. */
  predicate Unlogged(db: Db, ev: Event) {
    ev.Sweep? || (ev.Do? && (ReadOnly(ev.op) || Failed(Answer(db, ev.key, ev.op, ev.at))))
  }

  predicate AllUnlogged(db: Db, acts: seq<Act>)
    decreases |acts|
  {
    acts == [] || ((acts[0].Quiet? ==> Unlogged(db, acts[0].ev)) && AllUnlogged(DoAct(db, acts[0]), acts[1..]))
  }

  /** A read or a failed write only deletes its key, and only if it has expired. */
  lemma QuietSweeps(db: Db, ev: Event)
    requires ev.Do? && Unlogged(db, ev)
    ensures Physical(db, ev) == Swept(db, {ev.key}, ev.at)
  {
    var live := Find(db, ev.key, ev.at);
    QuietKeeps(ev.op, live, ev.at);
    if live.None? {
      assert Physical(db, ev) == db - {ev.key};
    } else {
      assert Physical(db, ev) == db;
    }
  }

  lemma QuietKeeps(op: Op, live: Option<Record>, now: Time)
    requires ReadOnly(op) || Failed(Apply(op, live, now).1)
    ensures Apply(op, live, now).0 == live
  {
  }

  /** SET and DEL leave the same key whatever was there; any other operation depends on whether the key is live. */
  predicate Blind(op: Op) {
    op.SetTo? || op.Delete?
  }

  /**
   On a missing key these operations leave something other than nothing, or on a live one something that lasts: what
   they make of a key shows later whether they found it live.
   */
  predicate Telling(op: Op, now: Time) {
    op.SetNx? || op.IncrBy? || op.LPush? || op.RPush? || op.HSet? || op.SAdd? || op.Persist?
    || (op.ExpireAt? && (op.at == NEVER || now <= op.at))
  }

  /** The operation found its key live in the run, and its replay finds the deadline passed, and that shows. */
  predicate Outlived(l: Db, r: Db, p: Prim, at: Time, now: Time) {
    p.OnKey? && Telling(p.op, now) && Find(l, p.key, at).Some? && Find(r, p.key, now).None?
  }

  /** No operation of the log is replayed too late for its key. */
  predicate NoneOutlived(l: Db, r: Db, acts: seq<Act>, prims: seq<Prim>, ts: seq<Time>)
    requires |ts| == |prims| == |LoudPrims(acts)|
    decreases |acts|
  {
    if acts == [] then true
    else if acts[0].Quiet? then NoneOutlived(DoAct(l, acts[0]), r, acts[1..], prims, ts)
    else
      !Outlived(l, r, prims[0], acts[0].at, ts[0]) &&
      NoneOutlived(DoAct(l, acts[0]), DoPrim(r, prims[0], ts[0]), acts[1..], prims[1..], ts[1..])
  }

  predicate NearPrim(live: Prim, logged: Prim, slack: nat) {
    match live
    case OnKey(key, op) => logged.OnKey? && logged.key == key && NearOp(op, logged.op, slack)
    case Drop => logged.Drop?
  }

  predicate NearPrims(live: seq<Prim>, logged: seq<Prim>, slack: nat) {
    |live| == |logged| && forall i :: 0 <= i < |live| ==> NearPrim(live[i], logged[i], slack)
  }

  predicate NearRecord(live: Record, replayed: Record, slack: nat) {
    live.value == replayed.value && NearDeadline(live.expireAt, replayed.expireAt, slack)
  }

  /** From `now` on the replayed store shows of this key only what the live one shows, and stops at most `slack` early. */
  predicate ShadowsKey(l: Db, r: Db, key: Bytes, now: Time, slack: nat) {
    (Find(r, key, now).Some? ==> Slot(l, key).Some? && NearRecord(Slot(l, key).value, Slot(r, key).value, slack)) &&
    (Find(l, key, now + slack).Some? ==> Find(r, key, now).Some?)
  }

  ghost predicate Shadows(l: Db, r: Db, now: Time, slack: nat) {
    forall key :: ShadowsKey(l, r, key, now, slack)
  }

  lemma ShadowsLater(l: Db, r: Db, now: Time, later: Time, slack: nat)
    requires now <= later && Shadows(l, r, now, slack)
    ensures Shadows(l, r, later, slack)
  {
    forall key
      ensures ShadowsKey(l, r, key, later, slack)
    {
      assert ShadowsKey(l, r, key, now, slack);
    }
  }

  lemma SweptShadows(l: Db, r: Db, gone: set<Bytes>, at: Time, now: Time, slack: nat)
    requires at <= now && Shadows(l, r, now, slack)
    ensures Shadows(Swept(l, gone, at), r, now, slack)
  {
    forall key
      ensures ShadowsKey(Swept(l, gone, at), r, key, now, slack)
    {
      assert ShadowsKey(l, r, key, now, slack);
    }
  }

  predicate NearSlot(live: Option<Record>, replayed: Option<Record>, slack: nat) {
    if live.Some? then replayed.Some? && NearRecord(live.value, replayed.value, slack) else replayed.None?
  }

  lemma NearParts(l: Option<Record>, r: Option<Record>, slack: nat)
    requires NearSlot(l, r, slack)
    ensures AsList(l) == AsList(r) && AsHash(l) == AsHash(r) && AsSet(l) == AsSet(r)
    ensures NearDeadline(Deadline(l), Deadline(r), slack)
  {
  }

  lemma ListNear(op: Op, l: Option<Record>, r: Option<Record>, at: Time, now: Time, slack: nat)
    requires NearSlot(l, r, slack) && (op.LPush? || op.RPush? || op.LPop? || op.RPop?)
    ensures NearSlot(Apply(op, l, at).0, Apply(op, r, now).0, slack)
  {
    hide AsList, Deadline, NearDeadline, Reversed;
    NearParts(l, r, slack);
  }

  lemma HashNear(op: Op, l: Option<Record>, r: Option<Record>, at: Time, now: Time, slack: nat)
    requires NearSlot(l, r, slack) && (op.HSet? || op.HDel?)
    ensures NearSlot(Apply(op, l, at).0, Apply(op, r, now).0, slack)
  {
    hide AsHash, Deadline, NearDeadline, Elements;
    NearParts(l, r, slack);
  }

  lemma SetNear(op: Op, l: Option<Record>, r: Option<Record>, at: Time, now: Time, slack: nat)
    requires NearSlot(l, r, slack) && (op.SAdd? || op.SRem?)
    ensures NearSlot(Apply(op, l, at).0, Apply(op, r, now).0, slack)
  {
    hide AsSet, Deadline, NearDeadline, Elements;
    NearParts(l, r, slack);
  }

  lemma ScalarNear(op: Op, logged: Op, l: Option<Record>, r: Option<Record>, at: Time, now: Time, slack: nat)
    requires NearOp(op, logged, slack) && (Blind(op) || NearSlot(l, r, slack))
    requires op.SetTo? || op.SetNx? || op.IncrBy? || op.Delete? || op.ExpireAt? || op.Persist?
    ensures NearSlot(Apply(op, l, at).0, Apply(logged, r, now).0, slack)
  {
  }

  /** The same operation on nearly the same record leaves nearly the same record. */
  lemma ApplyNear(op: Op, logged: Op, l: Option<Record>, r: Option<Record>, at: Time, now: Time, slack: nat)
    requires NearOp(op, logged, slack)
    requires Blind(op) || NearSlot(l, r, slack)
    ensures NearSlot(Apply(op, l, at).0, Apply(logged, r, now).0, slack)
  {
    if ReadOnly(op) {
      QuietKeeps(op, l, at);
      QuietKeeps(op, r, now);
    } else if op.SetTo? || op.SetNx? || op.IncrBy? || op.Delete? || op.ExpireAt? || op.Persist? {
      ScalarNear(op, logged, l, r, at, now, slack);
    } else if op.LPush? || op.RPush? || op.LPop? || op.RPop? {
      ListNear(op, l, r, at, now, slack);
    } else if op.HSet? || op.HDel? {
      HashNear(op, l, r, at, now, slack);
    } else {
      SetNear(op, l, r, at, now, slack);
    }
  }

  lemma PlaceShadows(l: Db, r: Db, key: Bytes, a: Option<Record>, b: Option<Record>, now: Time, slack: nat)
    requires Shadows(l, r, now, slack) && NearSlot(a, b, slack)
    ensures Shadows(Place(l, key, a), Place(r, key, b), now, slack)
  {
    forall other
      ensures ShadowsKey(Place(l, key, a), Place(r, key, b), other, now, slack)
    {
      assert ShadowsKey(l, r, other, now, slack);
    }
  }

  lemma PlaceFaded(l: Db, r: Db, key: Bytes, a: Option<Record>, now: Time, slack: nat)
    requires Shadows(l, r, now, slack) && (a.Some? ==> Expired(a.value, now + slack))
    ensures Shadows(Place(l, key, a), Place(r, key, None), now, slack)
  {
    forall other
      ensures ShadowsKey(Place(l, key, a), Place(r, key, None), other, now, slack)
    {
      assert ShadowsKey(l, r, other, now, slack);
    }
  }

  /** On a key the replay finds expired, an operation that tells nothing leaves nothing, and in the run nothing that lasts. */
  lemma Fades(op: Op, logged: Op, live: Option<Record>, at: Time, now: Time, slack: nat)
    requires NearOp(op, logged, slack) && !Telling(logged, now) && !Blind(op)
    requires live.Some? && Expired(live.value, now + slack)
    ensures Apply(logged, None, now).0.None?
    ensures var after := Apply(op, live, at).0; after.Some? ==> Expired(after.value, now + slack)
  {
    if ReadOnly(op) {
      QuietKeeps(op, live, at);
      QuietKeeps(logged, None, now);
    }
  }

  /** What the replay finds live was live in the run. */
  lemma LiveInRun(l: Db, r: Db, key: Bytes, at: Time, now: Time, slack: nat)
    requires at <= now && Shadows(l, r, now, slack)
    ensures Find(r, key, now).Some? ==>
              Find(l, key, at).Some? && NearSlot(Find(l, key, at), Find(r, key, now), slack)
    ensures Find(r, key, now).None? && Slot(l, key).Some? ==> Expired(Slot(l, key).value, now + slack)
  {
    assert ShadowsKey(l, r, key, now, slack);
  }

  lemma ShadowsItself(db: Db, now: Time, slack: nat)
    ensures Shadows(db, db, now, slack)
  {
    forall key
      ensures ShadowsKey(db, db, key, now, slack)
    {
    }
  }

  lemma PrimShadows(l: Db, r: Db, p: Prim, logged: Prim, at: Time, now: Time, slack: nat)
    requires at <= now && Shadows(l, r, now, slack) && NearPrim(p, logged, slack)
    requires !Outlived(l, r, logged, at, now)
    ensures Shadows(DoPrim(l, p, at), DoPrim(r, logged, now), now, slack)
  {
    hide Shadows, NearOp, NearSlot, Telling, Apply, Expired;
    if p.OnKey? {
      LiveInRun(l, r, p.key, at, now, slack);
      var before, after := Find(l, p.key, at), Find(r, p.key, now);
      if before.Some? && after.None? && !Blind(p.op) {
        Fades(p.op, logged.op, before, at, now, slack);
        PlaceFaded(l, r, p.key, Apply(p.op, before, at).0, now, slack);
      } else {
        assert !Blind(p.op) ==> NearSlot(before, after, slack) by { NothingNear(slack); }
        ApplyNear(p.op, logged.op, before, after, at, now, slack);
        PlaceShadows(l, r, p.key, Apply(p.op, before, at).0, Apply(logged.op, after, now).0, now, slack);
      }
    } else {
      ShadowsItself(map[], now, slack);
    }
  }

  lemma NothingNear(slack: nat)
    ensures NearSlot(None, None, slack)
  {
  }

  predicate ActsBy(acts: seq<Act>, end: Time) {
    forall act :: act in acts ==> When(act) <= end
  }

  predicate ReplayedFrom(ts: seq<Time>, start: Time) {
    Nondecreasing(ts) && forall t :: t in ts ==> start <= t
  }

  function LastOf(ts: seq<Time>, start: Time): Time {
    if ts == [] then start else ts[|ts| - 1]
  }

  lemma RestReplayed(ts: seq<Time>, start: Time)
    requires ReplayedFrom(ts, start) && ts != []
    ensures start <= ts[0] && ReplayedFrom(ts[1..], ts[0])
  {
    assert ts[0] in ts;
    forall t | t in ts[1..]
      ensures ts[0] <= t
    {
      var i :| 0 <= i < |ts[1..]| && ts[1..][i] == t;
      assert ts[0] <= ts[i + 1];
    }
    assert forall i, j :: 0 <= i < j < |ts[1..]| ==> ts[1..][i] == ts[i + 1] <= ts[j + 1] == ts[1..][j];
  }

  lemma RestNear(live: seq<Prim>, logged: seq<Prim>, slack: nat)
    requires NearPrims(live, logged, slack) && live != []
    ensures NearPrim(live[0], logged[0], slack) && NearPrims(live[1..], logged[1..], slack)
  {
    forall i | 0 <= i < |live[1..]|
      ensures NearPrim(live[1..][i], logged[1..][i], slack)
    {
      assert NearPrim(live[i + 1], logged[i + 1], slack);
    }
  }

  lemma {:induction false} SimulatePrims(l: Db, r: Db, acts: seq<Act>, prims: seq<Prim>, ts: seq<Time>, now: Time, slack: nat)
    requires ActsBy(acts, now) && ReplayedFrom(ts, now) && AllUnlogged(l, acts)
    requires NearPrims(LoudPrims(acts), prims, slack) && |ts| == |prims|
    requires Shadows(l, r, now, slack)
    requires NoneOutlived(l, r, acts, prims, ts)
    ensures Shadows(LiveRun(l, acts), ReplayRun(r, prims, ts), LastOf(ts, now), slack)
    decreases |acts|
  {
    hide Shadows, NearPrim, StepDb, Blind, View, NearRecord, Find;
    if acts == [] {
      assert prims == [];
    } else {
      var act := acts[0];
      assert act in acts;
      assert forall a :: a in acts[1..] ==> a in acts;
      if act.Quiet? {
        if act.ev.Do? {
          QuietSweeps(l, act.ev);
          SweptShadows(l, r, {act.ev.key}, act.ev.at, now, slack);
        } else {
          SweptShadows(l, r, act.ev.gone, act.ev.at, now, slack);
        }
        SimulatePrims(DoAct(l, act), r, acts[1..], prims, ts, now, slack);
      } else {
        var t := ts[0];
        assert LoudPrims(acts)[0] == act.prim && LoudPrims(acts)[1..] == LoudPrims(acts[1..]);
        RestReplayed(ts, now);
        RestNear(LoudPrims(acts), prims, slack);
        ShadowsLater(l, r, now, t, slack);
        PrimShadows(l, r, act.prim, prims[0], act.at, t, slack);
        SimulatePrims(DoAct(l, act), DoPrim(r, prims[0], t), acts[1..], prims[1..], ts[1..], t, slack);
      }
    }
  }

  /** A logged command with the clock readings it was logged and handled at. */
  datatype Item = Item(cmd: Command, logged: Time, live: Time)

  predicate Loggable(item: Item, slack: nat) {
    AofCommand(item.cmd, item.logged).Logged? && FitsLog(item.cmd) &&
    Readable(item.logged) && Readable(item.live) && item.logged <= item.live && Skew(item.cmd, item.logged, item.live) <= slack
  }

  predicate AllLoggable(items: seq<Item>, slack: nat) {
    forall i :: 0 <= i < |items| ==> Loggable(items[i], slack)
  }

  function LivePrims(items: seq<Item>): seq<Prim> {
    if items == [] then [] else PrimsOf(PlanOf(items[0].cmd, items[0].live)) + LivePrims(items[1..])
  }

  predicate AllLogged(items: seq<Item>) {
    forall i :: 0 <= i < |items| ==> AofCommand(items[i].cmd, items[i].logged).Logged?
  }

  /** The commands in the log, in order. */
  function LogOf(items: seq<Item>): (log: seq<Command>)
    requires AllLogged(items)
    ensures |log| == |items|
  {
    seq(|items|, i requires 0 <= i < |items| => AofCommand(items[i].cmd, items[i].logged).cmd)
  }

  /** The operations a replay performs, planned at any instants: a logged command's plan reads no clock. */
  function ReplayPrims(log: seq<Command>, planned: seq<Time>): seq<Prim>
    requires |planned| == |log|
  {
    if log == [] then [] else PrimsOf(PlanOf(log[0], planned[0])) + ReplayPrims(log[1..], planned[1..])
  }

  lemma NearPlanPrims(live: Plan, logged: Plan, slack: nat)
    requires NearPlan(live, logged, slack)
    ensures NearPrims(PrimsOf(live), PrimsOf(logged), slack)
  {
  }

  lemma NearPrimsConcat(a: seq<Prim>, b: seq<Prim>, c: seq<Prim>, d: seq<Prim>, slack: nat)
    requires NearPrims(a, b, slack) && NearPrims(c, d, slack)
    ensures NearPrims(a + c, b + d, slack)
  {
  }

  lemma {:induction false} LogNear(items: seq<Item>, planned: seq<Time>, slack: nat)
    requires AllLoggable(items, slack) && |planned| == |items|
    ensures NearPrims(LivePrims(items), ReplayPrims(LogOf(items), planned), slack)
  {
    if items != [] {
      var item := items[0];
      LogNear(items[1..], planned[1..], slack);
      assert LogOf(items)[1..] == LogOf(items[1..]);
      LoggedPlanNear(item.cmd, item.logged, item.live, planned[0], slack);
      NearPlanPrims(PlanOf(item.cmd, item.live), PlanOf(LogOf(items)[0], planned[0]), slack);
      NearPrimsConcat(PrimsOf(PlanOf(item.cmd, item.live)), PrimsOf(PlanOf(LogOf(items)[0], planned[0])),
                      LivePrims(items[1..]), ReplayPrims(LogOf(items)[1..], planned[1..]), slack);
    }
  }

  /** A live run, its log, and the clock readings of a later replay of it. */
  predicate Logs(start: Db, acts: seq<Act>, items: seq<Item>, planned: seq<Time>, ts: seq<Time>, now: Time, slack: nat) {
    AllLoggable(items, slack) && LoudPrims(acts) == LivePrims(items) && AllUnlogged(start, acts) && ActsBy(acts, now) &&
    |planned| == |items| && |ts| == |ReplayPrims(LogOf(items), planned)| == |LoudPrims(acts)| && ReplayedFrom(ts, now)
  }

  /** Everything the simulation asks of a live run and of the replay of its log. */
  predicate Replayable(start: Db, acts: seq<Act>, items: seq<Item>, planned: seq<Time>, ts: seq<Time>, now: Time, slack: nat) {
    Logs(start, acts, items, planned, ts, now, slack) &&
    NoneOutlived(start, start, acts, ReplayPrims(LogOf(items), planned), ts)
  }

  /**
   Replay simulation. However the logged commands' operations were interleaved with reads, failed writes and expiry,
   replaying the log rebuilds the live store up to the rounding of deadlines.
   */
  lemma ReplaySimulation(start: Db, acts: seq<Act>, items: seq<Item>, planned: seq<Time>, ts: seq<Time>, now: Time, slack: nat)
    requires Replayable(start, acts, items, planned, ts, now, slack)
    ensures Shadows(LiveRun(start, acts), ReplayRun(start, ReplayPrims(LogOf(items), planned), ts), LastOf(ts, now), slack)
  {
    LogNear(items, planned, slack);
    ShadowsItself(start, now, slack);
    SimulatePrims(start, start, acts, ReplayPrims(LogOf(items), planned), ts, now, slack);
  }

  /** What shadowing means to a reader: nothing extra, no other value, and no key lost more than `slack` early. */
  lemma ShadowedViews(l: Db, r: Db, now: Time, slack: nat, u: Time)
    requires Shadows(l, r, now, slack) && now <= u
    ensures forall key :: key in View(r, u) ==>
              key in View(l, u) && NearRecord(View(l, u)[key], View(r, u)[key], slack)
    ensures View(l, u + slack).Keys <= View(r, u).Keys
    ensures slack == 0 ==> View(l, u) == View(r, u)
  {
    ShadowsLater(l, r, now, u, slack);
    forall key
      ensures key in View(r, u) ==> key in View(l, u) && NearRecord(View(l, u)[key], View(r, u)[key], slack)
      ensures key in View(l, u + slack) ==> key in View(r, u)
    {
      assert ShadowsKey(l, r, key, u, slack);
      FindInView(l, key, u);
      FindInView(r, key, u);
      FindInView(l, key, u + slack);
    }
  }

  /** With every clock reading on a whole millisecond, the replayed view is the live view from the last replay instant on. */
  lemma ExactReplay(start: Db, acts: seq<Act>, items: seq<Item>, planned: seq<Time>, ts: seq<Time>, now: Time, u: Time)
    requires Replayable(start, acts, items, planned, ts, now, 0) && LastOf(ts, now) <= u
    ensures View(LiveRun(start, acts), u) == View(ReplayRun(start, ReplayPrims(LogOf(items), planned), ts), u)
  {
    ReplaySimulation(start, acts, items, planned, ts, now, 0);
    ShadowedViews(LiveRun(start, acts), ReplayRun(start, ReplayPrims(LogOf(items), planned), ts), LastOf(ts, now), 0, u);
  }

  /**
   That no operation is outlived is needed: a key set with a deadline and then persisted stays in the live store for good, and
   a replay after that deadline loses it.
   */
  lemma PersistedKeyLost(key: Bytes, val: Bytes, deadline: Time, written: Time, persisted: Time, replayed: Time, u: Time)
    requires deadline != NEVER && written <= persisted <= deadline < replayed <= u
    ensures var first, second := OnKey(key, SetTo(val, deadline)), OnKey(key, Persist);
            View(LiveRun(map[], [Loud(first, written), Loud(second, persisted)]), u) == map[key := Record(StrV(val), NEVER)] &&
            View(ReplayRun(map[], [first, second], [replayed, replayed]), u) == map[]
  {
    var first, second := OnKey(key, SetTo(val, deadline)), OnKey(key, Persist);
    var acts, prims, ts := [Loud(first, written), Loud(second, persisted)], [first, second], [replayed, replayed];
    var one: Db := map[key := Record(StrV(val), deadline)];
    var two: Db := map[key := Record(StrV(val), NEVER)];
    assert DoAct(map[], acts[0]) == one && DoAct(one, acts[1]) == two;
    assert acts[1..] == [acts[1]] && acts[1..][1..] == [];
    assert LiveRun(one, acts[1..]) == LiveRun(two, []);
    assert DoPrim(map[], first, replayed) == one && DoPrim(one, second, replayed) == map[];
    assert prims[1..] == [second] && ts[1..] == [replayed] && prims[1..][1..] == [] && ts[1..][1..] == [];
    assert ReplayRun(one, prims[1..], ts[1..]) == ReplayRun(map[], [], []);
  }
}
