/** How the store's operations, one command after another, make up a live run and the replay of its log. */
module History {
  import opened Accounting
  import opened ByteStrings
  import opened Clock
  import opened Commands
  import opened Dispatcher
  import opened Keyspace
  import opened MemoryLimit
  import opened Protocol
  import opened Replay
  import opened Runs
  import opened Steps
  import opened Values

  /** The first readings of a clock. */
  function Firsts(clock: nat -> Time, n: nat): (ts: seq<Time>)
    ensures |ts| == n && forall i :: 0 <= i < n ==> ts[i] == clock(i)
  {
    seq(n, i requires 0 <= i => clock(i))
  }

  lemma {:induction false} ReplayRunConcat(db: Db, a: seq<Prim>, b: seq<Prim>, ta: seq<Time>, tb: seq<Time>)
    requires |ta| == |a| && |tb| == |b|
    ensures ReplayRun(db, a + b, ta + tb) == ReplayRun(ReplayRun(db, a, ta), b, tb)
    decreases |a|
  {
    hide DoPrim;
    if a == [] {
      assert a + b == b && ta + tb == tb;
    } else {
      assert (a + b)[1..] == a[1..] + b && (ta + tb)[1..] == ta[1..] + tb;
      ReplayRunConcat(DoPrim(db, a[0], ta[0]), a[1..], b, ta[1..], tb);
    }
  }

  lemma {:induction false} ReplayPrimsMore(log: seq<Command>, planned: seq<Time>, cmd: Command, now: Time)
    requires |planned| == |log|
    ensures ReplayPrims(log + [cmd], planned + [now]) == ReplayPrims(log, planned) + PrimsOf(PlanOf(cmd, now))
    decreases |log|
  {
    hide PlanOf, PrimsOf;
    var more, at := log + [cmd], planned + [now];
    if log == [] {
      assert more[1..] == [] && at[1..] == [];
      assert ReplayPrims(more[1..], at[1..]) == [];
      assert more[0] == cmd && at[0] == now;
    } else {
      assert more[1..] == log[1..] + [cmd] && at[1..] == planned[1..] + [now];
      ReplayPrimsMore(log[1..], planned[1..], cmd, now);
      Grouped(PrimsOf(PlanOf(log[0], planned[0])), ReplayPrims(log[1..], planned[1..]), PrimsOf(PlanOf(cmd, now)));
    }
  }

  lemma Grouped(a: seq<Prim>, b: seq<Prim>, c: seq<Prim>)
    ensures a + (b + c) == a + b + c
  {
  }

  lemma {:induction false} LivePrimsMore(items: seq<Item>, item: Item)
    ensures LivePrims(items + [item]) == LivePrims(items) + PrimsOf(PlanOf(item.cmd, item.live))
    decreases |items|
  {
    hide PlanOf, PrimsOf;
    var more := items + [item];
    if items == [] {
      assert more[1..] == [];
      assert LivePrims(more[1..]) == [] && more[0] == item;
    } else {
      assert more[1..] == items[1..] + [item];
      LivePrimsMore(items[1..], item);
      Grouped(PrimsOf(PlanOf(items[0].cmd, items[0].live)), LivePrims(items[1..]), PrimsOf(PlanOf(item.cmd, item.live)));
    }
  }

  /** One stretch of history after another. */
  lemma {:induction false} RunsOn(db: Db, a: seq<Act>, b: seq<Act>)
    ensures LiveRun(db, a + b) == LiveRun(LiveRun(db, a), b)
    ensures LoudPrims(a + b) == LoudPrims(a) + LoudPrims(b)
    ensures AllUnlogged(db, a + b) <==> AllUnlogged(db, a) && AllUnlogged(LiveRun(db, a), b)
    decreases |a|
  {
    hide DoAct, Unlogged;
    if a == [] {
      assert a + b == b;
    } else {
      assert (a + b)[1..] == a[1..] + b;
      RunsOn(DoAct(db, a[0]), a[1..], b);
      Grouped(if a[0].Loud? then [a[0].prim] else [], LoudPrims(a[1..]), LoudPrims(b));
    }
  }

  lemma OneAct(db: Db, act: Act)
    ensures LiveRun(db, [act]) == DoAct(db, act)
    ensures LoudPrims([act]) == if act.Loud? then [act.prim] else []
    ensures AllUnlogged(db, [act]) <==> (act.Quiet? ==> Unlogged(db, act.ev))
  {
    hide DoAct, Unlogged;
    assert [act][1..] == [];
    assert LiveRun(DoAct(db, act), [act][1..]) == DoAct(db, act);
    assert LoudPrims([act][1..]) == [];
    assert AllUnlogged(DoAct(db, act), [act][1..]);
  }

  /** Operations performed at given instants, logged or not. */
  function StepAct(step: KeyOp, at: Time, loud: bool): Act {
    if loud then Loud(OnKey(step.key, step.op), at) else Quiet(Do(step.key, step.op, at))
  }

  function StepActs(steps: seq<KeyOp>, ts: seq<Time>, loud: bool): (acts: seq<Act>)
    requires |ts| >= |steps|
    ensures |acts| == |steps|
  {
    seq(|steps|, i requires 0 <= i < |steps| => StepAct(steps[i], ts[i], loud))
  }

  function StepPrims(steps: seq<KeyOp>): (prims: seq<Prim>)
    ensures |prims| == |steps|
  {
    PrimsOf(Plan.Steps(steps))
  }

  /** The steps of a command, as history: they lead where the steps lead. */
  lemma {:induction false} StepsAsActs(s: Stock, steps: seq<KeyOp>, ts: seq<Time>, loud: bool)
    requires |ts| >= |steps|
    requires loud || forall i :: 0 <= i < |steps| ==> ReadOnly(steps[i].op)
    ensures LiveRun(s.data, StepActs(steps, ts, loud)) == StepsRun(s, steps, ts).data
    ensures LoudPrims(StepActs(steps, ts, loud)) == if loud then StepPrims(steps) else []
    ensures AllUnlogged(s.data, StepActs(steps, ts, loud))
    decreases |steps|
  {
    hide StepStock, StepDb, Answer, ReadOnly;
    if steps != [] {
      var n := |steps| - 1;
      var front, last := StepActs(steps[..n], ts, loud), StepAct(steps[n], ts[n], loud);
      var before := StepsRun(s, steps[..n], ts);
      assert StepActs(steps, ts, loud) == front + [last];
      StepsAsActs(s, steps[..n], ts, loud);
      RunsOn(s.data, front, [last]);
      OneAct(before.data, last);
      StepData(before, steps[n], ts[n], loud);
      assert StepPrims(steps) == StepPrims(steps[..n]) + [OnKey(steps[n].key, steps[n].op)];
    }
  }

  lemma StepData(s: Stock, step: KeyOp, at: Time, loud: bool)
    ensures DoAct(s.data, StepAct(step, at, loud)) == StepStock(s, step.key, step.op, at).data
  {
  }

  /** Operations performed in the replay are the history of the store they are replayed into. */
  function LoudActs(prims: seq<Prim>, ts: seq<Time>): (acts: seq<Act>)
    requires |ts| == |prims|
    ensures |acts| == |prims|
  {
    seq(|prims|, i requires 0 <= i < |prims| => Loud(prims[i], ts[i]))
  }

  lemma {:induction false} ReplayAsActs(db: Db, prims: seq<Prim>, ts: seq<Time>)
    requires |ts| == |prims|
    ensures LiveRun(db, LoudActs(prims, ts)) == ReplayRun(db, prims, ts)
    ensures LoudPrims(LoudActs(prims, ts)) == prims && AllUnlogged(db, LoudActs(prims, ts))
    decreases |prims|
  {
    hide DoPrim;
    if prims != [] {
      var acts := LoudActs(prims, ts);
      assert acts[1..] == LoudActs(prims[1..], ts[1..]);
      ReplayAsActs(DoPrim(db, prims[0], ts[0]), prims[1..], ts[1..]);
    }
  }

  /** A dispatched command is the operations of its plan, each at its reading of the clock. */
  lemma DispatchedRun(cmd: Command, now: Time, ts: seq<Time>, before: Stock, after: Stock, reply: Reply)
    requires |ts| > |cmd.args| && Dispatched(cmd, now, ts, before, after, reply)
    ensures var prims := PrimsOf(PlanOf(cmd, now));
            |prims| <= |ts| && after.data == ReplayRun(before.data, prims, ts[..|prims|])
  {
    hide PlanOf, StepsAnswers, StepsReply, AllShow;
    PlansFit(cmd, now);
    var plan := PlanOf(cmd, now);
    match plan
    case Steps(steps) =>
      var n := |steps|;
      StepsAsActs(before, steps, ts, true);
      ReplayAsActs(before.data, StepPrims(steps), ts[..n]);
      assert StepActs(steps, ts, true) == LoudActs(StepPrims(steps), ts[..n]);
    case DropAll =>
      assert PrimsOf(plan)[1..] == [] && ts[..1][1..] == [];
      assert ReplayRun(map[], PrimsOf(plan)[1..], ts[..1][1..]) == map[];
    case Immediate(_) =>
    case CountKeys =>
  }

  /** Reading sizes is reading: it logs nothing. */
  lemma {:induction false} MeasureAsActs(s: Stock, keys: seq<Bytes>, ts: seq<Time>)
    requires |ts| >= |keys|
    ensures MeasureRun(s, keys, ts) == StepsRun(s, Each(keys, Exists), ts)
    decreases |keys|
  {
    hide StepStock;
    if keys != [] {
      var n := |keys| - 1;
      MeasureAsActs(s, keys[..n], ts);
      assert Each(keys, Exists)[..n] == Each(keys[..n], Exists);
    }
  }
}
