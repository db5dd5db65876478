/**
 Whole commands against a store that never shows an expired key. The ideal store is one map; every expired key is
 dropped before each operation, and nothing else expires keys.
 */
module Transparency {
  import opened Accounting
  import opened ByteStrings
  import opened Clock
  import opened Commands
  import opened Dispatcher
  import opened Keyspace
  import opened Protocol
  import opened Runs
  import opened Steps
  import opened Values

  /** The ideal store after some operations, and its answers. */
  function IdealSteps(db: Db, steps: seq<KeyOp>, ts: seq<Time>): Db
    requires |ts| >= |steps|
    decreases |steps|
  {
    if steps == [] then db
    else
      var n := |steps| - 1;
      StepDb(View(IdealSteps(db, steps[..n], ts), ts[n]), steps[n].key, steps[n].op, ts[n])
  }

  function IdealStepsAnswers(db: Db, steps: seq<KeyOp>, ts: seq<Time>): (os: seq<Outcome>)
    requires |ts| >= |steps|
    ensures |os| == |steps|
    decreases |steps|
  {
    if steps == [] then []
    else
      var n := |steps| - 1;
      IdealStepsAnswers(db, steps[..n], ts) +
      [Answer(View(IdealSteps(db, steps[..n], ts), ts[n]), steps[n].key, steps[n].op, ts[n])]
  }

  /** What a command makes of the ideal store. */
  ghost function IdealAfter(cmd: Command, now: Time, ts: seq<Time>, db: Db): Db
    requires |ts| >= |cmd.args|
  {
    PlansFit(cmd, now);
    match PlanOf(cmd, now)
    case Steps(steps) => IdealSteps(db, steps, ts)
    case DropAll => map[]
    case _ => db
  }

  /** A reply the ideal store may give. */
  ghost predicate IdealReply(cmd: Command, now: Time, ts: seq<Time>, db: Db, reply: Reply)
    requires |ts| >= |cmd.args|
  {
    PlansFit(cmd, now);
    match PlanOf(cmd, now)
    case Immediate(r) => reply == r
    case Steps(steps) => exists outs :: AllShow(IdealStepsAnswers(db, steps, ts), outs) && reply == StepsReply(VerbOf(cmd).value, outs)
    case CountKeys => reply == Int(|View(db, now)|)
    case DropAll => reply == Status("OK")
  }

  /** What a command makes of the store. */
  ghost function After(cmd: Command, now: Time, ts: seq<Time>, s: Stock): Stock
    requires |ts| >= |cmd.args|
  {
    PlansFit(cmd, now);
    match PlanOf(cmd, now)
    case Steps(steps) => StepsRun(s, steps, ts)
    case DropAll => Stock(map[], 0, s.expired)
    case _ => s
  }

  predicate InTurn(ts: seq<Time>, from: Time, end: Time) {
    from <= end && Nondecreasing(ts) && forall i :: 0 <= i < |ts| ==> from <= ts[i] <= end
  }

  lemma InTurnAt(ts: seq<Time>, from: Time, end: Time, n: nat)
    requires InTurn(ts, from, end) && n < |ts|
    ensures InTurn(ts[..n], from, ts[n]) && from <= ts[n] <= end
  {
  }

  lemma {:induction false} StepsReadSome(s: Stock, steps: seq<KeyOp>, ts: seq<Time>, n: nat)
    requires |steps| <= n <= |ts|
    ensures StepsRun(s, steps, ts[..n]) == StepsRun(s, steps, ts)
    ensures StepsAnswers(s, steps, ts[..n]) == StepsAnswers(s, steps, ts)
    decreases |steps|
  {
    hide StepStock, Answer;
    if steps != [] {
      StepsReadSome(s, steps[..|steps| - 1], ts, n);
    }
  }

  lemma {:induction false} IdealReadsSome(db: Db, steps: seq<KeyOp>, ts: seq<Time>, n: nat)
    requires |steps| <= n <= |ts|
    ensures IdealSteps(db, steps, ts[..n]) == IdealSteps(db, steps, ts)
    ensures IdealStepsAnswers(db, steps, ts[..n]) == IdealStepsAnswers(db, steps, ts)
    decreases |steps|
  {
    hide StepDb, Answer, View;
    if steps != [] {
      IdealReadsSome(db, steps[..|steps| - 1], ts, n);
    }
  }

  lemma StepTransparent(s: Stock, db: Db, key: Bytes, op: Op, now: Time)
    requires SameView(s.data, db, now)
    ensures Answer(s.data, key, op, now) == Answer(View(db, now), key, op, now)
    ensures SameView(StepStock(s, key, op, now).data, StepDb(View(db, now), key, op, now), now)
  {
    hide Apply, Leak;
    ViewOfView(db, now);
    StepSameView(s.data, View(db, now), key, op, now);
    StepIsDb(s, key, op, now);
  }

  /** Operations in turn: the answers are the ideal store's, and so is the view afterwards. */
  lemma {:induction false} StepsTransparent(s: Stock, db: Db, steps: seq<KeyOp>, ts: seq<Time>, from: Time, end: Time)
    requires |ts| >= |steps| && InTurn(ts, from, end) && SameView(s.data, db, from)
    ensures StepsAnswers(s, steps, ts) == IdealStepsAnswers(db, steps, ts)
    ensures SameView(StepsRun(s, steps, ts).data, IdealSteps(db, steps, ts), end)
    decreases |steps|
  {
    hide StepStock, StepDb, Answer, SameView, View;
    if steps == [] {
      SameViewLater(s.data, db, from, end);
    } else {
      var n := |steps| - 1;
      var front := steps[..n];
      InTurnAt(ts, from, end, n);
      StepsTransparent(s, db, front, ts[..n], from, ts[n]);
      StepsReadSome(s, front, ts, n);
      IdealReadsSome(db, front, ts, n);
      StepTransparent(StepsRun(s, front, ts), IdealSteps(db, front, ts), steps[n].key, steps[n].op, ts[n]);
      SameViewLater(StepsRun(s, steps, ts).data, IdealSteps(db, steps, ts), ts[n], end);
    }
  }

  /**
   One command: on a store and an ideal store that show the same, the same replies are possible, and afterwards the two
   show the same again.
   */
  lemma CommandTransparent(cmd: Command, now: Time, ts: seq<Time>, s: Stock, db: Db, from: Time, end: Time, after: Stock, reply: Reply)
    requires |ts| >= |cmd.args| && from <= now && InTurn(ts, now, end) && SameView(s.data, db, from)
    ensures Dispatched(cmd, now, ts, s, after, reply) <==> after == After(cmd, now, ts, s) && IdealReply(cmd, now, ts, db, reply)
    ensures SameView(After(cmd, now, ts, s).data, IdealAfter(cmd, now, ts, db), end)
  {
    hide PlanOf, StepsRun, StepsAnswers, StepsReply, IdealSteps, IdealStepsAnswers, AllShow, View;
    PlansFit(cmd, now);
    SameViewLater(s.data, db, from, now);
    SameViewLater(s.data, db, from, end);
    if PlanOf(cmd, now).Steps? {
      StepsTransparent(s, db, PlanOf(cmd, now).steps, ts, now, end);
    }
  }

  /** What happens to a running store: a command with its readings and its reply, or an expiry cycle or a snapshot that deletes expired keys. */
  datatype Call =
    | Ask(cmd: Command, now: Time, ts: seq<Time>, reply: Reply, end: Time)
    | Expiry(gone: set<Bytes>, end: Time)

  predicate Timely(call: Call, from: Time) {
    match call
    case Ask(cmd, now, ts, _, end) => |ts| >= |cmd.args| && from <= now && InTurn(ts, now, end)
    case Expiry(_, end) => from <= end
  }

  predicate AllTimely(calls: seq<Call>, from: Time)
    decreases |calls|
  {
    calls == [] || (Timely(calls[0], from) && AllTimely(calls[1..], calls[0].end))
  }

  /** The store carries out these calls with these replies. */
  ghost predicate Serves(s: Stock, calls: seq<Call>, from: Time, last: Stock)
    requires AllTimely(calls, from)
    decreases |calls|
  {
    if calls == [] then last == s
    else
      match calls[0]
      case Ask(cmd, now, ts, reply, end) =>
        exists next :: Dispatched(cmd, now, ts, s, next, reply) && Serves(next, calls[1..], end, last)
      case Expiry(gone, end) => Serves(StockAfter(s, Sweep(gone, end)), calls[1..], end, last)
  }

  /** The ideal store carries out the commands among these calls, with these replies. */
  ghost predicate IdealServes(db: Db, calls: seq<Call>, from: Time, last: Db)
    requires AllTimely(calls, from)
    decreases |calls|
  {
    if calls == [] then last == db
    else
      match calls[0]
      case Ask(cmd, now, ts, reply, end) =>
        IdealReply(cmd, now, ts, db, reply) && IdealServes(IdealAfter(cmd, now, ts, db), calls[1..], end, last)
      case Expiry(_, end) => IdealServes(db, calls[1..], end, last)
  }

  /**
   Expiry transparency of whole runs. Whatever commands a server carries out, with whatever expiry cycles and snapshots
   between them, its replies are replies of the ideal store to the commands alone, and at the end the two show the same.
   */
  lemma {:induction false} RepliesAreIdeal(s: Stock, db: Db, calls: seq<Call>, from: Time, last: Stock) returns (ideal: Db)
    requires AllTimely(calls, from) && SameView(s.data, db, from) && Serves(s, calls, from, last)
    ensures IdealServes(db, calls, from, ideal)
    ensures SameView(last.data, ideal, if calls == [] then from else calls[|calls| - 1].end)
    decreases |calls|
  {
    hide Dispatched, IdealReply, IdealAfter, After, SameView;
    if calls == [] {
      ideal := db;
    } else {
      var call, rest := calls[0], calls[1..];
      assert rest == [] ==> calls[|calls| - 1] == call;
      assert rest != [] ==> rest[|rest| - 1] == calls[|calls| - 1];
      match call
      case Ask(cmd, now, ts, reply, end) =>
        var next :| Dispatched(cmd, now, ts, s, next, reply) && Serves(next, rest, end, last);
        CommandTransparent(cmd, now, ts, s, db, from, end, next, reply);
        ideal := RepliesAreIdeal(next, IdealAfter(cmd, now, ts, db), rest, end, last);
      case Expiry(gone, end) =>
        ExpiryHidden(s, db, gone, from, end);
        ideal := RepliesAreIdeal(StockAfter(s, Sweep(gone, end)), db, rest, end, last);
    }
  }

  lemma ExpiryHidden(s: Stock, db: Db, gone: set<Bytes>, from: Time, end: Time)
    requires SameView(s.data, db, from) && from <= end
    ensures SameView(StockAfter(s, Sweep(gone, end)).data, db, end)
  {
    hide DbSize;
    SameViewLater(s.data, db, from, end);
    SweepKeepsView(s.data, gone, end);
  }

  /** And every reply the ideal store may give, the store may give. */
  lemma {:induction false} IdealIsPossible(s: Stock, db: Db, calls: seq<Call>, from: Time, ideal: Db) returns (last: Stock)
    requires AllTimely(calls, from) && SameView(s.data, db, from) && IdealServes(db, calls, from, ideal)
    ensures Serves(s, calls, from, last)
    ensures SameView(last.data, ideal, if calls == [] then from else calls[|calls| - 1].end)
    decreases |calls|
  {
    hide Dispatched, IdealReply, IdealAfter, After, SameView;
    if calls == [] {
      last := s;
    } else {
      var call, rest := calls[0], calls[1..];
      assert rest == [] ==> calls[|calls| - 1] == call;
      assert rest != [] ==> rest[|rest| - 1] == calls[|calls| - 1];
      match call
      case Ask(cmd, now, ts, reply, end) =>
        var next := After(cmd, now, ts, s);
        CommandTransparent(cmd, now, ts, s, db, from, end, next, reply);
        last := IdealIsPossible(next, IdealAfter(cmd, now, ts, db), rest, end, ideal);
      case Expiry(gone, end) =>
        ExpiryHidden(s, db, gone, from, end);
        last := IdealIsPossible(StockAfter(s, Sweep(gone, end)), db, rest, end, ideal);
    }
  }
}
