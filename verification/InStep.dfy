/** Exactly when a replay stays in step with the run it replays. */
module InStep {
  import opened ByteStrings
  import opened Clock
  import opened Commands
  import opened Keyspace
  import opened LogNormal
  import opened Numbers
  import opened Protocol
  import opened Replay
  import opened Runs
  import opened Values

  /** Without slack, shadowing is showing the same. */
  lemma ShadowsExactly(l: Db, r: Db, now: Time)
    ensures Shadows(l, r, now, 0) <==> SameView(l, r, now)
  {
    if Shadows(l, r, now, 0) {
      ShadowedViews(l, r, now, 0, now);
    }
    if SameView(l, r, now) {
      forall key
        ensures ShadowsKey(l, r, key, now, 0)
      {
        FindInView(l, key, now);
        FindInView(r, key, now);
      }
    }
  }

  /** A handler's increment is a 64-bit integer. */
  predicate Issuable(p: Prim) {
    p.OnKey? && p.op.IncrBy? ==> FitsInt64(p.op.delta)
  }

  /** On a key found missing, a telling operation other than EXPIRE and PERSIST makes one that never expires. */
  lemma MakesAnew(op: Op, now: Time)
    requires Telling(op, now) && !op.ExpireAt? && !op.Persist? && (op.IncrBy? ==> FitsInt64(op.delta))
    ensures var made := Apply(op, None, now).0; made.Some? && made.value.expireAt == NEVER
  {
  }

  /** On a live key with a deadline, none of them takes the deadline away. */
  lemma KeepsDeadline(op: Op, live: Option<Record>, at: Time)
    requires live.Some? && Telling(op, at) && !op.ExpireAt? && !op.Persist?
    ensures var after := Apply(op, live, at).0; after.Some? && after.value.expireAt == live.value.expireAt
  {
  }

  /** EXPIRE with a deadline still ahead, or PERSIST, makes a live key outlast the replay's instant, and a missing one stays missing. */
  lemma Prolongs(op: Op, live: Option<Record>, at: Time, now: Time)
    requires live.Some? && live.value.expireAt != NEVER && Telling(op, now) && (op.ExpireAt? || op.Persist?)
    ensures var after := Apply(op, live, at).0; after.Some? && !Expired(after.value, now)
    ensures Apply(op, None, now).0.None?
  {
  }

  lemma FindPlaced(db: Db, key: Bytes, r: Option<Record>, now: Time)
    ensures Find(Place(db, key, r), key, now) == if r.Some? && !Expired(r.value, now) then r else None
  {
  }

  /** An operation replayed too late for its key leaves two stores that do not show the same. */
  lemma OutlivedDiverges(l: Db, r: Db, p: Prim, at: Time, now: Time)
    requires at <= now && SameView(l, r, now) && Issuable(p) && Outlived(l, r, p, at, now)
    ensures !SameView(DoPrim(l, p, at), DoPrim(r, p, now), now)
  {
    hide Apply, Telling;
    var before := Find(l, p.key, at);
    FindInView(l, p.key, now);
    FindInView(r, p.key, now);
    var a, b := Apply(p.op, before, at).0, Apply(p.op, None, now).0;
    FindPlaced(l, p.key, a, now);
    FindPlaced(r, p.key, b, now);
    if p.op.ExpireAt? || p.op.Persist? {
      Prolongs(p.op, before, at, now);
    } else {
      MakesAnew(p.op, now);
      TellingAnyTime(p.op, at, now);
      KeepsDeadline(p.op, before, at);
    }
    FindInView(DoPrim(l, p, at), p.key, now);
    FindInView(DoPrim(r, p, now), p.key, now);
  }

  lemma TellingAnyTime(op: Op, at: Time, now: Time)
    requires Telling(op, now) && !op.ExpireAt?
    ensures Telling(op, at)
  {
  }

  lemma SamePrim(p: Prim, slack: nat)
    ensures NearPrim(p, p, slack)
  {
  }

  /**
   One operation, run and replayed on stores that show the same: they show the same afterwards if and only if it was
   not replayed too late for its key.
   */
  lemma OneOperationExact(l: Db, r: Db, p: Prim, at: Time, now: Time)
    requires at <= now && SameView(l, r, now) && Issuable(p)
    ensures SameView(DoPrim(l, p, at), DoPrim(r, p, now), now) <==> !Outlived(l, r, p, at, now)
  {
    hide DoPrim, SameView, Outlived, NearPrim, Shadows;
    if Outlived(l, r, p, at, now) {
      OutlivedDiverges(l, r, p, at, now);
    } else {
      ShadowsExactly(l, r, now);
      SamePrim(p, 0);
      PrimShadows(l, r, p, p, at, now, 0);
      ShadowsExactly(DoPrim(l, p, at), DoPrim(r, p, now), now);
    }
  }

  /** After each operation of the log the replayed store shows, at its instant, what the live one of that moment shows then. */
  predicate StaysInStep(l: Db, r: Db, acts: seq<Act>, ts: seq<Time>)
    requires |ts| == |LoudPrims(acts)|
    decreases |acts|
  {
    if acts == [] then true
    else if acts[0].Quiet? then StaysInStep(DoAct(l, acts[0]), r, acts[1..], ts)
    else
      SameView(DoAct(l, acts[0]), DoPrim(r, acts[0].prim, ts[0]), ts[0]) &&
      StaysInStep(DoAct(l, acts[0]), DoPrim(r, acts[0].prim, ts[0]), acts[1..], ts[1..])
  }

  predicate AllIssuable(prims: seq<Prim>) {
    forall p :: p in prims ==> Issuable(p)
  }

  lemma QuietActView(l: Db, act: Act, now: Time)
    requires act.Quiet? && Unlogged(l, act.ev) && act.ev.at <= now
    ensures SameView(DoAct(l, act), l, now)
  {
    if act.ev.Do? {
      QuietSweeps(l, act.ev);
      SweepKeepsView(l, {act.ev.key}, act.ev.at);
    } else {
      SweepKeepsView(l, act.ev.gone, act.ev.at);
    }
    SameViewLater(DoAct(l, act), l, act.ev.at, now);
  }

  /**
   A whole run: a replay of the same operations stays in step with it throughout if and only if none of them is
   replayed too late for its key.
   */
  lemma {:induction false} InStepExactly(l: Db, r: Db, acts: seq<Act>, ts: seq<Time>, now: Time)
    requires ActsBy(acts, now) && AllUnlogged(l, acts) && AllIssuable(LoudPrims(acts))
    requires |ts| == |LoudPrims(acts)| && ReplayedFrom(ts, now) && SameView(l, r, now)
    ensures StaysInStep(l, r, acts, ts) <==> NoneOutlived(l, r, acts, LoudPrims(acts), ts)
    decreases |acts|
  {
    hide DoAct, DoPrim, SameView, Outlived, Issuable, Unlogged;
    if acts != [] {
      var act := acts[0];
      assert act in acts;
      assert forall a :: a in acts[1..] ==> a in acts;
      if act.Quiet? {
        QuietActView(l, act, now);
        SameViewChain(DoAct(l, act), l, r, now);
        assert LoudPrims(acts) == LoudPrims(acts[1..]);
        InStepExactly(DoAct(l, act), r, acts[1..], ts, now);
      } else {
        var t, p := ts[0], act.prim;
        assert LoudPrims(acts) == [p] + LoudPrims(acts[1..]);
        assert LoudPrims(acts)[1..] == LoudPrims(acts[1..]);
        assert p in LoudPrims(acts) && forall q :: q in LoudPrims(acts[1..]) ==> q in LoudPrims(acts);
        RestReplayed(ts, now);
        SameViewLater(l, r, now, t);
        OneOperationExact(l, r, p, act.at, t);
        LoudActIsPrim(l, act);
        if !Outlived(l, r, p, act.at, t) {
          LaterActsBy(acts, now, t);
          InStepExactly(DoAct(l, act), DoPrim(r, p, t), acts[1..], ts[1..], t);
        }
      }
    }
  }

  lemma LaterActsBy(acts: seq<Act>, now: Time, later: Time)
    requires acts != [] && ActsBy(acts, now) && now <= later
    ensures ActsBy(acts[1..], later)
  {
    assert forall a :: a in acts[1..] ==> a in acts;
  }

  lemma LoudActIsPrim(l: Db, act: Act)
    requires act.Loud?
    ensures DoAct(l, act) == DoPrim(l, act.prim, act.at)
  {
  }

  lemma SameViewChain(a: Db, b: Db, c: Db, now: Time)
    requires SameView(a, b, now) && SameView(b, c, now)
    ensures SameView(a, c, now)
  {
  }

  /** The operation gives its key no deadline, or one not before an instant. */
  predicate Lasting(p: Prim, end: Time) {
    p.OnKey? && (p.op.SetTo? || p.op.ExpireAt?) ==> p.op.at == NEVER || end <= p.op.at
  }

  predicate AllLasting(prims: seq<Prim>, end: Time) {
    forall p :: p in prims ==> Lasting(p, end)
  }

  predicate LastingRecord(r: Option<Record>, end: Time) {
    r.Some? ==> r.value.expireAt == NEVER || end <= r.value.expireAt
  }

  /** The stores agree slot by slot, and nothing in them expires before an instant. */
  ghost predicate Abreast(l: Db, r: Db, end: Time, slack: nat) {
    forall key :: NearSlot(Slot(l, key), Slot(r, key), slack) && LastingRecord(Slot(r, key), end)
  }

  lemma LastingFind(l: Db, r: Db, key: Bytes, at: Time, end: Time, slack: nat)
    requires Abreast(l, r, end, slack) && at <= end
    ensures Find(l, key, at) == Slot(l, key) && Find(r, key, at) == Slot(r, key)
    ensures NearSlot(Slot(l, key), Slot(r, key), slack) && LastingRecord(Slot(r, key), end)
  {
    assert NearSlot(Slot(l, key), Slot(r, key), slack);
  }

  lemma LastingApply(op: Op, r: Option<Record>, now: Time, end: Time)
    requires LastingRecord(r, end) && (op.SetTo? || op.ExpireAt? ==> op.at == NEVER || end <= op.at)
    ensures LastingRecord(Apply(op, r, now).0, end)
  {
  }

  lemma AbreastPrim(l: Db, r: Db, p: Prim, logged: Prim, at: Time, now: Time, end: Time, slack: nat)
    requires Abreast(l, r, end, slack) && NearPrim(p, logged, slack) && Lasting(logged, end) && at <= end && now <= end
    ensures !Outlived(l, r, logged, at, now)
    ensures Abreast(DoPrim(l, p, at), DoPrim(r, logged, now), end, slack)
  {
    hide Apply, NearOp, NearSlot, LastingRecord, Telling;
    if p.OnKey? {
      LastingFind(l, r, p.key, at, end, slack);
      LastingFind(l, r, p.key, now, end, slack);
      NearBoth(Slot(l, p.key), Slot(r, p.key), slack);
      ApplyNear(p.op, logged.op, Slot(l, p.key), Slot(r, p.key), at, now, slack);
      LastingApply(logged.op, Slot(r, p.key), now, end);
      forall key
        ensures NearSlot(Slot(DoPrim(l, p, at), key), Slot(DoPrim(r, logged, now), key), slack)
        ensures LastingRecord(Slot(DoPrim(r, logged, now), key), end)
      {
        LastingFind(l, r, key, now, end, slack);
      }
    } else {
      NothingAbreast(end, slack);
    }
  }

  lemma NearBoth(l: Option<Record>, r: Option<Record>, slack: nat)
    requires NearSlot(l, r, slack)
    ensures l.Some? <==> r.Some?
  {
  }

  lemma NothingAbreast(end: Time, slack: nat)
    ensures Abreast(map[], map[], end, slack)
  {
  }

  lemma AbreastQuiet(l: Db, r: Db, act: Act, end: Time, slack: nat)
    requires Abreast(l, r, end, slack) && act.Quiet? && Unlogged(l, act.ev) && act.ev.at <= end
    ensures DoAct(l, act) == l
  {
    hide NearSlot, LastingRecord;
    var gone := if act.ev.Do? then {act.ev.key} else act.ev.gone;
    if act.ev.Do? {
      QuietSweeps(l, act.ev);
    }
    forall key | key in l
      ensures !Expired(l[key], act.ev.at)
    {
      LastingFind(l, r, key, act.ev.at, end, slack);
    }
    assert Swept(l, gone, act.ev.at) == l;
  }

  lemma {:induction false} LastingNeverOutlived(l: Db, r: Db, acts: seq<Act>, prims: seq<Prim>, ts: seq<Time>,
                                                now: Time, end: Time, slack: nat)
    requires ActsBy(acts, now) && AllUnlogged(l, acts) && ReplayedFrom(ts, now) && LastOf(ts, now) <= end
    requires NearPrims(LoudPrims(acts), prims, slack) && |ts| == |prims|
    requires Abreast(l, r, end, slack) && AllLasting(prims, end)
    ensures NoneOutlived(l, r, acts, prims, ts)
    decreases |acts|
  {
    hide DoAct, DoPrim, Abreast, Outlived, Lasting, Unlogged, NearPrim;
    if acts != [] {
      var act := acts[0];
      assert act in acts;
      assert forall a :: a in acts[1..] ==> a in acts;
      StartByEnd(ts, now, end);
      if act.Quiet? {
        AbreastQuiet(l, r, act, end, slack);
        LastingNeverOutlived(DoAct(l, act), r, acts[1..], prims, ts, now, end, slack);
      } else {
        var t := ts[0];
        assert LoudPrims(acts) == [act.prim] + LoudPrims(acts[1..]);
        assert LoudPrims(acts)[1..] == LoudPrims(acts[1..]);
        assert prims[0] in prims && forall p :: p in prims[1..] ==> p in prims;
        RestReplayed(ts, now);
        RestNear(LoudPrims(acts), prims, slack);
        LoudActIsPrim(l, act);
        AbreastPrim(l, r, act.prim, prims[0], act.at, t, end, slack);
        LaterActsBy(acts, now, t);
        LastingNeverOutlived(DoAct(l, act), DoPrim(r, prims[0], t), acts[1..], prims[1..], ts[1..], t, end, slack);
      }
    }
  }

  lemma StartByEnd(ts: seq<Time>, now: Time, end: Time)
    requires ReplayedFrom(ts, now) && LastOf(ts, now) <= end
    ensures now <= end && (ts != [] ==> ts[0] <= end && LastOf(ts[1..], ts[0]) <= end)
  {
    if ts != [] {
      assert ts[0] in ts;
    }
  }

  ghost predicate LastingDb(db: Db, end: Time) {
    forall key :: LastingRecord(Slot(db, key), end)
  }

  /**
   A log replayed in time: if no deadline in it falls before the end of the replay, and none did at the start, the
   replay follows the run, whatever was done to which key.
   */
  lemma InTimeReplays(start: Db, acts: seq<Act>, items: seq<Item>, planned: seq<Time>, ts: seq<Time>, now: Time, slack: nat)
    requires Logs(start, acts, items, planned, ts, now, slack) && LastingDb(start, LastOf(ts, now))
    requires AllLasting(ReplayPrims(LogOf(items), planned), LastOf(ts, now))
    ensures Replayable(start, acts, items, planned, ts, now, slack)
    ensures Shadows(LiveRun(start, acts), ReplayRun(start, ReplayPrims(LogOf(items), planned), ts), LastOf(ts, now), slack)
  {
    hide NoneOutlived, Lasting, Shadows, NearPrims, LastingRecord, AofCommand, FitsLog, Skew;
    LogNear(items, planned, slack);
    AbreastItself(start, LastOf(ts, now), slack);
    LastingNeverOutlived(start, start, acts, ReplayPrims(LogOf(items), planned), ts, now, LastOf(ts, now), slack);
    ReplaySimulation(start, acts, items, planned, ts, now, slack);
  }

  lemma AbreastItself(db: Db, end: Time, slack: nat)
    requires LastingDb(db, end)
    ensures Abreast(db, db, end, slack)
  {
  }

  /** A command that gives no key a deadline. */
  predicate Timeless(cmd: Command) {
    VerbOf(cmd) != Some(EXPIRE) && VerbOf(cmd) != Some(PEXPIREAT) && (VerbOf(cmd) == Some(SET) ==> |cmd.args| <= 2)
  }

  lemma StringTimeless(v: Verb, args: seq<Bytes>, now: Time, end: Time)
    requires v.SET? || v.MSET? || v.SETNX? || v.INCR? || v.DECR? || v.INCRBY? || v.DECRBY?
    requires v.SET? ==> |args| <= 2
    ensures AllLasting(PrimsOf(StringPlan(v, args, now)), end)
  {
    hide Text, ParseInt, Wrap64;
  }

  lemma OthersTimeless(v: Verb, args: seq<Bytes>, now: Time, end: Time)
    requires v.DEL? || v.PERSIST? || v.LPUSH? || v.RPUSH? || v.LPOP? || v.RPOP? || v.HSET? || v.HDEL? || v.SADD? || v.SREM? || v.FLUSHALL?
    ensures AllLasting(PrimsOf(VerbPlan(v, args, now)), end)
  {
    hide Text, ParseInt, Wrap64;
  }

  lemma TimelessPrims(cmd: Command, at: Time, planned: Time, end: Time)
    requires Timeless(cmd) && AofCommand(cmd, at).Logged?
    ensures AllLasting(PrimsOf(PlanOf(AofCommand(cmd, at).cmd, planned)), end)
  {
    hide StringPlan, KeyPlan, ListPlan, HashPlan, SetPlan, LogVerb, AllLasting, VerbNamed, NameOf;
    LoggedExactly(cmd, at, planned);
    LoggedAsIs(cmd, at, planned);
    var v := VerbOf(cmd).value;
    if v.SET? || v.MSET? || v.SETNX? || v.INCR? || v.DECR? || v.INCRBY? || v.DECRBY? {
      StringTimeless(v, cmd.args, planned, end);
    } else {
      OthersTimeless(v, cmd.args, planned, end);
    }
  }

  lemma {:induction false} TimelessLog(items: seq<Item>, planned: seq<Time>, end: Time)
    requires AllLogged(items) && |planned| == |items| && forall i :: 0 <= i < |items| ==> Timeless(items[i].cmd)
    ensures AllLasting(ReplayPrims(LogOf(items), planned), end)
  {
    hide AofCommand, PlanOf, Timeless, Lasting, PrimsOf;
    if items != [] {
      TimelessPrims(items[0].cmd, items[0].logged, planned[0], end);
      TimelessLog(items[1..], planned[1..], end);
      assert LogOf(items)[1..] == LogOf(items[1..]);
    }
  }

  /** A log whose commands give no key a deadline replays exactly, whenever it is replayed. */
  lemma TimelessReplays(start: Db, acts: seq<Act>, items: seq<Item>, planned: seq<Time>, ts: seq<Time>, now: Time, u: Time)
    requires Logs(start, acts, items, planned, ts, now, 0) && LastOf(ts, now) <= u
    requires (forall key :: key in start ==> start[key].expireAt == NEVER) && forall i :: 0 <= i < |items| ==> Timeless(items[i].cmd)
    ensures View(LiveRun(start, acts), u) == View(ReplayRun(start, ReplayPrims(LogOf(items), planned), ts), u)
  {
    hide Timeless, AllLasting, NoneOutlived, Shadows, AofCommand, FitsLog, Skew, View;
    TimelessLog(items, planned, LastOf(ts, now));
    InTimeReplays(start, acts, items, planned, ts, now, 0);
    ExactReplay(start, acts, items, planned, ts, now, u);
  }
}
