/** `aofCommand`: which commands enter the append-only log, and in what clock-free form. */
module LogNormal {
  import opened ByteStrings
  import opened Clock
  import opened Commands
  import opened Keyspace
  import opened Numbers
  import opened Protocol

  /** Slicing the options of a SET with fewer than two arguments panics. */
  datatype Decision = Panics | NotLogged | Logged(cmd: Command)

  function UnitMillis(unit: Unit, n: int, now: Time): int {
    match unit
    case EX => ToMillis(now + Seconds(n))
    case PX => ToMillis(now + Millis(n))
    case EXAT => ToMillis(UnixSeconds(n))
    case PXAT => n
  }

  /** `setExpiryMillis` */
  function ExpiryMillis(opts: seq<Bytes>, now: Time): Option<int> {
    if |opts| != 2 || UnitOf(opts[0]).None? || ParseInt(opts[1]).None? then None
    else Some(UnitMillis(UnitOf(opts[0]).value, ParseInt(opts[1]).value, now))
  }

  function LogIf(accepted: bool, v: Verb, args: seq<Bytes>): Decision {
    if accepted then Logged(Command(NameOf(v), args)) else NotLogged
  }

  function LogSet(args: seq<Bytes>, now: Time): Decision {
    if |args| < 2 then Panics
    else if |args| == 2 then Logged(Command(NameOf(SET), args))
    else
      var at := ExpiryMillis(args[2..], now);
      if at.None? then NotLogged
      else Logged(Command(NameOf(SET), [args[0], args[1], "PXAT", FormatInt(at.value)]))
  }

  function LogExpire(args: seq<Bytes>, now: Time): Decision {
    if |args| != 2 || ParseInt(args[1]).None? then NotLogged
    else
      var at := ToMillis(now + Seconds(ParseInt(args[1]).value));
      Logged(Command(NameOf(PEXPIREAT), [args[0], FormatInt(at)]))
  }

  function LogVerb(v: Verb, args: seq<Bytes>, now: Time): Decision {
    match v
    case SET => LogSet(args, now)
    case EXPIRE => LogExpire(args, now)
    case DEL => LogIf(|args| >= 1, v, args)
    case PEXPIREAT | INCRBY | DECRBY => LogIf(|args| == 2 && ParseInt(args[1]).Some?, v, args)
    case PERSIST | LPOP | RPOP | INCR | DECR => LogIf(|args| == 1, v, args)
    case LPUSH | RPUSH | HDEL | SADD | SREM => LogIf(|args| >= 2, v, args)
    case HSET => LogIf(|args| == 3, v, args)
    case MSET => LogIf(|args| >= 2 && |args| % 2 == 0, v, args)
    case SETNX => LogIf(|args| == 2, v, args)
    case FLUSHALL => LogIf(|args| == 0, v, args)
    case _ => NotLogged
  }

  function AofCommand(cmd: Command, now: Time): Decision {
    var v := VerbOf(cmd);
    if v.None? then NotLogged else LogVerb(v.value, cmd.args, now)
  }

  predicate IsPanic(cmd: Command) {
    VerbOf(cmd) == Some(SET) && |cmd.args| < 2
  }

  lemma SetOptionsAgree(opts: seq<Bytes>, now: Time, later: Time)
    requires opts != []
    ensures ExpiryMillis(opts, now).Some? <==> ExpiryAsked(opts, later).Some?
  {
  }

  lemma SetLoggedExactly(args: seq<Bytes>, now: Time, later: Time)
    requires |args| >= 2
    ensures LogSet(args, now) == NotLogged <==> StringPlan(SET, args, later).Immediate?
    ensures !LogSet(args, now).Panics?
  {
    if |args| > 2 {
      SetOptionsAgree(args[2..], now, later);
    }
  }

  lemma StringsLoggedExactly(v: Verb, args: seq<Bytes>, now: Time, later: Time)
    requires v.MSET? || v.SETNX? || v.INCR? || v.DECR? || v.INCRBY? || v.DECRBY?
    ensures LogVerb(v, args, now) == NotLogged <==> StringPlan(v, args, later).Immediate?
    ensures !LogVerb(v, args, now).Panics?
  {
    hide Text, ParseInt, Wrap64, Pairs;
  }

  lemma KeysLoggedExactly(v: Verb, args: seq<Bytes>, now: Time, later: Time)
    requires v.DEL? || v.EXPIRE? || v.PEXPIREAT? || v.PERSIST?
    ensures LogVerb(v, args, now) == NotLogged <==> KeyPlan(v, args, later).Immediate?
    ensures !LogVerb(v, args, now).Panics?
  {
    hide Text, ParseInt, Wrap64, FormatInt, Each;
  }

  lemma CollectionsLoggedExactly(v: Verb, args: seq<Bytes>, now: Time, later: Time)
    requires v.LPUSH? || v.RPUSH? || v.LPOP? || v.RPOP? || v.HSET? || v.HDEL? || v.SADD? || v.SREM?
    ensures LogVerb(v, args, now) == NotLogged <==> VerbPlan(v, args, later).Immediate?
    ensures !LogVerb(v, args, now).Panics?
  {
    hide Text, ParseInt, StringPlan, KeyPlan;
  }

  /**
   The log takes exactly the commands whose handler gets as far as changing the store: every other accepted
   command only reads, and a refused one touches nothing.
   */
  lemma LoggedExactly(cmd: Command, now: Time, later: Time)
    ensures AofCommand(cmd, now).Panics? <==> IsPanic(cmd)
    ensures AofCommand(cmd, now).Logged? <==>
            VerbOf(cmd).Some? && !IsPanic(cmd) && !Readonly(VerbOf(cmd).value) && !PlanOf(cmd, later).Immediate?
  {
    hide StringPlan, KeyPlan, ListPlan, HashPlan, SetPlan;
    if VerbOf(cmd).Some? && !Readonly(VerbOf(cmd).value) && !IsPanic(cmd) {
      var v := VerbOf(cmd).value;
      if v.SET? {
        SetLoggedExactly(cmd.args, now, later);
      } else if v.MSET? || v.SETNX? || v.INCR? || v.DECR? || v.INCRBY? || v.DECRBY? {
        StringsLoggedExactly(v, cmd.args, now, later);
      } else if v.DEL? || v.EXPIRE? || v.PEXPIREAT? || v.PERSIST? {
        KeysLoggedExactly(v, cmd.args, now, later);
      } else if !v.FLUSHALL? {
        CollectionsLoggedExactly(v, cmd.args, now, later);
      }
    }
  }

  /** A command not logged changes nothing: it is refused, or it only reads. */
  lemma UnloggedOnlyReads(cmd: Command, now: Time, later: Time)
    requires AofCommand(cmd, now).NotLogged?
    ensures var p := PlanOf(cmd, later);
            !p.DropAll? && (p.Steps? ==> forall i :: 0 <= i < |p.steps| ==> ReadOnly(p.steps[i].op))
  {
    LoggedExactly(cmd, now, later);
    if VerbOf(cmd).Some? ==> Readonly(VerbOf(cmd).value) {
      ReadonlyPlans(cmd, later);
    }
  }

  lemma LoggedVerb(v: Verb, args: seq<Bytes>)
    ensures VerbOf(Command(NameOf(v), args)) == Some(v)
  {
    NamesAgree(v);
  }

  lemma MillisAreNumbers(unit: Unit, n: int, now: Time)
    requires FitsInt64(n)
    ensures FitsInt64(UnitMillis(unit, n, now))
  {
  }

  /** The form in which a deadline is logged reads back as itself. */
  lemma PxatStable(key: Bytes, val: Bytes, at: int, later: Time)
    requires FitsInt64(at)
    ensures var args := [key, val, "PXAT", FormatInt(at)];
            AofCommand(Command(NameOf(SET), args), later) == Logged(Command(NameOf(SET), args)) &&
            PlanOf(Command(NameOf(SET), args), later) == One(key, SetTo(val, UnixMillis(at)))
  {
    var args := [key, val, "PXAT", FormatInt(at)];
    LoggedVerb(SET, args);
    ParseFormat(at);
    assert Upper("PXAT") == "PXAT" && UnitOf("PXAT") == Some(PXAT);
    assert args[2..] == ["PXAT", FormatInt(at)];
    assert ExpiryMillis(args[2..], later) == Some(at);
    assert LogSet(args, later) == Logged(Command(NameOf(SET), args));
    assert ExpiryAsked(args[2..], later) == Some(UnixMillis(at));
    assert StringPlan(SET, args, later) == One(key, SetTo(val, UnixMillis(at)));
  }

  lemma PexpireatStable(key: Bytes, at: int, later: Time)
    requires FitsInt64(at)
    ensures var args := [key, FormatInt(at)];
            AofCommand(Command(NameOf(PEXPIREAT), args), later) == Logged(Command(NameOf(PEXPIREAT), args)) &&
            PlanOf(Command(NameOf(PEXPIREAT), args), later) == One(key, ExpireAt(UnixMillis(at)))
  {
    var args := [key, FormatInt(at)];
    LoggedVerb(PEXPIREAT, args);
    ParseFormat(at);
    assert KeyPlan(PEXPIREAT, args, later) == One(key, ExpireAt(UnixMillis(at)));
  }

  predicate IsRelabelled(cmd: Command) {
    VerbOf(cmd) == Some(EXPIRE) || (VerbOf(cmd) == Some(SET) && |cmd.args| > 2)
  }

  /** Any other logged command keeps its arguments, and only its name is put in upper case. */
  lemma LoggedAsIs(cmd: Command, now: Time, later: Time)
    requires AofCommand(cmd, now).Logged? && !IsRelabelled(cmd)
    ensures var logged := AofCommand(cmd, now).cmd;
            logged == Command(NameOf(VerbOf(cmd).value), cmd.args) && VerbOf(logged) == VerbOf(cmd) &&
            AofCommand(logged, later) == Logged(logged)
  {
    LoggedVerb(VerbOf(cmd).value, cmd.args);
  }

  lemma SetIdempotent(args: seq<Bytes>, now: Time, later: Time)
    requires |args| > 2 && LogSet(args, now).Logged?
    ensures AofCommand(LogSet(args, now).cmd, later) == LogSet(args, now)
  {
    var at := ExpiryMillis(args[2..], now).value;
    MillisAreNumbers(UnitOf(args[2]).value, ParseInt(args[3]).value, now);
    PxatStable(args[0], args[1], at, later);
  }

  lemma ExpireIdempotent(args: seq<Bytes>, now: Time, later: Time)
    requires LogExpire(args, now).Logged?
    ensures AofCommand(LogExpire(args, now).cmd, later) == LogExpire(args, now)
  {
    PexpireatStable(args[0], ToMillis(now + Seconds(ParseInt(args[1]).value)), later);
  }

  /** Normalising twice is normalising once, and the result no longer depends on any clock. */
  lemma Idempotent(cmd: Command, now: Time, later: Time)
    requires AofCommand(cmd, now).Logged?
    ensures AofCommand(AofCommand(cmd, now).cmd, later) == AofCommand(cmd, now)
  {
    if !IsRelabelled(cmd) {
      LoggedAsIs(cmd, now, later);
    } else if VerbOf(cmd) == Some(EXPIRE) {
      ExpireIdempotent(cmd.args, now, later);
    } else {
      SetIdempotent(cmd.args, now, later);
    }
  }

  /** A logged deadline against the live one: never later, and at most `slack` earlier. */
  predicate NearDeadline(live: Time, logged: Time, slack: nat) {
    if live == NEVER then logged == NEVER else logged != NEVER && logged <= live <= logged + slack
  }

  predicate NearOp(live: Op, logged: Op, slack: nat) {
    match live
    case SetTo(val, at) => logged.SetTo? && logged.val == val && NearDeadline(at, logged.at, slack)
    case ExpireAt(at) => logged.ExpireAt? && NearDeadline(at, logged.at, slack)
    case _ => live == logged
  }

  predicate NearPlan(live: Plan, logged: Plan, slack: nat) {
    match live
    case Steps(steps) =>
      logged.Steps? && |logged.steps| == |steps| &&
      forall i :: 0 <= i < |steps| ==>
        logged.steps[i].key == steps[i].key && NearOp(steps[i].op, logged.steps[i].op, slack)
    case _ => live == logged
  }

  /** SET key value with one well-formed option. */
  predicate SetsDeadline(cmd: Command) {
    VerbOf(cmd) == Some(SET) && |cmd.args| == 4 && UnitOf(cmd.args[2]).Some? && ParseInt(cmd.args[3]).Some?
  }

  predicate Expires(cmd: Command) {
    VerbOf(cmd) == Some(EXPIRE) && |cmd.args| == 2 && ParseInt(cmd.args[1]).Some?
  }

  /** An EXAT deadline is logged as milliseconds, in 64 bits. */
  predicate UnitFits(unit: Unit, n: int) {
    unit.EXAT? ==> FitsInt64(n * 1000)
  }

  predicate FitsLog(cmd: Command) {
    SetsDeadline(cmd) ==> UnitFits(UnitOf(cmd.args[2]).value, ParseInt(cmd.args[3]).value)
  }

  /**
   How far a logged relative deadline may fall before the live one when the log's clock reading is `logged` and the
   handler's is `live`: less than a millisecond plus the gap, and not at all when both are the same whole millisecond.
   */
  function DurationSkew(exact: int, logged: Time, live: Time): nat
    requires logged <= live
  {
    if logged == live && logged % MS == 0 && FitsInt64(exact) then 0 else live - logged + MS - 1
  }

  function UnitSkew(unit: Unit, n: int, logged: Time, live: Time): nat
    requires logged <= live
  {
    match unit
    case EX => DurationSkew(n * SECOND, logged, live)
    case PX => DurationSkew(n * MS, logged, live)
    case EXAT | PXAT => 0
  }

  /** The skew of a command: nothing unless it asks for a relative deadline. */
  function Skew(cmd: Command, logged: Time, live: Time): nat
    requires logged <= live
  {
    if Expires(cmd) then DurationSkew(ParseInt(cmd.args[1]).value * SECOND, logged, live)
    else if SetsDeadline(cmd) then UnitSkew(UnitOf(cmd.args[2]).value, ParseInt(cmd.args[3]).value, logged, live)
    else 0
  }

  lemma RoundedDown(t: Time)
    requires -TWO_64 <= t <= TWO_64
    ensures UnixMillis(ToMillis(t)) <= t < UnixMillis(ToMillis(t)) + MS
    ensures t % MS == 0 ==> UnixMillis(ToMillis(t)) == t
  {
    assert FitsInt64(t / MS);
  }

  lemma RelativeNear(logged: Time, live: Time, d: int, slack: nat)
    requires Readable(logged) && Readable(live) && logged <= live && FitsInt64(d)
    requires live - logged + MS - 1 <= slack || (logged == live && (logged + d) % MS == 0)
    ensures NearDeadline(live + d, UnixMillis(ToMillis(logged + d)), slack)
  {
    RoundedDown(logged + d);
  }

  lemma ExatNear(n: int, slack: nat)
    requires FitsInt64(n) && FitsInt64(n * 1000)
    ensures NearDeadline(UnixSeconds(n), UnixMillis(ToMillis(UnixSeconds(n))), slack)
  {
    assert UnixSeconds(n) == n * SECOND;
    assert (n * SECOND) / MS == n * 1000;
  }

  lemma MultiplesAlign(t: Time, n: int, unit: int)
    requires t % MS == 0 && (unit == SECOND || unit == MS)
    ensures (t + n * unit) % MS == 0
  {
    var q := t / MS;
    if unit == MS {
      assert t + n * unit == (q + n) * MS;
    } else {
      assert t + n * unit == (q + n * 1000) * MS;
    }
  }

  lemma DurationNear(n: int, unit: int, logged: Time, live: Time, slack: nat)
    requires unit == SECOND || unit == MS
    requires Readable(logged) && Readable(live) && logged <= live
    requires DurationSkew(n * unit, logged, live) <= slack
    ensures NearDeadline(live + Wrap64(n * unit), UnixMillis(ToMillis(logged + Wrap64(n * unit))), slack)
  {
    if logged == live && logged % MS == 0 && FitsInt64(n * unit) {
      MultiplesAlign(logged, n, unit);
    }
    RelativeNear(logged, live, Wrap64(n * unit), slack);
  }

  lemma UnitNear(unit: Unit, n: int, logged: Time, live: Time, slack: nat)
    requires FitsInt64(n) && Readable(logged) && Readable(live) && logged <= live
    requires UnitFits(unit, n) && UnitSkew(unit, n, logged, live) <= slack
    ensures NearDeadline(UnitDeadline(unit, n, live), UnixMillis(UnitMillis(unit, n, logged)), slack)
  {
    match unit
    case EX => DurationNear(n, SECOND, logged, live, slack);
    case PX => DurationNear(n, MS, logged, live, slack);
    case EXAT => ExatNear(n, slack);
    case PXAT =>
  }

  /** A command that reads no clock is planned the same at any instant. */
  lemma ClockFreePlan(v: Verb, args: seq<Bytes>, now: Time, later: Time)
    requires !v.EXPIRE? && (v.SET? ==> |args| <= 2)
    ensures VerbPlan(v, args, now) == VerbPlan(v, args, later)
  {
  }

  /** The logged form of EXPIRE, and of SET with a deadline. */
  function PexpireatCommand(key: Bytes, at: int): Command {
    Command(NameOf(PEXPIREAT), [key, FormatInt(at)])
  }

  function PxatCommand(key: Bytes, val: Bytes, at: int): Command {
    Command(NameOf(SET), [key, val, "PXAT", FormatInt(at)])
  }

  lemma ExpirePlan(cmd: Command, now: Time)
    requires Expires(cmd)
    ensures PlanOf(cmd, now) == One(cmd.args[0], ExpireAt(now + Seconds(ParseInt(cmd.args[1]).value)))
  {
  }

  lemma ExpireLog(cmd: Command, now: Time)
    requires Expires(cmd)
    ensures AofCommand(cmd, now) == Logged(PexpireatCommand(cmd.args[0], ToMillis(now + Seconds(ParseInt(cmd.args[1]).value))))
  {
  }

  lemma NearOne(key: Bytes, live: Op, logged: Op, slack: nat)
    requires NearOp(live, logged, slack)
    ensures NearPlan(One(key, live), One(key, logged), slack)
  {
  }

  lemma NearPexpireat(key: Bytes, live: Time, at: int, replayed: Time, slack: nat)
    requires FitsInt64(at) && NearDeadline(live, UnixMillis(at), slack)
    ensures NearPlan(One(key, ExpireAt(live)), PlanOf(PexpireatCommand(key, at), replayed), slack)
  {
    PexpireatStable(key, at, replayed);
    NearOne(key, ExpireAt(live), ExpireAt(UnixMillis(at)), slack);
  }

  lemma NearPxat(key: Bytes, val: Bytes, live: Time, at: int, replayed: Time, slack: nat)
    requires FitsInt64(at) && NearDeadline(live, UnixMillis(at), slack)
    ensures NearPlan(One(key, SetTo(val, live)),
                     PlanOf(PxatCommand(key, val, at), replayed), slack)
  {
    PxatStable(key, val, at, replayed);
    NearOne(key, SetTo(val, live), SetTo(val, UnixMillis(at)), slack);
  }

  lemma ExpireNear(key: Bytes, n: int, logged: Time, live: Time, replayed: Time, slack: nat)
    requires Readable(logged) && Readable(live) && logged <= live
    requires DurationSkew(n * SECOND, logged, live) <= slack
    ensures NearPlan(One(key, ExpireAt(live + Seconds(n))), PlanOf(PexpireatCommand(key, ToMillis(logged + Seconds(n))), replayed), slack)
  {
    DurationNear(n, SECOND, logged, live, slack);
    NearPexpireat(key, live + Seconds(n), ToMillis(logged + Seconds(n)), replayed, slack);
  }

  lemma SetDeadlinePlan(cmd: Command, now: Time)
    requires SetsDeadline(cmd)
    ensures PlanOf(cmd, now) ==
            One(cmd.args[0], SetTo(cmd.args[1], UnitDeadline(UnitOf(cmd.args[2]).value, ParseInt(cmd.args[3]).value, now)))
  {
    assert cmd.args[2..] == [cmd.args[2], cmd.args[3]];
  }

  lemma SetDeadlineLog(cmd: Command, now: Time)
    requires SetsDeadline(cmd)
    ensures AofCommand(cmd, now) ==
            Logged(PxatCommand(cmd.args[0], cmd.args[1], UnitMillis(UnitOf(cmd.args[2]).value, ParseInt(cmd.args[3]).value, now)))
  {
    assert cmd.args[2..] == [cmd.args[2], cmd.args[3]];
  }

  lemma SetDeadlineNear(key: Bytes, val: Bytes, unit: Unit, n: int, logged: Time, live: Time, replayed: Time, slack: nat)
    requires FitsInt64(n) && Readable(logged) && Readable(live) && logged <= live
    requires UnitFits(unit, n) && UnitSkew(unit, n, logged, live) <= slack
    ensures NearPlan(One(key, SetTo(val, UnitDeadline(unit, n, live))),
                     PlanOf(PxatCommand(key, val, UnitMillis(unit, n, logged)), replayed), slack)
  {
    MillisAreNumbers(unit, n, logged);
    UnitNear(unit, n, logged, live, slack);
    NearPxat(key, val, UnitDeadline(unit, n, live), UnitMillis(unit, n, logged), replayed, slack);
  }

  lemma NearVia(cmd: Command, logged: Time, live: Time, replayed: Time, p: Plan, c: Command, slack: nat)
    requires PlanOf(cmd, live) == p && AofCommand(cmd, logged) == Logged(c)
    requires NearPlan(p, PlanOf(c, replayed), slack)
    ensures NearPlan(PlanOf(cmd, live), PlanOf(AofCommand(cmd, logged).cmd, replayed), slack)
  {
  }

  lemma LoggedExpireNear(cmd: Command, logged: Time, live: Time, replayed: Time, slack: nat)
    requires Expires(cmd)
    requires Readable(logged) && Readable(live) && logged <= live && Skew(cmd, logged, live) <= slack
    ensures AofCommand(cmd, logged).Logged?
    ensures NearPlan(PlanOf(cmd, live), PlanOf(AofCommand(cmd, logged).cmd, replayed), slack)
  {
    hide VerbPlan, LogVerb, NearPlan, Wrap64, ToMillis, NearDeadline;
    var key, n := cmd.args[0], ParseInt(cmd.args[1]).value;
    ExpireLog(cmd, logged);
    ExpirePlan(cmd, live);
    ExpireNear(key, n, logged, live, replayed, slack);
    NearVia(cmd, logged, live, replayed, One(key, ExpireAt(live + Seconds(n))),
            PexpireatCommand(key, ToMillis(logged + Seconds(n))), slack);
  }

  lemma LoggedSetNear(cmd: Command, logged: Time, live: Time, replayed: Time, slack: nat)
    requires SetsDeadline(cmd) && FitsLog(cmd)
    requires Readable(logged) && Readable(live) && logged <= live && Skew(cmd, logged, live) <= slack
    ensures AofCommand(cmd, logged).Logged?
    ensures NearPlan(PlanOf(cmd, live), PlanOf(AofCommand(cmd, logged).cmd, replayed), slack)
  {
    var key, val, unit, n := cmd.args[0], cmd.args[1], UnitOf(cmd.args[2]).value, ParseInt(cmd.args[3]).value;
    hide VerbPlan, LogVerb, NearPlan, Wrap64, ToMillis, NearDeadline, UnitMillis, UnitDeadline;
    SetDeadlineLog(cmd, logged);
    SetDeadlinePlan(cmd, live);
    SetDeadlineNear(key, val, unit, n, logged, live, replayed, slack);
    NearVia(cmd, logged, live, replayed, One(key, SetTo(val, UnitDeadline(unit, n, live))),
            PxatCommand(key, val, UnitMillis(unit, n, logged)), slack);
  }

  /**
   What a logged command does on replay, at whatever instant, is what its handler did: the same operations on the
   same keys, with deadlines never later and at most the skew of the two clock readings earlier.
   */
  lemma LoggedPlanNear(cmd: Command, logged: Time, live: Time, replayed: Time, slack: nat)
    requires AofCommand(cmd, logged).Logged? && FitsLog(cmd)
    requires Readable(logged) && Readable(live) && logged <= live && Skew(cmd, logged, live) <= slack
    ensures NearPlan(PlanOf(cmd, live), PlanOf(AofCommand(cmd, logged).cmd, replayed), slack)
  {
    if !IsRelabelled(cmd) {
      LoggedAsIs(cmd, logged, replayed);
      ClockFreePlan(VerbOf(cmd).value, cmd.args, live, replayed);
      NearSelf(PlanOf(cmd, live), slack);
    } else if VerbOf(cmd) == Some(EXPIRE) {
      LoggedExpireNear(cmd, logged, live, replayed, slack);
    } else {
      LoggedSetNear(cmd, logged, live, replayed, slack);
    }
  }

  lemma NearSelf(p: Plan, slack: nat)
    ensures NearPlan(p, p, slack)
  {
  }

  lemma WrappedMillis(n: int)
    requires FitsInt64(n)
    ensures UnixMillis(Wrap64(n * 1000)) == n * SECOND <==> FitsInt64(n * 1000)
  {
  }

  /**
   An EXAT deadline survives the log exactly when its seconds fit in 64 bits as milliseconds; beyond that the live
   key lasts and the logged one has some other deadline.
   */
  lemma ExatExact(n: int)
    requires FitsInt64(n)
    ensures UnixMillis(UnitMillis(EXAT, n, 0)) == UnitDeadline(EXAT, n, 0) <==> FitsInt64(n * 1000)
  {
    var seconds := Wrap64(n + UNIX_TO_INTERNAL) - UNIX_TO_INTERNAL;
    assert (seconds * SECOND) / MS == seconds * 1000;
    if FitsInt64(n + UNIX_TO_INTERNAL) {
      WrappedMillis(n);
    } else {
      assert seconds == n - TWO_64;
      assert UnixMillis(ToMillis(UnixSeconds(n))) >= MIN_INT64 * MS > seconds * SECOND;
    }
  }
}
