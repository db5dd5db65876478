/** Deadlines as a client sees them: until which instant, to the nanosecond, each command lets a key live. */
module Deadlines {
  import opened Accounting
  import opened Batches
  import opened ByteStrings
  import opened Clock
  import opened Commands
  import opened Dispatcher
  import opened Effects
  import opened Handlers
  import opened Keyspace
  import opened Numbers
  import opened Protocol
  import opened Runs
  import opened Shards
  import opened Spelling
  import opened Values

  /** The key is there up to this instant, and not a nanosecond longer. */
  ghost predicate LivesUntil(db: Db, key: Bytes, end: Time) {
    forall t: Time :: key in View(db, t) <==> t <= end
  }

  ghost predicate LivesOn(db: Db, key: Bytes) {
    forall t: Time :: key in View(db, t)
  }

  lemma LifeOf(db: Db, key: Bytes, end: Time)
    requires key in db
    ensures LivesOn(db, key) <==> db[key].expireAt == NEVER
    ensures LivesUntil(db, key, end) <==> db[key].expireAt == end && end != NEVER
  {
    var at := db[key].expireAt;
    assert key in View(db, at);
    assert key in View(db, at + 1) <==> at == NEVER;
    if LivesUntil(db, key, end) {
      assert key in View(db, end) && key !in View(db, end + 1);
    }
  }

  predicate Fits(n: int) {
    -0x8000_0000_0000_0000 <= n <= 0x7FFF_FFFF_FFFF_FFFF
  }

  /** The key has a new deadline, and nothing else has changed. */
  predicate OnlyDeadline(x: Exchange, key: Bytes) {
    key in x.after.data && x.Shown(key).Some? && x.after.data[key].value == x.Shown(key).value.value &&
    x.after.data - {key} == x.before.data - {key}
  }

  lemma Rescheduled(v: Verb, key: Bytes, at: Time, x: Exchange)
    requires v.EXPIRE? || v.PEXPIREAT?
    requires Spells(x.cmd.name, NameOf(v)) && VerbPlan(v, x.cmd.args, x.now) == One(key, ExpireAt(at))
    requires |x.ts| >= |x.cmd.args| && |x.ts| >= 1 && Dispatched(x.cmd, x.now, x.ts, x.before, x.after, x.reply)
    ensures if x.Shown(key).None? then Kept(x) && x.reply == Int(0)
            else OnlyDeadline(x, key) && x.after.data[key].expireAt == at && x.reply == Int(1)
  {
    hide VerbPlan, NameOf, Spells, Apply, SameView;
    Carried(v, key, ExpireAt(at), x);
    KeyApplies(ExpireAt(at), x.Shown(key), x.At());
    if x.Shown(key).None? {
      ReadKept(x.before, key, ExpireAt(at), x.At());
    } else {
      StepLeavesRest(x.before.data, key, ExpireAt(at), x.At());
    }
  }

  lemma SecondsFit(n: int, now: Time)
    requires now >= 0
    ensures now + Seconds(n) == now + n * 1_000_000_000 != NEVER <==> Fits(n * 1_000_000_000)
  {
  }

  /**
   EXPIRE lets a live key live for so many seconds from its own reading of the clock, exactly when they fit in 64 bits as
   nanoseconds, whatever their sign.
   */
  lemma ExpireReplies(key: Bytes, text: Bytes, n: int, x: Exchange)
    requires Asked("EXPIRE", [key, text], x) && ParseInt(text) == Some(n) && x.now >= 0
    ensures if x.Shown(key).None? then Kept(x) && x.reply == Int(0)
            else OnlyDeadline(x, key) && x.reply == Int(1) &&
                 (LivesUntil(x.after.data, key, x.now + n * 1_000_000_000) <==> Fits(n * 1_000_000_000))
  {
    hide Text, ParseInt, LivesUntil, LivesOn, Seconds, Dispatched;
    Rescheduled(EXPIRE, key, x.now + Seconds(n), x);
    SecondsFit(n, x.now);
    if x.Shown(key).Some? {
      LifeOf(x.after.data, key, x.now + n * 1_000_000_000);
    }
  }

  /** PEXPIREAT lets it live until a millisecond; the one at the start of year 1 stands for no deadline. */
  lemma PExpireAtReplies(key: Bytes, text: Bytes, n: int, x: Exchange)
    requires Asked("PEXPIREAT", [key, text], x) && ParseInt(text) == Some(n)
    ensures if x.Shown(key).None? then Kept(x) && x.reply == Int(0)
            else OnlyDeadline(x, key) && x.reply == Int(1) &&
                 if n == -62_135_596_800_000 then LivesOn(x.after.data, key) else LivesUntil(x.after.data, key, n * 1_000_000)
  {
    hide Text, ParseInt, LivesUntil, LivesOn;
    Rescheduled(PEXPIREAT, key, UnixMillis(n), x);
    if x.Shown(key).Some? {
      LifeOf(x.after.data, key, n * 1_000_000);
    }
  }

  /** PERSIST takes a deadline away, if there is one. */
  lemma PersistReplies(key: Bytes, x: Exchange)
    requires Asked("PERSIST", [key], x)
    ensures if x.Shown(key).None? || LivesOn(x.before.data, key) then Kept(x) && x.reply == Int(0)
            else OnlyDeadline(x, key) && x.reply == Int(1) && LivesOn(x.after.data, key)
  {
    hide Apply, SameView, LivesUntil, LivesOn;
    Carried(PERSIST, key, Persist, x);
    KeyApplies(Persist, x.Shown(key), x.At());
    if x.Shown(key).Some? { LifeOf(x.before.data, key, 0); }
    if x.Shown(key).None? || LivesOn(x.before.data, key) {
      ReadKept(x.before, key, Persist, x.At());
    } else {
      StepLeavesRest(x.before.data, key, Persist, x.At());
      LifeOf(x.after.data, key, 0);
    }
  }

  /** The remaining time in whole seconds, rounded up; beyond some 292 years the rounding wraps to a negative number. */
  predicate InSeconds(remaining: int, seconds: int) {
    if remaining <= 0x7FFF_FFFF_FFFF_FFFF - 999_999_999 then (seconds - 1) * 1_000_000_000 < remaining <= seconds * 1_000_000_000
    else seconds < 0
  }

  lemma SecondsTold(remaining: int)
    requires remaining >= 0
    ensures InSeconds(remaining, TtlSeconds(Saturate(remaining)))
  {
  }

  lemma TtlGiven(key: Bytes, x: Exchange)
    requires Asked("TTL", [key], x)
    ensures Kept(x)
    ensures var r := x.Shown(key);
            x.reply == if r.None? then Int(-2) else if r.value.expireAt == NEVER then Int(-1)
                       else Int(TtlSeconds(Saturate(r.value.expireAt - x.At())))
  {
    hide Text, Dispatched, Apply, SameView, TtlSeconds;
    Carried(TTL, key, Ttl, x);
    KeyApplies(Ttl, x.Shown(key), x.At());
    ReadKept(x.before, key, Ttl, x.At());
  }

  /** TTL tells -2 for no key, -1 for no deadline, and otherwise the time that is left. */
  lemma TtlReplies(key: Bytes, x: Exchange)
    requires Asked("TTL", [key], x)
    ensures Kept(x)
    ensures key !in View(x.before.data, x.At()) ==> x.reply == Int(-2)
    ensures LivesOn(x.before.data, key) ==> x.reply == Int(-1)
    ensures forall end: Time :: LivesUntil(x.before.data, key, end) && x.At() <= end ==> x.reply.Int? && InSeconds(end - x.At(), x.reply.n)
  {
    hide Asked, SameView, LivesUntil, LivesOn, InSeconds, TtlSeconds, View;
    TtlGiven(key, x);
    FindInView(x.before.data, key, x.At());
    if x.Shown(key).Some? {
      LifeOf(x.before.data, key, 0);
      forall end: Time | LivesUntil(x.before.data, key, end) && x.At() <= end
        ensures x.reply.Int? && InSeconds(end - x.At(), x.reply.n)
      {
        LifeOf(x.before.data, key, end);
        SecondsTold(end - x.At());
      }
    } else {
      NotThere(x.before.data, key, x.At());
    }
  }

  lemma NotThere(db: Db, key: Bytes, now: Time)
    requires key !in View(db, now)
    ensures !LivesOn(db, key)
    ensures forall end: Time :: LivesUntil(db, key, end) ==> end < now
  {
  }

  /** TTL right after EXPIRE, at the same reading, tells the very seconds, up to some 292 years. */
  lemma TtlAfterExpire(key: Bytes, text: Bytes, n: int, x: Exchange, y: Exchange)
    requires Asked("EXPIRE", [key, text], x) && ParseInt(text) == Some(n) && x.now >= 0 && x.Shown(key).Some?
    requires Asked("TTL", [key], y) && y.before == x.after && y.At() == x.now
    requires n > 0 && Fits(n * 1_000_000_000)
    ensures y.reply == Int(n) <==> n <= 9_223_372_035
  {
    hide Asked, LivesUntil, LivesOn;
    ExpireReplies(key, text, n, x);
    TtlReplies(key, y);
    var end := x.now + n * 1_000_000_000;
    assert LivesUntil(y.before.data, key, end);
    assert InSeconds(end - y.At(), y.reply.n);
  }

  lemma SetPlanned(key: Bytes, val: Bytes, option: Bytes, text: Bytes, now: Time)
    ensures var opts := [option, text];
            VerbPlan(SET, [key, val, option, text], now) ==
            if ExpiryAsked(opts, now).None? then Fail("ERR syntax error") else One(key, SetTo(val, ExpiryAsked(opts, now).value))
  {
    hide Text, ExpiryAsked;
    assert [key, val, option, text][2..] == [option, text];
  }

  /** SET with an option writes its value with this deadline. */
  lemma SetUntil(key: Bytes, val: Bytes, option: Bytes, text: Bytes, unit: Unit, n: int, x: Exchange)
    requires Asked("SET", [key, val, option, text], x) && UnitOf(option) == Some(unit) && ParseInt(text) == Some(n)
    ensures Wrote(x, key, Record(StrV(val), UnitDeadline(unit, n, x.now))) && x.reply == Status("OK")
  {
    hide Text, ParseInt, UnitOf, UnitDeadline, VerbPlan;
    var at := UnitDeadline(unit, n, x.now);
    SetPlanned(key, val, option, text, x.now);
    assert ExpiryAsked([option, text], x.now) == Some(at);
    Carried(SET, key, SetTo(val, at), x);
  }

  /** The four options of SET, each for all signed numbers: until when the key then lives, and when that is not what was asked. */
  lemma SetExReplies(key: Bytes, val: Bytes, option: Bytes, text: Bytes, n: int, x: Exchange)
    requires Asked("SET", [key, val, option, text], x) && Spells(option, "EX") && ParseInt(text) == Some(n) && x.now >= 0
    ensures x.reply == Status("OK") && key in x.after.data && Wrote(x, key, x.after.data[key]) && x.after.data[key].value == StrV(val)
    ensures LivesUntil(x.after.data, key, x.now + n * 1_000_000_000) <==> Fits(n * 1_000_000_000)
  {
    hide Asked, ParseInt, LivesUntil, LivesOn, UnitOf;
    OptionSpelled(option);
    SetUntil(key, val, option, text, EX, n, x);
    LifeOf(x.after.data, key, x.now + n * 1_000_000_000);
  }

  lemma SetPxReplies(key: Bytes, val: Bytes, option: Bytes, text: Bytes, n: int, x: Exchange)
    requires Asked("SET", [key, val, option, text], x) && Spells(option, "PX") && ParseInt(text) == Some(n) && x.now >= 0
    ensures x.reply == Status("OK") && key in x.after.data && Wrote(x, key, x.after.data[key]) && x.after.data[key].value == StrV(val)
    ensures LivesUntil(x.after.data, key, x.now + n * 1_000_000) <==> Fits(n * 1_000_000)
  {
    hide Asked, ParseInt, LivesUntil, LivesOn, UnitOf;
    OptionSpelled(option);
    SetUntil(key, val, option, text, PX, n, x);
    LifeOf(x.after.data, key, x.now + n * 1_000_000);
  }

  lemma SetExatReplies(key: Bytes, val: Bytes, option: Bytes, text: Bytes, n: int, x: Exchange)
    requires Asked("SET", [key, val, option, text], x) && Spells(option, "EXAT") && ParseInt(text) == Some(n)
    ensures x.reply == Status("OK") && key in x.after.data && Wrote(x, key, x.after.data[key]) && x.after.data[key].value == StrV(val)
    ensures n == -62_135_596_800 <==> LivesOn(x.after.data, key)
    ensures LivesUntil(x.after.data, key, n * 1_000_000_000) <==> n != -62_135_596_800 && Fits(n + 62_135_596_800)
  {
    hide Asked, ParseInt, LivesUntil, LivesOn, UnitOf;
    OptionSpelled(option);
    SetUntil(key, val, option, text, EXAT, n, x);
    LifeOf(x.after.data, key, n * 1_000_000_000);
  }

  lemma SetPxatReplies(key: Bytes, val: Bytes, option: Bytes, text: Bytes, n: int, x: Exchange)
    requires Asked("SET", [key, val, option, text], x) && Spells(option, "PXAT") && ParseInt(text) == Some(n)
    ensures x.reply == Status("OK") && key in x.after.data && Wrote(x, key, x.after.data[key]) && x.after.data[key].value == StrV(val)
    ensures if n == -62_135_596_800_000 then LivesOn(x.after.data, key) else LivesUntil(x.after.data, key, n * 1_000_000)
  {
    hide Asked, ParseInt, LivesUntil, LivesOn, UnitOf;
    OptionSpelled(option);
    SetUntil(key, val, option, text, PXAT, n, x);
    LifeOf(x.after.data, key, n * 1_000_000);
  }

  /** Any other option, or one without a number, is refused. SET without options leaves no deadline. */
  lemma SetRefuses(key: Bytes, val: Bytes, option: Bytes, text: Bytes, x: Exchange)
    requires Asked("SET", [key, val, option, text], x)
    requires ParseInt(text).None? ||
             !(Spells(option, "EX") || Spells(option, "PX") || Spells(option, "EXAT") || Spells(option, "PXAT"))
    ensures x.after == x.before && x.reply.Error?
  {
    hide ParseInt, UnitOf, VerbPlan, Text;
    OptionSpelled(option);
    SetPlanned(key, val, option, text, x.now);
    AnsweredAtOnce(SET, x);
  }

  lemma SetForGood(key: Bytes, val: Bytes, x: Exchange)
    requires Asked("SET", [key, val], x)
    ensures LivesOn(x.after.data, key) && key in x.after.data && x.after.data[key].value == StrV(val)
  {
    hide Asked, LivesOn;
    SetWrites(key, val, x);
    LifeOf(x.after.data, key, 0);
  }
}
