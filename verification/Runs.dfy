/**
 Runs of the store: operations by any number of clients, active expiry and snapshots, flushes and reloads,
 in the order in which they take the shard locks.
 */
module Runs {
  import opened ByteStrings
  import opened Clock
  import opened Keyspace
  import opened Values

  datatype Event =
    | Do(key: Bytes, op: Op, at: Time)
    | Sweep(gone: set<Bytes>, at: Time)
    | Flush(at: Time)
    | Load(db: Db, at: Time)

  /** Active expiry and snapshots delete some keys found expired, never another key. */
  function Swept(db: Db, gone: set<Bytes>, now: Time): Db {
    map key | key in db && !(key in gone && Expired(db[key], now)) :: db[key]
  }

  function Physical(db: Db, ev: Event): Db {
    match ev
    case Do(key, op, at) => StepDb(db, key, op, at)
    case Sweep(gone, at) => Swept(db, gone, at)
    case Flush(_) => map[]
    case Load(loaded, _) => loaded
  }

  /** The reference store: every expired key is dropped before each operation, and nothing else expires keys. */
  function Ideal(db: Db, ev: Event): Db {
    match ev
    case Do(key, op, at) => StepDb(View(db, at), key, op, at)
    case Sweep(_, _) => db
    case Flush(_) => map[]
    case Load(loaded, _) => loaded
  }

  function PhysicalRun(db: Db, evs: seq<Event>): Db
    decreases |evs|
  {
    if evs == [] then db else PhysicalRun(Physical(db, evs[0]), evs[1..])
  }

  function IdealRun(db: Db, evs: seq<Event>): Db
    decreases |evs|
  {
    if evs == [] then db else IdealRun(Ideal(db, evs[0]), evs[1..])
  }

  function PhysicalAnswers(db: Db, evs: seq<Event>): seq<Outcome>
    decreases |evs|
  {
    if evs == [] then []
    else
      var ev := evs[0];
      (if ev.Do? then [Answer(db, ev.key, ev.op, ev.at)] else []) + PhysicalAnswers(Physical(db, ev), evs[1..])
  }

  function IdealAnswers(db: Db, evs: seq<Event>): seq<Outcome>
    decreases |evs|
  {
    if evs == [] then []
    else
      var ev := evs[0];
      (if ev.Do? then [Answer(View(db, ev.at), ev.key, ev.op, ev.at)] else []) + IdealAnswers(Ideal(db, ev), evs[1..])
  }

  predicate InOrder(evs: seq<Event>, from: Time, to: Time)
    decreases |evs|
  {
    if evs == [] then from <= to else from <= evs[0].at && InOrder(evs[1..], evs[0].at, to)
  }

  predicate SameView(a: Db, b: Db, now: Time) {
    View(a, now) == View(b, now)
  }

  lemma FindInView(db: Db, key: Bytes, now: Time)
    ensures Find(db, key, now) == Slot(View(db, now), key)
    ensures Find(View(db, now), key, now) == Find(db, key, now)
  {
  }

  /** What two stores both show now, they both show later. */
  lemma SameViewLater(a: Db, b: Db, now: Time, later: Time)
    requires now <= later && SameView(a, b, now)
    ensures SameView(a, b, later)
  {
    forall key
      ensures Find(a, key, later) == Find(b, key, later)
    {
      FindInView(a, key, now);
      FindInView(b, key, now);
    }
    forall key
      ensures Slot(View(a, later), key) == Slot(View(b, later), key)
    {
      FindInView(a, key, later);
      FindInView(b, key, later);
    }
    SlotsDecide(View(a, later), View(b, later));
  }

  lemma SlotsDecide(a: Db, b: Db)
    requires forall key :: Slot(a, key) == Slot(b, key)
    ensures a == b
  {
    assert forall key :: key in a ==> Slot(a, key).Some? && Slot(b, key).Some?;
    assert forall key :: key in b ==> Slot(a, key).Some? && Slot(b, key).Some?;
    assert forall key :: key in a ==> Slot(a, key).value == a[key] && Slot(b, key).value == b[key];
  }

  /** An operation sees only the view, and acts on the view alone. */
  lemma StepSameView(a: Db, b: Db, key: Bytes, op: Op, now: Time)
    requires SameView(a, b, now)
    ensures Answer(a, key, op, now) == Answer(b, key, op, now)
    ensures SameView(StepDb(a, key, op, now), StepDb(b, key, op, now), now)
  {
    FindInView(a, key, now);
    FindInView(b, key, now);
    var r := Apply(op, Find(a, key, now), now).0;
    ViewOfPlace(a, key, r, now);
    ViewOfPlace(b, key, r, now);
  }

  lemma ViewOfPlace(db: Db, key: Bytes, r: Option<Record>, now: Time)
    ensures View(Place(db, key, r), now)
         == Place(View(db, now), key, if r.Some? && Expired(r.value, now) then None else r)
  {
  }

  lemma ViewOfView(db: Db, now: Time)
    ensures SameView(View(db, now), db, now)
  {
  }

  lemma SweepKeepsView(db: Db, gone: set<Bytes>, now: Time)
    ensures SameView(Swept(db, gone, now), db, now)
  {
  }

  lemma EventSameView(a: Db, b: Db, ev: Event)
    requires SameView(a, b, ev.at)
    ensures SameView(Physical(a, ev), Ideal(b, ev), ev.at)
    ensures ev.Do? ==> Answer(a, ev.key, ev.op, ev.at) == Answer(View(b, ev.at), ev.key, ev.op, ev.at)
  {
    match ev
    case Do(key, op, at) =>
      ViewOfView(b, at);
      StepSameView(a, View(b, at), key, op, at);
    case Sweep(gone, at) => SweepKeepsView(a, gone, at);
    case Flush(_) =>
    case Load(_, _) =>
  }

  /**
   Expiry transparency. Lazy deletion, sampling and snapshot purges are invisible: under a clock that never goes
   back, every answer is the reference store's, and so is the view from the end of the run on.
   */
  lemma {:induction false} ExpiryTransparency(a: Db, b: Db, evs: seq<Event>, from: Time, to: Time, u: Time)
    requires InOrder(evs, from, to) && to <= u
    requires SameView(a, b, from)
    ensures PhysicalAnswers(a, evs) == IdealAnswers(b, evs)
    ensures SameView(PhysicalRun(a, evs), IdealRun(b, evs), u)
    decreases |evs|
  {
    if evs == [] {
      SameViewLater(a, b, from, u);
    } else {
      var ev := evs[0];
      SameViewLater(a, b, from, ev.at);
      EventSameView(a, b, ev);
      ExpiryTransparency(Physical(a, ev), Ideal(b, ev), evs[1..], ev.at, to, u);
    }
  }

  /** Only SET, EXPIRE and PERSIST touch a deadline; a value built by any other operation has none. */
  lemma DeadlineKept(db: Db, key: Bytes, op: Op, now: Time)
    requires !op.SetTo? && !op.ExpireAt? && !op.Persist?
    ensures var before, after := Find(db, key, now), Slot(StepDb(db, key, op, now), key);
            after.Some? ==> after.value.expireAt == Deadline(before)
  {
  }

  /** An operation leaves every other key alone. */
  lemma OtherKeysKept(db: Db, key: Bytes, other: Bytes, op: Op, now: Time)
    requires other != key
    ensures Slot(StepDb(db, key, op, now), other) == Slot(db, other)
  {
  }
}
