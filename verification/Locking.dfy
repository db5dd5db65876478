/**
 Shard locks. Operations take one lock; Snapshot and Flush take them all, in ascending order, work on every shard and
 let them all go. Any number of them run at once, and every step of one is a step of the world.
 */
module Locking {
  import opened ByteStrings
  import opened Clock
  import opened Runs
  import opened Values

  datatype Job = Write(shard: nat, ev: Event) | Snapshot(now: Time) | FlushAll

  /** `pc` counts locks taken, then shards worked on, then locks freed; `cut` is the store when the last lock was taken. */
  datatype Thread = Thread(job: Job, pc: nat, out: seq<Db>, cut: seq<Db>)

  datatype World = World(shards: seq<Db>, owner: seq<Option<nat>>, threads: map<nat, Thread>)

  /** A new thread, or one more step of a running one. */
  datatype Step = Spawn(t: nat, job: Job) | Run(t: nat)

  /** The locks a job takes, in the order it takes them. */
  function Locks(job: Job, n: nat): seq<nat> {
    if job.Write? then [job.shard] else seq(n, i requires 0 <= i => i)
  }

  predicate Fits(job: Job, n: nat) {
    n >= 1 && (job.Write? ==> job.shard < n)
  }

  /** It has taken its `j`th lock and not freed it yet. */
  predicate HoldsAt(th: Thread, n: nat, j: nat) {
    j < th.pc <= 2 * |Locks(th.job, n)| + j
  }

  predicate Holds(th: Thread, n: nat, i: nat) {
    exists j :: 0 <= j < |Locks(th.job, n)| && Locks(th.job, n)[j] == i && HoldsAt(th, n, j)
  }

  predicate Unfinished(w: World, t: nat) {
    t in w.threads && w.threads[t].pc < 3 * |Locks(w.threads[t].job, |w.shards|)|
  }

  /** It is about to take a lock. */
  predicate Locking(w: World, t: nat) {
    t in w.threads && w.threads[t].pc < |Locks(w.threads[t].job, |w.shards|)|
  }

  function Awaited(w: World, t: nat): nat
    requires Locking(w, t)
  {
    Locks(w.threads[t].job, |w.shards|)[w.threads[t].pc]
  }

  predicate Shaped(w: World) {
    |w.owner| == |w.shards| >= 1 && forall t :: t in w.threads ==> Fits(w.threads[t].job, |w.shards|)
  }

  predicate Enabled(w: World, step: Step)
    requires Shaped(w)
  {
    match step
    case Spawn(t, job) => t !in w.threads && Fits(job, |w.shards|)
    case Run(t) => Unfinished(w, t) && (Locking(w, t) ==> w.owner[Awaited(w, t)].None?)
  }

  function Worked(job: Job, db: Db): Db {
    match job
    case Write(_, ev) => Physical(db, ev)
    case Snapshot(now) => View(db, now)
    case FlushAll => map[]
  }

  function Ran(w: World, t: nat): World
    requires Shaped(w) && Unfinished(w, t)
  {
    var th := w.threads[t];
    var locks := Locks(th.job, |w.shards|);
    var m := |locks|;
    if th.pc < m then
      w.(owner := w.owner[locks[th.pc] := Some(t)],
         threads := w.threads[t := th.(pc := th.pc + 1, cut := if th.pc + 1 == m then w.shards else th.cut)])
    else if th.pc < 2 * m then
      var i := locks[th.pc - m];
      var db := Worked(th.job, w.shards[i]);
      w.(shards := w.shards[i := db],
         threads := w.threads[t := th.(pc := th.pc + 1, out := if th.job.Snapshot? then th.out + [db] else th.out)])
    else
      w.(owner := w.owner[locks[th.pc - 2 * m] := None], threads := w.threads[t := th.(pc := th.pc + 1)])
  }

  function Next(w: World, step: Step): World
    requires Shaped(w) && Enabled(w, step)
  {
    match step
    case Spawn(t, job) => w.(threads := w.threads[t := Thread(job, 0, [], [])])
    case Run(t) => Ran(w, t)
  }

  /** A lock has an owner exactly while some thread holds it. */
  ghost predicate Owned(w: World)
    requires Shaped(w)
  {
    forall t, i :: t in w.threads && 0 <= i < |w.shards| ==> (Holds(w.threads[t], |w.shards|, i) <==> w.owner[i] == Some(t))
  }

  ghost predicate OwnersExist(w: World) {
    forall i :: 0 <= i < |w.owner| && w.owner[i].Some? ==> w.owner[i].value in w.threads
  }

  /**
   A snapshot that holds every lock has copied a part of its cut, and the rest still stands as it was; a flush that
   holds every lock has emptied the first shards.
   */
  predicate OnTrack(th: Thread, shards: seq<Db>) {
    var n := |shards|;
    (th.job.FlushAll? && n <= th.pc <= 2 * n ==> forall j :: 0 <= j < th.pc - n ==> shards[j] == map[]) &&
    (th.job.Snapshot? ==>
      |th.out| == (if th.pc <= n then 0 else if th.pc <= 2 * n then th.pc - n else n) &&
      (n <= th.pc ==>
        |th.cut| == n &&
        (forall j :: 0 <= j < |th.out| ==> th.out[j] == View(th.cut[j], th.job.now)) &&
        (forall j :: |th.out| <= j < n ==> shards[j] == th.cut[j])))
  }

  ghost predicate Inv(w: World) {
    Shaped(w) && Owned(w) && OwnersExist(w) && forall t :: t in w.threads ==> OnTrack(w.threads[t], w.shards)
  }

  lemma LocksAscend(job: Job, n: nat, a: nat, b: nat)
    requires a < b < |Locks(job, n)|
    ensures Locks(job, n)[a] < Locks(job, n)[b]
  {
  }

  lemma LocksInRange(job: Job, n: nat, j: nat)
    requires Fits(job, n) && j < |Locks(job, n)|
    ensures Locks(job, n)[j] < n
  {
  }

  /** What one step of a thread does to what it holds. */
  lemma HoldsNext(th: Thread, n: nat, i: nat)
    requires Fits(th.job, n) && th.pc < 3 * |Locks(th.job, n)| && i < n
    ensures var locks, m := Locks(th.job, n), |Locks(th.job, n)|;
            var later := th.(pc := th.pc + 1);
            Holds(later, n, i) <==>
              if th.pc < m && locks[th.pc] == i then true
              else if th.pc >= 2 * m && locks[th.pc - 2 * m] == i then false
              else Holds(th, n, i)
  {
    var locks, m := Locks(th.job, n), |Locks(th.job, n)|;
    var later := th.(pc := th.pc + 1);
    if th.pc < m && locks[th.pc] == i {
      assert HoldsAt(later, n, th.pc);
    } else if th.pc >= 2 * m && locks[th.pc - 2 * m] == i {
      forall j | 0 <= j < m && locks[j] == i
        ensures !HoldsAt(later, n, j)
      {
        assert j == th.pc - 2 * m;
      }
    } else {
      if Holds(th, n, i) {
        var j :| 0 <= j < m && locks[j] == i && HoldsAt(th, n, j);
        assert HoldsAt(later, n, j);
      }
      if Holds(later, n, i) {
        var j :| 0 <= j < m && locks[j] == i && HoldsAt(later, n, j);
        assert HoldsAt(th, n, j);
      }
    }
  }

  lemma SameHolds(a: Thread, b: Thread, n: nat, i: nat)
    requires a.job == b.job && a.pc == b.pc
    ensures Holds(a, n, i) <==> Holds(b, n, i)
  {
    assert forall j: nat :: HoldsAt(a, n, j) <==> HoldsAt(b, n, j);
  }

  lemma HoldsNothing(job: Job, n: nat, i: nat)
    ensures !Holds(Thread(job, 0, [], []), n, i)
  {
  }

  /** A thread at work on a shard, or about to free its lock, holds it. */
  lemma HoldsWhatItUses(th: Thread, n: nat)
    requires Fits(th.job, n) && |Locks(th.job, n)| <= th.pc < 3 * |Locks(th.job, n)|
    ensures var locks, m := Locks(th.job, n), |Locks(th.job, n)|;
            Holds(th, n, locks[if th.pc < 2 * m then th.pc - m else th.pc - 2 * m])
  {
    var m := |Locks(th.job, n)|;
    assert HoldsAt(th, n, if th.pc < 2 * m then th.pc - m else th.pc - 2 * m);
  }

  lemma ShapedNext(w: World, step: Step)
    requires Shaped(w) && OwnersExist(w) && Enabled(w, step)
    ensures Shaped(Next(w, step)) && OwnersExist(Next(w, step))
  {
  }

  lemma OwnedSpawn(w: World, t: nat, job: Job)
    requires Shaped(w) && Owned(w) && OwnersExist(w) && Enabled(w, Spawn(t, job))
    ensures Shaped(Next(w, Spawn(t, job))) && Owned(Next(w, Spawn(t, job)))
  {
    hide Holds, Locks;
    var next := Next(w, Spawn(t, job));
    forall u, i | u in next.threads && 0 <= i < |next.shards|
      ensures Holds(next.threads[u], |next.shards|, i) <==> next.owner[i] == Some(u)
    {
      if u == t { HoldsNothing(job, |w.shards|, i); }
    }
  }

  lemma OwnedRun(w: World, t: nat)
    requires Shaped(w) && Owned(w) && Enabled(w, Run(t))
    ensures Shaped(Ran(w, t)) && Owned(Ran(w, t))
  {
    hide Holds, Worked;
    var next, th, n := Ran(w, t), w.threads[t], |w.shards|;
    var locks, m := Locks(th.job, n), |Locks(th.job, n)|;
    if th.pc >= m { HoldsWhatItUses(th, n); }
    forall u, i | u in next.threads && 0 <= i < n
      ensures Holds(next.threads[u], n, i) <==> next.owner[i] == Some(u)
    {
      assert Holds(w.threads[u], n, i) <==> w.owner[i] == Some(u);
      if u == t {
        HoldsNext(th, n, i);
        SameHolds(next.threads[t], th.(pc := th.pc + 1), n, i);
      }
    }
  }

  /** The shard a thread is about to work on is its own for now. */
  lemma WorksOnItsOwn(w: World, t: nat, u: nat, i: nat)
    requires Shaped(w) && Owned(w) && t in w.threads && u in w.threads && u != t
    requires var th, n := w.threads[t], |w.shards|;
             var m := |Locks(th.job, n)|;
             m <= th.pc < 2 * m && i == Locks(th.job, n)[th.pc - m] && i < n
    ensures !Holds(w.threads[u], |w.shards|, i)
  {
    hide Holds;
    HoldsWhatItUses(w.threads[t], |w.shards|);
    assert w.owner[i] == Some(t);
  }

  lemma CopierHolds(th: Thread, n: nat, i: nat)
    requires !th.job.Write? && n <= th.pc <= 2 * n && i < n
    ensures Holds(th, n, i)
  {
    assert Locks(th.job, n)[i] == i && HoldsAt(th, n, i);
  }

  lemma OthersOnTrack(w: World, t: nat, u: nat)
    requires Inv(w) && Enabled(w, Run(t)) && u in w.threads && u != t
    ensures OnTrack(w.threads[u], Ran(w, t).shards)
  {
    hide Holds, Worked;
    var th, n := w.threads[t], |w.shards|;
    var m := |Locks(th.job, n)|;
    var other := w.threads[u];
    assert OnTrack(other, w.shards);
    if m <= th.pc < 2 * m && !other.job.Write? && n <= other.pc <= 2 * n {
      var i := Locks(th.job, n)[th.pc - m];
      WorksOnItsOwn(w, t, u, i);
      CopierHolds(other, n, i);
    }
  }

  lemma OwnOnTrack(w: World, t: nat)
    requires Inv(w) && Enabled(w, Run(t))
    ensures OnTrack(Ran(w, t).threads[t], Ran(w, t).shards)
  {
    hide Holds, Owned, OwnersExist, View;
    var th := w.threads[t];
    assert OnTrack(th, w.shards);
    if !th.job.Write? {
      assert |Locks(th.job, |w.shards|)| == |w.shards|;
    }
  }

  lemma InvNext(w: World, step: Step)
    requires Inv(w) && Enabled(w, step)
    ensures Inv(Next(w, step))
  {
    hide Owned, OnTrack, OwnersExist, Worked;
    ShapedNext(w, step);
    var next := Next(w, step);
    if step.Spawn? {
      OwnedSpawn(w, step.t, step.job);
      FreshOnTrack(step.job, w.shards);
    } else {
      OwnedRun(w, step.t);
      OwnOnTrack(w, step.t);
      forall u | u in next.threads
        ensures OnTrack(next.threads[u], next.shards)
      {
        if u != step.t { OthersOnTrack(w, step.t, u); }
      }
    }
  }

  lemma FreshOnTrack(job: Job, shards: seq<Db>)
    requires |shards| >= 1
    ensures OnTrack(Thread(job, 0, [], []), shards)
  {
  }

  ghost predicate Path(w: World, steps: seq<Step>)
    decreases |steps|
  {
    steps == [] || (Shaped(w) && Enabled(w, steps[0]) && Path(Next(w, steps[0]), steps[1..]))
  }

  ghost function Reached(w: World, steps: seq<Step>): World
    requires Path(w, steps)
    decreases |steps|
  {
    if steps == [] then w else Reached(Next(w, steps[0]), steps[1..])
  }

  /** At the start no thread runs and every lock is free. */
  predicate Starts(w: World) {
    |w.shards| >= 1 && w.threads == map[] && w.owner == seq(|w.shards|, i => None)
  }

  lemma InvStart(w: World)
    requires Starts(w)
    ensures Inv(w)
  {
  }

  lemma {:induction false} InvReached(w: World, steps: seq<Step>)
    requires Inv(w) && Path(w, steps)
    ensures Inv(Reached(w, steps)) && |Reached(w, steps).shards| == |w.shards|
    decreases |steps|
  {
    hide Inv, Enabled, Next;
    if steps != [] {
      WideInv(w, steps[0]);
      InvReached(Next(w, steps[0]), steps[1..]);
    }
  }

  lemma WideInv(w: World, step: Step)
    requires Inv(w) && Shaped(w) && Enabled(w, step)
    ensures Inv(Next(w, step)) && |Next(w, step).shards| == |w.shards|
  {
    InvNext(w, step);
  }

  lemma {:induction false} OneMore(w: World, steps: seq<Step>, step: Step)
    ensures Path(w, steps + [step]) <==> Path(w, steps) && Shaped(Reached(w, steps)) && Enabled(Reached(w, steps), step)
    ensures Path(w, steps + [step]) ==> Reached(w, steps + [step]) == Next(Reached(w, steps), step)
    decreases |steps|
  {
    hide Enabled, Next, Shaped;
    var all := steps + [step];
    if steps == [] {
      assert all[0] == step && all[1..] == [];
      if Shaped(w) && Enabled(w, step) {
        assert Path(Next(w, step), all[1..]);
        assert Reached(Next(w, step), all[1..]) == Next(w, step);
      }
    } else {
      assert all[0] == steps[0] && all[1..] == steps[1..] + [step];
      if Shaped(w) && Enabled(w, steps[0]) {
        OneMore(Next(w, steps[0]), steps[1..], step);
      }
    }
  }

  /** It does this job and holds every lock of it but the last. */
  predicate TakingItsLast(w: World, t: nat, job: Job, n: nat) {
    t in w.threads && w.threads[t].job == job && w.threads[t].pc + 1 == |Locks(job, n)|
  }

  /** The cut of a thread that has all its locks is the whole store of the moment when it was about to take the last one. */
  lemma {:induction false} CutHappened(w: World, steps: seq<Step>, t: nat) returns (k: nat)
    requires Starts(w) && Path(w, steps)
    requires var end := Reached(w, steps);
             t in end.threads && end.threads[t].pc >= |Locks(end.threads[t].job, |w.shards|)| && Fits(end.threads[t].job, |w.shards|)
    ensures k <= |steps| && Path(w, steps[..k]) && Reached(w, steps[..k]).shards == Reached(w, steps).threads[t].cut
    ensures TakingItsLast(Reached(w, steps[..k]), t, Reached(w, steps).threads[t].job, |w.shards|)
    decreases |steps|
  {
    hide Worked;
    var n := |steps| - 1;
    var front, last := steps[..n], steps[n];
    assert steps == front + [last];
    OneMore(w, front, last);
    InvStart(w);
    InvReached(w, front);
    var mid := Reached(w, front);
    if last.Run? && last.t == t && mid.threads[t].pc < |Locks(mid.threads[t].job, |w.shards|)| {
      k := n;
    } else {
      k := CutHappened(w, front, t);
      assert front[..k] == steps[..k];
    }
  }

  /**
   A consistent cut. Whatever writers run meanwhile, a snapshot's copy is the store of one single moment of its own
   life, the one when only its last lock was missing: all shards together, with the keys expired at the snapshot's own
   clock reading left out.
   */
  lemma SnapshotIsACut(w: World, steps: seq<Step>, t: nat) returns (k: nat)
    requires Starts(w) && Path(w, steps)
    requires var end := Reached(w, steps);
             t in end.threads && end.threads[t].job.Snapshot? && end.threads[t].pc >= 2 * |w.shards|
    ensures k <= |steps| && Path(w, steps[..k])
    ensures TakingItsLast(Reached(w, steps[..k]), t, Reached(w, steps).threads[t].job, |w.shards|)
    ensures var th, moment := Reached(w, steps).threads[t], Reached(w, steps[..k]);
            |th.out| == |moment.shards| == |w.shards| &&
            forall j :: 0 <= j < |w.shards| ==> th.out[j] == View(moment.shards[j], th.job.now)
  {
    InvStart(w);
    InvReached(w, steps);
    k := CutHappened(w, steps, t);
    assert OnTrack(Reached(w, steps).threads[t], Reached(w, steps).shards);
  }

  /** It has emptied some shards and not yet all. */
  predicate Flushing(w: World, t: nat) {
    t in w.threads && w.threads[t].job.FlushAll? && |w.shards| < w.threads[t].pc < 2 * |w.shards|
  }

  ghost predicate SomeFlush(w: World) {
    exists t :: Flushing(w, t)
  }

  function Emptied(n: nat): (shards: seq<Db>)
    ensures |shards| == n && forall i :: 0 <= i < n ==> shards[i] == map[]
  {
    seq(n, i => map[])
  }

  /** The shards as anyone can see them: under the locks of a flush, nobody sees some shards emptied and others not. */
  ghost function Visible(w: World): (shards: seq<Db>)
    ensures |shards| == |w.shards|
  {
    if SomeFlush(w) then Emptied(|w.shards|) else w.shards
  }

  predicate Working(w: World, t: nat) {
    t in w.threads && |Locks(w.threads[t].job, |w.shards|)| <= w.threads[t].pc < 2 * |Locks(w.threads[t].job, |w.shards|)|
  }

  lemma OneHolder(w: World, t: nat, u: nat, i: nat)
    requires Shaped(w) && Owned(w) && t in w.threads && u in w.threads && t != u && i < |w.shards|
    ensures !(Holds(w.threads[t], |w.shards|, i) && Holds(w.threads[u], |w.shards|, i))
  {
    hide Holds;
    assert Holds(w.threads[t], |w.shards|, i) <==> w.owner[i] == Some(t);
    assert Holds(w.threads[u], |w.shards|, i) <==> w.owner[i] == Some(u);
  }

  /** While one thread works under every lock, no other works at all. */
  lemma AloneAtWork(w: World, t: nat, u: nat)
    requires Inv(w) && t != u && Working(w, t) && !w.threads[t].job.Write?
    ensures !Working(w, u)
  {
    hide Holds, OnTrack, Owned;
    if Working(w, u) {
      var other, n := w.threads[u], |w.shards|;
      var k := other.pc - |Locks(other.job, n)|;
      LocksInRange(other.job, n, k);
      OneHolder(w, t, u, Locks(other.job, n)[k]);
      CopierHolds(w.threads[t], n, Locks(other.job, n)[k]);
      HoldsWhatItUses(other, n);
    }
  }

  lemma FlushesAlone(w: World, t: nat)
    requires Inv(w) && Working(w, t)
    ensures SomeFlush(w) <==> Flushing(w, t)
  {
    hide Holds, OnTrack, Owned, Inv;
    forall u | u != t
      ensures !Flushing(w, u)
    {
      FlushWorks(w, u);
      if Flushing(w, u) { AloneAtWork(w, u, t); }
    }
  }

  lemma FlushWorks(w: World, t: nat)
    requires Inv(w)
    ensures Flushing(w, t) ==> Working(w, t) && !w.threads[t].job.Write?
  {
    hide Owned, OnTrack;
  }

  /** Taking or freeing a lock shows nothing. */
  lemma LockingShowsNothing(w: World, step: Step)
    requires Inv(w) && Enabled(w, step) && (step.Run? ==> !Working(w, step.t))
    ensures Visible(Next(w, step)) == Visible(w)
  {
    hide Owned, OnTrack, Worked;
    var next := Next(w, step);
    if SomeFlush(w) {
      var u :| Flushing(w, u);
      FlushWorks(w, u);
      assert Flushing(next, u);
    }
    if SomeFlush(next) {
      var u :| Flushing(next, u);
      assert Flushing(w, u);
    }
  }

  /**
   An atomic flush. Seen from outside, a flush empties the whole store in one step, its first; every other working
   step of any thread changes one shard, as its job says.
   */
  lemma WorkShows(w: World, t: nat)
    requires Inv(w) && Enabled(w, Run(t)) && Working(w, t)
    ensures var job, n := w.threads[t].job, |w.shards|;
            var i := Locks(job, n)[w.threads[t].pc - |Locks(job, n)|];
            i < n && Visible(Ran(w, t)) == if job.FlushAll? then Emptied(n) else Visible(w)[i := Worked(job, Visible(w)[i])]
  {
    hide Owned, OnTrack, Physical, View, Holds;
    var th, n, next := w.threads[t], |w.shards|, Ran(w, t);
    var k := th.pc - |Locks(th.job, n)|;
    LocksInRange(th.job, n, k);
    FlushesAlone(w, t);
    InvNext(w, Run(t));
    forall u | u != t
      ensures !Flushing(next, u)
    {
      FlushWorks(w, u);
      assert Flushing(next, u) ==> Flushing(w, u);
      if Flushing(w, u) { AloneAtWork(w, u, t); }
    }
    if th.job.FlushAll? {
      if th.pc + 1 < 2 * n {
        assert Flushing(next, t);
      } else {
        AllEmptied(next, t);
      }
    } else {
      assert !SomeFlush(next);
    }
  }

  lemma AllEmptied(w: World, t: nat)
    requires Inv(w) && t in w.threads && w.threads[t].job.FlushAll? && w.threads[t].pc == 2 * |w.shards|
    ensures w.shards == Emptied(|w.shards|)
  {
    hide Owned, Holds;
    assert OnTrack(w.threads[t], w.shards);
  }

  predicate Waiting(w: World, t: nat, u: nat)
    requires Shaped(w)
  {
    Locking(w, t) && w.owner[Awaited(w, t)] == Some(u)
  }

  /** Locks are taken in ascending order, so whoever is waited for waits, if at all, for a later lock. */
  lemma WaitsClimb(w: World, t: nat, u: nat)
    requires Inv(w) && Waiting(w, t, u)
    ensures u in w.threads && Unfinished(w, u)
    ensures Locking(w, u) ==> Awaited(w, t) < Awaited(w, u)
  {
    hide OnTrack;
    var other, n, i := w.threads[u], |w.shards|, Awaited(w, t);
    LocksInRange(w.threads[t].job, n, w.threads[t].pc);
    assert Holds(other, n, i);
    var j :| 0 <= j < |Locks(other.job, n)| && Locks(other.job, n)[j] == i && HoldsAt(other, n, j);
    if Locking(w, u) {
      LocksAscend(other.job, n, j, other.pc);
    }
  }

  /** No deadlock: in every state of every run, if some thread is not done then some thread can take a step. */
  lemma {:induction false} SomeoneCanRun(w: World, t: nat) returns (u: nat)
    requires Inv(w) && Unfinished(w, t)
    ensures u in w.threads && Enabled(w, Run(u))
    decreases if Locking(w, t) then |w.shards| - Awaited(w, t) else 0
  {
    hide OnTrack, Owned, Holds;
    if Locking(w, t) && w.owner[Awaited(w, t)].Some? {
      var next := w.owner[Awaited(w, t)].value;
      WaitsClimb(w, t, next);
      LocksInRange(w.threads[t].job, |w.shards|, w.threads[t].pc);
      if Locking(w, next) {
        LocksInRange(w.threads[next].job, |w.shards|, w.threads[next].pc);
        u := SomeoneCanRun(w, next);
      } else {
        u := next;
      }
    } else {
      u := t;
    }
  }

  /** Threads each waiting for the next one. */
  predicate Chain(w: World, ts: seq<nat>)
    requires Shaped(w)
  {
    forall i :: 0 <= i < |ts| - 1 ==> Waiting(w, ts[i], ts[i + 1])
  }

  lemma {:induction false} ChainClimbs(w: World, ts: seq<nat>)
    requires Inv(w) && Chain(w, ts) && |ts| >= 2 && Locking(w, ts[|ts| - 1])
    ensures Locking(w, ts[0]) && Awaited(w, ts[0]) < Awaited(w, ts[|ts| - 1])
    decreases |ts|
  {
    hide Owned, OnTrack;
    var n := |ts| - 1;
    assert Waiting(w, ts[n - 1], ts[n]);
    WaitsClimb(w, ts[n - 1], ts[n]);
    if n >= 2 {
      forall i | 0 <= i < n - 1
        ensures Waiting(w, ts[..n][i], ts[..n][i + 1])
      {
        assert Waiting(w, ts[i], ts[i + 1]);
      }
      ChainClimbs(w, ts[..n]);
    }
  }

  /** No reachable state has a cycle of threads waiting for one another. */
  lemma NoCycle(w: World, steps: seq<Step>, ts: seq<nat>)
    requires Starts(w) && Path(w, steps) && |ts| >= 2
    ensures Inv(Reached(w, steps)) && (ts[0] == ts[|ts| - 1] ==> !Chain(Reached(w, steps), ts))
  {
    hide Inv;
    InvStart(w);
    InvReached(w, steps);
    var end := Reached(w, steps);
    assert Shaped(end) by { ShapedByInv(end); }
    if ts[0] == ts[|ts| - 1] && Chain(end, ts) {
      assert Waiting(end, ts[0], ts[1]);
      ChainClimbs(end, ts);
    }
  }

  lemma ShapedByInv(w: World)
    requires Inv(w)
    ensures Shaped(w)
  {
  }
}
