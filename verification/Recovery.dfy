/** What a restart after a crash recovers of a server's history. */
module Recovery {
  import opened Aof
  import opened Clock
  import opened Commands
  import opened History
  import opened LogNormal
  import opened Replay
  import opened Servers
  import opened Values
  import opened Wire

  /** After these acts exactly these commands had been applied. */
  ghost predicate Moment(acts: seq<Act>, items: seq<Item>) {
    LoudPrims(acts) == LivePrims(items)
  }

  lemma {:induction false} CutActs(acts: seq<Act>, c: nat) returns (m: nat)
    requires c <= |LoudPrims(acts)|
    ensures m <= |acts| && LoudPrims(acts[..m]) == LoudPrims(acts)[..c]
    decreases |acts|
  {
    if c == 0 {
      m := 0;
    } else {
      var first := if acts[0].Loud? then [acts[0].prim] else [];
      var rest := CutActs(acts[1..], c - |first|);
      m := rest + 1;
      assert acts[..m][1..] == acts[1..][..rest];
      assert LoudPrims(acts[..m]) == first + LoudPrims(acts[1..][..rest]);
    }
  }

  lemma {:induction false} LivePrimsPrefix(items: seq<Item>, n: nat)
    requires n <= |items|
    ensures LivePrims(items[..n]) <= LivePrims(items)
    decreases |items|
  {
    hide PlanOf, PrimsOf;
    if n > 0 {
      assert items[..n][1..] == items[1..][..n - 1];
      LivePrimsPrefix(items[1..], n - 1);
    }
  }

  /** Wherever the log is cut, there was a moment of the live run when exactly the surviving commands had been applied. */
  lemma SurvivorsHadTheirMoment(acts: seq<Act>, items: seq<Item>, n: nat) returns (m: nat)
    requires Moment(acts, items) && n <= |items|
    ensures m <= |acts| && Moment(acts[..m], items[..n])
  {
    LivePrimsPrefix(items, n);
    m := CutActs(acts, |LivePrims(items[..n])|);
  }

  ghost predicate Ticking(ticks: nat -> Time, now: Time) {
    forall i: nat, j: nat :: i <= j ==> now <= ticks(i) <= ticks(j)
  }

  /** No operation of the log is replayed too late for its key. */
  ghost predicate SameFate(acts: seq<Act>, items: seq<Item>, planned: nat -> Time, ticks: nat -> Time)
    requires AllLogged(items)
  {
    var prims := ReplayPrims(LogOf(items), Firsts(planned, |items|));
    |prims| == |LoudPrims(acts)| && NoneOutlived(map[], map[], acts, prims, Firsts(ticks, |prims|))
  }

  /** The last instant of a replay. */
  ghost function ReplayEnd(items: seq<Item>, planned: nat -> Time, ticks: nat -> Time, now: Time): Time
    requires AllLogged(items)
  {
    LastOf(Firsts(ticks, PrimCount(LogOf(items), planned)), now)
  }

  lemma LogPrefix(items: seq<Item>, n: nat)
    requires AllLogged(items) && n <= |items|
    ensures AllLogged(items[..n]) && LogOf(items[..n]) == LogOf(items)[..n]
  {
    hide AofCommand;
  }

  lemma QuietPrefix(db: Db, acts: seq<Act>, m: nat)
    requires m <= |acts| && AllUnlogged(db, acts)
    ensures AllUnlogged(db, acts[..m])
  {
    assert acts == acts[..m] + acts[m..];
    RunsOn(db, acts[..m], acts[m..]);
  }

  /**
   Crash and restart. Cut a server's log at any byte. The restarted server replays exactly the commands wholly before
   the cut, and its store shadows the store of the moment when those commands had been applied.
   */
  lemma RestartShadows(s: Server, k: nat, m: nat, planned: nat -> Time, ticks: nat -> Time, now: Time, slack: nat)
    requires s.Valid() && s.aof != null && s.intact && s.bounded && k <= |s.aof.file|
    requires s.clock <= now && Ticking(ticks, now) && m <= |s.acts|
    requires var survivors := s.items[..Whole(EncodeCommand, LogOf(s.items), k)];
             AllLoggable(survivors, slack) && Moment(s.acts[..m], survivors) && SameFate(s.acts[..m], survivors, planned, ticks)
    ensures var survivors := s.items[..Whole(EncodeCommand, LogOf(s.items), k)];
            AllLogged(survivors) && ReplayLog(s.aof.file[..k]) == Drained(LogOf(survivors), Clean) &&
            Shadows(LiveRun(map[], s.acts[..m]), BootDb(s.aof.file[..k], planned, ticks),
                    ReplayEnd(survivors, planned, ticks, now), slack)
  {
    hide Shadows, ReplayRun, ReplayPrims, LiveRun, NoneOutlived, Loggable, ReplayLog, EncodeLog, Recorded;
    var n := Whole(EncodeCommand, LogOf(s.items), k);
    var survivors, acts := s.items[..n], s.acts[..m];
    LogPrefix(s.items, n);
    QuietPrefix(map[], s.acts, m);
    assert ActsBy(acts, now) by { assert forall a :: a in acts ==> a in s.acts; }
    var prims := ReplayPrims(LogOf(survivors), Firsts(planned, n));
    CrashRecovery(LogOf(s.items), k, acts, survivors, Firsts(planned, n), Firsts(ticks, |prims|), now, slack);
  }

  /** With nothing cut and every reading a whole millisecond, a restart shows what the server showed, from the last replay instant on. */
  lemma RestartExact(s: Server, planned: nat -> Time, ticks: nat -> Time, now: Time, u: Time)
    requires s.Valid() && s.aof != null && s.intact && s.bounded
    requires s.clock <= now && Ticking(ticks, now)
    requires AllLoggable(s.items, 0) && SameFate(s.acts, s.items, planned, ticks)
    requires ReplayEnd(s.items, planned, ticks, now) <= u
    ensures View(BootDb(s.aof.file, planned, ticks), u) == View(s.store.State().data, u)
  {
    hide Shadows, ReplayRun, ReplayPrims, LiveRun, NoneOutlived, Loggable, EncodeLog, Recorded, BootDb, View;
    var k := |s.aof.file|;
    AllWhole(LogOf(s.items));
    assert s.items[..|s.items|] == s.items && s.acts[..|s.acts|] == s.acts && s.aof.file[..k] == s.aof.file;
    RestartShadows(s, k, |s.acts|, planned, ticks, now, 0);
    ShadowedViews(s.store.State().data, BootDb(s.aof.file, planned, ticks), ReplayEnd(s.items, planned, ticks, now), 0, u);
  }
}
