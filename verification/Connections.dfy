/** The server's count of open connections: who may start, and how a shutdown waits for the last one to finish. */
module Connections {
  import opened ByteStrings

  /** A channel that is only ever closed. Closing one twice would panic. */
  class Signal {
    ghost const id: nat
    var closed: bool

    constructor (ghost id: nat)
      ensures this.id == id && !closed
    {
      this.id, closed := id, false;
    }

    method Close()
      requires !closed
      modifies this
      ensures closed
    {
      closed := true;
    }
  }

  /** The count as a value: `made` numbers the channels, `closings` lists those closed so far. */
  datatype Conns = Conns(closing: bool, active: int, drained: Option<nat>, made: nat, closings: seq<nat>)

  function Tracked(s: Conns): Conns {
    if s.closing then s
    else if s.active == 0 then s.(active := 1, drained := Some(s.made), made := s.made + 1)
    else s.(active := s.active + 1)
  }

  function Finished(s: Conns): Conns {
    if s.active == 1 && s.drained.Some? then s.(active := 0, drained := None, closings := s.closings + [s.drained.value])
    else s.(active := s.active - 1)
  }

  /** There is a channel to wait on exactly while a connection is tracked, and every other channel was closed once, in turn. */
  predicate Sound(s: Conns) {
    s.active >= 0 && (s.drained.Some? <==> s.active > 0) &&
    (if s.drained.Some? then s.made == s.drained.value + 1 && s.closings == FirstIds(s.drained.value)
     else s.closings == FirstIds(s.made))
  }

  function FirstIds(n: nat): (ids: seq<nat>)
    ensures |ids| == n && forall i :: 0 <= i < n ==> ids[i] == i
  {
    if n == 0 then [] else FirstIds(n - 1) + [n - 1]
  }

  class Tracker {
    var closing: bool
    var activeConns: int
    var drained: Signal?
    ghost var made: nat
    ghost var closings: seq<nat>

    ghost function State(): Conns
      reads this
    {
      Conns(closing, activeConns, if drained == null then None else Some(drained.id), made, closings)
    }

    ghost predicate Valid()
      reads this, drained
    {
      Sound(State()) && (drained != null ==> !drained.closed)
    }

    constructor ()
      ensures Valid() && State() == Conns(false, 0, None, 0, [])
    {
      closing, activeConns, drained := false, 0, null;
      made, closings := 0, [];
    }

    method BeginClosing()
      requires Valid()
      modifies this
      ensures Valid() && State() == old(State()).(closing := true)
    {
      closing := true;
    }

    method TrackConn() returns (ok: bool)
      requires Valid()
      modifies this
      ensures Valid() && ok == !old(closing) && State() == Tracked(old(State()))
    {
      if closing { return false; }
      if activeConns == 0 {
        drained := new Signal(made);
        made := made + 1;
      }
      activeConns := activeConns + 1;
      ok := true;
    }

    /** The last connection to finish closes the channel, and forgets it. */
    method FinishConn()
      requires Valid() && activeConns > 0
      modifies this, drained
      ensures Valid() && State() == Finished(old(State()))
      ensures old(drained) != null ==> old(drained).closed == (activeConns == 0)
    {
      activeConns := activeConns - 1;
      if activeConns == 0 && drained != null {
        drained.Close();
        closings := closings + [drained.id];
        drained := null;
      }
    }

    /** The locked half of `waitForConnections`: the channel to wait on, if there is anything to wait for. */
    method WhatToAwait() returns (done: Signal?)
      requires Valid()
      ensures if activeConns == 0 then done == null else done != null && State().drained == Some(done.id) && !done.closed
    {
      if activeConns == 0 { return null; }
      done := drained;
    }
  }

  /** How far one connection has come. Its deferred calls run in this order, after a return and after a panic alike. */
  datatype Phase = Slotted | Refused | Serving | Leaving | Unsubscribed | Unslotted | Untracked | Closed

  predicate HoldsSlot(p: Phase) {
    p.Slotted? || p.Refused? || p.Serving? || p.Leaving? || p.Unsubscribed?
  }

  predicate IsTracked(p: Phase) {
    p.Serving? || p.Leaving? || p.Unsubscribed? || p.Unslotted?
  }

  datatype Closer = Open | Closing | Waiting(done: nat) | Drained | TimedOut | LogClosed(timedOut: bool)

  /** Connections are numbered. `freed` counts the releases of each one's slot, `appends` the commands appended to the log. */
  datatype World = World(conns: Conns, slots: nat, phases: map<nat, Phase>, closer: Closer, freed: multiset<nat>, appends: nat)

  datatype Step =
    | Acquire(c: nat)
    | Track(c: nat)
    | GiveBack(c: nat)
    | Serve(c: nat, appends: bool)
    | Leave(c: nat, panics: bool)
    | Unsubscribe(c: nat)
    | Release(c: nat)
    | Finish(c: nat)
    | CloseConn(c: nat)
    | BeginClose
    | Await
    | Wake
    | TimeOut
    | CloseLog

  predicate At(w: World, c: nat, p: Phase) {
    c in w.phases && w.phases[c] == p
  }

  /** `limit` is the number of slots; 0 means no limit, and then no slot is ever taken. */
  predicate Enabled(w: World, limit: nat, step: Step) {
    match step
    case Acquire(c) => c !in w.phases && (limit > 0 ==> w.slots < limit)
    case Track(c) => At(w, c, Slotted)
    case GiveBack(c) => At(w, c, Refused)
    case Serve(c, _) => At(w, c, Serving)
    case Leave(c, _) => At(w, c, Serving)
    case Unsubscribe(c) => At(w, c, Leaving)
    case Release(c) => At(w, c, Unsubscribed)
    case Finish(c) => At(w, c, Unslotted)
    case CloseConn(c) => At(w, c, Untracked)
    case BeginClose => w.closer.Open?
    case Await => w.closer.Closing?
    case Wake => w.closer.Waiting? && w.closer.done in w.conns.closings
    case TimeOut => w.closer.Waiting?
    case CloseLog => w.closer.Drained? || w.closer.TimedOut?
  }

  function Moved(w: World, c: nat, p: Phase): World {
    w.(phases := w.phases[c := p])
  }

  /** Receiving from the slot channel; with no slot in it, the receive would block for good. */
  function Unslot(w: World, limit: nat, c: nat, p: Phase): World {
    Moved(w, c, p).(slots := if limit > 0 && w.slots > 0 then w.slots - 1 else w.slots, freed := w.freed + multiset{c})
  }

  function Next(w: World, limit: nat, step: Step): World {
    match step
    case Acquire(c) => Moved(w, c, Slotted).(slots := if limit > 0 then w.slots + 1 else w.slots)
    case Track(c) => Moved(w, c, if w.conns.closing then Refused else Serving).(conns := Tracked(w.conns))
    case GiveBack(c) => Unslot(w, limit, c, Closed)
    case Serve(c, appends) => w.(appends := if appends then w.appends + 1 else w.appends)
    case Leave(c, _) => Moved(w, c, Leaving)
    case Unsubscribe(c) => Moved(w, c, Unsubscribed)
    case Release(c) => Unslot(w, limit, c, Unslotted)
    case Finish(c) => Moved(w, c, Untracked).(conns := Finished(w.conns))
    case CloseConn(c) => Moved(w, c, Closed)
    case BeginClose => w.(conns := w.conns.(closing := true), closer := Closing)
    case Await => w.(closer := if w.conns.active == 0 then Drained else Waiting(w.conns.drained.GetOr(w.conns.made)))
    case Wake => w.(closer := Drained)
    case TimeOut => w.(closer := TimedOut)
    case CloseLog => w.(closer := LogClosed(w.closer.TimedOut?))
  }

  const START: World := World(Conns(false, 0, None, 0, []), 0, map[], Open, multiset{}, 0)

  ghost predicate Path(w: World, limit: nat, steps: seq<Step>)
    decreases |steps|
  {
    steps == [] || (Enabled(w, limit, steps[0]) && Path(Next(w, limit, steps[0]), limit, steps[1..]))
  }

  ghost function Reached(w: World, limit: nat, steps: seq<Step>): World
    decreases |steps|
  {
    if steps == [] then w else Reached(Next(w, limit, steps[0]), limit, steps[1..])
  }

  function Having(phases: map<nat, Phase>, holds: Phase -> bool): set<nat> {
    set c | c in phases && holds(phases[c])
  }

  /** The closer has seen the last tracked connection out. */
  predicate SawOut(c: Closer) {
    c.Drained? || c == LogClosed(false)
  }

  /** The counters say what the connections' phases say, and each slot is freed once, when its connection is past needing it. */
  ghost predicate Counts(w: World, limit: nat) {
    w.conns.active == |Having(w.phases, IsTracked)| &&
    w.slots == (if limit > 0 then |Having(w.phases, HoldsSlot)| else 0) && (limit > 0 ==> w.slots <= limit) &&
    forall c :: w.freed[c] == if c in w.phases && !HoldsSlot(w.phases[c]) then 1 else 0
  }

  /** A closer waits for the present channel or for a closed one, and goes on by itself only with no connection tracked. */
  predicate Awaits(w: World) {
    (w.closer.Open? <==> !w.conns.closing) &&
    (w.closer.Waiting? ==> w.conns.drained == Some(w.closer.done) || (w.conns.drained.None? && w.closer.done in w.conns.closings)) &&
    (SawOut(w.closer) ==> w.conns.active == 0)
  }

  ghost predicate Inv(w: World, limit: nat) {
    Sound(w.conns) && Counts(w, limit) && Awaits(w)
  }

  lemma HavingMoved(phases: map<nat, Phase>, c: nat, p: Phase, holds: Phase -> bool)
    ensures |Having(phases[c := p], holds)| == |Having(phases, holds)|
      - (if c in phases && holds(phases[c]) then 1 else 0) + (if holds(p) then 1 else 0)
  {
    var before, after := Having(phases, holds), Having(phases[c := p], holds);
    forall d
      ensures d in after - {c} <==> d in before - {c}
    {
    }
    assert after - {c} == before - {c};
    SizeBut(before, c);
    SizeBut(after, c);
  }

  lemma SizeBut(s: set<nat>, c: nat)
    ensures |s| == |s - {c}| + if c in s then 1 else 0
  {
    if c in s {
      assert s == (s - {c}) + {c};
    } else {
      assert s == s - {c};
    }
  }

  lemma SoundTracked(s: Conns)
    requires Sound(s)
    ensures Sound(Tracked(s)) && Tracked(s).active == s.active + if s.closing then 0 else 1
    ensures s.closing ==> Tracked(s) == s
  {
  }

  lemma SoundFinished(s: Conns)
    requires Sound(s) && s.active > 0
    ensures Sound(Finished(s)) && Finished(s).active == s.active - 1
    ensures Finished(s).drained == s.drained || (Finished(s).drained.None? && s.drained.Some? && s.drained.value in Finished(s).closings)
    ensures s.closings <= Finished(s).closings
  {
    if s.active == 1 {
      assert Finished(s).closings[|s.closings|] == s.drained.value;
    }
  }

  lemma InvStart(limit: nat)
    ensures Inv(START, limit)
  {
    assert Having(map[], IsTracked) == {} && Having(map[], HoldsSlot) == {};
  }

  lemma TrackedFromSet(w: World, limit: nat, c: nat)
    requires Counts(w, limit) && c in w.phases
    ensures IsTracked(w.phases[c]) ==> w.conns.active > 0
    ensures HoldsSlot(w.phases[c]) && limit > 0 ==> w.slots > 0
  {
    if IsTracked(w.phases[c]) { assert c in Having(w.phases, IsTracked); }
    if HoldsSlot(w.phases[c]) { assert c in Having(w.phases, HoldsSlot); }
  }

  function Weight(yes: bool): int {
    if yes then 1 else 0
  }

  /** The counters move with the one connection that does. */
  lemma CountsMoved(w: World, next: World, limit: nat, c: nat, p: Phase)
    requires Counts(w, limit) && next.phases == w.phases[c := p]
    requires var held, tracked := c in w.phases && HoldsSlot(w.phases[c]), c in w.phases && IsTracked(w.phases[c]);
             next.conns.active == w.conns.active - Weight(tracked) + Weight(IsTracked(p)) &&
             next.slots == (if limit > 0 then w.slots - Weight(held) + Weight(HoldsSlot(p)) else 0) &&
             (limit > 0 ==> next.slots <= limit) && (c !in w.phases || held || !HoldsSlot(p)) &&
             (c !in w.phases ==> HoldsSlot(p)) &&
             next.freed == w.freed + if held && !HoldsSlot(p) then multiset{c} else multiset{}
    ensures Counts(next, limit)
  {
    hide Having;
    BothMoved(w, c, p);
  }

  lemma FinishCounts(w: World, limit: nat, c: nat)
    requires Sound(w.conns) && Counts(w, limit) && At(w, c, Unslotted)
    ensures Counts(Next(w, limit, Finish(c)), limit)
  {
    hide Having, FirstIds, Counts, Sound, Finished;
    SlotsCounted(w, limit);
    TrackedFromSet(w, limit, c);
    SoundFinished(w.conns);
    CountsMoved(w, Next(w, limit, Finish(c)), limit, c, Untracked);
  }

  lemma FreeCounts(w: World, limit: nat, step: Step)
    requires Counts(w, limit) && Enabled(w, limit, step) && (step.Release? || step.GiveBack?)
    ensures Counts(Next(w, limit, step), limit)
  {
    hide Having, Counts;
    SlotsCounted(w, limit);
    TrackedFromSet(w, limit, step.c);
    CountsMoved(w, Next(w, limit, step), limit, step.c, if step.Release? then Unslotted else Closed);
  }

  lemma StartCounts(w: World, limit: nat, step: Step)
    requires Sound(w.conns) && Counts(w, limit) && Enabled(w, limit, step) && (step.Acquire? || step.Track?)
    ensures Counts(Next(w, limit, step), limit)
  {
    hide Having, FirstIds, Counts, Sound, Tracked;
    SlotsCounted(w, limit);
    SoundTracked(w.conns);
    var p := if step.Acquire? then Slotted else if w.conns.closing then Refused else Serving;
    CountsMoved(w, Next(w, limit, step), limit, step.c, p);
  }

  lemma MoveCounts(w: World, limit: nat, step: Step)
    requires Counts(w, limit) && Enabled(w, limit, step) && (step.Leave? || step.Unsubscribe? || step.CloseConn?)
    ensures Counts(Next(w, limit, step), limit)
  {
    hide Having, Counts;
    SlotsCounted(w, limit);
    var p := if step.Leave? then Leaving else if step.Unsubscribe? then Unsubscribed else Closed;
    CountsMoved(w, Next(w, limit, step), limit, step.c, p);
  }

  lemma CountsNext(w: World, limit: nat, step: Step)
    requires Sound(w.conns) && Counts(w, limit) && Enabled(w, limit, step)
    ensures Counts(Next(w, limit, step), limit)
  {
    hide Having, FirstIds, Sound, Awaits, Counts;
    if step.Finish? {
      FinishCounts(w, limit, step.c);
    } else if step.Release? || step.GiveBack? {
      FreeCounts(w, limit, step);
    } else if step.Acquire? || step.Track? {
      StartCounts(w, limit, step);
    } else if step.Leave? || step.Unsubscribe? || step.CloseConn? {
      MoveCounts(w, limit, step);
    } else {
      SameCounts(w, Next(w, limit, step), limit);
    }
  }

  lemma SlotsCounted(w: World, limit: nat)
    requires Counts(w, limit)
    ensures limit > 0 ==> w.slots <= limit
    ensures limit == 0 ==> w.slots == 0
  {
  }

  lemma SameCounts(w: World, next: World, limit: nat)
    requires Counts(w, limit)
    requires next.phases == w.phases && next.conns.active == w.conns.active && next.slots == w.slots && next.freed == w.freed
    ensures Counts(next, limit)
  {
  }

  lemma AwaitsNext(w: World, limit: nat, step: Step)
    requires Inv(w, limit) && Enabled(w, limit, step)
    ensures Sound(Next(w, limit, step).conns) && Awaits(Next(w, limit, step))
  {
    hide Having, FirstIds, Counts;
    SoundTracked(w.conns);
    if step.Finish? {
      TrackedFromSet(w, limit, step.c);
      SoundFinished(w.conns);
    }
  }

  lemma InvNext(w: World, limit: nat, step: Step)
    requires Inv(w, limit) && Enabled(w, limit, step)
    ensures Inv(Next(w, limit, step), limit)
  {
    hide Counts, Awaits, Sound;
    CountsNext(w, limit, step);
    AwaitsNext(w, limit, step);
  }

  lemma BothMoved(w: World, c: nat, p: Phase)
    ensures var before := w.phases;
            |Having(before[c := p], IsTracked)| == |Having(before, IsTracked)|
              - (if c in before && IsTracked(before[c]) then 1 else 0) + (if IsTracked(p) then 1 else 0) &&
            |Having(before[c := p], HoldsSlot)| == |Having(before, HoldsSlot)|
              - (if c in before && HoldsSlot(before[c]) then 1 else 0) + (if HoldsSlot(p) then 1 else 0)
  {
    HavingMoved(w.phases, c, p, IsTracked);
    HavingMoved(w.phases, c, p, HoldsSlot);
  }

  lemma {:induction false} InvReached(w: World, limit: nat, steps: seq<Step>)
    requires Inv(w, limit) && Path(w, limit, steps)
    ensures Inv(Reached(w, limit, steps), limit)
    decreases |steps|
  {
    hide Inv, Enabled, Next;
    if steps != [] {
      InvNext(w, limit, steps[0]);
      InvReached(Next(w, limit, steps[0]), limit, steps[1..]);
    }
  }

  /**
   In every state a server can reach: a channel to wait on exists exactly while a connection is tracked, and each
   earlier one was closed exactly once; no more slots are taken than there are, and each connection's slot has been
   freed once if it is past its release, and never before.
   */
  lemma EveryReachableState(limit: nat, steps: seq<Step>)
    requires Path(START, limit, steps)
    ensures var w := Reached(START, limit, steps);
            (w.conns.drained.Some? <==> w.conns.active > 0) &&
            w.conns.active == |Having(w.phases, IsTracked)| && (limit > 0 ==> w.slots <= limit) &&
            (forall i, j :: 0 <= i < j < |w.conns.closings| ==> w.conns.closings[i] != w.conns.closings[j]) &&
            |w.conns.closings| + (if w.conns.drained.Some? then 1 else 0) == w.conns.made &&
            forall c :: c in w.phases ==> w.freed[c] == if HoldsSlot(w.phases[c]) then 0 else 1
  {
    InvStart(limit);
    InvReached(START, limit, steps);
  }

  /** Neither a release nor the closer ever blocks for want of something that will not come. */
  lemma NoLostWakeup(limit: nat, steps: seq<Step>)
    requires Path(START, limit, steps)
    ensures var w := Reached(START, limit, steps);
            (w.closer.Waiting? && w.conns.active == 0 ==> Enabled(w, limit, Wake)) &&
            forall c :: (At(w, c, Unsubscribed) || At(w, c, Refused)) && limit > 0 ==> w.slots > 0
  {
    InvStart(limit);
    InvReached(START, limit, steps);
    var w := Reached(START, limit, steps);
    forall c | (At(w, c, Unsubscribed) || At(w, c, Refused)) && limit > 0
      ensures w.slots > 0
    {
      TrackedFromSet(w, limit, c);
    }
  }

  lemma NoneTracked(w: World, limit: nat)
    requires Inv(w, limit) && w.conns.active == 0
    ensures forall c :: c in w.phases ==> !IsTracked(w.phases[c])
  {
    forall c | c in w.phases
      ensures !IsTracked(w.phases[c])
    {
      TrackedFromSet(w, limit, c);
    }
  }

  /** Once the closer has seen the last connection out, it stays that way, whatever happens next. */
  lemma {:induction false} QuietAfter(w: World, limit: nat, steps: seq<Step>)
    requires Inv(w, limit) && SawOut(w.closer) && Path(w, limit, steps)
    ensures var end := Reached(w, limit, steps);
            SawOut(end.closer) && end.conns.active == 0 && end.appends == w.appends
    decreases |steps|
  {
    hide Counts, Sound;
    if steps != [] {
      NoneTracked(w, limit);
      InvNext(w, limit, steps[0]);
      QuietAfter(Next(w, limit, steps[0]), limit, steps[1..]);
    }
  }

  /**
   Shutdown drains. When Close gets past waiting without a timeout, no connection is tracked, none is tracked ever
   again, and no command is appended to the log any more.
   */
  lemma ShutdownDrains(limit: nat, before: seq<Step>, later: seq<Step>)
    requires Path(START, limit, before) && SawOut(Reached(START, limit, before).closer)
    requires Path(Reached(START, limit, before), limit, later)
    ensures var mid, end := Reached(START, limit, before), Reached(Reached(START, limit, before), limit, later);
            end.appends == mid.appends && end.conns.active == 0 &&
            forall c :: c in end.phases ==> !IsTracked(end.phases[c])
  {
    hide Inv;
    InvStart(limit);
    InvReached(START, limit, before);
    var mid := Reached(START, limit, before);
    QuietAfter(mid, limit, later);
    InvReached(mid, limit, later);
    NoneTracked(Reached(mid, limit, later), limit);
  }

  /** After closing has begun, no connection starts to be tracked. */
  lemma NoneAfterClosing(w: World, limit: nat, step: Step, c: nat)
    requires Enabled(w, limit, step) && w.conns.closing
    ensures Next(w, limit, step).conns.closing
    ensures var next := Next(w, limit, step);
            c in next.phases && IsTracked(next.phases[c]) ==> c in w.phases && IsTracked(w.phases[c])
  {
  }

  predicate BetweenReleaseAndFinish(p: Phase) {
    p.Unslotted?
  }

  /**
   The slots bound the active connections but for those that have given their slot back and are not yet counted out; with
   none of those, no more connections are active than there are slots.
   */
  lemma ActiveWithinSlots(limit: nat, steps: seq<Step>)
    requires Path(START, limit, steps) && limit > 0
    ensures var w := Reached(START, limit, steps);
            w.conns.active <= limit + |Having(w.phases, BetweenReleaseAndFinish)| &&
            ((forall c :: c in w.phases ==> !w.phases[c].Unslotted?) ==> w.conns.active <= limit)
  {
    InvStart(limit);
    InvReached(START, limit, steps);
    var w := Reached(START, limit, steps);
    var held, between := Having(w.phases, HoldsSlot), Having(w.phases, BetweenReleaseAndFinish);
    assert Having(w.phases, IsTracked) <= held + between;
    NoLarger(Having(w.phases, IsTracked), held + between);
    assert (forall c :: c in w.phases ==> !w.phases[c].Unslotted?) ==> between == {};
    assert |held + between| <= |held| + |between| by { assert held + between == held + (between - held); NoLarger(between - held, between); }
  }

  lemma NoLarger(a: set<nat>, b: set<nat>)
    requires a <= b
    ensures |a| <= |b|
  {
    assert b == a + (b - a);
  }

  /** Whatever the number of slots, any number of connections can be active: each gives its slot back before it is counted out. */
  lemma {:induction false} MoreActiveThanSlots(limit: nat, n: nat) returns (steps: seq<Step>)
    requires limit > 0
    ensures Path(START, limit, steps) && Reached(START, limit, steps).conns.active == n
    ensures var w := Reached(START, limit, steps);
            w.slots == 0 && !w.conns.closing && forall c :: c in w.phases ==> c < n
    decreases n
  {
    hide Path, Reached;
    if n == 0 {
      steps := [];
      PathEnds(START, limit);
    } else {
      var front := MoreActiveThanSlots(limit, n - 1);
      var c := n - 1;
      var w := Reached(START, limit, front);
      var more := [Acquire(c), Track(c), Leave(c, false), Unsubscribe(c), Release(c)];
      OneComesAndLeaves(w, limit, c);
      GoesOn(START, limit, front, more);
      steps := front + more;
      InvStart(limit);
      InvReached(START, limit, front);
    }
  }

  lemma OneComesAndLeaves(w: World, limit: nat, c: nat)
    requires limit > 0 && w.slots == 0 && !w.conns.closing && c !in w.phases && w.conns.active >= 0
    ensures var more := [Acquire(c), Track(c), Leave(c, false), Unsubscribe(c), Release(c)];
            Path(w, limit, more) &&
            var last := Reached(w, limit, more);
            last.slots == 0 && !last.conns.closing && last.conns.active == w.conns.active + 1 &&
            last.phases == w.phases[c := Unslotted]
  {
    hide Path, Reached;
    var more := [Acquire(c), Track(c), Leave(c, false), Unsubscribe(c), Release(c)];
    var w1 := Next(w, limit, more[0]);
    var w2 := Next(w1, limit, more[1]);
    var w3 := Next(w2, limit, more[2]);
    var w4 := Next(w3, limit, more[3]);
    var w5 := Next(w4, limit, more[4]);
    assert more[5..] == [] && more[0..] == more;
    PathEnds(w5, limit);
    OneOn(w4, limit, more, 4);
    OneOn(w3, limit, more, 3);
    OneOn(w2, limit, more, 2);
    OneOn(w1, limit, more, 1);
    OneOn(w, limit, more, 0);
  }

  lemma {:induction false} GoesOn(w: World, limit: nat, a: seq<Step>, b: seq<Step>)
    requires Path(w, limit, a)
    ensures Path(w, limit, a + b) <==> Path(Reached(w, limit, a), limit, b)
    ensures Reached(w, limit, a + b) == Reached(Reached(w, limit, a), limit, b)
    decreases |a|
  {
    hide Next, Enabled;
    if a == [] {
      assert a + b == b;
    } else {
      assert (a + b)[0] == a[0] && (a + b)[1..] == a[1..] + b;
      GoesOn(Next(w, limit, a[0]), limit, a[1..], b);
    }
  }

  lemma PathEnds(w: World, limit: nat)
    ensures Path(w, limit, []) && Reached(w, limit, []) == w
  {
  }

  lemma OneOn(w: World, limit: nat, steps: seq<Step>, i: nat)
    requires i < |steps|
    ensures Path(w, limit, steps[i..]) <==>
              Enabled(w, limit, steps[i]) && Path(Next(w, limit, steps[i]), limit, steps[i + 1..])
    ensures Enabled(w, limit, steps[i]) ==>
              Reached(w, limit, steps[i..]) == Reached(Next(w, limit, steps[i]), limit, steps[i + 1..])
  {
    assert steps[i..][0] == steps[i] && steps[i..][1..] == steps[i + 1..];
  }
}
