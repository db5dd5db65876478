/** The operations of one command, run in order, each at its own reading of the clock. */
module Steps {
  import opened Accounting
  import opened ByteStrings
  import opened Clock
  import opened Commands
  import opened Keyspace
  import opened Replay
  import opened Runs
  import opened Values

  ghost function StepsRun(s: Stock, steps: seq<KeyOp>, ts: seq<Time>): Stock
    requires |ts| >= |steps|
    decreases |steps|
  {
    if steps == [] then s
    else
      var n := |steps| - 1;
      StepStock(StepsRun(s, steps[..n], ts), steps[n].key, steps[n].op, ts[n])
  }

  ghost function StepsAnswers(s: Stock, steps: seq<KeyOp>, ts: seq<Time>): (os: seq<Outcome>)
    requires |ts| >= |steps|
    ensures |os| == |steps|
    decreases |steps|
  {
    if steps == [] then []
    else
      var n := |steps| - 1;
      StepsAnswers(s, steps[..n], ts) + [Answer(StepsRun(s, steps[..n], ts).data, steps[n].key, steps[n].op, ts[n])]
  }

  ghost predicate AllShow(specs: seq<Outcome>, outs: seq<Outcome>) {
    |specs| == |outs| && forall i :: 0 <= i < |specs| ==> Shows(specs[i], outs[i])
  }

  /** One more step of the run. */
  lemma StepsMore(s: Stock, steps: seq<KeyOp>, ts: seq<Time>, i: nat)
    requires i < |steps| <= |ts|
    ensures StepsRun(s, steps[..i + 1], ts) == StepStock(StepsRun(s, steps[..i], ts), steps[i].key, steps[i].op, ts[i])
    ensures StepsAnswers(s, steps[..i + 1], ts) ==
            StepsAnswers(s, steps[..i], ts) + [Answer(StepsRun(s, steps[..i], ts).data, steps[i].key, steps[i].op, ts[i])]
  {
    hide StepStock, Answer;
    assert steps[..i + 1][..i] == steps[..i];
  }

  predicate AllBy(ts: seq<Time>, end: Time) {
    forall i :: 0 <= i < |ts| ==> ts[i] <= end
  }

  /** A read changes no view from its instant on. */
  lemma ReadKeepsView(s: Stock, key: Bytes, op: Op, now: Time, end: Time)
    requires now <= end && (ReadOnly(op) || Failed(Answer(s.data, key, op, now)))
    ensures SameView(StepStock(s, key, op, now).data, s.data, end)
  {
    var ev := Do(key, op, now);
    QuietSweeps(s.data, ev);
    SweepKeepsView(s.data, {key}, now);
    SameViewLater(Physical(s.data, ev), s.data, now, end);
  }

  /** Steps that only read change no view from the last of them on. */
  lemma {:induction false} ReadsKeepView(s: Stock, steps: seq<KeyOp>, ts: seq<Time>, end: Time)
    requires |ts| >= |steps| && AllBy(ts, end)
    requires forall i :: 0 <= i < |steps| ==> ReadOnly(steps[i].op)
    ensures SameView(StepsRun(s, steps, ts).data, s.data, end)
    decreases |steps|
  {
    hide StepStock, View;
    if steps != [] {
      var n := |steps| - 1;
      ReadsKeepView(s, steps[..n], ts, end);
      ReadKeepsView(StepsRun(s, steps[..n], ts), steps[n].key, steps[n].op, ts[n], end);
    }
  }
}
