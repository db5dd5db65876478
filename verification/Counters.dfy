/** Counters and pushes over many operations. */
module Counters {
  import opened ByteStrings
  import opened Keyspace
  import opened Numbers
  import opened Values

  /** The number a key counts from: 0 when absent, its decimal text when it holds one. */
  function NumberOf(live: Option<Record>): Option<int> {
    if live.None? then Some(0)
    else if live.value.value.StrV? then ParseInt(live.value.value.bytes)
    else None
  }

  /** INCRBY succeeds exactly when the exact sum fits in 64 bits, and then the key counts from it; otherwise nothing changes. */
  lemma IncrExact(live: Option<Record>, delta: int, n: int)
    requires NumberOf(live) == Some(n)
    ensures var (after, answer) := IncrByOn(live, delta);
            (answer == Count(n + delta) <==> FitsInt64(n + delta)) &&
            (FitsInt64(n + delta) ==> NumberOf(after) == Some(n + delta) && Deadline(after) == Deadline(live)) &&
            (!FitsInt64(n + delta) ==> after == live && answer == NotInteger)
  {
    if FitsInt64(n + delta) {
      ParseFormat(n + delta);
    }
  }

  function IncrEach(live: Option<Record>, deltas: seq<int>): Option<Record> {
    if deltas == [] then live else IncrByOn(IncrEach(live, deltas[..|deltas| - 1]), deltas[|deltas| - 1]).0
  }

  /** A counter in exact arithmetic that refuses to leave the 64-bit range. */
  function CountEach(n: int, deltas: seq<int>): int {
    if deltas == [] then n
    else
      var m := CountEach(n, deltas[..|deltas| - 1]) + deltas[|deltas| - 1];
      if FitsInt64(m) then m else m - deltas[|deltas| - 1]
  }

  /** Over any chain of increments the stored text is that counter's decimal, whatever is refused on the way. */
  lemma {:induction false} IncrChain(live: Option<Record>, deltas: seq<int>, n: int)
    requires NumberOf(live) == Some(n)
    ensures NumberOf(IncrEach(live, deltas)) == Some(CountEach(n, deltas))
    ensures Deadline(IncrEach(live, deltas)) == Deadline(live)
    decreases |deltas|
  {
    hide IncrByOn, NumberOf, FitsInt64;
    if deltas != [] {
      var k := |deltas| - 1;
      IncrChain(live, deltas[..k], n);
      IncrExact(IncrEach(live, deltas[..k]), deltas[k], CountEach(n, deltas[..k]));
    }
  }

  function PushEach(live: Option<Record>, vals: seq<Bytes>): Option<Record> {
    if vals == [] then live else LPushOn(PushEach(live, vals[..|vals| - 1]), [vals[|vals| - 1]]).0
  }

  /** LPUSH of many values is LPUSH of each in turn. */
  lemma {:induction false} PushManyIsPushEach(live: Option<Record>, vals: seq<Bytes>)
    requires vals != []
    ensures LPushOn(live, vals).0 == PushEach(live, vals)
    decreases |vals|
  {
    var k := |vals| - 1;
    if k > 0 {
      PushManyIsPushEach(live, vals[..k]);
      assert Reversed(vals) == [vals[k]] + Reversed(vals[..k]);
      if AsList(live).Some? {
        assert Reversed([vals[k]]) == [vals[k]];
        assert Reversed(vals) + AsList(live).value == [vals[k]] + (Reversed(vals[..k]) + AsList(live).value);
      }
    } else {
      assert vals == [vals[0]] && vals[..0] == [];
    }
  }
}
