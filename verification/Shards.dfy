/**
 One shard of the store: a map of entries that its operations mutate in place, with its running memory estimate.
 Each operation is the code that runs under the shard's lock; `now` is its reading of the clock.
 */
module Shards {
  import opened Accounting
  import opened ByteStrings
  import opened Clock
  import opened Commands
  import opened Keyspace
  import opened Numbers
  import opened Sharding
  import opened SnapshotEntries
  import opened Values

  lemma ElementsStep(s: seq<Bytes>, i: nat)
    requires i < |s|
    ensures Elements(s[..i + 1]) == Elements(s[..i]) + {s[i]}
  {
  }

  lemma AddStep(members: set<Bytes>, vals: seq<Bytes>, i: nat)
    requires i < |vals|
    ensures var mid, next := members + Elements(vals[..i]), members + Elements(vals[..i + 1]);
            next == mid + {vals[i]} && |next| == |mid| + if vals[i] in mid then 0 else 1
  {
    ElementsStep(vals, i);
    var mid, next := members + Elements(vals[..i]), members + Elements(vals[..i + 1]);
    assert next == mid + {vals[i]};
    if vals[i] in mid { assert next == mid; }
  }

  lemma RemoveStep(members: set<Bytes>, gone: seq<Bytes>, i: nat)
    requires i < |gone|
    ensures var mid, next := members - Elements(gone[..i]), members - Elements(gone[..i + 1]);
            next == mid - {gone[i]} && |next| == |mid| - if gone[i] in mid then 1 else 0
  {
    ElementsStep(gone, i);
    var mid, next := members - Elements(gone[..i]), members - Elements(gone[..i + 1]);
    assert next == mid - {gone[i]};
    if gone[i] !in mid { assert next == mid; }
  }

  lemma FieldsStep(fields: map<Bytes, Bytes>, gone: seq<Bytes>, i: nat)
    requires i < |gone|
    ensures var left, next := fields - Elements(gone[..i]), fields - Elements(gone[..i + 1]);
            next == left - {gone[i]} && |next| == |left| - if gone[i] in left then 1 else 0
  {
    ElementsStep(gone, i);
    var left, next := fields - Elements(gone[..i]), fields - Elements(gone[..i + 1]);
    assert next == left - {gone[i]};
    if gone[i] in left {
      assert left == next[gone[i] := left[gone[i]]];
    } else {
      assert left == next;
    }
  }

  class Entry {
    var value: Value
    var expireAt: Time

    constructor (value: Value, expireAt: Time)
      ensures this.value == value && this.expireAt == expireAt
    {
      this.value, this.expireAt := value, expireAt;
    }

    ghost function Rec(): Record
      reads this
    {
      Record(value, expireAt)
    }

    predicate IsExpired(now: Time)
      reads this
      ensures IsExpired(now) == Expired(Rec(), now)
    {
      expireAt != NEVER && now > expireAt
    }

    /** Deletes fields from the entry's own map, counting those that were there. */
    method DeleteFields(gone: seq<Bytes>) returns (n: nat)
      requires value.HashV?
      modifies this`value
      ensures value == HashV(old(value.fields) - Elements(gone))
      ensures n == |old(value.fields)| - |value.fields|
    {
      n := 0;
      ghost var fields := value.fields;
      for i := 0 to |gone|
        invariant value == HashV(fields - Elements(gone[..i]))
        invariant n == |fields| - |value.fields|
      {
        FieldsStep(fields, gone, i);
        if gone[i] in value.fields {
          value := HashV(value.fields - {gone[i]});
          n := n + 1;
        }
      }
      assert gone[..|gone|] == gone;
    }

    method AddMembers(vals: seq<Bytes>) returns (n: nat)
      requires value.SetV?
      modifies this`value
      ensures value == SetV(old(value.members) + Elements(vals))
      ensures n == |value.members| - |old(value.members)|
    {
      n := 0;
      ghost var members := value.members;
      for i := 0 to |vals|
        invariant value == SetV(members + Elements(vals[..i]))
        invariant n == |value.members| - |members|
      {
        AddStep(members, vals, i);
        if vals[i] !in value.members {
          value := SetV(value.members + {vals[i]});
          n := n + 1;
        }
      }
      assert vals[..|vals|] == vals;
    }

    method RemoveMembers(gone: seq<Bytes>) returns (n: nat)
      requires value.SetV?
      modifies this`value
      ensures value == SetV(old(value.members) - Elements(gone))
      ensures n == |old(value.members)| - |value.members|
    {
      n := 0;
      ghost var members := value.members;
      for i := 0 to |gone|
        invariant value == SetV(members - Elements(gone[..i]))
        invariant n == |members| - |value.members|
      {
        RemoveStep(members, gone, i);
        if gone[i] in value.members {
          value := SetV(value.members - {gone[i]});
          n := n + 1;
        }
      }
      assert gone[..|gone|] == gone;
    }
  }

  /** The fields and values of a hash, in any order of the fields. */
  method ListFields(fields: map<Bytes, Bytes>) returns (items: seq<Bytes>)
    ensures Shows(Fields(fields), Items(items))
  {
    var todo := fields.Keys;
    items := [];
    ghost var order := [];
    while todo != {}
      invariant todo <= fields.Keys && Lists(order, fields.Keys - todo) && items == Flattened(order, fields)
    {
      var f :| f in todo;
      todo := todo - {f};
      items := items + [f, fields[f]];
      assert f !in Elements(order);
      assert (order + [f])[..|order|] == order;
      assert Elements(order + [f]) == Elements(order) + {f};
      order := order + [f];
    }
  }

  /** `entryApproxMemory` */
  method EntryApproxMemory(key: Bytes, e: Entry) returns (total: int)
    ensures total == EntrySize(key, e.Rec())
  {
    total := |key|;
    match e.value {
      case StrV(bytes) => total := total + |bytes|;
      case ListV(items) =>
        for i := 0 to |items|
          invariant total == |key| + ListSize(items[..i])
        {
          assert items[..i + 1] == items[..i] + [items[i]];
          ListSizeConcat(items[..i], [items[i]]);
          total := total + |items[i]|;
        }
        assert items[..|items|] == items;
      case HashV(fields) =>
        var todo := fields.Keys;
        ghost var weights := FieldWeights(fields);
        while todo != {}
          invariant weights.Keys == todo <= fields.Keys
          invariant forall f :: f in todo ==> weights[f] == |f| + |fields[f]|
          invariant total + Total(weights) == |key| + Total(FieldWeights(fields))
        {
          var f :| f in todo;
          TotalTakeOut(weights, f);
          total := total + |f| + |fields[f]|;
          todo, weights := todo - {f}, weights - {f};
        }
      case SetV(members) =>
        var todo := members;
        ghost var weights := MemberWeights(members);
        while todo != {}
          invariant weights.Keys == todo <= members
          invariant forall m :: m in todo ==> weights[m] == |m|
          invariant total + Total(weights) == |key| + Total(MemberWeights(members))
        {
          var m :| m in todo;
          TotalTakeOut(weights, m);
          total := total + |m|;
          todo, weights := todo - {m}, weights - {m};
        }
    }
  }

  /** The new list of LPUSH, filled in one allocation: the pushed values end up in reverse. */
  method Prepend(vals: seq<Bytes>, list: seq<Bytes>) returns (r: seq<Bytes>)
    ensures r == Reversed(vals) + list
  {
    var newList := new Bytes[|vals| + |list|];
    for i := 0 to |vals|
      invariant forall k :: |vals| - i <= k < |vals| ==> newList[k] == vals[|vals| - 1 - k]
    {
      newList[|vals| - 1 - i] := vals[i];
    }
    forall j | 0 <= j < |list| {
      newList[|vals| + j] := list[j];
    }
    r := newList[..];
  }

  /** The clipped slice of LRANGE. */
  method RangeOf(list: seq<Bytes>, start: int, stop: int) returns (items: seq<Bytes>)
    ensures items == Window(list, FromEnd(start, |list|), FromEnd(stop, |list|))
  {
    var n := |list|;
    var from, to := start, stop;
    if from < 0 { from := from + n; }
    if to < 0 { to := to + n; }
    WindowIsSlice(list, from, to);
    if from < 0 { from := 0; }
    if to >= n { to := n - 1; }
    if from > to || from >= n { return []; }
    items := list[from..to + 1];
  }

  /** A shard after looking a key up: the key is gone if it had expired. */
  ghost function Touched(s: Stock, key: Bytes, now: Time): Stock {
    if key in s.data && Expired(s.data[key], now)
    then Stock(s.data - {key}, s.used - EntrySize(key, s.data[key]), s.expired + 1)
    else s
  }

  /** An operation that has looked its key up: what it puts in the slot decides the rest. */
  ghost function Settled(s: Stock, key: Bytes, after: Option<Record>, leak: nat): Stock {
    Stock(Place(s.data, key, after), s.used - OptSize(key, Slot(s.data, key)) + OptSize(key, after) + leak, s.expired)
  }

  lemma TouchedFinds(s: Stock, key: Bytes, now: Time)
    ensures Slot(Touched(s, key, now).data, key) == Find(s.data, key, now)
  {
  }

  /** Looking the key up and settling its slot is the whole specified step, for anything but SET. */
  lemma StepIsSettled(s: Stock, key: Bytes, op: Op, now: Time)
    requires !op.SetTo?
    ensures var live := Find(s.data, key, now);
            StepStock(s, key, op, now) == Settled(Touched(s, key, now), key, Apply(op, live, now).0, Leak(op, live))
  {
    hide Apply, Leak, EntrySize;
    assert s.data - {key} - {key} == s.data - {key};
  }

  lemma StringApplies(op: Op, live: Option<Record>, now: Time)
    requires op.Get? || op.SetNx? || op.IncrBy?
    ensures match op
      case Get => Apply(op, live, now) == GetOn(live)
      case SetNx(_) => Apply(op, live, now) == SetNxOn(live, op.val)
      case IncrBy(_) => Apply(op, live, now) == IncrByOn(live, op.delta)
    ensures Leak(op, live) == 0
    ensures !Apply(op, live, now).1.Fields? && !Apply(op, live, now).1.Members?
  {
    hide Elements, Window, Reversed, FormatInt, ParseInt;
  }

  lemma KeyApplies(op: Op, live: Option<Record>, now: Time)
    requires op.Delete? || op.Exists? || op.Type? || op.ExpireAt? || op.Persist? || op.Ttl?
    ensures match op
      case Delete => Apply(op, live, now) == DeleteOn(live)
      case Exists => Apply(op, live, now) == ExistsOn(live)
      case Type => Apply(op, live, now) == TypeOn(live)
      case ExpireAt(_) => Apply(op, live, now) == ExpireAtOn(live, op.at)
      case Persist => Apply(op, live, now) == PersistOn(live)
      case Ttl => Apply(op, live, now) == TtlOn(live, now)
    ensures Leak(op, live) == 0
    ensures !Apply(op, live, now).1.Fields? && !Apply(op, live, now).1.Members?
  {
    hide Elements, Window, Reversed, FormatInt, ParseInt;
  }

  lemma ListApplies(op: Op, live: Option<Record>, now: Time)
    requires op.LPush? || op.RPush? || op.LPop? || op.RPop? || op.LLen? || op.LRange?
    ensures match op
      case LPush(_) => Apply(op, live, now) == LPushOn(live, op.vals)
      case RPush(_) => Apply(op, live, now) == RPushOn(live, op.vals)
      case LPop => Apply(op, live, now) == LPopOn(live)
      case RPop => Apply(op, live, now) == RPopOn(live)
      case LLen => Apply(op, live, now) == LLenOn(live)
      case LRange(_, _) => Apply(op, live, now) == LRangeOn(live, op.start, op.stop)
    ensures Leak(op, live) == 0
    ensures !Apply(op, live, now).1.Fields? && !Apply(op, live, now).1.Members?
  {
    hide Elements, Window, Reversed, FormatInt, ParseInt;
  }

  lemma HashApplies(op: Op, live: Option<Record>, now: Time)
    requires op.HSet? || op.HGet? || op.HDel? || op.HGetAll? || op.HLen?
    ensures match op
      case HSet(_, _) => Apply(op, live, now) == HSetOn(live, op.field, op.val)
      case HGet(_) => Apply(op, live, now) == HGetOn(live, op.field)
      case HDel(_) => Apply(op, live, now) == HDelOn(live, op.gone)
      case HGetAll => Apply(op, live, now) == HGetAllOn(live)
      case HLen => Apply(op, live, now) == HLenOn(live)
    ensures !op.HDel? ==> Leak(op, live) == 0
    ensures !op.HGetAll? ==> !Apply(op, live, now).1.Fields? && !Apply(op, live, now).1.Members?
  {
    hide AsHash, AsList, AsSet, WithHash, ValueSize;
    hide Elements, Window, Reversed, FormatInt, ParseInt;
  }

  lemma SetApplies(op: Op, live: Option<Record>, now: Time)
    requires op.SAdd? || op.SRem? || op.SIsMember? || op.SMembers? || op.SCard?
    ensures match op
      case SAdd(_) => Apply(op, live, now) == SAddOn(live, op.vals)
      case SRem(_) => Apply(op, live, now) == SRemOn(live, op.gone)
      case SIsMember(_) => Apply(op, live, now) == SIsMemberOn(live, op.member)
      case SMembers => Apply(op, live, now) == SMembersOn(live)
      case SCard => Apply(op, live, now) == SCardOn(live)
    ensures !op.SRem? ==> Leak(op, live) == 0
    ensures !op.SMembers? ==> !Apply(op, live, now).1.Fields? && !Apply(op, live, now).1.Members?
  {
    hide Elements, Window, Reversed, FormatInt, ParseInt;
  }

  lemma SettledTwice(s: Stock, key: Bytes, first: Option<Record>, second: Option<Record>, leak: nat)
    ensures Settled(Settled(s, key, first, 0), key, second, leak) == Settled(s, key, second, leak)
  {
  }

  /** Deleting an entry emptied in place leaves its former value's bytes in the estimate. */
  lemma EmptiedSettles(t: Stock, key: Bytes, emptied: Record)
    requires key in t.data
    requires emptied.value == HashV(map[]) || emptied.value == SetV({})
    ensures Settled(t.(data := t.data[key := emptied]), key, None, 0) == Settled(t, key, None, ValueSize(t.data[key].value))
  {
    assert FieldWeights(map[]) == map[] && MemberWeights({}) == map[];
    assert t.data[key := emptied] - {key} == t.data - {key};
  }

  lemma HDelSettles(t: Stock, key: Bytes, gone: seq<Bytes>, left: map<Bytes, Bytes>)
    requires key in t.data && t.data[key].value.HashV? && left == t.data[key].value.fields - Elements(gone)
    ensures var live, now := t.data[key], t.data[key].(value := HashV(left));
            var mid := t.(data := t.data[key := now]);
            Settled(t, key, HDelOn(Some(live), gone).0, Leak(Op.HDel(gone), Some(live))) ==
            if left == map[] then Settled(mid, key, None, 0)
            else mid.(used := t.used + EntrySize(key, now) - EntrySize(key, live))
  {
    var fields := t.data[key].value.fields;
    assert left == map[] <==> fields.Keys <= Elements(gone) by {
      assert forall f :: f in fields && f !in Elements(gone) ==> f in left;
    }
    if left == map[] {
      EmptiedSettles(t, key, t.data[key].(value := HashV(left)));
    }
  }

  lemma SRemSettles(t: Stock, key: Bytes, gone: seq<Bytes>, left: set<Bytes>)
    requires key in t.data && t.data[key].value.SetV? && left == t.data[key].value.members - Elements(gone)
    ensures var live, now := t.data[key], t.data[key].(value := SetV(left));
            var mid := t.(data := t.data[key := now]);
            Settled(t, key, SRemOn(Some(live), gone).0, Leak(Op.SRem(gone), Some(live))) ==
            if left == {} then Settled(mid, key, None, 0)
            else mid.(used := t.used + EntrySize(key, now) - EntrySize(key, live))
  {
    var members := t.data[key].value.members;
    assert left == {} <==> members <= Elements(gone) by {
      assert forall m :: m in members && m !in Elements(gone) ==> m in left;
    }
    if left == {} {
      EmptiedSettles(t, key, t.data[key].(value := SetV(left)));
    }
  }

  lemma SettledAsIs(s: Stock, key: Bytes)
    ensures Settled(s, key, Slot(s.data, key), 0) == s
  {
    assert Place(s.data, key, Slot(s.data, key)) == s.data;
  }

  const SAMPLE_SIZE: nat := 20
  const MAX_ROUNDS: nat := 16

  /** Of some keys, those with a deadline. */
  function MortalIn(db: Db, keys: set<Bytes>): set<Bytes> {
    set key | key in keys && key in db && db[key].expireAt != NEVER
  }

  /** Of some keys, those whose deadline has passed. */
  function StaleIn(db: Db, now: Time, keys: set<Bytes>): (s: set<Bytes>)
    ensures s <= MortalIn(db, keys)
  {
    set key | key in keys && key in db && Expired(db[key], now)
  }

  function Mortal(db: Db): set<Bytes> {
    MortalIn(db, db.Keys)
  }

  function Stale(db: Db, now: Time): set<Bytes> {
    StaleIn(db, now, db.Keys)
  }

  /** What one shard's cycle may remove: expired keys only, never too many, and all it can when that is promised. */
  ghost predicate Sampled(db: Db, now: Time, gone: set<Bytes>) {
    gone <= Stale(db, now) && |gone| <= MAX_ROUNDS * SAMPLE_SIZE &&
    (|Mortal(db)| <= SAMPLE_SIZE ==> gone == Stale(db, now)) &&
    (Mortal(db) == Stale(db, now) ==> |gone| == Least(|Mortal(db)|, MAX_ROUNDS * SAMPLE_SIZE)) &&
    exists rounds :: Rounded(rounds, |Mortal(db)|, |gone|)
  }

  /** How many keys with a deadline each round of a cycle looked at, and how many of them it removed. */
  type Round = (nat, nat)

  function Found(rounds: seq<Round>): nat {
    if rounds == [] then 0 else Found(rounds[..|rounds| - 1]) + rounds[|rounds| - 1].1
  }

  /** At most 20 keys a round and 16 rounds, each after one in which a quarter of the keys or more were removed, and no fewer. */
  ghost predicate Rounded(rounds: seq<Round>, mortal: nat, found: nat) {
    1 <= |rounds| <= 16 && Found(rounds) == found && Sizes(rounds, mortal) &&
    (forall i :: 0 <= i < |rounds| - 1 ==> Worthwhile(rounds[i])) &&
    (|rounds| < 16 ==> !Worthwhile(rounds[|rounds| - 1]))
  }

  /** Each round looks at 20 of the keys that have a deadline, or at all that are left of them. */
  predicate Sizes(rounds: seq<Round>, mortal: nat) {
    forall i :: 0 <= i < |rounds| ==> SizeAt(rounds, i, mortal)
  }

  predicate SizeAt(rounds: seq<Round>, i: nat, mortal: nat)
    requires i < |rounds|
  {
    var left := mortal - Found(rounds[..i]);
    rounds[i].1 <= rounds[i].0 == Least(if left > 0 then left else 0, 20)
  }

  predicate Worthwhile(r: Round) {
    r.0 > 0 && 4 * r.1 >= r.0
  }

  /** One more round, after rounds that were all worthwhile. */
  lemma RoundAdded(rounds: seq<Round>, mortal: nat, sampled: nat, expired: nat)
    requires Found(rounds) <= mortal && expired <= sampled == Least(mortal - Found(rounds), 20)
    requires |rounds| < 16 && Sizes(rounds, mortal) && forall i :: 0 <= i < |rounds| ==> Worthwhile(rounds[i])
    ensures var more := rounds + [(sampled, expired)];
            Found(more) == Found(rounds) + expired && Sizes(more, mortal) &&
            (!Worthwhile((sampled, expired)) || |more| == 16 ==> Rounded(more, mortal, Found(more)))
  {
    hide Least, Worthwhile;
    var more := rounds + [(sampled, expired)];
    assert more[..|rounds|] == rounds;
    forall i | 0 <= i < |more|
      ensures SizeAt(more, i, mortal)
    {
      if i < |rounds| {
        hide Found;
        assert SizeAt(rounds, i, mortal) && more[..i] == rounds[..i];
      }
    }
    assert Sizes(more, mortal);
    hide Sizes;
  }

  ghost function Union(sets: seq<set<Bytes>>): set<Bytes> {
    if sets == [] then {} else Union(sets[..|sets| - 1]) + sets[|sets| - 1]
  }

  function Least(a: nat, b: nat): nat {
    if a < b then a else b
  }

  lemma SubsetCard(a: set<Bytes>, b: set<Bytes>)
    requires a <= b
    ensures |a| <= |b|
    ensures |a| == |b| ==> a == b
  {
    assert b == a + (b - a);
    if |a| == |b| {
      assert |b - a| == 0;
    }
  }

  lemma SampleEnds(start: Db, now: Time, seen: set<Bytes>, gone: set<Bytes>, sampled: nat)
    requires seen <= start.Keys && gone == StaleIn(start, now, seen) && sampled == |MortalIn(start, seen)| <= SAMPLE_SIZE
    requires seen == start.Keys || sampled == SAMPLE_SIZE
    ensures sampled == Least(|Mortal(start)|, SAMPLE_SIZE)
    ensures |gone| <= sampled && gone <= Stale(start, now)
    ensures |Mortal(start)| <= SAMPLE_SIZE ==> gone == Stale(start, now)
    ensures Mortal(start) == Stale(start, now) ==> |gone| == sampled
  {
    SubsetCard(MortalIn(start, seen), Mortal(start));
    SubsetCard(gone, MortalIn(start, seen));
    if seen == start.Keys {
      assert MortalIn(start, seen) == Mortal(start);
    }
    if Mortal(start) == Stale(start, now) {
      assert forall key :: key in MortalIn(start, seen) ==> key in Mortal(start);
      assert gone == MortalIn(start, seen);
    }
    if |Mortal(start)| <= SAMPLE_SIZE {
      assert MortalIn(start, seen) == Mortal(start);
      assert gone == Stale(start, now);
    }
  }

  /** What is left to expire once some expired keys are removed. */
  lemma LeftOver(start: Db, removed: set<Bytes>, now: Time)
    requires removed <= Stale(start, now)
    ensures Mortal(start - removed) == Mortal(start) - removed && Stale(start - removed, now) == Stale(start, now) - removed
    ensures |Mortal(start) - removed| == |Mortal(start)| - |removed|
  {
    hide Expired;
    assert removed <= Mortal(start);
    assert Mortal(start) == removed + (Mortal(start) - removed);
  }

  lemma SeenNone(start: Db, now: Time)
    ensures MortalIn(start, {}) == {} == StaleIn(start, now, {}) && start - StaleIn(start, now, {}) == start
  {
  }

  lemma SeenStep(start: Db, now: Time, seen: set<Bytes>, key: Bytes, next: set<Bytes>)
    requires key in start && key !in seen && next == seen + {key}
    ensures var left := start - StaleIn(start, now, seen);
            key in left && left[key] == start[key] &&
            start - StaleIn(start, now, next) == if Expired(start[key], now) then left - {key} else left
    ensures |MortalIn(start, next)| == |MortalIn(start, seen)| + if start[key].expireAt != NEVER then 1 else 0
    ensures |StaleIn(start, now, next)| == |StaleIn(start, now, seen)| + if Expired(start[key], now) then 1 else 0
  {
    if start[key].expireAt != NEVER {
      assert MortalIn(start, next) == MortalIn(start, seen) + {key};
    } else {
      assert MortalIn(start, next) == MortalIn(start, seen);
    }
    if Expired(start[key], now) {
      assert StaleIn(start, now, next) == StaleIn(start, now, seen) + {key};
    } else {
      assert StaleIn(start, now, next) == StaleIn(start, now, seen);
    }
  }

  /** What the rounds made so far have removed, all of them having been worth another. */
  ghost predicate Cycling(db: Db, now: Time, gone: set<Bytes>, rounds: seq<Round>) {
    gone <= Stale(db, now) && |gone| == Found(rounds) <= |Mortal(db)| && |rounds| < MAX_ROUNDS &&
    |gone| <= |rounds| * SAMPLE_SIZE && Sizes(rounds, |Mortal(db)|) &&
    (forall i :: 0 <= i < |rounds| ==> Worthwhile(rounds[i])) &&
    (|rounds| > 0 && |Mortal(db)| <= SAMPLE_SIZE ==> gone == Stale(db, now)) &&
    (Mortal(db) == Stale(db, now) ==> |gone| == Least(|Mortal(db)|, |rounds| * SAMPLE_SIZE))
  }

  lemma CycleBegins(db: Db, now: Time)
    ensures db - {} == db && Cycling(db, now, {}, [])
  {
    hide MortalIn, StaleIn;
  }

  lemma TakenTogether(db: Db, removed: set<Bytes>, gone: set<Bytes>, all: set<Bytes>)
    requires removed <= all && gone <= all - removed
    ensures db - removed - gone == db - (removed + gone) && removed + gone <= all
    ensures |removed + gone| == |removed| + |gone|
    ensures gone == all - removed ==> removed + gone == all
  {
    assert removed !! gone;
  }

  /** One round on what the rounds before it have left. */
  lemma RoundGone(db: Db, now: Time, removed: set<Bytes>, seen: set<Bytes>, sampled: nat)
    requires removed <= Stale(db, now) && seen <= (db - removed).Keys
    requires sampled == |MortalIn(db - removed, seen)| <= SAMPLE_SIZE
    requires seen == (db - removed).Keys || sampled == SAMPLE_SIZE
    ensures var gone := StaleIn(db - removed, now, seen);
            db - removed - gone == db - (removed + gone) && removed + gone <= Stale(db, now) &&
            |removed + gone| == |removed| + |gone| <= |Mortal(db)| && |gone| <= sampled &&
            sampled == Least(|Mortal(db)| - |removed|, SAMPLE_SIZE) &&
            (|Mortal(db)| <= SAMPLE_SIZE ==> removed + gone == Stale(db, now)) &&
            (Mortal(db) == Stale(db, now) ==> |gone| == sampled)
  {
    hide MortalIn, StaleIn;
    var gone := StaleIn(db - removed, now, seen);
    LeftOver(db, removed, now);
    SampleEnds(db - removed, now, seen, gone, sampled);
    hide Mortal, Stale;
    TakenTogether(db, removed, gone, Stale(db, now));
  }

  /** A round that takes all it sees ends the cycle with the lot, or leaves it at 20 keys a round. */
  lemma EndsAt(mortal: nat, removed: nat, sampled: nat, rounds: nat)
    requires rounds < MAX_ROUNDS && removed == Least(mortal, rounds * SAMPLE_SIZE) && sampled == Least(mortal - removed, SAMPLE_SIZE)
    ensures removed + sampled == Least(mortal, (rounds + 1) * SAMPLE_SIZE)
    ensures sampled == 0 ==> removed == Least(mortal, MAX_ROUNDS * SAMPLE_SIZE)
  {
  }

  /** One more round either leaves the cycle going or ends it with all that is promised. */
  lemma CycleStep(db: Db, now: Time, removed: set<Bytes>, rounds: seq<Round>, seen: set<Bytes>, sampled: nat)
    requires Cycling(db, now, removed, rounds) && seen <= (db - removed).Keys
    requires sampled == |MortalIn(db - removed, seen)| <= SAMPLE_SIZE
    requires seen == (db - removed).Keys || sampled == SAMPLE_SIZE
    ensures var gone := StaleIn(db - removed, now, seen);
            var round := (sampled, |gone|);
            db - removed - gone == db - (removed + gone) && |removed + gone| == |removed| + |gone| &&
            if |rounds| + 1 == MAX_ROUNDS || sampled == 0 || |gone| * 4 < sampled
            then Sampled(db, now, removed + gone)
            else Cycling(db, now, removed + gone, rounds + [round])
  {
    hide Mortal, Stale, MortalIn, StaleIn, Sizes, Rounded, Found;
    var gone := StaleIn(db - removed, now, seen);
    RoundGone(db, now, removed, seen, sampled);
    RoundAdded(rounds, |Mortal(db)|, sampled, |gone|);
    if Mortal(db) == Stale(db, now) {
      EndsAt(|Mortal(db)|, |removed|, sampled, |rounds|);
    }
  }

  class Shard {
    var data: map<Bytes, Entry>
    var usedMemory: int
    var expiredKeys: nat
    ghost var contents: Db

    constructor ()
      ensures Valid() && data == map[]
      ensures State() == Stock(map[], 0, 0)
    {
      data, usedMemory, expiredKeys, contents := map[], 0, 0, map[];
    }

    /** `contents` is what the entries hold, and no two keys share an entry. */
    ghost predicate Valid()
      reads this, data.Values
    {
      contents.Keys == data.Keys &&
      (forall key :: key in data ==> contents[key] == data[key].Rec()) &&
      (forall a, b :: a in data && b in data && a != b ==> data[a] != data[b])
    }

    lemma SameKeys()
      requires Valid()
      ensures data.Keys == contents.Keys
    {
    }

    ghost function State(): Stock
      reads this
    {
      Stock(contents, usedMemory, expiredKeys)
    }

    method SetEntry(key: Bytes, e: Entry)
      requires Valid() && e !in data.Values
      modifies this
      ensures Valid() && data == old(data)[key := e] && data.Values <= old(data.Values) + {e}
      ensures State() == Settled(old(State()), key, Some(e.Rec()), 0)
    {
      if key in data {
        var before := EntryApproxMemory(key, data[key]);
        usedMemory := usedMemory - before;
      }
      data := data[key := e];
      var size := EntryApproxMemory(key, e);
      usedMemory := usedMemory + size;
      contents := contents[key := e.Rec()];
    }

    method DeleteEntry(key: Bytes)
      requires Valid()
      modifies this
      ensures Valid() && data == old(data) - {key}
      ensures State() == Settled(old(State()), key, None, 0)
    {
      if key !in data {
        assert contents == contents - {key};
        return;
      }
      var e := data[key];
      data := data - {key};
      var size := EntryApproxMemory(key, e);
      usedMemory := usedMemory - size;
      contents := contents - {key};
    }

    method RefreshEntryMemory(key: Bytes, before: int)
      requires Valid() && key in data
      modifies this`usedMemory
      ensures Valid()
      ensures usedMemory == old(usedMemory) + EntrySize(key, data[key].Rec()) - before
    {
      var size := EntryApproxMemory(key, data[key]);
      usedMemory := usedMemory + size - before;
    }

    /** `liveEntry`: deletes the key if it has expired. */
    method LiveEntry(key: Bytes, now: Time) returns (e: Entry?)
      requires Valid()
      modifies this
      ensures Valid() && data.Values <= old(data.Values)
      ensures State() == Touched(old(State()), key, now)
      ensures if key in data then e == data[key] else e == null
    {
      if key !in data { return null; }
      e := data[key];
      if e.IsExpired(now) {
        DeleteEntry(key);
        expiredKeys := expiredKeys + 1;
        e := null;
      }
    }

    /** What every operation promises: the key is looked up, and its slot and the answer are as specified. */
    twostate predicate Became(key: Bytes, now: Time, result: Effect, leak: nat, o: Outcome)
      reads this
    {
      State() == Settled(Touched(old(State()), key, now), key, result.0, leak) && o == result.1
    }

    /** The same of an answer listed in any order. */
    twostate predicate BecameListed(key: Bytes, now: Time, result: Effect, o: Outcome)
      reads this
    {
      State() == Settled(Touched(old(State()), key, now), key, result.0, 0) && Shows(result.1, o)
    }

    /** The same once the key has been looked up. */
    twostate predicate Finished(key: Bytes, result: Effect, leak: nat, o: Outcome)
      reads this
    {
      State() == Settled(old(State()), key, result.0, leak) && o == result.1
    }

    method Get(key: Bytes, now: Time) returns (o: Outcome)
      requires Valid()
      modifies this
      ensures Valid() && data.Values <= old(data.Values)
      ensures Became(key, now, GetOn(Find(old(contents), key, now)), 0, o)
    {
      TouchedFinds(State(), key, now);
      var e := LiveEntry(key, now);
      SettledAsIs(State(), key);
      if e == null { return Absent; }
      o := if e.value.StrV? then Data(e.value.bytes) else WrongType;
    }

    /** `SetEx`, and `Set` with no deadline. */
    method SetEx(key: Bytes, val: Bytes, at: Time, now: Time) returns (o: Outcome)
      requires Valid()
      modifies this
      ensures Valid() && fresh(data.Values - old(data.Values))
      ensures Finished(key, (Some(Record(StrV(val), at)), Done), 0, o)
    {
      var e := new Entry(StrV(val), at);
      SetEntry(key, e);
      o := Done;
    }

    method Del(key: Bytes, now: Time) returns (o: Outcome)
      requires Valid()
      modifies this
      ensures Valid() && data.Values <= old(data.Values)
      ensures Became(key, now, DeleteOn(Find(old(contents), key, now)), 0, o)
    {
      if key !in data {
        assert contents == contents - {key};
        return Flag(false);
      }
      var e := data[key];
      DeleteEntry(key);
      if e.IsExpired(now) {
        expiredKeys := expiredKeys + 1;
        return Flag(false);
      }
      o := Flag(true);
    }

    method ExpireAt(key: Bytes, at: Time, now: Time) returns (o: Outcome)
      requires Valid()
      modifies this, data.Values
      ensures Valid() && data.Values <= old(data.Values)
      ensures Became(key, now, ExpireAtOn(Find(old(contents), key, now), at), 0, o)
    {
      TouchedFinds(State(), key, now);
      var e := LiveEntry(key, now);
      ghost var t := State();
      if e == null {
        SettledAsIs(t, key);
        return Flag(false);
      }
      e.expireAt := at;
      contents := contents[key := e.Rec()];
      o := Flag(true);
    }

    method Persist(key: Bytes, now: Time) returns (o: Outcome)
      requires Valid()
      modifies this, data.Values
      ensures Valid() && data.Values <= old(data.Values)
      ensures Became(key, now, PersistOn(Find(old(contents), key, now)), 0, o)
    {
      TouchedFinds(State(), key, now);
      var e := LiveEntry(key, now);
      ghost var t := State();
      SettledAsIs(t, key);
      if e == null || e.expireAt == NEVER { return Flag(false); }
      e.expireAt := NEVER;
      contents := contents[key := e.Rec()];
      o := Flag(true);
    }

    method TTL(key: Bytes, now: Time) returns (o: Outcome)
      requires Valid()
      modifies this
      ensures Valid() && data.Values <= old(data.Values)
      ensures Became(key, now, TtlOn(Find(old(contents), key, now), now), 0, o)
    {
      TouchedFinds(State(), key, now);
      var e := LiveEntry(key, now);
      SettledAsIs(State(), key);
      if e == null { return Absent; }
      if e.expireAt == NEVER { return Done; }
      o := Remaining(Saturate(e.expireAt - now));
    }

    method Exists(key: Bytes, now: Time) returns (o: Outcome)
      requires Valid()
      modifies this
      ensures Valid() && data.Values <= old(data.Values)
      ensures Became(key, now, ExistsOn(Find(old(contents), key, now)), 0, o)
    {
      TouchedFinds(State(), key, now);
      var e := LiveEntry(key, now);
      SettledAsIs(State(), key);
      o := Flag(e != null);
    }

    method Type(key: Bytes, now: Time) returns (o: Outcome)
      requires Valid()
      modifies this
      ensures Valid() && data.Values <= old(data.Values)
      ensures Became(key, now, TypeOn(Find(old(contents), key, now)), 0, o)
    {
      TouchedFinds(State(), key, now);
      var e := LiveEntry(key, now);
      SettledAsIs(State(), key);
      o := Kind(if e != null then KindOf(e.value) else "none");
    }

    /** The live entry, or a new one with an empty value. */
    method LiveOrNew(key: Bytes, empty: Value, now: Time) returns (e: Entry)
      requires Valid()
      modifies this
      ensures Valid() && fresh(data.Values - old(data.Values))
      ensures key in data && data[key] == e
      ensures e.Rec() == Find(old(contents), key, now).GetOr(Record(empty, NEVER))
      ensures var t := Touched(old(State()), key, now);
              if key in t.data then State() == t
              else State() == Settled(t, key, Some(Record(empty, NEVER)), 0)
    {
      var found := LiveEntry(key, now);
      if found != null { return found; }
      e := new Entry(empty, NEVER);
      SetEntry(key, e);
    }

    /** Assigns the entry's value in place, between two measurements of the entry. */
    method Rewrite(key: Bytes, e: Entry, v: Value)
      requires Valid() && key in data && data[key] == e
      modifies this`usedMemory, this`contents, e`value
      ensures Valid() && e.value == v
      ensures State() == Settled(old(State()), key, Some(Record(v, old(e.expireAt))), 0)
    {
      var before := EntryApproxMemory(key, e);
      e.value := v;
      contents := contents[key := e.Rec()];
      RefreshEntryMemory(key, before);
    }

    method LPush(key: Bytes, vals: seq<Bytes>, now: Time) returns (o: Outcome)
      requires Valid()
      modifies this, data.Values
      ensures Valid() && fresh(data.Values - old(data.Values))
      ensures Became(key, now, LPushOn(Find(old(contents), key, now), vals), 0, o)
    {
      hide Valid;
      ghost var t := Touched(State(), key, now);
      TouchedFinds(State(), key, now);
      var e := LiveOrNew(key, ListV([]), now);
      if !e.value.ListV? {
        SettledAsIs(t, key);
        return WrongType;
      }
      var list := Prepend(vals, e.value.items);
      SettledTwice(t, key, Some(e.Rec()), Some(Record(ListV(list), e.expireAt)), 0);
      Rewrite(key, e, ListV(list));
      o := Count(|list|);
    }

    method RPush(key: Bytes, vals: seq<Bytes>, now: Time) returns (o: Outcome)
      requires Valid()
      modifies this, data.Values
      ensures Valid() && fresh(data.Values - old(data.Values))
      ensures Became(key, now, RPushOn(Find(old(contents), key, now), vals), 0, o)
    {
      hide Valid;
      ghost var t := Touched(State(), key, now);
      TouchedFinds(State(), key, now);
      var e := LiveOrNew(key, ListV([]), now);
      if !e.value.ListV? {
        SettledAsIs(t, key);
        return WrongType;
      }
      var list := e.value.items + vals;
      SettledTwice(t, key, Some(e.Rec()), Some(Record(ListV(list), e.expireAt)), 0);
      Rewrite(key, e, ListV(list));
      o := Count(|list|);
    }

    method LPop(key: Bytes, now: Time) returns (o: Outcome)
      requires Valid()
      modifies this, data.Values
      ensures Valid() && data.Values <= old(data.Values)
      ensures Became(key, now, LPopOn(Find(old(contents), key, now)), 0, o)
    {
      TouchedFinds(State(), key, now);
      var e := LiveEntry(key, now);
      SettledAsIs(State(), key);
      if e == null { return Absent; }
      if !e.value.ListV? { return WrongType; }
      var list := e.value.items;
      if |list| == 0 { return Absent; }
      o := Data(list[0]);
      list := list[1..];
      if |list| == 0 {
        DeleteEntry(key);
      } else {
        Rewrite(key, e, ListV(list));
      }
    }

    method RPop(key: Bytes, now: Time) returns (o: Outcome)
      requires Valid()
      modifies this, data.Values
      ensures Valid() && data.Values <= old(data.Values)
      ensures Became(key, now, RPopOn(Find(old(contents), key, now)), 0, o)
    {
      TouchedFinds(State(), key, now);
      var e := LiveEntry(key, now);
      SettledAsIs(State(), key);
      if e == null { return Absent; }
      if !e.value.ListV? { return WrongType; }
      var list := e.value.items;
      if |list| == 0 { return Absent; }
      o := Data(list[|list| - 1]);
      list := list[..|list| - 1];
      if |list| == 0 {
        DeleteEntry(key);
      } else {
        Rewrite(key, e, ListV(list));
      }
    }

    method LLen(key: Bytes, now: Time) returns (o: Outcome)
      requires Valid()
      modifies this
      ensures Valid() && data.Values <= old(data.Values)
      ensures Became(key, now, LLenOn(Find(old(contents), key, now)), 0, o)
    {
      TouchedFinds(State(), key, now);
      var e := LiveEntry(key, now);
      SettledAsIs(State(), key);
      if e == null { return Count(0); }
      o := if e.value.ListV? then Count(|e.value.items|) else WrongType;
    }

    method LRange(key: Bytes, start: int, stop: int, now: Time) returns (o: Outcome)
      requires Valid()
      modifies this
      ensures Valid() && data.Values <= old(data.Values)
      ensures Became(key, now, LRangeOn(Find(old(contents), key, now), start, stop), 0, o)
    {
      TouchedFinds(State(), key, now);
      var e := LiveEntry(key, now);
      SettledAsIs(State(), key);
      if e == null { return Items([]); }
      if !e.value.ListV? { return WrongType; }
      var items := RangeOf(e.value.items, start, stop);
      o := Items(items);
    }

    method HSet(key: Bytes, field: Bytes, val: Bytes, now: Time) returns (o: Outcome)
      requires Valid()
      modifies this, data.Values
      ensures Valid() && fresh(data.Values - old(data.Values))
      ensures Became(key, now, HSetOn(Find(old(contents), key, now), field, val), 0, o)
    {
      ghost var t := Touched(State(), key, now);
      TouchedFinds(State(), key, now);
      var e := LiveOrNew(key, HashV(map[]), now);
      if !e.value.HashV? {
        SettledAsIs(t, key);
        return WrongType;
      }
      var existed := field in e.value.fields;
      var fields := e.value.fields[field := val];
      SettledTwice(t, key, Some(e.Rec()), Some(Record(HashV(fields), e.expireAt)), 0);
      Rewrite(key, e, HashV(fields));
      o := Flag(!existed);
    }

    method HGet(key: Bytes, field: Bytes, now: Time) returns (o: Outcome)
      requires Valid()
      modifies this
      ensures Valid() && data.Values <= old(data.Values)
      ensures Became(key, now, HGetOn(Find(old(contents), key, now), field), 0, o)
    {
      TouchedFinds(State(), key, now);
      var e := LiveEntry(key, now);
      SettledAsIs(State(), key);
      if e == null { return Absent; }
      if !e.value.HashV? { return WrongType; }
      o := if field in e.value.fields then Data(e.value.fields[field]) else Absent;
    }

    /** Deletes the fields from the entry's own map; an emptied entry is measured only after it is empty. */
    method HDel(key: Bytes, gone: seq<Bytes>, now: Time) returns (o: Outcome)
      requires Valid()
      modifies this, data.Values
      ensures Valid() && data.Values <= old(data.Values)
      ensures Became(key, now, HDelOn(Find(old(contents), key, now), gone), Leak(Op.HDel(gone), Find(old(contents), key, now)), o)
    {
      TouchedFinds(State(), key, now);
      var e := LiveEntry(key, now);
      SettledAsIs(State(), key);
      if e == null { return Count(0); }
      if !e.value.HashV? { return WrongType; }
      var n := DeleteFields(key, e, gone);
      o := Count(n);
    }

    method DeleteFields(key: Bytes, e: Entry, gone: seq<Bytes>) returns (n: nat)
      requires Valid() && key in data && data[key] == e && e.value.HashV?
      modifies this, e`value
      ensures Valid() && data.Values <= old(data.Values)
      ensures State() == Settled(old(State()), key, HDelOn(Some(old(e.Rec())), gone).0, Leak(Op.HDel(gone), Some(old(e.Rec()))))
      ensures Count(n) == HDelOn(Some(old(e.Rec())), gone).1
    {
      hide EntrySize, Leak, ValueSize, Elements, OptSize;
      ghost var t := State();
      var before := EntryApproxMemory(key, e);
      n := StripFields(key, e, gone);
      HDelSettles(t, key, gone, e.value.fields);
      if e.value.fields == map[] {
        DeleteEntry(key);
      } else {
        RefreshEntryMemory(key, before);
      }
    }

    method StripFields(key: Bytes, e: Entry, gone: seq<Bytes>) returns (n: nat)
      requires Valid() && key in data && data[key] == e && e.value.HashV?
      modifies this`contents, e`value
      ensures Valid()
      ensures e.value == HashV(old(e.value.fields) - Elements(gone))
      ensures n == |old(e.value.fields)| - |e.value.fields|
      ensures State() == old(State()).(data := old(contents)[key := e.Rec()])
    {
      n := e.DeleteFields(gone);
      contents := contents[key := e.Rec()];
    }

    /** Fields and values in any order of the fields. */
    method HGetAll(key: Bytes, now: Time) returns (o: Outcome)
      requires Valid()
      modifies this
      ensures Valid() && data.Values <= old(data.Values)
      ensures BecameListed(key, now, HGetAllOn(Find(old(contents), key, now)), o)
    {
      TouchedFinds(State(), key, now);
      var e := LiveEntry(key, now);
      SettledAsIs(State(), key);
      if e != null && !e.value.HashV? { return WrongType; }
      var items := ListFields(if e == null then map[] else e.value.fields);
      o := Items(items);
    }

    method HLen(key: Bytes, now: Time) returns (o: Outcome)
      requires Valid()
      modifies this
      ensures Valid() && data.Values <= old(data.Values)
      ensures Became(key, now, HLenOn(Find(old(contents), key, now)), 0, o)
    {
      TouchedFinds(State(), key, now);
      var e := LiveEntry(key, now);
      SettledAsIs(State(), key);
      if e == null { return Count(0); }
      o := if e.value.HashV? then Count(|e.value.fields|) else WrongType;
    }

    method SAdd(key: Bytes, vals: seq<Bytes>, now: Time) returns (o: Outcome)
      requires Valid()
      modifies this, data.Values
      ensures Valid() && fresh(data.Values - old(data.Values))
      ensures Became(key, now, SAddOn(Find(old(contents), key, now), vals), 0, o)
    {
      hide Valid;
      ghost var t := Touched(State(), key, now);
      TouchedFinds(State(), key, now);
      var e := LiveOrNew(key, SetV({}), now);
      if !e.value.SetV? {
        SettledAsIs(t, key);
        return WrongType;
      }
      ghost var empty := Some(e.Rec());
      var n := AddMembers(key, e, vals);
      SettledTwice(t, key, empty, Some(e.Rec()), 0);
      o := Count(n);
    }

    method AddMembers(key: Bytes, e: Entry, vals: seq<Bytes>) returns (n: nat)
      requires Valid() && key in data && data[key] == e && e.value.SetV?
      modifies this`usedMemory, this`contents, e`value
      ensures Valid()
      ensures e.value == SetV(old(e.value.members) + Elements(vals))
      ensures n == |e.value.members| - |old(e.value.members)|
      ensures State() == Settled(old(State()), key, Some(e.Rec()), 0)
    {
      var before := EntryApproxMemory(key, e);
      n := e.AddMembers(vals);
      contents := contents[key := e.Rec()];
      RefreshEntryMemory(key, before);
    }

    /** Removes the members from the entry's own set; an emptied entry is measured only after it is empty. */
    method SRem(key: Bytes, gone: seq<Bytes>, now: Time) returns (o: Outcome)
      requires Valid()
      modifies this, data.Values
      ensures Valid() && data.Values <= old(data.Values)
      ensures Became(key, now, SRemOn(Find(old(contents), key, now), gone), Leak(Op.SRem(gone), Find(old(contents), key, now)), o)
    {
      TouchedFinds(State(), key, now);
      var e := LiveEntry(key, now);
      SettledAsIs(State(), key);
      if e == null { return Count(0); }
      if !e.value.SetV? { return WrongType; }
      var n := DeleteMembers(key, e, gone);
      o := Count(n);
    }

    method DeleteMembers(key: Bytes, e: Entry, gone: seq<Bytes>) returns (n: nat)
      requires Valid() && key in data && data[key] == e && e.value.SetV?
      modifies this, e`value
      ensures Valid() && data.Values <= old(data.Values)
      ensures State() == Settled(old(State()), key, SRemOn(Some(old(e.Rec())), gone).0, Leak(Op.SRem(gone), Some(old(e.Rec()))))
      ensures Count(n) == SRemOn(Some(old(e.Rec())), gone).1
    {
      hide EntrySize, Leak, ValueSize, Elements, OptSize;
      ghost var t := State();
      var before := EntryApproxMemory(key, e);
      n := StripMembers(key, e, gone);
      SRemSettles(t, key, gone, e.value.members);
      if e.value.members == {} {
        DeleteEntry(key);
      } else {
        RefreshEntryMemory(key, before);
      }
    }

    method StripMembers(key: Bytes, e: Entry, gone: seq<Bytes>) returns (n: nat)
      requires Valid() && key in data && data[key] == e && e.value.SetV?
      modifies this`contents, e`value
      ensures Valid()
      ensures e.value == SetV(old(e.value.members) - Elements(gone))
      ensures n == |old(e.value.members)| - |e.value.members|
      ensures State() == old(State()).(data := old(contents)[key := e.Rec()])
    {
      n := e.RemoveMembers(gone);
      contents := contents[key := e.Rec()];
    }

    method SIsMember(key: Bytes, member: Bytes, now: Time) returns (o: Outcome)
      requires Valid()
      modifies this
      ensures Valid() && data.Values <= old(data.Values)
      ensures Became(key, now, SIsMemberOn(Find(old(contents), key, now), member), 0, o)
    {
      TouchedFinds(State(), key, now);
      var e := LiveEntry(key, now);
      SettledAsIs(State(), key);
      if e == null { return Flag(false); }
      o := if e.value.SetV? then Flag(member in e.value.members) else WrongType;
    }

    /** The members in any order. */
    method SMembers(key: Bytes, now: Time) returns (o: Outcome)
      requires Valid()
      modifies this
      ensures Valid() && data.Values <= old(data.Values)
      ensures BecameListed(key, now, SMembersOn(Find(old(contents), key, now)), o)
    {
      TouchedFinds(State(), key, now);
      var e := LiveEntry(key, now);
      SettledAsIs(State(), key);
      if e == null { return Items([]); }
      if !e.value.SetV? { return WrongType; }
      var items := ListMembers(e.value.members);
      o := Items(items);
    }

    method SCard(key: Bytes, now: Time) returns (o: Outcome)
      requires Valid()
      modifies this
      ensures Valid() && data.Values <= old(data.Values)
      ensures Became(key, now, SCardOn(Find(old(contents), key, now)), 0, o)
    {
      TouchedFinds(State(), key, now);
      var e := LiveEntry(key, now);
      SettledAsIs(State(), key);
      if e == null { return Count(0); }
      o := if e.value.SetV? then Count(|e.value.members|) else WrongType;
    }

    /** Adds in 64 bits with an overflow guard; a missing key is created before it is given its value. */
    method IncrBy(key: Bytes, delta: int, now: Time) returns (o: Outcome)
      requires Valid() && FitsInt64(delta)
      modifies this, data.Values
      ensures Valid() && fresh(data.Values - old(data.Values))
      ensures Became(key, now, IncrByOn(Find(old(contents), key, now), delta), 0, o)
    {
      TouchedFinds(State(), key, now);
      var found := LiveEntry(key, now);
      o := Increment(key, found, delta);
    }

    method Increment(key: Bytes, found: Entry?, delta: int) returns (o: Outcome)
      requires Valid() && FitsInt64(delta)
      requires if key in data then found == data[key] else found == null
      modifies this, data.Values
      ensures Valid() && fresh(data.Values - old(data.Values))
      ensures Finished(key, IncrByOn(Slot(old(contents), key), delta), 0, o)
    {
      hide ParseInt, FormatInt, OptSize, EntrySize, Settled;
      ghost var t := State();
      SettledAsIs(t, key);
      var n := 0;
      var e: Entry;
      if found != null {
        e := found;
        if !e.value.StrV? { return WrongType; }
        var parsed := ParseInt(e.value.bytes);
        if parsed.None? { return NotInteger; }
        n := parsed.value;
      } else {
        e := new Entry(StrV([]), NEVER);
        SetEntry(key, e);
      }
      SettledTwice(t, key, Some(e.Rec()), Some(Record(StrV(FormatInt(n + delta)), e.expireAt)), 0);
      o := Raise(key, e, n, delta);
    }

    /** The overflow check and the sum. */
    method Raise(key: Bytes, e: Entry, n: int, delta: int) returns (o: Outcome)
      requires Valid() && key in data && data[key] == e && FitsInt64(n) && FitsInt64(delta)
      modifies this`usedMemory, this`contents, e`value
      ensures Valid()
      ensures FitsInt64(n + delta) ==>
                Finished(key, (Some(Record(StrV(FormatInt(n + delta)), old(e.expireAt))), Count(n + delta)), 0, o)
      ensures !FitsInt64(n + delta) ==> o == NotInteger && State() == old(State())
    {
      hide FormatInt, Settled, Valid;
      if (delta > 0 && n > MAX_INT64 - delta) || (delta < 0 && n < MIN_INT64 - delta) {
        return NotInteger;
      }
      Rewrite(key, e, StrV(FormatInt(n + delta)));
      o := Count(n + delta);
    }

    method SetNX(key: Bytes, val: Bytes, now: Time) returns (o: Outcome)
      requires Valid()
      modifies this
      ensures Valid() && fresh(data.Values - old(data.Values))
      ensures Became(key, now, SetNxOn(Find(old(contents), key, now), val), 0, o)
    {
      TouchedFinds(State(), key, now);
      var found := LiveEntry(key, now);
      SettledAsIs(State(), key);
      if found != null { return Flag(false); }
      var e := new Entry(StrV(val), NEVER);
      SetEntry(key, e);
      o := Flag(true);
    }

    /** One sampling round: it looks at keys in whatever order the map yields them, until 20 of them had a deadline. */
    method SampleRound(now: Time) returns (sampled: nat, expired: nat, ghost seen: set<Bytes>)
      requires Valid()
      modifies this
      ensures Valid() && data.Values <= old(data.Values)
      ensures seen <= old(contents.Keys) && contents == old(contents) - StaleIn(old(contents), now, seen)
      ensures sampled == |MortalIn(old(contents), seen)| <= SAMPLE_SIZE
      ensures sampled == SAMPLE_SIZE || seen == old(contents.Keys)
      ensures expired == |StaleIn(old(contents), now, seen)| && expiredKeys == old(expiredKeys) + expired
      ensures Excess(State()) == Excess(old(State()))
    {
      hide DbSize, MortalIn, StaleIn, Valid;
      sampled, expired, seen := 0, 0, {};
      SameKeys();
      var todo := data.Keys;
      ghost var start := contents;
      SeenNone(start, now);
      while todo != {} && sampled < SAMPLE_SIZE
        invariant Valid() && data.Values <= old(data.Values)
        invariant todo <= start.Keys && seen == start.Keys - todo
        invariant contents == start - StaleIn(start, now, seen)
        invariant sampled == |MortalIn(start, seen)| <= SAMPLE_SIZE
        invariant expired == |StaleIn(start, now, seen)| && expiredKeys == old(expiredKeys) + expired
        invariant Excess(State()) == Excess(old(State()))
      {
        var key :| key in todo;
        todo := todo - {key};
        SeenStep(start, now, seen, key, start.Keys - todo);
        seen := start.Keys - todo;
        SameKeys();
        var mortal, dropped := SampleOne(key, now);
        if mortal { sampled := sampled + 1; }
        if dropped { expired := expired + 1; }
      }
    }

    /** One key of a round: passed over without a deadline, deleted and counted if expired. */
    method SampleOne(key: Bytes, now: Time) returns (mortal: bool, dropped: bool)
      requires Valid() && key in data
      modifies this
      ensures Valid() && data.Keys == old(data.Keys) - (if dropped then {key} else {}) && data.Values <= old(data.Values)
      ensures mortal == (old(contents[key]).expireAt != NEVER) && dropped == Expired(old(contents[key]), now)
      ensures contents == if dropped then old(contents) - {key} else old(contents)
      ensures expiredKeys == old(expiredKeys) + if dropped then 1 else 0
      ensures Excess(State()) == Excess(old(State()))
    {
      var e := data[key];
      mortal, dropped := e.expireAt != NEVER, false;
      if !mortal { return; }
      if e.IsExpired(now) {
        DbSizePlace(contents, key, None);
        DeleteEntry(key);
        expiredKeys := expiredKeys + 1;
        dropped := true;
      }
    }

    /**
     `expireShard`: repeats rounds while at least a quarter of a sample was expired, at most 16 times. It removes only
     expired keys; every one of them when at most 20 keys have deadlines, and as many as 320 when all are expired.
     */
    method ExpireShard(now: Time) returns (ghost removed: set<Bytes>)
      requires Valid()
      modifies this
      ensures Valid() && data.Values <= old(data.Values)
      ensures contents == old(contents) - removed && Sampled(old(contents), now, removed)
      ensures expiredKeys == old(expiredKeys) + |removed|
      ensures Excess(State()) == Excess(old(State()))
    {
      hide Cycling, Sampled, MortalIn, StaleIn, DbSize, Valid;
      removed := {};
      ghost var start, rounds := contents, [];
      CycleBegins(start, now);
      for round := 0 to MAX_ROUNDS
        invariant Valid() && data.Values <= old(data.Values)
        invariant contents == start - removed && |rounds| == round
        invariant expiredKeys == old(expiredKeys) + |removed|
        invariant Excess(State()) == Excess(old(State()))
        invariant if round == MAX_ROUNDS then Sampled(start, now, removed) else Cycling(start, now, removed, rounds)
      {
        var sampled, expired, seen := SampleRound(now);
        CycleStep(start, now, removed, rounds, seen, sampled);
        removed, rounds := removed + StaleIn(start - removed, now, seen), rounds + [(sampled, expired)];
        if sampled == 0 || expired * 4 < sampled { return; }
      }
    }

    /** What an operation of the store does to the shard that owns its key. */
    twostate predicate Performed(key: Bytes, op: Op, now: Time, o: Outcome)
      reads this
    {
      State() == StepStock(old(State()), key, op, now) && Shows(Answer(old(contents), key, op, now), o)
    }

    method PerformString(key: Bytes, op: Op, now: Time) returns (o: Outcome)
      requires Valid() && (op.Get? || op.SetTo? || op.SetNx? || (op.IncrBy? && FitsInt64(op.delta)))
      modifies this, data.Values
      ensures Valid() && fresh(data.Values - old(data.Values)) && Performed(key, op, now, o)
    {
      if op.SetTo? {
        o := SetEx(key, op.val, op.at, now);
        return;
      }
      hide Apply, StepStock, Settled, Touched, Leak, ListedAs, GetOn, SetNxOn, IncrByOn;
      StepIsSettled(State(), key, op, now);
      StringApplies(op, Find(contents, key, now), now);
      match op
      case Get => o := Get(key, now);
      case SetNx(val) => o := SetNX(key, val, now);
      case IncrBy(delta) => o := IncrBy(key, delta, now);
    }

    method PerformKey(key: Bytes, op: Op, now: Time) returns (o: Outcome)
      requires Valid() && (op.Delete? || op.Exists? || op.Type? || op.ExpireAt? || op.Persist? || op.Ttl?)
      modifies this, data.Values
      ensures Valid() && fresh(data.Values - old(data.Values)) && Performed(key, op, now, o)
    {
      hide Apply, StepStock, Settled, Touched, Leak, ListedAs, DeleteOn, ExistsOn, TypeOn, ExpireAtOn, PersistOn, TtlOn;
      StepIsSettled(State(), key, op, now);
      KeyApplies(op, Find(contents, key, now), now);
      match op
      case Delete => o := Del(key, now);
      case Exists => o := Exists(key, now);
      case Type => o := Type(key, now);
      case ExpireAt(at) => o := ExpireAt(key, at, now);
      case Persist => o := Persist(key, now);
      case Ttl => o := TTL(key, now);
    }

    method PerformList(key: Bytes, op: Op, now: Time) returns (o: Outcome)
      requires Valid() && (op.LPush? || op.RPush? || op.LPop? || op.RPop? || op.LLen? || op.LRange?)
      modifies this, data.Values
      ensures Valid() && fresh(data.Values - old(data.Values)) && Performed(key, op, now, o)
    {
      hide Apply, StepStock, Settled, Touched, Leak, ListedAs, LPushOn, RPushOn, LPopOn, RPopOn, LLenOn, LRangeOn;
      StepIsSettled(State(), key, op, now);
      ListApplies(op, Find(contents, key, now), now);
      match op
      case LPush(vals) => o := LPush(key, vals, now);
      case RPush(vals) => o := RPush(key, vals, now);
      case LPop => o := LPop(key, now);
      case RPop => o := RPop(key, now);
      case LLen => o := LLen(key, now);
      case LRange(start, stop) => o := LRange(key, start, stop, now);
    }

    method PerformHash(key: Bytes, op: Op, now: Time) returns (o: Outcome)
      requires Valid() && (op.HSet? || op.HGet? || op.HDel? || op.HGetAll? || op.HLen?)
      modifies this, data.Values
      ensures Valid() && fresh(data.Values - old(data.Values)) && Performed(key, op, now, o)
    {
      hide Apply, StepStock, Settled, Touched, Leak, ListedAs, HSetOn, HGetOn, HDelOn, HGetAllOn, HLenOn;
      StepIsSettled(State(), key, op, now);
      HashApplies(op, Find(contents, key, now), now);
      match op
      case HSet(field, val) => o := HSet(key, field, val, now);
      case HGet(field) => o := HGet(key, field, now);
      case HDel(gone) => o := HDel(key, gone, now);
      case HGetAll => o := HGetAll(key, now);
      case HLen => o := HLen(key, now);
    }

    method PerformSet(key: Bytes, op: Op, now: Time) returns (o: Outcome)
      requires Valid() && (op.SAdd? || op.SRem? || op.SIsMember? || op.SMembers? || op.SCard?)
      modifies this, data.Values
      ensures Valid() && fresh(data.Values - old(data.Values)) && Performed(key, op, now, o)
    {
      hide Apply, StepStock, Settled, Touched, Leak, ListedAs, SAddOn, SRemOn, SIsMemberOn, SMembersOn, SCardOn;
      StepIsSettled(State(), key, op, now);
      SetApplies(op, Find(contents, key, now), now);
      match op
      case SAdd(vals) => o := SAdd(key, vals, now);
      case SRem(gone) => o := SRem(key, gone, now);
      case SIsMember(member) => o := SIsMember(key, member, now);
      case SMembers => o := SMembers(key, now);
      case SCard => o := SCard(key, now);
    }

    method Perform(key: Bytes, op: Op, now: Time) returns (o: Outcome)
      requires Valid() && (op.IncrBy? ==> FitsInt64(op.delta))
      modifies this, data.Values
      ensures Valid() && fresh(data.Values - old(data.Values)) && Performed(key, op, now, o)
    {
      hide Apply, StepStock, ListedAs;
      if op.Get? || op.SetTo? || op.SetNx? || op.IncrBy? {
        o := PerformString(key, op, now);
      } else if op.Delete? || op.Exists? || op.Type? || op.ExpireAt? || op.Persist? || op.Ttl? {
        o := PerformKey(key, op, now);
      } else if op.LPush? || op.RPush? || op.LPop? || op.RPop? || op.LLen? || op.LRange? {
        o := PerformList(key, op, now);
      } else if op.HSet? || op.HGet? || op.HDel? || op.HGetAll? || op.HLen? {
        o := PerformHash(key, op, now);
      } else {
        o := PerformSet(key, op, now);
      }
    }

    /** `EntryMemory` under the shard's lock. */
    method LiveSize(key: Bytes, now: Time) returns (size: int)
      requires Valid()
      modifies this
      ensures Valid() && data.Values <= old(data.Values)
      ensures State() == StepStock(old(State()), key, Op.Exists, now)
      ensures size == OptSize(key, Find(old(contents), key, now))
    {
      StepIsSettled(State(), key, Op.Exists, now);
      TouchedFinds(State(), key, now);
      var e := LiveEntry(key, now);
      SettledAsIs(State(), key);
      if e == null { return 0; }
      size := EntryApproxMemory(key, e);
    }

    method CountLive(now: Time) returns (n: nat)
      requires Valid()
      ensures n == |View(contents, now)|
    {
      n := 0;
      var todo := data.Keys;
      while todo != {}
        invariant todo <= data.Keys
        invariant n == |LiveIn(contents, now, contents.Keys - todo)|
      {
        var key :| key in todo;
        LiveStep(contents, now, todo, key);
        todo := todo - {key};
        if !data[key].IsExpired(now) { n := n + 1; }
      }
      assert contents.Keys - {} == contents.Keys;
      LiveKeysCount(contents, now);
    }

    /** Drops every entry; the count of expired keys stays. */
    method Reset()
      requires Valid()
      modifies this
      ensures Valid() && data == map[] && State() == Stock(map[], 0, old(expiredKeys))
    {
      data, usedMemory, contents := map[], 0, map[];
    }

    /** The shard's part of `Snapshot`: expired keys are deleted on the way, the others copied. */
    method CopyLive(now: Time) returns (es: seq<SnapshotEntry>, ghost gone: set<Bytes>)
      requires Valid()
      modifies this
      ensures Valid() && data.Values <= old(data.Values)
      ensures gone == Stale(old(contents), now) && State() == Without(old(State()), gone)
      ensures Enumerates(es, contents)
    {
      hide Valid, Enumerates, Copies, DbSize, Expired;
      es, gone := [], {};
      ghost var start := State();
      SameKeys();
      EnumeratesNone(contents);
      var todo := data.Keys;
      WithoutNothing(start);
      while todo != {}
        invariant Valid() && data.Values <= old(data.Values)
        invariant todo <= contents.Keys && todo <= start.data.Keys && gone == StaleIn(start.data, now, start.data.Keys - todo)
        invariant State() == Without(start, gone)
        invariant Enumerates(es, contents - todo)
      {
        var key :| key in todo;
        CopyStep(start.data, now, todo, key);
        WithoutOne(start, gone, key);
        ghost var before := contents;
        SameKeys();
        var copy := CopyOne(key, now);
        if copy.Some? {
          EnumeratesMore(es, contents, todo, copy.value);
          es := es + [copy.value];
        } else {
          gone := gone + {key};
          SkipKey(before, todo, key);
        }
        todo := todo - {key};
      }
      SkipNone(contents);
      assert start.data.Keys - {} == start.data.Keys;
    }

    /** One key of a snapshot: deleted and counted if expired, copied otherwise. */
    method CopyOne(key: Bytes, now: Time) returns (copy: Option<SnapshotEntry>)
      requires Valid() && key in data
      modifies this
      ensures Valid() && data.Values <= old(data.Values)
      ensures copy.None? <==> Expired(old(contents[key]), now)
      ensures copy.Some? ==> State() == old(State()) && copy.value.key == key && Copies(copy.value, contents[key])
      ensures copy.None? ==> var t := Settled(old(State()), key, None, 0); State() == t.(expired := t.expired + 1)
    {
      var e := data[key];
      if e.IsExpired(now) {
        DeleteEntry(key);
        expiredKeys := expiredKeys + 1;
        return None;
      }
      var c := SnapshotEntryOf(key, e);
      copy := Some(c);
    }
  }

  lemma WithoutNothing(s: Stock)
    ensures Without(s, {}) == s
  {
    assert s.data - {} == s.data;
  }

  lemma WithoutOne(s: Stock, gone: set<Bytes>, key: Bytes)
    requires key in s.data && key !in gone
    ensures var t := Settled(Without(s, gone), key, None, 0);
            Without(s, gone + {key}) == t.(expired := t.expired + 1)
  {
    assert s.data - (gone + {key}) == s.data - gone - {key};
    DbSizeTakeOut(s.data - gone, key);
  }

  lemma SkipKey(db: Db, todo: set<Bytes>, key: Bytes)
    ensures db - {key} - (todo - {key}) == (if key in todo then db - todo else db - {key} - todo)
  {
  }

  lemma SkipNone(db: Db)
    ensures db - {} == db
  {
  }

  lemma CopyStep(start: Db, now: Time, todo: set<Bytes>, key: Bytes)
    requires key in todo && todo <= start.Keys
    ensures var gone := StaleIn(start, now, start.Keys - todo);
            key !in gone &&
            StaleIn(start, now, start.Keys - (todo - {key})) == if Expired(start[key], now) then gone + {key} else gone
  {
  }

  /** `snapshotEntry` with its copying helpers. */
  method SnapshotEntryOf(key: Bytes, e: Entry) returns (copy: SnapshotEntry)
    ensures copy.key == key && Copies(copy, e.Rec())
  {
    match e.value
    case StrV(bytes) => copy := SnapshotEntry(key, STRING, e.expireAt, bytes, [], map[], []);
    case ListV(items) => copy := SnapshotEntry(key, LIST, e.expireAt, [], items, map[], []);
    case HashV(fields) => copy := SnapshotEntry(key, HASH, e.expireAt, [], [], fields, []);
    case SetV(members) =>
      var listed := ListMembers(members);
      copy := SnapshotEntry(key, SET, e.expireAt, [], [], map[], listed);
  }

  /** The members of a set, in any order. */
  method ListMembers(members: set<Bytes>) returns (items: seq<Bytes>)
    ensures Lists(items, members) && Distinct(items)
  {
    var todo := members;
    items := [];
    while todo != {}
      invariant todo <= members && Lists(items, members - todo)
    {
      var m :| m in todo;
      todo := todo - {m};
      assert m !in Elements(items);
      assert Elements(items + [m]) == Elements(items) + {m};
      items := items + [m];
    }
  }
}
