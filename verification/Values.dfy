/** Stored values, and the memory estimate the store keeps for them. */
module Values {
  import opened ByteStrings
  import opened Clock

  datatype Value =
    | StrV(bytes: Bytes)
    | ListV(items: seq<Bytes>)
    | HashV(fields: map<Bytes, Bytes>)
    | SetV(members: set<Bytes>)

  /** What a key holds: a value and its deadline, NEVER when it has none. */
  datatype Record = Record(value: Value, expireAt: Time)

  type Db = map<Bytes, Record>

  /** A deadline equal to the clock has not passed yet. */
  predicate Expired(r: Record, now: Time) {
    r.expireAt != NEVER && now > r.expireAt
  }

  function Find(db: Db, key: Bytes, now: Time): Option<Record> {
    if key in db && !Expired(db[key], now) then Some(db[key]) else None
  }

  /** The entries a client can still see at an instant. */
  function View(db: Db, now: Time): Db {
    map key | key in db && !Expired(db[key], now) :: db[key]
  }

  /** Sum of the weights in a map. */
  ghost function Total<K>(weights: map<K, nat>): nat
    decreases |weights|
  {
    if weights == map[] then 0
    else
      var k :| k in weights;
      weights[k] + Total(weights - {k})
  }

  /** Whatever order the sum is taken in, any one key can be taken out first. */
  lemma {:induction false} TotalTakeOut<K>(weights: map<K, nat>, k: K)
    requires k in weights
    ensures Total(weights) == weights[k] + Total(weights - {k})
    decreases |weights|
  {
    var first :| first in weights && Total(weights) == weights[first] + Total(weights - {first});
    if first != k {
      TotalTakeOut(weights - {first}, k);
      TotalTakeOut(weights - {k}, first);
      assert weights - {first} - {k} == weights - {k} - {first};
    }
  }

  lemma TotalPut<K>(weights: map<K, nat>, k: K, w: nat)
    ensures Total(weights[k := w]) == w + Total(weights - {k})
  {
    TotalTakeOut(weights[k := w], k);
    assert weights[k := w] - {k} == weights - {k};
  }

  /** Leaving keys out can only make the total smaller. */
  lemma {:induction false} TotalWithout<K>(weights: map<K, nat>, gone: set<K>)
    ensures Total(weights - gone) <= Total(weights)
    decreases |gone|
  {
    if gone == {} {
      assert weights - gone == weights;
    } else {
      var k :| k in gone;
      TotalWithout(weights, gone - {k});
      var rest := weights - (gone - {k});
      assert weights - gone == rest - {k};
      if k in weights {
        TotalTakeOut(rest, k);
      } else {
        assert rest - {k} == rest;
      }
    }
  }

  ghost function ListSize(items: seq<Bytes>): nat {
    if items == [] then 0 else |items[0]| + ListSize(items[1..])
  }

  lemma {:induction false} ListSizeConcat(a: seq<Bytes>, b: seq<Bytes>)
    ensures ListSize(a + b) == ListSize(a) + ListSize(b)
  {
    if a == [] {
      assert a + b == b;
    } else {
      ListSizeConcat(a[1..], b);
      assert (a + b)[1..] == a[1..] + b;
    }
  }

  ghost function FieldWeights(fields: map<Bytes, Bytes>): map<Bytes, nat> {
    map f | f in fields :: |f| + |fields[f]|
  }

  ghost function MemberWeights(members: set<Bytes>): map<Bytes, nat> {
    map m | m in members :: |m|
  }

  ghost function ValueSize(v: Value): nat {
    match v
    case StrV(bytes) => |bytes|
    case ListV(items) => ListSize(items)
    case HashV(fields) => Total(FieldWeights(fields))
    case SetV(members) => Total(MemberWeights(members))
  }

  /** `entryApproxMemory`: key bytes plus value bytes. */
  ghost function EntrySize(key: Bytes, r: Record): nat {
    |key| + ValueSize(r.value)
  }

  ghost function OptSize(key: Bytes, r: Option<Record>): nat {
    if r.Some? then EntrySize(key, r.value) else 0
  }

  ghost function DbWeights(db: Db): map<Bytes, nat> {
    map key | key in db :: EntrySize(key, db[key])
  }

  /** The true size of a whole keyspace. */
  ghost function DbSize(db: Db): nat {
    Total(DbWeights(db))
  }

  function Slot(db: Db, key: Bytes): Option<Record> {
    if key in db then Some(db[key]) else None
  }

  function Place(db: Db, key: Bytes, r: Option<Record>): Db {
    if r.Some? then db[key := r.value] else db - {key}
  }

  lemma DbSizeTakeOut(db: Db, key: Bytes)
    ensures DbSize(db) == OptSize(key, Slot(db, key)) + DbSize(db - {key})
  {
    if key in db {
      TotalTakeOut(DbWeights(db), key);
      assert DbWeights(db) - {key} == DbWeights(db - {key});
    } else {
      assert db - {key} == db;
    }
  }

  /** Replacing one slot changes the total by the difference of the two slots. */
  lemma DbSizePlace(db: Db, key: Bytes, r: Option<Record>)
    ensures DbSize(Place(db, key, r)) == DbSize(db) - OptSize(key, Slot(db, key)) + OptSize(key, r)
  {
    DbSizeTakeOut(db, key);
    DbSizeTakeOut(Place(db, key, r), key);
    assert Place(db, key, r) - {key} == db - {key};
  }

  lemma DbSizeWithout(db: Db, gone: set<Bytes>)
    ensures DbSize(db - gone) <= DbSize(db)
  {
    assert DbWeights(db - gone) == DbWeights(db) - gone;
    TotalWithout(DbWeights(db), gone);
  }

  lemma FieldsPut(fields: map<Bytes, Bytes>, f: Bytes, v: Bytes)
    ensures ValueSize(HashV(fields[f := v])) <= ValueSize(HashV(fields)) + |f| + |v|
  {
    var w := FieldWeights(fields);
    assert FieldWeights(fields[f := v]) == w[f := |f| + |v|];
    TotalPut(w, f, |f| + |v|);
    TotalWithout(w, {f});
  }

  lemma FieldsWithout(fields: map<Bytes, Bytes>, gone: set<Bytes>)
    ensures ValueSize(HashV(fields - gone)) <= ValueSize(HashV(fields))
  {
    assert FieldWeights(fields - gone) == FieldWeights(fields) - gone;
    TotalWithout(FieldWeights(fields), gone);
  }

  lemma MembersPut(members: set<Bytes>, m: Bytes)
    ensures ValueSize(SetV(members + {m})) <= ValueSize(SetV(members)) + |m|
  {
    var w := MemberWeights(members);
    assert MemberWeights(members + {m}) == w[m := |m|];
    TotalPut(w, m, |m|);
    TotalWithout(w, {m});
  }

  lemma MembersWithout(members: set<Bytes>, gone: set<Bytes>)
    ensures ValueSize(SetV(members - gone)) <= ValueSize(SetV(members))
  {
    assert MemberWeights(members - gone) == MemberWeights(members) - gone;
    TotalWithout(MemberWeights(members), gone);
  }

  /** A hash weighs its field names and their values: what putting one field adds, and taking one out removes, to the byte. */
  lemma HashWeighs(fields: map<Bytes, Bytes>, f: Bytes, v: Bytes)
    ensures ValueSize(HashV(map[])) == 0
    ensures f !in fields ==> ValueSize(HashV(fields[f := v])) == ValueSize(HashV(fields)) + |f| + |v|
    ensures f in fields ==> ValueSize(HashV(fields[f := v])) == ValueSize(HashV(fields)) + |v| - |fields[f]|
    ensures f in fields ==> ValueSize(HashV(fields - {f})) == ValueSize(HashV(fields)) - |f| - |fields[f]|
  {
    var w := FieldWeights(fields);
    assert FieldWeights(fields[f := v]) == w[f := |f| + |v|];
    assert FieldWeights(fields - {f}) == w - {f};
    TotalPut(w, f, |f| + |v|);
    if f in fields {
      TotalTakeOut(w, f);
    } else {
      assert w - {f} == w;
    }
  }

  lemma SetWeighs(members: set<Bytes>, m: Bytes)
    ensures ValueSize(SetV({})) == 0
    ensures m !in members ==> ValueSize(SetV(members + {m})) == ValueSize(SetV(members)) + |m|
    ensures m in members ==> ValueSize(SetV(members - {m})) == ValueSize(SetV(members)) - |m|
  {
    var w := MemberWeights(members);
    assert MemberWeights(members + {m}) == w[m := |m|];
    assert MemberWeights(members - {m}) == w - {m};
    TotalPut(w, m, |m|);
    if m in members {
      TotalTakeOut(w, m);
    } else {
      assert w - {m} == w;
    }
  }

  /** A list weighs its elements, each as often as it occurs, and a string its bytes. */
  lemma ListWeighs(a: seq<Bytes>, b: seq<Bytes>, item: Bytes)
    ensures ValueSize(ListV([])) == 0
    ensures ValueSize(ListV(a + [item] + b)) == ValueSize(ListV(a + b)) + |item|
    ensures ValueSize(StrV(item)) == |item|
  {
    ListSizeConcat(a + [item], b);
    ListSizeConcat(a, [item]);
    ListSizeConcat(a, b);
    assert ListSize([item]) == |item|;
  }

  /** A store weighs its keys and their values; an empty one weighs nothing. */
  lemma StoreWeighs(db: Db, key: Bytes, r: Record)
    ensures DbSize(map[]) == 0
    ensures key !in db ==> DbSize(db[key := r]) == DbSize(db) + |key| + ValueSize(r.value)
    ensures key in db ==> DbSize(db[key := r]) == DbSize(db) + ValueSize(r.value) - ValueSize(db[key].value)
    ensures key in db ==> DbSize(db - {key}) == DbSize(db) - |key| - ValueSize(db[key].value)
  {
    hide ValueSize;
    DbSizePlace(db, key, Some(r));
    DbSizePlace(db, key, None);
    assert DbWeights(map[]) == map[];
  }
}
