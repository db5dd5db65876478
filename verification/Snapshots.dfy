/** Saving a store to a snapshot and loading it into another, with any number of shards. */
module Snapshots {
  import opened ByteStrings
  import opened Clock
  import opened Keyspace
  import opened Numbers
  import opened Runs
  import opened Sharding
  import opened SnapshotCodec
  import opened SnapshotEntries
  import opened SnapshotFile
  import opened Stores
  import opened Values
  import opened Wire

  predicate SizedRecord(key: Bytes, r: Record) {
    |key| < TWO_63 &&
    match r.value
    case StrV(bytes) => |bytes| < TWO_63
    case ListV(items) => SizedList(items)
    case HashV(fields) => |fields| < TWO_63 && forall f :: f in fields ==> |f| < TWO_63 && |fields[f]| < TWO_63
    case SetV(members) => |members| < TWO_63 && forall m :: m in members ==> |m| < TWO_63
  }

  /** No length in a store exceeds a machine integer. */
  predicate SizedDb(db: Db) {
    |db| < TWO_63 && forall key :: key in db ==> SizedRecord(key, db[key])
  }

  predicate FitsRecord(key: Bytes, r: Record) {
    |key| <= MAX_FIELD &&
    match r.value
    case StrV(bytes) => |bytes| <= MAX_FIELD
    case ListV(items) => FitsList(items)
    case HashV(fields) => |fields| <= MAX_ENTRIES && forall f :: f in fields ==> |f| <= MAX_FIELD && |fields[f]| <= MAX_FIELD
    case SetV(members) => |members| <= MAX_ENTRIES && forall m :: m in members ==> |m| <= MAX_FIELD
  }

  /** Everything is within the limits of the snapshot reader. */
  predicate FitsDb(db: Db) {
    |db| <= MAX_ENTRIES && forall key :: key in db ==> FitsRecord(key, db[key])
  }

  /** What a file keeps of a store: all but the deadlines out of range. */
  function FiledDb(db: Db): Db {
    map key | key in db :: Record(db[key].value, TimeOf(NanosOf(db[key].expireAt)))
  }

  /** The file keeps a store exactly when each deadline is none or lies strictly between 0 and 2^63 nanoseconds. */
  lemma FiledExactly(db: Db)
    ensures FiledDb(db) == db <==> forall key :: key in db ==> db[key].expireAt == NEVER || 0 < db[key].expireAt < TWO_63
  {
    forall key | key in db
      ensures FiledDb(db)[key] == db[key] <==> db[key].expireAt == NEVER || 0 < db[key].expireAt < TWO_63
    {
      DeadlineBack(db[key].expireAt);
    }
    if FiledDb(db) == db {
      assert forall key :: key in db ==> FiledDb(db)[key] == db[key];
    }
  }

  lemma MembersAlike(members: seq<Bytes>)
    requires Distinct(members)
    ensures |members| == |Elements(members)|
    ensures forall i :: 0 <= i < |members| ==> members[i] in Elements(members)
  {
    ListsCount(members, Elements(members));
  }

  lemma CopySized(e: SnapshotEntry, r: Record)
    requires Copies(e, r) && SizedRecord(e.key, r)
    ensures Sized(e)
  {
    MembersAlike(e.members);
  }

  lemma CopyFits(e: SnapshotEntry, r: Record)
    requires Copies(e, r)
    ensures FitsEntry(e) <==> FitsRecord(e.key, r)
  {
    MembersAlike(e.members);
    if e.kind == SET && FitsEntry(e) {
      forall m | m in Elements(e.members)
        ensures |m| <= MAX_FIELD
      {
        var i :| 0 <= i < |e.members| && e.members[i] == m;
      }
    }
  }

  lemma CopyFiled(e: SnapshotEntry, r: Record)
    requires Copies(e, r)
    ensures Copies(Filed(e), Record(r.value, TimeOf(NanosOf(r.expireAt))))
  {
  }

  lemma {:induction false} EnumeratesCount(es: seq<SnapshotEntry>, db: Db)
    requires Enumerates(es, db)
    ensures |es| == |db|
    decreases |es|
  {
    hide Copies;
    if es == [] {
      assert db == map[];
    } else {
      var n := |es| - 1;
      var last, rest := es[n].key, db - {es[n].key};
      forall key | key in rest
        ensures exists i :: 0 <= i < n && es[..n][i].key == key
      {
        var i :| 0 <= i < |es| && es[i].key == key;
        assert es[..n][i].key == key;
      }
      EnumeratesCount(es[..n], rest);
      assert db == rest[last := db[last]];
    }
  }

  lemma EnumeratesFiled(es: seq<SnapshotEntry>, db: Db)
    requires Enumerates(es, db)
    ensures Enumerates(FiledAll(es), FiledDb(db))
  {
    hide Copies, TimeOf, NanosOf;
    var filed := FiledAll(es);
    forall i | 0 <= i < |es|
      ensures filed[i].key in FiledDb(db) && Copies(filed[i], FiledDb(db)[filed[i].key])
    {
      CopyFiled(es[i], db[es[i].key]);
    }
    forall key | key in FiledDb(db)
      ensures exists i :: 0 <= i < |filed| && filed[i].key == key
    {
      var i :| 0 <= i < |es| && es[i].key == key;
      assert filed[i].key == key;
    }
  }

  lemma EnumeratedFits(es: seq<SnapshotEntry>, db: Db)
    requires Enumerates(es, db)
    ensures AllFit(es) <==> FitsDb(db)
  {
    hide Copies, FitsEntry, FitsRecord;
    EnumeratesCount(es, db);
    forall i | 0 <= i < |es|
      ensures FitsEntry(es[i]) <==> FitsRecord(es[i].key, db[es[i].key])
    {
      CopyFits(es[i], db[es[i].key]);
    }
    if AllFit(es) {
      forall key | key in db
        ensures FitsRecord(key, db[key])
      {
        var i :| 0 <= i < |es| && es[i].key == key;
      }
    }
  }

  /** The bytes are a snapshot of this store, with its entries and the fields of its hashes in some order. */
  ghost predicate SavedAs(bytes: Bytes, db: Db) {
    exists es: seq<SnapshotEntry>, orders: seq<seq<Bytes>> ::
      Ordered(es, orders) && Enumerates(es, db) && bytes == WriteRaws(Raws(es, orders))
  }

  lemma EnumeratedTidy(es: seq<SnapshotEntry>, db: Db)
    requires Enumerates(es, db)
    ensures AllTidy(es)
  {
    forall i | 0 <= i < |es|
      ensures Tidy(es[i])
    {
      assert Copies(es[i], db[es[i].key]);
    }
  }

  /** What loading some bytes makes of an empty store. */
  function Loaded(bytes: Bytes, now: Time): Option<Db> {
    var es := ReadEntries(bytes);
    if es.Err? then None else Restored(es.value, now)
  }

  /**
   Save then load. A snapshot loads exactly when its store has no empty key and is within the reader's limits, which
   saving never checks; and then it shows, at the load and later, just what the store would have shown, but for
   deadlines out of range.
   */
  lemma SavedLoads(bytes: Bytes, db: Db, more: Bytes, now: Time)
    requires SavedAs(bytes, db) && |db| < TWO_63
    ensures Loaded(bytes + more, now) == if FitsDb(db) && [] !in db then Some(View(FiledDb(db), now)) else None
    ensures FitsDb(db) ==> ReadEntries(bytes + more).Ok? && ReadEntries(bytes + more).rest == more
  {
    hide Ordered, Raws, WriteRaws, ReadEntries, AllFit, FitsDb, Restored, FiledDb, View;
    var es: seq<SnapshotEntry>, orders: seq<seq<Bytes>> :|
      Ordered(es, orders) && Enumerates(es, db) && bytes == WriteRaws(Raws(es, orders));
    EnumeratesCount(es, db);
    EnumeratedTidy(es, db);
    SnapshotBack(es, orders, more);
    EnumeratedFits(es, db);
    EnumeratesFiled(es, db);
    if [] in db {
      var i :| 0 <= i < |es| && es[i].key == [];
      EmptyKeyRefused(FiledAll(es), i, now);
    } else {
      SameKeys(db);
      RestoredWhole(FiledAll(es), FiledDb(db), now);
    }
  }

  lemma SameKeys(db: Db)
    ensures FiledDb(db).Keys == db.Keys
  {
  }

  /** `Save`: expired keys are deleted from the store, and the rest are written. */
  method Save(store: Store, now: Time) returns (bytes: Bytes)
    requires store.Valid() && SizedDb(store.State().data)
    modifies store.shards
    ensures store.Valid() && SavedAs(bytes, store.State().data)
    ensures store.State().data == View(old(store.State()).data, now)
  {
    hide Store.Valid, Store.State, Sized, WriteRaws, View;
    ghost var before := store.State().data;
    var es := store.Snapshot(now);
    ViewSized(before, now);
    EntriesSized(es, store.State().data);
    var w := new Writer();
    var ok;
    ghost var orders;
    ok, orders := Encode(w, es);
    bytes := w.out;
    assert ok;
    assert w.out == WriteRaws(Raws(es, orders));
  }

  lemma ViewSized(db: Db, now: Time)
    requires SizedDb(db)
    ensures forall key :: key in View(db, now) ==> SizedRecord(key, View(db, now)[key])
  {
  }

  lemma EntriesSized(es: seq<SnapshotEntry>, db: Db)
    requires Enumerates(es, db) && forall key :: key in db ==> SizedRecord(key, db[key])
    ensures forall i :: 0 <= i < |es| ==> Sized(es[i]) && Known(es[i].kind)
  {
    forall i | 0 <= i < |es|
      ensures Sized(es[i]) && Known(es[i].kind)
    {
      CopySized(es[i], db[es[i].key]);
    }
  }

  /** `Load`: bytes that are no snapshot leave the store alone; otherwise it holds what the entries restore to. */
  method Load(bytes: Bytes, store: Store, now: Time) returns (ok: bool)
    requires store.Valid()
    modifies store, store.shards, store.cells
    ensures store.Valid() && fresh(store.cells - old(store.cells))
    ensures ok == Loaded(bytes, now).Some?
    ensures ok ==> store.State() == Exactly(Loaded(bytes, now).value, old(store.State()).expired)
    ensures ReadEntries(bytes).Err? ==> store.State() == old(store.State())
    ensures ReadEntries(bytes).Ok? && !ok ==>
              var es := ReadEntries(bytes).value;
              exists i :: 0 <= i < |es| && Restored(es[..i], now).Some? &&
                store.State() == Exactly(Restored(es[..i], now).value, old(store.State()).expired)
  {
    hide Store.Valid, Store.State, Restored, ReadEntries, Exactly;
    var reader := new Reader(bytes);
    var es := Decode(reader);
    if es.Failure? { return false; }
    ok := store.Restore(es.value, now);
  }

  /** A restart with a snapshot: one store saved at shutdown, and a new one, of any number of shards, loaded at start-up. */
  method Reload(from: Store, numShards: int, hash: Bytes -> uint32, saved: Time, loaded: Time) returns (into: Store, ok: bool)
    requires from.Valid() && SizedDb(from.State().data) && numShards <= Pow2(62)
    modifies from.shards
    ensures into.Valid() && fresh(into)
    ensures var shown := View(old(from.State()).data, saved);
            ok == (FitsDb(shown) && [] !in shown) &&
            (ok ==> into.State().data == View(FiledDb(shown), loaded))
  {
    hide Store.Valid, Store.State, SavedAs, FitsDb, FiledDb, Loaded, SizedDb, View, Pow2, LeastPow2;
    ghost var before := from.State().data;
    var bytes := Save(from, saved);
    ViewSmaller(before, saved);
    SavedLoads(bytes, View(before, saved), [], loaded);
    assert bytes + [] == bytes;
    into := new Store(numShards, hash);
    ok := Load(bytes, into, loaded);
  }

  predicate InRange(db: Db) {
    forall key :: key in db ==> db[key].expireAt == NEVER || 0 < db[key].expireAt < TWO_63
  }

  /** What a reload shows: with every deadline in range, the very view of the store it came from, from the load on. */
  lemma ReloadedView(db: Db, saved: Time, loaded: Time, u: Time)
    requires saved <= u && loaded <= u && InRange(View(db, saved))
    ensures View(View(FiledDb(View(db, saved)), loaded), u) == View(db, u)
  {
    FiledExactly(View(db, saved));
    ViewOfView(db, saved);
    SameViewLater(View(db, saved), db, saved, u);
    ViewOfView(View(db, saved), loaded);
    SameViewLater(View(View(db, saved), loaded), View(db, saved), loaded, u);
  }

  lemma ViewSmaller(db: Db, now: Time)
    ensures SizedDb(db) ==> |View(db, now)| < TWO_63
  {
    var view := View(db, now);
    assert view.Keys <= db.Keys;
    SubsetSmaller(view.Keys, db.Keys);
    assert |view| == |view.Keys| && |db| == |db.Keys|;
  }

  lemma SubsetSmaller(a: set<Bytes>, b: set<Bytes>)
    requires a <= b
    ensures |a| <= |b|
  {
    assert b == a + (b - a);
  }
}
