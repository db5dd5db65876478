/** The serialisable copy of a key, and what a list of copies restores to. */
module SnapshotEntries {
  import opened ByteStrings
  import opened Clock
  import opened Keyspace
  import opened Runs
  import opened Values

  const STRING: byte := 'S'
  const LIST: byte := 'L'
  const HASH: byte := 'H'
  const SET: byte := 'T'

  datatype SnapshotEntry = SnapshotEntry(
    key: Bytes, kind: byte, expireAt: Time, value: Bytes, list: seq<Bytes>, hash: map<Bytes, Bytes>, members: seq<Bytes>)

  /** An entry of one kind leaves the fields of the others empty. */
  predicate Tidy(e: SnapshotEntry) {
    (e.kind == STRING || e.kind == LIST || e.kind == HASH || e.kind == SET) &&
    (e.kind != STRING ==> e.value == []) && (e.kind != LIST ==> e.list == []) &&
    (e.kind != HASH ==> e.hash == map[]) && (e.kind != SET ==> e.members == [])
  }

  /** `valueFromSnapshot` */
  function ValueOf(e: SnapshotEntry): Option<Value> {
    if e.kind == STRING then Some(StrV(e.value))
    else if e.kind == LIST then Some(ListV(e.list))
    else if e.kind == HASH then Some(HashV(e.hash))
    else if e.kind == SET then Some(SetV(Elements(e.members)))
    else None
  }

  predicate Distinct(s: seq<Bytes>) {
    forall i, j :: 0 <= i < j < |s| ==> s[i] != s[j]
  }

  /** An entry is a copy of a key's record; a set is copied in some order, each member once. */
  predicate Copies(e: SnapshotEntry, r: Record) {
    Tidy(e) && Distinct(e.members) && ValueOf(e) == Some(r.value) && e.expireAt == r.expireAt
  }

  /** A list with one copy of every key, in some order. */
  ghost predicate Enumerates(es: seq<SnapshotEntry>, db: Db) {
    (forall i :: 0 <= i < |es| ==> es[i].key in db && Copies(es[i], db[es[i].key])) &&
    (forall i, j :: 0 <= i < j < |es| ==> es[i].key != es[j].key) &&
    (forall key :: key in db ==> exists i :: 0 <= i < |es| && es[i].key == key)
  }

  lemma EnumeratesNone(db: Db)
    ensures Enumerates([], db - db.Keys)
  {
  }

  lemma EnumeratesMore(es: seq<SnapshotEntry>, db: Db, todo: set<Bytes>, copy: SnapshotEntry)
    requires Enumerates(es, db - todo) && copy.key in todo && copy.key in db && Copies(copy, db[copy.key])
    ensures Enumerates(es + [copy], db - (todo - {copy.key}))
  {
    var more, rest := es + [copy], db - (todo - {copy.key});
    forall key | key in rest
      ensures exists i :: 0 <= i < |more| && more[i].key == key
    {
      if key == copy.key {
        assert more[|es|].key == key;
      } else {
        assert key in db - todo;
        var i :| 0 <= i < |es| && es[i].key == key;
        assert more[i].key == key;
      }
    }
  }

  /** Copies of disjoint parts are copies of the whole. */
  lemma EnumeratesUnion(a: seq<SnapshotEntry>, b: seq<SnapshotEntry>, da: Db, db: Db)
    requires Enumerates(a, da) && Enumerates(b, db) && da.Keys !! db.Keys
    ensures Enumerates(a + b, da + db)
  {
    var all := a + b;
    forall key | key in da + db
      ensures exists i :: 0 <= i < |all| && all[i].key == key
    {
      if key in db {
        var i :| 0 <= i < |b| && b[i].key == key;
        assert all[|a| + i].key == key;
      } else {
        var i :| 0 <= i < |a| && a[i].key == key;
        assert all[i].key == key;
      }
    }
    forall i, j | 0 <= i < j < |all|
      ensures all[i].key != all[j].key
    {
      if i < |a| <= j {
        assert a[i].key in da && b[j - |a|].key in db;
      }
    }
  }

  /** One entry loaded on top of others: an empty key or an unknown kind is an error, an expired key is passed over. */
  function LoadedOn(front: Db, e: SnapshotEntry, now: Time): Option<Db> {
    if e.key == [] then None
    else if e.expireAt != NEVER && e.expireAt < now then Some(front)
    else if ValueOf(e).None? then None
    else Some(front[e.key := Record(ValueOf(e).value, e.expireAt)])
  }

  /** What a list of entries loads as, up to the first that is refused. */
  function Restored(es: seq<SnapshotEntry>, now: Time): Option<Db> {
    if es == [] then Some(map[])
    else
      var front := Restored(es[..|es| - 1], now);
      if front.None? then None else LoadedOn(front.value, es[|es| - 1], now)
  }

  lemma RestoredStep(es: seq<SnapshotEntry>, i: nat, now: Time)
    requires i < |es| && Restored(es[..i], now).Some?
    ensures Restored(es[..i + 1], now) == LoadedOn(Restored(es[..i], now).value, es[i], now)
  {
    assert es[..i + 1][..i] == es[..i];
  }

  ghost predicate Held(es: seq<SnapshotEntry>, db: Db, key: Bytes, now: Time) {
    key in db && !Expired(db[key], now) && exists i :: 0 <= i < |es| && es[i].key == key
  }

  /** Loading a prefix of the copies of a store loads exactly the live keys copied so far. */
  lemma {:induction false} RestoredPrefix(es: seq<SnapshotEntry>, db: Db, now: Time)
    requires forall i :: 0 <= i < |es| ==> es[i].key != [] && es[i].key in db && Copies(es[i], db[es[i].key])
    ensures Restored(es, now).Some?
    ensures forall key :: Slot(Restored(es, now).value, key) == if Held(es, db, key, now) then Some(db[key]) else None
    decreases |es|
  {
    if es != [] {
      var front, e := es[..|es| - 1], es[|es| - 1];
      RestoredPrefix(front, db, now);
      assert Copies(e, db[e.key]);
      forall key
        ensures Slot(Restored(es, now).value, key) == if Held(es, db, key, now) then Some(db[key]) else None
      {
        assert Slot(Restored(front, now).value, key) == if Held(front, db, key, now) then Some(db[key]) else None;
        assert Held(es, db, key, now) <==> Held(front, db, key, now) || (key == e.key && !Expired(db[key], now)) by {
          assert forall i :: 0 <= i < |front| ==> front[i] == es[i];
        }
      }
    }
  }

  /** Copies of a whole store load back as what it shows at that instant. */
  lemma RestoredWhole(es: seq<SnapshotEntry>, db: Db, now: Time)
    requires Enumerates(es, db) && [] !in db
    ensures Restored(es, now) == Some(View(db, now))
  {
    RestoredPrefix(es, db, now);
    forall key
      ensures Slot(Restored(es, now).value, key) == Slot(View(db, now), key)
    {
      assert Held(es, db, key, now) <==> key in View(db, now);
    }
    SlotsDecide(Restored(es, now).value, View(db, now));
  }

  /** One empty key anywhere in the list, and nothing loads. */
  lemma {:induction false} EmptyKeyRefused(es: seq<SnapshotEntry>, i: nat, now: Time)
    requires i < |es| && es[i].key == []
    ensures Restored(es, now).None?
    decreases |es|
  {
    if i < |es| - 1 {
      EmptyKeyRefused(es[..|es| - 1], i, now);
    }
  }

  /** What refuses a prefix refuses the list. */
  lemma {:induction false} RefusedOnce(es: seq<SnapshotEntry>, i: nat, now: Time)
    requires i <= |es| && Restored(es[..i], now).None?
    ensures Restored(es, now).None?
    decreases |es|
  {
    if i < |es| {
      assert es[..|es| - 1][..i] == es[..i];
      RefusedOnce(es[..|es| - 1], i, now);
    } else {
      assert es[..i] == es;
    }
  }
}
