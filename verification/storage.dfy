/**
 * The IndexedDB layer of src/storage/state.ts as values: the schema upgrade,
 * the `boards` object store as a sequence of records kept in key order (the
 * order `getAll` returns them in), and the single `app_state` record. Every
 * transaction is one function from the old contents to the new ones.
 */
module Storage {
  import opened Common
  import opened Types
  import opened JsonValue
  import Sorting

  // ---------------------------------------------------------------- schema

  datatype StoreName = BoardsStore | MediaStore | AppStateStore

  /** The object stores that exist, and whether `boards` has its `by-updated` index. */
  datatype Schema = Schema(stores: set<StoreName>, byUpdatedIndex: bool)

  const SchemaVersion := 2

  /** The schema a database created at version `v` has. */
  function SchemaAt(v: nat): (r: Schema)
    ensures v >= 2 ==> r.stores == {BoardsStore, MediaStore, AppStateStore}
  {
    if v == 0 then Schema({}, false)
    else if v == 1 then Schema({BoardsStore, MediaStore}, true)
    else Schema({BoardsStore, MediaStore, AppStateStore}, true)
  }

  /** The `upgrade` callback for an open at version 2 from `oldVersion`. */
  function Upgrade(oldVersion: nat, s: Schema): (r: Schema)
    ensures s.stores <= r.stores
    ensures oldVersion >= 2 ==> r == s
  {
    var s1 := if oldVersion < 1 then Schema(s.stores + {BoardsStore, MediaStore}, true) else s;
    if oldVersion < 2 then s1.(stores := s1.stores + {AppStateStore}) else s1
  }

  /**
   * From every earlier version the upgrade reaches the current schema: the
   * three stores and the index. From version 1 it adds only `app_state`; from
   * version 2 it changes nothing, so a second upgrade is idle.
   */
  lemma UpgradeReachesCurrent(v: nat)
    requires v <= SchemaVersion
    ensures Upgrade(v, SchemaAt(v)) == SchemaAt(SchemaVersion)
    ensures Upgrade(v, SchemaAt(v)).stores == {BoardsStore, MediaStore, AppStateStore}
    ensures v == 1 ==> Upgrade(v, SchemaAt(v)).stores - SchemaAt(v).stores == {AppStateStore}
    ensures Upgrade(SchemaVersion, Upgrade(v, SchemaAt(v))) == Upgrade(v, SchemaAt(v))
  {
    if v == 1 {
      assert Upgrade(v, SchemaAt(v)).stores - SchemaAt(v).stores == {AppStateStore};
    }
  }

  // ------------------------------------------------------------ key order

  /** IndexedDB's ordering of string keys: lexicographic by character. */
  predicate KeyLess(a: string, b: string)
    decreases |a|
  {
    if |a| == 0 then |b| > 0
    else if |b| == 0 then false
    else if a[0] == b[0] then KeyLess(a[1..], b[1..])
    else a[0] < b[0]
  }

  lemma {:induction false} KeyLessIrreflexive(a: string)
    ensures !KeyLess(a, a)
  {
    if |a| > 0 {
      KeyLessIrreflexive(a[1..]);
    }
  }

  lemma {:induction false} KeyLessTransitive(a: string, b: string, c: string)
    requires KeyLess(a, b) && KeyLess(b, c)
    ensures KeyLess(a, c)
    decreases |a|
  {
    if |a| > 0 && |b| > 0 && |c| > 0 && a[0] == b[0] && b[0] == c[0] {
      KeyLessTransitive(a[1..], b[1..], c[1..]);
    }
  }

  lemma {:induction false} KeyLessTotal(a: string, b: string)
    ensures a == b || KeyLess(a, b) || KeyLess(b, a)
    decreases |a|
  {
    if |a| > 0 && |b| > 0 && a[0] == b[0] {
      KeyLessTotal(a[1..], b[1..]);
      if a[1..] == b[1..] {
        assert a == [a[0]] + a[1..] && b == [b[0]] + b[1..];
      }
    }
  }

  /** Strictly increasing keys: the order `getAll` reads the store in. */
  ghost predicate KeyOrdered(rs: seq<Board>) {
    forall i, j :: 0 <= i < j < |rs| ==> KeyLess(rs[i].id, rs[j].id)
  }

  /** The record stored under `id`. */
  function Lookup(rs: seq<Board>, id: Id): (r: Option<Board>)
    ensures r.Some? ==> r.value in rs && r.value.id == id
    ensures r.None? <==> forall i :: 0 <= i < |rs| ==> rs[i].id != id
  {
    if |rs| == 0 then None
    else if rs[0].id == id then Some(rs[0])
    else Lookup(rs[1..], id)
  }

  /** `store.put(b)`: insert, or replace the record with the same key. */
  function Put(rs: seq<Board>, b: Board): (r: seq<Board>)
    requires KeyOrdered(rs)
    ensures KeyOrdered(r)
    ensures forall k :: Lookup(r, k) == if k == b.id then Some(b) else Lookup(rs, k)
    ensures forall x :: x in r ==> x == b || x in rs
  {
    if |rs| == 0 then [b]
    else if rs[0].id == b.id then
      KeyLessIrreflexive(b.id);
      [b] + rs[1..]
    else if KeyLess(b.id, rs[0].id) then
      forall j | 0 <= j < |rs| ensures KeyLess(b.id, rs[j].id) {
        if j > 0 { KeyLessTransitive(b.id, rs[0].id, rs[j].id); }
      }
      [b] + rs
    else
      KeyLessTotal(b.id, rs[0].id);
      var tail := Put(rs[1..], b);
      assert forall x :: x in tail ==> KeyLess(rs[0].id, x.id);
      [rs[0]] + tail
  }

  /** `store.delete(id)`. */
  function Remove(rs: seq<Board>, id: Id): (r: seq<Board>)
    requires KeyOrdered(rs)
    ensures KeyOrdered(r)
    ensures forall k :: Lookup(r, k) == if k == id then None else Lookup(rs, k)
    ensures forall x :: x in r ==> x in rs
  {
    if |rs| == 0 then []
    else if rs[0].id == id then
      assert forall j :: 0 < j < |rs| ==> rs[j].id != id by {
        KeyLessIrreflexive(id);
      }
      rs[1..]
    else
      var tail := Remove(rs[1..], id);
      forall i | 0 <= i < |tail|
        ensures KeyLess(rs[0].id, tail[i].id)
      {
        assert tail[i] in rs[1..];
        var j :| 0 <= j < |rs[1..]| && rs[1..][j] == tail[i];
        assert rs[j + 1] == tail[i];
      }
      [rs[0]] + tail
  }

  /** Putting every board in order, starting from `rs`. */
  function PutAll(rs: seq<Board>, bs: seq<Board>): (r: seq<Board>)
    requires KeyOrdered(rs)
    ensures KeyOrdered(r)
    decreases |bs|
  {
    if |bs| == 0 then rs else PutAll(Put(rs, bs[0]), bs[1..])
  }

  /** No two boards share an id. */
  ghost predicate IdsDistinct(bs: seq<Board>) {
    forall i, j :: 0 <= i < j < |bs| ==> bs[i].id != bs[j].id
  }

  /** Strictly increasing keys repeat no id, and so no record. */
  lemma KeyOrderedIdsDistinct(rs: seq<Board>)
    requires KeyOrdered(rs)
    ensures IdsDistinct(rs) && Distinct(rs)
  {
    forall i, j | 0 <= i < j < |rs|
      ensures rs[i].id != rs[j].id
    {
      KeyLessIrreflexive(rs[i].id);
    }
  }

  /** The boards `loadState` returns from a well-formed store have distinct ids. */
  lemma LoadedIdsDistinct(db: Db)
    requires Valid(db)
    ensures IdsDistinct(LoadState(db).boards)
  {
    var rs, bs := db.records, LoadState(db).boards;
    KeyOrderedIdsDistinct(rs);
    DistinctPermutation(rs, bs);
    forall i, j | 0 <= i < j < |bs|
      ensures bs[i].id != bs[j].id
    {
      assert bs[i] in multiset(rs) && bs[j] in multiset(rs);
      var p :| 0 <= p < |rs| && rs[p] == bs[i];
      var q :| 0 <= q < |rs| && rs[q] == bs[j];
      assert p != q;
    }
  }

  /** A put under a new key adds exactly that record. */
  lemma {:induction false} PutNew(rs: seq<Board>, b: Board)
    requires KeyOrdered(rs) && Lookup(rs, b.id).None?
    ensures multiset(Put(rs, b)) == multiset(rs) + multiset{b}
  {
    if |rs| > 0 && !KeyLess(b.id, rs[0].id) {
      PutNew(rs[1..], b);
      assert rs == [rs[0]] + rs[1..];
    }
  }

  /** None of the boards' ids is stored yet. */
  ghost predicate AllNew(rs: seq<Board>, bs: seq<Board>) {
    forall i :: 0 <= i < |bs| ==> Lookup(rs, bs[i].id).None?
  }

  /** Putting boards with distinct new keys adds exactly those boards. */
  lemma {:induction false} PutAllNew(rs: seq<Board>, bs: seq<Board>)
    requires KeyOrdered(rs) && IdsDistinct(bs) && AllNew(rs, bs)
    ensures multiset(PutAll(rs, bs)) == multiset(rs) + multiset(bs)
    decreases |bs|
  {
    if |bs| > 0 {
      var rs1, rest := Put(rs, bs[0]), bs[1..];
      assert multiset(rs1) == multiset(rs) + multiset{bs[0]} by {
        PutAllNewTail(rs, bs);
        PutNew(rs, bs[0]);
      }
      assert multiset(PutAll(rs1, rest)) == multiset(rs1) + multiset(rest) by {
        PutAllNewTail(rs, bs);
        PutAllNew(rs1, rest);
      }
      assert multiset(bs) == multiset{bs[0]} + multiset(rest) by {
        assert bs == [bs[0]] + rest;
      }
    }
  }

  /** After the first put, the remaining boards are still distinct and still new. */
  lemma PutAllNewTail(rs: seq<Board>, bs: seq<Board>)
    requires KeyOrdered(rs) && IdsDistinct(bs) && |bs| > 0 && AllNew(rs, bs)
    ensures Lookup(rs, bs[0].id).None?
    ensures IdsDistinct(bs[1..]) && AllNew(Put(rs, bs[0]), bs[1..])
  {
    var rest := bs[1..];
    forall i, j | 0 <= i < j < |rest|
      ensures rest[i].id != rest[j].id
    {
      assert rest[i] == bs[i + 1] && rest[j] == bs[j + 1];
    }
    forall i | 0 <= i < |rest|
      ensures Lookup(Put(rs, bs[0]), rest[i].id).None?
    {
      assert rest[i] == bs[i + 1];
      assert rest[i].id != bs[0].id;
    }
  }

  // -------------------------------------------------------------- database

  /** The contents of the `boards` store and of the `app_state` record under key `default`. */
  datatype Db = Db(records: seq<Board>, appState: Option<Json>)

  ghost predicate Valid(db: Db) {
    KeyOrdered(db.records)
  }

  const EmptyDb := Db([], None)

  /** The `defaultAppState` constant. */
  const DefaultAppState := DefaultSnapshot

  /** `b.updatedAt - a.updatedAt` as an ascending sort key: newest first. */
  function Newest(b: Board): int {
    -b.updatedAt
  }

  /** The snapshot as `loadState` reads it: no record gives the default, a record is normalised. */
  function LoadSnapshot(stored: Option<Json>): (r: Snapshot)
    ensures stored.None? ==> r == DefaultAppState
  {
    if stored.None? || !Truthy(stored.value) then DefaultAppState else SnapshotFromJson(stored.value)
  }

  /** The pair `loadState` resolves to. */
  datatype Loaded = Loaded(boards: seq<Board>, appState: Snapshot)

  /**
   * `loadState`: every board, newest first, boards saved at the same time in
   * key order (the sort is stable over `getAll`'s key order), and the
   * normalised snapshot.
   */
  function LoadState(db: Db): (r: Loaded)
    ensures multiset(r.boards) == multiset(db.records)
    ensures Sorting.SortedBy(r.boards, Newest)
    ensures Sorting.StableFor(db.records, r.boards, Newest)
  {
    Loaded(Sorting.SortBy(db.records, Newest), LoadSnapshot(db.appState))
  }

  /** `getAllBoards`: the boards of `loadState`. */
  function GetAllBoards(db: Db): (r: seq<Board>)
    ensures multiset(r) == multiset(db.records)
    ensures forall i, j :: 0 <= i < j < |r| ==> r[i].updatedAt >= r[j].updatedAt
  {
    LoadState(db).boards
  }

  /**
   * `saveState`: the boards store is cleared and every board put in turn (a
   * later board with a repeated id replaces the earlier one), and the snapshot
   * record is overwritten. Nothing of the previous contents survives.
   */
  function SaveState(boards: seq<Board>, snap: Snapshot): (r: Db)
    ensures Valid(r)
    ensures forall x :: x in r.records ==> x in boards
    ensures r.appState == Some(SnapshotRecord(snap))
  {
    PutAllFrom([], boards);
    Db(PutAll([], boards), Some(SnapshotRecord(snap)))
  }

  lemma {:induction false} PutAllFrom(rs: seq<Board>, bs: seq<Board>)
    requires KeyOrdered(rs)
    ensures forall x :: x in PutAll(rs, bs) ==> x in rs || x in bs
    decreases |bs|
  {
    if |bs| > 0 {
      PutAllFrom(Put(rs, bs[0]), bs[1..]);
    }
  }

  /**
   * A save followed by a load gives back exactly the saved boards (when their
   * ids are distinct), newest first, and exactly the saved snapshot.
   */
  lemma SaveThenLoad(boards: seq<Board>, snap: Snapshot)
    requires IdsDistinct(boards)
    ensures multiset(LoadState(SaveState(boards, snap)).boards) == multiset(boards)
    ensures Sorting.SortedBy(LoadState(SaveState(boards, snap)).boards, Newest)
    ensures LoadState(SaveState(boards, snap)).appState == snap
  {
    PutAllNew([], boards);
    SnapshotRoundTrip(snap);
  }

  /** The last board in `bs` carrying id `k`: the one a run of puts leaves under that key. */
  function LastWithId(bs: seq<Board>, k: Id): (r: Option<Board>)
    ensures r.None? <==> forall i :: 0 <= i < |bs| ==> bs[i].id != k
    ensures r.Some? ==> exists i :: 0 <= i < |bs| && bs[i] == r.value && r.value.id == k
                          && forall j :: i < j < |bs| ==> bs[j].id != k
  {
    if |bs| == 0 then None
    else
      var t := LastWithId(bs[1..], k);
      if t.Some? then
        var i :| 0 <= i < |bs[1..]| && bs[1..][i] == t.value && t.value.id == k
                 && forall j :: i < j < |bs[1..]| ==> bs[1..][j].id != k;
        assert bs[i + 1] == t.value;
        assert forall j :: i + 1 < j < |bs| ==> bs[j] == bs[1..][j - 1];
        t
      else if bs[0].id == k then
        assert forall j :: 0 < j < |bs| ==> bs[j] == bs[1..][j - 1];
        Some(bs[0])
      else
        assert forall j :: 0 < j < |bs| ==> bs[j] == bs[1..][j - 1];
        None
  }

  /** Putting boards in turn leaves, under each key, the last board with that key, or what was there. */
  lemma {:induction false} PutAllLookup(rs: seq<Board>, bs: seq<Board>, k: Id)
    requires KeyOrdered(rs)
    ensures Lookup(PutAll(rs, bs), k) == if LastWithId(bs, k).Some? then LastWithId(bs, k) else Lookup(rs, k)
    decreases |bs|
  {
    if |bs| > 0 {
      PutAllLookup(Put(rs, bs[0]), bs[1..], k);
    }
  }

  /** After `saveState`, each id holds the last board saved with it, and ids never saved hold nothing. */
  lemma SaveStateLookup(boards: seq<Board>, snap: Snapshot)
    ensures forall k :: Lookup(SaveState(boards, snap).records, k) == LastWithId(boards, k)
  {
    forall k ensures Lookup(SaveState(boards, snap).records, k) == LastWithId(boards, k) {
      PutAllLookup([], boards, k);
    }
  }

  /** Whatever boards are saved, the snapshot saved with them is the one loaded back. */
  lemma SavedSnapshotLoads(boards: seq<Board>, snap: Snapshot)
    ensures LoadState(SaveState(boards, snap)).appState == snap
  {
    SnapshotRoundTrip(snap);
  }

  /** `saveBoard`: upsert the board with `updatedAt` set to the clock; nothing else changes. */
  function SaveBoard(db: Db, b: Board, now: int): (r: Db)
    requires Valid(db)
    ensures Valid(r)
    ensures Lookup(r.records, b.id) == Some(b.(updatedAt := now))
    ensures forall k :: k != b.id ==> Lookup(r.records, k) == Lookup(db.records, k)
    ensures r.appState == db.appState
  {
    db.(records := Put(db.records, b.(updatedAt := now)))
  }

  /** `getBoard`. */
  function GetBoard(db: Db, id: Id): (r: Option<Board>)
    ensures r.Some? ==> r.value.id == id && r.value in db.records
    ensures r.None? <==> forall i :: 0 <= i < |db.records| ==> db.records[i].id != id
  {
    Lookup(db.records, id)
  }

  /** `deleteBoard`: only that key goes. */
  function DeleteBoard(db: Db, id: Id): (r: Db)
    requires Valid(db)
    ensures Valid(r)
    ensures GetBoard(r, id).None?
    ensures forall k :: k != id ==> GetBoard(r, k) == GetBoard(db, k)
    ensures r.appState == db.appState
  {
    db.(records := Remove(db.records, id))
  }
}
