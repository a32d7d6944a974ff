/**
 * The board store of src/store/useBoardStore.ts as a value: the current
 * board, the current category, the sentence strip and the caregiver gate,
 * with the startup decisions and the queries the views use. Every operation
 * is synchronous; the clock, the fresh ids and the data-version marker kept
 * in localStorage are parameters and results.
 */
module Session {
  import opened Common
  import opened Types
  import Sorting
  import Mutations
  import Storage
  import Seed
  import JsonValue

  /** The slice of the store's state the modelled operations read and write. */
  datatype Session = Session(
    board: Option<Board>,
    currentCategoryId: Option<Id>,
    strip: seq<Id>,
    sentenceMode: bool,
    loaded: bool,
    lastUtterance: string,
    isCaregiverMode: bool,
    caregiverPin: Option<string>,
    showPinDialog: bool,
    lockNavInChildMode: bool)

  /** The store before startup; the PIN and the lock-nav flag come from localStorage. */
  function Initial(pin: Option<string>, lockNav: bool): (r: Session)
    ensures r.board.None? && r.currentCategoryId.None? && r.strip == [] && !r.loaded
    ensures !r.isCaregiverMode && !r.showPinDialog
  {
    Session(None, None, [], false, false, "", false, pin, false, lockNav)
  }

  /** The current category, when there is one, is listed by the current board. */
  ghost predicate CurrentValid(s: Session) {
    s.currentCategoryId.Some? ==> s.board.Some? && s.currentCategoryId.value in s.board.value.categoryIds
  }

  /** `board?.categoryIds[0] ?? null`. */
  function FirstOf(b: Option<Board>): (r: Option<Id>)
    ensures r.Some? <==> b.Some? && |b.value.categoryIds| > 0
    ensures r.Some? ==> r.value in b.value.categoryIds
  {
    if b.Some? then FirstCategory(b.value) else None
  }

  // ---------------------------------------------------- small state changes

  /** `setBoard`: the board, and its first category as the current one. */
  function SetBoard(s: Session, b: Option<Board>): (r: Session)
    ensures CurrentValid(r)
    ensures r.board == b && r.currentCategoryId == FirstOf(b)
    ensures r.(board := s.board, currentCategoryId := s.currentCategoryId) == s
  {
    s.(board := b, currentCategoryId := FirstOf(b))
  }

  /** `appendToSentence`: the id goes on the end of the strip, whatever it is. */
  function AppendToSentence(s: Session, id: Id): (r: Session)
    ensures |r.strip| == |s.strip| + 1 && r.strip[..|s.strip|] == s.strip && r.strip[|s.strip|] == id
    ensures r.(strip := s.strip) == s
  {
    s.(strip := s.strip + [id])
  }

  /** `clearSentence`. */
  function ClearSentence(s: Session): (r: Session)
    ensures r.strip == [] && r.(strip := s.strip) == s
  {
    s.(strip := [])
  }

  /** A PIN is set when it is present and non-empty. */
  predicate PinSet(s: Session) {
    s.caregiverPin.Some? && s.caregiverPin.value != ""
  }

  /**
   * `enterCaregiverMode(pin)`: with no PIN set anyone enters; with a PIN set
   * only the same PIN does. Entering closes the PIN dialog; a refused attempt
   * changes nothing.
   */
  function EnterCaregiverMode(s: Session, pin: Option<string>): (r: (Session, bool))
    ensures r.1 <==> !PinSet(s) || pin == s.caregiverPin
    ensures r.1 ==> r.0 == s.(isCaregiverMode := true, showPinDialog := false)
    ensures !r.1 ==> r.0 == s
  {
    if PinSet(s) && pin != s.caregiverPin then (s, false)
    else (s.(isCaregiverMode := true, showPinDialog := false), true)
  }

  /** `exitCaregiverMode`. */
  function ExitCaregiverMode(s: Session): (r: Session)
    ensures !r.isCaregiverMode && r.(isCaregiverMode := s.isCaregiverMode) == s
  {
    s.(isCaregiverMode := false)
  }

  /**
   * The gate as a two-state machine: from child mode, the right PIN (or no
   * PIN at all) leads to caregiver mode, a wrong one stays in child mode, and
   * leaving always returns to child mode with nothing else changed.
   */
  lemma CaregiverGate(s: Session, pin: Option<string>)
    requires !s.isCaregiverMode
    ensures EnterCaregiverMode(s, pin).0.isCaregiverMode <==> !PinSet(s) || pin == s.caregiverPin
    ensures ExitCaregiverMode(EnterCaregiverMode(s, pin).0) == s.(showPinDialog := EnterCaregiverMode(s, pin).0.showPinDialog)
    ensures PinSet(s) ==> EnterCaregiverMode(s, None) == (s, false)
  {
  }

  // ----------------------------------------------------- board operations

  /** A guarded mutation's outcome: a new board is committed, an ignored one leaves the store. */
  function Commit(s: Session, next: Option<Board>): (r: Session)
    ensures next.None? ==> r == s
    ensures next.Some? ==> r.board == next && r.(board := s.board) == s
  {
    if next.Some? then s.(board := next) else s
  }

  /**
   * `deleteCategory` in the store: the board loses the category, and the
   * current category moves to the first remaining one (or none) only when it
   * was the one deleted.
   */
  function DeleteCategoryIn(s: Session, id: Id, now: int): (r: Session)
    ensures s.board.None? || id !in s.board.value.categories ==> r == s
    ensures s.board.Some? && id in s.board.value.categories ==>
      && r.board == Mutations.DeleteCategory(s.board.value, id, now)
      && r.currentCategoryId == (if s.currentCategoryId == Some(id) then FirstOf(r.board) else s.currentCategoryId)
    ensures r.strip == s.strip
  {
    if s.board.None? then s
    else
      match Mutations.DeleteCategory(s.board.value, id, now)
      case None => s
      case Some(next) =>
        s.(board := Some(next),
           currentCategoryId := if s.currentCategoryId == Some(id) then FirstCategory(next) else s.currentCategoryId)
  }

  /** Deleting a category never leaves the store pointing at a category the board does not list. */
  lemma DeleteCategoryKeepsCurrentValid(s: Session, id: Id, now: int)
    requires CurrentValid(s)
    ensures CurrentValid(DeleteCategoryIn(s, id, now))
  {
    var r := DeleteCategoryIn(s, id, now);
    if s.board.Some? && id in s.board.value.categories && s.currentCategoryId.Some? && s.currentCategoryId != Some(id) {
      var c := s.currentCategoryId.value;
      var ids := s.board.value.categoryIds;
      var j :| 0 <= j < |ids| && ids[j] == c;
      assert c in RemoveAll(ids, id);
    }
  }

  /**
   * `addTile` in the store: no board or no such category returns no id and
   * changes nothing; otherwise the tile is added and its id returned.
   */
  function AddTileIn(s: Session, cid: Id, labelText: string, speechText: Option<string>, newId: Id, now: int): (r: (Session, Option<Id>))
    ensures r.1.None? <==> s.board.None? || cid !in s.board.value.categories
    ensures r.1.None? ==> r.0 == s
    ensures r.1.Some? ==> r.1 == Some(newId) && r.0.board.Some? && newId in r.0.board.value.tiles
    ensures r.1.Some? ==> r.0 == s.(board := Mutations.AddTile(s.board.value, cid, labelText, speechText, newId, now))
  {
    if s.board.None? then (s, None)
    else
      match Mutations.AddTile(s.board.value, cid, labelText, speechText, newId, now)
      case None => (s, None)
      case Some(next) => (s.(board := Some(next)), Some(newId))
  }

  // ---------------------------------------------------------------- queries

  /** `getCurrentCategory`: none without a board or a truthy current id, else the lookup. */
  function GetCurrentCategory(s: Session): (r: Option<Category>)
    ensures r.Some? ==> s.board.Some? && TruthyStr(s.currentCategoryId)
    ensures r.Some? <==> s.board.Some? && TruthyStr(s.currentCategoryId) && s.currentCategoryId.value in s.board.value.categories
    ensures r.Some? ==> r.value == s.board.value.categories[s.currentCategoryId.value]
  {
    if s.board.None? || !TruthyStr(s.currentCategoryId) then None
    else if s.currentCategoryId.value in s.board.value.categories then Some(s.board.value.categories[s.currentCategoryId.value])
    else None
  }

  /** With a valid, truthy current id and integrity, the current category is found. */
  lemma CurrentCategoryFound(s: Session)
    requires CurrentValid(s) && TruthyStr(s.currentCategoryId)
    requires s.board.Some? ==> CategoriesResolve(s.board.value)
    ensures GetCurrentCategory(s).Some?
  {
    ListedCategory(s.board.value, s.currentCategoryId.value);
  }

  /** The tiles that are not hidden, in order. */
  function Unhidden(ts: seq<Tile>): (r: seq<Tile>)
    ensures forall t :: t in r ==> t in ts && !t.hidden
    ensures forall t :: t in ts && !t.hidden ==> t in r
    ensures |r| <= |ts|
  {
    if |ts| == 0 then []
    else if ts[0].hidden then Unhidden(ts[1..])
    else [ts[0]] + Unhidden(ts[1..])
  }

  /**
   * `getTilesForCurrentCategory`: the current category's tiles that resolve
   * and are not hidden, stably sorted by `order`; empty without a board or a
   * current category.
   */
  function VisibleTiles(s: Session): (r: seq<Tile>)
    ensures GetCurrentCategory(s).None? ==> r == []
    ensures GetCurrentCategory(s).Some? ==>
      var candidates := Unhidden(Resolve(GetCurrentCategory(s).value.tileIds, s.board.value.tiles));
      && multiset(r) == multiset(candidates)
      && Sorting.SortedBy(r, Mutations.TileOrder)
      && Sorting.StableFor(candidates, r, Mutations.TileOrder)
    ensures forall t :: t in r ==> !t.hidden && s.board.Some? && t in s.board.value.tiles.Values
  {
    match GetCurrentCategory(s)
    case None => []
    case Some(cat) =>
      var r := Sorting.SortBy(Unhidden(Resolve(cat.tileIds, s.board.value.tiles)), Mutations.TileOrder);
      assert forall t :: t in r ==> t in Unhidden(Resolve(cat.tileIds, s.board.value.tiles)) by {
        forall t | t in r ensures t in Unhidden(Resolve(cat.tileIds, s.board.value.tiles)) {
          assert t in multiset(r);
        }
      }
      r
  }

  /** Without hidden tiles, the visible list is the list the store's tile reorder indexes. */
  lemma VisibleIsReorderList(s: Session)
    requires GetCurrentCategory(s).Some?
    requires forall t :: t in Resolve(GetCurrentCategory(s).value.tileIds, s.board.value.tiles) ==> !t.hidden
    ensures VisibleTiles(s) == Mutations.TilesInOrder(s.board.value, GetCurrentCategory(s).value)
  {
    var ts := Resolve(GetCurrentCategory(s).value.tileIds, s.board.value.tiles);
    NoHiddenUnhidden(ts);
  }

  lemma {:induction false} NoHiddenUnhidden(ts: seq<Tile>)
    requires forall t :: t in ts ==> !t.hidden
    ensures Unhidden(ts) == ts
  {
    if |ts| > 0 {
      NoHiddenUnhidden(ts[1..]);
    }
  }

  /**
   * With a hidden tile first, the editor's drag index 0 (taken from the
   * visible list) names a different tile from the store's index 0 (taken
   * from the full sorted list).
   */
  lemma HiddenTileShiftsIndices()
    ensures var h := Tile("h", "H", None, None, None, None, true, false, None, 0);
      var a := Tile("a", "A", None, None, None, None, false, false, None, 1);
      var b := Board("b", "B", 3, None, ["c"], map["c" := Category("c", "C", ["h", "a"], 0, None)],
                     map["h" := h, "a" := a], 0);
      var s := Initial(None, false).(board := Some(b), currentCategoryId := Some("c"));
      && VisibleTiles(s) == [a]
      && Mutations.TilesInOrder(b, b.categories["c"]) == [h, a]
  {
    var h := Tile("h", "H", None, None, None, None, true, false, None, 0);
    var a := Tile("a", "A", None, None, None, None, false, false, None, 1);
    var b := Board("b", "B", 3, None, ["c"], map["c" := Category("c", "C", ["h", "a"], 0, None)],
                   map["h" := h, "a" := a], 0);
    var s := Initial(None, false).(board := Some(b), currentCategoryId := Some("c"));
    var cat := b.categories["c"];
    assert GetCurrentCategory(s) == Some(cat);
    assert Resolve(cat.tileIds, b.tiles) == [h, a] by {
      assert cat.tileIds[1..] == ["a"];
      assert cat.tileIds[1..][1..] == [];
    }
    assert Unhidden([h, a]) == [a] by {
      assert [h, a][1..] == [a];
      assert [a][1..] == [];
    }
    Sorting.SortSortedIsIdentity([a], Mutations.TileOrder);
    Sorting.SortSortedIsIdentity([h, a], Mutations.TileOrder);
  }

  // --------------------------------------------------------------- startup

  /** The data-version marker the store writes. */
  const DataVersion := "2"

  /** The snapshot a reseed saves: the seed current, its first category, an empty strip. */
  function SeedSnapshot(b: Board): (r: Snapshot)
    ensures r.currentBoardId == Some(b.id) && r.currentCategoryId == FirstCategory(b) && r.sentenceStripTileIds == []
  {
    Snapshot(Some(b.id), FirstCategory(b), [])
  }

  /**
   * A board that looks stale: it has tiles, and none has a non-empty icon.
   * Images are not considered.
   */
  predicate Stale(b: Board)
    ensures Stale(b) <==> |b.tiles| > 0 && !exists k :: k in b.tiles && TruthyStr(b.tiles[k].icon)
  {
    |b.tiles| > 0 && forall k :: k in b.tiles ==> b.tiles[k].icon.None? || b.tiles[k].icon == Some("")
  }

  /** Giving a tile an image, or taking it away, never changes whether the board looks stale. */
  lemma StaleIgnoresImages(b: Board, k: Id, url: Option<string>)
    requires k in b.tiles
    ensures Stale(b.(tiles := b.tiles[k := b.tiles[k].(imageUrl := url)])) == Stale(b)
  {
    var b2 := b.(tiles := b.tiles[k := b.tiles[k].(imageUrl := url)]);
    assert b2.tiles.Keys == b.tiles.Keys;
    assert forall j :: j in b.tiles ==> b2.tiles[j].icon == b.tiles[j].icon;
  }

  datatype Startup = ForcedReseed | EmptyReseed | StaleReseed | NormalLoad

  /** Which branch `loadOrCreateSeed` takes. */
  function StartupDecision(version: Option<string>, db: Storage.Db): (r: Startup)
    ensures r == ForcedReseed <==> version != Some(DataVersion)
    ensures r == EmptyReseed <==> version == Some(DataVersion) && |db.records| == 0
    ensures r == StaleReseed <==>
      version == Some(DataVersion) && |db.records| > 0 && Stale(Storage.LoadState(db).boards[0])
    ensures r == NormalLoad ==> |Storage.LoadState(db).boards| > 0
  {
    if version != Some(DataVersion) then ForcedReseed
    else
      var boards := Storage.LoadState(db).boards;
      if |boards| == 0 then EmptyReseed
      else if Stale(boards[0]) then StaleReseed
      else NormalLoad
  }

  /** The outcome of startup: the store, the database and the version marker. */
  datatype Started = Started(session: Session, db: Storage.Db, version: Option<string>)

  /** The store after a reseed with `seed`. */
  function Reseeded(s: Session, seed: Board): (r: Session)
    ensures CurrentValid(r)
  {
    s.(board := Some(seed), currentCategoryId := FirstCategory(seed), strip := [], loaded := true)
  }

  /**
   * `loadOrCreateSeed`: reseed (saving the seed as the only board, with its
   * first category current and an empty strip) on a version mismatch, an
   * empty store or a stale newest board; otherwise load the newest board,
   * restoring the saved category only when the saved board is this board and
   * the category is still listed. The version marker is recorded on a forced
   * reseed.
   */
  function LoadOrCreateSeed(s: Session, version: Option<string>, db: Storage.Db, seedIds: seq<Id>, now: int): (r: Started)
    requires |seedIds| == Seed.IdCount
    ensures CurrentValid(r.session) && r.session.loaded
    ensures r.version == Some(DataVersion)
    ensures StartupDecision(version, db) != NormalLoad ==>
      var seed := Seed.BuildSeed(seedIds, now);
      && r.session == Reseeded(s, seed)
      && r.db == Storage.SaveState([seed], SeedSnapshot(seed))
    ensures StartupDecision(version, db) == NormalLoad ==>
      var loaded := Storage.LoadState(db);
      && r.db == db
      && r.session.board == Some(loaded.boards[0])
      && r.session.strip == loaded.appState.sentenceStripTileIds
    ensures StartupDecision(version, db) == NormalLoad ==>
      var board, saved := Storage.LoadState(db).boards[0], Storage.LoadState(db).appState;
      var restore := saved.currentBoardId == Some(board.id) && TruthyStr(saved.currentCategoryId)
        && saved.currentCategoryId.value in board.categoryIds;
      && (restore ==> r.session.currentCategoryId == saved.currentCategoryId)
      && (!restore ==> r.session.currentCategoryId == FirstCategory(board))
  {
    var seed := Seed.BuildSeed(seedIds, now);
    var reseed := Started(Reseeded(s, seed), Storage.SaveState([seed], SeedSnapshot(seed)), Some(DataVersion));
    match StartupDecision(version, db)
    case ForcedReseed => reseed
    case EmptyReseed => reseed
    case StaleReseed => reseed
    case NormalLoad =>
      var loaded := Storage.LoadState(db);
      var board := loaded.boards[0];
      var saved := loaded.appState;
      var current :=
        if saved.currentBoardId == Some(board.id) && TruthyStr(saved.currentCategoryId)
           && saved.currentCategoryId.value in board.categoryIds
        then saved.currentCategoryId
        else FirstCategory(board);
      Started(s.(board := Some(board), currentCategoryId := current, strip := saved.sentenceStripTileIds, loaded := true),
              db, version)
  }

  /** A seed saved as the only board loads back as the newest board, with its snapshot. */
  lemma SavedSeedLoads(seed: Board)
    ensures Storage.LoadState(Storage.SaveState([seed], SeedSnapshot(seed))).boards == [seed]
    ensures Storage.LoadState(Storage.SaveState([seed], SeedSnapshot(seed))).appState == SeedSnapshot(seed)
  {
    var db := Storage.SaveState([seed], SeedSnapshot(seed));
    assert Storage.PutAll([], [seed]) == [seed] by {
      assert [seed][1..] == [];
    }
    var sorted := Storage.LoadState(db).boards;
    assert multiset(sorted) == multiset{seed};
    assert |sorted| == 1;
    assert sorted[0] in multiset(sorted);
    SnapshotOfSeed(seed);
  }

  lemma SnapshotOfSeed(seed: Board)
    ensures Storage.LoadSnapshot(Some(JsonValue.SnapshotRecord(SeedSnapshot(seed)))) == SeedSnapshot(seed)
  {
    JsonValue.SnapshotRoundTrip(SeedSnapshot(seed));
  }

  /** A freshly built seed is never stale: its tiles all carry icons. */
  lemma SeedNotStale(seedIds: seq<Id>, now: int)
    requires |seedIds| == Seed.IdCount && Distinct(seedIds)
    ensures !Stale(Seed.BuildSeed(seedIds, now))
  {
    Seed.SeededTile(seedIds, now, 0);
  }

  /**
   * Startup is settled by one run: run again on what it left (with fresh
   * ids that repeat nothing), it takes the normal path and keeps the same
   * board, category and strip.
   */
  lemma RerunDoesNotReseed(s: Session, version: Option<string>, db: Storage.Db, ids1: seq<Id>, ids2: seq<Id>, now1: int, now2: int)
    requires |ids1| == Seed.IdCount && |ids2| == Seed.IdCount && Distinct(ids1)
    requires StartupDecision(version, db) != NormalLoad
    ensures var first := LoadOrCreateSeed(s, version, db, ids1, now1);
      var second := LoadOrCreateSeed(first.session, first.version, first.db, ids2, now2);
      && StartupDecision(first.version, first.db) == NormalLoad
      && second.session == first.session
      && second.db == first.db
  {
    var seed := Seed.BuildSeed(ids1, now1);
    SeedNotStale(ids1, now1);
    SavedBoardReloads(s, seed, ids2, now2);
  }

  /**
   * A reseed's result is a fixed point of startup for any board that is not
   * stale: the saved board loads back as the newest, its saved first
   * category is restored, and nothing is written.
   */
  lemma SavedBoardReloads(s: Session, seed: Board, ids: seq<Id>, now: int)
    requires |ids| == Seed.IdCount && !Stale(seed)
    ensures var db := Storage.SaveState([seed], SeedSnapshot(seed));
      && StartupDecision(Some(DataVersion), db) == NormalLoad
      && LoadOrCreateSeed(Reseeded(s, seed), Some(DataVersion), db, ids, now)
         == Started(Reseeded(s, seed), db, Some(DataVersion))
  {
    SavedSeedLoads(seed);
  }

  /**
   * `loadBoards`: the newest board (or none), the saved category when it is
   * truthy and listed by that board, otherwise its first; the saved strip.
   * Unlike startup it does not check which board the category was saved for.
   */
  function LoadBoards(s: Session, db: Storage.Db): (r: Session)
    ensures CurrentValid(r) && r.loaded
    ensures var loaded := Storage.LoadState(db);
      && r.board == (if |loaded.boards| > 0 then Some(loaded.boards[0]) else None)
      && r.strip == loaded.appState.sentenceStripTileIds
    ensures var saved := Storage.LoadState(db).appState.currentCategoryId;
      (r.board.Some? && TruthyStr(saved) && saved.value in r.board.value.categoryIds) ==> r.currentCategoryId == saved
    ensures var saved := Storage.LoadState(db).appState.currentCategoryId;
      !(r.board.Some? && TruthyStr(saved) && saved.value in r.board.value.categoryIds) ==> r.currentCategoryId == FirstOf(r.board)
  {
    var loaded := Storage.LoadState(db);
    var board := if |loaded.boards| > 0 then Some(loaded.boards[0]) else None;
    var saved := loaded.appState.currentCategoryId;
    var current :=
      if board.Some? && TruthyStr(saved) && saved.value in board.value.categoryIds then saved
      else FirstOf(board);
    s.(board := board, currentCategoryId := current, strip := loaded.appState.sentenceStripTileIds, loaded := true)
  }

  /**
   * `resetToDefaultDemo`: the seed replaces every board and the snapshot,
   * and becomes the current board with its first category and an empty strip.
   */
  function ResetToDefaultDemo(s: Session, seedIds: seq<Id>, now: int): (r: (Session, Storage.Db))
    requires |seedIds| == Seed.IdCount
    ensures CurrentValid(r.0) && r.0.strip == [] && r.0.loaded == s.loaded
    ensures r.0.board == Some(Seed.BuildSeed(seedIds, now))
    ensures Storage.LoadState(r.1).boards == [Seed.BuildSeed(seedIds, now)]
    ensures Storage.LoadState(r.1).appState == SeedSnapshot(Seed.BuildSeed(seedIds, now))
  {
    var seed := Seed.BuildSeed(seedIds, now);
    SavedSeedLoads(seed);
    (s.(board := Some(seed), currentCategoryId := FirstCategory(seed), strip := []),
     Storage.SaveState([seed], SeedSnapshot(seed)))
  }

  /** After a reset, reloading from the database shows what the reset showed. */
  lemma ResetThenLoad(s: Session, seedIds: seq<Id>, now: int)
    requires |seedIds| == Seed.IdCount
    ensures var (after, db) := ResetToDefaultDemo(s, seedIds, now);
      var reloaded := LoadBoards(after, db);
      && reloaded.board == after.board
      && reloaded.currentCategoryId == after.currentCategoryId
      && reloaded.strip == after.strip
  {
  }

  // ------------------------------------------------------------ persisting

  /** Each stored board, with the one sharing the current board's id replaced by it. */
  function ReplaceById(boards: seq<Board>, current: Board): (r: seq<Board>)
    ensures |r| == |boards|
    ensures forall i :: 0 <= i < |boards| ==> r[i] == if boards[i].id == current.id then current else boards[i]
  {
    seq(|boards|, i requires 0 <= i < |boards| => if boards[i].id == current.id then current else boards[i])
  }

  /** The snapshot of the store's current state. */
  function SnapshotOf(s: Session): (r: Snapshot)
    ensures r.currentBoardId == (if s.board.Some? then Some(s.board.value.id) else None)
    ensures r.currentCategoryId == s.currentCategoryId && r.sentenceStripTileIds == s.strip
  {
    Snapshot(if s.board.Some? then Some(s.board.value.id) else None, s.currentCategoryId, s.strip)
  }

  /** The loaded boards are the stored ones. */
  lemma LoadedAreStored(db: Storage.Db)
    ensures |Storage.LoadState(db).boards| == |db.records|
    ensures forall x :: x in Storage.LoadState(db).boards ==> x in db.records
  {
    var boards := Storage.LoadState(db).boards;
    forall x | x in boards ensures x in db.records {
      assert x in multiset(boards);
    }
  }

  /** Replacing by id keeps every id and brings in no board but the current one. */
  lemma ReplaceKeepsIds(boards: seq<Board>, current: Board)
    ensures forall x :: x in ReplaceById(boards, current) ==> x in boards || x == current
    ensures forall x :: x in ReplaceById(boards, current) ==> exists y :: y in boards && y.id == x.id
  {
    var r := ReplaceById(boards, current);
    forall x | x in r ensures exists y :: y in boards && y.id == x.id {
      var i :| 0 <= i < |r| && r[i] == x;
      assert boards[i] in boards && boards[i].id == x.id;
    }
  }

  /** The boards `persistAppState` writes back. */
  function PersistedBoards(s: Session, db: Storage.Db): (r: seq<Board>)
    ensures |r| == |db.records|
    ensures forall x :: x in r ==> x in db.records || (s.board.Some? && x == s.board.value)
    ensures forall x :: x in r ==> exists y :: y in db.records && y.id == x.id
  {
    var boards := Storage.LoadState(db).boards;
    LoadedAreStored(db);
    if s.board.Some? then
      ReplaceKeepsIds(boards, s.board.value);
      ReplaceById(boards, s.board.value)
    else boards
  }

  /**
   * `persistAppState`: the stored boards with the current board written over
   * the stored board of the same id, and the store's snapshot. A current
   * board whose id is not stored is not added.
   */
  function PersistAppState(s: Session, db: Storage.Db): (r: Storage.Db)
    ensures Storage.Valid(r)
    ensures forall x :: x in r.records ==> x in db.records || (s.board.Some? && x == s.board.value)
    ensures r.appState == Some(JsonValue.SnapshotRecord(SnapshotOf(s)))
  {
    Storage.SaveState(PersistedBoards(s, db), SnapshotOf(s))
  }

  /**
   * Persisting never adds a board under a new id, and a later load returns
   * exactly the store's snapshot.
   */
  lemma PersistAppStateEffect(s: Session, db: Storage.Db)
    ensures forall x :: x in PersistAppState(s, db).records ==> exists y :: y in db.records && y.id == x.id
    ensures Storage.LoadState(PersistAppState(s, db)).appState == SnapshotOf(s)
  {
    PersistKeepsIds(s, db);
    Storage.SavedSnapshotLoads(PersistedBoards(s, db), SnapshotOf(s));
  }

  /**
   * After persisting, a load returns every stored board, the one sharing the
   * current board's id replaced by the current board, newest first, with the
   * store's snapshot: nothing is dropped and nothing is duplicated.
   */
  lemma PersistThenLoad(s: Session, db: Storage.Db)
    requires Storage.Valid(db)
    ensures var loaded, stored := Storage.LoadState(PersistAppState(s, db)), Storage.LoadState(db).boards;
      && multiset(loaded.boards) == multiset(if s.board.Some? then ReplaceById(stored, s.board.value) else stored)
      && Sorting.SortedBy(loaded.boards, Storage.Newest)
      && loaded.appState == SnapshotOf(s)
  {
    var stored := Storage.LoadState(db).boards;
    Storage.LoadedIdsDistinct(db);
    var next := PersistedBoards(s, db);
    assert Storage.IdsDistinct(next) by {
      if s.board.Some? {
        assert forall i :: 0 <= i < |stored| ==> next[i].id == stored[i].id;
      }
    }
    Storage.SaveThenLoad(next, SnapshotOf(s));
  }

  lemma PersistKeepsIds(s: Session, db: Storage.Db)
    ensures forall x :: x in PersistAppState(s, db).records ==> exists y :: y in db.records && y.id == x.id
  {
    var next := PersistedBoards(s, db);
    forall x | x in PersistAppState(s, db).records
      ensures exists y :: y in db.records && y.id == x.id
    {
      assert x in next;
    }
  }
}
