/**
 * The board mutation API of src/store/useBoardStore.ts (lines 183-307) as
 * pure functions from the current board to the next one. The clock is the
 * parameter `now` and a freshly generated id is the parameter `newId`.
 * Operations that the source abandons with an early `return` (missing
 * target, nothing to move) yield `None`: no new board is set and nothing is
 * saved.
 */
module Mutations {
  import opened Common
  import opened Types
  import Moves
  import Sorting

  /** `Partial<Board>` as the editor builds it: name, columns and rows. */
  datatype BoardPatch = BoardPatch(name: Option<string>, columns: Option<int>, rows: Option<int>)

  /** `Partial<Category>` without `id`; `Some(None)` writes `null`. */
  datatype CategoryPatch = CategoryPatch(
    name: Option<string>,
    tileIds: Option<seq<Id>>,
    order: Option<int>,
    icon: Option<Option<string>>)

  /** `Partial<Tile>` without `id`; `Some(None)` writes `null`. */
  datatype TilePatch = TilePatch(
    labelText: Option<string>,
    icon: Option<Option<string>>,
    imageUrl: Option<Option<string>>,
    speechText: Option<Option<string>>,
    color: Option<Option<string>>,
    hidden: Option<bool>,
    locked: Option<bool>,
    linkBoardId: Option<Option<Id>>,
    order: Option<int>)

  const NoCategoryChange := CategoryPatch(None, None, None, None)
  const NoTileChange := TilePatch(None, None, None, None, None, None, None, None, None)

  /** `{ ...c, ...p }`: every field the patch carries replaces the current one. */
  function PatchCategory(c: Category, p: CategoryPatch): (r: Category)
    ensures r.id == c.id
    ensures p == NoCategoryChange ==> r == c
  {
    Category(c.id, p.name.GetOr(c.name), p.tileIds.GetOr(c.tileIds), p.order.GetOr(c.order), p.icon.GetOr(c.icon))
  }

  /** `{ ...t, ...p }`. */
  function PatchTile(t: Tile, p: TilePatch): (r: Tile)
    ensures r.id == t.id
    ensures p == NoTileChange ==> r == t
  {
    Tile(
      t.id,
      p.labelText.GetOr(t.labelText),
      p.icon.GetOr(t.icon),
      p.imageUrl.GetOr(t.imageUrl),
      p.speechText.GetOr(t.speechText),
      p.color.GetOr(t.color),
      p.hidden.GetOr(t.hidden),
      p.locked.GetOr(t.locked),
      p.linkBoardId.GetOr(t.linkBoardId),
      p.order.GetOr(t.order))
  }

  /** Merging the same patch twice is merging it once. */
  lemma PatchIdempotent(c: Category, t: Tile, cp: CategoryPatch, tp: TilePatch)
    ensures PatchCategory(PatchCategory(c, cp), cp) == PatchCategory(c, cp)
    ensures PatchTile(PatchTile(t, tp), tp) == PatchTile(t, tp)
  {
  }

  /** `updateBoard`: merge the patch, refresh the timestamp. */
  function UpdateBoard(b: Board, p: BoardPatch, now: int): (r: Board)
    ensures r.id == b.id && r.categoryIds == b.categoryIds
    ensures r.categories == b.categories && r.tiles == b.tiles
    ensures r.name == (if p.name.Some? then p.name.value else b.name)
    ensures r.columns == (if p.columns.Some? then p.columns.value else b.columns)
    ensures r.rows == (if p.rows.Some? then p.rows else b.rows)
    ensures r.updatedAt == now
    ensures Integrity(b) ==> Integrity(r)
  {
    b.(name := p.name.GetOr(b.name),
       columns := p.columns.GetOr(b.columns),
       rows := if p.rows.Some? then p.rows else b.rows,
       updatedAt := now)
  }

  /**
   * `updateCategory`: ignored when the id is not a key; otherwise exactly that
   * entry is merged with the patch.
   */
  function UpdateCategory(b: Board, id: Id, p: CategoryPatch, now: int): (r: Option<Board>)
    ensures r.None? <==> id !in b.categories
    ensures r.Some? ==> r.value.categoryIds == b.categoryIds && r.value.tiles == b.tiles
    ensures r.Some? ==> r.value.categories.Keys == b.categories.Keys
    ensures r.Some? ==> forall k :: k in b.categories && k != id ==> r.value.categories[k] == b.categories[k]
    ensures r.Some? ==> r.value.categories[id] == PatchCategory(b.categories[id], p)
    ensures r.Some? ==> r.value.updatedAt == now && r.value.id == b.id
    ensures r.Some? && Integrity(b) && (p.tileIds.None? || forall t :: t in p.tileIds.value ==> t in b.tiles)
      ==> Integrity(r.value)
  {
    if id !in b.categories then None
    else Some(b.(categories := b.categories[id := PatchCategory(b.categories[id], p)], updatedAt := now))
  }

  /** `updateTile`: ignored when the id is not a key; otherwise exactly that entry is merged. */
  function UpdateTile(b: Board, id: Id, p: TilePatch, now: int): (r: Option<Board>)
    ensures r.None? <==> id !in b.tiles
    ensures r.Some? ==> r.value.categoryIds == b.categoryIds && r.value.categories == b.categories
    ensures r.Some? ==> r.value.tiles.Keys == b.tiles.Keys
    ensures r.Some? ==> forall k :: k in b.tiles && k != id ==> r.value.tiles[k] == b.tiles[k]
    ensures r.Some? ==> r.value.tiles[id] == PatchTile(b.tiles[id], p)
    ensures r.Some? ==> r.value.updatedAt == now && r.value.id == b.id
    ensures r.Some? && Integrity(b) ==> Integrity(r.value)
  {
    if id !in b.tiles then None
    else Some(b.(tiles := b.tiles[id := PatchTile(b.tiles[id], p)], updatedAt := now))
  }

  /** Index of the last occurrence of `k`, or -1. */
  function LastIndexOf(ids: seq<Id>, k: Id): (r: int)
    ensures -1 <= r < |ids|
    ensures r == -1 <==> k !in ids
    ensures r >= 0 ==> ids[r] == k && forall j :: r < j < |ids| ==> ids[j] != k
  {
    if |ids| == 0 then -1
    else if ids[|ids| - 1] == k then |ids| - 1
    else LastIndexOf(ids[..|ids| - 1], k)
  }

  /** In a sequence without repetitions the last occurrence is the only one. */
  lemma LastIndexOfDistinct(ids: seq<Id>, i: int)
    requires Distinct(ids) && 0 <= i < |ids|
    ensures LastIndexOf(ids, ids[i]) == i
  {
  }

  /**
   * `ids.forEach((id, i) => { if (categories[id]) categories[id] = { ...c, order: i } })`:
   * every listed category takes the index of its last occurrence as its order.
   */
  function RenumberCategories(cats: map<Id, Category>, ids: seq<Id>): (r: map<Id, Category>)
    ensures r.Keys == cats.Keys
    ensures forall k :: k in cats && k !in ids ==> r[k] == cats[k]
    ensures forall k :: k in cats && k in ids ==> r[k] == cats[k].(order := LastIndexOf(ids, k))
    decreases |ids|
  {
    if |ids| == 0 then cats
    else
      var n := |ids| - 1;
      var m := RenumberCategories(cats, ids[..n]);
      assert forall k :: k in ids[..n] ==> k in ids;
      assert forall k :: k in ids && k != ids[n] ==> k in ids[..n];
      if ids[n] in m then m[ids[n] := m[ids[n]].(order := n)] else m
  }

  /**
   * `reorderCategories(from, to)`: move one id within `categoryIds` and
   * renumber the listed categories; ignored when `splice(from, 1)` removes nothing.
   */
  function ReorderCategories(b: Board, from: int, to: int, now: int): (r: Option<Board>)
    ensures r.None? <==> !Moves.CanMove(b.categoryIds, from)
    ensures r.Some? ==> r.value.categoryIds == Moves.Move(b.categoryIds, from, to)
  {
    if !Moves.CanMove(b.categoryIds, from) then None
    else
      var ids := Moves.Move(b.categoryIds, from, to);
      Some(b.(categoryIds := ids, categories := RenumberCategories(b.categories, ids), updatedAt := now))
  }

  /** Every element of a moved sequence is an element of the original. */
  lemma MovedFrom<T>(s: seq<T>, from: int, to: int, i: int)
    requires Moves.CanMove(s, from) && 0 <= i < |s|
    ensures Moves.Move(s, from, to)[i] in s
  {
    Moves.MoveSameElements(s, from, to);
    assert Moves.Move(s, from, to)[i] in Moves.Move(s, from, to);
  }

  /**
   * A category reorder permutes `categoryIds`, keeps the set of categories and
   * every field but `order`, leaves the tiles alone and keeps integrity.
   */
  lemma ReorderCategoriesEffect(b: Board, from: int, to: int, now: int)
    requires Moves.CanMove(b.categoryIds, from)
    ensures var r := ReorderCategories(b, from, to, now).value;
      && multiset(r.categoryIds) == multiset(b.categoryIds)
      && r.categories.Keys == b.categories.Keys && r.tiles == b.tiles
      && (forall k :: k in b.categories ==> r.categories[k].(order := 0) == b.categories[k].(order := 0))
      && r.updatedAt == now && r.id == b.id
      && (Integrity(b) ==> Integrity(r))
  {
    var r := ReorderCategories(b, from, to, now).value;
    var ids := Moves.Move(b.categoryIds, from, to);
    Moves.MovePermutes(b.categoryIds, from, to);
    if CategoriesResolve(b) {
      forall i | 0 <= i < |ids|
        ensures ids[i] in b.categories
      {
        MovedFrom(b.categoryIds, from, to, i);
      }
    }
  }

  /** With distinct ids, the category at index `i` after a reorder has order `i`. */
  lemma ReorderedOrderAt(b: Board, from: int, to: int, now: int, i: int)
    requires Distinct(b.categoryIds) && CategoriesResolve(b)
    requires Moves.CanMove(b.categoryIds, from) && 0 <= i < |b.categoryIds|
    ensures var r := ReorderCategories(b, from, to, now).value;
      r.categoryIds[i] in r.categories && r.categories[r.categoryIds[i]].order == i
  {
    var ids := Moves.Move(b.categoryIds, from, to);
    Moves.MoveKeepsDistinct(b.categoryIds, from, to);
    MovedFrom(b.categoryIds, from, to, i);
    ListedCategory(b, ids[i]);
    LastIndexOfDistinct(ids, i);
  }

  /** With distinct ids, the moved id lands at its target and each listed category's order is its new index. */
  lemma ReorderCategoriesOrders(b: Board, from: int, to: int, now: int)
    requires Distinct(b.categoryIds) && CategoriesResolve(b)
    requires Moves.CanMove(b.categoryIds, from)
    ensures var r := ReorderCategories(b, from, to, now).value;
      && Distinct(r.categoryIds)
      && r.categoryIds[Moves.Landing(|b.categoryIds|, to)] == b.categoryIds[Moves.SpliceStart(|b.categoryIds|, from)]
      && forall i :: 0 <= i < |r.categoryIds| ==> r.categoryIds[i] in r.categories && r.categories[r.categoryIds[i]].order == i
  {
    var r := ReorderCategories(b, from, to, now).value;
    Moves.MoveKeepsDistinct(b.categoryIds, from, to);
    Moves.MoveSpec(b.categoryIds, from, to);
    forall i | 0 <= i < |r.categoryIds|
      ensures r.categoryIds[i] in r.categories && r.categories[r.categoryIds[i]].order == i
    {
      ReorderedOrderAt(b, from, to, now, i);
    }
  }

  /** Renumbering along a list that holds the same ids as an earlier list overwrites every earlier renumbering. */
  lemma RenumberTwice(cats: map<Id, Category>, ids1: seq<Id>, ids2: seq<Id>)
    requires forall k :: k in ids1 <==> k in ids2
    ensures RenumberCategories(RenumberCategories(cats, ids1), ids2) == RenumberCategories(cats, ids2)
  {
  }

  /**
   * A drag of a category from `a` to `x` followed by a drag from `x` to `c`
   * leaves the same board as the single drag from `a` to `c`.
   */
  lemma ReorderCategoriesCompose(b: Board, a: int, x: int, c: int, now1: int, now2: int)
    requires Moves.CanMove(b.categoryIds, a) && 0 <= x < |b.categoryIds|
    ensures var r1 := ReorderCategories(b, a, x, now1).value;
      && ReorderCategories(r1, x, c, now2).Some?
      && ReorderCategories(r1, x, c, now2) == ReorderCategories(b, a, c, now2)
  {
    var ids1 := Moves.Move(b.categoryIds, a, x);
    Moves.MoveCompose(b.categoryIds, a, x, c);
    Moves.MoveSameElements(b.categoryIds, a, x);
    Moves.MoveSameElements(b.categoryIds, a, c);
    RenumberTwice(b.categories, ids1, Moves.Move(b.categoryIds, a, c));
  }

  /** `a.order - b.order` as a sort key. */
  function TileOrder(t: Tile): int {
    t.order
  }

  /**
   * The category's tiles as `reorderTilesInCategory` lists them: resolved in
   * `tileIds` order, then stably sorted by `order`.
   */
  function TilesInOrder(b: Board, cat: Category): (r: seq<Tile>)
    ensures multiset(r) == multiset(Resolve(cat.tileIds, b.tiles))
    ensures Sorting.SortedBy(r, TileOrder)
  {
    Sorting.SortBy(Resolve(cat.tileIds, b.tiles), TileOrder)
  }

  /**
   * `tilesInOrder.forEach((t, i) => { tiles[t.id] = { ...t, order: i } })`:
   * each listed tile, stored under its own `id`, takes the index of its last
   * occurrence as its order.
   */
  function WriteOrders(tiles: map<Id, Tile>, ts: seq<Tile>): (r: map<Id, Tile>)
    ensures r.Keys == tiles.Keys + set t | t in ts :: t.id
    decreases |ts|
  {
    if |ts| == 0 then tiles
    else
      var n := |ts| - 1;
      assert forall t :: t in ts <==> t in ts[..n] || t == ts[n];
      WriteOrders(tiles, ts[..n])[ts[n].id := ts[n].(order := n)]
  }

  /** The ids of a prefix are the prefix of the ids. */
  lemma IdsOfPrefix(ts: seq<Tile>, n: nat)
    requires n <= |ts|
    ensures IdsOf(ts[..n]) == IdsOf(ts)[..n]
  {
  }

  /**
   * What `WriteOrders` leaves in each entry: an unlisted id keeps its tile, a
   * listed id holds the last tile listed under it, renumbered to that index.
   */
  lemma {:induction false} WriteOrdersSpec(tiles: map<Id, Tile>, ts: seq<Tile>, k: Id)
    ensures k in tiles && k !in IdsOf(ts) ==> WriteOrders(tiles, ts)[k] == tiles[k]
    ensures k in IdsOf(ts) ==> k in WriteOrders(tiles, ts)
    ensures k in IdsOf(ts) ==>
      WriteOrders(tiles, ts)[k] == ts[LastIndexOf(IdsOf(ts), k)].(order := LastIndexOf(IdsOf(ts), k))
    decreases |ts|
  {
    if |ts| > 0 {
      var n := |ts| - 1;
      if k == ts[n].id {
        WriteOrdersLast(tiles, ts);
      } else {
        WriteOrdersEarlier(tiles, ts, k);
        WriteOrdersSpec(tiles, ts[..n], k);
      }
    }
  }

  /** The last tile listed is written last, under its own index. */
  lemma WriteOrdersLast(tiles: map<Id, Tile>, ts: seq<Tile>)
    requires |ts| > 0
    ensures ts[|ts| - 1].id in IdsOf(ts)
    ensures LastIndexOf(IdsOf(ts), ts[|ts| - 1].id) == |ts| - 1
    ensures ts[|ts| - 1].id in WriteOrders(tiles, ts)
    ensures WriteOrders(tiles, ts)[ts[|ts| - 1].id] == ts[|ts| - 1].(order := |ts| - 1)
  {
    var n := |ts| - 1;
    assert IdsOf(ts)[n] == ts[n].id;
  }

  /** Any other id sees only what the earlier tiles wrote. */
  lemma WriteOrdersEarlier(tiles: map<Id, Tile>, ts: seq<Tile>, k: Id)
    requires |ts| > 0 && k != ts[|ts| - 1].id
    ensures k in IdsOf(ts) <==> k in IdsOf(ts[..|ts| - 1])
    ensures LastIndexOf(IdsOf(ts), k) == LastIndexOf(IdsOf(ts[..|ts| - 1]), k)
    ensures k in WriteOrders(tiles, ts) <==> k in WriteOrders(tiles, ts[..|ts| - 1])
    ensures k in WriteOrders(tiles, ts) ==> WriteOrders(tiles, ts)[k] == WriteOrders(tiles, ts[..|ts| - 1])[k]
  {
    var n := |ts| - 1;
    var ids := IdsOf(ts);
    var pre := IdsOf(ts[..n]);
    IdsOfPrefix(ts, n);
    assert ids[n] != k;
    assert ids == pre + [ids[n]];
  }

  /**
   * `reorderTilesInCategory(cid, from, to)`: ignored when the category is
   * absent or `splice(from, 1)` removes nothing; otherwise the sorted tile
   * list is moved and every tile in it is renumbered. No `tileIds` sequence
   * and no category changes.
   */
  function ReorderTilesInCategory(b: Board, cid: Id, from: int, to: int, now: int): (r: Option<Board>)
    ensures r.None? <==> cid !in b.categories || !Moves.CanMove(TilesInOrder(b, b.categories[cid]), from)
    ensures r.Some? ==> r.value.categoryIds == b.categoryIds && r.value.categories == b.categories
    ensures r.Some? ==> r.value.updatedAt == now && r.value.id == b.id
    ensures r.Some? ==> b.tiles.Keys <= r.value.tiles.Keys
    ensures r.Some? && Integrity(b) ==> Integrity(r.value)
  {
    if cid !in b.categories then None
    else
      var sorted := TilesInOrder(b, b.categories[cid]);
      if !Moves.CanMove(sorted, from) then None
      else
        var moved := Moves.Move(sorted, from, to);
        Some(b.(tiles := WriteOrders(b.tiles, moved), updatedAt := now))
  }

  /** Under matching keys, each tile of the sorted list is the stored tile of an id the category lists. */
  lemma SortedTileStored(b: Board, cat: Category, t: Tile)
    requires KeysMatch(b) && t in TilesInOrder(b, cat)
    ensures t.id in b.tiles && b.tiles[t.id] == t && t.id in cat.tileIds
  {
    var resolved := Resolve(cat.tileIds, b.tiles);
    var ids := Resolving(cat.tileIds, b.tiles);
    ResolveIds(cat.tileIds, b.tiles);
    ResolveIsLookup(cat.tileIds, b.tiles);
    assert t in multiset(TilesInOrder(b, cat));
    assert t in multiset(resolved);
    var i :| 0 <= i < |resolved| && resolved[i] == t;
    assert IdsOf(resolved)[i] == t.id == ids[i];
    assert b.tiles[ids[i]] == t;
  }

  /** The effect of a tile reorder on the single entry `k`. */
  lemma ReorderTileEntry(b: Board, cid: Id, from: int, to: int, now: int, k: Id)
    requires KeysMatch(b) && k in b.tiles
    requires cid in b.categories && Moves.CanMove(TilesInOrder(b, b.categories[cid]), from)
    ensures var r := ReorderTilesInCategory(b, cid, from, to, now).value;
      && k in r.tiles && r.tiles[k].id == k
      && r.tiles[k].(order := 0) == b.tiles[k].(order := 0)
      && (k !in b.categories[cid].tileIds ==> r.tiles[k] == b.tiles[k])
  {
    var sorted := TilesInOrder(b, b.categories[cid]);
    var moved := Moves.Move(sorted, from, to);
    Moves.MoveSameElements(sorted, from, to);
    WriteOrdersSpec(b.tiles, moved, k);
    if k in IdsOf(moved) {
      var j := LastIndexOf(IdsOf(moved), k);
      assert moved[j] in moved;
      SortedTileStored(b, b.categories[cid], moved[j]);
    }
  }

  /**
   * With keys matching ids, a tile reorder keeps the key set, leaves every tile
   * the category does not list untouched, changes only the `order` of the
   * tiles it lists, and numbers them 0..k-1 along the moved sequence.
   */
  lemma ReorderTilesEffect(b: Board, cid: Id, from: int, to: int, now: int)
    requires KeysMatch(b)
    requires cid in b.categories && Moves.CanMove(TilesInOrder(b, b.categories[cid]), from)
    ensures var r := ReorderTilesInCategory(b, cid, from, to, now).value;
      && r.tiles.Keys == b.tiles.Keys
      && KeysMatch(r)
      && (forall k :: k in b.tiles && k !in b.categories[cid].tileIds ==> r.tiles[k] == b.tiles[k])
      && (forall k :: k in b.tiles ==> r.tiles[k].(order := 0) == b.tiles[k].(order := 0))
  {
    var r := ReorderTilesInCategory(b, cid, from, to, now).value;
    var sorted := TilesInOrder(b, b.categories[cid]);
    Moves.MoveSameElements(sorted, from, to);
    forall t | t in Moves.Move(sorted, from, to)
      ensures t.id in b.tiles
    {
      SortedTileStored(b, b.categories[cid], t);
    }
    forall k | k in b.tiles
      ensures k in r.tiles && r.tiles[k].id == k
      ensures r.tiles[k].(order := 0) == b.tiles[k].(order := 0)
      ensures k !in b.categories[cid].tileIds ==> r.tiles[k] == b.tiles[k]
    {
      ReorderTileEntry(b, cid, from, to, now, k);
    }
  }

  /** When the moved sequence repeats no id, each of its tiles is stored with its index as `order`. */
  lemma ReorderTilesOrders(b: Board, cid: Id, from: int, to: int, now: int)
    requires KeysMatch(b)
    requires cid in b.categories && Moves.CanMove(TilesInOrder(b, b.categories[cid]), from)
    requires Distinct(IdsOf(Moves.Move(TilesInOrder(b, b.categories[cid]), from, to)))
    ensures var r := ReorderTilesInCategory(b, cid, from, to, now).value;
      var moved := Moves.Move(TilesInOrder(b, b.categories[cid]), from, to);
      forall i :: 0 <= i < |moved| ==> moved[i].id in r.tiles && r.tiles[moved[i].id].order == i
  {
    var r := ReorderTilesInCategory(b, cid, from, to, now).value;
    var sorted := TilesInOrder(b, b.categories[cid]);
    var moved := Moves.Move(sorted, from, to);
    Moves.MoveSameElements(sorted, from, to);
    forall t | t in moved
      ensures t.id in b.tiles
    {
      SortedTileStored(b, b.categories[cid], t);
    }
    forall i | 0 <= i < |moved|
      ensures moved[i].id in r.tiles && r.tiles[moved[i].id].order == i
    {
      WriteOrdersSpec(b.tiles, moved, moved[i].id);
      LastIndexOfDistinct(IdsOf(moved), i);
    }
  }

  /**
   * `addCategory(name)`: a new empty category under the new id, ordered
   * after the existing ones, appended to `categoryIds`.
   */
  function AddCategory(b: Board, name: string, newId: Id, now: int): (r: Board)
    ensures r.categoryIds == b.categoryIds + [newId]
    ensures newId in r.categories && r.categories[newId] == Category(newId, name, [], |b.categoryIds|, None)
    ensures forall k :: k in b.categories && k != newId ==> k in r.categories && r.categories[k] == b.categories[k]
    ensures r.categories.Keys == b.categories.Keys + {newId}
    ensures r.tiles == b.tiles && r.updatedAt == now && r.id == b.id
    ensures Integrity(b) ==> Integrity(r)
    ensures newId !in b.categoryIds && Distinct(b.categoryIds) ==> Distinct(r.categoryIds)
  {
    var c := Category(newId, name, [], |b.categoryIds|, None);
    b.(categories := b.categories[newId := c], categoryIds := b.categoryIds + [newId], updatedAt := now)
  }

  /**
   * `deleteCategory(id)`: ignored when the id is not a key; otherwise the
   * category and every occurrence of its id go, while all tiles stay (a tile
   * only that category listed is left orphaned).
   */
  function DeleteCategory(b: Board, id: Id, now: int): (r: Option<Board>)
    ensures r.None? <==> id !in b.categories
    ensures r.Some? ==> r.value.categoryIds == RemoveAll(b.categoryIds, id)
    ensures r.Some? ==> r.value.categories.Keys == b.categories.Keys - {id}
    ensures r.Some? ==> forall k :: k in r.value.categories ==> r.value.categories[k] == b.categories[k]
    ensures r.Some? ==> r.value.tiles == b.tiles && r.value.updatedAt == now
    ensures r.Some? && Integrity(b) ==> Integrity(r.value)
  {
    if id !in b.categories then None
    else Some(b.(categoryIds := RemoveAll(b.categoryIds, id), categories := b.categories - {id}, updatedAt := now))
  }

  /**
   * `addTile(cid, label, speechText)`: ignored (no id returned) when the
   * category is absent; otherwise a new tile speaking `speechText ?? label`,
   * ordered after the category's current tiles, is added and its id appended
   * to that category only.
   */
  function AddTile(b: Board, cid: Id, labelText: string, speechText: Option<string>, newId: Id, now: int): (r: Option<Board>)
    ensures r.None? <==> cid !in b.categories
    ensures r.Some? ==> newId in r.value.tiles
    ensures r.Some? ==> r.value.tiles[newId] == Tile(newId, labelText, None, None,
      Some(speechText.GetOr(labelText)), None, false, false, None, |b.categories[cid].tileIds|)
    ensures r.Some? ==> forall k :: k in b.tiles && k != newId ==> k in r.value.tiles && r.value.tiles[k] == b.tiles[k]
    ensures r.Some? ==> r.value.tiles.Keys == b.tiles.Keys + {newId}
    ensures r.Some? ==> r.value.categories.Keys == b.categories.Keys
    ensures r.Some? ==> r.value.categories[cid].tileIds == b.categories[cid].tileIds + [newId]
    ensures r.Some? ==> r.value.categories[cid].(tileIds := []) == b.categories[cid].(tileIds := [])
    ensures r.Some? ==> forall k :: k in b.categories && k != cid ==> r.value.categories[k] == b.categories[k]
    ensures r.Some? ==> r.value.categoryIds == b.categoryIds && r.value.updatedAt == now
    ensures r.Some? && Integrity(b) ==> Integrity(r.value)
  {
    if cid !in b.categories then None
    else
      var cat := b.categories[cid];
      var t := Tile(newId, labelText, None, None, Some(speechText.GetOr(labelText)), None, false, false, None, |cat.tileIds|);
      Some(b.(tiles := b.tiles[newId := t],
              categories := b.categories[cid := cat.(tileIds := cat.tileIds + [newId])],
              updatedAt := now))
  }

  /** Every category's `tileIds` with every occurrence of `id` removed. */
  function StripTile(cats: map<Id, Category>, id: Id): (r: map<Id, Category>)
    ensures r.Keys == cats.Keys
    ensures forall k :: k in cats ==> r[k] == cats[k].(tileIds := RemoveAll(cats[k].tileIds, id))
  {
    map k | k in cats :: cats[k].(tileIds := RemoveAll(cats[k].tileIds, id))
  }

  /**
   * `deleteTile(id)`: ignored when the id is not a key; otherwise the tile goes
   * and its id is stripped from every category that lists it.
   */
  function DeleteTile(b: Board, id: Id, now: int): (r: Option<Board>)
    ensures r.None? <==> id !in b.tiles
    ensures r.Some? ==> r.value.tiles.Keys == b.tiles.Keys - {id}
    ensures r.Some? ==> forall k :: k in r.value.tiles ==> r.value.tiles[k] == b.tiles[k]
    ensures r.Some? ==> r.value.categories == StripTile(b.categories, id)
    ensures r.Some? ==> r.value.categories.Keys == b.categories.Keys
    ensures r.Some? ==> forall k :: k in r.value.categories ==> id !in r.value.categories[k].tileIds
    ensures r.Some? ==> r.value.categoryIds == b.categoryIds && r.value.updatedAt == now
    ensures r.Some? && Integrity(b) ==> Integrity(r.value)
  {
    if id !in b.tiles then None
    else Some(b.(tiles := b.tiles - {id}, categories := StripTile(b.categories, id), updatedAt := now))
  }
}
