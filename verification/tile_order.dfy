/**
 * The numbering `reorderTilesInCategory` (src/store/useBoardStore.ts:228-247)
 * gives a category's tiles: when the category lists no id twice, every tile it
 * resolves receives a distinct position 0..k-1.
 */
module TileOrder {
  import opened Common
  import opened Types
  import Moves
  import Sorting
  import opened Mutations

  /** The ids that resolve form a subsequence, so they repeat nothing when the ids do not. */
  lemma {:induction false} ResolvingDistinct(ids: seq<Id>, tiles: map<Id, Tile>)
    requires Distinct(ids)
    ensures Distinct(Resolving(ids, tiles))
    ensures forall x :: x in Resolving(ids, tiles) ==> x in ids
  {
    if |ids| > 0 {
      ResolvingDistinct(ids[1..], tiles);
      assert ids[0] !in ids[1..];
    }
  }

  /** Stored tiles that are pairwise distinct have pairwise distinct ids. */
  lemma StoredIdsDistinct(b: Board, ts: seq<Tile>)
    requires Distinct(ts)
    requires forall t :: t in ts ==> t.id in b.tiles && b.tiles[t.id] == t
    ensures Distinct(IdsOf(ts))
  {
    forall i, j | 0 <= i < j < |ts|
      ensures IdsOf(ts)[i] != IdsOf(ts)[j]
    {
      assert ts[i] in ts && ts[j] in ts;
    }
  }

  /**
   * Under matching keys, the sorted list of a category that repeats no id
   * repeats no tile.
   */
  lemma SortedDistinct(b: Board, cat: Category)
    requires KeysMatch(b) && Distinct(cat.tileIds)
    ensures Distinct(TilesInOrder(b, cat))
  {
    var resolved := Resolve(cat.tileIds, b.tiles);
    ResolveIds(cat.tileIds, b.tiles);
    ResolvingDistinct(cat.tileIds, b.tiles);
    forall i, j | 0 <= i < j < |resolved|
      ensures resolved[i] != resolved[j]
    {
      assert IdsOf(resolved)[i] != IdsOf(resolved)[j];
    }
    DistinctPermutation(resolved, TilesInOrder(b, cat));
  }

  /** The moved sequence of a category that repeats no id has pairwise distinct ids. */
  lemma MovedIdsDistinct(b: Board, cat: Category, from: int, to: int)
    requires KeysMatch(b) && Distinct(cat.tileIds)
    requires Moves.CanMove(TilesInOrder(b, cat), from)
    ensures Distinct(IdsOf(Moves.Move(TilesInOrder(b, cat), from, to)))
  {
    var sorted := TilesInOrder(b, cat);
    var moved := Moves.Move(sorted, from, to);
    SortedDistinct(b, cat);
    Moves.MovePermutes(sorted, from, to);
    DistinctPermutation(sorted, moved);
    Moves.MoveSameElements(sorted, from, to);
    forall t | t in moved
      ensures t.id in b.tiles && b.tiles[t.id] == t
    {
      SortedTileStored(b, cat, t);
    }
    StoredIdsDistinct(b, moved);
  }

  /**
   * When the category lists no id twice, the reorder numbers the tiles along
   * the moved sequence 0..k-1 and no tile outside the category changes.
   */
  lemma ReorderTilesNumbering(b: Board, cid: Id, from: int, to: int, now: int)
    requires KeysMatch(b) && cid in b.categories && Distinct(b.categories[cid].tileIds)
    requires Moves.CanMove(TilesInOrder(b, b.categories[cid]), from)
    ensures var moved := Moves.Move(TilesInOrder(b, b.categories[cid]), from, to);
      var r := ReorderTilesInCategory(b, cid, from, to, now).value;
      && (forall i :: 0 <= i < |moved| ==> moved[i].id in r.tiles && r.tiles[moved[i].id].order == i)
      && (forall k :: k in b.tiles && k !in b.categories[cid].tileIds ==> r.tiles[k] == b.tiles[k])
  {
    MovedIdsDistinct(b, b.categories[cid], from, to);
    ReorderTilesEffect(b, cid, from, to, now);
    ReorderTilesOrders(b, cid, from, to, now);
  }
}
