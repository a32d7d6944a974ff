/**
 * The board data model (src/types/index.ts): a board owns a flat map of
 * categories and a flat map of tiles; categories refer to tiles by id, and
 * the board lists its top-level categories by id.
 */
module Types {
  import opened Common

  type Id = string

  /**
   * One tap-to-speak cell; `labelText` is the source's `label` (a Dafny
   * keyword). Optional string fields are `None` when the source holds `null`
   * or leaves the field out; `hidden` and `locked` are `false` when left out,
   * which is how every reader of them treats an absent flag.
   */
  datatype Tile = Tile(
    id: Id,
    labelText: string,
    icon: Option<string>,
    imageUrl: Option<string>,
    speechText: Option<string>,
    color: Option<string>,
    hidden: bool,
    locked: bool,
    linkBoardId: Option<Id>,
    order: int)

  /** A page of tiles. */
  datatype Category = Category(
    id: Id,
    name: string,
    tileIds: seq<Id>,
    order: int,
    icon: Option<string>)

  /** The unit of persistence and export. `updatedAt` is milliseconds since the epoch. */
  datatype Board = Board(
    id: Id,
    name: string,
    columns: int,
    rows: Option<int>,
    categoryIds: seq<Id>,
    categories: map<Id, Category>,
    tiles: map<Id, Tile>,
    updatedAt: int)

  /** The persisted cross-board UI state (`AppStateSnapshot`). */
  datatype Snapshot = Snapshot(
    currentBoardId: Option<Id>,
    currentCategoryId: Option<Id>,
    sentenceStripTileIds: seq<Id>)

  /** `{ currentBoardId: null, currentCategoryId: null, sentenceStripTileIds: [] }`. */
  const DefaultSnapshot := Snapshot(None, None, [])

  /** Every listed category id has a category. */
  ghost predicate CategoriesResolve(b: Board) {
    forall i :: 0 <= i < |b.categoryIds| ==> b.categoryIds[i] in b.categories
  }

  /** Every tile id listed by any category has a tile. */
  ghost predicate TilesResolve(b: Board) {
    forall cid, j :: cid in b.categories && 0 <= j < |b.categories[cid].tileIds| ==>
      b.categories[cid].tileIds[j] in b.tiles
  }

  /** Referential integrity: no dangling category or tile reference. */
  ghost predicate Integrity(b: Board) {
    CategoriesResolve(b) && TilesResolve(b)
  }

  /** A listed category id has a category. */
  lemma ListedCategory(b: Board, x: Id)
    requires CategoriesResolve(b) && x in b.categoryIds
    ensures x in b.categories
  {
    var j :| 0 <= j < |b.categoryIds| && b.categoryIds[j] == x;
  }

  /** Every map entry is stored under its own id. */
  ghost predicate KeysMatch(b: Board) {
    && (forall k :: k in b.tiles ==> b.tiles[k].id == k)
    && (forall k :: k in b.categories ==> b.categories[k].id == k)
  }

  /** `b.categoryIds[0] ?? null`. */
  function FirstCategory(b: Board): (r: Option<Id>)
    ensures r.Some? <==> |b.categoryIds| > 0
    ensures r.Some? ==> r.value in b.categoryIds
  {
    if |b.categoryIds| > 0 then Some(b.categoryIds[0]) else None
  }

  /**
   * `ids.map(id => tiles[id]).filter(t => t != null)`: the tiles the ids
   * resolve to, in id order; ids without a tile are skipped.
   */
  function Resolve(ids: seq<Id>, tiles: map<Id, Tile>): (r: seq<Tile>)
    ensures |r| <= |ids|
    ensures forall t :: t in r ==> t in tiles.Values
  {
    if |ids| == 0 then []
    else if ids[0] in tiles then [tiles[ids[0]]] + Resolve(ids[1..], tiles)
    else Resolve(ids[1..], tiles)
  }

  /** The ids that resolve, in order. */
  function Resolving(ids: seq<Id>, tiles: map<Id, Tile>): (r: seq<Id>)
    ensures forall i :: 0 <= i < |r| ==> r[i] in tiles && r[i] in ids
  {
    if |ids| == 0 then []
    else if ids[0] in tiles then [ids[0]] + Resolving(ids[1..], tiles)
    else Resolving(ids[1..], tiles)
  }

  /** Resolving is looking up the ids that resolve. */
  lemma {:induction false} ResolveIsLookup(ids: seq<Id>, tiles: map<Id, Tile>)
    ensures |Resolve(ids, tiles)| == |Resolving(ids, tiles)|
    ensures forall i :: 0 <= i < |Resolving(ids, tiles)| ==>
      Resolve(ids, tiles)[i] == tiles[Resolving(ids, tiles)[i]]
  {
    if |ids| > 0 {
      ResolveIsLookup(ids[1..], tiles);
    }
  }

  /** When every id resolves, nothing is skipped. */
  lemma {:induction false} ResolveAll(ids: seq<Id>, tiles: map<Id, Tile>)
    requires forall i :: 0 <= i < |ids| ==> ids[i] in tiles
    ensures Resolving(ids, tiles) == ids
  {
    if |ids| > 0 {
      ResolveAll(ids[1..], tiles);
    }
  }

  /** The ids of a sequence of tiles. */
  function IdsOf(ts: seq<Tile>): (r: seq<Id>)
    ensures |r| == |ts|
    ensures forall i :: 0 <= i < |ts| ==> r[i] == ts[i].id
  {
    if |ts| == 0 then [] else [ts[0].id] + IdsOf(ts[1..])
  }

  /** Under matching keys, resolved tiles carry the ids they were resolved from. */
  lemma {:induction false} ResolveIds(ids: seq<Id>, tiles: map<Id, Tile>)
    requires forall k :: k in tiles ==> tiles[k].id == k
    ensures IdsOf(Resolve(ids, tiles)) == Resolving(ids, tiles)
  {
    if |ids| > 0 {
      ResolveIds(ids[1..], tiles);
    }
  }
}
