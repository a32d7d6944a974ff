/**
 * The demo board built on first run (src/data/seedBoards.ts): five
 * categories of ten tiles each, every tile with an icon. The fresh ids the
 * source draws from `newId()` are a parameter, consumed in the source's order:
 * fifty for the tiles, five for the categories, one for the board.
 */
module Seed {
  import opened Common
  import opened Types
  import Sorting
  import Mutations

  /** The five category keys of the seed table. */
  datatype SeedCategory = Needs | Feelings | Food | Play | People

  /** The category's display name. */
  function CategoryName(c: SeedCategory): string {
    match c
    case Needs => "Nevoi"
    case Feelings => "Sentimente"
    case Food => "M\U{E2}ncare"
    case Play => "Joc"
    case People => "Oameni"
  }

  /** The category's icon. */
  function CategoryIcon(c: SeedCategory): string {
    match c
    case Needs => "\U{1F4A7}"
    case Feelings => "\U{1F4AD}"
    case Food => "\U{1F34E}"
    case Play => "\U{1F388}"
    case People => "\U{1F468}\U{200D}\U{1F469}\U{200D}\U{1F467}"
  }

  /** The categories in the order the board lists them. */
  const CategoryKeys: seq<SeedCategory> := [Needs, Feelings, Food, Play, People]

  const BoardName := "Tabloul meu"
  const TileCount := 50
  const CategoryCount := 5
  /** Ids drawn per seed: one per tile, one per category, one for the board. */
  const IdCount := TileCount + CategoryCount + 1

  /** One row of the seed table; `order` is the tile's position in its category. */
  datatype SeedTile = SeedTile(cat: SeedCategory, labelText: string, speech: string, icon: string, order: int)

  /** The fifty rows, in the order the source lists them, written as the five runs of ten it groups them in. */
  const SeedTiles: seq<SeedTile> := NeedsRows + FeelingsRows + FoodRows + PlayRows + PeopleRows

  const NeedsRows: seq<SeedTile> := [
      SeedTile(Needs, "Ap\U{103}", "Ap\U{103}", "\U{1F4A7}", 0),
      SeedTile(Needs, "M\U{E2}ncare", "M\U{E2}ncare", "\U{1F37D}\U{FE0F}", 1),
      SeedTile(Needs, "Toalet\U{103}", "Toalet\U{103}", "\U{1F6BD}", 2),
      SeedTile(Needs, "Ajutor", "Ajutor", "\U{1F198}", 3),
      SeedTile(Needs, "Pauz\U{103}", "Am nevoie de pauz\U{103}", "\U{23F8}\U{FE0F}", 4),
      SeedTile(Needs, "Somnic", "Vreau s\U{103} dorm", "\U{1F634}", 5),
      SeedTile(Needs, "\U{CE}mi e cald", "\U{CE}mi e cald", "\U{1F321}\U{FE0F}", 6),
      SeedTile(Needs, "\U{CE}mi e frig", "\U{CE}mi e frig", "\U{1F9CA}", 7),
      SeedTile(Needs, "Durere", "M\U{103} doare", "\U{1FA79}", 8),
      SeedTile(Needs, "Medic", "Vreau la doctor", "\U{1F468}\U{200D}\U{2695}\U{FE0F}", 9)
    ]

  const FeelingsRows: seq<SeedTile> := [
      SeedTile(Feelings, "Fericit", "M\U{103} simt bine", "\U{1F60A}", 0),
      SeedTile(Feelings, "Trist", "M\U{103} simt trist", "\U{1F622}", 1),
      SeedTile(Feelings, "Sup\U{103}rat", "Sunt sup\U{103}rat", "\U{1F620}", 2),
      SeedTile(Feelings, "Fric\U{103}", "Mi-e fric\U{103}", "\U{1F628}", 3),
      SeedTile(Feelings, "Obosit", "Sunt obosit", "\U{1F613}", 4),
      SeedTile(Feelings, "Prea zgomot", "E prea zgomot", "\U{1F507}", 5),
      SeedTile(Feelings, "\U{CE}ngrijorat", "Sunt \U{EE}ngrijorat", "\U{1F61F}", 6),
      SeedTile(Feelings, "Nervos", "Sunt nervos", "\U{1F624}", 7),
      SeedTile(Feelings, "Lini\U{219}tit", "M\U{103} simt lini\U{219}tit", "\U{1F60C}", 8),
      SeedTile(Feelings, "Entuziasmat", "Sunt entuziasmat", "\U{1F929}", 9)
    ]

  const FoodRows: seq<SeedTile> := [
      SeedTile(Food, "M\U{103}r", "M\U{103}r", "\U{1F34E}", 0),
      SeedTile(Food, "P\U{E2}ine", "P\U{E2}ine", "\U{1F35E}", 1),
      SeedTile(Food, "Lapte", "Lapte", "\U{1F95B}", 2),
      SeedTile(Food, "Suc", "Suc", "\U{1F9C3}", 3),
      SeedTile(Food, "Branz\U{103}", "Branz\U{103}", "\U{1F9C0}", 4),
      SeedTile(Food, "Ou", "Ou", "\U{1F95A}", 5),
      SeedTile(Food, "Cereale", "Cereale", "\U{1F963}", 6),
      SeedTile(Food, "Biscui\U{21B}i", "Biscui\U{21B}i", "\U{1F36A}", 7),
      SeedTile(Food, "Banane", "Banane", "\U{1F34C}", 8),
      SeedTile(Food, "Pizza", "Pizza", "\U{1F355}", 9)
    ]

  const PlayRows: seq<SeedTile> := [
      SeedTile(Play, "Joc", "Vreau s\U{103} m\U{103} joc", "\U{1F3AE}", 0),
      SeedTile(Play, "Afar\U{103}", "Afar\U{103}", "\U{1F333}", 1),
      SeedTile(Play, "Carte", "Carte", "\U{1F4D6}", 2),
      SeedTile(Play, "Muzic\U{103}", "Muzic\U{103}", "\U{1F3B5}", 3),
      SeedTile(Play, "Desen", "Vreau s\U{103} desenez", "\U{1F58D}\U{FE0F}", 4),
      SeedTile(Play, "Puzzle", "Puzzle", "\U{1F9E9}", 5),
      SeedTile(Play, "Minge", "Minge", "\U{26BD}", 6),
      SeedTile(Play, "Film", "Vreau un film", "\U{1F3AC}", 7),
      SeedTile(Play, "\U{CE}not", "Vreau la \U{EE}not", "\U{1F3CA}", 8),
      SeedTile(Play, "Parc", "La parc", "\U{1F6DD}", 9)
    ]

  const PeopleRows: seq<SeedTile> := [
      SeedTile(People, "Mami", "Mami", "\U{1F469}", 0),
      SeedTile(People, "Tati", "Tati", "\U{1F468}", 1),
      SeedTile(People, "Da", "Da", "\U{2705}", 2),
      SeedTile(People, "Nu", "Nu", "\U{274C}", 3),
      SeedTile(People, "Mai vreau", "Mai vreau", "\U{2795}", 4),
      SeedTile(People, "Gata", "Gata", "\U{1F6D1}", 5),
      SeedTile(People, "Te iubesc", "Te iubesc", "\U{2764}\U{FE0F}", 6),
      SeedTile(People, "Mul\U{21B}umesc", "Mul\U{21B}umesc", "\U{1F64F}", 7),
      SeedTile(People, "Bun\U{103} ziua", "Bun\U{103} ziua", "\U{1F44B}", 8),
      SeedTile(People, "La revedere", "La revedere", "\U{1F44B}", 9)
    ]

  /** The tile built from row `t`: label, speech, icon and order, not hidden, not locked. */
  function MakeTile(id: Id, t: SeedTile): (r: Tile)
    ensures r.id == id && r.order == t.order && !r.hidden && !r.locked
  {
    Tile(id, t.labelText, Some(t.icon), None, Some(t.speech), None, false, false, None, t.order)
  }

  /** The tile map after the first `n` rows: row `i` stored under `ids[i]`, a later row winning a repeated id. */
  function TilesUpTo(ids: seq<Id>, n: nat): (r: map<Id, Tile>)
    requires n <= TileCount <= |ids|
    ensures r.Keys == set i | 0 <= i < n :: ids[i]
  {
    if n == 0 then map[] else TilesUpTo(ids, n - 1)[ids[n - 1] := MakeTile(ids[n - 1], SeedTiles[n - 1])]
  }

  /** The ids pushed to category `c`'s list by rows `i` onwards of `rows`, in row order. */
  function IdsOver(rows: seq<SeedTile>, c: SeedCategory, ids: seq<Id>, i: nat): (r: seq<Id>)
    requires i <= |rows| <= |ids|
    ensures |r| <= |rows| - i
    decreases |rows| - i
  {
    if i == |rows| then []
    else (if rows[i].cat == c then [ids[i]] else []) + IdsOver(rows, c, ids, i + 1)
  }

  /** The ids the seed table's rows `i` onwards push to category `c`. */
  function IdsFor(c: SeedCategory, ids: seq<Id>, i: nat): seq<Id>
    requires i <= TileCount <= |ids|
  {
    IdsOver(SeedTiles, c, ids, i)
  }

  /** The category map after the first `k` categories: the `k`-th drawn id names category `k`. */
  function CategoriesUpTo(ids: seq<Id>, k: nat): (r: map<Id, Category>)
    requires k <= CategoryCount && |ids| == IdCount
    ensures r.Keys == set j | TileCount <= j < TileCount + k :: ids[j]
  {
    if k == 0 then map[]
    else
      var key := CategoryKeys[k - 1];
      var cid := ids[TileCount + k - 1];
      CategoriesUpTo(ids, k - 1)[cid := Category(cid, CategoryName(key), IdsFor(key, ids, 0), k - 1, Some(CategoryIcon(key)))]
  }

  /** `buildSeedBoard`, with the drawn ids and the clock as parameters. */
  function BuildSeed(ids: seq<Id>, now: int): (r: Board)
    requires |ids| == IdCount
    ensures r.name == BoardName && r.columns == 4 && r.rows == Some(5) && r.updatedAt == now
    ensures r.id == ids[IdCount - 1] && r.categoryIds == ids[TileCount..TileCount + CategoryCount]
  {
    Board(ids[IdCount - 1], BoardName, 4, Some(5), ids[TileCount..TileCount + CategoryCount],
          CategoriesUpTo(ids, CategoryCount), TilesUpTo(ids, TileCount), now)
  }

  // ------------------------------------------------------------ the table

  /** Row `j` of a block of category `c` is its `j`-th tile, with non-empty texts. */
  predicate RowFits(rows: seq<SeedTile>, c: SeedCategory, j: nat)
    requires j < |rows|
  {
    rows[j].cat == c && rows[j].order == j && rows[j].labelText != "" && rows[j].speech != "" && rows[j].icon != ""
  }

  /** The run of rows for category `c`. */
  function BlockRows(c: SeedCategory): (r: seq<SeedTile>)
    ensures |r| == 10
  {
    match c
    case Needs => NeedsRows
    case Feelings => FeelingsRows
    case Food => FoodRows
    case Play => PlayRows
    case People => PeopleRows
  }

  /** Every row of every block fits. */
  lemma BlockFits(c: SeedCategory, j: nat)
    requires j < 10
    ensures RowFits(BlockRows(c), c, j)
  {
    var rows := BlockRows(c);
    if j == 0 { assert RowFits(rows, c, 0); }
    else if j == 1 { assert RowFits(rows, c, 1); }
    else if j == 2 { assert RowFits(rows, c, 2); }
    else if j == 3 { assert RowFits(rows, c, 3); }
    else if j == 4 { assert RowFits(rows, c, 4); }
    else if j == 5 { assert RowFits(rows, c, 5); }
    else if j == 6 { assert RowFits(rows, c, 6); }
    else if j == 7 { assert RowFits(rows, c, 7); }
    else if j == 8 { assert RowFits(rows, c, 8); }
    else { assert RowFits(rows, c, 9); }
  }

  /** Indexing five concatenated runs of ten. */
  lemma ConcatRuns<T>(a: seq<T>, b: seq<T>, c: seq<T>, d: seq<T>, e: seq<T>, i: nat)
    requires |a| == 10 && |b| == 10 && |c| == 10 && |d| == 10 && |e| == 10 && i < 50
    ensures (a + b + c + d + e)[i] ==
      if i < 10 then a[i] else if i < 20 then b[i - 10] else if i < 30 then c[i - 20] else if i < 40 then d[i - 30] else e[i - 40]
  {
  }

  /** Row `i` of the table is row `i % 10` of the block of the `i / 10`-th category. */
  lemma TableIsBlocks(i: nat)
    requires i < TileCount
    ensures SeedTiles[i] == BlockRows(CategoryKeys[i / 10])[i % 10]
  {
    var k := i / 10;
    assert i % 10 == i - 10 * k;
    ConcatRuns(NeedsRows, FeelingsRows, FoodRows, PlayRows, PeopleRows, i);
    if k == 0 {
      assert i < 10;
    } else if k == 1 {
      assert 10 <= i < 20;
    } else if k == 2 {
      assert 20 <= i < 30;
    } else if k == 3 {
      assert 30 <= i < 40;
    } else {
      assert 40 <= i;
    }
  }

  /** The table is five runs of ten, one per category in list order, numbered 0..9 within each run. */
  lemma TableInPlace(i: nat)
    requires i < TileCount
    ensures SeedTiles[i].cat == CategoryKeys[i / 10] && SeedTiles[i].order == i % 10
    ensures SeedTiles[i].labelText != "" && SeedTiles[i].speech != "" && SeedTiles[i].icon != ""
  {
    TableIsBlocks(i);
    BlockFits(CategoryKeys[i / 10], i % 10);
  }

  // ------------------------------------------------------------ the board

  /** With distinct ids, row `i`'s tile sits under `ids[i]`. */
  lemma {:induction false} TileAt(ids: seq<Id>, n: nat, i: nat)
    requires n <= TileCount <= |ids| && Distinct(ids) && i < n
    ensures ids[i] in TilesUpTo(ids, n) && TilesUpTo(ids, n)[ids[i]] == MakeTile(ids[i], SeedTiles[i])
  {
    if i < n - 1 {
      TileAt(ids, n - 1, i);
      assert ids[i] != ids[n - 1];
    }
  }

  /** Distinct positions of the category list hold distinct keys. */
  lemma KeysInjective(a: nat, b: nat)
    requires a < CategoryCount && b < CategoryCount
    ensures CategoryKeys[a] == CategoryKeys[b] <==> a == b
  {
  }

  /** Row `i` belongs to category `k` exactly when it lies in the run `10k..10k+9`. */
  lemma RowOfCategory(k: nat, i: nat)
    requires k < CategoryCount && i < TileCount
    ensures SeedTiles[i].cat == CategoryKeys[k] <==> 10 * k <= i < 10 * k + 10
  {
    TableInPlace(i);
    var q := i / 10;
    assert 10 * q <= i < 10 * q + 10;
    KeysInjective(q, k);
    if q < k {
      assert 10 * q + 10 <= 10 * k;
    } else if k < q {
      assert 10 * k + 10 <= 10 * q;
    }
  }

  /** The ids of the run `lo..hi` from row `i` on. */
  function RunFrom(ids: seq<Id>, lo: nat, hi: nat, i: nat): (r: seq<Id>)
    requires lo <= hi <= |ids|
    ensures i >= hi ==> r == []
    ensures i < hi ==> r == ids[(if i < lo then lo else i)..hi]
  {
    if i >= hi then [] else ids[(if i < lo then lo else i)..hi]
  }

  /** Prepending row `i`'s contribution to the run from `i + 1` gives the run from `i`. */
  lemma RunStep(ids: seq<Id>, lo: nat, hi: nat, i: nat)
    requires lo <= hi <= |ids| && i < |ids|
    ensures RunFrom(ids, lo, hi, i) == (if lo <= i < hi then [ids[i]] else []) + RunFrom(ids, lo, hi, i + 1)
  {
    if lo <= i < hi {
      assert ids[i..hi] == [ids[i]] + ids[i + 1..hi];
    }
  }

  /** A category whose rows form the run `lo..hi` collects exactly the ids of that run, in order. */
  lemma {:induction false} IdsOverRun(rows: seq<SeedTile>, c: SeedCategory, ids: seq<Id>, lo: nat, hi: nat, i: nat)
    requires lo <= hi <= |rows| <= |ids| && i <= |rows|
    requires forall j :: i <= j < |rows| ==> (rows[j].cat == c <==> lo <= j < hi)
    ensures IdsOver(rows, c, ids, i) == RunFrom(ids, lo, hi, i)
    decreases |rows| - i
  {
    if i < |rows| {
      IdsOverRun(rows, c, ids, lo, hi, i + 1);
      RunStep(ids, lo, hi, i);
    }
  }

  /** The tile ids of category `k`. */
  lemma IdsForBlock(k: nat, ids: seq<Id>)
    requires k < CategoryCount && TileCount <= |ids|
    ensures IdsFor(CategoryKeys[k], ids, 0) == ids[10 * k..10 * k + 10]
  {
    forall j | 0 <= j < TileCount
      ensures SeedTiles[j].cat == CategoryKeys[k] <==> 10 * k <= j < 10 * k + 10
    {
      RowOfCategory(k, j);
    }
    IdsOverRun(SeedTiles, CategoryKeys[k], ids, 10 * k, 10 * k + 10, 0);
  }

  /** With distinct ids, category `j` sits under the `j`-th category id. */
  lemma {:induction false} CategoryAt(ids: seq<Id>, k: nat, j: nat)
    requires k <= CategoryCount && |ids| == IdCount && Distinct(ids) && j < k
    ensures var cid := ids[TileCount + j];
      var key := CategoryKeys[j];
      && cid in CategoriesUpTo(ids, k)
      && CategoriesUpTo(ids, k)[cid] == Category(cid, CategoryName(key), IdsFor(key, ids, 0), j, Some(CategoryIcon(key)))
  {
    if j < k - 1 {
      CategoryAt(ids, k - 1, j);
      assert ids[TileCount + j] != ids[TileCount + k - 1];
    }
  }

  /**
   * The seeded board's tiles: one per row, stored under its own id, carrying
   * the row's label, speech and icon (all non-empty) and its position in its
   * category, neither hidden nor locked.
   */
  lemma SeededTile(ids: seq<Id>, now: int, i: nat)
    requires |ids| == IdCount && Distinct(ids) && i < TileCount
    ensures var b := BuildSeed(ids, now);
      && ids[i] in b.tiles
      && b.tiles[ids[i]].id == ids[i]
      && b.tiles[ids[i]].order == i % 10
      && b.tiles[ids[i]].labelText == SeedTiles[i].labelText != ""
      && b.tiles[ids[i]].speechText == Some(SeedTiles[i].speech) && SeedTiles[i].speech != ""
      && b.tiles[ids[i]].icon.Some? && b.tiles[ids[i]].icon.value != ""
      && !b.tiles[ids[i]].hidden && !b.tiles[ids[i]].locked
  {
    TileAt(ids, TileCount, i);
    TableInPlace(i);
  }

  /**
   * The seeded board's categories: the five names in list order, category
   * `k` numbered `k`, with an icon, listing the ten tiles of its run.
   */
  lemma SeededCategory(ids: seq<Id>, now: int, k: nat)
    requires |ids| == IdCount && Distinct(ids) && k < CategoryCount
    ensures var b := BuildSeed(ids, now);
      && b.categoryIds[k] in b.categories
      && b.categories[b.categoryIds[k]].id == b.categoryIds[k]
      && b.categories[b.categoryIds[k]].name == CategoryName(CategoryKeys[k])
      && b.categories[b.categoryIds[k]].order == k
      && b.categories[b.categoryIds[k]].icon == Some(CategoryIcon(CategoryKeys[k]))
      && b.categories[b.categoryIds[k]].tileIds == ids[10 * k..10 * k + 10]
  {
    var b := BuildSeed(ids, now);
    var cid := ids[TileCount + k];
    assert b.categoryIds[k] == cid;
    CategoryAt(ids, CategoryCount, k);
    assert b.categories[cid].tileIds == IdsFor(CategoryKeys[k], ids, 0);
    IdsForBlock(k, ids);
  }

  /** The first category a fresh start shows is "Nevoi". */
  lemma SeedFirstCategory(ids: seq<Id>, now: int)
    requires |ids| == IdCount && Distinct(ids)
    ensures var b := BuildSeed(ids, now);
      && FirstCategory(b) == Some(ids[TileCount])
      && b.categories[ids[TileCount]].name == "Nevoi"
  {
    SeededCategory(ids, now, 0);
  }

  /** The seeded board has referential integrity and stores every entry under its own id. */
  lemma SeedIntegrity(ids: seq<Id>, now: int)
    requires |ids| == IdCount && Distinct(ids)
    ensures Integrity(BuildSeed(ids, now)) && KeysMatch(BuildSeed(ids, now))
    ensures |BuildSeed(ids, now).categoryIds| == CategoryCount && Distinct(BuildSeed(ids, now).categoryIds)
  {
    SeedKeysMatch(ids, now);
    SeedCategoriesResolve(ids, now);
    SeedTilesResolve(ids, now);
  }

  lemma SeedKeysMatch(ids: seq<Id>, now: int)
    requires |ids| == IdCount && Distinct(ids)
    ensures KeysMatch(BuildSeed(ids, now))
  {
    var b := BuildSeed(ids, now);
    forall k | k in b.tiles
      ensures b.tiles[k].id == k
    {
      var i :| 0 <= i < TileCount && ids[i] == k;
      TileAt(ids, TileCount, i);
    }
    forall k | k in b.categories
      ensures b.categories[k].id == k
    {
      var j :| TileCount <= j < TileCount + CategoryCount && ids[j] == k;
      CategoryAt(ids, CategoryCount, j - TileCount);
    }
  }

  lemma SeedCategoriesResolve(ids: seq<Id>, now: int)
    requires |ids| == IdCount && Distinct(ids)
    ensures CategoriesResolve(BuildSeed(ids, now))
  {
    var b := BuildSeed(ids, now);
    forall i | 0 <= i < |b.categoryIds|
      ensures b.categoryIds[i] in b.categories
    {
      SeededCategory(ids, now, i);
    }
  }

  lemma SeedTilesResolve(ids: seq<Id>, now: int)
    requires |ids| == IdCount && Distinct(ids)
    ensures TilesResolve(BuildSeed(ids, now))
  {
    var b := BuildSeed(ids, now);
    forall cid, j | cid in b.categories && 0 <= j < |b.categories[cid].tileIds|
      ensures b.categories[cid].tileIds[j] in b.tiles
    {
      var m :| TileCount <= m < TileCount + CategoryCount && ids[m] == cid;
      SeedTileListed(ids, now, m - TileCount, j);
    }
  }

  /** The `j`-th tile id of category `k` names a seeded tile. */
  lemma SeedTileListed(ids: seq<Id>, now: int, k: nat, j: nat)
    requires |ids| == IdCount && Distinct(ids) && k < CategoryCount
    requires j < |BuildSeed(ids, now).categories[ids[TileCount + k]].tileIds|
    ensures BuildSeed(ids, now).categories[ids[TileCount + k]].tileIds[j] in BuildSeed(ids, now).tiles
  {
    SeededCategory(ids, now, k);
    SeededTile(ids, now, 10 * k + j);
  }

  /** Row `10k + i` is at position `i` of run `k`. */
  lemma RunPosition(k: nat, i: nat)
    requires i < 10
    ensures (10 * k + i) % 10 == i && (10 * k + i) / 10 == k
  {
  }

  /** A category whose tiles are numbered 0..k-1 in list order is already in display order. */
  lemma NumberedInOrder(b: Board, cat: Category)
    requires forall i :: 0 <= i < |cat.tileIds| ==> cat.tileIds[i] in b.tiles && b.tiles[cat.tileIds[i]].order == i
    ensures Mutations.TilesInOrder(b, cat) == Resolve(cat.tileIds, b.tiles)
  {
    var resolved := Resolve(cat.tileIds, b.tiles);
    ResolveAll(cat.tileIds, b.tiles);
    ResolveIsLookup(cat.tileIds, b.tiles);
    assert forall i :: 0 <= i < |resolved| ==> resolved[i].order == i;
    assert Sorting.SortedBy(resolved, Mutations.TileOrder);
    Sorting.SortSortedIsIdentity(resolved, Mutations.TileOrder);
  }

  /**
   * Each seeded category is already in display order: sorting its tiles by
   * `order` leaves them in the order the category lists them.
   */
  lemma SeedInDisplayOrder(ids: seq<Id>, now: int, k: nat)
    requires |ids| == IdCount && Distinct(ids) && k < CategoryCount
    ensures var b := BuildSeed(ids, now);
      Mutations.TilesInOrder(b, b.categories[b.categoryIds[k]]) == Resolve(b.categories[b.categoryIds[k]].tileIds, b.tiles)
  {
    var b := BuildSeed(ids, now);
    SeededCategory(ids, now, k);
    var cat := b.categories[b.categoryIds[k]];
    forall i | 0 <= i < |cat.tileIds|
      ensures cat.tileIds[i] in b.tiles && b.tiles[cat.tileIds[i]].order == i
    {
      assert cat.tileIds[i] == ids[10 * k + i];
      SeededTile(ids, now, 10 * k + i);
      RunPosition(k, i);
    }
    NumberedInOrder(b, cat);
  }
}
