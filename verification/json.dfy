/**
 * JSON values (RFC 8259) as an abstract datatype, with the JavaScript
 * readings the storage code applies to them (truthiness, property access,
 * `typeof … === 'object'`), and the encoding of the typed board model into
 * JSON together with its typed decoding. Text parsing and `JSON.stringify`
 * are not modelled: a parse is an `Option<Json>`, `None` being a syntax error.
 */
module JsonValue {
  import opened Common
  import opened Types

  /** Numbers are integers: every number the board model stores is one. */
  datatype Json =
    | JNull
    | JBool(b: bool)
    | JNum(n: int)
    | JStr(s: string)
    | JArr(items: seq<Json>)
    | JObj(fields: map<string, Json>)

  /** JavaScript truthiness of a value (`false`, `0`, `""` and `null` are falsy). */
  predicate Truthy(j: Json) {
    match j
    case JNull => false
    case JBool(b) => b
    case JNum(n) => n != 0
    case JStr(s) => s != ""
    case _ => true
  }

  /** `typeof j === 'object' && j !== null`: objects and arrays. */
  predicate IsObjectLike(j: Json) {
    j.JObj? || j.JArr?
  }

  /** `j[key]` on a parsed value: `None` is `undefined`. Only objects have the keys read here. */
  function Get(j: Json, key: string): (r: Option<Json>)
    ensures r.Some? <==> j.JObj? && key in j.fields
  {
    if j.JObj? && key in j.fields then Some(j.fields[key]) else None
  }

  /** `v == null`: absent or `null`. */
  predicate Nullish(v: Option<Json>) {
    v.None? || v.value.JNull?
  }

  /**
   * An optional string field as the types declare it (`string | null`,
   * possibly absent): `Some(None)` for absent or `null`, `Some(Some(s))` for a
   * string, `None` for anything else.
   */
  function OptStr(m: map<string, Json>, key: string): (r: Option<Option<string>>)
    ensures r == Some(None) <==> key !in m || m[key] == JNull
    ensures r.Some? && r.value.Some? <==> key in m && m[key].JStr?
  {
    if key !in m || m[key] == JNull then Some(None)
    else if m[key].JStr? then Some(Some(m[key].s))
    else None
  }

  /** An optional boolean flag: absent reads as `false`. */
  function OptBool(m: map<string, Json>, key: string): (r: Option<bool>)
    ensures r == Some(false) <== key !in m
    ensures r.Some? <==> key !in m || m[key].JBool?
  {
    if key !in m then Some(false)
    else if m[key].JBool? then Some(m[key].b)
    else None
  }

  function IdsToJson(ids: seq<Id>): (r: Json)
    ensures r.JArr? && |r.items| == |ids|
    ensures forall i :: 0 <= i < |ids| ==> r.items[i] == JStr(ids[i])
  {
    JArr(seq(|ids|, i requires 0 <= i < |ids| => JStr(ids[i])))
  }

  /** An array whose every item is a string. */
  function DecodeIds(items: seq<Json>): (r: Option<seq<Id>>)
    ensures r.Some? <==> forall i :: 0 <= i < |items| ==> items[i].JStr?
    ensures r.Some? ==> |r.value| == |items| && forall i :: 0 <= i < |items| ==> r.value[i] == items[i].s
  {
    if |items| == 0 then Some([])
    else if !items[0].JStr? then None
    else
      match DecodeIds(items[1..])
      case None => None
      case Some(rest) => Some([items[0].s] + rest)
  }

  /** `null` for an absent optional string. */
  function OrNull(v: Option<string>): (r: Json)
    ensures v.None? <==> r == JNull
  {
    if v.Some? then JStr(v.value) else JNull
  }

  /** A tile with every field written; an absent optional field is written as `null`. */
  function TileToJson(t: Tile): (r: Json)
    ensures r.JObj?
  {
    JObj(map["id" := JStr(t.id), "label" := JStr(t.labelText), "icon" := OrNull(t.icon),
             "imageUrl" := OrNull(t.imageUrl), "speechText" := OrNull(t.speechText),
             "color" := OrNull(t.color), "hidden" := JBool(t.hidden), "locked" := JBool(t.locked),
             "linkBoardId" := OrNull(t.linkBoardId), "order" := JNum(t.order)])
  }

  /** A tile as `Tile` declares it: string id and label, numeric order, optional fields typed. */
  function DecodeTile(j: Json): (r: Option<Tile>)
    ensures r.Some? ==> j.JObj? && "id" in j.fields && j.fields["id"] == JStr(r.value.id)
  {
    if !j.JObj? then None
    else
      var m := j.fields;
      if !("id" in m && m["id"].JStr? && "label" in m && m["label"].JStr? && "order" in m && m["order"].JNum?) then None
      else
        var icon := OptStr(m, "icon");
        var imageUrl := OptStr(m, "imageUrl");
        var speechText := OptStr(m, "speechText");
        var color := OptStr(m, "color");
        var link := OptStr(m, "linkBoardId");
        var hidden := OptBool(m, "hidden");
        var locked := OptBool(m, "locked");
        if icon.None? || imageUrl.None? || speechText.None? || color.None? || link.None? || hidden.None? || locked.None? then None
        else Some(Tile(m["id"].s, m["label"].s, icon.value, imageUrl.value, speechText.value, color.value,
                       hidden.value, locked.value, link.value, m["order"].n))
  }

  function CategoryToJson(c: Category): (r: Json)
    ensures r.JObj?
  {
    JObj(map["id" := JStr(c.id), "name" := JStr(c.name), "tileIds" := IdsToJson(c.tileIds),
             "order" := JNum(c.order), "icon" := OrNull(c.icon)])
  }

  function DecodeCategory(j: Json): (r: Option<Category>)
    ensures r.Some? ==> j.JObj? && "id" in j.fields && j.fields["id"] == JStr(r.value.id)
  {
    if !j.JObj? then None
    else
      var m := j.fields;
      if !("id" in m && m["id"].JStr? && "name" in m && m["name"].JStr? && "tileIds" in m && m["tileIds"].JArr?
           && "order" in m && m["order"].JNum?) then None
      else
        var ids := DecodeIds(m["tileIds"].items);
        var icon := OptStr(m, "icon");
        if ids.None? || icon.None? then None
        else Some(Category(m["id"].s, m["name"].s, ids.value, m["order"].n, icon.value))
  }

  /** Encoding then decoding a tile gives it back. */
  lemma TileRoundTrip(t: Tile)
    ensures DecodeTile(TileToJson(t)) == Some(t)
  {
    var m := TileToJson(t).fields;
    TileScalarFields(t);
    TileOptionalFields(t);
    OptStrOrNull(m, "icon", t.icon);
    OptStrOrNull(m, "imageUrl", t.imageUrl);
    OptStrOrNull(m, "speechText", t.speechText);
    OptStrOrNull(m, "color", t.color);
    OptStrOrNull(m, "linkBoardId", t.linkBoardId);
    DecodeTileOf(m, t);
  }

  /** A field written with `OrNull` reads back as the optional string it came from. */
  lemma OptStrOrNull(m: map<string, Json>, key: string, v: Option<string>)
    requires key in m && m[key] == OrNull(v)
    ensures OptStr(m, key) == Some(v)
  {
  }

  /** The required and boolean fields of an encoded tile. */
  lemma TileScalarFields(t: Tile)
    ensures "id" in TileToJson(t).fields && TileToJson(t).fields["id"] == JStr(t.id)
    ensures "label" in TileToJson(t).fields && TileToJson(t).fields["label"] == JStr(t.labelText)
    ensures "order" in TileToJson(t).fields && TileToJson(t).fields["order"] == JNum(t.order)
    ensures "hidden" in TileToJson(t).fields && TileToJson(t).fields["hidden"] == JBool(t.hidden)
    ensures "locked" in TileToJson(t).fields && TileToJson(t).fields["locked"] == JBool(t.locked)
  {
  }

  /** The optional string fields of an encoded tile. */
  lemma TileOptionalFields(t: Tile)
    ensures "icon" in TileToJson(t).fields && TileToJson(t).fields["icon"] == OrNull(t.icon)
    ensures "imageUrl" in TileToJson(t).fields && TileToJson(t).fields["imageUrl"] == OrNull(t.imageUrl)
    ensures "speechText" in TileToJson(t).fields && TileToJson(t).fields["speechText"] == OrNull(t.speechText)
    ensures "color" in TileToJson(t).fields && TileToJson(t).fields["color"] == OrNull(t.color)
    ensures "linkBoardId" in TileToJson(t).fields && TileToJson(t).fields["linkBoardId"] == OrNull(t.linkBoardId)
  {
  }

  /** Decoding succeeds on any object whose fields carry the tile's parts. */
  lemma DecodeTileOf(m: map<string, Json>, t: Tile)
    requires "id" in m && m["id"] == JStr(t.id) && "label" in m && m["label"] == JStr(t.labelText)
    requires "order" in m && m["order"] == JNum(t.order)
    requires "hidden" in m && m["hidden"] == JBool(t.hidden) && "locked" in m && m["locked"] == JBool(t.locked)
    requires OptStr(m, "icon") == Some(t.icon) && OptStr(m, "imageUrl") == Some(t.imageUrl)
    requires OptStr(m, "speechText") == Some(t.speechText) && OptStr(m, "color") == Some(t.color)
    requires OptStr(m, "linkBoardId") == Some(t.linkBoardId)
    ensures DecodeTile(JObj(m)) == Some(t)
  {
  }

  lemma IdsRoundTrip(ids: seq<Id>)
    ensures DecodeIds(IdsToJson(ids).items) == Some(ids)
  {
    var r := DecodeIds(IdsToJson(ids).items);
    assert r.value == ids;
  }

  /** Encoding then decoding a category gives it back. */
  lemma CategoryRoundTrip(c: Category)
    ensures DecodeCategory(CategoryToJson(c)) == Some(c)
  {
    IdsRoundTrip(c.tileIds);
  }

  function TileMapToJson(tiles: map<Id, Tile>): (r: map<string, Json>)
    ensures r.Keys == tiles.Keys
  {
    map k | k in tiles :: TileToJson(tiles[k])
  }

  function CategoryMapToJson(cats: map<Id, Category>): (r: map<string, Json>)
    ensures r.Keys == cats.Keys
  {
    map k | k in cats :: CategoryToJson(cats[k])
  }

  /** `Record<Id, Tile>`: every value decodes. */
  function DecodeTileMap(m: map<string, Json>): (r: Option<map<Id, Tile>>)
    ensures r.Some? <==> forall k :: k in m ==> DecodeTile(m[k]).Some?
    ensures r.Some? ==> r.value.Keys == m.Keys && forall k :: k in m ==> r.value[k] == DecodeTile(m[k]).value
  {
    if forall k :: k in m ==> DecodeTile(m[k]).Some? then Some(map k | k in m :: DecodeTile(m[k]).value)
    else None
  }

  function DecodeCategoryMap(m: map<string, Json>): (r: Option<map<Id, Category>>)
    ensures r.Some? <==> forall k :: k in m ==> DecodeCategory(m[k]).Some?
    ensures r.Some? ==> r.value.Keys == m.Keys && forall k :: k in m ==> r.value[k] == DecodeCategory(m[k]).value
  {
    if forall k :: k in m ==> DecodeCategory(m[k]).Some? then Some(map k | k in m :: DecodeCategory(m[k]).value)
    else None
  }

  /**
   * The board with the fields `Board` declares. An absent `rows` is written as
   * `null`, which every reader here treats as absent.
   */
  function BoardToJson(b: Board): (r: Json)
    ensures r.JObj?
  {
    JObj(map["id" := JStr(b.id), "name" := JStr(b.name), "columns" := JNum(b.columns),
             "rows" := (if b.rows.Some? then JNum(b.rows.value) else JNull),
             "categoryIds" := IdsToJson(b.categoryIds),
             "categories" := JObj(CategoryMapToJson(b.categories)),
             "tiles" := JObj(TileMapToJson(b.tiles)), "updatedAt" := JNum(b.updatedAt)])
  }

  /**
   * A board with the shape `Board` declares all the way down: categories and
   * tiles are objects whose every value is a well-typed category or tile.
   */
  function DecodeBoard(j: Json): (r: Option<Board>)
    ensures r.Some? ==> j.JObj? && "id" in j.fields && j.fields["id"] == JStr(r.value.id)
  {
    if !j.JObj? then None
    else
      var m := j.fields;
      if !("id" in m && m["id"].JStr? && "name" in m && m["name"].JStr? && "columns" in m && m["columns"].JNum?
           && "categoryIds" in m && m["categoryIds"].JArr? && "categories" in m && m["categories"].JObj?
           && "tiles" in m && m["tiles"].JObj? && "updatedAt" in m && m["updatedAt"].JNum?) then None
      else if "rows" in m && !(m["rows"].JNum? || m["rows"].JNull?) then None
      else
        var ids := DecodeIds(m["categoryIds"].items);
        var cats := DecodeCategoryMap(m["categories"].fields);
        var tiles := DecodeTileMap(m["tiles"].fields);
        if ids.None? || cats.None? || tiles.None? then None
        else
          var rows := if "rows" in m && m["rows"].JNum? then Some(m["rows"].n) else None;
          Some(Board(m["id"].s, m["name"].s, m["columns"].n, rows, ids.value, cats.value, tiles.value, m["updatedAt"].n))
  }

  /** The scalar fields of an encoded board. */
  lemma BoardScalarFields(b: Board)
    ensures "id" in BoardToJson(b).fields && BoardToJson(b).fields["id"] == JStr(b.id)
    ensures "name" in BoardToJson(b).fields && BoardToJson(b).fields["name"] == JStr(b.name)
    ensures "columns" in BoardToJson(b).fields && BoardToJson(b).fields["columns"] == JNum(b.columns)
    ensures "updatedAt" in BoardToJson(b).fields && BoardToJson(b).fields["updatedAt"] == JNum(b.updatedAt)
  {
  }

  /** The collection fields of an encoded board. */
  lemma BoardCollectionFields(b: Board)
    ensures "categoryIds" in BoardToJson(b).fields && BoardToJson(b).fields["categoryIds"] == IdsToJson(b.categoryIds)
    ensures "categories" in BoardToJson(b).fields && BoardToJson(b).fields["categories"] == JObj(CategoryMapToJson(b.categories))
    ensures "tiles" in BoardToJson(b).fields && BoardToJson(b).fields["tiles"] == JObj(TileMapToJson(b.tiles))
  {
  }

  /** The `rows` field of an encoded board. */
  lemma BoardRowsField(b: Board)
    ensures "rows" in BoardToJson(b).fields
    ensures BoardToJson(b).fields["rows"] == if b.rows.Some? then JNum(b.rows.value) else JNull
  {
  }

  /**
   * Decoding succeeds on any object whose fields carry the board's parts; an
   * absent `rows` may be missing or `null`.
   */
  lemma DecodeBoardOf(m: map<string, Json>, b: Board)
    requires "id" in m && m["id"] == JStr(b.id) && "name" in m && m["name"] == JStr(b.name)
    requires "columns" in m && m["columns"] == JNum(b.columns) && "updatedAt" in m && m["updatedAt"] == JNum(b.updatedAt)
    requires b.rows.Some? ==> "rows" in m && m["rows"] == JNum(b.rows.value)
    requires b.rows.None? && "rows" in m ==> m["rows"] == JNull
    requires "categoryIds" in m && m["categoryIds"].JArr? && DecodeIds(m["categoryIds"].items) == Some(b.categoryIds)
    requires "categories" in m && m["categories"].JObj? && DecodeCategoryMap(m["categories"].fields) == Some(b.categories)
    requires "tiles" in m && m["tiles"].JObj? && DecodeTileMap(m["tiles"].fields) == Some(b.tiles)
    ensures DecodeBoard(JObj(m)) == Some(b)
  {
  }

  lemma CategoryMapRoundTrip(cats: map<Id, Category>)
    ensures DecodeCategoryMap(CategoryMapToJson(cats)) == Some(cats)
  {
    var m := CategoryMapToJson(cats);
    forall k | k in m
      ensures DecodeCategory(m[k]) == Some(cats[k])
    {
      CategoryEntryRoundTrip(cats, k);
    }
    DecodeCategoryMapOf(m, cats);
  }

  lemma CategoryEntryRoundTrip(cats: map<Id, Category>, k: Id)
    requires k in cats
    ensures k in CategoryMapToJson(cats) && DecodeCategory(CategoryMapToJson(cats)[k]) == Some(cats[k])
  {
    assert CategoryMapToJson(cats)[k] == CategoryToJson(cats[k]);
    CategoryRoundTrip(cats[k]);
  }

  /** A category map decodes to the map whose entries its entries decode to. */
  lemma DecodeCategoryMapOf(m: map<string, Json>, cats: map<Id, Category>)
    requires m.Keys == cats.Keys
    requires forall k :: k in m ==> DecodeCategory(m[k]) == Some(cats[k])
    ensures DecodeCategoryMap(m) == Some(cats)
  {
    var r := DecodeCategoryMap(m);
    assert r.value == cats;
  }

  lemma TileMapRoundTrip(tiles: map<Id, Tile>)
    ensures DecodeTileMap(TileMapToJson(tiles)) == Some(tiles)
  {
    var m := TileMapToJson(tiles);
    forall k | k in m
      ensures DecodeTile(m[k]) == Some(tiles[k])
    {
      TileEntryRoundTrip(tiles, k);
    }
    DecodeTileMapOf(m, tiles);
  }

  lemma TileEntryRoundTrip(tiles: map<Id, Tile>, k: Id)
    requires k in tiles
    ensures k in TileMapToJson(tiles) && DecodeTile(TileMapToJson(tiles)[k]) == Some(tiles[k])
  {
    assert TileMapToJson(tiles)[k] == TileToJson(tiles[k]);
    TileRoundTrip(tiles[k]);
  }

  /** A tile map decodes to the map whose entries its entries decode to. */
  lemma DecodeTileMapOf(m: map<string, Json>, tiles: map<Id, Tile>)
    requires m.Keys == tiles.Keys
    requires forall k :: k in m ==> DecodeTile(m[k]) == Some(tiles[k])
    ensures DecodeTileMap(m) == Some(tiles)
  {
    var r := DecodeTileMap(m);
    assert r.value == tiles;
  }

  /** Encoding then decoding a board gives it back. */
  lemma BoardRoundTrip(b: Board)
    ensures DecodeBoard(BoardToJson(b)) == Some(b)
  {
    BoardScalarFields(b);
    BoardCollectionFields(b);
    BoardRowsField(b);
    IdsRoundTrip(b.categoryIds);
    CategoryMapRoundTrip(b.categories);
    TileMapRoundTrip(b.tiles);
    DecodeBoardOf(BoardToJson(b).fields, b);
  }

  /** An `AppStateSnapshot` as a JSON object. */
  function SnapshotToJson(s: Snapshot): (r: Json)
    ensures r.JObj?
  {
    JObj(map["currentBoardId" := OrNull(s.currentBoardId),
             "currentCategoryId" := OrNull(s.currentCategoryId),
             "sentenceStripTileIds" := IdsToJson(s.sentenceStripTileIds)])
  }

  /** The stored app-state row, `{ id: 'default', ...appState }`. */
  function SnapshotRecord(s: Snapshot): (r: Json)
    ensures r.JObj? && "id" in r.fields && r.fields["id"] == JStr("default")
  {
    JObj(map["id" := JStr("default"),
             "currentBoardId" := OrNull(s.currentBoardId),
             "currentCategoryId" := OrNull(s.currentCategoryId),
             "sentenceStripTileIds" := IdsToJson(s.sentenceStripTileIds)])
  }

  /** `v ?? null` read as an id: absent and `null` become `None`. */
  function IdOrNull(v: Option<Json>): (r: Option<Id>)
    ensures Nullish(v) ==> r.None?
    ensures v.Some? && v.value.JStr? ==> r == Some(v.value.s)
  {
    if v.Some? && v.value.JStr? then Some(v.value.s) else None
  }

  /** The string items of an array, in order. */
  function StringItems(items: seq<Json>): (r: seq<Id>)
    ensures |r| <= |items|
    ensures (forall i :: 0 <= i < |items| ==> items[i].JStr?) ==> |r| == |items|
  {
    if |items| == 0 then []
    else if items[0].JStr? then [items[0].s] + StringItems(items[1..])
    else StringItems(items[1..])
  }

  /**
   * The snapshot normalisation shared by `loadState` and `importJSON`: a
   * missing id becomes null and a strip that is not an array becomes `[]`.
   */
  function SnapshotFromJson(j: Json): (r: Snapshot)
    ensures Nullish(Get(j, "currentBoardId")) ==> r.currentBoardId.None?
    ensures Nullish(Get(j, "currentCategoryId")) ==> r.currentCategoryId.None?
    ensures !(Get(j, "sentenceStripTileIds").Some? && Get(j, "sentenceStripTileIds").value.JArr?) ==>
      r.sentenceStripTileIds == []
  {
    var strip := Get(j, "sentenceStripTileIds");
    Snapshot(IdOrNull(Get(j, "currentBoardId")), IdOrNull(Get(j, "currentCategoryId")),
             if strip.Some? && strip.value.JArr? then StringItems(strip.value.items) else [])
  }

  lemma {:induction false} StringItemsOfIds(ids: seq<Id>)
    ensures StringItems(IdsToJson(ids).items) == ids
  {
    if |ids| > 0 {
      StringItemsOfIds(ids[1..]);
      assert IdsToJson(ids).items[1..] == IdsToJson(ids[1..]).items;
    }
  }

  /** A stored snapshot reads back as itself. */
  lemma SnapshotRoundTrip(s: Snapshot)
    ensures SnapshotFromJson(SnapshotToJson(s)) == s
    ensures SnapshotFromJson(SnapshotRecord(s)) == s
  {
    StringItemsOfIds(s.sentenceStripTileIds);
  }
}
