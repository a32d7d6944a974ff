/**
 * Backup and portability: the full-state export and import of
 * src/storage/state.ts (lines 110-193) and the single-board envelope of
 * src/types/exportImport.ts. A parsed text is an `Option<Json>` (`None`: the
 * text is not JSON); the clock is the parameter `now`.
 */
module Exchange {
  import opened Common
  import opened Types
  import opened JsonValue
  import opened Storage

  const ExportVersion := 1

  // --------------------------------------------------------- board shape

  /** The field is present and holds a string. */
  predicate HasStr(j: Json, key: string) {
    Get(j, key).Some? && Get(j, key).value.JStr?
  }

  /**
   * `isValidBoard`: a non-null object with string `id` and `name`, an array
   * `categoryIds`, and `categories` and `tiles` that are non-null objects
   * (arrays included, as `typeof` says `'object'` for them).
   */
  predicate IsValidBoard(j: Json)
    ensures IsValidBoard(j) <==>
      && j.JObj? && HasStr(j, "id") && HasStr(j, "name")
      && Get(j, "categoryIds").Some? && Get(j, "categoryIds").value.JArr?
      && Get(j, "categories").Some? && (Get(j, "categories").value.JObj? || Get(j, "categories").value.JArr?)
      && Get(j, "tiles").Some? && (Get(j, "tiles").value.JObj? || Get(j, "tiles").value.JArr?)
    ensures DecodeBoard(j).Some? ==> IsValidBoard(j)
  {
    && j.JObj?
    && HasStr(j, "id") && HasStr(j, "name")
    && Get(j, "categoryIds").Some? && Get(j, "categoryIds").value.JArr?
    && Get(j, "categories").Some? && IsObjectLike(Get(j, "categories").value)
    && Get(j, "tiles").Some? && IsObjectLike(Get(j, "tiles").value)
  }

  /** A field that is a number, or the fallback. */
  function NumOr(v: Option<Json>, fallback: int): (r: Json)
    ensures r.JNum?
    ensures v.Some? && v.value.JNum? ==> r == v.value
    ensures !(v.Some? && v.value.JNum?) ==> r == JNum(fallback)
  {
    if v.Some? && v.value.JNum? then v.value else JNum(fallback)
  }

  /** `{ rows }` when `rows` is a number; left out (`undefined`) otherwise. */
  function RowsIfNumber(v: Option<Json>): (r: map<string, Json>)
    ensures v.Some? && v.value.JNum? ==> r == map["rows" := v.value]
    ensures !(v.Some? && v.value.JNum?) ==> r == map[]
  {
    if v.Some? && v.value.JNum? then map["rows" := v.value] else map[]
  }

  /**
   * `normalizeBoard`: keeps `id`, `name`, `categoryIds`, `categories` and
   * `tiles`; a non-numeric `columns` becomes 3, a non-numeric `rows` is
   * dropped, a non-numeric `updatedAt` becomes the clock; nothing else is kept.
   */
  function NormalizeBoard(j: Json, now: int): (r: Json)
    requires IsValidBoard(j)
    ensures r.JObj?
    ensures r.fields.Keys <= {"id", "name", "columns", "rows", "categoryIds", "categories", "tiles", "updatedAt"}
    ensures Get(r, "id") == Get(j, "id") && Get(r, "name") == Get(j, "name")
    ensures Get(r, "categoryIds") == Get(j, "categoryIds")
    ensures Get(r, "categories") == Get(j, "categories") && Get(r, "tiles") == Get(j, "tiles")
    ensures "columns" in r.fields && "updatedAt" in r.fields
    ensures r.fields["columns"] == NumOr(Get(j, "columns"), 3)
    ensures r.fields["updatedAt"] == NumOr(Get(j, "updatedAt"), now)
    ensures "rows" in r.fields <==> Get(j, "rows").Some? && Get(j, "rows").value.JNum?
    ensures "rows" in r.fields ==> Get(r, "rows") == Get(j, "rows")
  {
    JObj(KeptFields(j, now) + RowsIfNumber(Get(j, "rows")))
  }

  /** The seven fields `normalizeBoard` always writes. */
  function KeptFields(j: Json, now: int): (r: map<string, Json>)
    requires IsValidBoard(j)
    ensures r.Keys == {"id", "name", "columns", "categoryIds", "categories", "tiles", "updatedAt"}
    ensures r["id"] == j.fields["id"] && r["name"] == j.fields["name"]
    ensures r["categoryIds"] == j.fields["categoryIds"]
    ensures r["categories"] == j.fields["categories"] && r["tiles"] == j.fields["tiles"]
    ensures r["columns"] == NumOr(Get(j, "columns"), 3) && r["updatedAt"] == NumOr(Get(j, "updatedAt"), now)
  {
    var m := j.fields;
    map["id" := m["id"], "name" := m["name"], "columns" := NumOr(Get(j, "columns"), 3),
        "categoryIds" := m["categoryIds"], "categories" := m["categories"], "tiles" := m["tiles"],
        "updatedAt" := NumOr(Get(j, "updatedAt"), now)]
  }

  /** A board already in the shape `normalizeBoard` produces. */
  predicate NormalBoard(j: Json) {
    && IsValidBoard(j)
    && j.fields.Keys <= {"id", "name", "columns", "rows", "categoryIds", "categories", "tiles", "updatedAt"}
    && "columns" in j.fields && j.fields["columns"].JNum?
    && "updatedAt" in j.fields && j.fields["updatedAt"].JNum?
    && ("rows" in j.fields ==> j.fields["rows"].JNum?)
  }

  /**
   * Normalisation always yields a normal board, is the identity exactly on
   * normal boards, and so is idempotent.
   */
  lemma NormalizeIdentityIff(j: Json, now: int, later: int)
    requires IsValidBoard(j)
    ensures NormalBoard(NormalizeBoard(j, now))
    ensures NormalizeBoard(j, now) == j <==> NormalBoard(j)
    ensures NormalizeBoard(NormalizeBoard(j, now), later) == NormalizeBoard(j, now)
  {
    var r := NormalizeBoard(j, now);
    if NormalBoard(j) {
      assert r.fields == j.fields;
    }
    var r2 := NormalizeBoard(r, later);
    assert r2.fields == r.fields;
  }

  /** Every board of the typed model passes the shape check. */
  lemma TypedBoardsAreValid(j: Json)
    requires DecodeBoard(j).Some?
    ensures IsValidBoard(j)
  {
  }

  // -------------------------------------------------------- full export

  /** `exportJSON`: the envelope around the loaded boards and snapshot. */
  function ExportJson(db: Db, now: int): (r: Json)
    ensures r.JObj? && Get(r, "version") == Some(JNum(ExportVersion))
    ensures Get(r, "boards").Some? && Get(r, "boards").value.JArr?
    ensures |Get(r, "boards").value.items| == |db.records|
  {
    var state := LoadState(db);
    JObj(map["version" := JNum(ExportVersion), "exportedAt" := JNum(now),
             "boards" := JArr(BoardsToJson(state.boards)),
             "appState" := SnapshotToJson(state.appState)])
  }

  function BoardsToJson(bs: seq<Board>): (r: seq<Json>)
    ensures |r| == |bs|
    ensures forall i :: 0 <= i < |bs| ==> r[i] == BoardToJson(bs[i])
  {
    seq(|bs|, i requires 0 <= i < |bs| => BoardToJson(bs[i]))
  }

  // -------------------------------------------------------- full import

  datatype ImportError =
    | InvalidJson
    | MissingVersionOrBoards
    | UnsupportedVersion(version: Json)
    | BoardsNotArray
    | InvalidBoard

  /** What `importJSON` hands to `saveState` and returns, boards as normalised JSON. */
  datatype ImportedJson = ImportedJson(boards: seq<Json>, appState: Snapshot)

  /** The snapshot of an import: normalised when `appState` is a truthy object, the default otherwise. */
  function ImportSnapshot(v: Option<Json>): (r: Snapshot)
    ensures v.None? ==> r == DefaultAppState
  {
    if v.Some? && Truthy(v.value) && IsObjectLike(v.value) then SnapshotFromJson(v.value) else DefaultAppState
  }

  /** On an object, `loadState` and `importJSON` normalise the snapshot alike. */
  lemma SnapshotNormalisedAlike(j: Json)
    requires j.JObj?
    ensures LoadSnapshot(Some(j)) == ImportSnapshot(Some(j)) == SnapshotFromJson(j)
  {
  }

  /** Every item passes `isValidBoard`, checked front to back. */
  predicate AllValid(items: seq<Json>)
    ensures AllValid(items) <==> forall i :: 0 <= i < |items| ==> IsValidBoard(items[i])
  {
    |items| == 0 || (IsValidBoard(items[0]) && AllValid(items[1..]))
  }

  function NormalizeAll(items: seq<Json>, now: int): (r: seq<Json>)
    requires forall i :: 0 <= i < |items| ==> IsValidBoard(items[i])
    ensures |r| == |items|
    ensures forall i :: 0 <= i < |items| ==> r[i] == NormalizeBoard(items[i], now)
  {
    seq(|items|, i requires 0 <= i < |items| => NormalizeBoard(items[i], now))
  }

  /** The parsed value is an object carrying both `version` and `boards`. */
  predicate Enveloped(data: Json) {
    Truthy(data) && IsObjectLike(data) && Get(data, "version").Some? && Get(data, "boards").Some?
  }

  /**
   * `importJSON` as written: the validation ladder (not JSON, then missing
   * `version` or `boards`, then a version other than 1, then `boards` not an
   * array, then a board failing `isValidBoard`), followed by normalisation.
   * Only the top level of each board is checked.
   */
  function ImportShallow(parsed: Option<Json>, now: int): (r: Result<ImportedJson, ImportError>)
    ensures parsed.None? <==> r == Failure(InvalidJson)
    ensures r == Failure(MissingVersionOrBoards) <==> parsed.Some? && !Enveloped(parsed.value)
    ensures r.Failure? && r.error.UnsupportedVersion? <==>
      parsed.Some? && Enveloped(parsed.value) && parsed.value.fields["version"] != JNum(ExportVersion)
    ensures r == Failure(InvalidBoard) ==> parsed.Some? && Enveloped(parsed.value) && parsed.value.fields["boards"].JArr?
    ensures r == Failure(InvalidBoard) <==>
      && parsed.Some? && Enveloped(parsed.value) && parsed.value.fields["version"] == JNum(ExportVersion)
      && parsed.value.fields["boards"].JArr?
      && exists i :: 0 <= i < |parsed.value.fields["boards"].items| && !IsValidBoard(parsed.value.fields["boards"].items[i])
    ensures r.Success? ==> parsed.Some? && Enveloped(parsed.value) && parsed.value.fields["boards"].JArr?
    ensures r.Success? ==> |r.value.boards| == |parsed.value.fields["boards"].items|
    ensures r.Success? ==> forall i :: 0 <= i < |r.value.boards| ==> NormalBoard(r.value.boards[i])
    ensures r.Success? ==> r.value.appState == ImportSnapshot(Get(parsed.value, "appState"))
  {
    if parsed.None? then Failure(InvalidJson)
    else
      var data := parsed.value;
      if !Enveloped(data) then Failure(MissingVersionOrBoards)
      else if data.fields["version"] != JNum(ExportVersion) then Failure(UnsupportedVersion(data.fields["version"]))
      else if !data.fields["boards"].JArr? then Failure(BoardsNotArray)
      else
        var items := data.fields["boards"].items;
        if !AllValid(items) then Failure(InvalidBoard)
        else
          var boards := NormalizeAll(items, now);
          assert forall i :: 0 <= i < |boards| ==> NormalBoard(boards[i]) by {
            forall i | 0 <= i < |boards| ensures NormalBoard(boards[i]) {
              NormalizeIdentityIff(items[i], now, now);
            }
          }
          Success(ImportedJson(boards, ImportSnapshot(Get(data, "appState"))))
  }

  /** Decode every normalised board into the typed model; `None` if any does not fit. */
  function DecodeAll(items: seq<Json>): (r: Option<seq<Board>>)
    ensures r.Some? <==> forall i :: 0 <= i < |items| ==> DecodeBoard(items[i]).Some?
    ensures r.Some? ==> |r.value| == |items| && forall i :: 0 <= i < |items| ==> DecodeBoard(items[i]) == Some(r.value[i])
  {
    if |items| == 0 then Some([])
    else
      match (DecodeBoard(items[0]), DecodeAll(items[1..]))
      case (Some(b), Some(rest)) => Some([b] + rest)
      case _ => None
  }

  /**
   * `importJSON` with the shape check carried down to categories and tiles:
   * the ladder and normalisation of `ImportShallow`, and a board whose
   * normalised form is not a well-typed board is an invalid board.
   */
  function ImportJson(parsed: Option<Json>, now: int): (r: Result<Loaded, ImportError>)
    ensures ImportShallow(parsed, now).Failure? ==> r == Failure(ImportShallow(parsed, now).error)
    ensures r.Success? ==> ImportShallow(parsed, now).Success?
    ensures r.Success? ==> var shallow := ImportShallow(parsed, now).value;
      && r.value.appState == shallow.appState
      && |r.value.boards| == |shallow.boards|
      && forall i :: 0 <= i < |shallow.boards| ==> DecodeBoard(shallow.boards[i]) == Some(r.value.boards[i])
    ensures ImportShallow(parsed, now).Success? && r.Failure? ==> r == Failure(InvalidBoard)
    ensures ImportShallow(parsed, now).Success? ==>
      (r.Success? <==> forall i :: 0 <= i < |ImportShallow(parsed, now).value.boards| ==>
                          DecodeBoard(ImportShallow(parsed, now).value.boards[i]).Some?)
  {
    match ImportShallow(parsed, now)
    case Failure(e) => Failure(e)
    case Success(imp) =>
      match DecodeAll(imp.boards)
      case None => Failure(InvalidBoard)
      case Some(bs) => Success(Loaded(bs, imp.appState))
  }

  /**
   * The shallow check lets through a board whose category is not an object
   * with a `tileIds` array (here the number 5); the typed import refuses it.
   */
  lemma ShallowAdmitsMalformedCategory(now: int)
    ensures var board := JObj(map["id" := JStr("b"), "name" := JStr("n"), "categoryIds" := JArr([JStr("c")]),
                                  "categories" := JObj(map["c" := JNum(5)]), "tiles" := JObj(map[])]);
      var parsed := Some(JObj(map["version" := JNum(1), "boards" := JArr([board])]));
      && ImportShallow(parsed, now).Success?
      && ImportJson(parsed, now) == Failure(InvalidBoard)
  {
    var board := JObj(map["id" := JStr("b"), "name" := JStr("n"), "categoryIds" := JArr([JStr("c")]),
                          "categories" := JObj(map["c" := JNum(5)]), "tiles" := JObj(map[])]);
    var parsed := Some(JObj(map["version" := JNum(1), "boards" := JArr([board])]));
    assert IsValidBoard(board);
    var imp := ImportShallow(parsed, now).value;
    var nb := imp.boards[0];
    assert nb.fields["categories"] == JObj(map["c" := JNum(5)]);
    var cats := map["c" := JNum(5)];
    assert "c" in cats && DecodeCategory(cats["c"]).None?;
    assert DecodeCategoryMap(cats).None?;
    assert DecodeBoard(nb).None?;
  }

  /**
   * `importJSON` against the database: on any failure nothing is written;
   * on success `saveState` replaces everything with the returned state.
   */
  function ImportInto(db: Db, parsed: Option<Json>, now: int): (r: (Result<Loaded, ImportError>, Db))
    ensures r.0.Failure? ==> r.1 == db
    ensures r.0.Success? ==> Valid(r.1) && LoadState(r.1).appState == r.0.value.appState
    ensures r.0.Success? ==> forall x :: x in r.1.records ==> x in r.0.value.boards
    ensures r.0.Success? ==> forall k :: Lookup(r.1.records, k) == LastWithId(r.0.value.boards, k)
  {
    match ImportJson(parsed, now)
    case Failure(e) => (Failure(e), db)
    case Success(state) =>
      SavedSnapshotLoads(state.boards, state.appState);
      SaveStateLookup(state.boards, state.appState);
      (Success(state), SaveState(state.boards, state.appState))
  }

  /**
   * What a successful import stores is what it returns: with distinct ids, a
   * load gives back exactly the returned boards, newest first, and the
   * returned snapshot.
   */
  lemma ImportThenLoad(db: Db, parsed: Option<Json>, now: int)
    requires ImportInto(db, parsed, now).0.Success?
    ensures var st, saved := ImportInto(db, parsed, now).0.value, ImportInto(db, parsed, now).1;
      IdsDistinct(st.boards) ==>
        && multiset(LoadState(saved).boards) == multiset(st.boards)
        && Sorting.SortedBy(LoadState(saved).boards, Newest)
        && LoadState(saved).appState == st.appState
  {
    var st := ImportInto(db, parsed, now).0.value;
    if IdsDistinct(st.boards) {
      SaveThenLoad(st.boards, st.appState);
    }
  }

  /** Every item of the envelope's `boards` array carries a numeric `updatedAt`. */
  ghost predicate Stamped(parsed: Option<Json>) {
    && parsed.Some? && parsed.value.JObj? && "boards" in parsed.value.fields
    && parsed.value.fields["boards"].JArr?
    && forall i :: 0 <= i < |parsed.value.fields["boards"].items| ==>
         Get(parsed.value.fields["boards"].items[i], "updatedAt").Some?
         && Get(parsed.value.fields["boards"].items[i], "updatedAt").value.JNum?
  }

  /** Normalisation reads the clock only to fill a missing `updatedAt`. */
  lemma NormalizeClockFree(j: Json, now1: int, now2: int)
    requires IsValidBoard(j) && Get(j, "updatedAt").Some? && Get(j, "updatedAt").value.JNum?
    ensures NormalizeBoard(j, now1) == NormalizeBoard(j, now2)
  {
    var r1, r2 := NormalizeBoard(j, now1), NormalizeBoard(j, now2);
    assert r1.fields.Keys == r2.fields.Keys;
    assert forall k :: k in r1.fields ==> r1.fields[k] == r2.fields[k];
  }

  /** An envelope whose boards all carry `updatedAt` imports alike whatever the clock says. */
  lemma ImportClockFree(parsed: Option<Json>, now1: int, now2: int)
    requires Stamped(parsed)
    ensures ImportShallow(parsed, now1) == ImportShallow(parsed, now2)
    ensures ImportJson(parsed, now1) == ImportJson(parsed, now2)
  {
    var items := parsed.value.fields["boards"].items;
    if AllValid(items) {
      forall i | 0 <= i < |items|
        ensures NormalizeAll(items, now1)[i] == NormalizeAll(items, now2)[i]
      {
        NormalizeClockFree(items[i], now1, now2);
      }
      assert NormalizeAll(items, now1) == NormalizeAll(items, now2);
    }
  }

  /**
   * Importing the same text again, later, leaves the state of the first
   * import: the database is replaced, not merged, and boards that carry
   * `updatedAt` do not pick up the new clock.
   */
  lemma ImportIdempotent(db: Db, parsed: Option<Json>, now1: int, now2: int)
    requires Stamped(parsed)
    ensures ImportInto(db, parsed, now1).0.Success? ==>
      ImportInto(ImportInto(db, parsed, now1).1, parsed, now2) == ImportInto(db, parsed, now1)
  {
    ImportClockFree(parsed, now1, now2);
  }

  // ------------------------------------------------- export, then import

  /** An encoded board survives normalisation and decodes back to itself. */
  lemma NormalizeEncoded(b: Board, now: int)
    ensures IsValidBoard(BoardToJson(b))
    ensures DecodeBoard(NormalizeBoard(BoardToJson(b), now)) == Some(b)
  {
    BoardRoundTrip(b);
    TypedBoardsAreValid(BoardToJson(b));
    var r := NormalizeBoard(BoardToJson(b), now);
    BoardScalarFields(b);
    BoardCollectionFields(b);
    BoardRowsField(b);
    IdsRoundTrip(b.categoryIds);
    CategoryMapRoundTrip(b.categories);
    TileMapRoundTrip(b.tiles);
    DecodeBoardOf(r.fields, b);
  }

  /** Every exported board imports back to itself. */
  lemma DecodeNormalizedAll(bs: seq<Board>, now: int)
    ensures forall i :: 0 <= i < |bs| ==> IsValidBoard(BoardsToJson(bs)[i])
    ensures DecodeAll(NormalizeAll(BoardsToJson(bs), now)) == Some(bs)
  {
    forall i | 0 <= i < |bs|
      ensures IsValidBoard(BoardsToJson(bs)[i])
      ensures DecodeBoard(NormalizeBoard(BoardsToJson(bs)[i], now)) == Some(bs[i])
    {
      NormalizeEncoded(bs[i], now);
    }
    var r := DecodeAll(NormalizeAll(BoardsToJson(bs), now));
    assert r.value == bs;
  }

  /**
   * An export, imported at any later time, gives back exactly what
   * `loadState` returned when it was made: the same boards in the same order
   * and the same snapshot.
   */
  lemma ExportThenImport(db: Db, t: int, now: int)
    ensures ImportJson(Some(ExportJson(db, t)), now) == Success(LoadState(db))
  {
    var state := LoadState(db);
    ExportPassesLadder(db, t, now);
    DecodeNormalizedAll(state.boards, now);
  }

  /** An envelope that passes every check imports as its normalised boards. */
  lemma LadderPassed(data: Json, now: int)
    requires Enveloped(data) && data.fields["version"] == JNum(ExportVersion) && data.fields["boards"].JArr?
    requires AllValid(data.fields["boards"].items)
    ensures ImportShallow(Some(data), now)
      == Success(ImportedJson(NormalizeAll(data.fields["boards"].items, now), ImportSnapshot(Get(data, "appState"))))
  {
  }

  /** The envelope of an export: version 1, the loaded boards encoded, the loaded snapshot. */
  lemma ExportEnvelope(db: Db, t: int)
    ensures var e := ExportJson(db, t);
      && Enveloped(e) && e.fields["version"] == JNum(ExportVersion)
      && e.fields["boards"] == JArr(BoardsToJson(LoadState(db).boards))
      && ImportSnapshot(Get(e, "appState")) == LoadState(db).appState
  {
    SnapshotRoundTrip(LoadState(db).appState);
  }

  /** Encoded boards all pass the shape check. */
  lemma EncodedAllValid(bs: seq<Board>)
    ensures AllValid(BoardsToJson(bs))
  {
    forall i | 0 <= i < |bs|
      ensures IsValidBoard(BoardsToJson(bs)[i])
    {
      NormalizeEncoded(bs[i], 0);
    }
  }

  /** An export passes every step of the ladder, and its boards normalise to their encodings. */
  lemma ExportPassesLadder(db: Db, t: int, now: int)
    ensures AllValid(BoardsToJson(LoadState(db).boards))
    ensures ImportShallow(Some(ExportJson(db, t)), now)
      == Success(ImportedJson(NormalizeAll(BoardsToJson(LoadState(db).boards), now), LoadState(db).appState))
  {
    ExportEnvelope(db, t);
    EncodedAllValid(LoadState(db).boards);
    LadderPassed(ExportJson(db, t), now);
  }

  // ------------------------------------------------- single-board envelope

  /** `exportBoard`: the board, stamped with the clock, inside a version-1 envelope. */
  function ExportBoard(b: Board, now: int): (r: Json)
    ensures r.JObj? && Get(r, "version") == Some(JNum(ExportVersion))
    ensures Get(r, "board") == Some(BoardToJson(b.(updatedAt := now)))
  {
    JObj(map["version" := JNum(ExportVersion), "exportedAt" := JNum(now),
             "board" := BoardToJson(b.(updatedAt := now))])
  }

  datatype BoardImportError =
    | ParseError
    /** Reading `version` of a parsed `null` throws before any check. */
    | NullAccess
    | InvalidFormat

  /**
   * `importBoard`: a text that is not JSON or is `null` throws; otherwise the
   * envelope must say version 1 and carry a truthy `board`, which is returned
   * as it stands, without any check of its shape.
   */
  function ImportBoard(parsed: Option<Json>): (r: Result<Json, BoardImportError>)
    ensures parsed.None? <==> r == Failure(ParseError)
    ensures r == Failure(NullAccess) <==> parsed == Some(JNull)
    ensures r.Success? <==>
      parsed.Some? && Get(parsed.value, "version") == Some(JNum(ExportVersion))
      && Get(parsed.value, "board").Some? && Truthy(Get(parsed.value, "board").value)
    ensures r.Success? ==> Get(parsed.value, "board") == Some(r.value)
  {
    if parsed.None? then Failure(ParseError)
    else if parsed.value == JNull then Failure(NullAccess)
    else
      var data := parsed.value;
      if Get(data, "version") != Some(JNum(ExportVersion)) || Get(data, "board").None? || !Truthy(Get(data, "board").value)
      then Failure(InvalidFormat)
      else Success(Get(data, "board").value)
  }

  /** A board export reads back as the encoded, stamped board. */
  lemma ExportBoardThenImport(b: Board, now: int)
    ensures ImportBoard(Some(ExportBoard(b, now))) == Success(BoardToJson(b.(updatedAt := now)))
    ensures DecodeBoard(ImportBoard(Some(ExportBoard(b, now))).value) == Some(b.(updatedAt := now))
  {
    BoardRoundTrip(b.(updatedAt := now));
  }

  /** The single-board import accepts a truthy `board` of any shape, a number included. */
  lemma ImportBoardUnchecked(v: Json)
    requires Truthy(v)
    ensures ImportBoard(Some(JObj(map["version" := JNum(1), "board" := v]))) == Success(v)
  {
  }
}
