/**
 * The editor's handlers (src/components/BoardEditor.tsx:11-124, 149, 160,
 * 239): input clamps, trimming before adding, drag-over sequencing and the
 * image size guard, as functions of the store and the editor's own fields.
 */
module BoardEditor {
  import opened Common
  import opened Types
  import Moves
  import Mutations
  import Session
  import TileCell

  /** 1.5 MiB: `1.5 * 1024 * 1024` bytes. */
  const MaxImageSizeBytes := 1572864

  /** A file is read only when it is no larger than the limit. */
  predicate ImageAccepted(size: nat)
    ensures ImageAccepted(size) <==> 2 * size <= 3 * 1024 * 1024
  {
    size <= MaxImageSizeBytes
  }

  /**
   * `Math.max(1, Math.min(hi, Number(v) || 1))` for a number input: `None`
   * is a value that is not a number, which like 0 becomes 1.
   */
  function ClampInput(v: Option<int>, hi: int): (r: int)
    requires hi >= 1
    ensures 1 <= r <= hi
    ensures v.Some? && 1 <= v.value <= hi ==> r == v.value
    ensures v.None? || v.value < 1 ==> r == 1
    ensures v.Some? && v.value > hi ==> r == hi
  {
    var n := if v.None? || v.value == 0 then 1 else v.value;
    var m := if n < hi then n else hi;
    if m > 1 then m else 1
  }

  function ClampColumns(v: Option<int>): (r: int)
    ensures 1 <= r <= 6
  {
    ClampInput(v, 6)
  }

  function ClampRows(v: Option<int>): (r: int)
    ensures 1 <= r <= 8
  {
    ClampInput(v, 8)
  }

  /** Clamping a clamped value changes nothing. */
  lemma ClampIdempotent(v: Option<int>, hi: int)
    requires hi >= 1
    ensures ClampInput(Some(ClampInput(v, hi)), hi) == ClampInput(v, hi)
  {
  }

  /** What the editor's text fields hold. */
  datatype Fields = Fields(categoryName: string, tileLabel: string, tileSpeech: string)

  /** `addCategory` in the store: ignored without a board. */
  function AddCategoryIn(s: Session.Session, name: string, newId: Id, now: int): (r: Session.Session)
    ensures s.board.None? ==> r == s
    ensures s.board.Some? ==> r == s.(board := Some(Mutations.AddCategory(s.board.value, name, newId, now)))
  {
    if s.board.None? then s else s.(board := Some(Mutations.AddCategory(s.board.value, name, newId, now)))
  }

  /**
   * `handleAddCategory`: a blank name does nothing; otherwise the trimmed
   * name is added and the field cleared.
   */
  function HandleAddCategory(s: Session.Session, f: Fields, newId: Id, now: int): (r: (Session.Session, Fields))
    ensures Trim(f.categoryName) == "" ==> r == (s, f)
    ensures Trim(f.categoryName) != "" ==>
      r == (AddCategoryIn(s, Trim(f.categoryName), newId, now), f.(categoryName := ""))
  {
    var name := Trim(f.categoryName);
    if name == "" then (s, f) else (AddCategoryIn(s, name, newId, now), f.(categoryName := ""))
  }

  /** A category added from the editor carries a name with no surrounding white space. */
  lemma AddedCategoryNameTrimmed(s: Session.Session, f: Fields, newId: Id, now: int)
    requires s.board.Some? && Trim(f.categoryName) != ""
    ensures var b := HandleAddCategory(s, f, newId, now).0.board.value;
      && newId in b.categories
      && b.categories[newId].name == Trim(f.categoryName)
      && Trim(b.categories[newId].name) == b.categories[newId].name
  {
    TrimIdempotent(f.categoryName);
  }

  /** The speech the editor passes: the trimmed speech input, or the label when that is blank. */
  function SpeechFor(labelText: string, speechInput: string): (r: string)
    ensures Trim(speechInput) != "" ==> r == Trim(speechInput)
    ensures Trim(speechInput) == "" ==> r == labelText
  {
    var sp := Trim(speechInput);
    if sp != "" then sp else labelText
  }

  /**
   * `handleAddTile`: nothing happens for a blank label or without a truthy
   * current category. Otherwise the trimmed label is added with its speech,
   * both fields are cleared, and the store's answer (the new id, or none
   * when the category is gone) is returned.
   */
  function HandleAddTile(s: Session.Session, f: Fields, newId: Id, now: int): (r: (Session.Session, Fields, Option<Id>))
    ensures Trim(f.tileLabel) == "" || !TruthyStr(s.currentCategoryId) ==> r == (s, f, None)
    ensures Trim(f.tileLabel) != "" && TruthyStr(s.currentCategoryId) ==>
      var labelText := Trim(f.tileLabel);
      var added := Session.AddTileIn(s, s.currentCategoryId.value, labelText, Some(SpeechFor(labelText, f.tileSpeech)), newId, now);
      r == (added.0, f.(tileLabel := "", tileSpeech := ""), added.1)
  {
    var labelText := Trim(f.tileLabel);
    if labelText == "" || !TruthyStr(s.currentCategoryId) then (s, f, None)
    else
      var added := Session.AddTileIn(s, s.currentCategoryId.value, labelText, Some(SpeechFor(labelText, f.tileSpeech)), newId, now);
      (added.0, f.(tileLabel := "", tileSpeech := ""), added.1)
  }

  /** A tile added from the editor has the trimmed label and speaks the trimmed speech, or the label when that is blank. */
  lemma AddedTileSpeaks(s: Session.Session, f: Fields, newId: Id, now: int)
    requires Trim(f.tileLabel) != "" && TruthyStr(s.currentCategoryId)
    requires HandleAddTile(s, f, newId, now).2.Some?
    ensures var b := HandleAddTile(s, f, newId, now).0.board.value;
      && newId in b.tiles
      && b.tiles[newId].labelText == Trim(f.tileLabel)
      && TileCell.SpokenText(b.tiles[newId]) == (if Trim(f.tileSpeech) != "" then Trim(f.tileSpeech) else Trim(f.tileLabel))
  {
  }

  /** `e.target.value || null`: an emptied speech field stores `null`. */
  function SpeechEdit(input: string): (r: Mutations.TilePatch)
    ensures r.speechText == Some(if input == "" then None else Some(input))
    ensures r.(speechText := None) == Mutations.NoTileChange
  {
    Mutations.NoTileChange.(speechText := Some(if input == "" then None else Some(input)))
  }

  /** After the speech field is emptied the tile speaks its label; otherwise it speaks the field. */
  lemma ClearedSpeechSpeaksLabel(t: Tile, input: string)
    ensures input == "" ==> TileCell.SpokenText(Mutations.PatchTile(t, SpeechEdit(input))) == t.labelText
    ensures input != "" ==> TileCell.SpokenText(Mutations.PatchTile(t, SpeechEdit(input))) == input
  {
  }

  // ------------------------------------------------------------ dragging

  /** `reorderCategories` in the store: ignored without a board or with nothing to move. */
  function ReorderCategoriesIn(s: Session.Session, from: int, to: int, now: int): (r: Session.Session)
    ensures s.board.None? ==> r == s
    ensures s.board.Some? ==> r == Session.Commit(s, Mutations.ReorderCategories(s.board.value, from, to, now))
  {
    if s.board.None? then s else Session.Commit(s, Mutations.ReorderCategories(s.board.value, from, to, now))
  }

  /**
   * `handleCategoryDragOver`: with no drag in progress, or over the dragged
   * row itself, nothing happens; otherwise the dragged category moves to the
   * hovered index and the drag follows it there.
   */
  function CategoryDragOver(s: Session.Session, drag: Option<int>, index: int, now: int): (r: (Session.Session, Option<int>))
    ensures drag.None? || drag == Some(index) ==> r == (s, drag)
    ensures drag.Some? && drag != Some(index) ==> r == (ReorderCategoriesIn(s, drag.value, index, now), Some(index))
  {
    if drag.None? || drag == Some(index) then (s, drag)
    else (ReorderCategoriesIn(s, drag.value, index, now), Some(index))
  }

  /**
   * Hovering `a` to `x` and then to `c` leaves the board a single hover from
   * `a` to `c` would have left, and the drag ends at `c` either way.
   */
  lemma CategoryDragChain(s: Session.Session, a: int, x: int, c: int, now1: int, now2: int)
    requires s.board.Some? && 0 <= a < |s.board.value.categoryIds| && 0 <= x < |s.board.value.categoryIds|
    requires a != x && x != c && a != c
    ensures var first := CategoryDragOver(s, Some(a), x, now1);
      var second := CategoryDragOver(first.0, first.1, c, now2);
      second == CategoryDragOver(s, Some(a), c, now2)
  {
    Mutations.ReorderCategoriesCompose(s.board.value, a, x, c, now1, now2);
  }

  /** `reorderTilesInCategory` in the store: ignored without a board, a category or anything to move. */
  function ReorderTilesIn(s: Session.Session, cid: Id, from: int, to: int, now: int): (r: Session.Session)
    ensures s.board.None? ==> r == s
    ensures s.board.Some? ==> r == Session.Commit(s, Mutations.ReorderTilesInCategory(s.board.value, cid, from, to, now))
  {
    if s.board.None? then s else Session.Commit(s, Mutations.ReorderTilesInCategory(s.board.value, cid, from, to, now))
  }

  /**
   * `handleTileDragOver`: as for categories, and additionally nothing
   * happens without a truthy current category.
   */
  function TileDragOver(s: Session.Session, drag: Option<int>, index: int, now: int): (r: (Session.Session, Option<int>))
    ensures drag.None? || drag == Some(index) || !TruthyStr(s.currentCategoryId) ==> r == (s, drag)
    ensures drag.Some? && drag != Some(index) && TruthyStr(s.currentCategoryId) ==>
      r == (ReorderTilesIn(s, s.currentCategoryId.value, drag.value, index, now), Some(index))
  {
    if drag.None? || !TruthyStr(s.currentCategoryId) || drag == Some(index) then (s, drag)
    else (ReorderTilesIn(s, s.currentCategoryId.value, drag.value, index, now), Some(index))
  }

  /** A drag that starts or ends leaves the store alone: only hovering moves anything. */
  lemma DragOverSelfIsIdle(s: Session.Session, i: int, now: int)
    ensures CategoryDragOver(s, Some(i), i, now) == (s, Some(i))
    ensures TileDragOver(s, Some(i), i, now) == (s, Some(i))
    ensures CategoryDragOver(s, None, i, now) == (s, None) && TileDragOver(s, None, i, now) == (s, None)
  {
  }
}
