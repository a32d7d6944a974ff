/**
 * The board screen's logic (src/components/BoardView.tsx:39-78): the grid
 * width, the category list, whether navigation is locked, and what a tap or
 * a click on a tile does to the store.
 */
module BoardView {
  import opened Common
  import opened Types
  import TileCell
  import Session

  /** `Math.min(4, Math.max(2, columns ?? 3))`. */
  function DisplayColumns(columns: Option<int>): (r: int)
    ensures 2 <= r <= 4
    ensures columns.None? ==> r == 3
    ensures columns.Some? && 2 <= columns.value <= 4 ==> r == columns.value
    ensures columns.Some? && columns.value < 2 ==> r == 2
    ensures columns.Some? && columns.value > 4 ==> r == 4
  {
    var c := columns.GetOr(3);
    if c < 2 then 2 else if c > 4 then 4 else c
  }

  /**
   * Of the editor's column values 1..6 the screen draws exactly 2, 3 and 4
   * as they are; the others are drawn as the nearest of those.
   */
  lemma EditorColumnsClamped(c: int)
    requires 1 <= c <= 6
    ensures DisplayColumns(Some(c)) == c <==> 2 <= c <= 4
    ensures DisplayColumns(Some(c)) != c ==> DisplayColumns(Some(c)) == (if c < 2 then 2 else 4)
  {
  }

  /** The navigation list: one entry per listed id, in order, `None` where the id has no category. */
  function NavList(b: Option<Board>): (r: seq<Option<Category>>)
    ensures b.None? ==> r == []
    ensures b.Some? ==> |r| == |b.value.categoryIds|
    ensures b.Some? ==> forall i :: 0 <= i < |r| ==>
      (r[i].Some? <==> b.value.categoryIds[i] in b.value.categories)
      && (r[i].Some? ==> r[i].value == b.value.categories[b.value.categoryIds[i]])
  {
    if b.None? then []
    else
      var ids := b.value.categoryIds;
      seq(|ids|, i requires 0 <= i < |ids| =>
        if ids[i] in b.value.categories then Some(b.value.categories[ids[i]]) else None)
  }

  /** With every listed category present, the list has no gaps. */
  lemma NavListComplete(b: Board)
    requires CategoriesResolve(b)
    ensures forall i :: 0 <= i < |NavList(Some(b))| ==> NavList(Some(b))[i].Some?
  {
  }

  /** Category navigation is locked in child mode with the lock-nav setting on. */
  predicate NavDisabled(s: Session.Session) {
    !s.isCaregiverMode && s.lockNavInChildMode
  }

  /** Entering caregiver mode always unlocks navigation; leaving it relocks it when the setting is on. */
  lemma CaregiverUnlocksNav(s: Session.Session, pin: Option<string>)
    ensures Session.EnterCaregiverMode(s, pin).1 ==> !NavDisabled(Session.EnterCaregiverMode(s, pin).0)
    ensures NavDisabled(Session.ExitCaregiverMode(s)) <==> s.lockNavInChildMode
  {
  }

  /** A tap speaks the tile's spoken text and records it as the last utterance. */
  function TapTile(s: Session.Session, t: Tile): (r: (Session.Session, string))
    ensures r.1 == TileCell.SpokenText(t) && r.0.lastUtterance == r.1
    ensures r.0.(lastUtterance := s.lastUtterance) == s
  {
    var text := TileCell.SpokenText(t);
    (s.(lastUtterance := text), text)
  }

  /** Speaking the sentence records it as the last utterance. */
  function SpeakSentenceIn(s: Session.Session, text: string): (r: Session.Session)
    ensures r.lastUtterance == text && r.(lastUtterance := s.lastUtterance) == s
  {
    s.(lastUtterance := text)
  }

  /**
   * A click on a grid tile: the board passes the add handler exactly in
   * sentence mode, so the tile goes on the strip in sentence mode and is
   * spoken otherwise.
   */
  function ClickTile(s: Session.Session, t: Tile): (r: Session.Session)
    ensures s.sentenceMode ==> r == Session.AppendToSentence(s, t.id)
    ensures !s.sentenceMode ==> r == TapTile(s, t).0
  {
    match TileCell.Click(t, s.sentenceMode, s.sentenceMode)
    case AddToSentence(x) => Session.AppendToSentence(s, x.id)
    case Tap(x) => TapTile(s, x).0
  }
}
