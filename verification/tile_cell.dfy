/**
 * The decisions a tile cell makes (src/components/TileCell.tsx:23-33): what
 * it speaks, what it shows, whether it is tinted, and what a click does.
 */
module TileCell {
  import opened Common
  import opened Types

  /** `speechText ?? label`: a present speech text is spoken even when empty. */
  function SpokenText(t: Tile): (r: string)
    ensures t.speechText.None? ==> r == t.labelText
    ensures t.speechText.Some? ==> r == t.speechText.value
  {
    t.speechText.GetOr(t.labelText)
  }

  datatype Visual = ImageVisual(url: string) | IconVisual(icon: string) | DefaultVisual

  /** The picture: the image if there is one, else the icon, else the default. */
  function VisualOf(t: Tile): (r: Visual)
    ensures r.ImageVisual? <==> TruthyStr(t.imageUrl)
    ensures r.IconVisual? <==> !TruthyStr(t.imageUrl) && TruthyStr(t.icon)
    ensures r.ImageVisual? ==> t.imageUrl == Some(r.url)
    ensures r.IconVisual? ==> t.icon == Some(r.icon)
  {
    if TruthyStr(t.imageUrl) then ImageVisual(t.imageUrl.value)
    else if TruthyStr(t.icon) then IconVisual(t.icon.value)
    else DefaultVisual
  }

  /** The background colour: the tile's colour when it is set and non-empty. */
  function Background(t: Tile): (r: Option<string>)
    ensures r.Some? <==> TruthyStr(t.color)
    ensures r.Some? ==> t.color == r
  {
    if TruthyStr(t.color) then t.color else None
  }

  datatype ClickAction = AddToSentence(tile: Tile) | Tap(tile: Tile)

  /**
   * A click adds the tile to the sentence when the strip is shown and an
   * add handler is given, and taps it otherwise; either way it passes the
   * clicked tile.
   */
  function Click(t: Tile, showSentenceStrip: bool, hasAddHandler: bool): (r: ClickAction)
    ensures r.AddToSentence? <==> showSentenceStrip && hasAddHandler
    ensures r.tile == t
  {
    if showSentenceStrip && hasAddHandler then AddToSentence(t) else Tap(t)
  }

  /**
   * Clearing the speech text (the editor writes `null`) makes the tile speak
   * its label, and an image hides the icon whatever the icon is.
   */
  lemma FallbacksAgree(t: Tile, url: string)
    requires url != ""
    ensures SpokenText(t.(speechText := None)) == t.labelText
    ensures VisualOf(t.(imageUrl := Some(url))) == ImageVisual(url)
    ensures TruthyStr(t.icon) && !TruthyStr(t.imageUrl) ==> VisualOf(t) == IconVisual(t.icon.value)
  {
  }
}
