/**
 * The sentence strip's composition (src/components/SentenceStrip.tsx:16-31):
 * the labels shown and the words spoken for the ids on the strip, looked up
 * through the board's tile map.
 */
module SentenceStrip {
  import opened Common
  import opened Types
  import TileCell

  /** The labels shown and the pieces spoken, one each per resolving id. */
  datatype Composed = Composed(labels: seq<string>, pieces: seq<string>)

  /** One id in front of an already composed rest: its tile's label and piece, when it has a tile. */
  function ComposeStep(id: Id, rest: Composed, tiles: map<Id, Tile>): Composed {
    if id in tiles then Composed([tiles[id].labelText] + rest.labels, [TileCell.SpokenText(tiles[id])] + rest.pieces)
    else rest
  }

  /** The strip walked in order; ids without a tile are skipped. */
  function Compose(ids: seq<Id>, tiles: map<Id, Tile>): (r: Composed)
    ensures |r.labels| == |r.pieces| == |Resolving(ids, tiles)|
  {
    if |ids| == 0 then Composed([], []) else ComposeStep(ids[0], Compose(ids[1..], tiles), tiles)
  }

  /**
   * Composition is the strip's resolved tiles read one by one: the `i`-th
   * label is the `i`-th resolved tile's label, and the `i`-th piece is what
   * that tile speaks when tapped.
   */
  lemma {:induction false} ComposeReadsResolved(ids: seq<Id>, tiles: map<Id, Tile>)
    ensures |Compose(ids, tiles).labels| == |Resolve(ids, tiles)|
    ensures forall i :: 0 <= i < |Resolve(ids, tiles)| ==>
      && Compose(ids, tiles).labels[i] == Resolve(ids, tiles)[i].labelText
      && Compose(ids, tiles).pieces[i] == TileCell.SpokenText(Resolve(ids, tiles)[i])
  {
    if |ids| > 0 {
      ComposeReadsResolved(ids[1..], tiles);
      var rest, rr := Compose(ids[1..], tiles), Resolve(ids[1..], tiles);
      if ids[0] in tiles {
        var t := tiles[ids[0]];
        var c, r := Compose(ids, tiles), Resolve(ids, tiles);
        assert r == [t] + rr;
        assert c == Composed([t.labelText] + rest.labels, [TileCell.SpokenText(t)] + rest.pieces);
        forall i | 0 <= i < |r|
          ensures c.labels[i] == r[i].labelText && c.pieces[i] == TileCell.SpokenText(r[i])
        {
          if i > 0 {
            assert r[i] == rr[i - 1];
            assert c.labels[i] == rest.labels[i - 1] && c.pieces[i] == rest.pieces[i - 1];
          }
        }
      } else {
        assert Resolve(ids, tiles) == rr && Compose(ids, tiles) == rest;
      }
    }
  }

  /** Appending an id with no tile changes nothing; appending one with a tile adds its label and piece at the end. */
  lemma {:induction false} ComposeAppend(ids: seq<Id>, x: Id, tiles: map<Id, Tile>)
    ensures x !in tiles ==> Compose(ids + [x], tiles) == Compose(ids, tiles)
    ensures x in tiles ==>
      Compose(ids + [x], tiles) ==
      Composed(Compose(ids, tiles).labels + [tiles[x].labelText], Compose(ids, tiles).pieces + [TileCell.SpokenText(tiles[x])])
  {
    if |ids| == 0 {
      assert ids + [x] == [x];
      assert [x][1..] == [];
    } else {
      var longer := ids + [x];
      assert longer[0] == ids[0];
      assert longer[1..] == ids[1..] + [x];
      assert Compose(longer, tiles) == ComposeStep(ids[0], Compose(ids[1..] + [x], tiles), tiles);
      assert Compose(ids, tiles) == ComposeStep(ids[0], Compose(ids[1..], tiles), tiles);
      ComposeAppend(ids[1..], x, tiles);
      if x in tiles {
        StepThenAppend(ids[0], Compose(ids[1..], tiles), tiles[x].labelText, TileCell.SpokenText(tiles[x]), tiles);
      }
    }
  }

  /** A step in front commutes with adding a label and a piece at the back. */
  lemma StepThenAppend(id: Id, rest: Composed, labelText: string, piece: string, tiles: map<Id, Tile>)
    ensures ComposeStep(id, Composed(rest.labels + [labelText], rest.pieces + [piece]), tiles)
      == Composed(ComposeStep(id, rest, tiles).labels + [labelText], ComposeStep(id, rest, tiles).pieces + [piece])
  {
    if id in tiles {
      assert [tiles[id].labelText] + (rest.labels + [labelText]) == ([tiles[id].labelText] + rest.labels) + [labelText];
      assert [TileCell.SpokenText(tiles[id])] + (rest.pieces + [piece]) == ([TileCell.SpokenText(tiles[id])] + rest.pieces) + [piece];
    }
  }

  /** The sentence: the pieces joined by single spaces. */
  function SentenceText(ids: seq<Id>, tiles: map<Id, Tile>): (r: string)
    ensures |Compose(ids, tiles).pieces| == 0 ==> r == ""
    ensures |Compose(ids, tiles).pieces| > 0 ==>
      |r| == SumLengths(Compose(ids, tiles).pieces) + |Compose(ids, tiles).pieces| - 1
  {
    Join(Compose(ids, tiles).pieces, " ")
  }

  /**
   * Tapping one more tile onto the strip: an id that does not resolve leaves
   * the sentence as it was; a resolving one appends a space and the tile's
   * spoken text, or is the whole sentence when nothing before it resolves.
   */
  lemma SentenceAppend(ids: seq<Id>, x: Id, tiles: map<Id, Tile>)
    ensures x !in tiles ==> SentenceText(ids + [x], tiles) == SentenceText(ids, tiles)
    ensures x in tiles && |Compose(ids, tiles).pieces| == 0 ==>
      SentenceText(ids + [x], tiles) == TileCell.SpokenText(tiles[x])
    ensures x in tiles && |Compose(ids, tiles).pieces| > 0 ==>
      SentenceText(ids + [x], tiles) == SentenceText(ids, tiles) + " " + TileCell.SpokenText(tiles[x])
  {
    ComposeAppend(ids, x, tiles);
    if x in tiles {
      JoinAppend(Compose(ids, tiles).pieces, TileCell.SpokenText(tiles[x]), " ");
    }
  }

  /** The speak button hands over the sentence only when it is non-empty. */
  function SpeakSentence(ids: seq<Id>, tiles: map<Id, Tile>): (r: Option<string>)
    ensures r.Some? <==> SentenceText(ids, tiles) != ""
    ensures r.Some? ==> r.value == SentenceText(ids, tiles)
  {
    var text := SentenceText(ids, tiles);
    if text != "" then Some(text) else None
  }

  /** The strip is drawn whenever it holds ids, resolving or not. */
  predicate Renders(ids: seq<Id>) {
    |ids| > 0
  }

  /** A strip of ids none of which resolves is drawn but speaks nothing. */
  lemma DanglingStripIsSilent(ids: seq<Id>, tiles: map<Id, Tile>)
    requires |ids| > 0 && forall i :: 0 <= i < |ids| ==> ids[i] !in tiles
    ensures Renders(ids) && SpeakSentence(ids, tiles).None?
  {
    NothingResolves(ids, tiles);
  }

  lemma {:induction false} NothingResolves(ids: seq<Id>, tiles: map<Id, Tile>)
    requires forall i :: 0 <= i < |ids| ==> ids[i] !in tiles
    ensures Compose(ids, tiles) == Composed([], [])
  {
    if |ids| > 0 {
      NothingResolves(ids[1..], tiles);
    }
  }

  /** A strip holding one tile speaks exactly what tapping that tile speaks. */
  lemma SingleTileSentence(x: Id, tiles: map<Id, Tile>)
    requires x in tiles
    ensures SentenceText([x], tiles) == TileCell.SpokenText(tiles[x])
  {
    assert [x][1..] == [];
  }
}
