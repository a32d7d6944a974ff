/**
 * The Web Speech voices of src/hooks/useSpeech.ts:14-49: the voice record,
 * the preference score and the ranking `sortVoices` produces.
 */
module Voices {
  import opened Common
  import Sorting

  /** `SpeechVoice`: the fields the app copies from a `SpeechSynthesisVoice`. */
  datatype Voice = Voice(isDefault: bool, lang: string, localService: bool, name: string, voiceUri: string)

  /** Some voice in `s` has this URI. */
  ghost predicate HasUri(s: seq<Voice>, uri: string) {
    exists i :: 0 <= i < |s| && s[i].voiceUri == uri
  }

  /** `s.findIndex(v => v.voiceURI === uri)`: the first index with that URI, or -1. */
  function FindIndex(s: seq<Voice>, uri: string): (r: int)
    ensures -1 <= r < |s|
    ensures r >= 0 ==> s[r].voiceUri == uri && forall j :: 0 <= j < r ==> s[j].voiceUri != uri
    ensures r == -1 ==> forall j :: 0 <= j < |s| ==> s[j].voiceUri != uri
  {
    if |s| == 0 then -1
    else if s[0].voiceUri == uri then 0
    else
      var k := FindIndex(s[1..], uri);
      if k == -1 then -1 else k + 1
  }

  /** `s.find(v => v.voiceURI === uri)`: the first voice with that URI. */
  function FindByUri(s: seq<Voice>, uri: string): (r: Option<Voice>)
    ensures r.None? <==> !HasUri(s, uri)
    ensures r.Some? ==> r.value in s && r.value.voiceUri == uri
    ensures r.Some? ==> exists i :: 0 <= i < |s| && s[i] == r.value && forall j :: 0 <= j < i ==> s[j].voiceUri != uri
  {
    var k := FindIndex(s, uri);
    if k == -1 then None else Some(s[k])
  }

  /** The language tag starts with `ro`. */
  predicate IsRomanian(v: Voice) {
    StartsWith(v.lang, "ro")
  }

  /** The bonus for the lower-cased name containing any of the words. */
  function NameBonus(n: string, words: seq<string>, bonus: nat): (r: nat)
    ensures r == 0 || r == bonus
    ensures r == bonus && bonus > 0 <==> bonus > 0 && exists i :: 0 <= i < |words| && Contains(n, words[i])
  {
    if exists i :: 0 <= i < |words| && Contains(n, words[i]) then bonus else 0
  }

  /**
   * The preference score: Romanian 1000, the platform default 500, a local
   * voice 200, and 150, 100, 80 and 50 for the name hinting at a natural
   * voice (Siri, Ioana or enhanced; Google; Microsoft or natural; online or
   * premium). A Romanian voice therefore always scores at least 1000 and any
   * other at most 1080.
   */
  function Score(v: Voice): (r: int)
    ensures 0 <= r <= 2080
    ensures IsRomanian(v) ==> 1000 <= r
    ensures !IsRomanian(v) ==> r <= 1080
  {
    var n := ToLowerAscii(v.name);
    (if IsRomanian(v) then 1000 else 0)
    + (if v.isDefault then 500 else 0)
    + (if v.localService then 200 else 0)
    + NameBonus(n, ["siri", "ioana", "enhanced"], 150)
    + NameBonus(n, ["google"], 100)
    + NameBonus(n, ["microsoft", "natural"], 80)
    + NameBonus(n, ["online", "premium"], 50)
  }

  /** The ascending sort key whose order is descending score. */
  function NegScore(v: Voice): int {
    -Score(v)
  }

  /**
   * `sortVoices`: a copy of the list (the input is a value and so stays as
   * it was) ordered by descending score, voices of equal score keeping
   * their relative order, as the stable `Array.prototype.sort` of ECMA-262
   * 10th edition (section 22.1.3.27) guarantees.
   */
  function SortVoices(voices: seq<Voice>): (r: seq<Voice>)
    ensures |r| == |voices| && multiset(r) == multiset(voices)
    ensures forall i, j :: 0 <= i < j < |r| ==> Score(r[i]) >= Score(r[j])
    ensures Sorting.StableFor(voices, r, NegScore)
  {
    var r := Sorting.SortBy(voices, NegScore);
    assert forall i, j :: 0 <= i < j < |r| ==> NegScore(r[i]) <= NegScore(r[j]);
    r
  }

  /**
   * The language alone is worth exactly 1000 points, so of two voices that
   * differ only in language the Romanian one is ranked first.
   */
  lemma RomanianRanksFirst(voices: seq<Voice>, ro: Voice, other: Voice)
    requires IsRomanian(ro) && !IsRomanian(other)
    requires ro.(lang := other.lang) == other
    ensures Score(ro) == Score(other) + 1000
    ensures var r := SortVoices(voices);
      forall i, j :: 0 <= i < |r| && 0 <= j < |r| && r[i] == ro && r[j] == other ==> i < j
  {
    var r := SortVoices(voices);
    forall i, j | 0 <= i < |r| && 0 <= j < |r| && r[i] == ro && r[j] == other
      ensures i < j
    {
      if j <= i {
        assert false;
      }
    }
  }

  /** A ranked list is ranked again unchanged. */
  lemma SortVoicesIdempotent(voices: seq<Voice>)
    ensures SortVoices(SortVoices(voices)) == SortVoices(voices)
  {
    Sorting.SortIdempotent(voices, NegScore);
  }
}
