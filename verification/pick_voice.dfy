/**
 * `pickVoiceForUtterance` (src/lib/pickVoice.ts:14-23): the native voice to
 * put on an utterance, or none for the platform default.
 */
module PickVoice {
  import opened Common
  import opened Voices

  /** The preferred id is a truthy non-Piper id and there are ranked voices. */
  predicate WantsPreferred(preferred: Option<string>, isPiper: Option<string> -> bool, sorted: seq<Voice>) {
    TruthyStr(preferred) && !isPiper(preferred) && |sorted| > 0
  }

  /**
   * The preferred voice when it is wanted and installed; otherwise the
   * installed voice matching the best-ranked one. Nothing is picked when no
   * voices are ranked, even if the preferred one is installed.
   */
  function PickVoiceForUtterance(preferred: Option<string>, isPiper: Option<string> -> bool,
                                 sorted: seq<Voice>, all: seq<Voice>): (r: Option<Voice>)
    ensures r.Some? ==> r.value in all
    ensures |sorted| == 0 ==> r.None?
    ensures WantsPreferred(preferred, isPiper, sorted) && HasUri(all, preferred.value) ==>
      r.Some? && r.value.voiceUri == preferred.value
    ensures |sorted| > 0 && !(WantsPreferred(preferred, isPiper, sorted) && HasUri(all, preferred.value)) ==>
      && (r.Some? <==> HasUri(all, sorted[0].voiceUri))
      && (r.Some? ==> r.value.voiceUri == sorted[0].voiceUri)
  {
    var wanted := if WantsPreferred(preferred, isPiper, sorted) then FindByUri(all, preferred.value) else None;
    if wanted.Some? then wanted
    else if |sorted| == 0 then None
    else FindByUri(all, sorted[0].voiceUri)
  }

  /** The fallback: a missing preferred voice yields the best-ranked installed voice. */
  lemma MissingPreferredFallsBack(preferred: Option<string>, isPiper: Option<string> -> bool,
                                  sorted: seq<Voice>, all: seq<Voice>)
    requires WantsPreferred(preferred, isPiper, sorted) && !HasUri(all, preferred.value)
    requires sorted[0] in all
    ensures PickVoiceForUtterance(preferred, isPiper, sorted, all).Some?
    ensures PickVoiceForUtterance(preferred, isPiper, sorted, all).value.voiceUri == sorted[0].voiceUri
  {
    var k :| 0 <= k < |all| && all[k] == sorted[0];
  }
}
