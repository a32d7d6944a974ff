/**
 * Piper voice ids (src/lib/piperTts.ts:8-21). A preferred voice id naming
 * the in-browser Piper engine has the form `piper:<voice>`; the loader and
 * the audio playback are not part of this model.
 */
module Piper {
  import opened Common

  const PiperVoiceId: string := "ro_RO-mihai-medium"
  const PiperPrefix: string := "piper:"
  const PiperPreferredId: string := PiperPrefix + PiperVoiceId

  /** `isPiperVoiceId`: the preferred id itself, or any truthy id starting with the prefix. */
  predicate IsPiperVoiceId(id: Option<string>)
    ensures IsPiperVoiceId(id) <==> id.Some? && StartsWith(id.value, PiperPrefix)
  {
    id == Some(PiperPreferredId) || (TruthyStr(id) && StartsWith(id.value, PiperPrefix))
  }

  /** `s.slice(n)` for a non-negative `n`: everything after the first `n` characters, or nothing. */
  function SliceFrom(s: string, n: nat): (r: string)
    ensures n <= |s| ==> r == s[n..]
    ensures n >= |s| ==> r == ""
  {
    if n <= |s| then s[n..] else ""
  }

  /**
   * `getPiperVoiceIdFromPreferred` as written: drops seven characters, one
   * more than the six of the prefix, and falls back to the default voice
   * when nothing is left.
   */
  function GetPiperVoiceIdFromPreferred(preferred: Option<string>): (r: Option<string>)
    ensures r.Some? <==> IsPiperVoiceId(preferred)
    ensures r.Some? ==> r.value != ""
    ensures r.Some? && |preferred.value| > 7 ==> r.value == preferred.value[7..]
    ensures r.Some? && |preferred.value| <= 7 ==> r.value == PiperVoiceId
  {
    if !TruthyStr(preferred) || !StartsWith(preferred.value, PiperPrefix) then None
    else
      var rest := SliceFrom(preferred.value, 7);
      Some(if rest == "" then PiperVoiceId else rest)
  }

  /**
   * The discrepancy: the store's own default preferred id names a voice that
   * does not exist, having lost its first letter.
   */
  lemma PreferredIdLosesFirstLetter()
    ensures GetPiperVoiceIdFromPreferred(Some(PiperPreferredId)) == Some("o_RO-mihai-medium")
    ensures GetPiperVoiceIdFromPreferred(Some(PiperPreferredId)) != Some(PiperVoiceId)
  {
    assert PiperPreferredId[7..] == "o_RO-mihai-medium";
  }

  /** The evidently intended parse: drop exactly the prefix. */
  function VoiceIdFromPreferred(preferred: Option<string>): (r: Option<string>)
    ensures r.Some? <==> IsPiperVoiceId(preferred)
    ensures r.Some? ==> r.value != ""
    ensures r.Some? ==> PiperPrefix + r.value == preferred.value || (preferred.value == PiperPrefix && r.value == PiperVoiceId)
  {
    if !TruthyStr(preferred) || !StartsWith(preferred.value, PiperPrefix) then None
    else
      var rest := SliceFrom(preferred.value, |PiperPrefix|);
      assert preferred.value == PiperPrefix + rest;
      Some(if rest == "" then PiperVoiceId else rest)
  }

  /**
   * The corrected parse inverts the prefixing of every non-empty voice name,
   * the default preferred id included; the bare prefix means the default voice.
   */
  lemma VoiceIdRoundTrip(voice: string)
    requires voice != ""
    ensures VoiceIdFromPreferred(Some(PiperPrefix + voice)) == Some(voice)
    ensures VoiceIdFromPreferred(Some(PiperPreferredId)) == Some(PiperVoiceId)
    ensures VoiceIdFromPreferred(Some(PiperPrefix)) == Some(PiperVoiceId)
  {
    assert (PiperPrefix + voice)[..|PiperPrefix|] == PiperPrefix;
    assert (PiperPrefix + voice)[|PiperPrefix|..] == voice;
    assert PiperPreferredId[..|PiperPrefix|] == PiperPrefix;
    assert PiperPreferredId[|PiperPrefix|..] == PiperVoiceId;
  }

  /** Both parses accept the same ids, so the choice of engine does not depend on the bug. */
  lemma ParsesAgreeOnAcceptance(preferred: Option<string>)
    ensures GetPiperVoiceIdFromPreferred(preferred).Some? <==> VoiceIdFromPreferred(preferred).Some?
  {
  }
}
