/**
 * The speech hook of src/hooks/useSpeech.ts: refreshing the voice list, the
 * unavailable-voice notice, and what `speak` does with a text. Whether a
 * speech engine exists, whether the device is a touch device and whether
 * Piper manages to speak are parameters; audio itself is not modelled.
 */
module Speech {
  import opened Common
  import opened Voices
  import opened Piper
  import PickVoice

  /** The hook's voice state: the ranked list and whether any voice is installed. */
  datatype VoiceList = VoiceList(voices: seq<Voice>, ready: bool)

  /**
   * The notice condition: a truthy non-Piper preferred id, a non-empty
   * installed list, and no installed voice with that id.
   */
  predicate VoiceUnavailable(preferred: Option<string>, list: seq<Voice>)
    ensures VoiceUnavailable(preferred, list) <==>
      && TruthyStr(preferred) && !IsPiperVoiceId(preferred) && |list| > 0
      && forall i :: 0 <= i < |list| ==> list[i].voiceUri != preferred.value
  {
    TruthyStr(preferred) && !IsPiperVoiceId(preferred) && |list| > 0 && FindByUri(list, preferred.value).None?
  }

  /**
   * `refreshVoices`: the list ranked, readiness when it is non-empty, and
   * the id passed to `onVoiceUnavailable` when a handler is given and the
   * preferred voice is missing.
   */
  function RefreshVoices(list: seq<Voice>, preferred: Option<string>, hasHandler: bool): (r: (VoiceList, Option<string>))
    ensures r.0.voices == SortVoices(list)
    ensures r.0.ready <==> |list| > 0
    ensures r.1.Some? <==> hasHandler && VoiceUnavailable(preferred, list)
    ensures r.1.Some? ==> r.1 == preferred && !IsPiperVoiceId(preferred)
  {
    (VoiceList(SortVoices(list), |list| > 0),
     if hasHandler && VoiceUnavailable(preferred, list) then preferred else None)
  }

  /** What a call to `speak` hands to an engine. */
  datatype Utterance =
    | Silent
    | PiperSpeech(text: string, voiceId: string)
    | WebSpeech(text: string, lang: string, voice: Option<Voice>)

  /**
   * The voice `speak` sets on a Web Speech utterance: the preferred voice
   * when it is a truthy non-Piper id and voices are ranked (and none if it
   * is not installed); otherwise the installed match of the best-ranked voice.
   */
  function WebVoice(preferred: Option<string>, voices: seq<Voice>, all: seq<Voice>): (r: Option<Voice>)
    ensures r.Some? ==> r.value in all
    ensures |voices| == 0 ==> r.None?
    ensures PickVoice.WantsPreferred(preferred, IsPiperVoiceId, voices) ==>
      && (r.Some? <==> HasUri(all, preferred.value))
      && (r.Some? ==> r.value.voiceUri == preferred.value)
    ensures |voices| > 0 && !PickVoice.WantsPreferred(preferred, IsPiperVoiceId, voices) ==>
      && (r.Some? <==> HasUri(all, voices[0].voiceUri))
      && (r.Some? ==> r.value.voiceUri == voices[0].voiceUri)
  {
    if TruthyStr(preferred) && !IsPiperVoiceId(preferred) && |voices| > 0 then FindByUri(all, preferred.value)
    else if |voices| > 0 then FindByUri(all, voices[0].voiceUri)
    else None
  }

  /**
   * What `speak` does once the Piper voice id has been parsed from the
   * preferred id: a blank text or a missing engine says nothing; on a
   * non-touch device a Piper preferred id goes to Piper, and only if Piper
   * fails, or for any other id, to Web Speech with the trimmed text.
   */
  function SpeakWith(piperId: Option<string>, text: string, lang: string, preferred: Option<string>,
                     voices: seq<Voice>, all: seq<Voice>, hasSynth: bool, mobile: bool, piperOk: bool): Utterance
  {
    var t := Trim(text);
    if t == "" || !hasSynth then Silent
    else if !mobile && IsPiperVoiceId(preferred) && piperId.Some? && piperOk then PiperSpeech(t, piperId.value)
    else WebSpeech(t, lang, WebVoice(preferred, voices, all))
  }

  /**
   * `speak(text, lang)` as written: the Piper voice is the `slice(7)` parse
   * of `getPiperVoiceIdFromPreferred`, so a `piper:<voice>` id longer than
   * seven characters reaches Piper without the voice's first letter.
   */
  function Speak(text: string, lang: string, preferred: Option<string>, voices: seq<Voice>, all: seq<Voice>,
                 hasSynth: bool, mobile: bool, piperOk: bool): (r: Utterance)
    ensures Trim(text) == "" || !hasSynth ==> r == Silent
    ensures r.PiperSpeech? <==> Trim(text) != "" && hasSynth && !mobile && IsPiperVoiceId(preferred) && piperOk
    ensures r.PiperSpeech? ==> r.text == Trim(text) && r.voiceId == GetPiperVoiceIdFromPreferred(preferred).value
    ensures r.PiperSpeech? && |preferred.value| > 7 ==> r.voiceId == preferred.value[7..]
    ensures r.WebSpeech? ==> r.text == Trim(text) && r.text != "" && r.lang == lang && r.voice == WebVoice(preferred, voices, all)
  {
    SpeakWith(GetPiperVoiceIdFromPreferred(preferred), text, lang, preferred, voices, all, hasSynth, mobile, piperOk)
  }

  /** `speak` with the evidently intended parse: Piper receives the voice named after the prefix. */
  function SpeakCorrected(text: string, lang: string, preferred: Option<string>, voices: seq<Voice>, all: seq<Voice>,
                          hasSynth: bool, mobile: bool, piperOk: bool): (r: Utterance)
    ensures Trim(text) == "" || !hasSynth ==> r == Silent
    ensures r.PiperSpeech? <==> Trim(text) != "" && hasSynth && !mobile && IsPiperVoiceId(preferred) && piperOk
    ensures r.PiperSpeech? ==> r.text == Trim(text) && r.voiceId != ""
    ensures r.PiperSpeech? ==> PiperPrefix + r.voiceId == preferred.value || (preferred.value == PiperPrefix && r.voiceId == PiperVoiceId)
    ensures r.WebSpeech? ==> r.text == Trim(text) && r.text != "" && r.lang == lang && r.voice == WebVoice(preferred, voices, all)
  {
    SpeakWith(VoiceIdFromPreferred(preferred), text, lang, preferred, voices, all, hasSynth, mobile, piperOk)
  }

  /**
   * The two differ only in the Piper voice id. With the store's default
   * preferred id, `speak` as written asks Piper for "o_RO-mihai-medium",
   * a voice that does not exist, where the corrected one asks for the default voice.
   */
  lemma SpeakDefaultPiperVoice(text: string, lang: string, voices: seq<Voice>, all: seq<Voice>)
    requires Trim(text) != ""
    ensures Speak(text, lang, Some(PiperPreferredId), voices, all, true, false, true) == PiperSpeech(Trim(text), "o_RO-mihai-medium")
    ensures SpeakCorrected(text, lang, Some(PiperPreferredId), voices, all, true, false, true) == PiperSpeech(Trim(text), PiperVoiceId)
  {
    PreferredIdLosesFirstLetter();
    VoiceIdRoundTrip(PiperVoiceId);
  }

  /** Apart from the Piper voice id, the as-written and corrected `speak` hand over the same utterance. */
  lemma SpeakDiffersOnlyInPiperVoice(text: string, lang: string, preferred: Option<string>, voices: seq<Voice>,
                                     all: seq<Voice>, hasSynth: bool, mobile: bool, piperOk: bool)
    ensures var a, c := Speak(text, lang, preferred, voices, all, hasSynth, mobile, piperOk),
                        SpeakCorrected(text, lang, preferred, voices, all, hasSynth, mobile, piperOk);
      && (a.PiperSpeech? <==> c.PiperSpeech?)
      && (a.PiperSpeech? ==> a.text == c.text)
      && (!a.PiperSpeech? ==> a == c)
  {
    ParsesAgreeOnAcceptance(preferred);
  }

  /** A text of nothing but whitespace is never spoken; any other text is, given an engine. */
  lemma SpeakIgnoresBlank(text: string, lang: string, preferred: Option<string>, voices: seq<Voice>, all: seq<Voice>,
                          hasSynth: bool, mobile: bool, piperOk: bool)
    ensures Speak(text, lang, preferred, voices, all, hasSynth, mobile, piperOk).Silent? <==>
      !hasSynth || forall i :: 0 <= i < |text| ==> IsJsWhitespace(text[i])
  {
    TrimEmptyIffBlank(text);
  }

  /**
   * `speak` does not fall back: a wanted preferred voice that is not
   * installed leaves the utterance without a voice.
   */
  lemma NoFallbackForMissingPreferred(text: string, lang: string, preferred: Option<string>, voices: seq<Voice>,
                                      all: seq<Voice>, mobile: bool, piperOk: bool)
    requires Trim(text) != ""
    requires PickVoice.WantsPreferred(preferred, IsPiperVoiceId, voices) && !HasUri(all, preferred.value)
    ensures Speak(text, lang, preferred, voices, all, true, mobile, piperOk) == WebSpeech(Trim(text), lang, None)
  {
  }

  /**
   * The two voice rules agree except in one case: a wanted preferred voice
   * that is missing, where `speak` picks none and `pickVoiceForUtterance`
   * picks the best-ranked installed voice.
   */
  lemma SpeakAndPickVoiceDiffer(preferred: Option<string>, voices: seq<Voice>, all: seq<Voice>)
    ensures PickVoice.WantsPreferred(preferred, IsPiperVoiceId, voices) && !HasUri(all, preferred.value) ==>
      && WebVoice(preferred, voices, all).None?
      && PickVoice.PickVoiceForUtterance(preferred, IsPiperVoiceId, voices, all) == FindByUri(all, voices[0].voiceUri)
    ensures !(PickVoice.WantsPreferred(preferred, IsPiperVoiceId, voices) && !HasUri(all, preferred.value)) ==>
      WebVoice(preferred, voices, all) == PickVoice.PickVoiceForUtterance(preferred, IsPiperVoiceId, voices, all)
  {
  }
}
