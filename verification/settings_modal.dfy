/** The voice settings: the region name shown for a voice's language tag, the
    throttled refresh of the Arabic voice list, and the test-voice toggle. */
module SettingsModal {
  import opened Wrappers
  import opened Text
  import opened Audio

  /** The country names of the Arabic-speaking regions, by upper-case code. */
  const Regions: map<string, string> := map[
    "SA" := "Saudi Arabia", "EG" := "Egypt", "AE" := "UAE", "QA" := "Qatar",
    "JO" := "Jordan", "LB" := "Lebanon", "KW" := "Kuwait", "MA" := "Morocco",
    "DZ" := "Algeria", "TN" := "Tunisia", "OM" := "Oman", "IQ" := "Iraq",
    "BH" := "Bahrain", "LY" := "Libya", "SY" := "Syria", "YE" := "Yemen"
  ]

  /** The region part of a language tag: the piece after the first separator,
      once the first '_' reads as '-'. */
  function RegionCode(lang: string): Option<string> {
    var parts := Split(ReplaceFirst(lang, '_', '-'), '-');
    if |parts| > 1 then Some(parts[1]) else None
  }

  /** `getRegionName`: "General" without a region code, the country name for
      a known code (in any letter case), otherwise the code in upper case. */
  function RegionName(lang: string): string {
    match RegionCode(lang)
    case None => "General"
    case Some(code) =>
      if code == "" then "General"
      else if Upper(code) in Regions then Regions[Upper(code)]
      else Upper(code)
  }

  /** Upper-casing leaves no lower-case ASCII letter behind. */
  lemma UpperHasNoLower(s: string, i: nat)
    requires i < |Upper(s)|
    ensures !('a' <= Upper(s)[i] <= 'z')
  {
  }

  /** The name is "General" exactly when the tag has no region code (or an
      empty one); a known code gives its country, any other code itself in
      upper case. */
  lemma RegionNameSpec(lang: string)
    ensures RegionName(lang) == "General" <==> RegionCode(lang).None? || RegionCode(lang).value == ""
    ensures RegionCode(lang).Some? && RegionCode(lang).value != "" ==>
      var code := Upper(RegionCode(lang).value);
      RegionName(lang) == if code in Regions then Regions[code] else code
  {
    match RegionCode(lang)
    case None =>
    case Some(code) =>
      if code != "" {
        var u := Upper(code);
        if u !in Regions && |u| >= 2 {
          UpperHasNoLower(code, 1);
          assert u[1] != "General"[1];
        }
        assert "General" !in Regions.Values;
      }
  }

  /** Letter case of the region code does not matter. */
  lemma RegionNameIgnoresCase(a: string, b: string)
    requires RegionCode(a).Some? && RegionCode(b).Some?
    requires Upper(RegionCode(a).value) == Upper(RegionCode(b).value)
    ensures RegionName(a) == RegionName(b)
  {
    if RegionCode(a).value == "" || RegionCode(b).value == "" {
      assert |Upper(RegionCode(a).value)| == |RegionCode(a).value|;
    }
  }

  /** The shortest gap between two accepted voice-list refreshes. */
  const ThrottleMs: int := 500

  /** The state of the settings dialog that its handlers change: the time of
      the last accepted refresh, the voice list shown, whether the dialog is
      still mounted, and the voice being test-played. */
  class VoiceSettings {
    var lastUpdate: int
    var voices: seq<Voice>
    var mounted: bool
    var playingVoiceURI: Option<string>

    constructor ()
      ensures lastUpdate == 0 && voices == [] && mounted && playingVoiceURI == None
    {
      lastUpdate := 0;
      voices := [];
      mounted := true;
      playingVoiceURI := None;
    }

    /** `updateVoices` at `now`, over the voices the browser lists: ignored
        once unmounted or within 500 ms of the last accepted refresh; otherwise
        accepted, keeping the old list when it is non-empty and as long as the
        new one. */
    method UpdateVoices(now: int, listed: seq<Voice>, speechSupported: bool)
      modifies this`lastUpdate, this`voices
      ensures !mounted || now - old(lastUpdate) < ThrottleMs ==>
        lastUpdate == old(lastUpdate) && voices == old(voices)
      ensures mounted && now - old(lastUpdate) >= ThrottleMs ==>
        var available := AvailableArabicVoices(listed, speechSupported);
        && lastUpdate == now
        && voices == if |old(voices)| == |available| && |old(voices)| > 0 then old(voices) else available
    {
      if !mounted {
        return;
      }
      if now - lastUpdate < ThrottleMs {
        return;
      }
      lastUpdate := now;
      var available := AvailableArabicVoices(listed, speechSupported);
      if |voices| == |available| && |voices| > 0 {
        return;
      }
      voices := available;
    }

    /** The effect's cleanup. */
    method Unmount()
      modifies this`mounted
      ensures !mounted
    {
      mounted := false;
    }

    /** `handleTestVoice`: pressing the voice that is playing stops it;
        pressing any other voice makes it the one playing. `started` says
        whether a sample is spoken. */
    method TestVoice(voiceURI: string) returns (started: bool)
      modifies this`playingVoiceURI
      ensures old(playingVoiceURI) == Some(voiceURI) ==> playingVoiceURI == None && !started
      ensures old(playingVoiceURI) != Some(voiceURI) ==> playingVoiceURI == Some(voiceURI) && started
    {
      if playingVoiceURI == Some(voiceURI) {
        playingVoiceURI := None;
        return false;
      }
      playingVoiceURI := Some(voiceURI);
      return true;
    }

    /** The end callback of a sample: it clears the playing voice only if that
        voice is still the one playing. */
    method SampleEnded(voiceURI: string)
      modifies this`playingVoiceURI
      ensures playingVoiceURI == if old(playingVoiceURI) == Some(voiceURI) then None else old(playingVoiceURI)
    {
      if playingVoiceURI == Some(voiceURI) {
        playingVoiceURI := None;
      }
    }
  }
}
