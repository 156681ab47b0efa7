/** Speech-voice selection, the text handed to speech synthesis, and the
    background alarm: a self-rescheduling double beep on the audio clock. */
module Audio {
  import opened Wrappers
  import opened Text
  import opened Seqs

  /** A speech-synthesis voice as the browser lists it. */
  datatype Voice = Voice(voiceURI: string, name: string, lang: string)

  /** A character of the Unicode Arabic block, U+0600 to U+06FF. */
  predicate IsArabicChar(c: char) {
    '\U{600}' <= c <= '\U{6FF}'
  }

  /** Some character of `s` is in the Arabic block. */
  predicate HasArabicChar(s: string) {
    exists i :: 0 <= i < |s| && IsArabicChar(s[i])
  }

  /** The test `getAvailableArabicVoices` applies to each voice. */
  predicate IsArabicVoice(v: Voice) {
    var lang := ReplaceFirst(Lower(v.lang), '_', '-');
    var name := Lower(v.name);
    if StartsWith(lang, "ar") then true
    else if Contains(name, "arabic") || Contains(name, "arab") then true
    else HasArabicChar(name)
  }

  /** `getAvailableArabicVoices`: the Arabic voices among those listed, or none
      when speech synthesis is missing. */
  function AvailableArabicVoices(voices: seq<Voice>, speechSupported: bool): seq<Voice> {
    if speechSupported then Filter(voices, IsArabicVoice) else []
  }

  /** Replacing the first '_' by '-' never changes whether a string starts with "ar". */
  lemma ReplaceUnderscoreKeepsArPrefix(s: string)
    ensures StartsWith(ReplaceFirst(s, '_', '-'), "ar") <==> StartsWith(s, "ar")
  {
    if '_' in s {
      var i := IndexOf(s, '_');
      var t := s[..i] + ['-'] + s[i + 1..];
      assert |t| == |s|;
      if i >= 2 {
        assert t[..2] == s[..2];
      } else {
        assert t[i] == '-' && s[i] == '_';
        assert "ar"[i] != '-' && "ar"[i] != '_';
      }
    }
  }

  /** Lower-casing leaves the characters of the Arabic block alone. */
  lemma LowerKeepsArabicChars(s: string)
    ensures HasArabicChar(Lower(s)) <==> HasArabicChar(s)
  {
    if HasArabicChar(s) {
      var i :| 0 <= i < |s| && IsArabicChar(s[i]);
      assert Lower(s)[i] == s[i];
    }
    if HasArabicChar(Lower(s)) {
      var i :| 0 <= i < |Lower(s)| && IsArabicChar(Lower(s)[i]);
      assert Lower(s)[i] == s[i];
    }
  }

  /** A voice counts as Arabic exactly when its lower-cased language tag starts
      with "ar", its lower-cased name contains "arab", or its name has a
      character of the Arabic block. */
  lemma ArabicVoiceIff(v: Voice)
    ensures IsArabicVoice(v) <==>
      || StartsWith(Lower(v.lang), "ar")
      || Contains(Lower(v.name), "arab")
      || HasArabicChar(v.name)
  {
    ReplaceUnderscoreKeepsArPrefix(Lower(v.lang));
    LowerKeepsArabicChars(v.name);
    if Contains(Lower(v.name), "arabic") {
      assert "arabic" == "arab" + "ic";
      ContainsPrefixOf(Lower(v.name), "arab", "ic");
    }
  }

  /** The list of available Arabic voices holds exactly the listed voices that
      qualify, in their listed order. */
  lemma AvailableArabicVoicesSpec(voices: seq<Voice>, speechSupported: bool)
    ensures forall v :: v in AvailableArabicVoices(voices, speechSupported) <==>
      speechSupported && v in voices && IsArabicVoice(v)
  {
  }

  /** First index at or after `i` that is not white space. */
  function SkipWhitespace(s: string, i: nat): (j: nat)
    requires i <= |s|
    ensures i <= j <= |s|
    ensures j < |s| ==> !IsWhitespace(s[j])
    ensures forall k :: i <= k < j ==> IsWhitespace(s[k])
    decreases |s| - i
  {
    if i < |s| && IsWhitespace(s[i]) then SkipWhitespace(s, i + 1) else i
  }

  /** The first ')' at or after `j` that `.*?` can reach: no line terminator
      may come before it. */
  function CloseParen(s: string, j: nat): (r: Option<nat>)
    requires j <= |s|
    ensures r.Some? ==> j <= r.value < |s| && s[r.value] == ')'
    decreases |s| - j
  {
    if j == |s| || IsLineTerminator(s[j]) then None
    else if s[j] == ')' then Some(j)
    else CloseParen(s, j + 1)
  }

  /** Where a match of `\s*\(.*?\)` starting at `i` ends (exclusive), if one
      starts there; with `trailing`, the pattern `\s*\(.*?\)\s*`. */
  function MatchAt(s: string, i: nat, trailing: bool): (r: Option<nat>)
    requires i <= |s|
    ensures r.Some? ==> i < r.value <= |s|
  {
    var j := SkipWhitespace(s, i);
    if j < |s| && s[j] == '(' then
      match CloseParen(s, j + 1)
      case None => None
      case Some(k) => Some(if trailing then SkipWhitespace(s, k + 1) else k + 1)
    else None
  }

  /** The global replace of the parenthesised pattern by "", from position `i`:
      each match is dropped and scanning resumes where it ended. */
  function StripFrom(s: string, i: nat, trailing: bool): string
    requires i <= |s|
    decreases |s| - i
  {
    if i == |s| then ""
    else match MatchAt(s, i, trailing)
      case Some(e) => StripFrom(s, e, trailing)
      case None => [s[i]] + StripFrom(s, i + 1, trailing)
  }

  /** `s.replace(/\s*\(.*?\)/g, '')`, or with `trailing` the same pattern
      followed by `\s*`. */
  function StripParens(s: string, trailing: bool): string {
    StripFrom(s, 0, trailing)
  }

  /** The text `playCardAudio` speaks: the Arabic text without its
      parenthesised pronunciations, trimmed. */
  function SpokenText(arabicText: string): string {
    Trim(StripParens(arabicText, false))
  }

  /** Inside a word without '(' that does not end in white space no match can
      start, so the word is copied through unchanged. */
  lemma {:induction false} StripFromWord(w: string, t: string, i: nat, trailing: bool)
    requires '(' !in w && (w == [] || !IsWhitespace(w[|w| - 1]))
    requires i <= |w|
    ensures StripFrom(w + t, i, trailing) == w[i..] + StripFrom(w + t, |w|, trailing)
    decreases |w| - i
  {
    var s := w + t;
    if i < |w| {
      var j := SkipWhitespace(s, i);
      assert s[|w| - 1] == w[|w| - 1];
      assert !IsWhitespace(s[|w| - 1]);
      assert j < |w|;
      assert s[j] == w[j];
      assert MatchAt(s, i, trailing).None?;
      StripFromWord(w, t, i + 1, trailing);
      assert s[i] == w[i];
      assert w[i..] == [w[i]] + w[i + 1..];
    }
  }

  /** A trailing " (pronunciation)" is one match and is dropped entirely. */
  lemma StripAnnotationTail(w: string, ws: string, p: string, trailing: bool)
    requires IsBlank(ws)
    requires ')' !in p && forall k :: 0 <= k < |p| ==> !IsLineTerminator(p[k])
    ensures StripFrom(w + ws + "(" + p + ")", |w|, trailing) == ""
  {
    var s := w + ws + "(" + p + ")";
    var open := |w| + |ws|;
    assert forall k :: |w| <= k < open ==> s[k] == ws[k - |w|];
    assert s[open] == '(';
    assert SkipWhitespace(s, |w|) == open by {
      SkipAcross(s, |w|, open);
    }
    assert forall k :: open + 1 <= k < open + 1 + |p| ==> s[k] == p[k - open - 1];
    assert s[|s| - 1] == ')';
    CloseParenAcross(s, open + 1, |s| - 1);
    assert MatchAt(s, |w|, trailing) == Some(|s|);
  }

  /** Skipping white space across a blank stretch stops at its first non-blank. */
  lemma {:induction false} SkipAcross(s: string, i: nat, j: nat)
    requires i <= j < |s|
    requires forall k :: i <= k < j ==> IsWhitespace(s[k])
    requires !IsWhitespace(s[j])
    ensures SkipWhitespace(s, i) == j
    decreases j - i
  {
    if i < j {
      SkipAcross(s, i + 1, j);
    }
  }

  /** Scanning for ')' across a stretch without ')' or line terminators finds
      the ')' that ends it. */
  lemma {:induction false} CloseParenAcross(s: string, j: nat, k: nat)
    requires j <= k < |s| && s[k] == ')'
    requires forall m :: j <= m < k ==> s[m] != ')' && !IsLineTerminator(s[m])
    ensures CloseParen(s, j) == Some(k)
    decreases k - j
  {
    if j < k {
      CloseParenAcross(s, j + 1, k);
    }
  }

  /** The spoken text of "word (pronunciation)" is the word: a word without
      '(' followed by white space and a parenthesised pronunciation on one line
      is spoken as the trimmed word. */
  lemma SpokenTextDropsPronunciation(w: string, ws: string, p: string)
    requires '(' !in w && (w == [] || !IsWhitespace(w[|w| - 1]))
    requires IsBlank(ws)
    requires ')' !in p && forall k :: 0 <= k < |p| ==> !IsLineTerminator(p[k])
    ensures SpokenText(w + ws + "(" + p + ")") == Trim(w)
  {
    StripAnnotated(w, ws, p, false);
  }

  /** Stripping "word (pronunciation)" leaves the word, with or without the
      trailing white-space part of the pattern. */
  lemma StripAnnotated(w: string, ws: string, p: string, trailing: bool)
    requires '(' !in w && (w == [] || !IsWhitespace(w[|w| - 1]))
    requires IsBlank(ws)
    requires ')' !in p && forall k :: 0 <= k < |p| ==> !IsLineTerminator(p[k])
    ensures StripParens(w + ws + "(" + p + ")", trailing) == w
  {
    var t := ws + "(" + p + ")";
    assert w + ws + "(" + p + ")" == w + t;
    StripFromWord(w, t, 0, trailing);
    StripAnnotationTail(w, ws, p, trailing);
    assert w[0..] == w;
  }

  /** Text without '(' has nothing to strip. */
  lemma {:induction false} StripWithoutParens(s: string, i: nat, trailing: bool)
    requires '(' !in s && i <= |s|
    ensures StripFrom(s, i, trailing) == s[i..]
    decreases |s| - i
  {
    if i < |s| {
      var j := SkipWhitespace(s, i);
      assert j < |s| ==> s[j] != '(';
      StripWithoutParens(s, i + 1, trailing);
      assert s[i..] == [s[i]] + s[i + 1..];
    }
  }

  /** `v => v.voiceURI === preferredVoiceURI` */
  function HasURI(uri: string): Voice -> bool {
    (v: Voice) => v.voiceURI == uri
  }

  /** Second choice: a voice whose language tag reads "ar-sa" once '_' becomes
      '-' and letters are lower-cased. */
  predicate IsSaudiVoice(v: Voice) {
    Lower(ReplaceFirst(v.lang, '_', '-')) == "ar-sa"
  }

  /** Third choice: a voice whose lower-cased language tag starts with "ar". */
  predicate HasArabicLang(v: Voice) {
    StartsWith(Lower(v.lang), "ar")
  }

  /** Last choice: a voice whose lower-cased name contains "arabic". */
  predicate NamesArabic(v: Voice) {
    Contains(Lower(v.name), "arabic")
  }

  /** The voice `speakArabic` picks: the preferred voice if listed, then the
      first Saudi voice, then the first voice with an Arabic language tag, then
      the first voice named Arabic. */
  function SelectVoice(voices: seq<Voice>, preferredURI: string): Option<Voice> {
    var preferred := if preferredURI != "" then Find(voices, HasURI(preferredURI)) else None;
    if preferred.Some? then preferred
    else
      var saudi := Find(voices, IsSaudiVoice);
      if saudi.Some? then saudi
      else
        var arabicLang := Find(voices, HasArabicLang);
        if arabicLang.Some? then arabicLang
        else Find(voices, NamesArabic)
  }

  /** The language the utterance is spoken in: the chosen voice's, else "ar-SA". */
  function UtteranceLang(selected: Option<Voice>): string {
    match selected
    case Some(v) => v.lang
    case None => "ar-SA"
  }

  /** The priority of a voice for the selection: 0 for the preferred voice, 1
      for a Saudi voice, 2 for an Arabic language tag, 3 for an Arabic name, 4
      when it does not qualify at all. */
  function Rank(v: Voice, preferredURI: string): nat {
    if preferredURI != "" && v.voiceURI == preferredURI then 0
    else if IsSaudiVoice(v) then 1
    else if HasArabicLang(v) then 2
    else if NamesArabic(v) then 3
    else 4
  }

  /** Where the selection comes from in the list, if anywhere. */
  function SelectIndex(voices: seq<Voice>, preferredURI: string): (r: Option<nat>)
    ensures r.Some? ==> r.value < |voices| && SelectVoice(voices, preferredURI) == Some(voices[r.value])
    ensures r.None? ==> SelectVoice(voices, preferredURI).None?
  {
    var f0 := if preferredURI != "" then FindIndex(voices, HasURI(preferredURI)) else None;
    var f1 := FindIndex(voices, IsSaudiVoice);
    var f2 := FindIndex(voices, HasArabicLang);
    if f0.Some? then f0 else if f1.Some? then f1 else if f2.Some? then f2
    else FindIndex(voices, NamesArabic)
  }

  /** The selection is absent exactly when no listed voice qualifies. */
  lemma SelectVoiceNone(voices: seq<Voice>, preferredURI: string)
    ensures SelectVoice(voices, preferredURI).None? <==> forall v :: v in voices ==> Rank(v, preferredURI) == 4
  {
    var r := SelectIndex(voices, preferredURI);
    if r.Some? {
      SelectIndexRank(voices, preferredURI);
      assert voices[r.value] in voices;
    }
  }

  /** The selected voice has the best rank present, and no voice before it in
      the list has that rank. */
  lemma SelectIndexRank(voices: seq<Voice>, preferredURI: string)
    ensures SelectIndex(voices, preferredURI).Some? ==>
      var i := SelectIndex(voices, preferredURI).value;
      && Rank(voices[i], preferredURI) < 4
      && (forall v :: v in voices ==> Rank(voices[i], preferredURI) <= Rank(v, preferredURI))
      && (forall j :: 0 <= j < i ==> Rank(voices[j], preferredURI) > Rank(voices[i], preferredURI))
  {
    var f0 := if preferredURI != "" then FindIndex(voices, HasURI(preferredURI)) else None;
    var f1 := FindIndex(voices, IsSaudiVoice);
    var f2 := FindIndex(voices, HasArabicLang);
    var f3 := FindIndex(voices, NamesArabic);
    if f0.Some? {
      assert Rank(voices[f0.value], preferredURI) == 0;
    } else if f1.Some? {
      assert Rank(voices[f1.value], preferredURI) == 1;
    } else if f2.Some? {
      assert Rank(voices[f2.value], preferredURI) == 2;
    } else if f3.Some? {
      assert Rank(voices[f3.value], preferredURI) == 3;
    }
  }

  /** The selection is the first listed voice of the best rank present. */
  lemma SelectVoiceBest(voices: seq<Voice>, preferredURI: string)
    ensures SelectVoice(voices, preferredURI).Some? ==>
      exists i :: 0 <= i < |voices| && SelectVoice(voices, preferredURI) == Some(voices[i])
        && Rank(voices[i], preferredURI) < 4
        && (forall v :: v in voices ==> Rank(voices[i], preferredURI) <= Rank(v, preferredURI))
        && (forall j :: 0 <= j < i ==> Rank(voices[j], preferredURI) > Rank(voices[i], preferredURI))
  {
    SelectIndexRank(voices, preferredURI);
  }

  /** How often `playCardAudio` re-reads a lazily loaded voice list. */
  const MaxRetries: nat := 10

  /** The wait for lazily loaded voices. `observed[k]` is the length of the
      voice list at the k-th reading: the first reading happens at once, the
      next one immediately in `checkVoices`, and each later one 500 ms after a
      retry. Speaking starts at the first reading that finds voices, or when
      the retries are used up; `startAt` is absent when the readings given run
      out first. */
  method AwaitVoices(observed: seq<nat>) returns (startAt: Option<nat>, retries: nat)
    ensures retries <= MaxRetries
    ensures startAt.Some? ==> startAt.value < |observed| && startAt.value <= MaxRetries + 1
    ensures startAt.Some? ==> observed[startAt.value] > 0 || retries == MaxRetries
    ensures startAt.Some? ==> forall k :: 0 <= k < startAt.value ==> observed[k] == 0
    ensures startAt.Some? ==> retries == if startAt.value == 0 then 0 else startAt.value - 1
    ensures startAt.None? ==> |observed| <= MaxRetries + 1 && forall k :: 0 <= k < |observed| ==> observed[k] == 0
  {
    if |observed| == 0 {
      return None, 0;
    }
    if observed[0] > 0 {
      return Some(0), 0;
    }
    var retryCount := 0;
    var k := 1;
    while k < |observed|
      invariant 1 <= k <= |observed|
      invariant retryCount == k - 1 && retryCount <= MaxRetries
      invariant forall j :: 0 <= j < k ==> observed[j] == 0
    {
      if observed[k] > 0 || retryCount >= MaxRetries {
        return Some(k), retryCount;
      }
      retryCount := retryCount + 1;
      k := k + 1;
    }
    return None, retryCount;
  }

  // The alarm runs on the audio clock, kept here in whole milliseconds.

  /** The first note sounds this long after the alarm starts. */
  const LeadInMs: int := 100
  /** Each pass queues notes up to this far ahead of the audio clock. */
  const LookaheadMs: int := 1500
  /** One note every 2.5 seconds. */
  const BeepIntervalMs: int := 2500
  /** The second tone of a note follows the first by 0.25 seconds. */
  const SecondToneMs: int := 250
  /** A pass re-arms itself to run again after 500 ms. */
  const RecheckMs: int := 500

  /** The start times of the two tones of the note `scheduleNote(t)` queues. */
  function NoteTones(t: int): seq<int> {
    [t, t + SecondToneMs]
  }

  /** The tones one scheduler pass queues, starting at `next`, while the next
      note time is before `horizon`. */
  function PassTones(next: int, horizon: int): seq<int>
    decreases horizon - next
  {
    if next < horizon then NoteTones(next) + PassTones(next + BeepIntervalMs, horizon) else []
  }

  /** The next note time a scheduler pass leaves behind. */
  function PassEnd(next: int, horizon: int): int
    decreases horizon - next
  {
    if next < horizon then PassEnd(next + BeepIntervalMs, horizon) else next
  }

  /** A pass stops at the first note time at or past the horizon: it has moved
      on by whole beat intervals, less than one interval past the horizon. */
  lemma {:induction false} PassEndSpec(next: int, horizon: int)
    ensures PassEnd(next, horizon) >= horizon || PassEnd(next, horizon) == next
    ensures next >= horizon ==> PassEnd(next, horizon) == next
    ensures next < horizon ==> horizon <= PassEnd(next, horizon) < horizon + BeepIntervalMs
    ensures (PassEnd(next, horizon) - next) % BeepIntervalMs == 0
    decreases horizon - next
  {
    if next < horizon {
      PassEndSpec(next + BeepIntervalMs, horizon);
    }
  }

  /** The n-th note of a pass sounds at `next + n * 2500` and its second tone
      250 ms later; there is one note per beat interval the pass covers. */
  lemma {:induction false} PassTonesSpec(next: int, horizon: int)
    ensures |PassTones(next, horizon)| == 2 * ((PassEnd(next, horizon) - next) / BeepIntervalMs)
    ensures forall n :: 0 <= n < |PassTones(next, horizon)| / 2 ==>
      PassTones(next, horizon)[2 * n] == next + n * BeepIntervalMs
      && PassTones(next, horizon)[2 * n + 1] == next + n * BeepIntervalMs + SecondToneMs
      && next + n * BeepIntervalMs < horizon
    decreases horizon - next
  {
    PassEndSpec(next, horizon);
    if next < horizon {
      var rest := PassTones(next + BeepIntervalMs, horizon);
      PassTonesSpec(next + BeepIntervalMs, horizon);
      PassEndSpec(next + BeepIntervalMs, horizon);
      assert PassTones(next, horizon) == NoteTones(next) + rest;
      forall n | 1 <= n < |PassTones(next, horizon)| / 2
        ensures PassTones(next, horizon)[2 * n] == next + n * BeepIntervalMs
        ensures PassTones(next, horizon)[2 * n + 1] == next + n * BeepIntervalMs + SecondToneMs
        ensures next + n * BeepIntervalMs < horizon
      {
        assert PassTones(next, horizon)[2 * n] == rest[2 * (n - 1)];
        assert PassTones(next, horizon)[2 * n + 1] == rest[2 * (n - 1) + 1];
      }
    }
  }

  /** The module-level alarm state of the audio utilities: whether an audio
      context exists, whether the alarm is sounding, the audio-clock time of the
      next note, whether the 500 ms re-check timer is pending, and every tone
      queued on the audio graph so far. */
  class AlarmSink {
    var hasContext: bool
    var isPlaying: bool
    var nextNoteTime: int
    var timerArmed: bool
    var tones: seq<int>

    /** The state when the module loads. */
    constructor ()
      ensures !hasContext && !isPlaying && nextNoteTime == 0 && !timerArmed && tones == []
    {
      hasContext := false;
      isPlaying := false;
      nextNoteTime := 0;
      timerArmed := false;
      tones := [];
    }

    /** `scheduler`: when sounding, queues every note due before
        `currentTime + 1.5 s`, moves `nextNoteTime` past that horizon and
        re-arms the re-check timer; otherwise does nothing. */
    method Scheduler(currentTime: int)
      modifies this`nextNoteTime, this`tones, this`timerArmed
      ensures old(isPlaying) && hasContext ==>
        && nextNoteTime == PassEnd(old(nextNoteTime), currentTime + LookaheadMs)
        && tones == old(tones) + PassTones(old(nextNoteTime), currentTime + LookaheadMs)
        && timerArmed
      ensures !(old(isPlaying) && hasContext) ==>
        nextNoteTime == old(nextNoteTime) && tones == old(tones) && timerArmed == old(timerArmed)
    {
      if !isPlaying || !hasContext {
        return;
      }
      var horizon := currentTime + LookaheadMs;
      while nextNoteTime < horizon
        invariant PassEnd(nextNoteTime, horizon) == PassEnd(old(nextNoteTime), horizon)
        invariant tones + PassTones(nextNoteTime, horizon) == old(tones) + PassTones(old(nextNoteTime), horizon)
        decreases horizon - nextNoteTime
      {
        tones := tones + NoteTones(nextNoteTime);
        nextNoteTime := nextNoteTime + BeepIntervalMs;
      }
      timerArmed := true;
    }

    /** `startAlarm`: a no-op while sounding or when no audio context can be
        had; otherwise the alarm sounds, the first note is 0.1 s ahead and the
        first pass queues exactly that one note. */
    method Start(contextAvailable: bool, currentTime: int)
      modifies this
      ensures old(isPlaying) || (!old(hasContext) && !contextAvailable) ==>
        && isPlaying == old(isPlaying) && hasContext == old(hasContext)
        && nextNoteTime == old(nextNoteTime) && timerArmed == old(timerArmed) && tones == old(tones)
      ensures !old(isPlaying) && (old(hasContext) || contextAvailable) ==>
        && isPlaying && hasContext && timerArmed
        && tones == old(tones) + NoteTones(currentTime + LeadInMs)
        && nextNoteTime == currentTime + LeadInMs + BeepIntervalMs
    {
      if isPlaying {
        return;
      }
      if !hasContext && contextAvailable {
        hasContext := true;
      }
      if !hasContext {
        return;
      }
      isPlaying := true;
      nextNoteTime := currentTime + LeadInMs;
      Scheduler(currentTime);
      assert PassTones(currentTime + LeadInMs + BeepIntervalMs, currentTime + LookaheadMs) == [];
    }

    /** `stopAlarm`: silences the loop and cancels the re-check timer; tones
        already queued stay queued. Calling it again changes nothing. */
    method Stop()
      modifies this`isPlaying, this`timerArmed
      ensures !isPlaying && !timerArmed
    {
      isPlaying := false;
      if timerArmed {
        timerArmed := false;
      }
    }
  }
}
