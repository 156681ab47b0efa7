/** The text handling around the three calls to the generative model: the
    missing-key guard, the four-line mnemonic format, error classification, the
    creative prompt and the image data URL. The calls themselves are inputs:
    each operation receives what the model call returned or threw. */
module GeminiService {
  import opened Wrappers
  import opened Text
  import opened Seqs

  // The messages are written in short pieces so that the verifier can read
  // each piece character by character.
  const MissingKeyMessage: string := "API Key is missing"
  const NoResponseMessage: string := "No response from AI"
  const IncompleteMessage: string := "AI returned " + "incomplete " + "data format. " + "Please try " + "again."
  const QuotaMessage: string := "Daily AI " + "quota " + "exceeded. " + "Please try " + "again later " + "or check " + "your API " + "plan."
  const UnavailableMessage: string := "AI service " + "is " + "temporarily " + "unavailable. " + "Please try " + "again " + "in a moment."
  const GenericMessage: string := "Failed to generate " + "content."
  const PromptFailedMessage: string := "Failed to generate " + "prompt."
  const ImageFailedMessage: string := "Failed to generate " + "image. Please try again."

  /** Something thrown inside a `try`: its `message` and what its `toString()` gives. */
  datatype Thrown = Thrown(message: string, rendered: string)

  /** The four text fields of a generated card; the image prompt is always empty. */
  datatype MnemonicData = MnemonicData(
    turkishMeaning: string,
    arabicWord: string,
    keyword: string,
    story: string,
    imagePrompt: string)

  /** `!process.env.API_KEY`: an absent key is the empty string. */
  predicate KeyMissing(apiKey: string) {
    apiKey == ""
  }

  /** `line => line.trim() !== ''` */
  function NotBlank(): string -> bool {
    (line: string) => Trim(line) != ""
  }

  /** `text.trim().split('\n').filter(line => line.trim() !== '')` */
  function NonBlankLines(text: string): (lines: seq<string>)
    ensures forall line :: line in lines ==> !IsBlank(line) && '\n' !in line
  {
    Filter(Split(Trim(text), '\n'), NotBlank())
  }

  /** The parse of a response text inside `generateMnemonicData`'s `try`: the
      error it throws, or the card fields. */
  function ParseMnemonic(text: string): (r: Result<MnemonicData, string>)
    ensures r.Err? <==> text == "" || |NonBlankLines(text)| < 4
    ensures r.Err? ==> r.error == (if text == "" then NoResponseMessage else IncompleteMessage)
    ensures r.Ok? ==> r.value.imagePrompt == ""
  {
    if text == "" then Err(NoResponseMessage)
    else
      var lines := NonBlankLines(text);
      if |lines| < 4 then Err(IncompleteMessage)
      else Ok(MnemonicData(Trim(lines[0]), Trim(lines[1]), Trim(lines[2]), Trim(lines[3]), ""))
  }

  /** The `catch` of `generateMnemonicData`: quota errors first, then server
      errors, otherwise the message itself (or the error's string form when it
      has no message, or a generic message when that is empty too). */
  function ClassifyError(e: Thrown): (message: string)
    ensures message != ""
  {
    var errorMessage := ErrorText(e);
    if QuotaCode(errorMessage) then QuotaMessage
    else if ServerCode(errorMessage) then UnavailableMessage
    else if errorMessage != "" then errorMessage
    else GenericMessage
  }

  /** `error.message || String(error)` */
  function ErrorText(e: Thrown): string {
    if e.message != "" then e.message else e.rendered
  }

  /** The text names a quota error. */
  predicate QuotaCode(m: string) {
    Contains(m, "429") || Contains(m, "RESOURCE_EXHAUSTED")
  }

  /** The text names a server error. */
  predicate ServerCode(m: string) {
    Contains(m, "503") || Contains(m, "500")
  }

  /** `generateMnemonicData`: `response` is the model call's outcome, the
      response text (empty when there is none) or what it threw. */
  function GenerateMnemonicData(apiKey: string, response: Result<string, Thrown>): Result<MnemonicData, string> {
    if KeyMissing(apiKey) then Err(MissingKeyMessage)
    else
      var attempt := match response
        case Err(e) => Err(e)
        case Ok(text) =>
          match ParseMnemonic(text)
          case Ok(d) => Ok(d)
          case Err(msg) => Err(Thrown(msg, "Error: " + msg));
      match attempt
      case Ok(d) => Ok(d)
      case Err(e) => Err(ClassifyError(e))
  }

  /** `p` cannot occur in a string that lacks its first character. */
  lemma {:induction false} NotContainsWithoutHead(s: string, p: string)
    requires p != [] && p[0] !in s
    ensures !Contains(s, p)
    decreases |s|
  {
    if s != [] {
      assert forall c :: c in s[1..] ==> c in s;
      NotContainsWithoutHead(s[1..], p);
    }
  }

  /** A message without the characters that start "429", "500", "503" and
      "RESOURCE_EXHAUSTED". */
  predicate Plain(m: string) {
    '4' !in m && '5' !in m && 'R' !in m
  }

  lemma PlainConcat(a: string, b: string)
    requires Plain(a) && Plain(b)
    ensures Plain(a + b)
  {
  }

  /** A message without the characters that start the codes triggers neither
      special case and is re-thrown as it is. */
  lemma PlainMessage(m: string)
    requires m != "" && Plain(m)
    ensures ClassifyError(Thrown(m, "")) == m
  {
    PlainHasNoCode(m);
  }

  /** A plain text carries no code. */
  lemma PlainHasNoCode(m: string)
    requires Plain(m)
    ensures !QuotaCode(m) && !ServerCode(m)
  {
    NotContainsWithoutHead(m, "429");
    NotContainsWithoutHead(m, "RESOURCE_EXHAUSTED");
    NotContainsWithoutHead(m, "503");
    NotContainsWithoutHead(m, "500");
  }

  /** None of the fixed messages carries a status code. */
  lemma FixedMessagesPlain()
    ensures Plain(NoResponseMessage) && Plain(IncompleteMessage) && Plain(QuotaMessage)
    ensures Plain(UnavailableMessage) && Plain(GenericMessage)
  {
    ShortMessagesPlain();
    IncompletePlain();
    QuotaPlain();
    UnavailablePlain();
  }

  lemma ShortMessagesPlain()
    ensures Plain(NoResponseMessage) && Plain(GenericMessage)
  {
    assert Plain("No response ");
    assert Plain("from AI");
    PlainConcat("No response ", "from AI");
    assert "No response " + "from AI" == NoResponseMessage;
    assert Plain("Failed to generate ");
    assert Plain("content.");
    PlainConcat("Failed to generate ", "content.");
  }

  lemma IncompletePlain()
    ensures Plain(IncompleteMessage)
  {
    assert Plain("AI returned ");
    assert Plain("incomplete ");
    assert Plain("data format. ");
    assert Plain("Please try ");
    assert Plain("again.");
    PlainConcat("AI returned ", "incomplete ");
    PlainConcat("AI returned " + "incomplete ", "data format. ");
    PlainConcat("AI returned " + "incomplete " + "data format. ", "Please try ");
    PlainConcat("AI returned " + "incomplete " + "data format. " + "Please try ", "again.");
  }

  lemma QuotaPlain()
    ensures Plain(QuotaMessage)
  {
    assert Plain("Daily AI ");
    assert Plain("quota ");
    assert Plain("exceeded. ");
    assert Plain("Please try ");
    assert Plain("again later ");
    assert Plain("or check ");
    assert Plain("your API ");
    assert Plain("plan.");
    PlainConcat("Daily AI ", "quota ");
    PlainConcat("Daily AI " + "quota ", "exceeded. ");
    PlainConcat("Daily AI " + "quota " + "exceeded. ", "Please try ");
    PlainConcat("Daily AI " + "quota " + "exceeded. " + "Please try ", "again later ");
    PlainConcat("Daily AI " + "quota " + "exceeded. " + "Please try " + "again later ", "or check ");
    PlainConcat("Daily AI " + "quota " + "exceeded. " + "Please try " + "again later " + "or check ", "your API ");
    PlainConcat("Daily AI " + "quota " + "exceeded. " + "Please try " + "again later " + "or check " + "your API ", "plan.");
  }

  lemma UnavailablePlain()
    ensures Plain(UnavailableMessage)
  {
    assert Plain("AI service ");
    assert Plain("is ");
    assert Plain("temporarily ");
    assert Plain("unavailable. ");
    assert Plain("Please try ");
    assert Plain("again ");
    assert Plain("in a moment.");
    PlainConcat("AI service ", "is ");
    PlainConcat("AI service " + "is ", "temporarily ");
    PlainConcat("AI service " + "is " + "temporarily ", "unavailable. ");
    PlainConcat("AI service " + "is " + "temporarily " + "unavailable. ", "Please try ");
    PlainConcat("AI service " + "is " + "temporarily " + "unavailable. " + "Please try ", "again ");
    PlainConcat("AI service " + "is " + "temporarily " + "unavailable. " + "Please try " + "again ", "in a moment.");
  }

  /** Classification is stable: a classified message classifies as itself. */
  lemma ClassifyIdempotent(e: Thrown)
    ensures ClassifyError(Thrown(ClassifyError(e), "")) == ClassifyError(e)
  {
    var m := ClassifyError(e);
    FixedMessagesPlain();
    if m == QuotaMessage {
      PlainMessage(QuotaMessage);
    } else if m == UnavailableMessage {
      PlainMessage(UnavailableMessage);
    } else if m == GenericMessage {
      PlainMessage(GenericMessage);
    }
  }

  /** The codes decide the outcome, quota codes before server codes: the quota
      message comes back exactly for a quota code (or when it was itself the
      text), the unavailable message exactly for a server code without a quota
      code (or when it was itself the text), and a non-empty text comes back
      unchanged exactly when it carries no code at all. */
  lemma ClassifyErrorSpec(e: Thrown)
    ensures var m := ErrorText(e);
      && (ClassifyError(e) == QuotaMessage <==> QuotaCode(m) || m == QuotaMessage)
      && (ClassifyError(e) == UnavailableMessage <==> !QuotaCode(m) && (ServerCode(m) || m == UnavailableMessage))
      && (m != "" ==> (ClassifyError(e) == m <==> !QuotaCode(m) && !ServerCode(m)))
  {
    var m := ErrorText(e);
    FixedMessagesPlain();
    PlainHasNoCode(QuotaMessage);
    PlainHasNoCode(UnavailableMessage);
    PlainHasNoCode(GenericMessage);
    assert QuotaMessage[0] == 'D' && UnavailableMessage[0] == 'A' && GenericMessage[0] == 'F';
  }

  /** An empty response and one with fewer than four non-blank lines fail with
      their own messages: neither is mistaken for a quota or server error. */
  lemma ParseErrorsSurvive(apiKey: string, text: string)
    requires !KeyMissing(apiKey)
    ensures text == "" ==> GenerateMnemonicData(apiKey, Ok(text)) == Err(NoResponseMessage)
    ensures text != "" && |NonBlankLines(text)| < 4 ==> GenerateMnemonicData(apiKey, Ok(text)) == Err(IncompleteMessage)
  {
    FixedMessagesPlain();
    PlainMessage(NoResponseMessage);
    PlainMessage(IncompleteMessage);
  }

  /** Every failure before the model call is the missing key. */
  lemma MissingKeyFailsFirst(response: Result<string, Thrown>)
    ensures GenerateMnemonicData("", response) == Err(MissingKeyMessage)
  {
  }

  /** Joining non-empty pieces that have no white space at their ends gives
      a string with none at its ends. */
  lemma {:induction false} JoinTrimmed(parts: seq<string>, sep: char)
    requires |parts| >= 1
    requires forall i :: 0 <= i < |parts| ==> parts[i] != "" && IsTrimmed(parts[i])
    ensures Join(parts, sep) != "" && IsTrimmed(Join(parts, sep))
    ensures Join(parts, sep)[0] == parts[0][0]
  {
    if |parts| > 1 {
      var rest := Join(parts[1..], sep);
      JoinTrimmed(parts[1..], sep);
      var s := parts[0] + [sep] + rest;
      assert Join(parts, sep) == s;
      assert s[0] == parts[0][0];
      assert s[|s| - 1] == rest[|rest| - 1];
    }
  }

  /** The non-blank lines of a join of non-empty trimmed single-line fields
      are the fields. */
  lemma LinesOfJoin(fields: seq<string>)
    requires |fields| >= 1
    requires forall i :: 0 <= i < |fields| ==> fields[i] != "" && IsTrimmed(fields[i]) && '\n' !in fields[i]
    ensures NonBlankLines(Join(fields, '\n')) == fields
  {
    var text := Join(fields, '\n');
    JoinTrimmed(fields, '\n');
    TrimOfTrimmed(text);
    SplitJoin(fields, '\n');
    forall i | 0 <= i < |fields|
      ensures Trim(fields[i]) == fields[i]
    {
      TrimOfTrimmed(fields[i]);
    }
    FilterAll(fields, NotBlank());
  }

  /** A response of four trimmed, non-empty, single-line fields parses back to
      those fields, in order, with an empty image prompt. */
  lemma ParseMnemonicRoundTrip(apiKey: string, fields: seq<string>)
    requires !KeyMissing(apiKey)
    requires |fields| == 4
    requires forall i :: 0 <= i < 4 ==> fields[i] != "" && IsTrimmed(fields[i]) && '\n' !in fields[i]
    ensures GenerateMnemonicData(apiKey, Ok(Join(fields, '\n'))) ==
      Ok(MnemonicData(fields[0], fields[1], fields[2], fields[3], ""))
  {
    ParseOfJoin(fields);
  }

  /** The parse step of the round trip. */
  lemma ParseOfJoin(fields: seq<string>)
    requires |fields| == 4
    requires forall i :: 0 <= i < 4 ==> fields[i] != "" && IsTrimmed(fields[i]) && '\n' !in fields[i]
    ensures ParseMnemonic(Join(fields, '\n')) == Ok(MnemonicData(fields[0], fields[1], fields[2], fields[3], ""))
  {
    var text := Join(fields, '\n');
    LinesOfJoin(fields);
    JoinTrimmed(fields, '\n');
    assert text != "" && NonBlankLines(text) == fields;
    TrimOfTrimmed(fields[0]);
    TrimOfTrimmed(fields[1]);
    TrimOfTrimmed(fields[2]);
    TrimOfTrimmed(fields[3]);
  }

  /** Lines after the four fields never change the parse: whatever follows the
      fourth line, the response parses to the same card. */
  lemma ParseIgnoresExtraLines(fields: seq<string>, rest: string)
    requires |fields| == 4
    requires forall i :: 0 <= i < 4 ==> fields[i] != "" && IsTrimmed(fields[i]) && '\n' !in fields[i]
    ensures ParseMnemonic(Join(fields, '\n') + "\n" + rest) == Ok(MnemonicData(fields[0], fields[1], fields[2], fields[3], ""))
  {
    var more := LinesAfterFields(fields, rest);
    FieldsLeadLines(fields, more);
  }

  /** Non-empty trimmed fields survive the blank-line filter, ahead of
      whatever lines follow them, and trimming leaves each one as it is. */
  lemma FieldsLeadLines(fields: seq<string>, more: seq<string>)
    requires |fields| == 4
    requires forall i :: 0 <= i < 4 ==> fields[i] != "" && IsTrimmed(fields[i])
    ensures var lines := Filter(fields + more, NotBlank());
      |lines| >= 4 && lines[..4] == fields
    ensures forall i :: 0 <= i < 4 ==> Trim(fields[i]) == fields[i]
  {
    forall i | 0 <= i < 4
      ensures Trim(fields[i]) == fields[i]
    {
      TrimOfTrimmed(fields[i]);
    }
    FilterAll(fields, NotBlank());
    FilterConcat(fields, more, NotBlank());
  }

  /** The lines of a trimmed response that starts with the joined fields are
      those fields, then whatever lines follow. */
  lemma LinesAfterFields(fields: seq<string>, rest: string) returns (more: seq<string>)
    requires |fields| == 4
    requires forall i :: 0 <= i < 4 ==> fields[i] != "" && IsTrimmed(fields[i]) && '\n' !in fields[i]
    ensures Split(Trim(Join(fields, '\n') + "\n" + rest), '\n') == fields + more
  {
    var joined := Join(fields, '\n');
    var text := joined + "\n" + rest;
    JoinTrimmed(fields, '\n');
    TrimKeepsTrimmedPrefix(joined, "\n" + rest);
    assert text == joined + ("\n" + rest);
    var t := Trim(text);
    assert t[..|joined|] == text[..|joined|] == joined;
    assert |joined| < |t| ==> t[|joined|] == text[|joined|] == '\n';
    more := SplitJoinPrefix(fields, '\n', t);
  }

  /** `generateCreativePrompt`: the trimmed response text, or the fixed
      failure message for anything the call throws. */
  function GenerateCreativePrompt(apiKey: string, response: Result<string, Thrown>): (r: Result<string, string>)
    ensures KeyMissing(apiKey) ==> r == Err(MissingKeyMessage)
    ensures !KeyMissing(apiKey) && response.Err? ==> r == Err(PromptFailedMessage)
    ensures !KeyMissing(apiKey) && response.Ok? ==> r.Ok?
    ensures r.Ok? ==> IsTrimmed(r.value) && exists k :: PaddedAt(r.value, response.value, k)
    ensures r.Ok? ==> (r.value == "" <==> IsBlank(response.value))
  {
    if KeyMissing(apiKey) then Err(MissingKeyMessage)
    else match response
      case Err(_) => Err(PromptFailedMessage)
      case Ok(text) => Ok(Trim(text))
  }

  /** A part of the image response, with the image bytes when it carries any. */
  datatype Part = Part(inlineData: Option<InlineData>)
  datatype InlineData = InlineData(mimeType: string, data: string)

  /** `data:<mime>;base64,<data>` */
  function DataUrl(mimeType: string, data: string): string {
    "data:" + mimeType + ";base64," + data
  }

  /** Reads a data URL back into its media type and payload. */
  function ParseDataUrl(url: string): Option<(string, string)> {
    if !StartsWith(url, "data:") then None
    else
      var rest := url[5..];
      if ';' !in rest then None
      else
        var i := IndexOf(rest, ';');
        if StartsWith(rest[i..], ";base64,") then Some((rest[..i], rest[i + 8..])) else None
  }

  /** A data URL built from a media type without ';' reads back as what built it. */
  lemma DataUrlRoundTrip(mimeType: string, data: string)
    requires ';' !in mimeType
    ensures ParseDataUrl(DataUrl(mimeType, data)) == Some((mimeType, data))
  {
    var rest := mimeType + (";base64," + data);
    assert DataUrl(mimeType, data) == "data:" + rest;
    DataPrefix(rest);
    AfterMediaType(mimeType, data);
  }

  lemma DataPrefix(rest: string)
    ensures StartsWith("data:" + rest, "data:") && ("data:" + rest)[5..] == rest
  {
  }

  /** After the prefix, the first ';' ends the media type and starts the
      base64 marker, and the payload follows the marker. */
  lemma AfterMediaType(mimeType: string, data: string)
    requires ';' !in mimeType
    ensures var rest := mimeType + (";base64," + data);
      && ';' in rest && IndexOf(rest, ';') == |mimeType|
      && StartsWith(rest[|mimeType|..], ";base64,")
      && rest[..|mimeType|] == mimeType && rest[|mimeType| + 8..] == data
  {
    var tail := "base64," + data;
    assert mimeType + (";base64," + data) == mimeType + [';'] + tail;
    IndexOfAfter(mimeType, ';', tail);
    var rest := mimeType + (";base64," + data);
    assert rest[|mimeType|..] == ";base64," + data;
    assert (";base64," + data)[..8] == ";base64,";
  }

  /** The first part that carries image data, if any. */
  function FirstImagePart(parts: seq<Part>): (r: Option<nat>)
    ensures r.None? <==> forall i :: 0 <= i < |parts| ==> parts[i].inlineData.None?
    ensures r.Some? ==> r.value < |parts| && parts[r.value].inlineData.Some?
    ensures r.Some? ==> forall j :: 0 <= j < r.value ==> parts[j].inlineData.None?
  {
    FindIndex(parts, (p: Part) => p.inlineData.Some?)
  }

  /** `generateImage`: walks the parts of the first candidate and returns the
      data URL of the first one with image data. Both a thrown call and a
      response without image data end in the same fixed failure message. */
  method GenerateImage(apiKey: string, response: Result<seq<Part>, Thrown>) returns (r: Result<string, string>)
    ensures KeyMissing(apiKey) ==> r == Err(MissingKeyMessage)
    ensures !KeyMissing(apiKey) && response.Err? ==> r == Err(ImageFailedMessage)
    ensures !KeyMissing(apiKey) && response.Ok? ==>
      match FirstImagePart(response.value)
      case None => r == Err(ImageFailedMessage)
      case Some(i) => r == Ok(DataUrl(response.value[i].inlineData.value.mimeType, response.value[i].inlineData.value.data))
  {
    if KeyMissing(apiKey) {
      return Err(MissingKeyMessage);
    }
    if response.Err? {
      return Err(ImageFailedMessage);
    }
    var parts := response.value;
    var k := 0;
    while k < |parts|
      invariant 0 <= k <= |parts|
      invariant forall j :: 0 <= j < k ==> parts[j].inlineData.None?
    {
      if parts[k].inlineData.Some? {
        var inline := parts[k].inlineData.value;
        return Ok(DataUrl(inline.mimeType, inline.data));
      }
      k := k + 1;
    }
    // "No image generated" is thrown here and caught by the same `try`.
    return Err(ImageFailedMessage);
  }
}
