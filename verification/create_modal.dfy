/** The single-card creation dialog: a word is turned into mnemonic fields by
    the text model, an image is generated for its story, and the result is
    saved as a new library card. */
module CreateModal {
  import opened Wrappers
  import opened Text
  import opened Types
  import opened App
  import opened GeminiService

  /** The messages cycled through while the text model works. */
  const LoadingMessages: seq<string> := [
    "Consulting the linguist...",
    "Analyzing Arabic phonetics...",
    "Finding the perfect sound-alike...",
    "Crafting a surreal story..."
  ]

  /** Shown when a generation failure carries no message. */
  const GenerateFallbackMessage: string := "Failed to generate content. Please try again."

  /** The two screens of the dialog. */
  datatype Step = InputStep | PreviewStep

  /** The message index two seconds later. */
  function NextMessage(i: nat): nat {
    (i + 1) % |LoadingMessages|
  }

  /** The message index after `k` ticks from `i`. */
  function MessageAfter(i: nat, k: nat): nat
    decreases k
  {
    if k == 0 then i else MessageAfter(NextMessage(i), k - 1)
  }

  /** Starting from the first message, the `k`-th tick shows message `k mod 4`:
      the messages cycle in order and the index stays in range. */
  lemma {:induction false} MessageAfterSpec(i: nat, k: nat)
    requires i < |LoadingMessages|
    ensures MessageAfter(i, k) == (i + k) % |LoadingMessages|
    ensures MessageAfter(i, k) < |LoadingMessages|
    decreases k
  {
    if k > 0 {
      MessageAfterSpec(NextMessage(i), k - 1);
      assert (NextMessage(i) + (k - 1)) % 4 == (i + k) % 4 by {
        assert NextMessage(i) == (i + 1) % 4;
        ModSum(i + 1, k - 1);
      }
    }
  }

  /** `((a mod 4) + b) mod 4 == (a + b) mod 4` */
  lemma ModSum(a: nat, b: nat)
    ensures (a % 4 + b) % 4 == (a + b) % 4
  {
    var q := a / 4;
    assert a == 4 * q + a % 4;
    assert a + b == 4 * q + (a % 4 + b);
  }

  /** The card `handleSave` builds: an empty folder id or image becomes
      absent; a new card starts in the library at the bottom rung, not yet
      scheduled. */
  function NewCard(id: string, folderId: string, turkishMeaning: string, arabicWord: string,
                   keyword: string, story: string, imagePrompt: string, imageUrl: string): Card {
    Card(id, if folderId != "" then Some(folderId) else None,
      turkishMeaning, arabicWord, keyword, story, imagePrompt,
      if imageUrl != "" then Some(imageUrl) else None,
      Library, 0, 0)
  }

  /** A new card keeps the form's texts, has a folder exactly when one was
      chosen and an image exactly when one was made, and shows at once in the
      library view of its folder as well as in the unfiltered library. */
  lemma NewCardSpec(id: string, folderId: string, turkishMeaning: string, arabicWord: string,
                    keyword: string, story: string, imagePrompt: string, imageUrl: string,
                    cards: seq<Card>, selected: Option<string>)
    requires !IsSelected(selected) || selected == Some(folderId)
    ensures var c := NewCard(id, folderId, turkishMeaning, arabicWord, keyword, story, imagePrompt, imageUrl);
      && c.id == id && c.arabicWord == arabicWord && c.story == story && c.imagePrompt == imagePrompt
      && c.turkishMeaning == turkishMeaning && c.keyword == keyword
      && (c.folderId.None? <==> folderId == "")
      && (c.imageUrl.None? <==> imageUrl == "")
      && c.status == Library && c.intervalIndex == 0 && ValidIndex(c.intervalIndex)
      && c in FolderView([c] + cards, Library, selected)
  {
    var c := NewCard(id, folderId, turkishMeaning, arabicWord, keyword, story, imagePrompt, imageUrl);
    FolderViewIsFilter([c] + cards, Library, selected);
    assert c in [c] + cards;
  }

  /** The prompt the image is drawn from: the form's prompt when it is not
      blank, else a freshly generated one, else (when that fails) the story. */
  function PromptToUse(imagePrompt: string, story: string, generated: Result<string, string>): string {
    if !IsBlank(imagePrompt) then imagePrompt
    else match generated
      case Ok(p) => p
      case Err(_) => story
  }

  /** A non-blank prompt is used as it is; a blank one is replaced by a
      generated prompt or by the story; so the prompt used is never blank when
      the story and any generated prompt are not. */
  lemma PromptToUseSpec(imagePrompt: string, story: string, generated: Result<string, string>)
    ensures !IsBlank(imagePrompt) ==> PromptToUse(imagePrompt, story, generated) == imagePrompt
    ensures IsBlank(imagePrompt) && generated.Err? ==> PromptToUse(imagePrompt, story, generated) == story
    ensures IsBlank(imagePrompt) && generated.Ok? ==> PromptToUse(imagePrompt, story, generated) == generated.value
    ensures !IsBlank(story) && (generated.Ok? ==> !IsBlank(generated.value)) ==>
      !IsBlank(PromptToUse(imagePrompt, story, generated))
  {
  }

  /** Every failure of the mnemonic generation carries a message, so the
      dialog shows the service's own words and never its fallback. */
  lemma GenerateFailureHasMessage(apiKey: string, response: Result<string, Thrown>)
    ensures GenerateMnemonicData(apiKey, response).Err? ==> GenerateMnemonicData(apiKey, response).error != ""
  {
  }

  /** The dialog's form state. */
  class CreateForm {
    var step: Step
    var inputWord: string
    var isLoading: bool
    var error: Option<string>
    var loadingMsgIndex: nat
    var turkishMeaning: string
    var arabicWord: string
    var keyword: string
    var story: string
    var imagePrompt: string
    var imageUrl: string
    var selectedFolderId: string
    var showSavedFeedback: bool
    var isGeneratingImage: bool

    /** The loading message index names one of the messages. */
    ghost predicate Valid()
      reads this
    {
      loadingMsgIndex < |LoadingMessages|
    }

    /** The empty form, with `initialFolderId` preselected. */
    constructor (initialFolderId: string)
      ensures Valid()
      ensures step == InputStep && inputWord == "" && !isLoading && error == None && loadingMsgIndex == 0
      ensures turkishMeaning == "" && arabicWord == "" && keyword == "" && story == ""
      ensures imagePrompt == "" && imageUrl == "" && selectedFolderId == initialFolderId
      ensures !showSavedFeedback && !isGeneratingImage
    {
      step := InputStep;
      inputWord := "";
      isLoading := false;
      error := None;
      loadingMsgIndex := 0;
      turkishMeaning := "";
      arabicWord := "";
      keyword := "";
      story := "";
      imagePrompt := "";
      imageUrl := "";
      selectedFolderId := initialFolderId;
      showSavedFeedback := false;
      isGeneratingImage := false;
    }

    /** The effect that re-selects the initial folder whenever the dialog is
        open. */
    method SyncFolder(isOpen: bool, initialFolderId: string)
      modifies this`selectedFolderId
      ensures selectedFolderId == if isOpen then initialFolderId else old(selectedFolderId)
    {
      if isOpen {
        selectedFolderId := initialFolderId;
      }
    }

    /** The start of `handleGenerate`: a blank word does nothing; otherwise
        loading starts from the first message and the old error is cleared. */
    method BeginGenerate() returns (started: bool)
      requires Valid()
      modifies this`isLoading, this`error, this`loadingMsgIndex
      ensures Valid()
      ensures started <==> !IsBlank(inputWord)
      ensures !started ==>
        isLoading == old(isLoading) && error == old(error) && loadingMsgIndex == old(loadingMsgIndex)
      ensures started ==> isLoading && error == None && loadingMsgIndex == 0
    {
      if IsBlank(inputWord) {
        return false;
      }
      isLoading := true;
      error := None;
      loadingMsgIndex := 0;
      return true;
    }

    /** The interval while loading: the next message, wrapping round. */
    method LoadingTick()
      requires Valid()
      modifies this`loadingMsgIndex
      ensures Valid()
      ensures loadingMsgIndex == if isLoading then NextMessage(old(loadingMsgIndex)) else old(loadingMsgIndex)
    {
      if isLoading {
        loadingMsgIndex := NextMessage(loadingMsgIndex);
      }
    }

    /** The end of `handleGenerate`, given how `generateMnemonicData` settled:
        on success the five fields are filled and the preview shows; on
        failure the message (or, without one, the fallback) shows and the form
        stays; loading ends either way. */
    method FinishGenerate(outcome: Result<MnemonicData, string>)
      requires Valid()
      modifies this`isLoading, this`error, this`step, this`turkishMeaning, this`arabicWord,
        this`keyword, this`story, this`imagePrompt
      ensures Valid() && !isLoading
      ensures outcome.Ok? ==>
        var d := outcome.value;
        && step == PreviewStep && error == old(error)
        && turkishMeaning == d.turkishMeaning && arabicWord == d.arabicWord && keyword == d.keyword
        && story == d.story && imagePrompt == d.imagePrompt
      ensures outcome.Err? ==>
        && error == Some(if outcome.error != "" then outcome.error else GenerateFallbackMessage)
        && step == old(step) && turkishMeaning == old(turkishMeaning) && arabicWord == old(arabicWord)
        && keyword == old(keyword) && story == old(story) && imagePrompt == old(imagePrompt)
    {
      match outcome {
        case Ok(d) =>
          turkishMeaning := d.turkishMeaning;
          arabicWord := d.arabicWord;
          keyword := d.keyword;
          story := d.story;
          imagePrompt := d.imagePrompt;
          step := PreviewStep;
        case Err(m) =>
          error := Some(if m != "" then m else GenerateFallbackMessage);
      }
      isLoading := false;
    }

    /** The first step of `handleGenerateImage`: the form's prompt when it is
        not blank; otherwise a generated prompt, which the form keeps, or, when
        that fails, the story. */
    method ChoosePrompt(apiKey: string, promptResponse: Result<string, Thrown>) returns (promptToUse: string)
      modifies this`imagePrompt
      ensures promptToUse == PromptToUse(old(imagePrompt), story, GenerateCreativePrompt(apiKey, promptResponse))
      ensures imagePrompt ==
        if IsBlank(old(imagePrompt)) && GenerateCreativePrompt(apiKey, promptResponse).Ok? then
          GenerateCreativePrompt(apiKey, promptResponse).value
        else old(imagePrompt)
    {
      promptToUse := imagePrompt;
      if IsBlank(promptToUse) {
        match GenerateCreativePrompt(apiKey, promptResponse) {
          case Ok(p) =>
            promptToUse := p;
            imagePrompt := p;
          case Err(_) =>
            promptToUse := story;
        }
      }
    }

    /** `handleGenerateImage`, given the key and the answers of the prompt and
        image calls: nothing for a blank story; otherwise a blank prompt is
        first replaced (by a generated prompt, which the form keeps, or by the
        story), and a generated image replaces the form's image. `used` is the
        prompt the image was asked for; `alerted` says the image failed. */
    method GenerateImageAction(apiKey: string, promptResponse: Result<string, Thrown>,
                               imageResponse: Result<seq<Part>, Thrown>)
      returns (used: Option<string>, alerted: bool)
      modifies this`imagePrompt, this`imageUrl, this`isGeneratingImage
      ensures IsBlank(old(story)) ==>
        used == None && !alerted && imagePrompt == old(imagePrompt) && imageUrl == old(imageUrl)
        && isGeneratingImage == old(isGeneratingImage)
      ensures !IsBlank(old(story)) ==>
        var generated := GenerateCreativePrompt(apiKey, promptResponse);
        && used == Some(PromptToUse(old(imagePrompt), story, generated))
        && imagePrompt == (if IsBlank(old(imagePrompt)) && generated.Ok? then generated.value else old(imagePrompt))
        && !isGeneratingImage
      ensures !IsBlank(old(story)) && (KeyMissing(apiKey) || imageResponse.Err? || FirstImagePart(imageResponse.value).None?) ==>
        alerted && imageUrl == old(imageUrl)
      ensures !IsBlank(old(story)) && !KeyMissing(apiKey) && imageResponse.Ok? && FirstImagePart(imageResponse.value).Some? ==>
        var part := imageResponse.value[FirstImagePart(imageResponse.value).value].inlineData.value;
        !alerted && imageUrl == DataUrl(part.mimeType, part.data)
    {
      if IsBlank(story) {
        return None, false;
      }
      isGeneratingImage := true;
      var promptToUse := ChoosePrompt(apiKey, promptResponse);
      used := Some(promptToUse);
      var image := GenerateImage(apiKey, imageResponse);
      match image {
        case Ok(url) =>
          imageUrl := url;
          alerted := false;
        case Err(_) =>
          alerted := true;
      }
      isGeneratingImage := false;
    }

    /** The six card fields of the form emptied. */
    method ClearDraft()
      modifies this`turkishMeaning, this`arabicWord, this`keyword, this`story, this`imagePrompt, this`imageUrl
      ensures turkishMeaning == "" && arabicWord == "" && keyword == "" && story == ""
      ensures imagePrompt == "" && imageUrl == ""
    {
      turkishMeaning := "";
      arabicWord := "";
      keyword := "";
      story := "";
      imagePrompt := "";
      imageUrl := "";
    }

    /** `resetForm`, back to the empty input step with `initialFolderId`. */
    method ResetForm(initialFolderId: string)
      modifies this
      ensures isLoading == old(isLoading) && loadingMsgIndex == old(loadingMsgIndex)
      ensures step == InputStep && inputWord == "" && error == None
      ensures turkishMeaning == "" && arabicWord == "" && keyword == "" && story == ""
      ensures imagePrompt == "" && imageUrl == "" && selectedFolderId == initialFolderId
      ensures !showSavedFeedback && !isGeneratingImage
    {
      step := InputStep;
      inputWord := "";
      ClearDraft();
      selectedFolderId := initialFolderId;
      error := None;
      showSavedFeedback := false;
      isGeneratingImage := false;
    }

    /** `handleSave`: the form becomes a new card at the front of the store
        (with the fresh id `freshId`), then the form is reset. */
    method Save(store: CardStore, freshId: string, initialFolderId: string)
      modifies this, store`cards, store`activeTab
      ensures isLoading == old(isLoading) && loadingMsgIndex == old(loadingMsgIndex)
      ensures store.cards == [NewCard(freshId, old(selectedFolderId), old(turkishMeaning), old(arabicWord),
        old(keyword), old(story), old(imagePrompt), old(imageUrl))] + old(store.cards)
      ensures store.activeTab == LibraryTab
      ensures step == InputStep && inputWord == "" && error == None
      ensures turkishMeaning == "" && arabicWord == "" && keyword == "" && story == ""
      ensures imagePrompt == "" && imageUrl == "" && selectedFolderId == initialFolderId
      ensures !showSavedFeedback && !isGeneratingImage
    {
      var card := NewCard(freshId, selectedFolderId, turkishMeaning, arabicWord, keyword, story, imagePrompt, imageUrl);
      store.SaveCard(card);
      ResetForm(initialFolderId);
    }
  }
}
