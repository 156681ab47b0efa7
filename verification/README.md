# Arabic mnemonic flashcards — a Dafny model of the scheduling core

The application teaches Arabic words to Turkish speakers. Each word becomes a
card holding its Turkish meaning, the Arabic word, a sound-alike keyword, a
short story and an illustration. Library cards can be activated; active cards
climb a fixed ladder of review delays. That ladder runs 5 s, 25 s, 2 min,
10 min, 1 h, 5 h and 1 day, one rung up per review.

This project models the logic behind that in Dafny:

- **App store.** The card and folder store of the application shell.
- **Active panel.** The one-shot timer armed for the next card to fall due, the
  alarm flag, the ready-first ordering and the countdown text.
- **Audio alarm.** The module-level alarm state with its lookahead note
  scheduler, the Arabic-voice filter, the pronunciation stripping and the
  voice priority chain.
- **AI service.** The text handling around the three calls to the generative
  model.
- **Bulk creation.** The queue, its pauses and its log.
- **Dialogs.** The region names and throttled voice list of the settings
  dialog, the library panel (filtering, selection, paging, export, folder
  form) and the single-card creation dialog.

One Dafny module per source file:

| module | file | source |
|---|---|---|
| `Types` | `types.dfy` | `types.ts` and the folder view shared by both panels |
| `App` | `app.dfy` | `App.tsx` handlers, as class `CardStore` |
| `ActivePanel` | `active_panel.dfy` | `components/ActivePanel.tsx`, as class `QueuePanel` |
| `Audio` | `audio.dfy` | `utils/audio.ts`, alarm as class `AlarmSink` |
| `GeminiService` | `gemini_service.dfy` | `services/geminiService.ts` |
| `BulkCreate` | `bulk_create.dfy` | `components/BulkCreateModal.tsx`, as class `BulkQueue` |
| `SettingsModal` | `settings_modal.dfy` | `components/SettingsModal.tsx`, as class `VoiceSettings` |
| `LibraryPanel` | `library_panel.dfy` | `components/LibraryPanel.tsx`, as class `LibraryView` |
| `CreateModal` | `create_modal.dfy` | `components/CreateModal.tsx`, as class `CreateForm` |

Shared helpers:

- `wrappers.dfy`: `Option`, `Result`.
- `text.dfy`: the JavaScript string operations used: `trim`, `split`, `join`,
  `indexOf`, `includes`, `startsWith`, case mapping, `padStart` and decimal
  rendering.
- `seqs.dfy`: `filter`, `map`, `find` and `findIndex`.

How the browser's behaviour is represented:

- **Handlers as transitions.** Each React handler or effect is one atomic state
  transition of a class.
- **Lists as values.** Each list updater (`prev.map(...)`, `prev.filter(...)`)
  is a pure function that the method assigns.
- **Inputs as parameters.** Clock readings (`Date.now()`, the audio clock),
  fresh ids (`uuidv4()`), the answer to `window.confirm`, the outcome of each
  model call and the measurements of the scroll container are parameters.
- **The random pause.** The pause of ten to fifteen seconds between bulk words
  is a nondeterministic choice.
- **Alarm time.** Alarm timing is in whole milliseconds of the audio clock
  (0.1 s, 1.5 s, 2.5 s, 0.25 s and 0.5 s become 100, 1500, 2500, 250 and
  500).

## Model

| member | source | states |
|---|---|---|
| Types.LadderShape | types.ts:20-36 | The ladder and its labels both have seven entries. It starts at 5000 ms and ends at 86,400,000 ms. Every valid `intervalIndex` (0..6) is in range for both arrays. |
| Types.LadderIncreasing | types.ts:24-32 | Each rung's delay is strictly longer than every rung below it. |
| Types.LabelsNameIntervals | types.ts:24-36 | The label at each index, read as a count and a unit letter, is the delay at the same index ("25s" is 25000 ms, "1d" is 86,400,000 ms). |
| Types.FolderViewIsFilter | components/ActivePanel.tsx:26-32 | Filtering by status and then by the selected folder (only when one is selected) is one filter by "in view". The result holds exactly the cards in view, in list order and multiplicity. |
| App.MapById | App.tsx:179-180 | The id-keyed map keeps the length. Each card with the id becomes `f` of it, and every other card is left as it is. |
| App.ActivateSpec | App.tsx:155-166 | Activation keeps the length and leaves cards with other ids untouched. Each card with the id becomes active at rung 0, due `now + 5000`, whatever its previous status, and keeps its other fields. |
| App.DeactivateSpec | App.tsx:170-176 | Deactivation changes only the status of the cards with the id, to library. Their rung and due time stay, as do all other cards. |
| App.MapByMissingId | App.tsx:179-180 | A map keyed by an id that no card has leaves the list unchanged. |
| App.UpdateSpec | App.tsx:179-180 | An update replaces exactly the cards whose id matches the updated card. With no such card the list is unchanged. |
| App.RemoveCardSpec | App.tsx:183-184 | Deletion removes every card with the id and keeps every other card with its multiplicity. A missing id is a no-op. |
| App.RemoveCardsSpec | App.tsx:187-190 | Bulk deletion keeps exactly the cards whose id is not listed, each as often as before, and none whose id is listed. The number removed is the number of cards whose id is listed. |
| App.ActiveCountAfterActivate | App.tsx:155-166 | After activating an id, the active count is the number of cards that were active or carry the id. |
| App.ActiveCountAfterDeactivate | App.tsx:170-176 | After deactivating an id, the active count is the number of cards that were active and do not carry the id. |
| App.ActiveCountSpec | App.tsx:194 | The active count is at most the number of cards. It is zero exactly when no card is active. |
| App.CardStore.constructor | App.tsx:24-40 | Empty card and folder lists, no folder selected, library tab shown. |
| App.CardStore.SaveCard | App.tsx:135-138 | The new card is prepended to the list, and the library tab shows. |
| App.CardStore.CreateFolder | App.tsx:140-143 | A folder with the fresh id, the given name and the current time is appended. |
| App.CardStore.DeleteFolder | App.tsx:145-153 | A declined confirmation changes nothing. Otherwise exactly the folders with that id go, and the library selection is cleared if it was that folder. Cards are never touched. |
| App.CardStore.SelectLibraryFolder | App.tsx:216 | The library's selected folder becomes the one given. |
| App.CardStore.ActivateCard | App.tsx:155-168 | The card list becomes its activation at `now` (see `ActivateSpec`), and the active tab shows. |
| App.CardStore.DeactivateCard | App.tsx:170-177 | The card list becomes its deactivation (see `DeactivateSpec`). |
| App.CardStore.UpdateCard | App.tsx:179-181 | The card list becomes its update (see `UpdateSpec`). |
| App.CardStore.DeleteCard | App.tsx:183-185 | The card list loses the cards with the id (see `RemoveCardSpec`). |
| App.CardStore.BulkDelete | App.tsx:187-192 | An empty id list or a declined confirmation leaves the cards unchanged. Otherwise they become the cards whose id is not listed. |
| ActivePanel.ActiveCardsSpec | components/ActivePanel.tsx:26-32 | The active list holds exactly the active cards, restricted to the selected folder when one is selected, in list order. |
| ActivePanel.NearestDue | components/ActivePanel.tsx:47-53 | None exactly when no due time is after `now`. Otherwise the result is a due time of some card, is after `now`, and is no later than any future due time. |
| ActivePanel.ArmedSpec | components/ActivePanel.tsx:44-56 | No timer is armed when every card is already due. Otherwise exactly one timer is armed, for the nearest future due time, with a positive delay that reaches that time. It captures the list it was armed on. |
| ActivePanel.RearmIsLater | components/ActivePanel.tsx:76-78 | A timer that fired at or after its target, re-armed on its captured list, aims strictly later than before. |
| ActivePanel.ReviewedSpec | components/ActivePanel.tsx:146-153 | A review moves the card one rung up and holds it at the top rung. It becomes due `now` plus the new rung's delay, which is later than `now`. No other field changes. |
| ActivePanel.ReviewWaitsLonger | components/ActivePanel.tsx:146-147 | Below the top rung a review lengthens the card's delay; at the top it keeps it. |
| ActivePanel.NextLabelSpec | components/ActivePanel.tsx:262 | The "Next" label names exactly the delay the review will set. |
| ActivePanel.CompareTotalPreorder | components/ActivePanel.tsx:132-138 | The comparator (ready first, then by due time) is total and transitive. |
| ActivePanel.Insert | components/ActivePanel.tsx:131-139 | Inserting into a sorted list keeps it sorted and adds exactly that card. |
| ActivePanel.Sort | components/ActivePanel.tsx:131-139 | The sorted list is ordered by the comparator and is a permutation of its input. |
| ActivePanel.SortReadyCount | components/ActivePanel.tsx:129-139 | Sorting keeps the number of ready cards. |
| ActivePanel.SortedReadyPrefix | components/ActivePanel.tsx:129-139 | In a sorted list, a card is ready exactly when its position is below the ready count. |
| ActivePanel.SortSpec | components/ActivePanel.tsx:129-139 | The sorted list is a permutation of the active list. Every ready card precedes every waiting card, and cards within each group ascend by due time. Exactly the first `readyCount` positions are ready. |
| ActivePanel.PaddedValue | components/ActivePanel.tsx:170-171 | A number below 100, padded to two digits, is exactly two digits that read back as the number. |
| ActivePanel.BreakdownParts | components/ActivePanel.tsx:166-169 | Hours, minutes and seconds recombine to the whole seconds, and the minutes are below 60. |
| ActivePanel.ReadsBackHours | components/ActivePanel.tsx:173 | "Hh MMm" reads back as H hours and MM minutes. |
| ActivePanel.ReadsBackMinutes | components/ActivePanel.tsx:174 | "Mm SSs" reads back as M minutes and SS seconds. |
| ActivePanel.ReadsBackSeconds | components/ActivePanel.tsx:175 | "Ss" reads back as S seconds. |
| ActivePanel.ReadsBackTotal | components/ActivePanel.tsx:166-175 | The text of a whole number of seconds reads back as that number. In the hour tier it reads back without the leftover seconds. |
| ActivePanel.ReadsBackHourTier | components/ActivePanel.tsx:166-173 | From one hour up, the text reads back as the total less its leftover seconds. |
| ActivePanel.ReadsBackMinuteTier | components/ActivePanel.tsx:166-174 | From one minute to under an hour, the text reads back as the total. |
| ActivePanel.FormatTimeLeftReadsBack | components/ActivePanel.tsx:162-176 | The result is null exactly when the target is not after `now`. Otherwise the text reads back as the remaining whole seconds, truncated to whole minutes in the hour tier. |
| ActivePanel.FormatTimeLeftSubSecond | components/ActivePanel.tsx:163-175 | A remainder under one second shows "0s". |
| ActivePanel.FormatTimeLeftTiers | components/ActivePanel.tsx:166-175 | The hour tier is used exactly from 3,600,000 ms remaining. The minute tier is used exactly from 60,000 ms up to that. |
| ActivePanel.QueuePanel.constructor | components/ActivePanel.tsx:18-23 | A fresh panel at the given clock: no folder chosen, no timer, alarm flag clear. |
| ActivePanel.QueuePanel.ScheduleSmartTimer | components/ActivePanel.tsx:37-79 | Any pending timer is replaced, so at most one is pending. None is armed exactly when every card is due. Otherwise the timer targets the nearest future due time with a positive delay. |
| ActivePanel.QueuePanel.OnActiveCardsChanged | components/ActivePanel.tsx:82-89 | The timer is re-armed on the folder-filtered active list, and the clock reading is refreshed. |
| ActivePanel.QueuePanel.SelectFolder | components/ActivePanel.tsx:197-208 | Choosing a folder chip sets the selection, and the timer is re-armed on the new filtered list. |
| ActivePanel.QueuePanel.Fire | components/ActivePanel.tsx:56-78 | The clock becomes the wake time and the alarm flag is set. The alarm is started only if the flag was clear; with the flag set the alarm is untouched. A start with the alarm already playing, or with no audio context to be had, leaves every alarm field as it was. A real start leaves the alarm playing with its context, its pass armed, the first note's tones queued 100 ms ahead and the next note 2.5 s after that. A notification is due exactly when permitted and hidden. The timer is re-armed on the captured list and aims strictly later. |
| ActivePanel.QueuePanel.Interaction | components/ActivePanel.tsx:112-117 | The flag is cleared. The alarm is stopped only if the flag was set; otherwise the alarm is untouched. |
| ActivePanel.QueuePanel.VisibilityChange | components/ActivePanel.tsx:101-105 | Becoming visible refreshes the clock reading only. The timer is not re-armed. |
| ActivePanel.QueuePanel.ReviewAction | components/ActivePanel.tsx:142-156 | The alarm stops and the flag clears. The store updates the card to its reviewed form at the clock. |
| ActivePanel.QueuePanel.Unmount | components/ActivePanel.tsx:86-96 | The pending timer is cleared and the alarm stopped. |
| Audio.ReplaceUnderscoreKeepsArPrefix | utils/audio.ts:8-12 | Replacing the first '_' by '-' does not change whether a tag starts with "ar". |
| Audio.LowerKeepsArabicChars | utils/audio.ts:9-18 | Lower-casing keeps whether a name has a character of the Arabic block. |
| Audio.ArabicVoiceIff | utils/audio.ts:7-21 | A voice qualifies exactly when its lower-cased tag starts with "ar", or its lower-cased name contains "arab", or its name has a character in U+0600..U+06FF. |
| Audio.AvailableArabicVoicesSpec | utils/audio.ts:2-22 | The available voices are exactly the listed voices that qualify, and none without speech support. |
| Audio.SpokenTextDropsPronunciation | utils/audio.ts:50-51 | "word (pronunciation)" is spoken as the trimmed word. |
| Audio.StripAnnotated | utils/audio.ts:51 | Removing whitespace-led parenthesised groups leaves the word in front of the group. |
| Audio.StripWithoutParens | utils/audio.ts:51 | Text without a '(' is left as it is. |
| Audio.SelectIndex | utils/audio.ts:61-87 | The selection is found at this index of the list, or there is no selection. |
| Audio.SelectVoiceNone | utils/audio.ts:61-87 | There is no voice (so the language falls back to "ar-SA") exactly when no listed voice is preferred, Saudi, Arabic-tagged or named Arabic. |
| Audio.SelectIndexRank | utils/audio.ts:61-79 | The selected voice has the best priority present (preferred, then "ar-sa", then an "ar" tag, then an "arabic" name). No earlier voice in the list has that priority. |
| Audio.SelectVoiceBest | utils/audio.ts:61-79 | The chosen voice is the first listed voice of the best priority present. |
| Audio.AwaitVoices | utils/audio.ts:149-169 | At most 10 retries are made, one per empty reading after the first. Speaking starts at the first reading that lists voices, or once the retries are used up, and never before. |
| Audio.PassEndSpec | utils/audio.ts:217-222 | A scheduler pass moves the next note time on by whole beat intervals. It ends at or past `currentTime + 1.5 s`, less than one interval past it. |
| Audio.PassTonesSpec | utils/audio.ts:189-222 | The n-th note of a pass starts at `next + n*2.5 s`, before the horizon, and its second tone follows 0.25 s later. There is one note per interval covered. |
| Audio.AlarmSink.constructor | utils/audio.ts:175-178 | No context, not playing, next note at 0, no timer, nothing queued. |
| Audio.AlarmSink.Scheduler | utils/audio.ts:217-224 | Without playing or a context, nothing changes. Otherwise the pass queues exactly the notes of `PassTones`, moves the next note time to `PassEnd` and re-arms the timer. |
| Audio.AlarmSink.Start | utils/audio.ts:226-234 | A no-op while playing or without an audio context. Otherwise it plays, the first note is 0.1 s ahead, and the first pass queues that one note. |
| Audio.AlarmSink.Stop | utils/audio.ts:236-242 | Not playing and no timer afterwards; queued tones stay. Calling it twice is the same as once. |
| GeminiService.NonBlankLines | services/geminiService.ts:25 | Every kept line is non-blank and has no newline. |
| GeminiService.ParseMnemonic | services/geminiService.ts:22-38 | Fails exactly for an empty text or fewer than four non-blank lines, with "No response" or "incomplete" respectively. On success the image prompt is "". |
| GeminiService.ParseIgnoresExtraLines | services/geminiService.ts:25-38 | Four trimmed, non-empty, single-line fields followed by a newline and any text at all parse to those fields: lines after the fourth are ignored. |
| GeminiService.ParseMnemonicRoundTrip | services/geminiService.ts:5-38 | Four trimmed, non-empty, single-line fields joined by newlines parse back to those fields in order, with an empty image prompt. |
| GeminiService.LinesOfJoin | services/geminiService.ts:25 | Trimmed non-empty single-line fields joined by newlines split back into those fields. |
| GeminiService.ClassifyError | services/geminiService.ts:42-56 | The classified message is never empty. |
| GeminiService.ClassifyErrorSpec | services/geminiService.ts:42-56 | The quota message comes back exactly when the text has "429" or "RESOURCE_EXHAUSTED" (or is that message). The unavailable message comes back exactly when it has "503" or "500" but no quota code (or is that message). A non-empty text comes back unchanged exactly when it has none of the four codes. |
| GeminiService.PlainMessage | services/geminiService.ts:55-56 | A non-empty message with no '4', '5' or 'R' character at all (so none of the four codes) is re-thrown unchanged. The exact condition, no code as a substring, is the third part of ClassifyErrorSpec. |
| GeminiService.ClassifyIdempotent | services/geminiService.ts:42-56 | Classifying a classified message gives it back. |
| GeminiService.ParseErrorsSurvive | services/geminiService.ts:22-56 | An empty response and a short one fail with their own messages, not mistaken for quota or server errors. |
| GeminiService.MissingKeyFailsFirst | services/geminiService.ts:6-8 | Without a key, the mnemonic generation fails with the missing-key message whatever the model would have answered. |
| GeminiService.GenerateCreativePrompt | services/geminiService.ts:60-85 | Without a key it fails first; a thrown call gives the fixed failure; otherwise it succeeds. The result is a trimmed piece of the response with only white space around it, and it is empty exactly when the response is blank. |
| Text.TrimUnique | services/geminiService.ts:80 | The trimmed piece of a string with only white space around it, non-empty unless the string is blank, is unique: it is what `trim` returns. |
| GeminiService.DataUrlRoundTrip | services/geminiService.ts:104 | The data URL of a media type without ';' reads back as that media type and payload. |
| GeminiService.FirstImagePart | services/geminiService.ts:102-106 | None exactly when no part has inline data. Otherwise it is the first part with inline data. |
| GeminiService.GenerateImage | services/geminiService.ts:87-112 | Without a key it fails first. A thrown call, or a response with no image part, gives the fixed failure. Otherwise the result is the data URL of the first image part. |
| BulkCreate.ParseWordsSpec | components/BulkCreateModal.tsx:74 | Every parsed word is non-empty, trimmed and single-line. |
| BulkCreate.ParseWordsRoundTrip | components/BulkCreateModal.tsx:74 | Trimmed, non-empty, single-line words, one per line, parse back to the same words in the same order. |
| BulkCreate.ParseWordsBlank | components/BulkCreateModal.tsx:74-75 | Blank input parses to no words. |
| BulkCreate.BulkCard | components/BulkCreateModal.tsx:129-141 | A saved card is in the library at rung 0, due at 0, in the chosen folder (none for ""), with the generated image, prompt and story. |
| BulkCreate.BulkQueue.constructor | components/BulkCreateModal.tsx:38-49 | Idle with an empty queue and log, index 0 and the initial folder. |
| BulkCreate.BulkQueue.Open | components/BulkCreateModal.tsx:52-64 | Opening resets the whole state, with the flag clear. |
| BulkCreate.BulkQueue.Close | components/BulkCreateModal.tsx:67-71 | Status becomes idle and the flag is cleared. |
| BulkCreate.BulkQueue.Start | components/BulkCreateModal.tsx:73-82 | With no words nothing changes. Otherwise the queue is the parsed words, at index 0 with an empty log, generating, with the flag set. |
| BulkCreate.BulkQueue.Load | components/BulkCreateModal.tsx:75-81 | The same transition, given the parsed words. |
| BulkCreate.BulkQueue.Stop | components/BulkCreateModal.tsx:84-87 | Paused with the flag clear. |
| BulkCreate.BulkQueue.Resume | components/BulkCreateModal.tsx:332 | Generating with the flag set, at the same index. So a Stop and Resume during a pause make the next ProcessCurrent log the word already processed again, as the source does. |
| BulkCreate.BulkQueue.AddLog | components/BulkCreateModal.tsx:89-97 | Exactly one entry is prepended, and the older entries follow unchanged. |
| BulkCreate.BulkQueue.ProcessCurrent | components/BulkCreateModal.tsx:105-163 | Without the flag nothing changes; past the end it is done with the flag clear. Otherwise exactly one log entry is prepended: the given id, the current word and the time. On success the entry has no message, the card is saved and the app shows the library tab. On failure the entry carries the message, or "Generation failed", and the cards and the tab stay. Then it waits 10-15 s if a word follows, else it is done. |
| BulkCreate.BulkQueue.Tick | components/BulkCreateModal.tsx:168-180 | Outside a wait nothing changes. A countdown of 1 or less goes to 0, moves to the next word and generates; a higher one counts down by one. |
| SettingsModal.RegionNameSpec | components/SettingsModal.tsx:104-116 | "General" exactly when the tag has no region code, with the first '_' read as '-'. A known code in any case gives its country; any other code gives itself in upper case. |
| SettingsModal.RegionNameIgnoresCase | components/SettingsModal.tsx:115 | Codes that agree up to letter case give the same name. |
| SettingsModal.VoiceSettings.constructor | components/SettingsModal.tsx:28-40 | No voices, not playing, last update 0, mounted. |
| SettingsModal.VoiceSettings.UpdateVoices | components/SettingsModal.tsx:39-53 | Nothing happens once unmounted or within 500 ms of the last accepted update. Otherwise the update is accepted at `now`. It keeps the old list when the old and new lists are non-empty and equally long, and takes the filtered Arabic voices otherwise. |
| SettingsModal.VoiceSettings.Unmount | components/SettingsModal.tsx:62-73 | Later updates are ignored. |
| SettingsModal.VoiceSettings.TestVoice | components/SettingsModal.tsx:79-89 | Pressing the playing voice stops it and clears the playing voice. Pressing any other voice makes it the one playing and starts a sample. |
| SettingsModal.VoiceSettings.SampleEnded | components/SettingsModal.tsx:95-99 | The playing voice is cleared only if it is still this voice. |
| LibraryPanel.LibraryCardsSpec | components/LibraryPanel.tsx:57-63 | The library list holds exactly the library cards, restricted to the selected folder when one is selected, in list order. Without a selection it is all library cards. |
| LibraryPanel.ReconciledFolderSpec | components/LibraryPanel.tsx:50-54 | A selection whose folder is gone is cleared, and an existing one is kept. Afterwards any selection names an existing folder, and a second pass changes nothing. |
| LibraryPanel.ToggledSpec | components/LibraryPanel.tsx:77-85 | Toggling flips the membership of that id only, and the selection stays free of duplicates. |
| LibraryPanel.ToggleTwice | components/LibraryPanel.tsx:77-85 | Toggling the same id twice restores the set. For an id that was not selected it restores the exact sequence. |
| LibraryPanel.CleanExportWordSpec | components/LibraryPanel.tsx:99-102 | A cleaned word is trimmed, holds no Latin letter (a-z, A-Z, ā..ž, Ā..Ž) or digit, and holds no character absent from the original word. |
| LibraryPanel.CleanAnnotatedWord | components/LibraryPanel.tsx:101-102 | "word (transliteration)" cleans to the word. |
| LibraryPanel.ExportTextSpec | components/LibraryPanel.tsx:97-103 | Nothing is exported exactly when the library list is empty. Otherwise the text splits into the cleaned, non-empty words, each trimmed and Latin-free, or is "" when none is left. |
| LibraryPanel.ScrolledSpec | components/LibraryPanel.tsx:115-121 | After k near-bottom scrolls the visible count is `min(v + 20k, count)`. |
| LibraryPanel.ScrolledReachesEnd | components/LibraryPanel.tsx:119-120 | Enough scrolls show the whole list. |
| LibraryPanel.LibraryView.constructor | components/LibraryPanel.tsx:40-45 | Not in selection mode, nothing selected, 20 cards visible, no folder form, no card viewed. |
| LibraryPanel.LibraryView.ReconcileSelection | components/LibraryPanel.tsx:50-54 | The store's library selection is reconciled with the folder list, and then names an existing folder if any. |
| LibraryPanel.LibraryView.ToggleSelectionMode | components/LibraryPanel.tsx:65-73 | The mode flips. Leaving it empties the selection. |
| LibraryPanel.LibraryView.CardClick | components/LibraryPanel.tsx:75-89 | In selection mode the card's id is toggled. Otherwise the card is opened and the selection kept. |
| LibraryPanel.LibraryView.BulkDeleteAction | components/LibraryPanel.tsx:91-95 | The selected ids go to the store's bulk delete, so a confirmed delete keeps exactly the cards not selected. Selection mode then ends with nothing selected. |
| LibraryPanel.LibraryView.Scroll | components/LibraryPanel.tsx:115-124 | Within 500 px of the bottom one more page of 20 shows, never past the list length and never shrinking. Otherwise nothing changes. |
| LibraryPanel.LibraryView.CreateFolderSubmit | components/LibraryPanel.tsx:126-133 | A blank name does nothing. Otherwise a folder with the trimmed name is appended, and the form closes empty. |
| CreateModal.MessageAfterSpec | components/CreateModal.tsx:76-85 | After k ticks from message i the index is `(i + k) mod 4`, so it stays in 0..3. |
| CreateModal.NewCardSpec | components/CreateModal.tsx:141-154 | The card keeps the form's texts. It has a folder exactly when one was chosen and an image exactly when one exists. It is in the library at rung 0 and appears in the library view of its folder. |
| CreateModal.PromptToUseSpec | components/CreateModal.tsx:119-128 | A non-blank prompt is used as is. A blank one is replaced by the generated prompt or, when generation fails, by the story. |
| CreateModal.GenerateFailureHasMessage | components/CreateModal.tsx:108-109 | Every failure of the mnemonic generation carries a non-empty message. |
| CreateModal.CreateForm.constructor | components/CreateModal.tsx:31-52 | The input step with every field empty and the initial folder. |
| CreateModal.CreateForm.SyncFolder | components/CreateModal.tsx:88-92 | Opening restores the initial folder. |
| CreateModal.CreateForm.BeginGenerate | components/CreateModal.tsx:96-99 | A blank word does nothing. Otherwise loading starts from message 0 and the error clears. |
| CreateModal.CreateForm.LoadingTick | components/CreateModal.tsx:80-82 | While loading, the message index moves to the next one modulo 4. |
| CreateModal.CreateForm.FinishGenerate | components/CreateModal.tsx:100-112 | On success the five fields are filled and the preview shows. On failure the message, or the fallback, shows and the fields stay. Loading ends either way. |
| CreateModal.CreateForm.ChoosePrompt | components/CreateModal.tsx:119-128 | The prompt used is `PromptToUse` of the form's prompt, the story and the generation outcome. A generated prompt is kept in the form. |
| CreateModal.CreateForm.GenerateImageAction | components/CreateModal.tsx:115-139 | A blank story does nothing. A missing key, a failed call or no image part raises the alert and keeps the image. Otherwise the image becomes the data URL of the first image part. |
| CreateModal.CreateForm.ClearDraft | components/CreateModal.tsx:163-168 | The six card fields are empty. |
| CreateModal.CreateForm.ResetForm | components/CreateModal.tsx:160-173 | Back to the input step with every text field empty, the initial folder restored and no error. |
| CreateModal.CreateForm.Save | components/CreateModal.tsx:141-158 | The form's card is prepended to the store under the fresh id and the library shows. The form is reset: input step, empty word, no error, all six draft fields empty, the initial folder selected, no saved banner and no image generation running; loading state is kept. |

## Left out

- Rendering, styling and animation (JSX) in every component, and the purely
  presentational components.
- Persistence: the IndexedDB/localStorage load, migration and save effects of
  `App.tsx` are I/O.
- The network calls to the generative model SDK. Each call's answer (text,
  parts, or what it threw) and the API key are parameters. The prompt text
  sent to the model is not modelled.
- Browser capabilities:
  - the Web Audio node graph (gain ramps, oscillator frequency);
  - speech utterances, and the sequencing and cancellation in `playCardAudio`
    (the Turkish sentence first, then a pause of 2.5 s or 0.5 s, then Arabic);
  - `handleTestAudio`;
  - the Notification API and its permission request;
  - `navigator.vibrate`;
  - the clipboard paste handler and `FileReader` in `CreateModal.tsx`;
  - the Blob download in `handleExportTxt`.
  The model keeps the text, voice and timing decisions these rely on.
- Real time. `setTimeout`/`setInterval`, the 2-second voice poll and its
  10-second cut-off in the settings dialog are not modelled. Each tick or
  callback is a method the environment calls.
- React's effect ordering and batched re-renders. Each handler is one atomic
  transition, so an asynchronous handler cannot be interleaved with others.
  One effect this loses: a Stop pressed while a bulk word is being generated.
  In `components/BulkCreateModal.tsx`, `processCurrent` carries on after its
  awaits and sets 'waiting' (lines 152-157) although the flag is already
  clear. The next tick's 'generating' then stops at the flag test (line 106)
  and the run stalls. In the model, BulkCreate.BulkQueue.ProcessCurrent runs
  whole and cannot be interrupted by BulkCreate.BulkQueue.Stop.
- `onClose` and the other callbacks into the parent component. Where they
  change application state, they are the `CardStore` methods.
- ActivePanel.QueuePanel.Fire: the re-arm reads the clock as the wake time.
  The source reads `Date.now()` again inside `scheduleSmartTimer`.
- ActivePanel.Sort: `Array.prototype.sort` is modelled by insertion sort. The
  model proves order and permutation but not which order the engine gives
  cards that compare equal.
- Text.Lower and Text.Upper: letter case is mapped for ASCII only. The
  language tags and names concerned are ASCII in practice.
- Characters are Unicode scalar values, not UTF-16 code units. Surrogate pairs
  are not modelled.
- GeminiService.ClassifyError: `error.toString()` is a parameter (`rendered`)
  of the thrown value, not computed.
- LibraryPanel.ExportTextSpec: assumes no card's Arabic word contains a
  newline. Such a word would export as several lines, and the split would then
  not give back one line per card.
- LibraryPanel.LibraryView.Scroll: the scroll container's measurements are
  parameters. A missing container (the `if` at line 116) is the caller's
  concern.
- Bulk creation's step text ("Painting Image..." and the like) is display
  only.
