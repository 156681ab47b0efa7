/** Bulk creation: a list of words is worked through one at a time, each word
    becoming a saved card (or an error entry in the log), with a random pause
    of ten to fifteen seconds between words. */
module BulkCreate {
  import opened Wrappers
  import opened Text
  import opened Seqs
  import opened Types
  import opened App
  import opened GeminiService

  /** `w => w.length > 0` */
  function NonEmpty(): string -> bool {
    (w: string) => w != ""
  }

  /** `inputText.split('\n').map(w => w.trim()).filter(w => w.length > 0)` */
  function ParseWords(text: string): seq<string> {
    Filter(Map(Split(text, '\n'), Trim), NonEmpty())
  }

  /** Every parsed word is a non-empty, trimmed piece of one input line. */
  lemma ParseWordsSpec(text: string)
    ensures forall w :: w in ParseWords(text) ==> w != "" && IsTrimmed(w) && '\n' !in w
  {
    forall w | w in ParseWords(text)
      ensures w != "" && IsTrimmed(w) && '\n' !in w
    {
      ParsedWord(text, w);
    }
  }

  /** One parsed word is the trimmed form of one input line. */
  lemma ParsedWord(text: string, w: string)
    requires w in ParseWords(text)
    ensures w != "" && IsTrimmed(w) && '\n' !in w
  {
    var lines := Split(text, '\n');
    var trimmed := Map(lines, Trim);
    assert w in trimmed && w != "";
    var i :| 0 <= i < |trimmed| && trimmed[i] == w;
    assert w == Trim(lines[i]) && '\n' !in lines[i];
    InfixExcludes(w, lines[i], '\n');
  }

  /** One word per line, each already trimmed and non-empty, parses back to
      the same words in the same order. */
  lemma ParseWordsRoundTrip(words: seq<string>)
    requires |words| >= 1
    requires forall i :: 0 <= i < |words| ==> words[i] != "" && IsTrimmed(words[i]) && '\n' !in words[i]
    ensures ParseWords(Join(words, '\n')) == words
  {
    var lines := Split(Join(words, '\n'), '\n');
    SplitJoin(words, '\n');
    assert lines == words;
    var trimmed := Map(lines, Trim);
    forall i | 0 <= i < |words|
      ensures trimmed[i] == words[i]
    {
      TrimOfTrimmed(words[i]);
    }
    assert trimmed == words;
    FilterAll(words, NonEmpty());
  }

  /** Blank input parses to no words at all. */
  lemma ParseWordsBlank(text: string)
    requires IsBlank(text)
    ensures ParseWords(text) == []
  {
    var lines := Split(text, '\n');
    forall i | 0 <= i < |lines|
      ensures Trim(lines[i]) == ""
    {
      assert lines[i] in lines;
      JoinSplit(text, '\n');
      LinePiece(lines, '\n', i);
      var k :| InfixAt(lines[i], Join(lines, '\n'), k);
      assert forall j :: 0 <= j < |lines[i]| ==> lines[i][j] == text[k + j];
    }
    FilterNone(Map(lines, Trim), NonEmpty());
  }

  /** Every piece of a join occurs in it. */
  lemma {:induction false} LinePiece(parts: seq<string>, sep: char, i: nat)
    requires i < |parts|
    ensures exists k :: InfixAt(parts[i], Join(parts, sep), k)
  {
    if |parts| == 1 {
      assert InfixAt(parts[i], Join(parts, sep), 0);
    } else if i == 0 {
      assert InfixAt(parts[0], Join(parts, sep), 0);
    } else {
      LinePiece(parts[1..], sep, i - 1);
      var k :| InfixAt(parts[1..][i - 1], Join(parts[1..], sep), k);
      var off := |parts[0]| + 1;
      assert Join(parts, sep) == parts[0] + [sep] + Join(parts[1..], sep);
      assert InfixAt(parts[i], Join(parts, sep), off + k);
    }
  }

  /** Where the queue stands. */
  datatype ProcessStatus = Idle | Generating | Waiting | Paused | Done

  datatype LogStatus = Pending | Success | Failure

  /** One line of the progress log. */
  datatype LogEntry = LogEntry(id: string, word: string, status: LogStatus, message: Option<string>, timestamp: int)

  /** What the three model calls for one word produced: the mnemonic fields,
      the image prompt and the image data URL. */
  datatype Generated = Generated(data: MnemonicData, prompt: string, imageUrl: string)

  /** The card saved for a word, in the chosen folder (none for ""). */
  function BulkCard(id: string, folderId: string, g: Generated): (c: Card)
    ensures c.status == Library && c.intervalIndex == 0 && c.nextReviewTime == 0
    ensures c.folderId == (if folderId == "" then None else Some(folderId))
    ensures c.imageUrl == Some(g.imageUrl) && c.imagePrompt == g.prompt && c.story == g.data.story
  {
    Card(id, if folderId != "" then Some(folderId) else None,
      g.data.turkishMeaning, g.data.arabicWord, g.data.keyword, g.data.story,
      g.prompt, Some(g.imageUrl), Library, 0, 0)
  }

  /** The shortest and longest pause between words, in seconds. */
  const MinPause: nat := 10
  const MaxPause: nat := 15

  /** The bulk-create dialog's processing state. `processing` is the
      `processingRef` flag. */
  class BulkQueue {
    var selectedFolderId: string
    var status: ProcessStatus
    var queue: seq<string>
    var currentIndex: nat
    var logs: seq<LogEntry>
    var countdown: int
    var processing: bool

    /** The flag is set exactly while generating or waiting; the index never
        passes the end of the queue; a wait always has a next word to go to
        and a countdown between one and fifteen seconds. */
    predicate Valid()
      reads this
    {
      && (processing <==> status == Generating || status == Waiting)
      && currentIndex <= |queue|
      && (status == Waiting ==> currentIndex + 1 < |queue| && 1 <= countdown <= MaxPause)
    }

    /** The dialog as it is when opened with `initialFolderId` preselected. */
    constructor (initialFolderId: string)
      ensures Valid()
      ensures selectedFolderId == initialFolderId && status == Idle && queue == [] && currentIndex == 0
      ensures logs == [] && countdown == 0 && !processing
    {
      selectedFolderId := initialFolderId;
      status := Idle;
      queue := [];
      currentIndex := 0;
      logs := [];
      countdown := 0;
      processing := false;
    }

    /** Re-opening the dialog resets everything. */
    method Open(initialFolderId: string)
      modifies this
      ensures Valid()
      ensures selectedFolderId == initialFolderId && status == Idle && queue == [] && currentIndex == 0
      ensures logs == [] && countdown == 0 && !processing
    {
      selectedFolderId := initialFolderId;
      status := Idle;
      queue := [];
      currentIndex := 0;
      logs := [];
      countdown := 0;
      processing := false;
    }

    /** `handleClose` stops the loop. */
    method Close()
      requires Valid()
      modifies this`status, this`processing
      ensures Valid() && status == Idle && !processing
    {
      status := Idle;
      processing := false;
    }

    /** `handleStart`: with at least one word the queue starts over from its
        first word with an empty log; without words nothing changes. */
    method Start(inputText: string)
      requires Valid()
      modifies this`queue, this`currentIndex, this`logs, this`status, this`processing
      ensures Valid()
      ensures ParseWords(inputText) == [] ==>
        queue == old(queue) && currentIndex == old(currentIndex) && logs == old(logs)
        && status == old(status) && processing == old(processing)
      ensures ParseWords(inputText) != [] ==>
        queue == ParseWords(inputText) && currentIndex == 0 && logs == [] && status == Generating && processing
    {
      Load(ParseWords(inputText));
    }

    /** The queue part of `handleStart`, once the words are parsed. */
    method Load(words: seq<string>)
      requires Valid()
      modifies this`queue, this`currentIndex, this`logs, this`status, this`processing
      ensures Valid()
      ensures words == [] ==>
        queue == old(queue) && currentIndex == old(currentIndex) && logs == old(logs)
        && status == old(status) && processing == old(processing)
      ensures words != [] ==>
        queue == words && currentIndex == 0 && logs == [] && status == Generating && processing
    {
      if words == [] {
        return;
      }
      queue := words;
      currentIndex := 0;
      logs := [];
      status := Generating;
      processing := true;
    }

    /** `handleStop` */
    method Stop()
      requires Valid()
      modifies this`status, this`processing
      ensures Valid() && status == Paused && !processing
    {
      status := Paused;
      processing := false;
    }

    /** The Resume button: generation picks up at the current index. */
    method Resume()
      requires Valid()
      modifies this`status, this`processing
      ensures Valid() && status == Generating && processing
    {
      status := Generating;
      processing := true;
    }

    /** `addLog`: the new entry goes in front of the older ones. */
    method AddLog(id: string, word: string, logStatus: LogStatus, message: Option<string>, now: int)
      modifies this`logs
      ensures logs == [LogEntry(id, word, logStatus, message, now)] + old(logs)
      ensures |logs| == |old(logs)| + 1 && logs[1..] == old(logs)
    {
      logs := [LogEntry(id, word, logStatus, message, now)] + logs;
    }

    /** `processCurrent`, run while generating. Past the end of the queue it
        finishes. Otherwise the current word's outcome is logged (and on
        success its card saved to `store`); then either a pause of ten to
        fifteen seconds starts, or, after the last word, the run is done. */
    method ProcessCurrent(outcome: Result<Generated, string>, cardId: string, logId: string, now: int, store: CardStore)
      requires Valid()
      modifies this`status, this`processing, this`logs, this`countdown, store`cards, store`activeTab
      ensures Valid()
      ensures queue == old(queue) && currentIndex == old(currentIndex)
      ensures !(old(status) == Generating && old(processing)) ==>
        && status == old(status) && processing == old(processing) && logs == old(logs)
        && countdown == old(countdown) && store.cards == old(store.cards)
      ensures store.activeTab ==
        if old(status) == Generating && old(processing) && currentIndex < |queue| && outcome.Ok? then LibraryTab
        else old(store.activeTab)
      ensures old(status) == Generating && old(processing) && currentIndex >= |queue| ==>
        && status == Done && !processing && logs == old(logs) && countdown == old(countdown)
        && store.cards == old(store.cards)
      ensures old(status) == Generating && old(processing) && currentIndex < |queue| ==>
        && |logs| == |old(logs)| + 1 && logs[1..] == old(logs)
        && (outcome.Ok? ==>
              && logs[0] == LogEntry(logId, queue[currentIndex], Success, None, now)
              && store.cards == [BulkCard(cardId, selectedFolderId, outcome.value)] + old(store.cards))
        && (outcome.Err? ==>
              && logs[0] == LogEntry(logId, queue[currentIndex], Failure,
                   Some(if outcome.error != "" then outcome.error else "Generation failed"), now)
              && store.cards == old(store.cards))
        && (currentIndex + 1 < |queue| ==> status == Waiting && MinPause <= countdown <= MaxPause && processing)
        && (currentIndex + 1 >= |queue| ==> status == Done && !processing && countdown == old(countdown))
    {
      if status != Generating || !processing {
        return;
      }
      if currentIndex >= |queue| {
        status := Done;
        processing := false;
        return;
      }
      var word := queue[currentIndex];
      match outcome {
        case Ok(g) =>
          store.SaveCard(BulkCard(cardId, selectedFolderId, g));
          AddLog(logId, word, Success, None, now);
        case Err(message) =>
          AddLog(logId, word, Failure, Some(if message != "" then message else "Generation failed"), now);
      }
      if currentIndex < |queue| - 1 {
        var delay :| MinPause <= delay <= MaxPause;
        countdown := delay;
        status := Waiting;
      } else {
        status := Done;
        processing := false;
      }
    }

    /** One second of the pause: the countdown drops by one, and from one (or
        less) it ends the pause and moves to the next word. Outside a pause the
        tick does nothing. */
    method Tick()
      requires Valid()
      modifies this`countdown, this`currentIndex, this`status
      ensures Valid()
      ensures old(status) != Waiting ==>
        countdown == old(countdown) && currentIndex == old(currentIndex) && status == old(status)
      ensures old(status) == Waiting && old(countdown) <= 1 ==>
        countdown == 0 && currentIndex == old(currentIndex) + 1 && status == Generating
      ensures old(status) == Waiting && old(countdown) > 1 ==>
        countdown == old(countdown) - 1 && currentIndex == old(currentIndex) && status == Waiting
    {
      if status != Waiting {
        return;
      }
      if countdown <= 1 {
        countdown := 0;
        currentIndex := currentIndex + 1;
        status := Generating;
      } else {
        countdown := countdown - 1;
      }
    }
  }
}
