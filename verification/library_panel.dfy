/** The library panel: the library cards of the selected folder, the
    multi-select used for bulk deletion, the plain-text export of the Arabic
    words, the paged list that grows on scrolling, and folder creation. */
module LibraryPanel {
  import opened Wrappers
  import opened Text
  import opened Seqs
  import opened Types
  import opened App
  import opened Audio

  /** How many more cards each scroll to the bottom reveals. */
  const ItemsPerPage: nat := 20

  /** How close to the bottom (in pixels) a scroll must come to load more. */
  const NearBottomPx: int := 500

  /** `libraryCards`: the library cards, narrowed to the selected folder when
      one is selected. */
  function LibraryCards(cards: seq<Card>, selected: Option<string>): seq<Card> {
    FolderView(cards, Library, selected)
  }

  /** The list holds exactly the library cards of the selected folder (of any
      folder when none is selected), in store order. */
  lemma LibraryCardsSpec(cards: seq<Card>, selected: Option<string>)
    ensures forall c :: c in LibraryCards(cards, selected) <==>
      c in cards && c.status == Library && (IsSelected(selected) ==> c.folderId == selected)
    ensures LibraryCards(cards, selected) == Filter(cards, InViewOf(Library, selected))
    ensures !IsSelected(selected) ==> LibraryCards(cards, selected) == Filter(cards, HasStatus(Library))
  {
    FolderViewIsFilter(cards, Library, selected);
  }

  // ---------------------------------------------------------------------
  // The folder selection must name an existing folder

  /** `folders.some(f => f.id === id)` */
  predicate HasFolder(folders: seq<Folder>, id: string) {
    exists f :: f in folders && f.id == id
  }

  /** The selection the panel's effect leaves: a selected folder that no
      longer exists is cleared; anything else is kept. */
  function ReconciledFolder(folders: seq<Folder>, selected: Option<string>): Option<string> {
    if IsSelected(selected) && !HasFolder(folders, selected.value) then None else selected
  }

  /** After the effect a selection names an existing folder; the selection is
      only ever kept or cleared, it is kept whenever its folder exists, and a
      second pass changes nothing. */
  lemma ReconciledFolderSpec(folders: seq<Folder>, selected: Option<string>)
    ensures var r := ReconciledFolder(folders, selected);
      && (r == selected || r == None)
      && (IsSelected(r) ==> HasFolder(folders, r.value))
      && (IsSelected(selected) && HasFolder(folders, selected.value) ==> r == selected)
      && ReconciledFolder(folders, r) == r
  {
  }

  // ---------------------------------------------------------------------
  // The selected-card set

  /** No id occurs twice: the sequence is the insertion order of a `Set`. */
  ghost predicate Distinct(ids: seq<string>) {
    forall x :: multiset(ids)[x] <= 1
  }

  /** `x => x !== id` */
  function IsNot(id: string): string -> bool {
    (x: string) => x != id
  }

  /** The click in selection mode: a selected id is deleted from the set, any
      other id is added at the end (a JavaScript `Set` keeps insertion order). */
  function Toggled(ids: seq<string>, id: string): seq<string> {
    if id in ids then Filter(ids, IsNot(id)) else ids + [id]
  }

  /** Toggling flips membership of `id` alone and keeps the ids distinct. */
  lemma ToggledSpec(ids: seq<string>, id: string)
    requires Distinct(ids)
    ensures forall x :: x in Toggled(ids, id) <==> (x == id <==> x !in ids)
    ensures Distinct(Toggled(ids, id))
  {
    var r := Toggled(ids, id);
    forall x
      ensures multiset(r)[x] <= 1
    {
      if id in ids {
        FilterMultiplicity(ids, IsNot(id), x);
      } else {
        assert multiset(r) == multiset(ids) + multiset{id};
      }
    }
  }

  /** Clicking the same card twice restores the selection as a set; when the
      card was not selected the selection comes back exactly. */
  lemma ToggleTwice(ids: seq<string>, id: string)
    requires Distinct(ids)
    ensures forall x :: x in Toggled(Toggled(ids, id), id) <==> x in ids
    ensures id !in ids ==> Toggled(Toggled(ids, id), id) == ids
  {
    ToggledSpec(ids, id);
    ToggledSpec(Toggled(ids, id), id);
    if id !in ids {
      FilterConcat(ids, [id], IsNot(id));
      FilterAll(ids, IsNot(id));
      FilterNone([id], IsNot(id));
    }
  }

  // ---------------------------------------------------------------------
  // The text export

  /** The class `[a-zA-Zā-žĀ-Ž0-9]`: ASCII letters, digits and the Latin
      letters U+0100 through U+017E. */
  predicate IsLatinOrDigit(c: char) {
    || 'a' <= c <= 'z'
    || 'A' <= c <= 'Z'
    || '\U{101}' <= c <= '\U{17E}'
    || '\U{100}' <= c <= '\U{17D}'
    || '0' <= c <= '9'
  }

  /** The characters the export keeps. */
  function Kept(): char -> bool {
    (c: char) => !IsLatinOrDigit(c)
  }

  /** One card's line: parenthesised pronunciations (with the white space on
      both sides) dropped, every Latin letter and digit removed, then trimmed. */
  function CleanExportWord(arabicWord: string): string {
    Trim(Filter(StripParens(arabicWord, true), Kept()))
  }

  /** `card => cleanWord(card.arabicWord)` */
  function ExportWordOf(): Card -> string {
    (c: Card) => CleanExportWord(c.arabicWord)
  }

  /** `Boolean` as a filter on strings. */
  function NonEmptyLine(): string -> bool {
    (s: string) => s != ""
  }

  /** The non-empty cleaned words of the listed cards, in list order. */
  function ExportWords(libraryCards: seq<Card>): seq<string> {
    Filter(Map(libraryCards, ExportWordOf()), NonEmptyLine())
  }

  /** `handleExportTxt`: nothing for an empty list, otherwise the file text,
      one cleaned word per line. */
  function ExportText(libraryCards: seq<Card>): Option<string> {
    if |libraryCards| == 0 then None
    else Some(Join(ExportWords(libraryCards), '\n'))
  }

  /** Every character of a piece of a string satisfies what every character
      of the string does. */
  lemma InfixKeeps(r: string, s: string)
    requires IsInfix(r, s)
    requires forall i :: 0 <= i < |s| ==> !IsLatinOrDigit(s[i])
    ensures forall i :: 0 <= i < |r| ==> !IsLatinOrDigit(r[i])
  {
    var k :| InfixAt(r, s, k);
    forall i | 0 <= i < |r|
      ensures !IsLatinOrDigit(r[i])
    {
      assert r[i] == s[k + i];
    }
  }

  /** The stripping only drops characters: it never introduces one. */
  lemma {:induction false} StripFromChars(s: string, i: nat, trailing: bool)
    requires i <= |s|
    ensures forall c :: c in StripFrom(s, i, trailing) ==> c in s
    decreases |s| - i
  {
    if i < |s| {
      match MatchAt(s, i, trailing)
      case Some(e) => StripFromChars(s, e, trailing);
      case None => StripFromChars(s, i + 1, trailing);
    }
  }

  /** A cleaned word is trimmed, has no Latin letter or digit, and has no
      character the original word lacks. */
  lemma CleanExportWordSpec(w: string)
    ensures IsTrimmed(CleanExportWord(w))
    ensures forall i :: 0 <= i < |CleanExportWord(w)| ==> !IsLatinOrDigit(CleanExportWord(w)[i])
    ensures forall c :: c !in w ==> c !in CleanExportWord(w)
  {
    var stripped := StripParens(w, true);
    var kept := Filter(stripped, Kept());
    StripFromChars(w, 0, true);
    assert forall i :: 0 <= i < |kept| ==> !IsLatinOrDigit(kept[i]) by {
      forall i | 0 <= i < |kept|
        ensures !IsLatinOrDigit(kept[i])
      {
        assert kept[i] in kept;
      }
    }
    InfixKeeps(CleanExportWord(w), kept);
    forall c | c !in w
      ensures c !in CleanExportWord(w)
    {
      InfixExcludes(CleanExportWord(w), kept, c);
    }
  }

  /** A word followed by its parenthesised transliteration exports as the
      word alone, when the word itself is trimmed Arabic script. */
  lemma CleanAnnotatedWord(w: string, ws: string, p: string)
    requires IsTrimmed(w) && '(' !in w
    requires forall i :: 0 <= i < |w| ==> !IsLatinOrDigit(w[i])
    requires IsBlank(ws)
    requires ')' !in p && forall k :: 0 <= k < |p| ==> !IsLineTerminator(p[k])
    ensures CleanExportWord(w + ws + "(" + p + ")") == w
  {
    StripAnnotated(w, ws, p, true);
    FilterAll(w, Kept());
    TrimOfTrimmed(w);
  }

  /** The export is absent exactly for an empty list. Otherwise its lines are
      the non-empty cleaned words in list order (when no Arabic word holds a
      line break), each trimmed and free of Latin letters and digits; when
      every word cleans to nothing the file is empty. */
  lemma ExportTextSpec(libraryCards: seq<Card>)
    requires forall c :: c in libraryCards ==> '\n' !in c.arabicWord
    ensures ExportText(libraryCards).None? <==> |libraryCards| == 0
    ensures ExportText(libraryCards).Some? && ExportWords(libraryCards) != [] ==>
      Split(ExportText(libraryCards).value, '\n') == ExportWords(libraryCards)
    ensures ExportText(libraryCards).Some? && ExportWords(libraryCards) == [] ==>
      ExportText(libraryCards).value == ""
    ensures forall line :: line in ExportWords(libraryCards) ==>
      line != "" && IsTrimmed(line) && forall i :: 0 <= i < |line| ==> !IsLatinOrDigit(line[i])
  {
    var words := ExportWords(libraryCards);
    forall line | line in words
      ensures line != "" && IsTrimmed(line) && '\n' !in line
      ensures forall i :: 0 <= i < |line| ==> !IsLatinOrDigit(line[i])
    {
      ExportLine(libraryCards, line);
    }
    if |libraryCards| > 0 && words != [] {
      forall i | 0 <= i < |words|
        ensures '\n' !in words[i]
      {
        assert words[i] in words;
      }
      SplitJoin(words, '\n');
    }
  }

  /** One line of the export is the cleaned word of one of the cards. */
  lemma ExportLine(libraryCards: seq<Card>, line: string)
    requires forall c :: c in libraryCards ==> '\n' !in c.arabicWord
    requires line in ExportWords(libraryCards)
    ensures line != "" && IsTrimmed(line) && '\n' !in line
    ensures forall i :: 0 <= i < |line| ==> !IsLatinOrDigit(line[i])
  {
    var cleaned := Map(libraryCards, ExportWordOf());
    assert line in cleaned && line != "";
    var j :| 0 <= j < |cleaned| && cleaned[j] == line;
    assert libraryCards[j] in libraryCards;
    assert line == CleanExportWord(libraryCards[j].arabicWord);
    CleanExportWordSpec(libraryCards[j].arabicWord);
  }

  // ---------------------------------------------------------------------
  // Paging

  function Min(a: nat, b: nat): nat {
    if a <= b then a else b
  }

  /** One accepted near-bottom scroll over a list of `count` cards. */
  function ScrollStep(visible: nat, count: nat): nat {
    if visible < count then Min(visible + ItemsPerPage, count) else visible
  }

  /** The visible count after `k` scrolls to the bottom. */
  function Scrolled(visible: nat, count: nat, k: nat): nat
    decreases k
  {
    if k == 0 then visible else Scrolled(ScrollStep(visible, count), count, k - 1)
  }

  /** Each scroll reveals a page more, never past the end of the list: after
      `k` scrolls `min(visible + 20k, count)` cards show. */
  lemma {:induction false} ScrolledSpec(visible: nat, count: nat, k: nat)
    requires visible <= count
    ensures Scrolled(visible, count, k) == Min(visible + ItemsPerPage * k, count)
    decreases k
  {
    if k > 0 {
      var next := ScrollStep(visible, count);
      ScrolledSpec(next, count, k - 1);
      if visible < count && visible + ItemsPerPage < count {
        assert next == visible + ItemsPerPage;
        assert next + ItemsPerPage * (k - 1) == visible + ItemsPerPage * k;
      } else {
        assert next == count;
      }
    }
  }

  /** Enough scrolls show the whole list. */
  lemma ScrolledReachesEnd(visible: nat, count: nat)
    requires visible <= count
    ensures Scrolled(visible, count, count - visible) == count
  {
    ScrolledSpec(visible, count, count - visible);
  }

  // ---------------------------------------------------------------------
  // The panel

  /** The panel's own state: selection mode and the selected ids, the number
      of cards rendered, the folder form and the card opened for viewing. */
  class LibraryView {
    var isSelectionMode: bool
    var selectedCardIds: seq<string>
    var visibleCount: nat
    var isCreatingFolder: bool
    var newFolderName: string
    var viewingCard: Option<Card>

    /** The selection holds distinct ids and is empty outside selection mode;
        at least one page of cards is always rendered. */
    ghost predicate Valid()
      reads this
    {
      && Distinct(selectedCardIds)
      && (!isSelectionMode ==> selectedCardIds == [])
      && visibleCount >= ItemsPerPage
    }

    /** The panel as first rendered. */
    constructor ()
      ensures Valid()
      ensures !isSelectionMode && selectedCardIds == [] && visibleCount == ItemsPerPage
      ensures !isCreatingFolder && newFolderName == "" && viewingCard == None
    {
      isSelectionMode := false;
      selectedCardIds := [];
      visibleCount := ItemsPerPage;
      isCreatingFolder := false;
      newFolderName := "";
      viewingCard := None;
    }

    /** The effect on the folder list: a selected folder that no longer exists
        is deselected in the store. */
    method ReconcileSelection(store: CardStore)
      modifies store`currentLibraryFolderId
      ensures store.currentLibraryFolderId == ReconciledFolder(store.folders, old(store.currentLibraryFolderId))
      ensures IsSelected(store.currentLibraryFolderId) ==> HasFolder(store.folders, store.currentLibraryFolderId.value)
    {
      var selected := store.currentLibraryFolderId;
      if IsSelected(selected) && !HasFolder(store.folders, selected.value) {
        store.SelectLibraryFolder(None);
      }
    }

    /** `toggleSelectionMode`, with the effect that empties the selection when
        the mode is left. */
    method ToggleSelectionMode()
      requires Valid()
      modifies this`isSelectionMode, this`selectedCardIds
      ensures Valid()
      ensures isSelectionMode == !old(isSelectionMode)
      ensures selectedCardIds == if isSelectionMode then old(selectedCardIds) else []
    {
      isSelectionMode := !isSelectionMode;
      if !isSelectionMode {
        selectedCardIds := [];
      }
    }

    /** `handleCardClick`: in selection mode the card's id is toggled in the
        selection; otherwise the card is opened. */
    method CardClick(card: Card)
      requires Valid()
      modifies this`selectedCardIds, this`viewingCard
      ensures Valid()
      ensures old(isSelectionMode) ==>
        selectedCardIds == Toggled(old(selectedCardIds), card.id) && viewingCard == old(viewingCard)
      ensures old(isSelectionMode) ==>
        forall x :: x in selectedCardIds <==> (x == card.id <==> x !in old(selectedCardIds))
      ensures !old(isSelectionMode) ==>
        selectedCardIds == old(selectedCardIds) && viewingCard == Some(card)
    {
      if isSelectionMode {
        ToggledSpec(selectedCardIds, card.id);
        selectedCardIds := Toggled(selectedCardIds, card.id);
      } else {
        viewingCard := Some(card);
      }
    }

    /** `handleBulkDeleteAction`: the selected ids, in selection order, go to
        the store's bulk delete (which asks for confirmation); selection mode
        ends either way. */
    method BulkDeleteAction(store: CardStore, confirmed: bool)
      requires Valid()
      modifies this`isSelectionMode, this`selectedCardIds, store`cards
      ensures Valid() && !isSelectionMode && selectedCardIds == []
      ensures store.cards ==
        if |old(selectedCardIds)| > 0 && confirmed then RemoveCards(old(store.cards), old(selectedCardIds))
        else old(store.cards)
      ensures confirmed ==> forall c :: c in store.cards <==> c in old(store.cards) && c.id !in old(selectedCardIds)
    {
      RemoveCardsSpec(store.cards, selectedCardIds);
      store.BulkDelete(selectedCardIds, confirmed);
      isSelectionMode := false;
      selectedCardIds := [];
    }

    /** `handleScroll`, given the scroll container's measurements and the
        length of the library list: within 500 pixels of the bottom one more
        page shows, up to the whole list. */
    method Scroll(scrollTop: int, scrollHeight: int, clientHeight: int, libraryCount: nat)
      requires Valid()
      modifies this`visibleCount
      ensures Valid()
      ensures visibleCount ==
        if scrollHeight - scrollTop - clientHeight < NearBottomPx then ScrollStep(old(visibleCount), libraryCount)
        else old(visibleCount)
      ensures old(visibleCount) <= visibleCount <= old(visibleCount) + ItemsPerPage
      ensures old(visibleCount) < visibleCount ==> visibleCount <= libraryCount
    {
      if scrollHeight - scrollTop - clientHeight < NearBottomPx {
        if visibleCount < libraryCount {
          visibleCount := Min(visibleCount + ItemsPerPage, libraryCount);
        }
      }
    }

    /** `handleCreateFolderSubmit`: a name that is blank once trimmed does
        nothing; otherwise the trimmed name becomes a new folder and the form
        closes empty. */
    method CreateFolderSubmit(store: CardStore, freshId: string, now: int)
      modifies this`newFolderName, this`isCreatingFolder, store`folders
      ensures IsBlank(old(newFolderName)) ==>
        newFolderName == old(newFolderName) && isCreatingFolder == old(isCreatingFolder)
        && store.folders == old(store.folders)
      ensures !IsBlank(old(newFolderName)) ==>
        newFolderName == "" && !isCreatingFolder
        && store.folders == old(store.folders) + [Folder(freshId, Trim(old(newFolderName)), now)]
        && Trim(old(newFolderName)) != "" && IsTrimmed(store.folders[|store.folders| - 1].name)
    {
      var name := Trim(newFolderName);
      if name != "" {
        store.CreateFolder(freshId, name, now);
        newFolderName := "";
        isCreatingFolder := false;
      }
    }
  }
}
