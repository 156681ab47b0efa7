/** The application shell: the authoritative card and folder lists and the
    handlers that every panel calls to change them. Each handler applies a pure
    updater (a map or a filter over the list) to the current state. */
module App {
  import opened Wrappers
  import opened Seqs
  import opened Types

  /** Which panel is shown. */
  datatype Tab = LibraryTab | ActiveTab

  /** `cards.map(c => c.id === id ? f(c) : c)`: every card with the id is
      replaced by `f` of it, every other card is left as it is. */
  function MapById(cards: seq<Card>, id: string, f: Card -> Card): (r: seq<Card>)
    ensures |r| == |cards|
    ensures forall i :: 0 <= i < |cards| ==> r[i] == if cards[i].id == id then f(cards[i]) else cards[i]
  {
    if cards == [] then []
    else [if cards[0].id == id then f(cards[0]) else cards[0]] + MapById(cards[1..], id, f)
  }

  /** A card as activation leaves it: active, on the first rung, due one
      first-rung delay after `now`. */
  function Activated(c: Card, now: int): Card {
    c.(status := Active, intervalIndex := 0, nextReviewTime := now + Intervals[0])
  }

  /** The updater of `handleActivateCard`. */
  function ActivateIn(cards: seq<Card>, id: string, now: int): seq<Card> {
    MapById(cards, id, (c: Card) => Activated(c, now))
  }

  /** The updater of `handleDeactivateCard`. */
  function DeactivateIn(cards: seq<Card>, id: string): seq<Card> {
    MapById(cards, id, (c: Card) => c.(status := Library))
  }

  /** The updater of `handleUpdateCard`. */
  function UpdateIn(cards: seq<Card>, updated: Card): seq<Card> {
    MapById(cards, updated.id, (c: Card) => updated)
  }

  /** `c => c.id !== id` */
  function IdIsNot(id: string): Card -> bool {
    (c: Card) => c.id != id
  }

  /** `c => !ids.includes(c.id)` */
  function IdNotIn(ids: seq<string>): Card -> bool {
    (c: Card) => c.id !in ids
  }

  /** The updater of `handleDeleteCard`. */
  function RemoveCard(cards: seq<Card>, id: string): seq<Card> {
    Filter(cards, IdIsNot(id))
  }

  /** The updater of `handleBulkDelete`. */
  function RemoveCards(cards: seq<Card>, ids: seq<string>): seq<Card> {
    Filter(cards, IdNotIn(ids))
  }

  /** The updater of `handleDeleteFolder`. */
  function RemoveFolder(folders: seq<Folder>, id: string): seq<Folder> {
    Filter(folders, (f: Folder) => f.id != id)
  }

  /** `activeCount`: how many cards are in the active queue. */
  function ActiveCount(cards: seq<Card>): nat {
    |Filter(cards, HasStatus(Active))|
  }

  /** Activation changes only the cards with the id, and each of them becomes
      active on the first rung due `now + 5000`, whatever its status was
      before; the length is kept. */
  lemma ActivateSpec(cards: seq<Card>, id: string, now: int)
    ensures |ActivateIn(cards, id, now)| == |cards|
    ensures forall i :: 0 <= i < |cards| && cards[i].id != id ==> ActivateIn(cards, id, now)[i] == cards[i]
    ensures forall i :: 0 <= i < |cards| && cards[i].id == id ==>
      var c := ActivateIn(cards, id, now)[i];
      c.status == Active && c.intervalIndex == 0 && c.nextReviewTime == now + 5000
      && c == cards[i].(status := Active, intervalIndex := 0, nextReviewTime := now + 5000)
  {
  }

  /** Deactivation changes only the status of the cards with the id; their
      rung and due time stay as they were. */
  lemma DeactivateSpec(cards: seq<Card>, id: string)
    ensures |DeactivateIn(cards, id)| == |cards|
    ensures forall i :: 0 <= i < |cards| && cards[i].id != id ==> DeactivateIn(cards, id)[i] == cards[i]
    ensures forall i :: 0 <= i < |cards| && cards[i].id == id ==>
      var c := DeactivateIn(cards, id)[i];
      c.status == Library && c.intervalIndex == cards[i].intervalIndex
      && c.nextReviewTime == cards[i].nextReviewTime && c == cards[i].(status := Library)
  {
  }

  /** A map over an id no card has leaves the list as it was. */
  lemma MapByMissingId(cards: seq<Card>, id: string, f: Card -> Card)
    requires forall c :: c in cards ==> c.id != id
    ensures MapById(cards, id, f) == cards
  {
    var r := MapById(cards, id, f);
    assert forall i :: 0 <= i < |cards| ==> r[i] == cards[i];
  }

  /** Updating replaces exactly the cards with the updated card's id; with no
      such card the list is unchanged. */
  lemma UpdateSpec(cards: seq<Card>, updated: Card)
    ensures |UpdateIn(cards, updated)| == |cards|
    ensures forall i :: 0 <= i < |cards| ==>
      UpdateIn(cards, updated)[i] == if cards[i].id == updated.id then updated else cards[i]
    ensures (forall c :: c in cards ==> c.id != updated.id) ==> UpdateIn(cards, updated) == cards
  {
    if forall c :: c in cards ==> c.id != updated.id {
      MapByMissingId(cards, updated.id, (c: Card) => updated);
    }
  }

  /** Deleting removes every card with the id and keeps every other card, in
      order and multiplicity; an id no card has is a no-op. */
  lemma RemoveCardSpec(cards: seq<Card>, id: string)
    ensures forall c :: c in RemoveCard(cards, id) <==> c in cards && c.id != id
    ensures forall c: Card :: c.id != id ==> multiset(RemoveCard(cards, id))[c] == multiset(cards)[c]
    ensures (forall c :: c in cards ==> c.id != id) ==> RemoveCard(cards, id) == cards
  {
    forall c: Card | c.id != id
      ensures multiset(RemoveCard(cards, id))[c] == multiset(cards)[c]
    {
      FilterMultiplicity(cards, IdIsNot(id), c);
    }
    if forall c :: c in cards ==> c.id != id {
      FilterAll(cards, IdIsNot(id));
    }
  }

  /** Bulk deletion keeps exactly the cards whose id is not listed, each as
      often as before, and the number removed is the number of cards whose id
      is listed. */
  lemma RemoveCardsSpec(cards: seq<Card>, ids: seq<string>)
    ensures forall c :: c in RemoveCards(cards, ids) <==> c in cards && c.id !in ids
    ensures forall c: Card :: multiset(RemoveCards(cards, ids))[c] == if c.id in ids then 0 else multiset(cards)[c]
    ensures |RemoveCards(cards, ids)| == |cards| - |Filter(cards, (c: Card) => c.id in ids)|
  {
    forall c: Card
      ensures multiset(RemoveCards(cards, ids))[c] == if c.id in ids then 0 else multiset(cards)[c]
    {
      FilterMultiplicity(cards, IdNotIn(ids), c);
    }
    FilterSplitsLength(cards, IdNotIn(ids), (c: Card) => c.id in ids);
  }

  /** Activating a card adds it to the active count unless it was already
      counted; the count is that of the cards active or carrying the id. */
  lemma {:induction false} ActiveCountAfterActivate(cards: seq<Card>, id: string, now: int)
    ensures ActiveCount(ActivateIn(cards, id, now)) == |Filter(cards, (c: Card) => c.status == Active || c.id == id)|
  {
    if cards != [] {
      ActiveCountAfterActivate(cards[1..], id, now);
      assert ActivateIn(cards, id, now)[1..] == ActivateIn(cards[1..], id, now);
    }
  }

  /** Deactivating a card leaves the count of the other active cards. */
  lemma {:induction false} ActiveCountAfterDeactivate(cards: seq<Card>, id: string)
    ensures ActiveCount(DeactivateIn(cards, id)) == |Filter(cards, (c: Card) => c.status == Active && c.id != id)|
  {
    if cards != [] {
      ActiveCountAfterDeactivate(cards[1..], id);
      assert DeactivateIn(cards, id)[1..] == DeactivateIn(cards[1..], id);
    }
  }

  /** The active count is zero exactly when no card is active, and never more
      than the number of cards. */
  lemma ActiveCountSpec(cards: seq<Card>)
    ensures ActiveCount(cards) <= |cards|
    ensures ActiveCount(cards) == 0 <==> forall c :: c in cards ==> c.status != Active
  {
    var r := Filter(cards, HasStatus(Active));
    if |r| > 0 {
      assert r[0] in r;
    }
  }

  /** The store of `App`: the card list, the folder list, the folder selected
      in the library and the visible tab. */
  class CardStore {
    var cards: seq<Card>
    var folders: seq<Folder>
    var currentLibraryFolderId: Option<string>
    var activeTab: Tab

    /** The state before anything is loaded. */
    constructor ()
      ensures cards == [] && folders == [] && currentLibraryFolderId == None && activeTab == LibraryTab
    {
      cards := [];
      folders := [];
      currentLibraryFolderId := None;
      activeTab := LibraryTab;
    }

    /** `handleSaveCard`: the new card goes to the front, the library shows. */
    method SaveCard(newCard: Card)
      modifies this`cards, this`activeTab
      ensures cards == [newCard] + old(cards)
      ensures activeTab == LibraryTab
    {
      cards := [newCard] + cards;
      activeTab := LibraryTab;
    }

    /** `handleCreateFolder`: a folder with a fresh id and the current time is
        appended. */
    method CreateFolder(freshId: string, name: string, now: int)
      modifies this`folders
      ensures folders == old(folders) + [Folder(freshId, name, now)]
    {
      folders := folders + [Folder(freshId, name, now)];
    }

    /** `handleDeleteFolder`: when the user confirms, the folder goes and the
        library selection is cleared if it was that folder; cards never change. */
    method DeleteFolder(folderId: string, confirmed: bool)
      modifies this`folders, this`currentLibraryFolderId
      ensures folders == if confirmed then RemoveFolder(old(folders), folderId) else old(folders)
      ensures currentLibraryFolderId ==
        if confirmed && old(currentLibraryFolderId) == Some(folderId) then None else old(currentLibraryFolderId)
      ensures forall f :: f in folders <==> f in old(folders) && (confirmed ==> f.id != folderId)
    {
      if confirmed {
        folders := RemoveFolder(folders, folderId);
        if currentLibraryFolderId == Some(folderId) {
          currentLibraryFolderId := None;
        }
      }
    }

    /** `onSelectFolder` as the library panel calls it. */
    method SelectLibraryFolder(folderId: Option<string>)
      modifies this`currentLibraryFolderId
      ensures currentLibraryFolderId == folderId
    {
      currentLibraryFolderId := folderId;
    }

    /** `handleActivateCard`: every card with the id is (re)activated at `now`,
        whatever its status; the active tab shows. */
    method ActivateCard(card: Card, now: int)
      modifies this`cards, this`activeTab
      ensures cards == ActivateIn(old(cards), card.id, now)
      ensures activeTab == ActiveTab
    {
      cards := ActivateIn(cards, card.id, now);
      activeTab := ActiveTab;
    }

    /** `handleDeactivateCard` */
    method DeactivateCard(cardId: string)
      modifies this`cards
      ensures cards == DeactivateIn(old(cards), cardId)
    {
      cards := DeactivateIn(cards, cardId);
    }

    /** `handleUpdateCard` */
    method UpdateCard(updated: Card)
      modifies this`cards
      ensures cards == UpdateIn(old(cards), updated)
    {
      cards := UpdateIn(cards, updated);
    }

    /** `handleDeleteCard` */
    method DeleteCard(cardId: string)
      modifies this`cards
      ensures cards == RemoveCard(old(cards), cardId)
    {
      cards := RemoveCard(cards, cardId);
    }

    /** `handleBulkDelete`: nothing happens for an empty id list or when the
        user declines; otherwise every listed card goes. */
    method BulkDelete(cardIds: seq<string>, confirmed: bool)
      modifies this`cards
      ensures cards == if |cardIds| > 0 && confirmed then RemoveCards(old(cards), cardIds) else old(cards)
    {
      if |cardIds| == 0 {
        return;
      }
      if confirmed {
        cards := RemoveCards(cards, cardIds);
      }
    }
  }
}
