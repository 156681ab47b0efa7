/** The record shapes and the review ladder of the flashcard application. */
module Types {
  import opened Wrappers
  import opened Text
  import opened Seqs

  /** Where a card lives: in the library, or in the active review queue. */
  datatype Status = Library | Active

  datatype Folder = Folder(id: string, name: string, createdAt: int)

  /** A flashcard. `intervalIndex` is its rung on the review ladder and
      `nextReviewTime` the instant (epoch milliseconds) it is next due. */
  datatype Card = Card(
    id: string,
    folderId: Option<string>,
    turkishMeaning: string,
    arabicWord: string,
    keyword: string,
    story: string,
    imagePrompt: string,
    imageUrl: Option<string>,
    status: Status,
    intervalIndex: nat,
    nextReviewTime: int)

  /** The review ladder: the delay, in milliseconds, before each next review. */
  const Intervals: seq<nat> := [
    5 * 1000,
    25 * 1000,
    2 * 60 * 1000,
    10 * 60 * 1000,
    60 * 60 * 1000,
    5 * 60 * 60 * 1000,
    24 * 60 * 60 * 1000
  ]

  /** The label shown for each rung of the ladder. */
  const Labels: seq<string> := ["5s", "25s", "2m", "10m", "1h", "5h", "1d"]

  /** The index of the top rung. */
  const LastRung: nat := |Intervals| - 1

  /** An `intervalIndex` that names a rung of both tables. */
  predicate ValidIndex(i: int) {
    0 <= i <= LastRung
  }

  /** The ladder and its labels have seven entries; it starts at five seconds
      and ends at one day. */
  lemma LadderShape()
    ensures |Intervals| == |Labels| == 7 && LastRung == 6
    ensures Intervals[0] == 5_000 && Intervals[LastRung] == 86_400_000
    ensures forall i :: ValidIndex(i) ==> i < |Intervals| && i < |Labels|
  {
  }

  /** Each rung waits strictly longer than the one below it. */
  lemma LadderIncreasing()
    ensures forall i, j :: 0 <= i < j < |Intervals| ==> Intervals[i] < Intervals[j]
  {
  }

  /** Milliseconds per unit letter of a ladder label. */
  function UnitMillis(u: char): Option<nat> {
    match u
    case 's' => Some(1000)
    case 'm' => Some(60 * 1000)
    case 'h' => Some(60 * 60 * 1000)
    case 'd' => Some(24 * 60 * 60 * 1000)
    case _ => None
  }

  /** The duration a label such as "25s" or "1d" reads as: a decimal count
      followed by a unit letter. */
  function LabelMillis(name: string): Option<nat> {
    if |name| < 2 || !AllDigits(name[..|name| - 1]) then None
    else match UnitMillis(name[|name| - 1])
      case None => None
      case Some(unit) => Some(DigitsValue(name[..|name| - 1]) * unit)
  }

  /** A label written as a count and a unit letter reads as count times unit. */
  lemma LabelReads(count: nat, u: char, unit: nat)
    requires UnitMillis(u) == Some(unit)
    ensures LabelMillis(NatToString(count) + [u]) == Some(count * unit)
  {
    var name := NatToString(count) + [u];
    assert name[..|name| - 1] == NatToString(count);
    NatToStringValue(count);
  }

  /** The label at each index names the delay at the same index. */
  lemma LabelsNameIntervals()
    ensures forall i :: 0 <= i < |Labels| ==> LabelMillis(Labels[i]) == Some(Intervals[i])
  {
    assert Labels[0] == NatToString(5) + ['s'];
    LabelReads(5, 's', 1000);
    assert Labels[1] == NatToString(25) + ['s'];
    LabelReads(25, 's', 1000);
    assert Labels[2] == NatToString(2) + ['m'];
    LabelReads(2, 'm', 60 * 1000);
    assert Labels[3] == NatToString(10) + ['m'];
    LabelReads(10, 'm', 60 * 1000);
    assert Labels[4] == NatToString(1) + ['h'];
    LabelReads(1, 'h', 60 * 60 * 1000);
    assert Labels[5] == NatToString(5) + ['h'];
    LabelReads(5, 'h', 60 * 60 * 1000);
    assert Labels[6] == NatToString(1) + ['d'];
    LabelReads(1, 'd', 24 * 60 * 60 * 1000);
  }

  /** A folder id JavaScript treats as true in `if (selectedFolderId)`. */
  predicate IsSelected(folderId: Option<string>) {
    folderId.Some? && folderId.value != ""
  }

  /** Whether a card shows in the view of one status narrowed to a folder. */
  predicate InView(c: Card, status: Status, selected: Option<string>) {
    c.status == status && (IsSelected(selected) ==> c.folderId == selected)
  }

  /** `c => c.status === status` */
  function HasStatus(status: Status): Card -> bool {
    (c: Card) => c.status == status
  }

  /** `c => c.folderId === folderId` */
  function InFolder(folderId: Option<string>): Card -> bool {
    (c: Card) => c.folderId == folderId
  }

  /** `InView` as a filter predicate. */
  function InViewOf(status: Status, selected: Option<string>): Card -> bool {
    (c: Card) => InView(c, status, selected)
  }

  /** The cards of one status, further narrowed to the selected folder when one
      is selected: both panels derive their lists this way. */
  function FolderView(cards: seq<Card>, status: Status, selected: Option<string>): seq<Card> {
    var byStatus := Filter(cards, HasStatus(status));
    if IsSelected(selected) then Filter(byStatus, InFolder(selected)) else byStatus
  }

  /** The two filters amount to one filter by `InView`: the view holds exactly
      the cards in view, in their original order and multiplicity. */
  lemma FolderViewIsFilter(cards: seq<Card>, status: Status, selected: Option<string>)
    ensures FolderView(cards, status, selected) == Filter(cards, InViewOf(status, selected))
    ensures forall c :: c in FolderView(cards, status, selected) <==> c in cards && InView(c, status, selected)
  {
    var byStatus := HasStatus(status);
    var inView := InViewOf(status, selected);
    if IsSelected(selected) {
      FilterFilter(cards, byStatus, InFolder(selected), inView);
    } else {
      FilterCongruent(cards, byStatus, inView);
    }
  }
}
