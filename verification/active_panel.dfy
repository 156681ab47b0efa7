/** The active review queue: the folder-filtered list of active cards, the
    one-shot timer armed for the next card to fall due, the alarm flag, the
    ready-first ordering, the countdown text and the review advance. */
module ActivePanel {
  import opened Wrappers
  import opened Text
  import opened Seqs
  import opened Types
  import opened Audio
  import opened App

  /** `activeCards`: the active cards, narrowed to the selected folder. */
  function ActiveCards(cards: seq<Card>, selected: Option<string>): seq<Card> {
    FolderView(cards, Active, selected)
  }

  /** The active-card list holds exactly the active cards of the selected
      folder (all active cards when none is selected), in list order. */
  lemma ActiveCardsSpec(cards: seq<Card>, selected: Option<string>)
    ensures ActiveCards(cards, selected) == Filter(cards, InViewOf(Active, selected))
    ensures forall c :: c in ActiveCards(cards, selected) <==>
      c in cards && c.status == Active && (IsSelected(selected) ==> c.folderId == selected)
  {
    FolderViewIsFilter(cards, Active, selected);
  }

  // ---------------------------------------------------------------------------
  // The smart timer

  /** The soonest due time strictly after `now`, if any card has one. */
  function NearestDue(cards: seq<Card>, now: int): (r: Option<int>)
    ensures r.None? <==> forall i :: 0 <= i < |cards| ==> cards[i].nextReviewTime <= now
    ensures r.Some? ==> r.value > now && exists i :: 0 <= i < |cards| && cards[i].nextReviewTime == r.value
    ensures r.Some? ==> forall i :: 0 <= i < |cards| && cards[i].nextReviewTime > now ==> r.value <= cards[i].nextReviewTime
  {
    if cards == [] then None
    else
      var rest := NearestDue(cards[1..], now);
      var t := cards[0].nextReviewTime;
      if t <= now then
        (if rest.Some? then
           var i :| 0 <= i < |cards[1..]| && cards[1..][i].nextReviewTime == rest.value;
           assert cards[i + 1].nextReviewTime == rest.value;
           rest
         else rest)
      else match rest
        case None => Some(t)
        case Some(u) =>
          var i :| 0 <= i < |cards[1..]| && cards[1..][i].nextReviewTime == u;
          assert cards[i + 1].nextReviewTime == u;
          if t <= u then Some(t) else Some(u)
  }

  /** A pending `setTimeout`: the due time it was armed for, the delay it was
      armed with, and the card list its callback captured. */
  datatype PendingTimer = PendingTimer(target: int, delay: int, cardList: seq<Card>)

  /** `Math.max(x, 0)` */
  function MaxZero(x: int): int {
    if x > 0 then x else 0
  }

  /** The timer `scheduleSmartTimer(cardList)` leaves pending at `clock`. */
  function Armed(cardList: seq<Card>, clock: int): Option<PendingTimer> {
    match NearestDue(cardList, clock)
    case None => None
    case Some(t) => Some(PendingTimer(t, MaxZero(t - clock), cardList))
  }

  /** No timer is armed when every card is already due; otherwise the one
      timer aims at the nearest future due time, with a positive delay that
      reaches exactly that time. */
  lemma ArmedSpec(cardList: seq<Card>, clock: int)
    ensures Armed(cardList, clock).None? <==> forall c :: c in cardList ==> c.nextReviewTime <= clock
    ensures Armed(cardList, clock).Some? ==>
      var p := Armed(cardList, clock).value;
      && p.cardList == cardList
      && p.target > clock && p.delay > 0 && clock + p.delay == p.target
      && (exists c :: c in cardList && c.nextReviewTime == p.target)
      && (forall c :: c in cardList && c.nextReviewTime > clock ==> p.target <= c.nextReviewTime)
  {
    var r := NearestDue(cardList, clock);
    if r.Some? {
      var i :| 0 <= i < |cardList| && cardList[i].nextReviewTime == r.value;
      assert cardList[i] in cardList;
    } else {
      assert forall c :: c in cardList ==> c.nextReviewTime <= clock;
    }
  }

  /** Once a timer has fired at or after its target, re-arming on the same list
      aims strictly later: the captured list cannot fire twice for one card. */
  lemma RearmIsLater(p: PendingTimer, wakeTime: int)
    requires Armed(p.cardList, p.target - p.delay) == Some(p)
    requires p.target <= wakeTime
    ensures Armed(p.cardList, wakeTime).Some? ==> Armed(p.cardList, wakeTime).value.target > p.target
  {
    ArmedSpec(p.cardList, wakeTime);
  }

  // ---------------------------------------------------------------------------
  // Review advance

  /** The rung a review moves a card to: one up, held at the top rung. */
  function NextIndex(i: nat): nat {
    if i + 1 < LastRung then i + 1 else LastRung
  }

  /** The card `handleReviewAction` hands to `onUpdateCard`, reviewed at `now`. */
  function Reviewed(c: Card, now: int): Card {
    var k := NextIndex(c.intervalIndex);
    c.(intervalIndex := k, nextReviewTime := now + Intervals[k])
  }

  /** The "Next (...)" label of the review dialog. */
  function NextLabel(c: Card): string {
    Labels[NextIndex(c.intervalIndex)]
  }

  /** A review moves the card one rung up, holding at the top; it is due again
      one ladder delay of its new rung after `now`, and nothing else changes. */
  lemma ReviewedSpec(c: Card, now: int)
    ensures ValidIndex(Reviewed(c, now).intervalIndex)
    ensures c.intervalIndex < LastRung ==> Reviewed(c, now).intervalIndex == c.intervalIndex + 1
    ensures c.intervalIndex >= LastRung ==> Reviewed(c, now).intervalIndex == LastRung
    ensures Reviewed(c, now).nextReviewTime == now + Intervals[Reviewed(c, now).intervalIndex]
    ensures Reviewed(c, now).nextReviewTime > now
    ensures Reviewed(c, now).(intervalIndex := c.intervalIndex, nextReviewTime := c.nextReviewTime) == c
  {
  }

  /** Below the top rung every review waits strictly longer than the last
      rung's delay; at the top it waits the same day again. */
  lemma ReviewWaitsLonger(c: Card, now: int)
    requires ValidIndex(c.intervalIndex)
    ensures c.intervalIndex < LastRung ==> Intervals[Reviewed(c, now).intervalIndex] > Intervals[c.intervalIndex]
    ensures c.intervalIndex == LastRung ==> Intervals[Reviewed(c, now).intervalIndex] == Intervals[c.intervalIndex]
  {
    LadderIncreasing();
  }

  /** The button label names exactly the delay the review applies. */
  lemma NextLabelSpec(c: Card, now: int)
    ensures LabelMillis(NextLabel(c)) == Some(Reviewed(c, now).nextReviewTime - now)
  {
    LabelsNameIntervals();
  }

  // ---------------------------------------------------------------------------
  // The queue order and the ready count

  /** A card is ready once its due time has come. */
  predicate Ready(c: Card, now: int) {
    now >= c.nextReviewTime
  }

  /** `c => now >= c.nextReviewTime` */
  function ReadyAt(now: int): Card -> bool {
    (c: Card) => Ready(c, now)
  }

  /** The comparator of `sortedCards`: ready cards first, then by due time. */
  function Compare(a: Card, b: Card, now: int): int {
    if Ready(a, now) && !Ready(b, now) then -1
    else if !Ready(a, now) && Ready(b, now) then 1
    else a.nextReviewTime - b.nextReviewTime
  }

  /** No card comes after one the comparator places after it. */
  predicate Sorted(s: seq<Card>, now: int) {
    forall i, j :: 0 <= i < j < |s| ==> Compare(s[i], s[j], now) <= 0
  }

  /** The comparator is a total preorder. */
  lemma CompareTotalPreorder(a: Card, b: Card, c: Card, now: int)
    ensures Compare(a, b, now) <= 0 || Compare(b, a, now) <= 0
    ensures Compare(a, b, now) <= 0 && Compare(b, c, now) <= 0 ==> Compare(a, c, now) <= 0
  {
  }

  /** Inserts `x` before the first element it does not come after. */
  function Insert(x: Card, s: seq<Card>, now: int): (r: seq<Card>)
    requires Sorted(s, now)
    ensures Sorted(r, now)
    ensures multiset(r) == multiset(s) + multiset{x}
  {
    if s == [] then [x]
    else if Compare(x, s[0], now) <= 0 then
      InsertFront(x, s, now);
      [x] + s
    else
      var rest := Insert(x, s[1..], now);
      InsertBehind(x, s, rest, now);
      [s[0]] + rest
  }

  /** A card that comes no later than the head of a sorted list may go first. */
  lemma InsertFront(x: Card, s: seq<Card>, now: int)
    requires Sorted(s, now) && s != [] && Compare(x, s[0], now) <= 0
    ensures Sorted([x] + s, now)
  {
    forall j | 0 <= j < |s|
      ensures Compare(x, s[j], now) <= 0
    {
      CompareTotalPreorder(x, s[0], s[j], now);
    }
    SortedCons(x, s, now);
  }

  /** A card that comes after the head goes into the tail: the head stays in
      front of the tail's sorted insertion. */
  lemma InsertBehind(x: Card, s: seq<Card>, rest: seq<Card>, now: int)
    requires Sorted(s, now) && s != [] && Compare(x, s[0], now) > 0
    requires Sorted(rest, now) && multiset(rest) == multiset(s[1..]) + multiset{x}
    ensures Sorted([s[0]] + rest, now)
    ensures multiset([s[0]] + rest) == multiset(s) + multiset{x}
  {
    assert s == [s[0]] + s[1..];
    CompareTotalPreorder(x, s[0], s[0], now);
    forall j | 0 <= j < |rest|
      ensures Compare(s[0], rest[j], now) <= 0
    {
      assert rest[j] in multiset(rest);
      if rest[j] != x {
        assert rest[j] in multiset(s[1..]);
        var k :| 0 <= k < |s[1..]| && s[1..][k] == rest[j];
        assert s[k + 1] == rest[j];
      }
    }
    SortedCons(s[0], rest, now);
  }

  /** A card that comes no later than any card of a sorted list heads it. */
  lemma SortedCons(x: Card, s: seq<Card>, now: int)
    requires Sorted(s, now)
    requires forall j :: 0 <= j < |s| ==> Compare(x, s[j], now) <= 0
    ensures Sorted([x] + s, now)
  {
    var r := [x] + s;
    forall i, j | 0 <= i < j < |r|
      ensures Compare(r[i], r[j], now) <= 0
    {
      assert r[j] == s[j - 1];
      if i > 0 {
        assert r[i] == s[i - 1];
      }
    }
  }

  /** `[...activeCards].sort(comparator)`: a stable insertion sort. */
  function Sort(s: seq<Card>, now: int): (r: seq<Card>)
    ensures Sorted(r, now)
    ensures multiset(r) == multiset(s)
  {
    if s == [] then []
    else
      assert s == [s[0]] + s[1..];
      Insert(s[0], Sort(s[1..], now), now)
  }

  /** `readyCount`: how many cards are due at `now`. */
  function ReadyCount(cards: seq<Card>, now: int): nat {
    |Filter(cards, ReadyAt(now))|
  }

  /** Inserting a card adds one to the ready count exactly when it is ready. */
  lemma {:induction false} InsertReadyCount(x: Card, s: seq<Card>, now: int)
    requires Sorted(s, now)
    ensures ReadyCount(Insert(x, s, now), now) == ReadyCount(s, now) + (if Ready(x, now) then 1 else 0)
  {
    if s == [] {
      ReadyCountCons(x, [], now);
      assert [x] + [] == [x];
    } else if Compare(x, s[0], now) <= 0 {
      ReadyCountCons(x, s, now);
    } else {
      InsertReadyCount(x, s[1..], now);
      ReadyCountCons(s[0], Insert(x, s[1..], now), now);
      ReadyCountCons(s[0], s[1..], now);
      assert s == [s[0]] + s[1..];
    }
  }

  /** The ready count of a list with a card in front. */
  lemma ReadyCountCons(y: Card, t: seq<Card>, now: int)
    ensures ReadyCount([y] + t, now) == ReadyCount(t, now) + (if Ready(y, now) then 1 else 0)
  {
    assert ([y] + t)[1..] == t;
  }

  /** Sorting keeps the ready count. */
  lemma {:induction false} SortReadyCount(s: seq<Card>, now: int)
    ensures ReadyCount(Sort(s, now), now) == ReadyCount(s, now)
  {
    if s != [] {
      SortReadyCount(s[1..], now);
      InsertReadyCount(s[0], Sort(s[1..], now), now);
    }
  }

  /** In a sorted list the ready cards are exactly the first `ReadyCount` ones. */
  lemma {:induction false} SortedReadyPrefix(s: seq<Card>, now: int)
    requires Sorted(s, now)
    ensures forall i :: 0 <= i < |s| ==> (Ready(s[i], now) <==> i < ReadyCount(s, now))
  {
    if s != [] {
      SortedReadyPrefix(s[1..], now);
      if !Ready(s[0], now) {
        assert forall i :: 0 <= i < |s| ==> !Ready(s[i], now) by {
          forall i | 0 <= i < |s|
            ensures !Ready(s[i], now)
          {
            if i > 0 {
              assert Compare(s[0], s[i], now) <= 0;
            }
          }
        }
        assert Filter(s, ReadyAt(now)) == [];
      }
    }
  }

  /** `sortedCards` is a reordering of the active cards in which every ready
      card precedes every waiting one, each group is in ascending due-time
      order, and the ready group is `readyCount` long. */
  lemma SortSpec(s: seq<Card>, now: int)
    ensures multiset(Sort(s, now)) == multiset(s)
    ensures var r := Sort(s, now);
      forall i, j :: 0 <= i < j < |r| ==>
        && (Ready(r[j], now) ==> Ready(r[i], now))
        && (Ready(r[i], now) == Ready(r[j], now) ==> r[i].nextReviewTime <= r[j].nextReviewTime)
    ensures var r := Sort(s, now);
      forall i :: 0 <= i < |r| ==> (Ready(r[i], now) <==> i < ReadyCount(s, now))
  {
    var r := Sort(s, now);
    SortReadyCount(s, now);
    SortedReadyPrefix(r, now);
    forall i, j | 0 <= i < j < |r|
      ensures Ready(r[j], now) ==> Ready(r[i], now)
      ensures Ready(r[i], now) == Ready(r[j], now) ==> r[i].nextReviewTime <= r[j].nextReviewTime
    {
      assert Compare(r[i], r[j], now) <= 0;
    }
  }

  // ---------------------------------------------------------------------------
  // The countdown text

  /** What `formatTimeLeft` shows, before it is written out. */
  datatype Countdown =
    | HoursMinutes(hours: nat, minutes: nat)
    | MinutesSeconds(minutes: nat, seconds: nat)
    | SecondsOnly(seconds: nat)

  /** The tier of the remaining whole seconds. */
  function Breakdown(totalSeconds: nat): Countdown {
    var hours := totalSeconds / 3600;
    var minutes := (totalSeconds % 3600) / 60;
    var seconds := totalSeconds % 60;
    if hours > 0 then HoursMinutes(hours, minutes)
    else if minutes > 0 then MinutesSeconds(minutes, seconds)
    else SecondsOnly(seconds)
  }

  /** The text of a countdown: "2h 05m", "3m 07s" or "9s". */
  function Render(c: Countdown): string {
    match c
    case HoursMinutes(h, m) => NatToString(h) + "h " + PadStart2(NatToString(m)) + "m"
    case MinutesSeconds(m, s) => NatToString(m) + "m " + PadStart2(NatToString(s)) + "s"
    case SecondsOnly(s) => NatToString(s) + "s"
  }

  /** `formatTimeLeft(targetTime)` at `now`: nothing once due, otherwise the
      remaining whole seconds written in the largest tier that is non-zero. */
  function FormatTimeLeft(target: int, now: int): Option<string> {
    var diff := target - now;
    if diff <= 0 then None else Some(Render(Breakdown(diff / 1000)))
  }

  /** The number of leading decimal digits of `s`. */
  function DigitRun(s: string): (n: nat)
    ensures n <= |s| && AllDigits(s[..n]) && (n < |s| ==> !IsDigit(s[n]))
  {
    if s != [] && IsDigit(s[0]) then
      var n := 1 + DigitRun(s[1..]);
      assert s[..n] == [s[0]] + s[1..][..n - 1];
      n
    else 0
  }

  /** Reads a leading decimal number, returning it and what follows. */
  function ReadNumber(s: string): Option<(nat, string)> {
    var n := DigitRun(s);
    if n == 0 then None else Some((DigitsValue(s[..n]), s[n..]))
  }

  /** Reads countdown text back as the number of seconds it shows. */
  function ReadTimeLeft(text: string): Option<nat> {
    match ReadNumber(text)
    case None => None
    case Some((a, rest)) =>
      if rest == "s" then Some(a)
      else if |rest| >= 2 && rest[..2] == "h " then
        match ReadNumber(rest[2..])
        case Some((b, "m")) => Some(a * 3600 + b * 60)
        case _ => None
      else if |rest| >= 2 && rest[..2] == "m " then
        match ReadNumber(rest[2..])
        case Some((b, "s")) => Some(a * 60 + b)
        case _ => None
      else None
  }

  /** A number written out and followed by a non-digit reads back as itself. */
  lemma ReadNumberOf(d: string, v: nat, rest: string)
    requires 1 <= |d| && AllDigits(d) && DigitsValue(d) == v
    requires rest == [] || !IsDigit(rest[0])
    ensures ReadNumber(d + rest) == Some((v, rest))
  {
    DigitRunOf(d, rest);
    assert (d + rest)[..|d|] == d;
    assert (d + rest)[|d|..] == rest;
  }

  lemma {:induction false} DigitRunOf(d: string, rest: string)
    requires AllDigits(d)
    requires rest == [] || !IsDigit(rest[0])
    ensures DigitRun(d + rest) == |d|
  {
    if d != [] {
      assert (d + rest)[1..] == d[1..] + rest;
      DigitRunOf(d[1..], rest);
    } else {
      assert d + rest == rest;
    }
  }

  /** A two-digit zero-padded number reads back as the number. */
  lemma PaddedValue(n: nat)
    requires n < 100
    ensures var p := PadStart2(NatToString(n));
      |p| == 2 && AllDigits(p) && DigitsValue(p) == n
  {
    NatToStringValue(n);
    if n < 10 {
      var p := PadStart2(NatToString(n));
      assert p[..1] == "0";
    }
  }

  /** The hour tier reads back as hours and minutes. */
  lemma ReadsBackHours(h: nat, m: nat)
    requires m < 60
    ensures ReadTimeLeft(Render(HoursMinutes(h, m))) == Some(h * 3600 + m * 60)
  {
    NatToStringValue(h);
    PaddedValue(m);
    assert Render(HoursMinutes(h, m)) == NatToString(h) + ("h " + (PadStart2(NatToString(m)) + "m"));
    ReadsBackHourPair(NatToString(h), h, PadStart2(NatToString(m)), m);
  }

  /** The minute tier reads back as minutes and seconds. */
  lemma ReadsBackMinutes(m: nat, sec: nat)
    requires sec < 60
    ensures ReadTimeLeft(Render(MinutesSeconds(m, sec))) == Some(m * 60 + sec)
  {
    NatToStringValue(m);
    PaddedValue(sec);
    assert Render(MinutesSeconds(m, sec)) == NatToString(m) + ("m " + (PadStart2(NatToString(sec)) + "s"));
    ReadsBackMinutePair(NatToString(m), m, PadStart2(NatToString(sec)), sec);
  }

  /** Hours and minutes, with their units, read back as seconds. */
  lemma ReadsBackHourPair(da: string, a: nat, db: string, b: nat)
    requires 1 <= |da| && AllDigits(da) && DigitsValue(da) == a
    requires 1 <= |db| && AllDigits(db) && DigitsValue(db) == b
    ensures ReadTimeLeft(da + ("h " + (db + "m"))) == Some(a * 3600 + b * 60)
  {
    var rest := "h " + (db + "m");
    ReadNumberOf(da, a, rest);
    assert rest[..2] == "h " && rest[2..] == db + "m";
    ReadNumberOf(db, b, "m");
    assert ReadNumber(rest[2..]) == Some((b, "m"));
  }

  /** Minutes and seconds, with their units, read back as seconds. */
  lemma ReadsBackMinutePair(da: string, a: nat, db: string, b: nat)
    requires 1 <= |da| && AllDigits(da) && DigitsValue(da) == a
    requires 1 <= |db| && AllDigits(db) && DigitsValue(db) == b
    ensures ReadTimeLeft(da + ("m " + (db + "s"))) == Some(a * 60 + b)
  {
    var rest := "m " + (db + "s");
    ReadNumberOf(da, a, rest);
    assert rest[..2] == "m " && rest[..2] != "h " && rest[2..] == db + "s";
    ReadNumberOf(db, b, "s");
    assert ReadNumber(rest[2..]) == Some((b, "s"));
  }

  /** The second tier reads back as seconds. */
  lemma ReadsBackSeconds(sec: nat)
    ensures ReadTimeLeft(Render(SecondsOnly(sec))) == Some(sec)
  {
    NatToStringValue(sec);
    ReadNumberOf(NatToString(sec), sec, "s");
  }

  /** Hours, minutes and seconds recompose the total. */
  lemma BreakdownParts(total: nat)
    ensures (total / 3600) * 3600 + ((total % 3600) / 60) * 60 + total % 60 == total
    ensures (total % 3600) / 60 < 60
  {
    var h, r := total / 3600, total % 3600;
    var m, sec := r / 60, r % 60;
    assert total == 3600 * h + r;
    assert r == 60 * m + sec;
    assert total == 60 * (60 * h + m) + sec;
  }

  /** The countdown text reads back as the remaining seconds, cut down to the
      tier's smallest unit: whole minutes in the hour tier, whole seconds
      otherwise. */
  lemma FormatTimeLeftReadsBack(target: int, now: int)
    ensures FormatTimeLeft(target, now).None? <==> target <= now
    ensures target > now ==>
      var shown := ReadTimeLeft(FormatTimeLeft(target, now).value);
      var total := (target - now) / 1000;
      && shown.Some?
      && (total >= 3600 ==> shown.value == total - total % 60)
      && (total < 3600 ==> shown.value == total)
  {
    if target > now {
      var total := (target - now) / 1000;
      assert FormatTimeLeft(target, now) == Some(Render(Breakdown(total)));
      ReadsBackTotal(total);
    }
  }

  /** A whole number of seconds, written in its tier, reads back as itself
      (without its seconds in the hour tier). */
  lemma ReadsBackTotal(total: nat)
    ensures ReadTimeLeft(Render(Breakdown(total))) == Some(if total >= 3600 then total - total % 60 else total)
  {
    if total >= 3600 {
      ReadsBackHourTier(total);
    } else if total >= 60 {
      ReadsBackMinuteTier(total);
    } else {
      assert Breakdown(total) == SecondsOnly(total);
      ReadsBackSeconds(total);
    }
  }

  lemma ReadsBackHourTier(total: nat)
    requires total >= 3600
    ensures ReadTimeLeft(Render(Breakdown(total))) == Some(total - total % 60)
  {
    var h, m := total / 3600, (total % 3600) / 60;
    BreakdownParts(total);
    assert h > 0;
    assert Breakdown(total) == HoursMinutes(h, m);
    ReadsBackHours(h, m);
  }

  lemma ReadsBackMinuteTier(total: nat)
    requires 60 <= total < 3600
    ensures ReadTimeLeft(Render(Breakdown(total))) == Some(total)
  {
    assert total / 3600 == 0 && total % 3600 == total;
    var m, sec := total / 60, total % 60;
    assert total == 60 * m + sec;
    assert m > 0;
    assert Breakdown(total) == MinutesSeconds(m, sec);
    ReadsBackMinutes(m, sec);
  }

  /** Less than a second left shows "0s". */
  lemma FormatTimeLeftSubSecond(target: int, now: int)
    requires 0 < target - now < 1000
    ensures FormatTimeLeft(target, now) == Some("0s")
  {
    assert (target - now) / 1000 == 0;
    assert Breakdown(0) == SecondsOnly(0);
    assert DigitChar(0) == '0';
    assert NatToString(0) == "0";
    assert Render(SecondsOnly(0)) == "0" + "s";
    assert FormatTimeLeft(target, now) == Some(Render(Breakdown(0)));
    assert "0" + "s" == "0s";
  }

  /** The hour tier shows exactly when an hour or more is left, the minute tier
      when between a minute and an hour is left. */
  lemma FormatTimeLeftTiers(target: int, now: int)
    requires target > now
    ensures Breakdown((target - now) / 1000).HoursMinutes? <==> target - now >= 3_600_000
    ensures Breakdown((target - now) / 1000).MinutesSeconds? <==> 60_000 <= target - now < 3_600_000
  {
  }

  // ---------------------------------------------------------------------------
  // The panel

  /** The state of the active panel: its clock reading, the folder chip
      chosen, the pending smart timer and the alarm flag. The alarm itself is
      the shared audio alarm. */
  class QueuePanel {
    var now: int
    var selectedFolderId: Option<string>
    var timer: Option<PendingTimer>
    var alarmActive: bool
    const alarm: AlarmSink

    /** A freshly mounted panel at `clock`, with no timer and no alarm. */
    constructor (alarm: AlarmSink, clock: int)
      ensures this.alarm == alarm
      ensures now == clock && selectedFolderId == None && timer == None && !alarmActive
    {
      this.alarm := alarm;
      now := clock;
      selectedFolderId := None;
      timer := None;
      alarmActive := false;
    }

    /** `scheduleSmartTimer(cardList)` at `clock`: any pending timer is
        cancelled first, then at most one is armed for the nearest future due
        time. */
    method ScheduleSmartTimer(cardList: seq<Card>, clock: int)
      modifies this`timer
      ensures timer == Armed(cardList, clock)
      ensures timer.None? <==> forall c :: c in cardList ==> c.nextReviewTime <= clock
      ensures timer.Some? ==> timer.value.delay > 0 && timer.value.target == clock + timer.value.delay
    {
      if timer.Some? {
        timer := None;
      }
      ArmedSpec(cardList, clock);
      match NearestDue(cardList, clock) {
        case None =>
        case Some(nearest) =>
          var delay := nearest - clock;
          timer := Some(PendingTimer(nearest, MaxZero(delay), cardList));
      }
    }

    /** The effect that runs whenever the active list changes: re-arm on the
        folder-filtered active cards, then refresh the clock reading. */
    method OnActiveCardsChanged(cards: seq<Card>, clock: int)
      modifies this`timer, this`now
      ensures timer == Armed(ActiveCards(cards, selectedFolderId), clock)
      ensures now == clock
    {
      ScheduleSmartTimer(ActiveCards(cards, selectedFolderId), clock);
      now := clock;
    }

    /** Choosing a folder chip; the active list changes with it, so the timer
        is re-armed on the new list. */
    method SelectFolder(folderId: Option<string>, cards: seq<Card>, clock: int)
      modifies this`selectedFolderId, this`timer, this`now
      ensures selectedFolderId == folderId
      ensures timer == Armed(ActiveCards(cards, folderId), clock)
      ensures now == clock
    {
      selectedFolderId := folderId;
      OnActiveCardsChanged(cards, clock);
    }

    /** The timer callback, run at `wakeTime` (never before its target): the
        clock reading is refreshed, the alarm is started unless the flag says
        it already sounds, a notification is due when permitted and the page is
        hidden, and the timer is re-armed on the list it captured. */
    method Fire(wakeTime: int, audioTime: int, contextAvailable: bool, notificationGranted: bool, hidden: bool)
      returns (notified: bool)
      requires timer.Some? && timer.value.target <= wakeTime
      modifies this`now, this`alarmActive, this`timer, alarm
      ensures now == wakeTime && alarmActive
      ensures notified == (notificationGranted && hidden)
      ensures timer == Armed(old(timer.value.cardList), wakeTime)
      ensures timer.Some? ==> timer.value.target > old(timer.value.target)
      ensures old(alarmActive) ==> unchanged(alarm)
      ensures !old(alarmActive) && (old(alarm.isPlaying) || (!old(alarm.hasContext) && !contextAvailable)) ==>
        && alarm.isPlaying == old(alarm.isPlaying) && alarm.hasContext == old(alarm.hasContext)
        && alarm.nextNoteTime == old(alarm.nextNoteTime) && alarm.timerArmed == old(alarm.timerArmed)
        && alarm.tones == old(alarm.tones)
      ensures !old(alarmActive) && !old(alarm.isPlaying) && (old(alarm.hasContext) || contextAvailable) ==>
        && alarm.isPlaying && alarm.hasContext && alarm.timerArmed
        && alarm.tones == old(alarm.tones) + NoteTones(audioTime + LeadInMs)
        && alarm.nextNoteTime == audioTime + LeadInMs + BeepIntervalMs
    {
      var captured := timer.value.cardList;
      now := wakeTime;
      if !alarmActive {
        alarm.Start(contextAvailable, audioTime);
        alarmActive := true;
      }
      notified := notificationGranted && hidden;
      ScheduleSmartTimer(captured, wakeTime);
    }

    /** A click, key press or touch: silences the alarm if the flag is set,
        and otherwise leaves everything alone. */
    method Interaction()
      modifies this`alarmActive, alarm`isPlaying, alarm`timerArmed
      ensures !alarmActive
      ensures old(alarmActive) ==> !alarm.isPlaying && !alarm.timerArmed
      ensures !old(alarmActive) ==> alarm.isPlaying == old(alarm.isPlaying) && alarm.timerArmed == old(alarm.timerArmed)
    {
      if alarmActive {
        alarm.Stop();
        alarmActive := false;
      }
    }

    /** Coming back to the page refreshes the clock reading only; the timer is
        not re-armed. */
    method VisibilityChange(visible: bool, clock: int)
      modifies this`now
      ensures now == if visible then clock else old(now)
    {
      if visible {
        now := clock;
      }
    }

    /** `handleReviewAction`: the alarm stops, the flag clears, and the store
        receives the card advanced one rung and due again from `clock`. */
    method ReviewAction(card: Card, clock: int, store: CardStore)
      modifies this`alarmActive, alarm`isPlaying, alarm`timerArmed, store`cards
      ensures !alarmActive && !alarm.isPlaying && !alarm.timerArmed
      ensures store.cards == UpdateIn(old(store.cards), Reviewed(card, clock))
    {
      alarm.Stop();
      alarmActive := false;
      store.UpdateCard(Reviewed(card, clock));
    }

    /** Unmounting: the pending timer is cleared and the alarm stopped. */
    method Unmount()
      modifies this`timer, alarm`isPlaying, alarm`timerArmed
      ensures timer.None? && !alarm.isPlaying && !alarm.timerArmed
    {
      timer := None;
      alarm.Stop();
    }
  }
}
