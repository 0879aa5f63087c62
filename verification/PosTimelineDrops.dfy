/** What the POS session timeline says of the events its full queue dropped, and
    exactly when that is how many were lost.

    A report of drops is an event like any other: it can be dropped in turn,
    refused, forgotten, or handed to a beacon that is never heard of again. And an
    event dropped while a fetch carries it may yet be acknowledged. */
module PosTimelineDrops {
  import opened Wrappers
  import opened PosTimeline
  import opened PosTimelineSafety
  import opened PosTimelineRuns
  import opened PosTimelineBeacons

  // ---- Told and lost ----

  ghost function AsSet(numbers: seq<nat>): set<nat> {
    set n | n in numbers
  }

  ghost function Acked(w: World): set<nat> {
    AsSet(w.ledger.acked)
  }

  ghost function Handed(w: World): set<nat> {
    AsSet(w.ledger.handed)
  }

  /** The numbers that left to be delivered: acknowledged, or handed to a beacon. */
  ghost function Away(w: World): set<nat> {
    AsSet(Left(w.ledger))
  }

  /** The numbers that may yet be acknowledged: queued, or carried by a fetch. */
  ghost function Pending(w: World): set<nat> {
    Numbers(w.queue) + Numbers(w.carrying)
  }

  /** The numbers that neither left to be delivered nor will. */
  ghost function Gone(w: World): set<nat> {
    UpTo(w.number) - (Away(w) + Pending(w))
  }

  ghost function UpTo(number: nat): (numbers: set<nat>)
    ensures forall n: nat :: n in numbers <==> 1 <= n <= number
  {
    if number == 0 then {} else UpTo(number - 1) + {number}
  }

  /** The drops that the reports among some numbers tell of. */
  ghost function SumIn(log: seq<Entry>, among: set<nat>): nat {
    if log == [] then 0
    else
      var last := log[|log| - 1];
      SumIn(log[..|log| - 1], among) + if last.Report? && last.event.number in among then last.lost else 0
  }

  /** The drops the store has been told of. */
  ghost function Heard(w: World): nat { SumIn(w.ledger.log, Acked(w)) }

  /** The drops told of only to a beacon: the store may have heard, or not. */
  ghost function InDoubt(w: World): nat { SumIn(w.ledger.log, Handed(w)) }

  /** The drops it may yet be told of. */
  ghost function Awaiting(w: World): nat { w.dropped + SumIn(w.ledger.log, Pending(w)) }

  /** The drops it is never known to be told of. */
  ghost function Unheard(w: World): nat { SumIn(w.ledger.log, Gone(w)) }

  /** The events dropped and not acknowledged. */
  ghost function Lost(w: World): set<nat> {
    AsSet(w.ledger.spliced) - Acked(w)
  }

  /** The events dropped, and so counted, but acknowledged all the same. */
  ghost function Overcounted(w: World): set<nat> {
    AsSet(w.ledger.spliced) * Acked(w)
  }

  /** Reports say how many events were dropped, and there were some. */
  ghost predicate Truthful(log: seq<Entry>) {
    forall i :: 0 <= i < |log| && log[i].Report? ==>
      && log[i].lost > 0
      && log[i].event.kind == "timeline.dropped" && log[i].event.level == Warn && log[i].event.orderId == None
      && log[i].event.detail == map["events" := Number(log[i].lost)]
  }

  lemma EnqueuedTruthful(w: World, entry: Entry, saves: bool)
    requires Truthful(w.ledger.log) && Truthful([entry])
    ensures Truthful(Enqueued(w, entry, saves).ledger.log)
  {
    assert [entry][0] == entry;
    hide NumberSeq;
  }

  lemma AnnouncedTruthful(w: World, now: int, saves: bool)
    requires Truthful(w.ledger.log)
    ensures Truthful(Announced(w, now, saves).ledger.log)
  {
    if w.dropped > 0 {
      EnqueuedTruthful(w.(dropped := 0), ReportOf(w.number + 1, now, w.dropped), saves);
    }
    hide Enqueued;
  }

  lemma NextTruthful(w: World, input: Input)
    requires Truthful(w.ledger.log)
    ensures Truthful(Next(w, input).ledger.log)
  {
    match input
    case Record(kind, orderId, detail, level, now, saves) =>
      EnqueuedTruthful(w, Called(Event(w.number + 1, now, level, kind, NonEmpty(orderId), Clean(detail))), saves);
      hide Enqueued;
    case Flush(now, online, saves) => AnnouncedTruthful(w, now, saves); hide Announced;
    case Resolve(outcome, now, online, saves, removes) =>
      if outcome.Answered? {
        var l := Landed(AnsweredBy(w, outcome.status, outcome.retryAfter, now, saves, removes));
        AnnouncedTruthful(l, now, saves);
        hide Announced;
      }
    case Beacon(now, online, supported, queued, saves) => AnnouncedTruthful(w, now, saves); hide Announced;
    case Reload(session) =>
  }

  lemma {:induction false} RunTruthful(w: World, inputs: seq<Input>)
    requires Truthful(w.ledger.log)
    ensures Truthful(Run(w, inputs).ledger.log)
  {
    if inputs != [] {
      var before := inputs[..|inputs| - 1];
      RunTruthful(w, before);
      NextTruthful(Run(w, before), inputs[|inputs| - 1]);
    }
    hide Next, Truthful;
  }

  lemma {:induction false} SumSplits(log: seq<Entry>, a: set<nat>, b: set<nat>)
    requires a !! b
    ensures SumIn(log, a + b) == SumIn(log, a) + SumIn(log, b)
  {
    if log != [] { SumSplits(log[..|log| - 1], a, b); }
  }

  lemma {:induction false} SumOfAll(log: seq<Entry>, all: set<nat>)
    requires forall i :: 0 <= i < |log| ==> log[i].event.number in all
    ensures SumIn(log, all) == Reported(log)
  {
    if log != [] { SumOfAll(log[..|log| - 1], all); }
  }

  /** Numbers of a shorter log say the same in a longer one. */
  lemma {:induction false} SumKeeps(log: seq<Entry>, longer: seq<Entry>, among: set<nat>)
    requires log <= longer
    requires forall i :: |log| <= i < |longer| ==> longer[i].event.number !in among
    ensures SumIn(longer, among) == SumIn(log, among)
  {
    if |log| < |longer| {
      SumKeeps(log, longer[..|longer| - 1], among);
    } else {
      assert log == longer;
    }
  }

  /** No report among the numbers, in a log numbered from one. */
  ghost predicate NoReportIn(log: seq<Entry>, among: set<nat>) {
    forall i :: 0 <= i < |log| && log[i].Report? ==> log[i].event.number !in among
  }

  lemma {:induction false} SumIsNone(log: seq<Entry>, among: set<nat>)
    requires Truthful(log)
    ensures SumIn(log, among) == 0 <==> NoReportIn(log, among)
  {
    if log != [] {
      var before := log[..|log| - 1];
      assert forall i :: 0 <= i < |before| ==> before[i] == log[i];
      SumIsNone(before, among);
    }
  }

  lemma {:induction false} EachOnce(numbers: seq<nat>)
    requires Ascending(numbers)
    ensures |AsSet(numbers)| == |numbers|
  {
    if numbers != [] {
      var before := numbers[..|numbers| - 1];
      var last := numbers[|numbers| - 1];
      EachOnce(before);
      assert last !in before;
      assert numbers == before + [last];
      hide Ascending;
      assert AsSet(numbers) == AsSet(before) + {last};
    }
  }

  lemma SplitCount(w: World)
    requires Ascending(w.ledger.spliced)
    ensures |w.ledger.spliced| == |Lost(w)| + |Overcounted(w)|
  {
    EachOnce(w.ledger.spliced);
    assert AsSet(w.ledger.spliced) == Lost(w) + Overcounted(w);
  }

  lemma AllNumbered(w: World)
    requires Inv(w)
    ensures forall i :: 0 <= i < |w.ledger.log| ==> w.ledger.log[i].event.number in Away(w) + Pending(w) + Gone(w)
    ensures Away(w) !! Pending(w) && Away(w) + Pending(w) !! Gone(w)
    ensures Acked(w) !! Handed(w) && Away(w) == Acked(w) + Handed(w)
    ensures forall n :: n in Gone(w) ==> n in w.ledger.refused || n in w.ledger.spliced || n in w.ledger.forgotten
  {
    hide QueueShape, OneFlight, DropsCounted, DropsFollowed, DroppedInOrder, Numbers, Quiet, HandedApart;
    AwayIs(w);
    forall n | n in Gone(w) ensures n in w.ledger.refused || n in w.ledger.spliced || n in w.ledger.forgotten {
      assert Ended(w.ledger, n);
    }
  }

  lemma AwayIs(w: World)
    requires Distinct(Left(w.ledger))
    ensures Acked(w) !! Handed(w) && Away(w) == Acked(w) + Handed(w)
  {
    forall n | n in Handed(w) ensures n !in Acked(w) { LeftOnce(w.ledger.acked, w.ledger.handed, n); }
    hide Distinct;
  }

  lemma DropsHold(w: World)
    requires Inv(w)
    ensures |w.ledger.spliced| == w.dropped + Reported(w.ledger.log) && Ascending(w.ledger.spliced)
  {
    hide QueueShape, OneFlight, NothingLost, Settled, Counted, DropsFollowed, Quiet;
  }

  /** Every drop is told of, told of only to a beacon, may yet be told of, or never
      will; and the count known to be told, or still to be, is the count of events
      lost if and only if the drops never told of, or only to a beacon, are as many
      as the drops that were acknowledged after all. */
  lemma DropsToldExactly(session: string, inputs: seq<Input>)
    requires ReloadsCurrent(session, inputs)
    ensures var w := Run(Start(session), inputs);
            && Heard(w) + InDoubt(w) + Awaiting(w) + Unheard(w) == |w.ledger.spliced| == |Lost(w)| + |Overcounted(w)|
            && (Heard(w) + Awaiting(w) == |Lost(w)| <==> Unheard(w) + InDoubt(w) == |Overcounted(w)|)
            && (Heard(w) + InDoubt(w) + Awaiting(w) == |Lost(w)| <==> Unheard(w) == |Overcounted(w)|)
            && (forall n :: n in Gone(w) ==> n in w.ledger.refused || n in w.ledger.spliced || n in w.ledger.forgotten)
  {
    RunHolds(session, inputs);
    var w := Run(Start(session), inputs);
    hide Run, Inv, Start, ReloadsCurrent, SumIn, Gone, Pending, Away, Acked, Handed;
    AllNumbered(w);
    DropsHold(w);
    SumSplits(w.ledger.log, Acked(w), Handed(w));
    SumSplits(w.ledger.log, Away(w), Pending(w));
    SumSplits(w.ledger.log, Away(w) + Pending(w), Gone(w));
    SumOfAll(w.ledger.log, Away(w) + Pending(w) + Gone(w));
    SplitCount(w);
  }

  // ---- The steps that make the count wrong ----

  /** The numbers given up for good by one more event on the queue: the oldest of
      a full one, unless a fetch carries it. */
  ghost function PushedOut(w: World): set<nat> {
    if |w.queue| == MAX_QUEUED && w.queue[0].number !in Numbers(w.carrying) then {w.queue[0].number} else {}
  }

  /** What the report of drops at the start of a batch pushes out. */
  ghost function ReportPushesOut(w: World): set<nat> {
    if w.dropped > 0 then PushedOut(w) else {}
  }

  /** What a fetch carries that a full queue has dropped since. */
  ghost function CarriedOut(w: World): set<nat> {
    Numbers(w.carrying) - Numbers(w.queue)
  }

  /** The numbers that this step leaves never to be delivered. */
  ghost function Hidden(w: World, input: Input): set<nat> {
    match input
    case Record(_, _, _, _, _, _) => if w.stopped then {} else PushedOut(w)
    case Flush(now, online, _) => if MayFlush(w, now, online) then ReportPushesOut(w) else {}
    case Resolve(outcome, now, online, saves, removes) =>
      if !w.sending then {}
      else if outcome.Answered? && Accepts(outcome.status) then
        var l := Landed(Delivered(w, saves));
        if MayFlush(l, now, online) then ReportPushesOut(l) else {}
      else if outcome.Answered? && Stops(outcome.status) then Pending(w)
      else if outcome.Answered? && Refuses(outcome.status) then Numbers(w.carrying)
      else CarriedOut(w)
    case Beacon(now, online, supported, _, _) =>
      if MayBeacon(w, now, online, supported) then ReportPushesOut(w) else {}
    case Reload(_) => CarriedOut(w)
  }

  /** The numbers acknowledged at this step though they were counted as dropped. */
  ghost function Doubled(w: World, input: Input): set<nat> {
    if input.Resolve? && w.sending && input.outcome.Answered? && Accepts(input.outcome.status) then CarriedOut(w) else {}
  }

  /** Going from `w` to `x` exactly `hidden` goes for good, and exactly `doubled`
      is acknowledged though dropped. */
  ghost predicate Goes(w: World, x: World, hidden: set<nat>, doubled: set<nat>) {
    && Gone(x) == Gone(w) + hidden
    && hidden !! Gone(w)
    && (forall n :: n in hidden ==> 1 <= n <= w.number)
    && Overcounted(x) == Overcounted(w) + doubled
    && w.ledger.log <= x.ledger.log
  }

  lemma GoesOn(w: World, x: World, y: World, hidden: set<nat>, doubled: set<nat>)
    requires Goes(w, x, {}, doubled) && Goes(x, y, hidden, {}) && x.number == w.number
    ensures Goes(w, y, hidden, doubled)
  {
    hide Gone, Overcounted;
  }

  lemma GoesNowhere(w: World)
    ensures Goes(w, w, {}, {})
  {
  }

  /** What the invariant says of the numbers alone. */
  ghost predicate NumbersHold(w: World) {
    && w.number == |w.ledger.log|
    && (forall n :: n in Pending(w) ==> 1 <= n <= w.number && n !in Away(w))
    && (forall n :: n in Away(w) ==> 1 <= n <= w.number)
    && (forall n :: n in Numbers(w.queue) ==> n !in w.ledger.spliced)
    && (forall n :: n in CarriedOut(w) ==> n in w.ledger.spliced)
    && (forall n :: n in w.ledger.spliced ==> 1 <= n <= w.number)
    && |w.queue| <= MAX_QUEUED
  }

  lemma NumbersAre(w: World)
    requires Inv(w)
    ensures NumbersHold(w)
  {
    hide Inv, Numbers, CarriedOut;
    PendingIssued(w);
    PendingUnsettled(w);
    QueuedNotDropped(w);
    CarriedOutDropped(w);
  }

  lemma PendingIssued(w: World)
    requires Inv(w)
    ensures w.number == |w.ledger.log| && |w.queue| <= MAX_QUEUED
    ensures forall n :: n in Pending(w) ==> 1 <= n <= w.number
  {
    hide Increasing, EndsWith, CountUpTo, DropsCounted, DropsFollowed, DroppedInOrder, NothingLost, Settled, Quiet;
    GenuineNumbers(w.queue, w.ledger.log);
    GenuineNumbers(w.carrying, w.ledger.log);
    hide Numbers, Genuine;
  }

  lemma PendingUnsettled(w: World)
    requires Inv(w)
    ensures forall n :: n in Pending(w) ==> n !in Away(w)
    ensures forall n :: n in Away(w) ==> 1 <= n <= w.number
  {
    hide QueueShape, OneFlight, DropsCounted, DropsFollowed, DroppedInOrder, NothingLost, Quiet, Counted, Numbers, Distinct,
         HandedApart, Left;
  }

  lemma QueuedNotDropped(w: World)
    requires Inv(w)
    ensures forall n :: n in Numbers(w.queue) ==> n !in w.ledger.spliced
    ensures forall n :: n in w.ledger.spliced ==> 1 <= n <= w.number
  {
    hide QueueShape, OneFlight, NothingLost, Settled, Counted, DropsCounted, DropsFollowed, Quiet;
  }

  lemma CarriedOutDropped(w: World)
    requires Inv(w)
    ensures forall n :: n in CarriedOut(w) ==> n in w.ledger.spliced
  {
    hide QueueShape, Increasing, EndsWith, CountUpTo, DropsCounted, DropsFollowed, DroppedInOrder;
    GenuineNumbers(w.carrying, w.ledger.log);
    forall n | n in CarriedOut(w) ensures n in w.ledger.spliced {
      assert Ended(w.ledger, n);
    }
    hide Numbers, Genuine;
  }

  lemma EnqueuedGoes(w: World, entry: Entry, saves: bool)
    requires NumbersHold(w) && Increasing(w.queue) && entry.event.number == w.number + 1
    ensures Goes(w, Enqueued(w, entry, saves), PushedOut(w), {})
  {
    var e := Enqueued(w, entry, saves);
    EnqueuedIs(w, entry, saves);
    LongerNumbers(w.queue, entry.event);
    assert forall n :: n in Numbers(w.queue) ==> n in Pending(w);
    OutUnqueued(w.queue, entry.event, w.number);
    assert |w.queue| == MAX_QUEUED ==> w.queue[0].number in Numbers(w.queue);
    hide Enqueued, Longer, Numbers, Increasing;
    EnqueuedGoesBy(w, e, entry.event.number);
  }

  lemma EnqueuedGoesBy(w: World, e: World, number: nat)
    requires NumbersHold(w) && number == w.number + 1 == e.number
    requires e.carrying == w.carrying && w.ledger.log <= e.ledger.log
    requires e.ledger.acked == w.ledger.acked && e.ledger.handed == w.ledger.handed
    requires e.ledger.spliced == w.ledger.spliced + Out(w.queue)
    requires Numbers(w.queue) + {number} == Numbers(e.queue) + set n | n in Out(w.queue)
    requires forall n :: n in Out(w.queue) ==> n !in Numbers(e.queue)
    requires |w.queue| == MAX_QUEUED ==> w.queue[0].number in Numbers(w.queue)
    ensures Goes(w, e, PushedOut(w), {})
  {
    hide Numbers;
    assert AsSet(e.ledger.spliced) == AsSet(w.ledger.spliced) + AsSet(Out(w.queue));
  }

  /** A fetch comes to carry a dropped event exactly when an event is recorded on
      a full queue whose oldest it carries. */
  lemma DroppedWhileCarried(w: World, entry: Entry, saves: bool)
    requires Inv(w) && entry.event.number == w.number + 1
    ensures CarriedOut(Enqueued(w, entry, saves)) ==
            CarriedOut(w) + if |w.queue| == MAX_QUEUED && w.queue[0].number in Numbers(w.carrying)
                            then {w.queue[0].number} else {}
  {
    NumbersAre(w);
    InOrder(w);
    hide Inv;
    EnqueuedIs(w, entry, saves);
    LongerNumbers(w.queue, entry.event);
    assert forall n :: n in Numbers(w.queue) || n in Numbers(w.carrying) ==> n in Pending(w);
    OutUnqueued(w.queue, entry.event, w.number);
    assert |w.queue| == MAX_QUEUED ==> w.queue[0].number in Numbers(w.queue);
    IssuedBefore(w);
    var e := Enqueued(w, entry, saves);
    hide Enqueued, Longer, Numbers, Increasing, NumbersHold;
    CarriedOutBy(w, e, entry.event.number);
  }

  lemma CarriedOutBy(w: World, e: World, number: nat)
    requires number !in Pending(w) && e.carrying == w.carrying && |w.queue| <= MAX_QUEUED
    requires Numbers(w.queue) + {number} == Numbers(e.queue) + set n | n in Out(w.queue)
    requires forall n :: n in Out(w.queue) ==> n !in Numbers(e.queue)
    requires |w.queue| == MAX_QUEUED ==> w.queue[0].number in Numbers(w.queue)
    ensures CarriedOut(e) ==
            CarriedOut(w) + if |w.queue| == MAX_QUEUED && w.queue[0].number in Numbers(w.carrying)
                            then {w.queue[0].number} else {}
  {
    hide Numbers;
  }

  lemma IssuedBefore(w: World)
    requires NumbersHold(w)
    ensures w.number + 1 !in Pending(w)
  {
    hide Pending, CarriedOut;
  }

  lemma OutUnqueued(queue: seq<Event>, event: Event, number: nat)
    requires |queue| <= MAX_QUEUED && Increasing(queue) && event.number == number + 1
    requires forall n :: n in Numbers(queue) ==> n <= number
    ensures forall n :: n in Out(queue) ==> n !in Numbers(Longer(queue, event))
  {
    if |queue| == MAX_QUEUED {
      assert queue[0].number in Numbers(queue);
    }
  }

  lemma AnnouncedGoes(w: World, now: int, saves: bool)
    requires NumbersHold(w) && Increasing(w.queue)
    ensures Goes(w, Announced(w, now, saves), ReportPushesOut(w), {})
  {
    if w.dropped > 0 {
      var z := w.(dropped := 0);
      assert Pending(z) == Pending(w) && Acked(z) == Acked(w) && Away(z) == Away(w) && CarriedOut(z) == CarriedOut(w);
      assert NumbersHold(z);
      hide Increasing, Numbers, NumbersHold;
      EnqueuedGoes(z, ReportOf(w.number + 1, now, w.dropped), saves);
      assert Gone(z) == Gone(w) && Overcounted(z) == Overcounted(w);
      hide Enqueued, Gone, Overcounted;
    } else {
      GoesNowhere(w);
    }
  }

  lemma LandedGoes(w: World, paused: int)
    requires NumbersHold(w)
    ensures Goes(w, Landed(w.(pausedUntil := paused)), CarriedOut(w), {})
  {
    assert Numbers([]) == {};
    hide Numbers;
  }

  /** A carried batch leaving the queue takes just its own numbers. */
  lemma CarriedLeaves(w: World)
    requires Inv(w)
    ensures var left := Without(w.queue, Numbers(w.carrying));
            Numbers(left) == Numbers(w.queue) - Numbers(w.carrying)
  {
    hide NothingLost, Settled, DroppedInOrder, DropsCounted, DropsFollowed, Counted;
    var c := CountUpTo(w.queue, w.inFlightUpTo);
    CarriedGoes(w.queue, w.carrying, w.sending, w.inFlightUpTo, w.ledger.log);
    PartNumbers(w.queue, 0, c);
    hide QueueShape, OneFlight, Numbers;
  }

  /** A batch leaves the queue, if it was on it, and is carried no more; `acked` of
      its numbers are acknowledged, and `away` left to be delivered. */
  ghost predicate Leaves(w: World, x: World, batch: set<nat>, acked: set<nat>, away: set<nat>) {
    && x.number == w.number && x.ledger.log == w.ledger.log && x.ledger.spliced == w.ledger.spliced
    && Numbers(x.queue) == Numbers(w.queue) - batch
    && Acked(x) == Acked(w) + acked
    && Away(x) == Away(w) + away
  }

  lemma DeliveredGoes(w: World, saves: bool)
    requires Inv(w)
    ensures Goes(w, Landed(Delivered(w, saves)), {}, CarriedOut(w))
  {
    NumbersAre(w);
    CarriedLeaves(w);
    NumberSeqHolds(w.carrying);
    hide Inv, Without, NumberSeq, Numbers;
    var x := Landed(Delivered(w, saves));
    assert Leaves(w, x, Numbers(w.carrying), Numbers(w.carrying), Numbers(w.carrying));
    assert x.carrying == [];
    hide Delivered, Landed;
    CarriedGoesBy(w, x, true);
  }

  lemma RejectedGoes(w: World, saves: bool)
    requires Inv(w)
    ensures Goes(w, Landed(Rejected(w, saves)), Numbers(w.carrying), {})
  {
    NumbersAre(w);
    CarriedLeaves(w);
    hide Inv, Without, Numbers;
    var x := Landed(Rejected(w, saves));
    assert Leaves(w, x, Numbers(w.carrying), {}, {});
    assert x.carrying == [];
    hide Rejected, Landed;
    CarriedGoesBy(w, x, false);
  }

  lemma CarriedGoesBy(w: World, x: World, accepted: bool)
    requires NumbersHold(w) && x.carrying == []
    requires var ended := if accepted then Numbers(w.carrying) else {}; Leaves(w, x, Numbers(w.carrying), ended, ended)
    ensures if accepted then Goes(w, x, {}, CarriedOut(w)) else Goes(w, x, Numbers(w.carrying), {})
  {
    assert Numbers([]) == {};
    hide Numbers, Acked, Away;
  }

  lemma StoppedGoes(w: World, removes: bool)
    requires NumbersHold(w)
    ensures Goes(w, Landed(Stopped(w, removes)), Pending(w), {})
  {
    assert Numbers([]) == {};
    hide Numbers;
  }

  lemma TakenGoes(a: World)
    requires Inv(a) && !a.sending
    ensures Goes(a, Taken(a), {}, {})
  {
    NothingOut(a);
    BatchQueued(a, 0);
    hide Inv, NextOf;
    SamePending(a, Taken(a));
  }

  /** Only what is carried changes, and that to events that are queued. */
  lemma SamePending(a: World, x: World)
    requires a.carrying == [] && Numbers(x.carrying) <= Numbers(a.queue)
    requires x.number == a.number && x.queue == a.queue && x.ledger == a.ledger
    ensures Goes(a, x, {}, {})
  {
    assert Numbers([]) == {};
    hide Numbers;
    assert Pending(x) == Pending(a);
    hide Pending;
  }

  lemma NothingOut(w: World)
    requires Inv(w) && !w.sending
    ensures w.carrying == [] && w.inFlightUpTo == 0
  {
    hide QueueShape, NothingLost, Settled, DroppedInOrder, DropsCounted, DropsFollowed, Counted;
  }

  /** A batch is of queued events, and leaving the queue takes just its numbers. */
  lemma BatchQueued(a: World, upTo: nat)
    requires Inv(a) && upTo == a.inFlightUpTo
    ensures var batch := NextOf(a.queue, upTo);
            && Numbers(batch) <= Numbers(a.queue)
            && Numbers(Without(a.queue, Numbers(batch))) == Numbers(a.queue) - Numbers(batch)
  {
    hide NothingLost, Settled, DroppedInOrder, DropsCounted, DropsFollowed, Counted, Genuine;
    NextBatchIs(a.queue, a.carrying, a.sending, upTo, a.ledger.log);
    var c := CountUpTo(a.queue, upTo);
    var n := |NextOf(a.queue, upTo)|;
    PartNumbers(a.queue, c, c + n);
    PartDisjoint(a.queue, c, c + n);
    hide Numbers, NextOf, Without, OneFlight, Outside;
  }

  lemma BeaconGoes(a: World, saves: bool)
    requires Inv(a)
    ensures var batch := NextOf(a.queue, a.inFlightUpTo);
            var s := Sent(a, batch, saves);
            Goes(a, s.(ledger := s.ledger.(handed := s.ledger.handed + NumberSeq(batch))), {}, {})
  {
    NumbersAre(a);
    BatchQueued(a, a.inFlightUpTo);
    var batch := NextOf(a.queue, a.inFlightUpTo);
    NumberSeqHolds(batch);
    hide Inv, Numbers, NumberSeq, NextOf, Without;
    var s := Sent(a, batch, saves);
    var x := s.(ledger := s.ledger.(handed := s.ledger.handed + NumberSeq(batch)));
    assert Leaves(a, x, Numbers(batch), {}, Numbers(batch)) && x.carrying == a.carrying;
    hide Sent;
    BatchGoesBy(a, x, Numbers(batch));
  }

  lemma BatchGoesBy(a: World, x: World, batch: set<nat>)
    requires NumbersHold(a) && x.carrying == a.carrying && batch <= Numbers(a.queue)
    requires Leaves(a, x, batch, {}, batch)
    ensures Goes(a, x, {}, {})
  {
    hide Numbers, Acked, Away;
  }

  lemma InOrder(w: World)
    requires Inv(w)
    ensures Increasing(w.queue)
  {
    hide OneFlight, NothingLost, Settled, DroppedInOrder, DropsCounted, DropsFollowed, Counted, Genuine, Quiet;
  }

  lemma FlushingGoes(w: World, now: int, online: bool, saves: bool)
    requires Inv(w)
    ensures Goes(w, Flushing(w, now, online, saves), if MayFlush(w, now, online) then ReportPushesOut(w) else {}, {})
  {
    hide Inv, Goes, Announced, Increasing, NumbersHold, Taken, ReportPushesOut;
    if MayFlush(w, now, online) {
      NumbersAre(w);
      InOrder(w);
      AnnouncedGoes(w, now, saves);
      AnnouncedKeeps(w, now, saves);
      var a := Announced(w, now, saves);
      AnnouncedIdle(w, now, saves);
      TakenGoes(a);
      FlushingIs(w, now, online, saves);
      GoesThen(w, a, Taken(a), ReportPushesOut(w));
    } else {
      GoesNowhere(w);
    }
  }

  lemma AnnouncedIdle(w: World, now: int, saves: bool)
    ensures var a := Announced(w, now, saves); a.sending == w.sending && a.carrying == w.carrying
  {
    hide NumberSeq;
  }

  lemma FlushingIs(w: World, now: int, online: bool, saves: bool)
    requires MayFlush(w, now, online)
    ensures Flushing(w, now, online, saves) == Taken(Announced(w, now, saves))
  {
    hide Announced, NextOf;
  }

  lemma GoesThen(w: World, x: World, y: World, hidden: set<nat>)
    requires Goes(w, x, hidden, {}) && Goes(x, y, {}, {})
    ensures Goes(w, y, hidden, {})
  {
    hide Gone, Overcounted;
  }

  lemma BeaconingGoes(w: World, now: int, online: bool, supported: bool, queued: bool, saves: bool)
    requires Inv(w)
    ensures Goes(w, Beaconing(w, now, online, supported, queued, saves), Hidden(w, Beacon(now, online, supported, queued, saves)), {})
  {
    hide Inv, Goes, Announced, Increasing, NumbersHold, ReportPushesOut, NextOf, Sent, NumberSeq;
    if !MayBeacon(w, now, online, supported) {
      GoesNowhere(w);
    } else {
      NumbersAre(w);
      InOrder(w);
      AnnouncedGoes(w, now, saves);
      AnnouncedKeeps(w, now, saves);
      var a := Announced(w, now, saves);
      BeaconGoes(a, saves);
      if NextOf(a.queue, a.inFlightUpTo) != [] && queued {
        GoesThen(w, a, Beaconing(w, now, online, supported, queued, saves), ReportPushesOut(w));
      }
    }
  }

  lemma ResolvingGoes(w: World, outcome: Outcome, now: int, online: bool, saves: bool, removes: bool)
    requires Inv(w) && w.sending
    ensures var input := Resolve(outcome, now, online, saves, removes);
            Goes(w, Resolving(w, outcome, now, online, saves, removes), Hidden(w, input), Doubled(w, input))
  {
    hide Inv, Goes, NumbersHold, Flushing, Landed, Delivered, Rejected, Stopped, ReportPushesOut, CarriedOut, Pending, Numbers;
    NumbersAre(w);
    SendingRuns(w);
    if outcome.Unreachable? {
      LandedGoes(w, w.pausedUntil);
      assert w.(pausedUntil := w.pausedUntil) == w;
    } else if Accepts(outcome.status) {
      DeliveredKeeps(w, saves);
      DeliveredGoes(w, saves);
      DeliveredNumber(w, saves);
      var l := Landed(Delivered(w, saves));
      FlushingGoes(l, now, online, saves);
      if l.queue != [] {
        GoesOn(w, l, Flushing(l, now, online, saves), if MayFlush(l, now, online) then ReportPushesOut(l) else {}, CarriedOut(w));
      }
    } else if Stops(outcome.status) {
      StoppedGoes(w, removes);
    } else if Refuses(outcome.status) {
      RejectedGoes(w, saves);
    } else {
      LandedGoes(w, if outcome.status == 429 then PauseUntil(now, outcome.retryAfter) else w.pausedUntil);
      assert w.(pausedUntil := w.pausedUntil) == w;
    }
  }

  lemma DeliveredNumber(w: World, saves: bool)
    ensures Landed(Delivered(w, saves)).number == w.number
  {
  }

  lemma ReopenedGoes(w: World, session: string)
    requires Inv(w) && Current(w) && w.storage.Some?
    ensures Goes(w, Next(w, Reload(session)), CarriedOut(w), {})
  {
    NumbersAre(w);
    hide Inv, Goes, NumbersHold, CarriedOut;
    LandedGoes(w, 0);
    var x := Next(w, Reload(session));
    assert x == Landed(w.(pausedUntil := 0));
  }

  /** Each step hides from the store, overcounts and leaves in doubt exactly the
      numbers named above and those it hands over: what the store is never told of,
      or told of only by a beacon, grows by what their reports say. */
  lemma StepHides(w: World, input: Input)
    requires Inv(w) && Trusted(w, input) && SameSession(w, input)
    ensures var x := Next(w, input);
            && Unheard(x) == Unheard(w) + SumIn(w.ledger.log, Hidden(w, input))
            && InDoubt(x) == InDoubt(w) + SumIn(x.ledger.log, Numbers(HandedOver(w, input)))
            && Overcounted(x) == Overcounted(w) + Doubled(w, input)
  {
    StepGoes(w, input);
    NextKeeps(w, input);
    NumbersAre(w);
    CountedOf(w);
    var x := Next(w, input);
    CountedOf(x);
    StepHands(w, input);
    HandedOnce(w, x);
    hide Inv, Next, Hidden, Doubled, Overcounted, Trusted, Pending, CarriedOut, HandedOver;
    GoesSums(w, x, Hidden(w, input), Doubled(w, input));
    HandedSums(w, x, HandedOver(w, input));
  }

  lemma HandedOnce(w: World, x: World)
    requires Inv(x)
    ensures Distinct(x.ledger.handed)
  {
    hide QueueShape, OneFlight, DropsCounted, DropsFollowed, DroppedInOrder, NothingLost, Quiet, Counted, HandedApart;
    assert x.ledger.handed == Left(x.ledger)[|x.ledger.acked|..];
  }

  lemma HandedSums(w: World, x: World, batch: seq<Event>)
    requires NumbersHold(w) && w.ledger.log <= x.ledger.log
    requires forall i :: 0 <= i < |x.ledger.log| ==> x.ledger.log[i].event.number == i + 1
    requires x.ledger.handed == w.ledger.handed + NumberSeq(batch) && Distinct(x.ledger.handed)
    ensures InDoubt(x) == InDoubt(w) + SumIn(x.ledger.log, Numbers(batch))
  {
    NumberSeqHolds(batch);
    assert forall n :: n in Handed(w) ==> n in Away(w);
    hide Numbers, NumberSeq, NumbersHold;
    assert Handed(x) == Handed(w) + Numbers(batch);
    forall n | n in Numbers(batch) ensures n !in Handed(w) { LeftOnce(w.ledger.handed, NumberSeq(batch), n); }
    SumSplits(x.ledger.log, Handed(w), Numbers(batch));
    AwayIssued(w);
    SumKeeps(w.ledger.log, x.ledger.log, Handed(w));
  }

  lemma AwayIssued(w: World)
    requires NumbersHold(w)
    ensures forall n :: n in Away(w) ==> n <= |w.ledger.log|
  {
  }

  lemma CountedOf(w: World)
    requires Inv(w)
    ensures w.number == |w.ledger.log| && forall i :: 0 <= i < |w.ledger.log| ==> w.ledger.log[i].event.number == i + 1
  {
    hide QueueShape, OneFlight, NothingLost, Settled, DroppedInOrder, DropsCounted, DropsFollowed, Quiet;
  }

  lemma GoesSums(w: World, x: World, hidden: set<nat>, doubled: set<nat>)
    requires Goes(w, x, hidden, doubled) && w.number == |w.ledger.log|
    requires forall i :: 0 <= i < |x.ledger.log| ==> x.ledger.log[i].event.number == i + 1
    ensures Unheard(x) == Unheard(w) + SumIn(w.ledger.log, hidden)
  {
    assert forall n :: n in Gone(w) + hidden ==> n <= w.number;
    hide Gone, Overcounted;
    SumKeeps(w.ledger.log, x.ledger.log, Gone(w) + hidden);
    SumSplits(w.ledger.log, Gone(w), hidden);
  }

  lemma StepGoes(w: World, input: Input)
    requires Inv(w) && Trusted(w, input) && SameSession(w, input)
    ensures Goes(w, Next(w, input), Hidden(w, input), Doubled(w, input))
  {
    hide Inv, Goes, NumbersHold, Flushing, Resolving, Beaconing, Enqueued, PushedOut, ReportPushesOut, CarriedOut, Pending, Increasing;
    match input
    case Record(kind, orderId, detail, level, now, saves) =>
      if w.stopped {
        GoesNowhere(w);
      } else {
        NumbersAre(w);
        InOrder(w);
        EnqueuedGoes(w, Called(Event(w.number + 1, now, level, kind, NonEmpty(orderId), Clean(detail))), saves);
      }
    case Flush(now, online, saves) => FlushingGoes(w, now, online, saves);
    case Resolve(outcome, now, online, saves, removes) =>
      if w.sending {
        ResolvingGoes(w, outcome, now, online, saves, removes);
      } else {
        GoesNowhere(w);
        hide Hidden;
        LateResolve(w, outcome, now, online, saves, removes);
      }
    case Beacon(now, online, supported, queued, saves) => BeaconingGoes(w, now, online, supported, queued, saves);
    case Reload(session) => ReopenedGoes(w, session);
  }

  lemma LateResolve(w: World, outcome: Outcome, now: int, online: bool, saves: bool, removes: bool)
    requires !w.sending
    ensures Resolving(w, outcome, now, online, saves, removes) == w
    ensures Hidden(w, Resolve(outcome, now, online, saves, removes)) == {}
  {
  }

  // ---- Whole runs ----

  /** Nothing was hidden from the store or left in doubt, and nothing overcounted:
      what it hears, or may yet hear, is the count of events lost. */
  ghost predicate ToldRight(w: World) {
    Unheard(w) == 0 && InDoubt(w) == 0 && Overcounted(w) == {}
  }

  /** The step neither loses a report, nor hands one to a beacon, nor has an event
      acknowledged that was counted as dropped. */
  ghost predicate Harmless(w: World, input: Input) {
    SameSession(w, input) ==>
      && NoReportIn(w.ledger.log, Hidden(w, input))
      && NoReportIn(Next(w, input).ledger.log, Numbers(HandedOver(w, input)))
      && Doubled(w, input) == {}
  }

  lemma StepTellsRight(w: World, input: Input)
    requires Inv(w) && Trusted(w, input) && Truthful(w.ledger.log) && ToldRight(w)
    ensures ToldRight(Next(w, input)) <==> Harmless(w, input)
  {
    hide Inv, Trusted, Truthful, Hidden, Doubled, NoReportIn, HandedOver;
    if SameSession(w, input) {
      NextTruthful(w, input);
      hide Next;
      StepHides(w, input);
      SumIsNone(w.ledger.log, Hidden(w, input));
      SumIsNone(Next(w, input).ledger.log, Numbers(HandedOver(w, input)));
      hide Unheard, Overcounted, InDoubt;
    } else {
      NewSession(w, input);
      NewSessionToldRight(w, input);
      hide ToldRight;
    }
  }

  lemma NewSessionToldRight(w: World, input: Input)
    requires !SameSession(w, input)
    ensures ToldRight(Next(w, input))
  {
  }

  /** The count is right throughout a run if and only if no step of it lost a
      report, handed one to a beacon, or had an event acknowledged that was counted
      as dropped. */
  lemma {:induction false} ToldRightThroughout(session: string, inputs: seq<Input>)
    requires ReloadsCurrent(session, inputs)
    ensures (forall k :: 0 <= k <= |inputs| ==> ToldRight(Run(Start(session), inputs[..k]))) <==>
            (forall k :: 0 <= k < |inputs| ==> Harmless(Run(Start(session), inputs[..k]), inputs[k]))
    decreases |inputs|
  {
    hide ToldRight, Harmless, Run, ReloadsCurrent;
    if inputs == [] {
      StartToldRight(session);
      RunsNone(session, inputs[..0]);
    } else {
      var n := |inputs| - 1;
      var before := inputs[..n];
      ReloadsCurrentBefore(session, inputs, n);
      ToldRightThroughout(session, before);
      assert forall k :: 0 <= k <= n ==> before[..k] == inputs[..k];
      assert inputs[..n + 1] == inputs;
      if ToldRight(Run(Start(session), before)) { LastTellsRight(session, inputs); }
      assert before[..n] == before;
    }
  }

  lemma RunsNone(session: string, none: seq<Input>)
    requires none == []
    ensures Run(Start(session), none) == Start(session)
  {
  }

  /** What the last step of a run does to the count. */
  lemma LastTellsRight(session: string, inputs: seq<Input>)
    requires ReloadsCurrent(session, inputs) && inputs != []
    requires ToldRight(Run(Start(session), inputs[..|inputs| - 1]))
    ensures ToldRight(Run(Start(session), inputs)) <==>
            Harmless(Run(Start(session), inputs[..|inputs| - 1]), inputs[|inputs| - 1])
  {
    var before := inputs[..|inputs| - 1];
    hide ToldRight, Harmless, Inv, Next, Trusted, Truthful, ReloadsCurrent;
    assert Run(Start(session), inputs) == Next(Run(Start(session), before), inputs[|inputs| - 1]);
    hide Run, Start;
    ReloadsCurrentBefore(session, inputs, |before|);
    RunHolds(session, before);
    StartToldRight(session);
    RunTruthful(Start(session), before);
    LastTrusted(session, inputs);
    StepTellsRight(Run(Start(session), before), inputs[|inputs| - 1]);
  }

  lemma StartToldRight(session: string)
    ensures ToldRight(Start(session)) && Truthful(Start(session).ledger.log)
  {
  }

  // ---- Two runs that go wrong ----

  const TICK := Record("tick", None, map[], Info, 0, true)

  function Ticks(k: nat): seq<Input> {
    seq(k, i => TICK)
  }

  lemma {:induction false} RunAppends(w: World, before: seq<Input>, after: seq<Input>)
    ensures Run(w, before + after) == Run(Run(w, before), after)
    decreases |after|
  {
    if after == [] {
      assert before + after == before;
    } else {
      var rest := after[..|after| - 1];
      RunAppends(w, before, rest);
      assert (before + after)[..|before + after| - 1] == before + rest;
    }
  }

  lemma RunTicks(w: World, k: nat)
    requires k > 0
    ensures Run(w, Ticks(k)) == Next(Run(w, Ticks(k - 1)), TICK)
  {
    assert Ticks(k)[..k - 1] == Ticks(k - 1);
  }

  /** Nothing but events recorded by callers from `w` to `r`. */
  ghost predicate OnlyCalled(w: World, r: World) {
    && r.stopped == w.stopped && r.sending == w.sending && r.pausedUntil == w.pausedUntil
    && r.carrying == w.carrying && r.inFlightUpTo == w.inFlightUpTo
    && r.ledger.acked == w.ledger.acked && r.ledger.handed == w.ledger.handed
    && w.ledger.log <= r.ledger.log
    && forall i :: |w.ledger.log| <= i < |r.ledger.log| ==> !r.ledger.log[i].Report?
  }

  lemma TickIs(w: World)
    requires !w.stopped && |w.queue| <= MAX_QUEUED
    ensures var r := Next(w, TICK);
            OnlyCalled(w, r) && exists event :: r.queue == Longer(w.queue, event)
    ensures var r := Next(w, TICK);
            r.dropped == w.dropped + Excess(w.queue) && r.ledger.spliced == w.ledger.spliced + Out(w.queue)
  {
    var event := Event(w.number + 1, 0, Info, "tick", NonEmpty(None), Clean(map[]));
    EnqueuedIs(w, Called(event), true);
    assert Next(w, TICK).queue == Longer(w.queue, event);
    hide Enqueued;
  }

  lemma {:induction false} TicksFill(w: World, k: nat)
    requires !w.stopped && |w.queue| + k <= MAX_QUEUED && w.dropped == 0
    ensures var r := Run(w, Ticks(k));
            OnlyCalled(w, r) && |r.queue| == |w.queue| + k && w.queue <= r.queue && r.dropped == 0
  {
    if k > 0 {
      TicksFill(w, k - 1);
      RunTicks(w, k);
      TickIs(Run(w, Ticks(k - 1)));
      hide Next;
    }
  }

  lemma {:induction false} TicksShift(w: World, k: nat)
    requires !w.stopped && |w.queue| == MAX_QUEUED && k <= MAX_QUEUED
    ensures var r := Run(w, Ticks(k));
            && OnlyCalled(w, r) && |r.queue| == MAX_QUEUED && r.queue[..MAX_QUEUED - k] == w.queue[k..]
            && (k > 0 ==> w.queue[k - 1].number in r.ledger.spliced && r.dropped > 0)
  {
    if k > 0 {
      TicksShift(w, k - 1);
      RunTicks(w, k);
      var b := Run(w, Ticks(k - 1));
      var r := Run(w, Ticks(k));
      TickIs(b);
      hide Next;
      assert b.queue[..MAX_QUEUED - (k - 1)][1..] == w.queue[k - 1..][1..];
      assert b.queue[0] == b.queue[..MAX_QUEUED - (k - 1)][0];
      assert r.ledger.spliced[|r.ledger.spliced| - 1] == w.queue[k - 1].number;
    }
  }

  /** A full queue whose newest event is a report, and nothing acknowledged. */
  ghost predicate EndsInReport(w: World) {
    && !w.stopped && w.carrying == [] && Left(w.ledger) == [] && |w.queue| == MAX_QUEUED
    && var n := w.queue[MAX_QUEUED - 1].number;
       1 <= n <= |w.ledger.log| && w.ledger.log[n - 1].Report? && w.ledger.log[n - 1].event.number == n
  }

  const FAILING := [Flush(0, true, true), Resolve(Unreachable, 0, true, true, true)]

  lemma FailedFlush(w: World)
    requires !w.stopped && !w.sending && w.pausedUntil == 0 && w.dropped > 0 && |w.queue| == MAX_QUEUED
    requires w.number == |w.ledger.log| && Left(w.ledger) == []
    ensures EndsInReport(Next(Next(w, FAILING[0]), FAILING[1]))
  {
    EnqueuedIs(w.(dropped := 0), ReportOf(w.number + 1, 0, w.dropped), true);
    hide NextOf, NumberSeq, Out;
  }

  lemma RunsTwo(w: World, two: seq<Input>)
    requires |two| == 2
    ensures Run(w, two) == Next(Next(w, two[0]), two[1])
  {
    hide Next;
    assert Run(w, two[..1]) == Next(w, two[0]);
  }

  lemma RunsOne(w: World, input: Input)
    ensures Run(w, [input]) == Next(w, input)
  {
    hide Next;
  }

  lemma RunCounted(session: string, inputs: seq<Input>)
    requires ReloadsCurrent(session, inputs)
    ensures var w := Run(Start(session), inputs); w.number == |w.ledger.log|
  {
    RunHolds(session, inputs);
    hide Run;
    CountedOf(Run(Start(session), inputs));
    hide Inv;
  }

  lemma FullReport(session: string)
    ensures EndsInReport(Run(Start(session), Ticks(MAX_QUEUED) + Ticks(1) + FAILING))
  {
    var s := Start(session);
    TicksFill(s, MAX_QUEUED);
    TicksShift(Run(s, Ticks(MAX_QUEUED)), 1);
    RunAppends(s, Ticks(MAX_QUEUED), Ticks(1));
    WorkingReloadsCurrent(session, Ticks(MAX_QUEUED) + Ticks(1));
    RunCounted(session, Ticks(MAX_QUEUED) + Ticks(1));
    hide Run, EndsInReport, Next;
    FailedFlush(Run(s, Ticks(MAX_QUEUED) + Ticks(1)));
    RunsTwo(Run(s, Ticks(MAX_QUEUED) + Ticks(1)), FAILING);
    RunAppends(s, Ticks(MAX_QUEUED) + Ticks(1), FAILING);
  }

  lemma ReportGone(w: World, n: nat)
    requires Inv(w) && Truthful(w.ledger.log) && Left(w.ledger) == [] && w.carrying == []
    requires 1 <= n <= w.number == |w.ledger.log| && n in w.ledger.spliced
    requires w.ledger.log[n - 1].Report? && w.ledger.log[n - 1].event.number == n
    ensures Unheard(w) > 0 && Overcounted(w) == {}
  {
    QueuedNotDropped(w);
    hide Inv, Truthful;
    assert n in Gone(w);
    SumIsNone(w.ledger.log, Gone(w));
  }

  /** The promise to say how many were lost fails: 501 events recorded, a fetch
      that fails, and 500 more recorded leave the report of the first drop
      dropped, so too few are told. Storage works throughout. */
  lemma ReportItselfDropped(session: string)
    ensures var inputs := Ticks(MAX_QUEUED) + Ticks(1) + FAILING + Ticks(MAX_QUEUED);
            var w := Run(Start(session), inputs);
            AllWorking(inputs) && Heard(w) + InDoubt(w) + Awaiting(w) < |Lost(w)|
  {
    hide Run, Start, Truthful, Inv, Heard, InDoubt, ReloadsCurrent, Awaiting, Lost, Unheard, Overcounted, Gone;
    var s := Start(session);
    var first := Ticks(MAX_QUEUED) + Ticks(1) + FAILING;
    FullReport(session);
    var failed := Run(s, first);
    TicksShift(failed, MAX_QUEUED);
    RunAppends(s, first, Ticks(MAX_QUEUED));
    var inputs := first + Ticks(MAX_QUEUED);
    assert AllWorking(inputs);
    WorkingReloadsCurrent(session, inputs);
    DropsToldExactly(session, inputs);
    RunHolds(session, inputs);
    RunCounted(session, inputs);
    StartToldRight(session);
    RunTruthful(s, inputs);
    var n := failed.queue[MAX_QUEUED - 1].number;
    assert Run(s, inputs).ledger.log[n - 1] == failed.ledger.log[n - 1];
    ReportGone(Run(s, inputs), n);
  }

  /** One event recorded and carried, all but one more to fill the queue, the
      carried one dropped by the last, and then accepted. */
  const OVERTAKEN := Ticks(1) + [Flush(0, true, true)] + Ticks(MAX_QUEUED - 1) + Ticks(1)
                     + [Resolve(Answered(200, None), 0, false, true, true)]

  /** A full queue holding back a carried event. */
  ghost predicate CarriesOldest(w: World) {
    !w.stopped && w.sending && w.dropped == 0 && w.queue != [] && w.carrying == [w.queue[0]]
    && NoReports(w)
  }

  ghost predicate NoReports(w: World) {
    forall i :: 0 <= i < |w.ledger.log| ==> !w.ledger.log[i].Report?
  }

  lemma OneCarried(session: string)
    ensures var w := Run(Start(session), Ticks(1) + [Flush(0, true, true)]);
            CarriesOldest(w) && |w.queue| == 1
  {
    var s := Start(session);
    TicksFill(s, 1);
    RunAppends(s, Ticks(1), [Flush(0, true, true)]);
    var w := Run(s, Ticks(1));
    assert w.queue[0].number > 0 by {
      WorkingReloadsCurrent(session, Ticks(1));
      RunHolds(session, Ticks(1));
      hide Increasing, OneFlight, NothingLost, Settled, DroppedInOrder;
    }
    hide Run;
    RunsOne(w, Flush(0, true, true));
    AfterAll(w.queue, 0);
  }

  lemma CarriedDropped(w: World)
    requires CarriesOldest(w) && |w.queue| == 1
    ensures var inputs := Ticks(MAX_QUEUED - 1) + Ticks(1);
            var r := Run(w, inputs);
            r.sending && r.carrying == w.carrying && w.carrying[0].number in r.ledger.spliced && NoReports(r)
  {
    TicksFill(w, MAX_QUEUED - 1);
    var full := Run(w, Ticks(MAX_QUEUED - 1));
    TicksShift(full, 1);
    RunAppends(w, Ticks(MAX_QUEUED - 1), Ticks(1));
    hide Run;
  }

  lemma AcceptedAfterAll(w: World)
    requires w.sending && w.carrying != [] && w.carrying[0].number in w.ledger.spliced && NoReports(w)
    ensures var r := Next(w, Resolve(Answered(200, None), 0, false, true, true));
            w.carrying[0].number in Overcounted(r) && NoReports(r)
  {
    var r := Next(w, Resolve(Answered(200, None), 0, false, true, true));
    assert NumberSeq(w.carrying)[0] == w.carrying[0].number;
    assert r.ledger.acked == w.ledger.acked + NumberSeq(w.carrying);
    hide NumberSeq, Without;
  }

  lemma {:induction false} NoReportsNoSum(log: seq<Entry>, among: set<nat>)
    requires forall i :: 0 <= i < |log| ==> !log[i].Report?
    ensures SumIn(log, among) == 0
  {
    if log != [] { NoReportsNoSum(log[..|log| - 1], among); }
  }

  /** It fails the other way too: an event dropped while a fetch carried it, and
      then accepted, is told as lost, so too many are. Storage works throughout. */
  lemma DeliveredToldAsLost(session: string)
    ensures var w := Run(Start(session), OVERTAKEN);
            AllWorking(OVERTAKEN) && Heard(w) + Awaiting(w) > |Lost(w)|
  {
    hide Run, Start, Inv, Heard, InDoubt, Awaiting, Lost, Overcounted, Gone, CarriesOldest, ReloadsCurrent;
    var s := Start(session);
    var first := Ticks(1) + [Flush(0, true, true)];
    var last := [Resolve(Answered(200, None), 0, false, true, true)];
    OneCarried(session);
    var w := Run(s, first);
    CarriedDropped(w);
    var more := Ticks(MAX_QUEUED - 1) + Ticks(1);
    RunAppends(s, first, more);
    assert first + more == first + Ticks(MAX_QUEUED - 1) + Ticks(1);
    assert w.carrying != [] by { OldestCarried(w); }
    AcceptedAfterAll(Run(w, more));
    RunsOne(Run(w, more), last[0]);
    RunAppends(s, first + more, last);
    assert OVERTAKEN == first + more + last;
    assert AllWorking(OVERTAKEN);
    WorkingReloadsCurrent(session, OVERTAKEN);
    DropsToldExactly(session, OVERTAKEN);
    var r := Run(s, OVERTAKEN);
    NoReportsNoSum(r.ledger.log, Gone(r));
    DoubtIsNone(r);
    assert Overcounted(r) != {};
  }

  lemma DoubtIsNone(w: World)
    requires NoReports(w)
    ensures InDoubt(w) == 0
  {
    NoReportsNoSum(w.ledger.log, Handed(w));
  }

  lemma OldestCarried(w: World)
    requires CarriesOldest(w)
    ensures w.carrying != []
  {
  }
}
