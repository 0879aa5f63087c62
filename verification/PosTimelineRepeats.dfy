/** What a page that opens on a copy out of date acknowledges a second time.

    The page acts alike whatever the ledger says. So a page opened on an old copy
    acts as it would have, had it been reloaded right when the copy was saved; and
    of that page the invariant holds. */
module PosTimelineRepeats {
  import opened Wrappers
  import opened PosTimeline
  import opened PosTimelineSafety
  import opened PosTimelineRuns
  import opened PosTimelineBeacons
  import opened PosTimelineDrops
  import opened PosTimelineLimits

  // ---- The ledger is only an account ----

  /** What a step acknowledges. */
  function Acks(w: World, input: Input): seq<nat> {
    if input.Resolve? && w.sending && input.outcome.Answered? && Accepts(input.outcome.status)
    then NumberSeq(w.carrying) else []
  }

  lemma AnnouncedAcks(w: World, now: int, saves: bool)
    ensures Announced(w, now, saves).ledger.acked == w.ledger.acked
  {
    hide NumberSeq;
  }

  lemma FlushingAcks(w: World, now: int, online: bool, saves: bool)
    ensures Flushing(w, now, online, saves).ledger.acked == w.ledger.acked
  {
    AnnouncedAcks(w, now, saves);
    hide Announced, NextOf;
  }

  lemma StepAcks(w: World, input: Input)
    requires !input.Reload?
    ensures Next(w, input).ledger.acked == w.ledger.acked + Acks(w, input)
  {
    hide Announced, Flushing, NextOf, NumberSeq;
    match input
    case Record(_, _, _, _, _, _) =>
    case Flush(now, online, saves) => FlushingAcks(w, now, online, saves);
    case Beacon(now, online, supported, queued, saves) => AnnouncedAcks(w, now, saves);
    case Resolve(outcome, now, online, saves, removes) =>
      if outcome.Answered? {
        FlushingAcks(Landed(AnsweredBy(w, outcome.status, outcome.retryAfter, now, saves, removes)), now, online, saves);
      }
  }

  /** The same page with another account. */
  ghost predicate SamePage(x: World, y: World) {
    x == y.(ledger := x.ledger)
  }

  lemma EnqueuedSame(x: World, y: World, entry: Entry, saves: bool)
    requires SamePage(x, y)
    ensures SamePage(Enqueued(x, entry, saves), Enqueued(y, entry, saves))
  {
    hide NumberSeq;
  }

  lemma AnnouncedSame(x: World, y: World, now: int, saves: bool)
    requires SamePage(x, y)
    ensures SamePage(Announced(x, now, saves), Announced(y, now, saves))
  {
    hide Enqueued;
    EnqueuedSame(x.(dropped := 0), y.(dropped := 0), ReportOf(x.number + 1, now, x.dropped), saves);
  }

  lemma FlushingSame(x: World, y: World, now: int, online: bool, saves: bool)
    requires SamePage(x, y)
    ensures SamePage(Flushing(x, now, online, saves), Flushing(y, now, online, saves))
  {
    hide Announced, NextOf;
    AnnouncedSame(x, y, now, saves);
  }

  lemma BeaconingSame(x: World, y: World, now: int, online: bool, supported: bool, queued: bool, saves: bool)
    requires SamePage(x, y)
    ensures SamePage(Beaconing(x, now, online, supported, queued, saves), Beaconing(y, now, online, supported, queued, saves))
  {
    hide Announced, NextOf, NumberSeq, Without, Numbers;
    AnnouncedSame(x, y, now, saves);
  }

  lemma SentSame(x: World, y: World, batch: seq<Event>, saves: bool)
    requires SamePage(x, y)
    ensures SamePage(Sent(x, batch, saves), Sent(y, batch, saves))
  {
    hide Without, Numbers;
  }

  lemma DeliveredSame(x: World, y: World, saves: bool)
    requires SamePage(x, y)
    ensures SamePage(Delivered(x, saves), Delivered(y, saves)) && SamePage(Rejected(x, saves), Rejected(y, saves))
  {
    hide NumberSeq, Numbers, Sent;
    SentSame(x, y, x.carrying, saves);
  }

  lemma AnsweredSame(x: World, y: World, status: nat, retryAfter: Option<int>, now: int, saves: bool, removes: bool)
    requires SamePage(x, y)
    ensures SamePage(AnsweredBy(x, status, retryAfter, now, saves, removes), AnsweredBy(y, status, retryAfter, now, saves, removes))
  {
    hide Delivered, Rejected, Numbers, PauseUntil;
    DeliveredSame(x, y, saves);
  }

  lemma NextSame(x: World, y: World, input: Input)
    requires SamePage(x, y) && !input.Reload?
    ensures SamePage(Next(x, input), Next(y, input))
  {
    hide Enqueued, Announced, Flushing, Beaconing, AnsweredBy;
    match input
    case Record(kind, orderId, detail, level, now, saves) =>
      EnqueuedSame(x, y, Called(Event(x.number + 1, now, level, kind, NonEmpty(orderId), Clean(detail))), saves);
    case Flush(now, online, saves) => FlushingSame(x, y, now, online, saves);
    case Beacon(now, online, supported, queued, saves) => BeaconingSame(x, y, now, online, supported, queued, saves);
    case Resolve(outcome, now, online, saves, removes) =>
      if outcome.Answered? {
        AnsweredSame(x, y, outcome.status, outcome.retryAfter, now, saves, removes);
        FlushingSame(Landed(AnsweredBy(x, outcome.status, outcome.retryAfter, now, saves, removes)),
                     Landed(AnsweredBy(y, outcome.status, outcome.retryAfter, now, saves, removes)), now, online, saves);
      }
  }

  /** Acknowledged in a run of one page life. */
  ghost function NewlyAcked(w: World, more: seq<Input>): seq<nat> {
    if more == [] then []
    else NewlyAcked(w, more[..|more| - 1]) + Acks(Run(w, more[..|more| - 1]), more[|more| - 1])
  }

  lemma {:induction false} RunAcks(w: World, more: seq<Input>)
    requires NoReload(more)
    ensures Run(w, more).ledger.acked == w.ledger.acked + NewlyAcked(w, more)
  {
    if more != [] {
      hide Next, Acks;
      var before := more[..|more| - 1];
      RunAcks(w, before);
      StepAcks(Run(w, before), more[|more| - 1]);
    }
  }

  lemma {:induction false} RunSame(x: World, y: World, more: seq<Input>)
    requires SamePage(x, y) && NoReload(more)
    ensures SamePage(Run(x, more), Run(y, more)) && NewlyAcked(x, more) == NewlyAcked(y, more)
  {
    if more != [] {
      var before := more[..|more| - 1];
      RunSame(x, y, before);
      hide Next;
      NextSame(Run(x, before), Run(y, before), more[|more| - 1]);
    }
  }

  lemma {:induction false} HandedGrows(w: World, more: seq<Input>)
    requires NoReload(more)
    ensures w.ledger.handed <= Run(w, more).ledger.handed
  {
    if more != [] {
      var before := more[..|more| - 1];
      HandedGrows(w, before);
      hide Next, HandedOver;
      StepHands(Run(w, before), more[|more| - 1]);
    }
  }

  // ---- Numbers never acknowledged again ----

  /** The oldest of a full queue with a report due: any step that records or sends
      begins by pushing it out. */
  ghost predicate HeldBack(w: World, n: nat) {
    !w.stopped && !w.sending && w.carrying == [] && |w.queue| == MAX_QUEUED && w.dropped > 0 && w.queue[0].number == n
  }

  ghost predicate Stuck(w: World, n: nat) {
    n in Gone(w) || HeldBack(w, n)
  }

  lemma StuckStays(w: World, input: Input, n: nat)
    requires Inv(w) && !input.Reload? && Stuck(w, n)
    ensures Stuck(Next(w, input), n)
  {
    StepGoes(w, input);
    if n !in Gone(w) {
      HeldBackGoes(w, input, n);
    }
    hide Inv, Next, Gone, Hidden, Overcounted, HeldBack;
  }

  lemma HeldBackGoes(w: World, input: Input, n: nat)
    requires HeldBack(w, n) && !input.Reload?
    ensures Next(w, input) == w || n in Hidden(w, input)
  {
    assert Numbers([]) == {};
    hide Announced, Enqueued, Delivered, NextOf, Numbers;
  }

  lemma {:induction false} StuckFor(w: World, more: seq<Input>, n: nat)
    requires Inv(w) && NoReload(more) && Stuck(w, n)
    ensures Stuck(Run(w, more), n)
  {
    if more != [] {
      var before := more[..|more| - 1];
      StuckFor(w, before, n);
      hide Inv, Next, Stuck;
      PageLifeKeeps(w, before);
      StuckStays(Run(w, before), more[|more| - 1], n);
    }
  }

  lemma StuckUnacked(w: World, n: nat)
    requires Inv(w) && Stuck(w, n)
    ensures n !in w.ledger.acked
  {
    AllNumbered(w);
    assert HeldBack(w, n) ==> n in Numbers(w.queue);
    hide Inv, HeldBack;
  }

  /** A number that was issued by then and isn't queued, or is held back, is not
      acknowledged from then on. */
  lemma NotAckedAgain(w: World, more: seq<Input>, n: nat)
    requires Inv(w) && NoReload(more) && w.carrying == [] && 1 <= n <= w.number
    requires n !in Numbers(w.queue) || HeldBack(w, n)
    ensures n !in NewlyAcked(w, more)
  {
    PageLifeKeeps(w, more);
    RunAcks(w, more);
    HandedGrows(w, more);
    assert Numbers([]) == {};
    hide Inv, Run, NewlyAcked, HeldBack, Numbers;
    var r := Run(w, more);
    if n in Away(w) {
      AckedTwice(w, r, NewlyAcked(w, more), n);
    } else {
      assert Stuck(w, n);
      StuckFor(w, more, n);
      StuckUnacked(r, n);
    }
  }

  lemma AckedTwice(w: World, r: World, later: seq<nat>, n: nat)
    requires Inv(r) && n in Away(w)
    requires r.ledger.acked == w.ledger.acked + later && w.ledger.handed <= r.ledger.handed
    ensures n !in later
  {
    hide Inv, Numbers, Settled, Distinct;
    EachLeavesOnce(r);
    SettledOnce(r.number, r.queue, r.carrying, r.ledger.acked + r.ledger.handed, r.ledger.refused);
    if n in w.ledger.handed {
      if n in later { LeftOnce(r.ledger.acked, r.ledger.handed, n); }
    } else {
      assert r.ledger.acked + r.ledger.handed == w.ledger.acked + (later + r.ledger.handed);
      if n in later { LeftOnce(w.ledger.acked, later + r.ledger.handed, n); }
    }
  }

  lemma SettledOnce(number: nat, queue: seq<Event>, carrying: seq<Event>, left: seq<nat>, refused: set<nat>)
    requires Settled(number, queue, carrying, left, refused)
    ensures Distinct(left)
  {
  }

  // ---- Numbers that can be acknowledged ----

  lemma TickNewest(w: World)
    requires !w.stopped && |w.queue| <= MAX_QUEUED
    ensures var r := Next(w, TICK);
            && OnlyCalled(w, r) && r.number == w.number + 1 && |r.queue| <= MAX_QUEUED
            && r.queue != [] && r.queue[|r.queue| - 1].number == r.number
  {
    TickIs(w);
    EnqueuedIs(w, Called(Event(w.number + 1, 0, Info, "tick", NonEmpty(None), Clean(map[]))), true);
    hide Enqueued, OnlyCalled;
  }

  lemma OnlyCalledOn(w: World, b: World, r: World)
    requires OnlyCalled(w, b) && OnlyCalled(b, r)
    ensures OnlyCalled(w, r)
  {
  }

  lemma OnlyCalledSelf(w: World)
    ensures OnlyCalled(w, w)
  {
  }

  /** Recording `k` more leaves the newest number at the queue's end. */
  lemma {:induction false} TicksNewest(w: World, k: nat)
    requires !w.stopped && |w.queue| <= MAX_QUEUED
    ensures var r := Run(w, Ticks(k));
            && OnlyCalled(w, r) && r.number == w.number + k && |r.queue| <= MAX_QUEUED
            && (k > 0 ==> r.queue != [] && r.queue[|r.queue| - 1].number == r.number)
    ensures k == 0 ==> Run(w, Ticks(k)) == w
  {
    if k > 0 {
      hide Next, Run;
      TicksNewest(w, k - 1);
      RunTicks(w, k);
      var b := Run(w, Ticks(k - 1));
      assert !b.stopped;
      hide OnlyCalled;
      TickNewest(b);
      OnlyCalledOn(w, b, Next(b, TICK));
    } else {
      OnlyCalledSelf(w);
    }
  }

  lemma AnnouncedHas(w: World, now: int, saves: bool, n: nat)
    requires Inv(w) && !w.stopped && n in Numbers(w.queue)
    requires w.dropped == 0 || |w.queue| < MAX_QUEUED || w.queue[0].number != n
    ensures n in Numbers(Announced(w, now, saves).queue)
  {
    if w.dropped > 0 {
      QueueBound(w);
      InOrder(w);
      hide Inv;
      var z := w.(dropped := 0);
      EnqueuedIs(z, ReportOf(w.number + 1, now, w.dropped), saves);
      LongerNumbers(w.queue, ReportOf(w.number + 1, now, w.dropped).event);
      hide Enqueued, Numbers, Longer;
    }
  }

  lemma FlushHas(w: World, now: int, saves: bool, n: nat)
    requires Inv(w) && MayFlush(w, now, true) && n in Numbers(w.queue)
    requires w.dropped == 0 || |w.queue| < MAX_QUEUED || w.queue[0].number != n
    ensures var f := Flushing(w, now, true, saves);
            Inv(f) && Loaded(f) && f.pausedUntil == w.pausedUntil && n in Numbers(f.queue) && f.ledger.acked == w.ledger.acked
  {
    AnnouncedHas(w, now, saves, n);
    FlushingKeeps(w, now, true, saves);
    SendsOff(w, now, saves);
    FlushingAcks(w, now, true, saves);
    hide Inv, Numbers, Flushing, Announced;
  }

  /** An accepted answer acknowledges what was carried; the rest stays queued. */
  lemma AcceptHas(w: World, a: Acceptance, n: nat)
    requires Inv(w) && Loaded(w) && InTime(a, w.pausedUntil) && n in Numbers(w.queue)
    ensures var r := Accept(w, a); n in r.ledger.acked || (Loaded(r) && n in Numbers(r.queue))
    ensures w.ledger.acked <= Accept(w, a).ledger.acked
  {
    hide Inv, Loaded, Delivered, Rejected, Landed, Flushing, Numbers, Without, Behind, NumberSeq, Next;
    LoadedSends(w);
    StepAcks(w, Resolve(Answered(a.status, None), a.now, true, a.saves, true));
    if n in Numbers(w.carrying) {
      NumberSeqHolds(w.carrying);
    } else {
      SendingRuns(w);
      DeliveredKeeps(w, a.saves);
      DeliveredHas(w, a, n);
      var l := Landed(Delivered(w, a.saves));
      hide Accept;
      AcceptIs(w, a);
      FlushHas(l, a.now, a.saves, n);
    }
  }

  /** What was not carried is queued still, and there is room for a report. */
  lemma DeliveredHas(w: World, a: Acceptance, n: nat)
    requires Inv(w) && Loaded(w) && InTime(a, w.pausedUntil) && n in Numbers(w.queue) && n !in Numbers(w.carrying)
    ensures var l := Landed(Delivered(w, a.saves));
            n in Numbers(l.queue) && |l.queue| < MAX_QUEUED && l.queue != [] && !l.stopped && MayFlush(l, a.now, true)
  {
    hide Inv, Delivered, Numbers, Without, Behind;
    QueueBound(w);
    LoadedSends(w);
    SendingRuns(w);
    DeliveredKeeps(w, a.saves);
    CarriedLeaves(w);
    LoadedShrinks(w);
    LandedIs(w, a.saves);
    NoNumbers();
    hide Loaded;
  }

  lemma NoNumbers()
    ensures Numbers([]) == {}
  {
  }

  lemma LandedIs(w: World, saves: bool)
    ensures var l := Landed(Delivered(w, saves));
            && l.queue == Without(w.queue, Numbers(w.carrying)) && l.stopped == w.stopped && !l.sending
            && l.pausedUntil == w.pausedUntil && l.queue == Delivered(w, saves).queue
  {
    hide Without, Numbers;
  }

  lemma {:induction false} AcceptAllHas(w: World, all: seq<Acceptance>, n: nat)
    requires Inv(w) && Loaded(w) && AllInTime(all, w.pausedUntil) && n in Numbers(w.queue)
    ensures var r := AcceptAll(w, all); n in r.ledger.acked || n in Numbers(r.queue)
    decreases |all|
  {
    hide Inv, Loaded, Accept, Numbers;
    if all != [] {
      assert InTime(all[0], w.pausedUntil);
      assert forall i :: 0 <= i < |all[1..]| ==> all[1..][i] == all[i + 1];
      hide InTime;
      AcceptHas(w, all[0], n);
      DrainShrinks(w, all[0]);
      if n in Accept(w, all[0]).ledger.acked {
        AcceptAllGrows(Accept(w, all[0]), all[1..]);
      } else {
        AcceptAllHas(Accept(w, all[0]), all[1..], n);
      }
    }
  }

  lemma {:induction false} AcceptAllGrows(w: World, all: seq<Acceptance>)
    ensures w.ledger.acked <= AcceptAll(w, all).ledger.acked
    decreases |all|
  {
    if all != [] {
      var input := Resolve(Answered(all[0].status, None), all[0].now, true, all[0].saves, true);
      hide Next, Acks;
      StepAcks(w, input);
      AcceptAllGrows(Accept(w, all[0]), all[1..]);
    }
  }

  /** The answers, as steps of a run. */
  function Answers(all: seq<Acceptance>): seq<Input> {
    if all == [] then [] else [Resolve(Answered(all[0].status, None), all[0].now, true, all[0].saves, true)] + Answers(all[1..])
  }

  lemma {:induction false} AnswersRun(w: World, all: seq<Acceptance>)
    ensures Run(w, Answers(all)) == AcceptAll(w, all) && NoReload(Answers(all))
    decreases |all|
  {
    if all != [] {
      hide Next;
      AnswersRun(Accept(w, all[0]), all[1..]);
      RunsOne(w, Answers(all)[0]);
      RunAppends(w, [Answers(all)[0]], Answers(all[1..]));
    }
  }

  function Twelve(): seq<Acceptance> {
    seq(12, i => Acceptance(200, 0, true))
  }

  /** A page just opened, with nothing out. */
  ghost predicate JustOpened(w: World) {
    !w.stopped && !w.sending && w.carrying == [] && w.pausedUntil == 0
  }

  /** A drain gets a queued number acknowledged, unless it is held back. */
  lemma DrainAcks(w: World, n: nat)
    requires Inv(w) && JustOpened(w) && n in Numbers(w.queue) && !HeldBack(w, n)
    ensures var more := [Flush(0, true, true)] + Answers(Twelve());
            NoReload(more) && n in Run(w, more).ledger.acked
  {
    var flush := Flush(0, true, true);
    hide Inv, Numbers, Loaded, Flushing, AcceptAll, Run, Answers, Twelve;
    NoNumbers();
    QueueBound(w);
    FlushHas(w, 0, true, n);
    var f := Flushing(w, 0, true, true);
    hide HeldBack, MayFlush;
    RunsOne(w, flush);
    LoadedSends(f);
    TwelveInTime();
    DrainsWithin(f, Twelve());
    AcceptAllHas(f, Twelve(), n);
    AnswersRun(f, Twelve());
    RunAppends(w, [flush], Answers(Twelve()));
    hide Next;
  }

  lemma TwelveInTime()
    ensures |Twelve()| == 12 && AllInTime(Twelve(), 0)
  {
  }

  lemma LoadedSends(w: World)
    requires Loaded(w)
    ensures w.sending
  {
  }

  /** Any number not issued yet, or queued and not held back, can be acknowledged. */
  lemma CanBeAcked(w: World, n: nat) returns (more: seq<Input>)
    requires Inv(w) && JustOpened(w)
    requires n > w.number || (n in Numbers(w.queue) && !HeldBack(w, n))
    ensures NoReload(more) && n in Run(w, more).ledger.acked
  {
    hide Inv, Run, Numbers, HeldBack, Answers, OnlyCalled;
    QueueBound(w);
    var drain := [Flush(0, true, true)] + Answers(Twelve());
    QueuedIssued(w);
    if n <= w.number {
      more := drain;
      DrainAcks(w, n);
    } else {
      var ticks := Ticks(n - w.number);
      more := ticks + drain;
      TicksNewest(w, n - w.number);
      PageLifeKeeps(w, ticks);
      var t := Run(w, ticks);
      TickedOpen(w, t);
      NewestFree(t, n);
      DrainAcks(t, n);
      RunAppends(w, ticks, drain);
    }
  }

  lemma TickedOpen(w: World, t: World)
    requires JustOpened(w) && OnlyCalled(w, t)
    ensures JustOpened(t)
  {
  }

  lemma QueuedIssued(w: World)
    requires Inv(w)
    ensures forall n :: n in Numbers(w.queue) ==> n <= w.number
  {
    NumbersAre(w);
    hide Inv, Numbers;
    assert forall n :: n in Numbers(w.queue) ==> n in Pending(w);
  }

  lemma NewestFree(w: World, n: nat)
    requires Inv(w) && w.queue != [] && w.queue[|w.queue| - 1].number == n
    ensures !HeldBack(w, n) && n in Numbers(w.queue)
  {
    InOrder(w);
    hide Inv;
  }

  // ---- Exactly when a reload has numbers acknowledged again ----

  /** A page opening on the copy may have the number acknowledged: it is issued
      again, or still queued and not about to be pushed out. */
  ghost predicate SentAgain(s: Stored, n: nat) {
    || n > s.number
    || (n in Numbers(s.queue) && !(|s.queue| == MAX_QUEUED && s.dropped > 0 && s.queue[0].number == n))
  }

  lemma OpenedIs(w: World, v: World, next: string) returns (o: World)
    requires w.storage.Some? && SavedFrom(v, w.storage.value)
    ensures o == Next(w, Reload(next)).(ledger := v.ledger) && Inv(o) && JustOpened(o)
    ensures SamePage(Next(w, Reload(next)), o)
    ensures o.number == w.storage.value.number
    ensures forall n: nat :: SentAgain(w.storage.value, n) <==> n > o.number || (n in Numbers(o.queue) && !HeldBack(o, n))
  {
    o := Next(w, Reload(next)).(ledger := v.ledger);
    hide Inv, Numbers;
    ReopenedKeeps(v);
    var u := v.(sending := false, pausedUntil := 0, inFlightUpTo := 0, carrying := []);
    assert o == u.(storage := w.storage);
    StorageFree(u, w.storage);
  }

  lemma StorageFree(w: World, storage: Option<Stored>)
    requires Inv(w)
    ensures Inv(w.(storage := storage))
  {
    hide QueueShape, OneFlight, NothingLost, Settled, DroppedInOrder, DropsCounted, DropsFollowed, Counted, HandedApart, Quiet;
  }

  /** After any run so far, whatever storage has done since the page opened: a
      reload can be followed by a second acknowledgement of an event's number if
      and only if some number acknowledged so far is past the copy's count, or is
      queued in the copy and isn't the one its report of drops pushes out. */
  lemma AckedAgainExactly(session: string, inputs: seq<Input>, next: string)
    requires ReloadsCurrent(session, inputs) && Run(Start(session), inputs).storage.Some?
    ensures var w := Run(Start(session), inputs);
            (exists more :: NoReload(more) && !Distinct(Run(Next(w, Reload(next)), more).ledger.acked)) <==>
            (exists n :: n in w.ledger.acked && SentAgain(w.storage.value, n))
  {
    hide Next, CopyHolds, Inv, Distinct, SentAgain;
    RunHolds(session, inputs);
    CopyHoldsIn(session, inputs);
    var w := Run(Start(session), inputs);
    CopyIsSaved(w);
    var v :| SavedFrom(v, w.storage.value);
    hide SavedFrom, Run;
    if n :| n in w.ledger.acked && SentAgain(w.storage.value, n) {
      AgainOn(w, v, next, n);
    } else {
      forall more | NoReload(more) ensures Distinct(Run(Next(w, Reload(next)), more).ledger.acked) {
        NeverAgainOn(w, v, next, more);
      }
    }
  }

  lemma CopyIsSaved(w: World)
    requires CopyHolds(w) && w.storage.Some?
    ensures exists v :: SavedFrom(v, w.storage.value)
  {
    hide SavedFrom;
  }

  lemma AgainOn(w: World, v: World, next: string, n: nat)
    requires Inv(w) && w.storage.Some? && SavedFrom(v, w.storage.value)
    requires n in w.ledger.acked && SentAgain(w.storage.value, n)
    ensures exists more :: NoReload(more) && !Distinct(Run(Next(w, Reload(next)), more).ledger.acked)
  {
    hide Inv, Next, SentAgain, Numbers, HeldBack, Run, NewlyAcked, SavedFrom;
    var o := OpenedIs(w, v, next);
    var p := Next(w, Reload(next));
    var more := CanBeAcked(o, n);
    RunAcks(o, more);
    RunAcks(p, more);
    RunSame(p, o, more);
    FreshUnacked(o, n);
    ReloadLedger(w, next);
    var later := NewlyAcked(o, more);
    assert n in later;
    if Distinct(w.ledger.acked + later) { LeftOnce(w.ledger.acked, later, n); }
  }

  lemma FreshUnacked(o: World, n: nat)
    requires Inv(o) && (n > o.number || n in Numbers(o.queue))
    ensures n !in o.ledger.acked
  {
    NumbersAre(o);
    hide Inv, Numbers;
    assert n in o.ledger.acked ==> n in Away(o);
  }

  lemma ReloadLedger(w: World, next: string)
    requires w.storage.Some?
    ensures Next(w, Reload(next)).ledger == w.ledger
  {
  }

  lemma NeverAgainOn(w: World, v: World, next: string, more: seq<Input>)
    requires Inv(w) && w.storage.Some? && SavedFrom(v, w.storage.value) && NoReload(more)
    requires forall n :: n in w.ledger.acked ==> !SentAgain(w.storage.value, n)
    ensures Distinct(Run(Next(w, Reload(next)), more).ledger.acked)
  {
    hide Inv, Next, SentAgain, Numbers, HeldBack, Run, NewlyAcked, Distinct, SavedFrom, JustOpened;
    var o := OpenedIs(w, v, next);
    var p := Next(w, Reload(next));
    RunAcks(o, more);
    RunAcks(p, more);
    RunSame(p, o, more);
    ReloadLedger(w, next);
    PageLifeKeeps(o, more);
    AckedOnce(w);
    AckedOnce(Run(o, more));
    assert o.carrying == [] by { OpenedIdle(o); }
    forall n | n in w.ledger.acked ensures n !in NewlyAcked(o, more) {
      AckedIssued(w, n);
      NotAckedAgain(o, more, n);
    }
    DistinctJoin(w.ledger.acked, o.ledger.acked, NewlyAcked(o, more));
  }

  lemma OpenedIdle(o: World)
    requires JustOpened(o)
    ensures o.carrying == []
  {
  }

  lemma AckedIssued(w: World, n: nat)
    requires Inv(w) && n in w.ledger.acked
    ensures n >= 1
  {
    NumbersAre(w);
    hide Inv;
    assert n in Away(w);
  }

  lemma AckedOnce(w: World)
    requires Inv(w)
    ensures Distinct(w.ledger.acked)
  {
    EachLeavesOnce(w);
    hide Inv;
    assert forall i :: 0 <= i < |w.ledger.acked| ==> (w.ledger.acked + w.ledger.handed)[i] == w.ledger.acked[i];
  }

  lemma DistinctJoin(a: seq<nat>, b: seq<nat>, c: seq<nat>)
    requires Distinct(a) && Distinct(b + c) && forall n :: n in a ==> n !in c
    ensures Distinct(a + c)
  {
    forall i, j | 0 <= i < j < |a + c| ensures (a + c)[i] != (a + c)[j] {
      if i >= |a| {
        assert (a + c)[i] == (b + c)[i - |a| + |b|] && (a + c)[j] == (b + c)[j - |a| + |b|];
      } else if j >= |a| {
        assert (a + c)[i] in a && (a + c)[j] in c;
      }
    }
  }

  const UNSAVED_SENT := [FIRST, Flush(0, true, true), Resolve(Answered(200, None), 0, true, false, false)]

  /** A reload when the acknowledgement could not be saved: the event is sent again
      under its own number, and acknowledged again. */
  lemma AckedTwiceRun(session: string)
    ensures var inputs := UNSAVED_SENT + [Reload("next"), Flush(0, true, true), Resolve(Answered(200, None), 0, true, true, true)];
            Run(Start(session), inputs).ledger.acked == [1, 1]
  {
    var s := Start(session);
    var one := Event(1, 0, Info, "first", None, map[]);
    RunsThree(s, UNSAVED_SENT[0], UNSAVED_SENT[1], UNSAVED_SENT[2]);
    var again := [Reload("next"), Flush(0, true, true), Resolve(Answered(200, None), 0, true, true, true)];
    RunAppends(s, UNSAVED_SENT, again);
    var w := Run(s, UNSAVED_SENT);
    RunsThree(w, again[0], again[1], again[2]);
    hide Run;
    RoomIs(s, "first", true);
    assert [] + [one] == [one];
    OneAcked(Next(s, FIRST), one, false);
    OpensOn(w, "next");
    hide Next;
    OneAcked(Next(w, Reload("next")), one, true);
  }

  lemma OpensOn(w: World, next: string)
    requires w.storage.Some?
    ensures var o := Next(w, Reload(next));
            && JustOpened(o) && o.queue == w.storage.value.queue && o.dropped == w.storage.value.dropped
            && o.ledger == w.ledger
  {
  }

  lemma OneAcked(w: World, one: Event, saves: bool)
    requires !w.stopped && !w.sending && w.pausedUntil == 0 && w.dropped == 0 && w.queue == [one] && one.number == 1
    ensures var r := Next(Next(w, Flush(0, true, true)), Resolve(Answered(200, None), 0, true, saves, saves));
            r.ledger.acked == w.ledger.acked + [1] && (!saves ==> r.storage == w.storage)
  {
    AfterAll(w.queue, 0);
    assert Next(w, Flush(0, true, true)).carrying == w.queue;
    assert NumberSeq(w.queue) == [1];
    WithoutFirst(w.queue, Numbers(w.queue), 1);
    hide After, Without, NumberSeq, Numbers;
  }
}
