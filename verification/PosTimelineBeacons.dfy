/** What the POS session timeline loses without a word. A beacon's events leave the
    queue as soon as the browser has queued it; the store's answer, which may be to
    refuse them, is never heard. They are exactly the events that leave the page
    with no answer, no drop counted and no stop. */
module PosTimelineBeacons {
  import opened Wrappers
  import opened PosTimeline
  import opened PosTimelineSafety
  import opened PosTimelineRuns

  /** The event was recorded and left the page, though nothing was heard of it:
      it isn't queued, and was not acknowledged, refused, dropped or forgotten. */
  ghost predicate Silent(w: World, n: nat) {
    && 1 <= n <= w.number && n !in Numbers(w.queue)
    && n !in w.ledger.acked && n !in w.ledger.refused && n !in w.ledger.spliced && n !in w.ledger.forgotten
  }

  /** A reload that finds nothing saved begins a session of its own. */
  ghost predicate SameSession(w: World, input: Input) {
    input.Reload? ==> w.storage.Some?
  }

  predicate MayBeacon(w: World, now: int, online: bool, supported: bool) {
    !w.stopped && w.queue != [] && online && now >= w.pausedUntil && supported
  }

  /** The batch that a step hands to a beacon the browser queues. */
  function HandedOver(w: World, input: Input): seq<Event> {
    if input.Beacon? && MayBeacon(w, input.now, input.online, input.supported) && input.queued then
      NextOf(Announced(w, input.now, input.saves).queue, w.inFlightUpTo)
    else []
  }

  lemma EnqueuedHands(w: World, entry: Entry, saves: bool)
    ensures Enqueued(w, entry, saves).ledger.handed == w.ledger.handed
    ensures Enqueued(w, entry, saves).inFlightUpTo == w.inFlightUpTo
  {
  }

  lemma AnnouncedHands(w: World, now: int, saves: bool)
    ensures Announced(w, now, saves).ledger.handed == w.ledger.handed
    ensures Announced(w, now, saves).inFlightUpTo == w.inFlightUpTo
  {
    hide Enqueued;
    EnqueuedHands(w.(dropped := 0), ReportOf(w.number + 1, now, w.dropped), saves);
  }

  /** Only a beacon's batch is added, each event of it. */
  lemma StepHands(w: World, input: Input)
    requires SameSession(w, input)
    ensures Next(w, input).ledger.handed == w.ledger.handed + NumberSeq(HandedOver(w, input))
  {
    hide Enqueued, Announced, NextOf, Sent;
    match input
    case Record(kind, orderId, detail, level, now, saves) =>
      EnqueuedHands(w, Called(Event(w.number + 1, now, level, kind, NonEmpty(orderId), Clean(detail))), saves);
    case Flush(now, online, saves) => AnnouncedHands(w, now, saves);
    case Resolve(outcome, now, online, saves, removes) =>
      if outcome.Answered? {
        AnsweredHands(w, outcome.status, outcome.retryAfter, now, saves, removes);
        AnnouncedHands(Landed(AnsweredBy(w, outcome.status, outcome.retryAfter, now, saves, removes)), now, saves);
        hide AnsweredBy;
      }
    case Beacon(now, online, supported, queued, saves) =>
      AnnouncedHands(w, now, saves);
      SentHands(Announced(w, now, saves), HandedOver(w, input), saves);
    case Reload(_) =>
  }

  lemma AnsweredHands(w: World, status: nat, retryAfter: Option<int>, now: int, saves: bool, removes: bool)
    ensures AnsweredBy(w, status, retryAfter, now, saves, removes).ledger.handed == w.ledger.handed
  {
  }

  lemma SentHands(w: World, batch: seq<Event>, saves: bool)
    ensures Sent(w, batch, saves).ledger == w.ledger
  {
  }

  /** Step `i` of the run handed the event to a beacon, in the session that the run
      ends in. */
  ghost predicate HandedAt(session: string, inputs: seq<Input>, i: nat, n: nat)
    requires i < |inputs|
  {
    && n in Numbers(HandedOver(Run(Start(session), inputs[..i]), inputs[i]))
    && forall k :: i < k < |inputs| ==> SameSession(Run(Start(session), inputs[..k]), inputs[k])
  }

  ghost predicate HandedIn(session: string, inputs: seq<Input>, n: nat) {
    exists i :: 0 <= i < |inputs| && HandedAt(session, inputs, i, n)
  }

  lemma HandedLater(session: string, inputs: seq<Input>, i: nat, n: nat)
    requires i < |inputs| - 1
    ensures HandedAt(session, inputs, i, n) <==>
            HandedAt(session, inputs[..|inputs| - 1], i, n)
            && SameSession(Run(Start(session), inputs[..|inputs| - 1]), inputs[|inputs| - 1])
  {
    hide Run, HandedOver, SameSession;
    var before := inputs[..|inputs| - 1];
    assert forall k :: 0 <= k <= |before| ==> before[..k] == inputs[..k];
  }

  /** The account of what was handed over is right. */
  lemma {:induction false} HandedIsIn(session: string, inputs: seq<Input>, n: nat)
    ensures n in Run(Start(session), inputs).ledger.handed <==> HandedIn(session, inputs, n)
  {
    hide Next, HandedOver, HandedAt, SameSession;
    if inputs != [] {
      var last := |inputs| - 1;
      var before := inputs[..last];
      var w := Run(Start(session), before);
      HandedIsIn(session, before, n);
      forall i | 0 <= i < last
        ensures HandedAt(session, inputs, i, n) <==> HandedAt(session, before, i, n) && SameSession(w, inputs[last])
      {
        HandedLater(session, inputs, i, n);
      }
      HandedLast(session, inputs, n);
      hide Run;
      if SameSession(w, inputs[last]) {
        StepHands(w, inputs[last]);
        NumberSeqHolds(HandedOver(w, inputs[last]));
      } else {
        NewSession(w, inputs[last]);
      }
    }
  }

  lemma HandedLast(session: string, inputs: seq<Input>, n: nat)
    requires inputs != []
    ensures HandedAt(session, inputs, |inputs| - 1, n) <==>
            n in Numbers(HandedOver(Run(Start(session), inputs[..|inputs| - 1]), inputs[|inputs| - 1]))
  {
  }

  lemma NewSession(w: World, input: Input)
    requires !SameSession(w, input)
    ensures Next(w, input).ledger == EMPTY_LEDGER && HandedOver(w, input) == []
  {
  }

  lemma SilentIsHanded(w: World, n: nat)
    requires Inv(w)
    ensures Silent(w, n) <==> n in w.ledger.handed
  {
    hide QueueShape, OneFlight, DroppedInOrder, DropsCounted, DropsFollowed, Counted, Quiet, Numbers, Distinct;
    if Silent(w, n) {
      assert Ended(w.ledger, n);
    }
    if n in w.ledger.handed {
      assert n in Left(w.ledger);
      LeftOnce(w.ledger.acked, w.ledger.handed, n);
      hide NothingLost;
    }
  }

  lemma LeftOnce(a: seq<nat>, b: seq<nat>, n: nat)
    requires Distinct(a + b) && n in b
    ensures n !in a
  {
    var j :| 0 <= j < |b| && b[j] == n;
    assert (a + b)[|a| + j] == n;
    assert forall i :: 0 <= i < |a| ==> (a + b)[i] == a[i];
  }

  /** In every run whose reloads find the page's state saved, the events that left
      the page with nothing heard of them are exactly those that were in a batch
      handed to a beacon the browser queued. */
  lemma SilentExactly(session: string, inputs: seq<Input>, n: nat)
    requires ReloadsCurrent(session, inputs)
    ensures Silent(Run(Start(session), inputs), n) <==> HandedIn(session, inputs, n)
  {
    RunHolds(session, inputs);
    HandedIsIn(session, inputs, n);
    hide Run, Inv, Silent, HandedIn;
    SilentIsHanded(Run(Start(session), inputs), n);
  }

  const FIRST := Record("first", None, map[], Info, 0, true)
  const UNHEARD := [FIRST, Beacon(0, true, true, true, true)]

  /** An event recorded and handed to a beacon is off the queue, with no fetch made
      and nothing counted, whatever the store answered. Storage works throughout. */
  lemma BeaconUnheard(session: string)
    ensures var w := Run(Start(session), UNHEARD);
            && AllWorking(UNHEARD) && Silent(w, 1)
            && w.number == 1 && w.queue == [] && w.dropped == 0 && w.ledger.acked == []
  {
    var s := Start(session);
    var w := Next(s, FIRST);
    assert UNHEARD[..1] == [FIRST] && [FIRST][..0] == [];
    assert Run(s, UNHEARD[..1]) == w;
    var event := Event(1, 0, Info, "first", None, Clean(map[]));
    EnqueuedIs(s, Called(event), true);
    assert w.queue == [event];
    AfterAll(w.queue, 0);
    WithoutFirst(w.queue, Numbers(w.queue), 1);
    hide After, Without, NumberSeq, Enqueued;
  }
}
