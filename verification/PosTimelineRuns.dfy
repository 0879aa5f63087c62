/** The POS session timeline over whole runs: what holds however records,
    fetches, answers, beacons and reloads interleave, as long as each reload finds
    the page's state saved. */
module PosTimelineRuns {
  import opened Wrappers
  import opened PosTimeline
  import opened PosTimelineSafety

  /** A terminal that has never kept anything. */
  function Start(session: string): World {
    Opened(None, session, EMPTY_LEDGER)
  }

  /** Session storage obeys whenever the step asks it to. */
  ghost predicate Working(input: Input) {
    match input
    case Record(_, _, _, _, _, saves) => saves
    case Flush(_, _, saves) => saves
    case Resolve(_, _, _, saves, removes) => saves && removes
    case Beacon(_, _, _, _, saves) => saves
    case Reload(_) => true
  }

  ghost predicate AllWorking(inputs: seq<Input>) {
    forall i :: 0 <= i < |inputs| ==> Working(inputs[i])
  }

  ghost predicate NoReload(inputs: seq<Input>) {
    forall i :: 0 <= i < |inputs| ==> !inputs[i].Reload?
  }

  /** Every reload of the run finds the page's very state saved. */
  ghost predicate ReloadsCurrent(session: string, inputs: seq<Input>) {
    forall i :: 0 <= i < |inputs| ==> Trusted(Run(Start(session), inputs[..i]), inputs[i])
  }

  lemma StartHolds(session: string)
    ensures Inv(Start(session)) && Current(Start(session))
  {
    NothingYet(session);
    hide Inv;
  }

  lemma AnnouncedCurrent(w: World, now: int)
    requires !w.stopped && Current(w)
    ensures Current(Announced(w, now, true))
  {
  }

  lemma FlushingCurrent(w: World, now: int, online: bool)
    requires Current(w)
    ensures Current(Flushing(w, now, online, true))
  {
    if MayFlush(w, now, online) { AnnouncedCurrent(w, now); }
  }

  lemma NextStaysCurrent(w: World, input: Input)
    requires Inv(w) && Current(w) && Working(input)
    ensures Current(Next(w, input))
  {
    hide Inv;
    SendingRuns(w);
    match input
    case Record(_, _, _, _, _, _) =>
    case Flush(now, online, saves) => FlushingCurrent(w, now, online);
    case Resolve(outcome, now, online, saves, removes) =>
      if w.sending && outcome.Answered? {
        var l := Landed(AnsweredBy(w, outcome.status, outcome.retryAfter, now, saves, removes));
        assert Current(l);
        FlushingCurrent(l, now, online);
      }
    case Beacon(now, online, supported, queued, saves) =>
      if !w.stopped { AnnouncedCurrent(w, now); }
    case Reload(session) =>
  }

  /** With working storage, any run from a fresh terminal, reloads included. */
  lemma {:induction false} WorkingRunKeeps(session: string, inputs: seq<Input>)
    requires AllWorking(inputs)
    ensures Inv(Run(Start(session), inputs)) && Current(Run(Start(session), inputs))
  {
    if inputs == [] {
      StartHolds(session);
    } else {
      var before := inputs[..|inputs| - 1];
      WorkingRunKeeps(session, before);
      var w := Run(Start(session), before);
      hide Inv, Current;
      NextKeeps(w, inputs[|inputs| - 1]);
      NextStaysCurrent(w, inputs[|inputs| - 1]);
    }
  }

  /** Working storage saves the state before every reload. */
  lemma WorkingReloadsCurrent(session: string, inputs: seq<Input>)
    requires AllWorking(inputs)
    ensures ReloadsCurrent(session, inputs)
  {
    forall i | 0 <= i < |inputs| ensures Trusted(Run(Start(session), inputs[..i]), inputs[i]) {
      WorkingRunKeeps(session, inputs[..i]);
      hide Run, Current, Inv;
    }
  }

  lemma PageLifeReloadsCurrent(session: string, inputs: seq<Input>)
    requires NoReload(inputs)
    ensures ReloadsCurrent(session, inputs)
  {
    hide Run;
  }

  lemma ReloadsCurrentBefore(session: string, inputs: seq<Input>, n: nat)
    requires ReloadsCurrent(session, inputs) && n <= |inputs|
    ensures ReloadsCurrent(session, inputs[..n])
  {
    hide Trusted, Run;
    forall i | 0 <= i < n ensures Trusted(Run(Start(session), inputs[..n][..i]), inputs[..n][i]) {
      assert inputs[..n][..i] == inputs[..i];
    }
  }

  lemma LastTrusted(session: string, inputs: seq<Input>)
    requires ReloadsCurrent(session, inputs) && inputs != []
    ensures Trusted(Run(Start(session), inputs[..|inputs| - 1]), inputs[|inputs| - 1])
  {
    hide Trusted, Run;
  }

  /** Any run of any number of page lives, whatever storage does in between, as
      long as each reload finds the page's state saved. */
  lemma {:induction false} RunHolds(session: string, inputs: seq<Input>)
    requires ReloadsCurrent(session, inputs)
    ensures Inv(Run(Start(session), inputs))
  {
    hide Inv, ReloadsCurrent, Next, Trusted;
    if inputs == [] {
      StartHolds(session);
    } else {
      var n := |inputs| - 1;
      ReloadsCurrentBefore(session, inputs, n);
      RunHolds(session, inputs[..n]);
      LastTrusted(session, inputs);
      NextKeeps(Run(Start(session), inputs[..n]), inputs[n]);
    }
  }

  /** However storage behaves, any run of one page life. */
  lemma {:induction false} PageLifeKeeps(w: World, inputs: seq<Input>)
    requires Inv(w) && NoReload(inputs)
    ensures Inv(Run(w, inputs))
  {
    if inputs != [] {
      var before := inputs[..|inputs| - 1];
      PageLifeKeeps(w, before);
      hide Inv;
      NextKeeps(Run(w, before), inputs[|inputs| - 1]);
    }
  }

  // ---- What every run keeps ----

  /** Event `n` is queued just as it was recorded, or was acknowledged, handed to a
      beacon, refused for good or dropped, or went when the store told the timeline
      to stop. */
  ghost predicate AccountedFor(w: World, n: nat)
    requires 1 <= n <= |w.ledger.log|
  {
    || (exists i :: 0 <= i < |w.queue| && w.queue[i] == w.ledger.log[n - 1].event)
    || n in w.ledger.acked
    || n in w.ledger.handed
    || n in w.ledger.refused
    || n in w.ledger.spliced
    || (w.stopped && n in w.ledger.forgotten)
  }

  lemma Accounts(w: World, n: nat)
    requires Genuine(w.queue, w.ledger.log) && NothingLost(w.number, w.queue, w.ledger)
    requires Quiet(w.stopped, w.queue, w.sending, w.ledger.forgotten)
    requires 1 <= n <= w.number == |w.ledger.log|
    ensures AccountedFor(w, n)
  {
    if n in Numbers(w.queue) {
      var i :| 0 <= i < |w.queue| && w.queue[i].number == n;
      assert w.queue[i] == w.ledger.log[n - 1].event;
    }
  }

  /** No loss but to a beacon is silent: every event ever recorded is accounted
      for, and every one dropped is counted, in a report or towards the next; none
      is still owed a report once the queue has emptied. */
  lemma NoSilentLoss(session: string, inputs: seq<Input>)
    requires ReloadsCurrent(session, inputs)
    ensures var w := Run(Start(session), inputs);
            && w.number == |w.ledger.log|
            && (forall n: nat :: 1 <= n <= w.number ==> AccountedFor(w, n))
            && |w.ledger.spliced| == w.dropped + Reported(w.ledger.log)
            && (w.queue == [] && !w.stopped ==> w.dropped == 0)
  {
    RunHolds(session, inputs);
    var w := Run(Start(session), inputs);
    hide Run, ReloadsCurrent, Genuine, NothingLost, Increasing, OneFlight, Settled, DroppedInOrder, AccountedFor;
    forall n: nat | 1 <= n <= w.number ensures AccountedFor(w, n) { Accounts(w, n); }
  }

  /** No event leaves twice to be delivered, by a fetch that is acknowledged or by
      a beacon, nor is refused as well; and what a page carries or has queued never
      left it. */
  lemma NoDoubleAcknowledgement(session: string, inputs: seq<Input>)
    requires ReloadsCurrent(session, inputs)
    ensures var w := Run(Start(session), inputs);
            var left := w.ledger.acked + w.ledger.handed;
            && Distinct(left)
            && (forall n :: n in left || n in w.ledger.refused ==> n !in Numbers(w.queue) && n !in Numbers(w.carrying))
            && (forall n :: n in left ==> n !in w.ledger.refused)
  {
    RunHolds(session, inputs);
    hide Run, ReloadsCurrent;
    EachLeavesOnce(Run(Start(session), inputs));
    hide Inv, Distinct, Numbers;
  }

  lemma EachLeavesOnce(w: World)
    requires Inv(w)
    ensures Settled(w.number, w.queue, w.carrying, w.ledger.acked + w.ledger.handed, w.ledger.refused)
  {
    hide QueueShape, OneFlight, NothingLost, Settled, DroppedInOrder, DropsCounted, DropsFollowed, Counted, HandedApart;
  }

  /** The queue's shape: in order, bounded, and no event altered. A fetch that
      sets off takes the oldest events, at most a batch of them. */
  lemma QueueInOrder(session: string, inputs: seq<Input>, now: int, online: bool, saves: bool)
    requires ReloadsCurrent(session, inputs)
    ensures var w := Run(Start(session), inputs);
            && |w.queue| <= 500
            && (forall i, j :: 0 <= i < j < |w.queue| ==> w.queue[i].number < w.queue[j].number <= w.number)
            && (MayFlush(w, now, online) ==>
                  var f := Flushing(w, now, online, saves);
                  var n := if |f.queue| < 50 then |f.queue| else 50;
                  n > 0 && f.sending && f.carrying == f.queue[..n])
  {
    RunHolds(session, inputs);
    var w := Run(Start(session), inputs);
    hide Run;
    FlushingKeeps(w, now, online, saves);
    hide Flushing, MayFlush;
  }

  /** A beacon sent while a fetch is out takes events the fetch doesn't carry. */
  lemma BeaconOvertakes(session: string, inputs: seq<Input>, now: int, saves: bool)
    requires ReloadsCurrent(session, inputs)
    requires var w := Run(Start(session), inputs); !w.stopped && w.queue != []
    ensures var w := Run(Start(session), inputs);
            var batch := NextOf(Announced(w, now, saves).queue, w.inFlightUpTo);
            Numbers(batch) !! Numbers(w.carrying) && |batch| <= 50
  {
    RunHolds(session, inputs);
    var w := Run(Start(session), inputs);
    hide Run;
    AnnouncedKeeps(w, now, saves);
    var a := Announced(w, now, saves);
    assert a.carrying == w.carrying && a.inFlightUpTo == w.inFlightUpTo;
    NextBatchIs(a.queue, a.carrying, a.sending, a.inFlightUpTo, a.ledger.log);
    hide NextOf, Announced;
  }

  /** With working storage a reload at any moment loses nothing: the page that
      opens has the same events queued and the same counts. */
  lemma ReloadLosesNothing(session: string, inputs: seq<Input>, next: string)
    requires AllWorking(inputs)
    requires var w := Run(Start(session), inputs); !w.stopped
    ensures var w := Run(Start(session), inputs);
            var o := Next(w, Reload(next));
            && o.queue == w.queue && o.number == w.number && o.dropped == w.dropped
            && (w.number > 0 ==> o.session == w.session && o.ledger == w.ledger)
            && !o.sending && Inv(o)
  {
    WorkingRunKeeps(session, inputs);
    var w := Run(Start(session), inputs);
    assert w.number == |w.ledger.log|;
    hide Run;
    NextKeeps(w, Reload(next));
    hide Inv;
  }

  /** What a fetch was carrying when the page went away is still queued, at the
      front, or was dropped from the full queue meanwhile. The next fetch takes
      what is queued of it, but for an oldest event that the report of drops
      pushes out of a full queue. */
  lemma ReloadSendsAgain(session: string, inputs: seq<Input>, next: string, now: int, saves: bool)
    requires AllWorking(inputs)
    requires Run(Start(session), inputs).sending
    ensures var w := Run(Start(session), inputs);
            var o := Next(w, Reload(next));
            var c := CountUpTo(w.queue, w.inFlightUpTo);
            && o.queue == w.queue && c <= |w.carrying| && o.queue[..c] == w.carrying[|w.carrying| - c..]
            && (forall i :: 0 <= i < |w.carrying| - c ==> w.carrying[i].number in w.ledger.spliced)
            && (MayFlush(o, now, true) ==>
                  var out := if w.dropped > 0 && |w.queue| == MAX_QUEUED && c > 0 then 1 else 0;
                  o.queue[out..c] <= Flushing(o, now, true, saves).carrying)
  {
    WorkingRunKeeps(session, inputs);
    var w := Run(Start(session), inputs);
    var o := Next(w, Reload(next));
    hide Run, Inv, Current, CountUpTo, Flushing, Next;
    SendingRuns(w);
    CarriedIs(w);
    ReloadLosesNothing(session, inputs, next);
    if MayFlush(o, now, true) {
      hide MayFlush;
      FlushTakes(o, CountUpTo(w.queue, w.inFlightUpTo), now, saves);
    }
  }

  /** The next fetch takes the oldest events but for one a report pushes out. */
  lemma FlushTakes(w: World, c: nat, now: int, saves: bool)
    requires Inv(w) && MayFlush(w, now, true) && c <= BATCH && c <= |w.queue| <= MAX_QUEUED
    ensures var out := if w.dropped > 0 && |w.queue| == MAX_QUEUED && c > 0 then 1 else 0;
            w.queue[out..c] <= Flushing(w, now, true, saves).carrying
  {
    hide Inv, Announced, Flushing;
    FlushingKeeps(w, now, true, saves);
    AnnouncedQueue(w, now, saves);
    var f := Flushing(w, now, true, saves);
    var out := if w.dropped > 0 && |w.queue| == MAX_QUEUED && c > 0 then 1 else 0;
    forall i | out <= i < c ensures i - out < |f.carrying| && f.carrying[i - out] == w.queue[i] {
      assert f.queue[i - out] == w.queue[out..][i - out];
    }
  }

  /** What is still queued of a carried batch, and what is not. */
  lemma CarriedIs(w: World)
    requires Inv(w) && w.sending
    ensures var c := CountUpTo(w.queue, w.inFlightUpTo);
            && c <= |w.carrying| && c <= BATCH && w.queue[..c] == w.carrying[|w.carrying| - c..]
            && forall i :: 0 <= i < |w.carrying| - c ==> w.carrying[i].number in w.ledger.spliced
  {
    hide QueueShape, DropsCounted, DropsFollowed;
    var c := CountUpTo(w.queue, w.inFlightUpTo);
    forall i | 0 <= i < |w.carrying| - c ensures w.carrying[i].number in w.ledger.spliced {
      CarriedOutIs(w, i);
    }
  }

  lemma CarriedOutIs(w: World, i: nat)
    requires Inv(w) && w.sending
    requires i < |w.carrying| - CountUpTo(w.queue, w.inFlightUpTo)
    ensures w.carrying[i].number in w.ledger.spliced && w.carrying[i].number !in Numbers(w.queue)
  {
    var n := w.carrying[i].number;
    CarriedOutUnqueued(w.queue, w.carrying, w.sending, w.inFlightUpTo, w.ledger.log, i);
    GenuineNumbers(w.carrying, w.ledger.log);
    assert n in Numbers(w.carrying);
    assert Ended(w.ledger, n);
    hide QueueShape, OneFlight, DropsCounted, DropsFollowed, DroppedInOrder, Numbers;
  }

  lemma CarriedOutUnqueued(queue: seq<Event>, carrying: seq<Event>, sending: bool, upTo: nat, log: seq<Entry>, i: nat)
    requires QueueShape(queue, log) && OneFlight(queue, carrying, sending, upTo, log)
    requires i < |carrying| - CountUpTo(queue, upTo)
    ensures carrying[i].number !in Numbers(queue)
  {
    var c := CountUpTo(queue, upTo);
    CountSplits(queue, upTo);
    assert queue[..c] == carrying[|carrying| - c..];
    hide Genuine, CountUpTo;
    forall j | 0 <= j < |queue| ensures queue[j].number != carrying[i].number {
      if j < c {
        assert queue[j] == queue[..c][j] == carrying[|carrying| - c + j];
      }
    }
  }

  /** A report of drops joins the queue, and pushes the oldest out of a full one. */
  lemma AnnouncedQueue(w: World, now: int, saves: bool)
    requires |w.queue| <= MAX_QUEUED
    ensures var a := Announced(w, now, saves);
            var out := if w.dropped > 0 && |w.queue| == MAX_QUEUED then 1 else 0;
            w.queue[out..] <= a.queue
  {
    if w.dropped > 0 {
      EnqueuedIs(w.(dropped := 0), ReportOf(w.number + 1, now, w.dropped), saves);
    }
  }

  // ---- Draining ----

  /** An answer that accepts the batch, when it comes, and whether storage obeys
      then. */
  datatype Acceptance = Acceptance(status: nat, now: int, saves: bool)

  /** The fetch that is out comes back accepted. */
  function Accept(w: World, a: Acceptance): World {
    Next(w, Resolve(Answered(a.status, None), a.now, true, a.saves, true))
  }

  function AcceptAll(w: World, all: seq<Acceptance>): World
    decreases |all|
  {
    if all == [] then w else AcceptAll(Accept(w, all[0]), all[1..])
  }

  /** An acceptance that comes when the page is not told to pause. */
  predicate InTime(a: Acceptance, pausedUntil: int) {
    Accepts(a.status) && a.now >= pausedUntil
  }

  predicate AllInTime(all: seq<Acceptance>, pausedUntil: int) {
    forall i :: 0 <= i < |all| ==> InTime(all[i], pausedUntil)
  }

  /** A fetch that carries exactly the oldest queued events. */
  ghost predicate Loaded(w: World) {
    w.sending && w.queue != [] && w.carrying == w.queue[..if |w.queue| > BATCH then BATCH else |w.queue|]
  }

  ghost predicate Drained(w: World) {
    w.queue == [] && w.dropped == 0 && !w.sending
  }

  lemma AcceptIs(w: World, a: Acceptance)
    requires w.sending && Accepts(a.status)
    ensures var l := Landed(Delivered(w, a.saves));
            Accept(w, a) == if l.queue == [] then l else Flushing(l, a.now, true, a.saves)
  {
    hide Flushing, Delivered;
  }

  lemma AcceptLate(w: World, a: Acceptance)
    requires !w.sending
    ensures Accept(w, a) == w
  {
  }

  lemma SendsOff(w: World, now: int, saves: bool)
    requires Inv(w) && MayFlush(w, now, true)
    ensures var f := Flushing(w, now, true, saves);
            Inv(f) && Loaded(f) && f.pausedUntil == w.pausedUntil && |f.queue| <= |w.queue| + 1
  {
    FlushingKeeps(w, now, true, saves);
    hide Inv, NextOf;
  }

  lemma NothingOwed(w: World)
    requires Inv(w) && w.queue == [] && !w.stopped
    ensures w.dropped == 0
  {
    hide Increasing, Genuine, NothingLost, Settled, DroppedInOrder, OneFlight, Counted, QueueShape, DropsCounted;
  }

  lemma NotStopped(w: World)
    requires Inv(w) && w.sending
    ensures !w.stopped && |w.queue| <= MAX_QUEUED
  {
    hide Increasing, Genuine, NothingLost, Settled, DroppedInOrder, OneFlight, Counted;
  }

  /** One accepted answer: either everything is through, drops reported too, or
      the next fetch is off with the oldest of what is left. */
  lemma AcceptedOnce(w: World, a: Acceptance)
    requires Inv(w) && w.sending && InTime(a, w.pausedUntil)
    ensures var r := Accept(w, a);
            && Inv(r) && r.pausedUntil == w.pausedUntil
            && (if Behind(w) == [] then Drained(r) else Loaded(r) && |r.queue| <= |Behind(w)| + 1)
  {
    hide Inv, Accept, Flushing, Behind, Loaded, Numbers, NumberSeq, Without;
    NotStopped(w);
    DeliveredKeeps(w, a.saves);
    AcceptIs(w, a);
    var l := Landed(Delivered(w, a.saves));
    if l.queue == [] {
      NothingOwed(l);
    } else {
      SendsOff(l, a.now, a.saves);
    }
  }

  lemma LoadedShrinks(w: World)
    requires Inv(w) && Loaded(w)
    ensures |Behind(w)| == if |w.queue| > BATCH then |w.queue| - BATCH else 0
  {
    var n := if |w.queue| > BATCH then BATCH else |w.queue|;
    assert w.inFlightUpTo == w.queue[n - 1].number;
    CountIs(w.queue, w.inFlightUpTo, n);
  }

  /** Each accepted answer of a drain leaves strictly fewer events. */
  lemma DrainShrinks(w: World, a: Acceptance)
    requires Inv(w) && Loaded(w) && InTime(a, w.pausedUntil)
    ensures var r := Accept(w, a);
            && Inv(r) && r.pausedUntil == w.pausedUntil && |r.queue| < |w.queue|
            && if |w.queue| <= BATCH then Drained(r) else Loaded(r) && |r.queue| <= |w.queue| - BATCH + 1
  {
    hide Inv, Accept, Behind;
    LoadedShrinks(w);
    AcceptedOnce(w, a);
    hide Loaded;
  }

  lemma {:induction false} DrainsFromLoaded(w: World, all: seq<Acceptance>)
    requires Inv(w) && AllInTime(all, w.pausedUntil) && (Loaded(w) || Drained(w))
    requires |w.queue| <= if all == [] then 0 else BATCH + (BATCH - 1) * (|all| - 1)
    ensures Drained(AcceptAll(w, all))
    decreases |all|
  {
    hide Inv, Accept, Loaded;
    if all != [] {
      assert InTime(all[0], w.pausedUntil);
      assert forall i :: 0 <= i < |all[1..]| ==> all[1..][i] == all[i + 1];
      hide InTime;
      if Drained(w) {
        AcceptLate(w, all[0]);
      } else {
        DrainShrinks(w, all[0]);
      }
      DrainsFromLoaded(Accept(w, all[0]), all[1..]);
    } else if !Drained(w) {
      LoadedHolds(w);
    }
  }

  lemma LoadedHolds(w: World)
    requires Loaded(w)
    ensures w.queue != []
  {
  }

  /** Draining ends: from any state a run can reach with a fetch out, any twelve
      accepting answers, whenever they come and whatever storage does meanwhile,
      and nothing new leave the queue empty and every drop reported, though
      reporting a drop on a full queue drops one event more. */
  lemma Drains(session: string, inputs: seq<Input>, all: seq<Acceptance>)
    requires ReloadsCurrent(session, inputs)
    requires var w := Run(Start(session), inputs); w.sending && |all| >= 12 && AllInTime(all, w.pausedUntil)
    ensures Drained(AcceptAll(Run(Start(session), inputs), all))
  {
    RunHolds(session, inputs);
    hide Run;
    DrainsWithin(Run(Start(session), inputs), all);
  }

  lemma DrainsWithin(w: World, all: seq<Acceptance>)
    requires Inv(w) && w.sending && |all| >= 12 && AllInTime(all, w.pausedUntil)
    ensures Drained(AcceptAll(w, all))
  {
    assert InTime(all[0], w.pausedUntil);
    assert forall i :: 0 <= i < |all[1..]| ==> all[1..][i] == all[i + 1];
    hide InTime;
    AcceptedOnce(w, all[0]);
    var r := Accept(w, all[0]);
    hide Accept, Behind;
    if r.sending { NotStopped(r); }
    hide Inv, Loaded;
    DrainsFromLoaded(r, all[1..]);
  }
}
