/** Where the POS session timeline's promise that a reload loses nothing ends: at
    the events recorded after storage last obeyed. And what else a saved copy that
    is out of date does: numbers are given again, and events sent again. */
module PosTimelineLimits {
  import opened Wrappers
  import opened PosTimeline
  import opened PosTimelineSafety
  import opened PosTimelineRuns
  import opened PosTimelineBeacons
  import opened PosTimelineDrops

  // ---- What the copy holds ----

  /** Every queued event up to the copy's own count is in the copy. */
  ghost predicate Kept(queue: seq<Event>, s: Stored) {
    forall i :: 0 <= i < |queue| && queue[i].number <= s.number ==> queue[i] in s.queue
  }

  /** The copy is of a state the page was in. */
  ghost predicate SavedFrom(v: World, s: Stored) {
    Inv(v) && !v.stopped && v.Copy() == s
  }

  ghost predicate CopyHolds(w: World) {
    w.storage.Some? ==>
      && w.storage.value.number <= w.number
      && Kept(w.queue, w.storage.value)
      && exists v :: SavedFrom(v, w.storage.value)
  }

  /** What is queued at `x` was queued at `w`, or was recorded since. */
  ghost predicate QueueFollows(w: World, x: World) {
    x.number >= w.number && forall i :: 0 <= i < |x.queue| ==> x.queue[i] in w.queue || x.queue[i].number > w.number
  }

  /** After a step the copy is the one before, or gone, or the state itself. */
  ghost predicate CopyFollows(w: World, x: World) {
    x.storage == w.storage || x.storage == None || (x.storage == Some(x.Copy()) && !x.stopped)
  }

  lemma {:induction false} WithoutIsPart(events: seq<Event>, done: set<nat>)
    ensures forall e :: e in Without(events, done) ==> e in events
  {
    if events != [] { WithoutIsPart(events[1..], done); }
  }

  lemma EnqueuedFollows(w: World, entry: Entry, saves: bool)
    requires !w.stopped && |w.queue| <= MAX_QUEUED && entry.event.number == w.number + 1
    ensures var e := Enqueued(w, entry, saves); QueueFollows(w, e) && CopyFollows(w, e) && !e.stopped
    ensures saves ==> Enqueued(w, entry, saves).storage == Some(Enqueued(w, entry, saves).Copy())
  {
    EnqueuedIs(w, entry, saves);
    hide Enqueued, Out;
  }

  lemma AnnouncedFollows(w: World, now: int, saves: bool)
    requires !w.stopped && |w.queue| <= MAX_QUEUED
    ensures var a := Announced(w, now, saves); QueueFollows(w, a) && CopyFollows(w, a) && !a.stopped
    ensures w.storage == Some(w.Copy()) ==> Announced(w, now, saves).storage == Some(Announced(w, now, saves).Copy()) || !saves
  {
    if w.dropped > 0 {
      EnqueuedFollows(w.(dropped := 0), ReportOf(w.number + 1, now, w.dropped), saves);
      hide Enqueued;
    }
  }

  lemma FlushingFollows(w: World, now: int, online: bool, saves: bool)
    requires |w.queue| <= MAX_QUEUED
    ensures var f := Flushing(w, now, online, saves); QueueFollows(w, f) && CopyFollows(w, f)
    ensures w.storage == Some(w.Copy()) && !w.stopped && saves ==>
              var f := Flushing(w, now, online, saves); f.storage == Some(f.Copy()) && !f.stopped
  {
    hide Announced, NextOf;
    if MayFlush(w, now, online) { AnnouncedFollows(w, now, saves); }
  }

  lemma SentFollows(w: World, batch: seq<Event>, saves: bool)
    requires !w.stopped
    ensures var x := Sent(w, batch, saves);
            QueueFollows(w, x) && (if saves then x.storage == Some(x.Copy()) else x.storage == w.storage)
  {
    WithoutIsPart(w.queue, Numbers(batch));
    hide Without, Numbers;
  }

  lemma AnsweredFollows(w: World, status: nat, retryAfter: Option<int>, now: int, saves: bool, removes: bool)
    requires !w.stopped
    ensures var l := Landed(AnsweredBy(w, status, retryAfter, now, saves, removes));
            && QueueFollows(w, l) && CopyFollows(w, l)
            && (l.storage == w.storage || l.storage == None || (saves && l.storage == Some(l.Copy()) && !l.stopped))
  {
    SentFollows(w, w.carrying, saves);
    hide Sent;
  }

  lemma FollowsOn(w: World, x: World, y: World, saves: bool)
    requires QueueFollows(w, x) && QueueFollows(x, y) && CopyFollows(x, y)
    requires x.storage == w.storage || x.storage == None || (x.storage == Some(x.Copy()) && !x.stopped && saves)
    requires x.storage == Some(x.Copy()) && !x.stopped && saves ==> y.storage == Some(y.Copy()) && !y.stopped
    ensures QueueFollows(w, y) && CopyFollows(w, y)
  {
  }

  lemma BeaconingFollows(w: World, now: int, online: bool, supported: bool, queued: bool, saves: bool)
    requires |w.queue| <= MAX_QUEUED
    ensures var b := Beaconing(w, now, online, supported, queued, saves); QueueFollows(w, b) && CopyFollows(w, b)
  {
    if MayBeacon(w, now, online, supported) {
      AnnouncedFollows(w, now, saves);
      var a := Announced(w, now, saves);
      var batch := NextOf(a.queue, a.inFlightUpTo);
      SentFollows(a, batch, saves);
      hide Announced, NextOf, Sent, NumberSeq;
    }
  }

  lemma NextFollows(w: World, input: Input)
    requires |w.queue| <= MAX_QUEUED && !input.Reload? && (w.sending ==> !w.stopped)
    ensures QueueFollows(w, Next(w, input)) && CopyFollows(w, Next(w, input))
  {
    hide Enqueued, Flushing, Beaconing, AnsweredBy;
    match input
    case Record(kind, orderId, detail, level, now, saves) =>
      if !w.stopped {
        EnqueuedFollows(w, Called(Event(w.number + 1, now, level, kind, NonEmpty(orderId), Clean(detail))), saves);
      }
    case Flush(now, online, saves) => FlushingFollows(w, now, online, saves);
    case Beacon(now, online, supported, queued, saves) => BeaconingFollows(w, now, online, supported, queued, saves);
    case Resolve(outcome, now, online, saves, removes) =>
      if w.sending && outcome.Answered? {
        var l := Landed(AnsweredBy(w, outcome.status, outcome.retryAfter, now, saves, removes));
        AnsweredFollows(w, outcome.status, outcome.retryAfter, now, saves, removes);
        if Accepts(outcome.status) && l.queue != [] {
          AnsweredShort(w, outcome.status, outcome.retryAfter, now, saves, removes);
          FlushingFollows(l, now, online, saves);
          FollowsOn(w, l, Flushing(l, now, online, saves), saves);
        }
      }
  }

  lemma AnsweredShort(w: World, status: nat, retryAfter: Option<int>, now: int, saves: bool, removes: bool)
    requires |w.queue| <= MAX_QUEUED
    ensures |AnsweredBy(w, status, retryAfter, now, saves, removes).queue| <= MAX_QUEUED
  {
    WithoutShort(w.queue, Numbers(w.carrying));
  }

  lemma {:induction false} WithoutShort(events: seq<Event>, done: set<nat>)
    ensures |Without(events, done)| <= |events|
  {
    if events != [] { WithoutShort(events[1..], done); }
  }

  lemma StepCopies(w: World, input: Input)
    requires Inv(w) && Trusted(w, input) && CopyHolds(w)
    ensures CopyHolds(Next(w, input))
  {
    NextKeeps(w, input);
    QueueBound(w);
    SendingRuns(w);
    var x := Next(w, input);
    if !input.Reload? {
      hide Inv, Next;
      NextFollows(w, input);
      CopyHoldsOn(w, x);
    } else {
      hide Inv, Kept;
    }
  }

  lemma QueueBound(w: World)
    requires Inv(w)
    ensures |w.queue| <= MAX_QUEUED
  {
    hide OneFlight, NothingLost, Settled, DroppedInOrder, DropsCounted, DropsFollowed, Counted, HandedApart, Quiet;
  }

  lemma CopyHoldsOn(w: World, x: World)
    requires CopyHolds(w) && Inv(x) && QueueFollows(w, x) && CopyFollows(w, x)
    ensures CopyHolds(x)
  {
    if x.storage == Some(x.Copy()) && !x.stopped {
      assert SavedFrom(x, x.storage.value);
    }
    hide Inv;
  }

  lemma {:induction false} CopyHoldsIn(session: string, inputs: seq<Input>)
    requires ReloadsCurrent(session, inputs)
    ensures CopyHolds(Run(Start(session), inputs))
  {
    hide Inv, ReloadsCurrent, Next, Trusted, CopyHolds;
    if inputs == [] {
      assert CopyHolds(Start(session)) by { StartCopies(session); }
    } else {
      var n := |inputs| - 1;
      ReloadsCurrentBefore(session, inputs, n);
      RunHolds(session, inputs[..n]);
      CopyHoldsIn(session, inputs[..n]);
      LastTrusted(session, inputs);
      StepCopies(Run(Start(session), inputs[..n]), inputs[n]);
    }
  }

  lemma StartCopies(session: string)
    ensures CopyHolds(Start(session))
  {
  }

  // ---- What a reload loses ----

  /** After any run so far, whatever storage has done since the page opened: a
      queued event is queued after a reload if and only if there is a copy, saved
      when the event had been recorded. */
  lemma ReloadKeepsExactly(session: string, inputs: seq<Input>, next: string, i: nat)
    requires ReloadsCurrent(session, inputs) && i < |Run(Start(session), inputs).queue|
    ensures var w := Run(Start(session), inputs);
            w.queue[i] in Next(w, Reload(next)).queue <==>
            w.storage.Some? && w.queue[i].number <= w.storage.value.number
  {
    hide CopyHolds, Next;
    CopyHoldsIn(session, inputs);
    CopyKeeps(Run(Start(session), inputs), next, i);
  }

  lemma CopyKeeps(w: World, next: string, i: nat)
    requires CopyHolds(w) && i < |w.queue|
    ensures w.queue[i] in Next(w, Reload(next)).queue <==> w.storage.Some? && w.queue[i].number <= w.storage.value.number
  {
    hide Inv;
    if w.storage.Some? {
      var v :| SavedFrom(v, w.storage.value);
      IssuedUpTo(v);
    }
  }

  lemma IssuedUpTo(v: World)
    requires Inv(v)
    ensures forall e :: e in v.queue ==> e.number <= v.number
  {
    hide OneFlight, NothingLost, Settled, DroppedInOrder, DropsCounted, DropsFollowed, HandedApart, Quiet, Increasing;
  }

  const UNSAVED := Record("second", None, map[], Info, 0, false)

  /** An event recorded when storage no longer obeys, and a reload: nothing more is
      heard of it, and no drop is counted. */
  lemma UnsavedIsLost(session: string)
    ensures var w := Run(Start(session), [FIRST, UNSAVED, Reload("next")]);
            w.session == session && |w.ledger.log| == 2 && !AccountedFor(w, 2) && w.dropped == 0 && w.ledger.handed == []
  {
    TwoRecorded(session);
    RunsThree(Start(session), FIRST, UNSAVED, Reload("next"));
  }

  /** With storage blocked from the start there is no copy: the session itself is
      lost, with all that was queued. */
  lemma BlockedStorageLosesAll(session: string)
    ensures var w := Run(Start(session), [UNSAVED]);
            var o := Next(w, Reload("next"));
            |w.queue| == 1 && !w.stopped && o.queue == [] && o.session == "next" && o.number == 0
  {
    RoomIs(Start(session), "second", false);
    RunsOne(Start(session), UNSAVED);
  }

  lemma RunsThree(w: World, a: Input, b: Input, c: Input)
    ensures Run(w, [a, b, c]) == Next(Next(Next(w, a), b), c)
  {
    hide Next;
    assert [a, b, c][..2] == [a, b] && [a, b][..1] == [a] && [a][..0] == [];
    assert Run(w, [a]) == Next(w, a);
    assert Run(w, [a, b]) == Next(Run(w, [a]), b);
  }

  // ---- What a reload gives again ----

  /** A reload gives out a number that was given out before if and only if the
      saved copy's own count is behind the page's. */
  lemma ReusesNumberExactly(w: World, session: string)
    requires Inv(w) && w.storage.Some?
    ensures var o := Next(w, Reload(session));
            (exists i :: 0 <= i < |w.ledger.log| && w.ledger.log[i].event.number == o.number + 1) <==>
            w.storage.value.number < w.number
  {
    hide QueueShape, NothingLost, Settled, DroppedInOrder, OneFlight, DropsCounted, DropsFollowed, Quiet, HandedApart;
    var o := Next(w, Reload(session));
    assert w.number == |w.ledger.log|;
    if o.number < w.number {
      assert w.ledger.log[o.number].event.number == o.number + 1;
    }
  }

  const SENT := [Flush(0, true, false), Resolve(Answered(200, None), 0, true, false, false)]
  const LATER := Record("third", None, map[], Info, 0, true)

  /** Recording while the queue has room. */
  lemma RoomIs(w: World, kind: string, saves: bool)
    requires !w.stopped && |w.queue| < MAX_QUEUED
    ensures var event := Event(w.number + 1, 0, Info, kind, None, map[]);
            Next(w, Record(kind, None, map[], Info, 0, saves)) ==
            Saved(w.(number := w.number + 1, queue := w.queue + [event],
                     ledger := w.ledger.(log := w.ledger.log + [Called(event)])), saves)
  {
    assert Clean(map[]) == map[];
    EnqueuedIs(w, Called(Event(w.number + 1, 0, Info, kind, None, map[])), saves);
    assert w.ledger.spliced + [] == w.ledger.spliced;
    hide Enqueued, Saved;
  }

  lemma TwoRecorded(session: string)
    ensures var w := Next(Next(Start(session), FIRST), UNSAVED);
            var one := Event(1, 0, Info, "first", None, map[]);
            var two := Event(2, 0, Info, "second", None, map[]);
            && w == Start(session).(number := 2, queue := [one, two], storage := Some(Stored(session, 1, [one], 0)),
                                    ledger := EMPTY_LEDGER.(log := [Called(one), Called(two)]))
  {
    hide Next;
    var one := Event(1, 0, Info, "first", None, map[]);
    var two := Event(2, 0, Info, "second", None, map[]);
    RoomIs(Start(session), "first", true);
    assert [] + [one] == [one] && [] + [Called(one)] == [Called(one)];
    assert [one] + [two] == [one, two] && [Called(one)] + [Called(two)] == [Called(one), Called(two)];
    RoomIs(Next(Start(session), FIRST), "second", false);
  }

  lemma BothAcknowledged(w: World)
    requires !w.stopped && !w.sending && w.pausedUntil == 0 && w.dropped == 0 && w.ledger.acked == []
    requires |w.queue| == 2 && w.queue[0].number == 1 && w.queue[1].number == 2
    ensures var d := Next(Next(w, SENT[0]), SENT[1]);
            d.storage == w.storage && d.number == w.number && d.ledger == w.ledger.(acked := [1, 2])
            && d.queue == []
  {
    AfterAll(w.queue, 0);
    var f := Next(w, SENT[0]);
    assert f.carrying == w.queue;
    assert NumberSeq(w.queue) == [1, 2];
    WithoutStretch(w.queue, Numbers(w.queue), 0, 2);
    hide After, Without, NumberSeq, Numbers;
  }

  /** A reload can lose an event when storage stopped obeying: the second event
      recorded here is acknowledged under number 2, the one recorded after the
      reload takes number 2 again, and the store ignores a number it has seen. */
  lemma StaleCopyReusesNumber(session: string)
    ensures var w := Run(Start(session), [FIRST, UNSAVED, SENT[0], SENT[1], Reload("next"), LATER]);
            && w.session == session
            && |w.ledger.log| == 3
            && w.ledger.log[2].event.kind == "third"
            && w.ledger.log[1].event != w.ledger.log[2].event
            && w.ledger.log[2].event.number == 2 && 2 in w.ledger.acked
  {
    TwoRecorded(session);
    BothAcknowledged(Next(Next(Start(session), FIRST), UNSAVED));
    RunsSix(Start(session), [FIRST, UNSAVED, SENT[0], SENT[1], Reload("next"), LATER]);
    ThirdRecorded(Next(Next(Next(Next(Start(session), FIRST), UNSAVED), SENT[0]), SENT[1]));
    hide Next;
  }

  lemma ThirdRecorded(w: World)
    requires w.storage.Some? && w.storage.value.number == 1 && |w.storage.value.queue| == 1
    ensures var r := Next(Next(w, Reload("next")), LATER);
            && r.session == w.storage.value.session
            && r.ledger.acked == w.ledger.acked
            && r.ledger.log == w.ledger.log + [Called(Event(2, 0, Info, "third", None, map[]))]
  {
    var o := Next(w, Reload("next"));
    assert Clean(map[]) == map[];
    EnqueuedIs(o, Called(Event(2, 0, Info, "third", None, map[])), true);
    hide NumberSeq;
  }

  lemma RunsSix(w: World, all: seq<Input>)
    requires |all| == 6
    ensures Run(w, all) == Next(Next(Next(Next(Next(Next(w, all[0]), all[1]), all[2]), all[3]), all[4]), all[5])
  {
    hide Next;
    assert all[..5][..4] == all[..4] && all[..4][..3] == all[..3] && all[..3][..2] == all[..2] && all[..2][..1] == all[..1];
    assert Run(w, all[..1]) == Next(w, all[0]);
    assert Run(w, all[..2]) == Next(Run(w, all[..1]), all[1]);
    assert Run(w, all[..3]) == Next(Run(w, all[..2]), all[2]);
    assert Run(w, all[..4]) == Next(Run(w, all[..3]), all[3]);
    assert Run(w, all[..5]) == Next(Run(w, all[..4]), all[4]);
  }
}
