/** What the POS session timeline does in plain numbers: what a recorded event
    holds, when a fetch or a beacon may set off, what each answer of the store does,
    and how long a pause is. */
module PosTimelineAnswers {
  import opened Wrappers
  import opened PosTimeline
  import opened PosTimelineSafety
  import opened PosTimelineRuns
  import opened PosTimelineBeacons
  import opened PosTimelineDrops

  // ---- What is recorded ----

  /** A recorded event is the queue's newest. It has the next number and what the
      caller gave, but for an empty order id and for the entries of its detail that
      are undefined or null; every other entry is as given. */
  lemma RecordedSays(w: World, kind: string, orderId: Option<string>, detail: Detail, level: Level, now: int, saves: bool)
    requires !w.stopped && |w.queue| <= 500
    ensures var x := Next(w, Record(kind, orderId, detail, level, now, saves));
            && 1 <= |x.queue| <= 500 && x.number == w.number + 1
            && var e := x.queue[|x.queue| - 1];
               && e.number == w.number + 1 && e.t == now && e.kind == kind && e.level == level
               && (orderId == None || orderId == Some("") ==> e.orderId == None)
               && (orderId != None && orderId != Some("") ==> e.orderId == orderId)
               && (forall k :: k in e.detail <==> k in detail && detail[k] != Undefined && detail[k] != Null)
               && (forall k :: k in e.detail ==> e.detail[k] == detail[k])
  {
    var e := Event(w.number + 1, now, level, kind, NonEmpty(orderId), Clean(detail));
    CleanSays(detail);
    hide Clean;
    EnqueuedIs(w, Called(e), saves);
    var x := Enqueued(w, Called(e), saves);
    assert x.queue[|x.queue| - 1] == e && 1 <= |x.queue| <= 500;
    hide Enqueued, Longer;
  }

  lemma CleanSays(detail: Detail)
    ensures forall k :: k in Clean(detail) <==> k in detail && detail[k] != Undefined && detail[k] != Null
    ensures forall k :: k in Clean(detail) ==> Clean(detail)[k] == detail[k]
  {
  }

  // ---- When something is sent ----

  /** A fetch sets off exactly when there is something queued, none is out, the
      page is online, and it was neither stopped nor told to wait longer. */
  lemma FetchSetsOff(w: World, now: int, online: bool, saves: bool)
    ensures var x := Next(w, Flush(now, online, saves));
            && (!w.sending && x.sending <==> !w.stopped && !w.sending && w.queue != [] && online && now >= w.pausedUntil)
            && (w.sending || !x.sending ==> x == w)
  {
    hide Announced, NextOf;
  }

  /** A beacon does anything at all only when it may, on the same terms but for a
      fetch being out. */
  lemma BeaconSetsOff(w: World, now: int, online: bool, supported: bool, queued: bool, saves: bool)
    ensures var x := Next(w, Beacon(now, online, supported, queued, saves));
            x != w ==> !w.stopped && w.queue != [] && online && supported && now >= w.pausedUntil
  {
    hide Announced, NextOf;
  }

  // ---- What an answer does ----

  /** Every status, with the page offline so that no other fetch follows. */
  lemma AnswerDoes(w: World, status: nat, retryAfter: Option<int>, now: int, saves: bool, removes: bool)
    requires Inv(w) && w.sending
    ensures var x := Next(w, Resolve(Answered(status, retryAfter), now, false, saves, removes));
            && !x.sending && x.carrying == []
            && (200 <= status <= 299 ==>
                  && Numbers(x.queue) == Numbers(w.queue) - Numbers(w.carrying)
                  && x.ledger.acked == w.ledger.acked + NumberSeq(w.carrying) && x.ledger.refused == w.ledger.refused)
            && (status == 400 || status == 413 ==>
                  && Numbers(x.queue) == Numbers(w.queue) - Numbers(w.carrying)
                  && x.ledger.acked == w.ledger.acked && x.ledger.refused == w.ledger.refused + Numbers(w.carrying))
            && (status == 403 || status == 404 ==> x.stopped && x.queue == [] && (removes ==> x.storage == None))
            && (status != 403 && status != 404 ==> !x.stopped)
            && ((status < 200 || status > 299) && status !in {400, 403, 404, 413} ==>
                  x.queue == w.queue && x.ledger == w.ledger && x.storage == w.storage)
            && (status != 429 ==> x.pausedUntil == w.pausedUntil)
  {
    SendingRuns(w);
    CarriedLeaves(w);
    hide Inv, Without, Numbers, NumberSeq, PauseUntil;
  }

  /** A fetch that never came back leaves everything to be sent again. */
  lemma UnreachableDoes(w: World, now: int, online: bool, saves: bool, removes: bool)
    requires w.sending
    ensures var x := Next(w, Resolve(Unreachable, now, online, saves, removes));
            x == w.(sending := false, carrying := [], inFlightUpTo := 0)
  {
  }

  /** Once stopped, a page does nothing more. */
  lemma {:induction false} StoppedStays(w: World, more: seq<Input>)
    requires w.stopped && !w.sending && NoReload(more)
    ensures Run(w, more) == w
  {
    if more != [] { StoppedStays(w, more[..|more| - 1]); }
  }

  // ---- How long a pause is ----

  ghost predicate TooMany(input: Input) {
    input.Resolve? && input.outcome.Answered? && input.outcome.status == 429
  }

  /** Neither told to wait again nor reloaded. */
  ghost predicate NotPausedAgain(more: seq<Input>) {
    forall i :: 0 <= i < |more| ==> !TooMany(more[i]) && !more[i].Reload?
  }

  lemma EnqueuedPause(w: World, entry: Entry, saves: bool)
    ensures Enqueued(w, entry, saves).pausedUntil == w.pausedUntil
  {
    hide NumberSeq;
  }

  lemma AnnouncedPause(w: World, now: int, saves: bool)
    ensures Announced(w, now, saves).pausedUntil == w.pausedUntil
  {
    EnqueuedPause(w.(dropped := 0), ReportOf(w.number + 1, now, w.dropped), saves);
    hide Enqueued;
  }

  lemma FlushingPause(w: World, now: int, online: bool, saves: bool)
    ensures Flushing(w, now, online, saves).pausedUntil == w.pausedUntil
  {
    AnnouncedPause(w, now, saves);
    hide Announced, NextOf;
  }

  lemma NextPause(w: World, input: Input)
    requires !TooMany(input) && !input.Reload?
    ensures Next(w, input).pausedUntil == w.pausedUntil
  {
    hide Enqueued, Announced, Flushing, NextOf, Without, NumberSeq, Numbers;
    match input
    case Record(kind, orderId, detail, level, now, saves) =>
      EnqueuedPause(w, Called(Event(w.number + 1, now, level, kind, NonEmpty(orderId), Clean(detail))), saves);
    case Flush(now, online, saves) => FlushingPause(w, now, online, saves);
    case Beacon(now, online, supported, queued, saves) => AnnouncedPause(w, now, saves);
    case Resolve(outcome, now, online, saves, removes) =>
      if outcome.Answered? {
        FlushingPause(Landed(AnsweredBy(w, outcome.status, outcome.retryAfter, now, saves, removes)), now, online, saves);
      }
  }

  lemma {:induction false} PauseStays(w: World, more: seq<Input>)
    requires NotPausedAgain(more)
    ensures Run(w, more).pausedUntil == w.pausedUntil
  {
    if more != [] {
      PauseStays(w, more[..|more| - 1]);
      hide Next;
      NextPause(Run(w, more[..|more| - 1]), more[|more| - 1]);
    }
  }

  /** The step, at time `t`, sends a batch: a fetch from idle or after another, or a
      beacon. */
  ghost predicate Sends(w: World, input: Input, t: int) {
    match input
    case Flush(now, _, _) => now == t && !w.sending && Next(w, input).sending
    case Beacon(now, _, _, _, _) => now == t && Next(w, input) != w
    case Resolve(_, now, _, _, _) => now == t && w.sending && Next(w, input).sending
    case _ => false
  }

  lemma SendsInTime(w: World, input: Input, t: int)
    requires Sends(w, input, t) && !TooMany(input)
    ensures t >= w.pausedUntil
  {
    hide Announced, NextOf;
    match input
    case Flush(now, online, saves) => FetchSetsOff(w, now, online, saves);
    case Beacon(now, online, supported, queued, saves) => BeaconSetsOff(w, now, online, supported, queued, saves);
    case Resolve(outcome, now, online, saves, removes) =>
      AnsweredPause(w, outcome, now, saves, removes);
      hide AnsweredBy;
  }

  lemma AnsweredPause(w: World, outcome: Outcome, now: int, saves: bool, removes: bool)
    requires outcome.Answered? ==> outcome.status != 429
    ensures outcome.Answered? ==>
              AnsweredBy(w, outcome.status, outcome.retryAfter, now, saves, removes).pausedUntil == w.pausedUntil
  {
  }

  /** An answer of 429 at `now` pauses for as many seconds as its Retry-After says,
      or for 60 when it says nothing or nothing above zero. However the page goes on
      from there, until another 429 or a reload, nothing is sent before the pause is
      over; and from that very moment a flush sends, if one may. */
  lemma PausesFor(w: World, retryAfter: Option<int>, now: int, online: bool, saves: bool, removes: bool, more: seq<Input>)
    requires w.sending && NotPausedAgain(more)
    ensures var x := Next(w, Resolve(Answered(429, retryAfter), now, online, saves, removes));
            var r := Run(x, more);
            && (match retryAfter
                case Some(n) => r.pausedUntil == if n > 0 then now + 1000 * n else now + 60_000
                case None => r.pausedUntil == now + 60_000)
            && (forall input, t :: Sends(r, input, t) && !TooMany(input) ==> t >= r.pausedUntil)
            && (forall t, s :: !r.stopped && !r.sending && r.queue != [] && t >= r.pausedUntil ==>
                  Next(r, Flush(t, true, s)).sending)
  {
    var x := Next(w, Resolve(Answered(429, retryAfter), now, online, saves, removes));
    var r := Run(x, more);
    PauseStays(x, more);
    hide Run;
    forall input, t | Sends(r, input, t) && !TooMany(input) ensures t >= r.pausedUntil { SendsInTime(r, input, t); }
    forall t, s | !r.stopped && !r.sending && r.queue != [] && t >= r.pausedUntil
      ensures Next(r, Flush(t, true, s)).sending
    {
      FetchSetsOff(r, t, true, s);
    }
    hide Sends, TooMany;
  }
}
