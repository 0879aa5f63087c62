/** The POS session timeline: a bounded queue of numbered events, delivered by
    one fetch at a time and by beacons that may overtake it, with a copy kept
    in the page's session storage.

    `World` is the page's state, its saved copy and a ledger of what became of
    every event. The functions below are the page's atomic steps on a `World`;
    the class `Timeline` performs them in place. */
module PosTimeline {
  import opened Wrappers

  const MAX_QUEUED: nat := 500
  const BATCH: nat := 50

  datatype Level = Info | Warn | Error

  datatype Value = Undefined | Null | Text(s: string) | Number(n: int) | Flag(b: bool)

  type Detail = map<string, Value>

  datatype Event = Event(number: nat, t: int, level: Level, kind: string,
                         orderId: Option<string>, detail: Detail)

  /** What session storage holds. */
  datatype Stored = Stored(session: string, number: nat, queue: seq<Event>, dropped: nat)

  /** An event as it was recorded: by a caller, or by the timeline itself to
      say that `lost` events were dropped. */
  datatype Entry = Called(event: Event) | Report(event: Event, lost: nat)

  /** What became of this session's events: everything recorded, in order, and
      the numbers acknowledged by an answer (in order), handed to a beacon that the
      browser queued (in order; what the store answers is never heard), refused for
      good, spliced out of a full queue (in order) and forgotten when the timeline
      stopped. */
  datatype Ledger = Ledger(log: seq<Entry>, acked: seq<nat>, handed: seq<nat>, refused: set<nat>,
                           spliced: seq<nat>, forgotten: set<nat>)

  const EMPTY_LEDGER := Ledger([], [], [], {}, [], {})

  /** `carrying` is the batch of the suspended flush, empty when none is out. */
  datatype World = World(session: string, number: nat, queue: seq<Event>, dropped: nat,
                         stopped: bool, sending: bool, pausedUntil: int, inFlightUpTo: nat,
                         carrying: seq<Event>, storage: Option<Stored>, ledger: Ledger)
  {
    function Copy(): Stored {
      Stored(session, number, queue, dropped)
    }
  }

  /** How a fetch ends: answered with a status (and Retry-After, when it is a
      number), or not at all. */
  datatype Outcome = Answered(status: nat, retryAfter: Option<int>) | Unreachable

  /** What happens to the page, one atomic step each. `saves` and `removes` say
      whether session storage obeys during the step. */
  datatype Input =
    | Record(kind: string, orderId: Option<string>, detail: Detail, level: Level, now: int, saves: bool)
    | Flush(now: int, online: bool, saves: bool)
    | Resolve(outcome: Outcome, now: int, online: bool, saves: bool, removes: bool)
    | Beacon(now: int, online: bool, supported: bool, queued: bool, saves: bool)
    | Reload(session: string)

  // ---- Events and queues ----

  function Numbers(events: seq<Event>): set<nat> {
    set i | 0 <= i < |events| :: events[i].number
  }

  function NumberSeq(events: seq<Event>): seq<nat> {
    seq(|events|, i requires 0 <= i < |events| => events[i].number)
  }

  /** The events numbered after `after`. */
  function After(events: seq<Event>, after: nat): seq<Event> {
    if events == [] then []
    else (if events[0].number > after then [events[0]] else []) + After(events[1..], after)
  }

  /** The events whose number isn't in `done`. */
  function Without(events: seq<Event>, done: set<nat>): seq<Event> {
    if events == [] then []
    else (if events[0].number in done then [] else [events[0]]) + Without(events[1..], done)
  }

  /** The first of the queued events after `after`, at most a batch. */
  function NextOf(events: seq<Event>, after: nat): seq<Event> {
    var rest := After(events, after);
    if |rest| > BATCH then rest[..BATCH] else rest
  }

  predicate Said(v: Value) {
    !v.Undefined? && !v.Null?
  }

  function Clean(detail: Detail): Detail {
    map k | k in detail && Said(detail[k]) :: detail[k]
  }

  function NonEmpty(orderId: Option<string>): Option<string> {
    if orderId == Some("") then None else orderId
  }

  // ---- The steps ----

  function Saved(w: World, ok: bool): World {
    if ok then w.(storage := Some(w.Copy())) else w
  }

  /** `entry` joins the queue; past MAX_QUEUED the oldest are counted out. */
  function Enqueued(w: World, entry: Entry, saves: bool): World {
    var longer := w.queue + [entry.event];
    var excess := if |longer| > MAX_QUEUED then |longer| - MAX_QUEUED else 0;
    Saved(w.(number := w.number + 1, queue := longer[excess..], dropped := w.dropped + excess,
             ledger := w.ledger.(log := w.ledger.log + [entry],
                                 spliced := w.ledger.spliced + NumberSeq(longer[..excess]))),
          saves)
  }

  function Recorded(w: World, kind: string, orderId: Option<string>, detail: Detail, level: Level,
                    now: int, saves: bool): World
  {
    if w.stopped then w
    else Enqueued(w, Called(Event(w.number + 1, now, level, kind, NonEmpty(orderId), Clean(detail))), saves)
  }

  function ReportOf(number: nat, now: int, lost: nat): Entry {
    Report(Event(number, now, Warn, "timeline.dropped", None, map["events" := Number(lost)]), lost)
  }

  /** Any count of dropped events is turned into a report of it. */
  function Announced(w: World, now: int, saves: bool): World {
    if w.dropped == 0 then w
    else Enqueued(w.(dropped := 0), ReportOf(w.number + 1, now, w.dropped), saves)
  }

  function Sent(w: World, batch: seq<Event>, saves: bool): World {
    Saved(w.(queue := Without(w.queue, Numbers(batch))), saves)
  }

  predicate MayFlush(w: World, now: int, online: bool) {
    !w.stopped && !w.sending && w.queue != [] && online && now >= w.pausedUntil
  }

  function Flushing(w: World, now: int, online: bool, saves: bool): World {
    if !MayFlush(w, now, online) then w
    else
      var a := Announced(w, now, saves);
      var batch := NextOf(a.queue, 0);
      a.(sending := true, carrying := batch,
         inFlightUpTo := if batch == [] then 0 else batch[|batch| - 1].number)
  }

  /** The suspended flush is over, whatever its answer was. */
  function Landed(w: World): World {
    w.(sending := false, carrying := [], inFlightUpTo := 0)
  }

  predicate Accepts(status: nat) { 200 <= status < 300 }

  predicate Stops(status: nat) { status == 403 || status == 404 }

  predicate Refuses(status: nat) { status == 400 || status == 413 }

  function Delivered(w: World, saves: bool): World {
    var s := Sent(w, w.carrying, saves);
    s.(ledger := s.ledger.(acked := s.ledger.acked + NumberSeq(w.carrying)))
  }

  function Rejected(w: World, saves: bool): World {
    var s := Sent(w, w.carrying, saves);
    s.(ledger := s.ledger.(refused := s.ledger.refused + Numbers(w.carrying)))
  }

  function Stopped(w: World, removes: bool): World {
    w.(stopped := true, queue := [], storage := if removes then None else w.storage,
       ledger := w.ledger.(forgotten := w.ledger.forgotten + Numbers(w.queue)))
  }

  function PauseUntil(now: int, retryAfter: Option<int>): int {
    now + (if retryAfter.Some? && retryAfter.value > 0 then retryAfter.value else 60) * 1000
  }

  /** What an answered fetch does before the flush is over. */
  function AnsweredBy(w: World, status: nat, retryAfter: Option<int>, now: int, saves: bool, removes: bool): World {
    if Accepts(status) then Delivered(w, saves)
    else if status == 429 then w.(pausedUntil := PauseUntil(now, retryAfter))
    else if Stops(status) then Stopped(w, removes)
    else if Refuses(status) then Rejected(w, saves)
    else w
  }

  /** The rest of a suspended flush; an accepted batch sends for the next. */
  function Resolving(w: World, outcome: Outcome, now: int, online: bool, saves: bool, removes: bool): World {
    if !w.sending then w
    else if outcome.Unreachable? then Landed(w)
    else
      var l := Landed(AnsweredBy(w, outcome.status, outcome.retryAfter, now, saves, removes));
      if Accepts(outcome.status) && l.queue != [] then Flushing(l, now, online, saves) else l
  }

  function Beaconing(w: World, now: int, online: bool, supported: bool, queued: bool, saves: bool): World {
    if w.stopped || w.queue == [] || !online || now < w.pausedUntil || !supported then w
    else
      var a := Announced(w, now, saves);
      var batch := NextOf(a.queue, a.inFlightUpTo);
      if batch == [] || !queued then a
      else
        var s := Sent(a, batch, saves);
        s.(ledger := s.ledger.(handed := s.ledger.handed + NumberSeq(batch)))
  }

  /** A page opening on what the storage holds: the saved session goes on, or
      a new one begins with nothing recorded. A fetch that was out is no longer
      heard from. */
  function Opened(storage: Option<Stored>, session: string, ledger: Ledger): World {
    match storage
    case Some(s) => World(s.session, s.number, s.queue, s.dropped, false, false, 0, 0, [], storage, ledger)
    case None => World(session, 0, [], 0, false, false, 0, 0, [], None, EMPTY_LEDGER)
  }

  function Next(w: World, input: Input): World {
    match input
    case Record(kind, orderId, detail, level, now, saves) => Recorded(w, kind, orderId, detail, level, now, saves)
    case Flush(now, online, saves) => Flushing(w, now, online, saves)
    case Resolve(outcome, now, online, saves, removes) => Resolving(w, outcome, now, online, saves, removes)
    case Beacon(now, online, supported, queued, saves) => Beaconing(w, now, online, supported, queued, saves)
    case Reload(session) => Opened(w.storage, session, w.ledger)
  }

  function Run(w: World, inputs: seq<Input>): World {
    if inputs == [] then w
    else Next(Run(w, inputs[..|inputs| - 1]), inputs[|inputs| - 1])
  }

  // ---- The page's own code ----

  /** A detail's entries without the undefined and null ones. */
  method Cleaned(detail: Detail) returns (clean: Detail)
    ensures clean == Clean(detail)
  {
    clean := map[];
    var keys := detail.Keys;
    while keys != {}
      invariant keys <= detail.Keys
      invariant clean == map k | k in detail && k !in keys && Said(detail[k]) :: detail[k]
      decreases keys
    {
      var key :| key in keys;
      if Said(detail[key]) {
        clean := clean[key := detail[key]];
      }
      keys := keys - {key};
    }
  }

  /** The timeline of one terminal page. Each method is one uninterrupted turn
      of the page's event loop; `Flush` ends where the page awaits the fetch and
      `Resolve` is the rest of it. */
  class Timeline {
    var session: string
    var number: nat
    var queue: seq<Event>
    var dropped: nat
    var stopped: bool
    var sending: bool
    var pausedUntil: int
    var inFlightUpTo: nat
    var carrying: seq<Event>
    var storage: Option<Stored>
    ghost var ledger: Ledger

    ghost function View(): World
      reads this
    {
      World(session, number, queue, dropped, stopped, sending, pausedUntil, inFlightUpTo, carrying, storage, ledger)
    }

    /** Opens the page on what the storage holds; `account` is the account
        of the session so far. */
    constructor (newSession: string, stored: Option<Stored>, ghost account: Ledger)
      ensures View() == Opened(stored, newSession, account)
    {
      match stored {
        case Some(s) =>
          session, number, queue, dropped := s.session, s.number, s.queue, s.dropped;
          ledger := account;
        case None =>
          session, number, queue, dropped := newSession, 0, [], 0;
          ledger := EMPTY_LEDGER;
      }
      stopped, sending, pausedUntil, inFlightUpTo, carrying := false, false, 0, 0, [];
      storage := stored;
    }

    method Save(ok: bool)
      modifies this`storage
      ensures View() == Saved(old(View()), ok)
    {
      if ok {
        storage := Some(Stored(session, number, queue, dropped));
      }
    }

    /** The event joins the queue, which gives up its oldest past the bound. */
    method Push(event: Event, saves: bool, ghost entry: Entry)
      requires entry.event == event
      modifies this
      ensures View() == Enqueued(old(View()), entry, saves)
    {
      number := number + 1;
      queue := queue + [event];
      ghost var longer := queue;
      var excess := 0;
      if |queue| > MAX_QUEUED {
        excess := |queue| - MAX_QUEUED;
        queue := queue[excess..];
        dropped := dropped + excess;
      }
      ledger := ledger.(log := ledger.log + [entry], spliced := ledger.spliced + NumberSeq(longer[..excess]));
      Save(saves);
    }

    /** `lost` marks the timeline's own report, for the ledger alone. */
    method Append(kind: string, orderId: Option<string>, detail: Detail, level: Level, now: int, saves: bool,
                  ghost lost: Option<nat>)
      requires !stopped
      modifies this
      ensures var event := Event(old(number) + 1, now, level, kind, NonEmpty(orderId), Clean(detail));
              View() == Enqueued(old(View()), if lost.Some? then Report(event, lost.value) else Called(event), saves)
    {
      var clean := Cleaned(detail);
      var event := Event(number + 1, now, level, kind, if orderId == Some("") then None else orderId, clean);
      Push(event, saves, if lost.Some? then Report(event, lost.value) else Called(event));
    }

    method Record(kind: string, orderId: Option<string>, detail: Detail, level: Level, now: int, saves: bool)
      modifies this
      ensures View() == Recorded(old(View()), kind, orderId, detail, level, now, saves)
    {
      if stopped { return; }
      Append(kind, orderId, detail, level, now, saves, None);
    }

    method NextBatch(after: nat, now: int, saves: bool) returns (batch: seq<Event>)
      requires !stopped
      modifies this
      ensures View() == Announced(old(View()), now, saves)
      ensures batch == NextOf(queue, after)
    {
      if dropped != 0 {
        var lost := dropped;
        dropped := 0;
        var detail: Detail := map["events" := Number(lost)];
        assert Clean(detail) == detail;
        Append("timeline.dropped", None, detail, Warn, now, saves, Some(lost));
      }
      var rest := After(queue, after);
      batch := if |rest| > BATCH then rest[..BATCH] else rest;
    }

    method MarkSent(batch: seq<Event>, saves: bool)
      modifies this`queue, this`storage
      ensures View() == Sent(old(View()), batch, saves)
    {
      var done := set i | 0 <= i < |batch| :: batch[i].number;
      queue := Without(queue, done);
      Save(saves);
    }

    method Flush(now: int, online: bool, saves: bool)
      modifies this
      ensures View() == Flushing(old(View()), now, online, saves)
    {
      if stopped || sending || |queue| == 0 || !online || now < pausedUntil { return; }
      var batch := NextBatch(0, now, saves);
      sending := true;
      carrying := batch;
      inFlightUpTo := if |batch| == 0 then 0 else batch[|batch| - 1].number;
    }

    method Resolve(outcome: Outcome, now: int, online: bool, saves: bool, removes: bool)
      modifies this
      ensures View() == Resolving(old(View()), outcome, now, online, saves, removes)
    {
      if !sending { return; }
      ghost var before := View();
      var accepted := outcome.Answered? && 200 <= outcome.status < 300;
      if outcome.Answered? {
        Answer(outcome.status, outcome.retryAfter, now, saves, removes);
      }
      sending, inFlightUpTo, carrying := false, 0, [];
      assert View() == Landed(if outcome.Unreachable? then before
                              else AnsweredBy(before, outcome.status, outcome.retryAfter, now, saves, removes));
      if accepted && |queue| > 0 {
        Flush(now, online, saves);
      }
    }

    method Answer(status: nat, retryAfter: Option<int>, now: int, saves: bool, removes: bool)
      modifies this
      ensures View() == AnsweredBy(old(View()), status, retryAfter, now, saves, removes)
    {
      var batch := carrying;
      if 200 <= status < 300 {
        MarkSent(batch, saves);
        ledger := ledger.(acked := ledger.acked + NumberSeq(batch));
      } else if status == 429 {
        var seconds := if retryAfter.Some? then retryAfter.value else 0;
        pausedUntil := now + (if seconds > 0 then seconds else 60) * 1000;
      } else if status == 403 || status == 404 {
        stopped := true;
        ledger := ledger.(forgotten := ledger.forgotten + Numbers(queue));
        queue := [];
        if removes {
          storage := None;
        }
      } else if status == 400 || status == 413 {
        MarkSent(batch, saves);
        ledger := ledger.(refused := ledger.refused + Numbers(batch));
      }
    }

    method Beacon(now: int, online: bool, supported: bool, queued: bool, saves: bool)
      modifies this
      ensures View() == Beaconing(old(View()), now, online, supported, queued, saves)
    {
      if stopped || |queue| == 0 || !online || now < pausedUntil || !supported { return; }
      var batch := NextBatch(inFlightUpTo, now, saves);
      if |batch| == 0 { return; }
      if queued {
        MarkSent(batch, saves);
        ledger := ledger.(handed := ledger.handed + NumberSeq(batch));
      }
    }
  }
}
