/** What the POS session timeline keeps at every step of the page: each event is
    accounted for and leaves to be delivered once, and the queue keeps its shape.

    The invariant is a conjunction of small predicates, each over the parts of
    the state it is about; each step is shown to keep them one by one. */
module PosTimelineSafety {
  import opened Wrappers
  import opened PosTimeline

  // ---- The invariant ----

  ghost predicate Increasing(events: seq<Event>) {
    forall i, j :: 0 <= i < j < |events| ==> events[i].number < events[j].number
  }

  /** How many of the oldest events are numbered up to `upTo`. */
  ghost function CountUpTo(events: seq<Event>, upTo: nat): (c: nat)
    ensures c <= |events|
  {
    if events == [] || events[0].number > upTo then 0 else 1 + CountUpTo(events[1..], upTo)
  }

  /** Every event of `events` is one of the log's, unaltered. */
  ghost predicate Genuine(events: seq<Event>, log: seq<Entry>) {
    forall i :: 0 <= i < |events| ==>
      1 <= events[i].number <= |log| && log[events[i].number - 1].event == events[i]
  }

  ghost predicate Counted(number: nat, log: seq<Entry>) {
    && number == |log|
    && forall i :: 0 <= i < |log| ==> log[i].event.number == i + 1
  }

  ghost predicate QueueShape(queue: seq<Event>, log: seq<Entry>) {
    Increasing(queue) && |queue| <= MAX_QUEUED && Genuine(queue, log)
  }

  ghost function LastNumber(events: seq<Event>): nat {
    if events == [] then 0 else events[|events| - 1].number
  }

  /** A fetch carries a batch exactly while one is out; what is still queued of
      it is the newest part of the batch, at the front of the queue. */
  ghost predicate OneFlight(queue: seq<Event>, carrying: seq<Event>, sending: bool, upTo: nat, log: seq<Entry>) {
    && Increasing(carrying)
    && |carrying| <= BATCH
    && Genuine(carrying, log)
    && (sending <==> carrying != [])
    && upTo == LastNumber(carrying)
    && EndsWith(carrying, queue[..CountUpTo(queue, upTo)])
  }

  ghost predicate EndsWith(whole: seq<Event>, part: seq<Event>) {
    |part| <= |whole| && whole[|whole| - |part|..] == part
  }

  ghost predicate Ended(l: Ledger, n: nat) {
    n in l.acked || n in l.handed || n in l.refused || n in l.spliced || n in l.forgotten
  }

  /** Conservation: every number issued is queued or accounted for. */
  ghost predicate NothingLost(number: nat, queue: seq<Event>, l: Ledger) {
    forall n: nat :: 1 <= n <= number ==> n in Numbers(queue) || Ended(l, n)
  }

  ghost predicate Distinct(s: seq<nat>) {
    forall i, j :: 0 <= i < j < |s| ==> s[i] != s[j]
  }

  /** The numbers that left the page to be delivered: acknowledged, or handed to
      a beacon. */
  ghost function Left(l: Ledger): seq<nat> {
    l.acked + l.handed
  }

  /** A beacon is handed what was never dropped or forgotten, nor will be. */
  ghost predicate HandedApart(l: Ledger) {
    forall n :: n in l.handed ==> n !in l.spliced && n !in l.forgotten
  }

  /** What left the page to be delivered (`acked`, here) or was refused is over:
      once, and never queued or carried again. */
  ghost predicate Settled(number: nat, queue: seq<Event>, carrying: seq<Event>, acked: seq<nat>, refused: set<nat>) {
    && Distinct(acked)
    && (forall n :: n in acked ==> n !in refused)
    && (forall n :: n in acked || n in refused ==>
          1 <= n <= number && n !in Numbers(queue) && n !in Numbers(carrying))
  }

  ghost function Reported(log: seq<Entry>): nat {
    if log == [] then 0
    else Reported(log[..|log| - 1]) + (var last := log[|log| - 1]; if last.Report? then last.lost else 0)
  }

  ghost predicate Ascending(s: seq<nat>) {
    forall i, j :: 0 <= i < j < |s| ==> s[i] < s[j]
  }

  /** Events leave a full queue oldest first, each before all that is queued. */
  ghost predicate DroppedInOrder(spliced: seq<nat>, queue: seq<Event>, number: nat) {
    && Ascending(spliced)
    && (forall n :: n in spliced ==> 1 <= n <= number)
    && (forall n, i :: n in spliced && 0 <= i < |queue| ==> n < queue[i].number)
  }

  /** Every event dropped from a full queue is counted: in `dropped`, or in a
      report that was recorded. */
  ghost predicate DropsCounted(dropped: nat, spliced: seq<nat>, log: seq<Entry>) {
    |spliced| == dropped + Reported(log)
  }

  /** While drops are still to be reported, enough events wait behind any fetch
      that another batch follows and reports them. */
  ghost predicate DropsFollowed(dropped: nat, queue: seq<Event>, upTo: nat, stopped: bool) {
    dropped > 0 && !stopped ==> |queue| - CountUpTo(queue, upTo) >= MAX_QUEUED - 2 * BATCH
  }

  ghost predicate Quiet(stopped: bool, queue: seq<Event>, sending: bool, forgotten: set<nat>) {
    if stopped then queue == [] && !sending else forgotten == {}
  }

  ghost predicate Inv(w: World) {
    && Counted(w.number, w.ledger.log)
    && QueueShape(w.queue, w.ledger.log)
    && OneFlight(w.queue, w.carrying, w.sending, w.inFlightUpTo, w.ledger.log)
    && NothingLost(w.number, w.queue, w.ledger)
    && Settled(w.number, w.queue, w.carrying, Left(w.ledger), w.ledger.refused)
    && HandedApart(w.ledger)
    && DroppedInOrder(w.ledger.spliced, w.queue, w.number)
    && DropsCounted(w.dropped, w.ledger.spliced, w.ledger.log)
    && DropsFollowed(w.dropped, w.queue, w.inFlightUpTo, w.stopped)
    && Quiet(w.stopped, w.queue, w.sending, w.ledger.forgotten)
  }

  /** A reload would find this very state: saved, or nothing recorded yet, or
      stopped and removed. */
  ghost predicate Current(w: World) {
    if w.stopped then w.storage == None
    else w.storage == Some(w.Copy()) || (w.storage == None && w.number == 0 && w.queue == [] && w.dropped == 0)
  }

  // ---- Queues as prefixes and suffixes ----

  lemma {:induction false} CountSplits(events: seq<Event>, upTo: nat)
    requires Increasing(events)
    ensures var c := CountUpTo(events, upTo);
            (forall i :: 0 <= i < c ==> events[i].number <= upTo) &&
            (forall i :: c <= i < |events| ==> events[i].number > upTo)
  {
    if events != [] && events[0].number <= upTo {
      CountSplits(events[1..], upTo);
      var c := CountUpTo(events, upTo);
      forall i | 0 <= i < |events|
        ensures i < c ==> events[i].number <= upTo
        ensures i >= c ==> events[i].number > upTo
      {
        if i > 0 { assert events[i] == events[1..][i - 1]; }
      }
    }
  }

  lemma CountIs(events: seq<Event>, upTo: nat, c: nat)
    requires Increasing(events) && c <= |events|
    requires c > 0 ==> events[c - 1].number <= upTo
    requires c < |events| ==> events[c].number > upTo
    ensures CountUpTo(events, upTo) == c
  {
    CountSplits(events, upTo);
  }

  lemma {:induction false} AfterAll(events: seq<Event>, upTo: nat)
    requires forall i :: 0 <= i < |events| ==> events[i].number > upTo
    ensures After(events, upTo) == events
  {
    if events != [] {
      AfterAll(events[1..], upTo);
      assert events == [events[0]] + events[1..];
    }
  }

  lemma IncreasingRest(events: seq<Event>)
    requires Increasing(events) && events != []
    ensures Increasing(events[1..])
  {
  }

  lemma {:induction false} AfterDrops(events: seq<Event>, upTo: nat)
    requires Increasing(events)
    ensures After(events, upTo) == events[CountUpTo(events, upTo)..]
  {
    if events != [] {
      if events[0].number > upTo {
        CountSplits(events, upTo);
        AfterAll(events, upTo);
      } else {
        hide Increasing;
        IncreasingRest(events);
        AfterDrops(events[1..], upTo);
        assert events[1..][CountUpTo(events[1..], upTo)..] == events[CountUpTo(events, upTo)..];
      }
    }
  }

  lemma {:induction false} WithoutNone(events: seq<Event>, done: set<nat>)
    requires forall i :: 0 <= i < |events| ==> events[i].number !in done
    ensures Without(events, done) == events
  {
    if events != [] {
      WithoutNone(events[1..], done);
      assert events == [events[0]] + events[1..];
    }
  }

  lemma {:induction false} WithoutFirst(events: seq<Event>, done: set<nat>, b: nat)
    requires b <= |events|
    requires forall i :: 0 <= i < |events| ==> (events[i].number in done <==> i < b)
    ensures Without(events, done) == events[b..]
  {
    if b == 0 {
      WithoutNone(events, done);
    } else {
      WithoutFirst(events[1..], done, b - 1);
      assert events[1..][b - 1..] == events[b..];
    }
  }

  /** Taking out exactly the stretch from `a` to `b` leaves the two ends. */
  lemma {:induction false} WithoutStretch(events: seq<Event>, done: set<nat>, a: nat, b: nat)
    requires a <= b <= |events|
    requires forall i :: 0 <= i < |events| ==> (events[i].number in done <==> a <= i < b)
    ensures Without(events, done) == events[..a] + events[b..]
    decreases a
  {
    if a == 0 {
      WithoutFirst(events, done, b);
    } else {
      var rest := events[1..];
      forall i | 0 <= i < |rest| ensures rest[i].number in done <==> a - 1 <= i < b - 1 { assert rest[i] == events[i + 1]; }
      WithoutStretch(rest, done, a - 1, b - 1);
      assert [events[0]] + (rest[..a - 1] + rest[b - 1..]) == events[..a] + events[b..];
    }
  }

  lemma {:induction false} ReportedExtends(log: seq<Entry>, entry: Entry)
    ensures Reported(log + [entry]) == Reported(log) + if entry.Report? then entry.lost else 0
  {
    assert (log + [entry])[..|log|] == log;
  }

  lemma NumberSeqHolds(events: seq<Event>)
    ensures forall n :: n in NumberSeq(events) <==> n in Numbers(events)
    ensures Increasing(events) ==> Ascending(NumberSeq(events))
  {
    forall n | n in NumberSeq(events) ensures n in Numbers(events) {
      var i :| 0 <= i < |events| && NumberSeq(events)[i] == n;
      assert events[i] in events;
    }
    forall n | n in Numbers(events) ensures n in NumberSeq(events) {
      var i :| 0 <= i < |events| && events[i].number == n;
      assert NumberSeq(events)[i] == n;
    }
  }

  /** What is left of a queue without its stretch from `a` to `b`. */
  ghost function Outside(queue: seq<Event>, a: nat, b: nat): seq<Event>
    requires a <= b <= |queue|
  {
    queue[..a] + queue[b..]
  }

  lemma PartShape(queue: seq<Event>, log: seq<Entry>, a: nat, b: nat)
    requires QueueShape(queue, log) && a <= b <= |queue|
    ensures QueueShape(Outside(queue, a, b), log) && QueueShape(queue[a..b], log)
  {
  }

  lemma PartNumbers(queue: seq<Event>, a: nat, b: nat)
    requires a <= b <= |queue|
    ensures Numbers(queue) == Numbers(Outside(queue, a, b)) + Numbers(queue[a..b])
  {
    var part := Outside(queue, a, b);
    forall n | n in Numbers(queue) ensures n in Numbers(part) || n in Numbers(queue[a..b]) {
      var i :| 0 <= i < |queue| && queue[i].number == n;
      if i < a {
        assert part[i] == queue[i];
      } else if i < b {
        assert queue[a..b][i - a] == queue[i];
      } else {
        assert part[i - (b - a)] == queue[i];
      }
    }
  }

  lemma PartDisjoint(queue: seq<Event>, a: nat, b: nat)
    requires Increasing(queue) && a <= b <= |queue|
    ensures Numbers(Outside(queue, a, b)) !! Numbers(queue[a..b])
  {
    var part := Outside(queue, a, b);
    forall i, k | 0 <= i < |part| && 0 <= k < b - a ensures part[i].number != queue[a..b][k].number {
      assert part[i] == if i < a then queue[i] else queue[i + (b - a)];
      assert queue[a..b][k] == queue[a + k];
    }
  }

  // ---- Recording ----

  ghost function Excess(queue: seq<Event>): nat {
    if |queue| + 1 > MAX_QUEUED then 1 else 0
  }

  /** The numbers a full queue gives up for one more event. */
  ghost function Out(queue: seq<Event>): seq<nat> {
    if Excess(queue) == 1 then [queue[0].number] else []
  }

  ghost function Longer(queue: seq<Event>, event: Event): seq<Event>
    requires |queue| <= MAX_QUEUED
  {
    queue[Excess(queue)..] + [event]
  }

  lemma LongerShape(queue: seq<Event>, entry: Entry, log: seq<Entry>)
    requires QueueShape(queue, log) && entry.event.number == |log| + 1
    ensures QueueShape(Longer(queue, entry.event), log + [entry])
  {
  }

  lemma LongerCounted(number: nat, entry: Entry, log: seq<Entry>)
    requires Counted(number, log) && entry.event.number == number + 1
    ensures Counted(number + 1, log + [entry])
  {
  }

  lemma LongerNumbers(queue: seq<Event>, event: Event)
    requires |queue| <= MAX_QUEUED
    ensures Numbers(queue) + {event.number} == Numbers(Longer(queue, event)) + set n | n in Out(queue)
  {
    var longer := Longer(queue, event);
    forall n | n in Numbers(queue) ensures n in Numbers(longer) || n in Out(queue) {
      var i :| 0 <= i < |queue| && queue[i].number == n;
      if i >= Excess(queue) { assert longer[i - Excess(queue)] == queue[i]; }
    }
    assert longer[|longer| - 1] == event;
  }

  lemma LongerGenuine(events: seq<Event>, log: seq<Entry>, entry: Entry)
    requires Genuine(events, log)
    ensures Genuine(events, log + [entry])
  {
  }

  lemma GenuineNumbers(events: seq<Event>, log: seq<Entry>)
    requires Genuine(events, log)
    ensures forall n :: n in Numbers(events) ==> 1 <= n <= |log|
    ensures LastNumber(events) <= |log|
  {
  }

  lemma LongerCount(queue: seq<Event>, upTo: nat, event: Event)
    requires |queue| <= MAX_QUEUED && Increasing(queue) && Increasing(Longer(queue, event)) && upTo < event.number
    ensures var c := CountUpTo(queue, upTo);
            CountUpTo(Longer(queue, event), upTo) == if Excess(queue) == 1 && c > 0 then c - 1 else c
  {
    CountSplits(queue, upTo);
    var c := CountUpTo(queue, upTo);
    CountIs(Longer(queue, event), upTo, if Excess(queue) == 1 && c > 0 then c - 1 else c);
  }

  lemma EndsWithRest(whole: seq<Event>, part: seq<Event>)
    requires EndsWith(whole, part) && part != []
    ensures EndsWith(whole, part[1..])
  {
    assert whole[|whole| - |part|..][1..] == whole[|whole| - |part| + 1..];
  }

  lemma EndsWithNumbers(whole: seq<Event>, part: seq<Event>)
    requires EndsWith(whole, part)
    ensures Numbers(part) <= Numbers(whole)
  {
  }

  lemma LongerFlight(queue: seq<Event>, carrying: seq<Event>, sending: bool, upTo: nat, entry: Entry, log: seq<Entry>)
    requires QueueShape(queue, log) && entry.event.number == |log| + 1
    requires OneFlight(queue, carrying, sending, upTo, log)
    ensures OneFlight(Longer(queue, entry.event), carrying, sending, upTo, log + [entry])
    ensures var c := CountUpTo(queue, upTo);
            CountUpTo(Longer(queue, entry.event), upTo) == if Excess(queue) == 1 && c > 0 then c - 1 else c
  {
    LongerShape(queue, entry, log);
    GenuineNumbers(carrying, log);
    LongerCount(queue, upTo, entry.event);
    LongerGenuine(carrying, log, entry);
    var longer := Longer(queue, entry.event);
    var c := CountUpTo(queue, upTo);
    hide Increasing, Genuine, EndsWith;
    if Excess(queue) == 1 && c > 0 {
      assert longer[..c - 1] == queue[..c][1..];
      EndsWithRest(carrying, queue[..c]);
    } else {
      assert longer[..c] == queue[..c];
    }
  }

  lemma LongerLost(number: nat, queue: seq<Event>, l: Ledger, entry: Entry)
    requires |queue| <= MAX_QUEUED && entry.event.number == number + 1
    requires NothingLost(number, queue, l)
    ensures NothingLost(number + 1, Longer(queue, entry.event),
                        l.(log := l.log + [entry], spliced := l.spliced + Out(queue)))
  {
    LongerNumbers(queue, entry.event);
    var more := l.spliced + Out(queue);
    assert forall n :: n in l.spliced || n in Out(queue) ==> n in more;
    forall n: nat | 1 <= n <= number + 1
      ensures n in Numbers(Longer(queue, entry.event)) || n in l.acked || n in l.handed || n in l.refused || n in more || n in l.forgotten
    {
      assert n in Numbers(queue) + {number + 1} || Ended(l, n);
    }
  }

  lemma LongerDrops(number: nat, queue: seq<Event>, spliced: seq<nat>, event: Event)
    requires |queue| <= MAX_QUEUED && Increasing(queue) && event.number == number + 1
    requires forall i :: 0 <= i < |queue| ==> 1 <= queue[i].number <= number
    requires DroppedInOrder(spliced, queue, number)
    ensures DroppedInOrder(spliced + Out(queue), Longer(queue, event), number + 1)
  {
    var longer := Longer(queue, event);
    var more := spliced + Out(queue);
    assert forall n :: n in more <==> n in spliced || n in Out(queue);
    forall i, j | 0 <= i < j < |more| ensures more[i] < more[j] {
      if j == |spliced| {
        assert more[i] == spliced[i] && spliced[i] in spliced;
      }
    }
    forall n, i | n in more && 0 <= i < |longer| ensures n < longer[i].number {
      if i < |longer| - 1 {
        assert longer[i] == queue[i + Excess(queue)];
      }
    }
  }

  lemma LongerSettled(number: nat, queue: seq<Event>, carrying: seq<Event>,
                      acked: seq<nat>, refused: set<nat>, entry: Entry)
    requires |queue| <= MAX_QUEUED && entry.event.number == number + 1
    requires Settled(number, queue, carrying, acked, refused)
    ensures Settled(number + 1, Longer(queue, entry.event), carrying, acked, refused)
  {
    LongerNumbers(queue, entry.event);
    assert Numbers(Longer(queue, entry.event)) <= Numbers(queue) + {number + 1};
    hide Longer, Numbers;
  }

  /** What a full queue gives up was queued, and so never handed to a beacon. */
  lemma LongerApart(number: nat, queue: seq<Event>, carrying: seq<Event>, l: Ledger, entry: Entry)
    requires HandedApart(l) && Settled(number, queue, carrying, Left(l), l.refused)
    ensures HandedApart(l.(log := l.log + [entry], spliced := l.spliced + Out(queue)))
  {
    assert Out(queue) != [] ==> queue[0].number in Numbers(queue);
    hide Numbers;
    assert forall n :: n in l.handed ==> n in Left(l);
  }

  lemma GenuineIndices(events: seq<Event>, log: seq<Entry>)
    requires Genuine(events, log)
    ensures forall i :: 0 <= i < |events| ==> 1 <= events[i].number <= |log|
  {
  }

  /** What enqueuing an entry comes to while the queue is within its bound. */
  lemma EnqueuedIs(w: World, entry: Entry, saves: bool)
    requires |w.queue| <= MAX_QUEUED
    ensures var e := Enqueued(w, entry, saves);
            e == Saved(w.(number := w.number + 1, queue := Longer(w.queue, entry.event),
                          dropped := w.dropped + Excess(w.queue),
                          ledger := w.ledger.(log := w.ledger.log + [entry], spliced := w.ledger.spliced + Out(w.queue))), saves)
  {
    hide Saved, NumberSeq, Out, Longer;
    LongerIs(w.queue, entry.event);
  }

  lemma LongerIs(queue: seq<Event>, event: Event)
    requires |queue| <= MAX_QUEUED
    ensures (queue + [event])[Excess(queue)..] == Longer(queue, event)
    ensures NumberSeq((queue + [event])[..Excess(queue)]) == Out(queue)
  {
  }

  /** The drops stay counted, a report making up for the `owed` ones the count
      gave up for it, and stay followed by enough events. */
  lemma LongerCounts(w: World, entry: Entry, owed: nat)
    requires Counted(w.number, w.ledger.log) && QueueShape(w.queue, w.ledger.log) && entry.event.number == w.number + 1
    requires OneFlight(w.queue, w.carrying, w.sending, w.inFlightUpTo, w.ledger.log)
    requires owed == if entry.Report? then entry.lost else 0
    requires DropsCounted(w.dropped + owed, w.ledger.spliced, w.ledger.log)
    requires DropsFollowed(w.dropped + owed, w.queue, w.inFlightUpTo, w.stopped)
    ensures DropsCounted(w.dropped + Excess(w.queue), w.ledger.spliced + Out(w.queue), w.ledger.log + [entry])
    ensures DropsFollowed(w.dropped + Excess(w.queue), Longer(w.queue, entry.event), w.inFlightUpTo, w.stopped)
  {
    ReportedExtends(w.ledger.log, entry);
    LongerFlight(w.queue, w.carrying, w.sending, w.inFlightUpTo, entry, w.ledger.log);
  }

  /** Enqueuing keeps the invariant, `owed` as above. */
  lemma EnqueuedKeeps(w: World, entry: Entry, saves: bool, owed: nat)
    requires Inv(w.(dropped := w.dropped + owed)) && !w.stopped
    requires entry.event.number == w.number + 1
    requires owed == if entry.Report? then entry.lost else 0
    ensures Inv(Enqueued(w, entry, saves))
    ensures Enqueued(w, entry, saves).queue != []
    ensures var e := Enqueued(w, entry, saves); e.dropped > w.dropped ==> |e.queue| == MAX_QUEUED
  {
    hide OneFlight, NothingLost, Settled, DroppedInOrder, DropsCounted, DropsFollowed, Genuine, Increasing;
    assert |w.queue| <= MAX_QUEUED && w.number == |w.ledger.log|;
    EnqueuedIs(w, entry, saves);
    LongerShape(w.queue, entry, w.ledger.log);
    LongerCounted(w.number, entry, w.ledger.log);
    LongerFlight(w.queue, w.carrying, w.sending, w.inFlightUpTo, entry, w.ledger.log);
    LongerLost(w.number, w.queue, w.ledger, entry);
    GenuineIndices(w.queue, w.ledger.log);
    LongerDrops(w.number, w.queue, w.ledger.spliced, entry.event);
    LongerApart(w.number, w.queue, w.carrying, w.ledger, entry);
    LongerSettled(w.number, w.queue, w.carrying, Left(w.ledger), w.ledger.refused, entry);
    LongerCounts(w, entry, owed);
  }

  lemma AnnouncedKeeps(w: World, now: int, saves: bool)
    requires Inv(w) && !w.stopped && w.queue != []
    ensures var a := Announced(w, now, saves);
            Inv(a) && !a.stopped && a.queue != [] && (a.dropped > 0 ==> |a.queue| == MAX_QUEUED)
  {
    hide Inv;
    if w.dropped != 0 {
      var z := w.(dropped := 0);
      assert z.(dropped := z.dropped + w.dropped) == w;
      EnqueuedKeeps(z, ReportOf(w.number + 1, now, w.dropped), saves, w.dropped);
    }
  }

  // ---- Fetches ----

  /** A run of a queue between two bounds on the numbers, and no other event
      with such a number: taking its numbers out takes out just the run. */
  lemma RunGoes(queue: seq<Event>, done: set<nat>, a: nat, b: nat)
    requires Increasing(queue) && a <= b <= |queue|
    requires Numbers(queue[a..b]) <= done && done !! Numbers(Outside(queue, a, b))
    ensures Without(queue, done) == Outside(queue, a, b)
  {
    var part := Outside(queue, a, b);
    forall i | 0 <= i < |queue| ensures queue[i].number in done <==> a <= i < b {
      if a <= i < b {
        assert queue[a..b][i - a] == queue[i];
      } else {
        assert part[if i < a then i else i - (b - a)] == queue[i];
      }
    }
    WithoutStretch(queue, done, a, b);
  }

  lemma UpToLast(events: seq<Event>)
    requires Increasing(events)
    ensures forall n :: n in Numbers(events) ==> n <= LastNumber(events)
  {
  }

  lemma BehindNumbers(queue: seq<Event>, upTo: nat)
    requires Increasing(queue)
    ensures forall n :: n in Numbers(queue[CountUpTo(queue, upTo)..]) ==> n > upTo
  {
    CountSplits(queue, upTo);
  }

  /** What a fetch carried and is still queued is the front of the queue. */
  lemma CarriedGoes(queue: seq<Event>, carrying: seq<Event>, sending: bool, upTo: nat, log: seq<Entry>)
    requires QueueShape(queue, log) && OneFlight(queue, carrying, sending, upTo, log)
    ensures var c := CountUpTo(queue, upTo);
            Without(queue, Numbers(carrying)) == Outside(queue, 0, c) == queue[c..] &&
            Numbers(queue[0..c]) <= Numbers(carrying) && Numbers(queue[c..]) !! Numbers(carrying)
  {
    var c := CountUpTo(queue, upTo);
    assert queue[0..c] == queue[..c] && Outside(queue, 0, c) == queue[c..];
    EndsWithNumbers(carrying, queue[..c]);
    BehindNumbers(queue, upTo);
    UpToLast(carrying);
    hide Numbers, Outside, Genuine, Increasing, EndsWith, Without;
    RunGoes(queue, Numbers(carrying), 0, c);
  }

  /** A fetch that is over and leaves the queue as it was. */
  lemma LandedKeeps(w: World, paused: int)
    requires Inv(w)
    ensures Inv(Landed(w.(pausedUntil := paused)))
  {
    CountSplits(w.queue, w.inFlightUpTo);
    NothingCarried(w.queue, w.ledger.log);
    SettledLess(w.number, w.queue, w.carrying, Left(w.ledger), w.ledger.refused, w.queue, []);
    hide QueueShape, NothingLost, Settled, DroppedInOrder, DropsCounted, OneFlight, Counted;
  }

  lemma NothingCarried(queue: seq<Event>, log: seq<Entry>)
    requires QueueShape(queue, log)
    ensures OneFlight(queue, [], false, 0, log) && CountUpTo(queue, 0) == 0
  {
  }

  lemma SettledLess(number: nat, queue: seq<Event>, carrying: seq<Event>, acked: seq<nat>, refused: set<nat>,
                    part: seq<Event>, carried: seq<Event>)
    requires Settled(number, queue, carrying, acked, refused)
    requires Numbers(part) <= Numbers(queue) && Numbers(carried) <= Numbers(carrying) + Numbers(queue)
    ensures Settled(number, part, carried, acked, refused)
  {
  }

  /** A batch that was queued or carried, and is neither any more, ends once. */
  lemma SettledMore(number: nat, queue: seq<Event>, carrying: seq<Event>, acked: seq<nat>, refused: set<nat>,
                    part: seq<Event>, carried: seq<Event>, batch: seq<Event>)
    requires Settled(number, queue, carrying, acked, refused)
    requires Increasing(batch) && forall n :: n in Numbers(batch) ==> 1 <= n <= number
    requires Numbers(part) <= Numbers(queue) && Numbers(carried) <= Numbers(carrying)
    requires Numbers(batch) <= Numbers(queue) + Numbers(carrying)
    requires Numbers(batch) !! Numbers(part) && Numbers(batch) !! Numbers(carried)
    ensures Settled(number, part, carried, acked + NumberSeq(batch), refused)
    ensures Settled(number, part, carried, acked, refused + Numbers(batch))
  {
    NumberSeqHolds(batch);
    var more := acked + NumberSeq(batch);
    assert Ascending(NumberSeq(batch));
    assert forall n :: n in more <==> n in acked || n in Numbers(batch);
    forall i, j | 0 <= i < j < |more| ensures more[i] != more[j] {
      if i < |acked| <= j {
        assert more[i] in acked && more[j] in NumberSeq(batch);
      }
    }
  }

  /** In whatever order what left the page is written. */
  lemma SettledSwap(number: nat, queue: seq<Event>, carrying: seq<Event>,
                    a: seq<nat>, b: seq<nat>, c: seq<nat>, refused: set<nat>)
    requires Settled(number, queue, carrying, a + b + c, refused)
    ensures Settled(number, queue, carrying, a + c + b, refused)
  {
    var from, to := a + b + c, a + c + b;
    assert forall n :: n in to <==> n in from;
    forall i, j | 0 <= i < j < |to| ensures to[i] != to[j] {
      assert to[i] == from[Swapped(|a|, |b|, |c|, i)] && to[j] == from[Swapped(|a|, |b|, |c|, j)];
    }
  }

  ghost function Swapped(a: nat, b: nat, c: nat, i: nat): nat {
    if i < a then i else if i < a + c then i + b else if i < a + b + c then i - c else i
  }

  lemma LostLess(number: nat, queue: seq<Event>, l: Ledger, part: seq<Event>, batch: seq<Event>)
    requires NothingLost(number, queue, l)
    requires Numbers(queue) <= Numbers(part) + Numbers(batch)
    ensures NothingLost(number, part, l.(acked := l.acked + NumberSeq(batch)))
    ensures NothingLost(number, part, l.(handed := l.handed + NumberSeq(batch)))
    ensures NothingLost(number, part, l.(refused := l.refused + Numbers(batch)))
  {
    NumberSeqHolds(batch);
    assert forall n :: n in l.acked || n in Numbers(batch) ==> n in l.acked + NumberSeq(batch);
    assert forall n :: n in l.handed || n in Numbers(batch) ==> n in l.handed + NumberSeq(batch);
    forall n: nat | 1 <= n <= number
      ensures n in Numbers(part) || n in Numbers(batch) || Ended(l, n)
    {
      assert n in Numbers(queue) || Ended(l, n);
    }
  }

  lemma DroppedLess(spliced: seq<nat>, queue: seq<Event>, number: nat, part: seq<Event>)
    requires DroppedInOrder(spliced, queue, number)
    requires Numbers(part) <= Numbers(queue)
    ensures DroppedInOrder(spliced, part, number)
  {
    forall n, i | n in spliced && 0 <= i < |part| ensures n < part[i].number {
      assert part[i].number in Numbers(part);
      var j :| 0 <= j < |queue| && queue[j].number == part[i].number;
    }
  }

  /** The queue behind a fetch, once the fetch's own events are off it. */
  ghost function Behind(w: World): seq<Event> {
    w.queue[CountUpTo(w.queue, w.inFlightUpTo)..]
  }

  lemma DeliveredKeeps(w: World, saves: bool)
    requires Inv(w) && w.sending && !w.stopped
    ensures Inv(Landed(Delivered(w, saves))) && Inv(Landed(Rejected(w, saves)))
    ensures Delivered(w, saves).queue == Behind(w)
  {
    hide Increasing, Genuine, NothingLost, Settled, DroppedInOrder, DropsCounted, Counted, NumberSeq, EndsWith, Without;
    assert Numbers([]) == {};
    hide Numbers;
    var c := CountUpTo(w.queue, w.inFlightUpTo);
    var part := Behind(w);
    var l := w.ledger;
    assert w.number == |l.log| by { CountedLength(w.number, l.log); }
    CarriedGoes(w.queue, w.carrying, w.sending, w.inFlightUpTo, l.log);
    PartShape(w.queue, l.log, 0, c);
    PartNumbers(w.queue, 0, c);
    GenuineNumbers(w.carrying, l.log);
    SettledMore(w.number, w.queue, w.carrying, Left(l), l.refused, part, [], w.carrying);
    SettledSwap(w.number, part, [], l.acked, l.handed, NumberSeq(w.carrying), l.refused);
    LostLess(w.number, w.queue, l, part, w.carrying);
    DroppedLess(l.spliced, w.queue, w.number, part);
    NothingCarried(part, l.log);
    hide OneFlight, QueueShape;
  }

  lemma CountedLength(number: nat, log: seq<Entry>)
    requires Counted(number, log)
    ensures number == |log|
  {
  }

  lemma StoppedKeeps(w: World, removes: bool)
    requires Inv(w)
    ensures Inv(Landed(Stopped(w, removes)))
  {
    hide QueueShape, OneFlight, NothingLost, Settled, DroppedInOrder, DropsCounted, Counted, Numbers, Ended;
    EmptyQueue(w.ledger.log);
    SettledLess(w.number, w.queue, w.carrying, Left(w.ledger), w.ledger.refused, [], []);
    DroppedLess(w.ledger.spliced, w.queue, w.number, []);
    NothingCarried([], w.ledger.log);
    AllForgotten(w.number, w.queue, w.ledger);
    assert forall n :: n in w.ledger.handed ==> n in Left(w.ledger);
    assert HandedApart(w.ledger.(forgotten := w.ledger.forgotten + Numbers(w.queue))) by {
      SettledIs(w.number, w.queue, w.carrying, Left(w.ledger), w.ledger.refused);
    }
  }

  lemma SettledIs(number: nat, queue: seq<Event>, carrying: seq<Event>, acked: seq<nat>, refused: set<nat>)
    requires Settled(number, queue, carrying, acked, refused)
    ensures forall n :: n in acked ==> n !in Numbers(queue)
  {
  }

  lemma EmptyQueue(log: seq<Entry>)
    ensures QueueShape([], log) && Numbers([]) == {}
  {
  }

  lemma AllForgotten(number: nat, queue: seq<Event>, l: Ledger)
    requires NothingLost(number, queue, l)
    ensures NothingLost(number, [], l.(forgotten := l.forgotten + Numbers(queue)))
  {
    hide Numbers;
  }

  lemma SendingRuns(w: World)
    requires Inv(w)
    ensures w.sending ==> !w.stopped
  {
    hide QueueShape, OneFlight, NothingLost, Settled, DroppedInOrder, DropsCounted, DropsFollowed, Counted;
  }

  lemma AnsweredKeeps(w: World, status: nat, retryAfter: Option<int>, now: int, saves: bool, removes: bool)
    requires Inv(w) && w.sending
    ensures Inv(Landed(AnsweredBy(w, status, retryAfter, now, saves, removes)))
  {
    hide Inv;
    SendingRuns(w);
    if Accepts(status) || Refuses(status) {
      DeliveredKeeps(w, saves);
    } else if Stops(status) {
      StoppedKeeps(w, removes);
    } else {
      LandedKeeps(w, if status == 429 then PauseUntil(now, retryAfter) else w.pausedUntil);
    }
  }

  /** The batch a fetch or a beacon takes is the queue's next stretch after the
      one a fetch is carrying, at most a batch long, and shares nothing with it. */
  lemma NextBatchIs(queue: seq<Event>, carrying: seq<Event>, sending: bool, upTo: nat, log: seq<Entry>)
    requires QueueShape(queue, log) && OneFlight(queue, carrying, sending, upTo, log)
    ensures var c := CountUpTo(queue, upTo);
            var batch := NextOf(queue, upTo);
            |batch| == (if |queue| - c > BATCH then BATCH else |queue| - c) && batch == queue[c..c + |batch|]
    ensures Numbers(NextOf(queue, upTo)) !! Numbers(carrying)
    ensures var c := CountUpTo(queue, upTo);
            var batch := NextOf(queue, upTo);
            Without(queue, Numbers(batch)) == Outside(queue, c, c + |batch|)
  {
    hide Genuine, Numbers, Outside, Without, NextOf, CountUpTo, EndsWith;
    BatchStretch(queue, upTo);
    BatchUncarried(queue, carrying, upTo);
    var c := CountUpTo(queue, upTo);
    var batch := NextOf(queue, upTo);
    PartDisjoint(queue, c, c + |batch|);
    RunGoes(queue, Numbers(batch), c, c + |batch|);
  }

  lemma BatchStretch(queue: seq<Event>, upTo: nat)
    requires Increasing(queue)
    ensures var c := CountUpTo(queue, upTo);
            var batch := NextOf(queue, upTo);
            |batch| == (if |queue| - c > BATCH then BATCH else |queue| - c) && batch == queue[c..c + |batch|]
  {
    AfterDrops(queue, upTo);
    var c := CountUpTo(queue, upTo);
    var batch := NextOf(queue, upTo);
    assert batch == queue[c..][..|batch|];
  }

  lemma BatchUncarried(queue: seq<Event>, carrying: seq<Event>, upTo: nat)
    requires Increasing(queue) && Increasing(carrying) && upTo == LastNumber(carrying)
    ensures Numbers(NextOf(queue, upTo)) !! Numbers(carrying)
  {
    BatchStretch(queue, upTo);
    BehindNumbers(queue, upTo);
    UpToLast(carrying);
    var c := CountUpTo(queue, upTo);
    var n := |NextOf(queue, upTo)|;
    PrefixNumbers(queue[c..], n);
    assert NextOf(queue, upTo) == queue[c..][..n];
    hide Numbers, NextOf, CountUpTo, Increasing;
  }

  lemma PrefixNumbers(events: seq<Event>, n: nat)
    requires n <= |events|
    ensures Numbers(events[..n]) <= Numbers(events)
  {
  }

  lemma TakenFlight(queue: seq<Event>, log: seq<Entry>, n: nat)
    requires QueueShape(queue, log) && 0 < n <= |queue| && n <= BATCH
    ensures OneFlight(queue, queue[..n], true, LastNumber(queue[..n]), log)
    ensures CountUpTo(queue, LastNumber(queue[..n])) == n
    ensures Numbers(queue[..n]) <= Numbers(queue)
  {
    assert queue[..n] == queue[0..n];
    PartShape(queue, log, 0, n);
    CountIs(queue, queue[n - 1].number, n);
    PrefixNumbers(queue, n);
    hide Increasing, Genuine, Numbers;
  }

  lemma FlushingKeeps(w: World, now: int, online: bool, saves: bool)
    requires Inv(w)
    ensures Inv(Flushing(w, now, online, saves))
    ensures MayFlush(w, now, online) ==>
              var f := Flushing(w, now, online, saves);
              var n := if |f.queue| > BATCH then BATCH else |f.queue|;
              f.sending && n > 0 && f.carrying == f.queue[..n] && f.queue == Announced(w, now, saves).queue
  {
    if MayFlush(w, now, online) {
      AnnouncedKeeps(w, now, saves);
      TakenKeeps(Announced(w, now, saves));
      hide Inv, Announced, NextOf;
    }
  }

  /** A queue's oldest events, at most a batch, set off. */
  ghost function Taken(a: World): World {
    var batch := NextOf(a.queue, 0);
    a.(sending := true, carrying := batch, inFlightUpTo := LastNumber(batch))
  }

  lemma TakenKeeps(a: World)
    requires Inv(a) && !a.stopped && !a.sending && a.queue != []
    requires a.dropped > 0 ==> |a.queue| == MAX_QUEUED
    ensures Inv(Taken(a))
    ensures var n := if |a.queue| > BATCH then BATCH else |a.queue|; Taken(a).carrying == a.queue[..n]
  {
    hide Increasing, Genuine, NothingLost, Settled, DroppedInOrder, DropsCounted, Counted, EndsWith, Numbers;
    NothingCarried(a.queue, a.ledger.log);
    NextBatchIs(a.queue, [], false, 0, a.ledger.log);
    var batch := NextOf(a.queue, 0);
    assert batch == a.queue[..|batch|];
    TakenFlight(a.queue, a.ledger.log, |batch|);
    SettledLess(a.number, a.queue, a.carrying, Left(a.ledger), a.ledger.refused, a.queue, batch);
    hide OneFlight, QueueShape, NextOf;
  }

  // ---- Beacons ----

  lemma BeaconCount(queue: seq<Event>, upTo: nat, n: nat)
    requires Increasing(queue) && CountUpTo(queue, upTo) + n <= |queue|
    ensures var c := CountUpTo(queue, upTo); CountUpTo(Outside(queue, c, c + n), upTo) == c
  {
    var c := CountUpTo(queue, upTo);
    CountSplits(queue, upTo);
    CountIs(Outside(queue, c, c + n), upTo, c);
    hide CountUpTo;
  }

  lemma OutsideStarts(queue: seq<Event>, a: nat, b: nat)
    requires a <= b <= |queue|
    ensures Outside(queue, a, b)[..a] == queue[..a]
  {
  }

  lemma BeaconFlight(queue: seq<Event>, carrying: seq<Event>, sending: bool, upTo: nat, log: seq<Entry>, n: nat)
    requires QueueShape(queue, log) && OneFlight(queue, carrying, sending, upTo, log)
    requires CountUpTo(queue, upTo) + n <= |queue|
    ensures var c := CountUpTo(queue, upTo);
            var part := Outside(queue, c, c + n);
            OneFlight(part, carrying, sending, upTo, log) && CountUpTo(part, upTo) == c
  {
    hide Increasing, Genuine, EndsWith, CountUpTo, Outside;
    var c := CountUpTo(queue, upTo);
    BeaconCount(queue, upTo, n);
    OutsideStarts(queue, c, c + n);
  }

  lemma FlightBound(queue: seq<Event>, carrying: seq<Event>, sending: bool, upTo: nat, log: seq<Entry>)
    requires OneFlight(queue, carrying, sending, upTo, log)
    ensures CountUpTo(queue, upTo) <= BATCH
  {
  }

  lemma QueueIs(queue: seq<Event>, log: seq<Entry>)
    requires QueueShape(queue, log)
    ensures Increasing(queue) && |queue| <= MAX_QUEUED && Genuine(queue, log)
  {
  }

  /** All that a beacon's batch leaving the queue changes, part by part. */
  lemma BeaconParts(a: World, batch: seq<Event>)
    requires Inv(a) && !a.stopped && batch == NextOf(a.queue, a.inFlightUpTo)
    ensures var c := CountUpTo(a.queue, a.inFlightUpTo);
            var l := a.ledger;
            && c + |batch| <= |a.queue| && c <= BATCH && |batch| <= BATCH
            && var part := Outside(a.queue, c, c + |batch|);
               && Without(a.queue, Numbers(batch)) == part && |part| == |a.queue| - |batch|
               && QueueShape(part, l.log)
               && OneFlight(part, a.carrying, a.sending, a.inFlightUpTo, l.log) && CountUpTo(part, a.inFlightUpTo) == c
               && NothingLost(a.number, part, l.(handed := l.handed + NumberSeq(batch)))
               && Settled(a.number, part, a.carrying, l.acked + (l.handed + NumberSeq(batch)), l.refused)
               && HandedApart(l.(handed := l.handed + NumberSeq(batch)))
               && DroppedInOrder(l.spliced, part, a.number)
  {
    hide QueueShape, OneFlight, Increasing, Genuine, NothingLost, Settled, DroppedInOrder, DropsCounted, Counted,
         NumberSeq, Without, CountUpTo, NextOf, Numbers, DropsFollowed;
    var c := CountUpTo(a.queue, a.inFlightUpTo);
    var l := a.ledger;
    CountedLength(a.number, l.log);
    QueueIs(a.queue, l.log);
    NextBatchIs(a.queue, a.carrying, a.sending, a.inFlightUpTo, l.log);
    var part := Outside(a.queue, c, c + |batch|);
    PartShape(a.queue, l.log, c, c + |batch|);
    QueueIs(batch, l.log);
    PartNumbers(a.queue, c, c + |batch|);
    PartDisjoint(a.queue, c, c + |batch|);
    BeaconFlight(a.queue, a.carrying, a.sending, a.inFlightUpTo, l.log, |batch|);
    GenuineNumbers(a.queue, l.log);
    FlightBound(a.queue, a.carrying, a.sending, a.inFlightUpTo, l.log);
    SettledMore(a.number, a.queue, a.carrying, Left(l), l.refused, part, a.carrying, batch);
    assert Left(l) + NumberSeq(batch) == l.acked + (l.handed + NumberSeq(batch));
    BeaconApart(l, a.queue, a.number, batch);
    LostLess(a.number, a.queue, l, part, batch);
    DroppedLess(l.spliced, a.queue, a.number, part);
  }

  lemma BeaconApart(l: Ledger, queue: seq<Event>, number: nat, batch: seq<Event>)
    requires HandedApart(l) && DroppedInOrder(l.spliced, queue, number) && l.forgotten == {}
    requires Numbers(batch) <= Numbers(queue)
    ensures HandedApart(l.(handed := l.handed + NumberSeq(batch)))
  {
    NumberSeqHolds(batch);
    assert forall n :: n in l.handed + NumberSeq(batch) <==> n in l.handed || n in Numbers(batch);
    forall n | n in Numbers(batch) ensures n !in l.spliced {
      var i :| 0 <= i < |queue| && queue[i].number == n;
    }
  }

  lemma BeaconKeeps(a: World, batch: seq<Event>, saves: bool)
    requires Inv(a) && !a.stopped
    requires batch == NextOf(a.queue, a.inFlightUpTo)
    requires a.dropped > 0 ==> |a.queue| == MAX_QUEUED
    ensures var s := Sent(a, batch, saves);
            Inv(s.(ledger := s.ledger.(handed := s.ledger.handed + NumberSeq(batch))))
  {
    hide QueueShape, OneFlight, NothingLost, Settled, DroppedInOrder, DropsCounted, Counted,
         NumberSeq, Without, CountUpTo, NextOf, Numbers, Outside;
    BeaconParts(a, batch);
  }

  lemma BeaconingKeeps(w: World, now: int, online: bool, supported: bool, queued: bool, saves: bool)
    requires Inv(w)
    ensures Inv(Beaconing(w, now, online, supported, queued, saves))
  {
    hide Inv;
    if !w.stopped && w.queue != [] {
      AnnouncedKeeps(w, now, saves);
      var a := Announced(w, now, saves);
      BeaconKeeps(a, NextOf(a.queue, a.inFlightUpTo), saves);
    }
  }

  // ---- Every run ----

  lemma OpenedKeeps(w: World, session: string)
    requires Inv(w) && Current(w)
    ensures Inv(Opened(w.storage, session, w.ledger))
  {
    if w.storage.Some? {
      hide Inv;
      ReopenedKeeps(w);
    } else {
      NothingYet(session);
    }
  }

  lemma NothingYet(session: string)
    ensures Inv(World(session, 0, [], 0, false, false, 0, 0, [], None, EMPTY_LEDGER))
  {
    hide QueueShape, OneFlight, Numbers, Settled, NothingLost, DroppedInOrder, DropsCounted, CountUpTo, Counted;
    EmptyQueue([]);
    NothingCarried([], []);
    NothingRecorded();
    assert Left(EMPTY_LEDGER) == [];
  }

  lemma NothingRecorded()
    ensures Counted(0, []) && DropsCounted(0, [], []) && DroppedInOrder([], [], 0)
    ensures Settled(0, [], [], [], {}) && NothingLost(0, [], EMPTY_LEDGER)
  {
  }

  lemma ReopenedKeeps(w: World)
    requires Inv(w) && !w.stopped
    ensures Inv(w.(sending := false, pausedUntil := 0, inFlightUpTo := 0, carrying := []))
  {
    hide Increasing, Genuine, NothingLost, DroppedInOrder, DropsCounted, Counted, EndsWith;
    assert Numbers([]) == {};
    hide Numbers;
    NothingCarried(w.queue, w.ledger.log);
    SettledLess(w.number, w.queue, w.carrying, Left(w.ledger), w.ledger.refused, w.queue, []);
    hide Settled, QueueShape, OneFlight;
  }

  /** A page may reload only onto the very state it left. */
  ghost predicate Trusted(w: World, input: Input) {
    input.Reload? ==> Current(w)
  }

  lemma NextKeeps(w: World, input: Input)
    requires Inv(w) && Trusted(w, input)
    ensures Inv(Next(w, input))
  {
    hide Inv, Current;
    SendingRuns(w);
    match input
    case Record(kind, orderId, detail, level, now, saves) =>
      if !w.stopped {
        var event := Event(w.number + 1, now, level, kind, NonEmpty(orderId), Clean(detail));
        assert w.(dropped := w.dropped + 0) == w;
        EnqueuedKeeps(w, Called(event), saves, 0);
      }
    case Flush(now, online, saves) => FlushingKeeps(w, now, online, saves);
    case Resolve(outcome, now, online, saves, removes) =>
      if w.sending {
        if outcome.Unreachable? {
          LandedKeeps(w, w.pausedUntil);
          assert w.(pausedUntil := w.pausedUntil) == w;
        } else {
          AnsweredKeeps(w, outcome.status, outcome.retryAfter, now, saves, removes);
          FlushingKeeps(Landed(AnsweredBy(w, outcome.status, outcome.retryAfter, now, saves, removes)), now, online, saves);
        }
      }
    case Beacon(now, online, supported, queued, saves) => BeaconingKeeps(w, now, online, supported, queued, saves);
    case Reload(session) => OpenedKeeps(w, session);
  }
}
