/** The engine page's timeline: a bar over the history held, and a window on it
    that follows now, or is moved, resized or brought to the playback position. */
module TimelineWindow {
  import opened Wrappers

  const AXIS := 1800000.0
  const MIN_SPAN := 5000.0
  const SNAP := 250.0

  /** A length or a moment in engine milliseconds, or Infinity. */
  datatype Extent = Finite(ms: real) | Infinite

  /** The window as it is kept (no end: it follows now), where the axis is frozen
      off live, the playback position, and the oldest moment held. */
  datatype View = View(span: Extent, end: Option<Extent>, frozenEnd: Option<real>, head: real, oldest: Option<real>)

  datatype Part = Whole | From | To

  function Max(a: real, b: real): real {
    if a > b then a else b
  }

  function Min(a: real, b: real): real {
    if a < b then a else b
  }

  function LeastOf(a: Extent, b: real): real {
    match a case Infinite => b case Finite(ms) => Min(ms, b)
  }

  /** The bar's right edge, `now` being the engine's clock. */
  function AxisEnd(v: View, now: real): real {
    match v.frozenEnd case None => now case Some(f) => Max(f, v.head)
  }

  /** Reading the axis moves its frozen end on to the playback position. */
  function Thawed(v: View): View {
    match v.frozenEnd case None => v case Some(f) => v.(frozenEnd := Some(Max(f, v.head)))
  }

  /** The stretch the window can cover. */
  function Range(v: View, now: real): (real, real) {
    var end := AxisEnd(v, now);
    var start := Max(end - AXIS, match v.oldest case Some(o) => o case None => end - 60000.0);
    (start, Max(end, start + MIN_SPAN))
  }

  function WindowSpan(v: View, now: real): (real, real) {
    var (start, last) := Range(v, now);
    var span := LeastOf(v.span, last - start);
    var end := match v.end case None => last case Some(e) => LeastOf(e, last);
    (Max(start, end - span), Max(start + span, end))
  }

  /** The window set to a span, ending at `end` or following now. */
  function Placed(v: View, end: Option<real>, span: Extent, now: real): View {
    var (start, last) := Range(v, now);
    var kept := if span.Infinite? || span.ms >= last - start - SNAP then Infinite else Finite(Max(MIN_SPAN, span.ms));
    Thawed(v).(span := kept,
               end := if end.None? || end.value >= last - SNAP then None
                      else if kept.Infinite? then Some(Infinite)
                      else Some(Finite(Max(start + kept.ms, end.value))))
  }

  function Contained(v: View, t: real, now: real): View {
    var (a, b) := WindowSpan(v, now);
    if t < a then Placed(Thawed(v), Some(t + (b - a) * 0.8), Finite(b - a), now)
    else if t > b then Placed(Thawed(v), Some(t + (b - a) * 0.2), Finite(b - a), now)
    else Thawed(v)
  }

  function Moved(v: View, part: Part, from: real, to: real, now: real): View {
    var (start, last) := Range(v, now);
    match part
    case Whole => Placed(Thawed(v), Some(Min(last, Max(start + (to - from), to))), Finite(to - from), now)
    case From => Placed(Thawed(v), Some(to), Finite(to - Max(start, Min(from, to - MIN_SPAN))), now)
    case To =>
      var edge := Max(from + MIN_SPAN, Min(to, last));
      Placed(Thawed(v), Some(edge), Finite(edge - from), now)
  }

  // ---- The page's own code ----

  class Timeline {
    var span: Extent
    var end: Option<Extent>
    var frozenEnd: Option<real>
    var head: real
    var oldest: Option<real>

    ghost function Now(): View
      reads this
    {
      View(span, end, frozenEnd, head, oldest)
    }

    constructor ()
      ensures Now() == View(Finite(300000.0), None, None, 0.0, None)
    {
      span, end, frozenEnd, head, oldest := Finite(300000.0), None, None, 0.0, None;
    }

    method ReadAxisEnd(now: real) returns (edge: real)
      modifies this`frozenEnd
      ensures edge == AxisEnd(old(Now()), now) && Now() == Thawed(old(Now()))
    {
      if frozenEnd.None? { return now; }
      frozenEnd := Some(Max(frozenEnd.value, head));
      edge := frozenEnd.value;
    }

    method ReadRange(now: real) returns (start: real, last: real)
      modifies this`frozenEnd
      ensures (start, last) == Range(old(Now()), now) && Now() == Thawed(old(Now()))
    {
      var edge := ReadAxisEnd(now);
      start := Max(edge - AXIS, if oldest.Some? then oldest.value else edge - 60000.0);
      last := Max(edge, start + MIN_SPAN);
    }

    method ReadWindowSpan(now: real) returns (a: real, b: real)
      modifies this`frozenEnd
      ensures (a, b) == WindowSpan(old(Now()), now) && Now() == Thawed(old(Now()))
    {
      var start, last := ReadRange(now);
      var length := LeastOf(span, last - start);
      var right := if end.None? then last else LeastOf(end.value, last);
      a, b := Max(start, right - length), Max(start + length, right);
    }

    method SetWindow(to: Option<real>, length: Extent, now: real)
      modifies this
      ensures Now() == Placed(old(Now()), to, length, now)
    {
      var start, last := ReadRange(now);
      span := if length.Infinite? || length.ms >= last - start - SNAP then Infinite else Finite(Max(MIN_SPAN, length.ms));
      end := if to.None? || to.value >= last - SNAP then None
             else if span.Infinite? then Some(Infinite)
             else Some(Finite(Max(start + span.ms, to.value)));
    }

    method ContainPlayhead(t: real, now: real)
      modifies this
      ensures Now() == Contained(old(Now()), t, now)
    {
      var a, b := ReadWindowSpan(now);
      if t < a {
        SetWindow(Some(t + (b - a) * 0.8), Finite(b - a), now);
      } else if t > b {
        SetWindow(Some(t + (b - a) * 0.2), Finite(b - a), now);
      }
    }

    method MoveWindow(part: Part, from: real, to: real, now: real)
      modifies this
      ensures Now() == Moved(old(Now()), part, from, to, now)
    {
      var start, last := ReadRange(now);
      match part {
        case Whole =>
          SetWindow(Some(Min(last, Max(start + (to - from), to))), Finite(to - from), now);
        case From =>
          SetWindow(Some(to), Finite(to - Max(start, Min(from, to - MIN_SPAN))), now);
        case To =>
          var edge := Max(from + MIN_SPAN, Min(to, last));
          SetWindow(Some(edge), Finite(edge - from), now);
      }
    }
  }

  // ---- What any run of operations keeps ----

  ghost predicate WideEnough(v: View) {
    v.span.Infinite? || v.span.ms >= MIN_SPAN
  }

  /** An operation on the window, or anything else moving what it is drawn over:
      the clock, the playback position, the axis and the history. */
  datatype Op =
    | Set(end: Option<real>, span: Extent, now: real)
    | Move(part: Part, from: real, to: real, now: real)
    | Contain(t: real, now: real)
    | Elsewhere(frozenEnd: Option<real>, head: real, oldest: Option<real>)

  ghost function Apply(v: View, op: Op): View {
    match op
    case Set(end, span, now) => Placed(v, end, span, now)
    case Move(part, from, to, now) => Moved(v, part, from, to, now)
    case Contain(t, now) => Contained(v, t, now)
    case Elsewhere(frozenEnd, head, oldest) => v.(frozenEnd := frozenEnd, head := head, oldest := oldest)
  }

  ghost function ApplyAll(v: View, ops: seq<Op>): View {
    if ops == [] then v else Apply(ApplyAll(v, ops[..|ops| - 1]), ops[|ops| - 1])
  }

  const OPENING := View(Finite(300000.0), None, None, 0.0, None)

  lemma PlacedWide(v: View, end: Option<real>, span: Extent, now: real)
    ensures WideEnough(Placed(v, end, span, now))
  {
    hide Range, Thawed;
  }

  lemma StepStaysWide(v: View, op: Op)
    requires WideEnough(v)
    ensures WideEnough(Apply(v, op))
  {
    hide Placed, Range, WindowSpan;
    forall x: View, end, span, now {:trigger Placed(x, end, span, now)} ensures WideEnough(Placed(x, end, span, now)) {
      PlacedWide(x, end, span, now);
    }
  }

  lemma {:induction false} StaysWide(ops: seq<Op>)
    ensures WideEnough(ApplyAll(OPENING, ops))
  {
    if ops != [] {
      hide Apply;
      StaysWide(ops[..|ops| - 1]);
      StepStaysWide(ApplyAll(OPENING, ops[..|ops| - 1]), ops[|ops| - 1]);
    }
  }

  /** After any operations at all, whenever it is drawn, the window lies in the
      range; its length is its span or the whole range, and never too short. */
  lemma WindowInRange(ops: seq<Op>, now: real)
    ensures var v := ApplyAll(OPENING, ops);
            var r, w := Range(v, now), WindowSpan(v, now);
            && r.0 <= w.0 && w.1 <= r.1
            && w.1 - w.0 == LeastOf(v.span, r.1 - r.0)
            && w.1 - w.0 >= MIN_SPAN
  {
    StaysWide(ops);
    SpanHolds(ApplyAll(OPENING, ops), now);
    hide ApplyAll;
  }

  lemma SpanHolds(v: View, now: real)
    requires WideEnough(v)
    ensures var r, w := Range(v, now), WindowSpan(v, now);
            && r.0 <= w.0 && w.1 <= r.1
            && w.1 - w.0 == LeastOf(v.span, r.1 - r.0)
            && w.1 - w.0 >= MIN_SPAN
  {
  }

  lemma ThawedSame(v: View, now: real)
    ensures Range(Thawed(v), now) == Range(v, now) && WindowSpan(Thawed(v), now) == WindowSpan(v, now)
    ensures Thawed(Thawed(v)) == Thawed(v)
  {
  }

  lemma PlacedRange(v: View, end: Option<real>, span: Extent, now: real)
    ensures Range(Placed(v, end, span, now), now) == Range(v, now)
  {
  }

  /** Bringing a moment of the range into the window puts it there, though the
      window may snap to now or to the whole history, and keeps its length but for
      that. */
  lemma ContainsPlayhead(ops: seq<Op>, t: real, now: real)
    requires var r := Range(ApplyAll(OPENING, ops), now); r.0 <= t <= r.1
    ensures var v := ApplyAll(OPENING, ops);
            var r, before, after := Range(v, now), WindowSpan(v, now), WindowSpan(Contained(v, t, now), now);
            && after.0 <= t <= after.1
            && Range(Contained(v, t, now), now) == r
            && after.1 - after.0 == (if before.0 <= t <= before.1 || before.1 - before.0 < r.1 - r.0 - SNAP
                                     then before.1 - before.0 else r.1 - r.0)
  {
    StaysWide(ops);
    ContainsFrom(ApplyAll(OPENING, ops), t, now);
    hide *;
  }

  lemma ContainsFrom(v: View, t: real, now: real)
    requires WideEnough(v)
    requires var r := Range(v, now); r.0 <= t <= r.1
    ensures var r, before, after := Range(v, now), WindowSpan(v, now), WindowSpan(Contained(v, t, now), now);
            && after.0 <= t <= after.1
            && Range(Contained(v, t, now), now) == r
            && after.1 - after.0 == (if before.0 <= t <= before.1 || before.1 - before.0 < r.1 - r.0 - SNAP
                                     then before.1 - before.0 else r.1 - r.0)
  {
    hide Range, WindowSpan, Placed, Thawed;
    SpanHolds(v, now);
    ThawedSame(v, now);
    var w := WindowSpan(v, now);
    var b := w.1 - w.0;
    if t < w.0 {
      PlacedHolds(Thawed(v), t, t + b * 0.8, b, now);
    } else if t > w.1 {
      PlacedHolds(Thawed(v), t, t + b * 0.2, b, now);
    }
  }

  lemma PlacedHolds(v: View, t: real, end: real, span: real, now: real)
    requires var r := Range(v, now); r.0 <= t <= r.1 && MIN_SPAN <= span <= r.1 - r.0
    requires t + span * 0.2 <= end <= t + span * 0.8
    ensures var r, p := Range(v, now), Placed(v, Some(end), Finite(span), now);
            var w := WindowSpan(p, now);
            && Range(p, now) == r && w.0 <= t <= w.1
            && w.1 - w.0 == if span < r.1 - r.0 - SNAP then span else r.1 - r.0
  {
    PlacedRange(v, Some(end), Finite(span), now);
    hide Range;
  }

  /** Moving the whole window keeps its length, or makes it the whole range when
      it nearly is. */
  lemma MoveKeepsLength(v: View, from: real, to: real, now: real)
    requires var r := Range(v, now); MIN_SPAN <= to - from <= r.1 - r.0
    ensures var r, w := Range(v, now), WindowSpan(Moved(v, Whole, from, to, now), now);
            && w.1 - w.0 == (if to - from < r.1 - r.0 - SNAP then to - from else r.1 - r.0)
            && (to - from < r.1 - r.0 - SNAP ==>
                  var wanted := Min(r.1, Max(r.0 + (to - from), to)); wanted <= w.1 <= wanted + SNAP)
  {
    ThawedSame(v, now);
    var r := Range(v, now);
    PlacedRange(Thawed(v), Some(Min(r.1, Max(r.0 + (to - from), to))), Finite(to - from), now);
    hide Range;
  }

  /** Dragging one end leaves the other where it is, but for the snap to now; the
      window never gets shorter than the least span. */
  lemma ResizeKeepsOtherEnd(v: View, part: Part, from: real, to: real, now: real)
    requires part != Whole
    requires var r := Range(v, now);
             if part == From then r.0 + MIN_SPAN <= to <= r.1 else r.0 <= from <= r.1 - MIN_SPAN
    ensures var r, w := Range(v, now), WindowSpan(Moved(v, part, from, to, now), now);
            && w.1 - w.0 >= MIN_SPAN
            && if part == From then to <= w.1 <= to + SNAP else from - SNAP <= w.0 <= from + SNAP
  {
    ThawedSame(v, now);
    var r := Range(v, now);
    if part == From {
      PlacedRange(Thawed(v), Some(to), Finite(to - Max(r.0, Min(from, to - MIN_SPAN))), now);
    } else {
      var edge := Max(from + MIN_SPAN, Min(to, r.1));
      PlacedRange(Thawed(v), Some(edge), Finite(edge - from), now);
    }
    hide Range;
  }

  /** A window that reaches now should be one that follows now. Setting the window
      makes it so except, exactly, when it is set to end well before now and yet
      has to cover the whole range, or nearly: then it reaches now, but isn't kept
      as following it. */
  lemma FollowsNowExactly(v: View, end: real, span: real, now: real)
    ensures var r, p := Range(v, now), Placed(v, Some(end), Finite(span), now);
            (WindowSpan(p, now).1 == r.1 <==> p.end == None) <==>
            !(end < r.1 - 250.0 && (span >= r.1 - r.0 - 250.0 || r.1 - r.0 == 5000.0))
  {
    var r := Range(v, now);
    PlacedRange(v, Some(end), Finite(span), now);
    assert r.1 - r.0 >= MIN_SPAN;
    hide Range;
  }

  /** Whenever a window is drawn, after any operations and however the range has
      grown or shrunk since: it reaches now without being kept as following now
      exactly when it is kept with an end, and has to cover the whole range or its
      end is past it. */
  lemma UnfollowedExactly(ops: seq<Op>, now: real)
    ensures var v := ApplyAll(OPENING, ops);
            var r := Range(v, now);
            (WindowSpan(v, now).1 == r.1 && v.end != None) <==>
            (v.end != None && (AtLeast(v.span, r.1 - r.0) || AtLeast(v.end.value, r.1)))
  {
    StaysWide(ops);
    ReachesNow(ApplyAll(OPENING, ops), now);
    hide ApplyAll;
  }

  predicate AtLeast(a: Extent, b: real) {
    a.Infinite? || a.ms >= b
  }

  lemma ReachesNow(v: View, now: real)
    requires WideEnough(v)
    ensures var r := Range(v, now);
            WindowSpan(v, now).1 == r.1 <==>
            (v.end == None || AtLeast(v.span, r.1 - r.0) || AtLeast(v.end.value, r.1))
  {
    assert Range(v, now).1 - Range(v, now).0 >= MIN_SPAN;
    hide Range;
  }

  const SHRUNK := [Elsewhere(None, 0.0, Some(0.0)), Set(Some(100000.0), Finite(50000.0), 300000.0),
                   Elsewhere(None, 0.0, Some(260000.0))]

  /** A window over the past, and then less history held than it covers. */
  lemma ShrunkUnfollowed()
    ensures var v := ApplyAll(OPENING, SHRUNK);
            && v.span == Finite(50000.0) && v.end == Some(Finite(100000.0))
            && WindowSpan(v, 300000.0) == Range(v, 300000.0) == (260000.0, 300000.0)
  {
    assert SHRUNK[..2][..1] == [SHRUNK[0]] && SHRUNK[..2][..1][..0] == [];
    var one := Apply(OPENING, SHRUNK[0]);
    assert ApplyAll(OPENING, SHRUNK[..2][..1]) == one;
    assert ApplyAll(OPENING, SHRUNK[..2]) == Apply(one, SHRUNK[1]);
    assert ApplyAll(OPENING, SHRUNK) == Apply(Apply(one, SHRUNK[1]), SHRUNK[2]);
  }

  const STRAYS := [Elsewhere(None, 0.0, Some(0.0)), Contain(100.0, 300200.0)]

  /** The page reaches such a window: with a little more history than the window
      covers, bringing a moment at the start of it into the window makes it cover
      everything, now included, without being kept as following now. */
  lemma ReachesNowUnfollowed()
    ensures var v := ApplyAll(OPENING, STRAYS);
            && WindowSpan(v, 300200.0) == Range(v, 300200.0) == (0.0, 300200.0)
            && v.end != None
  {
    assert STRAYS[..1] == [STRAYS[0]] && STRAYS[..1][..0] == [];
    assert ApplyAll(OPENING, STRAYS[..1]) == Apply(OPENING, STRAYS[0]);
    assert ApplyAll(OPENING, STRAYS) == Apply(Apply(OPENING, STRAYS[0]), STRAYS[1]);
  }

  // ---- In plain numbers ----

  /** The bar's right edge is now while live. Off live it stays where it was frozen,
      moved on by the playback position, and never goes back. */
  lemma EdgeSays(v: View, now: real)
    ensures v.frozenEnd == None ==> AxisEnd(v, now) == now
    ensures v.frozenEnd.Some? ==>
              var e := AxisEnd(v, now);
              e >= v.frozenEnd.value && e >= v.head && (e == v.frozenEnd.value || e == v.head) && Thawed(v).frozenEnd == Some(e)
  {
  }

  /** The window can cover the history held, but no more than half an hour of it up to
      the bar's right edge, and a minute when the page doesn't know what it holds; and
      it can always cover five seconds. */
  lemma RangeSays(v: View, now: real)
    ensures var r, edge := Range(v, now), AxisEnd(v, now);
            && (v.oldest.Some? && v.oldest.value >= edge - 1800000.0 ==> r.0 == v.oldest.value)
            && (v.oldest.Some? && v.oldest.value < edge - 1800000.0 ==> r.0 == edge - 1800000.0)
            && (v.oldest.None? ==> r.0 == edge - 60000.0)
            && (edge - r.0 >= 5000.0 ==> r.1 == edge) && (edge - r.0 < 5000.0 ==> r.1 == r.0 + 5000.0)
  {
  }

  /** What is drawn: as long as it was set, or all there is; ending where it was set,
      or at now when that is later or it follows now, but far enough on to be whole. */
  lemma SpanSays(v: View, now: real)
    requires WideEnough(v)
    ensures var r, w := Range(v, now), WindowSpan(v, now);
            && (v.span.Finite? && v.span.ms <= r.1 - r.0 ==> w.1 - w.0 == v.span.ms)
            && (v.span.Infinite? || v.span.ms > r.1 - r.0 ==> w == r)
            && (v.end == None || v.end.value.Infinite? || v.end.value.ms >= r.1 ==> w.1 == r.1)
            && (v.end.Some? && v.end.value.Finite? && r.0 + (w.1 - w.0) <= v.end.value.ms <= r.1 ==> w.1 == v.end.value.ms)
            && (v.end.Some? && v.end.value.Finite? && v.end.value.ms < r.0 + (w.1 - w.0) ==> w.0 == r.0)
  {
    SpanHolds(v, now);
    assert Range(v, now).1 - Range(v, now).0 >= 5000.0;
    hide Range;
  }

  /** Setting the window: within a quarter of a second of all there is, it is all of it;
      ending within that of now, or later, or nowhere, it follows now; otherwise it is
      as asked, but for five seconds at least, and for not starting before the range. */
  lemma SettingSays(v: View, end: Option<real>, span: real, now: real)
    ensures var r, p := Range(v, now), Placed(v, end, Finite(span), now);
            && (p.span == Infinite <==> span >= r.1 - r.0 - 250.0)
            && (p.span != Infinite ==> p.span == Finite(if span > 5000.0 then span else 5000.0))
            && (p.end == None <==> end == None || end.value >= r.1 - 250.0)
            && (p.end != None && p.span.Finite? ==>
                  p.end == Some(Finite(if end.value > r.0 + p.span.ms then end.value else r.0 + p.span.ms)))
            && (p.end != None && p.span.Infinite? ==> p.end == Some(Infinite))
            && p.frozenEnd == Thawed(v).frozenEnd && p.head == v.head && p.oldest == v.oldest
  {
    hide Range;
  }

  /** A window shorter than all there is, asked to end where it fits, is drawn so. */
  lemma SetSpan(v: View, end: real, span: real, now: real)
    requires var r := Range(v, now); 5000.0 <= span < r.1 - r.0 - 250.0 && r.0 + span <= end < r.1 - 250.0
    ensures WindowSpan(Placed(v, Some(end), Finite(span), now), now) == (end - span, end)
  {
    PlacedRange(v, Some(end), Finite(span), now);
    hide Range;
  }

  /** Dragging one end of a window takes that end where it is dragged, as long as the
      window stays five seconds long and clear of both snaps. */
  lemma DraggedEndMoves(v: View, from: real, to: real, now: real)
    requires var r := Range(v, now); r.0 <= from && from + 5000.0 <= to < r.1 - 250.0 && to - from < r.1 - r.0 - 250.0
    ensures WindowSpan(Moved(v, From, from, to, now), now) == (from, to)
    ensures WindowSpan(Moved(v, To, from, to, now), now) == (from, to)
    ensures WindowSpan(Moved(v, Whole, from, to, now), now) == (from, to)
  {
    ThawedSame(v, now);
    SetSpan(Thawed(v), to, to - from, now);
    hide Range, Placed, Thawed, WindowSpan;
  }

  /** An end dragged past the other, or past the range, stops five seconds from the
      one and at the other. */
  lemma DraggedEndStops(v: View, from: real, to: real, now: real)
    requires var r := Range(v, now); r.1 - r.0 > 5250.0
    ensures var r := Range(v, now);
            && (r.0 + 5000.0 <= to < r.1 - 250.0 && from > to - 5000.0 ==>
                  WindowSpan(Moved(v, From, from, to, now), now) == (to - 5000.0, to))
            && (r.0 < to < r.1 - 250.0 && from < r.0 && 5000.0 <= to - r.0 < r.1 - r.0 - 250.0 ==>
                  WindowSpan(Moved(v, From, from, to, now), now) == (r.0, to))
            && (r.0 <= from && from + 5000.0 < r.1 - 250.0 && to < from + 5000.0 ==>
                  WindowSpan(Moved(v, To, from, to, now), now) == (from, from + 5000.0))
            && (r.0 + 250.0 < from <= r.1 - 5000.0 && to >= r.1 ==>
                  WindowSpan(Moved(v, To, from, to, now), now) == (from, r.1))
  {
    ThawedSame(v, now);
    var r := Range(v, now);
    if r.0 + 5000.0 <= to < r.1 - 250.0 && from > to - 5000.0 { SetSpan(Thawed(v), to, 5000.0, now); }
    if r.0 < to < r.1 - 250.0 && from < r.0 && 5000.0 <= to - r.0 < r.1 - r.0 - 250.0 { SetSpan(Thawed(v), to, to - r.0, now); }
    if r.0 <= from && from + 5000.0 < r.1 - 250.0 && to < from + 5000.0 { SetSpan(Thawed(v), from + 5000.0, 5000.0, now); }
    if r.0 + 250.0 < from <= r.1 - 5000.0 && to >= r.1 {
      PlacedRange(Thawed(v), Some(r.1), Finite(r.1 - from), now);
    }
    hide Range, Thawed;
  }

  /** A moment brought into the window from before it is a fifth of the way along it,
      and one from after it four fifths, as long as the window is clear of the range's
      ends and of the snaps. */
  lemma ContainedAt(v: View, t: real, now: real)
    ensures var r, w := Range(v, now), WindowSpan(v, now);
            var b := w.1 - w.0;
            && (t < w.0 && 5000.0 <= b < r.1 - r.0 - 250.0 && t - 0.2 * b >= r.0 && t + 0.8 * b < r.1 - 250.0 ==>
                  WindowSpan(Contained(v, t, now), now) == (t - 0.2 * b, t + 0.8 * b))
            && (t > w.1 && 5000.0 <= b < r.1 - r.0 - 250.0 && t - 0.8 * b >= r.0 && t + 0.2 * b < r.1 - 250.0 ==>
                  WindowSpan(Contained(v, t, now), now) == (t - 0.8 * b, t + 0.2 * b))
            && (w.0 <= t <= w.1 ==> WindowSpan(Contained(v, t, now), now) == w)
  {
    hide Range, Placed, Thawed, WindowSpan;
    ThawedSame(v, now);
    var r, w := Range(v, now), WindowSpan(v, now);
    var b := w.1 - w.0;
    if t < w.0 && 5000.0 <= b < r.1 - r.0 - 250.0 && t - 0.2 * b >= r.0 && t + 0.8 * b < r.1 - 250.0 {
      SetSpan(Thawed(v), t + b * 0.8, b, now);
    }
    if t > w.1 && 5000.0 <= b < r.1 - r.0 - 250.0 && t - 0.8 * b >= r.0 && t + 0.2 * b < r.1 - 250.0 {
      SetSpan(Thawed(v), t + b * 0.2, b, now);
    }
  }
}
