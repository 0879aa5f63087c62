/** How the engine page draws a round: each tier's spans of time become segments
    of a lane, each segment a row of shapes and, when there is room, a label. */
module RoundDrawing {
  import opened Wrappers

  datatype Tier = Chain | Blocks | Mempool | Settlement | Upkeep

  const TIERS: seq<Tier> := [Chain, Blocks, Mempool, Settlement, Upkeep]

  datatype WorkKind = TipRequest | CacheUpdate

  /** A unit of a pass, or work for the tier outside its units. */
  datatype Span = Unit(pass: nat) | Outside(what: WorkKind)

  datatype UnitBar = UnitBar(tier: Tier, start: nat, ms: nat, span: Span)

  datatype Round = Round(budget: nat, toBudget: bool, units: seq<UnitBar>)

  /** A stretch of a lane that is drawn: time of a unit (solid), or what falls
      between the units of one segment. */
  datatype Piece = Piece(start: nat, ms: nat, solid: bool, leftover: bool) {
    function End(): nat { start + ms }
  }

  datatype Shape =
    | Fill(from: nat, to: nat, leftover: bool)
    | Work(from: nat, to: nat, joined: bool, bandFrom: Option<nat>)
    | Thread(from: nat, to: nat, band: bool)

  /** A segment being built: its pieces, and how often and how long each of its
      operations ran. */
  datatype Segment = Segment(pieces: seq<Piece>, parts: map<string, (nat, nat)>)

  datatype Bar = Bar(start: nat, ms: nat, span: nat, shapes: seq<Shape>, work: bool,
                     parts: map<string, (nat, nat)>, caption: Option<nat>, last: bool) {
    function End(): nat { start + span }
  }

  datatype Lane = Lane(tier: Tier, ms: nat, bars: seq<Bar>)

  function Extended(shape: Shape, to: nat): Shape {
    match shape
    case Fill(from, _, leftover) => Fill(from, to, leftover)
    case Work(from, _, joined, bandFrom) => Work(from, to, joined, bandFrom)
    case Thread(from, _, band) => Thread(from, to, band)
  }

  const MIN_SCALE: nat := 10

  // ---- Shapes ----

  function Max(a: nat, b: nat): nat {
    if a > b then a else b
  }

  /** The latest end, none for no pieces. */
  function EndOf(pieces: seq<Piece>): Option<nat> {
    if pieces == [] then None
    else
      var end := pieces[|pieces| - 1].End();
      match EndOf(pieces[..|pieces| - 1])
      case None => Some(end)
      case Some(before) => Some(Max(before, end))
  }

  /** The gap is less than `thousandths` of the scale. */
  predicate Within(gap: nat, scale: nat, thousandths: nat) {
    gap * 1000 < thousandths * Max(1, scale)
  }

  const JOIN := 25
  const JOIN_NARROW := 50

  /** One piece more, `end` being where the ones before it end. */
  function Draw(out: seq<Shape>, end: Option<nat>, piece: Piece, scale: nat): seq<Shape> {
    var to := piece.End();
    var last := |out| - 1;
    match end
    case None =>
      if piece.solid then out + [Fill(piece.start, to, piece.leftover)]
      else out + [Work(piece.start, to, false, None)]
    case Some(before) =>
      var gap := if piece.start > before then piece.start - before else 0;
      if piece.solid then
        if out != [] && out[last].Fill? && gap == 0 && out[last].leftover == piece.leftover
        then out[last := Extended(out[last], to)]
        else out + [Fill(piece.start, to, piece.leftover)]
      else if Within(gap, scale, JOIN) then
        if out != [] && out[last].Work? then out[last := Extended(out[last], to)]
        else out + [Work(before, to, true, None)]
      else
        var band := Within(gap, scale, JOIN_NARROW);
        out + [Thread(before, piece.start, band), Work(piece.start, to, false, if band then Some(before) else None)]
  }

  function Drawn(pieces: seq<Piece>, scale: nat): seq<Shape> {
    if pieces == [] then []
    else
      var before := pieces[..|pieces| - 1];
      Draw(Drawn(before, scale), EndOf(before), pieces[|pieces| - 1], scale)
  }

  /** Whether `next` starts where `shape` ends, both of them boxes. */
  predicate Meets(shape: Option<Shape>, next: Option<Shape>) {
    shape.Some? && next.Some? && !shape.value.Thread? && !next.value.Thread? && shape.value.to == next.value.from
  }

  method Shapes(pieces: seq<Piece>, scale: nat) returns (out: seq<Shape>)
    ensures out == Drawn(pieces, scale)
  {
    out := [];
    var end: Option<nat> := None;
    for i := 0 to |pieces|
      invariant out == Drawn(pieces[..i], scale) && end == EndOf(pieces[..i])
    {
      assert pieces[..i + 1][..i] == pieces[..i];
      var piece := pieces[i];
      var to := piece.End();
      var last := |out| - 1;
      if piece.solid {
        if last >= 0 && out[last].Fill? && end.Some? && piece.start <= end.value && out[last].leftover == piece.leftover {
          out := out[last := Extended(out[last], to)];
        } else {
          out := out + [Fill(piece.start, to, piece.leftover)];
        }
      } else if end.None? {
        out := out + [Work(piece.start, to, false, None)];
      } else {
        var before := end.value;
        var gap := if piece.start > before then piece.start - before else 0;
        if gap * 1000 < JOIN * Max(1, scale) {
          if last >= 0 && out[last].Work? {
            out := out[last := Extended(out[last], to)];
          } else {
            out := out + [Work(before, to, true, None)];
          }
        } else {
          var band := gap * 1000 < JOIN_NARROW * Max(1, scale);
          out := out + [Thread(before, piece.start, band)];
          out := out + [Work(piece.start, to, false, if band then Some(before) else None)];
        }
      }
      end := Some(if end.None? then to else Max(end.value, to));
    }
    assert pieces[..|pieces|] == pieces;
  }

  // ---- Segments ----

  function Operation(tier: Tier, span: Span): string {
    match span
    case Outside(TipRequest) => "Node tip requests"
    case Outside(CacheUpdate) => "Fetched block cache updates"
    case Unit(pass) =>
      if pass == 2 then "Work using remaining budget"
      else match tier
        case Chain => "Chain checks"
        case Blocks => "Block scan work"
        case Mempool => "Mempool scan work"
        case Settlement => "Order settlement work"
        case Upkeep => "Housekeeping work"
  }

  function PieceOf(unit: UnitBar): Piece {
    Piece(unit.start, unit.ms, unit.span.Unit?, unit.span.Unit? && unit.span.pass == 2)
  }

  /** The unit counted in, under its operation's name. */
  function Counted(parts: map<string, (nat, nat)>, unit: UnitBar): map<string, (nat, nat)> {
    var name := Operation(unit.tier, unit.span);
    var entry := if name in parts then parts[name] else (0, 0);
    parts[name := (entry.0 + 1, entry.1 + unit.ms)]
  }

  function OfTier(units: seq<UnitBar>, tier: Tier): seq<UnitBar> {
    if units == [] then []
    else
      OfTier(units[..|units| - 1], tier) +
      if units[|units| - 1].tier == tier then [units[|units| - 1]] else []
  }

  /** The latest end of a segment's pieces. */
  function EndAt(pieces: seq<Piece>): nat {
    match EndOf(pieces)
    case None => 0
    case Some(end) => end
  }

  /** Work outside units goes on the segment before it, and so does a unit with
      no gap before it; any other starts a segment. */
  function Attached(built: seq<Segment>, unit: UnitBar): seq<Segment> {
    var piece := PieceOf(unit);
    var last := |built| - 1;
    if built != [] && (!piece.solid || piece.start == EndAt(built[last].pieces)) then
      built[last := Segment(built[last].pieces + [piece], Counted(built[last].parts, unit))]
    else
      built + [Segment([piece], Counted(map[], unit))]
  }

  function Grouped(units: seq<UnitBar>): seq<Segment> {
    if units == [] then [] else Attached(Grouped(units[..|units| - 1]), units[|units| - 1])
  }

  function Took(pieces: seq<Piece>): nat {
    if pieces == [] then 0 else Took(pieces[..|pieces| - 1]) + pieces[|pieces| - 1].ms
  }

  function Timed(built: seq<Segment>): seq<Segment> {
    if built == [] then []
    else Timed(built[..|built| - 1]) + if Took(built[|built| - 1].pieces) > 0 then [built[|built| - 1]] else []
  }

  /** The segments that took no time are left out where one took some. */
  function Kept(built: seq<Segment>): seq<Segment> {
    if Timed(built) != [] then Timed(built)
    else if built == [] then []
    else [built[0]]
  }

  /** The gap a label needs after its segment: 8% of the scale, whole. */
  function Close(scale: nat): nat {
    scale * 8 / 100
  }

  function Start(segment: Segment): nat {
    if segment.pieces == [] then 0 else segment.pieces[0].start
  }

  function End(segment: Segment): nat {
    match EndOf(segment.pieces)
    case None => Start(segment)
    case Some(end) => end
  }

  /** Segment `i` is far enough from the next for a label. */
  predicate Roomy(built: seq<Segment>, i: nat, close: nat)
    requires i < |built|
  {
    i + 1 == |built| ||
    (if Start(built[i + 1]) > End(built[i]) then Start(built[i + 1]) - End(built[i]) else 0) >= close
  }

  predicate OnlyWork(pieces: seq<Piece>) {
    forall i :: 0 <= i < |pieces| ==> !pieces[i].solid
  }

  function BarOf(segment: Segment, scale: nat, caption: Option<nat>): Bar {
    var start, end := Start(segment), End(segment);
    Bar(start, Took(segment.pieces), if end > start then end - start else 0,
        Drawn(segment.pieces, scale), OnlyWork(segment.pieces), segment.parts, caption, false)
  }

  /** The time carried into segment `i`'s label from the ones before it. */
  function Carried(built: seq<Segment>, i: nat, close: nat): nat
    requires i <= |built|
  {
    if i == 0 || Roomy(built, i - 1, close) then 0
    else Carried(built, i - 1, close) + Took(built[i - 1].pieces)
  }

  /** The time written after segment `i`, if it has room for a label. */
  function CaptionOf(built: seq<Segment>, i: nat, close: nat): Option<nat>
    requires i < |built|
  {
    if Roomy(built, i, close) then Some(Carried(built, i, close) + Took(built[i].pieces)) else None
  }

  /** The bars of the first `n` segments. */
  function BarsTo(built: seq<Segment>, n: nat, scale: nat): (bars: seq<Bar>)
    requires n <= |built|
    ensures |bars| == n
  {
    if n == 0 then []
    else BarsTo(built, n - 1, scale) + [BarOf(built[n - 1], scale, CaptionOf(built, n - 1, Close(scale)))]
  }

  function BarsOf(built: seq<Segment>, scale: nat): (bars: seq<Bar>)
    ensures |bars| == |built|
  {
    BarsTo(built, |built|, scale)
  }

  /** A tier's segments in the round. */
  function LaneBars(units: seq<UnitBar>, tier: Tier, scale: nat): seq<Bar> {
    BarsOf(Kept(Grouped(OfTier(units, tier))), scale)
  }

  method Segments(units: seq<UnitBar>, tier: Tier, scale: nat) returns (bars: seq<Bar>)
    ensures bars == LaneBars(units, tier, scale)
  {
    var built: seq<Segment> := [];
    for i := 0 to |units|
      invariant built == Grouped(OfTier(units[..i], tier))
    {
      assert units[..i + 1][..i] == units[..i];
      var unit := units[i];
      ghost var before := OfTier(units[..i], tier);
      assert OfTier(units[..i + 1], tier) == if unit.tier == tier then before + [unit] else before;
      if unit.tier == tier {
        assert (before + [unit])[..|before|] == before;
        var piece := PieceOf(unit);
        if |built| > 0 && (!piece.solid || piece.start == EndAt(built[|built| - 1].pieces)) {
          var current := built[|built| - 1];
          built := built[|built| - 1 := Segment(current.pieces + [piece], Counted(current.parts, unit))];
        } else {
          built := built + [Segment([piece], Counted(map[], unit))];
        }
      }
    }
    assert units[..|units|] == units;
    built := DropUntimed(built);
    bars := LabelBars(built, scale);
  }

  method DropUntimed(all: seq<Segment>) returns (built: seq<Segment>)
    ensures built == Kept(all)
  {
    built := [];
    for i := 0 to |all|
      invariant built == Timed(all[..i])
    {
      assert all[..i + 1][..i] == all[..i];
      if Took(all[i].pieces) > 0 {
        built := built + [all[i]];
      }
    }
    assert all[..|all|] == all;
    if |built| == 0 {
      built := if |all| == 0 then [] else all[..1];
    }
  }

  lemma {:induction false} EndAfterAll(pieces: seq<Piece>)
    ensures pieces != [] <==> EndOf(pieces).Some?
    ensures forall i :: 0 <= i < |pieces| ==> pieces[i].End() <= EndOf(pieces).value
  {
    if pieces != [] { EndAfterAll(pieces[..|pieces| - 1]); }
  }

  /** The bars, each with the time carried to it when it has room for a label. */
  method LabelBars(built: seq<Segment>, scale: nat) returns (bars: seq<Bar>)
    ensures bars == BarsOf(built, scale)
  {
    var carried := 0;
    assert carried == Carried(built, 0, Close(scale));
    hide Carried, CaptionOf, BarOf, Close;
    bars := [];
    for i := 0 to |built|
      invariant bars == BarsTo(built, i, scale) && carried == Carried(built, i, Close(scale))
    {
      var bar, rest := CaptionBar(built, i, scale, carried);
      bars, carried := bars + [bar], rest;
    }
  }

  method CaptionBar(built: seq<Segment>, i: nat, scale: nat, before: nat) returns (bar: Bar, carried: nat)
    requires i < |built| && before == Carried(built, i, Close(scale))
    ensures bar == BarOf(built[i], scale, CaptionOf(built, i, Close(scale)))
    ensures carried == Carried(built, i + 1, Close(scale))
  {
    hide Drawn, OnlyWork, EndOf, Start;
    var close := scale * 8 / 100;
    bar := Plain(built[i], scale);
    carried := before + bar.ms;
    if i + 1 == |built| || Apart(bar, Start(built[i + 1])) >= close {
      bar := bar.(caption := Some(carried));
      carried := 0;
    }
  }

  function Apart(bar: Bar, nextStart: nat): nat {
    if nextStart > bar.End() then nextStart - bar.End() else 0
  }

  method Plain(segment: Segment, scale: nat) returns (bar: Bar)
    ensures bar == BarOf(segment, scale, None)
    ensures bar.End() == End(segment)
  {
    EndAfterAll(segment.pieces);
    var shapes := Shapes(segment.pieces, scale);
    var start := if |segment.pieces| > 0 then segment.pieces[0].start else 0;
    var end := match EndOf(segment.pieces) case None => start case Some(e) => e;
    bar := Bar(start, Took(segment.pieces), if end > start then end - start else 0, shapes,
               OnlyWork(segment.pieces), segment.parts, None, false);
  }

  // ---- The round ----

  function Time(units: seq<UnitBar>): nat {
    if units == [] then 0 else Time(units[..|units| - 1]) + units[|units| - 1].ms
  }

  function Scale(round: Round): nat {
    var elapsed := Time(round.units);
    if round.toBudget then Max(round.budget, elapsed) else Max(MIN_SCALE, elapsed * 115 / 100)
  }

  /** Bar `a` finished later than `b`, or with it and started no earlier. */
  predicate Outlasts(a: Bar, b: Bar) {
    a.End() > b.End() || (a.End() == b.End() && a.start >= b.start)
  }

  function PlainLane(round: Round, tier: Tier): Lane {
    Lane(tier, Time(OfTier(round.units, tier)), LaneBars(round.units, tier, Scale(round)))
  }

  /** The lanes of a round, the end marker on none yet. */
  function PlainLanes(round: Round): seq<Lane> {
    seq(|TIERS|, i requires 0 <= i < |TIERS| => PlainLane(round, TIERS[i]))
  }

  /** Lane `i`'s bar `j` comes before lane `l`'s bar `b`. */
  predicate Before(i: nat, j: nat, l: nat, b: nat) {
    i < l || (i == l && j < b)
  }

  /** Of the bars before bar `b` of lane `l`, bar `y` of lane `x` finished last:
      the latest to start of those ending last, and the last drawn of those. */
  ghost predicate LatestOf(lanes: seq<Lane>, l: nat, b: nat, x: nat, y: nat) {
    && x < |lanes| && y < |lanes[x].bars| && Before(x, y, l, b)
    && forall i: nat, j: nat :: i < |lanes| && j < |lanes[i].bars| && Before(i, j, l, b) ==>
         && Outlasts(lanes[x].bars[y], lanes[i].bars[j])
         && (Before(x, y, i, j) ==> !Outlasts(lanes[i].bars[j], lanes[x].bars[y]))
  }

  function Marked(lanes: seq<Lane>, x: nat, y: nat): seq<Lane>
    requires x < |lanes| && y < |lanes[x].bars|
  {
    lanes[x := lanes[x].(bars := lanes[x].bars[y := lanes[x].bars[y].(last := true)])]
  }

  /** The end marker is put on the bar that finished last, if there is a bar. */
  ghost predicate MarksLast(plain: seq<Lane>, lanes: seq<Lane>) {
    if forall i :: 0 <= i < |plain| ==> plain[i].bars == [] then lanes == plain
    else exists x: nat, y: nat :: LatestOf(plain, |plain|, 0, x, y) && lanes == Marked(plain, x, y)
  }

  method MarkLast(plain: seq<Lane>) returns (lanes: seq<Lane>)
    ensures MarksLast(plain, lanes)
  {
    var last: Option<(nat, nat)> := None;
    for l := 0 to |plain|
      invariant last.None? ==> forall i :: 0 <= i < l ==> plain[i].bars == []
      invariant last.Some? ==> LatestOf(plain, l, 0, last.value.0, last.value.1)
    {
      for b := 0 to |plain[l].bars|
        invariant last.None? ==> b == 0 && forall i :: 0 <= i < l ==> plain[i].bars == []
        invariant last.Some? ==> LatestOf(plain, l, b, last.value.0, last.value.1)
      {
        if last.None? || Outlasts(plain[l].bars[b], plain[last.value.0].bars[last.value.1]) {
          last := Some((l, b));
        }
      }
    }
    lanes := plain;
    if last.Some? {
      var x, y := last.value.0, last.value.1;
      lanes := plain[x := plain[x].(bars := plain[x].bars[y := plain[x].bars[y].(last := true)])];
      assert LatestOf(plain, |plain|, 0, x, y) && lanes == Marked(plain, x, y);
      assert plain[x].bars != [];
    }
  }

  method RoundView(round: Round) returns (elapsed: nat, scale: nat, lanes: seq<Lane>)
    ensures elapsed == Time(round.units) && scale == Scale(round)
    ensures MarksLast(PlainLanes(round), lanes)
  {
    elapsed := Time(round.units);
    scale := if round.toBudget then Max(round.budget, elapsed) else Max(MIN_SCALE, elapsed * 115 / 100);
    assert scale == Scale(round);
    hide PlainLane, Scale, MarksLast;
    var plain: seq<Lane> := [];
    for i := 0 to |TIERS|
      invariant |plain| == i && forall k :: 0 <= k < i ==> plain[k] == PlainLane(round, TIERS[k])
    {
      var lane := LaneView(round, TIERS[i], scale);
      plain := plain + [lane];
    }
    assert plain == PlainLanes(round);
    lanes := MarkLast(plain);
  }

  method LaneView(round: Round, tier: Tier, scale: nat) returns (lane: Lane)
    requires scale == Scale(round)
    ensures lane == PlainLane(round, tier)
  {
    var bars := Segments(round.units, tier, scale);
    lane := Lane(tier, Time(OfTier(round.units, tier)), bars);
  }
}
