/** What drawing a round keeps: shapes tile their segment, bars stay in order
    inside the scale, and no time is lost between units, lanes, bars and labels. */
module RoundConservation {
  import opened Wrappers
  import opened RoundDrawing

  // ---- Shapes ----

  /** One segment's pieces: in time order, none overlapping, and no gap before a
      unit, as it would start the next segment. */
  ghost predicate Sequential(pieces: seq<Piece>) {
    forall i :: 0 < i < |pieces| ==>
      && pieces[i - 1].End() <= pieces[i].start
      && (pieces[i].solid ==> pieces[i - 1].End() == pieces[i].start)
  }

  /** The shapes cover the stretch from `a` to `b`: no gap, no overlap. */
  ghost predicate Tiles(out: seq<Shape>, a: nat, b: nat) {
    && out != [] && out[0].from == a && out[|out| - 1].to == b
    && (forall i :: 0 <= i < |out| ==> out[i].from <= out[i].to)
    && (forall i :: 0 < i < |out| ==> out[i - 1].to == out[i].from)
  }

  /** Whether a shape may come after `prev`. Nothing is drawn as two that could
      be one: no two fills of the same pass and no two outlines are neighbours;
      after a thread there is an outline. An outline says it is joined exactly
      when it meets the shape before it, and where its band starts exactly when a
      narrow thread leads to it. */
  ghost predicate Fits(prev: Option<Shape>, shape: Shape) {
    match shape
    case Fill(_, _, leftover) =>
      prev == None || prev.value.Work? || (prev.value.Fill? && prev.value.leftover != leftover)
    case Work(_, _, joined, bandFrom) =>
      && (prev.Some? ==> !prev.value.Work?)
      && (joined <==> prev.Some? && !prev.value.Thread?)
      && bandFrom == if prev.Some? && prev.value.Thread? && prev.value.band then Some(prev.value.from) else None
    case Thread(_, _, _) => prev.Some? && !prev.value.Thread?
  }

  ghost function Prev(out: seq<Shape>, i: nat): Option<Shape>
    requires i <= |out|
  {
    if i == 0 then None else Some(out[i - 1])
  }

  ghost predicate Canonical(out: seq<Shape>) {
    forall i :: 0 <= i < |out| ==> Fits(Prev(out, i), out[i])
  }

  ghost function Length(shape: Shape): nat {
    if shape.to > shape.from then shape.to - shape.from else 0
  }

  ghost function FillTime(out: seq<Shape>): nat {
    if out == [] then 0
    else FillTime(out[..|out| - 1]) + if out[|out| - 1].Fill? then Length(out[|out| - 1]) else 0
  }

  ghost function SolidTime(pieces: seq<Piece>): nat {
    if pieces == [] then 0
    else SolidTime(pieces[..|pieces| - 1]) + if pieces[|pieces| - 1].solid then pieces[|pieces| - 1].ms else 0
  }

  lemma {:induction false} EndIsLast(pieces: seq<Piece>)
    requires Sequential(pieces) && pieces != []
    ensures EndOf(pieces) == Some(pieces[|pieces| - 1].End())
  {
    if |pieces| > 1 { EndIsLast(pieces[..|pieces| - 1]); }
  }

  lemma FillTimeAppend(out: seq<Shape>, shape: Shape)
    ensures FillTime(out + [shape]) == FillTime(out) + if shape.Fill? then Length(shape) else 0
  {
    assert (out + [shape])[..|out|] == out;
  }

  lemma FitsExtended(prev: Option<Shape>, shape: Shape, to: nat)
    requires Fits(prev, shape)
    ensures Fits(prev, Extended(shape, to))
  {
  }

  ghost function LastExtended(out: seq<Shape>, to: nat): seq<Shape>
    requires out != []
  {
    out[|out| - 1 := Extended(out[|out| - 1], to)]
  }

  lemma ExtendTiles(out: seq<Shape>, a: nat, end: nat, to: nat)
    requires Tiles(out, a, end) && end <= to
    ensures Tiles(LastExtended(out, to), a, to)
  {
  }

  lemma ExtendCanonical(out: seq<Shape>, to: nat)
    requires Canonical(out) && out != []
    ensures Canonical(LastExtended(out, to))
  {
    var d := LastExtended(out, to);
    FitsExtended(Prev(out, |out| - 1), out[|out| - 1], to);
    hide Fits;
    forall i | 0 <= i < |d| ensures Fits(Prev(d, i), d[i]) {
      assert Fits(Prev(out, i), out[i]);
      assert Prev(d, i) == Prev(out, i);
    }
  }

  lemma ExtendFills(out: seq<Shape>, to: nat)
    requires out != [] && out[|out| - 1].from <= out[|out| - 1].to <= to
    ensures FillTime(LastExtended(out, to)) ==
            FillTime(out) + if out[|out| - 1].Fill? then to - out[|out| - 1].to else 0
  {
    assert LastExtended(out, to)[..|out| - 1] == out[..|out| - 1];
  }

  /** The last shape drawn on to `to`. */
  lemma ExtendHolds(out: seq<Shape>, a: nat, end: nat, to: nat)
    requires Tiles(out, a, end) && Canonical(out) && end <= to
    ensures out != []
    ensures var d := LastExtended(out, to);
            && Tiles(d, a, to) && Canonical(d)
            && FillTime(d) == FillTime(out) + if out[|out| - 1].Fill? then to - end else 0
  {
    LastEndsAt(out, a, end);
    hide Tiles, Canonical, FillTime;
    ExtendTiles(out, a, end, to);
    ExtendCanonical(out, to);
    ExtendFills(out, to);
    hide LastExtended;
  }

  lemma AppendTiles(out: seq<Shape>, a: nat, end: nat, shape: Shape)
    requires Tiles(out, a, end) && shape.from == end <= shape.to
    ensures Tiles(out + [shape], a, shape.to)
  {
  }

  lemma AppendCanonical(out: seq<Shape>, shape: Shape)
    requires Canonical(out) && out != [] && Fits(Some(out[|out| - 1]), shape)
    ensures Canonical(out + [shape])
  {
    hide Fits;
    var d := out + [shape];
    forall i | 0 <= i < |d| ensures Fits(Prev(d, i), d[i]) {
      if i < |out| { assert Prev(d, i) == Prev(out, i) && d[i] == out[i]; }
    }
  }

  /** One shape more that fits after the last one. */
  lemma AppendHolds(out: seq<Shape>, a: nat, end: nat, shape: Shape)
    requires Tiles(out, a, end) && Canonical(out) && out != []
    requires shape.from == end <= shape.to && Fits(Some(out[|out| - 1]), shape)
    ensures var d := out + [shape];
            Tiles(d, a, shape.to) && Canonical(d) && FillTime(d) == FillTime(out) + if shape.Fill? then Length(shape) else 0
  {
    hide Tiles, Canonical, Fits, FillTime;
    FillTimeAppend(out, shape);
    AppendTiles(out, a, end, shape);
    AppendCanonical(out, shape);
  }

  /** The drawing of pieces that end at `end`, extended by the next piece. */
  lemma DrawHolds(out: seq<Shape>, end: nat, piece: Piece, scale: nat, a: nat)
    requires Tiles(out, a, end) && Canonical(out) && !out[|out| - 1].Thread?
    requires end <= piece.start && (piece.solid ==> end == piece.start)
    ensures var d := Draw(out, Some(end), piece, scale);
            && Tiles(d, a, piece.End()) && Canonical(d) && !d[|d| - 1].Thread?
            && FillTime(d) == FillTime(out) + if piece.solid then piece.ms else 0
  {
    hide Tiles, Canonical, FillTime, Draw, Fits;
    LastEndsAt(out, a, end);
    DrawCases(out, end, piece, scale);
    var d := Draw(out, Some(end), piece, scale);
    if |d| == |out| {
      ExtendHolds(out, a, end, piece.End());
    } else if |d| == |out| + 1 {
      AppendHolds(out, a, end, d[|out|]);
    } else {
      AppendHolds(out, a, end, d[|out|]);
      AppendHolds(out + [d[|out|]], a, piece.start, d[|out| + 1]);
      assert d == out + [d[|out|]] + [d[|out| + 1]];
    }
  }

  lemma LastEndsAt(out: seq<Shape>, a: nat, end: nat)
    requires Tiles(out, a, end)
    ensures out != [] && out[|out| - 1].from <= out[|out| - 1].to == end
  {
  }

  /** A piece extends the last shape, or adds a shape that fits, or two. */
  lemma DrawCases(out: seq<Shape>, end: nat, piece: Piece, scale: nat)
    requires out != [] && out[|out| - 1].to == end && !out[|out| - 1].Thread?
    requires end <= piece.start && (piece.solid ==> end == piece.start)
    ensures var d, last, to := Draw(out, Some(end), piece, scale), out[|out| - 1], piece.End();
            if |d| == |out| then d == LastExtended(out, to) && (piece.solid <==> last.Fill?)
            else if |d| == |out| + 1 then
              && d == out + [d[|out|]] && Fits(Some(last), d[|out|])
              && d[|out|].from == end && d[|out|].to == to && !d[|out|].Thread? && (piece.solid <==> d[|out|].Fill?)
            else
              && |d| == |out| + 2 && d == out + [d[|out|], d[|out| + 1]] && !piece.solid
              && d[|out|].Thread? && d[|out|].from == end && d[|out|].to == piece.start && Fits(Some(last), d[|out|])
              && d[|out| + 1].Work? && d[|out| + 1].from == piece.start && d[|out| + 1].to == to
              && Fits(Some(d[|out|]), d[|out| + 1])
  {
    hide Within;
  }

  /** A segment's shapes tile it exactly, from its first start to its last end;
      its fills add up to its units' time; and the drawing is canonical. */
  lemma {:induction false} ShapesTile(pieces: seq<Piece>, scale: nat)
    requires Sequential(pieces) && pieces != []
    ensures var out := Drawn(pieces, scale);
            && Tiles(out, pieces[0].start, pieces[|pieces| - 1].End())
            && Canonical(out) && !out[|out| - 1].Thread?
            && FillTime(out) == SolidTime(pieces)
  {
    if |pieces| == 1 {
      OneShape(pieces, scale);
    } else {
      hide Draw, Tiles, Canonical, FillTime;
      var n := |pieces| - 1;
      var before := pieces[..n];
      ShapesTile(before, scale);
      EndIsLast(before);
      DrawHolds(Drawn(before, scale), before[n - 1].End(), pieces[n], scale, pieces[0].start);
    }
  }

  lemma OneShape(pieces: seq<Piece>, scale: nat)
    requires |pieces| == 1
    ensures var out := Drawn(pieces, scale);
            && Tiles(out, pieces[0].start, pieces[0].End())
            && Canonical(out) && !out[|out| - 1].Thread?
            && FillTime(out) == SolidTime(pieces)
  {
    var before := pieces[..0];
    var out := Drawn(pieces, scale);
    assert Drawn(before, scale) == [] && EndOf(before) == None && SolidTime(before) == 0;
    assert |out| == 1 && out == [] + [out[0]];
    FillTimeAppend([], out[0]);
  }

  /** Neighbouring boxes of a drawing are drawn as one run, all of them. */
  lemma BoxesMeet(pieces: seq<Piece>, scale: nat, i: nat)
    requires Sequential(pieces) && i + 1 < |Drawn(pieces, scale)|
    ensures var out := Drawn(pieces, scale);
            Meets(Some(out[i]), Some(out[i + 1])) <==> !out[i].Thread? && !out[i + 1].Thread?
  {
    assert pieces != [];
    ShapesTile(pieces, scale);
    hide Drawn, Canonical;
  }

  // ---- Units in time order ----

  /** The round's spans follow each other from its start. */
  ghost predicate BackToBack(units: seq<UnitBar>) {
    && (units != [] ==> units[0].start == 0)
    && (forall i :: 0 < i < |units| ==> units[i].start == units[i - 1].start + units[i - 1].ms)
  }

  ghost predicate InOrder(units: seq<UnitBar>) {
    forall i, j :: 0 <= i < j < |units| ==> units[i].start + units[i].ms <= units[j].start
  }

  ghost predicate EndBy(units: seq<UnitBar>, end: nat) {
    forall i :: 0 <= i < |units| ==> units[i].start + units[i].ms <= end
  }

  lemma {:induction false} EndsAtTime(units: seq<UnitBar>)
    requires BackToBack(units)
    ensures units != [] ==> units[|units| - 1].start + units[|units| - 1].ms == Time(units)
  {
    if units != [] {
      var before := units[..|units| - 1];
      assert BackToBack(before);
      EndsAtTime(before);
      if before != [] {
        assert before[|before| - 1] == units[|units| - 2];
        assert units[|units| - 1].start == units[|units| - 2].start + units[|units| - 2].ms;
      } else {
        assert units[0].start == 0 && Time(before) == 0;
      }
    }
  }

  lemma {:induction false} TierInOrder(units: seq<UnitBar>, tier: Tier)
    requires BackToBack(units)
    ensures InOrder(OfTier(units, tier)) && EndBy(OfTier(units, tier), Time(units))
  {
    if units != [] {
      var before := units[..|units| - 1];
      assert BackToBack(before);
      TierInOrder(before, tier);
      EndsAtTime(before);
      EndsAtTime(units);
    }
  }

  /** Lanes' times add up to how far the round has got. */
  lemma {:induction false} LanesAddUp(units: seq<UnitBar>)
    ensures Time(OfTier(units, Chain)) + Time(OfTier(units, Blocks)) + Time(OfTier(units, Mempool))
            + Time(OfTier(units, Settlement)) + Time(OfTier(units, Upkeep)) == Time(units)
  {
    if units != [] {
      var before, unit := units[..|units| - 1], units[|units| - 1];
      LanesAddUp(before);
      forall tier: Tier ensures Time(OfTier(units, tier)) == Time(OfTier(before, tier)) + if unit.tier == tier then unit.ms else 0 {
        TimeAppend(OfTier(before, tier), unit);
        assert OfTier(before, tier) + [] == OfTier(before, tier);
      }
    }
  }

  lemma TimeAppend(units: seq<UnitBar>, unit: UnitBar)
    ensures Time(units + [unit]) == Time(units) + unit.ms
  {
    assert (units + [unit])[..|units|] == units;
  }

  // ---- Segments ----

  ghost function BuiltTime(built: seq<Segment>): nat {
    if built == [] then 0 else BuiltTime(built[..|built| - 1]) + Took(built[|built| - 1].pieces)
  }

  /** How long one operation ran, over the segments. */
  ghost function OperationTime(built: seq<Segment>, name: string): nat {
    if built == [] then 0
    else
      OperationTime(built[..|built| - 1], name) + PartTime(built[|built| - 1], name)
  }

  ghost function NamedTime(units: seq<UnitBar>, name: string): nat {
    if units == [] then 0
    else
      var unit := units[|units| - 1];
      NamedTime(units[..|units| - 1], name) + if Operation(unit.tier, unit.span) == name then unit.ms else 0
  }

  /** Segments as they are built: each sequential, each after a gap. */
  ghost predicate Laid(built: seq<Segment>) {
    && (forall i :: 0 <= i < |built| ==> built[i].pieces != [] && Sequential(built[i].pieces))
    && (forall i, j :: 0 <= i < j < |built| ==> LastEnd(built[i]) < built[j].pieces[0].start)
  }

  ghost function LastEnd(segment: Segment): nat
    requires segment.pieces != []
  {
    segment.pieces[|segment.pieces| - 1].End()
  }

  lemma BuiltTimeAppend(built: seq<Segment>, segment: Segment)
    ensures BuiltTime(built + [segment]) == BuiltTime(built) + Took(segment.pieces)
  {
    assert (built + [segment])[..|built|] == built;
  }

  lemma TookAppend(pieces: seq<Piece>, piece: Piece)
    ensures Took(pieces + [piece]) == Took(pieces) + piece.ms
  {
    assert (pieces + [piece])[..|pieces|] == pieces;
  }

  ghost function PartTime(segment: Segment, name: string): nat {
    if name in segment.parts then segment.parts[name].1 else 0
  }

  lemma CountedTime(parts: map<string, (nat, nat)>, unit: UnitBar, name: string)
    ensures var before, after := parts, Counted(parts, unit);
            (if name in after then after[name].1 else 0) ==
            (if name in before then before[name].1 else 0) + if Operation(unit.tier, unit.span) == name then unit.ms else 0
  {
    hide Operation;
  }

  lemma BuiltTimeLast(built: seq<Segment>, segment: Segment)
    requires built != []
    ensures var next := built[|built| - 1 := segment];
            && BuiltTime(next) + Took(built[|built| - 1].pieces) == BuiltTime(built) + Took(segment.pieces)
  {
    assert built[|built| - 1 := segment][..|built| - 1] == built[..|built| - 1];
    hide Took;
  }

  lemma OperationTimeLast(built: seq<Segment>, segment: Segment, name: string)
    requires built != []
    ensures var next := built[|built| - 1 := segment];
            OperationTime(next, name) + PartTime(built[|built| - 1], name) == OperationTime(built, name) + PartTime(segment, name)
  {
    assert built[|built| - 1 := segment][..|built| - 1] == built[..|built| - 1];
  }

  lemma OperationTimeAppend(built: seq<Segment>, segment: Segment, name: string)
    ensures OperationTime(built + [segment], name) == OperationTime(built, name) + PartTime(segment, name)
  {
    assert (built + [segment])[..|built|] == built;
  }

  lemma AttachedTimes(built: seq<Segment>, unit: UnitBar, name: string)
    ensures BuiltTime(Attached(built, unit)) == BuiltTime(built) + unit.ms
    ensures OperationTime(Attached(built, unit), name) ==
            OperationTime(built, name) + if Operation(unit.tier, unit.span) == name then unit.ms else 0
  {
    hide BuiltTime, OperationTime, Operation, Counted, Took;
    var piece := PieceOf(unit);
    if |Attached(built, unit)| == |built| {
      var last := built[|built| - 1];
      var next := Segment(last.pieces + [piece], Counted(last.parts, unit));
      TookAppend(last.pieces, piece);
      CountedTime(last.parts, unit, name);
      BuiltTimeLast(built, next);
      OperationTimeLast(built, next, name);
    } else {
      var next := Segment([piece], Counted(map[], unit));
      NothingTook();
      TookAppend([], piece);
      assert [] + [piece] == [piece];
      CountedTime(map[], unit, name);
      BuiltTimeAppend(built, next);
      OperationTimeAppend(built, next, name);
    }
  }

  lemma NothingTook()
    ensures Took([]) == 0
  {
  }

  lemma JoinedLaid(built: seq<Segment>, segment: Segment)
    requires Laid(built) && built != []
    requires segment.pieces != [] && Sequential(segment.pieces)
    requires segment.pieces[0] == built[|built| - 1].pieces[0]
    ensures Laid(built[|built| - 1 := segment])
  {
  }

  lemma StartedLaid(built: seq<Segment>, segment: Segment)
    requires Laid(built)
    requires segment.pieces != [] && Sequential(segment.pieces)
    requires built != [] ==> LastEnd(built[|built| - 1]) < segment.pieces[0].start
    ensures Laid(built + [segment])
  {
    if built != [] {
      SegmentForward(built[|built| - 1].pieces);
    }
    hide Sequential;
    var a := built + [segment];
    forall i, j | 0 <= i < j < |a| ensures LastEnd(a[i]) < a[j].pieces[0].start {
      if j == |built| && i < |built| - 1 {
        assert LastEnd(built[i]) < built[|built| - 1].pieces[0].start;
      }
    }
  }

  lemma AttachedLaid(built: seq<Segment>, unit: UnitBar)
    requires Laid(built)
    requires built != [] ==> LastEnd(built[|built| - 1]) <= unit.start
    ensures var a := Attached(built, unit);
            Laid(a) && a != [] && LastEnd(a[|a| - 1]) == unit.start + unit.ms
  {
    var a := Attached(built, unit);
    var piece := PieceOf(unit);
    if built != [] {
      EndIsLast(built[|built| - 1].pieces);
    }
    assert Sequential([piece]);
    if |a| == |built| {
      var pieces := built[|built| - 1].pieces;
      assert Sequential(pieces + [piece]);
      hide Laid, Sequential, Counted, PieceOf;
      JoinedLaid(built, Segment(pieces + [piece], Counted(built[|built| - 1].parts, unit)));
    } else {
      hide Laid, Sequential, Counted, EndOf;
      StartedLaid(built, Segment([piece], Counted(map[], unit)));
    }
  }

  lemma {:induction false} SegmentForward(pieces: seq<Piece>)
    requires Sequential(pieces) && pieces != []
    ensures pieces[0].start <= pieces[|pieces| - 1].End()
  {
    if |pieces| > 1 { SegmentForward(pieces[..|pieces| - 1]); }
  }

  lemma {:induction false} GroupedLaid(units: seq<UnitBar>, end: nat)
    requires InOrder(units) && EndBy(units, end)
    ensures var g := Grouped(units);
            && Laid(g) && (g == [] <==> units == [])
            && (g != [] ==> LastEnd(g[|g| - 1]) == units[|units| - 1].start + units[|units| - 1].ms)
    ensures BuiltTime(Grouped(units)) == Time(units)
  {
    if units != [] {
      var before := units[..|units| - 1];
      GroupedLaid(before, end);
      AttachedLaid(Grouped(before), units[|units| - 1]);
      AttachedTimes(Grouped(before), units[|units| - 1], "");
      hide Attached, Laid;
    }
  }

  /** Every operation's time is on the lane's segments in full. */
  lemma {:induction false} OperationsAddUp(units: seq<UnitBar>, name: string)
    ensures OperationTime(Grouped(units), name) == NamedTime(units, name)
  {
    if units != [] {
      OperationsAddUp(units[..|units| - 1], name);
      AttachedTimes(Grouped(units[..|units| - 1]), units[|units| - 1], name);
      hide Attached, Operation;
    }
  }

  ghost predicate AllEndBy(built: seq<Segment>, end: int)
    requires Laid(built)
  {
    forall i :: 0 <= i < |built| ==> LastEnd(built[i]) <= end
  }

  lemma PrefixLaid(built: seq<Segment>)
    requires Laid(built) && built != []
    ensures var before, last := built[..|built| - 1], built[|built| - 1];
            && Laid(before) && last.pieces != [] && Sequential(last.pieces)
            && AllEndBy(before, last.pieces[0].start - 1)
  {
  }

  lemma LastEndsBy(built: seq<Segment>, end: int)
    requires Laid(built) && AllEndBy(built, end) && built != []
    ensures LastEnd(built[|built| - 1]) <= end
  {
  }

  /** Leaving out what took no time loses no time and keeps the order. */
  lemma {:induction false} TimedKeeps(built: seq<Segment>, end: int)
    requires Laid(built) && AllEndBy(built, end)
    ensures var t := Timed(built);
            Laid(t) && AllEndBy(t, end) && BuiltTime(t) == BuiltTime(built)
  {
    hide AllEndBy, Laid, Sequential, BuiltTime, Took, LastEnd, Timed;
    if built == [] {
      NothingLaid(end);
      TimedNone();
    } else {
      var before, last := built[..|built| - 1], built[|built| - 1];
      PrefixLaid(built);
      LastEndsBy(built, end);
      TimedKeeps(before, last.pieces[0].start - 1);
      BuiltTimeIs(built);
      TimedIs(built);
      TimedStep(Timed(before), last, end);
    }
  }

  lemma TimedNone()
    ensures Timed([]) == []
  {
  }

  lemma TimedIs(built: seq<Segment>)
    requires built != []
    ensures var t, last := Timed(built[..|built| - 1]), built[|built| - 1];
            Timed(built) == if Took(last.pieces) > 0 then t + [last] else t
  {
    hide Took;
  }

  lemma TimedStep(t: seq<Segment>, last: Segment, end: int)
    requires last.pieces != [] && Sequential(last.pieces) && LastEnd(last) <= end
    requires Laid(t) && AllEndBy(t, last.pieces[0].start - 1)
    ensures Laid(t) && AllEndBy(t, end)
    ensures Laid(t + [last]) && AllEndBy(t + [last], end)
    ensures BuiltTime(t + [last]) == BuiltTime(t) + Took(last.pieces)
  {
    SegmentForward(last.pieces);
    LastForward(last);
    hide AllEndBy, Sequential, BuiltTime, Took;
    EndLater(t, last.pieces[0].start - 1, end);
    if t != [] {
      LaidAt(t);
      LastEndsBy(t, last.pieces[0].start - 1);
    }
    BuiltTimeAppend(t, last);
    hide Laid;
    StartedLaid(t, last);
    EndsMore(t, last, end);
  }

  lemma LastForward(segment: Segment)
    requires segment.pieces != [] && Sequential(segment.pieces)
    ensures segment.pieces[0].start <= LastEnd(segment)
  {
    SegmentForward(segment.pieces);
  }

  lemma NothingLaid(end: int)
    ensures Laid([]) && AllEndBy([], end)
  {
  }

  lemma LaidAt(built: seq<Segment>)
    requires Laid(built) && built != []
    ensures built[|built| - 1].pieces != []
  {
  }

  lemma BuiltTimeIs(built: seq<Segment>)
    requires built != []
    ensures BuiltTime(built) == BuiltTime(built[..|built| - 1]) + Took(built[|built| - 1].pieces)
  {
  }

  lemma EndLater(built: seq<Segment>, end: int, later: int)
    requires Laid(built) && AllEndBy(built, end) && end <= later
    ensures AllEndBy(built, later)
  {
  }

  lemma EndsMore(built: seq<Segment>, last: Segment, end: int)
    requires Laid(built) && Laid(built + [last]) && AllEndBy(built, end)
    requires last.pieces != [] && LastEnd(last) <= end
    ensures AllEndBy(built + [last], end)
  {
    assert forall i :: 0 <= i < |built| ==> (built + [last])[i] == built[i];
    hide Laid;
  }

  lemma KeptKeeps(built: seq<Segment>, end: int)
    requires Laid(built) && AllEndBy(built, end)
    ensures var k := Kept(built);
            && Laid(k) && AllEndBy(k, end) && BuiltTime(k) == BuiltTime(built)
            && (built != [] ==> k != [])
  {
    TimedKeeps(built, end);
    if Timed(built) == [] && built != [] {
      NoTime(built);
      BuiltTimeAppend([], built[0]);
      assert [] + [built[0]] == [built[0]];
    }
  }

  lemma {:induction false} NoTime(built: seq<Segment>)
    requires Timed(built) == []
    ensures forall i :: 0 <= i < |built| ==> Took(built[i].pieces) == 0
  {
    if built != [] { NoTime(built[..|built| - 1]); }
  }

  // ---- Bars and labels ----

  ghost function BarTime(bars: seq<Bar>): nat {
    if bars == [] then 0 else BarTime(bars[..|bars| - 1]) + bars[|bars| - 1].ms
  }

  ghost function CaptionTime(bars: seq<Bar>): nat {
    if bars == [] then 0
    else CaptionTime(bars[..|bars| - 1]) + match bars[|bars| - 1].caption case None => 0 case Some(c) => c
  }

  lemma {:induction false} BarsAt(built: seq<Segment>, n: nat, scale: nat)
    requires n <= |built|
    ensures forall i :: 0 <= i < n ==>
              BarsTo(built, n, scale)[i] == BarOf(built[i], scale, CaptionOf(built, i, Close(scale)))
  {
    hide BarOf, CaptionOf, Close;
    if n > 0 { BarsAt(built, n - 1, scale); }
  }

  /** So far, the labels say all the time but what is carried on. */
  lemma {:induction false} LabelsSoFar(built: seq<Segment>, n: nat, scale: nat)
    requires n <= |built|
    ensures var bars := BarsTo(built, n, scale);
            BarTime(bars) == BuiltTime(built[..n]) && CaptionTime(bars) + Carried(built, n, Close(scale)) == BarTime(bars)
  {
    hide Roomy, Close, Drawn, Took, OnlyWork, End, Start;
    if n > 0 {
      LabelsSoFar(built, n - 1, scale);
      assert built[..n][..n - 1] == built[..n - 1];
      var before := BarsTo(built, n - 1, scale);
      var bar := BarOf(built[n - 1], scale, CaptionOf(built, n - 1, Close(scale)));
      assert BarsTo(built, n, scale) == before + [bar];
      hide BarsTo;
      assert (before + [bar])[..|before|] == before;
    }
  }

  /** A lane's labels add up to the lane, and so do its bars. */
  lemma LabelsAddUp(built: seq<Segment>, scale: nat)
    ensures var bars := BarsOf(built, scale);
            BarTime(bars) == BuiltTime(built) && CaptionTime(bars) == BuiltTime(built)
  {
    LabelsSoFar(built, |built|, scale);
    assert built[..|built|] == built;
    hide BarsTo, Close;
  }

  /** Each label says the time of the bars since the label before it: every bar
      is in exactly one label, as the last bar always has one. */
  ghost predicate SaysSince(bars: seq<Bar>, p: nat, i: nat)
    requires i < |bars|
  {
    && p <= i
    && (p == 0 || bars[p - 1].caption.Some?)
    && (forall k :: p <= k < i ==> bars[k].caption.None?)
    && bars[i].caption == Some(BarTime(bars[p..i + 1]))
  }

  ghost function GroupStart(built: seq<Segment>, i: nat, close: nat): (p: nat)
    requires i <= |built|
    ensures p <= i
  {
    if i == 0 || Roomy(built, i - 1, close) then i else GroupStart(built, i - 1, close)
  }

  lemma BarTimeMore(bars: seq<Bar>, p: nat, i: nat)
    requires p <= i < |bars|
    ensures BarTime(bars[p..i + 1]) == BarTime(bars[p..i]) + bars[i].ms
  {
    assert bars[p..i + 1][..i - p] == bars[p..i];
  }

  lemma BarSays(built: seq<Segment>, i: nat, scale: nat)
    requires i < |built|
    ensures var bars := BarsOf(built, scale);
            && bars[i].ms == Took(built[i].pieces)
            && (bars[i].caption.Some? <==> Roomy(built, i, Close(scale)))
            && (bars[i].caption.Some? ==> bars[i].caption.value == Carried(built, i, Close(scale)) + bars[i].ms)
  {
    BarsAt(built, |built|, scale);
    hide BarsTo, Drawn, Carried, Roomy, Close;
  }

  /** No bar from `p` up to `i` has a label, and the one before them has. */
  ghost predicate Unlabelled(bars: seq<Bar>, p: nat, i: nat)
    requires p <= i <= |bars|
  {
    && (p == 0 || bars[p - 1].caption.Some?)
    && (forall k :: p <= k < i ==> bars[k].caption.None?)
  }

  lemma {:induction false} CarriedIs(built: seq<Segment>, i: nat, scale: nat, bars: seq<Bar>)
    requires i <= |built| && bars == BarsOf(built, scale)
    ensures var p := GroupStart(built, i, Close(scale));
            Carried(built, i, Close(scale)) == BarTime(bars[p..i]) && Unlabelled(bars, p, i)
  {
    hide BarsTo, Close, BarsOf, Roomy;
    var p := GroupStart(built, i, Close(scale));
    assert BarTime(bars[i..i]) == 0;
    if i > 0 {
      BarSays(built, i - 1, scale);
      if p < i {
        CarriedIs(built, i - 1, scale, bars);
        BarTimeMore(bars, p, i - 1);
      }
    }
  }

  lemma LabelsPartition(built: seq<Segment>, scale: nat)
    ensures var bars := BarsOf(built, scale);
            && (bars != [] ==> bars[|bars| - 1].caption.Some?)
            && forall i :: 0 <= i < |bars| && bars[i].caption.Some? ==> exists p :: SaysSince(bars, p, i)
  {
    var bars := BarsOf(built, scale);
    if bars != [] { BarSays(built, |built| - 1, scale); }
    assert built != [] ==> Roomy(built, |built| - 1, Close(scale));
    hide *;
    forall i | 0 <= i < |bars| && bars[i].caption.Some? ensures exists p :: SaysSince(bars, p, i) {
      LabelSays(built, i, scale, bars);
    }
  }

  lemma LabelSays(built: seq<Segment>, i: nat, scale: nat, bars: seq<Bar>)
    requires i < |built| && bars == BarsOf(built, scale) && bars[i].caption.Some?
    ensures exists p :: SaysSince(bars, p, i)
  {
    hide BarsTo, Close, BarsOf, Roomy, Carried, GroupStart;
    BarSays(built, i, scale);
    CarriedIs(built, i, scale, bars);
    var p := GroupStart(built, i, Close(scale));
    BarTimeMore(bars, p, i);
    assert SaysSince(bars, p, i);
  }

  /** A bar's shapes tile it, its fills are its units' time. */
  ghost predicate WellDrawn(bar: Bar, pieces: seq<Piece>) {
    && Tiles(bar.shapes, bar.start, bar.End()) && Canonical(bar.shapes)
    && FillTime(bar.shapes) == SolidTime(pieces)
    && bar.ms == Took(pieces)
  }

  lemma BarIs(segment: Segment, scale: nat, caption: Option<nat>)
    requires segment.pieces != [] && Sequential(segment.pieces)
    ensures var bar := BarOf(segment, scale, caption);
            WellDrawn(bar, segment.pieces) && bar.start == segment.pieces[0].start && bar.End() == LastEnd(segment)
  {
    hide Drawn, Tiles, Canonical, FillTime, SolidTime, Took, OnlyWork, Sequential;
    ShapesTile(segment.pieces, scale);
    EndIsLast(segment.pieces);
    SegmentForward(segment.pieces);
    hide EndOf;
  }

  // ---- The lane and the round ----

  lemma GroupedEndBy(units: seq<UnitBar>, end: nat)
    requires InOrder(units) && EndBy(units, end)
    ensures Laid(Grouped(units)) && AllEndBy(Grouped(units), end)
  {
    GroupedLaid(units, end);
    var g := Grouped(units);
    hide Grouped;
    forall i | 0 <= i < |g| ensures LastEnd(g[i]) <= end {
      if i < |g| - 1 {
        assert LastEnd(g[i]) < g[|g| - 1].pieces[0].start;
        SegmentForward(g[|g| - 1].pieces);
      }
    }
  }

  /** A lane, drawn: its bars lie in time order with gaps between them, inside
      the scale; each is tiled by its shapes; bars and labels each add up to the
      lane's time, every bar in exactly one label. */
  lemma LaneDrawn(round: Round, tier: Tier)
    requires BackToBack(round.units)
    ensures var bars := LaneBars(round.units, tier, Scale(round));
            var lane := Time(OfTier(round.units, tier));
            && BarTime(bars) == lane && CaptionTime(bars) == lane
            && (bars != [] ==> bars[|bars| - 1].caption.Some?)
            && (forall i :: 0 <= i < |bars| && bars[i].caption.Some? ==> exists p :: SaysSince(bars, p, i))
            && InPlace(bars, Scale(round)) && EachWellDrawn(bars, Kept(Grouped(OfTier(round.units, tier))))
  {
    hide BarsOf, Grouped, Kept, Scale, OfTier, SaysSince, WellDrawn, InPlace, EachWellDrawn, Laid, InOrder, EndBy, AllEndBy, Time, BarTime, CaptionTime;
    var units := OfTier(round.units, tier);
    TierInOrder(round.units, tier);
    GroupedLaid(units, Time(round.units));
    GroupedEndBy(units, Time(round.units));
    var g := Grouped(units);
    KeptKeeps(g, Time(round.units));
    LabelsAddUp(Kept(g), Scale(round));
    LabelsPartition(Kept(g), Scale(round));
    ScaleHolds(round);
    BarsInPlace(Kept(g), Scale(round), Time(round.units));
  }

  lemma ScaleHolds(round: Round)
    ensures Time(round.units) <= Scale(round)
  {
  }

  /** In time order, with a gap after each, and inside the scale. */
  ghost predicate InPlace(bars: seq<Bar>, scale: nat) {
    && (forall i, j :: 0 <= i < j < |bars| ==> bars[i].End() < bars[j].start)
    && (forall i :: 0 <= i < |bars| ==> bars[i].End() <= scale)
  }

  ghost predicate EachWellDrawn(bars: seq<Bar>, built: seq<Segment>) {
    |bars| == |built| && forall i :: 0 <= i < |bars| ==> WellDrawn(bars[i], built[i].pieces)
  }

  lemma BarDrawn(built: seq<Segment>, i: nat, scale: nat)
    requires Laid(built) && i < |built|
    ensures var bars := BarsOf(built, scale);
            && WellDrawn(bars[i], built[i].pieces)
            && bars[i].start == built[i].pieces[0].start && bars[i].End() == LastEnd(built[i])
  {
    assert built[i].pieces != [] && Sequential(built[i].pieces);
    BarsAt(built, |built|, scale);
    BarIs(built[i], scale, CaptionOf(built, i, Close(scale)));
    hide BarsTo, CaptionOf, WellDrawn, BarOf, Close, Sequential, Laid;
  }

  lemma BarsDrawn(built: seq<Segment>, scale: nat)
    requires Laid(built)
    ensures EachWellDrawn(BarsOf(built, scale), built)
  {
    hide BarsOf, Laid, BarsTo, CaptionOf, BarOf, WellDrawn;
    var bars := BarsOf(built, scale);
    forall i | 0 <= i < |bars| ensures WellDrawn(bars[i], built[i].pieces) {
      BarDrawn(built, i, scale);
    }
  }

  lemma BarsPlaced(built: seq<Segment>, scale: nat, bars: seq<Bar>)
    requires Laid(built) && bars == BarsOf(built, scale)
    ensures forall i :: 0 <= i < |bars| ==> bars[i].start == built[i].pieces[0].start && bars[i].End() == LastEnd(built[i])
  {
    hide BarsOf, WellDrawn, Sequential, BarsTo, CaptionOf, BarOf;
    forall i | 0 <= i < |bars|
      ensures bars[i].start == built[i].pieces[0].start && bars[i].End() == LastEnd(built[i])
    {
      BarDrawn(built, i, scale);
    }
  }

  lemma BarsInPlace(built: seq<Segment>, scale: nat, end: nat)
    requires Laid(built) && AllEndBy(built, end) && end <= scale
    ensures InPlace(BarsOf(built, scale), scale) && EachWellDrawn(BarsOf(built, scale), built)
  {
    var bars := BarsOf(built, scale);
    BarsDrawn(built, scale);
    BarsPlaced(built, scale, bars);
    hide BarsOf, EachWellDrawn, Sequential;
    forall i, j | 0 <= i < j < |bars| ensures bars[i].End() < bars[j].start {
      assert LastEnd(built[i]) < built[j].pieces[0].start;
    }
    forall i | 0 <= i < |bars| ensures bars[i].End() <= end { assert LastEnd(built[i]) <= end; }
  }

  // ---- The end marker ----

  lemma {:induction false} NoneMarked(built: seq<Segment>, n: nat, scale: nat)
    requires n <= |built|
    ensures forall i :: 0 <= i < n ==> !BarsTo(built, n, scale)[i].last
  {
    if n > 0 { NoneMarked(built, n - 1, scale); }
    hide Drawn, CaptionOf, Close, Took, OnlyWork, Start, End;
  }

  lemma PlainUnmarked(round: Round, i: nat)
    requires i < |TIERS|
    ensures forall j :: 0 <= j < |PlainLanes(round)[i].bars| ==> !PlainLanes(round)[i].bars[j].last
  {
    var built := Kept(Grouped(OfTier(round.units, TIERS[i])));
    NoneMarked(built, |built|, Scale(round));
    hide BarsTo, Kept, Grouped, OfTier, Scale;
  }

  lemma MarkedIs(plain: seq<Lane>, x: nat, y: nat, i: nat, j: nat)
    requires x < |plain| && y < |plain[x].bars| && i < |plain| && j < |plain[i].bars|
    ensures var lanes := Marked(plain, x, y);
            && |lanes| == |plain| && |lanes[i].bars| == |plain[i].bars|
            && lanes[i].bars[j] == if (i, j) == (x, y) then plain[i].bars[j].(last := true) else plain[i].bars[j]
  {
  }

  lemma LatestIs(lanes: seq<Lane>, x: nat, y: nat, i: nat, j: nat)
    requires LatestOf(lanes, |lanes|, 0, x, y) && i < |lanes| && j < |lanes[i].bars|
    ensures x < |lanes| && y < |lanes[x].bars| && Outlasts(lanes[x].bars[y], lanes[i].bars[j])
  {
    assert Before(i, j, |lanes|, 0);
  }

  /** Bar `y` of lane `x` is the only one marked, and none finished after it. */
  ghost predicate OnlyLast(lanes: seq<Lane>, x: nat, y: nat, i: nat, j: nat)
    requires x < |lanes| && y < |lanes[x].bars| && i < |lanes| && j < |lanes[i].bars|
  {
    (lanes[i].bars[j].last <==> (i, j) == (x, y)) && Outlasts(lanes[x].bars[y], lanes[i].bars[j])
  }

  lemma MarkedOnlyLast(plain: seq<Lane>, x: nat, y: nat, i: nat, j: nat)
    requires LatestOf(plain, |plain|, 0, x, y) && i < |plain| && j < |plain[i].bars| && !plain[i].bars[j].last
    ensures x < |plain| && y < |plain[x].bars|
    ensures var lanes := Marked(plain, x, y);
            |lanes| == |plain| && |lanes[x].bars| == |plain[x].bars| && |lanes[i].bars| == |plain[i].bars|
            && OnlyLast(lanes, x, y, i, j)
  {
    LatestIs(plain, x, y, i, j);
    hide LatestOf, Marked;
    MarkedIs(plain, x, y, i, j);
    MarkedIs(plain, x, y, x, y);
  }

  /** Once a round has a unit, exactly one bar carries the end marker: of the bars
      that end last, one of those that start last. */
  lemma OneEndMarker(round: Round, lanes: seq<Lane>) returns (x: nat, y: nat)
    requires BackToBack(round.units) && round.units != []
    requires MarksLast(PlainLanes(round), lanes)
    ensures x < |lanes| && y < |lanes[x].bars|
    ensures forall i: nat, j: nat :: i < |lanes| && j < |lanes[i].bars| ==> OnlyLast(lanes, x, y, i, j)
  {
    var plain := PlainLanes(round);
    SomeBar(round);
    x, y :| LatestOf(plain, |plain|, 0, x, y) && lanes == Marked(plain, x, y);
    var first: nat :| first < |plain| && plain[first].bars != [];
    LatestIs(plain, x, y, first, 0);
    hide PlainLanes, PlainLane, Outlasts, BackToBack, TIERS, LatestOf, MarksLast, OnlyLast;
    MarkedIs(plain, x, y, x, y);
    forall i: nat, j: nat | i < |lanes| && j < |lanes[i].bars| ensures OnlyLast(lanes, x, y, i, j) {
      MarkedLengths(plain, x, y, i);
      PlainUnmarked(round, i);
      MarkedOnlyLast(plain, x, y, i, j);
    }
  }

  lemma MarkedLengths(plain: seq<Lane>, x: nat, y: nat, i: nat)
    requires x < |plain| && y < |plain[x].bars| && i < |plain|
    ensures |Marked(plain, x, y)[i].bars| == |plain[i].bars|
  {
  }

  lemma LaneHasBar(units: seq<UnitBar>, tier: Tier, scale: nat)
    requires BackToBack(units) && OfTier(units, tier) != []
    ensures LaneBars(units, tier, scale) != []
  {
    hide BarsOf, Kept, Grouped, OfTier, InOrder, EndBy, Laid, AllEndBy, Time;
    TierInOrder(units, tier);
    GroupedLaid(OfTier(units, tier), Time(units));
    GroupedEndBy(OfTier(units, tier), Time(units));
    KeptKeeps(Grouped(OfTier(units, tier)), Time(units));
  }

  lemma SomeBar(round: Round)
    requires BackToBack(round.units) && round.units != []
    ensures |PlainLanes(round)| == |TIERS|
    ensures exists i :: 0 <= i < |TIERS| && PlainLanes(round)[i].bars != []
  {
    var unit := round.units[|round.units| - 1];
    assert OfTier(round.units, unit.tier) != [];
    hide LaneBars, OfTier, Scale, BackToBack;
    LaneHasBar(round.units, unit.tier, Scale(round));
    var i := Place(unit.tier);
    hide Place;
    assert PlainLanes(round)[i] == PlainLane(round, TIERS[i]);
  }

  ghost function Place(tier: Tier): (i: nat)
    ensures i < |TIERS| && TIERS[i] == tier
  {
    match tier case Chain => 0 case Blocks => 1 case Mempool => 2 case Settlement => 3 case Upkeep => 4
  }
}
