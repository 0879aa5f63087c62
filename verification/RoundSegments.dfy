/** Which units make which segment of a lane, what a segment's drawing shows of each
    of its pieces, and which of its bars are labelled: in terms of the units, the
    gaps between them and the scale. */
module RoundSegments {
  import opened Wrappers
  import opened RoundDrawing
  import opened RoundConservation

  // ---- Which units make a segment ----

  /** The latest end of some units. */
  ghost function LatestEnd(units: seq<UnitBar>): nat {
    if units == [] then 0
    else
      var unit := units[|units| - 1];
      var before := LatestEnd(units[..|units| - 1]);
      if unit.start + unit.ms > before then unit.start + unit.ms else before
  }

  /** How many pieces the first `k` segments have. */
  ghost function Offset(built: seq<Segment>, k: nat): nat
    requires k <= |built|
  {
    if k == 0 then 0 else Offset(built, k - 1) + |built[k - 1].pieces|
  }

  /** The piece is the unit: solid unless it is work outside units, leftover in the
      pass that uses the remaining budget. */
  ghost predicate IsPiece(piece: Piece, unit: UnitBar) {
    && piece.start == unit.start && piece.ms == unit.ms
    && (piece.solid <==> unit.span.Unit?)
    && (piece.leftover <==> unit.span == Unit(2))
  }

  /** The segment is the run of units from `a` up to `b`: each of them but the first
      is work, or starts where those before it in the run end. */
  ghost predicate RunOf(segment: Segment, units: seq<UnitBar>, a: nat, b: nat) {
    && a < b <= |units| && |segment.pieces| == b - a
    && (forall i :: a <= i < b ==> IsPiece(segment.pieces[i - a], units[i]))
    && (forall i :: a < i < b ==> units[i].span.Unit? ==> units[i].start == LatestEnd(units[a..i]))
  }

  /** What a segment after another begins with: a unit, not starting where the units
      of the one before end. */
  ghost predicate Parted(units: seq<UnitBar>, a: nat, b: nat)
    requires a <= b < |units|
  {
    units[b].span.Unit? && units[b].start != LatestEnd(units[a..b])
  }

  /** The segments are the units, in order, parted exactly where they must be. */
  ghost predicate Split(built: seq<Segment>, units: seq<UnitBar>) {
    && Offset(built, |built|) == |units|
    && (forall k :: 0 <= k < |built| ==> RunOf(built[k], units, Offset(built, k), Offset(built, k + 1)))
    && (forall k :: 0 < k < |built| ==>
          Offset(built, k - 1) <= Offset(built, k) < |units| && Parted(units, Offset(built, k - 1), Offset(built, k)))
  }

  lemma {:induction false} OffsetSame(a: seq<Segment>, b: seq<Segment>, k: nat)
    requires k <= |a| && k <= |b| && forall i :: 0 <= i < k ==> |a[i].pieces| == |b[i].pieces|
    ensures Offset(a, k) == Offset(b, k)
  {
    if k > 0 { OffsetSame(a, b, k - 1); }
  }

  lemma RunMore(segment: Segment, units: seq<UnitBar>, unit: UnitBar, a: nat, b: nat)
    requires RunOf(segment, units, a, b)
    ensures RunOf(segment, units + [unit], a, b)
  {
    forall i | a < i < b ensures (units + [unit])[a..i] == units[a..i] {}
  }

  lemma PartedMore(units: seq<UnitBar>, unit: UnitBar, a: nat, b: nat)
    requires a <= b < |units| && Parted(units, a, b)
    ensures Parted(units + [unit], a, b)
  {
    assert (units + [unit])[a..b] == units[a..b];
  }

  lemma {:induction false} EndsAlike(pieces: seq<Piece>, units: seq<UnitBar>)
    requires |pieces| == |units| && forall i :: 0 <= i < |units| ==> IsPiece(pieces[i], units[i])
    ensures EndAt(pieces) == LatestEnd(units)
  {
    if units != [] { EndsAlike(pieces[..|units| - 1], units[..|units| - 1]); }
  }

  lemma AttachedJoins(built: seq<Segment>, units: seq<UnitBar>, unit: UnitBar, a: nat)
    requires built != [] && RunOf(built[|built| - 1], units, a, |units|)
    ensures var attached := Attached(built, unit);
            var joins := !unit.span.Unit? || unit.start == LatestEnd(units[a..]);
            && |attached| == (if joins then |built| else |built| + 1)
            && attached[..|built| - 1] == built[..|built| - 1]
            && (joins ==> RunOf(attached[|built| - 1], units + [unit], a, |units| + 1))
            && (!joins ==> attached[|built| - 1] == built[|built| - 1] && RunOf(attached[|built|], units + [unit], |units|, |units| + 1)
                           && Parted(units + [unit], a, |units|))
  {
    var last := built[|built| - 1];
    var more := units + [unit];
    assert units[a..|units|] == units[a..] == more[a..|units|];
    EndsAlike(last.pieces, units[a..]);
    assert forall i :: a < i < |units| ==> more[a..i] == units[a..i];
    hide Counted;
  }

  lemma AttachedOffsets(built: seq<Segment>, unit: UnitBar)
    ensures var attached := Attached(built, unit);
            && |built| <= |attached| <= |built| + 1 && (built == [] ==> |attached| == 1)
            && (forall k :: 0 <= k < |built| ==> Offset(attached, k) == Offset(built, k))
            && (|attached| > |built| ==> Offset(attached, |built|) == Offset(built, |built|))
            && Offset(attached, |attached|) == Offset(built, |built|) + 1
  {
    var attached := Attached(built, unit);
    hide Counted;
    forall k | 0 <= k < |built| ensures Offset(attached, k) == Offset(built, k) { OffsetSame(attached, built, k); }
    if |attached| > |built| { OffsetSame(attached, built, |built|); }
  }

  /** What a split says of one segment. */
  lemma SplitAt(built: seq<Segment>, units: seq<UnitBar>, k: nat)
    requires Split(built, units) && k < |built|
    ensures RunOf(built[k], units, Offset(built, k), Offset(built, k + 1)) && Offset(built, k) < Offset(built, k + 1) <= |units|
    ensures Offset(built, |built|) == |units|
    ensures k > 0 ==> Offset(built, k - 1) <= Offset(built, k) < |units| && Parted(units, Offset(built, k - 1), Offset(built, k))
  {
    assert RunOf(built[k], units, Offset(built, k), Offset(built, k + 1));
    hide Parted;
  }

  lemma RunsOn(built: seq<Segment>, units: seq<UnitBar>, unit: UnitBar, k: nat)
    requires Split(built, units) && built != [] && k < |Attached(built, unit)|
    ensures var attached := Attached(built, unit);
            RunOf(attached[k], units + [unit], Offset(attached, k), Offset(attached, k + 1))
  {
    hide Split, Attached, RunOf, Parted, LatestEnd;
    var n := |built|;
    SplitAt(built, units, n - 1);
    AttachedJoins(built, units, unit, Offset(built, n - 1));
    AttachedOffsets(built, unit);
    if k < n - 1 {
      assert Attached(built, unit)[k] == Attached(built, unit)[..n - 1][k] == built[k];
    }
    if k < n - 1 || (k == n - 1 && |Attached(built, unit)| == n + 1) {
      SplitAt(built, units, k);
      RunMore(built[k], units, unit, Offset(built, k), Offset(built, k + 1));
    }
  }

  lemma PartsOff(built: seq<Segment>, units: seq<UnitBar>, unit: UnitBar, k: nat)
    requires Split(built, units) && built != [] && 0 < k < |Attached(built, unit)|
    ensures var attached := Attached(built, unit);
            Offset(attached, k - 1) <= Offset(attached, k) <= |units| && Parted(units + [unit], Offset(attached, k - 1), Offset(attached, k))
  {
    hide Split, Attached, RunOf, LatestEnd, Parted;
    var n := |built|;
    SplitAt(built, units, n - 1);
    AttachedJoins(built, units, unit, Offset(built, n - 1));
    AttachedOffsets(built, unit);
    if k < n {
      SplitAt(built, units, k);
      PartedMore(units, unit, Offset(built, k - 1), Offset(built, k));
    }
  }

  lemma SplitsOn(built: seq<Segment>, units: seq<UnitBar>, unit: UnitBar)
    requires Split(built, units)
    ensures Split(Attached(built, unit), units + [unit])
  {
    var attached := Attached(built, unit);
    AttachedOffsets(built, unit);
    if built == [] {
      assert units == [];
      assert attached == [Segment([PieceOf(unit)], Counted(map[], unit))];
      hide Counted;
    } else {
      forall k | 0 <= k < |attached| ensures RunOf(attached[k], units + [unit], Offset(attached, k), Offset(attached, k + 1)) {
        RunsOn(built, units, unit, k);
      }
      forall k | 0 < k < |attached|
        ensures Offset(attached, k - 1) <= Offset(attached, k) <= |units| && Parted(units + [unit], Offset(attached, k - 1), Offset(attached, k))
      {
        PartsOff(built, units, unit, k);
      }
      hide Attached, RunOf, Parted, LatestEnd;
    }
  }

  /** For all units, in whatever order: the segments are the units' pieces in order,
      and one begins exactly at the first unit, and at each unit (never at work
      outside units) that does not start where the segment before it ends. */
  lemma {:induction false} SegmentsSplit(units: seq<UnitBar>)
    ensures Split(Grouped(units), units)
  {
    if units != [] {
      var before := units[..|units| - 1];
      SegmentsSplit(before);
      hide Split, Attached;
      SplitsOn(Grouped(before), before, units[|units| - 1]);
      assert before + [units[|units| - 1]] == units;
    }
  }

  /** Two ways of splitting the units so come out the same. */
  lemma {:induction false} SplitOneWay(a: seq<Segment>, b: seq<Segment>, units: seq<UnitBar>, k: nat)
    requires Split(a, units) && Split(b, units) && k <= |a|
    ensures k <= |b| && Offset(a, k) == Offset(b, k)
  {
    if k > 0 {
      SplitOneWay(a, b, units, k - 1);
      var from, to := Offset(a, k - 1), Offset(a, k);
      assert RunOf(a[k - 1], units, from, to);
      if k - 1 < |b| {
        var other := Offset(b, k);
        assert RunOf(b[k - 1], units, from, other);
        if to < other {
          NotBoth(a, b[k - 1], units, k, from, other);
        } else if other < to {
          NotBoth(b, a[k - 1], units, k, from, to);
        }
      }
    }
  }

  lemma NotBoth(a: seq<Segment>, longer: Segment, units: seq<UnitBar>, k: nat, from: nat, to: nat)
    requires Split(a, units) && 0 < k <= |a| && from == Offset(a, k - 1)
    requires RunOf(longer, units, from, to)
    ensures Offset(a, k) >= to
  {
    assert k < |a| ==> Parted(units, from, Offset(a, k));
    assert RunOf(a[k - 1], units, from, Offset(a, k));
  }

  /** Where some segment took time, the segments kept are those that did, in order;
      where none did, just the first is. */
  lemma {:induction false} TimedOnly(built: seq<Segment>)
    ensures var t := Timed(built);
            && (forall i :: 0 <= i < |t| ==> t[i] in built && Took(t[i].pieces) > 0)
            && (forall i :: 0 <= i < |built| && Took(built[i].pieces) > 0 ==> built[i] in t)
  {
    if built != [] {
      hide Took;
      TimedOnly(built[..|built| - 1]);
    }
  }

  lemma KeptOnly(built: seq<Segment>)
    ensures var k := Kept(built);
            if exists i :: 0 <= i < |built| && Took(built[i].pieces) > 0
            then (forall i :: 0 <= i < |k| ==> Took(k[i].pieces) > 0) && (forall i :: 0 <= i < |built| && Took(built[i].pieces) > 0 ==> built[i] in k)
            else k == if built == [] then [] else [built[0]]
  {
    TimedOnly(built);
    hide Took, Timed;
    assert Timed(built) != [] ==> Timed(built)[0] in built;
  }

  // ---- What is counted under which name ----

  /** Node requests and cache updates are counted apart from units; units that use
      the remaining budget together, whatever their tier; and others by tier. */
  lemma NamesApart(a: Tier, s: Span, b: Tier, t: Span)
    ensures Operation(a, s) == Operation(b, t) <==>
            if s.Outside? || t.Outside? then s == t
            else if s.pass == 2 || t.pass == 2 then s.pass == t.pass
            else a == b
  {
    var names := ["Node tip requests", "Fetched block cache updates", "Work using remaining budget", "Chain checks",
                  "Block scan work", "Mempool scan work", "Order settlement work", "Housekeeping work"];
    assert names[0][0] == 'N' && names[1][0] == 'F' && names[2][0] == 'W' && names[3][0] == 'C' && names[4][0] == 'B';
    assert names[5][0] == 'M' && names[6][0] == 'O' && names[7][0] == 'H';
  }

  ghost function NamedCount(units: seq<UnitBar>, name: string): nat {
    if units == [] then 0
    else
      var unit := units[|units| - 1];
      NamedCount(units[..|units| - 1], name) + if Operation(unit.tier, unit.span) == name then 1 else 0
  }

  /** The parts are the units', each operation with how often and how long it ran. */
  ghost predicate PartsOf(parts: map<string, (nat, nat)>, units: seq<UnitBar>) {
    forall name: string :: (name in parts <==> NamedCount(units, name) > 0) &&
      (name in parts ==> parts[name] == (NamedCount(units, name), NamedTime(units, name)))
  }

  lemma PartsMore(parts: map<string, (nat, nat)>, units: seq<UnitBar>, unit: UnitBar)
    requires PartsOf(parts, units)
    ensures PartsOf(Counted(parts, unit), units + [unit])
  {
    assert (units + [unit])[..|units|] == units;
    var counted := Counted(parts, unit);
    hide Operation;
    forall name: string
      ensures name in counted <==> NamedCount(units + [unit], name) > 0
      ensures name in counted ==> counted[name] == (NamedCount(units + [unit], name), NamedTime(units + [unit], name))
    {
      NamedNone(units, name);
    }
  }

  lemma {:induction false} NamedNone(units: seq<UnitBar>, name: string)
    ensures NamedCount(units, name) == 0 ==> NamedTime(units, name) == 0
  {
    if units != [] { NamedNone(units[..|units| - 1], name); }
  }

  ghost predicate PartsAt(built: seq<Segment>, units: seq<UnitBar>, k: nat)
    requires k < |built|
  {
    && Offset(built, k) <= Offset(built, k + 1) <= |units|
    && PartsOf(built[k].parts, units[Offset(built, k)..Offset(built, k + 1)])
  }

  ghost predicate AllParts(built: seq<Segment>, units: seq<UnitBar>) {
    Offset(built, |built|) == |units| && forall k :: 0 <= k < |built| ==> PartsAt(built, units, k)
  }

  lemma AttachedParts(built: seq<Segment>, unit: UnitBar, k: nat)
    requires k < |Attached(built, unit)|
    ensures var attached := Attached(built, unit);
            && (k < |built| - 1 || (k == |built| - 1 && |attached| > |built|) ==> attached[k].parts == built[k].parts)
            && (k == |built| - 1 && |attached| == |built| ==> attached[k].parts == Counted(built[k].parts, unit))
            && (k == |built| ==> attached[k].parts == Counted(map[], unit))
  {
    hide Counted;
  }

  lemma PartsOn(built: seq<Segment>, units: seq<UnitBar>, unit: UnitBar, k: nat)
    requires AllParts(built, units) && k < |Attached(built, unit)|
    ensures PartsAt(Attached(built, unit), units + [unit], k)
  {
    hide PartsOf, Counted, Attached;
    var more := units + [unit];
    var n := |built|;
    AttachedOffsets(built, unit);
    AttachedParts(built, unit, k);
    if k == n {
      NoParts();
      PartsMore(map[], [], unit);
      assert more[|units|..|units| + 1] == [] + [unit];
    } else {
      assert PartsAt(built, units, k);
      var a, b := Offset(built, k), Offset(built, k + 1);
      assert more[a..b] == units[a..b];
      if k == n - 1 && |Attached(built, unit)| == n {
        PartsMore(built[k].parts, units[a..b], unit);
        SliceMore(units, unit, a);
      }
    }
  }

  lemma SliceMore(units: seq<UnitBar>, unit: UnitBar, a: nat)
    requires a <= |units|
    ensures (units + [unit])[a..|units| + 1] == units[a..|units|] + [unit]
  {
  }

  lemma NoParts()
    ensures PartsOf(map[], [])
  {
  }

  /** Each segment counts its own units, by operation, and no others. */
  lemma {:induction false} PartsRight(units: seq<UnitBar>)
    ensures AllParts(Grouped(units), units)
  {
    if units != [] {
      var before, unit := units[..|units| - 1], units[|units| - 1];
      PartsRight(before);
      AttachedOffsets(Grouped(before), unit);
      assert before + [unit] == units;
      hide Attached, PartsAt;
      forall k | 0 <= k < |Grouped(units)| ensures PartsAt(Grouped(units), units, k) {
        PartsOn(Grouped(before), before, unit, k);
      }
    }
  }

  // ---- What the drawing shows of each piece ----

  /** The thread that leads to work after a gap: none for a gap under 2.5% of the
      scale, and with a band under 5%. */
  ghost function ThreadTo(end: nat, piece: Piece, scale: nat): set<Shape> {
    var gap := piece.start - end;
    var whole := if scale > 1 then scale else 1;
    if !piece.solid && gap >= 0 && gap * 1000 >= 25 * whole then {Thread(end, piece.start, gap * 1000 < 50 * whole)} else {}
  }

  /** The threads that there ought to be. */
  ghost function Gaps(pieces: seq<Piece>, scale: nat): set<Shape> {
    if |pieces| <= 1 then {}
    else
      var n := |pieces| - 1;
      Gaps(pieces[..n], scale) + ThreadTo(pieces[n - 1].start + pieces[n - 1].ms, pieces[n], scale)
  }

  ghost function Threads(out: seq<Shape>): set<Shape> {
    set i | 0 <= i < |out| && out[i].Thread? :: out[i]
  }

  lemma ThreadsAppend(out: seq<Shape>, shape: Shape)
    ensures Threads(out + [shape]) == Threads(out) + if shape.Thread? then {shape} else {}
  {
    var more := out + [shape];
    assert more[|out|] == shape;
    forall s | s in Threads(out) ensures s in Threads(more) {
      var i :| 0 <= i < |out| && out[i].Thread? && out[i] == s;
      assert more[i] == s;
    }
  }

  lemma ThreadsExtended(out: seq<Shape>, to: nat)
    requires out != [] && !out[|out| - 1].Thread?
    ensures Threads(LastExtended(out, to)) == Threads(out)
  {
    var more := LastExtended(out, to);
    forall s | s in Threads(out) ensures s in Threads(more) {
      var i :| 0 <= i < |out| && out[i].Thread? && out[i] == s;
      assert more[i] == s;
    }
    forall s | s in Threads(more) ensures s in Threads(out) {
      var i :| 0 <= i < |more| && more[i].Thread? && more[i] == s;
      assert out[i] == s;
    }
  }

  /** The last shape, extended or just drawn, shows the piece. */
  ghost predicate Shows(shape: Shape, piece: Piece) {
    && shape.from <= piece.start && piece.start + piece.ms <= shape.to
    && if piece.solid then shape.Fill? && shape.leftover == piece.leftover else shape.Work?
  }

  ghost predicate Shown(out: seq<Shape>, piece: Piece) {
    exists i :: 0 <= i < |out| && Shows(out[i], piece)
  }

  lemma ShownOn(out: seq<Shape>, piece: Piece, shape: Shape)
    requires Shown(out, piece)
    ensures Shown(out + [shape], piece)
  {
    var i :| 0 <= i < |out| && Shows(out[i], piece);
    assert Shows((out + [shape])[i], piece);
  }

  lemma ShownExtended(out: seq<Shape>, piece: Piece, to: nat)
    requires Shown(out, piece) && out[|out| - 1].to <= to
    ensures Shown(LastExtended(out, to), piece)
  {
    var i :| 0 <= i < |out| && Shows(out[i], piece);
    assert Shows(LastExtended(out, to)[i], piece);
  }

  /** One piece more, after a drawing that ends where it should. */
  lemma DrawShows(out: seq<Shape>, end: nat, piece: Piece, scale: nat, before: Piece)
    requires out != [] && !out[|out| - 1].Thread? && out[|out| - 1].from <= out[|out| - 1].to == end <= piece.start
    requires piece.solid ==> end == piece.start
    ensures var d := Draw(out, Some(end), piece, scale);
            && Threads(d) == Threads(out) + ThreadTo(end, piece, scale)
            && Shown(d, piece)
            && (Shown(out, before) ==> Shown(d, before))
  {
    var d := Draw(out, Some(end), piece, scale);
    var to := piece.End();
    DrawCases(out, end, piece, scale);
    DrawKind(out, end, piece, scale);
    hide Draw, Shown, Shows, Fits, Threads;
    if |d| == |out| {
      ThreadsExtended(out, to);
      if Shown(out, before) { ShownExtended(out, before, to); }
    } else if |d| == |out| + 1 {
      ThreadsAppend(out, d[|out|]);
      if Shown(out, before) { ShownOn(out, before, d[|out|]); }
    } else {
      ThreadsAppend(out, d[|out|]);
      ThreadsAppend(out + [d[|out|]], d[|out| + 1]);
      assert d == out + [d[|out|]] + [d[|out| + 1]];
      if Shown(out, before) {
        ShownOn(out, before, d[|out|]);
        ShownOn(out + [d[|out|]], before, d[|out| + 1]);
      }
    }
  }

  lemma DrawKind(out: seq<Shape>, end: nat, piece: Piece, scale: nat)
    requires out != [] && !out[|out| - 1].Thread? && out[|out| - 1].from <= out[|out| - 1].to == end <= piece.start
    requires piece.solid ==> end == piece.start
    ensures var d := Draw(out, Some(end), piece, scale);
            var gap := piece.start - end;
            var whole := if scale > 1 then scale else 1;
            && (|d| == |out| + 2 <==> !piece.solid && gap * 1000 >= 25 * whole)
            && (|d| == |out| + 2 ==> d[|out|] == Thread(end, piece.start, gap * 1000 < 50 * whole))
            && Shown(d, piece)
  {
    var d := Draw(out, Some(end), piece, scale);
    assert Shows(d[|d| - 1], piece);
  }

  /** A segment's drawing has a thread for each wide gap, and no other. */
  lemma {:induction false} ThreadsAreGaps(pieces: seq<Piece>, scale: nat)
    requires Sequential(pieces)
    ensures Threads(Drawn(pieces, scale)) == Gaps(pieces, scale)
  {
    hide Drawn, Threads, Shown, Draw, Gaps, ThreadTo;
    if |pieces| == 0 {
      NothingDrawn(scale);
    } else if |pieces| == 1 {
      OneShown(pieces, scale);
    } else {
      var n := |pieces| - 1;
      DrawnStep(pieces, scale);
      ThreadsAreGaps(pieces[..n], scale);
      GapsIs(pieces, scale);
      hide Sequential;
      DrawShows(Drawn(pieces[..n], scale), pieces[n - 1].End(), pieces[n], scale, pieces[n]);
    }
  }

  /** It shows each piece in a box of its kind: units filled, as of their pass, work
      outlined. */
  lemma {:induction false} EachPieceShown(pieces: seq<Piece>, scale: nat, i: nat)
    requires Sequential(pieces) && i < |pieces|
    ensures Shown(Drawn(pieces, scale), pieces[i])
  {
    hide Drawn, Threads, Shown, Draw, ThreadTo;
    if |pieces| == 1 {
      OneShown(pieces, scale);
    } else {
      var n := |pieces| - 1;
      DrawnStep(pieces, scale);
      if i < n { EachPieceShown(pieces[..n], scale, i); }
      hide Sequential;
      DrawShows(Drawn(pieces[..n], scale), pieces[n - 1].End(), pieces[n], scale, pieces[i]);
    }
  }

  lemma NothingDrawn(scale: nat)
    ensures Threads(Drawn([], scale)) == {} == Gaps([], scale)
  {
  }

  lemma GapsIs(pieces: seq<Piece>, scale: nat)
    requires |pieces| > 1
    ensures var n := |pieces| - 1;
            Gaps(pieces, scale) == Gaps(pieces[..n], scale) + ThreadTo(pieces[n - 1].End(), pieces[n], scale)
  {
    hide ThreadTo;
  }

  /** The last piece is drawn after the others, where they end. */
  lemma DrawnStep(pieces: seq<Piece>, scale: nat)
    requires Sequential(pieces) && |pieces| > 1
    ensures var n := |pieces| - 1;
            var out, end := Drawn(pieces[..n], scale), pieces[n - 1].End();
            && Sequential(pieces[..n]) && Drawn(pieces, scale) == Draw(out, Some(end), pieces[n], scale)
            && out != [] && !out[|out| - 1].Thread? && out[|out| - 1].from <= out[|out| - 1].to == end <= pieces[n].start
            && (pieces[n].solid ==> end == pieces[n].start)
  {
    hide Drawn, Tiles, Canonical, FillTime, Draw, SolidTime;
    var n := |pieces| - 1;
    var before := pieces[..n];
    ShapesTile(before, scale);
    EndIsLast(before);
    LastEndsAt(Drawn(before, scale), before[0].start, before[n - 1].End());
    DrawnIs(pieces, scale, before[n - 1].End());
  }

  lemma OneShown(pieces: seq<Piece>, scale: nat)
    requires |pieces| == 1
    ensures Threads(Drawn(pieces, scale)) == {} == Gaps(pieces, scale) && Shown(Drawn(pieces, scale), pieces[0])
  {
    assert Drawn(pieces[..0], scale) == [] && EndOf(pieces[..0]) == None;
    assert Shows(Drawn(pieces, scale)[0], pieces[0]);
  }

  lemma DrawnIs(pieces: seq<Piece>, scale: nat, end: nat)
    requires pieces != [] && EndOf(pieces[..|pieces| - 1]) == Some(end)
    ensures Drawn(pieces, scale) == Draw(Drawn(pieces[..|pieces| - 1], scale), Some(end), pieces[|pieces| - 1], scale)
  {
  }

  // ---- Bars ----

  /** A bar is labelled exactly if it is the lane's last or the next one starts at
      least 8% of the scale after it; it is of work alone exactly if no unit is in it. */
  lemma BarsLabelled(built: seq<Segment>, scale: nat, i: nat)
    requires Laid(built) && i < |built|
    ensures var bars := BarsOf(built, scale);
            && (bars[i].caption.Some? <==> i + 1 == |built| || bars[i + 1].start - bars[i].End() >= scale * 8 / 100)
            && (bars[i].work <==> forall j :: 0 <= j < |built[i].pieces| ==> !built[i].pieces[j].solid)
            && bars[i].parts == built[i].parts
  {
    BarSays(built, i, scale);
    BarsAt(built, |built|, scale);
    BarDrawn(built, i, scale);
    EndIsLast(built[i].pieces);
    if i + 1 < |built| { BarDrawn(built, i + 1, scale); }
    hide BarsTo, Drawn, Carried, WellDrawn, Sequential, Took, EndOf;
  }

  /** The scale is the round's budget, or its time if it is over it, for a round drawn
      to its budget; otherwise its time and 15% more, at least ten milliseconds. */
  lemma ScaleSays(round: Round)
    ensures var elapsed := Time(round.units);
            Scale(round) == if round.toBudget then (if round.budget > elapsed then round.budget else elapsed)
                            else if elapsed * 115 >= 1100 then elapsed * 115 / 100 else 10
  {
  }

  /** Neighbours are drawn as one run only where neither is a thread and the one
      starts just where the other ends. */
  lemma MeetsSays(a: Shape, b: Shape)
    ensures Meets(Some(a), Some(b)) ==> a.to == b.from && !a.Thread? && !b.Thread?
    ensures a.to == b.from && !a.Thread? && !b.Thread? ==> Meets(Some(a), Some(b))
    ensures !Meets(Some(a), None) && !Meets(None, Some(b)) && !Meets(None, None)
  {
  }

  // ---- The end marker ----

  /** Bar `a` ends later than `b`; or with it and starts later; or both with it, and is
      drawn no earlier. */
  ghost predicate EndsAfter(a: Bar, b: Bar, drawnBefore: bool) {
    var x, y := a.start + a.span, b.start + b.span;
    x > y || (x == y && (a.start > b.start || (a.start == b.start && !drawnBefore)))
  }

  /** When there is a bar the end marker is on one, and every other comes before it by
      its end, then its start, then its place; nothing else is changed. */
  lemma EndMarkerSays(plain: seq<Lane>, lanes: seq<Lane>, some: nat) returns (x: nat, y: nat)
    requires MarksLast(plain, lanes) && some < |plain| && plain[some].bars != []
    ensures x < |plain| && y < |plain[x].bars|
    ensures lanes == plain[x := plain[x].(bars := plain[x].bars[y := plain[x].bars[y].(last := true)])]
    ensures forall i: nat, j: nat :: i < |plain| && j < |plain[i].bars| ==>
              EndsAfter(plain[x].bars[y], plain[i].bars[j], x < i || (x == i && y < j))
  {
    x, y :| LatestOf(plain, |plain|, 0, x, y) && lanes == Marked(plain, x, y);
    forall i: nat, j: nat | i < |plain| && j < |plain[i].bars|
      ensures EndsAfter(plain[x].bars[y], plain[i].bars[j], x < i || (x == i && y < j))
    {
      assert Before(i, j, |plain|, 0);
      assert x < i || (x == i && y < j) <==> Before(x, y, i, j);
    }
  }
}
