/** Where the engine page's chain strip puts things: which level each label goes
    on, and which blocks are drawn. */
module StripLayout {
  import opened Wrappers

  const LABEL_GAP := 4.0
  const CUT_FROM := 20

  // ---- Labels ----

  /** A label's left and right edges. */
  datatype Label = Label(left: real, right: real)

  predicate Clear(a: Label, b: Label) {
    a.right + LABEL_GAP <= b.left || b.right + LABEL_GAP <= a.left
  }

  predicate ClearOfAll(on: seq<Label>, box: Label) {
    forall i :: 0 <= i < |on| ==> Clear(on[i], box)
  }

  /** Each label is on the lowest level that has room: clear of all that came
      before it there, and in the way of one that did on each level below. */
  ghost predicate Stacked(spans: seq<Label>, levels: seq<nat>) {
    && |levels| == |spans|
    && (forall i, j :: 0 <= i < j < |spans| && levels[i] == levels[j] ==> Clear(spans[i], spans[j]))
    && (forall j, k: nat :: 0 <= j < |spans| && k < levels[j] ==> InTheWay(spans, levels, j, k))
  }

  ghost predicate InTheWay(spans: seq<Label>, levels: seq<nat>, j: nat, k: nat)
    requires j < |spans| == |levels|
  {
    exists i :: 0 <= i < j && levels[i] == k && !Clear(spans[i], spans[j])
  }

  ghost predicate EveryLevelUsed(levels: seq<nat>, used: nat) {
    && (forall i :: 0 <= i < |levels| ==> levels[i] < used)
    && (forall k: nat :: k < used ==> k in levels)
  }

  /** The labels of the first `n` on level `k`, in the order placed. */
  function OnLevel(spans: seq<Label>, levels: seq<nat>, n: nat, k: nat): seq<Label>
    requires n <= |spans| && n <= |levels|
  {
    if n == 0 then []
    else OnLevel(spans, levels, n - 1, k) + if levels[n - 1] == k then [spans[n - 1]] else []
  }

  lemma {:induction false} OnLevelHas(spans: seq<Label>, levels: seq<nat>, n: nat, k: nat, i: nat)
    requires i < n <= |spans| && n <= |levels| && levels[i] == k
    ensures exists m :: 0 <= m < |OnLevel(spans, levels, n, k)| && OnLevel(spans, levels, n, k)[m] == spans[i]
  {
    var on := OnLevel(spans, levels, n, k);
    if i == n - 1 {
      assert on[|on| - 1] == spans[i];
    } else {
      OnLevelHas(spans, levels, n - 1, k, i);
      var m :| 0 <= m < |OnLevel(spans, levels, n - 1, k)| && OnLevel(spans, levels, n - 1, k)[m] == spans[i];
      assert on[m] == spans[i];
    }
  }

  lemma {:induction false} OnLevelFrom(spans: seq<Label>, levels: seq<nat>, n: nat, k: nat, m: nat)
    requires n <= |spans| && n <= |levels| && m < |OnLevel(spans, levels, n, k)|
    ensures exists i :: 0 <= i < n && levels[i] == k && spans[i] == OnLevel(spans, levels, n, k)[m]
  {
    if m < |OnLevel(spans, levels, n - 1, k)| {
      OnLevelFrom(spans, levels, n - 1, k, m);
    }
  }

  lemma {:induction false} OnLevelSame(spans: seq<Label>, levels: seq<nat>, more: seq<nat>, n: nat, k: nat)
    requires n <= |spans| && n <= |levels| && levels <= more
    ensures OnLevel(spans, levels, n, k) == OnLevel(spans, more, n, k)
  {
    if n > 0 { OnLevelSame(spans, levels, more, n - 1, k); }
  }

  /** Placing one more label where `FirstClear` finds room keeps the stack. */
  lemma PlacedStacks(spans: seq<Label>, levels: seq<nat>, n: nat, level: nat)
    requires n < |spans| && |levels| == n && Stacked(spans[..n], levels)
    requires forall k: nat :: k < level ==> !ClearOfAll(OnLevel(spans, levels, n, k), spans[n])
    requires ClearOfAll(OnLevel(spans, levels, n, level), spans[n])
    ensures Stacked(spans[..n + 1], levels + [level])
  {
    var more := levels + [level];
    var shown := spans[..n + 1];
    forall i | 0 <= i < n && more[i] == level ensures Clear(shown[i], shown[n]) {
      OnLevelHas(spans, levels, n, level, i);
    }
    forall i, j | 0 <= i < j < |shown| && more[i] == more[j] ensures Clear(shown[i], shown[j]) {
      if j < n { assert Clear(spans[..n][i], spans[..n][j]); }
    }
    forall j, k: nat | 0 <= j < |shown| && k < more[j] ensures InTheWay(shown, more, j, k) {
      if j < n {
        assert InTheWay(spans[..n], levels, j, k);
        var i :| 0 <= i < j && levels[i] == k && !Clear(spans[..n][i], spans[..n][j]);
        assert more[i] == k && !Clear(shown[i], shown[j]);
      } else {
        var on := OnLevel(spans, levels, n, k);
        var m :| 0 <= m < |on| && !Clear(on[m], spans[n]);
        OnLevelFrom(spans, levels, n, k, m);
        var i :| 0 <= i < n && levels[i] == k && spans[i] == on[m];
        assert more[i] == k && !Clear(shown[i], shown[n]);
      }
    }
  }

  /** The first `n` labels are placed: `placed` holds each level's. */
  ghost predicate Placed(spans: seq<Label>, levels: seq<nat>, placed: seq<seq<Label>>, n: nat) {
    && n <= |spans| && |levels| == n && Stacked(spans[..n], levels) && EveryLevelUsed(levels, |placed|)
    && forall k :: 0 <= k < |placed| ==> placed[k] == OnLevel(spans, levels, n, k)
  }

  lemma UsedMore(levels: seq<nat>, used: nat, level: nat)
    requires EveryLevelUsed(levels, used) && level <= used
    ensures EveryLevelUsed(levels + [level], if level == used then used + 1 else used)
  {
    var more := levels + [level];
    assert more[|levels|] == level;
    forall k: nat | k in levels ensures k in more {
      var i :| 0 <= i < |levels| && levels[i] == k;
      assert more[i] == k;
    }
  }

  lemma OnLevelMore(spans: seq<Label>, levels: seq<nat>, n: nat, level: nat, k: nat)
    requires n < |spans| && |levels| == n
    ensures OnLevel(spans, levels + [level], n + 1, k) ==
            OnLevel(spans, levels, n, k) + if level == k then [spans[n]] else []
  {
    OnLevelSame(spans, levels, levels + [level], n, k);
  }

  lemma PlacedMore(spans: seq<Label>, levels: seq<nat>, placed: seq<seq<Label>>, n: nat, level: nat)
    requires Placed(spans, levels, placed, n) && n < |spans| && level <= |placed|
    requires forall k :: 0 <= k < level ==> !ClearOfAll(placed[k], spans[n])
    requires level < |placed| ==> ClearOfAll(placed[level], spans[n])
    ensures var wider := if level == |placed| then placed + [[]] else placed;
            Placed(spans, levels + [level], wider[level := wider[level] + [spans[n]]], n + 1)
  {
    var wider := if level == |placed| then placed + [[]] else placed;
    NothingThere(spans, levels, n, |placed|);
    UsedMore(levels, |placed|, level);
    assert ClearOfAll([], spans[n]);
    hide ClearOfAll, OnLevel, Stacked, EveryLevelUsed;
    assert forall k: nat :: k < |wider| ==> wider[k] == OnLevel(spans, levels, n, k);
    assert forall k: nat :: k < level ==> placed[k] == OnLevel(spans, levels, n, k);
    PlacedStacks(spans, levels, n, level);
    var next := wider[level := wider[level] + [spans[n]]];
    forall k: nat | k < |next| ensures next[k] == OnLevel(spans, levels + [level], n + 1, k) {
      OnLevelMore(spans, levels, n, level, k);
    }
  }

  method StackLabels(spans: seq<Label>) returns (levels: seq<nat>, used: nat)
    ensures Stacked(spans, levels)
    ensures if spans == [] then used == 1 else EveryLevelUsed(levels, used)
  {
    var placed: seq<seq<Label>> := [];
    levels := [];
    for n := 0 to |spans|
      invariant Placed(spans, levels, placed, n)
    {
      var level := FirstClear(placed, spans[n]);
      PlacedMore(spans, levels, placed, n, level);
      hide Placed;
      if level == |placed| {
        placed := placed + [[]];
      }
      placed := placed[level := placed[level] + [spans[n]]];
      levels := levels + [level];
    }
    assert spans[..|spans|] == spans;
    assert |placed| > 0 ==> 0 in levels;
    if spans != [] { assert levels[0] < |placed|; }
    used := if |placed| > 1 then |placed| else 1;
  }

  lemma {:induction false} NothingThere(spans: seq<Label>, levels: seq<nat>, n: nat, k: nat)
    requires n <= |spans| && n <= |levels| && forall i :: 0 <= i < n ==> levels[i] < k
    ensures OnLevel(spans, levels, n, k) == []
  {
    if n > 0 { NothingThere(spans, levels, n - 1, k); }
  }

  /** The lowest level clear of the label, or the next one. */
  method FirstClear(placed: seq<seq<Label>>, box: Label) returns (level: nat)
    ensures level <= |placed|
    ensures forall k :: 0 <= k < level ==> !ClearOfAll(placed[k], box)
    ensures level < |placed| ==> ClearOfAll(placed[level], box)
  {
    level := 0;
    while level < |placed| && !ClearOfAll(placed[level], box)
      invariant level <= |placed|
      invariant forall k :: 0 <= k < level ==> !ClearOfAll(placed[k], box)
    {
      level := level + 1;
    }
  }

  /** There is only one such stacking: the rule settles every label's level. */
  lemma {:induction false} StackedOneWay(spans: seq<Label>, a: seq<nat>, b: seq<nat>, n: nat)
    requires Stacked(spans, a) && Stacked(spans, b) && n <= |spans|
    ensures a[..n] == b[..n]
  {
    if n > 0 {
      StackedOneWay(spans, a, b, n - 1);
      var j := n - 1;
      assert forall i :: 0 <= i < j ==> a[i] == a[..j][i] == b[..j][i] == b[i];
      if a[j] < b[j] {
        NoRoomBelow(spans, a, b, j);
      } else if b[j] < a[j] {
        NoRoomBelow(spans, b, a, j);
      }
      assert a[..n] == a[..j] + [a[j]] && b[..n] == b[..j] + [b[j]];
    }
  }

  lemma OwnLevelClear(spans: seq<Label>, levels: seq<nat>, j: nat)
    requires Stacked(spans, levels) && j < |spans|
    ensures !InTheWay(spans, levels, j, levels[j])
  {
  }

  lemma SameInTheWay(spans: seq<Label>, a: seq<nat>, b: seq<nat>, j: nat, k: nat)
    requires j < |spans| == |a| == |b| && forall i :: 0 <= i < j ==> a[i] == b[i]
    ensures InTheWay(spans, a, j, k) == InTheWay(spans, b, j, k)
  {
  }

  lemma NoRoomBelow(spans: seq<Label>, a: seq<nat>, b: seq<nat>, j: nat)
    requires Stacked(spans, a) && Stacked(spans, b) && j < |spans|
    requires forall i :: 0 <= i < j ==> a[i] == b[i]
    ensures a[j] >= b[j]
  {
    OwnLevelClear(spans, a, j);
    SameInTheWay(spans, a, b, j, a[j]);
    hide InTheWay;
  }

  // ---- Blocks ----

  datatype Chain = Chain(tip: Option<nat>, highWater: Option<nat>, lowest: Option<nat>)

  function Max(a: int, b: int): int { if a > b then a else b }

  function Min(a: int, b: int): int { if a < b then a else b }

  /** The block still to come. */
  function Right(chain: Chain): nat
    requires chain.tip.Some? && chain.highWater.Some?
  {
    Max(chain.tip.value, chain.highWater.value) + 1
  }

  /** The lowest cursor, in steps of five. */
  function Lowest(chain: Chain): nat
    requires chain.highWater.Some?
  {
    Min(if chain.lowest.Some? then chain.lowest.value else chain.highWater.value, chain.highWater.value) / 5 * 5
  }

  /** The heights from `a` to `b`, both in. */
  function Heights(a: int, b: int): seq<Option<int>> {
    if b < a then [] else seq(b - a + 1, i => Some(a + i))
  }

  predicate Cuts(chain: Chain, cells: nat)
    requires chain.tip.Some? && chain.highWater.Some?
  {
    cells >= CUT_FROM && Lowest(chain) - 1 < Max(0, Right(chain) - cells + 1)
  }

  function Blocks(chain: Chain, cells: nat): seq<Option<int>> {
    if chain.tip.None? || chain.highWater.None? then []
    else
      var right, lowest := Right(chain), Lowest(chain);
      if !Cuts(chain, cells) then Heights(Max(0, right - cells + 1), right)
      else Heights(Max(0, lowest - 1), lowest + 5) + [None] + Heights(right - (cells - 11), right)
  }

  method VisibleBlocks(chain: Chain, cells: nat) returns (all: seq<Option<int>>)
    ensures all == Blocks(chain, cells)
  {
    if chain.tip.None? || chain.highWater.None? { return []; }
    var right := Max(chain.tip.value, chain.highWater.value) + 1;
    var lowest := Min(if chain.lowest.Some? then chain.lowest.value else chain.highWater.value, chain.highWater.value) / 5 * 5;
    var left := Max(0, right - cells + 1);
    if cells < CUT_FROM || lowest - 1 >= left {
      all := Through([], left, right);
      return;
    }
    all := Through([], Max(0, lowest - 1), lowest + 5);
    all := all + [None];
    all := Through(all, right - (cells - 11), right);
  }

  /** The heights pushed one by one. */
  method Through(before: seq<Option<int>>, a: int, b: int) returns (all: seq<Option<int>>)
    ensures all == before + Heights(a, b)
  {
    all := before;
    var h := a;
    while h <= b
      invariant h == a || a <= h <= b + 1
      invariant all == before + Heights(a, h - 1)
      decreases b - h
    {
      all := all + [Some(h)];
      h := h + 1;
    }
    assert Heights(a, h - 1) == Heights(a, b);
  }

  /** Heights rise along the strip, the cut aside. */
  ghost predicate Ascending(all: seq<Option<int>>) {
    forall i, j :: 0 <= i < j < |all| && all[i].Some? && all[j].Some? ==> all[i].value < all[j].value
  }

  /** The cells a strip takes, the cut being as wide as three. */
  ghost function Width(all: seq<Option<int>>): nat {
    if all == [] then 0 else Width(all[..|all| - 1]) + if all[|all| - 1].None? then 3 else 1
  }

  lemma {:induction false} WidthOf(before: seq<Option<int>>, a: int, b: int)
    ensures Width(before + Heights(a, b)) == Width(before) + if b < a then 0 else b - a + 1
    decreases b - a
  {
    var all := before + Heights(a, b);
    if b < a {
      assert all == before;
    } else {
      WidthOf(before, a, b - 1);
      assert all[..|all| - 1] == before + Heights(a, b - 1);
    }
  }

  lemma CutWidth(a: nat, b: nat, c: int, d: int)
    requires a <= b && c <= d
    ensures Width(Heights(a, b) + [None] + Heights(c, d)) == (b - a + 1) + 3 + (d - c + 1)
  {
    var none: seq<Option<int>> := [];
    var first := Heights(a, b);
    assert Width(none) == 0;
    assert (first + [None])[..|first|] == first && Width(first + [None]) == Width(first) + 3;
    hide Width;
    WidthOf(none, a, b);
    assert none + first == first;
    WidthOf(first + [None], c, d);
  }

  lemma CutFits(lowest: nat, right: nat, cells: nat)
    requires cells >= CUT_FROM && right > lowest
    ensures var all := Heights(Max(0, lowest - 1), lowest + 5) + [None] + Heights(right - (cells - 11), right);
            && all != [] && all[|all| - 1] == Some(right)
            && Width(all) == (if lowest > 0 then cells else cells - 1)
            && Some(lowest) in all
  {
    hide Width, Heights;
    var a := Max(0, lowest - 1);
    CutWidth(a, lowest + 5, right - (cells - 11), right);
    var first, rest := Heights(a, lowest + 5), Heights(right - (cells - 11), right);
    HeightsAt(a, lowest + 5, lowest);
    HeightsAt(right - (cells - 11), right, right);
    var all := first + [None] + rest;
    assert all[lowest - a] == first[lowest - a];
    assert all[|all| - 1] == rest[|rest| - 1];
  }

  lemma HeightsAt(a: int, b: int, h: int)
    requires a <= h <= b
    ensures |Heights(a, b)| == b - a + 1 && Heights(a, b)[h - a] == Some(h)
  {
  }

  lemma WholeFits(left: nat, right: nat, lowest: nat)
    requires left <= right
    ensures var all := Heights(left, right);
            && all != [] && all[|all| - 1] == Some(right) && Width(all) == right - left + 1
            && (left <= lowest <= right ==> Some(lowest) in all)
  {
    var all := Heights(left, right);
    var none: seq<Option<int>> := [];
    assert Width(none) == 0;
    hide Width, Heights;
    WidthOf(none, left, right);
    assert none + all == all;
    HeightsAt(left, right, right);
    if left <= lowest <= right { HeightsAt(left, right, lowest); }
  }

  lemma WhereCut(chain: Chain, cells: nat)
    requires chain.tip.Some? && chain.highWater.Some?
    ensures var right, lowest := Right(chain), Lowest(chain);
            && right > lowest
            && (Cuts(chain, cells) ==> cells >= CUT_FROM)
            && (!Cuts(chain, cells) && cells >= CUT_FROM ==> Max(0, right - cells + 1) <= lowest)
            && 0 <= Max(0, right - cells + 1) == (if right + 1 >= cells then right - cells + 1 else 0)
            && Max(0, lowest - 1) >= 0
  {
  }

  /** A strip wide enough for the cut draws the lowest cursor; every strip ends at
      the block to come, and fits its cells, filling them when there are blocks
      enough. */
  lemma BlocksFit(chain: Chain, cells: nat)
    requires chain.tip.Some? && chain.highWater.Some? && cells >= 1
    ensures var all := Blocks(chain, cells);
            && all != [] && all[|all| - 1] == Some(Right(chain))
            && Width(all) <= cells
            && (Right(chain) + 1 >= cells && (Cuts(chain, cells) ==> Lowest(chain) > 0) ==> Width(all) == cells)
            && (cells >= CUT_FROM ==> Some(Lowest(chain)) in all)
  {
    var right, lowest := Right(chain), Lowest(chain);
    hide Heights, Width, Right, Lowest, Cuts, Max;
    WhereCut(chain, cells);
    if Cuts(chain, cells) {
      CutFits(lowest, right, cells);
    } else {
      WholeFits(Max(0, right - cells + 1), right, lowest);
    }
  }

  /** Blocks are drawn once each and in order if and only if the strip isn't at
      once wide enough for the cut, longer than the chain by over five cells and
      near a lowest cursor at the chain's start: there the cut is drawn across
      blocks that overlap. */
  lemma AscendingExactly(chain: Chain, cells: nat)
    requires chain.tip.Some? && chain.highWater.Some? && cells >= 1
    ensures Ascending(Blocks(chain, cells)) <==>
            cells < CUT_FROM || Lowest(chain) > 0 || Right(chain) + 5 >= cells
  {
    var right: int, lowest: int := Right(chain), Lowest(chain);
    var all := Blocks(chain, cells);
    if Cuts(chain, cells) {
      var first := Heights(Max(0, lowest - 1), lowest + 5);
      var rest := Heights(right - (cells - 11), right);
      var n := |first|;
      assert all[n - 1] == Some(lowest + 5) && all[n + 1] == Some(right - (cells - 11));
      assert forall i :: 0 <= i < n ==> all[i] == Some(Max(0, lowest - 1) + i);
      assert forall i :: n < i < |all| ==> all[i] == Some(right - (cells - 11) + (i - n - 1));
    }
  }

  /** A wide strip over a chain at its start: heights below zero after the cut, and
      blocks drawn a second time. */
  lemma ShortChainOverlaps()
    ensures var all := Blocks(Chain(Some(0), Some(0), None), 20);
            && all == Heights(0, 5) + [None] + Heights(-8, 1)
            && all[7] == Some(-8) && all[0] == all[15] == Some(0)
            && !Ascending(all)
  {
    var all := Blocks(Chain(Some(0), Some(0), None), 20);
    assert Cuts(Chain(Some(0), Some(0), None), 20);
    assert all[0].value == 0 && all[7].value == -8;
  }

  // ---- In plain numbers ----

  /** Labels on one level are four pixels clear of each other. */
  lemma StackedApart(spans: seq<Label>, levels: seq<nat>)
    requires Stacked(spans, levels)
    ensures forall i, j :: 0 <= i < j < |spans| && levels[i] == levels[j] ==>
              spans[i].right + 4.0 <= spans[j].left || spans[j].right + 4.0 <= spans[i].left
  {
  }

  /** A label is kept off each lower level by an earlier one there that it would be
      less than four pixels clear of. */
  lemma StackedLow(spans: seq<Label>, levels: seq<nat>, j: nat, k: nat)
    requires Stacked(spans, levels) && j < |spans| && k < levels[j]
    ensures exists i :: 0 <= i < j && levels[i] == k && spans[i].right + 4.0 > spans[j].left && spans[j].right + 4.0 > spans[i].left
  {
    assert InTheWay(spans, levels, j, k);
  }

  /** The right-most block is the one after the node's tip, or after the highest block
      any store has got to if that is higher. */
  lemma RightSays(chain: Chain)
    requires chain.tip.Some? && chain.highWater.Some?
    ensures Right(chain) > chain.tip.value && Right(chain) > chain.highWater.value
    ensures Right(chain) == chain.tip.value + 1 || Right(chain) == chain.highWater.value + 1
  {
  }

  /** The lowest cursor is the lowest store's, or the highest block got to when there is
      none or it is above that, down to a multiple of five. */
  lemma LowestSays(chain: Chain)
    requires chain.highWater.Some?
    ensures var cursor := if chain.lowest.Some? && chain.lowest.value < chain.highWater.value
                          then chain.lowest.value else chain.highWater.value;
            Lowest(chain) <= cursor < Lowest(chain) + 5 && Lowest(chain) % 5 == 0
  {
  }

  /** Which heights are drawn. In fewer than 20 cells, or where the strip reaches down to
      the block below the lowest cursor, the latest blocks, as many as there are cells or
      all of them; otherwise, with one cut, the block below the lowest cursor and up to
      five above it, and the latest blocks, the cut taking the place of three. */
  lemma HeightsDrawn(chain: Chain, cells: nat, h: int)
    requires chain.tip.Some? && chain.highWater.Some?
    ensures var all, right, lowest := Blocks(chain, cells), Right(chain), Lowest(chain);
            var left := if right + 1 > cells then right + 1 - cells else 0;
            if cells < 20 || lowest - 1 >= left then
              && None !in all
              && (Some(h) in all <==> left <= h <= right)
            else
              && (exists i :: 0 <= i < |all| && all[i] == None && forall j :: 0 <= j < |all| && j != i ==> all[j] != None)
              && (Some(h) in all <==> (lowest - 1 <= h <= lowest + 5 && h >= 0) || right + 11 - cells <= h <= right)
  {
    var right: int, lowest: int := Right(chain), Lowest(chain);
    hide Right, Lowest;
    var a, c := Max(0, lowest - 1), right - (cells - 11);
    if Cuts(chain, cells) {
      var first, rest := Heights(a, lowest + 5), Heights(c, right);
      HeightsHave(a, lowest + 5, h);
      HeightsHave(c, right, h);
      hide Heights;
      var all := first + [None] + rest;
      OneCut(first, rest);
      assert Blocks(chain, cells) == all;
      assert all[|first|] == None;
    } else {
      HeightsHave(Max(0, right - cells + 1), right, h);
      hide Heights;
    }
  }

  lemma OneCut(first: seq<Option<int>>, rest: seq<Option<int>>)
    requires None !in first && None !in rest
    ensures var all := first + [None] + rest;
            && all[|first|] == None && forall j :: 0 <= j < |all| && j != |first| ==> all[j] != None
  {
    var all := first + [None] + rest;
    forall j | 0 <= j < |all| && j != |first| ensures all[j] != None {
      if j < |first| { assert all[j] == first[j]; } else { assert all[j] == rest[j - |first| - 1]; }
    }
  }

  lemma HeightsHave(a: int, b: int, h: int)
    ensures Some(h) in Heights(a, b) <==> a <= h <= b
    ensures None !in Heights(a, b)
  {
    if a <= h <= b { HeightsAt(a, b, h); }
  }
}
