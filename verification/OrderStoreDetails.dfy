/** What the POS order store shows, in plain values: whose value of each property
    wins a merge, whose QR, in which order the list is, and what a refresh finds
    gone. */
module OrderStoreDetails {
  import opened Wrappers
  import opened OrderStore
  import opened OrderStoreSafety

  ghost predicate Given(j: Json) {
    j != Undefined && j != Null
  }

  // ---- Which of two copies is newer ----

  /** With times on both, a merge changes nothing exactly if the other is earlier;
      with the same time or a later one, or a time on one alone, it shows the other's
      properties. */
  lemma TimesDecide(previous: Props, next: Props, a: int, b: int, f: Field)
    requires Get(next, UpdatedAt) == Num(a) && Get(previous, UpdatedAt) == Num(b)
    requires f in next && f != QrSvg && f != RefundAddress
    ensures a < b ==> Merge(previous, next) == previous
    ensures a >= b ==> Get(Merge(previous, next), f) == next[f]
  {
  }

  /** A time that is null counts as zero. */
  lemma NullTimeIsZero(previous: Props, next: Props, a: int, f: Field)
    requires f in next && f != QrSvg && f != RefundAddress
    ensures Get(next, UpdatedAt) == Null && Get(previous, UpdatedAt) == Num(a) ==>
              if 0 < a then Merge(previous, next) == previous else Get(Merge(previous, next), f) == next[f]
    ensures Get(next, UpdatedAt) == Num(a) && Get(previous, UpdatedAt) == Null ==>
              if a < 0 then Merge(previous, next) == previous else Get(Merge(previous, next), f) == next[f]
  {
  }

  lemma UntimedIsNewer(previous: Props, next: Props, f: Field)
    requires Get(next, UpdatedAt) == Undefined || Get(previous, UpdatedAt) == Undefined
    requires f in next && f != QrSvg && f != RefundAddress
    ensures Get(Merge(previous, next), f) == next[f]
  {
  }

  // ---- Whose value wins ----

  /** What a merge that isn't with an older copy shows: the QR brought, if one is,
      or else the one before; the refund address brought, null too; and of any other
      property the value brought, or else the one before. */
  lemma NewerShows(previous: Props, next: Props, f: Field)
    requires !Older(next, previous)
    ensures var m := Merge(previous, next);
            && Get(m, QrSvg) == (if Given(Get(next, QrSvg)) then Get(next, QrSvg) else Get(previous, QrSvg))
            && Get(m, RefundAddress) ==
                 (if Get(next, RefundAddress) != Undefined then Get(next, RefundAddress) else Get(previous, RefundAddress))
            && (f != QrSvg && f != RefundAddress ==> Get(m, f) == if f in next then next[f] else Get(previous, f))
  {
    hide Older;
  }

  /** What a read that began before the newest status event shows: all eight
      properties that an event brings live as before, a QR as before if there was
      one, or else the one read; and anything else as in a merge. */
  lemma LateReadShows(previous: Props, next: Props, current: nat, revision: nat, f: Field)
    requires current != revision
    ensures var m := MergeRead(previous, next, current, revision);
            && Get(m, Status) == Get(previous, Status) && Get(m, Error) == Get(previous, Error)
            && Get(m, Confirmations) == Get(previous, Confirmations)
            && Get(m, ConfirmationsRequired) == Get(previous, ConfirmationsRequired)
            && Get(m, UpdatedAt) == Get(previous, UpdatedAt) && Get(m, CancelledAt) == Get(previous, CancelledAt)
            && Get(m, ReceivedXmr) == Get(previous, ReceivedXmr) && Get(m, RemainingXmr) == Get(previous, RemainingXmr)
            && (Given(Get(previous, QrSvg)) ==> Get(m, QrSvg) == Get(previous, QrSvg))
            && (!Given(Get(previous, QrSvg)) && Given(Get(next, QrSvg)) && !Older(next, previous) ==>
                  Get(m, QrSvg) == Get(next, QrSvg))
            && (f !in LIVE && f != QrSvg ==> Get(m, f) == Get(Merge(previous, next), f))
  {
    hide Merge, Older;
    if !Older(next, previous) { NewerShows(previous, next, QrSvg); }
  }

  // ---- A QR once shown ----

  lemma MergeKeepsQr(previous: Props, next: Props)
    requires Given(Get(previous, QrSvg))
    ensures Given(Get(Merge(previous, next), QrSvg))
  {
    if !Older(next, previous) { NewerShows(previous, next, QrSvg); }
    hide Older;
  }

  lemma ReadKeepsQr(previous: Props, next: Props, current: nat, revision: nat)
    requires Given(Get(previous, QrSvg))
    ensures Given(Get(MergeRead(previous, next, current, revision), QrSvg))
  {
    MergeKeepsQr(previous, next);
    if current != revision { LateReadShows(previous, next, current, revision, Status); }
    hide Merge;
  }

  lemma StepKeepsQr(run: seq<Action>, i: nat, id: string)
    requires ProperRun(run) && i < |run| && id in Ids(At(run, i).orders) && Given(Value(At(run, i), id, QrSvg))
    ensures Given(Value(At(run, i + 1), id, QrSvg))
  {
    hide At, Merge, MergeRead, Ids, DistinctIds, PropsOf;
    RunKeepsIds(run, i);
    assert Proper(run, i);
    StepAt(run, i, id);
    var s := At(run, i);
    var p := PropsOf(s.orders, id);
    match run[i]
    case Event(u, _) => MergeKeepsQr(p, u.props);
    case Loaded(b, o, _) =>
      ReadKeepsQr(p, o.props, Revision(s.revisions, id), Revision(At(run, b).revisions, id));
      MergeKeepsQr(p, MergeRead(p, o.props, Revision(s.revisions, id), Revision(At(run, b).revisions, id)));
    case Listed(b, data, _) =>
      ReadKeepsQr(p, PropsOf(data, id), Revision(s.revisions, id), Revision(At(run, b).revisions, id));
    case Background(b, sent, _) => MergeKeepsQr(p, Copied(run, i)[Backgrounded := Flag(true)]);
    case _ =>
  }

  /** In any run, an order that shows a QR shows one ever after. */
  lemma {:induction false} QrStays(run: seq<Action>, m: nat, n: nat, id: string)
    requires ProperRun(run) && m <= n <= |run| && id in Ids(At(run, m).orders) && Given(Value(At(run, m), id, QrSvg))
    ensures id in Ids(At(run, n).orders) && Given(Value(At(run, n), id, QrSvg))
    decreases n
  {
    hide At, Value, Ids, ProperRun, Given;
    if m < n {
      QrStays(run, m, n - 1, id);
      NoOrderLost(run, n - 1, n);
      StepKeepsQr(run, n - 1, id);
    }
  }

  /** In any run, an event or a read that brings a QR to an order showing none, and
      isn't older than what is shown, has it shown. */
  lemma QrFillsIn(run: seq<Action>, i: nat, id: string)
    requires ProperRun(run) && i < |run| && id in Ids(At(run, i).orders) && !Given(Value(At(run, i), id, QrSvg))
    requires Brings(run[i], id).Some? && Given(Get(Brings(run[i], id).value, QrSvg))
    requires !Older(Brings(run[i], id).value, PropsOf(At(run, i).orders, id))
    ensures Value(At(run, i + 1), id, QrSvg) == Get(Brings(run[i], id).value, QrSvg)
  {
    hide At, Merge, MergeRead, Ids, DistinctIds, PropsOf, Older;
    RunKeepsIds(run, i);
    assert Proper(run, i);
    StepAt(run, i, id);
    var s := At(run, i);
    var p, q := PropsOf(s.orders, id), Brings(run[i], id).value;
    NewerShows(p, q, QrSvg);
    match run[i]
    case Loaded(b, o, _) =>
      ReadFillsQr(p, q, Revision(s.revisions, id), Revision(At(run, b).revisions, id));
    case Listed(b, data, _) =>
      ReadFillsQr(p, q, Revision(s.revisions, id), Revision(At(run, b).revisions, id));
    case _ =>
  }

  lemma ReadFillsQr(p: Props, q: Props, current: nat, revision: nat)
    requires !Given(Get(p, QrSvg)) && Given(Get(q, QrSvg)) && !Older(q, p)
    ensures var m := MergeRead(p, q, current, revision);
            Get(m, QrSvg) == Get(q, QrSvg) && Get(Merge(p, m), QrSvg) == Get(q, QrSvg)
  {
    var m := MergeRead(p, q, current, revision);
    NewerShows(p, q, QrSvg);
    if current != revision { LateReadShows(p, q, current, revision, Status); }
    MergeAgain(p, q, current, revision);
    hide Merge, MergeRead, Older, Same, Get;
    SameAt(Merge(p, m), m, QrSvg);
  }

  // ---- The order of the list ----

  ghost function IdList(orders: seq<Order>): seq<string> {
    seq(|orders|, i requires 0 <= i < |orders| => orders[i].id)
  }

  ghost function NotAmong(ids: seq<string>, named: set<string>): seq<string> {
    if ids == [] then []
    else (if ids[0] in named then [] else [ids[0]]) + NotAmong(ids[1..], named)
  }

  /** Merging one order moves none; a new order comes first. */
  lemma UpsertOrder(orders: seq<Order>, order: Order)
    ensures IdList(Merged(orders, order)) == IdList(orders)
    ensures IdList(Upserted(orders, order)) == if order.id in Ids(orders) then IdList(orders) else [order.id] + IdList(orders)
    ensures order.id !in Ids(orders) ==> PropsOf(Upserted(orders, order), order.id) == order.props
  {
    hide Merge;
  }

  lemma {:induction false} UnnamedOrder(orders: seq<Order>, named: set<string>, gone: set<string>)
    requires forall i :: 0 <= i < |orders| && orders[i].id !in named && !Terminal(orders[i]) ==> orders[i].id in gone
    ensures IdList(Unnamed(orders, named, gone)) == NotAmong(IdList(orders), named)
  {
    if orders != [] {
      hide Terminal;
      var rest := orders[1..];
      assert forall i :: 0 <= i < |rest| ==> rest[i] == orders[i + 1];
      UnnamedOrder(rest, named, gone);
      assert IdList(orders)[1..] == IdList(rest);
      var v := Unnamed(rest, named, gone);
      assert IdList([orders[0]] + v) == [orders[0].id] + IdList(v);
      assert [] + v == v;
    }
  }

  /** A refresh puts the orders read first, as read, and then those it did not name,
      as they were; and one not known before shows as read. */
  lemma RefreshOrder(orders: seq<Order>, data: seq<Order>, current: map<string, nat>, began: map<string, nat>)
    ensures IdList(Refreshed(orders, data, current, began)) == IdList(data) + NotAmong(IdList(orders), Ids(data))
    ensures forall i :: 0 <= i < |data| && data[i].id !in Ids(orders) ==> Refreshed(orders, data, current, began)[i] == data[i]
  {
    var over := Overlaid(orders, data, current, began);
    var gone := Gone(orders, Ids(data));
    UnnamedOrder(orders, Ids(data), gone);
    var u := Unnamed(orders, Ids(data), gone);
    hide Unnamed, Gone, MergeRead;
    forall i | 0 <= i < |data| ensures over[i].id == data[i].id && (data[i].id !in Ids(orders) ==> over[i] == data[i]) {
      FindSound(orders, data[i].id);
    }
    assert IdList(over) == IdList(data);
    assert IdList(over + u) == IdList(over) + IdList(u);
  }

  /** An order is gone from a read exactly if it is shown, hasn't ended, and isn't
      named. */
  lemma GoneSays(orders: seq<Order>, named: set<string>, id: string)
    ensures id in Gone(orders, named) <==> id !in named && exists i :: 0 <= i < |orders| && IsOpen(orders[i], id)
  {
    OpenIdsAre(orders, id);
    hide IsOpen, Terminal;
    if id in Gone(orders, named) {
      var i :| 0 <= i < |orders| && !Terminal(orders[i]) && orders[i].id !in named && orders[i].id == id;
      assert orders[i].id in OpenIds(orders);
    }
    if id in OpenIds(orders) && id !in named {
      var i :| 0 <= i < |orders| && !Terminal(orders[i]) && orders[i].id == id;
      assert orders[i].id in Gone(orders, named);
    }
  }
}
