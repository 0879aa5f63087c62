/** The POS order store: the orders a terminal shows, changed by HTTP reads that
    race the live stream's status events.

    An order is its id and its properties, as the server's JSON names them; a
    property the JSON lacks reads as `Undefined`. */
module OrderStore {
  import opened Wrappers

  datatype Json = Undefined | Null | Num(n: int) | Text(s: string) | Flag(b: bool)

  datatype Field =
    | Status | Confirmations | ConfirmationsRequired | Error | UpdatedAt
    | ReceivedXmr | RemainingXmr | CancelledAt | QrSvg | RefundAddress
    | Backgrounded | MerchantOrderId | OtherField(name: string)

  type Props = map<Field, Json>

  datatype Order = Order(id: string, props: Props)

  /** The properties a status event carries live, which a read begun before it
      must not take back. */
  const LIVE: set<Field> :=
    {Status, Confirmations, ConfirmationsRequired, Error, UpdatedAt, ReceivedXmr, RemainingXmr, CancelledAt}

  const FINAL: set<Json> := {Text("paid"), Text("overpaid"), Text("expired"), Text("cancelled")}

  function Get(o: Props, f: Field): Json {
    if f in o then o[f] else Undefined
  }

  /** JavaScript's `a ?? b`. */
  function Coalesce(a: Json, b: Json): Json {
    if a.Undefined? || a.Null? then b else a
  }

  /** A time as `<` compares it; anything that isn't one compares false. */
  function Stamp(j: Json): Option<int> {
    match j
    case Num(n) => Some(n)
    case Null => Some(0)
    case _ => None
  }

  predicate Older(next: Props, previous: Props) {
    var a, b := Get(next, UpdatedAt), Get(previous, UpdatedAt);
    !a.Undefined? && !b.Undefined? && Stamp(a).Some? && Stamp(b).Some? && Stamp(a).value < Stamp(b).value
  }

  function Merge(previous: Props, next: Props): Props {
    if Older(next, previous) then previous
    else
      (previous + next)[QrSvg := Coalesce(Get(next, QrSvg), Get(previous, QrSvg))]
                       [RefundAddress := if !Get(next, RefundAddress).Undefined? then Get(next, RefundAddress)
                                         else Get(previous, RefundAddress)]
  }

  /** What a read that began at `revision` of the order's status events makes of
      the order, whose revision is now `current`. */
  function MergeRead(previous: Props, next: Props, current: nat, revision: nat): Props {
    var merged := Merge(previous, next);
    if current == revision then merged
    else
      merged[Status := Get(previous, Status)][Confirmations := Get(previous, Confirmations)]
            [ConfirmationsRequired := Get(previous, ConfirmationsRequired)][Error := Get(previous, Error)]
            [UpdatedAt := Get(previous, UpdatedAt)][ReceivedXmr := Get(previous, ReceivedXmr)]
            [RemainingXmr := Get(previous, RemainingXmr)][CancelledAt := Get(previous, CancelledAt)]
            [QrSvg := Coalesce(Get(previous, QrSvg), Get(merged, QrSvg))]
  }

  predicate Terminal(o: Order) {
    Get(o.props, Status) in FINAL
  }

  // ---- Lists of orders ----

  function Ids(orders: seq<Order>): set<string> {
    set i | 0 <= i < |orders| :: orders[i].id
  }

  function Find(orders: seq<Order>, id: string): Option<Order> {
    if orders == [] then None
    else if orders[0].id == id then Some(orders[0])
    else Find(orders[1..], id)
  }

  /** The properties the list has for an order. */
  function PropsOf(orders: seq<Order>, id: string): Props {
    match Find(orders, id)
    case Some(o) => o.props
    case None => map[]
  }

  /** The ids of the open orders a read no longer names. */
  function Gone(orders: seq<Order>, named: set<string>): set<string> {
    set i | 0 <= i < |orders| && !Terminal(orders[i]) && orders[i].id !in named :: orders[i].id
  }

  /** The orders a read doesn't name that are final, or gone from it. */
  function Unnamed(orders: seq<Order>, named: set<string>, gone: set<string>): seq<Order> {
    if orders == [] then []
    else
      (if orders[0].id !in named && (Terminal(orders[0]) || orders[0].id in gone) then [orders[0]] else [])
      + Unnamed(orders[1..], named, gone)
  }

  function Revision(revisions: map<string, nat>, id: string): nat {
    if id in revisions then revisions[id] else 0
  }

  /** The list with `with` merged into the order of its id. */
  function Merged(orders: seq<Order>, with: Order): seq<Order> {
    seq(|orders|, i requires 0 <= i < |orders| =>
      if orders[i].id == with.id then Order(with.id, Merge(orders[i].props, with.props)) else orders[i])
  }

  function Upserted(orders: seq<Order>, order: Order): seq<Order> {
    if order.id in Ids(orders) then Merged(orders, order) else [order] + orders
  }

  /** A read order over the one known, if any. */
  function Over(orders: seq<Order>, read: Order, current: nat, revision: nat): Order {
    match Find(orders, read.id)
    case Some(known) => Order(read.id, MergeRead(known.props, read.props, current, revision))
    case None => read
  }

  /** The orders read, each over the one known. */
  function Overlaid(orders: seq<Order>, data: seq<Order>, current: map<string, nat>, began: map<string, nat>): seq<Order> {
    seq(|data|, i requires 0 <= i < |data| =>
      Over(orders, data[i], Revision(current, data[i].id), Revision(began, data[i].id)))
  }

  /** The list a refresh leaves: the orders read, then those it didn't name. */
  function Refreshed(orders: seq<Order>, data: seq<Order>, current: map<string, nat>, began: map<string, nat>): seq<Order> {
    Overlaid(orders, data, current, began) + Unnamed(orders, Ids(data), Gone(orders, Ids(data)))
  }

  // ---- The store ----

  datatype Store = Store(orders: seq<Order>, revisions: map<string, nat>,
                         seenOpen: set<string>, finishedAt: map<string, int>)

  function OpenIds(orders: seq<Order>): set<string> {
    set i | 0 <= i < |orders| && !Terminal(orders[i]) :: orders[i].id
  }

  /** The final orders that were seen open and are not noted yet. */
  function NewlyFinished(orders: seq<Order>, seen: set<string>, recorded: map<string, int>): set<string> {
    set i | 0 <= i < |orders| && Terminal(orders[i]) && orders[i].id in seen && orders[i].id !in recorded :: orders[i].id
  }

  function Noted(finishedAt: map<string, int>, ids: set<string>, now: int): map<string, int> {
    finishedAt + map id | id in ids :: now
  }

  /** Every change to the orders: what is open is seen, what is newly final and
      was seen open is noted as finished now. */
  function Updated(s: Store, next: seq<Order>, now: int): Store {
    var seen := s.seenOpen + OpenIds(next);
    s.(orders := next, seenOpen := seen,
       finishedAt := Noted(s.finishedAt, NewlyFinished(next, seen, s.finishedAt), now))
  }

  function StatusArrived(s: Store, update: Order, now: int): Store {
    Updated(s.(revisions := s.revisions[update.id := Revision(s.revisions, update.id) + 1]),
            Merged(s.orders, update), now)
  }

  function LoadArrived(s: Store, order: Order, began: nat, now: int): Store {
    Updated(s, Upserted(s.orders, Over(s.orders, order, Revision(s.revisions, order.id), began)), now)
  }

  function RefreshArrived(s: Store, data: seq<Order>, began: map<string, nat>, now: int): Store {
    Updated(s, Refreshed(s.orders, data, s.revisions, began), now)
  }

  /** The copy an order to be backgrounded is upserted with, its props being as
      they were when the request was made. */
  function Backgrounding(id: string, copied: Props): Order {
    Order(id, copied[Backgrounded := Flag(true)])
  }

  function BackgroundArrived(s: Store, id: string, copied: Props, now: int): Store {
    Updated(s, Upserted(s.orders, Backgrounding(id, copied)), now)
  }

  // ---- The page's own code ----

  /** The orders of one page. `LoadBegun` and `RefreshBegun` are what a read
      captures before its request; `LoadDone` and `RefreshDone` are the rest of
      it, once the answer is in. */
  class Orders {
    var orders: seq<Order>
    var revisions: map<string, nat>
    var seenOpen: set<string>
    var finishedAt: map<string, int>

    ghost function View(): Store
      reads this
    {
      Store(orders, revisions, seenOpen, finishedAt)
    }

    constructor ()
      ensures View() == Store([], map[], {}, map[])
    {
      orders, revisions, seenOpen, finishedAt := [], map[], {}, map[];
    }

    /** `next` is what a change makes of the orders, at once. */
    method UpdateOrders(next: seq<Order>, now: int)
      modifies this
      ensures View() == Updated(old(View()), next, now)
    {
      orders := next;
      SeeOpen();
      NoteFinished(now);
    }

    method SeeOpen()
      modifies this`seenOpen
      ensures seenOpen == old(seenOpen) + OpenIds(orders)
    {
      for i := 0 to |orders|
        invariant seenOpen == old(seenOpen) + OpenIds(orders[..i])
      {
        assert orders[..i + 1] == orders[..i] + [orders[i]];
        OpenIdsExtend(orders[..i], orders[i]);
        if !Terminal(orders[i]) {
          seenOpen := seenOpen + {orders[i].id};
        }
      }
      assert orders[..|orders|] == orders;
    }

    method NoteFinished(now: int)
      modifies this`finishedAt
      ensures finishedAt == Noted(old(finishedAt), NewlyFinished(orders, seenOpen, old(finishedAt)), now)
    {
      var newly := {};
      for i := 0 to |orders|
        invariant newly == NewlyFinished(orders[..i], seenOpen, finishedAt) && finishedAt == old(finishedAt)
      {
        if Terminal(orders[i]) && orders[i].id in seenOpen && orders[i].id !in finishedAt {
          newly := newly + {orders[i].id};
        }
        NewlyExtends(orders[..i], orders[i], seenOpen, finishedAt);
        assert orders[..i + 1] == orders[..i] + [orders[i]];
      }
      assert orders[..|orders|] == orders;
      if newly != {} {
        finishedAt := Noted(finishedAt, newly, now);
      } else {
        assert Noted(finishedAt, newly, now) == finishedAt;
      }
    }

    method MergeInto(with: Order) returns (next: seq<Order>)
      ensures next == Merged(orders, with)
    {
      next := [];
      for i := 0 to |orders|
        invariant |next| == i && forall k :: 0 <= k < i ==> next[k] == Merged(orders, with)[k]
      {
        next := next + [if orders[i].id == with.id then Order(with.id, Merge(orders[i].props, with.props)) else orders[i]];
      }
    }

    method Upsert(order: Order, now: int)
      modifies this
      ensures View() == Updated(old(View()), Upserted(old(orders), order), now)
    {
      var known := false;
      for i := 0 to |orders|
        invariant known <==> exists k :: 0 <= k < i && orders[k].id == order.id
      {
        known := known || orders[i].id == order.id;
      }
      var next := [order] + orders;
      if known {
        next := MergeInto(order);
      }
      UpdateOrders(next, now);
    }

    method OnStatus(update: Order, now: int)
      modifies this
      ensures View() == StatusArrived(old(View()), update, now)
    {
      revisions := revisions[update.id := (if update.id in revisions then revisions[update.id] else 0) + 1];
      var next := MergeInto(update);
      UpdateOrders(next, now);
    }

    /** The rest of sending an order to the background, `copied` being the order
        as it was before the request. */
    method BackgroundDone(copied: Order, now: int)
      modifies this
      ensures View() == BackgroundArrived(old(View()), copied.id, copied.props, now)
    {
      Upsert(Order(copied.id, copied.props[Backgrounded := Flag(true)]), now);
    }

    method LoadBegun(id: string) returns (revision: nat)
      ensures revision == Revision(revisions, id)
    {
      revision := Revision(revisions, id);
    }

    method LoadDone(order: Order, revision: nat, now: int)
      modifies this
      ensures View() == LoadArrived(old(View()), order, revision, now)
    {
      var known := Known(order.id);
      var result := order;
      if known.Some? {
        result := Order(order.id, MergeRead(known.value.props, order.props, Revision(revisions, order.id), revision));
      }
      Upsert(result, now);
    }

    /** The first order of an id. */
    method Known(id: string) returns (known: Option<Order>)
      ensures known == Find(orders, id)
    {
      for i := 0 to |orders|
        invariant Find(orders, id) == Find(orders[i..], id)
      {
        if orders[i].id == id { return Some(orders[i]); }
        assert orders[i..][1..] == orders[i + 1..];
      }
      known := None;
    }

    method FindGone(named: set<string>) returns (gone: set<string>)
      ensures gone == Gone(orders, named)
    {
      gone := {};
      for i := 0 to |orders|
        invariant gone == set k | 0 <= k < i && !Terminal(orders[k]) && orders[k].id !in named :: orders[k].id
      {
        if !Terminal(orders[i]) && orders[i].id !in named {
          gone := gone + {orders[i].id};
        }
      }
    }

    method AddUnnamed(before: seq<Order>, named: set<string>, gone: set<string>) returns (next: seq<Order>)
      ensures next == before + Unnamed(orders, named, gone)
    {
      next := before;
      for i := 0 to |orders|
        invariant next + Unnamed(orders[i..], named, gone) == before + Unnamed(orders, named, gone)
      {
        assert orders[i..][1..] == orders[i + 1..];
        if orders[i].id !in named && (Terminal(orders[i]) || orders[i].id in gone) {
          assert next + ([orders[i]] + Unnamed(orders[i + 1..], named, gone))
              == next + [orders[i]] + Unnamed(orders[i + 1..], named, gone);
          next := next + [orders[i]];
        }
      }
      assert orders[|orders|..] == [] && next + [] == next;
    }

    /** Also says which open orders the read no longer names, to be read again. */
    method RefreshDone(data: seq<Order>, began: map<string, nat>, now: int) returns (gone: set<string>)
      modifies this
      ensures View() == RefreshArrived(old(View()), data, began, now)
      ensures gone == Gone(old(orders), Ids(data))
    {
      var named := {};
      for i := 0 to |data|
        invariant named == set k | 0 <= k < i :: data[k].id
      {
        named := named + {data[i].id};
      }
      assert named == Ids(data);
      gone := FindGone(named);
      var next := [];
      for i := 0 to |data|
        invariant |next| == i && View() == old(View())
        invariant forall k :: 0 <= k < i ==>
                    next[k] == Over(orders, data[k], Revision(revisions, data[k].id), Revision(began, data[k].id))
      {
        var o := data[i];
        var known := Known(o.id);
        if known.Some? {
          var revision := if o.id in began then began[o.id] else 0;
          o := Order(o.id, MergeRead(known.value.props, o.props, Revision(revisions, o.id), revision));
        }
        next := next + [o];
      }
      assert next == Overlaid(orders, data, revisions, began);
      next := AddUnnamed(next, named, gone);
      assert next == Refreshed(orders, data, revisions, began);
      UpdateOrders(next, now);
    }
  }

  lemma OpenIdsExtend(orders: seq<Order>, order: Order)
    ensures OpenIds(orders + [order]) == OpenIds(orders) + if Terminal(order) then {} else {order.id}
  {
    var more := orders + [order];
    assert more[|orders|] == order;
    forall id | id in OpenIds(orders) ensures id in OpenIds(more) {
      var i :| 0 <= i < |orders| && !Terminal(orders[i]) && orders[i].id == id;
      assert more[i] == orders[i];
    }
  }

  lemma NewlyExtends(orders: seq<Order>, order: Order, seen: set<string>, recorded: map<string, int>)
    ensures NewlyFinished(orders + [order], seen, recorded) ==
            NewlyFinished(orders, seen, recorded) +
            if Terminal(order) && order.id in seen && order.id !in recorded then {order.id} else {}
  {
    var more := orders + [order];
    assert more[|orders|] == order;
    forall id | id in NewlyFinished(orders, seen, recorded) ensures id in NewlyFinished(more, seen, recorded) {
      var i :| 0 <= i < |orders| && Terminal(orders[i]) && orders[i].id in seen && orders[i].id !in recorded && orders[i].id == id;
      assert more[i] == orders[i];
    }
  }
}
