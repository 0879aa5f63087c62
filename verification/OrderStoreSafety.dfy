/** What the POS order store keeps however HTTP reads and live status events
    interleave: each order's live properties are never taken back by a read that
    began before them, no order is lost or doubled, and finishing is noted once. */
module OrderStoreSafety {
  import opened Wrappers
  import opened OrderStore

  // ---- Merging ----

  /** The same object to a reader, who can't tell an absent property. */
  ghost predicate Same(a: Props, b: Props) {
    forall f: Field :: Get(a, f) == Get(b, f)
  }

  /** What a merge shows of one property. */
  ghost function MergedField(previous: Props, next: Props, f: Field): Json {
    if Older(next, previous) then Get(previous, f)
    else if f == QrSvg then Coalesce(Get(next, QrSvg), Get(previous, QrSvg))
    else if f == RefundAddress && Get(next, RefundAddress).Undefined? then Get(previous, RefundAddress)
    else if f in next then next[f]
    else Get(previous, f)
  }

  lemma MergeField(previous: Props, next: Props, f: Field)
    ensures Get(Merge(previous, next), f) == MergedField(previous, next, f)
    ensures f in previous ==> f in Merge(previous, next)
  {
    hide Older;
  }

  lemma LateReadField(previous: Props, next: Props, current: nat, revision: nat, f: Field)
    requires current != revision
    ensures var merged, m := Merge(previous, next), MergeRead(previous, next, current, revision);
            && (f in previous ==> f in m)
            && Get(m, f) == (if f in LIVE then Get(previous, f)
                             else if f == QrSvg then Coalesce(Get(previous, QrSvg), Get(merged, QrSvg))
                             else Get(merged, f))
  {
    hide Merge;
    MergeField(previous, next, f);
  }

  lemma MergeAgainField(previous: Props, next: Props, current: nat, revision: nat, f: Field)
    ensures var m := MergeRead(previous, next, current, revision);
            Get(Merge(previous, m), f) == Get(m, f)
  {
    var m := MergeRead(previous, next, current, revision);
    assert current == revision ==> m == Merge(previous, next);
    hide Merge, MergeRead, LIVE;
    MergeField(previous, m, f);
    MergeField(previous, next, f);
    MergeField(previous, next, QrSvg);
    MergeField(previous, next, UpdatedAt);
    if current != revision {
      LateReadField(previous, next, current, revision, f);
      LateReadField(previous, next, current, revision, UpdatedAt);
      assert UpdatedAt in LIVE by { LiveFields(); }
      assert f == QrSvg || f == RefundAddress ==> f !in LIVE by { LiveFields(); }
    }
  }

  lemma LiveFields()
    ensures UpdatedAt in LIVE && QrSvg !in LIVE && RefundAddress !in LIVE
  {
  }

  /** Merging what a read made of an order into the order again changes nothing:
      a load's second merge, in its upsert, is harmless. */
  lemma MergeAgain(previous: Props, next: Props, current: nat, revision: nat)
    ensures var m := MergeRead(previous, next, current, revision);
            Same(Merge(previous, m), m)
  {
    forall f: Field ensures var m := MergeRead(previous, next, current, revision); Get(Merge(previous, m), f) == Get(m, f) {
      MergeAgainField(previous, next, current, revision, f);
    }
    hide Merge, MergeRead, Get;
  }

  /** Merging is idempotent: what came of a merge, merged again, changes nothing. */
  lemma MergeTwice(previous: Props, next: Props)
    ensures var m := Merge(previous, next); Same(Merge(previous, m), m)
  {
    MergeAgain(previous, next, 0, 0);
    assert MergeRead(previous, next, 0, 0) == Merge(previous, next);
    hide Merge, Same;
  }

  // ---- One order per id ----

  ghost predicate DistinctIds(orders: seq<Order>) {
    forall i, j :: 0 <= i < j < |orders| ==> orders[i].id != orders[j].id
  }

  lemma {:induction false} FindIs(orders: seq<Order>, i: nat)
    requires DistinctIds(orders) && i < |orders|
    ensures Find(orders, orders[i].id) == Some(orders[i])
  {
    if i > 0 {
      assert orders[1..][i - 1] == orders[i];
      FindIs(orders[1..], i - 1);
    }
  }

  lemma {:induction false} FindSound(orders: seq<Order>, id: string)
    ensures Find(orders, id).Some? <==> id in Ids(orders)
    ensures Find(orders, id).Some? ==> Find(orders, id).value.id == id
  {
    if orders != [] && orders[0].id != id {
      FindSound(orders[1..], id);
      assert forall i :: 0 <= i < |orders[1..]| ==> orders[1..][i] == orders[i + 1];
      if id in Ids(orders) {
        var i :| 0 <= i < |orders| && orders[i].id == id;
        assert orders[1..][i - 1].id == id;
      }
    }
  }

  lemma MergedAt(orders: seq<Order>, with: Order, id: string)
    requires DistinctIds(orders)
    ensures DistinctIds(Merged(orders, with)) && Ids(Merged(orders, with)) == Ids(orders)
    ensures id in Ids(orders) ==>
              PropsOf(Merged(orders, with), id) ==
                if id == with.id then Merge(PropsOf(orders, id), with.props) else PropsOf(orders, id)
  {
    var m := Merged(orders, with);
    assert forall i :: 0 <= i < |orders| ==> m[i].id == orders[i].id;
    if id in Ids(orders) {
      var i :| 0 <= i < |orders| && orders[i].id == id;
      FindIs(orders, i);
      FindIs(m, i);
    }
  }

  lemma UpsertedAt(orders: seq<Order>, order: Order, id: string)
    requires DistinctIds(orders)
    ensures DistinctIds(Upserted(orders, order)) && Ids(Upserted(orders, order)) == Ids(orders) + {order.id}
    ensures id in Ids(orders) ==>
              PropsOf(Upserted(orders, order), id) ==
                if id == order.id then Merge(PropsOf(orders, id), order.props) else PropsOf(orders, id)
  {
    if order.id in Ids(orders) {
      MergedAt(orders, order, id);
    } else {
      var u := [order] + orders;
      assert u[1..] == orders;
      assert forall i :: 0 <= i < |orders| ==> u[i + 1] == orders[i];
      assert u[0] == order;
    }
  }

  lemma {:induction false} UnnamedIs(orders: seq<Order>, named: set<string>, gone: set<string>)
    requires DistinctIds(orders)
    requires forall i :: 0 <= i < |orders| && orders[i].id !in named && !Terminal(orders[i]) ==> orders[i].id in gone
    ensures var u := Unnamed(orders, named, gone);
            && Ids(u) == Ids(orders) - named
            && DistinctIds(u)
            && forall id :: id in Ids(orders) && id !in named ==> Find(u, id) == Find(orders, id)
  {
    if orders != [] {
      var rest := orders[1..];
      assert forall i :: 0 <= i < |rest| ==> rest[i] == orders[i + 1];
      UnnamedIs(rest, named, gone);
      var u := Unnamed(orders, named, gone);
      var v := Unnamed(rest, named, gone);
      assert Ids(orders) == {orders[0].id} + Ids(rest) by { IdsCons(orders); }
      assert orders[0].id !in Ids(rest);
      if orders[0].id !in named {
        assert u == [orders[0]] + v;
        assert u[1..] == v;
        IdsCons(u);
        forall j | 0 <= j < |v| ensures v[j].id != orders[0].id { assert v[j].id in Ids(v); }
      } else {
        assert u == v;
      }
    }
  }

  lemma IdsCons(orders: seq<Order>)
    requires orders != []
    ensures Ids(orders) == {orders[0].id} + Ids(orders[1..])
  {
    forall id | id in Ids(orders) ensures id in {orders[0].id} + Ids(orders[1..]) {
      var i :| 0 <= i < |orders| && orders[i].id == id;
      if i > 0 { assert orders[1..][i - 1] == orders[i]; }
    }
    forall id | id in Ids(orders[1..]) ensures id in Ids(orders) {
      var i :| 0 <= i < |orders[1..]| && orders[1..][i].id == id;
      assert orders[i + 1] == orders[1..][i];
    }
  }

  lemma {:induction false} FindAppend(a: seq<Order>, b: seq<Order>, id: string)
    ensures Find(a + b, id) == if Find(a, id).Some? then Find(a, id) else Find(b, id)
  {
    if a == [] {
      assert a + b == b;
    } else {
      assert (a + b)[1..] == a[1..] + b;
      FindAppend(a[1..], b, id);
    }
  }

  lemma IdsAppend(a: seq<Order>, b: seq<Order>)
    ensures Ids(a + b) == Ids(a) + Ids(b)
  {
    forall id | id in Ids(a) ensures id in Ids(a + b) {
      var i :| 0 <= i < |a| && a[i].id == id;
      assert (a + b)[i] == a[i];
    }
    forall id | id in Ids(b) ensures id in Ids(a + b) {
      var i :| 0 <= i < |b| && b[i].id == id;
      assert (a + b)[|a| + i] == b[i];
    }
  }

  lemma OverlaidAt(orders: seq<Order>, data: seq<Order>, current: map<string, nat>, began: map<string, nat>, id: string)
    requires DistinctIds(data)
    ensures var over := Overlaid(orders, data, current, began);
            && DistinctIds(over) && Ids(over) == Ids(data)
            && (id in Ids(orders) && id in Ids(data) ==>
                  PropsOf(over, id) == MergeRead(PropsOf(orders, id), PropsOf(data, id),
                                                 Revision(current, id), Revision(began, id)))
  {
    var over := Overlaid(orders, data, current, began);
    forall i | 0 <= i < |data| ensures over[i].id == data[i].id { FindSound(orders, data[i].id); }
    assert Ids(over) == Ids(data);
    if id in Ids(orders) && id in Ids(data) {
      var i :| 0 <= i < |data| && data[i].id == id;
      FindIs(data, i);
      FindIs(over, i);
      FindSound(orders, id);
      hide Merge, MergeRead;
    }
  }

  /** A refresh leaves exactly the orders known and the orders read, each once:
      a known one read over, or as it was. */
  lemma RefreshedAt(orders: seq<Order>, data: seq<Order>, current: map<string, nat>, began: map<string, nat>, id: string)
    requires DistinctIds(orders) && DistinctIds(data)
    ensures var r := Refreshed(orders, data, current, began);
            && DistinctIds(r)
            && Ids(r) == Ids(orders) + Ids(data)
            && (id in Ids(orders) ==>
                  PropsOf(r, id) ==
                    if id in Ids(data)
                    then MergeRead(PropsOf(orders, id), PropsOf(data, id), Revision(current, id), Revision(began, id))
                    else PropsOf(orders, id))
  {
    var named := Ids(data);
    var gone := Gone(orders, named);
    var over := Overlaid(orders, data, current, began);
    OverlaidAt(orders, data, current, began, id);
    UnnamedIs(orders, named, gone);
    var u := Unnamed(orders, named, gone);
    assert Refreshed(orders, data, current, began) == over + u;
    hide Overlaid, Unnamed, Over, MergeRead, Gone, Terminal, Refreshed;
    IdsAppend(over, u);
    forall i, j | 0 <= i < |over| && 0 <= j < |u| ensures over[i].id != u[j].id {
      assert u[j].id in Ids(u) && over[i].id in Ids(over);
    }
    FindAppend(over, u, id);
    FindSound(over, id);
  }

  // ---- Runs ----

  /** What happens to the store, one turn of the page's event loop each. A
      request's answer names the action that began it by its place in the run. */
  datatype Action =
    | Event(update: Order, now: int)
    | BeginLoad(id: string)
    | BeginRefresh
    | Loaded(begun: nat, order: Order, now: int)
    | Listed(begun: nat, data: seq<Order>, now: int)
    | BeginBackground(id: string)
    | Background(begun: nat, id: string, now: int)

  /** The store after the first `n` actions of `run`. */
  ghost function At(run: seq<Action>, n: nat): Store
    requires n <= |run|
    decreases n, 0
  {
    if n == 0 then Store([], map[], {}, map[])
    else Step(run, n - 1, At(run, n - 1))
  }

  /** The store after action `i`, `s` being the one before it. A read works with
      the revisions as they were where it began. */
  ghost function Step(run: seq<Action>, i: nat, s: Store): Store
    requires i < |run|
    decreases i, 1
  {
    match run[i]
    case Event(update, now) => StatusArrived(s, update, now)
    case BeginLoad(_) => s
    case BeginRefresh => s
    case Loaded(b, order, now) =>
      if b < i then LoadArrived(s, order, Revision(At(run, b).revisions, order.id), now) else s
    case Listed(b, data, now) =>
      if b < i then RefreshArrived(s, data, At(run, b).revisions, now) else s
    case BeginBackground(_) => s
    case Background(b, id, now) =>
      if b < i then BackgroundArrived(s, id, PropsOf(At(run, b).orders, id), now) else s
  }

  /** A read answers with what it asked for: the order asked for, or orders with
      distinct ids. An order sent to the background is one of those shown. */
  ghost predicate Proper(run: seq<Action>, i: nat)
    requires i < |run|
  {
    match run[i]
    case Event(_, _) => true
    case BeginLoad(_) => true
    case BeginRefresh => true
    case Loaded(b, order, _) => b < i && run[b] == BeginLoad(order.id)
    case Listed(b, data, _) => b < i && run[b] == BeginRefresh && DistinctIds(data)
    case BeginBackground(id) => id in Ids(At(run, i).orders)
    case Background(b, id, _) => b < i && run[b] == BeginBackground(id)
  }

  ghost predicate ProperRun(run: seq<Action>) {
    forall i :: 0 <= i < |run| ==> Proper(run, i)
  }

  /** Where the properties an action brings for an order were current from: when
      the event came, or when the read began. */
  ghost function Since(run: seq<Action>, i: nat): nat
    requires i < |run| && Proper(run, i)
  {
    match run[i]
    case Loaded(b, _, _) => b
    case Listed(b, _, _) => b
    case _ => i
  }

  /** What an action brings for the order, if anything. */
  ghost function Brings(a: Action, id: string): Option<Props> {
    match a
    case Event(update, _) => if update.id == id then Some(update.props) else None
    case Loaded(_, order, _) => if order.id == id then Some(order.props) else None
    case Listed(_, data, _) => if id in Ids(data) then Some(PropsOf(data, id)) else None
    case _ => None
  }

  ghost function Value(s: Store, id: string, f: Field): Json {
    Get(PropsOf(s.orders, id), f)
  }

  /** The status event at `e` was applied: its order was known, and it wasn't
      older than what was shown. */
  ghost predicate Applied(run: seq<Action>, e: nat, id: string)
    requires e < |run|
  {
    && run[e].Event? && run[e].update.id == id
    && id in Ids(At(run, e).orders)
    && !Older(run[e].update.props, PropsOf(At(run, e).orders, id))
  }

  lemma {:induction false} RevisionsGrow(run: seq<Action>, m: nat, n: nat, id: string)
    requires m <= n <= |run|
    ensures Revision(At(run, m).revisions, id) <= Revision(At(run, n).revisions, id)
    ensures m < n && run[m].Event? && run[m].update.id == id ==>
              Revision(At(run, m).revisions, id) < Revision(At(run, n).revisions, id)
    decreases n
  {
    if m < n {
      hide Refreshed, Upserted, Merged, OpenIds, NewlyFinished, Over;
      RevisionsGrow(run, m, n - 1, id);
      var s := At(run, n - 1);
      assert At(run, n) == Step(run, n - 1, s);
    }
  }

  lemma {:induction false} RunKeepsIds(run: seq<Action>, n: nat)
    requires ProperRun(run) && n <= |run|
    ensures DistinctIds(At(run, n).orders)
    ensures n > 0 ==> Ids(At(run, n - 1).orders) <= Ids(At(run, n).orders)
    decreases n
  {
    if n > 0 {
      RunKeepsIds(run, n - 1);
      assert Proper(run, n - 1);
      StepAt(run, n - 1, "");
    }
  }

  /** The copy that an order is sent to the background with: as it was when the
      request was made. */
  ghost function Copied(run: seq<Action>, i: nat): Props
    requires i < |run| && run[i].Background? && run[i].begun < i
  {
    PropsOf(At(run, run[i].begun).orders, run[i].id)
  }

  /** What one action makes of an order already known. */
  lemma StepAt(run: seq<Action>, i: nat, id: string)
    requires i < |run| && Proper(run, i) && DistinctIds(At(run, i).orders)
    ensures var s, t := At(run, i), At(run, i + 1);
            && DistinctIds(t.orders) && Ids(s.orders) <= Ids(t.orders)
            && (id in Ids(s.orders) ==>
                  match run[i]
                  case Event(u, _) =>
                    PropsOf(t.orders, id) == if u.id == id then Merge(PropsOf(s.orders, id), u.props) else PropsOf(s.orders, id)
                  case Loaded(b, o, _) =>
                    PropsOf(t.orders, id) ==
                      if o.id == id
                      then var m := MergeRead(PropsOf(s.orders, id), o.props, Revision(s.revisions, id),
                                              Revision(At(run, b).revisions, id));
                           Merge(PropsOf(s.orders, id), m)
                      else PropsOf(s.orders, id)
                  case Listed(b, data, _) =>
                    PropsOf(t.orders, id) ==
                      if id in Ids(data)
                      then MergeRead(PropsOf(s.orders, id), PropsOf(data, id), Revision(s.revisions, id),
                                     Revision(At(run, b).revisions, id))
                      else PropsOf(s.orders, id)
                  case Background(b, sent, _) =>
                    PropsOf(t.orders, id) ==
                      if sent == id then Merge(PropsOf(s.orders, id), Copied(run, i)[Backgrounded := Flag(true)])
                      else PropsOf(s.orders, id)
                  case _ => PropsOf(t.orders, id) == PropsOf(s.orders, id))
  {
    hide Merge, MergeRead, OpenIds, NewlyFinished, Noted, Refreshed, Upserted, Merged, Ids, DistinctIds, Find;
    var s := At(run, i);
    match run[i]
    case Event(u, now) => MergedAt(s.orders, u, id);
    case Loaded(b, o, now) =>
      var over := Over(s.orders, o, Revision(s.revisions, o.id), Revision(At(run, b).revisions, o.id));
      FindSound(s.orders, o.id);
      UpsertedAt(s.orders, over, id);
    case Listed(b, data, now) => RefreshedAt(s.orders, data, s.revisions, At(run, b).revisions, id);
    case Background(b, sent, now) => UpsertedAt(s.orders, Backgrounding(sent, Copied(run, i)), id);
    case _ =>
  }

  lemma MergeBrings(p: Props, n: Props, f: Field)
    requires f in LIVE
    ensures !Older(n, p) && !Get(n, f).Undefined? ==> Get(Merge(p, n), f) == Get(n, f)
    ensures Get(Merge(p, n), f) == Get(p, f) || (!Older(n, p) && f in n && Get(Merge(p, n), f) == n[f])
  {
  }

  lemma LateReadKeeps(p: Props, n: Props, current: nat, revision: nat, f: Field)
    requires f in LIVE && current != revision
    ensures Get(MergeRead(p, n, current, revision), f) == Get(p, f)
  {
    hide Merge;
  }

  lemma SameAt(a: Props, b: Props, f: Field)
    requires Same(a, b)
    ensures Get(a, f) == Get(b, f)
  {
  }

  /** A read that began at an older revision leaves the live properties alone; at
      the current one it may bring them. */
  lemma ReadBrings(p: Props, n: Props, current: nat, revision: nat, f: Field)
    requires f in LIVE
    ensures var m := MergeRead(p, n, current, revision);
            && Get(Merge(p, m), f) == Get(m, f)
            && (current != revision ==> Get(m, f) == Get(p, f))
            && (Get(m, f) == Get(p, f) || (!Older(n, p) && f in n && Get(m, f) == n[f]))
  {
    var m := MergeRead(p, n, current, revision);
    MergeAgain(p, n, current, revision);
    if current == revision {
      MergeBrings(p, n, f);
      assert m == Merge(p, n);
    } else {
      LateReadKeeps(p, n, current, revision, f);
    }
    hide Merge, MergeRead, Same, Get, LIVE, Older;
    SameAt(Merge(p, m), m, f);
  }

  /** The action had a say in the order's live properties: an event applied, or a
      read at the order's current revision and not older than what was shown. */
  ghost predicate TookEffect(run: seq<Action>, j: nat, id: string)
    requires j < |run| && Proper(run, j)
  {
    match run[j]
    case Event(_, _) => Applied(run, j, id)
    case Loaded(b, order, _) =>
      CurrentRead(run, b, j, id) && !Older(order.props, PropsOf(At(run, j).orders, id))
    case Listed(b, data, _) =>
      CurrentRead(run, b, j, id) && !Older(PropsOf(data, id), PropsOf(At(run, j).orders, id))
    case _ => false
  }

  /** No status event of the order came between a read's start and its answer. */
  ghost predicate CurrentRead(run: seq<Action>, b: nat, j: nat, id: string)
    requires b <= j <= |run|
  {
    Revision(At(run, j).revisions, id) == Revision(At(run, b).revisions, id)
  }

  /** The value `v` came with action `j`, which took effect, and was current from
      event `e` or after it. */
  ghost predicate BroughtSince(run: seq<Action>, e: nat, j: nat, id: string, f: Field, v: Json)
    requires j < |run| && Proper(run, j)
  {
    && e <= Since(run, j)
    && TookEffect(run, j, id)
    && Brings(run[j], id).Some?
    && f in Brings(run[j], id).value && Brings(run[j], id).value[f] == v
  }

  /** One action more: the value shown stays, or is brought by an action that is
      no older than event `e`. */
  lemma NotTakenBack(run: seq<Action>, e: nat, i: nat, id: string, f: Field)
    requires ProperRun(run) && e < i < |run| && f in LIVE && UpToDate(run, i)
    requires run[e].Event? && run[e].update.id == id && id in Ids(At(run, i).orders)
    ensures var v := Value(At(run, i + 1), id, f);
            v == Value(At(run, i), id, f) || (Proper(run, i) && BroughtSince(run, e, i, id, f, v))
  {
    hide At, MergeRead, Merge, PropsOf, LIVE, Ids, DistinctIds, Older, Get, UpToDate;
    RunKeepsIds(run, i);
    assert Proper(run, i);
    StepAt(run, i, id);
    var s := At(run, i);
    var p := PropsOf(s.orders, id);
    match run[i]
    case Event(u, _) =>
      MergeBrings(p, u.props, f);
      GetIn(u.props, f);
    case Loaded(b, o, _) =>
      ReadBrings(p, o.props, Revision(s.revisions, id), Revision(At(run, b).revisions, id), f);
      BeganAfter(run, e, b, i, id);
    case Listed(b, data, _) =>
      ReadBrings(p, PropsOf(data, id), Revision(s.revisions, id), Revision(At(run, b).revisions, id), f);
      BeganAfter(run, e, b, i, id);
    case Background(b, sent, _) =>
      if sent == id { UpToDateKeeps(run, i, f); }
    case _ =>
  }

  // ---- Sending an order to the background ----

  /** The action may change the order. */
  ghost predicate Touches(a: Action, id: string) {
    match a
    case Event(update, _) => update.id == id
    case Loaded(_, order, _) => order.id == id
    case Listed(_, data, _) => id in Ids(data)
    case Background(_, sent, _) => sent == id
    case _ => false
  }

  ghost predicate Untouched(run: seq<Action>, b: nat, i: nat, id: string)
    requires b <= i <= |run|
  {
    forall k :: b < k < i ==> !Touches(run[k], id)
  }

  /** If this is an order's copy being put back, then nothing came for the order
      while the request was out, or the copy is older than what is shown. */
  ghost predicate UpToDate(run: seq<Action>, i: nat)
    requires i < |run| && Proper(run, i)
  {
    run[i].Background? ==>
      || Untouched(run, run[i].begun, i, run[i].id)
      || Older(Copied(run, i), PropsOf(At(run, i).orders, run[i].id))
  }

  ghost predicate CopiesUpToDate(run: seq<Action>)
    requires ProperRun(run)
  {
    forall i :: 0 <= i < |run| ==> Proper(run, i) && UpToDate(run, i)
  }

  lemma {:induction false} UntouchedStays(run: seq<Action>, b: nat, i: nat, id: string)
    requires ProperRun(run) && b < i <= |run| && run[b] == BeginBackground(id) && Untouched(run, b, i, id)
    ensures id in Ids(At(run, i).orders) && PropsOf(At(run, i).orders, id) == PropsOf(At(run, b).orders, id)
    decreases i
  {
    hide At, PropsOf, Ids, DistinctIds, Merge, MergeRead;
    RunKeepsIds(run, i - 1);
    assert Proper(run, b) && Proper(run, i - 1);
    if i > b + 1 { UntouchedStays(run, b, i - 1, id); }
    StepAt(run, i - 1, id);
  }

  lemma UpToDateKeeps(run: seq<Action>, i: nat, f: Field)
    requires ProperRun(run) && i < |run| && run[i].Background? && f in LIVE && Proper(run, i) && UpToDate(run, i)
    ensures Value(At(run, i + 1), run[i].id, f) == Value(At(run, i), run[i].id, f)
  {
    hide At, Merge, PropsOf, Ids, Older, LIVE, DistinctIds;
    var id := run[i].id;
    BackgroundShows(run, i);
    var p := PropsOf(At(run, i).orders, id);
    if Untouched(run, run[i].begun, i, id) {
      UntouchedStays(run, run[i].begun, i, id);
    }
    CopyPutBack(p, Copied(run, i), f);
  }

  /** What putting a copy back shows of the order. */
  lemma BackgroundShows(run: seq<Action>, i: nat)
    requires ProperRun(run) && i < |run| && run[i].Background? && Proper(run, i)
    ensures PropsOf(At(run, i + 1).orders, run[i].id) ==
            Merge(PropsOf(At(run, i).orders, run[i].id), Copied(run, i)[Backgrounded := Flag(true)])
  {
    hide At, PropsOf, Ids, DistinctIds, Merge, MergeRead;
    var b, id := run[i].begun, run[i].id;
    RunKeepsIds(run, i);
    NoOrderLost(run, b, i);
    assert Proper(run, b);
    StepAt(run, i, id);
  }

  lemma CopyPutBack(p: Props, copy: Props, f: Field)
    requires f in LIVE
    ensures var r := Merge(p, copy[Backgrounded := Flag(true)]);
            Get(r, f) == if Older(copy, p) || f !in copy then Get(p, f) else copy[f]
  {
    assert Get(copy[Backgrounded := Flag(true)], UpdatedAt) == Get(copy, UpdatedAt);
  }

  /** In any run: a live property of which the copy holds another value than is
      shown by the time it is put back is kept if and only if the copy is older by
      its stamp; otherwise the copy's value shows again. */
  lemma BackgroundTakesBackExactly(run: seq<Action>, i: nat, f: Field)
    requires ProperRun(run) && i < |run| && run[i].Background? && Proper(run, i) && f in LIVE
    requires f in Copied(run, i) && Copied(run, i)[f] != Value(At(run, i), run[i].id, f)
    ensures var before, after := Value(At(run, i), run[i].id, f), Value(At(run, i + 1), run[i].id, f);
            && (after == before <==> Older(Copied(run, i), PropsOf(At(run, i).orders, run[i].id)))
            && (after != before ==> after == Copied(run, i)[f])
  {
    hide At, Merge, PropsOf, Ids, Older, LIVE;
    BackgroundShows(run, i);
    CopyPutBack(PropsOf(At(run, i).orders, run[i].id), Copied(run, i), f);
  }

  ghost predicate LiveKept(shown: Props, copy: Props) {
    forall f :: f in LIVE ==> Get(Merge(shown, copy[Backgrounded := Flag(true)]), f) == Get(shown, f)
  }

  ghost predicate StampedOlder(copied: Json, shown: Json) {
    Older(map[UpdatedAt := copied], map[UpdatedAt := shown])
  }

  /** Two stamps alone say that putting a copy back keeps every live property of
      whatever order bears them if and only if the copy's is the older. */
  lemma StampsSafeExactly(copied: Json, shown: Json)
    ensures (forall copy, now :: Get(copy, UpdatedAt) == copied && Get(now, UpdatedAt) == shown ==> LiveKept(now, copy)) <==>
            StampedOlder(copied, shown)
  {
    if StampedOlder(copied, shown) {
      forall copy, now | Get(copy, UpdatedAt) == copied && Get(now, UpdatedAt) == shown ensures LiveKept(now, copy) {
        forall f | f in LIVE ensures Get(Merge(now, copy[Backgrounded := Flag(true)]), f) == Get(now, f) {
          CopyPutBack(now, copy, f);
        }
      }
    } else {
      var copy: Props := map[Status := Text("pending"), UpdatedAt := copied];
      var now: Props := map[Status := Text("paid"), UpdatedAt := shown];
      CopyPutBack(now, copy, Status);
      assert !LiveKept(now, copy);
    }
  }

  const COPIED := Order("a", map[Status := Text("pending"), UpdatedAt := Num(7)])
  const PAID := Order("a", map[Status := Text("paid"), UpdatedAt := Num(7)])
  const TAKEN_BACK := [BeginRefresh, Listed(0, [COPIED], 0), BeginBackground("a"), Event(PAID, 0), Background(2, "a", 0)]

  lemma CopiedListed()
    ensures At(TAKEN_BACK, 2).orders == [COPIED] && At(TAKEN_BACK, 3) == At(TAKEN_BACK, 2)
    ensures ProperRun(TAKEN_BACK)
  {
    var run := TAKEN_BACK;
    assert At(run, 1) == Step(run, 0, At(run, 0));
    assert At(run, 2) == Step(run, 1, At(run, 1));
    assert At(run, 2).orders == Overlaid([], [COPIED], map[], map[]) + [] == [COPIED];
    assert At(run, 3) == Step(run, 2, At(run, 2));
    assert "a" in Ids([COPIED]) by { assert [COPIED][0].id == "a"; }
  }

  /** An order paid while its request was out, within the second its copy was
      taken, shows as pending again. */
  lemma BackgroundTakesBack()
    ensures var run := TAKEN_BACK;
            && ProperRun(run) && Applied(run, 3, "a")
            && Value(At(run, 4), "a", Status) == Text("paid")
            && Value(At(run, 5), "a", Status) == Text("pending")
  {
    var run := TAKEN_BACK;
    CopiedListed();
    CopiedShows();
    assert Proper(run, 3) && Proper(run, 4);
    hide At, ProperRun, Ids, PropsOf, Merge;
    RunKeepsIds(run, 3);
    StepAt(run, 3, "a");
    BackgroundShows(run, 4);
    hide StatusArrived, DistinctIds;
    MergeBrings(COPIED.props, PAID.props, Status);
    MergeBrings(COPIED.props, PAID.props, UpdatedAt);
    CopyPutBack(PropsOf(At(run, 4).orders, "a"), COPIED.props, Status);
  }

  lemma CopiedShows()
    ensures "a" in Ids([COPIED]) && PropsOf([COPIED], "a") == COPIED.props
  {
    assert [COPIED][0].id == "a";
  }

  lemma GetIn(o: Props, f: Field)
    ensures f in o ==> Get(o, f) == o[f]
  {
  }

  /** A read at the current revision began after every event of its order. */
  lemma BeganAfter(run: seq<Action>, e: nat, b: nat, i: nat, id: string)
    requires e < i <= |run| && b < i
    requires run[e].Event? && run[e].update.id == id
    ensures Revision(At(run, i).revisions, id) == Revision(At(run, b).revisions, id) ==> e < b
  {
    if b <= e {
      RevisionsGrow(run, b, e, id);
      RevisionsGrow(run, e, i, id);
    }
    hide At;
  }

  /** In any run, however reads and status events interleave: once an event was
      applied to an order, each live property it brought shows the value brought
      by that event, by a later one that was applied, or by a read that began after
      it and took effect. A read begun before it, answered whenever, never takes the
      property back; nor does sending orders to the background, as long as each
      copy put back is up to date. */
  lemma {:induction false} LiveStaysLive(run: seq<Action>, e: nat, n: nat, id: string, f: Field)
    requires ProperRun(run) && e < n <= |run| && f in LIVE && CopiesUpToDate(run)
    requires Applied(run, e, id) && !Get(run[e].update.props, f).Undefined?
    ensures id in Ids(At(run, n).orders)
    ensures exists j :: e <= j < n && Proper(run, j) && BroughtSince(run, e, j, id, f, Value(At(run, n), id, f))
    decreases n
  {
    hide At, Value, Applied, Proper, ProperRun, BroughtSince, UpToDate, LIVE, Ids, DistinctIds;
    RunKeepsIds(run, n);
    if n == e + 1 {
      EventShows(run, e, id, f);
    } else {
      LiveStaysLive(run, e, n - 1, id, f);
      RunKeepsIds(run, n - 1);
      var j :| e <= j < n - 1 && Proper(run, j) && BroughtSince(run, e, j, id, f, Value(At(run, n - 1), id, f));
      AppliedIs(run, e, id);
      NotTakenBack(run, e, n - 1, id, f);
    }
  }

  lemma AppliedIs(run: seq<Action>, e: nat, id: string)
    requires e < |run| && Applied(run, e, id)
    ensures run[e].Event? && run[e].update.id == id && id in Ids(At(run, e).orders)
  {
    hide At, Ids, Older;
  }

  /** Right after an event was applied, its properties show. */
  lemma EventShows(run: seq<Action>, e: nat, id: string, f: Field)
    requires ProperRun(run) && e < |run| && f in LIVE
    requires Applied(run, e, id) && !Get(run[e].update.props, f).Undefined?
    ensures id in Ids(At(run, e + 1).orders)
    ensures Proper(run, e) && BroughtSince(run, e, e, id, f, Value(At(run, e + 1), id, f))
  {
    hide At, Merge, Ids, DistinctIds, LIVE, Older, PropsOf;
    RunKeepsIds(run, e);
    assert Proper(run, e);
    StepAt(run, e, id);
    MergeBrings(PropsOf(At(run, e).orders, id), run[e].update.props, f);
  }

  // ---- No order lost, finishing noted once ----

  /** Orders are never lost and never doubled, in any run. */
  lemma {:induction false} NoOrderLost(run: seq<Action>, m: nat, n: nat)
    requires ProperRun(run) && m <= n <= |run|
    ensures Ids(At(run, m).orders) <= Ids(At(run, n).orders) && DistinctIds(At(run, n).orders)
    decreases n
  {
    hide At, Ids, DistinctIds, Proper;
    RunKeepsIds(run, n);
    if m < n { NoOrderLost(run, m, n - 1); }
  }

  /** A refresh leaves exactly the orders it found and the orders it read. */
  lemma RefreshLeavesAll(run: seq<Action>, i: nat)
    requires ProperRun(run) && i < |run| && run[i].Listed?
    ensures Ids(At(run, i + 1).orders) == Ids(At(run, i).orders) + Ids(run[i].data)
  {
    RunKeepsIds(run, i);
    assert Proper(run, i);
    var s := At(run, i);
    RefreshedAt(s.orders, run[i].data, s.revisions, At(run, run[i].begun).revisions, "");
    hide Refreshed, Ids, DistinctIds, PropsOf;
  }

  /** Open orders are seen, and the final ones that were seen open, and only
      those ever seen open, are noted as finished. */
  ghost predicate FinishNoted(s: Store) {
    && OpenIds(s.orders) <= s.seenOpen
    && s.finishedAt.Keys <= s.seenOpen
    && forall i :: 0 <= i < |s.orders| && Terminal(s.orders[i]) && s.orders[i].id in s.seenOpen ==>
         s.orders[i].id in s.finishedAt
  }

  lemma UpdatedNotes(s: Store, next: seq<Order>, now: int)
    requires s.finishedAt.Keys <= s.seenOpen
    ensures FinishNoted(Updated(s, next, now))
    ensures forall id :: id in s.finishedAt ==>
              id in Updated(s, next, now).finishedAt && Updated(s, next, now).finishedAt[id] == s.finishedAt[id]
  {
    var seen := s.seenOpen + OpenIds(next);
    forall i | 0 <= i < |next| && Terminal(next[i]) && next[i].id in seen && next[i].id !in s.finishedAt
      ensures next[i].id in NewlyFinished(next, seen, s.finishedAt)
    {
    }
  }

  /** In every run finishing is noted as above, and a time noted stays. */
  lemma {:induction false} FinishedOnce(run: seq<Action>, m: nat, n: nat)
    requires m <= n <= |run|
    ensures FinishNoted(At(run, n))
    ensures forall id :: id in At(run, m).finishedAt ==>
              id in At(run, n).finishedAt && At(run, n).finishedAt[id] == At(run, m).finishedAt[id]
    decreases n
  {
    hide Refreshed, Upserted, Merged, Over;
    if n > 0 {
      FinishedOnce(run, if m < n then m else n - 1, n - 1);
      var s := At(run, n - 1);
      hide Updated, OpenIds, Terminal;
      match run[n - 1]
      case Event(u, now) =>
        UpdatedNotes(s.(revisions := s.revisions[u.id := Revision(s.revisions, u.id) + 1]), Merged(s.orders, u), now);
      case Loaded(b, o, now) =>
        if b < n - 1 {
          var began := Revision(At(run, b).revisions, o.id);
          UpdatedNotes(s, Upserted(s.orders, Over(s.orders, o, Revision(s.revisions, o.id), began)), now);
        }
      case Listed(b, data, now) =>
        if b < n - 1 {
          UpdatedNotes(s, Refreshed(s.orders, data, s.revisions, At(run, b).revisions), now);
        }
      case Background(b, id, now) =>
        if b < n - 1 {
          UpdatedNotes(s, Upserted(s.orders, Backgrounding(id, PropsOf(At(run, b).orders, id))), now);
        }
      case _ =>
    }
  }

  ghost function Now(a: Action): int {
    match a
    case Event(_, now) => now
    case Loaded(_, _, now) => now
    case Listed(_, _, now) => now
    case Background(_, _, now) => now
    case _ => 0
  }

  /** A step leaves the store alone, or sees what is open and notes what is newly
      final, at the step's time. */
  lemma StepNotes(run: seq<Action>, i: nat)
    requires i < |run|
    ensures var s, t := At(run, i), At(run, i + 1);
            t == s || (t.seenOpen == s.seenOpen + OpenIds(t.orders) &&
                       t.finishedAt == Noted(s.finishedAt, NewlyFinished(t.orders, t.seenOpen, s.finishedAt), Now(run[i])))
  {
    hide Refreshed, Upserted, Merged, Over, OpenIds, NewlyFinished, Noted;
    assert At(run, i + 1) == Step(run, i, At(run, i));
  }

  ghost predicate OpenAt(run: seq<Action>, m: nat, id: string)
    requires m <= |run|
  {
    exists i :: 0 <= i < |At(run, m).orders| && IsOpen(At(run, m).orders[i], id)
  }

  /** The order's status is one of the four it ends with. */
  ghost predicate Ended(o: Order) {
    var status := Get(o.props, Status);
    status == Text("paid") || status == Text("overpaid") || status == Text("expired") || status == Text("cancelled")
  }

  lemma EndedIsTerminal(o: Order)
    ensures Ended(o) <==> Terminal(o)
  {
  }

  ghost predicate IsOpen(o: Order, id: string) {
    o.id == id && !Ended(o)
  }

  lemma OpenIdsAre(orders: seq<Order>, id: string)
    ensures id in OpenIds(orders) <==> exists i :: 0 <= i < |orders| && IsOpen(orders[i], id)
  {
    hide Ended, Terminal;
    forall i | 0 <= i < |orders| ensures Ended(orders[i]) <==> Terminal(orders[i]) { EndedIsTerminal(orders[i]); }
    if i :| 0 <= i < |orders| && IsOpen(orders[i], id) { assert orders[i].id in OpenIds(orders); }
    if id in OpenIds(orders) {
      var i :| 0 <= i < |orders| && !Terminal(orders[i]) && orders[i].id == id;
      assert IsOpen(orders[i], id);
    }
  }

  ghost predicate OpenedBy(run: seq<Action>, n: nat, id: string)
    requires n <= |run|
  {
    exists m :: 0 <= m <= n && OpenAt(run, m, id)
  }

  /** Seen open is to have been open after some action of the run. */
  lemma {:induction false} SeenOpenExactly(run: seq<Action>, n: nat, id: string)
    requires n <= |run|
    ensures id in At(run, n).seenOpen <==> OpenedBy(run, n, id)
  {
    if n > 0 {
      hide At, OpenIds, NewlyFinished, Noted, Terminal;
      SeenOpenExactly(run, n - 1, id);
      OpenIdsAre(At(run, n).orders, id);
      StepNotes(run, n - 1);
      FinishedOnce(run, n - 1, n - 1);
      assert OpenedBy(run, n, id) <==> OpenedBy(run, n - 1, id) || OpenAt(run, n, id);
    } else {
      assert At(run, 0).seenOpen == {} && At(run, 0).orders == [];
    }
  }

  /** The order is shown as final, and has been open. */
  ghost predicate FinalAt(run: seq<Action>, m: nat, id: string)
    requires m <= |run|
  {
    OpenedBy(run, m, id) && exists i :: 0 <= i < |At(run, m).orders| && IsFinal(At(run, m).orders[i], id)
  }

  ghost predicate IsFinal(o: Order, id: string) {
    o.id == id && Ended(o)
  }

  /** Action `k` is the first after which the order is final, having been open. */
  ghost predicate FirstFinal(run: seq<Action>, k: nat, id: string)
    requires k < |run|
  {
    FinalAt(run, k + 1, id) && forall m :: 0 <= m <= k ==> !FinalAt(run, m, id)
  }

  lemma FinalIsNoted(run: seq<Action>, m: nat, id: string)
    requires m <= |run| && FinalAt(run, m, id)
    ensures id in At(run, m).finishedAt
  {
    hide At, OpenedBy, OpenIds, Ended, Terminal;
    SeenOpenExactly(run, m, id);
    FinishedOnce(run, m, m);
    var s := At(run, m);
    var i :| 0 <= i < |s.orders| && IsFinal(s.orders[i], id);
    EndedIsTerminal(s.orders[i]);
  }

  lemma NewlyIs(run: seq<Action>, m: nat, id: string, recorded: map<string, int>)
    requires m <= |run| && id in NewlyFinished(At(run, m).orders, At(run, m).seenOpen, recorded)
    ensures FinalAt(run, m, id)
  {
    SeenOpenExactly(run, m, id);
    hide At, OpenedBy, Terminal, Ended;
    var s := At(run, m);
    var i :| 0 <= i < |s.orders| && Terminal(s.orders[i]) && s.orders[i].id in s.seenOpen && s.orders[i].id == id;
    EndedIsTerminal(s.orders[i]);
    assert IsFinal(s.orders[i], id);
  }

  /** The time an order is noted as finished at is that of the first action after
      which it was final, having been open; and every such order is noted. */
  lemma {:induction false} FinishedExactly(run: seq<Action>, n: nat, id: string)
    requires n <= |run|
    ensures id in At(run, n).finishedAt <==> exists m :: 0 <= m <= n && FinalAt(run, m, id)
    ensures id in At(run, n).finishedAt ==>
              exists k :: 0 <= k < n && FirstFinal(run, k, id) && At(run, n).finishedAt[id] == Now(run[k])
  {
    if n == 0 {
      assert At(run, 0).orders == [] && At(run, 0).finishedAt == map[];
    } else {
      hide At, FinalAt, NewlyFinished, OpenIds, Terminal;
      FinishedExactly(run, n - 1, id);
      StepNotes(run, n - 1);
      FinishedOnce(run, n - 1, n);
      if FinalAt(run, n, id) { FinalIsNoted(run, n, id); }
      var s, t := At(run, n - 1), At(run, n);
      if id !in s.finishedAt && id in t.finishedAt {
        NewlyIs(run, n, id, s.finishedAt);
        assert FirstFinal(run, n - 1, id);
      }
    }
  }
}
