/** The CRUD layer over the items, orders and order_items tables, with the
    order workflow (create, update, delete, recompute the total) that keeps
    stock, lines and totals in step. */
module Crud {
  import opened Records
  import opened Ledger
  import opened Paging

  /** The set of ids in `ids`. */
  function LineSet(ids: seq<Id>): set<Id>
  {
    set l | l in ids
  }

  /** The ids lo, lo + 1, ..., hi - 1. */
  function IdRange(lo: Id, hi: Id): seq<Id>
    requires lo <= hi
  {
    seq(hi - lo, k => lo + k)
  }

  /** The range grows by its upper end. */
  lemma IdRangeSnoc(lo: Id, hi: Id)
    requires lo <= hi
    ensures IdRange(lo, hi + 1) == IdRange(lo, hi) + [hi]
    ensures LineSet(IdRange(lo, hi + 1)) == LineSet(IdRange(lo, hi)) + {hi}
  {
    assert IdRange(lo, hi + 1) == IdRange(lo, hi) + [hi];
  }

  lemma AppendAssoc<T>(a: seq<T>, b: seq<T>, c: seq<T>)
    ensures a + b + c == a + (b + c)
  {
  }

  /** A second update of the same key overrides the first. */
  lemma UpdateTwice<K, V>(m: map<K, V>, k: K, v: V, v': V)
    ensures m[k := v][k := v'] == m[k := v']
  {
  }

  /** Each line an order lists is a row that names that order. */
  ghost predicate LinesOwned(orders: map<Id, Order>, lines: map<Id, OrderLine>)
  {
    forall o, k :: o in orders && 0 <= k < |orders[o].lineIds| ==>
      orders[o].lineIds[k] in lines && lines[orders[o].lineIds[k]].orderId == o
  }

  /** Each row names an order that lists it. */
  ghost predicate NoOrphans(orders: map<Id, Order>, lines: map<Id, OrderLine>)
  {
    forall l :: l in lines ==> lines[l].orderId in orders && l in orders[lines[l].orderId].lineIds
  }

  /** Every order outside `except` carries the total of its current lines. */
  ghost predicate TotalsOk(orders: map<Id, Order>, lines: map<Id, OrderLine>, except: set<Id>)
    requires LinesOwned(orders, lines)
  {
    forall o :: o in orders && o !in except ==> orders[o].total == LinesTotal(orders[o].lineIds, lines)
  }

  /** Every key of `m` lies in [1, next). */
  ghost predicate KeysBelow<T>(m: map<Id, T>, next: Id)
  {
    forall id :: id in m ==> 1 <= id < next
  }

  /** Order and line keys come from their counters, an order's lines are
      rows owned by that order, and every line belongs to the order that
      lists it (the cascade leaves no orphans). */
  ghost predicate Tables(orders: map<Id, Order>, lines: map<Id, OrderLine>, nextOrderId: Id, nextLineId: Id)
  {
    && 1 <= nextOrderId && 1 <= nextLineId
    && KeysBelow(orders, nextOrderId)
    && KeysBelow(lines, nextLineId)
    && LinesOwned(orders, lines)
    && NoOrphans(orders, lines)
  }

  /** Appending a fresh line to one order keeps the tables consistent. */
  lemma AttachKeepsTables(orders: map<Id, Order>, lines: map<Id, OrderLine>,
                          nextOrderId: Id, lid: Id, oid: Id, line: OrderLine,
                          orders': map<Id, Order>, lines': map<Id, OrderLine>)
    requires Tables(orders, lines, nextOrderId, lid)
    requires oid in orders && line.orderId == oid
    requires orders' == orders[oid := orders[oid].(lineIds := orders[oid].lineIds + [lid])]
    requires lines' == lines[lid := line]
    ensures Tables(orders', lines', nextOrderId, lid + 1)
  {
    forall o, k | o in orders' && 0 <= k < |orders'[o].lineIds|
      ensures orders'[o].lineIds[k] in lines' && lines'[orders'[o].lineIds[k]].orderId == o
    {
      if o == oid && k < |orders[oid].lineIds| {
        assert orders'[o].lineIds[k] == orders[o].lineIds[k];
      }
    }
    forall l | l in lines' ensures lines'[l].orderId in orders' && l in orders'[lines'[l].orderId].lineIds {
      if l != lid {
        var o := lines[l].orderId;
        assert l in orders[o].lineIds;
      }
    }
  }

  /** Appending a fresh line to one order leaves the other orders' totals
      correct, and appends the line to that order's priced lines. */
  lemma AttachKeepsTotals(orders: map<Id, Order>, lines: map<Id, OrderLine>, lid: Id, oid: Id, line: OrderLine,
                          orders': map<Id, Order>, lines': map<Id, OrderLine>)
    requires LinesOwned(orders, lines) && LinesOwned(orders', lines') && TotalsOk(orders, lines, {oid})
    requires oid in orders && lid !in lines
    requires orders' == orders[oid := orders[oid].(lineIds := orders[oid].lineIds + [lid])]
    requires lines' == lines[lid := line]
    ensures TotalsOk(orders', lines', {oid})
    ensures Priced(orders'[oid].lineIds, lines') ==
      Priced(orders[oid].lineIds, lines) + [PricedLine(line.itemId, line.quantity, line.unitPrice)]
  {
    forall o | o in orders' && o != oid
      ensures orders'[o].total == LinesTotal(orders'[o].lineIds, lines')
    {
      PricedInsert(orders[o].lineIds, lines, lid, line);
    }
    PricedAppendNew(orders[oid].lineIds, lines, lid, line);
  }

  /** The order and line tables after the priced lines `ps` are written, in
      order and with the line ids lid, lid + 1, ..., as lines of order
      `oid`. */
  function Attached(orders: map<Id, Order>, lines: map<Id, OrderLine>, oid: Id, lid: Id, ps: seq<PricedLine>)
    : (r: (map<Id, Order>, map<Id, OrderLine>))
    requires oid in orders
    ensures r.0.Keys == orders.Keys
    decreases |ps|
  {
    if ps == [] then (orders, lines)
    else
      var prior := Attached(orders, lines, oid, lid, ps[..|ps| - 1]);
      var p := ps[|ps| - 1];
      var l := lid + |ps| - 1;
      (prior.0[oid := prior.0[oid].(lineIds := prior.0[oid].lineIds + [l])],
       prior.1[l := OrderLine(oid, p.itemId, p.quantity, p.unitPrice)])
  }

  lemma AttachedStep(orders: map<Id, Order>, lines: map<Id, OrderLine>, oid: Id, lid: Id, ps: seq<PricedLine>, p: PricedLine)
    requires oid in orders
    ensures var prior := Attached(orders, lines, oid, lid, ps);
      var l := lid + |ps|;
      Attached(orders, lines, oid, lid, ps + [p]) ==
        (prior.0[oid := prior.0[oid].(lineIds := prior.0[oid].lineIds + [l])],
         prior.1[l := OrderLine(oid, p.itemId, p.quantity, p.unitPrice)])
  {
    assert (ps + [p])[..|ps|] == ps;
  }

  /** Writing the lines appends their fresh ids to the order's collection,
      adds exactly those rows and leaves every existing row as it was. */
  lemma {:induction false} AttachedShape(orders: map<Id, Order>, lines: map<Id, OrderLine>, oid: Id, lid: Id, ps: seq<PricedLine>)
    requires oid in orders && KeysBelow(lines, lid)
    ensures var r := Attached(orders, lines, oid, lid, ps);
      && r.0 == orders[oid := orders[oid].(lineIds := orders[oid].lineIds + IdRange(lid, lid + |ps|))]
      && r.1.Keys == lines.Keys + LineSet(IdRange(lid, lid + |ps|))
      && (forall l :: l in lines ==> r.1[l] == lines[l])
    decreases |ps|
  {
    var ids := orders[oid].lineIds;
    if ps == [] {
      assert ids + IdRange(lid, lid) == ids;
    } else {
      var n := |ps|;
      var init := ps[..n - 1];
      AttachedShape(orders, lines, oid, lid, init);
      IdRangeSnoc(lid, lid + n - 1);
      assert ids + IdRange(lid, lid + n) == ids + IdRange(lid, lid + n - 1) + [lid + n - 1];
      UpdateTwice(orders, oid, orders[oid].(lineIds := ids + IdRange(lid, lid + n - 1)),
                  orders[oid].(lineIds := ids + IdRange(lid, lid + n)));
    }
  }

  /** The row written for the k-th priced line has id lid + k. */
  lemma {:induction false} AttachedRow(orders: map<Id, Order>, lines: map<Id, OrderLine>, oid: Id, lid: Id,
                                       ps: seq<PricedLine>, k: nat)
    requires oid in orders && k < |ps|
    ensures var r := Attached(orders, lines, oid, lid, ps);
      lid + k in r.1 && r.1[lid + k] == OrderLine(oid, ps[k].itemId, ps[k].quantity, ps[k].unitPrice)
    decreases |ps|
  {
    var n := |ps|;
    if k < n - 1 {
      var init := ps[..n - 1];
      AttachedRow(orders, lines, oid, lid, init, k);
      assert init[k] == ps[k];
    }
  }

  /** Writing the lines keeps the tables consistent. */
  lemma {:induction false} AttachedTables(orders: map<Id, Order>, lines: map<Id, OrderLine>,
                                          nextOrderId: Id, oid: Id, lid: Id, ps: seq<PricedLine>)
    requires Tables(orders, lines, nextOrderId, lid) && oid in orders
    ensures var r := Attached(orders, lines, oid, lid, ps);
      Tables(r.0, r.1, nextOrderId, lid + |ps|)
    decreases |ps|
  {
    if ps != [] {
      var n := |ps|;
      var init := ps[..n - 1];
      var p := ps[n - 1];
      AttachedTables(orders, lines, nextOrderId, oid, lid, init);
      var prior := Attached(orders, lines, oid, lid, init);
      var l := lid + n - 1;
      var line := OrderLine(oid, p.itemId, p.quantity, p.unitPrice);
      AttachKeepsTables(prior.0, prior.1, nextOrderId, l, oid, line,
                        prior.0[oid := prior.0[oid].(lineIds := prior.0[oid].lineIds + [l])], prior.1[l := line]);
    }
  }

  /** The rows written, read back in id order, price to `ps`. */
  lemma AttachedRange(orders: map<Id, Order>, lines: map<Id, OrderLine>, oid: Id, lid: Id, ps: seq<PricedLine>)
    requires oid in orders
    ensures var r := Attached(orders, lines, oid, lid, ps);
      && AllIn(IdRange(lid, lid + |ps|), r.1)
      && Priced(IdRange(lid, lid + |ps|), r.1) == ps
  {
    var r := Attached(orders, lines, oid, lid, ps);
    var added := IdRange(lid, lid + |ps|);
    forall k | 0 <= k < |added| ensures added[k] in r.1 {
      AttachedRow(orders, lines, oid, lid, ps, k);
    }
    forall k | 0 <= k < |ps| ensures Priced(added, r.1)[k] == ps[k] {
      AttachedRow(orders, lines, oid, lid, ps, k);
    }
  }

  /** Writing the lines extends the order's priced lines by exactly `ps`. */
  lemma AttachedPriced(orders: map<Id, Order>, lines: map<Id, OrderLine>, oid: Id, lid: Id, ps: seq<PricedLine>)
    requires oid in orders && KeysBelow(lines, lid) && AllIn(orders[oid].lineIds, lines)
    ensures var r := Attached(orders, lines, oid, lid, ps);
      && AllIn(r.0[oid].lineIds, r.1)
      && Priced(r.0[oid].lineIds, r.1) == Priced(orders[oid].lineIds, lines) + ps
  {
    AttachedShape(orders, lines, oid, lid, ps);
    AttachedRange(orders, lines, oid, lid, ps);
    var r := Attached(orders, lines, oid, lid, ps);
    var ids := orders[oid].lineIds;
    PricedExtend(ids, lines, r.1);
    PricedConcat(ids, IdRange(lid, lid + |ps|), r.1);
  }

  /** Writing the lines keeps the other orders' totals correct. */
  lemma AttachedTotals(orders: map<Id, Order>, lines: map<Id, OrderLine>,
                       nextOrderId: Id, oid: Id, lid: Id, ps: seq<PricedLine>)
    requires Tables(orders, lines, nextOrderId, lid) && TotalsOk(orders, lines, {oid}) && oid in orders
    ensures var r := Attached(orders, lines, oid, lid, ps);
      && LinesOwned(r.0, r.1)
      && TotalsOk(r.0, r.1, {oid})
  {
    AttachedTables(orders, lines, nextOrderId, oid, lid, ps);
    AttachedShape(orders, lines, oid, lid, ps);
    var r := Attached(orders, lines, oid, lid, ps);
    forall o | o in r.0 && o != oid
      ensures r.0[o].total == LinesTotal(r.0[o].lineIds, r.1)
    {
      PricedExtend(orders[o].lineIds, lines, r.1);
    }
  }

  /** Removing the lines just written, and the order they were written to,
      gives back the line table as it was. */
  lemma AttachedUndo(orders: map<Id, Order>, lines: map<Id, OrderLine>, oid: Id, lid: Id, ps: seq<PricedLine>)
    requires oid in orders && orders[oid].lineIds == [] && KeysBelow(lines, lid)
    ensures var r := Attached(orders, lines, oid, lid, ps);
      && r.1 - LineSet(r.0[oid].lineIds) == lines
      && r.0 - {oid} == orders - {oid}
  {
    AttachedShape(orders, lines, oid, lid, ps);
    var r := Attached(orders, lines, oid, lid, ps);
    var added := LineSet(r.0[oid].lineIds);
    assert r.0[oid].lineIds == IdRange(lid, lid + |ps|);
    forall l | l in added ensures l !in lines {
      assert l in IdRange(lid, lid + |ps|);
    }
    assert (r.1 - added).Keys == lines.Keys;
  }

  /** A new order with no lines, under the next order id, keeps the tables
      consistent and every other order's total correct; deleting it again
      gives back the order table. */
  lemma NewOrder(orders: map<Id, Order>, lines: map<Id, OrderLine>, nextOrderId: Id, nextLineId: Id, o: Order)
    requires Tables(orders, lines, nextOrderId, nextLineId) && TotalsOk(orders, lines, {}) && o.lineIds == []
    ensures nextOrderId !in orders
    ensures Tables(orders[nextOrderId := o], lines, nextOrderId + 1, nextLineId)
    ensures TotalsOk(orders[nextOrderId := o], lines, {nextOrderId})
    ensures orders[nextOrderId := o] - {nextOrderId} == orders
  {
    var orders' := orders[nextOrderId := o];
    forall l | l in lines ensures lines[l].orderId in orders' && l in orders'[lines[l].orderId].lineIds {
      assert lines[l].orderId in orders;
    }
    assert orders' - {nextOrderId} == orders;
  }

  /** Dropping one order's lines and emptying its collection keeps
      ownership and the other orders' totals intact. */
  lemma Clear(orders: map<Id, Order>, lines: map<Id, OrderLine>, oid: Id)
    requires LinesOwned(orders, lines) && NoOrphans(orders, lines) && TotalsOk(orders, lines, {oid})
    requires oid in orders
    ensures var orders' := orders[oid := orders[oid].(lineIds := [])];
      var lines' := lines - LineSet(orders[oid].lineIds);
      LinesOwned(orders', lines') && NoOrphans(orders', lines') && TotalsOk(orders', lines', {oid})
  {
    var orders' := orders[oid := orders[oid].(lineIds := [])];
    var gone := LineSet(orders[oid].lineIds);
    var lines' := lines - gone;
    forall o, k | o in orders' && 0 <= k < |orders'[o].lineIds|
      ensures orders'[o].lineIds[k] in lines' && lines'[orders'[o].lineIds[k]].orderId == o
    {
      assert lines[orders[o].lineIds[k]].orderId == o;
    }
    forall l | l in lines' ensures lines'[l].orderId in orders' && l in orders'[lines'[l].orderId].lineIds {
      var o := lines[l].orderId;
      assert l in orders[o].lineIds;
    }
    forall o | o in orders' && o != oid
      ensures orders'[o].total == LinesTotal(orders'[o].lineIds, lines')
    {
      PricedStable(orders[o].lineIds, lines, lines');
    }
  }

  /** Overwriting an order with a value that keeps its line list keeps the
      tables consistent, and the other orders' totals correct. */
  lemma Rewritten(orders: map<Id, Order>, lines: map<Id, OrderLine>, nextOrderId: Id, nextLineId: Id, oid: Id, o: Order)
    requires Tables(orders, lines, nextOrderId, nextLineId) && TotalsOk(orders, lines, {oid})
    requires oid in orders && o.lineIds == orders[oid].lineIds
    ensures Tables(orders[oid := o], lines, nextOrderId, nextLineId)
    ensures TotalsOk(orders[oid := o], lines, {oid})
  {
    var orders' := orders[oid := o];
    forall l | l in lines ensures lines[l].orderId in orders' && l in orders'[lines[l].orderId].lineIds {
      assert lines[l].orderId in orders;
    }
  }

  /** Ownership and totals depend on the orders only through their line
      lists (and totals). */
  lemma SameLineIds(orders: map<Id, Order>, orders': map<Id, Order>, lines: map<Id, OrderLine>)
    requires LinesOwned(orders, lines) && NoOrphans(orders, lines)
    requires orders'.Keys == orders.Keys
    requires forall o :: o in orders ==> orders'[o].lineIds == orders[o].lineIds
    ensures LinesOwned(orders', lines) && NoOrphans(orders', lines)
  {
  }

  /** The loop of delete_order (and the first loop of update_order) over
      the item table: each line's quantity goes back to its item, when the
      item still exists. */
  method GiveBack(items: map<Id, Item>, lines: map<Id, OrderLine>, ids: seq<Id>) returns (stock: map<Id, Item>)
    requires AllIn(ids, lines)
    ensures stock == Restocked(items, Requested(Priced(ids, lines)))
  {
    stock := items;
    var i := 0;
    while i < |ids|
      invariant 0 <= i <= |ids|
      invariant stock == Restocked(items, Requested(Priced(ids[..i], lines)))
    {
      var line := lines[ids[i]];
      assert ids[..i + 1][..i] == ids[..i];
      var done := Requested(Priced(ids[..i], lines));
      RequestedAppend(Priced(ids[..i], lines), PricedLine(line.itemId, line.quantity, line.unitPrice));
      RestockedAppend(items, done, LineRequest(line.itemId, line.quantity));
      if line.itemId in stock {
        stock := stock[line.itemId := stock[line.itemId].(stock := stock[line.itemId].stock + line.quantity)];
      }
      i := i + 1;
    }
    assert ids[..i] == ids;
  }

  /** The database: three tables keyed by primary key, the counters that
      hand out the next keys, and a clock for the timestamps. */
  class Store {
    var items: map<Id, Item>
    var orders: map<Id, Order>
    var lines: map<Id, OrderLine>
    var nextItemId: Id
    var nextOrderId: Id
    var nextLineId: Id
    var clock: nat

    /** Keys come from the counters, and the order and line tables are
        consistent. */
    ghost predicate Wf()
      reads this
    {
      && 1 <= nextItemId && KeysBelow(items, nextItemId)
      && Tables(orders, lines, nextOrderId, nextLineId)
    }

    ghost predicate TotalsHold(except: set<Id>)
      reads this
      requires Wf()
    {
      TotalsOk(orders, lines, except)
    }

    ghost predicate Valid()
      reads this
    {
      Wf() && TotalsHold({})
    }

    /** The priced lines of order `oid`. */
    ghost function OrderLines(oid: Id): seq<PricedLine>
      reads this
      requires Wf() && oid in orders
    {
      Priced(orders[oid].lineIds, lines)
    }

    constructor ()
      ensures Valid()
      ensures items == map[] && orders == map[] && lines == map[]
      ensures nextItemId == 1 && nextOrderId == 1 && nextLineId == 1 && clock == 0
    {
      items, orders, lines := map[], map[], map[];
      nextItemId, nextOrderId, nextLineId := 1, 1, 1;
      clock := 0;
    }

    // -------------------------------------------------------------------
    // Items

    function GetItem(id: Id): (r: Option<Item>)
      reads this
      ensures r.Some? <==> id in items
      ensures r.Some? ==> r.value == items[id]
    {
      if id in items then Some(items[id]) else None
    }

    /** The items with their ids, in id order, from offset `skip`, at most
        `limit` of them. */
    function GetItems(skip: nat, limit: nat): (r: seq<(Id, Item)>)
      reads this
      ensures |r| <= limit
      ensures forall k :: 0 <= k < |r| ==> r[k].0 in items && items[r[k].0] == r[k].1
      ensures forall j, k :: 0 <= j < k < |r| ==> r[j].0 < r[k].0
    {
      Page(Listing(items, 1, nextItemId), skip, limit)
    }

    method CreateItem(fields: ItemFields) returns (id: Id)
      requires Valid()
      modifies this`items, this`nextItemId, this`clock
      ensures Valid()
      ensures id == old(nextItemId) && id !in old(items) && nextItemId == id + 1
      ensures clock == old(clock) + 1
      ensures items == old(items)[id := Item(fields.name, fields.description, fields.price, fields.stock, clock)]
    {
      clock := clock + 1;
      id := nextItemId;
      nextItemId := nextItemId + 1;
      items := items[id := Item(fields.name, fields.description, fields.price, fields.stock, clock)];
    }

    /** Overwrites every client field of an existing item; orders and their
        lines, prices included, are untouched. */
    method UpdateItem(id: Id, fields: ItemFields) returns (r: Option<Item>)
      requires Valid()
      modifies this`items
      ensures Valid()
      ensures id !in old(items) ==> r == None && items == old(items)
      ensures id in old(items) ==>
        && r == Some(Item(fields.name, fields.description, fields.price, fields.stock, old(items)[id].createdAt))
        && items == old(items)[id := r.value]
    {
      if id in items {
        var item := Item(fields.name, fields.description, fields.price, fields.stock, items[id].createdAt);
        items := items[id := item];
        r := Some(item);
      } else {
        r := None;
      }
    }

    /** Removes an item. Lines that refer to it stay; their stock can no
        longer be given back. */
    method DeleteItem(id: Id) returns (r: Option<Item>)
      requires Valid()
      modifies this`items
      ensures Valid()
      ensures id !in old(items) ==> r == None && items == old(items)
      ensures id in old(items) ==> r == Some(old(items)[id]) && items == old(items) - {id}
    {
      if id in items {
        r := Some(items[id]);
        items := items - {id};
      } else {
        r := None;
      }
    }

    // -------------------------------------------------------------------
    // Orders: reads

    function GetOrder(id: Id): (r: Option<Order>)
      reads this
      ensures r.Some? <==> id in orders
      ensures r.Some? ==> r.value == orders[id]
    {
      if id in orders then Some(orders[id]) else None
    }

    /** The orders with their ids, in id order, from offset `skip`, at most
        `limit` of them. */
    function GetOrders(skip: nat, limit: nat): (r: seq<(Id, Order)>)
      reads this
      ensures |r| <= limit
      ensures forall k :: 0 <= k < |r| ==> r[k].0 in orders && orders[r[k].0] == r[k].1
      ensures forall j, k :: 0 <= j < k < |r| ==> r[j].0 < r[k].0
    {
      Page(Listing(orders, 1, nextOrderId), skip, limit)
    }

    // -------------------------------------------------------------------
    // Orders: totals

    /** Sums quantity * unit price over the order's current lines, stores it
        as the order's total and stamps the order; a missing order yields 0
        and changes nothing. */
    method CalculateOrderTotal(oid: Id) returns (total: int)
      requires Wf() && TotalsHold({oid})
      modifies this`orders, this`clock
      ensures Valid()
      ensures oid !in old(orders) ==> total == 0 && orders == old(orders) && clock == old(clock)
      ensures oid in old(orders) ==>
        && total == LinesTotal(old(orders)[oid].lineIds, lines)
        && clock == old(clock) + 1
        && orders == old(orders)[oid := old(orders)[oid].(total := total, updatedAt := clock)]
    {
      if oid !in orders {
        return 0;
      }
      var ids := orders[oid].lineIds;
      total := 0;
      var i := 0;
      while i < |ids|
        invariant 0 <= i <= |ids|
        invariant unchanged(this)
        invariant AllIn(ids[..i], lines)
        invariant total == LinesTotal(ids[..i], lines)
      {
        var line := lines[ids[i]];
        assert ids[..i + 1][..i] == ids[..i];
        AmountAppend(Priced(ids[..i], lines), PricedLine(line.itemId, line.quantity, line.unitPrice));
        total := total + line.quantity * line.unitPrice;
        i := i + 1;
      }
      assert ids[..i] == ids;
      clock := clock + 1;
      ghost var before := orders;
      orders := orders[oid := orders[oid].(total := total, updatedAt := clock)];
      SameLineIds(before, orders, lines);
    }

    // -------------------------------------------------------------------
    // Orders: line bookkeeping shared by create, update and delete

    /** One requested line (the body of the loops in create_order and
        update_order): look the item up, check its current stock, write the
        line at the item's current price and take the quantity from stock.
        A missing item or a short stock changes nothing. */
    method AddLine(oid: Id, req: LineRequest) returns (err: Option<OrderError>)
      requires oid in orders
      modifies this`items, this`lines, this`orders, this`nextLineId
      ensures var t := Take(old(items), req);
        && (t.Failure? ==>
              && err == Some(t.error)
              && items == old(items) && lines == old(lines) && orders == old(orders)
              && nextLineId == old(nextLineId))
        && (t.Success? ==>
              && err == None && items == t.value.0
              && nextLineId == old(nextLineId) + 1
              && lines == old(lines)[old(nextLineId) := OrderLine(oid, t.value.1.itemId, t.value.1.quantity, t.value.1.unitPrice)]
              && orders == old(orders)[oid := old(orders)[oid].(lineIds := old(orders)[oid].lineIds + [old(nextLineId)])])
    {
      if req.itemId !in items {
        return Some(ItemNotFound(req.itemId));
      }
      var item := items[req.itemId];
      if item.stock < req.quantity {
        return Some(InsufficientStock(item.name, item.stock, req.quantity));
      }
      lines := lines[nextLineId := OrderLine(oid, req.itemId, req.quantity, item.price)];
      orders := orders[oid := orders[oid].(lineIds := orders[oid].lineIds + [nextLineId])];
      nextLineId := nextLineId + 1;
      items := items[req.itemId := item.(stock := item.stock - req.quantity)];
      err := None;
    }

    /** Runs the requested lines in input order against order `oid`: each
        accepted line becomes a row at its item's current price and takes
        its quantity from stock; the first line refused stops the run, and
        what the earlier lines took stays taken. */
    method RunLines(oid: Id, reqs: seq<LineRequest>) returns (err: Option<OrderError>)
      requires oid in orders
      modifies this`items, this`lines, this`orders, this`nextLineId
      ensures var r := Reserve(old(items), reqs);
        && items == r.items && err == r.error
        && nextLineId == old(nextLineId) + |r.lines|
        && (orders, lines) == Attached(old(orders), old(lines), oid, old(nextLineId), r.lines)
    {
      ghost var run := Reserve(items, []);
      err := None;
      var i := 0;
      while i < |reqs|
        invariant 0 <= i <= |reqs| && oid in orders
        invariant run == Reserve(old(items), reqs[..i]) && run.error.None? && |run.lines| == i
        invariant items == run.items && err.None?
        invariant nextLineId == old(nextLineId) + i
        invariant (orders, lines) == Attached(old(orders), old(lines), oid, old(nextLineId), run.lines)
      {
        ReserveStep(old(items), reqs, i);
        ghost var t := Take(items, reqs[i]);
        err := AddLine(oid, reqs[i]);
        if err.Some? {
          ReserveStopsAt(old(items), reqs, i + 1);
          return;
        }
        AttachedStep(old(orders), old(lines), oid, old(nextLineId), run.lines, t.value.1);
        run := Reserve(old(items), reqs[..i + 1]);
        i := i + 1;
      }
      assert reqs[..i] == reqs;
    }

    /** RunLines on a consistent store: the store stays consistent, the
        other orders keep correct totals, and the order's priced lines grow
        by the lines accepted. */
    method AddLines(oid: Id, reqs: seq<LineRequest>) returns (err: Option<OrderError>)
      requires Wf() && oid in orders && TotalsHold({oid})
      modifies this`items, this`lines, this`orders, this`nextLineId
      ensures Wf() && TotalsHold({oid})
      ensures var r := Reserve(old(items), reqs);
        && items == r.items && err == r.error
        && nextLineId == old(nextLineId) + |r.lines|
        && (orders, lines) == Attached(old(orders), old(lines), oid, old(nextLineId), r.lines)
        && OrderLines(oid) == old(OrderLines(oid)) + r.lines
    {
      ghost var accepted := Reserve(items, reqs).lines;
      err := RunLines(oid, reqs);
      AttachedTables(old(orders), old(lines), nextOrderId, oid, old(nextLineId), accepted);
      AttachedTotals(old(orders), old(lines), nextOrderId, oid, old(nextLineId), accepted);
      AttachedPriced(old(orders), old(lines), oid, old(nextLineId), accepted);
    }

    /** Deletes the order's lines (the bulk delete by order id) and empties
        its collection. */
    method ClearLines(oid: Id)
      requires Wf() && oid in orders && TotalsHold({oid})
      modifies this`lines, this`orders
      ensures Wf() && TotalsHold({oid})
      ensures lines == old(lines) - LineSet(old(orders)[oid].lineIds)
      ensures orders == old(orders)[oid := old(orders)[oid].(lineIds := [])]
    {
      Clear(orders, lines, oid);
      lines := lines - LineSet(orders[oid].lineIds);
      orders := orders[oid := orders[oid].(lineIds := [])];
    }

    /** Deletes the order row; the cascade deletes its lines with it. */
    method RemoveOrder(oid: Id)
      requires Wf() && oid in orders && TotalsHold({oid})
      modifies this`lines, this`orders
      ensures Valid()
      ensures lines == old(lines) - LineSet(old(orders)[oid].lineIds)
      ensures orders == old(orders) - {oid}
    {
      ClearLines(oid);
      orders := orders - {oid};
    }

    /** Gives each line's quantity back to its item, when the item still
        exists. */
    method RestockLines(ids: seq<Id>)
      requires Wf() && AllIn(ids, lines)
      modifies this`items
      ensures Wf()
      ensures items == Restocked(old(items), Requested(Priced(ids, lines)))
    {
      items := GiveBack(items, lines, ids);
    }

    /** Overwrites order `oid` with `o`, which keeps its line list. */
    method Rewrite(oid: Id, o: Order)
      requires Wf() && oid in orders && TotalsHold({oid}) && o.lineIds == orders[oid].lineIds
      modifies this`orders
      ensures Wf() && TotalsHold({oid})
      ensures orders == old(orders)[oid := o]
    {
      Rewritten(orders, lines, nextOrderId, nextLineId, oid, o);
      orders := orders[oid := o];
    }

    /** The line replacement of update_order: the order's lines give their
        quantities back to their items and are deleted, then the requested
        lines are run against the restocked items. The line rows are new,
        under fresh ids, and each other row stays as it was. */
    method ReplaceLines(oid: Id, reqs: seq<LineRequest>) returns (err: Option<OrderError>)
      requires Wf() && oid in orders && TotalsHold({oid})
      modifies this`items, this`lines, this`orders, this`nextLineId
      ensures Wf() && TotalsHold({oid})
      ensures var rep := Reserve(Restocked(old(items), Requested(old(OrderLines(oid)))), reqs);
        && items == rep.items && err == rep.error
        && nextLineId == old(nextLineId) + |rep.lines|
        && orders == old(orders)[oid := old(orders)[oid].(lineIds := IdRange(old(nextLineId), nextLineId))]
        && OrderLines(oid) == rep.lines
        && lines.Keys == (old(lines).Keys - LineSet(old(orders)[oid].lineIds)) + LineSet(IdRange(old(nextLineId), nextLineId))
        && (forall l :: l in old(lines) && l !in LineSet(old(orders)[oid].lineIds) ==> lines[l] == old(lines)[l])
    {
      var o := orders[oid];
      RestockLines(o.lineIds);
      ClearLines(oid);
      ghost var orders2, lines2, start := orders, lines, nextLineId;
      ghost var accepted := Reserve(items, reqs).lines;
      err := AddLines(oid, reqs);
      AttachedShape(orders2, lines2, oid, start, accepted);
      ghost var ids := IdRange(start, nextLineId);
      assert [] + ids == ids;
      assert [] + accepted == accepted;
      UpdateTwice(old(orders), oid, o.(lineIds := []), o.(lineIds := ids));
    }

    // -------------------------------------------------------------------
    // Orders: the workflow

    /** Writes a new order row, with no lines yet, under the next order id. */
    method InsertOrder(customerName: string, customerEmail: string) returns (oid: Id)
      requires Valid()
      modifies this`orders, this`nextOrderId, this`clock
      ensures Wf() && TotalsHold({oid})
      ensures oid == old(nextOrderId) && oid !in old(orders) && nextOrderId == oid + 1
      ensures clock == old(clock) + 1
      ensures orders == old(orders)[oid := Order(customerName, customerEmail, Pending, 0, clock, clock, [])]
      ensures orders - {oid} == old(orders)
    {
      clock := clock + 1;
      oid := nextOrderId;
      var order := Order(customerName, customerEmail, Pending, 0, clock, clock, []);
      NewOrder(orders, lines, nextOrderId, nextLineId, order);
      orders := orders[oid := order];
      nextOrderId := nextOrderId + 1;
    }

    /** create_order. The order row is written first; then each requested
        line is checked against the running stock, priced and taken. On the
        first refused line the order (with the lines written so far) is
        deleted and the error returned, but the stock already taken by
        earlier lines stays taken. Otherwise the total is computed over the
        new lines. */
    method CreateOrder(customerName: string, customerEmail: string, reqs: seq<LineRequest>)
      returns (r: Result<Id, OrderError>)
      requires Valid()
      modifies this
      ensures Valid()
      ensures var res := Reserve(old(items), reqs);
        && items == res.items
        && nextItemId == old(nextItemId) && nextOrderId == old(nextOrderId) + 1
        && (res.error.Some? ==> r == Failure(res.error.value) && orders == old(orders) && lines == old(lines))
        && (res.error.None? ==>
             && r == Success(old(nextOrderId))
             && r.value !in old(orders)
             && nextLineId == old(nextLineId) + |res.lines|
             && orders == old(orders)[r.value := Order(customerName, customerEmail, Pending, Amount(res.lines),
                                                       old(clock) + 1, old(clock) + 2, IdRange(old(nextLineId), nextLineId))]
             && OrderLines(r.value) == res.lines
             && lines.Keys == old(lines).Keys + LineSet(IdRange(old(nextLineId), nextLineId))
             && (forall l :: l in old(lines) ==> lines[l] == old(lines)[l]))
    {
      var oid := InsertOrder(customerName, customerEmail);
      ghost var orders1, lines1, start := orders, lines, nextLineId;
      ghost var accepted := Reserve(items, reqs).lines;
      var err := AddLines(oid, reqs);
      if err.Some? {
        AttachedUndo(orders1, lines1, oid, start, accepted);
        RemoveOrder(oid);
        r := Failure(err.value);
      } else {
        AttachedShape(orders1, lines1, oid, start, accepted);
        ghost var ids := IdRange(start, nextLineId);
        ghost var o := orders1[oid];
        assert [] + ids == ids;
        UpdateTwice(old(orders), oid, o, o.(lineIds := ids));
        assert [] + accepted == accepted;
        assert Priced(ids, lines) == accepted;
        var total := CalculateOrderTotal(oid);
        UpdateTwice(old(orders), oid, o.(lineIds := ids), o.(lineIds := ids, total := total, updatedAt := clock));
        r := Success(oid);
      }
    }

    /** The end of update_order: the order is stamped, committed, and then
        its total is recomputed (which stamps it once more). */
    method TouchAndTotal(oid: Id) returns (total: int)
      requires Wf() && oid in orders && TotalsHold({oid})
      modifies this`orders, this`clock
      ensures Valid()
      ensures total == LinesTotal(old(orders)[oid].lineIds, lines) && clock == old(clock) + 2
      ensures orders == old(orders)[oid := old(orders)[oid].(updatedAt := clock, total := total)]
    {
      clock := clock + 1;
      var o := orders[oid];
      Rewrite(oid, o.(updatedAt := clock));
      total := CalculateOrderTotal(oid);
      UpdateTwice(old(orders), oid, o.(updatedAt := clock - 1), o.(updatedAt := clock, total := total));
    }

    /** The stock run that update_order performs when it replaces the lines
        of order `oid` with `reqs`: give back the old lines, then take the
        new ones. */
    ghost function Replacement(oid: Id, reqs: seq<LineRequest>): Reservation
      reads this
      requires Wf() && oid in orders
    {
      Reserve(Restocked(items, Requested(OrderLines(oid))), reqs)
    }

    /** The changes update_order makes to an existing order before it is
        stamped: the fields present in the patch are overwritten and, when
        lines are given, the order's lines are replaced. */
    method Amend(oid: Id, patch: OrderPatch) returns (err: Option<OrderError>)
      requires Valid() && oid in orders
      modifies this`items, this`lines, this`orders, this`nextLineId
      ensures Wf() && TotalsHold({oid})
      ensures patch.items.None? ==>
        && err == None && items == old(items) && lines == old(lines) && nextLineId == old(nextLineId)
        && orders == old(orders)[oid := Patched(old(orders)[oid], patch)]
      ensures patch.items.Some? ==>
        var rep := old(Replacement(oid, patch.items.value));
        && items == rep.items && err == rep.error
        && nextLineId == old(nextLineId) + |rep.lines|
        && orders == old(orders)[oid := Patched(old(orders)[oid], patch).(lineIds := IdRange(old(nextLineId), nextLineId))]
        && OrderLines(oid) == rep.lines
        && lines.Keys == (old(lines).Keys - LineSet(old(orders)[oid].lineIds)) + LineSet(IdRange(old(nextLineId), nextLineId))
        && (forall l :: l in old(lines) && l !in LineSet(old(orders)[oid].lineIds) ==> lines[l] == old(lines)[l])
    {
      var patched := Patched(orders[oid], patch);
      Rewrite(oid, patched);
      err := None;
      if patch.items.Some? {
        assert OrderLines(oid) == old(OrderLines(oid));
        err := ReplaceLines(oid, patch.items.value);
        UpdateTwice(old(orders), oid, patched, patched.(lineIds := IdRange(old(nextLineId), nextLineId)));
      }
    }

    /** update_order. A missing order yields Success(None) and changes
        nothing. The scalar fields present in the patch are overwritten.
        When new lines are given, the old lines give their stock back and
        are deleted, and the new lines are checked, priced and taken as in
        create_order. A refused line raises before anything is committed, so
        the session's rollback undoes the whole call. Otherwise the order is
        stamped and its total recomputed. */
    method UpdateOrder(oid: Id, patch: OrderPatch) returns (r: Result<Option<Order>, OrderError>)
      requires Valid()
      modifies this
      ensures Valid()
      ensures nextItemId == old(nextItemId) && nextOrderId == old(nextOrderId)
      ensures oid !in old(orders) ==> r == Success(None) && unchanged(this)
      ensures oid in old(orders) && patch.items.Some? && old(Replacement(oid, patch.items.value)).error.Some? ==>
        r == Failure(old(Replacement(oid, patch.items.value)).error.value) && unchanged(this)
      ensures oid in old(orders) && (patch.items.None? || old(Replacement(oid, patch.items.value)).error.None?) ==>
        && oid in orders && r == Success(Some(orders[oid]))
        && clock == old(clock) + 2
        && orders == old(orders)[oid := Patched(old(orders)[oid], patch).(lineIds := orders[oid].lineIds,
                                                                           total := Amount(OrderLines(oid)),
                                                                           updatedAt := clock)]
        && (patch.items.None? ==>
              && items == old(items) && lines == old(lines) && nextLineId == old(nextLineId)
              && orders[oid].lineIds == old(orders)[oid].lineIds)
        && (patch.items.Some? ==>
              var rep := old(Replacement(oid, patch.items.value));
              && items == rep.items
              && OrderLines(oid) == rep.lines
              && nextLineId == old(nextLineId) + |rep.lines|
              && orders[oid].lineIds == IdRange(old(nextLineId), nextLineId)
              && lines.Keys == (old(lines).Keys - LineSet(old(orders)[oid].lineIds)) + LineSet(orders[oid].lineIds)
              && (forall l :: l in old(lines) && l !in LineSet(old(orders)[oid].lineIds) ==> lines[l] == old(lines)[l]))
    {
      if oid !in orders {
        return Success(None);
      }
      // what the session would roll back to
      var items0, orders0, lines0, nextLineId0, clock0 := items, orders, lines, nextLineId, clock;
      assert KeysBelow(items0, nextItemId) && Tables(orders0, lines0, nextOrderId, nextLineId0);
      assert TotalsOk(orders0, lines0, {});
      ghost var patched := Patched(orders[oid], patch);
      var err := Amend(oid, patch);
      if err.Some? {
        items, orders, lines, nextLineId, clock := items0, orders0, lines0, nextLineId0, clock0;
        return Failure(err.value);
      }
      ghost var ids := orders[oid].lineIds;
      var total := TouchAndTotal(oid);
      UpdateTwice(old(orders), oid, patched.(lineIds := ids), patched.(lineIds := ids, updatedAt := clock, total := total));
      r := Success(Some(orders[oid]));
    }

    /** delete_order. A missing order yields None and changes nothing.
        Otherwise every line gives its quantity back to its item (if the
        item still exists), and the order is deleted with its lines. */
    method DeleteOrder(oid: Id) returns (r: Option<Order>)
      requires Valid()
      modifies this
      ensures Valid()
      ensures oid !in old(orders) ==> r == None && unchanged(this)
      ensures oid in old(orders) ==>
        && r == Some(old(orders)[oid])
        && items == Restocked(old(items), Requested(old(OrderLines(oid))))
        && orders == old(orders) - {oid}
        && lines == old(lines) - LineSet(old(orders)[oid].lineIds)
      ensures nextItemId == old(nextItemId) && nextOrderId == old(nextOrderId)
    {
      if oid !in orders {
        return None;
      }
      var order := orders[oid];
      RestockLines(order.lineIds);
      RemoveOrder(oid);
      r := Some(order);
    }
  }
}
