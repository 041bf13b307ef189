/** Whole calls of the order workflow strung together: an order created and
    deleted again leaves the store as it was, and a few worked examples on a
    fresh store. */
module Scenarios {
  import opened Records
  import opened Ledger
  import opened Crud

  /** Taking a set of fresh keys back out of a table that gained them gives
      the table it started from. */
  lemma DropAdded(before: map<Id, OrderLine>, after: map<Id, OrderLine>, added: set<Id>)
    requires after.Keys == before.Keys + added
    requires forall l :: l in added ==> l !in before
    requires forall l :: l in before ==> after[l] == before[l]
    ensures after - added == before
  {
    forall l ensures l in (after - added).Keys <==> l in before.Keys {
      if l in added {
        assert l !in before;
      }
    }
    assert (after - added).Keys == before.Keys;
    forall l | l in before ensures (after - added)[l] == before[l] {
      assert l !in added;
    }
  }

  /** A single requested line. */
  lemma ReserveOne(items: map<Id, Item>, req: LineRequest)
    ensures var t := Take(items, req);
      Reserve(items, [req]) ==
        if t.Success? then Reservation(t.value.0, [t.value.1], None) else Reservation(items, [], Some(t.error))
  {
    assert [req][..0] == [];
  }

  /** A single line given back. */
  lemma RestockedOne(items: map<Id, Item>, req: LineRequest)
    ensures Restocked(items, [req]) ==
      if req.itemId in items
      then items[req.itemId := items[req.itemId].(stock := items[req.itemId].stock + req.quantity)]
      else items
  {
    assert [req][..0] == [];
  }

  /** create_order followed by delete_order of the order it made: every
      item's stock, the order table and the line table are back where they
      were. */
  method CreateThenDelete(s: Store, name: string, email: string, reqs: seq<LineRequest>)
    returns (r: Result<Id, OrderError>)
    requires s.Valid()
    modifies s
    ensures s.Valid()
    ensures r.Success? <==> Reserve(old(s.items), reqs).error.None?
    ensures r.Success? ==> s.items == old(s.items) && s.orders == old(s.orders) && s.lines == old(s.lines)
  {
    ghost var res := Reserve(s.items, reqs);
    ghost var lines0, start := s.lines, s.nextLineId;
    r := s.CreateOrder(name, email, reqs);
    if r.Success? {
      ReserveRequests(old(s.items), reqs);
      RestockUndoesReserve(old(s.items), reqs);
      ghost var added := LineSet(IdRange(start, s.nextLineId));
      forall l | l in added ensures l !in lines0 {
        assert l in IdRange(start, s.nextLineId);
      }
      DropAdded(lines0, s.lines, added);
      assert s.orders[r.value].lineIds == IdRange(start, s.nextLineId);
      var _ := s.DeleteOrder(r.value);
      assert s.orders == old(s.orders);
    }
  }

  /** A fresh store holding five widgets at 10.00 and nothing else. */
  method WidgetStore() returns (s: Store, id: Id)
    ensures fresh(s) && s.Valid()
    ensures id == 1 && s.items == map[id := Item("widget", "", 1000, 5, 1)] && s.orders == map[]
  {
    s := new Store();
    id := s.CreateItem(ItemFields("widget", "", 1000, 5));
  }

  /** Five widgets at 10.00 are in stock. An order for all five costs 50.00
      and empties the stock; a second order for one more is refused, naming
      the item, what is left and what was asked. */
  method SellOut() returns (total: int, left: int, second: Result<Id, OrderError>)
    ensures total == 5000 && left == 0
    ensures second == Failure(InsufficientStock("widget", 0, 1))
  {
    var s, id := WidgetStore();
    var reqs := [LineRequest(id, 5)];
    ReserveOne(s.items, reqs[0]);
    assert reqs == [reqs[0]];
    var first := s.CreateOrder("Ann", "ann@example.com", reqs);
    total := s.orders[first.value].total;
    left := s.items[id].stock;
    var one := LineRequest(id, 1);
    ReserveOne(s.items, one);
    second := s.CreateOrder("Bob", "bob@example.com", [one]);
  }

  /** An order for two widgets and then an unknown item is refused with
      ItemNotFound and leaves no order behind, but the two widgets taken for
      its first line stay taken: five in stock leave three. */
  method RefusedOrderKeepsTaken() returns (r: Result<Id, OrderError>, left: int, orders: int)
    ensures r == Failure(ItemNotFound(99)) && left == 3 && orders == 0
  {
    var s, id := WidgetStore();
    var first, missing := LineRequest(id, 2), LineRequest(99, 1);
    var reqs := [first, missing];
    ReserveOne(s.items, first);
    assert reqs[..1] == [first];
    ReserveStep(s.items, reqs, 1);
    assert reqs[..2] == reqs;
    r := s.CreateOrder("Ann", "ann@example.com", reqs);
    left := s.items[id].stock;
    orders := |s.orders.Keys|;
  }

  /** An order for two widgets is changed to four: the two come back to
      stock before the four are taken, so five in stock leave one, and the
      total is recomputed. */
  method ChangeQuantity() returns (total: int, left: int)
    ensures total == 4000 && left == 1
  {
    var s, id, oid := TwoWidgets();
    var more := [LineRequest(id, 4)];
    var returned := LineRequest(id, 2);
    assert Requested(s.OrderLines(oid)) == [returned];
    RestockedOne(s.items, returned);
    ghost var back := Restocked(s.items, [returned]);
    ReserveOne(back, more[0]);
    assert more == [more[0]];
    ghost var rep := Reserve(back, more);
    assert rep.items[id].stock == 1 && rep.lines == [PricedLine(id, 4, 1000)];
    var updated := s.UpdateOrder(oid, OrderPatch(None, None, None, Some(more)));
    assert Amount(rep.lines) == 4000;
    total := updated.value.value.total;
    left := s.items[id].stock;
  }

  /** A fresh store holding one order for two of the five widgets at 10.00. */
  method TwoWidgets() returns (s: Store, id: Id, oid: Id)
    ensures fresh(s) && s.Valid() && oid in s.orders
    ensures id in s.items && s.items[id].stock == 3 && s.items[id].price == 1000
    ensures s.OrderLines(oid) == [PricedLine(id, 2, 1000)]
  {
    s, id := WidgetStore();
    var reqs := [LineRequest(id, 2)];
    ReserveOne(s.items, reqs[0]);
    assert reqs == [reqs[0]];
    var created := s.CreateOrder("Ann", "ann@example.com", reqs);
    oid := created.value;
    assert s.OrderLines(oid) == [PricedLine(id, 2, 1000)];
  }

  /** A line keeps the price its item had when the line was written: a
      later price change, and a recomputation of the total, leave the order
      at the old price. */
  method PriceSnapshot() returns (total: int)
    ensures total == 2000
  {
    var s, id, oid := TwoWidgets();
    var _ := s.UpdateItem(id, ItemFields("widget", "", 1500, 5));
    assert s.OrderLines(oid) == [PricedLine(id, 2, 1000)];
    AmountAppend([], PricedLine(id, 2, 1000));
    total := s.CalculateOrderTotal(oid);
  }
}
