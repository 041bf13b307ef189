/** What the order workflow does to stock, lines and totals, as functions of
    the item table and the requested lines, and the properties of those
    functions. The store's methods are proved against these. */
module Ledger {
  import opened Records

  /** Total quantity that `reqs` asks of item `id`. */
  function QtyFor(reqs: seq<LineRequest>, id: Id): int
    decreases |reqs|
  {
    if reqs == [] then 0
    else
      var last := reqs[|reqs| - 1];
      QtyFor(reqs[..|reqs| - 1], id) + (if last.itemId == id then last.quantity else 0)
  }

  /** One line of create_order / update_order: look the item up, check its
      running stock, snapshot its price into the line and take the stock. */
  function Take(items: map<Id, Item>, req: LineRequest): Result<(map<Id, Item>, PricedLine), OrderError>
  {
    if req.itemId !in items then Failure(ItemNotFound(req.itemId))
    else
      var item := items[req.itemId];
      if item.stock < req.quantity then Failure(InsufficientStock(item.name, item.stock, req.quantity))
      else Success((items[req.itemId := item.(stock := item.stock - req.quantity)],
                    PricedLine(req.itemId, req.quantity, item.price)))
  }

  /** The outcome of running the requested lines in order against an item
      table: the item table afterwards, the lines accepted, and the error of
      the first line refused, if any. */
  datatype Reservation = Reservation(items: map<Id, Item>, lines: seq<PricedLine>, error: Option<OrderError>)

  /** Runs `reqs` in input order, stopping at the first line refused; the
      lines accepted before it keep their stock decrements. */
  function Reserve(items: map<Id, Item>, reqs: seq<LineRequest>): (r: Reservation)
    ensures r.items.Keys == items.Keys
    ensures |r.lines| <= |reqs|
    ensures r.error.None? <==> |r.lines| == |reqs|
    decreases |reqs|
  {
    if reqs == [] then Reservation(items, [], None)
    else
      var prior := Reserve(items, reqs[..|reqs| - 1]);
      if prior.error.Some? then prior
      else match Take(prior.items, reqs[|reqs| - 1])
        case Failure(e) => prior.(error := Some(e))
        case Success(taken) => Reservation(taken.0, prior.lines + [taken.1], None)
  }

  /** Gives back the quantity of every request to its item, skipping items
      that no longer exist. */
  function Restocked(items: map<Id, Item>, reqs: seq<LineRequest>): (r: map<Id, Item>)
    ensures r.Keys == items.Keys
    decreases |reqs|
  {
    if reqs == [] then items
    else
      var prior := Restocked(items, reqs[..|reqs| - 1]);
      var req := reqs[|reqs| - 1];
      if req.itemId in prior
      then prior[req.itemId := prior[req.itemId].(stock := prior[req.itemId].stock + req.quantity)]
      else prior
  }

  /** Every id in `ids` is a row of `lines`. */
  predicate AllIn(ids: seq<Id>, lines: map<Id, OrderLine>)
  {
    forall k :: 0 <= k < |ids| ==> ids[k] in lines
  }

  /** The priced lines that the line ids `ids` stand for. */
  function Priced(ids: seq<Id>, lines: map<Id, OrderLine>): (r: seq<PricedLine>)
    requires AllIn(ids, lines)
    ensures |r| == |ids|
    ensures forall k :: 0 <= k < |r| ==>
      r[k] == PricedLine(lines[ids[k]].itemId, lines[ids[k]].quantity, lines[ids[k]].unitPrice)
    decreases |ids|
  {
    if ids == [] then []
    else
      var line := lines[ids[|ids| - 1]];
      Priced(ids[..|ids| - 1], lines) + [PricedLine(line.itemId, line.quantity, line.unitPrice)]
  }

  /** Sum of quantity * unit price. */
  function Amount(ps: seq<PricedLine>): int
    decreases |ps|
  {
    if ps == [] then 0
    else
      var last := ps[|ps| - 1];
      Amount(ps[..|ps| - 1]) + last.quantity * last.unitPrice
  }

  /** The total that calculate_order_total computes for lines `ids`. */
  function LinesTotal(ids: seq<Id>, lines: map<Id, OrderLine>): int
    requires AllIn(ids, lines)
  {
    Amount(Priced(ids, lines))
  }

  /** The (item, quantity) requests behind priced lines. */
  function Requested(ps: seq<PricedLine>): seq<LineRequest>
  {
    seq(|ps|, k requires 0 <= k < |ps| => LineRequest(ps[k].itemId, ps[k].quantity))
  }

  /** What an order would cost at the item prices in `items`. */
  function Quote(items: map<Id, Item>, reqs: seq<LineRequest>): int
    requires forall k :: 0 <= k < |reqs| ==> reqs[k].itemId in items
    decreases |reqs|
  {
    if reqs == [] then 0
    else
      var last := reqs[|reqs| - 1];
      Quote(items, reqs[..|reqs| - 1]) + last.quantity * items[last.itemId].price
  }

  /** update_order's scalar patch: a field is overwritten only when present. */
  function Patched(o: Order, p: OrderPatch): Order
  {
    o.(customerName := if p.customerName.Some? then p.customerName.value else o.customerName,
       customerEmail := if p.customerEmail.Some? then p.customerEmail.value else o.customerEmail,
       status := if p.status.Some? then p.status.value else o.status)
  }

  /** Every request names an existing item and the combined quantity asked
      of it does not exceed its stock. */
  ghost predicate Covered(items: map<Id, Item>, reqs: seq<LineRequest>)
  {
    forall k :: 0 <= k < |reqs| ==>
      reqs[k].itemId in items && QtyFor(reqs, reqs[k].itemId) <= items[reqs[k].itemId].stock
  }

  // ---------------------------------------------------------------------
  // Reserve

  /** Each item's stock drops by exactly what the accepted lines ask of it;
      nothing else about any item changes. On failure the refused line and
      those after it take nothing. */
  lemma {:induction false} ReserveStock(items: map<Id, Item>, reqs: seq<LineRequest>)
    ensures var r := Reserve(items, reqs);
      forall id :: id in items ==>
        r.items[id] == items[id].(stock := items[id].stock - QtyFor(reqs[..|r.lines|], id))
    decreases |reqs|
  {
    if reqs != [] {
      var n := |reqs|;
      var init := reqs[..n - 1];
      ReserveStock(items, init);
      var prior := Reserve(items, init);
      var r := Reserve(items, reqs);
      if prior.error.Some? || Take(prior.items, reqs[n - 1]).Failure? {
        assert r.items == prior.items && r.lines == prior.lines;
        PrefixOfPrefix(reqs, n - 1, |prior.lines|);
      } else {
        PrefixOfPrefix(reqs, n - 1, n - 1);
        Snoc(reqs);
        TakeStock(items, prior.items, init, reqs[n - 1]);
      }
    }
  }

  lemma PrefixOfPrefix<T>(s: seq<T>, i: nat, j: nat)
    requires j <= i <= |s|
    ensures s[..i][..j] == s[..j]
  {
  }

  lemma Snoc<T>(s: seq<T>)
    requires s != []
    ensures s[..|s| - 1] + [s[|s| - 1]] == s && s[..|s|] == s
  {
  }

  /** One more accepted line takes its quantity from its item's stock. */
  lemma TakeStock(items: map<Id, Item>, stock: map<Id, Item>, done: seq<LineRequest>, req: LineRequest)
    requires stock.Keys == items.Keys
    requires forall id :: id in items ==> stock[id] == items[id].(stock := items[id].stock - QtyFor(done, id))
    requires Take(stock, req).Success?
    ensures var after := Take(stock, req).value.0;
      forall id :: id in items ==> after[id] == items[id].(stock := items[id].stock - QtyFor(done + [req], id))
  {
    assert (done + [req])[..|done|] == done;
  }

  /** Accepted line k is request k, at the price its item had when the call
      began (prices do not change during the call). */
  lemma {:induction false} ReservePrices(items: map<Id, Item>, reqs: seq<LineRequest>)
    ensures var r := Reserve(items, reqs);
      forall k :: 0 <= k < |r.lines| ==>
        reqs[k].itemId in items &&
        r.lines[k] == PricedLine(reqs[k].itemId, reqs[k].quantity, items[reqs[k].itemId].price)
    decreases |reqs|
  {
    if reqs != [] {
      var n := |reqs|;
      var init := reqs[..n - 1];
      ReservePrices(items, init);
      ReserveStock(items, init);
      var prior := Reserve(items, init);
      assert forall k :: 0 <= k < |prior.lines| ==> init[k] == reqs[k];
    }
  }

  /** The accepted lines, read back as requests, are the requests accepted. */
  lemma ReserveRequests(items: map<Id, Item>, reqs: seq<LineRequest>)
    ensures var r := Reserve(items, reqs);
      Requested(r.lines) == reqs[..|r.lines|]
  {
    ReservePrices(items, reqs);
  }

  /** The error reported is that of the first line refused: the lines before
      it were all accepted, leaving exactly the item table the call ends
      with, and that table refuses the line. */
  lemma {:induction false} ReserveFailure(items: map<Id, Item>, reqs: seq<LineRequest>)
    ensures var r := Reserve(items, reqs);
      r.error.Some? ==>
        var k := |r.lines|;
        && k < |reqs|
        && Reserve(items, reqs[..k]) == r.(error := None)
        && Take(r.items, reqs[k]) == Failure(r.error.value)
    decreases |reqs|
  {
    if reqs != [] {
      var n := |reqs|;
      var init := reqs[..n - 1];
      ReserveFailure(items, init);
      var prior := Reserve(items, init);
      var r := Reserve(items, reqs);
      if prior.error.Some? {
        assert r == prior;
        var k := |prior.lines|;
        PrefixOfPrefix(reqs, n - 1, k);
        assert init[k] == reqs[k];
      } else if r.error.Some? {
        assert r == prior.(error := r.error);
        assert Take(prior.items, reqs[n - 1]) == Failure(r.error.value);
      }
    }
  }

  /** Once a prefix of the requests is refused, the rest changes nothing. */
  lemma {:induction false} ReserveStopsAt(items: map<Id, Item>, reqs: seq<LineRequest>, k: nat)
    requires k <= |reqs|
    requires Reserve(items, reqs[..k]).error.Some?
    ensures Reserve(items, reqs) == Reserve(items, reqs[..k])
    decreases |reqs| - k
  {
    if k < |reqs| {
      var n := |reqs|;
      assert reqs[..n - 1][..k] == reqs[..k];
      ReserveStopsAt(items, reqs[..n - 1], k);
    } else {
      assert reqs[..k] == reqs;
    }
  }

  /** One more request, after a run that refused nothing: `Take` decides
      whether it is refused or priced and taken. */
  lemma ReserveStep(items: map<Id, Item>, reqs: seq<LineRequest>, i: nat)
    requires i < |reqs|
    requires Reserve(items, reqs[..i]).error.None?
    ensures var prior := Reserve(items, reqs[..i]);
      var t := Take(prior.items, reqs[i]);
      var next := Reserve(items, reqs[..i + 1]);
      && (t.Failure? ==> next == prior.(error := Some(t.error)))
      && (t.Success? ==> next == Reservation(t.value.0, prior.lines + [t.value.1], None))
  {
    assert reqs[..i + 1][..i] == reqs[..i];
  }

  /** Every item that an accepted line took stock from is left with a
      non-negative stock, whatever the quantities: a line is accepted only
      when the running stock covers it. */
  lemma {:induction false} ReserveLeavesStockNonNegative(items: map<Id, Item>, reqs: seq<LineRequest>)
    ensures var r := Reserve(items, reqs);
      forall k :: 0 <= k < |r.lines| ==> reqs[k].itemId in r.items && r.items[reqs[k].itemId].stock >= 0
    decreases |reqs|
  {
    if reqs != [] {
      var n := |reqs|;
      var init := reqs[..n - 1];
      ReserveLeavesStockNonNegative(items, init);
      ReservePrices(items, init);
      var prior := Reserve(items, init);
      var r := Reserve(items, reqs);
      forall k | 0 <= k < |r.lines| ensures reqs[k].itemId in r.items && r.items[reqs[k].itemId].stock >= 0 {
        if k < |prior.lines| {
          assert init[k] == reqs[k];
        }
      }
    }
  }

  /** A successful reservation never asks more of an item, over all its
      lines together, than the item had in stock when the call began. */
  lemma ReserveWithinStock(items: map<Id, Item>, reqs: seq<LineRequest>)
    requires Reserve(items, reqs).error.None?
    ensures Covered(items, reqs)
  {
    ReserveStock(items, reqs);
    ReservePrices(items, reqs);
    ReserveLeavesStockNonNegative(items, reqs);
    assert reqs[..|reqs|] == reqs;
  }

  /** With non-negative quantities the converse holds: the order goes
      through exactly when every item exists and covers its combined
      quantity. */
  lemma {:induction false} ReserveSucceedsIff(items: map<Id, Item>, reqs: seq<LineRequest>)
    requires forall k :: 0 <= k < |reqs| ==> reqs[k].quantity >= 0
    ensures Reserve(items, reqs).error.None? <==> Covered(items, reqs)
    decreases |reqs|
  {
    if Reserve(items, reqs).error.None? {
      ReserveWithinStock(items, reqs);
    }
    if reqs != [] && Covered(items, reqs) {
      var n := |reqs|;
      var init := reqs[..n - 1];
      var last := reqs[n - 1];
      forall k | 0 <= k < n - 1
        ensures init[k].itemId in items && QtyFor(init, init[k].itemId) <= items[init[k].itemId].stock
      {
        assert init[k] == reqs[k];
      }
      ReserveSucceedsIff(items, init);
      var prior := Reserve(items, init);
      ReserveStock(items, init);
      assert init[..n - 1] == init;
    }
  }

  /** Lines priced at `items` are worth the quote for their requests. */
  lemma {:induction false} AmountIsQuote(items: map<Id, Item>, reqs: seq<LineRequest>, ps: seq<PricedLine>)
    requires |ps| == |reqs|
    requires forall k :: 0 <= k < |reqs| ==>
      reqs[k].itemId in items && ps[k] == PricedLine(reqs[k].itemId, reqs[k].quantity, items[reqs[k].itemId].price)
    ensures Amount(ps) == Quote(items, reqs)
    decreases |reqs|
  {
    if reqs != [] {
      var n := |reqs|;
      AmountIsQuote(items, reqs[..n - 1], ps[..n - 1]);
    }
  }

  /** The value of the accepted lines is the quote for the accepted requests
      at the prices of the call's start. */
  lemma ReserveAmount(items: map<Id, Item>, reqs: seq<LineRequest>)
    ensures var r := Reserve(items, reqs);
      (forall k :: 0 <= k < |r.lines| ==> reqs[k].itemId in items) &&
      Amount(r.lines) == Quote(items, reqs[..|r.lines|])
  {
    ReservePrices(items, reqs);
    var r := Reserve(items, reqs);
    AmountIsQuote(items, reqs[..|r.lines|], r.lines);
  }

  // ---------------------------------------------------------------------
  // Restocked

  /** Each existing item gets back exactly the quantity the requests name
      for it; nothing else about any item changes. */
  lemma {:induction false} RestockedStock(items: map<Id, Item>, reqs: seq<LineRequest>)
    ensures forall id :: id in items ==>
      Restocked(items, reqs)[id] == items[id].(stock := items[id].stock + QtyFor(reqs, id))
    decreases |reqs|
  {
    if reqs != [] {
      RestockedStock(items, reqs[..|reqs| - 1]);
    }
  }

  /** Giving back what a reservation accepted restores the item table it
      started from exactly; in particular a successful create followed by
      the delete of that order leaves stock as it was. */
  lemma RestockUndoesReserve(items: map<Id, Item>, reqs: seq<LineRequest>)
    ensures var r := Reserve(items, reqs);
      Restocked(r.items, reqs[..|r.lines|]) == items
  {
    var r := Reserve(items, reqs);
    ReserveStock(items, reqs);
    RestockedStock(r.items, reqs[..|r.lines|]);
    var back := Restocked(r.items, reqs[..|r.lines|]);
    assert forall id :: id in items ==> back[id] == items[id];
  }

  /** Replacing an order's lines moves each item's stock by the quantity
      given back minus the quantity newly taken. */
  lemma UpdateStockDelta(items: map<Id, Item>, returned: seq<LineRequest>, reqs: seq<LineRequest>)
    requires Reserve(Restocked(items, returned), reqs).error.None?
    ensures var after := Reserve(Restocked(items, returned), reqs).items;
      forall id :: id in items ==>
        after[id] == items[id].(stock := items[id].stock + QtyFor(returned, id) - QtyFor(reqs, id))
  {
    RestockedStock(items, returned);
    ReserveStock(Restocked(items, returned), reqs);
    assert reqs[..|reqs|] == reqs;
  }

  // ---------------------------------------------------------------------
  // Lines and totals

  /** The priced lines of `ids` depend only on those lines' rows. */
  lemma {:induction false} PricedStable(ids: seq<Id>, lines: map<Id, OrderLine>, lines': map<Id, OrderLine>)
    requires forall k :: 0 <= k < |ids| ==> ids[k] in lines && ids[k] in lines' && lines'[ids[k]] == lines[ids[k]]
    ensures Priced(ids, lines') == Priced(ids, lines)
    decreases |ids|
  {
    if ids != [] {
      PricedStable(ids[..|ids| - 1], lines, lines');
    }
  }

  /** Adding rows, and keeping the existing ones, does not reprice lines. */
  lemma PricedExtend(ids: seq<Id>, lines: map<Id, OrderLine>, lines': map<Id, OrderLine>)
    requires AllIn(ids, lines) && lines.Keys <= lines'.Keys
    requires forall l :: l in lines ==> lines'[l] == lines[l]
    ensures AllIn(ids, lines')
    ensures Priced(ids, lines') == Priced(ids, lines)
  {
    forall k | 0 <= k < |ids| ensures ids[k] in lines' && lines'[ids[k]] == lines[ids[k]] {
      var l := ids[k];
      assert l in lines;
      assert lines'[l] == lines[l];
    }
    PricedStable(ids, lines, lines');
  }

  /** Pricing distributes over concatenation of line ids. */
  lemma PricedConcat(a: seq<Id>, b: seq<Id>, lines: map<Id, OrderLine>)
    requires AllIn(a, lines) && AllIn(b, lines)
    ensures AllIn(a + b, lines)
    ensures Priced(a + b, lines) == Priced(a, lines) + Priced(b, lines)
  {
    assert forall k :: 0 <= k < |a + b| ==> (a + b)[k] == if k < |a| then a[k] else b[k - |a|];
    assert AllIn(a + b, lines);
    var whole, left, right := Priced(a + b, lines), Priced(a, lines), Priced(b, lines);
    forall k | 0 <= k < |whole| ensures whole[k] == (left + right)[k] {
      if k >= |a| {
        assert (a + b)[k] == b[k - |a|];
      }
    }
  }

  /** Adding a new row leaves the priced lines of existing ids alone. */
  lemma PricedInsert(ids: seq<Id>, lines: map<Id, OrderLine>, lid: Id, line: OrderLine)
    requires AllIn(ids, lines) && lid !in lines
    ensures AllIn(ids, lines[lid := line])
    ensures Priced(ids, lines[lid := line]) == Priced(ids, lines)
  {
    PricedStable(ids, lines, lines[lid := line]);
  }

  /** Listing a new row after existing ids appends its priced line. */
  lemma PricedAppendNew(ids: seq<Id>, lines: map<Id, OrderLine>, lid: Id, line: OrderLine)
    requires AllIn(ids, lines) && lid !in lines
    ensures AllIn(ids + [lid], lines[lid := line])
    ensures Priced(ids + [lid], lines[lid := line]) ==
      Priced(ids, lines) + [PricedLine(line.itemId, line.quantity, line.unitPrice)]
  {
    PricedInsert(ids, lines, lid, line);
    assert (ids + [lid])[..|ids|] == ids;
  }

  /** Appending one line adds its quantity * unit price to the total. */
  lemma AmountAppend(ps: seq<PricedLine>, p: PricedLine)
    ensures Amount(ps + [p]) == Amount(ps) + p.quantity * p.unitPrice
  {
    assert (ps + [p])[..|ps|] == ps;
  }

  /** Appending one line appends its request. */
  lemma RequestedAppend(ps: seq<PricedLine>, p: PricedLine)
    ensures Requested(ps + [p]) == Requested(ps) + [LineRequest(p.itemId, p.quantity)]
  {
  }

  /** Restocking one more request after a prefix. */
  lemma RestockedAppend(items: map<Id, Item>, reqs: seq<LineRequest>, req: LineRequest)
    ensures Restocked(items, reqs + [req]) ==
      var prior := Restocked(items, reqs);
      if req.itemId in prior
      then prior[req.itemId := prior[req.itemId].(stock := prior[req.itemId].stock + req.quantity)]
      else prior
  {
    assert (reqs + [req])[..|reqs|] == reqs;
  }

  // ---------------------------------------------------------------------
  // Patch

  /** Only the fields present in the patch change; everything else, lines
      and total included, stays. */
  lemma PatchOnlyPresentFields(o: Order, p: OrderPatch)
    ensures var r := Patched(o, p);
      && r.customerName == (if p.customerName.Some? then p.customerName.value else o.customerName)
      && r.customerEmail == (if p.customerEmail.Some? then p.customerEmail.value else o.customerEmail)
      && r.status == (if p.status.Some? then p.status.value else o.status)
      && r.(customerName := o.customerName, customerEmail := o.customerEmail, status := o.status) == o
  {
  }

  /** Applying the same patch twice is applying it once. */
  lemma PatchIdempotent(o: Order, p: OrderPatch)
    ensures Patched(Patched(o, p), p) == Patched(o, p)
  {
  }
}
