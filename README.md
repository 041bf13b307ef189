# Order workflow of an e-commerce backend, in Dafny

This project models the CRUD layer of a small e-commerce service (`crud.py`). It covers
three tables:

- items, with name, description, price and stock quantity;
- orders, with customer, status, total and timestamps;
- order lines: one row per ordered item, owned by its order, with a quantity and the unit price paid.

It also models the order workflow that keeps these tables in step:

- **create_order** writes the order row first. It then walks the requested lines in order. For each line it looks the item up and checks the item's *running* stock. It writes the line at the item's *current* price and takes the quantity from stock.
  - The first refused line raises an error: either the item is missing or its stock is short, and the error names the item, what is available and what was requested.
  - Before raising, create_order deletes the order together with its lines. The stock already taken by earlier lines stays taken, as in the source.
  - When every line is accepted, the order total is computed.
- **update_order** overwrites only the fields present in the patch. When new lines are given:
  - the old lines give their quantities back to their items and are deleted;
  - the new lines are checked, priced and taken against the restocked items.
  - A refused line raises before anything is committed, so the whole call is rolled back.
  - Otherwise the order is stamped and its total recomputed.
- **delete_order** gives every line's quantity back to its item, if the item still exists. It then deletes the order, and the cascade deletes its lines.
- **calculate_order_total** stores Σ quantity × unit price over the order's current lines.
- item and order reads, with offset and limit; **create_item**, **update_item** and **delete_item**.

The model has four layers:

- `records.dfy` holds the rows and the request and patch payloads.
- `ledger.dfy` holds functions that specify the workflow on values: `Take` (one line), `Reserve` (a run of lines that stops at the first refusal), `Restocked`, `Priced`, `Amount` and `Patched`. It also holds their properties: stock conservation, the price snapshot, the error reported, the totals and the stock delta of an update.
- `paging.dfy` holds the ordered listing with offset and limit.
- `crud.dfy` holds the database as a class `Store` with three maps and the id counters. Its methods update the maps in place, with loops where the source loops. Each method is proved against the ledger functions, and each keeps the store's invariant `Valid()`:
  - keys come from the counters;
  - every order's line ids are rows that name that order;
  - every row is listed by its order (no orphans);
  - every order's total equals the sum over its lines.
- `scenarios.dfy` strings whole calls together: create then delete restores the store, plus worked examples.

Prices and totals are whole cents. Timestamps are the values of a clock counter that each stamping call advances.

## Model

| member | source | states |
|---|---|---|
| Ledger.Reserve | crud.py:78-111 | the item table keeps its keys; at most one line is accepted per request, and every request is accepted exactly when no error is reported |
| Ledger.ReserveStep | crud.py:78-111 | after a run with no refusal, the next request is either refused with Take's error and nothing else changes, or priced, appended and taken from the running stock |
| Ledger.ReserveStock | crud.py:108-110 | each item's stock drops by exactly the combined quantity of the accepted lines naming it, and no other field of any item changes |
| Ledger.ReservePrices | crud.py:99-104 | accepted line k is request k at the price its item had when the call began (the price snapshot) |
| Ledger.ReserveRequests | crud.py:99-104 | the accepted lines, read back as requests, are exactly the accepted prefix of the requests |
| Ledger.ReserveFailure | crud.py:80-97 | when an error is reported, every line before the refused one was accepted; the refused line meets the resulting stock, and Take refuses it with that very error: ItemNotFound(id) for a missing item, or InsufficientStock(name, available, requested) for short stock |
| Ledger.ReserveStopsAt | crud.py:81-97 | once a prefix of the requests is refused, later requests change nothing |
| Ledger.ReserveLeavesStockNonNegative | crud.py:92-110 | every item an accepted line took stock from is left with non-negative stock |
| Ledger.ReserveWithinStock | crud.py:92-110 | on success every item exists, and the combined quantity asked of it is at most its stock at the start |
| Ledger.ReserveSucceedsIff | crud.py:78-111 | with non-negative quantities, the order goes through exactly when every item exists and covers its combined quantity |
| Ledger.AmountIsQuote | crud.py:14-16 | lines priced at an item table are worth the quote of their requests at those prices |
| Ledger.ReserveAmount | crud.py:99-104 | the accepted lines are worth the quote of the accepted requests at the prices of the call's start |
| Ledger.AmountAppend | crud.py:14-16 | appending a line adds its quantity × unit price to the sum |
| Ledger.Priced | crud.py:15-16 | one priced line per line id, carrying that row's item, quantity and unit price |
| Ledger.PricedStable | crud.py:15-16 | the priced lines of an order depend only on that order's own rows |
| Ledger.PricedConcat | crud.py:15-16 | pricing distributes over concatenation of line ids |
| Ledger.Restocked | crud.py:183-186 | giving quantities back keeps the item table's keys |
| Ledger.RestockedStock | crud.py:183-186 | each existing item gets back exactly the combined quantity named for it; a missing item is skipped |
| Ledger.RestockUndoesReserve | crud.py:183-186 | giving back what a reservation accepted restores the item table it started from exactly |
| Ledger.UpdateStockDelta | crud.py:138-165 | a successful line replacement moves each item's stock by +quantity given back − quantity newly taken |
| Ledger.PatchOnlyPresentFields | crud.py:128-133 | a patch overwrites exactly the fields it carries; lines, total and timestamps stay |
| Ledger.PatchIdempotent | crud.py:128-133 | applying the same patch twice is applying it once |
| Paging.Listing | crud.py:24-25 | exactly the rows whose keys lie in the range, each with its own value, in increasing key order |
| Paging.Page | crud.py:24-25 | offset/limit: min(limit, n − skip) rows (none past the end), the k-th being row skip + k |
| Paging.PagesConcatenate | crud.py:24-25 | two consecutive pages are the page of their combined size |
| Crud.Attached | crud.py:99-106 | writing lines to an order keeps the set of orders |
| Crud.AttachedShape | crud.py:99-106 | writing lines appends fresh consecutive ids to the order's collection, adds exactly those rows and leaves every existing row alone |
| Crud.AttachedRow | crud.py:99-106 | the row written for the k-th line is owned by the order and carries that line's item, quantity and unit price |
| Crud.AttachedRange | crud.py:99-106 | the rows written, read back in id order, price to the accepted lines |
| Crud.AttachedPriced | crud.py:99-106 | the order's priced lines grow by exactly the accepted lines |
| Crud.AttachedTables | models.py:33 | writing lines keeps ids below the counters, every listed line owned by its order, and no orphan rows |
| Crud.AttachedTotals | crud.py:99-106 | writing lines to one order leaves every other order's total correct |
| Crud.AttachedUndo | crud.py:81-84 | deleting the order just created, with the lines written to it, gives back the order and line tables as they were |
| Crud.AttachKeepsTables | crud.py:99-106 | appending one fresh line to an order keeps the tables consistent |
| Crud.AttachKeepsTotals | crud.py:99-106 | appending one fresh line to an order leaves every other order's total correct |
| Crud.NewOrder | crud.py:69-75 | a new order with no lines, under the next id, keeps the tables consistent; deleting it gives back the order table |
| Crud.Clear | crud.py:143-144 | deleting one order's lines and emptying its collection keeps ownership, no orphans and the other totals |
| Crud.Rewritten | crud.py:127-133 | overwriting an order with a value that keeps its line list keeps the tables consistent and the other totals correct |
| Crud.Store.GetItem | crud.py:28-29 | Some(row) exactly when the id is present |
| Crud.Store.GetItems | crud.py:24-25 | at most limit items, each with its own row, in increasing id order |
| Crud.Store.CreateItem | crud.py:32-37 | a new row under a fresh id, with the client's fields and a creation stamp; the invariant holds |
| Crud.Store.UpdateItem | crud.py:40-47 | a missing id gives None and changes nothing; otherwise every client field is overwritten, the creation stamp is kept, and orders and their prices are untouched |
| Crud.Store.DeleteItem | crud.py:50-55 | a missing id gives None and changes nothing; otherwise the row is returned and removed |
| Crud.Store.GetOrder | crud.py:63-64 | Some(row) exactly when the id is present |
| Crud.Store.GetOrders | crud.py:59-60 | at most limit orders, each with its own row, in increasing id order |
| Crud.Store.CalculateOrderTotal | crud.py:9-20 | a missing order gives 0 and changes nothing; otherwise the total is Σ quantity × unit price over the order's lines, stored together with a fresh stamp, and every order's total is correct again |
| Crud.Store.AddLine | crud.py:79-110 | one requested line: refused with Take's error and nothing changed, or written at the item's current price with a fresh id and its quantity taken from stock |
| Crud.Store.RunLines | crud.py:78-111 | the loop over the requested lines ends in Reserve's stock and error, with Reserve's accepted lines written to the order |
| Crud.Store.AddLines | crud.py:78-111 | as RunLines, and the order's priced lines grow by exactly the accepted lines while the tables stay consistent |
| Crud.Store.ClearLines | crud.py:143-144 | the order's rows are deleted and its collection emptied |
| Crud.Store.RemoveOrder | crud.py:188-189 | the order row is deleted, and its lines with it (the cascade) |
| Crud.GiveBack | crud.py:183-186 | the loop over an order's lines ends with each line's quantity given back to its item, when the item still exists |
| Crud.Store.RestockLines | crud.py:182-186 | each line's quantity goes back to its item, when the item still exists |
| Crud.Store.InsertOrder | crud.py:69-75 | a new order under the next id: status "pending", total 0, both stamps equal, no lines |
| Crud.Store.CreateOrder | crud.py:67-119 | the stock is Reserve's. On a refused line the error is Reserve's, and the order and line tables are as before. On success the new order holds the customer, "pending", the total of the accepted lines and their fresh line ids; its priced lines are the accepted ones, and no existing row changes |
| Crud.Store.Rewrite | crud.py:127-133 | the order is replaced by a value with the same lines, and the invariant minus that order's total is kept |
| Crud.Store.ReplaceLines | crud.py:136-165 | the old lines go back to stock and are deleted; the new lines are run against the restocked items; the order lists exactly the new rows, and the other rows are untouched |
| Crud.Store.Amend | crud.py:127-165 | the patched fields are overwritten; without new lines nothing else changes, and with new lines the outcome is ReplaceLines' |
| Crud.Store.TouchAndTotal | crud.py:167-171 | the order is stamped and then its total is recomputed and stamped again |
| Crud.Store.UpdateOrder | crud.py:122-174 | a missing order gives Success(None) and changes nothing; a refused new line gives that error and changes nothing (rollback); otherwise exactly the patched fields change, the lines are replaced (if given) with the stock moved accordingly, and the total is that of the order's current lines |
| Crud.Store.DeleteOrder | crud.py:177-190 | a missing order gives None and changes nothing; otherwise the stock of its lines is given back and the order is removed with its lines |
| Scenarios.CreateThenDelete | crud.py:177-190 | a successful create_order followed by delete_order of that order restores every item's stock, the order table and the line table |
| Scenarios.SellOut | crud.py:92-97 | five in stock at 10.00: ordering five costs 50.00 and leaves 0; ordering one more is refused with InsufficientStock("widget", 0, 1) |
| Scenarios.RefusedOrderKeepsTaken | crud.py:81-85 | a create_order refused at its second line leaves no order, but the first line's quantity stays taken |
| Scenarios.ChangeQuantity | crud.py:136-165 | changing an order from two to four of five in stock leaves one, and the total becomes 40.00 |
| Scenarios.PriceSnapshot | crud.py:99-104 | after the item's price changes, recomputing the order's total still uses the price the line was written at |

## Left out

- Sessions, commits, HTTP handlers, the debug prints and the database engine are not modelled. `database.py` is not part of this model.
- A call's changes are applied at once; concurrent requests are not modelled.
- Prices and totals are floating point in the source and whole cents here, so rounding is not modelled.
- Timestamps come from a clock counter, not from datetime.utcnow.
- The source's id sequence is not modelled: ids are never reused.
- Crud.Store.GetItems: a negative offset or limit, which the database would reject or treat specially, is not modelled; the parameters are `nat`.
- Crud.Store.GetOrders: a negative offset or limit is not modelled, for the same reason.
- Crud.Store.DeleteItem: the ORM would clear `item_id` in the lines that refer to the deleted item. The model leaves the old id in those lines. Because ids are never reused, the item lookups that create, update and delete perform give the same result either way.
- Crud.Store.UpdateOrder: a refused new line is modelled as a rollback of the whole call, because nothing is committed before the error and the session is closed without a commit.
- Crud.Store.UpdateOrder: update_order's message for short stock names only the item. The model's InsufficientStock also carries the available and requested quantities.
- Item fields are not validated: prices, stock and quantities may be any integers, as the request schemas declare no bounds. Ledger.ReserveSucceedsIff alone assumes non-negative quantities.
