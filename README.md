# Order management service: a verified model

This project models the one file of logic in an order-management backend, `main.py`.
That file holds HTTP handlers over a SQLite database with four tables:

- CUSTOMERS: id, name, phone. The phone is UNIQUE.
- ITEMS: id, name, price. The name is UNIQUE.
- ORDERS: id, notes, customer id, timestamp.
- ORDER_LIST: one row per (order, item) line. Lines cascade on ORDERS deletion.

The database is one `Api.Store` object with four fields:

- `customers`, `items` and `orders` are maps from rowid to row.
- `lines` is the ORDER_LIST table as a sequence in rowid order.

Each writing handler is a method. It works on local copies and assigns them to the
fields only where the handler commits; returning early is a rollback.
`Store.Valid()` is the class invariant that every method keeps. It says four things:

- phones are unique;
- item names are unique;
- line rowids strictly increase along `lines`;
- every line's order exists.

The three reading handlers are functions of the fields.

Fresh keys follow SQLite's rule for an INTEGER PRIMARY KEY, `RowIds.NextRowId`: one more
than the largest key, or 1 in an empty table. The clock that `create_order` and
`update_order` read is the parameter `now`. Handler results are `Models.Response`:

- a value;
- `BadRequest` (400), `NotFound` (404) or `Conflict` (409);
- `ServerError`, the 500 that an uncaught `IntegrityError` becomes.

Files: `models.dfy` (request bodies and responses), `schema.dfy` (rows and UNIQUE
constraints), `rowids.dfy` (rowid allocation), `orderlines.dfy` (ORDER_LIST operations and
their lemmas), `store.dfy` (the handlers).

Where the intent and the code differ, the model follows the code:

- Order update is meant to be all-or-nothing. `update_order` commits the new notes and
  timestamp (main.py:394-395) before it replaces the lines. A missing item then rolls
  back only the line changes. `Api.Store.UpdateOrder` says exactly this.
- Every line is meant to name an existing item. `delete_item` runs without foreign keys,
  so lines can name deleted items. `Api.Store.GetOrder` leaves those out.
- Customer deletion does not touch that customer's orders. `update_order` ignores the
  body's `customer_id`.

## Model

| member | source | states |
|---|---|---|
| RowIds.Maximum | main.py:82 | The largest key is in the set and no key exceeds it. |
| RowIds.HasMaximum | main.py:82 | Every non-empty finite set of keys has a largest element (induction on the set). |
| RowIds.NextRowId | main.py:82 | A new rowid is not in use and exceeds every key in use. It is 1 in an empty table, otherwise the largest key plus one. |
| OrderLines.ItemsOf | main.py:326 | An item id is among an order's line items exactly when some line of that order names it. |
| OrderLines.LinesWithout | main.py:399 | The rows left after deleting an order's lines are exactly the rows of other orders. |
| OrderLines.LinesWithoutOrdered | init_db.py:36 | Deleting an order's lines keeps the remaining rows in rowid order. |
| OrderLines.ItemsOfLinesWithout | main.py:362 | After the delete the order has no items, and every other order keeps its item list unchanged. |
| OrderLines.LinesForAt | main.py:290-294 | The k-th inserted line has rowid first + k, the order's id, and the k-th requested item id. |
| OrderLines.LinesForOwned | main.py:290-294 | Lines inserted for an existing order keep "every line's order exists". |
| OrderLines.LinesForOrdered | main.py:290-294 | Inserting lines one at a time under SQLite's next rowid keeps the table in rowid order and advances the next rowid by the number of lines. |
| OrderLines.ItemsOfLinesFor | main.py:290-297 | Appending an order's lines gives that order exactly the requested item ids, in order and with duplicates, after its old ones. Every other order's item list is unchanged. |
| OrderLines.ReferencedItemsOf | main.py:324-329 | When all of an order's item ids exist, the order shows exactly those items, each once. |
| Api.IdentityTestRejectsMatchingId | main.py:385 | The identity test refuses equal ids above 256 and accepts equal small ids. |
| Api.Store.constructor | init_db.py:8-39 | The tables start empty and satisfy the schema invariant. |
| Api.Store.ReadCustomer | main.py:41-60 | Returns the stored customer with its id exactly when the id exists, otherwise NotFound. |
| Api.Store.CreateCustomer | main.py:62-90 | A supplied id gives BadRequest and a phone already in use gives Conflict; both change nothing. Success inserts exactly one row under the next rowid, and reading it back returns the answer. |
| Api.Store.UpdateCustomer | main.py:93-127 | A path/body id mismatch gives BadRequest and an absent id gives NotFound; both change nothing. Another customer's phone gives ServerError with nothing changed. Success replaces exactly that row. Other tables are untouched. |
| Api.Store.DeleteCustomer | main.py:129-155 | An absent id gives NotFound and changes nothing. Success removes exactly that row and answers 1. ITEMS, ORDERS and ORDER_LIST never change. |
| Api.Store.GetItem | main.py:157-178 | Returns the stored item with its id exactly when the id exists, otherwise NotFound. |
| Api.Store.CreateItem | main.py:180-202 | A duplicate name gives Conflict and changes nothing. Otherwise any id in the body is ignored, one row goes in under the next rowid, and reading it back returns the answer. |
| Api.Store.DeleteItem | main.py:204-231 | An absent id gives NotFound and changes nothing. Success removes exactly that row. Lines that name the item stay. |
| Api.Store.UpdateItem | main.py:233-261 | A path/body id mismatch gives BadRequest and an absent id gives NotFound; both change nothing. Another item's name gives ServerError with nothing changed. Success replaces exactly that row. |
| Api.Store.InsertLines | main.py:290-297 | Fails exactly when some requested item id is not in ITEMS. Otherwise appends one line per requested id, in order and with duplicates, under consecutive fresh rowids, keeping rowid order. |
| Api.Store.GetOrder | main.py:303-340 | NotFound exactly when the order is absent. Otherwise the order's fields plus each existing item named by at least one of its lines, once; dangling references are left out. |
| Api.Store.CreateOrder | main.py:263-301 | An unknown customer or any unknown item gives NotFound and leaves all four tables as they were. Success gives one new order (given notes and customer, timestamp = now) under the next rowid. Its lines are exactly the requested ids, in order. Other orders' lines and the other tables are unchanged. GetOrder then shows those notes and items. |
| Api.Store.DeleteOrder | main.py:342-370 | An unknown id gives NotFound and changes nothing. Success removes the order and every line naming it, and nothing else. No line names the id afterwards, and GetOrder answers NotFound. |
| Api.Store.UpdateOrder | main.py:372-413 | An id mismatch gives BadRequest and an absent order gives NotFound; both change nothing. Otherwise the notes and timestamp are set and the customer is kept. A missing item then gives NotFound with the lines as before. Success makes the order's lines exactly the new item list and leaves other orders' lines untouched. |

## Left out

- HTTP routing, pydantic validation and the shape of the response dictionaries are not modelled. Error detail messages are dropped; only the status kind is kept.
- SQLite connections, SQL text, cursors and `PRAGMA foreign_keys` are not modelled; the tables are abstract values. Per-request connections, concurrency and connection failures (`conn` unbound in a `finally`) are outside the model.
- `datetime.now()` is an external clock, so the model takes the parameter `now`.
- Prices are `real` and nothing computes with them. Float rounding and NaN are not modelled.
- Integers are unbounded. SQLite's random rowid choice after 9223372036854775807 is not modelled.
- The `if ... is None` guards in delete_customer, get_item, delete_item, get_order and delete_order are not modelled. Path parameters are ints, so these guards never fire.
- update_order's `inserted` counter (main.py:400-406) is not modelled because nothing reads it. The loop that create_order and update_order share is one method, `Api.Store.InsertLines`.
- init_db.py's seeding script and its `list_*` helpers are not modelled. Its UNIQUE and ON DELETE CASCADE clauses appear as `Store.Valid()` and as the behaviour of `DeleteOrder`. "Every line's order exists" is taken to hold of the initial data.
- Api.Store.GetOrder: returns the item rows as a map keyed by item id, not as a list of name/price pairs, because the SQL query does not fix their order.
- Api.Store.UpdateOrder: checks the id with value inequality, not CPython's `is not`. See Findings.

## Findings

| source | as written | input that shows it | evidently intended | confidence | as-written member | corrected member |
|---|---|---|---|---|---|---|
| main.py:385 | `order_id is not order.order_id` compares object identity. CPython shares int objects only from -5 to 256. | PUT /orders/257 with body `order_id` 257 is refused with 400 | compare values with `!=`, as update_customer and update_item do | not executed; depends on CPython's small-int cache | Api.IdentityTestRejectsMatchingId | Api.Store.UpdateOrder |
